/** The invariant the get-or-create cascade keeps: every natural key is
    unique in its table (so a `get` never meets two rows), every store id is
    unique, the saved names are normalised, and every reference points at an
    existing row. */
module ModelsValid {
  import opened Wrappers
  import opened Text
  import opened Models
  import opened ModelsFacts

  predicate Distinct<T(==)>(s: seq<T>) {
    forall i, j :: 0 <= i < j < |s| ==> s[i] != s[j]
  }

  predicate Valid(t: Tables) {
    && Distinct(t.businesses)
    && (forall i :: 0 <= i < |t.businesses| ==> BusinessName(t.businesses[i]) == t.businesses[i])
    && Distinct(StoreKeys(t.stores)) && Distinct(StoreIds(t.stores))
    && (forall i :: 0 <= i < |t.stores| ==> t.stores[i].key.business < |t.businesses|)
    && Distinct(t.events)
    && (forall i :: 0 <= i < |t.events| ==>
          t.events[i].store < |t.stores| && SourceName(t.events[i].source) == t.events[i].source)
    && Distinct(t.reviews)
    && (forall i :: 0 <= i < |t.reviews| ==> t.reviews[i].event < |t.events|)
    && Distinct(t.subcategories)
    && Distinct(SubReviewKeys(t.subReviews))
    && (forall i :: 0 <= i < |t.subReviews| ==>
          t.subReviews[i].review < |t.reviews| && t.subReviews[i].subcategory < |t.subcategories|)
  }

  /** The empty database is valid. */
  lemma EmptyValid()
    ensures Valid(EmptyTables)
  {
  }

  /** Appending a key that `Lookup` did not find keeps the keys distinct. */
  lemma DistinctAppend<T>(s: seq<T>, x: T)
    requires Distinct(s) && Lookup(s, x).None?
    ensures Distinct(s + [x])
  {
    LookupIsFirst(s, x);
  }

  // ---------------------------------------------------------------- one operation at a time

  lemma UpsertBusinessValid(t: Tables, name: string)
    requires Valid(t) && BusinessName(name) == name
    ensures Valid(UpsertBusiness(t, name).1)
  {
    BusinessUpserted(t, name);
    if Lookup(t.businesses, name).None? {
      DistinctAppend(t.businesses, name);
    }
  }

  lemma UpsertStoreValid(t: Tables, key: StoreKey, name: string)
    requires Valid(t) && key.business < |t.businesses|
    ensures UpsertStore(t, key, name).Ok? ==> Valid(UpsertStore(t, key, name).value.1)
  {
    if Lookup(StoreKeys(t.stores), key).None? {
      var id := NewStoreId(t.stores, name, key.business);
      if id !in StoreIds(t.stores) {
        var stores := t.stores + [Store(id, key)];
        assert StoreKeys(stores) == StoreKeys(t.stores) + [key];
        assert StoreIds(stores) == StoreIds(t.stores) + [id];
        DistinctAppend(StoreKeys(t.stores), key);
        LookupIsFirst(StoreIds(t.stores), id);
        DistinctAppend(StoreIds(t.stores), id);
      }
    }
  }

  lemma GetOrCreateEventValid(t: Tables, ev: ScrapeEvent)
    requires Valid(t) && ev.store < |t.stores| && SourceName(ev.source) == ev.source
    ensures Valid(GetOrCreateEvent(t, ev).1)
  {
    if Lookup(t.events, ev).None? {
      assert ev.(source := SourceName(ev.source)) == ev;
      DistinctAppend(t.events, ev);
    }
  }

  lemma GetOrCreateReviewValid(t: Tables, rv: Review)
    requires Valid(t) && rv.event < |t.events|
    ensures Valid(GetOrCreateReview(t, rv).1)
  {
    if Lookup(t.reviews, rv).None? {
      DistinctAppend(t.reviews, rv);
    }
  }

  lemma GetOrCreateSubcategoryValid(t: Tables, name: string)
    requires Valid(t)
    ensures Valid(GetOrCreateSubcategory(t, name).1)
  {
    if Lookup(t.subcategories, name).None? {
      DistinctAppend(t.subcategories, name);
    }
  }

  lemma GetOrCreateSubReviewValid(t: Tables, review: nat, subcategory: nat, rating: Value)
    requires Valid(t) && review < |t.reviews| && subcategory < |t.subcategories|
    ensures Valid(GetOrCreateSubReview(t, review, subcategory, rating))
  {
    var key := (review, subcategory);
    if Lookup(SubReviewKeys(t.subReviews), key).None? {
      var subs := t.subReviews + [SubReview(review, subcategory, rating)];
      assert SubReviewKeys(subs) == SubReviewKeys(t.subReviews) + [key];
      DistinctAppend(SubReviewKeys(t.subReviews), key);
    }
  }

  lemma EnsureSubcategoriesValid(t: Tables)
    requires Valid(t)
    ensures Valid(EnsureSubcategories(t).1)
  {
    var (f, t1) := GetOrCreateSubcategory(t, "Food");
    GetOrCreateSubcategoryValid(t, "Food");
    var (s, t2) := GetOrCreateSubcategory(t1, "Service");
    GetOrCreateSubcategoryValid(t1, "Service");
    GetOrCreateSubcategoryValid(t2, "Atmosphere");
  }

  /** Whether every subcategory row `subs` names exists. */
  predicate SubsExist(t: Tables, subs: seq<nat>) {
    forall k :: 0 <= k < |subs| ==> subs[k] < |t.subcategories|
  }

  lemma {:induction false} AddSubReviewsValid(t: Tables, review: nat, subs: seq<nat>, ratings: seq<Value>)
    requires Valid(t) && review < |t.reviews| && SubsExist(t, subs)
    ensures Valid(AddSubReviews(t, review, subs, ratings))
    decreases |ratings|
  {
    if ratings != [] && subs != [] {
      var t1 := if PresentRating(ratings[0]) then GetOrCreateSubReview(t, review, subs[0], ratings[0]) else t;
      if PresentRating(ratings[0]) {
        GetOrCreateSubReviewValid(t, review, subs[0], ratings[0]);
      }
      assert t1.subcategories == t.subcategories && |t1.reviews| == |t.reviews|;
      AddSubReviewsValid(t1, review, subs[1..], ratings[1..]);
    }
  }

  /** What one entry may rely on: valid tables, its business and its
      subcategory rows present, and a normalised source. */
  predicate EntryReady(t: Tables, b: nat, source: string, subs: seq<nat>) {
    Valid(t) && b < |t.businesses| && SubsExist(t, subs) && SourceName(source) == source
  }

  lemma ProcessEntryValid(t: Tables, e: Entry, b: nat, name: string, source: string, subs: seq<nat>)
    requires EntryReady(t, b, source, subs)
    ensures EntryReady(ProcessEntry(t, e, b, name, source, subs).0, b, source, subs)
  {
    if AddressPresent(e) && AddressText(e) {
      var key := AddressKey(e, b);
      UpsertStoreValid(t, key, name);
      if UpsertStore(t, key, name).Ok? {
        var (store, t1) := UpsertStore(t, key, name).value;
        var ev := ScrapeEvent(store, source);
        GetOrCreateEventValid(t1, ev);
        var (event, t2) := GetOrCreateEvent(t1, ev);
        if ReviewComplete(e) {
          var rv := Review(event, e.reviewDate, e.rating, e.content, e.firstName, e.lastName);
          GetOrCreateReviewValid(t2, rv);
          var (review, t3) := GetOrCreateReview(t2, rv);
          AddSubReviewsValid(t3, review, subs, Ratings(e));
        }
      }
    }
  }

  lemma EntryStepValid(b: nat, name: string, source: string, subs: seq<nat>)
    ensures StepKeeps(EntryStep(b, name, source, subs), (u: Tables) => EntryReady(u, b, source, subs))
  {
    forall t, e | EntryReady(t, b, source, subs)
      ensures EntryReady(EntryStep(b, name, source, subs)(t, e).0, b, source, subs)
    {
      ProcessEntryValid(t, e, b, name, source, subs);
    }
  }

  // ---------------------------------------------------------------- the whole call

  /** `create_scrape_event` keeps the tables valid, whatever it returns. */
  lemma CreateScrapeEventValid(t: Tables, data: seq<Entry>, businessName: string, source: string)
    requires Valid(t)
    ensures Valid(CreateScrapeEvent(t, data, businessName, source).0)
  {
    if businessName != [] {
      NamesNormalised(businessName, source);
      UpsertBusinessValid(t, BusinessName(businessName));
      var (b, t1) := UpsertBusiness(t, BusinessName(businessName));
      if source != [] {
        EnsureSubcategoriesValid(t1);
        var (subs, t2) := EnsureSubcategories(t1);
        var step := EntryStep(b, t1.businesses[b], SourceName(source), subs);
        EntryStepValid(b, t1.businesses[b], SourceName(source), subs);
        ProcessEntriesKeeps(t2, data, step, [], 0, (u: Tables) => EntryReady(u, b, SourceName(source), subs));
      }
    }
  }
}
