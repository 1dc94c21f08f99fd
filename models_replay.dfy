/** Re-running an import on the tables it produced changes nothing: every
    get-or-create finds the row it found or created the first time. */
module ModelsReplay {
  import opened Wrappers
  import opened Text
  import opened Models

  // ---------------------------------------------------------------- growth

  lemma ExtendsTransitive(t: Tables, u: Tables, v: Tables)
    requires Extends(t, u) && Extends(u, v)
    ensures Extends(t, v)
  {
  }

  lemma PrefixStoreKeys(a: seq<Store>, b: seq<Store>)
    requires |a| <= |b| && b[..|a|] == a
    ensures |StoreKeys(a)| <= |StoreKeys(b)| && StoreKeys(b)[..|a|] == StoreKeys(a)
  {
    assert StoreKeys(b)[..|a|] == StoreKeys(a);
  }

  lemma PrefixSubReviewKeys(a: seq<SubReview>, b: seq<SubReview>)
    requires |a| <= |b| && b[..|a|] == a
    ensures |SubReviewKeys(a)| <= |SubReviewKeys(b)| && SubReviewKeys(b)[..|a|] == SubReviewKeys(a)
  {
    assert SubReviewKeys(b)[..|a|] == SubReviewKeys(a);
  }

  /** A key found in a table is found at the same row once the table has
      grown. */
  lemma LookupGrown<K>(a: seq<K>, b: seq<K>, k: K)
    requires Lookup(a, k).Some? && |a| <= |b| && b[..|a|] == a
    ensures Lookup(b, k) == Lookup(a, k)
  {
    assert b == a + b[|a|..];
    LookupPrefix(a, b[|a|..], k);
  }

  /** A normalised name re-saved by `update_or_create` stays as it is. */
  predicate IsBusinessName(name: string) { BusinessName(name) == name }
  predicate IsSourceName(source: string) { SourceName(source) == source }

  // ---------------------------------------------------------------- one get-or-create at a time

  /** The business upsert on a normalised name only appends, and run again
      on any larger tables it finds the same row and changes nothing. */
  lemma UpsertBusinessStable(t: Tables, name: string, u: Tables)
    requires IsBusinessName(name)
    ensures Extends(t, UpsertBusiness(t, name).1)
    ensures Extends(UpsertBusiness(t, name).1, u) ==> UpsertBusiness(u, name) == (UpsertBusiness(t, name).0, u)
  {
    var (i, t1) := UpsertBusiness(t, name);
    LookupIsFirst(t.businesses, name);
    if Lookup(t.businesses, name).Some? {
      assert t1 == t;
      LookupPrefix(t.businesses, [], name);
      assert t.businesses + [] == t.businesses;
    } else {
      LookupAppended(t.businesses, name);
    }
    if Extends(t1, u) {
      LookupGrown(t1.businesses, u.businesses, name);
      LookupIsFirst(u.businesses, name);
      assert u.businesses[i := BusinessName(u.businesses[i])] == u.businesses;
    }
  }

  lemma UpsertStoreStable(t: Tables, key: StoreKey, name: string, u: Tables)
    requires UpsertStore(t, key, name).Ok?
    ensures Extends(t, UpsertStore(t, key, name).value.1)
    ensures Extends(UpsertStore(t, key, name).value.1, u) ==>
      UpsertStore(u, key, name) == Ok((UpsertStore(t, key, name).value.0, u))
  {
    var (i, t1) := UpsertStore(t, key, name).value;
    var keys := StoreKeys(t.stores);
    if Lookup(keys, key).Some? {
      LookupPrefix(keys, [], key);
      assert keys + [] == keys;
    } else {
      assert StoreKeys(t1.stores) == keys + [key];
      LookupAppended(keys, key);
    }
    assert Lookup(StoreKeys(t1.stores), key) == Some(i);
    if Extends(t1, u) {
      PrefixStoreKeys(t1.stores, u.stores);
      LookupGrown(StoreKeys(t1.stores), StoreKeys(u.stores), key);
    }
  }

  lemma GetOrCreateEventStable(t: Tables, e: ScrapeEvent, u: Tables)
    requires IsSourceName(e.source)
    ensures Extends(t, GetOrCreateEvent(t, e).1)
    ensures Extends(GetOrCreateEvent(t, e).1, u) ==> GetOrCreateEvent(u, e) == (GetOrCreateEvent(t, e).0, u)
  {
    var (i, t1) := GetOrCreateEvent(t, e);
    if Lookup(t.events, e).Some? {
      LookupPrefix(t.events, [], e);
      assert t.events + [] == t.events;
    } else {
      assert e.(source := SourceName(e.source)) == e;
      LookupAppended(t.events, e);
    }
    if Extends(t1, u) {
      LookupGrown(t1.events, u.events, e);
    }
  }

  lemma GetOrCreateReviewStable(t: Tables, rv: Review, u: Tables)
    ensures Extends(t, GetOrCreateReview(t, rv).1)
    ensures Extends(GetOrCreateReview(t, rv).1, u) ==> GetOrCreateReview(u, rv) == (GetOrCreateReview(t, rv).0, u)
  {
    var (i, t1) := GetOrCreateReview(t, rv);
    if Lookup(t.reviews, rv).Some? {
      LookupPrefix(t.reviews, [], rv);
      assert t.reviews + [] == t.reviews;
    } else {
      LookupAppended(t.reviews, rv);
    }
    if Extends(t1, u) {
      LookupGrown(t1.reviews, u.reviews, rv);
    }
  }

  lemma GetOrCreateSubcategoryStable(t: Tables, name: string, u: Tables)
    ensures Extends(t, GetOrCreateSubcategory(t, name).1)
    ensures Extends(GetOrCreateSubcategory(t, name).1, u) ==>
      GetOrCreateSubcategory(u, name) == (GetOrCreateSubcategory(t, name).0, u)
  {
    var (i, t1) := GetOrCreateSubcategory(t, name);
    if Lookup(t.subcategories, name).Some? {
      LookupPrefix(t.subcategories, [], name);
      assert t.subcategories + [] == t.subcategories;
    } else {
      LookupAppended(t.subcategories, name);
    }
    if Extends(t1, u) {
      LookupGrown(t1.subcategories, u.subcategories, name);
    }
  }

  lemma GetOrCreateSubReviewStable(t: Tables, review: nat, sub: nat, rating: Value, u: Tables)
    ensures Extends(t, GetOrCreateSubReview(t, review, sub, rating))
    ensures Extends(GetOrCreateSubReview(t, review, sub, rating), u) ==>
      GetOrCreateSubReview(u, review, sub, rating) == u
  {
    var t1 := GetOrCreateSubReview(t, review, sub, rating);
    var keys := SubReviewKeys(t.subReviews);
    if Lookup(keys, (review, sub)).Some? {
      LookupPrefix(keys, [], (review, sub));
      assert keys + [] == keys;
    } else {
      assert SubReviewKeys(t1.subReviews) == keys + [(review, sub)];
      LookupAppended(keys, (review, sub));
    }
    assert Lookup(SubReviewKeys(t1.subReviews), (review, sub)).Some?;
    if Extends(t1, u) {
      PrefixSubReviewKeys(t1.subReviews, u.subReviews);
      LookupGrown(SubReviewKeys(t1.subReviews), SubReviewKeys(u.subReviews), (review, sub));
    }
  }

  // ---------------------------------------------------------------- compound steps

  lemma EnsureSubcategoriesStable(t: Tables, u: Tables)
    ensures Extends(t, EnsureSubcategories(t).1)
    ensures Extends(EnsureSubcategories(t).1, u) ==> EnsureSubcategories(u) == (EnsureSubcategories(t).0, u)
  {
    var (f, t1) := GetOrCreateSubcategory(t, "Food");
    var (s, t2) := GetOrCreateSubcategory(t1, "Service");
    var (a, t3) := GetOrCreateSubcategory(t2, "Atmosphere");
    GetOrCreateSubcategoryStable(t, "Food", u);
    GetOrCreateSubcategoryStable(t1, "Service", u);
    GetOrCreateSubcategoryStable(t2, "Atmosphere", u);
    ExtendsTransitive(t, t1, t2);
    ExtendsTransitive(t, t2, t3);
    if Extends(t3, u) {
      ExtendsTransitive(t2, t3, u);
      ExtendsTransitive(t1, t2, u);
    }
  }

  lemma {:induction false} AddSubReviewsStable(t: Tables, review: nat, subs: seq<nat>, ratings: seq<Value>, u: Tables)
    ensures Extends(t, AddSubReviews(t, review, subs, ratings))
    ensures Extends(AddSubReviews(t, review, subs, ratings), u) ==> AddSubReviews(u, review, subs, ratings) == u
    decreases |ratings|
  {
    if ratings != [] && subs != [] {
      var t1 := if PresentRating(ratings[0]) then GetOrCreateSubReview(t, review, subs[0], ratings[0]) else t;
      GetOrCreateSubReviewStable(t, review, subs[0], ratings[0], u);
      AddSubReviewsStable(t1, review, subs[1..], ratings[1..], u);
      var t2 := AddSubReviews(t1, review, subs[1..], ratings[1..]);
      ExtendsTransitive(t, t1, t2);
      if Extends(t2, u) {
        ExtendsTransitive(t1, t2, u);
      }
    }
  }

  /** A complete review and its sub-ratings, once written, are found
      again. */
  lemma ReviewPartStable(t2: Tables, rv: Review, subs: seq<nat>, ratings: seq<Value>, u: Tables)
    ensures var (review, t3) := GetOrCreateReview(t2, rv);
      var t4 := AddSubReviews(t3, review, subs, ratings);
      && Extends(t2, t4)
      && (Extends(t4, u) ==> GetOrCreateReview(u, rv) == (review, u) && AddSubReviews(u, review, subs, ratings) == u)
  {
    var (review, t3) := GetOrCreateReview(t2, rv);
    var t4 := AddSubReviews(t3, review, subs, ratings);
    GetOrCreateReviewStable(t2, rv, u);
    AddSubReviewsStable(t3, review, subs, ratings, u);
    ExtendsTransitive(t2, t3, t4);
    if Extends(t4, u) {
      ExtendsTransitive(t3, t4, u);
    }
  }

  /** One entry only appends; run again on tables that contain what it
      wrote, it writes nothing and reports the same. A stopping entry is the
      last one, so for it the tables are exactly those it left. */
  lemma ProcessEntryStable(t: Tables, e: Entry, b: nat, name: string, source: string, subs: seq<nat>, u: Tables)
    requires IsSourceName(source)
    ensures Extends(t, ProcessEntry(t, e, b, name, source, subs).0)
    ensures var r := ProcessEntry(t, e, b, name, source, subs);
      Extends(r.0, u) && (r.1.Next? || u == r.0) ==> ProcessEntry(u, e, b, name, source, subs) == (u, r.1)
  {
    if AddressPresent(e) && AddressText(e) {
      var key := AddressKey(e, b);
      if UpsertStore(t, key, name).Ok? {
        var (store, ts) := UpsertStore(t, key, name).value;
        UpsertStoreStable(t, key, name, u);
        var ev := ScrapeEvent(store, source);
        var (event, t2) := GetOrCreateEvent(ts, ev);
        GetOrCreateEventStable(ts, ev, u);
        ExtendsTransitive(t, ts, t2);
        var t1 := ProcessEntry(t, e, b, name, source, subs).0;
        if ReviewComplete(e) {
          var rv := Review(event, e.reviewDate, e.rating, e.content, e.firstName, e.lastName);
          ReviewPartStable(t2, rv, subs, Ratings(e), u);
          ExtendsTransitive(t, t2, t1);
          if Extends(t1, u) {
            ExtendsTransitive(t2, t1, u);
            ExtendsTransitive(ts, t2, u);
          }
        } else if Extends(t1, u) {
          ExtendsTransitive(ts, t2, u);
        }
      }
    }
  }

  // ---------------------------------------------------------------- the loop

  /** A loop body that only appends. */
  ghost predicate StepGrows(step: (Tables, Entry) -> (Tables, Step)) {
    forall t, e :: Extends(t, step(t, e).0)
  }

  /** A loop body that, run again on tables containing what it wrote,
      writes nothing and reports the same; after a stop the tables are
      exactly those it left. */
  ghost predicate StepReplays(step: (Tables, Entry) -> (Tables, Step)) {
    forall t, e, u :: Extends(step(t, e).0, u) && (step(t, e).1.Next? || u == step(t, e).0) ==> step(u, e) == (u, step(t, e).1)
  }

  /** The body of `create_scrape_event`'s loop is such a body. */
  lemma EntryStepStable(b: nat, name: string, source: string, subs: seq<nat>)
    requires IsSourceName(source)
    ensures StepGrows(EntryStep(b, name, source, subs))
    ensures StepReplays(EntryStep(b, name, source, subs))
  {
    var step := EntryStep(b, name, source, subs);
    forall t, e ensures Extends(t, step(t, e).0) {
      ProcessEntryStable(t, e, b, name, source, subs, t);
    }
    forall t, e, u | Extends(step(t, e).0, u) && (step(t, e).1.Next? || u == step(t, e).0)
      ensures step(u, e) == (u, step(t, e).1)
    {
      ProcessEntryStable(t, e, b, name, source, subs, u);
    }
  }

  /** The loop only appends. */
  lemma {:induction false} ProcessEntriesGrows(t: Tables, data: seq<Entry>, step: (Tables, Entry) -> (Tables, Step),
                                               events: seq<nat>, count: nat)
    requires StepGrows(step)
    ensures Extends(t, ProcessEntries(t, data, step, events, count).0)
    decreases |data|
  {
    if data != [] {
      var r := step(t, data[0]);
      if r.1.Next? {
        ProcessEntriesGrows(r.0, data[1..], step, events + [r.1.event], count + r.1.count);
        ExtendsTransitive(t, r.0, ProcessEntries(r.0, data[1..], step, events + [r.1.event], count + r.1.count).0);
      }
    }
  }

  /** The loop run again on the tables it left gives the same outcome and
      leaves them as they are. */
  lemma {:induction false} ProcessEntriesReplay(t: Tables, data: seq<Entry>, step: (Tables, Entry) -> (Tables, Step),
                                                events: seq<nat>, count: nat)
    requires StepGrows(step) && StepReplays(step)
    ensures var out := ProcessEntries(t, data, step, events, count);
      ProcessEntries(out.0, data, step, events, count) == out
    decreases |data|
  {
    if data != [] {
      var out := ProcessEntries(t, data, step, events, count);
      var r := step(t, data[0]);
      if r.1.Next? {
        var evs, n := events + [r.1.event], count + r.1.count;
        ProcessEntriesGrows(r.0, data[1..], step, evs, n);
        ProcessEntriesReplay(r.0, data[1..], step, evs, n);
      }
      assert step(out.0, data[0]) == (out.0, r.1);
    }
  }

  /** Importing the same data a second time creates no row and reports what
      the first import reported. */
  lemma CreateScrapeEventIdempotent(t: Tables, data: seq<Entry>, businessName: string, source: string)
    ensures var (u, out) := CreateScrapeEvent(t, data, businessName, source);
      CreateScrapeEvent(u, data, businessName, source) == (u, out)
  {
    if businessName != [] {
      var name := BusinessName(businessName);
      NamesNormalised(businessName, source);
      var (b, t1) := UpsertBusiness(t, name);
      var (u, out) := CreateScrapeEvent(t, data, businessName, source);
      if source == [] {
        UpsertBusinessStable(t, name, u);
      } else {
        var src := SourceName(source);
        var (subs, t2) := EnsureSubcategories(t1);
        EnsureSubcategoriesStable(t1, u);
        var step := EntryStep(b, t1.businesses[b], src, subs);
        EntryStepStable(b, t1.businesses[b], src, subs);
        ProcessEntriesGrows(t2, data, step, [], 0);
        ProcessEntriesReplay(t2, data, step, [], 0);
        ExtendsTransitive(t1, t2, u);
        UpsertBusinessStable(t, name, u);
        EnsureSubcategoriesStable(t1, u);
        assert u.businesses[b] == t1.businesses[b];
      }
    }
  }
}
