/** The database as the ORM sees it: six tables that the managers update in
    place. Each method is proved to leave exactly the tables, and give back
    exactly the result, of the function of the same name in `Models`, so
    every property proved there holds of the class. */
module Database {
  import opened Wrappers
  import opened Models

  /** A turn of the loop over `data[i..]` whose step stops: the loop ends
      with that step's tables and outcome. */
  lemma LoopStops(t: Tables, u: Tables, data: seq<Entry>, i: nat, step: (Tables, Entry) -> (Tables, Step),
                  events: seq<nat>, count: nat, outcome: Outcome)
    requires i < |data| && step(t, data[i]) == (u, Stop(outcome))
    ensures ProcessEntries(t, data[i..], step, events, count) == (u, outcome)
  {
    assert data[i..][0] == data[i];
  }

  /** A turn whose step goes on: the rest of the loop runs from that step's
      tables with its event and count added. */
  lemma LoopGoesOn(t: Tables, u: Tables, data: seq<Entry>, i: nat, step: (Tables, Entry) -> (Tables, Step),
                   events: seq<nat>, count: nat, event: nat, n: nat)
    requires i < |data| && step(t, data[i]) == (u, Next(event, n))
    ensures ProcessEntries(t, data[i..], step, events, count) ==
            ProcessEntries(u, data[i + 1..], step, events + [event], count + n)
  {
    assert data[i..][0] == data[i] && data[i..][1..] == data[i + 1..];
  }

  /** `step` is the loop body `ProcessEntry` for this business, source
      and subcategory rows. The trigger lets the fact be used only where a
      `ProcessEntry` term is already at hand, so the loop never unfolds the
      body for entries it has not reached. */
  ghost predicate StepIsEntryAt(step: (Tables, Entry) -> (Tables, Step), b: nat, name: string, source: string, subs: seq<nat>) {
    forall t, e {:trigger Models.ProcessEntry(t, e, b, name, source, subs)} ::
      step(t, e) == Models.ProcessEntry(t, e, b, name, source, subs)
  }

  class Database {
    var businesses: seq<string>
    var stores: seq<Store>
    var events: seq<ScrapeEvent>
    var reviews: seq<Review>
    var subcategories: seq<string>
    var subReviews: seq<SubReview>

    /** All six tables as one value. */
    function State(): Tables
      reads this
    {
      Tables(businesses, stores, events, reviews, subcategories, subReviews)
    }

    constructor()
      ensures State() == EmptyTables
    {
      businesses, stores, events := [], [], [];
      reviews, subcategories, subReviews := [], [], [];
    }

    /** A `get` on a natural key: the first row holding `k`, by a scan of
        the table. */
    static method Find<K(==)>(keys: seq<K>, k: K) returns (r: Option<nat>)
      ensures r == Lookup(keys, k)
    {
      var i := 0;
      while i < |keys|
        invariant i <= |keys| && k !in keys[..i]
      {
        if keys[i] == k {
          LookupAt(keys, k, i);
          return Some(i);
        }
        assert keys[..i + 1] == keys[..i] + [keys[i]];
        i := i + 1;
      }
      assert keys[..i] == keys;
      LookupIsFirst(keys, k);
      return None;
    }

    method UpsertBusiness(name: string) returns (id: nat)
      modifies this
      ensures (id, State()) == Models.UpsertBusiness(old(State()), name)
    {
      var found := Find(businesses, name);
      match found
      case Some(i) =>
        businesses := businesses[i := BusinessName(businesses[i])];
        id := i;
      case None =>
        id := |businesses|;
        businesses := businesses + [BusinessName(name)];
    }

    method UpsertStore(key: StoreKey, name: string) returns (r: Result<nat, string>)
      modifies this
      ensures match Models.UpsertStore(old(State()), key, name)
        case Ok((i, t)) => r == Ok(i) && State() == t
        case Err(msg) => r == Err(msg) && State() == old(State())
    {
      var found := Find(StoreKeys(stores), key);
      if found.Some? {
        return Ok(found.value);
      }
      var id := NewStoreId(stores, name, key.business);
      if id in StoreIds(stores) {
        return Err(DuplicateStoreId);
      }
      r := Ok(|stores|);
      stores := stores + [Store(id, key)];
    }

    method GetOrCreateEvent(ev: ScrapeEvent) returns (id: nat)
      modifies this
      ensures (id, State()) == Models.GetOrCreateEvent(old(State()), ev)
    {
      var found := Find(events, ev);
      match found
      case Some(i) =>
        id := i;
      case None =>
        id := |events|;
        events := events + [ev.(source := SourceName(ev.source))];
    }

    method GetOrCreateReview(rv: Review) returns (id: nat)
      modifies this
      ensures (id, State()) == Models.GetOrCreateReview(old(State()), rv)
    {
      var found := Find(reviews, rv);
      match found
      case Some(i) =>
        id := i;
      case None =>
        id := |reviews|;
        reviews := reviews + [rv];
    }

    method GetOrCreateSubcategory(name: string) returns (id: nat)
      modifies this
      ensures (id, State()) == Models.GetOrCreateSubcategory(old(State()), name)
    {
      var found := Find(subcategories, name);
      match found
      case Some(i) =>
        id := i;
      case None =>
        id := |subcategories|;
        subcategories := subcategories + [name];
    }

    method GetOrCreateSubReview(review: nat, subcategory: nat, rating: Value)
      modifies this
      ensures State() == Models.GetOrCreateSubReview(old(State()), review, subcategory, rating)
    {
      var found := Find(SubReviewKeys(subReviews), (review, subcategory));
      if found.None? {
        subReviews := subReviews + [SubReview(review, subcategory, rating)];
      }
    }

    method EnsureSubcategories() returns (subs: seq<nat>)
      modifies this
      ensures (subs, State()) == Models.EnsureSubcategories(old(State()))
    {
      var food := GetOrCreateSubcategory("Food");
      var service := GetOrCreateSubcategory("Service");
      var atmosphere := GetOrCreateSubcategory("Atmosphere");
      subs := [food, service, atmosphere];
    }

    /** The inner loop over (subcategory, rating) pairs: each present rating
        is looked up or created and counted. */
    method AddSubReviews(review: nat, subs: seq<nat>, ratings: seq<Value>) returns (n: nat)
      requires |subs| == |ratings|
      modifies this
      ensures State() == Models.AddSubReviews(old(State()), review, subs, ratings)
      ensures n == PresentCount(ratings)
    {
      ghost var t0 := State();
      n := 0;
      var k := 0;
      while k < |ratings|
        invariant k <= |ratings|
        invariant Models.AddSubReviews(State(), review, subs[k..], ratings[k..]) == Models.AddSubReviews(t0, review, subs, ratings)
        invariant n + PresentCount(ratings[k..]) == PresentCount(ratings)
      {
        assert ratings[k..][1..] == ratings[k + 1..] && subs[k..][1..] == subs[k + 1..];
        if PresentRating(ratings[k]) {
          GetOrCreateSubReview(review, subs[k], ratings[k]);
          n := n + 1;
        }
        k := k + 1;
      }
    }

    /** One pass of the loop body of `create_scrape_event`. */
    method ProcessEntry(e: Entry, b: nat, name: string, source: string, subs: seq<nat>) returns (s: Step)
      requires |subs| == 3
      modifies this
      ensures (State(), s) == Models.ProcessEntry(old(State()), e, b, name, source, subs)
    {
      if !AddressPresent(e) {
        return Stop(Raised(IncompleteAddress));
      }
      if !AddressText(e) {
        return Stop(Raised(NotText));
      }
      var store := UpsertStore(AddressKey(e, b), name);
      if store.Err? {
        return Stop(Raised(store.error));
      }
      var event := GetOrCreateEvent(ScrapeEvent(store.value, source));
      if !ReviewComplete(e) {
        return Stop(ReturnedNone);
      }
      var review := GetOrCreateReview(Review(event, e.reviewDate, e.rating, e.content, e.firstName, e.lastName));
      var n := AddSubReviews(review, subs, Ratings(e));
      return Next(event, n);
    }

    /** `ProcessEntry`, stated through the step function of the loop. */
    method Turn(e: Entry, b: nat, name: string, source: string, subs: seq<nat>,
                ghost step: (Tables, Entry) -> (Tables, Step)) returns (s: Step)
      requires |subs| == 3 && StepIsEntryAt(step, b, name, source, subs)
      modifies this
      ensures (State(), s) == step(old(State()), e)
    {
      s := ProcessEntry(e, b, name, source, subs);
    }

    /** `create_scrape_event(data, business_name, source)`. */
    method CreateScrapeEvent(data: seq<Entry>, businessName: string, source: string) returns (out: Outcome)
      modifies this
      ensures (State(), out) == Models.CreateScrapeEvent(old(State()), data, businessName, source)
    {
      if businessName == [] {
        return Raised(NoBusinessName);
      }
      var b := UpsertBusiness(BusinessName(businessName));
      if source == [] {
        return Raised(NoSource);
      }
      var subs := EnsureSubcategories();
      ghost var step := EntryStep(b, businesses[b], SourceName(source), subs);
      assert StepIsEntryAt(step, b, businesses[b], SourceName(source), subs);
      out := ProcessEntries(data, b, businesses[b], SourceName(source), subs, step);
    }

    /** The `for entry in data` loop: each entry is processed in turn until
        one raises or gives `None`; the events and the sub-rating count are
        gathered on the way. */
    method ProcessEntries(data: seq<Entry>, b: nat, name: string, source: string, subs: seq<nat>,
                          ghost step: (Tables, Entry) -> (Tables, Step)) returns (out: Outcome)
      requires |subs| == 3 && StepIsEntryAt(step, b, name, source, subs)
      modifies this
      ensures (State(), out) == Models.ProcessEntries(old(State()), data, step, [], 0)
    {
      ghost var t0 := State();
      var made: seq<nat> := [];
      var count: nat := 0;
      var i := 0;
      assert data[i..] == data;
      while i < |data|
        invariant i <= |data|
        invariant Models.ProcessEntries(State(), data[i..], step, made, count) == Models.ProcessEntries(t0, data, step, [], 0)
      {
        ghost var before := State();
        var s := Turn(data[i], b, name, source, subs, step);
        match s
        case Stop(outcome) =>
          LoopStops(before, State(), data, i, step, made, count, outcome);
          return outcome;
        case Next(event, n) =>
          LoopGoesOn(before, State(), data, i, step, made, count, event, n);
          made := made + [event];
          count := count + n;
        i := i + 1;
      }
      return Created(made, count);
    }
  }
}
