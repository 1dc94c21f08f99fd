/** What the get-or-create cascade promises beyond replaying: the shape and
    numbering of store ids, the normalised names, what the loop reports,
    and the rows kept when an entry stops it. */
module ModelsFacts {
  import opened Wrappers
  import opened Text
  import opened LexOrder
  import opened Models

  // ---------------------------------------------------------------- store ids

  /** The text after the last separator of `p`, the separator and a
      separator-free `y` is `y`. */
  lemma {:induction false} AfterLastJoined(p: string, sep: char, y: string)
    requires sep !in y
    ensures AfterLast(p + [sep] + y, sep) == y
    decreases |y|
  {
    var s := p + [sep] + y;
    if y != [] {
      var y' := y[..|y| - 1];
      assert s[..|s| - 1] == p + [sep] + y';
      AfterLastJoined(p, sep, y');
      assert y == y' + [y[|y| - 1]];
    }
  }

  /** An id written by `Store.save` reads back, through `split("-")[-1]`
      and `int()`, as the number it was written with. */
  lemma StoreIdReadsBack(prefix: string, n: nat)
    ensures PyInt(AfterLast(prefix + "-" + Pad(n, 4), '-')) == Some(n)
  {
    AfterLastJoined(prefix, '-', Pad(n, 4));
    PyIntOfPad(n, 4);
  }

  /** A new store's id starts with the business's prefix and a "-", and the
      number after its last "-" is one more than the business's last
      number. */
  lemma NewStoreIdShape(stores: seq<Store>, name: string, b: nat)
    ensures StartsWith(NewStoreId(stores, name, b), StorePrefix(name) + "-")
    ensures PyInt(AfterLast(NewStoreId(stores, name, b), '-')) == Some(LastStoreNumber(stores, b) + 1)
  {
    var id := NewStoreId(stores, name, b);
    assert id[..|StorePrefix(name) + "-"|] == StorePrefix(name) + "-";
    StoreIdReadsBack(StorePrefix(name), LastStoreNumber(stores, b) + 1);
  }

  /** When the greatest id of the business is `P-k` written by `Store.save`,
      the next store gets number `k + 1`. */
  lemma NextStoreNumber(stores: seq<Store>, b: nat, prefix: string, k: nat)
    requires IdsOf(stores, b) != [] && LexMax(IdsOf(stores, b)) == prefix + "-" + Pad(k, 4)
    ensures LastStoreNumber(stores, b) == k
  {
    StoreIdReadsBack(prefix, k);
  }

  /** The first store of a business is number 0001. */
  lemma FirstStoreId(stores: seq<Store>, name: string, b: nat)
    requires forall i :: 0 <= i < |stores| ==> stores[i].key.business != b
    ensures NewStoreId(stores, name, b) == StorePrefix(name) + "-0001"
  {
    IdsOfMembers(stores, b);
    if IdsOf(stores, b) != [] {
      assert IdsOf(stores, b)[0] in IdsOf(stores, b);
    }
    assert Decimal(1) == "1";
    assert Zeros(3) == "000";
  }

  lemma PadNineNineNineNine()
    ensures Pad(9999, 4) == "9999"
  {
    assert Decimal(9) == "9";
    assert Decimal(99) == "99";
    assert Decimal(999) == "999";
    assert Decimal(9999) == "9999";
  }

  /** "X-9999" sorts after "X-10000" as text. */
  lemma LastOfTwoIds(stores: seq<Store>, k1: StoreKey, k2: StoreKey)
    requires stores == [Store("X-9999", k1), Store("X-10000", k2)]
    requires k1.business == 0 && k2.business == 0
    ensures LastStoreNumber(stores, 0) == 9999
  {
    assert stores[1..] == [Store("X-10000", k2)];
    assert stores[1..][1..] == [];
    assert IdsOf(stores[1..], 0) == ["X-10000"];
    var ids := IdsOf(stores, 0);
    assert ids == ["X-9999", "X-10000"];
    assert ids[1..] == ["X-10000"];
    assert LexLe("X-10000", "X-9999") by {
      assert "X-10000"[1..][1..] == "10000" && "X-9999"[1..][1..] == "9999";
    }
    assert LexMax(ids) == "X-9999";
    PadNineNineNineNine();
    NextStoreNumber(stores, 0, "X", 9999);
  }

  lemma PadTenThousand()
    ensures Pad(10000, 4) == "10000"
  {
    assert Decimal(1) == "1";
    assert Decimal(10) == "10";
    assert Decimal(100) == "100";
    assert Decimal(1000) == "1000";
    assert Decimal(10000) == "10000";
  }

  lemma PrefixOfX()
    ensures StorePrefix("x") == "X"
  {
    assert RemoveChar("x", ' ') == "x";
  }

  lemma TenThousandthId(stores: seq<Store>)
    requires LastStoreNumber(stores, 0) == 9999
    ensures NewStoreId(stores, "x", 0) == "X-10000"
  {
    PadTenThousand();
    PrefixOfX();
  }

  /** Ids compare as text, so "X-9999" sorts after "X-10000": once a
      business has both, its last number reads as 9999 and the id made for
      its next store, "X-10000", is already taken. */
  lemma StoreIdCollision(t: Tables, k1: StoreKey, k2: StoreKey, k3: StoreKey)
    requires t.stores == [Store("X-9999", k1), Store("X-10000", k2)]
    requires k1.business == 0 && k2.business == 0 && k3.business == 0
    requires k3 != k1 && k3 != k2
    ensures UpsertStore(t, k3, "x") == Err(DuplicateStoreId)
  {
    assert StoreKeys(t.stores) == [k1, k2];
    assert Lookup(StoreKeys(t.stores), k3) == None;
    LastOfTwoIds(t.stores, k1, k2);
    TenThousandthId(t.stores);
    assert NewStoreId(t.stores, "x", k3.business) == "X-10000";
    assert StoreIds(t.stores)[1] == "X-10000";
  }

  // ---------------------------------------------------------------- names and lookup rows

  /** Upserting a normalised business name leaves a row holding that name:
      the matching row, saved again unchanged, or a new last row. No other
      table changes. */
  lemma BusinessUpserted(t: Tables, name: string)
    ensures var r := UpsertBusiness(t, BusinessName(name));
      && r.1.businesses[r.0] == BusinessName(name)
      && (r.1 == t || r.1 == t.(businesses := t.businesses + [BusinessName(name)]))
  {
    NamesNormalised(name, "");
    match Lookup(t.businesses, BusinessName(name))
    case Some(i) =>
      assert t.businesses[i := BusinessName(t.businesses[i])] == t.businesses;
    case None =>
  }

  /** A sub-rating row is looked up by its review and subcategory only: an
      existing row keeps the rating it was created with, and a new row is
      appended with the rating given. No row before it changes. */
  lemma SubReviewKeepsRating(t: Tables, review: nat, subcategory: nat, rating: Value)
    ensures var u := GetOrCreateSubReview(t, review, subcategory, rating);
      if (review, subcategory) in SubReviewKeys(t.subReviews) then u == t
      else u == t.(subReviews := t.subReviews + [SubReview(review, subcategory, rating)])
  {
    LookupIsFirst(SubReviewKeys(t.subReviews), (review, subcategory));
  }

  /** Starting from no subcategory rows, or from exactly the three, the
      lookup step leaves exactly Food, Service and Atmosphere, at rows 0, 1
      and 2. */
  lemma EnsureSubcategoriesFixed(t: Tables)
    requires t.subcategories == [] || t.subcategories == SubcategoryNames
    ensures EnsureSubcategories(t) == ([0, 1, 2], t.(subcategories := SubcategoryNames))
  {
    var names := SubcategoryNames;
    assert names[0] == "Food" && names[1] == "Service" && names[2] == "Atmosphere";
    assert "Food" != "Service" && "Food" != "Atmosphere" && "Service" != "Atmosphere";
    if t.subcategories == [] {
      var t1 := t.(subcategories := ["Food"]);
      var t2 := t.(subcategories := ["Food", "Service"]);
      assert t.subcategories + ["Food"] == ["Food"];
      assert GetOrCreateSubcategory(t, "Food") == (0, t1);
      assert Lookup(["Food"], "Service") == None;
      assert ["Food"] + ["Service"] == ["Food", "Service"];
      assert GetOrCreateSubcategory(t1, "Service") == (1, t2);
      assert Lookup(["Food", "Service"], "Atmosphere") == None by {
        LookupIsFirst(["Food", "Service"], "Atmosphere");
      }
      assert ["Food", "Service"] + ["Atmosphere"] == names;
      assert GetOrCreateSubcategory(t2, "Atmosphere") == (2, t.(subcategories := names));
    } else {
      LookupAt(names, "Food", 0);
      LookupAt(names, "Service", 1);
      LookupAt(names, "Atmosphere", 2);
    }
  }

  // ---------------------------------------------------------------- one entry

  /** An entry raises exactly when its address is missing a field, holds a
      value that is not text, or its store would get an id already taken;
      then it writes nothing. */
  lemma {:induction false} EntryRaises(t: Tables, e: Entry, b: nat, name: string, source: string, subs: seq<nat>)
    ensures var r := ProcessEntry(t, e, b, name, source, subs);
      && (r.1.Stop? && r.1.outcome.Raised? <==>
          !AddressPresent(e) || !AddressText(e) || UpsertStore(t, AddressKey(e, b), name).Err?)
      && (r.1.Stop? && r.1.outcome.Raised? ==> r.0 == t)
  {
  }

  /** An entry with a complete address but an incomplete review stops the
      loop with `None`, after its store and its scrape event are written. */
  lemma IncompleteReviewKeepsRows(t: Tables, e: Entry, b: nat, name: string, source: string, subs: seq<nat>)
    requires AddressPresent(e) && AddressText(e) && !ReviewComplete(e)
    requires UpsertStore(t, AddressKey(e, b), name).Ok? && SourceName(source) == source
    ensures var r := ProcessEntry(t, e, b, name, source, subs);
      && r.1 == Stop(ReturnedNone)
      && var s := Lookup(StoreKeys(r.0.stores), AddressKey(e, b));
         s.Some? && ScrapeEvent(s.value, source) in r.0.events
  {
    var key := AddressKey(e, b);
    var (store, t1) := UpsertStore(t, key, name).value;
    assert Lookup(StoreKeys(t1.stores), key) == Some(store) by {
      match Lookup(StoreKeys(t.stores), key)
      case Some(i) =>
      case None =>
        assert StoreKeys(t1.stores) == StoreKeys(t.stores) + [key];
        LookupAppended(StoreKeys(t.stores), key);
    }
    var ev := ScrapeEvent(store, source);
    var (event, t2) := GetOrCreateEvent(t1, ev);
    assert t2.stores == t1.stores;
    assert t2.events[event] == ev;
  }

  // ---------------------------------------------------------------- the loop

  /** A property of the tables that every step of the loop keeps. */
  ghost predicate StepKeeps(step: (Tables, Entry) -> (Tables, Step), inv: Tables -> bool) {
    forall t, e :: inv(t) ==> inv(step(t, e).0)
  }

  /** What every step keeps, the whole loop keeps. */
  lemma {:induction false} ProcessEntriesKeeps(t: Tables, data: seq<Entry>, step: (Tables, Entry) -> (Tables, Step),
                                               events: seq<nat>, count: nat, inv: Tables -> bool)
    requires inv(t) && StepKeeps(step, inv)
    ensures inv(ProcessEntries(t, data, step, events, count).0)
    decreases |data|
  {
    if data != [] {
      var r := step(t, data[0]);
      if r.1.Next? {
        ProcessEntriesKeeps(r.0, data[1..], step, events + [r.1.event], count + r.1.count, inv);
      }
    }
  }

  /** A step that stops does so with an exception or `None`; one that goes
      on reports the number of present sub-ratings of its entry. */
  ghost predicate CountsRatings(step: (Tables, Entry) -> (Tables, Step)) {
    forall t, e ::
      if step(t, e).1.Next? then step(t, e).1.count == PresentCount(Ratings(e))
      else !step(t, e).1.outcome.Created?
  }

  /** The number of present sub-ratings over all entries. */
  function TotalPresent(data: seq<Entry>): nat
    decreases |data|
  {
    if data == [] then 0 else PresentCount(Ratings(data[0])) + TotalPresent(data[1..])
  }

  /** A loop that runs to the end adds one event per entry, after those
      gathered before, and the present sub-ratings of every entry. */
  lemma {:induction false} CreatedCounts(t: Tables, data: seq<Entry>, step: (Tables, Entry) -> (Tables, Step),
                                         events: seq<nat>, count: nat)
    requires CountsRatings(step)
    ensures var r := ProcessEntries(t, data, step, events, count);
      r.1.Created? ==>
        && |r.1.events| == |events| + |data| && r.1.events[..|events|] == events
        && r.1.subcategoryCount == count + TotalPresent(data)
    decreases |data|
  {
    if data != [] {
      var r := step(t, data[0]);
      if r.1.Next? {
        var events' := events + [r.1.event];
        CreatedCounts(r.0, data[1..], step, events', count + r.1.count);
        var out := ProcessEntries(r.0, data[1..], step, events', count + r.1.count);
        assert ProcessEntries(t, data, step, events, count) == out;
        assert r.1.count == PresentCount(Ratings(data[0]));
        if out.1.Created? {
          assert out.1.events[..|events|] == events'[..|events|];
        }
      }
    }
  }

  /** Once the loop stops at an entry, the entries after it are never
      looked at. */
  lemma {:induction false} LaterEntriesIgnored(t: Tables, data: seq<Entry>, more: seq<Entry>,
                                               step: (Tables, Entry) -> (Tables, Step), events: seq<nat>, count: nat)
    requires !ProcessEntries(t, data, step, events, count).1.Created?
    ensures ProcessEntries(t, data + more, step, events, count) == ProcessEntries(t, data, step, events, count)
    decreases |data|
  {
    assert data != [];
    assert (data + more)[0] == data[0];
    var r := step(t, data[0]);
    if r.1.Next? {
      assert (data + more)[1..] == data[1..] + more;
      LaterEntriesIgnored(r.0, data[1..], more, step, events + [r.1.event], count + r.1.count);
    }
  }

  lemma {:induction false} EntryStepCounts(b: nat, name: string, source: string, subs: seq<nat>)
    ensures CountsRatings(EntryStep(b, name, source, subs))
  {
  }

  lemma {:induction false} EntryStepKeepsSubcategories(b: nat, name: string, source: string, subs: seq<nat>)
    ensures StepKeeps(EntryStep(b, name, source, subs), (u: Tables) => u.subcategories == SubcategoryNames)
  {
  }

  // ---------------------------------------------------------------- create_scrape_event

  /** Without a business name nothing is written; without a source the
      business row, and nothing else, is written before the exception. */
  lemma CreateScrapeEventGuards(t: Tables, data: seq<Entry>, businessName: string, source: string)
    ensures businessName == [] ==> CreateScrapeEvent(t, data, businessName, source) == (t, Raised(NoBusinessName))
    ensures businessName != [] && source == [] ==>
      var r := CreateScrapeEvent(t, data, businessName, source);
      && r.1 == Raised(NoSource)
      && BusinessName(businessName) in r.0.businesses
      && (r.0 == t || r.0 == t.(businesses := t.businesses + [BusinessName(businessName)]))
  {
    if businessName != [] && source == [] {
      BusinessUpserted(t, businessName);
      assert UpsertBusiness(t, BusinessName(businessName)) == UpsertBusiness(t, BusinessName(businessName));
    }
  }

  /** A call that returns events returns one per entry, and counts every
      present sub-rating of every entry. */
  lemma CreateScrapeEventCreated(t: Tables, data: seq<Entry>, businessName: string, source: string)
    ensures var r := CreateScrapeEvent(t, data, businessName, source);
      r.1.Created? ==> |r.1.events| == |data| && r.1.subcategoryCount == TotalPresent(data)
  {
    if businessName != [] && source != [] {
      var (b, t1) := UpsertBusiness(t, BusinessName(businessName));
      var (subs, t2) := EnsureSubcategories(t1);
      var step := EntryStep(b, t1.businesses[b], SourceName(source), subs);
      EntryStepCounts(b, t1.businesses[b], SourceName(source), subs);
      CreatedCounts(t2, data, step, [], 0);
    }
  }

  /** Starting from no subcategory rows or exactly the three, a call that
      gets past its checks leaves exactly Food, Service and Atmosphere. */
  lemma CreateScrapeEventSubcategories(t: Tables, data: seq<Entry>, businessName: string, source: string)
    requires t.subcategories == [] || t.subcategories == SubcategoryNames
    requires businessName != [] && source != []
    ensures CreateScrapeEvent(t, data, businessName, source).0.subcategories == SubcategoryNames
  {
    var (b, t1) := UpsertBusiness(t, BusinessName(businessName));
    EnsureSubcategoriesFixed(t1);
    var (subs, t2) := EnsureSubcategories(t1);
    var step := EntryStep(b, t1.businesses[b], SourceName(source), subs);
    EntryStepKeepsSubcategories(b, t1.businesses[b], SourceName(source), subs);
    ProcessEntriesKeeps(t2, data, step, [], 0, (u: Tables) => u.subcategories == SubcategoryNames);
  }
}
