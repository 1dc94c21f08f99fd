/** The relational model of the review database and the get-or-create
    cascade that fills it, as functions on a value holding all six tables.
    A row's id is its index in its table. */
module Models {
  import opened Wrappers
  import opened Text
  import opened LexOrder

  // ---------------------------------------------------------------- values and rows

  /** A Python value handed to the ORM: `None`, a float `NaN`, an integer, a
      text, or a day (an ordinal of the proleptic Gregorian calendar). */
  datatype Value = Null | NaN | Int(i: int) | Str(s: string) | Day(ordinal: int)

  /** Python truthiness: `None`, `0` and `""` are false; `NaN` and every
      date are true. */
  predicate Truthy(v: Value) {
    match v
    case Null => false
    case NaN => true
    case Int(i) => i != 0
    case Str(s) => s != []
    case Day(_) => true
  }

  /** The natural key of a store: its business and its normalised address. */
  datatype StoreKey = StoreKey(business: nat, street: string, city: string, state: string, zip: string)

  datatype Store = Store(storeId: string, key: StoreKey)

  /** A scrape event: its store and its source. */
  datatype ScrapeEvent = ScrapeEvent(store: nat, source: string)

  /** A customer review; every field takes part in its lookup. */
  datatype Review = Review(event: nat, date: Value, rating: Value, content: Value, firstName: Value, lastName: Value)

  /** A sub-rating of a review; `(review, subcategory)` is its composite
      key. */
  datatype SubReview = SubReview(review: nat, subcategory: nat, rating: Value)

  datatype Tables = Tables(
    businesses: seq<string>,
    stores: seq<Store>,
    events: seq<ScrapeEvent>,
    reviews: seq<Review>,
    subcategories: seq<string>,
    subReviews: seq<SubReview>)

  const EmptyTables: Tables := Tables([], [], [], [], [], [])

  // ---------------------------------------------------------------- lookups

  /** The first index holding `k`, as the single row `get` returns when keys
      are unique. */
  function Lookup<K(==)>(keys: seq<K>, k: K): (r: Option<nat>)
    ensures r.Some? ==> r.value < |keys| && keys[r.value] == k
    decreases |keys|
  {
    if keys == [] then None
    else if keys[0] == k then Some(0)
    else
      match Lookup(keys[1..], k)
      case None => None
      case Some(j) => Some(j + 1)
  }

  /** `Lookup` finds `k` exactly when it is present, at its first
      occurrence. */
  lemma {:induction false} LookupIsFirst<K>(keys: seq<K>, k: K)
    ensures Lookup(keys, k).None? <==> k !in keys
    ensures Lookup(keys, k).Some? ==>
      var j := Lookup(keys, k).value; j < |keys| && keys[j] == k && k !in keys[..j]
    decreases |keys|
  {
    if keys != [] && keys[0] != k {
      LookupIsFirst(keys[1..], k);
      assert keys == [keys[0]] + keys[1..];
      if Lookup(keys[1..], k).Some? {
        var j := Lookup(keys[1..], k).value;
        assert keys[..j + 1] == [keys[0]] + keys[1..][..j];
      }
    }
  }

  /** The converse: an index holding `k` with no `k` before it is what
      `Lookup` returns. */
  lemma LookupAt<K>(keys: seq<K>, k: K, j: nat)
    requires j < |keys| && keys[j] == k && k !in keys[..j]
    ensures Lookup(keys, k) == Some(j)
  {
    LookupIsFirst(keys, k);
  }

  /** Appending rows does not move a key that is already present. */
  lemma LookupPrefix<K>(keys: seq<K>, more: seq<K>, k: K)
    requires Lookup(keys, k).Some?
    ensures Lookup(keys + more, k) == Lookup(keys, k)
  {
    LookupIsFirst(keys, k);
    var j := Lookup(keys, k).value;
    assert (keys + more)[..j] == keys[..j];
    LookupAt(keys + more, k, j);
  }

  /** An absent key appended last is found at the end. */
  lemma LookupAppended<K>(keys: seq<K>, k: K)
    requires Lookup(keys, k).None?
    ensures Lookup(keys + [k], k) == Some(|keys|)
  {
    LookupIsFirst(keys, k);
    assert (keys + [k])[..|keys|] == keys;
    LookupAt(keys + [k], k, |keys|);
  }

  function StoreKeys(stores: seq<Store>): (r: seq<StoreKey>)
    ensures |r| == |stores|
  {
    seq(|stores|, i requires 0 <= i < |stores| => stores[i].key)
  }

  function StoreIds(stores: seq<Store>): (r: seq<string>)
    ensures |r| == |stores|
  {
    seq(|stores|, i requires 0 <= i < |stores| => stores[i].storeId)
  }

  function SubReviewKeys(subs: seq<SubReview>): (r: seq<(nat, nat)>)
    ensures |r| == |subs|
  {
    seq(|subs|, i requires 0 <= i < |subs| => (subs[i].review, subs[i].subcategory))
  }

  // ---------------------------------------------------------------- save() normalisation

  /** `Business.save`: the name stripped and upper-cased. */
  function BusinessName(name: string): string {
    Upper(Strip(name))
  }

  /** `ScrapeEvent.save`: the source stripped and lower-cased. */
  function SourceName(source: string): string {
    Lower(Strip(source))
  }

  /** Normalising a second time changes nothing. */
  lemma NamesNormalised(name: string, source: string)
    ensures BusinessName(BusinessName(name)) == BusinessName(name)
    ensures SourceName(SourceName(source)) == SourceName(source)
  {
    UpperStripIdempotent(name);
    LowerStripIdempotent(source);
  }

  // ---------------------------------------------------------------- Store.save: the store id

  /** The ids of the stores of business `b`, in table order. */
  function IdsOf(stores: seq<Store>, b: nat): (r: seq<string>)
    decreases |stores|
  {
    if stores == [] then []
    else
      var rest := IdsOf(stores[1..], b);
      if stores[0].key.business == b then [stores[0].storeId] + rest else rest
  }

  /** `IdsOf` holds the ids of exactly the stores of business `b`. */
  lemma {:induction false} IdsOfMembers(stores: seq<Store>, b: nat)
    ensures forall id :: id in IdsOf(stores, b) <==> exists i :: 0 <= i < |stores| && stores[i].key.business == b && stores[i].storeId == id
    decreases |stores|
  {
    if stores != [] {
      IdsOfMembers(stores[1..], b);
      assert forall i :: 1 <= i < |stores| ==> stores[i] == stores[1..][i - 1];
      assert forall i :: 0 <= i < |stores| - 1 ==> stores[1..][i] == stores[i + 1];
    }
  }

  /** The number of the business's last store: the integer after the last
      "-" of its greatest id, or 0 when it has no store or that text is not
      an integer. */
  function LastStoreNumber(stores: seq<Store>, b: nat): (n: nat)
  {
    var ids := IdsOf(stores, b);
    if ids == [] then 0
    else
      var tail := AfterLast(LexMax(ids), '-');
      match PyInt(tail)
      case None => 0
      case Some(v) => v
  }

  /** `business_name.replace(" ", "").upper()`. */
  function StorePrefix(name: string): string {
    Upper(RemoveChar(name, ' '))
  }

  /** The id a new store of business `b` receives: the prefix, "-", and the
      last number plus one written with at least four digits. */
  function NewStoreId(stores: seq<Store>, name: string, b: nat): string {
    StorePrefix(name) + "-" + Pad(LastStoreNumber(stores, b) + 1, 4)
  }

  // ---------------------------------------------------------------- get_or_create / update_or_create

  /** `Business.objects.update_or_create(business_name=name)`: the matching
      row is saved again (its name normalised), or a row is created. */
  function UpsertBusiness(t: Tables, name: string): (r: (nat, Tables))
    ensures r.0 < |r.1.businesses|
  {
    match Lookup(t.businesses, name)
    case Some(i) =>
      (i, t.(businesses := t.businesses[i := BusinessName(t.businesses[i])]))
    case None => (|t.businesses|, t.(businesses := t.businesses + [BusinessName(name)]))
  }

  /** The error raised when a new store's id is already taken (the column is
      unique). */
  const DuplicateStoreId: string := "UNIQUE constraint failed: starbuck_store.store_id"

  /** `Store.objects.update_or_create(business=..., street=..., ...)`: the
      store with that key (saving it again keeps its id), or a new store
      with a fresh id; an error when the generated id is taken. */
  function UpsertStore(t: Tables, key: StoreKey, name: string): (r: Result<(nat, Tables), string>)
    ensures r.Ok? ==> r.value.0 < |r.value.1.stores|
  {
    match Lookup(StoreKeys(t.stores), key)
    case Some(i) =>
      Ok((i, t))
    case None =>
      var id := NewStoreId(t.stores, name, key.business);
      if id in StoreIds(t.stores) then Err(DuplicateStoreId)
      else Ok((|t.stores|, t.(stores := t.stores + [Store(id, key)])))
  }

  /** `ScrapeEvent.objects.get_or_create(store=..., source=...)`; a created
      row has its source normalised by `save`. */
  function GetOrCreateEvent(t: Tables, e: ScrapeEvent): (r: (nat, Tables))
    ensures r.0 < |r.1.events|
  {
    match Lookup(t.events, e)
    case Some(i) =>
      (i, t)
    case None => (|t.events|, t.(events := t.events + [e.(source := SourceName(e.source))]))
  }

  /** `CustomerReview.objects.get_or_create(...)` on all its fields. */
  function GetOrCreateReview(t: Tables, rv: Review): (r: (nat, Tables))
    ensures r.0 < |r.1.reviews|
  {
    match Lookup(t.reviews, rv)
    case Some(i) =>
      (i, t)
    case None => (|t.reviews|, t.(reviews := t.reviews + [rv]))
  }

  /** `SubcategoryReview.objects.get_or_create(subcategory_name=name)`. */
  function GetOrCreateSubcategory(t: Tables, name: string): (r: (nat, Tables))
    ensures r.0 < |r.1.subcategories|
  {
    match Lookup(t.subcategories, name)
    case Some(i) =>
      (i, t)
    case None => (|t.subcategories|, t.(subcategories := t.subcategories + [name]))
  }

  /** `CustomerSubcategoryReview.objects.get_or_create(review=...,
      subcategory=..., defaults={"rating": rating})`: an existing row keeps
      its rating. */
  function GetOrCreateSubReview(t: Tables, review: nat, subcategory: nat, rating: Value): Tables {
    match Lookup(SubReviewKeys(t.subReviews), (review, subcategory))
    case Some(_) => t
    case None => t.(subReviews := t.subReviews + [SubReview(review, subcategory, rating)])
  }

  // ---------------------------------------------------------------- create_scrape_event

  /** One entry of `data`; a key the dictionary lacks reads as `Null`. */
  datatype Entry = Entry(
    street: Value, city: Value, state: Value, zip: Value,
    reviewDate: Value, rating: Value, content: Value, firstName: Value, lastName: Value,
    food: Value, service: Value, atmosphere: Value)

  /** What `create_scrape_event` gives back: an exception, `None`, or the
      events and the count of sub-ratings. */
  datatype Outcome = Raised(message: string) | ReturnedNone | Created(events: seq<nat>, subcategoryCount: nat)

  const NoBusinessName: string := "You must provide the business name."
  const NoSource: string := "You must provide the source from which you scraped your data."
  const IncompleteAddress: string := "Incomplete address information."
  /** `.strip()` on a value that is not text. */
  const NotText: string := "object has no attribute 'strip'"

  const SubcategoryNames: seq<string> := ["Food", "Service", "Atmosphere"]

  /** A sub-rating is used unless it is `None`, "", "null" or `NaN`. */
  predicate PresentRating(v: Value) {
    v != Null && v != Str("") && v != Str("null") && v != NaN
  }

  function Ratings(e: Entry): seq<Value> {
    [e.food, e.service, e.atmosphere]
  }

  /** The number of ratings of `vs` that are present. */
  function PresentCount(vs: seq<Value>): nat
    decreases |vs|
  {
    if vs == [] then 0 else (if PresentRating(vs[0]) then 1 else 0) + PresentCount(vs[1..])
  }

  /** The three lookup rows, fetched or created in order. */
  function EnsureSubcategories(t: Tables): (r: (seq<nat>, Tables))
    ensures |r.0| == 3 && forall k :: 0 <= k < 3 ==> r.0[k] < |r.1.subcategories|
  {
    var (f, t1) := GetOrCreateSubcategory(t, "Food");
    var (s, t2) := GetOrCreateSubcategory(t1, "Service");
    var (a, t3) := GetOrCreateSubcategory(t2, "Atmosphere");
    ([f, s, a], t3)
  }

  /** The sub-ratings of one review, each looked up or created in the order
      Food, Service, Atmosphere: subcategory and rating taken pairwise. */
  function AddSubReviews(t: Tables, review: nat, subs: seq<nat>, ratings: seq<Value>): (r: Tables)
    ensures r.businesses == t.businesses && r.subcategories == t.subcategories
    decreases |ratings|
  {
    if ratings == [] || subs == [] then t
    else
      var t1 := if PresentRating(ratings[0]) then GetOrCreateSubReview(t, review, subs[0], ratings[0]) else t;
      AddSubReviews(t1, review, subs[1..], ratings[1..])
  }

  /** The address fields of an entry, each of which must be a true value
      that is text. */
  predicate AddressPresent(e: Entry) {
    Truthy(e.street) && Truthy(e.city) && Truthy(e.state) && Truthy(e.zip)
  }

  predicate AddressText(e: Entry) {
    e.street.Str? && e.city.Str? && e.state.Str? && e.zip.Str?
  }

  /** What one entry does: the tables after it, and either an exception,
      `None`, or its event and its count of sub-ratings. */
  datatype Step = Stop(outcome: Outcome) | Next(event: nat, count: nat)

  function AddressKey(e: Entry, b: nat): StoreKey
    requires AddressText(e)
  {
    StoreKey(b, Upper(Strip(e.street.s)), Upper(Strip(e.city.s)), Upper(Strip(e.state.s)), Strip(e.zip.s))
  }

  predicate ReviewComplete(e: Entry) {
    Truthy(e.reviewDate) && Truthy(e.rating) && Truthy(e.content) && Truthy(e.firstName) && Truthy(e.lastName)
  }

  /** One pass of the loop body for the entry `e`, with `b` the business,
      `name` its name, `source` the normalised source and `subs` the rows
      of Food, Service and Atmosphere. */
  function ProcessEntry(t: Tables, e: Entry, b: nat, name: string, source: string, subs: seq<nat>): (r: (Tables, Step))
    ensures r.0.businesses == t.businesses && r.0.subcategories == t.subcategories
  {
    if !AddressPresent(e) then (t, Stop(Raised(IncompleteAddress)))
    else if !AddressText(e) then (t, Stop(Raised(NotText)))
    else
      match UpsertStore(t, AddressKey(e, b), name)
      case Err(msg) => (t, Stop(Raised(msg)))
      case Ok((store, t1)) =>
        var (event, t2) := GetOrCreateEvent(t1, ScrapeEvent(store, source));
        if !ReviewComplete(e) then (t2, Stop(ReturnedNone))
        else
          var (review, t3) := GetOrCreateReview(t2, Review(event, e.reviewDate, e.rating, e.content, e.firstName, e.lastName));
          (AddSubReviews(t3, review, subs, Ratings(e)), Next(event, PresentCount(Ratings(e))))
  }

  /** The loop body as a function of the tables and the entry. */
  function EntryStep(b: nat, name: string, source: string, subs: seq<nat>): (Tables, Entry) -> (Tables, Step) {
    (t, e) => ProcessEntry(t, e, b, name, source, subs)
  }

  /** Whether the tables only grew: every table of `t` is a prefix of the
      same table of `u`. */
  predicate Extends(t: Tables, u: Tables) {
    && |t.businesses| <= |u.businesses| && u.businesses[..|t.businesses|] == t.businesses
    && |t.stores| <= |u.stores| && u.stores[..|t.stores|] == t.stores
    && |t.events| <= |u.events| && u.events[..|t.events|] == t.events
    && |t.reviews| <= |u.reviews| && u.reviews[..|t.reviews|] == t.reviews
    && |t.subcategories| <= |u.subcategories| && u.subcategories[..|t.subcategories|] == t.subcategories
    && |t.subReviews| <= |u.subReviews| && u.subReviews[..|t.subReviews|] == t.subReviews
  }

  /** The `for entry in data` loop over the entries still to come, with the
      events and the count gathered so far: each entry's step either stops
      the loop with its outcome or lets it go on. */
  function ProcessEntries(t: Tables, data: seq<Entry>, step: (Tables, Entry) -> (Tables, Step),
                          events: seq<nat>, count: nat): (r: (Tables, Outcome))
    decreases |data|
  {
    if data == [] then (t, Created(events, count))
    else
      var r := step(t, data[0]);
      match r.1
      case Stop(outcome) => (r.0, outcome)
      case Next(event, n) => ProcessEntries(r.0, data[1..], step, events + [event], count + n)
  }

  /** `create_scrape_event(data, business_name, source)`: the tables after
      it and what it gives back. The business is upserted before the source
      is checked; the tables written before an exception or a `None` stay
      written. */
  function CreateScrapeEvent(t: Tables, data: seq<Entry>, businessName: string, source: string): (r: (Tables, Outcome))
  {
    if businessName == [] then (t, Raised(NoBusinessName))
    else
      var (b, t1) := UpsertBusiness(t, BusinessName(businessName));
      if source == [] then (t1, Raised(NoSource))
      else
        var (subs, t2) := EnsureSubcategories(t1);
        ProcessEntries(t2, data, EntryStep(b, t1.businesses[b], SourceName(source), subs), [], 0)
  }
}
