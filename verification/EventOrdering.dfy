/** The deterministic order of events, whatever order they come in. */
module EventOrdering {
  import opened Wrappers
  import opened MachineIntegers
  import opened MarketTypes
  import opened Events
  import opened FrameCodec
  import opened Comparing
  import InstrumentOrder
  import opened Sorting

  const STOCK_REALTIME: Bytes := [83, 84, 79, 67, 75, 95, 82, 69, 65, 76, 84, 73, 77, 69]

  datatype OrderingKey = OrderingKey(matchTime: i64, marketRank: nat, symbol: Bytes, sourceFormat: Bytes, phaseRank: nat, kindRank: nat,
                                     sourceSequence: Option<u64>, fingerprint: Bytes)

  datatype OrderingError = CanonicalEncoding(error: EncodeError) | InvalidTwseRealtimeShape | InvalidTpexRealtimeShape
                         | FingerprintCollision

  function CompareKeys(a: OrderingKey, b: OrderingKey): Order {
    Then(CompareInts(a.matchTime, b.matchTime),
    Then(CompareInts(a.marketRank, b.marketRank),
    Then(CompareBytes(a.symbol, b.symbol),
    Then(CompareBytes(a.sourceFormat, b.sourceFormat),
    Then(CompareInts(a.phaseRank, b.phaseRank),
    Then(CompareInts(a.kindRank, b.kindRank),
    Then(CompareOptions(a.sourceSequence, b.sourceSequence),
         CompareBytes(a.fingerprint, b.fingerprint))))))))
  }

  predicate Realtime(e: Event) {
    e.instrument.market != Taifex && e.sourceFormat == STOCK_REALTIME
  }

  /** The phase rank of the ordering key: some shapes have none. */
  function PhaseRank(e: Event): Result<nat, OrderingError> {
    var invalid := if e.instrument.market == Twse then InvalidTwseRealtimeShape else InvalidTpexRealtimeShape;
    if !Realtime(e) then Ok(0)
    else match e.payload
      case QuoteSnapshot(_, _, _, _, _) => Ok(20)
      case MarketStatus(_, _, _) => Ok(20)
      case TradeBatch(trades, _, _, _, _) =>
        if trades != [] && forall i :: 0 <= i < |trades| ==> trades[i].kind == Intermediate then Ok(10) else Err(invalid)
      case IndicativeAuction(a) => Ok(if a.book.Set? then 20 else 10)
      case BookSnapshot(_, _, _) => Err(invalid)
  }

  /** Equal keys with different bytes are told apart only because the bytes are kept. */
  datatype Prepared = Prepared(event: Event, key: OrderingKey, canonical: Bytes)

  function Prepare(e: Event, hash: Bytes -> Bytes): Result<Prepared, OrderingError> {
    match Encode(e)
    case Err(error) => Err(CanonicalEncoding(error))
    case Ok(canonical) =>
      var rank :- PhaseRank(e);
      Ok(Prepared(e, OrderingKey(e.matchTime, MarketTag(e.instrument.market), e.instrument.symbol, e.sourceFormat, rank,
                                 PayloadTag(e.payload), e.sourceSequence, hash(canonical)), canonical))
  }

  predicate AtMost(a: Prepared, b: Prepared) {
    CompareKeys(a.key, b.key) != Greater
  }

  // ------------------------------------------------- the order, on the events themselves

  /** In the realtime feeds of the two stock exchanges, trades between snapshots and auctions without a book come at 10 and
      all else at 20; everywhere else there are no phases. */
  function PhaseValue(e: Event): nat {
    if e.instrument.market == Taifex || e.sourceFormat != STOCK_REALTIME then 0
    else if e.payload.TradeBatch? || (e.payload.IndicativeAuction? && !e.payload.auction.book.Set?) then 10 else 20
  }

  function KindPlace(p: Payload): nat {
    match p
    case QuoteSnapshot(_, _, _, _, _) => 1
    case BookSnapshot(_, _, _) => 2
    case TradeBatch(_, _, _, _, _) => 3
    case IndicativeAuction(_) => 4
    case MarketStatus(_, _, _) => 5
  }

  ghost predicate SequenceLess(a: Option<u64>, b: Option<u64>) {
    b.Some? && (a == None || a.value < b.value)
  }

  /** By match time, then market, symbol, source format, phase, kind of payload, source sequence and fingerprint. */
  ghost predicate ComesBefore(e: Event, f: Event, eHash: Bytes, fHash: Bytes) {
    || e.matchTime < f.matchTime
    || (e.matchTime == f.matchTime && SameTimeBefore(e, f, eHash, fHash))
  }

  ghost predicate SameTimeBefore(e: Event, f: Event, eHash: Bytes, fHash: Bytes) {
    var a, b := e.instrument, f.instrument;
    || InstrumentOrder.MarketPlace(a.market) < InstrumentOrder.MarketPlace(b.market)
    || (a.market == b.market && (BytesLess(a.symbol, b.symbol) || (a.symbol == b.symbol && SameInstrumentBefore(e, f, eHash, fHash))))
  }

  ghost predicate SameInstrumentBefore(e: Event, f: Event, eHash: Bytes, fHash: Bytes) {
    || BytesLess(e.sourceFormat, f.sourceFormat)
    || (e.sourceFormat == f.sourceFormat
        && (|| PhaseValue(e) < PhaseValue(f)
            || (PhaseValue(e) == PhaseValue(f)
                && (|| KindPlace(e.payload) < KindPlace(f.payload)
                    || (KindPlace(e.payload) == KindPlace(f.payload)
                        && (|| SequenceLess(e.sourceSequence, f.sourceSequence)
                            || (e.sourceSequence == f.sourceSequence && !BytesLess(fHash, eHash))))))))
  }

  /** The same order on keys. */
  ghost predicate KeyBefore(a: OrderingKey, b: OrderingKey) {
    || a.matchTime < b.matchTime
    || (a.matchTime == b.matchTime
        && (|| a.marketRank < b.marketRank
            || (a.marketRank == b.marketRank
                && (|| BytesLess(a.symbol, b.symbol) || (a.symbol == b.symbol && KeyBeforeWithin(a, b))))))
  }

  ghost predicate KeyBeforeWithin(a: OrderingKey, b: OrderingKey) {
    || BytesLess(a.sourceFormat, b.sourceFormat)
    || (a.sourceFormat == b.sourceFormat
        && (|| a.phaseRank < b.phaseRank
            || (a.phaseRank == b.phaseRank
                && (|| a.kindRank < b.kindRank
                    || (a.kindRank == b.kindRank
                        && (|| SequenceLess(a.sourceSequence, b.sourceSequence)
                            || (a.sourceSequence == b.sourceSequence && !BytesLess(b.fingerprint, a.fingerprint))))))))
  }

  lemma {:induction false} KeysExactly(a: OrderingKey, b: OrderingKey)
    ensures CompareKeys(a, b) != Greater <==> KeyBefore(a, b)
  {
    LessIsByteOrder(a.symbol, b.symbol);
    BytesFlip(a.symbol, b.symbol);
    LessIsByteOrder(a.sourceFormat, b.sourceFormat);
    BytesFlip(a.sourceFormat, b.sourceFormat);
    LessIsByteOrder(b.fingerprint, a.fingerprint);
    BytesFlip(a.fingerprint, b.fingerprint);
  }

  /** In a realtime feed of a stock exchange, a book on its own has no phase, nor a batch without trades or with any that
      are not between snapshots. */
  predicate HasPhase(e: Event) {
    || e.instrument.market == Taifex || e.sourceFormat != STOCK_REALTIME
    || !(e.payload.BookSnapshot? || (e.payload.TradeBatch? && (e.payload.trades == [] || exists t :: t in e.payload.trades && t.kind != Intermediate)))
  }

  /** An event has a key exactly when it has an encoding and a phase; the key is of its own fields. */
  lemma {:induction false} KeyOfEvent(e: Event, hash: Bytes -> Bytes)
    ensures Prepare(e, hash).Ok? <==> Encode(e).Ok? && HasPhase(e)
    ensures Encode(e).Err? ==> Prepare(e, hash) == Err(CanonicalEncoding(Encode(e).error))
    ensures Encode(e).Ok? && !HasPhase(e) ==>
      Prepare(e, hash) == Err(if e.instrument.market == Twse then InvalidTwseRealtimeShape else InvalidTpexRealtimeShape)
    ensures Prepare(e, hash).Ok? ==>
      KeyHas(Prepare(e, hash).value.key, e) && Prepare(e, hash).value.key.fingerprint == hash(Encode(e).value)
  {
    PhaseExactly(e);
  }

  lemma {:induction false} PhaseExactly(e: Event)
    ensures PhaseRank(e) == if HasPhase(e) then Ok(PhaseValue(e))
      else Err(if e.instrument.market == Twse then InvalidTwseRealtimeShape else InvalidTpexRealtimeShape)
  {
  }

  /** The comparison of keys is that order of the events. */
  lemma {:induction false} AtMostExactly(e: Event, f: Event, hash: Bytes -> Bytes)
    requires Prepare(e, hash).Ok? && Prepare(f, hash).Ok?
    ensures Encode(e).Ok? && Encode(f).Ok?
    ensures EventAtMost(e, f, hash) <==> ComesBefore(e, f, hash(Encode(e).value), hash(Encode(f).value))
  {
    KeyOfEvent(e, hash);
    KeyOfEvent(f, hash);
    KeysExactly(Prepare(e, hash).value.key, Prepare(f, hash).value.key);
    SameOrder(e, f, Prepare(e, hash).value.key, Prepare(f, hash).value.key);
  }

  lemma {:induction false} SameOrder(e: Event, f: Event, a: OrderingKey, b: OrderingKey)
    requires KeyHas(a, e) && KeyHas(b, f)
    ensures KeyBefore(a, b) <==> ComesBefore(e, f, a.fingerprint, b.fingerprint)
  {
  }

  predicate KeyHas(key: OrderingKey, e: Event) {
    && key.matchTime == e.matchTime && key.marketRank == InstrumentOrder.MarketPlace(e.instrument.market) && key.symbol == e.instrument.symbol
    && key.sourceFormat == e.sourceFormat && key.phaseRank == PhaseValue(e) && key.kindRank == 10 * KindPlace(e.payload)
    && key.sourceSequence == e.sourceSequence
  }

  // ------------------------------------------------------------- a total order

  lemma {:induction false} KeysFlip(a: OrderingKey, b: OrderingKey)
    ensures CompareKeys(b, a) == Flip(CompareKeys(a, b))
    ensures CompareKeys(a, b) == Equal <==> a == b
  {
    BytesFlip(a.symbol, b.symbol);
    BytesFlip(a.sourceFormat, b.sourceFormat);
    BytesFlip(a.fingerprint, b.fingerprint);
  }

  lemma {:induction false} KeysCompose(a: OrderingKey, b: OrderingKey, c: OrderingKey)
    ensures Composes(CompareKeys(a, b), CompareKeys(b, c), CompareKeys(a, c))
  {
    BytesCompose(a.symbol, b.symbol, c.symbol);
    BytesCompose(a.sourceFormat, b.sourceFormat, c.sourceFormat);
    BytesCompose(a.fingerprint, b.fingerprint, c.fingerprint);
  }

  lemma {:induction false} AtMostTransitive(a: Prepared, b: Prepared, c: Prepared)
    requires AtMost(a, b) && AtMost(b, c)
    ensures AtMost(a, c)
  {
    KeysCompose(a.key, b.key, c.key);
  }

  lemma {:induction false} AtMostTotal(a: Prepared, b: Prepared)
    ensures AtMost(a, b) || AtMost(b, a)
    ensures AtMost(a, b) && AtMost(b, a) ==> a.key == b.key
  {
    KeysFlip(a.key, b.key);
  }

  lemma {:induction false} AtMostIsTotal()
    ensures TotalOrder(AtMost)
  {
    forall x, y, z ensures Links(AtMost, x, y, z) {
      AtMostTotal(x, y);
      if AtMost(x, y) && AtMost(y, z) {
        AtMostTransitive(x, y, z);
      }
    }
  }

  // ----------------------------------------------------------------- ordering

  /** Every event has a key, and equal keys come from equal bytes. Nothing here depends on an order. */
  ghost predicate Orderable(events: multiset<Event>, hash: Bytes -> Bytes) {
    && (forall e :: e in events ==> Prepare(e, hash).Ok?)
    && (forall e, f :: e in events && f in events ==> !Collide(e, f, hash))
  }

  predicate Collide(e: Event, f: Event, hash: Bytes -> Bytes) {
    var p, q := Prepare(e, hash), Prepare(f, hash);
    p.Ok? && q.Ok? && p.value.key == q.value.key && p.value.canonical != q.value.canonical
  }

  /** Two events collide exactly when each may come before the other and their bytes differ. */
  lemma {:induction false} CollideExactly(e: Event, f: Event, hash: Bytes -> Bytes)
    ensures Collide(e, f, hash) <==>
      && Encode(e).Ok? && HasPhase(e) && Encode(f).Ok? && HasPhase(f) && Encode(e) != Encode(f)
      && ComesBefore(e, f, hash(Encode(e).value), hash(Encode(f).value)) && ComesBefore(f, e, hash(Encode(f).value), hash(Encode(e).value))
  {
    KeyOfEvent(e, hash);
    KeyOfEvent(f, hash);
    if Prepare(e, hash).Ok? && Prepare(f, hash).Ok? {
      AtMostExactly(e, f, hash);
      AtMostExactly(f, e, hash);
      KeysFlip(Prepare(e, hash).value.key, Prepare(f, hash).value.key);
    }
  }

  /** The order on events that have keys. */
  predicate EventAtMost(e: Event, f: Event, hash: Bytes -> Bytes) {
    var p, q := Prepare(e, hash), Prepare(f, hash);
    p.Ok? && q.Ok? && AtMost(p.value, q.value)
  }

  ghost predicate SortedEvents(events: seq<Event>, hash: Bytes -> Bytes) {
    Sorted(events, (e, f) => EventAtMost(e, f, hash))
  }

  /** The first event, in the order given, that has no key. */
  ghost predicate FirstWithoutKey(events: seq<Event>, i: nat, prepare: Event -> Result<Prepared, OrderingError>, error: OrderingError) {
    i < |events| && prepare(events[i]) == Err(error) && forall j :: 0 <= j < i ==> prepare(events[j]).Ok?
  }

  ghost predicate FirstUnordered(events: seq<Event>, i: nat, hash: Bytes -> Bytes, error: OrderingError) {
    FirstWithoutKey(events, i, e => Prepare(e, hash), error)
  }

  /** Both have their encoding, and the first may come before the second. */
  ghost predicate InOrder(e: Event, f: Event, hash: Bytes -> Bytes) {
    Encode(e).Ok? && Encode(f).Ok? && ComesBefore(e, f, hash(Encode(e).value), hash(Encode(f).value))
  }

  lemma {:induction false} SortedIsInOrder(events: seq<Event>, hash: Bytes -> Bytes)
    requires SortedEvents(events, hash)
    ensures forall i, j :: 0 <= i < j < |events| ==> InOrder(events[i], events[j], hash)
  {
    forall i, j | 0 <= i < j < |events| ensures InOrder(events[i], events[j], hash) {
      assert EventAtMost(events[i], events[j], hash);
      AtMostExactly(events[i], events[j], hash);
    }
  }

  /** Succeeds exactly when the events are orderable, and then sorts them without loss. Otherwise the error is that
      of the first event without a key, or, when all have one, a collision. */
  method OrderEvents(events: seq<Event>, hash: Bytes -> Bytes) returns (r: Result<seq<Event>, OrderingError>)
    ensures r.Ok? <==> Orderable(multiset(events), hash)
    ensures r.Ok? ==> multiset(r.value) == multiset(events) && SortedEvents(r.value, hash)
    ensures r.Ok? ==> forall i, j :: 0 <= i < j < |r.value| ==> InOrder(r.value[i], r.value[j], hash)
    ensures r.Err? && (exists e :: e in events && Prepare(e, hash).Err?) ==>
      exists i :: FirstUnordered(events, i, hash, r.error)
    ensures r.Err? && (forall e :: e in events ==> Prepare(e, hash).Ok?) ==> r.error == FingerprintCollision
  {
    forall e | Prepare(e, hash).Ok? ensures Prepare(e, hash).value.event == e {
      PreparedEvent(e, hash);
    }
    var prepared := PrepareAll(events, e => Prepare(e, hash));
    if prepared.Err? {
      ghost var i :| FirstWithoutKey(events, i, e => Prepare(e, hash), prepared.error);
      assert FirstUnordered(events, i, hash, prepared.error);
      return Err(prepared.error);
    }
    AtMostIsTotal();
    var sorted := SortUnstable(prepared.value, AtMost);
    SamePrepared(events, prepared.value, sorted, hash);
    var collided := AdjacentCollision(sorted);
    if collided {
      CollisionFound(sorted, hash);
      return Err(FingerprintCollision);
    }
    NoCollision(sorted, hash);
    SortedIsInOrder(EventsOf(sorted), hash);
    return Ok(EventsOf(sorted));
  }

  function EventsOf(items: seq<Prepared>): (r: seq<Event>)
    ensures |r| == |items| && forall i :: 0 <= i < |items| ==> r[i] == items[i].event
  {
    if items == [] then [] else [items[0].event] + EventsOf(items[1..])
  }

  lemma {:induction false} EventsOfAppend(a: seq<Prepared>, b: seq<Prepared>)
    ensures multiset(EventsOf(a + b)) == multiset(EventsOf(a)) + multiset(EventsOf(b))
  {
    assert EventsOf(a + b) == EventsOf(a) + EventsOf(b);
  }

  lemma {:induction false} EventsOfMiddle(a: seq<Prepared>, x: Prepared, b: seq<Prepared>)
    ensures multiset(EventsOf(a + [x] + b)) == multiset(EventsOf(a + b)) + multiset{x.event}
  {
    EventsOfAppend(a + [x], b);
    EventsOfAppend(a, [x]);
    EventsOfAppend(a, b);
    assert EventsOf([x]) == [x.event];
  }

  lemma {:induction false} EventsOfWithout(s: seq<Prepared>, a: seq<Prepared>, x: Prepared, b: seq<Prepared>)
    requires s == a + [x] + b
    ensures multiset(EventsOf(s)) == multiset(EventsOf(a + b)) + multiset{x.event}
  {
    EventsOfMiddle(a, x, b);
  }

  lemma {:induction false} EventsOfPermute(a: seq<Prepared>, b: seq<Prepared>)
    requires multiset(a) == multiset(b)
    ensures multiset(EventsOf(a)) == multiset(EventsOf(b))
    decreases |a|
  {
    SameSize(a, b);
    if a != [] {
      assert a[0] in multiset(b);
      var k :| 0 <= k < |b| && b[k] == a[0];
      WithoutFirst(a);
      Removed(b, k);
      EventsOfPermute(a[1..], b[..k] + b[k + 1..]);
      SplitAt(b, k);
      EventsOfWithout(b, b[..k], b[k], b[k + 1..]);
      SplitAt(a, 0);
      EventsOfWithout(a, a[..0], a[0], a[1..]);
      assert a[..0] + a[1..] == a[1..];
    }
  }

  method PrepareAll(events: seq<Event>, prepare: Event -> Result<Prepared, OrderingError>) returns (r: Result<seq<Prepared>, OrderingError>)
    requires forall e :: prepare(e).Ok? ==> prepare(e).value.event == e
    ensures r.Err? ==> exists i :: FirstWithoutKey(events, i, prepare, r.error)
    ensures r.Ok? <==> forall e :: e in events ==> prepare(e).Ok?
    ensures r.Ok? ==> EventsOf(r.value) == events && forall i :: 0 <= i < |r.value| ==> prepare(r.value[i].event) == Ok(r.value[i])
  {
    var prepared: seq<Prepared> := [];
    for i := 0 to |events|
      invariant |prepared| == i && forall j :: 0 <= j < i ==> prepared[j].event == events[j]
      invariant forall j :: 0 <= j < i ==> prepare(prepared[j].event) == Ok(prepared[j])
      invariant forall j :: 0 <= j < i ==> prepare(events[j]).Ok?
    {
      var item := prepare(events[i]);
      if item.Err? {
        assert FirstWithoutKey(events, i, prepare, item.error);
        return Err(item.error);
      }
      prepared := prepared + [item.value];
    }
    EventsOfAre(prepared, events);
    return Ok(prepared);
  }

  lemma {:induction false} EventsOfAre(prepared: seq<Prepared>, events: seq<Event>)
    requires |prepared| == |events| && forall j :: 0 <= j < |events| ==> prepared[j].event == events[j]
    ensures EventsOf(prepared) == events
  {
  }

  lemma {:induction false} PreparedEvent(e: Event, hash: Bytes -> Bytes)
    requires Prepare(e, hash).Ok?
    ensures Prepare(e, hash).value.event == e
  {
  }

  /** Two neighbours with the same key and different bytes. */
  ghost predicate Clash(sorted: seq<Prepared>, n: nat)
    requires n + 1 < |sorted|
  {
    sorted[n].key == sorted[n + 1].key && sorted[n].canonical != sorted[n + 1].canonical
  }

  method AdjacentCollision(sorted: seq<Prepared>) returns (r: bool)
    ensures r <==> exists n: nat :: n + 1 < |sorted| && Clash(sorted, n)
  {
    var i := 0;
    while i + 1 < |sorted|
      invariant 0 <= i <= |sorted|
      invariant forall n: nat :: n < i && n + 1 < |sorted| ==> !Clash(sorted, n)
    {
      if sorted[i].key == sorted[i + 1].key && sorted[i].canonical != sorted[i + 1].canonical {
        assert Clash(sorted, i);
        return true;
      }
      i := i + 1;
    }
    return false;
  }

  ghost predicate AllPrepared(items: seq<Prepared>, hash: Bytes -> Bytes) {
    forall i :: 0 <= i < |items| ==> Prepare(items[i].event, hash) == Ok(items[i])
  }

  lemma {:induction false} SamePrepared(events: seq<Event>, prepared: seq<Prepared>, sorted: seq<Prepared>, hash: Bytes -> Bytes)
    requires multiset(sorted) == multiset(prepared) && AllPrepared(prepared, hash) && EventsOf(prepared) == events
    ensures AllPrepared(sorted, hash) && multiset(EventsOf(sorted)) == multiset(events)
  {
    EventsOfPermute(sorted, prepared);
    forall i | 0 <= i < |sorted| ensures Prepare(sorted[i].event, hash) == Ok(sorted[i]) {
      assert sorted[i] in multiset(prepared);
    }
  }

  lemma {:induction false} CollisionFound(sorted: seq<Prepared>, hash: Bytes -> Bytes)
    requires AllPrepared(sorted, hash) && exists n: nat :: n + 1 < |sorted| && Clash(sorted, n)
    ensures !Orderable(multiset(EventsOf(sorted)), hash)
  {
    var n: nat :| n + 1 < |sorted| && Clash(sorted, n);
    var events := EventsOf(sorted);
    assert events[n] in multiset(events) && events[n + 1] in multiset(events);
    assert Prepare(events[n], hash) == Ok(sorted[n]) && Prepare(events[n + 1], hash) == Ok(sorted[n + 1]);
    assert Collide(events[n], events[n + 1], hash);
  }

  /** In sorted items, equal keys stand together. */
  lemma {:induction false} EqualKeysChain(sorted: seq<Prepared>, i: nat, j: nat)
    requires Sorted(sorted, AtMost) && i <= j < |sorted| && sorted[i].key == sorted[j].key
    requires forall n: nat :: n + 1 < |sorted| ==> !Clash(sorted, n)
    ensures sorted[i].canonical == sorted[j].canonical
    decreases j - i
  {
    if i < j {
      KeyBetween(sorted[i], sorted[j - 1], sorted[j]) by {
        AtMostTotal(sorted[i], sorted[i]);
      }
      EqualKeysChain(sorted, i, j - 1);
      assert !Clash(sorted, j - 1);
    }
  }

  lemma {:induction false} KeyBetween(a: Prepared, b: Prepared, c: Prepared)
    requires a.key == c.key && (a == b || AtMost(a, b)) && AtMost(b, c)
    ensures a.key == b.key
  {
    AtMostTotal(a, b);
    AtMostTotal(b, c);
  }

  lemma {:induction false} NoCollision(sorted: seq<Prepared>, hash: Bytes -> Bytes)
    requires Sorted(sorted, AtMost) && AllPrepared(sorted, hash)
    requires forall n: nat :: n + 1 < |sorted| ==> !Clash(sorted, n)
    ensures Orderable(multiset(EventsOf(sorted)), hash) && SortedEvents(EventsOf(sorted), hash)
  {
    var events := EventsOf(sorted);
    forall e | e in multiset(events) ensures Prepare(e, hash).Ok? {
      var i :| 0 <= i < |events| && events[i] == e;
    }
    forall e, f | e in multiset(events) && f in multiset(events) ensures !Collide(e, f, hash) {
      var i :| 0 <= i < |events| && events[i] == e;
      var j :| 0 <= j < |events| && events[j] == f;
      NoPairCollides(sorted, i, j, hash);
    }
    forall i, j | 0 <= i < j < |events| ensures EventAtMost(events[i], events[j], hash) {
      assert Prepare(events[i], hash) == Ok(sorted[i]) && Prepare(events[j], hash) == Ok(sorted[j]);
      assert AtMost(sorted[i], sorted[j]);
    }
  }

  lemma {:induction false} NoPairCollides(sorted: seq<Prepared>, i: nat, j: nat, hash: Bytes -> Bytes)
    requires Sorted(sorted, AtMost) && AllPrepared(sorted, hash) && i < |sorted| && j < |sorted|
    requires forall n: nat :: n + 1 < |sorted| ==> !Clash(sorted, n)
    ensures !Collide(sorted[i].event, sorted[j].event, hash)
  {
    assert Prepare(sorted[i].event, hash) == Ok(sorted[i]) && Prepare(sorted[j].event, hash) == Ok(sorted[j]);
    if sorted[i].key == sorted[j].key {
      EqualKeysChain(sorted, if i <= j then i else j, if i <= j then j else i);
    }
  }

  // ------------------------------------------------------------- main results

  /** Whatever order the same events come in, and however the sort treats equal keys, the list is the same. */
  lemma {:induction false} OrderingIsUnique(a: seq<Event>, b: seq<Event>, hash: Bytes -> Bytes, utf8: Bytes -> bool)
    requires multiset(a) == multiset(b) && Orderable(multiset(a), hash)
    requires SortedEvents(a, hash) && SortedEvents(b, hash)
    requires forall e :: e in a ==> ValidEvent(e, utf8)
    ensures a == b
  {
    var le := (e, f) => EventAtMost(e, f, hash);
    forall e, f | e in a && f in a && le(e, f) && le(f, e) ensures e == f {
      SameKeySameEvent(e, f, multiset(a), hash, utf8);
    }
    SortedIsUnique(a, b, le);
  }

  lemma {:induction false} SameKeySameEvent(e: Event, f: Event, events: multiset<Event>, hash: Bytes -> Bytes, utf8: Bytes -> bool)
    requires Orderable(events, hash) && e in events && f in events && ValidEvent(e, utf8) && ValidEvent(f, utf8)
    requires EventAtMost(e, f, hash) && EventAtMost(f, e, hash)
    ensures e == f
  {
    var p, q := Prepare(e, hash).value, Prepare(f, hash).value;
    AtMostTotal(p, q);
    assert !Collide(e, f, hash);
    PreparedBytes(e, hash);
    PreparedBytes(f, hash);
    EncodeInjective(e, f, utf8);
  }

  lemma {:induction false} PreparedBytes(e: Event, hash: Bytes -> Bytes)
    requires Prepare(e, hash).Ok?
    ensures Encode(e) == Ok(Prepare(e, hash).value.canonical)
  {
  }
}
