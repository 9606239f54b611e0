/** What every reachable market state keeps, and how the reducer agrees with the global order. */
module ReducerProperties {
  import opened Wrappers
  import opened MachineIntegers
  import opened MarketTypes
  import opened Book
  import opened Events
  import opened FrameCodec
  import opened Comparing
  import opened EventOrdering
  import opened ReducerModel

  // ---------------------------------------------------------------- invariant

  /** The phase as a function of the signal. */
  function PhaseFor(signal: StateField<MarketSignal>): StateField<MarketPhase> {
    match signal
    case Unavailable(reason) => Unavailable(reason)
    case KnownField(x, at) => PhaseOf(x, at)
    case UnknownField(raw, at) => UnknownField(raw, at)
  }

  predicate EndsAuction(signal: StateField<MarketSignal>) {
    signal.KnownField? && !signal.value.AuctionCollecting?
  }

  predicate VolumeUnitOk(profile: Profile, volume: StateField<Volume>) {
    profile.volumeUnit.Some? && volume.KnownField? ==> volume.value.unit == profile.volumeUnit.value
  }

  /** The phase follows the signal, no known indicative auction stands beside a signal that ends
      auctions, and a known volume has the profile's unit. */
  predicate Inv(profile: Profile, s: MarketState) {
    && s.phase == PhaseFor(s.signal)
    && (s.auction.KnownField? ==> !EndsAuction(s.signal))
    && VolumeUnitOk(profile, s.volume)
  }

  /** Every field that is not reported as changed is as it was. */
  predicate Accounts(s: MarketState, d: Draft) {
    && d.next.instrument == s.instrument && d.next.tradingDate == s.tradingDate
    && (CurrentSegment !in d.changed ==> d.next.segment == s.segment)
    && (BookField !in d.changed ==> d.next.book == s.book)
    && (RecentTrade !in d.changed ==> d.next.recentTrade == s.recentTrade)
    && (CumulativeVolume !in d.changed ==> d.next.volume == s.volume)
    && (IndicativeField !in d.changed ==> d.next.auction == s.auction)
    && (SignalField !in d.changed ==> d.next.signal == s.signal)
    && (PhaseField !in d.changed ==> d.next.phase == s.phase)
    && (LastEvent !in d.changed ==> d.next.lastEvent == s.lastEvent && d.next.version == s.version)
  }

  lemma {:induction false} StartKeeps(profile: Profile, s: MarketState, context: Context, at: AppliedRef)
    ensures var d := StartSegment(s, context, at);
      && Accounts(s, d) && (!SegmentChanged(s, context) ==> d.next == s) && (Inv(profile, s) ==> Inv(profile, d.next))
  {
  }

  lemma {:induction false} VolumeKeeps(profile: Profile, s: MarketState, d: Draft, volume: Observation<Volume>, at: AppliedRef, compare: bool)
    requires Accounts(s, d) && ApplyVolume(profile, d, volume, at, compare).Ok?
    ensures var t := ApplyVolume(profile, d, volume, at, compare).value;
      && Accounts(s, t) && t.next.phase == d.next.phase && t.next.signal == d.next.signal && t.next.auction == d.next.auction
      && (VolumeUnitOk(profile, d.next.volume) ==> VolumeUnitOk(profile, t.next.volume))
  {
  }

  lemma {:induction false} PayloadKeeps(profile: Profile, s: MarketState, d: Draft, p: Payload, at: AppliedRef, compare: bool)
    requires Accounts(s, d) && ApplyPayload(profile, d, p, at, compare).Ok?
    ensures var t := ApplyPayload(profile, d, p, at, compare).value;
      && Accounts(s, t) && t.next.phase == d.next.phase && t.next.signal == d.next.signal
      && (VolumeUnitOk(profile, d.next.volume) ==> VolumeUnitOk(profile, t.next.volume))
      && (!p.IndicativeAuction? ==> t.next.auction == d.next.auction)
  {
    if p.QuoteSnapshot? {
      VolumeKeeps(profile, s, ApplyTrade(ApplyBook(d, p.book, at), p.trade, at), p.volume, at, compare);
    } else if p.TradeBatch? {
      VolumeKeeps(profile, s, ApplyTrades(d, p.trades, p.order, at), p.volume, at, compare);
    } else if p.MarketStatus? {
      VolumeKeeps(profile, s, d, p.volume, at, compare);
    }
  }

  lemma {:induction false} SignalKeeps(profile: Profile, s: MarketState, d: Draft, signal: Observation<MarketSignal>, at: AppliedRef)
    requires Accounts(s, d)
    ensures var t := ApplySignal(d, signal, at);
      && Accounts(s, t)
      && (d.next.phase == PhaseFor(d.next.signal) && VolumeUnitOk(profile, d.next.volume)
          && ((d.next.auction.KnownField? ==> !EndsAuction(d.next.signal)) || (signal.Set? && signal.value.AuctionCollecting?))
          ==> Inv(profile, t.next))
  {
  }

  lemma {:induction false} ChangeKeeps(profile: Profile, s: MarketState, e: Event, context: Context, at: AppliedRef)
    requires Change(profile, s, e, context, at).Ok?
    ensures var d := Change(profile, s, e, context, at).value; Accounts(s, d) && (Inv(profile, s) ==> Inv(profile, d.next))
  {
    var d := StartSegment(s, context, at);
    StartKeeps(profile, s, context, at);
    PayloadKeeps(profile, s, d, e.payload, at, !SegmentChanged(s, context));
    SignalKeeps(profile, s, ApplyPayload(profile, d, e.payload, at, !SegmentChanged(s, context)).value, SignalOf(e.payload), at);
  }

  /** A proposal keeps the invariant, and its receipt names every field that changed. */
  lemma {:induction false} ProposeKeeps(profile: Profile, s: MarketState, e: Event, context: Context, hash: Bytes -> Bytes)
    requires Inv(profile, s) && Propose(profile, s, e, context, hash).Ok?
    ensures var p := Propose(profile, s, e, context, hash).value;
      && Inv(profile, p.next) && Accounts(s, Draft(p.next, p.receipt.changed, p.receipt.warnings))
      && p.previousVersion == s.version && p.next.version == s.version + 1
  {
    ChangeKeeps(profile, s, e, context, Admit(profile, s, e, context, RefOf(e, hash)).value);
  }

  // --------------------------------------------------------------------- runs

  datatype Input = Input(event: Event, context: Context)

  /** An event that is refused changes nothing. */
  function Run(profile: Profile, s: MarketState, inputs: seq<Input>, hash: Bytes -> Bytes): MarketState
    decreases inputs
  {
    if inputs == [] then s
    else
      var applied := Apply(profile, s, inputs[0].event, inputs[0].context, hash);
      Run(profile, if applied.Ok? then applied.value else s, inputs[1..], hash)
  }

  lemma {:induction false} RunKeepsInv(profile: Profile, s: MarketState, inputs: seq<Input>, hash: Bytes -> Bytes)
    requires Inv(profile, s)
    ensures Inv(profile, Run(profile, s, inputs, hash))
    decreases inputs
  {
    if inputs != [] {
      var applied := Apply(profile, s, inputs[0].event, inputs[0].context, hash);
      if applied.Ok? {
        ProposeKeeps(profile, s, inputs[0].event, inputs[0].context, hash);
      }
      RunKeepsInv(profile, if applied.Ok? then applied.value else s, inputs[1..], hash);
    }
  }

  /** In every state that a reducer reaches the phase is a function of the signal, and a known
      indicative auction never stands beside a continuous, uncross or closed signal. */
  lemma {:induction false} ReachableStates(profile: Profile, instrument: InstrumentId, tradingDate: i32, inputs: seq<Input>, hash: Bytes -> Bytes)
    ensures var s := Run(profile, NewState(instrument, tradingDate), inputs, hash);
      && s.phase == PhaseFor(s.signal)
      && (s.auction.KnownField? && s.signal.KnownField? ==> s.signal.value.AuctionCollecting?)
  {
    RunKeepsInv(profile, NewState(instrument, tradingDate), inputs, hash);
  }

  /** Within a segment a known volume follows a known one only when it is not less. */
  lemma {:induction false} VolumeDoesNotFall(profile: Profile, s: MarketState, e: Event, context: Context, hash: Bytes -> Bytes)
    requires Inv(profile, s) && profile.volumeUnit.Some? && s.segment == Some(context.segment)
    requires Apply(profile, s, e, context, hash).Ok?
    ensures var t := Apply(profile, s, e, context, hash).value;
      s.volume.KnownField? && t.volume.KnownField? ==>
        s.volume.value.value <= t.volume.value.value && s.volume.value.unit == t.volume.value.unit == profile.volumeUnit.value
  {
    ProposeKeeps(profile, s, e, context, hash);
    var at := Admit(profile, s, e, context, RefOf(e, hash)).value;
    var d := StartSegment(s, context, at);
    VolumeStep(profile, d, e.payload, at);
  }

  lemma {:induction false} VolumeStep(profile: Profile, d: Draft, p: Payload, at: AppliedRef)
    requires profile.volumeUnit.Some? && ApplyPayload(profile, d, p, at, true).Ok?
    ensures var t := ApplyPayload(profile, d, p, at, true).value;
      d.next.volume.KnownField? && t.next.volume.KnownField? ==> d.next.volume.value.value <= t.next.volume.value.value
  {
  }

  // -------------------------------------------------------------- auction rounds

  /** Merging the same observation again changes nothing, whether or not it starts a new auction. */
  lemma {:induction false} MergeIsIdempotent(previous: Option<AuctionObservation>, o: AuctionObservation)
    ensures MergeWith(Some(MergeWith(previous, o)), o) == MergeWith(previous, o)
  {
  }

  /** An indicative event is merged twice, into the auction and into the signal, and both hold the same. */
  lemma {:induction false} IndicativeAgreesWithPhase(profile: Profile, s: MarketState, e: Event, context: Context, hash: Bytes -> Bytes)
    requires e.payload.IndicativeAuction? && Apply(profile, s, e, context, hash).Ok?
    ensures var t := Apply(profile, s, e, context, hash).value;
      && t.auction.KnownField? && t.signal.KnownField? && t.phase.KnownField?
      && t.phase.value == AuctionPhase(t.auction.value.observation)
      && t.signal.value == AuctionCollecting(t.auction.value.observation)
  {
    var at := Admit(profile, s, e, context, RefOf(e, hash)).value;
    var d := StartSegment(s, context, at);
    MergeIsIdempotent(CurrentAuction(d.next), e.payload.auction.observation);
    IndicativeStep(d, e.payload.auction, at);
  }

  lemma {:induction false} IndicativeStep(d: Draft, a: Auction, at: AppliedRef)
    requires MergeWith(Some(MergeWith(CurrentAuction(d.next), a.observation)), a.observation) == MergeWith(CurrentAuction(d.next), a.observation)
    ensures var t := ApplySignal(ApplyIndicative(d, a, at), Set(AuctionCollecting(a.observation)), at).next;
      var merged := MergeWith(CurrentAuction(d.next), a.observation);
      && t.auction == KnownField(a.(observation := merged), at)
      && t.signal == KnownField(AuctionCollecting(merged), at) && t.phase == KnownField(AuctionPhase(merged), at)
  {
  }

  predicate NamesOther(purpose: Evidence<AuctionPurpose>) {
    purpose.Known? && purpose.value != VolatilityInterruption
  }

  /** Merging valid observations breaks the rule of the constructor exactly when one names a purpose
      other than a volatility interruption and the other, which names no purpose, a direction. */
  lemma {:induction false} MergeBreaksValidityExactly(o: AuctionObservation, prior: AuctionObservation)
    requires ValidObservation(o) && ValidObservation(prior)
    ensures !ValidObservation(MergeWith(Some(prior), o)) <==>
      || (NamesOther(o.purpose) && o.direction == NotObserved && prior.direction.Known? && !prior.purpose.Known?)
      || (NamesOther(prior.purpose) && o.purpose == NotObserved && o.direction.Known?)
  {
  }

  // ----------------------------------------------------------------- committing

  /** Of two proposals made from one state at most one can be committed. */
  lemma {:induction false} CommitsOnce(profile: Profile, s: MarketState, e: Event, f: Event, c1: Context, c2: Context, hash: Bytes -> Bytes)
    requires Propose(profile, s, e, c1, hash).Ok? && Propose(profile, s, f, c2, hash).Ok?
    ensures var p, q := Propose(profile, s, e, c1, hash).value, Propose(profile, s, f, c2, hash).value;
      && Commit(s, p) == Ok((p.next, p.receipt))
      && Commit(p.next, q) == Err(StaleProposal)
  {
    ProposalShape(profile, s, e, c1, hash);
    ProposalShape(profile, s, f, c2, hash);
  }

  lemma {:induction false} ProposalShape(profile: Profile, s: MarketState, e: Event, context: Context, hash: Bytes -> Bytes)
    requires Propose(profile, s, e, context, hash).Ok?
    ensures var p := Propose(profile, s, e, context, hash).value;
      && p.previousVersion == s.version && p.next.version == s.version + 1
      && p.next.instrument == s.instrument && p.next.tradingDate == s.tradingDate
      && p.next.lastEvent.Some? && RefOf(e, hash) == Ok(p.next.lastEvent.value)
  {
    ChangeKeeps(profile, s, e, context, Admit(profile, s, e, context, RefOf(e, hash)).value);
  }

  // ------------------------------------------------------- the two orders agree

  /** Where the ordering key exists, the two phase rankings are the same. */
  lemma {:induction false} PhasesAgree(e: Event)
    requires PhaseRank(e).Ok?
    ensures SourcePhase(e) == PhaseRank(e).value
  {
  }

  /** For events of one instrument the reducer's comparison is the comparison of ordering keys. */
  lemma {:induction false} ComparisonsAgree(e: Event, f: Event, hash: Bytes -> Bytes)
    requires Prepare(e, hash).Ok? && Prepare(f, hash).Ok? && e.instrument == f.instrument
    ensures RefOf(e, hash).Ok? && RefOf(f, hash).Ok?
    ensures CompareWithinInstrument(RefOf(e, hash).value, RefOf(f, hash).value)
         == CompareKeys(Prepare(e, hash).value.key, Prepare(f, hash).value.key)
  {
    PhasesAgree(e);
    PhasesAgree(f);
    BytesFlip(e.instrument.symbol, f.instrument.symbol);
  }

  predicate Regresses(r: Result<MarketState, StateError>) {
    r == Err(MatchTimeRegression) || r == Err(OrderingRegression)
  }

  /** `f` is not after any of the inputs' events. */
  ghost predicate Precedes(f: Event, inputs: seq<Input>, hash: Bytes -> Bytes) {
    forall i :: 0 <= i < |inputs| ==> EventAtMost(f, inputs[i].event, hash)
  }

  /** The last applied event, when there is one, is not after the inputs. */
  ghost predicate LastPrecedes(s: MarketState, inputs: seq<Input>, hash: Bytes -> Bytes) {
    s.lastEvent.Some? ==>
      exists f: Event :: f.instrument == s.instrument && RefOf(f, hash) == Ok(s.lastEvent.value) && Precedes(f, inputs, hash)
  }

  ghost predicate InOrder(inputs: seq<Input>, instrument: InstrumentId, hash: Bytes -> Bytes) {
    && (forall i :: 0 <= i < |inputs| ==> inputs[i].event.instrument == instrument)
    && (forall i, j :: 0 <= i < j < |inputs| ==> EventAtMost(inputs[i].event, inputs[j].event, hash))
  }

  lemma {:induction false} LaterRef(f: Event, e: Event, hash: Bytes -> Bytes)
    requires EventAtMost(f, e, hash) && e.instrument == f.instrument
    ensures RefOf(e, hash).Ok? && RefOf(f, hash).Ok? && RefOf(e, hash).value.matchTime == e.matchTime
    ensures CompareWithinInstrument(RefOf(e, hash).value, RefOf(f, hash).value) != Less
  {
    ComparisonsAgree(f, e, hash);
    RefsFlip(RefOf(f, hash).value, RefOf(e, hash).value);
  }

  lemma {:induction false} NextDoesNotRegress(profile: Profile, s: MarketState, inputs: seq<Input>, hash: Bytes -> Bytes)
    requires inputs != [] && InOrder(inputs, s.instrument, hash) && LastPrecedes(s, inputs, hash)
    ensures !Regresses(Apply(profile, s, inputs[0].event, inputs[0].context, hash))
  {
    var e := inputs[0].event;
    if s.lastEvent.Some? {
      var f: Event :| f.instrument == s.instrument && RefOf(f, hash) == Ok(s.lastEvent.value) && Precedes(f, inputs, hash);
      assert EventAtMost(f, e, hash);
      LaterRef(f, e, hash);
    }
    AdmitsInOrder(profile, s, e, inputs[0].context, RefOf(e, hash));
  }

  lemma {:induction false} RefsFlip(a: AppliedRef, b: AppliedRef)
    ensures CompareWithinInstrument(b, a) == Flip(CompareWithinInstrument(a, b))
  {
    BytesFlip(a.sourceFormat, b.sourceFormat);
    BytesFlip(a.fingerprint, b.fingerprint);
  }

  lemma {:induction false} AdmitsInOrder(profile: Profile, s: MarketState, e: Event, context: Context, ref: Result<AppliedRef, EncodeError>)
    requires s.lastEvent.Some? ==> ref.Ok? && CompareWithinInstrument(ref.value, s.lastEvent.value) != Less && ref.value.matchTime == e.matchTime
    ensures ProposeWith(profile, s, e, context, ref) != Err(MatchTimeRegression)
    ensures ProposeWith(profile, s, e, context, ref) != Err(OrderingRegression)
  {
  }

  /** Events in the global order, whatever their contexts, are never refused as a regression. */
  lemma {:induction false} OrderedEventsDoNotRegress(profile: Profile, s: MarketState, inputs: seq<Input>, k: nat, hash: Bytes -> Bytes)
    requires k < |inputs| && InOrder(inputs, s.instrument, hash) && LastPrecedes(s, inputs, hash)
    ensures !Regresses(Apply(profile, Run(profile, s, inputs[..k], hash), inputs[k].event, inputs[k].context, hash))
    decreases k
  {
    NextDoesNotRegress(profile, s, inputs, hash);
    if k > 0 {
      var applied := Apply(profile, s, inputs[0].event, inputs[0].context, hash);
      var t := if applied.Ok? then applied.value else s;
      StillPrecedes(profile, s, inputs, hash);
      assert inputs[..k][1..] == inputs[1..][..k - 1] && inputs[..k][0] == inputs[0];
      OrderedEventsDoNotRegress(profile, t, inputs[1..], k - 1, hash);
    }
  }

  lemma {:induction false} StillPrecedes(profile: Profile, s: MarketState, inputs: seq<Input>, hash: Bytes -> Bytes)
    requires inputs != [] && InOrder(inputs, s.instrument, hash) && LastPrecedes(s, inputs, hash)
    ensures var applied := Apply(profile, s, inputs[0].event, inputs[0].context, hash);
      var t := if applied.Ok? then applied.value else s;
      t.instrument == s.instrument && InOrder(inputs[1..], t.instrument, hash) && LastPrecedes(t, inputs[1..], hash)
  {
    var e, context := inputs[0].event, inputs[0].context;
    var applied := Apply(profile, s, e, context, hash);
    if applied.Ok? {
      ProposalShape(profile, s, e, context, hash);
      assert RefOf(e, hash) == Ok(applied.value.lastEvent.value);
      assert Precedes(e, inputs[1..], hash);
    } else if s.lastEvent.Some? {
      var f: Event :| f.instrument == s.instrument && RefOf(f, hash) == Ok(s.lastEvent.value) && Precedes(f, inputs, hash);
      assert Precedes(f, inputs[1..], hash);
    }
  }

  /** A single-instrument list that the ordering returned goes through the reducer without a regression. */
  lemma {:induction false} OrderedListDoesNotRegress(profile: Profile, instrument: InstrumentId, tradingDate: i32, inputs: seq<Input>, events: seq<Event>,
                                  k: nat, hash: Bytes -> Bytes)
    requires SortedEvents(events, hash) && |inputs| == |events| && k < |inputs|
    requires forall i :: 0 <= i < |inputs| ==> inputs[i].event == events[i] && events[i].instrument == instrument
    ensures var s := Run(profile, NewState(instrument, tradingDate), inputs[..k], hash);
      !Regresses(Apply(profile, s, inputs[k].event, inputs[k].context, hash))
  {
    OrderedEventsDoNotRegress(profile, NewState(instrument, tradingDate), inputs, k, hash);
  }
}
