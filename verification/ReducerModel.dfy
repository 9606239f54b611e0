/** The market-state reducer: an event and a state give a proposal, which may be committed once. */
module ReducerModel {
  import opened Wrappers
  import opened MachineIntegers
  import opened MarketTypes
  import opened Book
  import opened Events
  import opened FrameCodec
  import opened Comparing
  import opened EventOrdering

  // -------------------------------------------------------------------- state

  datatype AppliedRef = AppliedRef(matchTime: i64, sourceFormat: Bytes, sourcePhase: nat, kind: nat, sourceSequence: Option<u64>,
                                   fingerprint: Bytes)

  datatype UnavailableReason = AtStart | ClearedAt(cleared: AppliedRef)

  datatype StateField<+T> = Unavailable(reason: UnavailableReason) | KnownField(value: T, observedAt: AppliedRef)
                          | UnknownField(raw: UnknownValue, observedAt: AppliedRef)

  datatype MarketPhase = ContinuousPhase | AuctionPhase(observation: AuctionObservation) | ClosedPhase

  datatype TradeObservation = Single(trade: ObservedTrade) | Batch(trades: seq<ObservedTrade>, order: BatchOrdering)

  datatype MarketState = MarketState(instrument: InstrumentId, tradingDate: i32, segment: Option<string>, book: StateField<Snapshot>,
                                     recentTrade: StateField<TradeObservation>, volume: StateField<Volume>,
                                     auction: StateField<Auction>, signal: StateField<MarketSignal>, phase: StateField<MarketPhase>,
                                     lastEvent: Option<AppliedRef>, version: u64)

  function NewState(instrument: InstrumentId, tradingDate: i32): MarketState {
    MarketState(instrument, tradingDate, None, Unset(), Unset(), Unset(), Unset(), Unset(), Unset(), None, 0)
  }

  function Unset<T>(): StateField<T> {
    Unavailable(AtStart)
  }

  datatype ChangedField = CurrentSegment | BookField | RecentTrade | CumulativeVolume | IndicativeField | SignalField | PhaseField
                        | LastEvent

  datatype Warning = UnknownRecentTrade | UnknownCumulativeVolume

  datatype BoundaryPolicy = Carry | ResetObservableFields

  datatype Context = Context(tradingDate: i32, segment: string, policy: BoundaryPolicy, policyVersion: nat)

  datatype FormatRule = FormatRule(sourceFormat: Bytes, kinds: set<nat>)

  /** `volumeUnit` is the unit of a profile whose volume must not fall within a segment. */
  datatype Profile = Profile(market: MarketId, rules: seq<FormatRule>, volumeUnit: Option<QuantityUnit>, policyVersion: nat)

  datatype ProfileError = MarketMismatch | UnsupportedSourceFormat | UnsupportedEventKind

  datatype StateError =
    | InstrumentMismatch | TradingDateMismatch | BoundaryPolicyVersionMismatch | ProfileRejected(profile: ProfileError)
    | NotEncodable(encoding: EncodeError) | MatchTimeRegression | OrderingRegression | InvalidRealtimeShape(market: MarketId)
    | VolumeRegression(previous: u64, next: u64) | VolumeUnitMismatch(expected: QuantityUnit, actual: QuantityUnit)
    | VersionOverflow | StaleProposal

  datatype Receipt = Receipt(instrument: InstrumentId, previousVersion: u64, newVersion: u64, event: AppliedRef, reset: bool,
                             changed: set<ChangedField>, warnings: set<Warning>)

  datatype Proposal = Proposal(previousVersion: u64, next: MarketState, receipt: Receipt)

  // ----------------------------------------------------------------- envelope

  function SourcePhase(e: Event): nat {
    if !Realtime(e) then 0
    else match e.payload
      case TradeBatch(_, _, _, _, _) => 10
      case IndicativeAuction(a) => if a.book.Set? then 20 else 10
      case _ => 20
  }

  function RefOf(e: Event, hash: Bytes -> Bytes): Result<AppliedRef, EncodeError> {
    var canonical :- Encode(e);
    Ok(AppliedRef(e.matchTime, e.sourceFormat, SourcePhase(e), PayloadTag(e.payload), e.sourceSequence, hash(canonical)))
  }

  function CompareWithinInstrument(a: AppliedRef, b: AppliedRef): Order {
    Then(CompareInts(a.matchTime, b.matchTime),
    Then(CompareBytes(a.sourceFormat, b.sourceFormat),
    Then(CompareInts(a.sourcePhase, b.sourcePhase),
    Then(CompareInts(a.kind, b.kind),
    Then(CompareOptions(a.sourceSequence, b.sourceSequence),
         CompareBytes(a.fingerprint, b.fingerprint))))))
  }

  function FindRule(rules: seq<FormatRule>, sourceFormat: Bytes): Option<FormatRule> {
    if rules == [] then None
    else if rules[0].sourceFormat == sourceFormat then Some(rules[0])
    else FindRule(rules[1..], sourceFormat)
  }

  function ValidateEvent(profile: Profile, e: Event): Result<(), ProfileError> {
    if e.instrument.market != profile.market then Err(MarketMismatch)
    else match FindRule(profile.rules, e.sourceFormat)
      case None => Err(UnsupportedSourceFormat)
      case Some(rule) => if (PayloadTag(e.payload) as nat) in rule.kinds then Ok(()) else Err(UnsupportedEventKind)
  }

  function ValidateEnvelope(profile: Profile, s: MarketState, e: Event, context: Context): Result<(), StateError> {
    if e.instrument != s.instrument then Err(InstrumentMismatch)
    else if e.tradingDate != s.tradingDate || e.tradingDate != context.tradingDate then Err(TradingDateMismatch)
    else if context.policyVersion != profile.policyVersion then Err(BoundaryPolicyVersionMismatch)
    else if s.lastEvent.Some? && e.matchTime < s.lastEvent.value.matchTime then Err(MatchTimeRegression)
    else Ok(())
  }

  predicate RealtimeShape(e: Event) {
    Realtime(e) ==> match e.payload
      case BookSnapshot(_, _, _) => false
      case TradeBatch(trades, _, _, _, _) => forall i :: 0 <= i < |trades| ==> trades[i].kind == Intermediate
      case _ => true
  }

  // ----------------------------------------------------------------- auctions

  function MergeEvidence<T>(prior: Evidence<T>, current: Evidence<T>): Evidence<T> {
    if current == NotObserved then prior else current
  }

  function Merge(current: AuctionObservation, prior: AuctionObservation): AuctionObservation {
    AuctionObservation(MergeEvidence(prior.purpose, current.purpose), MergeEvidence(prior.delayed, current.delayed),
                       MergeEvidence(prior.disposal, current.disposal), MergeEvidence(prior.direction, current.direction))
  }

  predicate StartsNewAuction(previous: AuctionObservation, current: AuctionObservation) {
    previous.purpose.Known? && current.purpose.Known? && previous.purpose != current.purpose
  }

  function CurrentAuction(s: MarketState): Option<AuctionObservation> {
    if s.phase.KnownField? && s.phase.value.AuctionPhase? then Some(s.phase.value.observation)
    else if s.auction.KnownField? then Some(s.auction.value.observation)
    else None
  }

  function MergeWith(previous: Option<AuctionObservation>, o: AuctionObservation): AuctionObservation {
    match previous
    case None => o
    case Some(p) => if StartsNewAuction(p, o) then o else Merge(o, p)
  }

  function PostMarketPhase(signal: MarketSignal): Option<MarketPhase> {
    match signal
    case Continuous => Some(ContinuousPhase)
    case Closed => Some(ClosedPhase)
    case AuctionCollecting(o) => Some(AuctionPhase(o))
    case AuctionUncross(o) =>
      if !o.purpose.Known? then None
      else match o.purpose.value
        case Opening => Some(ContinuousPhase)
        case VolatilityInterruption => Some(ContinuousPhase)
        case Closing => Some(ClosedPhase)
        case Periodic => Some(AuctionPhase(AuctionObservation(Known(Periodic), Known(false), o.disposal, NotObserved)))
  }

  // --------------------------------------------------------------- transitions

  /** A state being changed, with what has been changed. */
  datatype Draft = Draft(next: MarketState, changed: set<ChangedField>, warnings: set<Warning>)

  function ClearAuction(d: Draft, at: AppliedRef): Draft {
    if d.next.auction.Unavailable? then d
    else d.(next := d.next.(auction := Unavailable(ClearedAt(at))), changed := d.changed + {IndicativeField})
  }

  function SegmentChanged(s: MarketState, context: Context): bool {
    s.segment != Some(context.segment)
  }

  function Resets(s: MarketState, context: Context): bool {
    SegmentChanged(s, context) && s.segment.Some? && context.policy == ResetObservableFields
  }

  const OBSERVABLE: set<ChangedField> := {BookField, RecentTrade, CumulativeVolume, IndicativeField, SignalField, PhaseField}

  function StartSegment(s: MarketState, context: Context, at: AppliedRef): Draft {
    var d := Draft(s, {}, {});
    if !SegmentChanged(s, context) then d
    else
      var begun :=
        if Resets(s, context) then
          Draft(s.(book := Unset(), recentTrade := Unset(), volume := Unset(), auction := Unset(), signal := Unset(), phase := Unset()),
                OBSERVABLE, {})
        else if context.policy == Carry then ClearAuction(d, at) else d;
      begun.(next := begun.next.(segment := Some(context.segment)), changed := begun.changed + {CurrentSegment})
  }

  function ApplyBook(d: Draft, book: Snapshot, at: AppliedRef): Draft {
    d.(next := d.next.(book := KnownField(book, at)), changed := d.changed + {BookField})
  }

  function ApplyTrade(d: Draft, trade: Observation<ObservedTrade>, at: AppliedRef): Draft {
    match trade
    case NoObservation => d
    case Set(t) => d.(next := d.next.(recentTrade := KnownField(Single(t), at)), changed := d.changed + {RecentTrade})
    case Clear => d.(next := d.next.(recentTrade := Unavailable(ClearedAt(at))), changed := d.changed + {RecentTrade})
    case Unknown(raw) => Draft(d.next.(recentTrade := UnknownField(raw, at)), d.changed + {RecentTrade}, d.warnings + {UnknownRecentTrade})
  }

  function ApplyTrades(d: Draft, trades: seq<ObservedTrade>, order: BatchOrdering, at: AppliedRef): Draft {
    d.(next := d.next.(recentTrade := KnownField(Batch(trades, order), at)), changed := d.changed + {RecentTrade})
  }

  function ValidateVolume(profile: Profile, current: StateField<Volume>, next: Volume, compare: bool): Result<(), StateError> {
    if profile.volumeUnit == None then Ok(()) else
    var unit := profile.volumeUnit.value;
    if next.unit != unit then Err(VolumeUnitMismatch(unit, next.unit))
    else if !compare || !current.KnownField? then Ok(())
    else if current.value.unit != unit then Err(VolumeUnitMismatch(unit, current.value.unit))
    else if next.value < current.value.value then Err(VolumeRegression(current.value.value, next.value))
    else Ok(())
  }

  function ApplyVolume(profile: Profile, d: Draft, volume: Observation<Volume>, at: AppliedRef, compare: bool): Result<Draft, StateError> {
    match volume
    case NoObservation => Ok(d)
    case Set(v) =>
      var valid :- ValidateVolume(profile, d.next.volume, v, compare);
      Ok(d.(next := d.next.(volume := KnownField(v, at)), changed := d.changed + {CumulativeVolume}))
    case Clear => Ok(d.(next := d.next.(volume := Unavailable(ClearedAt(at))), changed := d.changed + {CumulativeVolume}))
    case Unknown(raw) =>
      Ok(Draft(d.next.(volume := UnknownField(raw, at)), d.changed + {CumulativeVolume}, d.warnings + {UnknownCumulativeVolume}))
  }

  function ApplyIndicative(d: Draft, a: Auction, at: AppliedRef): Draft {
    var merged := MergeWith(CurrentAuction(d.next), a.observation);
    d.(next := d.next.(auction := KnownField(a.(observation := merged), at)), changed := d.changed + {IndicativeField})
  }

  function ApplyPayload(profile: Profile, d: Draft, p: Payload, at: AppliedRef, compare: bool): Result<Draft, StateError> {
    match p
    case QuoteSnapshot(book, trade, volume, _, _) => ApplyVolume(profile, ApplyTrade(ApplyBook(d, book, at), trade, at), volume, at, compare)
    case BookSnapshot(book, _, _) => Ok(ApplyBook(d, book, at))
    case TradeBatch(trades, order, volume, _, _) =>
      ApplyVolume(profile, ApplyTrades(d, trades, order, at), volume, at, compare)
    case IndicativeAuction(a) => Ok(ApplyIndicative(d, a, at))
    case MarketStatus(volume, _, _) => ApplyVolume(profile, d, volume, at, compare)
  }

  function SignalOf(p: Payload): Observation<MarketSignal> {
    match p
    case QuoteSnapshot(_, _, _, _, signal) => signal
    case BookSnapshot(_, _, signal) => signal
    case TradeBatch(_, _, _, _, signal) => signal
    case IndicativeAuction(a) => Set(AuctionCollecting(a.observation))
    case MarketStatus(_, _, signal) => signal
  }

  const PURPOSE_UNAVAILABLE: Bytes :=
    [97, 117, 99, 116, 105, 111, 110, 32, 112, 117, 114, 112, 111, 115, 101, 32, 117, 110, 97, 118, 97, 105, 108, 97, 98, 108, 101]

  function MergedSignal(s: MarketState, signal: MarketSignal): MarketSignal {
    match signal
    case AuctionCollecting(o) => AuctionCollecting(MergeWith(CurrentAuction(s), o))
    case AuctionUncross(o) => AuctionUncross(MergeWith(CurrentAuction(s), o))
    case Continuous => signal
    case Closed => signal
  }

  function PhaseOf(signal: MarketSignal, at: AppliedRef): StateField<MarketPhase> {
    match PostMarketPhase(signal)
    case Some(phase) => KnownField(phase, at)
    case None => UnknownField(Text(PURPOSE_UNAVAILABLE), at)
  }

  function ApplySignal(d: Draft, signal: Observation<MarketSignal>, at: AppliedRef): Draft {
    if signal == NoObservation then d else
    var cleared := if signal.Set? && !signal.value.AuctionCollecting? then ClearAuction(d, at) else d;
    var changed := cleared.changed + {SignalField, PhaseField};
    match signal
    case NoObservation => d
    case Set(x) =>
      var merged := MergedSignal(d.next, x);
      Draft(cleared.next.(signal := KnownField(merged, at), phase := PhaseOf(merged, at)), changed, d.warnings)
    case Clear => Draft(d.next.(signal := Unavailable(ClearedAt(at)), phase := Unavailable(ClearedAt(at))), changed, d.warnings)
    case Unknown(raw) => Draft(d.next.(signal := UnknownField(raw, at), phase := UnknownField(raw, at)), changed, d.warnings)
  }

  function Finish(d: Draft, at: AppliedRef, version: u64): Draft {
    d.(next := d.next.(lastEvent := Some(at), version := version), changed := d.changed + {LastEvent})
  }

  /** The checks before anything is changed; `ref` is the event's reference, when it has one. */
  function Admit(profile: Profile, s: MarketState, e: Event, context: Context, ref: Result<AppliedRef, EncodeError>)
    : Result<AppliedRef, StateError>
  {
    var envelope :- ValidateEnvelope(profile, s, e, context);
    match ValidateEvent(profile, e)
    case Err(error) => Err(ProfileRejected(error))
    case Ok(_) =>
      if !RealtimeShape(e) then Err(InvalidRealtimeShape(e.instrument.market))
      else match ref
        case Err(error) => Err(NotEncodable(error))
        case Ok(at) =>
          if s.lastEvent.Some? && CompareWithinInstrument(at, s.lastEvent.value) == Less then Err(OrderingRegression)
          else if !IsU64(s.version + 1) then Err(VersionOverflow)
          else Ok(at)
  }

  function Change(profile: Profile, s: MarketState, e: Event, context: Context, at: AppliedRef): Result<Draft, StateError> {
    var applied :- ApplyPayload(profile, StartSegment(s, context, at), e.payload, at, !SegmentChanged(s, context));
    Ok(ApplySignal(applied, SignalOf(e.payload), at))
  }

  function ProposeWith(profile: Profile, s: MarketState, e: Event, context: Context, ref: Result<AppliedRef, EncodeError>)
    : Result<Proposal, StateError>
  {
    var at :- Admit(profile, s, e, context, ref);
    var changed :- Change(profile, s, e, context, at);
    Sealed(s, changed, context, at)
  }

  /** A changed draft becomes a proposal with its receipt. */
  function Sealed(s: MarketState, changed: Draft, context: Context, at: AppliedRef): Result<Proposal, StateError> {
    if !IsU64(s.version + 1) then Err(VersionOverflow) else
    var d := Finish(changed, at, s.version + 1);
    Ok(Proposal(s.version, d.next, Receipt(s.instrument, s.version, s.version + 1, at, Resets(s, context), d.changed, d.warnings)))
  }

  function Propose(profile: Profile, s: MarketState, e: Event, context: Context, hash: Bytes -> Bytes): Result<Proposal, StateError> {
    ProposeWith(profile, s, e, context, RefOf(e, hash))
  }

  function Commit(s: MarketState, p: Proposal): Result<(MarketState, Receipt), StateError> {
    if s.version != p.previousVersion || s.instrument != p.next.instrument || s.tradingDate != p.next.tradingDate then Err(StaleProposal)
    else Ok((p.next, p.receipt))
  }

  function Apply(profile: Profile, s: MarketState, e: Event, context: Context, hash: Bytes -> Bytes): Result<MarketState, StateError> {
    var proposal :- Propose(profile, s, e, context, hash);
    var committed :- Commit(s, proposal);
    Ok(committed.0)
  }
}
