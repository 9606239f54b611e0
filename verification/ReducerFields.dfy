/** What an accepted event leaves in each field of the market state, and why an event is refused: tables over the event, its
    context and the state before it. */
module ReducerFields {
  import opened Wrappers
  import opened MachineIntegers
  import opened MarketTypes
  import opened Book
  import opened Events
  import opened FrameCodec
  import opened Comparing
  import opened EventOrdering
  import opened ReducerModel
  import opened ReducerProperties

  // -------------------------------------------------------------------- phases

  /** The bytes of an ASCII text. */
  function Ascii(text: string): Bytes
    requires forall i :: 0 <= i < |text| ==> text[i] as int < 128
  {
    seq(|text|, i requires 0 <= i < |text| => text[i] as byte)
  }

  /** The phase that stands beside a signal. An uncross ends its auction, a periodic one begins the next round. */
  predicate PhaseRow(signal: StateField<MarketSignal>, phase: StateField<MarketPhase>) {
    match signal
    case Unavailable(reason) => phase == Unavailable(reason)
    case UnknownField(raw, at) => phase == UnknownField(raw, at)
    case KnownField(x, at) =>
      match x
      case Continuous => phase == KnownField(ContinuousPhase, at)
      case Closed => phase == KnownField(ClosedPhase, at)
      case AuctionCollecting(o) => phase == KnownField(AuctionPhase(o), at)
      case AuctionUncross(o) =>
        if o.purpose == Known(Opening) || o.purpose == Known(VolatilityInterruption) then phase == KnownField(ContinuousPhase, at)
        else if o.purpose == Known(Closing) then phase == KnownField(ClosedPhase, at)
        else if o.purpose == Known(Periodic)
        then phase == KnownField(AuctionPhase(AuctionObservation(Known(Periodic), Known(false), o.disposal, NotObserved)), at)
        else phase == UnknownField(Text(Ascii("auction purpose unavailable")), at)
  }

  lemma {:induction false} PhaseFollows(signal: StateField<MarketSignal>)
    ensures PhaseRow(signal, PhaseFor(signal))
  {
    var text := "auction purpose unavailable";
    assert |text| == 27;
    assert Ascii(text) == PURPOSE_UNAVAILABLE;
  }

  /** In every state that a reducer reaches, the phase stands in its signal's row, and a known indicative auction never
      stands beside a known signal other than collecting. */
  lemma {:induction false} ReachableRows(profile: Profile, instrument: InstrumentId, tradingDate: i32, inputs: seq<Input>, hash: Bytes -> Bytes)
    ensures var s := Run(profile, NewState(instrument, tradingDate), inputs, hash);
      && PhaseRow(s.signal, s.phase)
      && (s.auction.KnownField? && s.signal.KnownField? ==> s.signal.value.AuctionCollecting?)
  {
    ReachableStates(profile, instrument, tradingDate, inputs, hash);
    PhaseFollows(Run(profile, NewState(instrument, tradingDate), inputs, hash).signal);
  }

  // ------------------------------------------------------------------- segments

  predicate NewSegment(s: MarketState, context: Context) {
    s.segment != Some(context.segment)
  }

  /** A segment that is not the first one, under the policy that resets. */
  predicate StartsAfresh(s: MarketState, context: Context) {
    NewSegment(s, context) && s.segment != None && context.policy == ResetObservableFields
  }

  predicate CarriesOver(s: MarketState, context: Context) {
    NewSegment(s, context) && !StartsAfresh(s, context) && context.policy == Carry
  }

  /** A field before the payload is applied. */
  function Begun<T>(s: MarketState, context: Context, field: StateField<T>): StateField<T> {
    if StartsAfresh(s, context) then Unavailable(AtStart) else field
  }

  function Ended<T>(field: StateField<T>, at: AppliedRef): StateField<T> {
    if field.Unavailable? then field else Unavailable(ClearedAt(at))
  }

  /** An indicative auction does not outlive a segment that is carried over. */
  function BegunAuction(s: MarketState, context: Context, at: AppliedRef): StateField<Auction> {
    if StartsAfresh(s, context) then Unavailable(AtStart) else if CarriesOver(s, context) then Ended(s.auction, at) else s.auction
  }

  // -------------------------------------------------------------- observations

  /** An observation beside what was there. */
  function Observed<T>(before: StateField<T>, o: Observation<T>, at: AppliedRef): StateField<T> {
    match o
    case NoObservation => before
    case Set(x) => KnownField(x, at)
    case Clear => Unavailable(ClearedAt(at))
    case Unknown(raw) => UnknownField(raw, at)
  }

  function ObservedTrades(o: Observation<ObservedTrade>): Observation<TradeObservation> {
    match o
    case NoObservation => NoObservation
    case Set(t) => Set(Single(t))
    case Clear => Clear
    case Unknown(raw) => Unknown(raw)
  }

  function TradesIn(p: Payload): Observation<TradeObservation> {
    match p
    case QuoteSnapshot(_, trade, _, _, _) => ObservedTrades(trade)
    case TradeBatch(trades, order, _, _, _) => Set(Batch(trades, order))
    case _ => NoObservation
  }

  function VolumeIn(p: Payload): Observation<Volume> {
    match p
    case QuoteSnapshot(_, _, volume, _, _) => volume
    case TradeBatch(_, _, volume, _, _) => volume
    case MarketStatus(volume, _, _) => volume
    case _ => NoObservation
  }

  function BookIn(p: Payload): Observation<Snapshot> {
    match p
    case QuoteSnapshot(book, _, _, _, _) => Set(book)
    case BookSnapshot(book, _, _) => Set(book)
    case _ => NoObservation
  }

  /** An indicative auction is itself the signal that one is being collected. */
  function SignalIn(p: Payload): Observation<MarketSignal> {
    match p
    case QuoteSnapshot(_, _, _, _, signal) => signal
    case BookSnapshot(_, _, signal) => signal
    case TradeBatch(_, _, _, _, signal) => signal
    case MarketStatus(_, _, signal) => signal
    case IndicativeAuction(a) => Set(AuctionCollecting(a.observation))
  }

  // ------------------------------------------------------------------- auctions

  /** What is known of the auction so far: from the phase, or else from the indicative auction. */
  function AuctionSoFar(phase: StateField<MarketPhase>, auction: StateField<Auction>): Option<AuctionObservation> {
    match phase
    case KnownField(AuctionPhase(o), _) => Some(o)
    case _ =>
      match auction
      case KnownField(a, _) => Some(a.observation)
      case _ => None
  }

  function Later<T>(before: Evidence<T>, now: Evidence<T>): Evidence<T> {
    match now
    case NotObserved => before
    case _ => now
  }

  /** An observation adds to the auction so far, unless the two name different purposes. */
  function Joined(before: Option<AuctionObservation>, now: AuctionObservation): AuctionObservation {
    match before
    case None => now
    case Some(b) =>
      if b.purpose.Known? && now.purpose.Known? && b.purpose.value != now.purpose.value then now
      else AuctionObservation(Later(b.purpose, now.purpose), Later(b.delayed, now.delayed), Later(b.disposal, now.disposal),
                              Later(b.direction, now.direction))
  }

  function JoinedSignal(before: Option<AuctionObservation>, o: Observation<MarketSignal>): Observation<MarketSignal> {
    match o
    case Set(AuctionCollecting(x)) => Set(AuctionCollecting(Joined(before, x)))
    case Set(AuctionUncross(x)) => Set(AuctionUncross(Joined(before, x)))
    case _ => o
  }

  // ----------------------------------------------------------- the whole next state

  /** The reference of an accepted event. */
  predicate Refers(at: AppliedRef, e: Event, hash: Bytes -> Bytes) {
    && at.matchTime == e.matchTime && at.sourceFormat == e.sourceFormat && at.sourceSequence == e.sourceSequence
    && at.sourcePhase == PhaseValue(e) && at.kind == 10 * KindPlace(e.payload)
    && Encode(e).Ok? && at.fingerprint == hash(Encode(e).value)
  }

  predicate Fields(s: MarketState, e: Event, context: Context, at: AppliedRef, t: MarketState) {
    var p, auction := e.payload, BegunAuction(s, context, at);
    var soFar := AuctionSoFar(Begun(s, context, s.phase), auction);
    && t.instrument == s.instrument && t.tradingDate == s.tradingDate && t.segment == Some(context.segment)
    && t.lastEvent == Some(at) && t.version == s.version + 1
    && t.book == Observed(Begun(s, context, s.book), BookIn(p), at)
    && t.recentTrade == Observed(Begun(s, context, s.recentTrade), TradesIn(p), at)
    && t.volume == Observed(Begun(s, context, s.volume), VolumeIn(p), at)
    && t.auction == (if p.IndicativeAuction? then KnownField(p.auction.(observation := Joined(soFar, p.auction.observation)), at)
                     else if SignalIn(p).Set? && !SignalIn(p).value.AuctionCollecting? then Ended(auction, at) else auction)
    && t.signal == Observed(Begun(s, context, s.signal), JoinedSignal(soFar, SignalIn(p)), at)
    && (if SignalIn(p) == NoObservation then t.phase == Begun(s, context, s.phase) else PhaseRow(t.signal, t.phase))
  }

  lemma {:induction false} BegunFields(s: MarketState, context: Context, at: AppliedRef)
    ensures var d := StartSegment(s, context, at).next;
      && d == s.(segment := Some(context.segment), book := Begun(s, context, s.book), recentTrade := Begun(s, context, s.recentTrade),
                 volume := Begun(s, context, s.volume), auction := BegunAuction(s, context, at), signal := Begun(s, context, s.signal),
                 phase := Begun(s, context, s.phase))
  {
  }

  lemma {:induction false} JoinsAsMerged(s: MarketState, o: AuctionObservation)
    ensures CurrentAuction(s) == AuctionSoFar(s.phase, s.auction)
    ensures MergeWith(CurrentAuction(s), o) == Joined(AuctionSoFar(s.phase, s.auction), o)
  {
  }

  lemma {:induction false} PayloadFields(profile: Profile, d: Draft, p: Payload, at: AppliedRef, compare: bool)
    requires ApplyPayload(profile, d, p, at, compare).Ok?
    ensures var u := ApplyPayload(profile, d, p, at, compare).value.next;
      u == d.next.(book := Observed(d.next.book, BookIn(p), at), recentTrade := Observed(d.next.recentTrade, TradesIn(p), at),
                   volume := Observed(d.next.volume, VolumeIn(p), at),
                   auction := if p.IndicativeAuction? then KnownField(p.auction.(observation := MergeWith(CurrentAuction(d.next), p.auction.observation)), at)
                              else d.next.auction)
  {
  }

  lemma {:induction false} SignalFields(u: Draft, signal: Observation<MarketSignal>, at: AppliedRef)
    ensures var t := ApplySignal(u, signal, at).next;
      && t == u.next.(auction := if signal.Set? && !signal.value.AuctionCollecting? then Ended(u.next.auction, at) else u.next.auction,
                      signal := Observed(u.next.signal, JoinedSignal(CurrentAuction(u.next), signal), at), phase := t.phase)
      && (if signal == NoObservation then t.phase == u.next.phase else PhaseRow(t.signal, t.phase))
  {
    var t := ApplySignal(u, signal, at).next;
    if signal.Set? && !signal.value.Continuous? && !signal.value.Closed? {
      JoinsAsMerged(u.next, signal.value.observation);
    }
    PhaseFollows(t.signal);
  }

  /** Every field of the state after an accepted event. */
  lemma {:induction false} AcceptedFields(profile: Profile, s: MarketState, e: Event, context: Context, hash: Bytes -> Bytes)
    requires Apply(profile, s, e, context, hash).Ok?
    ensures var t := Apply(profile, s, e, context, hash).value;
      t.lastEvent.Some? && Refers(t.lastEvent.value, e, hash) && Fields(s, e, context, t.lastEvent.value, t)
  {
    var at := AcceptedRefers(profile, s, e, context, hash);
    var compare := !SegmentChanged(s, context);
    var d := StartSegment(s, context, at);
    BegunFields(s, context, at);
    PayloadFields(profile, d, e.payload, at, compare);
    var u := ApplyPayload(profile, d, e.payload, at, compare).value;
    SignalFields(u, SignalIn(e.payload), at);
    JoinsAsMerged(d.next, if e.payload.IndicativeAuction? then e.payload.auction.observation
                          else AuctionObservation(NotObserved, NotObserved, NotObserved, NotObserved));
    if e.payload.IndicativeAuction? {
      MergeIsIdempotent(CurrentAuction(d.next), e.payload.auction.observation);
      IndicativeStep(d, e.payload.auction, at);
    }
  }

  lemma {:induction false} AcceptedRefers(profile: Profile, s: MarketState, e: Event, context: Context, hash: Bytes -> Bytes)
    returns (at: AppliedRef)
    requires Apply(profile, s, e, context, hash).Ok?
    ensures RefOf(e, hash) == Ok(at) && Refers(at, e, hash)
    ensures Change(profile, s, e, context, at).Ok?
    ensures Apply(profile, s, e, context, hash).value == Finish(Change(profile, s, e, context, at).value, at, s.version + 1).next
    ensures IsU64(s.version + 1)
  {
    at := RefOf(e, hash).value;
  }

  // -------------------------------------------------------------------- receipts

  /** What the receipt says changed, besides the last event. */
  predicate Touched(s: MarketState, e: Event, context: Context, at: AppliedRef, field: ChangedField) {
    var afresh, p := StartsAfresh(s, context), e.payload;
    match field
    case LastEvent => true
    case CurrentSegment => NewSegment(s, context)
    case BookField => afresh || BookIn(p).Set?
    case RecentTrade => afresh || !TradesIn(p).NoObservation?
    case CumulativeVolume => afresh || !VolumeIn(p).NoObservation?
    case SignalField => afresh || !SignalIn(p).NoObservation?
    case PhaseField => afresh || !SignalIn(p).NoObservation?
    case IndicativeField =>
      || afresh || p.IndicativeAuction?
      || (CarriesOver(s, context) && !s.auction.Unavailable?)
      || (SignalIn(p).Set? && !SignalIn(p).value.AuctionCollecting? && !BegunAuction(s, context, at).Unavailable?)
  }

  function Warned(p: Payload): set<Warning> {
    (if TradesIn(p).Unknown? then {UnknownRecentTrade} else {}) + (if VolumeIn(p).Unknown? then {UnknownCumulativeVolume} else {})
  }

  /** A receipt names its instrument, its versions and its event, whether the segment was started afresh, exactly the fields
      that were touched, and a warning for each unknown trade or volume. */
  lemma {:induction false} ReceiptExactly(profile: Profile, s: MarketState, e: Event, context: Context, hash: Bytes -> Bytes, field: ChangedField)
    requires Propose(profile, s, e, context, hash).Ok?
    ensures var receipt := Propose(profile, s, e, context, hash).value.receipt;
      && receipt.instrument == e.instrument == s.instrument
      && receipt.previousVersion == s.version && receipt.newVersion == s.version + 1 && Refers(receipt.event, e, hash)
      && receipt.reset == StartsAfresh(s, context)
      && (field in receipt.changed <==> Touched(s, e, context, receipt.event, field)) && receipt.warnings == Warned(e.payload)
  {
    var at := RefOf(e, hash).value;
    var d := StartSegment(s, context, at);
    var compare := !SegmentChanged(s, context);
    BegunTouches(s, context, at, field);
    BegunFields(s, context, at);
    PayloadTouches(profile, d, e.payload, at, compare, field);
    PayloadFields(profile, d, e.payload, at, compare);
    SignalTouches(ApplyPayload(profile, d, e.payload, at, compare).value, SignalIn(e.payload), at, field);
  }

  lemma {:induction false} BegunTouches(s: MarketState, context: Context, at: AppliedRef, field: ChangedField)
    ensures var d := StartSegment(s, context, at);
      && d.warnings == {}
      && (field in d.changed <==>
            match field
            case LastEvent => false
            case CurrentSegment => NewSegment(s, context)
            case IndicativeField => StartsAfresh(s, context) || (CarriesOver(s, context) && !s.auction.Unavailable?)
            case _ => StartsAfresh(s, context))
  {
  }

  lemma {:induction false} PayloadTouches(profile: Profile, d: Draft, p: Payload, at: AppliedRef, compare: bool, field: ChangedField)
    requires ApplyPayload(profile, d, p, at, compare).Ok?
    ensures var u := ApplyPayload(profile, d, p, at, compare).value;
      && (field in u.changed <==>
            || field in d.changed
            || (match field
                case BookField => BookIn(p).Set?
                case RecentTrade => !TradesIn(p).NoObservation?
                case CumulativeVolume => !VolumeIn(p).NoObservation?
                case IndicativeField => p.IndicativeAuction?
                case _ => false))
      && u.warnings == d.warnings + Warned(p)
  {
  }

  lemma {:induction false} SignalTouches(u: Draft, signal: Observation<MarketSignal>, at: AppliedRef, field: ChangedField)
    ensures var t := ApplySignal(u, signal, at);
      && t.warnings == u.warnings
      && (field in t.changed <==>
            || field in u.changed
            || (match field
                case SignalField => !signal.NoObservation?
                case PhaseField => !signal.NoObservation?
                case IndicativeField => signal.Set? && !signal.value.AuctionCollecting? && !u.next.auction.Unavailable?
                case _ => false))
  {
  }

  // -------------------------------------------------------------------- refusals

  /** The first rule of a source format says which kinds of payload it may carry. */
  ghost predicate RuledBy(rules: seq<FormatRule>, sourceFormat: Bytes, i: nat) {
    i < |rules| && rules[i].sourceFormat == sourceFormat && forall j :: 0 <= j < i ==> rules[j].sourceFormat != sourceFormat
  }

  lemma {:induction false} RuleFound(rules: seq<FormatRule>, sourceFormat: Bytes) returns (i: nat)
    ensures FindRule(rules, sourceFormat) == None ==> forall j :: 0 <= j < |rules| ==> rules[j].sourceFormat != sourceFormat
    ensures FindRule(rules, sourceFormat).Some? ==> RuledBy(rules, sourceFormat, i) && FindRule(rules, sourceFormat) == Some(rules[i])
  {
    i := 0;
    if rules != [] && rules[0].sourceFormat != sourceFormat {
      var k := RuleFound(rules[1..], sourceFormat);
      i := k + 1;
      assert forall j :: 0 < j < |rules| ==> rules[j] == rules[1..][j - 1];
    }
  }

  ghost predicate KindAllowed(profile: Profile, e: Event) {
    exists i: nat :: RuledBy(profile.rules, e.sourceFormat, i) && 10 * KindPlace(e.payload) in profile.rules[i].kinds
  }

  ghost predicate FormatKnown(profile: Profile, e: Event) {
    exists i :: 0 <= i < |profile.rules| && profile.rules[i].sourceFormat == e.sourceFormat
  }

  /** Within an instrument: by match time, source format, phase, kind, source sequence and fingerprint. */
  ghost predicate RefLess(a: AppliedRef, b: AppliedRef) {
    || a.matchTime < b.matchTime
    || (a.matchTime == b.matchTime
        && (|| BytesLess(a.sourceFormat, b.sourceFormat)
            || (a.sourceFormat == b.sourceFormat
                && (|| a.sourcePhase < b.sourcePhase
                    || (a.sourcePhase == b.sourcePhase
                        && (|| a.kind < b.kind
                            || (a.kind == b.kind
                                && (|| SequenceLess(a.sourceSequence, b.sourceSequence)
                                    || (a.sourceSequence == b.sourceSequence && BytesLess(a.fingerprint, b.fingerprint))))))))))
  }

  lemma {:induction false} RefLessExactly(a: AppliedRef, b: AppliedRef)
    ensures CompareWithinInstrument(a, b) == Less <==> RefLess(a, b)
  {
    LessIsByteOrder(a.sourceFormat, b.sourceFormat);
    BytesFlip(a.sourceFormat, b.sourceFormat);
    LessIsByteOrder(a.fingerprint, b.fingerprint);
    BytesFlip(a.fingerprint, b.fingerprint);
  }

  predicate ShapeRefused(e: Event) {
    e.instrument.market != Taifex && e.sourceFormat == STOCK_REALTIME
    && (e.payload.BookSnapshot? || (e.payload.TradeBatch? && exists t :: t in e.payload.trades && t.kind != Intermediate))
  }

  /** What is wrong with a volume: its unit, the unit of the one before it in the segment, or that it is less. */
  function VolumeProblem(profile: Profile, before: StateField<Volume>, o: Observation<Volume>, sameSegment: bool): Option<StateError> {
    if profile.volumeUnit == None || !o.Set? then None else
    var unit := profile.volumeUnit.value;
    if o.value.unit != unit then Some(VolumeUnitMismatch(unit, o.value.unit))
    else if !sameSegment || !before.KnownField? then None
    else if before.value.unit != unit then Some(VolumeUnitMismatch(unit, before.value.unit))
    else if o.value.value < before.value.value then Some(VolumeRegression(before.value.value, o.value.value))
    else None
  }

  /** The first thing wrong with an event, if any. */
  ghost function Refusal(profile: Profile, s: MarketState, e: Event, context: Context, hash: Bytes -> Bytes): Option<StateError> {
    if e.instrument != s.instrument then Some(InstrumentMismatch)
    else if e.tradingDate != s.tradingDate || e.tradingDate != context.tradingDate then Some(TradingDateMismatch)
    else if context.policyVersion != profile.policyVersion then Some(BoundaryPolicyVersionMismatch)
    else if s.lastEvent.Some? && e.matchTime < s.lastEvent.value.matchTime then Some(MatchTimeRegression)
    else if e.instrument.market != profile.market then Some(ProfileRejected(MarketMismatch))
    else if !FormatKnown(profile, e) then Some(ProfileRejected(UnsupportedSourceFormat))
    else if !KindAllowed(profile, e) then Some(ProfileRejected(UnsupportedEventKind))
    else if ShapeRefused(e) then Some(InvalidRealtimeShape(e.instrument.market))
    else if Encode(e).Err? then Some(NotEncodable(Encode(e).error))
    else if s.lastEvent.Some? && RefLess(ReferenceOf(e, hash), s.lastEvent.value) then Some(OrderingRegression)
    else if s.version == U64_MAX then Some(VersionOverflow)
    else VolumeProblem(profile, Begun(s, context, s.volume), VolumeIn(e.payload), !NewSegment(s, context))
  }

  function ReferenceOf(e: Event, hash: Bytes -> Bytes): AppliedRef
    requires Encode(e).Ok?
  {
    AppliedRef(e.matchTime, e.sourceFormat, PhaseValue(e), 10 * KindPlace(e.payload), e.sourceSequence, hash(Encode(e).value))
  }

  lemma {:induction false} ProfileExactly(profile: Profile, e: Event)
    ensures ValidateEvent(profile, e)
         == if e.instrument.market != profile.market then Err(MarketMismatch)
            else if !FormatKnown(profile, e) then Err(UnsupportedSourceFormat)
            else if !KindAllowed(profile, e) then Err(UnsupportedEventKind) else Ok(())
  {
    var i := RuleFound(profile.rules, e.sourceFormat);
    if FindRule(profile.rules, e.sourceFormat).Some? {
      assert RuledBy(profile.rules, e.sourceFormat, i);
      assert PayloadTag(e.payload) == 10 * KindPlace(e.payload);
      assert FormatKnown(profile, e);
    }
  }

  lemma {:induction false} ShapeExactly(e: Event)
    ensures RealtimeShape(e) <==> !ShapeRefused(e)
  {
  }

  lemma {:induction false} AdmitsExactly(profile: Profile, s: MarketState, e: Event, context: Context, hash: Bytes -> Bytes)
    requires Encode(e).Ok? ==> RefOf(e, hash) == Ok(ReferenceOf(e, hash))
    requires Encode(e).Ok? && s.lastEvent.Some? ==>
      (CompareWithinInstrument(ReferenceOf(e, hash), s.lastEvent.value) == Less <==> RefLess(ReferenceOf(e, hash), s.lastEvent.value))
    ensures var problem := Refusal(profile, s, e, context, hash);
      if Admit(profile, s, e, context, RefOf(e, hash)).Ok?
      then problem == VolumeProblem(profile, Begun(s, context, s.volume), VolumeIn(e.payload), !NewSegment(s, context))
      else problem.Some? && Admit(profile, s, e, context, RefOf(e, hash)) == Err(problem.value)
  {
    ProfileExactly(profile, e);
    ShapeExactly(e);
  }

  lemma {:induction false} VolumeRefused(profile: Profile, d: Draft, p: Payload, at: AppliedRef, compare: bool)
    ensures var problem := VolumeProblem(profile, d.next.volume, VolumeIn(p), compare);
      if problem.Some? then ApplyPayload(profile, d, p, at, compare) == Err(problem.value) else ApplyPayload(profile, d, p, at, compare).Ok?
  {
  }

  lemma {:induction false} AdmittedApplies(profile: Profile, s: MarketState, e: Event, context: Context, hash: Bytes -> Bytes, at: AppliedRef)
    requires Admit(profile, s, e, context, RefOf(e, hash)) == Ok(at)
    ensures Apply(profile, s, e, context, hash).Ok? <==> Change(profile, s, e, context, at).Ok?
    ensures Change(profile, s, e, context, at).Err? ==> Apply(profile, s, e, context, hash) == Err(Change(profile, s, e, context, at).error)
  {
    if Change(profile, s, e, context, at).Ok? {
      ChangeKeeps(profile, s, e, context, at);
    }
  }

  lemma {:induction false} ReferenceExactly(e: Event, hash: Bytes -> Bytes)
    requires Encode(e).Ok?
    ensures RefOf(e, hash) == Ok(ReferenceOf(e, hash))
  {
  }

  /** An event is refused exactly for the first thing wrong with it. */
  lemma {:induction false} RefusedExactly(profile: Profile, s: MarketState, e: Event, context: Context, hash: Bytes -> Bytes)
    ensures match Refusal(profile, s, e, context, hash)
      case None => Apply(profile, s, e, context, hash).Ok?
      case Some(error) => Apply(profile, s, e, context, hash) == Err(error)
  {
    if Encode(e).Ok? {
      ReferenceExactly(e, hash);
      if s.lastEvent.Some? {
        RefLessExactly(ReferenceOf(e, hash), s.lastEvent.value);
      }
    }
    AdmitsExactly(profile, s, e, context, hash);
    var admitted := Admit(profile, s, e, context, RefOf(e, hash));
    if admitted.Ok? {
      var at := admitted.value;
      AdmittedApplies(profile, s, e, context, hash, at);
      BegunFields(s, context, at);
      VolumeRefused(profile, StartSegment(s, context, at), e.payload, at, !SegmentChanged(s, context));
    }
  }
}
