/** The reducer as it runs: a copy of the state is changed in place, and a commit replaces the state. */
module Reducer {
  import opened Wrappers
  import opened MachineIntegers
  import opened MarketTypes
  import opened Book
  import opened Events
  import opened FrameCodec
  import opened ReducerModel
  import opened ReducerProperties

  /** The copy, the fields set on it so far and the warnings. */
  class WorkingState {
    var next: MarketState
    var changed: set<ChangedField>
    var warnings: set<Warning>

    ghost function AsDraft(): Draft
      reads this
    {
      Draft(next, changed, warnings)
    }

    constructor (s: MarketState)
      ensures AsDraft() == Draft(s, {}, {})
    {
      next, changed, warnings := s, {}, {};
    }

    method ClearIndicativeAuction(at: AppliedRef)
      modifies this
      ensures AsDraft() == ClearAuction(old(AsDraft()), at)
    {
      if !next.auction.Unavailable? {
        next := next.(auction := Unavailable(ClearedAt(at)));
        changed := changed + {IndicativeField};
      }
    }

    method EnterSegment(context: Context, at: AppliedRef)
      requires changed == {} && warnings == {}
      modifies this
      ensures AsDraft() == StartSegment(old(next), context, at)
    {
      if next.segment != Some(context.segment) {
        if next.segment.Some? && context.policy == ResetObservableFields {
          next := next.(book := Unset(), recentTrade := Unset(), volume := Unset(), auction := Unset(), signal := Unset(), phase := Unset());
          changed := changed + OBSERVABLE;
        } else if context.policy == Carry {
          ClearIndicativeAuction(at);
        }
        next := next.(segment := Some(context.segment));
        changed := changed + {CurrentSegment};
      }
    }

    method SetBook(book: Snapshot, at: AppliedRef)
      modifies this
      ensures AsDraft() == ApplyBook(old(AsDraft()), book, at)
    {
      next := next.(book := KnownField(book, at));
      changed := changed + {BookField};
    }

    method SetTrades(trades: seq<ObservedTrade>, order: BatchOrdering, at: AppliedRef)
      modifies this
      ensures AsDraft() == ApplyTrades(old(AsDraft()), trades, order, at)
    {
      next := next.(recentTrade := KnownField(Batch(trades, order), at));
      changed := changed + {RecentTrade};
    }

    method ObserveTrade(trade: Observation<ObservedTrade>, at: AppliedRef)
      modifies this
      ensures AsDraft() == ApplyTrade(old(AsDraft()), trade, at)
    {
      if trade.NoObservation? {
        return;
      }
      if trade.Set? {
        next := next.(recentTrade := KnownField(Single(trade.value), at));
      } else if trade.Clear? {
        next := next.(recentTrade := Unavailable(ClearedAt(at)));
      } else {
        next := next.(recentTrade := UnknownField(trade.raw, at));
        warnings := warnings + {UnknownRecentTrade};
      }
      changed := changed + {RecentTrade};
    }

    method ObserveVolume(profile: Profile, volume: Observation<Volume>, at: AppliedRef, compare: bool) returns (r: Result<(), StateError>)
      modifies this
      ensures match ApplyVolume(profile, old(AsDraft()), volume, at, compare)
        case Ok(d) => r == Ok(()) && AsDraft() == d
        case Err(e) => r == Err(e)
    {
      if volume.NoObservation? {
        return Ok(());
      }
      if volume.Set? {
        var valid :- ValidateVolume(profile, next.volume, volume.value, compare);
        next := next.(volume := KnownField(volume.value, at));
      } else if volume.Clear? {
        next := next.(volume := Unavailable(ClearedAt(at)));
      } else {
        next := next.(volume := UnknownField(volume.raw, at));
        warnings := warnings + {UnknownCumulativeVolume};
      }
      changed := changed + {CumulativeVolume};
      return Ok(());
    }

    method ObserveIndicative(a: Auction, at: AppliedRef)
      modifies this
      ensures AsDraft() == ApplyIndicative(old(AsDraft()), a, at)
    {
      next := next.(auction := KnownField(a.(observation := MergeWith(CurrentAuction(next), a.observation)), at));
      changed := changed + {IndicativeField};
    }

    method ObservePayload(profile: Profile, p: Payload, at: AppliedRef, compare: bool) returns (r: Result<(), StateError>)
      modifies this
      ensures match ApplyPayload(profile, old(AsDraft()), p, at, compare)
        case Ok(d) => r == Ok(()) && AsDraft() == d
        case Err(e) => r == Err(e)
    {
      match p
      case QuoteSnapshot(book, trade, volume, _, _) =>
        SetBook(book, at);
        ObserveTrade(trade, at);
        r := ObserveVolume(profile, volume, at, compare);
      case BookSnapshot(book, _, _) =>
        SetBook(book, at);
        r := Ok(());
      case TradeBatch(trades, order, volume, _, _) =>
        SetTrades(trades, order, at);
        r := ObserveVolume(profile, volume, at, compare);
      case IndicativeAuction(a) =>
        ObserveIndicative(a, at);
        r := Ok(());
      case MarketStatus(volume, _, _) =>
        r := ObserveVolume(profile, volume, at, compare);
    }

    method ObserveSignal(signal: Observation<MarketSignal>, at: AppliedRef)
      modifies this
      ensures AsDraft() == ApplySignal(old(AsDraft()), signal, at)
    {
      if signal.NoObservation? {
        return;
      }
      if signal.Set? {
        var merged := MergedSignal(next, signal.value);
        if !merged.AuctionCollecting? {
          ClearIndicativeAuction(at);
        }
        next := next.(signal := KnownField(merged, at), phase := PhaseOf(merged, at));
      } else if signal.Clear? {
        next := next.(signal := Unavailable(ClearedAt(at)), phase := Unavailable(ClearedAt(at)));
      } else {
        next := next.(signal := UnknownField(signal.raw, at), phase := UnknownField(signal.raw, at));
      }
      changed := changed + {SignalField, PhaseField};
    }
  }

  /** The current state of one instrument. */
  class MarketStateReducer {
    const profile: Profile
    var state: MarketState

    /** The phase follows the signal, no auction stands beside a signal that ends it, and volumes have one unit. */
    predicate Valid()
      reads this
    {
      Inv(profile, state)
    }

    constructor (profile: Profile, instrument: InstrumentId, tradingDate: i32)
      ensures this.profile == profile && state == NewState(instrument, tradingDate) && Valid()
    {
      this.profile := profile;
      state := NewState(instrument, tradingDate);
    }

    /** Nothing is changed yet: the work is done on a copy. */
    method ChangeCopy(e: Event, context: Context, at: AppliedRef) returns (r: Result<Draft, StateError>)
      ensures r == Change(profile, state, e, context, at)
    {
      var working := new WorkingState(state);
      working.EnterSegment(context, at);
      var _ :- working.ObservePayload(profile, e.payload, at, !SegmentChanged(state, context));
      working.ObserveSignal(SignalOf(e.payload), at);
      return Ok(Draft(working.next, working.changed, working.warnings));
    }

    method ProposeReferenced(e: Event, context: Context, ref: Result<AppliedRef, EncodeError>) returns (r: Result<Proposal, StateError>)
      ensures r == ProposeWith(profile, state, e, context, ref)
    {
      var admitted :- Admit(profile, state, e, context, ref);
      var changed :- ChangeCopy(e, context, admitted);
      r := SealProposal(changed, context, admitted);
    }

    method SealProposal(changed: Draft, context: Context, at: AppliedRef) returns (r: Result<Proposal, StateError>)
      ensures r == Sealed(state, changed, context, at)
    {
      var version: int := state.version + 1;
      if !IsU64(version) {
        return Err(VersionOverflow);
      }
      var d := Finish(changed, at, version);
      return Ok(Proposal(state.version, d.next, Receipt(state.instrument, state.version, version, at, Resets(state, context),
                                                        d.changed, d.warnings)));
    }

    method ProposeEvent(e: Event, context: Context, hash: Bytes -> Bytes) returns (r: Result<Proposal, StateError>)
      ensures r == Propose(profile, state, e, context, hash)
      ensures Valid() && r.Ok? ==> Inv(profile, r.value.next)
    {
      if Valid() && Propose(profile, state, e, context, hash).Ok? {
        ProposeKeeps(profile, state, e, context, hash);
      }
      r := ProposeReferenced(e, context, RefOf(e, hash));
    }

    method CommitProposal(p: Proposal) returns (r: Result<Receipt, StateError>)
      modifies this
      ensures match Commit(old(state), p)
        case Ok(committed) => r == Ok(committed.1) && state == committed.0
        case Err(e) => r == Err(e) && state == old(state)
      ensures old(Valid()) && Inv(profile, p.next) ==> Valid()
    {
      if state.version != p.previousVersion || state.instrument != p.next.instrument || state.tradingDate != p.next.tradingDate {
        return Err(StaleProposal);
      }
      state := p.next;
      return Ok(p.receipt);
    }

    method ApplyEvent(e: Event, context: Context, hash: Bytes -> Bytes) returns (r: Result<Receipt, StateError>)
      modifies this
      ensures match Apply(profile, old(state), e, context, hash)
        case Ok(applied) => r.Ok? && state == applied
        case Err(error) => r == Err(error) && state == old(state)
      ensures old(Valid()) ==> Valid()
    {
      var proposal :- ProposeEvent(e, context, hash);
      r := CommitProposal(proposal);
    }
  }
}
