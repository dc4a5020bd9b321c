/** What a stored rail says about the venue, stated over the observations of its history. */
module RailData {
  import opened RailTypes
  import opened RailMachine
  import opened RailInvariant
  import opened RailHistory

  function LastSeen(sigs: seq<Signal>): Option<Observation> {
    if sigs == [] then None
    else
      var last := sigs[|sigs| - 1];
      if last.Seen? then Some(last.obs) else LastSeen(sigs[..|sigs| - 1])
  }

  /** The rail carries the data of the observation: everything it reports but the debounced pair. */
  predicate Carries(r: Rail, obs: Observation) {
    && r.depositConfirmations == obs.depositConfirmations
    && r.withdrawMin == obs.withdrawMin
    && r.withdrawFee == obs.withdrawFee
    && r.withdrawFeeType == obs.withdrawFeeType
    && r.withdrawFeePercent == obs.withdrawFeePercent
    && r.contractAddress == obs.contractAddress
    && r.lastSeenAt == obs.observedAt
  }

  lemma SeenIsCarried(o: Limits, id: int, t: Trace, obs: Observation, complete: bool)
    ensures var s := Advance(o, id, t, Seen(obs, complete)).state;
            && s.rail.Some? && Carries(s.rail.value, obs)
            && (s.Initial() || !s.Active() ==> s.rail.value.Committed() == obs.Reported())
  {
    if t.state.rail.None? {
      AdvanceUnknown(o, id, t, Seen(obs, complete));
    } else if t.state.Initial() {
      AdvanceInitial(o, id, t, obs, complete);
    } else if t.state.Active() {
      AdvanceActive(o, id, t, obs, complete);
    } else {
      AdvanceInactive(o, id, t, obs, complete);
    }
  }

  /** A key has a rail exactly when it was ever observed, and the rail carries the data of the last
      observation, whatever was missed, skipped or restarted since. While it is initial it also shows
      the pair that observation reported. */
  lemma {:induction false} LatestObservationIsStored(o: Limits, id: int, sigs: seq<Signal>)
    ensures var s := Run(o, id, sigs).state;
            match LastSeen(sigs)
            case None => s.rail.None?
            case Some(obs) =>
              && s.rail.Some? && Carries(s.rail.value, obs)
              && (s.Initial() ==> s.rail.value.Committed() == obs.Reported())
  {
    if sigs != [] {
      var front, last := sigs[..|sigs| - 1], sigs[|sigs| - 1];
      var t := Run(o, id, front);
      LatestObservationIsStored(o, id, front);
      if last.Seen? {
        SeenIsCarried(o, id, t, last.obs, last.complete);
      } else if t.state.rail.None? {
        AdvanceUnknown(o, id, t, last);
      } else if last.Missed? {
        AdvanceAbsent(o, id, t, last.at);
      } else {
        AdvanceQuiet(o, id, t);
      }
    }
  }

  // --- Where off-started times come from ---

  predicate SawDepositOff(sig: Signal, at: Time) {
    sig.Seen? && !sig.obs.depositEnabled && sig.obs.observedAt == at
  }

  predicate SawWithdrawOff(sig: Signal, at: Time) {
    sig.Seen? && !sig.obs.withdrawEnabled && sig.obs.observedAt == at
  }

  predicate SawPair(sig: Signal, pair: Status, at: Time) {
    sig.Seen? && sig.obs.Reported() == pair && sig.obs.observedAt == at
  }

  /** Every time the state mentions is the time of an observation that says so. */
  predicate Witnessed(sigs: seq<Signal>, s: KeyState) {
    && (s.rail.Some? && s.rail.value.depositOffStartedAt.Some? ==>
          exists sig <- sigs :: SawDepositOff(sig, s.rail.value.depositOffStartedAt.value))
    && (s.rail.Some? && s.rail.value.withdrawOffStartedAt.Some? ==>
          exists sig <- sigs :: SawWithdrawOff(sig, s.rail.value.withdrawOffStartedAt.value))
    && (s.status.Some? ==> exists sig <- sigs :: SawPair(sig, s.status.value.target, s.status.value.firstObservedAt))
  }

  lemma WitnessesStay(sigs: seq<Signal>, sig: Signal, s: KeyState)
    requires Witnessed(sigs, s)
    ensures Witnessed(sigs + [sig], s)
  {
    forall x <- sigs ensures x in sigs + [sig] {}
  }

  /** An observation leaves a side's off-started time alone, clears it, or sets it to the time of an
      observation that reports the side off: itself, or the first one of the streak it completes. */
  lemma SeenIsWitnessed(o: Limits, id: int, t: Trace, sigs: seq<Signal>, obs: Observation, complete: bool)
    requires Coherent(o, t.state) && Witnessed(sigs, t.state)
    ensures Witnessed(sigs + [Seen(obs, complete)], Advance(o, id, t, Seen(obs, complete)).state)
  {
    var sig := Seen(obs, complete);
    var more := sigs + [sig];
    WitnessesStay(sigs, sig, t.state);
    assert sig in more;
    if t.state.rail.None? {
      AdvanceUnknown(o, id, t, sig);
    } else if t.state.Stable() {
      ActiveIsWitnessed(o, id, t, more, obs, complete);
    } else {
      DirectIsWitnessed(o, id, t, more, obs, complete);
    }
  }

  /** An initial or inactive rail follows each observation at once. */
  lemma DirectIsWitnessed(o: Limits, id: int, t: Trace, sigs: seq<Signal>, obs: Observation, complete: bool)
    requires Coherent(o, t.state) && t.state.rail.Some? && !t.state.Stable()
    requires Witnessed(sigs, t.state) && Seen(obs, complete) in sigs
    ensures Witnessed(sigs, Advance(o, id, t, Seen(obs, complete)).state)
  {
    if t.state.Initial() {
      AdvanceInitial(o, id, t, obs, complete);
    } else {
      AdvanceInactive(o, id, t, obs, complete);
    }
  }

  lemma PairTellsSides(sig: Signal, pair: Status, at: Time)
    requires SawPair(sig, pair, at)
    ensures !pair.deposit ==> SawDepositOff(sig, at)
    ensures !pair.withdraw ==> SawWithdrawOff(sig, at)
  {
    assert sig.obs.Reported().deposit == sig.obs.depositEnabled;
    assert sig.obs.Reported().withdraw == sig.obs.withdrawEnabled;
  }

  lemma ActiveIsWitnessed(o: Limits, id: int, t: Trace, sigs: seq<Signal>, obs: Observation, complete: bool)
    requires Coherent(o, t.state) && t.state.Stable() && Witnessed(sigs, t.state) && Seen(obs, complete) in sigs
    ensures Witnessed(sigs, Advance(o, id, t, Seen(obs, complete)).state)
  {
    AdvanceActive(o, id, t, obs, complete);
    var p := Streaked(t.state.status, obs);
    assert SawPair(Seen(obs, complete), obs.Reported(), obs.observedAt);
    var first: Signal :| first in sigs && SawPair(first, p.target, p.firstObservedAt);
    PairTellsSides(first, p.target, p.firstObservedAt);
  }

  /** In every run, the time a side is said to be off since is the time of an observation that reported
      that side off. */
  lemma {:induction false} OffTimesWereObserved(o: Limits, id: int, sigs: seq<Signal>)
    ensures Witnessed(sigs, Run(o, id, sigs).state)
  {
    if sigs != [] {
      var front, last := sigs[..|sigs| - 1], sigs[|sigs| - 1];
      var t := Run(o, id, front);
      OffTimesWereObserved(o, id, front);
      ReachableIsCoherent(o, id, front);
      assert sigs == front + [last];
      WitnessesStay(front, last, t.state);
      if last.Seen? {
        SeenIsWitnessed(o, id, t, front, last.obs, last.complete);
      } else if t.state.rail.None? {
        AdvanceUnknown(o, id, t, last);
      } else if last.Missed? {
        AdvanceAbsent(o, id, t, last.at);
      } else {
        AdvanceQuiet(o, id, t);
      }
    }
  }

  // --- Off-started times, from one end of an off stretch to the other ---

  datatype Side = DepositSide | WithdrawSide
  {
    predicate On(r: Rail) {
      if DepositSide? then r.depositEnabled else r.withdrawEnabled
    }

    function OffStartedAt(r: Rail): Option<Time> {
      if DepositSide? then r.depositOffStartedAt else r.withdrawOffStartedAt
    }
  }

  /** A side that is off before and after a signal keeps the time it is off since. */
  lemma OffTimesStay(o: Limits, id: int, t: Trace, sig: Signal, side: Side)
    requires Coherent(o, t.state) && t.state.rail.Some?
    ensures var r, s' := t.state.rail.value, Advance(o, id, t, sig).state;
            s'.rail.Some? && (!side.On(r) && !side.On(s'.rail.value) ==>
                side.OffStartedAt(s'.rail.value) == side.OffStartedAt(r))
  {
    match sig
    case Seen(obs, complete) =>
      if t.state.Initial() {
        AdvanceInitial(o, id, t, obs, complete);
      } else if t.state.Active() {
        AdvanceActive(o, id, t, obs, complete);
      } else {
        AdvanceInactive(o, id, t, obs, complete);
      }
    case Missed(at) => AdvanceAbsent(o, id, t, at);
    case _ => AdvanceQuiet(o, id, t);
  }

  predicate IsOff(o: Limits, id: int, sigs: seq<Signal>, side: Side) {
    var s := Run(o, id, sigs).state;
    s.rail.Some? && !side.On(s.rail.value)
  }

  /** When a side that goes off at the last signal is off since: a settled rail dates it by the first of the
      N reports that confirm it, any other by the report itself. */
  function WentOffAt(o: Limits, id: int, sigs: seq<Signal>): (at: Option<Time>) {
    if sigs == [] || !sigs[|sigs| - 1].Seen? then None
    else if !Run(o, id, sigs[..|sigs| - 1]).state.Stable() then Some(sigs[|sigs| - 1].obs.observedAt)
    else
      var h, n := Relevant(sigs), o.confirmationsRequired;
      if n <= |h| && h[|h| - n].Seen? then Some(h[|h| - n].obs.observedAt) else None
  }

  lemma DirectGoesOff(o: Limits, id: int, t: Trace, sig: Signal, side: Side)
    requires Coherent(o, t.state) && !t.state.Stable() && (t.state.rail.Some? ==> side.On(t.state.rail.value))
    ensures var s' := Advance(o, id, t, sig).state;
            s'.rail.Some? && !side.On(s'.rail.value) ==>
              sig.Seen? && side.OffStartedAt(s'.rail.value) == Some(sig.obs.observedAt)
  {
    if t.state.rail.None? {
      AdvanceUnknown(o, id, t, sig);
    } else {
      match sig
      case Seen(obs, complete) =>
        if t.state.Initial() {
          AdvanceInitial(o, id, t, obs, complete);
        } else {
          AdvanceInactive(o, id, t, obs, complete);
        }
      case Missed(at) => AdvanceAbsent(o, id, t, at);
      case _ => AdvanceQuiet(o, id, t);
    }
  }

  lemma SettledGoesOff(o: Limits, id: int, sigs: seq<Signal>, sig: Signal, side: Side)
    requires Run(o, id, sigs).state.Stable() && side.On(Run(o, id, sigs).state.rail.value)
    ensures var s' := Run(o, id, sigs + [sig]).state;
            s'.rail.Some? && !side.On(s'.rail.value) ==>
              WentOffAt(o, id, sigs + [sig]).Some? && side.OffStartedAt(s'.rail.value) == WentOffAt(o, id, sigs + [sig])
  {
    DebounceIsExact(o, id, sigs, sig);
    RunSnoc(o, id, Trace(UNKNOWN, []), sigs, sig);
    assert (sigs + [sig])[..|sigs|] == sigs;
    if !sig.Seen? {
      OnlyObservationsCommit(o, id, Run(o, id, sigs), sig);
    }
  }

  lemma SideGoesOff(o: Limits, id: int, sigs: seq<Signal>, sig: Signal, side: Side)
    requires !IsOff(o, id, sigs, side) && IsOff(o, id, sigs + [sig], side)
    ensures WentOffAt(o, id, sigs + [sig]).Some?
    ensures side.OffStartedAt(Run(o, id, sigs + [sig]).state.rail.value) == WentOffAt(o, id, sigs + [sig])
  {
    assert (sigs + [sig])[..|sigs|] == sigs;
    if Run(o, id, sigs).state.Stable() {
      SettledGoesOff(o, id, sigs, sig, side);
    } else {
      ReachableIsCoherent(o, id, sigs);
      RunSnoc(o, id, Trace(UNKNOWN, []), sigs, sig);
      DirectGoesOff(o, id, Run(o, id, sigs), sig, side);
    }
  }

  /** The side went off at the `n`th signal and has been off ever since. */
  ghost predicate OffStretch(o: Limits, id: int, sigs: seq<Signal>, side: Side, n: nat) {
    && 0 < n <= |sigs| && !IsOff(o, id, sigs[..n - 1], side)
    && forall m :: n <= m <= |sigs| ==> IsOff(o, id, sigs[..m], side)
  }

  lemma {:induction false} OffStretchExists(o: Limits, id: int, sigs: seq<Signal>, side: Side) returns (n: nat)
    requires IsOff(o, id, sigs, side)
    ensures OffStretch(o, id, sigs, side, n)
  {
    var front := sigs[..|sigs| - 1];
    assert sigs[..|sigs|] == sigs;
    if IsOff(o, id, front, side) {
      n := OffStretchExists(o, id, front, side);
      assert sigs[..n - 1] == front[..n - 1];
      forall m | n <= m <= |sigs| ensures IsOff(o, id, sigs[..m], side) {
        if m < |sigs| {
          assert sigs[..m] == front[..m];
        }
      }
    } else {
      n := |sigs|;
    }
  }

  /** In every run, the time a side is off since is the one it got when its current off stretch began. */
  lemma {:induction false} OffTimesTellTheStretch(o: Limits, id: int, sigs: seq<Signal>, side: Side, n: nat)
    requires OffStretch(o, id, sigs, side, n)
    ensures WentOffAt(o, id, sigs[..n]).Some? && Run(o, id, sigs).state.rail.Some?
    ensures side.OffStartedAt(Run(o, id, sigs).state.rail.value) == WentOffAt(o, id, sigs[..n])
  {
    var front, last := sigs[..|sigs| - 1], sigs[|sigs| - 1];
    assert sigs[..|sigs|] == sigs == front + [last];
    if n == |sigs| {
      SideGoesOff(o, id, front, last, side);
    } else {
      forall m | 0 <= m <= |front| ensures front[..m] == sigs[..m] {}
      OffTimesTellTheStretch(o, id, front, side, n);
      ReachableIsCoherent(o, id, front);
      OffTimesStay(o, id, Run(o, id, front), last, side);
    }
  }
}
