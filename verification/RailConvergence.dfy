/** How many complete polls with the same data it takes until a rail is settled on them: a number that the
    key's state tells exactly, at most N + 1. */
module RailConvergence {
  import opened RailTypes
  import opened RailMachine
  import opened RailInvariant
  import opened RailEvents

  /** Observations of one key that differ at most in their time. */
  predicate SameData(a: Observation, b: Observation) {
    a.(observedAt := ZERO_TIME) == b.(observedAt := ZERO_TIME)
  }

  /** The rail is active, past its baseline, shows what `obs` reports, and nothing is pending. */
  predicate Settled(s: KeyState, obs: Observation) {
    && s.Stable() && s.baseline.None? && s.status.None?
    && var r := s.rail.value;
    && r.Committed() == obs.Reported()
    && r.depositConfirmations == obs.depositConfirmations
    && r.withdrawMin == obs.withdrawMin && r.withdrawFee == obs.withdrawFee
    && r.withdrawFeeType == obs.withdrawFeeType && r.withdrawFeePercent == obs.withdrawFeePercent
    && r.contractAddress == obs.contractAddress
  }

  /** How many more complete polls with the data of `obs` the key needs. */
  function Remaining(o: Limits, s: KeyState, obs: Observation): nat {
    var n := o.confirmationsRequired;
    if s.rail.None? then (if n < 2 then 2 else n)
    else if s.rail.value.isInitial then
      (if s.baseline.Some? && s.baseline.value.target == obs.Reported()
       then (if s.baseline.value.count < n then n - s.baseline.value.count else 1) else n)
      + (if s.rail.value.isActive then 0 else 1)
    else if !s.rail.value.isActive then 1
    else if Settled(s, obs) then 0
    else if s.rail.value.Committed() == obs.Reported() then 1
    else if s.status.Some? && s.status.value.target == obs.Reported() && s.status.value.count < n then
      n - s.status.value.count
    else n
  }

  /** Complete polls that report the data of `like`, with polls that do not mention the key in between. */
  predicate Repeating(sigs: seq<Signal>, like: Observation) {
    forall sig <- sigs :: sig.Skipped? || (sig.Seen? && sig.complete && SameData(sig.obs, like))
  }

  function Less(n: nat, k: nat): nat {
    if k >= n then 0 else n - k
  }

  lemma ActiveComesCloser(o: Limits, id: int, t: Trace, obs: Observation, like: Observation)
    requires Coherent(o, t.state) && SameData(obs, like) && t.state.Stable()
    ensures var t' := Advance(o, id, t, Seen(obs, true));
            && Remaining(o, t'.state, like) == Less(Remaining(o, t.state, like), 1)
            && (Remaining(o, t.state, like) == 0 ==> t'.log == t.log)
  {
    ActiveFields(o, id, t, obs, true);
    if Settled(t.state, like) {
      AdvanceActiveLog(o, id, t, obs, true);
    }
  }

  lemma PollComesCloser(o: Limits, id: int, t: Trace, obs: Observation, like: Observation)
    requires Coherent(o, t.state) && SameData(obs, like)
    ensures var t' := Advance(o, id, t, Seen(obs, true));
            && Remaining(o, t'.state, like) == Less(Remaining(o, t.state, like), 1)
            && (Remaining(o, t.state, like) == 0 ==> t'.log == t.log)
  {
    if t.state.rail.None? {
      AdvanceUnknown(o, id, t, Seen(obs, true));
    } else if t.state.Initial() {
      AdvanceInitial(o, id, t, obs, true);
    } else if t.state.Active() {
      ActiveComesCloser(o, id, t, obs, like);
    } else {
      AdvanceInactive(o, id, t, obs, true);
    }
  }

  /** Each complete poll that repeats the data brings the key exactly one poll closer. */
  lemma {:induction false} PollsComeCloser(o: Limits, id: int, t: Trace, sigs: seq<Signal>, like: Observation)
    requires Coherent(o, t.state) && Repeating(sigs, like)
    ensures Remaining(o, RunFrom(o, id, t, sigs).state, like) == Less(Remaining(o, t.state, like), Observations(sigs))
    ensures Remaining(o, t.state, like) == 0 ==> RunFrom(o, id, t, sigs).log == t.log
  {
    if sigs != [] {
      var front, last := sigs[..|sigs| - 1], sigs[|sigs| - 1];
      assert last in sigs && forall sig <- front :: sig in sigs;
      PollsComeCloser(o, id, t, front, like);
      RunFromKeepsCoherent(o, id, t, front);
      AdvanceQuiet(o, id, RunFrom(o, id, t, front));
      if last.Seen? {
        PollComesCloser(o, id, RunFrom(o, id, t, front), last.obs, like);
      }
    }
  }

  lemma RemainingIsBounded(o: Limits, s: KeyState, obs: Observation)
    requires Coherent(o, s)
    ensures Remaining(o, s, obs) <= o.confirmationsRequired + 1
    ensures Remaining(o, s, obs) == 0 <==> Settled(s, obs)
  {
  }

  /** Complete polls with the same data settle a key exactly when there are as many as its state needs,
      whatever polls that do not mention it come between. */
  lemma SettlesExactly(o: Limits, id: int, t: Trace, sigs: seq<Signal>, like: Observation)
    requires Coherent(o, t.state) && Repeating(sigs, like)
    ensures Settled(RunFrom(o, id, t, sigs).state, like) <==> Observations(sigs) >= Remaining(o, t.state, like)
  {
    PollsComeCloser(o, id, t, sigs, like);
    RunFromKeepsCoherent(o, id, t, sigs);
    RemainingIsBounded(o, RunFrom(o, id, t, sigs).state, like);
  }

  /** Convergence: from any reachable state, N + 1 complete polls with the same data settle the key,
      and every further such poll keeps it settled and records nothing. */
  lemma Converges(o: Limits, id: int, past: seq<Signal>, sigs: seq<Signal>, more: seq<Signal>, like: Observation)
    requires Repeating(sigs, like) && Repeating(more, like) && Observations(sigs) > o.confirmationsRequired
    ensures var t := RunFrom(o, id, Run(o, id, past), sigs);
            && Settled(t.state, like)
            && Settled(RunFrom(o, id, t, more).state, like)
            && RunFrom(o, id, t, more).log == t.log
  {
    var start := Run(o, id, past);
    var t := RunFrom(o, id, start, sigs);
    ReachableIsCoherent(o, id, past);
    RemainingIsBounded(o, start.state, like);
    SettlesExactly(o, id, start, sigs, like);
    RunFromKeepsCoherent(o, id, start, sigs);
    RemainingIsBounded(o, t.state, like);
    SettlesExactly(o, id, t, more, like);
    PollsComeCloser(o, id, t, more, like);
  }

  /** A rail inserted once and then missing from T complete polls: delisted while still initial. */
  function LostEarly(o: Limits, obs: Observation, at: Time, n: nat): seq<Signal> {
    [Seen(obs, true)] + seq(n, _ => Missed(at))
  }

  lemma {:induction false} LostEarlyIsInitial(o: Limits, id: int, obs: Observation, at: Time, n: nat)
    requires n <= o.delistThreshold
    ensures var s := Run(o, id, LostEarly(o, obs, at, n)).state;
            && s.Initial() && s.rail.value.missingCount == n && (s.Active() <==> n < o.delistThreshold)
            && (n > 0 ==> s.baseline.None?)
  {
    var sigs := LostEarly(o, obs, at, n);
    if n == 0 {
      assert sigs == [] + [Seen(obs, true)];
      AdvanceUnknown(o, id, Trace(UNKNOWN, []), Seen(obs, true));
      RunSnoc(o, id, Trace(UNKNOWN, []), [], Seen(obs, true));
    } else {
      assert sigs[..|sigs| - 1] == LostEarly(o, obs, at, n - 1);
      LostEarlyIsInitial(o, id, obs, at, n - 1);
      AdvanceAbsent(o, id, Run(o, id, LostEarly(o, obs, at, n - 1)), at);
    }
  }

  /** N + 1 are sometimes needed: a rail delisted while initial is not settled by any fewer. */
  lemma BoundIsTight(o: Limits, id: int, obs: Observation, at: Time, sigs: seq<Signal>)
    requires Repeating(sigs, obs)
    ensures var t := Run(o, id, LostEarly(o, obs, at, o.delistThreshold));
            && Remaining(o, t.state, obs) == o.confirmationsRequired + 1
            && (Settled(RunFrom(o, id, t, sigs).state, obs) <==> Observations(sigs) > o.confirmationsRequired)
  {
    var lost := LostEarly(o, obs, at, o.delistThreshold);
    LostEarlyIsInitial(o, id, obs, at, o.delistThreshold);
    ReachableIsCoherent(o, id, lost);
    SettlesExactly(o, id, Run(o, id, lost), sigs, obs);
  }
}
