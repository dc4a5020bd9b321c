/** Debouncing, baselines and delisting stated over the history of signals instead of counters. */
module RailHistory {
  import opened RailTypes
  import opened RailMachine
  import opened RailInvariant

  /** The history that matters to confirmations: a poll that does not mention the key is ignored. */
  function Relevant(sigs: seq<Signal>): seq<Signal> {
    if sigs == [] then []
    else
      var last := sigs[|sigs| - 1];
      Relevant(sigs[..|sigs| - 1]) + (if last.Skipped? then [] else [last])
  }

  /** The history that survives restarts: what exchanges said about the key. */
  function Heard(sigs: seq<Signal>): seq<Signal> {
    if sigs == [] then []
    else
      var last := sigs[|sigs| - 1];
      Heard(sigs[..|sigs| - 1]) + (if last.Skipped? || last.Restarted? then [] else [last])
  }

  predicate SeenAs(sig: Signal, p: Status) {
    sig.Seen? && sig.obs.Reported() == p
  }

  /** The last `n` entries of a history are observations of the one pair `p`. */
  predicate Window(h: seq<Signal>, n: nat, p: Status) {
    n <= |h| && forall i :: |h| - n <= i < |h| ==> SeenAs(h[i], p)
  }

  /** The last `n` entries of a history are absences from complete polls. */
  predicate AllMissed(h: seq<Signal>, n: nat) {
    n <= |h| && forall i :: |h| - n <= i < |h| ==> h[i].Missed?
  }

  /** Length of the longest tail of observations that report one same pair. */
  function Streak(h: seq<Signal>): (n: nat)
    ensures n <= |h|
    ensures n > 0 <==> h != [] && h[|h| - 1].Seen?
    ensures n > 0 ==> Window(h, n, h[|h| - 1].obs.Reported())
    ensures 0 < n < |h| ==> !SeenAs(h[|h| - n - 1], h[|h| - 1].obs.Reported())
  {
    if h == [] || !h[|h| - 1].Seen? then 0
    else
      var front := h[..|h| - 1];
      if front != [] && SeenAs(front[|front| - 1], h[|h| - 1].obs.Reported()) then Streak(front) + 1 else 1
  }

  /** Length of the longest tail of absences. */
  function MissRun(h: seq<Signal>): (n: nat)
    ensures n <= |h|
    ensures AllMissed(h, n)
    ensures n < |h| ==> !h[|h| - n - 1].Missed?
  {
    if h == [] || !h[|h| - 1].Missed? then 0 else MissRun(h[..|h| - 1]) + 1
  }

  lemma HistorySnoc(sigs: seq<Signal>, sig: Signal)
    ensures Relevant(sigs + [sig]) == Relevant(sigs) + (if sig.Skipped? then [] else [sig])
    ensures Heard(sigs + [sig]) == Heard(sigs) + (if sig.Skipped? || sig.Restarted? then [] else [sig])
  {
    assert (sigs + [sig])[..|sigs|] == sigs;
  }

  /** A window of `n` equal observations is a streak at least that long. */
  lemma {:induction false} WindowIsStreak(h: seq<Signal>, n: nat, p: Status)
    requires n >= 1
    ensures Window(h, n, p) <==> (Streak(h) >= n && SeenAs(h[|h| - 1], p))
  {
    if |h| > 1 && n > 1 {
      var front := h[..|h| - 1];
      WindowIsStreak(front, n - 1, p);
      assert Window(h, n, p) <==> (Window(front, n - 1, p) && SeenAs(h[|h| - 1], p)) by {
        if Window(h, n, p) {
          assert forall i :: |front| - (n - 1) <= i < |front| ==> front[i] == h[i];
        }
      }
    }
  }

  lemma {:induction false} AllMissedIsRun(h: seq<Signal>, n: nat)
    ensures AllMissed(h, n) <==> MissRun(h) >= n
  {
    if h != [] && n > 0 {
      var front := h[..|h| - 1];
      AllMissedIsRun(front, n - 1);
      assert AllMissed(h, n) <==> (AllMissed(front, n - 1) && h[|h| - 1].Missed?) by {
        if AllMissed(h, n) {
          assert forall i :: |front| - (n - 1) <= i < |front| ==> front[i] == h[i];
        }
      }
    }
  }

  lemma StreakSnoc(h: seq<Signal>, sig: Signal)
    ensures Streak(h + [sig]) == if !sig.Seen? then 0
                                 else if h != [] && SeenAs(h[|h| - 1], sig.obs.Reported()) then Streak(h) + 1 else 1
    ensures MissRun(h + [sig]) == if sig.Missed? then MissRun(h) + 1 else 0
  {
    assert (h + [sig])[..|h|] == h;
  }

  /** The engine's two counters, read off the history. */
  ghost predicate CountersTell(h: seq<Signal>, s: KeyState) {
    var n := Streak(h);
    match s.rail
    case None => forall i :: 0 <= i < |h| ==> !h[i].Seen?
    case Some(r) =>
      && (r.isInitial ==>
            && (n > 0 ==> h[|h| - 1].obs.Reported() == r.Committed())
            && s.baseline == if n > 0 then Some(PendingBaseline(r.Committed(), n)) else None)
      && (s.Stable() ==>
            s.status == if n > 0 && h[|h| - 1].obs.Reported() != r.Committed()
                        then Some(PendingStatus(h[|h| - 1].obs.Reported(), n, h[|h| - n].obs.observedAt)) else None)
  }

  lemma ActiveKeepsCounters(o: Limits, id: int, t: Trace, h: seq<Signal>, obs: Observation, complete: bool)
    requires Coherent(o, t.state) && CountersTell(h, t.state) && t.state.Stable()
    ensures CountersTell(h + [Seen(obs, complete)], Advance(o, id, t, Seen(obs, complete)).state)
  {
    var h' := h + [Seen(obs, complete)];
    StreakSnoc(h, Seen(obs, complete));
    if Streak(h') > 1 {
      assert h'[|h'| - Streak(h')] == h[|h| - Streak(h)];
    }
    ActiveFields(o, id, t, obs, complete);
  }

  lemma InitialKeepsCounters(o: Limits, id: int, t: Trace, h: seq<Signal>, obs: Observation, complete: bool)
    requires Coherent(o, t.state) && CountersTell(h, t.state) && t.state.Initial()
    ensures CountersTell(h + [Seen(obs, complete)], Advance(o, id, t, Seen(obs, complete)).state)
  {
    StreakSnoc(h, Seen(obs, complete));
    AdvanceInitial(o, id, t, obs, complete);
  }

  lemma SeenKeepsCounters(o: Limits, id: int, t: Trace, h: seq<Signal>, obs: Observation, complete: bool)
    requires Coherent(o, t.state) && CountersTell(h, t.state)
    ensures CountersTell(h + [Seen(obs, complete)], Advance(o, id, t, Seen(obs, complete)).state)
  {
    StreakSnoc(h, Seen(obs, complete));
    if t.state.rail.None? {
      AdvanceUnknown(o, id, t, Seen(obs, complete));
    } else if t.state.Initial() {
      InitialKeepsCounters(o, id, t, h, obs, complete);
    } else if t.state.Active() {
      ActiveKeepsCounters(o, id, t, h, obs, complete);
    } else {
      AdvanceInactive(o, id, t, obs, complete);
    }
  }

  lemma AdvanceKeepsCounters(o: Limits, id: int, t: Trace, h: seq<Signal>, sig: Signal)
    requires Coherent(o, t.state) && CountersTell(h, t.state)
    ensures CountersTell(h + if sig.Skipped? then [] else [sig], Advance(o, id, t, sig).state)
  {
    StreakSnoc(h, sig);
    match sig
    case Seen(obs, complete) => SeenKeepsCounters(o, id, t, h, obs, complete);
    case Missed(at) =>
      if t.state.rail.None? {
        AdvanceUnknown(o, id, t, sig);
      } else {
        AdvanceAbsent(o, id, t, at);
      }
    case Skipped =>
      AdvanceQuiet(o, id, t);
      assert h + [] == h;
    case Restarted => AdvanceQuiet(o, id, t);
  }

  lemma {:induction false} RunKeepsCounters(o: Limits, id: int, sigs: seq<Signal>)
    ensures CountersTell(Relevant(sigs), Run(o, id, sigs).state)
  {
    if sigs != [] {
      var front := sigs[..|sigs| - 1];
      RunKeepsCounters(o, id, front);
      ReachableIsCoherent(o, id, front);
      AdvanceKeepsCounters(o, id, Run(o, id, front), Relevant(front), sigs[|sigs| - 1]);
    }
  }

  /** The pending entry after one more observation of a settled rail tells the streak it ends: how long it
      is, when it began, and that it is never longer than needed. */
  lemma StreakGrows(o: Limits, h: seq<Signal>, s: KeyState, obs: Observation, complete: bool)
    requires Coherent(o, s) && CountersTell(h, s) && s.Stable() && obs.Reported() != s.rail.value.Committed()
    ensures var h' := h + [Seen(obs, complete)];
            var p := Streaked(s.status, obs);
            && p.target == obs.Reported() && p.count == Streak(h') <= o.confirmationsRequired
            && p.firstObservedAt == h'[|h'| - p.count].obs.observedAt
  {
    var h' := h + [Seen(obs, complete)];
    StreakSnoc(h, Seen(obs, complete));
    if Streak(h') > 1 {
      assert h'[|h'| - Streak(h')] == h[|h| - Streak(h)];
    }
  }

  /** One observation of a settled rail whose pending entry tells the streak so far. */
  lemma StreakCommits(o: Limits, id: int, t: Trace, h: seq<Signal>, obs: Observation, complete: bool)
    requires Coherent(o, t.state) && CountersTell(h, t.state) && t.state.Stable()
    ensures var h' := h + [Seen(obs, complete)];
            var n := o.confirmationsRequired;
            var before := t.state.rail.value;
            var s' := Advance(o, id, t, Seen(obs, complete)).state;
            && s'.rail.Some?
            && (if obs.Reported() != before.Committed() && Streak(h') >= n
                then Streak(h') == n && s'.rail.value.Committed() == obs.Reported()
                else s'.rail.value.Committed() == before.Committed())
            && (s'.rail.value.Committed() != before.Committed() ==>
                && (before.depositEnabled && !obs.depositEnabled ==>
                      s'.rail.value.depositOffStartedAt == Some(h'[|h'| - n].obs.observedAt))
                && (before.withdrawEnabled && !obs.withdrawEnabled ==>
                      s'.rail.value.withdrawOffStartedAt == Some(h'[|h'| - n].obs.observedAt)))
  {
    ActiveFields(o, id, t, obs, complete);
    if obs.Reported() != t.state.rail.value.Committed() {
      StreakGrows(o, h, t.state, obs, complete);
    }
  }

  /** Anything but an observation leaves the committed pair of a rail alone. */
  lemma OnlyObservationsCommit(o: Limits, id: int, t: Trace, sig: Signal)
    requires t.state.rail.Some? && !sig.Seen?
    ensures var s' := Advance(o, id, t, sig).state;
            s'.rail.Some? && s'.rail.value.Committed() == t.state.rail.value.Committed()
  {
  }

  /** Nothing is pending long enough to commit before the next observation. */
  lemma NoFullWindowYet(o: Limits, h: seq<Signal>, s: KeyState, p: Status)
    requires Coherent(o, s) && CountersTell(h, s) && s.Stable() && p != s.rail.value.Committed()
    ensures !Window(h, o.confirmationsRequired, p)
  {
    WindowIsStreak(h, o.confirmationsRequired, p);
  }

  /** How the rail `after` one more signal relates to the committed rail `before` it and to the
      history `h` up to and including the signal, of which the last `n` entries decide. */
  ghost predicate Debounced(n: nat, before: Rail, after: Rail, h: seq<Signal>)
    requires n >= 1
  {
    && (after.Committed() != before.Committed() <==>
        exists p :: p != before.Committed() && Window(h, n, p))
    && (after.Committed() != before.Committed() ==>
        && Window(h, n, after.Committed())
        && (before.depositEnabled && !after.depositEnabled ==>
             after.depositOffStartedAt == Some(h[|h| - n].obs.observedAt))
        && (before.withdrawEnabled && !after.withdrawEnabled ==>
             after.withdrawOffStartedAt == Some(h[|h| - n].obs.observedAt)))
  }

  lemma StreakDebounces(n: nat, before: Rail, after: Rail, h: seq<Signal>, p: Status)
    requires n >= 1 && h != [] && SeenAs(h[|h| - 1], p)
    requires if p != before.Committed() && Streak(h) >= n then Streak(h) == n && after.Committed() == p
             else after.Committed() == before.Committed()
    requires after.Committed() != before.Committed() ==>
               && (before.depositEnabled && !p.deposit ==> after.depositOffStartedAt == Some(h[|h| - n].obs.observedAt))
               && (before.withdrawEnabled && !p.withdraw ==>
                    after.withdrawOffStartedAt == Some(h[|h| - n].obs.observedAt))
    ensures Debounced(n, before, after, h)
  {
    forall q: Status ensures Window(h, n, q) <==> (Streak(h) >= n && p == q) {
      WindowIsStreak(h, n, q);
    }
  }

  lemma SeenDebounces(o: Limits, id: int, t: Trace, h: seq<Signal>, sig: Signal, h': seq<Signal>)
    requires Coherent(o, t.state) && CountersTell(h, t.state) && t.state.Stable() && sig.Seen? && h' == h + [sig]
    ensures Advance(o, id, t, sig).state.rail.Some?
    ensures Debounced(o.confirmationsRequired, t.state.rail.value, Advance(o, id, t, sig).state.rail.value, h')
  {
    StreakCommits(o, id, t, h, sig.obs, sig.complete);
    StreakDebounces(o.confirmationsRequired, t.state.rail.value, Advance(o, id, t, sig).state.rail.value, h',
                    sig.obs.Reported());
  }

  /** Without an observation nothing is committed, and no window is full that was not committed before. */
  lemma QuietDebounces(o: Limits, id: int, t: Trace, h: seq<Signal>, sig: Signal, h': seq<Signal>)
    requires Coherent(o, t.state) && CountersTell(h, t.state) && t.state.Stable() && !sig.Seen?
    requires h' == h + if sig.Skipped? then [] else [sig]
    ensures Advance(o, id, t, sig).state.rail.Some?
    ensures Debounced(o.confirmationsRequired, t.state.rail.value, Advance(o, id, t, sig).state.rail.value, h')
  {
    OnlyObservationsCommit(o, id, t, sig);
    forall p | p != t.state.rail.value.Committed() ensures !Window(h', o.confirmationsRequired, p) {
      if sig.Skipped? {
        assert h' == h;
        NoFullWindowYet(o, h, t.state, p);
      } else {
        assert !SeenAs(h'[|h'| - 1], p);
      }
    }
  }

  lemma AdvanceDebounces(o: Limits, id: int, t: Trace, h: seq<Signal>, sig: Signal, h': seq<Signal>)
    requires Coherent(o, t.state) && CountersTell(h, t.state) && t.state.Stable()
    requires h' == h + if sig.Skipped? then [] else [sig]
    ensures Advance(o, id, t, sig).state.rail.Some?
    ensures Debounced(o.confirmationsRequired, t.state.rail.value, Advance(o, id, t, sig).state.rail.value, h')
  {
    if sig.Seen? {
      SeenDebounces(o, id, t, h, sig, h');
    } else {
      QuietDebounces(o, id, t, h, sig, h');
    }
  }

  /** Debouncing is exact. The committed pair of an active, settled rail changes at a signal exactly
      when the last N relevant signals are observations of one same other pair, which then becomes
      the committed one; absences from complete polls and restarts break the window, polls that skip
      the key do not. A side that goes off is dated by the first observation of the window. */
  lemma DebounceIsExact(o: Limits, id: int, sigs: seq<Signal>, sig: Signal)
    requires Run(o, id, sigs).state.Stable()
    ensures Run(o, id, sigs + [sig]).state.rail.Some?
    ensures Debounced(o.confirmationsRequired, Run(o, id, sigs).state.rail.value,
                      Run(o, id, sigs + [sig]).state.rail.value, Relevant(sigs + [sig]))
  {
    RunSnoc(o, id, Trace(UNKNOWN, []), sigs, sig);
    ReachableIsCoherent(o, id, sigs);
    RunKeepsCounters(o, id, sigs);
    HistorySnoc(sigs, sig);
    AdvanceDebounces(o, id, Run(o, id, sigs), Relevant(sigs), sig, Relevant(sigs + [sig]));
  }

  /** Restarts only delay a commit: dropping them from the history keeps every full window, so a
      status change still needs N observations in a row of the new pair. */
  lemma DebounceHoldsAcrossRestarts(o: Limits, id: int, sigs: seq<Signal>, sig: Signal)
    requires Run(o, id, sigs).state.Stable()
    ensures Run(o, id, sigs + [sig]).state.rail.Some?
    ensures var before, after := Run(o, id, sigs).state.rail.value, Run(o, id, sigs + [sig]).state.rail.value;
            after.Committed() != before.Committed() ==>
              Window(Heard(sigs + [sig]), o.confirmationsRequired, after.Committed())
  {
    DebounceIsExact(o, id, sigs, sig);
    var after := Run(o, id, sigs + [sig]).state.rail.value.Committed();
    if Window(Relevant(sigs + [sig]), o.confirmationsRequired, after) {
      WindowIsHeard(sigs + [sig], o.confirmationsRequired, after);
    }
  }

  lemma {:induction false} WindowIsHeard(sigs: seq<Signal>, n: nat, p: Status)
    requires Window(Relevant(sigs), n, p)
    ensures Window(Heard(sigs), n, p)
  {
    if sigs != [] && n > 0 {
      var front, last := sigs[..|sigs| - 1], sigs[|sigs| - 1];
      if last.Skipped? {
        assert Relevant(sigs) == Relevant(front) && Heard(sigs) == Heard(front);
        WindowIsHeard(front, n, p);
      } else {
        var h := Relevant(sigs);
        assert SeenAs(h[|h| - 1], p);
        assert forall i :: 0 <= i < |h| - 1 ==> Relevant(front)[i] == h[i];
        WindowIsHeard(front, n - 1, p);
      }
    }
  }

  /** A baseline commits exactly at an observation that completes N equal ones in a row; the insertion
      counts as one but never commits by itself. No event is ever recorded before that. */
  lemma BaselineIsExactAndSilent(o: Limits, id: int, sigs: seq<Signal>, sig: Signal)
    requires Run(o, id, sigs).state.Initial()
    ensures var after := Run(o, id, sigs + [sig]);
            && after.state.rail.Some?
            && after.log == Run(o, id, sigs).log
            && (!after.state.Initial() <==>
                sig.Seen? && Window(Relevant(sigs + [sig]), o.confirmationsRequired, sig.obs.Reported()))
  {
    var h' := Relevant(sigs + [sig]);
    RunSnoc(o, id, Trace(UNKNOWN, []), sigs, sig);
    ReachableIsCoherent(o, id, sigs);
    RunKeepsCounters(o, id, sigs);
    HistorySnoc(sigs, sig);
    StreakSnoc(Relevant(sigs), sig);
    if sig.Seen? {
      assert h'[|h'| - 1] == sig;
      WindowIsStreak(h', o.confirmationsRequired, sig.obs.Reported());
    }
  }

  /** A rail that is unknown or still initial has no event in the log. */
  lemma {:induction false} InitialRailsAreSilent(o: Limits, id: int, sigs: seq<Signal>)
    ensures var t := Run(o, id, sigs);
            t.state.rail.None? || t.state.Initial() ==> t.log == []
  {
    if sigs != [] {
      InitialRailsAreSilent(o, id, sigs[..|sigs| - 1]);
    }
  }

  lemma AdvanceKeepsMissingCount(o: Limits, id: int, t: Trace, sig: Signal, n: nat)
    requires Coherent(o, t.state) && (t.state.Active() ==> t.state.rail.value.missingCount == n)
    ensures var s' := Advance(o, id, t, sig).state;
            s'.Active() ==> s'.rail.value.missingCount == if sig.Missed? then n + 1 else if sig.Seen? then 0 else n
  {
    if t.state.rail.None? {
      AdvanceUnknown(o, id, t, sig);
    } else {
      match sig
      case Seen(obs, complete) =>
        if t.state.Initial() {
          SeenInitialIsCounted(o, id, t, obs, complete);
        } else if t.state.Active() {
          AdvanceActive(o, id, t, obs, complete);
        } else {
          AdvanceInactive(o, id, t, obs, complete);
        }
      case Missed(at) => AdvanceAbsent(o, id, t, at);
      case _ => AdvanceQuiet(o, id, t);
    }
  }

  lemma SeenInitialIsCounted(o: Limits, id: int, t: Trace, obs: Observation, complete: bool)
    requires t.state.Initial()
    ensures var s' := Advance(o, id, t, Seen(obs, complete)).state;
            s'.rail.Some? && s'.rail.value.missingCount == 0
  {
    AdvanceInitial(o, id, t, obs, complete);
  }

  lemma {:induction false} MissingCountTells(o: Limits, id: int, sigs: seq<Signal>)
    ensures var s := Run(o, id, sigs).state;
            s.Active() ==> s.rail.value.missingCount == MissRun(Heard(sigs))
  {
    if sigs != [] {
      var front, last := sigs[..|sigs| - 1], sigs[|sigs| - 1];
      MissingCountTells(o, id, front);
      ReachableIsCoherent(o, id, front);
      AdvanceKeepsMissingCount(o, id, Run(o, id, front), last, MissRun(Heard(front)));
      StreakSnoc(Heard(front), last);
      assert Heard(front) + [] == Heard(front);
    }
  }

  /** Delisting is exact. An active rail becomes inactive at a signal exactly when the last T things
      heard about it are all absences from complete polls, and then at an absence, which dates it.
      The count is stored with the rail, so restarts change nothing. */
  lemma DelistingIsExact(o: Limits, id: int, sigs: seq<Signal>, sig: Signal)
    requires Run(o, id, sigs).state.Active()
    ensures var after := Run(o, id, sigs + [sig]).state;
            && after.rail.Some?
            && (!after.Active() <==> AllMissed(Heard(sigs + [sig]), o.delistThreshold))
            && (!after.Active() ==> sig.Missed? && after.rail.value.missingSince == Some(sig.at))
  {
    var t := Run(o, id, sigs);
    RunSnoc(o, id, Trace(UNKNOWN, []), sigs, sig);
    ReachableIsCoherent(o, id, sigs);
    MissingCountTells(o, id, sigs);
    HistorySnoc(sigs, sig);
    StreakSnoc(Heard(sigs), sig);
    assert Heard(sigs) + [] == Heard(sigs);
    AllMissedIsRun(Heard(sigs + [sig]), o.delistThreshold);
    match sig
    case Missed(at) => AdvanceAbsent(o, id, t, at);
    case Seen(obs, complete) => SeenStaysActive(o, id, t, obs, complete);
    case _ => AdvanceQuiet(o, id, t);
  }

  lemma SeenStaysActive(o: Limits, id: int, t: Trace, obs: Observation, complete: bool)
    requires t.state.Active()
    ensures Advance(o, id, t, Seen(obs, complete)).state.Active()
  {
    if t.state.Initial() {
      AdvanceInitial(o, id, t, obs, complete);
    } else {
      AdvanceActive(o, id, t, obs, complete);
    }
  }
}
