/** What holds of a key in every reachable state, whatever the polls and restarts. */
module RailInvariant {
  import opened RailTypes
  import opened RailMachine

  predicate Coherent(o: Limits, s: KeyState) {
    match s.rail
    case None => s.baseline.None? && s.status.None?
    case Some(r) =>
      && (r.depositEnabled <==> r.depositOffStartedAt.None?)
      && (r.withdrawEnabled <==> r.withdrawOffStartedAt.None?)
      && r.missingCount >= 0
      && (r.isActive ==> r.missingSince.None? && r.missingCount < o.delistThreshold)
      && (s.status.Some? ==>
            && s.Stable() && r.missingCount == 0
            && s.status.value.target != r.Committed()
            && 1 <= s.status.value.count < o.confirmationsRequired)
      && (s.baseline.Some? ==>
            && r.isInitial && r.missingCount == 0
            && s.baseline.value.target == r.Committed()
            && 1 <= s.baseline.value.count
            && (s.baseline.value.count == 1 || s.baseline.value.count < o.confirmationsRequired))
  }

  lemma ActiveKeepsCoherent(o: Limits, id: int, t: Trace, obs: Observation, complete: bool)
    requires Coherent(o, t.state) && t.state.Stable()
    ensures Coherent(o, Advance(o, id, t, Seen(obs, complete)).state)
  {
    AdvanceActive(o, id, t, obs, complete);
  }

  lemma InitialKeepsCoherent(o: Limits, id: int, t: Trace, obs: Observation, complete: bool)
    requires Coherent(o, t.state) && t.state.Initial()
    ensures Coherent(o, Advance(o, id, t, Seen(obs, complete)).state)
  {
    AdvanceInitial(o, id, t, obs, complete);
  }

  lemma InactiveKeepsCoherent(o: Limits, id: int, t: Trace, obs: Observation, complete: bool)
    requires Coherent(o, t.state) && t.state.rail.Some? && !t.state.Active() && !t.state.Initial()
    ensures Coherent(o, Advance(o, id, t, Seen(obs, complete)).state)
  {
    AdvanceInactive(o, id, t, obs, complete);
  }

  /** Every signal keeps the invariant. */
  lemma AdvanceKeepsCoherent(o: Limits, id: int, t: Trace, sig: Signal)
    requires Coherent(o, t.state)
    ensures Coherent(o, Advance(o, id, t, sig).state)
  {
    if t.state.rail.None? {
      AdvanceUnknown(o, id, t, sig);
    } else {
      match sig
      case Seen(obs, complete) =>
        if t.state.Initial() {
          InitialKeepsCoherent(o, id, t, obs, complete);
        } else if t.state.Active() {
          ActiveKeepsCoherent(o, id, t, obs, complete);
        } else {
          InactiveKeepsCoherent(o, id, t, obs, complete);
        }
      case Missed(at) => AdvanceAbsent(o, id, t, at);
      case _ => AdvanceQuiet(o, id, t);
    }
  }

  lemma {:induction false} RunFromKeepsCoherent(o: Limits, id: int, t: Trace, sigs: seq<Signal>)
    requires Coherent(o, t.state)
    ensures Coherent(o, RunFrom(o, id, t, sigs).state)
  {
    if sigs != [] {
      RunFromKeepsCoherent(o, id, t, sigs[..|sigs| - 1]);
      AdvanceKeepsCoherent(o, id, RunFrom(o, id, t, sigs[..|sigs| - 1]), sigs[|sigs| - 1]);
    }
  }

  /** From an empty store every reachable state of a key is coherent. */
  lemma ReachableIsCoherent(o: Limits, id: int, sigs: seq<Signal>)
    ensures Coherent(o, Run(o, id, sigs).state)
  {
    RunFromKeepsCoherent(o, id, Trace(UNKNOWN, []), sigs);
  }

  /** The rail is still there with its ID and key, and initial only if it was. */
  predicate Keeps(before: KeyState, after: KeyState)
    requires before.rail.Some?
  {
    && after.rail.Some?
    && after.rail.value.id == before.rail.value.id
    && after.rail.value.key == before.rail.value.key
    && (after.Initial() ==> before.Initial())
  }

  lemma SignalKeepsRail(o: Limits, id: int, t: Trace, sig: Signal)
    requires t.state.rail.Some?
    ensures Keeps(t.state, Advance(o, id, t, sig).state)
  {
  }

  /** Once settled, a rail is never initial again; a rail never disappears and keeps its ID and key,
      whatever happens later. */
  lemma {:induction false} RailsPersist(o: Limits, id: int, t: Trace, sigs: seq<Signal>)
    requires t.state.rail.Some?
    ensures Keeps(t.state, RunFrom(o, id, t, sigs).state)
  {
    if sigs != [] {
      RailsPersist(o, id, t, sigs[..|sigs| - 1]);
      SignalKeepsRail(o, id, RunFrom(o, id, t, sigs[..|sigs| - 1]), sigs[|sigs| - 1]);
    }
  }

  /** A rail has the ID the table gives its key. */
  lemma {:induction false} RailsHaveTheirID(o: Limits, id: int, sigs: seq<Signal>)
    ensures Run(o, id, sigs).state.rail.Some? ==> Run(o, id, sigs).state.rail.value.id == id
  {
    if sigs != [] {
      var t := Run(o, id, sigs[..|sigs| - 1]);
      RailsHaveTheirID(o, id, sigs[..|sigs| - 1]);
      if t.state.rail.Some? {
        SignalKeepsRail(o, id, t, sigs[|sigs| - 1]);
      } else {
        AdvanceUnknown(o, id, t, sigs[|sigs| - 1]);
      }
    }
  }
}
