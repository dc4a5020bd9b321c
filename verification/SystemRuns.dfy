/** The promises of single keys, kept in every interleaving of the cycles of all exchanges and of restarts,
    and what happens to a rail when an exchange reports a rail that is not its own. */
module SystemRuns {
  import opened RailTypes
  import opened RailMachine
  import opened RailInvariant
  import opened RailHistory
  import opened RailEvents
  import opened RailData
  import opened RailConvergence
  import opened PollDiff
  import opened PollSafety
  import opened RailTable
  import opened Ingestion
  import opened Interleaving

  /** The stored rail of a key, as a state with nothing pending. */
  ghost function StoredAt(o: Limits, ids: IDs, ms: seq<Move>, k: Key): KeyState {
    KeyState(Lookup(RunMoves(o, ids, ms).world.rails, k), None, None)
  }

  ghost function LogAt(o: Limits, ids: IDs, ms: seq<Move>, k: Key): seq<Event> {
    EventsFor(RunMoves(o, ids, ms).world.log, k)
  }

  /** What the committed cycles of its exchange said about a key. */
  function Past(ms: seq<Move>, k: Key): seq<Signal> {
    HistoryOf(Committed(ms, k.exchangeID), k)
  }

  /** What the engine has been told about a key, be it written or not. */
  function ToldSoFar(ms: seq<Move>, k: Key): seq<Signal> {
    HistoryOf(DecidedSoFar(ms, k.exchangeID), k)
  }

  lemma StoredIsRun(o: Limits, ids: IDs, ms: seq<Move>, k: Key)
    requires forall m <- ms :: Respects(m, k.exchangeID)
    ensures var t := Run(o, ids(k), Past(ms, k));
            StoredAt(o, ids, ms, k) == KeyState(t.state.rail, None, None) && LogAt(o, ids, ms, k) == t.log
  {
    EveryKeyRunsAlone(o, ids, ms, k);
  }

  /** In every interleaving, every stored rail is coherent, and so is the key's whole state once the diff in
      flight is written; its events alternate, flapping is bounded, and the log rebuilds every active,
      settled rail. */
  lemma EveryRunKeepsItsPromises(o: Limits, ids: IDs, ms: seq<Move>, k: Key)
    requires forall m <- ms :: Respects(m, k.exchangeID)
    ensures var s, log, past := StoredAt(o, ids, ms, k), LogAt(o, ids, ms, k), Past(ms, k);
            && Coherent(o, s)
            && Coherent(o, Share(Landed(o, ids, RunMoves(o, ids, ms), k.exchangeID), k).state)
            && EventsTell(Timeline(log), s)
            && o.confirmationsRequired * |Only(Timeline(log), Deposits)| <= Observations(past)
            && o.confirmationsRequired * |Only(Timeline(log), Withdraws)| <= Observations(past)
            && o.delistThreshold * |Only(Timeline(log), Delisting)| <= Absences(past)
            && (s.Stable() ==>
                  && AtBaseline(o, ids(k), past).Some?
                  && ViewOf(Replay(AtBaseline(o, ids(k), past).value, log)) == ViewOfRail(s.rail.value))
  {
    var id, past := ids(k), Past(ms, k);
    EveryKeyRunsAlone(o, ids, ms, k);
    StoredIsRun(o, ids, ms, k);
    ReachableIsCoherent(o, id, past);
    ReachableIsCoherent(o, id, ToldSoFar(ms, k));
    EventsAlternate(o, id, past);
    FlappingIsBounded(o, id, past);
    LogIsFaithful(o, id, past);
    Monotone(o.confirmationsRequired, |Only(Timeline(Run(o, id, past).log), Deposits)|, CommitCount(o, id, past));
    Monotone(o.confirmationsRequired, |Only(Timeline(Run(o, id, past).log), Withdraws)|, CommitCount(o, id, past));
  }

  /** In every interleaving, a stored rail carries the data of the last observation of its key, and the times
      its sides are off since are the times of observations of its key that reported them off. */
  lemma EveryRunStoresTheLatest(o: Limits, ids: IDs, ms: seq<Move>, k: Key)
    requires forall m <- ms :: Respects(m, k.exchangeID)
    ensures var s, past := StoredAt(o, ids, ms, k), Past(ms, k);
            && Witnessed(past, s)
            && match LastSeen(past)
               case None => s.rail.None?
               case Some(obs) => s.rail.Some? && Carries(s.rail.value, obs)
  {
    StoredIsRun(o, ids, ms, k);
    LatestObservationIsStored(o, ids(k), Past(ms, k));
    OffTimesWereObserved(o, ids(k), Past(ms, k));
  }

  /** In every interleaving, a stored side that is off went off at some committed signal, has been off ever
      since, and is dated by what made it go off: the first of the reports that confirmed it if the rail was
      settled, else the report itself. */
  lemma EveryRunDatesOffSides(o: Limits, ids: IDs, ms: seq<Move>, k: Key, side: Side)
    requires forall m <- ms :: Respects(m, k.exchangeID)
    ensures var s, past := StoredAt(o, ids, ms, k), Past(ms, k);
            s.rail.Some? && !side.On(s.rail.value) ==>
              exists n: nat :: OffStretch(o, ids(k), past, side, n)
                && WentOffAt(o, ids(k), past[..n]).Some?
                && side.OffStartedAt(s.rail.value) == WentOffAt(o, ids(k), past[..n])
  {
    var s, past := StoredAt(o, ids, ms, k), Past(ms, k);
    StoredIsRun(o, ids, ms, k);
    if s.rail.Some? && !side.On(s.rail.value) {
      var n := OffStretchExists(o, ids(k), past, side);
      OffTimesTellTheStretch(o, ids(k), past, side, n);
    }
  }

  // --- One more move ---

  /** One more move tells a key one more thing, or nothing, which is as good as a poll that skips it. */
  lemma NextSignal(o: Limits, ids: IDs, ms: seq<Move>, m: Move, k: Key) returns (sig: Signal)
    requires Respects(m, k.exchangeID) && forall x <- ms :: Respects(x, k.exchangeID)
    ensures forall x <- ms + [m] :: Respects(x, k.exchangeID)
    ensures var past, next := Past(ms, k), Past(ms + [m], k);
            && (next == past + [sig] || (next == past && sig == Skipped))
            && Relevant(next) == Relevant(past + [sig]) && Heard(next) == Heard(past + [sig])
            && Run(o, ids(k), next) == Run(o, ids(k), past + [sig])
  {
    sig := PastGrows(ms, m, k);
    SkippedIsNothing(o, ids(k), Past(ms, k));
    forall x | x in ms + [m] ensures Respects(x, k.exchangeID) {
      assert x in ms || x == m;
    }
  }

  lemma PastGrows(ms: seq<Move>, m: Move, k: Key) returns (sig: Signal)
    ensures var past, next := Past(ms, k), Past(ms + [m], k);
            next == past + [sig] || (next == past && sig == Skipped)
  {
    var l := LaneOf(ms, k.exchangeID);
    assert (ms + [m])[..|ms|] == ms;
    if m.Reboot? {
      sig := Restarted;
      HistoryOfSnoc(l.committed, Restart, k);
    } else if m == Write(k.exchangeID) && l.stage.Decided? {
      sig := SignalFor(Cycle(k.exchangeID, l.stage.poll), k);
      HistoryOfSnoc(l.committed, Cycle(k.exchangeID, l.stage.poll), k);
    } else {
      sig := Skipped;
    }
  }

  lemma SkippedIsNothing(o: Limits, id: int, past: seq<Signal>)
    ensures Relevant(past + [Skipped]) == Relevant(past) && Heard(past + [Skipped]) == Heard(past)
    ensures Run(o, id, past + [Skipped]) == Run(o, id, past)
  {
    HistorySnoc(past, Skipped);
    RunSnoc(o, id, Trace(UNKNOWN, []), past, Skipped);
    AdvanceQuiet(o, id, Run(o, id, past));
  }

  /** In every interleaving, one more move of any exchange changes a settled rail's committed pair exactly
      when the last N relevant signals its exchange has committed agree on another pair, and takes it off the
      list exactly when the last T things heard about it are absences from complete polls. */
  lemma EveryRunDebounces(o: Limits, ids: IDs, ms: seq<Move>, m: Move, k: Key)
    requires Respects(m, k.exchangeID) && forall x <- ms :: Respects(x, k.exchangeID)
    requires StoredAt(o, ids, ms, k).Stable()
    ensures var before, after := StoredAt(o, ids, ms, k), StoredAt(o, ids, ms + [m], k);
            var next := Past(ms + [m], k);
            && after.rail.Some?
            && Debounced(o.confirmationsRequired, before.rail.value, after.rail.value, Relevant(next))
            && (!after.Active() <==> AllMissed(Heard(next), o.delistThreshold))
  {
    var sig := NextSignal(o, ids, ms, m, k);
    StoredIsRun(o, ids, ms, k);
    StoredIsRun(o, ids, ms + [m], k);
    DebounceIsExact(o, ids(k), Past(ms, k), sig);
    DelistingIsExact(o, ids(k), Past(ms, k), sig);
  }

  /** In every interleaving, one more move settles an initial rail exactly when it commits an observation that
      completes N equal ones in a row; nothing is recorded about the rail up to and at that point. */
  lemma EveryRunSettlesBaselines(o: Limits, ids: IDs, ms: seq<Move>, m: Move, k: Key)
    requires Respects(m, k.exchangeID) && forall x <- ms :: Respects(x, k.exchangeID)
    requires StoredAt(o, ids, ms, k).Initial()
    ensures var after, past, next := StoredAt(o, ids, ms + [m], k), Past(ms, k), Past(ms + [m], k);
            && after.rail.Some? && LogAt(o, ids, ms + [m], k) == []
            && (!after.Initial() <==>
                |next| > |past| && next[|past|].Seen?
                && Window(Relevant(next), o.confirmationsRequired, next[|past|].obs.Reported()))
  {
    var sig := NextSignal(o, ids, ms, m, k);
    StoredIsRun(o, ids, ms, k);
    StoredIsRun(o, ids, ms + [m], k);
    InitialRailsAreSilent(o, ids(k), Past(ms, k));
    BaselineIsExactAndSilent(o, ids(k), Past(ms, k), sig);
  }

  /** In every interleaving, what one more move adds to a key's events is exactly what it moved of a settled
      rail, shown whole before and after, at the time of the observation or absence that it commits. */
  lemma EveryRunRecordsMoves(o: Limits, ids: IDs, ms: seq<Move>, m: Move, k: Key) returns (sig: Signal)
    requires Respects(m, k.exchangeID) && forall x <- ms :: Respects(x, k.exchangeID)
    ensures var past, next := Past(ms, k), Past(ms + [m], k);
            next == past + [sig] || (next == past && sig == Skipped)
    ensures Recorded(Trace(StoredAt(o, ids, ms, k), LogAt(o, ids, ms, k)),
                     Trace(StoredAt(o, ids, ms + [m], k), LogAt(o, ids, ms + [m], k)), sig)
  {
    sig := NextSignal(o, ids, ms, m, k);
    StoredIsRun(o, ids, ms, k);
    StoredIsRun(o, ids, ms + [m], k);
    EventsAreExact(o, ids(k), Past(ms, k), sig);
  }

  // --- Many more moves ---

  lemma {:induction false} RunFromSplits(o: Limits, id: int, t: Trace, a: seq<Signal>, b: seq<Signal>)
    ensures RunFrom(o, id, t, a + b) == RunFrom(o, id, RunFrom(o, id, t, a), b)
  {
    if b == [] {
      assert a + b == a;
    } else {
      assert (a + b)[..|a + b| - 1] == a + b[..|b| - 1];
      RunFromSplits(o, id, t, a, b[..|b| - 1]);
    }
  }

  /** Convergence in every interleaving: when all the engine is further told about a key is complete polls with
      the same data, and polls that do not mention it, then the key is settled, once what is in flight is
      written, exactly when there were as many as its state needed, which is never more than N + 1. A settled
      key stays so silently. Whatever the other exchanges do makes no difference. */
  lemma EveryRunConverges(o: Limits, ids: IDs, ms: seq<Move>, later: seq<Move>, sigs: seq<Signal>, like: Observation,
                          k: Key)
    requires (forall m <- ms :: Respects(m, k.exchangeID)) && forall m <- later :: Respects(m, k.exchangeID)
    requires ToldSoFar(later, k) == ToldSoFar(ms, k) + sigs && Repeating(sigs, like)
    ensures var before := Share(Landed(o, ids, RunMoves(o, ids, ms), k.exchangeID), k);
            var after := Share(Landed(o, ids, RunMoves(o, ids, later), k.exchangeID), k);
            && (Settled(after.state, like) <==> Observations(sigs) >= Remaining(o, before.state, like))
            && Remaining(o, before.state, like) <= o.confirmationsRequired + 1
            && (Settled(before.state, like) ==> after.log == before.log)
  {
    EveryKeyRunsAlone(o, ids, ms, k);
    EveryKeyRunsAlone(o, ids, later, k);
    var t := Run(o, ids(k), ToldSoFar(ms, k));
    ReachableIsCoherent(o, ids(k), ToldSoFar(ms, k));
    RunFromSplits(o, ids(k), Trace(UNKNOWN, []), ToldSoFar(ms, k), sigs);
    SettlesExactly(o, ids(k), t, sigs, like);
    RemainingIsBounded(o, t.state, like);
    PollsComeCloser(o, ids(k), t, sigs, like);
  }

  // --- Writing late ---

  lemma StoredRailsHaveIDs(o: Limits, ids: IDs, ms: seq<Move>, k: Key)
    requires forall m <- ms :: Respects(m, k.exchangeID)
    ensures k in RunMoves(o, ids, ms).world.rails ==> RunMoves(o, ids, ms).world.rails[k].id == ids(k)
  {
    StoredIsRun(o, ids, ms, k);
    RailsHaveTheirID(o, ids(k), Past(ms, k));
  }

  /** However long others keep a cycle from writing, what its diff made still fits the table when it is
      written: at most one mutation per key, inserts of unknown keys only, updates of the rows as they are,
      and every event backed by a mutation and a rail ID. */
  lemma EveryWriteIsSafe(o: Limits, ids: IDs, ms: seq<Move>, exchange: int)
    requires (forall m <- ms :: Respects(m, exchange)) && forall k: Key :: ids(k) != 0
    ensures var s := RunMoves(o, ids, ms);
            exchange in s.flights && s.flights[exchange].Diffed? ==>
              && SafeToApply(Previous(s.world.rails, exchange), s.flights[exchange].changes)
              && forall e <- s.flights[exchange].changes.events :: e.railID != 0
  {
    var s, w, stage := RunMoves(o, ids, ms), RunWorld(o, ids, Committed(ms, exchange)), LaneOf(ms, exchange).stage;
    InterleavingIsSerial(o, ids, ms, exchange);
    if stage.Decided? {
      var prev := Previous(w.rails, exchange);
      PreviousSame(s.world, w.(pending := Diff(o, w, exchange, stage.poll).pending), exchange);
      forall k | k in prev ensures prev[k].id != 0 && prev[k].key == k {
        assert k in Previous(s.world.rails, exchange);
        StoredRailsHaveIDs(o, ids, ms, k);
      }
      LaneHappensTo(ms, exchange);
      assert Cycle(exchange, stage.poll) in DecidedSoFar(ms, exchange);
      DiffIsSafeToApply(o, prev, w.pending, stage.poll);
    }
  }

  // --- Reports of rails that are not one's own ---

  /** The state of a key that the engine takes for new. */
  function Reinserted(ob: Observation, id: int): KeyState {
    KeyState(Some(RailFromObservation(ob).(id := id, isActive := true, isInitial := true)),
             Some(PendingBaseline(ob.Reported(), 1)), None)
  }

  /** A cycle loads only its own exchange's rails. It leaves a key of another exchange alone when it does not
      name it, and otherwise takes it for new: nothing is recorded, the row keeps its ID, and the rail is
      initial again with what the poll says. So a settled rail is left alone exactly when it is not named. */
  lemma ForeignReportsReset(o: Limits, ids: IDs, w: World, exchange: int, poll: Poll, k: Key)
    requires DistinctKeys(poll.observations) && OwnKeys(w.rails) && k.exchangeID != exchange
    ensures var before, after := Share(w, k), Share(Happen(o, ids, w, Cycle(exchange, poll)), k);
            && after.log == before.log
            && (k !in ObservedKeys(poll.observations) ==> after.state == before.state)
            && (k in ObservedKeys(poll.observations) ==>
                  exists ob <- poll.observations :: ob.key == k
                    && after.state == Reinserted(Timed(ob, poll), if k in w.rails then w.rails[k].id else ids(k)))
            && (k in w.rails && !w.rails[k].isInitial ==>
                  (after.state == before.state <==> k !in ObservedKeys(poll.observations)))
  {
    var sig := SignalOf(Notes(Previous(w.rails, exchange), poll), k);
    NotesSay(Previous(w.rails, exchange), poll, k);
    ForeignOutcome(o, ids, w, exchange, poll, k, sig);
  }

  lemma ForeignOutcome(o: Limits, ids: IDs, w: World, exchange: int, poll: Poll, k: Key, sig: Signal)
    requires DistinctKeys(poll.observations) && OwnKeys(w.rails) && k.exchangeID != exchange
    requires sig == SignalOf(Notes(Previous(w.rails, exchange), poll), k) && (sig.Seen? || sig.Skipped?)
    ensures var before, after := Share(w, k), Share(Happen(o, ids, w, Cycle(exchange, poll)), k);
            && after.log == before.log
            && after.state == if sig.Seen?
               then Reinserted(sig.obs, if k in w.rails then w.rails[k].id else ids(k)) else before.state
  {
    var prev := Previous(w.rails, exchange);
    CycleAnswers(o, ids, w, exchange, poll, k);
    ForeignSignal(o, At(prev, w.pending, k), sig);
    assert Share(w, k).log + [] == Share(w, k).log;
  }

  lemma ForeignSignal(o: Limits, s: KeyState, sig: Signal)
    requires s.rail.None? && (sig.Seen? || sig.Skipped?)
    ensures EngineOf(o)(s, sig) == if sig.Seen? then Inserted(sig.obs) else Outcome(s.baseline, s.status, None, [])
  {
  }
}
