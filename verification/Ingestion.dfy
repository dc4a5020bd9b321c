/** Cycles one after the other, through one engine and one rails table. A cycle loads the exchange's rails,
    diffs the poll, upserts the mutations and appends the events; a restart empties the engine and keeps
    the tables. Cycles that overlap are the subject of Interleaving. */
module Ingestion {
  import opened RailTypes
  import opened RailMachine
  import opened Sequences
  import opened PollDiff
  import opened PollOrder
  import opened RailTable

  datatype World = World(rails: map<Key, Rail>, pending: Pending, log: seq<Event>)

  const EMPTY_WORLD := World(map[], NOTHING_PENDING, [])

  datatype Happening = Cycle(exchange: int, poll: Poll) | Restart

  /** The stored rails of one exchange. */
  function Previous(rails: map<Key, Rail>, exchange: int): map<Key, Rail> {
    map k | k in rails && k.exchangeID == exchange :: rails[k]
  }

  ghost function Happen(o: Limits, ids: IDs, w: World, h: Happening): World {
    match h
    case Restart => w.(pending := NOTHING_PENDING)
    case Cycle(exchange, poll) =>
      var prev := Previous(w.rails, exchange);
      var d := Process(EngineOf(o), prev, w.pending, Notes(prev, poll));
      World(Upsert(w.rails, d.changes.rails, ids), d.pending, w.log + d.changes.events)
  }

  ghost function RunWorld(o: Limits, ids: IDs, hs: seq<Happening>): World {
    if hs == [] then EMPTY_WORLD
    else Happen(o, ids, RunWorld(o, ids, hs[..|hs| - 1]), hs[|hs| - 1])
  }

  /** A restart, or a cycle of the exchange that reports each rail at most once. */
  predicate HappensTo(h: Happening, exchange: int) {
    h.Cycle? ==> h.exchange == exchange && DistinctKeys(h.poll.observations)
  }

  function PollSignal(poll: Poll, obs: seq<Observation>, k: Key): Signal {
    if obs == [] then (if poll.complete then Missed(poll.observedAt) else Skipped)
    else if obs[|obs| - 1].key == k then Seen(Timed(obs[|obs| - 1], poll), poll.complete)
    else PollSignal(poll, obs[..|obs| - 1], k)
  }

  /** What one happening is to one key. */
  function SignalFor(h: Happening, k: Key): Signal {
    match h
    case Restart => Restarted
    case Cycle(exchange, poll) =>
      if k.exchangeID == exchange then PollSignal(poll, poll.observations, k) else Skipped
  }

  function HistoryOf(hs: seq<Happening>, k: Key): (sigs: seq<Signal>)
    ensures |sigs| == |hs|
  {
    if hs == [] then [] else HistoryOf(hs[..|hs| - 1], k) + [SignalFor(hs[|hs| - 1], k)]
  }

  /** One key's share of the world. */
  function Share(w: World, k: Key): Trace {
    Trace(At(w.rails, w.pending, k), EventsFor(w.log, k))
  }

  // --- Every key of a run is a run of its own ---

  lemma {:induction false} PollSignalIsSaid(poll: Poll, obs: seq<Observation>, k: Key)
    ensures if exists ob <- obs :: ob.key == k
            then exists ob <- obs :: ob.key == k && PollSignal(poll, obs, k) == Seen(Timed(ob, poll), poll.complete)
            else PollSignal(poll, obs, k) == if poll.complete then Missed(poll.observedAt) else Skipped
  {
    if obs != [] {
      var front, last := obs[..|obs| - 1], obs[|obs| - 1];
      assert obs == front + [last];
      PollSignalIsSaid(poll, front, k);
      if last.key == k {
        assert last in obs;
      }
    }
  }

  /** The notes of a poll and the key's signal have the same effect, the only difference being an
      absence of a key that has no rail. */
  lemma SignalsAgree(prev: map<Key, Rail>, poll: Poll, k: Key)
    requires DistinctKeys(poll.observations)
    ensures var a, b := SignalOf(Notes(prev, poll), k), PollSignal(poll, poll.observations, k);
            a == b || (k !in prev && a == Skipped && b.Missed?)
  {
    NotesSay(prev, poll, k);
    PollSignalIsSaid(poll, poll.observations, k);
    assert (exists ob <- poll.observations :: ob.key == k) <==> k in ObservedKeys(poll.observations);
    if k in ObservedKeys(poll.observations) {
      assert Says(poll, k, k in prev, PollSignal(poll, poll.observations, k));
      SaysOneThing(poll, poll, k, k in prev, SignalOf(Notes(prev, poll), k), PollSignal(poll, poll.observations, k));
    }
  }

  lemma {:induction false} RunKeepsOwnKeys(o: Limits, ids: IDs, hs: seq<Happening>)
    ensures OwnKeys(RunWorld(o, ids, hs).rails)
  {
    if hs != [] {
      var w := RunWorld(o, ids, hs[..|hs| - 1]);
      RunKeepsOwnKeys(o, ids, hs[..|hs| - 1]);
      if hs[|hs| - 1].Cycle? {
        var prev := Previous(w.rails, hs[|hs| - 1].exchange);
        UpsertKeepsOwnKeys(w.rails,
            Process(EngineOf(o), prev, w.pending, Notes(prev, hs[|hs| - 1].poll)).changes.rails, ids);
      }
    }
  }

  /** What a cycle makes of any key: the engine answers on what the exchange has loaded of it, and the answer
      is written to the row there is. */
  lemma CycleAnswers(o: Limits, ids: IDs, w: World, exchange: int, poll: Poll, k: Key)
    requires DistinctKeys(poll.observations) && OwnKeys(w.rails)
    ensures var prev := Previous(w.rails, exchange);
            var out := EngineOf(o)(At(prev, w.pending, k), SignalOf(Notes(prev, poll), k));
            Share(Happen(o, ids, w, Cycle(exchange, poll)), k)
              == Trace(KeyState(Written(Lookup(w.rails, k), out.mutation, ids(k)), out.baseline, out.status),
                       Share(w, k).log + out.events)
  {
    var m := EngineOf(o);
    var prev := Previous(w.rails, exchange);
    var notes := Notes(prev, poll);
    var d := Process(m, prev, w.pending, notes);
    EngineIsProper(o);
    NotesAreDistinct(prev, poll);
    ProcessIsPointwise(m, prev, w.pending, notes, k);
    FilterConcat(w.log, d.changes.events, (e: Event) => e.key == k);
    UpsertAt(w.rails, d.changes.rails, ids, k);
  }

  /** A key of the polled exchange takes one step of its own machine. */
  lemma CycleAdvancesItsKeys(o: Limits, ids: IDs, w: World, exchange: int, poll: Poll, k: Key)
    requires DistinctKeys(poll.observations) && OwnKeys(w.rails) && k.exchangeID == exchange
    ensures Share(Happen(o, ids, w, Cycle(exchange, poll)), k)
              == Advance(o, ids(k), Share(w, k), PollSignal(poll, poll.observations, k))
  {
    var prev := Previous(w.rails, exchange);
    CycleAnswers(o, ids, w, exchange, poll, k);
    SignalsAgree(prev, poll, k);
    assert At(prev, w.pending, k) == At(w.rails, w.pending, k);
    MissedUnknown(o, At(w.rails, w.pending, k), SignalOf(Notes(prev, poll), k), PollSignal(poll, poll.observations, k));
  }

  lemma MissedUnknown(o: Limits, s: KeyState, a: Signal, b: Signal)
    requires a == b || (s.rail.None? && a == Skipped && b.Missed?)
    ensures React(o, s, a) == React(o, s, b)
  {
  }

  lemma HappenAdvances(o: Limits, ids: IDs, w: World, h: Happening, k: Key)
    requires HappensTo(h, k.exchangeID) && OwnKeys(w.rails)
    ensures Share(Happen(o, ids, w, h), k) == Advance(o, ids(k), Share(w, k), SignalFor(h, k))
  {
    AdvanceQuiet(o, ids(k), Share(w, k));
    match h
    case Restart =>
    case Cycle(exchange, poll) => CycleAdvancesItsKeys(o, ids, w, exchange, poll, k);
  }

  /** Every key of an exchange runs alone: through the exchange's cycles and the restarts its rail, pending
      entries and events are those of its own machine run on its own signals. */
  lemma {:induction false} KeysOfAnExchangeRunAlone(o: Limits, ids: IDs, hs: seq<Happening>, k: Key)
    requires forall h <- hs :: HappensTo(h, k.exchangeID)
    ensures Share(RunWorld(o, ids, hs), k) == Run(o, ids(k), HistoryOf(hs, k))
  {
    if hs != [] {
      var front, last := hs[..|hs| - 1], hs[|hs| - 1];
      assert last in hs && forall h <- front :: h in hs;
      KeysOfAnExchangeRunAlone(o, ids, front, k);
      RunKeepsOwnKeys(o, ids, front);
      HappenAdvances(o, ids, RunWorld(o, ids, front), last, k);
      RunSnoc(o, ids(k), Trace(UNKNOWN, []), HistoryOf(front, k), SignalFor(last, k));
    }
  }

  lemma HistoryOfSnoc(hs: seq<Happening>, h: Happening, k: Key)
    ensures HistoryOf(hs + [h], k) == HistoryOf(hs, k) + [SignalFor(h, k)]
  {
    assert (hs + [h])[..|hs|] == hs;
  }
}
