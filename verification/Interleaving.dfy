/** Cycles that overlap, as RunOnce lets them (internal/ingester/runner.go). A cycle is three atomic moves:
    it loads its exchange's rails, diffs a poll under the engine's mutex, and commits what the diff made.
    Between the moves of one exchange any moves of others may come, and a restart may come at any point:
    it empties the engine and drops whatever is in flight. An exchange has one cycle in flight at most, and
    a move its cycle is not ready for does nothing. */
module Interleaving {
  import opened RailTypes
  import opened RailMachine
  import opened Sequences
  import opened PollDiff
  import opened PollOrder
  import opened RailTable
  import opened Ingestion

  datatype Move = Load(exchange: int) | DiffNow(exchange: int, poll: Poll) | Write(exchange: int) | Reboot

  /** What a cycle carries between its moves. */
  datatype Flight = Loaded(previous: map<Key, Rail>) | Diffed(changes: Changes)

  datatype System = System(world: World, flights: map<int, Flight>)

  const EMPTY_SYSTEM := System(EMPTY_WORLD, map[])

  function FlightOf(s: System, exchange: int): Option<Flight> {
    if exchange in s.flights then Some(s.flights[exchange]) else None
  }

  ghost function Step(o: Limits, ids: IDs, s: System, m: Move): System {
    var w := s.world;
    match m
    case Load(x) =>
      if x in s.flights then s else s.(flights := s.flights[x := Loaded(Previous(w.rails, x))])
    case DiffNow(x, poll) =>
      if x !in s.flights || s.flights[x].Diffed? then s
      else
        var prev := s.flights[x].previous;
        var d := Process(EngineOf(o), prev, w.pending, Notes(prev, poll));
        System(w.(pending := d.pending), s.flights[x := Diffed(d.changes)])
    case Write(x) =>
      if x !in s.flights || s.flights[x].Loaded? then s
      else
        var c := s.flights[x].changes;
        System(w.(rails := Upsert(w.rails, c.rails, ids), log := w.log + c.events), s.flights - {x})
    case Reboot => System(w.(pending := NOTHING_PENDING), map[])
  }

  ghost function RunMoves(o: Limits, ids: IDs, ms: seq<Move>): System {
    if ms == [] then EMPTY_SYSTEM
    else Step(o, ids, RunMoves(o, ids, ms[..|ms| - 1]), ms[|ms| - 1])
  }

  /** No poll names a rail twice, and no other exchange's poll names a rail of `exchange`. */
  predicate Respects(m: Move, exchange: int) {
    m.DiffNow? ==>
      && DistinctKeys(m.poll.observations)
      && (m.exchange != exchange ==> forall ob <- m.poll.observations :: ob.key.exchangeID != exchange)
  }

  // --- One exchange's lane through the interleaving ---

  datatype Stage = Idle | Reading | Decided(poll: Poll)

  /** The cycles an exchange has committed, with the restarts between them, and where its cycle in flight is. */
  datatype Lane = Lane(committed: seq<Happening>, stage: Stage)

  function LaneStep(l: Lane, exchange: int, m: Move): Lane {
    match m
    case Load(x) => if x == exchange && l.stage.Idle? then l.(stage := Reading) else l
    case DiffNow(x, poll) => if x == exchange && l.stage.Reading? then l.(stage := Decided(poll)) else l
    case Write(x) =>
      if x == exchange && l.stage.Decided? then Lane(l.committed + [Cycle(exchange, l.stage.poll)], Idle) else l
    case Reboot => Lane(l.committed + [Restart], Idle)
  }

  function LaneOf(ms: seq<Move>, exchange: int): Lane {
    if ms == [] then Lane([], Idle) else LaneStep(LaneOf(ms[..|ms| - 1], exchange), exchange, ms[|ms| - 1])
  }

  /** The exchange's history as its tables have it, and as its engine has it: the latter counts a poll that
      is diffed but not yet written. */
  function Committed(ms: seq<Move>, exchange: int): seq<Happening> {
    LaneOf(ms, exchange).committed
  }

  function DecidedSoFar(ms: seq<Move>, exchange: int): seq<Happening> {
    var l := LaneOf(ms, exchange);
    l.committed + if l.stage.Decided? then [Cycle(exchange, l.stage.poll)] else []
  }

  // --- What an exchange sees of a world ---

  function LogOf(log: seq<Event>, exchange: int): seq<Event> {
    Filter(log, (e: Event) => e.key.exchangeID == exchange)
  }

  /** The two worlds look the same from one exchange: its rails, its pending entries, and its part of
      the event log with its order. */
  ghost predicate SameFor(w: World, w': World, exchange: int) {
    && (forall k: Key :: k.exchangeID == exchange ==> At(w.rails, w.pending, k) == At(w'.rails, w'.pending, k))
    && LogOf(w.log, exchange) == LogOf(w'.log, exchange)
  }

  lemma PreviousSame(w: World, w': World, exchange: int)
    requires SameFor(w, w', exchange)
    ensures Previous(w.rails, exchange) == Previous(w'.rails, exchange)
  {
    var a, b := Previous(w.rails, exchange), Previous(w'.rails, exchange);
    forall k ensures Lookup(a, k) == Lookup(b, k) {
      if k.exchangeID == exchange {
        assert At(w.rails, w.pending, k) == At(w'.rails, w'.pending, k);
      }
    }
    MapsEqual(a, b);
  }

  lemma SameTransitive(a: World, b: World, c: World, exchange: int)
    requires SameFor(a, b, exchange) && (SameFor(b, c, exchange) || SameFor(c, b, exchange))
    ensures SameFor(a, c, exchange)
  {
    forall k: Key | k.exchangeID == exchange ensures At(a.rails, a.pending, k) == At(c.rails, c.pending, k) {
      assert At(a.rails, a.pending, k) == At(b.rails, b.pending, k);
      assert At(b.rails, b.pending, k) == At(c.rails, c.pending, k);
    }
  }

  /** What a diff of the exchange's stored rails makes in a world. */
  ghost function Diff(o: Limits, w: World, exchange: int, poll: Poll): Progress {
    var prev := Previous(w.rails, exchange);
    Process(EngineOf(o), prev, w.pending, Notes(prev, poll))
  }

  /** A serial run that has reached `w`, with the exchange's next cycle at `stage`. */
  ghost function AsSeen(o: Limits, w: World, exchange: int, stage: Stage): World {
    if stage.Decided? then w.(pending := Diff(o, w, exchange, stage.poll).pending) else w
  }

  /** The system looks to the exchange like a serial run that has reached `w`, with its cycle at `stage`. */
  ghost predicate Mirrors(o: Limits, s: System, w: World, exchange: int, stage: Stage) {
    && SameFor(s.world, AsSeen(o, w, exchange, stage), exchange)
    && FlightOf(s, exchange) ==
         match stage
         case Idle => None
         case Reading => Some(Loaded(Previous(w.rails, exchange)))
         case Decided(poll) => Some(Diffed(Diff(o, w, exchange, poll).changes))
  }

  // --- Moves of others ---

  /** What the cycles of others carry has nothing to do with the exchange. */
  predicate Apart(f: Flight, exchange: int) {
    match f
    case Loaded(previous) => OwnKeys(previous) && forall k <- previous :: k.exchangeID != exchange
    case Diffed(changes) =>
      && (forall u <- changes.rails :: u.after.key.exchangeID != exchange)
      && (forall e <- changes.events :: e.key.exchangeID != exchange)
  }

  ghost predicate Tidy(s: System, exchange: int) {
    && OwnKeys(s.world.rails)
    && (forall x <- s.flights :: x != exchange ==> Apart(s.flights[x], exchange))
  }

  lemma NotesAreApart(previous: map<Key, Rail>, poll: Poll, exchange: int)
    requires DistinctKeys(poll.observations)
    requires forall ob <- poll.observations :: ob.key.exchangeID != exchange
    requires forall k <- previous :: k.exchangeID != exchange
    ensures forall n <- Notes(previous, poll) :: n.key.exchangeID != exchange
  {
    var notes := Notes(previous, poll);
    var absent := SortedKeys(previous.Keys - ObservedKeys(poll.observations));
    PresentNotesAre(poll, poll.observations);
    AbsentNotesAre(poll.observedAt, absent);
    forall i | 0 <= i < |notes| ensures notes[i].key.exchangeID != exchange {
      if i < |poll.observations| {
        assert poll.observations[i] in poll.observations;
      } else {
        assert absent[i - |poll.observations|] in absent;
      }
    }
  }

  lemma OtherDiffIsApart(o: Limits, ids: IDs, s: System, m: Move, exchange: int)
    requires Tidy(s, exchange) && m.DiffNow? && m.exchange != exchange && Respects(m, exchange)
    requires m.exchange in s.flights && s.flights[m.exchange].Loaded?
    ensures var s' := Step(o, ids, s, m);
            SameFor(s'.world, s.world, exchange) && FlightOf(s', exchange) == FlightOf(s, exchange)
                && Tidy(s', exchange)
  {
    var prev := s.flights[m.exchange].previous;
    var notes := Notes(prev, m.poll);
    NotesAreApart(prev, m.poll, exchange);
    NotesAreDistinct(prev, m.poll);
    EngineIsProper(o);
    ProcessSpeaksOfNoted(EngineOf(o), prev, s.world.pending, notes, (k: Key) => k.exchangeID != exchange);
    var d := Process(EngineOf(o), prev, s.world.pending, notes);
    forall k: Key | k.exchangeID == exchange
      ensures At(s.world.rails, d.pending, k) == At(s.world.rails, s.world.pending, k)
    {
      ProcessLeavesOthers(EngineOf(o), prev, s.world.pending, notes, k);
      assert At(prev, d.pending, k) == At(prev, s.world.pending, k);
    }
  }

  lemma OtherWriteIsApart(o: Limits, ids: IDs, s: System, m: Move, exchange: int)
    requires Tidy(s, exchange) && m.Write? && m.exchange != exchange
    requires m.exchange in s.flights && s.flights[m.exchange].Diffed?
    ensures var s' := Step(o, ids, s, m);
            SameFor(s'.world, s.world, exchange) && FlightOf(s', exchange) == FlightOf(s, exchange)
                && Tidy(s', exchange)
  {
    var c, w := s.flights[m.exchange].changes, s.world;
    UpsertKeepsOwnKeys(w.rails, c.rails, ids);
    FilterConcat(w.log, c.events, (e: Event) => e.key.exchangeID == exchange);
    FilterNone(c.events, (e: Event) => e.key.exchangeID == exchange);
    forall k: Key | k.exchangeID == exchange
      ensures At(Upsert(w.rails, c.rails, ids), w.pending, k) == At(w.rails, w.pending, k)
    {
      UpsertLeavesOthers(w.rails, c.rails, ids, k);
    }
  }

  /** A move of another exchange's cycle is nothing to the exchange. */
  lemma OtherMoveIsApart(o: Limits, ids: IDs, s: System, m: Move, exchange: int)
    requires Tidy(s, exchange) && !m.Reboot? && m.exchange != exchange && Respects(m, exchange)
    ensures var s' := Step(o, ids, s, m);
            SameFor(s'.world, s.world, exchange) && FlightOf(s', exchange) == FlightOf(s, exchange)
                && Tidy(s', exchange)
  {
    if m.DiffNow? && m.exchange in s.flights && s.flights[m.exchange].Loaded? {
      OtherDiffIsApart(o, ids, s, m, exchange);
    } else if m.Write? && m.exchange in s.flights && s.flights[m.exchange].Diffed? {
      OtherWriteIsApart(o, ids, s, m, exchange);
    }
  }

  lemma MirrorsStay(o: Limits, s: System, s': System, w: World, exchange: int, stage: Stage)
    requires Mirrors(o, s, w, exchange, stage)
    requires SameFor(s'.world, s.world, exchange) && FlightOf(s', exchange) == FlightOf(s, exchange)
    ensures Mirrors(o, s', w, exchange, stage)
  {
    SameTransitive(s'.world, s.world, AsSeen(o, w, exchange, stage), exchange);
  }

  // --- The exchange's own moves ---

  /** The engine answers alike in both worlds: about its own keys they agree, and of any other key the
      exchange has loaded nothing, so an observation of it inserts. */
  lemma EngineAnswersAlike(o: Limits, w: World, w': World, exchange: int, poll: Poll, n: Note)
    requires SameFor(w, w', exchange) && DistinctKeys(poll.observations)
             && n in Notes(Previous(w.rails, exchange), poll)
    ensures var prev := Previous(w.rails, exchange);
            EngineOf(o)(At(prev, w.pending, n.key), n.sig) == EngineOf(o)(At(prev, w'.pending, n.key), n.sig)
  {
    var prev := Previous(w.rails, exchange);
    if n.key.exchangeID == exchange {
      assert At(w.rails, w.pending, n.key) == At(w'.rails, w'.pending, n.key);
    } else {
      PresentOrKnown(prev, poll, n);
    }
  }

  lemma PresentOrKnown(prev: map<Key, Rail>, poll: Poll, n: Note)
    requires n in Notes(prev, poll) && n.key !in prev
    ensures n.sig.Seen?
  {
    var notes := Notes(prev, poll);
    var absent := SortedKeys(prev.Keys - ObservedKeys(poll.observations));
    PresentNotesAre(poll, poll.observations);
    AbsentNotesAre(poll.observedAt, absent);
    var i :| 0 <= i < |notes| && notes[i] == n;
    assert forall j | 0 <= j < |absent| :: absent[j] in absent;
  }

  lemma OwnDiffMirrors(o: Limits, w: World, w': World, exchange: int, poll: Poll)
    requires SameFor(w, w', exchange) && DistinctKeys(poll.observations)
    ensures var d, d' := Diff(o, w, exchange, poll), Diff(o, w', exchange, poll);
            d.changes == d'.changes && SameFor(w.(pending := d.pending), w'.(pending := d'.pending), exchange)
  {
    PreviousSame(w, w', exchange);
    var prev := Previous(w.rails, exchange);
    var notes := Notes(prev, poll);
    NotesAreDistinct(prev, poll);
    forall n | n in notes
      ensures EngineOf(o)(At(prev, w.pending, n.key), n.sig) == EngineOf(o)(At(prev, w'.pending, n.key), n.sig)
    {
      EngineAnswersAlike(o, w, w', exchange, poll, n);
    }
    ProcessAgrees(EngineOf(o), prev, w.pending, prev, w'.pending, notes, Key(exchange, 0, 0));
    forall k: Key | k.exchangeID == exchange
      ensures At(w.rails, Diff(o, w, exchange, poll).pending, k) == At(w'.rails, Diff(o, w', exchange, poll).pending, k)
    {
      assert At(w.rails, w.pending, k) == At(w'.rails, w'.pending, k);
      assert At(prev, w.pending, k) == At(prev, w'.pending, k);
      ProcessAgrees(EngineOf(o), prev, w.pending, prev, w'.pending, notes, k);
      assert At(prev, Diff(o, w, exchange, poll).pending, k) == At(prev, Diff(o, w', exchange, poll).pending, k);
    }
  }

  /** Writing the same changes leaves worlds that look the same looking the same. */
  lemma OwnWriteMirrors(w: World, w': World, exchange: int, c: Changes, ids: IDs)
    requires SameFor(w, w', exchange)
    ensures SameFor(w.(rails := Upsert(w.rails, c.rails, ids), log := w.log + c.events),
                    w'.(rails := Upsert(w'.rails, c.rails, ids), log := w'.log + c.events), exchange)
  {
    FilterConcat(w.log, c.events, (e: Event) => e.key.exchangeID == exchange);
    FilterConcat(w'.log, c.events, (e: Event) => e.key.exchangeID == exchange);
    forall k: Key | k.exchangeID == exchange
      ensures At(Upsert(w.rails, c.rails, ids), w.pending, k) == At(Upsert(w'.rails, c.rails, ids), w'.pending, k)
    {
      assert At(w.rails, w.pending, k) == At(w'.rails, w'.pending, k);
      UpsertSame(w.rails, w'.rails, c.rails, ids, k);
    }
  }

  lemma RebootMirrors(w: World, w': World, exchange: int)
    requires forall k: Key :: k.exchangeID == exchange ==> Lookup(w.rails, k) == Lookup(w'.rails, k)
    requires LogOf(w.log, exchange) == LogOf(w'.log, exchange)
    ensures SameFor(w.(pending := NOTHING_PENDING), w'.(pending := NOTHING_PENDING), exchange)
  {
  }

  lemma RunWorldOneMore(o: Limits, ids: IDs, hs: seq<Happening>, h: Happening)
    ensures RunWorld(o, ids, hs + [h]) == Happen(o, ids, RunWorld(o, ids, hs), h)
  {
    assert (hs + [h])[..|hs|] == hs;
  }

  lemma OwnLoadMirrors(o: Limits, ids: IDs, s: System, w: World, exchange: int)
    requires Mirrors(o, s, w, exchange, Idle)
    ensures Mirrors(o, Step(o, ids, s, Load(exchange)), w, exchange, Reading)
  {
    PreviousSame(s.world, w, exchange);
  }

  lemma OwnDiffNowMirrors(o: Limits, ids: IDs, s: System, w: World, exchange: int, poll: Poll)
    requires Mirrors(o, s, w, exchange, Reading) && DistinctKeys(poll.observations)
    ensures Mirrors(o, Step(o, ids, s, DiffNow(exchange, poll)), w, exchange, Decided(poll))
  {
    PreviousSame(s.world, w, exchange);
    OwnDiffMirrors(o, s.world, w, exchange, poll);
  }

  lemma OwnWriteNowMirrors(o: Limits, ids: IDs, s: System, w: World, exchange: int, poll: Poll)
    requires Mirrors(o, s, w, exchange, Decided(poll))
    ensures Mirrors(o, Step(o, ids, s, Write(exchange)), Happen(o, ids, w, Cycle(exchange, poll)), exchange, Idle)
  {
    var d := Diff(o, w, exchange, poll);
    OwnWriteMirrors(s.world, w.(pending := d.pending), exchange, d.changes, ids);
    assert Happen(o, ids, w, Cycle(exchange, poll))
        == World(Upsert(w.rails, d.changes.rails, ids), d.pending, w.log + d.changes.events);
  }

  /** A move that the exchange's cycle is not ready for does nothing. */
  lemma UnreadyMoveIsNothing(o: Limits, ids: IDs, s: System, w: World, stage: Stage, m: Move, exchange: int)
    requires Mirrors(o, s, w, exchange, stage) && !m.Reboot? && m.exchange == exchange
    requires m.Load? ==> !stage.Idle?
    requires m.DiffNow? ==> !stage.Reading?
    requires m.Write? ==> !stage.Decided?
    ensures Step(o, ids, s, m) == s
  {
  }

  lemma OwnMoveMirrors(o: Limits, ids: IDs, s: System, l: Lane, m: Move, exchange: int)
    requires Mirrors(o, s, RunWorld(o, ids, l.committed), exchange, l.stage)
    requires !m.Reboot? && m.exchange == exchange && Respects(m, exchange)
    ensures var l' := LaneStep(l, exchange, m);
            Mirrors(o, Step(o, ids, s, m), RunWorld(o, ids, l'.committed), exchange, l'.stage)
  {
    var w := RunWorld(o, ids, l.committed);
    if m.Load? && l.stage.Idle? {
      OwnLoadMirrors(o, ids, s, w, exchange);
    } else if m.DiffNow? && l.stage.Reading? {
      OwnDiffNowMirrors(o, ids, s, w, exchange, m.poll);
    } else if m.Write? && l.stage.Decided? {
      OwnWriteNowMirrors(o, ids, s, w, exchange, l.stage.poll);
      RunWorldOneMore(o, ids, l.committed, Cycle(exchange, l.stage.poll));
    } else {
      UnreadyMoveIsNothing(o, ids, s, w, l.stage, m, exchange);
    }
  }

  lemma MirrorsTables(o: Limits, s: System, w: World, exchange: int, stage: Stage, k: Key)
    requires Mirrors(o, s, w, exchange, stage) && k.exchangeID == exchange
    ensures Lookup(s.world.rails, k) == Lookup(w.rails, k) && LogOf(s.world.log, exchange) == LogOf(w.log, exchange)
  {
    var v := AsSeen(o, w, exchange, stage);
    assert At(s.world.rails, s.world.pending, k) == At(v.rails, v.pending, k);
  }

  lemma MoveMirrors(o: Limits, ids: IDs, s: System, l: Lane, m: Move, exchange: int)
    requires Mirrors(o, s, RunWorld(o, ids, l.committed), exchange, l.stage)
    requires Tidy(s, exchange) && Respects(m, exchange)
    ensures var s', l' := Step(o, ids, s, m), LaneStep(l, exchange, m);
            Mirrors(o, s', RunWorld(o, ids, l'.committed), exchange, l'.stage) && Tidy(s', exchange)
  {
    var w := RunWorld(o, ids, l.committed);
    if m.Reboot? {
      RunWorldOneMore(o, ids, l.committed, Restart);
      forall k: Key | k.exchangeID == exchange ensures Lookup(s.world.rails, k) == Lookup(w.rails, k) {
        MirrorsTables(o, s, w, exchange, l.stage, k);
      }
      MirrorsTables(o, s, w, exchange, l.stage, Key(exchange, 0, 0));
      RebootMirrors(s.world, w, exchange);
    } else if m.exchange == exchange {
      OwnMoveMirrors(o, ids, s, l, m, exchange);
      OwnMoveIsTidy(o, ids, s, m, exchange);
    } else {
      OtherMoveIsApart(o, ids, s, m, exchange);
      MirrorsStay(o, s, Step(o, ids, s, m), w, exchange, l.stage);
    }
  }

  lemma OwnMoveIsTidy(o: Limits, ids: IDs, s: System, m: Move, exchange: int)
    requires Tidy(s, exchange) && !m.Reboot? && m.exchange == exchange
    ensures Tidy(Step(o, ids, s, m), exchange)
  {
    if m.Write? && exchange in s.flights && s.flights[exchange].Diffed? {
      UpsertKeepsOwnKeys(s.world.rails, s.flights[exchange].changes.rails, ids);
    }
  }

  /** Every interleaving is serial to each exchange: at any moment its rails, pending entries, ordered events
      and cycle in flight are those of running its committed cycles and the restarts one after the other,
      and then its cycle in flight as far as it has come. */
  lemma {:induction false} InterleavingIsSerial(o: Limits, ids: IDs, ms: seq<Move>, exchange: int)
    requires forall m <- ms :: Respects(m, exchange)
    ensures Mirrors(o, RunMoves(o, ids, ms), RunWorld(o, ids, Committed(ms, exchange)), exchange,
                    LaneOf(ms, exchange).stage)
    ensures Tidy(RunMoves(o, ids, ms), exchange)
  {
    if ms != [] {
      var front, last := ms[..|ms| - 1], ms[|ms| - 1];
      assert last in ms && forall m <- front :: m in ms;
      InterleavingIsSerial(o, ids, front, exchange);
      MoveMirrors(o, ids, RunMoves(o, ids, front), LaneOf(front, exchange), last, exchange);
    }
  }

  /** An exchange's own moves, and the restarts, which hit everybody. */
  function Alone(ms: seq<Move>, exchange: int): seq<Move> {
    Filter(ms, (m: Move) => m.Reboot? || m.exchange == exchange)
  }

  lemma {:induction false} LaneIsItsOwn(ms: seq<Move>, exchange: int)
    ensures LaneOf(Alone(ms, exchange), exchange) == LaneOf(ms, exchange)
  {
    if ms != [] {
      var front, last := ms[..|ms| - 1], ms[|ms| - 1];
      LaneIsItsOwn(front, exchange);
      var own := Alone(front, exchange);
      assert (own + [last])[..|own|] == own && own + [] == own;
    }
  }

  /** Non-interference: in every interleaving of the moves of all exchanges and restarts, each exchange's
      rails, pending entries, ordered events and cycle in flight are those of making its own moves alone. */
  lemma ExchangesDoNotInterfere(o: Limits, ids: IDs, ms: seq<Move>, exchange: int)
    requires forall m <- ms :: Respects(m, exchange)
    ensures var s, s' := RunMoves(o, ids, ms), RunMoves(o, ids, Alone(ms, exchange));
            SameFor(s.world, s'.world, exchange) && FlightOf(s, exchange) == FlightOf(s', exchange)
  {
    var own := Alone(ms, exchange);
    FilterMembers(ms, (m: Move) => m.Reboot? || m.exchange == exchange);
    InterleavingIsSerial(o, ids, ms, exchange);
    InterleavingIsSerial(o, ids, own, exchange);
    LaneIsItsOwn(ms, exchange);
    var w, stage := RunWorld(o, ids, Committed(ms, exchange)), LaneOf(ms, exchange).stage;
    SameTransitive(RunMoves(o, ids, ms).world, AsSeen(o, w, exchange, stage), RunMoves(o, ids, own).world, exchange);
  }

  // --- Cycles as moves ---

  /** A cycle that nothing comes between is its three moves. */
  lemma CycleIsThreeMoves(o: Limits, ids: IDs, s: System, exchange: int, poll: Poll)
    requires exchange !in s.flights
    ensures Step(o, ids, Step(o, ids, Step(o, ids, s, Load(exchange)), DiffNow(exchange, poll)), Write(exchange))
         == s.(world := Happen(o, ids, s.world, Cycle(exchange, poll)))
  {
  }

  function MovesOf(h: Happening): seq<Move> {
    match h
    case Restart => [Reboot]
    case Cycle(exchange, poll) => [Load(exchange), DiffNow(exchange, poll), Write(exchange)]
  }

  function AllMovesOf(hs: seq<Happening>): seq<Move> {
    if hs == [] then [] else AllMovesOf(hs[..|hs| - 1]) + MovesOf(hs[|hs| - 1])
  }

  lemma RunMovesOneMore(o: Limits, ids: IDs, ms: seq<Move>, m: Move)
    ensures RunMoves(o, ids, ms + [m]) == Step(o, ids, RunMoves(o, ids, ms), m)
  {
    assert (ms + [m])[..|ms|] == ms;
  }

  lemma MovesOfHappen(o: Limits, ids: IDs, ms: seq<Move>, w: World, h: Happening)
    requires RunMoves(o, ids, ms) == System(w, map[])
    ensures RunMoves(o, ids, ms + MovesOf(h)) == System(Happen(o, ids, w, h), map[])
  {
    match h
    case Restart => RunMovesOneMore(o, ids, ms, Reboot);
    case Cycle(x, poll) =>
      RunMovesOneMore(o, ids, ms, Load(x));
      RunMovesOneMore(o, ids, ms + [Load(x)], DiffNow(x, poll));
      RunMovesOneMore(o, ids, ms + [Load(x)] + [DiffNow(x, poll)], Write(x));
      assert ms + MovesOf(h) == ms + [Load(x)] + [DiffNow(x, poll)] + [Write(x)];
      CycleIsThreeMoves(o, ids, RunMoves(o, ids, ms), x, poll);
  }

  /** Cycles that do not overlap are one of the interleavings, with nothing in flight between them. */
  lemma {:induction false} SerialRunsAreInterleavings(o: Limits, ids: IDs, hs: seq<Happening>)
    ensures RunMoves(o, ids, AllMovesOf(hs)) == System(RunWorld(o, ids, hs), map[])
  {
    if hs != [] {
      var front, last := hs[..|hs| - 1], hs[|hs| - 1];
      SerialRunsAreInterleavings(o, ids, front);
      MovesOfHappen(o, ids, AllMovesOf(front), RunWorld(o, ids, front), last);
    }
  }

  // --- Every key of an interleaving is a run of its own ---

  lemma {:induction false} LaneHappensTo(ms: seq<Move>, exchange: int)
    requires forall m <- ms :: Respects(m, exchange)
    ensures forall h <- DecidedSoFar(ms, exchange) :: HappensTo(h, exchange)
    ensures forall h <- Committed(ms, exchange) :: h in DecidedSoFar(ms, exchange)
  {
    if ms != [] {
      var front, last := ms[..|ms| - 1], ms[|ms| - 1];
      assert last in ms && forall m <- front :: m in ms;
      LaneHappensTo(front, exchange);
    }
  }

  /** The world once the diff that the exchange has in flight, if any, is written. */
  ghost function Landed(o: Limits, ids: IDs, s: System, exchange: int): World {
    Step(o, ids, s, Write(exchange)).world
  }

  lemma EventsOfKey(log: seq<Event>, k: Key)
    ensures EventsFor(log, k) == Filter(LogOf(log, k.exchangeID), (e: Event) => e.key == k)
  {
    FilterTwice(log, (e: Event) => e.key.exchangeID == k.exchangeID, (e: Event) => e.key == k);
  }

  /** Every key runs alone: in every interleaving, its stored rail and its events are those of its own machine
      run on the signals of its exchange's committed cycles, and with its pending entries, once the diff in
      flight is written, those of its machine run on the signals the engine has seen. */
  lemma EveryKeyRunsAlone(o: Limits, ids: IDs, ms: seq<Move>, k: Key)
    requires forall m <- ms :: Respects(m, k.exchangeID)
    ensures var s, t := RunMoves(o, ids, ms), Run(o, ids(k), HistoryOf(Committed(ms, k.exchangeID), k));
            Lookup(s.world.rails, k) == t.state.rail && EventsFor(s.world.log, k) == t.log
    ensures Share(Landed(o, ids, RunMoves(o, ids, ms), k.exchangeID), k)
         == Run(o, ids(k), HistoryOf(DecidedSoFar(ms, k.exchangeID), k))
  {
    TablesRunAlone(o, ids, ms, k);
    WriteLands(o, ids, ms, k.exchangeID);
    LandedRunsAlone(o, ids, ms + [Write(k.exchangeID)], k);
  }

  lemma WriteLands(o: Limits, ids: IDs, ms: seq<Move>, exchange: int)
    requires forall m <- ms :: Respects(m, exchange)
    ensures var more := ms + [Write(exchange)];
            && RunMoves(o, ids, more).world == Landed(o, ids, RunMoves(o, ids, ms), exchange)
            && Committed(more, exchange) == DecidedSoFar(ms, exchange) && !LaneOf(more, exchange).stage.Decided?
            && forall m <- more :: Respects(m, exchange)
  {
    var more := ms + [Write(exchange)];
    RunMovesOneMore(o, ids, ms, Write(exchange));
    assert more[..|ms|] == ms;
    assert forall m <- more :: m in ms || m == Write(exchange);
  }

  lemma TablesRunAlone(o: Limits, ids: IDs, ms: seq<Move>, k: Key)
    requires forall m <- ms :: Respects(m, k.exchangeID)
    ensures var s, t := RunMoves(o, ids, ms), Run(o, ids(k), HistoryOf(Committed(ms, k.exchangeID), k));
            Lookup(s.world.rails, k) == t.state.rail && EventsFor(s.world.log, k) == t.log
  {
    var x := k.exchangeID;
    var w := RunWorld(o, ids, Committed(ms, x));
    InterleavingIsSerial(o, ids, ms, x);
    LaneHappensTo(ms, x);
    MirrorsTables(o, RunMoves(o, ids, ms), w, x, LaneOf(ms, x).stage, k);
    KeysOfAnExchangeRunAlone(o, ids, Committed(ms, x), k);
    EventsOfKey(RunMoves(o, ids, ms).world.log, k);
    EventsOfKey(w.log, k);
  }

  lemma LandedRunsAlone(o: Limits, ids: IDs, ms: seq<Move>, k: Key)
    requires (forall m <- ms :: Respects(m, k.exchangeID)) && !LaneOf(ms, k.exchangeID).stage.Decided?
    ensures Share(RunMoves(o, ids, ms).world, k) == Run(o, ids(k), HistoryOf(Committed(ms, k.exchangeID), k))
  {
    var x := k.exchangeID;
    var s, w := RunMoves(o, ids, ms).world, RunWorld(o, ids, Committed(ms, x));
    InterleavingIsSerial(o, ids, ms, x);
    LaneHappensTo(ms, x);
    assert At(s.rails, s.pending, k) == At(w.rails, w.pending, k);
    KeysOfAnExchangeRunAlone(o, ids, Committed(ms, x), k);
    EventsOfKey(s.log, k);
    EventsOfKey(w.log, k);
  }
}
