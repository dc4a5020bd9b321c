/** One ingestion cycle as it runs (internal/ingester/runner.go, internal/diff/apply.go): merge, load,
    diff, write. The tables are the rails and rail_events tables; the cycle cannot fail in them. */
module Runner {
  import opened RailTypes
  import opened RailMachine
  import opened Merging
  import opened PollDiff
  import opened PollSafety
  import opened RailTable
  import opened DiffEngine
  import opened Ingestion

  /** The observations of a poll: one for each rail its snapshots name, in order of appearance. */
  predicate MergedPoll(snapshots: seq<NormalizedRail>, now: Time, observations: seq<Observation>) {
    |observations| == |FirstKeys(snapshots)| &&
    forall i :: 0 <= i < |observations| ==>
      var k := FirstKeys(snapshots)[i];
      && GroupOf(snapshots, k) != [] && observations[i] == ObservationOf(Fold(GroupOf(snapshots, k)), now)
      && observations[i].key == k && Tells(GroupOf(snapshots, k), now, observations[i])
  }

  /** Merging makes `Diff` total: the merged observations never repeat a key. */
  method MergedObservations(snapshots: seq<NormalizedRail>, now: Time) returns (observations: seq<Observation>)
    ensures MergedPoll(snapshots, now, observations) && DistinctKeys(observations)
  {
    var merged := MergeDuplicateRails(snapshots);
    observations := NormalizedObservations(merged, now);
    FirstKeysAreTheKeys(snapshots);
    forall i | 0 <= i < |observations|
      ensures Tells(GroupOf(snapshots, FirstKeys(snapshots)[i]), now, observations[i])
    {
      ObservationTellsTheSnapshots(GroupOf(snapshots, FirstKeys(snapshots)[i]), now);
    }
  }

  predicate DistinctMutations(mutations: seq<RailMutation>) {
    forall i, j :: 0 <= i < j < |mutations| ==> mutations[i].after.key != mutations[j].after.key
  }

  class Tables {
    var rails: map<Key, Rail>
    var events: seq<Event>
    const ids: IDs

    constructor (ids: IDs)
      ensures this.ids == ids && rails == map[] && events == []
    {
      this.ids := ids;
      rails, events := map[], [];
    }

    ghost predicate Valid()
      reads this
    {
      && OwnKeys(rails)
      && (forall k <- rails :: rails[k].id != 0)
      && (forall k :: ids(k) != 0)
    }

    /** The exchange's rows, in whatever order the table gives them. */
    method LoadPreviousRails(exchange: int) returns (previous: seq<Rail>)
      requires OwnKeys(rails)
      ensures DistinctRails(previous) && ByKey(previous) == Previous(rails, exchange)
    {
      previous := [];
      var wanted := Previous(rails, exchange);
      var rest := wanted.Keys;
      while rest != {}
        invariant rest <= wanted.Keys
        invariant DistinctRails(previous)
        invariant ByKey(previous) == wanted - rest
        decreases rest
      {
        var key :| key in rest;
        LoadOneMore(previous, wanted, rest, key);
        previous := previous + [wanted[key]];
        rest := rest - {key};
      }
    }

    /** One statement for the whole batch; a batch that names a key twice is an error. */
    method UpsertRails(mutations: seq<RailMutation>) returns (ok: bool)
      modifies this`rails
      ensures ok <==> DistinctMutations(mutations)
      ensures rails == if ok then Upsert(old(rails), mutations, ids) else old(rails)
    {
      var written := rails;
      var touched: set<Key> := {};
      for i := 0 to |mutations|
        invariant DistinctMutations(mutations[..i])
        invariant touched == set m <- mutations[..i] :: m.after.key
        invariant written == Upsert(old(rails), mutations[..i], ids)
        invariant rails == old(rails)
      {
        var key := mutations[i].after.key;
        assert mutations[..i + 1] == mutations[..i] + [mutations[i]];
        assert mutations[..i + 1][..i] == mutations[..i];
        if key in touched {
          ghost var m :| m in mutations[..i] && m.after.key == key;
          ghost var j :| 0 <= j < i && mutations[..i][j] == m;
          assert mutations[j].after.key == mutations[i].after.key;
          return false;
        }
        forall j | 0 <= j < i ensures mutations[j].after.key != key {
          assert mutations[..i][j] in mutations[..i];
        }
        written := UpsertOne(written, mutations[i], ids);
        touched := touched + {key};
      }
      assert mutations[..|mutations|] == mutations;
      rails := written;
      ok := true;
    }

    /** An event without a rail ID is an error, and then nothing is inserted. */
    method InsertEvents(batch: seq<Event>) returns (ok: bool)
      modifies this`events
      ensures ok <==> forall e <- batch :: e.railID != 0
      ensures events == if ok then old(events) + batch else old(events)
    {
      for i := 0 to |batch|
        invariant forall j :: 0 <= j < i ==> batch[j].railID != 0
        invariant events == old(events)
      {
        if batch[i].railID == 0 {
          return false;
        }
      }
      events := events + batch;
      ok := true;
    }
  }

  lemma LoadOneMore(previous: seq<Rail>, wanted: map<Key, Rail>, rest: set<Key>, key: Key)
    requires OwnKeys(wanted) && key in rest && rest <= wanted.Keys
    requires DistinctRails(previous) && ByKey(previous) == wanted - rest
    ensures DistinctRails(previous + [wanted[key]])
    ensures ByKey(previous + [wanted[key]]) == wanted - (rest - {key})
  {
    var rail := wanted[key];
    ByKeyHas(previous);
    ByKeyOneMore(previous, rail);
    assert (wanted - rest)[key := rail] == wanted - (rest - {key});
  }

  lemma ByKeyOneMore(rails: seq<Rail>, rail: Rail)
    requires DistinctRails(rails) && rail.key !in ByKey(rails)
    ensures DistinctRails(rails + [rail])
    ensures ByKey(rails + [rail]) == ByKey(rails)[rail.key := rail]
  {
    ByKeyHas(rails);
    assert (rails + [rail])[..|rails|] == rails;
    forall i | 0 <= i < |rails| ensures rails[i].key != rail.key {
      assert rails[i] in rails;
    }
  }

  /** Rails are written before events; the events of a failed rail write are never inserted. */
  method Apply(tables: Tables, changes: Changes) returns (ok: bool)
    modifies tables`rails, tables`events
    ensures ok <==> DistinctMutations(changes.rails) && forall e <- changes.events :: e.railID != 0
    ensures tables.rails == if DistinctMutations(changes.rails)
            then Upsert(old(tables.rails), changes.rails, tables.ids) else old(tables.rails)
    ensures tables.events == if ok then old(tables.events) + changes.events else old(tables.events)
  {
    if |changes.rails| > 0 {
      ok := tables.UpsertRails(changes.rails);
      if !ok {
        return false;
      }
    }
    if |changes.events| > 0 {
      ok := tables.InsertEvents(changes.events);
      return ok;
    }
    ok := true;
  }

  class Runner {
    var engine: Engine?
    const tables: Tables

    constructor (tables: Tables)
      ensures this.tables == tables && engine == null && Limited() == Options(3, 6)
    {
      this.tables := tables;
      engine := null;
    }

    function Owned(): set<object>
      reads this
    {
      if engine == null then {} else {engine}
    }

    function Limited(): Limits
      reads this, engine
    {
      if engine == null then WithDefaults(Options(0, 0)) else WithDefaults(engine.opts)
    }

    function Current(): World
      reads this, engine, tables
    {
      World(tables.rails, if engine == null then NOTHING_PENDING else engine.Waiting(), tables.events)
    }

    /** The engine shared by all exchanges, created with default options when there is none. */
    method Diff(previous: seq<Rail>, poll: Poll) returns (result: Result<Changes, DiffError>)
      modifies this`engine, Owned()
      ensures engine != null
      ensures (old(engine) == null ==> fresh(engine)) && (old(engine) != null ==> engine == old(engine))
      ensures Limited() == old(Limited())
      ensures result.Ok? <==> DistinctRails(previous) && DistinctKeys(poll.observations)
      ensures result.Err? ==>
                Refuses(Limited(), previous, poll, old(Current()).pending, engine.Waiting(), result.error)
      ensures result.Ok? ==>
                Progress(engine.Waiting(), result.value)
                  == Process(EngineOf(Limited()), ByKey(previous), old(Current()).pending, Notes(ByKey(previous), poll))
    {
      if engine == null {
        engine := new Engine(Options(0, 0));
      }
      result := engine.Diff(previous, poll);
    }

    /** Diffs a poll against the stored rails of its exchange. Nothing is written yet. */
    method DiffStored(exchange: int, poll: Poll) returns (result: Result<Changes, DiffError>)
      requires tables.Valid() && DistinctKeys(poll.observations)
      modifies this`engine, Owned()
      ensures Limited() == old(Limited()) && engine != null
      ensures (old(engine) == null ==> fresh(engine)) && (old(engine) != null ==> engine == old(engine))
      ensures var prev := Previous(tables.rails, exchange);
              result.Ok? &&
              Progress(Current().pending, result.value) ==
                    Process(EngineOf(Limited()), prev, old(Current()).pending, Notes(prev, poll))
    {
      var previous := tables.LoadPreviousRails(exchange);
      result := Diff(previous, poll);
    }

    /** One poll of one exchange. It always succeeds, and moves the whole system by one step: the merged
        snapshots are the poll, and rails, pending entries and event log are those of the specification. */
    method RunAdapter(exchange: int, snapshots: seq<NormalizedRail>, complete: bool, now: Time)
      returns (ok: bool, ghost poll: Poll)
      requires tables.Valid()
      modifies this`engine, Owned(), tables`rails, tables`events
      ensures ok && tables.Valid() && Limited() == old(Limited())
      ensures poll.complete == complete && poll.observedAt == now
      ensures MergedPoll(snapshots, now, poll.observations) && DistinctKeys(poll.observations)
      ensures Current() == Happen(Limited(), tables.ids, old(Current()), Cycle(exchange, poll))
    {
      var observations := MergedObservations(snapshots, now);
      poll := Poll(observations, complete, now);
      ok := RunPoll(exchange, Poll(observations, complete, now));
    }

    /** Diffs and writes one poll. */
    method RunPoll(exchange: int, poll: Poll) returns (ok: bool)
      requires tables.Valid() && DistinctKeys(poll.observations)
      modifies this`engine, Owned(), tables`rails, tables`events
      ensures ok && tables.Valid() && Limited() == old(Limited())
      ensures Current() == Happen(Limited(), tables.ids, old(Current()), Cycle(exchange, poll))
    {
      ghost var before := Current();
      var result := DiffStored(exchange, poll);
      if result.Err? {
        return false;
      }
      DiffCanBeWritten(Limited(), before, exchange, poll, tables.ids, result.value);
      ok := Apply(tables, result.value);
    }
  }

  /** What a diff produces can be written, and leaves the tables as they should be. */
  lemma DiffCanBeWritten(o: Limits, w: World, exchange: int, poll: Poll, ids: IDs, c: Changes)
    requires OwnKeys(w.rails) && (forall k <- w.rails :: w.rails[k].id != 0) && (forall k :: ids(k) != 0)
    requires DistinctKeys(poll.observations)
    requires c == Process(EngineOf(o), Previous(w.rails, exchange), w.pending,
                          Notes(Previous(w.rails, exchange), poll)).changes
    ensures && DistinctMutations(c.rails)
            && (forall e <- c.events :: e.railID != 0)
            && OwnKeys(Upsert(w.rails, c.rails, ids))
            && (forall k <- Upsert(w.rails, c.rails, ids) :: Upsert(w.rails, c.rails, ids)[k].id != 0)
  {
    var prev := Previous(w.rails, exchange);
    DiffIsSafeToApply(o, prev, w.pending, poll);
    UpsertKeepsOwnKeys(w.rails, c.rails, ids);
    UpsertKeepsIDs(w.rails, c.rails, ids);
  }

  lemma {:induction false} UpsertKeepsIDs(rails: map<Key, Rail>, mutations: seq<RailMutation>, ids: IDs)
    requires (forall k <- rails :: rails[k].id != 0) && (forall k :: ids(k) != 0)
    ensures forall k <- Upsert(rails, mutations, ids) :: Upsert(rails, mutations, ids)[k].id != 0
  {
    if mutations != [] {
      UpsertKeepsIDs(rails, mutations[..|mutations| - 1], ids);
    }
  }
}
