/** The diff engine as it runs (internal/diff/engine.go): two pending maps updated in place while
    mutations and events are collected. Each method is proved against the per-key machine. */
module DiffEngine {
  import opened RailTypes
  import opened RailMachine
  import opened Sequences
  import opened PollDiff

  datatype DiffError = DuplicatePrevious(key: Key) | DuplicateObservation(key: Key)

  /** The mutations and events collected during one call of Diff. */
  class Collector {
    var rails: seq<RailMutation>
    var events: seq<Event>

    constructor ()
      ensures Collected() == Changes([], [])
    {
      rails, events := [], [];
    }

    function Collected(): Changes
      reads this
    {
      Changes(rails, events)
    }

    method AddUpdate(before: Rail, after: Rail)
      modifies this`rails
      ensures rails == old(rails) + (if UpdateIfChanged(before, after).Some? then [Update(before, after)] else [])
    {
      if !RailsEqual(before, after) {
        rails := rails + [Update(before, after)];
      }
    }

    method AddEvent(kind: EventType, before: Rail, after: Rail, at: Time)
      modifies this`events
      ensures events == old(events) + [NewEvent(kind, before, after, at)]
    {
      events := events + [NewEvent(kind, before, after, at)];
    }
  }

  /** The rails by key; the last one wins, but repeated keys are refused before this is used. */
  function ByKey(rails: seq<Rail>): map<Key, Rail> {
    if rails == [] then map[] else ByKey(rails[..|rails| - 1])[rails[|rails| - 1].key := rails[|rails| - 1]]
  }

  predicate DistinctRails(rails: seq<Rail>) {
    forall i, j :: 0 <= i < j < |rails| ==> rails[i].key != rails[j].key
  }

  lemma {:induction false} ByKeyHas(rails: seq<Rail>)
    ensures OwnKeys(ByKey(rails))
    ensures forall k :: k in ByKey(rails) <==> exists r <- rails :: r.key == k
    ensures DistinctRails(rails) ==> forall r <- rails :: ByKey(rails)[r.key] == r
  {
    if rails != [] {
      var front, last := rails[..|rails| - 1], rails[|rails| - 1];
      ByKeyHas(front);
      assert rails == front + [last];
    }
  }

  /** The order the stored rails come in does not matter. */
  lemma PreviousOrderIsIrrelevant(rails: seq<Rail>, rails': seq<Rail>)
    requires DistinctRails(rails) && DistinctRails(rails') && forall r :: r in rails <==> r in rails'
    ensures ByKey(rails) == ByKey(rails')
  {
    ByKeyHas(rails);
    ByKeyHas(rails');
    forall k ensures k in ByKey(rails) <==> k in ByKey(rails') {
    }
    forall k | k in ByKey(rails) ensures ByKey(rails)[k] == ByKey(rails')[k] {
      var r :| r in rails && r.key == k;
      assert r in rails';
    }
  }

  method RailsByKey(rails: seq<Rail>) returns (result: Result<map<Key, Rail>, DiffError>)
    ensures result.Ok? <==> DistinctRails(rails)
    ensures result.Ok? ==> result.value == ByKey(rails)
    ensures result.Err? ==> result.error.DuplicatePrevious?
  {
    var byKey: map<Key, Rail> := map[];
    for i := 0 to |rails|
      invariant DistinctRails(rails[..i]) && byKey == ByKey(rails[..i])
    {
      ghost var front := rails[..i];
      assert rails[..i + 1] == front + [rails[i]] && rails[..i + 1][..i] == front;
      ByKeyHas(front);
      if rails[i].key in byKey {
        ghost var r :| r in front && r.key == rails[i].key;
        ghost var j :| 0 <= j < i && front[j] == r;
        assert rails[j].key == rails[i].key;
        return Err(DuplicatePrevious(rails[i].key));
      }
      forall j | 0 <= j < i ensures rails[j].key != rails[i].key {
        assert front[j] in front;
      }
      byKey := byKey[rails[i].key := rails[i]];
    }
    assert rails[..|rails|] == rails;
    return Ok(byKey);
  }

  function Insertion(keys: seq<Key>, k: Key): seq<Key> {
    if keys == [] || KeyLess(k, keys[0]) then [k] + keys else [keys[0]] + Insertion(keys[1..], k)
  }

  lemma {:induction false} InsertionSorts(keys: seq<Key>, k: Key)
    requires Increasing(keys) && k !in keys
    ensures Increasing(Insertion(keys, k))
    ensures forall j :: j in Insertion(keys, k) <==> j in keys || j == k
  {
    if keys != [] && !KeyLess(k, keys[0]) {
      assert k != keys[0];
      assert keys == [keys[0]] + keys[1..];
      InsertionSorts(keys[1..], k);
      forall j | j in Insertion(keys[1..], k) ensures KeyLess(keys[0], j) {
        if j != k {
          TailMembers(keys, j);
        }
      }
    }
  }

  /** The absent keys, collected in whatever order the map gives them and then sorted. */
  method SortedAbsentKeys(previous: map<Key, Rail>, seen: set<Key>) returns (keys: seq<Key>)
    ensures keys == SortedKeys(previous.Keys - seen)
    ensures forall k :: k in keys <==> k in previous && k !in seen
    ensures forall i, j :: 0 <= i < j < |keys| ==> Precedes(keys[i], keys[j])
  {
    keys := [];
    var rest := previous.Keys;
    while rest != {}
      invariant rest <= previous.Keys
      invariant Increasing(keys)
      invariant forall k :: k in keys <==> k in previous.Keys - seen - rest
      decreases rest
    {
      var key :| key in rest;
      if key !in seen {
        InsertionSorts(keys, key);
        keys := Insertion(keys, key);
      }
      rest := rest - {key};
    }
    IncreasingIsUnique(keys, SortedKeys(previous.Keys - seen));
  }

  /** How a refused poll ends: a repeated stored rail changes nothing; a repeated observation is named, and
      the pending entries are those of the observations before it. */
  ghost predicate Refuses(o: Limits, previous: seq<Rail>, poll: Poll, before: Pending, after: Pending,
                          error: DiffError)
  {
    if !DistinctRails(previous) then error.DuplicatePrevious? && after == before
    else
      exists i :: 0 <= i < |poll.observations|
        && DistinctKeys(poll.observations[..i])
        && poll.observations[i].key in ObservedKeys(poll.observations[..i])
        && error == DuplicateObservation(poll.observations[i].key)
        && after == Process(EngineOf(o), ByKey(previous), before, PresentNotes(poll, poll.observations[..i])).pending
  }

  class Engine {
    var opts: Options
    var baseline: map<Key, PendingBaseline>
    var status: map<Key, PendingStatus>

    constructor (opts: Options)
      ensures this.opts.confirmationsRequired
           == if opts.confirmationsRequired > 0 then opts.confirmationsRequired else 3
      ensures this.opts.delistThreshold == if opts.delistThreshold > 0 then opts.delistThreshold else 6
      ensures WithDefaults(this.opts) == this.opts && Waiting() == NOTHING_PENDING
    {
      this.opts := WithDefaults(opts);
      baseline, status := map[], map[];
    }

    function Waiting(): Pending
      reads this
    {
      Pending(baseline, status)
    }

    /** What the engine knows of a stored rail. */
    function Known(prev: Rail): KeyState
      reads this
    {
      KeyState(Some(prev), Lookup(baseline, prev.key), Lookup(status, prev.key))
    }

    method InsertInitial(result: Collector, obs: Observation)
      modifies this`baseline, this`status, result
      ensures Waiting() == Absorb(old(Waiting()), obs.key, Inserted(obs))
      ensures result.Collected() == Append(old(result.Collected()), Inserted(obs))
    {
      var after := RailFromObservation(obs);
      after := after.(isActive := true, isInitial := true, missingCount := 0, missingSince := None);
      result.rails := result.rails + [Insert(after)];
      baseline := baseline[obs.key := PendingBaseline(obs.Reported(), 1)];
      status := status - {obs.key};
    }

    /** Counts an observation towards the baseline of an initial rail. */
    method ConfirmBaseline(key: Key, target: Status, opts: Limits) returns (done: bool)
      modifies this`baseline
      ensures var p := Confirmed(Lookup(old(baseline), key), target);
              done == (p.count >= opts.confirmationsRequired) &&
              baseline == Put(old(baseline), key, if done then None else Some(p))
    {
      var pending := if key in baseline then baseline[key] else PendingBaseline(Status(false, false), 0);
      if pending.target != target {
        pending := PendingBaseline(target, 0);
      }
      pending := pending.(count := pending.count + 1);
      done := pending.count >= opts.confirmationsRequired;
      if done {
        baseline := baseline - {key};
      } else {
        baseline := baseline[key := pending];
      }
    }

    method HandleInitial(result: Collector, prev: Rail, obs: Observation, opts: Limits)
      modifies this`baseline, this`status, result
      ensures Waiting() == Absorb(old(Waiting()), prev.key, SeenInitial(opts, prev, old(Known(prev)).baseline, obs))
      ensures result.Collected() ==
                Append(old(result.Collected()), SeenInitial(opts, prev, old(Known(prev)).baseline, obs))
    {
      var done := ConfirmBaseline(prev.key, obs.Reported(), opts);
      status := status - {prev.key};
      var after := ApplyObservation(prev, obs, true);
      after := after.(isActive := prev.isActive, isInitial := !done, missingCount := 0, missingSince := None);
      result.AddUpdate(prev, after);
    }

    method HandleRelisted(result: Collector, prev: Rail, obs: Observation)
      modifies this`baseline, this`status, result
      ensures Waiting() == Absorb(old(Waiting()), prev.key, Relisted(prev, obs))
      ensures result.Collected() == Append(old(result.Collected()), Relisted(prev, obs))
    {
      baseline, status := baseline - {prev.key}, status - {prev.key};
      var after := ApplyObservation(prev, obs, true);
      after := after.(isActive := true, isInitial := false, missingCount := 0, missingSince := None);
      result.AddUpdate(prev, after);
      result.AddEvent(RailRelisted, prev, after, obs.observedAt);
    }

    /** Counts an observation towards a status change; answers with the change it completes, if any. */
    method ConfirmStatus(prev: Rail, obs: Observation, opts: Limits) returns (commit: Option<PendingStatus>)
      modifies this`status
      ensures var p := Streaked(Lookup(old(status), prev.key), obs);
              var differs := obs.Reported() != prev.Committed();
              commit == (if differs && p.count >= opts.confirmationsRequired then Some(p) else None) &&
              status == Put(old(status), prev.key, if differs && commit.None? then Some(p) else None)
    {
      commit := None;
      var target := obs.Reported();
      if target == prev.Committed() {
        status := status - {prev.key};
      } else {
        var pending := PendingStatus(target, 0, obs.observedAt);
        if prev.key in status && status[prev.key].target == target {
          pending := status[prev.key];
        }
        pending := pending.(count := pending.count + 1);
        if pending.count >= opts.confirmationsRequired {
          commit := Some(pending);
          status := status - {prev.key};
        } else {
          status := status[prev.key := pending];
        }
      }
    }

    method HandleActive(result: Collector, prev: Rail, obs: Observation, opts: Limits)
      modifies this`status, result
      ensures Waiting() == Absorb(old(Waiting()), prev.key, SeenActive(opts, old(Known(prev)), prev, obs))
      ensures result.Collected() == Append(old(result.Collected()), SeenActive(opts, old(Known(prev)), prev, obs))
    {
      ghost var known := Known(prev);
      var commit := ConfirmStatus(prev, obs, opts);
      KeepsEntry(baseline, prev.key);
      var after := ApplyObservation(prev, obs, false);
      after := after.(missingCount := 0, missingSince := None, isActive := true, isInitial := false);
      if commit.Some? {
        after := ApplyStatus(after, commit.value.target, commit.value.firstObservedAt);
      }
      var statusEvents := if commit.Some? then StatusChangeEvents(prev, after) else [];
      ActiveOutcome(prev, known, obs, opts, after, statusEvents);
      EmitChanges(result, prev, after, obs, statusEvents);
    }

    method EmitChanges(result: Collector, prev: Rail, after: Rail, obs: Observation, statusEvents: seq<EventType>)
      modifies result
      ensures var at := obs.observedAt;
              result.Collected() == Append(old(result.Collected()),
                Outcome(None, None, UpdateIfChanged(prev, after),
                        EventsOf(statusEvents, prev, after, at)
                        + (if FeeDiffers(prev, obs) then [NewEvent(FeeChanged, prev, after, at)] else [])
                        + (if MinDiffers(prev, obs) then [NewEvent(MinChanged, prev, after, at)] else [])))
    {
      result.AddUpdate(prev, after);
      EmitAll(result, statusEvents, prev, after, obs.observedAt);
      if FeeDiffers(prev, obs) {
        result.AddEvent(FeeChanged, prev, after, obs.observedAt);
      }
      if MinDiffers(prev, obs) {
        result.AddEvent(MinChanged, prev, after, obs.observedAt);
      }
    }

    method HandlePresent(result: Collector, prev: Rail, obs: Observation, complete: bool, opts: Limits)
      modifies this`baseline, this`status, result
      ensures Waiting() == Absorb(old(Waiting()), prev.key, Present(opts, old(Known(prev)), prev, obs, complete))
      ensures result.Collected() ==
                Append(old(result.Collected()), Present(opts, old(Known(prev)), prev, obs, complete))
    {
      if !prev.isInitial && !prev.isActive && complete {
        HandleRelisted(result, prev, obs);
      } else if prev.isInitial {
        HandleInitial(result, prev, obs, opts);
      } else if !prev.isActive {
        KeepsEntry(baseline, prev.key);
        KeepsEntry(status, prev.key);
        result.AddUpdate(prev, ApplyObservation(prev, obs, true));
      } else {
        HandleActive(result, prev, obs, opts);
      }
    }

    method HandleAbsent(result: Collector, prev: Rail, at: Time, opts: Limits)
      modifies this`baseline, this`status, result
      ensures Waiting() == Absorb(old(Waiting()), prev.key, Absent(opts, prev, at))
      ensures result.Collected() == Append(old(result.Collected()), Absent(opts, prev, at))
    {
      baseline, status := baseline - {prev.key}, status - {prev.key};
      var after := prev.(missingCount := prev.missingCount + 1);
      if prev.isActive && after.missingCount >= opts.delistThreshold {
        after := after.(isActive := false, missingSince := Some(at));
      }
      if RailsEqual(prev, after) {
        return;
      }
      result.AddUpdate(prev, after);
      if prev.isActive && !after.isActive && !prev.isInitial {
        result.AddEvent(RailDelisted, prev, after, at);
      }
    }

    /** One poll. Repeated stored rails are refused before anything changes; a repeated observation is
        refused when it is met, after the earlier ones have already updated the pending maps. */
    method Diff(previous: seq<Rail>, current: Poll) returns (result: Result<Changes, DiffError>)
      modifies this`baseline, this`status
      ensures result.Ok? <==> DistinctRails(previous) && DistinctKeys(current.observations)
      ensures result.Ok? ==>
                var m := EngineOf(WithDefaults(opts));
                var d := Process(m, ByKey(previous), old(Waiting()), Notes(ByKey(previous), current));
                Waiting() == d.pending && result.value == d.changes
      ensures result.Err? ==> Refuses(WithDefaults(opts), previous, current, old(Waiting()), Waiting(), result.error)
    {
      var opts := WithDefaults(this.opts);
      var byKey := RailsByKey(previous);
      if byKey.Err? {
        return Err(byKey.error);
      }
      var prevByKey := byKey.value;
      ByKeyHas(previous);
      var collector := new Collector();
      var seen := Observe(collector, prevByKey, current, opts);
      if seen.Err? {
        return Err(seen.error);
      }
      ghost var present := PresentNotes(current, current.observations);
      assert present + [] == present;
      if current.complete {
        var absent := SortedAbsentKeys(prevByKey, seen.value);
        Sweep(collector, prevByKey, absent, current.observedAt, opts, old(Waiting()), present);
      }
      return Ok(collector.Collected());
    }

    /** One observation of a poll moves its key as the key's own machine does. */
    method ObserveOne(collector: Collector, prevByKey: map<Key, Rail>, obs: Observation, complete: bool, opts: Limits)
      requires OwnKeys(prevByKey)
      modifies this`baseline, this`status, collector
      ensures var out := EngineOf(opts)(At(prevByKey, old(Waiting()), obs.key), Seen(obs, complete));
              Waiting() == Absorb(old(Waiting()), obs.key, out)
                  && collector.Collected() == Append(old(collector.Collected()), out)
    {
      PresentReacts(opts, prevByKey, Waiting(), obs, complete);
      if obs.key in prevByKey {
        assert Known(prevByKey[obs.key]) == At(prevByKey, Waiting(), obs.key);
        HandlePresent(collector, prevByKey[obs.key], obs, complete, opts);
      } else {
        InsertInitial(collector, obs);
      }
    }

    /** One absent key moves as the key's own machine does. */
    method SweepOne(collector: Collector, prevByKey: map<Key, Rail>, key: Key, at: Time, opts: Limits)
      requires OwnKeys(prevByKey) && key in prevByKey
      modifies this`baseline, this`status, collector
      ensures var out := EngineOf(opts)(At(prevByKey, old(Waiting()), key), Missed(at));
              Waiting() == Absorb(old(Waiting()), key, out)
                  && collector.Collected() == Append(old(collector.Collected()), out)
    {
      AbsentReacts(opts, prevByKey, Waiting(), key, at);
      HandleAbsent(collector, prevByKey[key], at, opts);
    }

    /** The loop over the observations of a poll; it answers with the keys it has seen. */
    method Observe(collector: Collector, prevByKey: map<Key, Rail>, current: Poll, opts: Limits)
      returns (result: Result<set<Key>, DiffError>)
      requires OwnKeys(prevByKey) && collector.Collected() == Changes([], [])
      modifies this`baseline, this`status, collector
      ensures result.Ok? <==> DistinctKeys(current.observations)
      ensures result.Ok? ==>
                && result.value == ObservedKeys(current.observations)
                && Progress(Waiting(), collector.Collected())
                     == Process(EngineOf(opts), prevByKey, old(Waiting()), PresentNotes(current, current.observations))
      ensures result.Err? ==>
                exists i :: 0 <= i < |current.observations|
                  && DistinctKeys(current.observations[..i])
                  && current.observations[i].key in ObservedKeys(current.observations[..i])
                  && result == Err(DuplicateObservation(current.observations[i].key))
                  && Waiting() == Process(EngineOf(opts), prevByKey, old(Waiting()),
                                          PresentNotes(current, current.observations[..i])).pending
    {
      ghost var m, waiting := EngineOf(opts), Waiting();
      ghost var done := Progress(waiting, Changes([], []));
      var seen: set<Key> := {};
      for i := 0 to |current.observations|
        invariant seen == ObservedKeys(current.observations[..i])
        invariant DistinctKeys(current.observations[..i])
        invariant done == Process(m, prevByKey, waiting, PresentNotes(current, current.observations[..i]))
        invariant Waiting() == done.pending && collector.Collected() == done.changes
      {
        if current.observations[i].key in seen {
          SeenTwice(current.observations, i);
          return Err(DuplicateObservation(current.observations[i].key));
        }
        SeenOnce(current.observations, i);
        seen := seen + {current.observations[i].key};
        var obs := Timed(current.observations[i], current);
        ghost var out := m(At(prevByKey, done.pending, obs.key), Seen(obs, current.complete));
        PresentStep(m, prevByKey, waiting, current, i);
        ObserveOne(collector, prevByKey, obs, current.complete, opts);
        done := Progress(Absorb(done.pending, obs.key, out), Append(done.changes, out));
      }
      assert current.observations[..|current.observations|] == current.observations;
      return Ok(seen);
    }

    /** The loop over the stored keys that a complete poll does not mention; `notes` is what the poll
        has brought so far. */
    method Sweep(collector: Collector, prevByKey: map<Key, Rail>, absent: seq<Key>, at: Time, opts: Limits,
                 ghost waiting: Pending, ghost notes: seq<Note>)
      requires OwnKeys(prevByKey) && forall k <- absent :: k in prevByKey
      requires Progress(Waiting(), collector.Collected()) == Process(EngineOf(opts), prevByKey, waiting, notes)
      modifies this`baseline, this`status, collector
      ensures Progress(Waiting(), collector.Collected())
                == Process(EngineOf(opts), prevByKey, waiting, notes + AbsentNotes(at, absent))
    {
      ghost var m := EngineOf(opts);
      ghost var done := Progress(Waiting(), collector.Collected());
      assert notes + AbsentNotes(at, absent[..0]) == notes;
      for i := 0 to |absent|
        invariant done == Process(m, prevByKey, waiting, notes + AbsentNotes(at, absent[..i]))
        invariant Waiting() == done.pending && collector.Collected() == done.changes
      {
        ghost var out := m(At(prevByKey, done.pending, absent[i]), Missed(at));
        AbsentStep(m, prevByKey, waiting, notes, at, absent, i);
        assert absent[i] in absent;
        SweepOne(collector, prevByKey, absent[i], at, opts);
        done := Progress(Absorb(done.pending, absent[i], out), Append(done.changes, out));
      }
      assert absent[..|absent|] == absent;
    }
  }

  lemma AbsentReacts(o: Limits, rails: map<Key, Rail>, p: Pending, k: Key, at: Time)
    requires k in rails
    ensures EngineOf(o)(At(rails, p, k), Missed(at)) == Absent(o, rails[k], at)
  {
  }

  lemma PresentReacts(o: Limits, rails: map<Key, Rail>, p: Pending, obs: Observation, complete: bool)
    ensures EngineOf(o)(At(rails, p, obs.key), Seen(obs, complete)) ==
              if obs.key in rails then Present(o, At(rails, p, obs.key), rails[obs.key], obs, complete)
              else Inserted(obs)
  {
  }

  method EmitAll(result: Collector, kinds: seq<EventType>, before: Rail, after: Rail, at: Time)
    modifies result`events
    ensures result.events == old(result.events) + EventsOf(kinds, before, after, at)
  {
    for i := 0 to |kinds|
      invariant |result.events| == |old(result.events)| + i
      invariant result.events[..|old(result.events)|] == old(result.events)
      invariant forall j :: 0 <= j < i ==>
                  result.events[|old(result.events)| + j] == NewEvent(kinds[j], before, after, at)
    {
      result.AddEvent(kinds[i], before, after, at);
    }
  }

  /** The outcome for a settled rail in terms of the rail and the status events that the handler builds. */
  lemma ActiveOutcome(prev: Rail, known: KeyState, obs: Observation, opts: Limits, after: Rail,
                      statusEvents: seq<EventType>)
    requires var p := Streaked(known.status, obs);
             var commit := obs.Reported() != prev.Committed() && p.count >= opts.confirmationsRequired;
             && after == Refreshed(prev, obs, if commit then Some(p) else None)
             && statusEvents == if commit then StatusChangeEvents(prev, after) else []
    ensures var p := Streaked(known.status, obs);
            var differs := obs.Reported() != prev.Committed();
            var at := obs.observedAt;
            SeenActive(opts, known, prev, obs)
              == Outcome(known.baseline,
                         if differs && p.count < opts.confirmationsRequired then Some(p) else None,
                         UpdateIfChanged(prev, after),
                         EventsOf(statusEvents, prev, after, at)
                         + (if FeeDiffers(prev, obs) then [NewEvent(FeeChanged, prev, after, at)] else [])
                         + (if MinDiffers(prev, obs) then [NewEvent(MinChanged, prev, after, at)] else []))
  {
  }

  lemma KeepsEntry<V>(m: map<Key, V>, k: Key)
    ensures Put(m, k, Lookup(m, k)) == m
  {
  }

  lemma ProcessSnoc(m: Machine, rails: map<Key, Rail>, p: Pending, notes: seq<Note>, n: Note)
    ensures var done := Process(m, rails, p, notes);
            var out := m(At(rails, done.pending, n.key), n.sig);
            Process(m, rails, p, notes + [n]) == Progress(Absorb(done.pending, n.key, out), Append(done.changes, out))
  {
    assert (notes + [n])[..|notes|] == notes;
  }

  lemma PresentStep(m: Machine, rails: map<Key, Rail>, p: Pending, poll: Poll, i: nat)
    requires i < |poll.observations|
    ensures var obs := poll.observations;
            var done := Process(m, rails, p, PresentNotes(poll, obs[..i]));
            var out := m(At(rails, done.pending, obs[i].key), Seen(Timed(obs[i], poll), poll.complete));
            Process(m, rails, p, PresentNotes(poll, obs[..i + 1]))
              == Progress(Absorb(done.pending, obs[i].key, out), Append(done.changes, out))
  {
    var obs := poll.observations;
    assert obs[..i + 1][..i] == obs[..i];
    ProcessSnoc(m, rails, p, PresentNotes(poll, obs[..i]), Note(obs[i].key, Seen(Timed(obs[i], poll), poll.complete)));
  }

  lemma AbsentStep(m: Machine, rails: map<Key, Rail>, p: Pending, notes: seq<Note>, at: Time, keys: seq<Key>, i: nat)
    requires i < |keys|
    ensures var done := Process(m, rails, p, notes + AbsentNotes(at, keys[..i]));
            var out := m(At(rails, done.pending, keys[i]), Missed(at));
            Process(m, rails, p, notes + AbsentNotes(at, keys[..i + 1]))
              == Progress(Absorb(done.pending, keys[i], out), Append(done.changes, out))
  {
    var n := Note(keys[i], Missed(at));
    assert keys[..i + 1][..i] == keys[..i];
    assert notes + (AbsentNotes(at, keys[..i]) + [n]) == (notes + AbsentNotes(at, keys[..i])) + [n];
    ProcessSnoc(m, rails, p, notes + AbsentNotes(at, keys[..i]), n);
  }

  lemma SeenTwice(obs: seq<Observation>, i: nat)
    requires i < |obs| && obs[i].key in ObservedKeys(obs[..i])
    ensures !DistinctKeys(obs)
  {
    var ob :| ob in obs[..i] && ob.key == obs[i].key;
    var j :| 0 <= j < i && obs[..i][j] == ob;
    assert obs[j].key == obs[i].key;
  }

  lemma SeenOnce(obs: seq<Observation>, i: nat)
    requires i < |obs| && DistinctKeys(obs[..i]) && obs[i].key !in ObservedKeys(obs[..i])
    ensures DistinctKeys(obs[..i + 1])
    ensures ObservedKeys(obs[..i + 1]) == ObservedKeys(obs[..i]) + {obs[i].key}
  {
    assert obs[..i + 1] == obs[..i] + [obs[i]];
    forall j | 0 <= j < i ensures obs[j].key != obs[i].key {
      assert obs[..i][j] in obs[..i];
    }
  }
}
