/** What the result of one `Diff` may be relied on for: it can be written as it is. */
module PollSafety {
  import opened RailTypes
  import opened RailMachine
  import opened Sequences
  import opened PollDiff
  import opened RailData
  import opened RailTable

  /** The event records exactly the step from the mutation's Before to its After. */
  predicate Records(e: Event, m: RailMutation) {
    m.Update? && e.key == m.after.key && e.railID == m.before.id &&
    e.before == StateFromRail(m.before) && e.after == StateFromRail(m.after)
  }

  /** A mutation that fits the stored rails: an insert of an unknown key, or a real change of the row. */
  predicate Fits(rails: map<Key, Rail>, m: RailMutation) {
    match m
    case Insert(after) => after.key !in rails
    case Update(before, after) =>
      after.key in rails && before == rails[after.key] && before != after && after.id == before.id
  }

  ghost predicate SafeToApply(rails: map<Key, Rail>, c: Changes) {
    && (forall i, j :: 0 <= i < j < |c.rails| ==> c.rails[i].after.key != c.rails[j].after.key)
    && (forall m <- c.rails :: Fits(rails, m))
    && (forall e <- c.events :: exists m <- c.rails :: Records(e, m))
  }

  /** An outcome whose mutation fits the key's stored rail and whose events record it. */
  predicate SafeOutcome(s: KeyState, out: Outcome) {
    && (out.mutation.Some? ==>
          match out.mutation.value
          case Insert(_) => s.rail.None?
          case Update(before, after) =>
            s.rail == Some(before) && before != after && after.id == before.id && after.key == before.key)
    && (forall e <- out.events :: out.mutation.Some? && Records(e, out.mutation.value))
  }

  lemma ReactIsSafe(o: Limits, s: KeyState, sig: Signal)
    ensures SafeOutcome(s, React(o, s, sig))
    ensures sig.Seen? && s.rail.None? ==> React(o, s, sig).mutation.Some?
  {
    if sig.Seen? && s.Stable() {
      ActiveIsSafe(o, s, sig.obs);
    }
  }

  lemma ActiveIsSafe(o: Limits, s: KeyState, obs: Observation)
    requires s.Stable()
    ensures var out := SeenActive(o, s, s.rail.value, obs);
            out.events != [] ==> out.mutation.Some?
  {
    var prev := s.rail.value;
    var p := Streaked(s.status, obs);
    var commit := obs.Reported() != prev.Committed() && p.count >= o.confirmationsRequired;
    var after := Refreshed(prev, obs, if commit then Some(p) else None);
    assert commit ==> after.Committed() != prev.Committed();
    assert !commit && !FeeDiffers(prev, obs) && !MinDiffers(prev, obs) ==> ChangeKinds(prev, after, obs, commit) == [];
  }

  lemma {:induction false} FilterTwo<T>(s: seq<T>, keep: T -> bool, i: nat, j: nat)
    requires i < j < |s| && keep(s[i]) && keep(s[j])
    ensures |Filter(s, keep)| >= 2
  {
    FilterConcat(s[..i + 1], s[i + 1..], keep);
    assert s == s[..i + 1] + s[i + 1..];
    FilterMembers(s[..i + 1], keep);
    FilterMembers(s[i + 1..], keep);
    assert s[i] == s[..i + 1][i] && s[j] == s[i + 1..][j - i - 1];
    assert s[i] in Filter(s[..i + 1], keep) && s[j] in Filter(s[i + 1..], keep);
  }

  /** What is safe about the changes of one key. */
  ghost predicate SafeAt(rails: map<Key, Rail>, c: Changes, k: Key) {
    && |MutationsFor(c.rails, k)| <= 1
    && (forall m <- MutationsFor(c.rails, k) :: Fits(rails, m))
    && (forall e <- EventsFor(c.events, k) :: MutationsFor(c.rails, k) != [] && Records(e, MutationsFor(c.rails, k)[0]))
  }

  lemma OutcomeMakesSafe(rails: map<Key, Rail>, c: Changes, k: Key, s: KeyState, out: Outcome)
    requires OwnKeys(rails) && s.rail == Lookup(rails, k)
    requires SafeOutcome(s, out) && OutcomeOf(out, k)
    requires MutationsFor(c.rails, k) == if out.mutation.Some? then [out.mutation.value] else []
    requires EventsFor(c.events, k) == out.events
    ensures SafeAt(rails, c, k)
    ensures k !in rails && out.mutation.Some? ==> MutationsFor(c.rails, k) != [] && MutationsFor(c.rails, k)[0].Insert?
  {
  }

  lemma KeyIsSafe(o: Limits, rails: map<Key, Rail>, p: Pending, poll: Poll, k: Key)
    requires DistinctKeys(poll.observations) && OwnKeys(rails)
    ensures var c := Process(EngineOf(o), rails, p, Notes(rails, poll)).changes;
            && SafeAt(rails, c, k)
            && (k in ObservedKeys(poll.observations) && k !in rails ==>
                  MutationsFor(c.rails, k) != [] && MutationsFor(c.rails, k)[0].Insert?)
  {
    var notes := Notes(rails, poll);
    var s, sig := At(rails, p, k), SignalOf(notes, k);
    NotesSay(rails, poll, k);
    EngineIsProper(o);
    ProcessIsPointwise(EngineOf(o), rails, p, notes, k);
    ReactIsSafe(o, s, sig);
    EngineKeepsToItsKey(o, s, sig, k);
    OutcomeMakesSafe(rails, Process(EngineOf(o), rails, p, notes).changes, k, s, React(o, s, sig));
  }

  lemma MutationsAreSafe(rails: map<Key, Rail>, c: Changes)
    requires forall k :: SafeAt(rails, c, k)
    ensures forall i, j :: 0 <= i < j < |c.rails| ==> c.rails[i].after.key != c.rails[j].after.key
    ensures forall m <- c.rails :: Fits(rails, m)
  {
    forall i, j | 0 <= i < j < |c.rails| ensures c.rails[i].after.key != c.rails[j].after.key {
      var k := c.rails[i].after.key;
      assert SafeAt(rails, c, k);
      if c.rails[j].after.key == k {
        FilterTwo(c.rails, (n: RailMutation) => n.after.key == k, i, j);
      }
    }
    forall m | m in c.rails ensures Fits(rails, m) {
      assert SafeAt(rails, c, m.after.key);
      FilterMembers(c.rails, (n: RailMutation) => n.after.key == m.after.key);
      assert m in MutationsFor(c.rails, m.after.key);
    }
  }

  lemma EventsAreSafe(rails: map<Key, Rail>, c: Changes)
    requires forall k :: SafeAt(rails, c, k)
    ensures forall e <- c.events :: exists m <- c.rails :: Records(e, m)
  {
    forall e | e in c.events ensures exists m <- c.rails :: Records(e, m) {
      assert SafeAt(rails, c, e.key);
      FilterMembers(c.events, (d: Event) => d.key == e.key);
      assert e in EventsFor(c.events, e.key);
      FilterMembers(c.rails, (n: RailMutation) => n.after.key == e.key);
      assert MutationsFor(c.rails, e.key)[0] in c.rails;
    }
  }

  /** The result of a poll can be applied as one batch: at most one mutation per key, inserts exactly
      for unknown keys, updates that really change the stored row, and every event backed by the
      mutation of its key, whose stored row has an ID. */
  lemma DiffIsSafeToApply(o: Limits, rails: map<Key, Rail>, p: Pending, poll: Poll)
    requires DistinctKeys(poll.observations) && OwnKeys(rails)
    ensures var c := Process(EngineOf(o), rails, p, Notes(rails, poll)).changes;
            && SafeToApply(rails, c)
            && (forall k <- ObservedKeys(poll.observations) :: k !in rails ==>
                 exists m <- c.rails :: m.Insert? && m.after.key == k)
            && ((forall k <- rails :: rails[k].id != 0) ==> forall e <- c.events :: e.railID != 0)
  {
    var c := Process(EngineOf(o), rails, p, Notes(rails, poll)).changes;
    forall k ensures SafeAt(rails, c, k) {
      KeyIsSafe(o, rails, p, poll, k);
    }
    MutationsAreSafe(rails, c);
    EventsAreSafe(rails, c);
    forall k | k in ObservedKeys(poll.observations) && k !in rails
      ensures exists m <- c.rails :: m.Insert? && m.after.key == k {
      KeyIsSafe(o, rails, p, poll, k);
      FilterMembers(c.rails, (n: RailMutation) => n.after.key == k);
      assert MutationsFor(c.rails, k)[0] in c.rails;
    }
  }

  // --- What a diff tells of its poll ---

  /** The observation was made at `at`: its own time, or its poll's if it has none. */
  predicate MadeAt(ob: Observation, poll: Poll, at: Time) {
    at == if ob.observedAt != 0 then ob.observedAt else poll.observedAt
  }

  predicate DatedBy(e: Event, sig: Signal) {
    if sig.Seen? then e.occurredAt == sig.obs.observedAt && e.kind != RailDelisted
    else sig.Missed? && e.occurredAt == sig.at && e.kind == RailDelisted
  }

  lemma ActiveIsDated(o: Limits, s: KeyState, prev: Rail, sig: Signal)
    requires sig.Seen?
    ensures forall e <- SeenActive(o, s, prev, sig.obs).events :: DatedBy(e, sig)
  {
    var p := Streaked(s.status, sig.obs);
    var commit := sig.obs.Reported() != prev.Committed() && p.count >= o.confirmationsRequired;
    var after := Refreshed(prev, sig.obs, if commit then Some(p) else None);
    var kinds := ChangeKinds(prev, after, sig.obs, commit);
    assert RailDelisted !in kinds;
    forall e | e in EventsOf(kinds, prev, after, sig.obs.observedAt) ensures DatedBy(e, sig) {
      var i :| 0 <= i < |kinds| && e == NewEvent(kinds[i], prev, after, sig.obs.observedAt);
      assert kinds[i] in kinds;
    }
  }

  lemma ReactIsDated(o: Limits, s: KeyState, sig: Signal)
    ensures forall e <- React(o, s, sig).events :: DatedBy(e, sig)
  {
    if sig.Seen? && s.rail.Some? {
      ActiveIsDated(o, s, s.rail.value, sig);
    }
  }

  /** An event of a diff is about an observation of the poll and has its time, or it is a delisting by a
      complete poll that does not observe the key, and has the poll's time. */
  lemma DiffEventsAreDated(o: Limits, rails: map<Key, Rail>, p: Pending, poll: Poll, e: Event)
    requires DistinctKeys(poll.observations) && OwnKeys(rails)
    requires e in Process(EngineOf(o), rails, p, Notes(rails, poll)).changes.events
    ensures if e.kind == RailDelisted
            then poll.complete && e.key !in ObservedKeys(poll.observations) && e.occurredAt == poll.observedAt
            else exists ob <- poll.observations :: ob.key == e.key && MadeAt(ob, poll, e.occurredAt)
  {
    var notes := Notes(rails, poll);
    var sig := SignalOf(notes, e.key);
    NotesSay(rails, poll, e.key);
    EngineIsProper(o);
    ProcessIsPointwise(EngineOf(o), rails, p, notes, e.key);
    FilterMembers(Process(EngineOf(o), rails, p, notes).changes.events, (d: Event) => d.key == e.key);
    assert e in React(o, At(rails, p, e.key), sig).events;
    ReactIsDated(o, At(rails, p, e.key), sig);
    if sig.Seen? {
      var ob :| ob in poll.observations && ob.key == e.key && Dated(ob, poll, sig.obs);
      assert MadeAt(ob, poll, e.occurredAt);
    }
  }

  /** The row holds what the observation says, apart from the flags that wait for confirmation. */
  predicate Holds(r: Rail, ob: Observation, poll: Poll) {
    && r.depositConfirmations == ob.depositConfirmations
    && r.withdrawMin == ob.withdrawMin && r.withdrawFee == ob.withdrawFee
    && r.withdrawFeeType == ob.withdrawFeeType && r.withdrawFeePercent == ob.withdrawFeePercent
    && r.contractAddress == ob.contractAddress && MadeAt(ob, poll, r.lastSeenAt)
    && (r.isInitial || !r.isActive ==>
          r.depositEnabled == ob.depositEnabled && r.withdrawEnabled == ob.withdrawEnabled)
  }

  lemma WrittenHolds(o: Limits, id: int, s: KeyState, sig: Signal, ob: Observation, poll: Poll)
    requires sig.Seen? && Dated(ob, poll, sig.obs)
    ensures var r := Written(s.rail, React(o, s, sig).mutation, id);
            r.Some? && Holds(r.value, ob, poll)
  {
    SeenIsCarried(o, id, Trace(s, []), sig.obs, sig.complete);
    var r := Advance(o, id, Trace(s, []), sig).state.rail.value;
    assert sig.obs.(observedAt := 0).contractAddress == ob.contractAddress;
    assert r.isInitial || !r.isActive ==> r.Committed() == sig.obs.Reported();
  }

  /** Once its diff is written, every observation of a poll is in the table. */
  lemma DiffStoresThePoll(o: Limits, rails: map<Key, Rail>, p: Pending, poll: Poll, ids: IDs, ob: Observation)
    requires DistinctKeys(poll.observations) && OwnKeys(rails) && ob in poll.observations
    ensures var after := Upsert(rails, Process(EngineOf(o), rails, p, Notes(rails, poll)).changes.rails, ids);
            ob.key in after && Holds(after[ob.key], ob, poll)
  {
    var notes := Notes(rails, poll);
    var sig := SignalOf(notes, ob.key);
    NotesSay(rails, poll, ob.key);
    EngineIsProper(o);
    ProcessIsPointwise(EngineOf(o), rails, p, notes, ob.key);
    UpsertAt(rails, Process(EngineOf(o), rails, p, notes).changes.rails, ids, ob.key);
    var x :| x in poll.observations && x.key == ob.key && Dated(x, poll, sig.obs);
    assert x == ob;
    WrittenHolds(o, ids(ob.key), At(rails, p, ob.key), sig, ob, poll);
  }
}
