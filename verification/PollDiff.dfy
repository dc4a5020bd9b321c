/** What one call of `Diff` does to all keys of a poll: observations in their order, then the absent
    keys in increasing order, each absorbed into the pending maps and the result. */
module PollDiff {
  import opened RailTypes
  import opened RailMachine
  import opened Sequences

  /** The engine's two pending maps. */
  datatype Pending = Pending(baseline: map<Key, PendingBaseline>, status: map<Key, PendingStatus>)

  const NOTHING_PENDING := Pending(map[], map[])

  function Lookup<V>(m: map<Key, V>, k: Key): Option<V> {
    if k in m then Some(m[k]) else None
  }

  function Put<V>(m: map<Key, V>, k: Key, v: Option<V>): map<Key, V> {
    if v.Some? then m[k := v.value] else m - {k}
  }

  function At(rails: map<Key, Rail>, p: Pending, k: Key): KeyState {
    KeyState(Lookup(rails, k), Lookup(p.baseline, k), Lookup(p.status, k))
  }

  function Absorb(p: Pending, k: Key, out: Outcome): Pending {
    Pending(Put(p.baseline, k, out.baseline), Put(p.status, k, out.status))
  }

  function Append(c: Changes, out: Outcome): Changes {
    Changes(c.rails + (if out.mutation.Some? then [out.mutation.value] else []), c.events + out.events)
  }

  /** One key's signal in one poll. */
  datatype Note = Note(key: Key, sig: Signal)

  /** A per-key machine. The engine is one; that a poll is a product of machines holds for any. */
  type Machine = (KeyState, Signal) -> Outcome

  function EngineOf(o: Limits): Machine {
    (s: KeyState, sig: Signal) => React(o, s, sig)
  }

  /** A machine does nothing when the key is not mentioned and speaks only about its own key. */
  ghost predicate Proper(m: Machine) {
    && (forall s :: m(s, Skipped) == Outcome(s.baseline, s.status, None, []))
    && (forall s, sig, k :: KeyedBy(s, sig, k) ==> OutcomeOf(m(s, sig), k))
  }

  predicate KeyedBy(s: KeyState, sig: Signal, k: Key) {
    (s.rail.Some? ==> s.rail.value.key == k) && (sig.Seen? ==> sig.obs.key == k)
  }

  predicate OutcomeOf(out: Outcome, k: Key) {
    (forall e <- out.events :: e.key == k) && (out.mutation.Some? ==> out.mutation.value.after.key == k)
  }

  datatype Progress = Progress(pending: Pending, changes: Changes)

  function Process(m: Machine, rails: map<Key, Rail>, p: Pending, notes: seq<Note>): Progress {
    if notes == [] then Progress(p, Changes([], []))
    else
      var done, last := Process(m, rails, p, notes[..|notes| - 1]), notes[|notes| - 1];
      var out := m(At(rails, done.pending, last.key), last.sig);
      Progress(Absorb(done.pending, last.key, out), Append(done.changes, out))
  }

  /** An observation without a time of its own takes the poll's. */
  function Timed(obs: Observation, poll: Poll): Observation {
    if obs.observedAt != ZERO_TIME then obs else obs.(observedAt := poll.observedAt)
  }

  function PresentNotes(poll: Poll, obs: seq<Observation>): seq<Note> {
    if obs == [] then []
    else
      var last := obs[|obs| - 1];
      PresentNotes(poll, obs[..|obs| - 1]) + [Note(last.key, Seen(Timed(last, poll), poll.complete))]
  }

  function ObservedKeys(obs: seq<Observation>): set<Key> {
    set ob <- obs :: ob.key
  }

  function AbsentNotes(at: Time, keys: seq<Key>): seq<Note> {
    if keys == [] then [] else AbsentNotes(at, keys[..|keys| - 1]) + [Note(keys[|keys| - 1], Missed(at))]
  }

  /** A complete poll notes the stored keys it does not observe, in increasing order. */
  ghost function AbsentOf(rails: map<Key, Rail>, poll: Poll): seq<Note> {
    if poll.complete then AbsentNotes(poll.observedAt, SortedKeys(rails.Keys - ObservedKeys(poll.observations))) else []
  }

  ghost function Notes(rails: map<Key, Rail>, poll: Poll): seq<Note> {
    PresentNotes(poll, poll.observations) + AbsentOf(rails, poll)
  }

  predicate DistinctKeys(obs: seq<Observation>) {
    forall i, j :: 0 <= i < j < |obs| ==> obs[i].key != obs[j].key
  }

  predicate DistinctNotes(notes: seq<Note>) {
    forall i, j :: 0 <= i < j < |notes| ==> notes[i].key != notes[j].key
  }

  predicate OwnKeys(rails: map<Key, Rail>) {
    forall k <- rails :: rails[k].key == k
  }

  predicate OwnNotes(notes: seq<Note>) {
    forall n <- notes :: n.sig.Seen? ==> n.sig.obs.key == n.key
  }

  function SignalOf(notes: seq<Note>, k: Key): Signal {
    if notes == [] then Skipped
    else if notes[|notes| - 1].key == k then notes[|notes| - 1].sig
    else SignalOf(notes[..|notes| - 1], k)
  }

  function EventsFor(events: seq<Event>, k: Key): seq<Event> {
    Filter(events, (e: Event) => e.key == k)
  }

  function MutationsFor(rails: seq<RailMutation>, k: Key): seq<RailMutation> {
    Filter(rails, (m: RailMutation) => m.after.key == k)
  }

  lemma EngineIsProper(o: Limits)
    ensures Proper(EngineOf(o))
  {
    forall s, sig, k | KeyedBy(s, sig, k) ensures OutcomeOf(EngineOf(o)(s, sig), k) {
      EngineKeepsToItsKey(o, s, sig, k);
    }
  }

  lemma EngineKeepsToItsKey(o: Limits, s: KeyState, sig: Signal, k: Key)
    requires KeyedBy(s, sig, k)
    ensures OutcomeOf(React(o, s, sig), k)
  {
  }

  lemma AppendFor(c: Changes, out: Outcome, owner: Key, k: Key)
    requires OutcomeOf(out, owner)
    ensures EventsFor(Append(c, out).events, k) == EventsFor(c.events, k) + (if k == owner then out.events else [])
    ensures MutationsFor(Append(c, out).rails, k)
              == MutationsFor(c.rails, k) + (if k == owner && out.mutation.Some? then [out.mutation.value] else [])
  {
    var events := (e: Event) => e.key == k;
    var mutations := (m: RailMutation) => m.after.key == k;
    var written := if out.mutation.Some? then [out.mutation.value] else [];
    FilterConcat(c.events, out.events, events);
    FilterConcat(c.rails, written, mutations);
    if k == owner {
      FilterAll(out.events, events);
      FilterAll(written, mutations);
    } else {
      FilterNone(out.events, events);
      FilterNone(written, mutations);
    }
  }

  lemma AbsorbAt(rails: map<Key, Rail>, p: Pending, k: Key, out: Outcome, j: Key)
    ensures At(rails, Absorb(p, k, out), j)
              == if j == k then KeyState(Lookup(rails, k), out.baseline, out.status) else At(rails, p, j)
  {
  }

  /** `d` has done to key `k` what its own machine answers to `sig`. */
  ghost predicate DoneAt(m: Machine, rails: map<Key, Rail>, p: Pending, d: Progress, k: Key, sig: Signal) {
    var out := m(At(rails, p, k), sig);
    && At(rails, d.pending, k) == KeyState(Lookup(rails, k), out.baseline, out.status)
    && EventsFor(d.changes.events, k) == out.events
    && MutationsFor(d.changes.rails, k) == if out.mutation.Some? then [out.mutation.value] else []
  }

  lemma StepIsPointwise(m: Machine, rails: map<Key, Rail>, p: Pending, d: Progress, n: Note, k: Key, sig: Signal)
    requires Proper(m) && KeyedBy(At(rails, p, n.key), n.sig, n.key)
    requires DoneAt(m, rails, p, d, n.key, Skipped) && DoneAt(m, rails, p, d, k, sig)
    ensures var out := m(At(rails, d.pending, n.key), n.sig);
            DoneAt(m, rails, p, Progress(Absorb(d.pending, n.key, out), Append(d.changes, out)), k,
                   if k == n.key then n.sig else sig)
  {
    var out := m(At(rails, p, n.key), n.sig);
    assert At(rails, d.pending, n.key) == At(rails, p, n.key);
    assert OutcomeOf(out, n.key);
    AppendFor(d.changes, out, n.key, k);
    AbsorbAt(rails, d.pending, n.key, out, k);
  }

  /** A poll over many keys is the product of one machine per key: what it leaves pending and what it
      emits for a key is the reaction of that key alone to its own signal. */
  lemma {:induction false} ProcessIsPointwise(m: Machine, rails: map<Key, Rail>, p: Pending, notes: seq<Note>, k: Key)
    requires Proper(m) && DistinctNotes(notes) && OwnNotes(notes) && OwnKeys(rails)
    ensures DoneAt(m, rails, p, Process(m, rails, p, notes), k, SignalOf(notes, k))
  {
    if notes == [] {
      assert m(At(rails, p, k), Skipped) == Outcome(At(rails, p, k).baseline, At(rails, p, k).status, None, []);
    } else {
      var front, last := notes[..|notes| - 1], notes[|notes| - 1];
      assert last in notes && forall n <- front :: n in notes;
      ProcessIsPointwise(m, rails, p, front, k);
      ProcessIsPointwise(m, rails, p, front, last.key);
      NotNoted(front, last.key);
      StepIsPointwise(m, rails, p, Process(m, rails, p, front), last, k, SignalOf(front, k));
    }
  }

  lemma {:induction false} NotNoted(notes: seq<Note>, k: Key)
    requires forall n <- notes :: n.key != k
    ensures SignalOf(notes, k) == Skipped
  {
    if notes != [] {
      NotNoted(notes[..|notes| - 1], k);
    }
  }

  lemma {:induction false} PresentNotesAre(poll: Poll, obs: seq<Observation>)
    ensures var notes := PresentNotes(poll, obs);
            |notes| == |obs| && forall i :: 0 <= i < |obs| ==>
                  notes[i] == Note(obs[i].key, Seen(Timed(obs[i], poll), poll.complete))
  {
    if obs != [] {
      PresentNotesAre(poll, obs[..|obs| - 1]);
    }
  }

  lemma {:induction false} AbsentNotesAre(at: Time, keys: seq<Key>)
    ensures var notes := AbsentNotes(at, keys);
            |notes| == |keys| && forall i :: 0 <= i < |keys| ==> notes[i] == Note(keys[i], Missed(at))
  {
    if keys != [] {
      AbsentNotesAre(at, keys[..|keys| - 1]);
    }
  }

  /** The engine sees `obs` for the observation `ob` of the poll: the same but for the time, which is its own if
      it has one and the poll's if not. */
  predicate Dated(ob: Observation, poll: Poll, obs: Observation) {
    && obs.(observedAt := 0) == ob.(observedAt := 0)
    && obs.observedAt == if ob.observedAt != 0 then ob.observedAt else poll.observedAt
  }

  /** What a poll says about a key it may or may not mention, when the key has a rail or not. */
  ghost predicate Says(poll: Poll, k: Key, known: bool, sig: Signal) {
    if k in ObservedKeys(poll.observations) then
      && sig.Seen? && sig.complete == poll.complete
      && exists ob <- poll.observations :: ob.key == k && Dated(ob, poll, sig.obs)
    else
      sig == if poll.complete && known then Missed(poll.observedAt) else Skipped
  }

  lemma {:induction false} SignalOfMember(notes: seq<Note>, n: Note)
    requires DistinctNotes(notes) && n in notes
    ensures SignalOf(notes, n.key) == n.sig
  {
    var front, last := notes[..|notes| - 1], notes[|notes| - 1];
    assert notes == front + [last];
    if last.key != n.key {
      SignalOfMember(front, n);
    }
  }

  /** The `i`th note is about an observed key if it is one of the first, and else about an absent one. */
  lemma NoteAt(rails: map<Key, Rail>, poll: Poll, i: nat)
    requires i < |Notes(rails, poll)|
    ensures var n, note := |poll.observations|, Notes(rails, poll)[i];
            if i < n then note.key in ObservedKeys(poll.observations)
                && note == Note(poll.observations[i].key, Seen(Timed(poll.observations[i], poll), poll.complete))
            else
              var absent := SortedKeys(rails.Keys - ObservedKeys(poll.observations));
              poll.complete && i - n < |absent| && note == Note(absent[i - n], Missed(poll.observedAt))
                && note.key in rails && note.key !in ObservedKeys(poll.observations)
  {
    var absent := SortedKeys(rails.Keys - ObservedKeys(poll.observations));
    PresentNotesAre(poll, poll.observations);
    AbsentNotesAre(poll.observedAt, absent);
    if i < |poll.observations| {
      assert poll.observations[i] in poll.observations;
    } else {
      assert absent[i - |poll.observations|] in absent;
    }
  }

  lemma NotesDiffer(rails: map<Key, Rail>, poll: Poll, i: nat, j: nat)
    requires DistinctKeys(poll.observations) && i < j < |Notes(rails, poll)|
    ensures Notes(rails, poll)[i].key != Notes(rails, poll)[j].key
  {
    NoteAt(rails, poll, i);
    NoteAt(rails, poll, j);
    if i >= |poll.observations| {
      var absent := SortedKeys(rails.Keys - ObservedKeys(poll.observations));
      assert KeyLess(absent[i - |poll.observations|], absent[j - |poll.observations|]);
    }
  }

  lemma NotesAreDistinct(rails: map<Key, Rail>, poll: Poll)
    requires DistinctKeys(poll.observations)
    ensures DistinctNotes(Notes(rails, poll)) && OwnNotes(Notes(rails, poll))
  {
    var notes := Notes(rails, poll);
    forall i, j | 0 <= i < j < |notes| ensures notes[i].key != notes[j].key {
      NotesDiffer(rails, poll, i, j);
    }
    forall n | n in notes ensures n.sig.Seen? ==> n.sig.obs.key == n.key {
      var i :| 0 <= i < |notes| && notes[i] == n;
      NoteAt(rails, poll, i);
    }
  }

  lemma ObservedIsNoted(rails: map<Key, Rail>, poll: Poll, i: nat)
    requires DistinctKeys(poll.observations) && i < |poll.observations|
    ensures SignalOf(Notes(rails, poll), poll.observations[i].key)
         == Seen(Timed(poll.observations[i], poll), poll.complete)
  {
    NotesAreDistinct(rails, poll);
    PresentNotesAre(poll, poll.observations);
    SignalOfMember(Notes(rails, poll), Notes(rails, poll)[i]);
  }

  lemma AbsentIsNoted(rails: map<Key, Rail>, poll: Poll, k: Key)
    requires DistinctKeys(poll.observations) && poll.complete && k in rails && k !in ObservedKeys(poll.observations)
    ensures SignalOf(Notes(rails, poll), k) == Missed(poll.observedAt)
  {
    var notes, absent := Notes(rails, poll), SortedKeys(rails.Keys - ObservedKeys(poll.observations));
    NotesAreDistinct(rails, poll);
    PresentNotesAre(poll, poll.observations);
    AbsentNotesAre(poll.observedAt, absent);
    assert k in absent;
    var i :| 0 <= i < |absent| && absent[i] == k;
    assert notes[|poll.observations| + i] == Note(k, Missed(poll.observedAt));
    SignalOfMember(notes, notes[|poll.observations| + i]);
  }

  lemma OthersAreNotNoted(rails: map<Key, Rail>, poll: Poll, k: Key)
    requires k !in ObservedKeys(poll.observations) && !(poll.complete && k in rails)
    ensures SignalOf(Notes(rails, poll), k) == Skipped
  {
    var notes := Notes(rails, poll);
    forall n | n in notes ensures n.key != k {
      var i :| 0 <= i < |notes| && notes[i] == n;
      NoteAt(rails, poll, i);
    }
    NotNoted(notes, k);
  }

  lemma NotesSay(rails: map<Key, Rail>, poll: Poll, k: Key)
    requires DistinctKeys(poll.observations)
    ensures var notes := Notes(rails, poll);
            DistinctNotes(notes) && OwnNotes(notes) && Says(poll, k, k in rails, SignalOf(notes, k))
  {
    NotesAreDistinct(rails, poll);
    if k in ObservedKeys(poll.observations) {
      var i :| 0 <= i < |poll.observations| && poll.observations[i].key == k;
      ObservedIsNoted(rails, poll, i);
      assert poll.observations[i] in poll.observations;
    } else if poll.complete && k in rails {
      AbsentIsNoted(rails, poll, k);
    } else {
      OthersAreNotNoted(rails, poll, k);
    }
  }

  /** Two stores and pending maps that agree on the noted keys give the same changes, and go on
      agreeing on every key they agreed on. */
  lemma {:induction false} ProcessIsLocal(m: Machine, rails: map<Key, Rail>, p: Pending, rails': map<Key, Rail>,
                                          p': Pending, notes: seq<Note>, k: Key)
    requires forall n <- notes :: At(rails, p, n.key) == At(rails', p', n.key)
    ensures Process(m, rails, p, notes).changes == Process(m, rails', p', notes).changes
    ensures At(rails, p, k) == At(rails', p', k) ==>
              At(rails, Process(m, rails, p, notes).pending, k) == At(rails', Process(m, rails', p', notes).pending, k)
  {
    if notes != [] {
      var front, last := notes[..|notes| - 1], notes[|notes| - 1];
      assert last in notes && forall n <- front :: n in notes;
      ProcessIsLocal(m, rails, p, rails', p', front, k);
      ProcessIsLocal(m, rails, p, rails', p', front, last.key);
      var d, d' := Process(m, rails, p, front), Process(m, rails', p', front);
      var out := m(At(rails, d.pending, last.key), last.sig);
      AbsorbAt(rails, d.pending, last.key, out, k);
      AbsorbAt(rails', d'.pending, last.key, out, k);
    }
  }

  /** Keys that a poll does not note keep their pending entries. */
  lemma {:induction false} ProcessLeavesOthers(m: Machine, rails: map<Key, Rail>, p: Pending, notes: seq<Note>, k: Key)
    requires forall n <- notes :: n.key != k
    ensures At(rails, Process(m, rails, p, notes).pending, k) == At(rails, p, k)
  {
    if notes != [] {
      ProcessLeavesOthers(m, rails, p, notes[..|notes| - 1], k);
    }
  }

  function Joined(a: Changes, b: Changes): Changes {
    Changes(a.rails + b.rails, a.events + b.events)
  }

  /** Notes of other keys come out as if the earlier notes had not been there: the changes of the whole
      are those of the first part followed by those of the second part run from the start. */
  lemma {:induction false} ProcessSplits(m: Machine, rails: map<Key, Rail>, p: Pending, a: seq<Note>, b: seq<Note>)
    requires forall x <- a, y <- b :: x.key != y.key
    ensures Process(m, rails, p, a + b).changes ==
              Joined(Process(m, rails, p, a).changes, Process(m, rails, p, b).changes)
    ensures forall n <- b :: At(rails, Process(m, rails, p, a).pending, n.key) == At(rails, p, n.key)
    ensures Process(m, rails, p, a + b).pending == Process(m, rails, Process(m, rails, p, a).pending, b).pending
  {
    forall n | n in b ensures At(rails, Process(m, rails, p, a).pending, n.key) == At(rails, p, n.key) {
      ProcessLeavesOthers(m, rails, p, a, n.key);
    }
    if b == [] {
      assert a + b == a;
    } else {
      var front, last := b[..|b| - 1], b[|b| - 1];
      assert (a + b)[..|a + b| - 1] == a + front;
      assert last in b && forall y <- front :: y in b;
      ProcessSplits(m, rails, p, a, front);
      ProcessIsLocal(m, rails, Process(m, rails, p, a).pending, rails, p, front, last.key);
      var d := Process(m, rails, p, front);
      AppendJoined(Process(m, rails, p, a).changes, d.changes, m(At(rails, d.pending, last.key), last.sig));
    }
  }

  lemma AppendJoined(a: Changes, b: Changes, out: Outcome)
    ensures Append(Joined(a, b), out) == Joined(a, Append(b, out))
  {
  }

  /** Two stores and pending maps in which the machine answers every note alike give the same changes, and
      go on agreeing on every key they agreed on. */
  lemma {:induction false} ProcessAgrees(m: Machine, rails: map<Key, Rail>, p: Pending, rails': map<Key, Rail>,
                                         p': Pending, notes: seq<Note>, k: Key)
    requires DistinctNotes(notes)
    requires forall n <- notes :: m(At(rails, p, n.key), n.sig) == m(At(rails', p', n.key), n.sig)
    ensures Process(m, rails, p, notes).changes == Process(m, rails', p', notes).changes
    ensures At(rails, p, k) == At(rails', p', k) ==>
              At(rails, Process(m, rails, p, notes).pending, k) == At(rails', Process(m, rails', p', notes).pending, k)
  {
    if notes != [] {
      var front, last := notes[..|notes| - 1], notes[|notes| - 1];
      assert last in notes && forall n <- front :: n in notes;
      ProcessAgrees(m, rails, p, rails', p', front, k);
      ProcessLeavesOthers(m, rails, p, front, last.key);
      ProcessLeavesOthers(m, rails', p', front, last.key);
      var d, d' := Process(m, rails, p, front), Process(m, rails', p', front);
      var out := m(At(rails, d.pending, last.key), last.sig);
      AbsorbAt(rails, d.pending, last.key, out, k);
      AbsorbAt(rails', d'.pending, last.key, out, k);
    }
  }

  /** Nothing is written or recorded about keys that are not noted. */
  lemma {:induction false} ProcessSpeaksOfNoted(m: Machine, rails: map<Key, Rail>, p: Pending, notes: seq<Note>,
                                                about: Key -> bool)
    requires Proper(m) && OwnKeys(rails) && OwnNotes(notes) && forall n <- notes :: about(n.key)
    ensures forall u <- Process(m, rails, p, notes).changes.rails :: about(u.after.key)
    ensures forall e <- Process(m, rails, p, notes).changes.events :: about(e.key)
  {
    if notes != [] {
      var front, last := notes[..|notes| - 1], notes[|notes| - 1];
      assert last in notes && forall n <- front :: n in notes;
      ProcessSpeaksOfNoted(m, rails, p, front, about);
      var s := At(rails, Process(m, rails, p, front).pending, last.key);
      assert KeyedBy(s, last.sig, last.key);
      assert OutcomeOf(m(s, last.sig), last.key);
    }
  }
}
