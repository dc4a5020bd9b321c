/** The order in which a poll lists its observations does not matter. */
module PollOrder {
  import opened RailTypes
  import opened RailMachine
  import opened Sequences
  import opened PollDiff
  import opened RailTable

  lemma SaysOneThing(poll: Poll, poll': Poll, k: Key, known: bool, a: Signal, b: Signal)
    requires DistinctKeys(poll.observations)
    requires poll' == poll.(observations := poll'.observations)
    requires forall ob :: ob in poll.observations <==> ob in poll'.observations
    requires Says(poll, k, known, a) && Says(poll', k, known, b)
    ensures a == b
  {
    assert k in ObservedKeys(poll.observations) <==> k in ObservedKeys(poll'.observations);
    if k in ObservedKeys(poll.observations) {
      var x :| x in poll.observations && x.key == k && Dated(x, poll, a.obs);
      var y :| y in poll'.observations && y.key == k && Dated(y, poll', b.obs);
      assert x == y;
    }
  }

  lemma PendingEqual(rails: map<Key, Rail>, p: Pending, p': Pending)
    requires forall k {:trigger At(rails, p, k)} :: At(rails, p, k) == At(rails, p', k)
    ensures p == p'
  {
    MapsEqual(p.baseline, p'.baseline) by {
      forall k ensures Lookup(p.baseline, k) == Lookup(p'.baseline, k) { assert At(rails, p, k) == At(rails, p', k); }
    }
    MapsEqual(p.status, p'.status) by {
      forall k ensures Lookup(p.status, k) == Lookup(p'.status, k) { assert At(rails, p, k) == At(rails, p', k); }
    }
  }

  lemma MapsEqual<V>(a: map<Key, V>, b: map<Key, V>)
    requires forall k :: Lookup(a, k) == Lookup(b, k)
    ensures a == b
  {
    forall k ensures k in a <==> k in b { assert Lookup(a, k) == Lookup(b, k); }
    forall k | k in a ensures a[k] == b[k] { assert Lookup(a, k) == Lookup(b, k); }
  }

  // --- The same for every key ---

  ghost predicate SameAt(rails: map<Key, Rail>, d: Progress, d': Progress, k: Key) {
    && At(rails, d.pending, k) == At(rails, d'.pending, k)
    && EventsFor(d.changes.events, k) == EventsFor(d'.changes.events, k)
    && MutationsFor(d.changes.rails, k) == MutationsFor(d'.changes.rails, k)
  }

  /** `b` holds the changes of `a` in another order, the events of each key in the same one. */
  ghost predicate Permuted(a: Changes, b: Changes) {
    && multiset(a.rails) == multiset(b.rails)
    && multiset(a.events) == multiset(b.events)
    && (forall k :: EventsFor(a.events, k) == EventsFor(b.events, k))
  }

  lemma SameIsPermuted(rails: map<Key, Rail>, d: Progress, d': Progress)
    requires forall k :: SameAt(rails, d, d', k)
    ensures d.pending == d'.pending && Permuted(d.changes, d'.changes)
  {
    forall k ensures At(rails, d.pending, k) == At(rails, d'.pending, k)
                     && EventsFor(d.changes.events, k) == EventsFor(d'.changes.events, k) {
      assert SameAt(rails, d, d', k);
    }
    PendingEqual(rails, d.pending, d'.pending);
    forall m ensures multiset(d.changes.rails)[m] == multiset(d'.changes.rails)[m] {
      assert SameAt(rails, d, d', m.after.key);
      FilterCount(d.changes.rails, (n: RailMutation) => n.after.key == m.after.key, m);
      FilterCount(d'.changes.rails, (n: RailMutation) => n.after.key == m.after.key, m);
    }
    forall e ensures multiset(d.changes.events)[e] == multiset(d'.changes.events)[e] {
      assert SameAt(rails, d, d', e.key);
      FilterCount(d.changes.events, (f: Event) => f.key == e.key, e);
      FilterCount(d'.changes.events, (f: Event) => f.key == e.key, e);
    }
  }

  /** Batches that name each key at most once, with the same mutation, leave the same table. */
  lemma SameStore(c: Changes, c': Changes, stored: map<Key, Rail>, ids: IDs)
    requires forall k :: MutationsFor(c.rails, k) == MutationsFor(c'.rails, k) && |MutationsFor(c.rails, k)| <= 1
    ensures Upsert(stored, c.rails, ids) == Upsert(stored, c'.rails, ids)
  {
    forall k ensures Lookup(Upsert(stored, c.rails, ids), k) == Lookup(Upsert(stored, c'.rails, ids), k) {
      assert MutationsFor(c.rails, k) == MutationsFor(c'.rails, k);
      UpsertAt(stored, c.rails, ids, k);
      UpsertAt(stored, c'.rails, ids, k);
    }
    MapsEqual(Upsert(stored, c.rails, ids), Upsert(stored, c'.rails, ids));
  }

  // --- Observations in another order ---

  /** The polls differ only in the order of their observations. */
  predicate Reordered(poll: Poll, poll': Poll) {
    poll' == poll.(observations := poll'.observations) && multiset(poll.observations) == multiset(poll'.observations)
  }

  lemma ReorderedMembers(poll: Poll, poll': Poll)
    requires Reordered(poll, poll')
    ensures forall ob :: ob in poll.observations <==> ob in poll'.observations
    ensures ObservedKeys(poll.observations) == ObservedKeys(poll'.observations)
  {
    forall ob ensures ob in poll.observations <==> ob in poll'.observations {
      assert ob in multiset(poll.observations) <==> ob in multiset(poll'.observations);
    }
  }

  /** Of the stored rails `known`, the notes say the same to every key in either order. */
  lemma ReorderedSayTheSame(known: map<Key, Rail>, poll: Poll, poll': Poll, k: Key)
    requires DistinctKeys(poll.observations) && DistinctKeys(poll'.observations) && Reordered(poll, poll')
    ensures SignalOf(Notes(known, poll), k) == SignalOf(Notes(known, poll'), k)
  {
    ReorderedMembers(poll, poll');
    NotesSay(known, poll, k);
    NotesSay(known, poll', k);
    SaysOneThing(poll, poll', k, k in known, SignalOf(Notes(known, poll), k), SignalOf(Notes(known, poll'), k));
  }

  lemma NothingIsAbsent(poll: Poll)
    ensures Notes(map[], poll) == PresentNotes(poll, poll.observations)
  {
    var none: map<Key, Rail> := map[];
    assert none.Keys - ObservedKeys(poll.observations) == {};
  }

  lemma PresentIsPermuted(o: Limits, rails: map<Key, Rail>, p: Pending, poll: Poll, poll': Poll)
    requires DistinctKeys(poll.observations) && DistinctKeys(poll'.observations) && OwnKeys(rails)
             && Reordered(poll, poll')
    ensures var d := Process(EngineOf(o), rails, p, PresentNotes(poll, poll.observations));
            var d' := Process(EngineOf(o), rails, p, PresentNotes(poll', poll'.observations));
            d.pending == d'.pending && Permuted(d.changes, d'.changes)
  {
    var a, a' := PresentNotes(poll, poll.observations), PresentNotes(poll', poll'.observations);
    NothingIsAbsent(poll);
    NothingIsAbsent(poll');
    NotesAreDistinct(map[], poll);
    NotesAreDistinct(map[], poll');
    EngineIsProper(o);
    forall k ensures SameAt(rails, Process(EngineOf(o), rails, p, a), Process(EngineOf(o), rails, p, a'), k) {
      ReorderedSayTheSame(map[], poll, poll', k);
      ProcessIsPointwise(EngineOf(o), rails, p, a, k);
      ProcessIsPointwise(EngineOf(o), rails, p, a', k);
    }
    SameIsPermuted(rails, Process(EngineOf(o), rails, p, a), Process(EngineOf(o), rails, p, a'));
  }

  /** The result of a poll is what its observations make followed by what its absent keys make, each from
      the start. */
  lemma ResultSplits(o: Limits, rails: map<Key, Rail>, p: Pending, poll: Poll)
    ensures Process(EngineOf(o), rails, p, Notes(rails, poll)).changes
         == Joined(Process(EngineOf(o), rails, p, PresentNotes(poll, poll.observations)).changes,
                   Process(EngineOf(o), rails, p, AbsentOf(rails, poll)).changes)
  {
    var a, b := PresentNotes(poll, poll.observations), AbsentOf(rails, poll);
    var absent := SortedKeys(rails.Keys - ObservedKeys(poll.observations));
    PresentNotesAre(poll, poll.observations);
    AbsentNotesAre(poll.observedAt, absent);
    forall x, y | x in a && y in b ensures x.key != y.key {
      var i :| 0 <= i < |a| && a[i] == x;
      var j :| 0 <= j < |b| && b[j] == y;
      assert poll.observations[i] in poll.observations && absent[j] in absent;
    }
    ProcessSplits(EngineOf(o), rails, p, a, b);
  }

  /** The order of observations does not matter. The same ones in another order leave the same pending
      entries and the same table, whatever else it holds; the result is a permutation of what the
      observations made, each key's events in their order, followed by exactly what the absent keys made. */
  lemma ObservationOrderIsIrrelevant(o: Limits, rails: map<Key, Rail>, p: Pending, poll: Poll, poll': Poll,
                                     stored: map<Key, Rail>, ids: IDs)
    requires DistinctKeys(poll.observations) && DistinctKeys(poll'.observations) && OwnKeys(rails)
             && Reordered(poll, poll')
    ensures var d := Process(EngineOf(o), rails, p, Notes(rails, poll));
            var d' := Process(EngineOf(o), rails, p, Notes(rails, poll'));
            var present := Process(EngineOf(o), rails, p, PresentNotes(poll, poll.observations)).changes;
            var present' := Process(EngineOf(o), rails, p, PresentNotes(poll', poll'.observations)).changes;
            var absent := Process(EngineOf(o), rails, p, AbsentOf(rails, poll)).changes;
            && d.pending == d'.pending
            && Upsert(stored, d.changes.rails, ids) == Upsert(stored, d'.changes.rails, ids)
            && d.changes == Joined(present, absent) && d'.changes == Joined(present', absent)
            && Permuted(present, present')
  {
    var d := Process(EngineOf(o), rails, p, Notes(rails, poll));
    var d' := Process(EngineOf(o), rails, p, Notes(rails, poll'));
    ReorderedMembers(poll, poll');
    ResultSplits(o, rails, p, poll);
    ResultSplits(o, rails, p, poll');
    PresentIsPermuted(o, rails, p, poll, poll');
    EngineIsProper(o);
    NotesAreDistinct(rails, poll);
    NotesAreDistinct(rails, poll');
    forall k ensures SameAt(rails, d, d', k) && |MutationsFor(d.changes.rails, k)| <= 1 {
      ReorderedSayTheSame(rails, poll, poll', k);
      ProcessIsPointwise(EngineOf(o), rails, p, Notes(rails, poll), k);
      ProcessIsPointwise(EngineOf(o), rails, p, Notes(rails, poll'), k);
    }
    SameIsPermuted(rails, d, d');
    SameStore(d.changes, d'.changes, stored, ids);
  }

  // --- The order of a result ---

  function KeysOf(events: seq<Event>): seq<Key> {
    seq(|events|, i requires 0 <= i < |events| => events[i].key)
  }

  predicate NotedAt(notes: seq<Note>, a: int, k: Key) {
    0 <= a < |notes| && notes[a].key == k
  }

  /** The notes speak of `k` no later than of `l`. */
  ghost predicate InTurn(notes: seq<Note>, k: Key, l: Key) {
    exists a, b :: a <= b && NotedAt(notes, a, k) && NotedAt(notes, b, l)
  }

  /** The keys come in the order of the notes about them. */
  ghost predicate FollowNotes(keys: seq<Key>, notes: seq<Note>) {
    forall i, j :: 0 <= i <= j < |keys| ==> InTurn(notes, keys[i], keys[j])
  }

  lemma InTurnStays(notes: seq<Note>, n: Note, k: Key, l: Key)
    requires InTurn(notes, k, l)
    ensures InTurn(notes + [n], k, l) && InTurn(notes + [n], k, n.key)
  {
    var a, b :| a <= b && NotedAt(notes, a, k) && NotedAt(notes, b, l);
    assert NotedAt(notes + [n], a, k) && NotedAt(notes + [n], b, l) && NotedAt(notes + [n], |notes|, n.key);
  }

  lemma FollowOneMoreNote(keys: seq<Key>, notes: seq<Note>, added: seq<Key>, n: Note)
    requires FollowNotes(keys, notes) && forall k <- added :: k == n.key
    ensures FollowNotes(keys + added, notes + [n])
  {
    var all := keys + added;
    assert NotedAt(notes + [n], |notes|, n.key);
    forall i, j | 0 <= i <= j < |all| ensures InTurn(notes + [n], all[i], all[j]) {
      if j < |keys| {
        InTurnStays(notes, n, keys[i], keys[j]);
      } else {
        assert added[j - |keys|] in added;
        if i < |keys| {
          InTurnStays(notes, n, keys[i], keys[i]);
        } else {
          assert added[i - |keys|] in added;
        }
      }
    }
  }

  lemma {:induction false} EventsFollowNotes(m: Machine, rails: map<Key, Rail>, p: Pending, notes: seq<Note>)
    requires Proper(m) && OwnKeys(rails) && OwnNotes(notes)
    ensures FollowNotes(KeysOf(Process(m, rails, p, notes).changes.events), notes)
  {
    if notes != [] {
      var front, last := notes[..|notes| - 1], notes[|notes| - 1];
      assert last in notes && forall n <- front :: n in notes;
      EventsFollowNotes(m, rails, p, front);
      var d := Process(m, rails, p, front);
      var out := m(At(rails, d.pending, last.key), last.sig);
      assert KeyedBy(At(rails, d.pending, last.key), last.sig, last.key);
      assert OutcomeOf(out, last.key);
      FollowOneMoreNote(KeysOf(d.changes.events), front, KeysOf(out.events), last);
      assert KeysOf(d.changes.events + out.events) == KeysOf(d.changes.events) + KeysOf(out.events);
      assert notes == front + [last];
    }
  }

  /** The poll speaks of `k` before it speaks of `l`. */
  ghost predicate ComesFirst(poll: Poll, k: Key, l: Key) {
    var obs := poll.observations;
    if l in ObservedKeys(obs) then exists a, b :: 0 <= a < b < |obs| && obs[a].key == k && obs[b].key == l
    else k in ObservedKeys(obs) || Precedes(k, l)
  }

  lemma NotesComeInOrder(rails: map<Key, Rail>, poll: Poll, a: nat, b: nat)
    requires DistinctKeys(poll.observations) && a <= b < |Notes(rails, poll)|
    ensures a == b || ComesFirst(poll, Notes(rails, poll)[a].key, Notes(rails, poll)[b].key)
  {
    var n, absent := |poll.observations|, SortedKeys(rails.Keys - ObservedKeys(poll.observations));
    PresentNotesAre(poll, poll.observations);
    AbsentNotesAre(poll.observedAt, absent);
    if b < n {
      assert poll.observations[b] in poll.observations;
    } else {
      assert absent[b - n] in absent;
      if a < n {
        assert poll.observations[a] in poll.observations;
      }
    }
  }

  /** The events of a diff come in the order of the observations, then those of the absent keys ordered by
      exchange, coin and chain. */
  lemma EventsComeInOrder(o: Limits, rails: map<Key, Rail>, p: Pending, poll: Poll, i: nat, j: nat)
    requires DistinctKeys(poll.observations) && OwnKeys(rails)
    requires i < j < |Process(EngineOf(o), rails, p, Notes(rails, poll)).changes.events|
    ensures var events := Process(EngineOf(o), rails, p, Notes(rails, poll)).changes.events;
            var k, l := events[i].key, events[j].key;
            k == l || ComesFirst(poll, k, l)
  {
    var notes := Notes(rails, poll);
    var events := Process(EngineOf(o), rails, p, notes).changes.events;
    var absent := SortedKeys(rails.Keys - ObservedKeys(poll.observations));
    EngineIsProper(o);
    NotesAreDistinct(rails, poll);
    EventsFollowNotes(EngineOf(o), rails, p, notes);
    PresentNotesAre(poll, poll.observations);
    AbsentNotesAre(poll.observedAt, absent);
    assert KeysOf(events)[i] == events[i].key && KeysOf(events)[j] == events[j].key;
    assert InTurn(notes, events[i].key, events[j].key);
    var a, b :| a <= b && NotedAt(notes, a, events[i].key) && NotedAt(notes, b, events[j].key);
    NotesComeInOrder(rails, poll, a, b);
  }
}
