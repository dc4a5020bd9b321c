/** From what a venue answers to settled rails: alias resolution, merging, and the cycles of all exchanges put
    together. */
module Settling {
  import opened RailTypes
  import opened RailMachine
  import opened RailEvents
  import opened RailConvergence
  import opened Sequences
  import opened PollDiff
  import opened RailTable
  import opened Ingestion
  import opened Interleaving
  import opened SystemRuns
  import opened Merging
  import opened Runner
  import opened Resolver

  // --- Snapshots that differ only in their times ---

  function Undated(r: NormalizedRail): NormalizedRail {
    r.(snapshot := r.snapshot.(observedAt := ZERO_TIME))
  }

  predicate SameSnapshots(a: seq<RailSnapshot>, b: seq<RailSnapshot>) {
    |a| == |b| && forall i | 0 <= i < |a| :: a[i].(observedAt := ZERO_TIME) == b[i].(observedAt := ZERO_TIME)
  }

  predicate SameRails(a: seq<NormalizedRail>, b: seq<NormalizedRail>) {
    |a| == |b| && forall i | 0 <= i < |a| :: Undated(a[i]) == Undated(b[i])
  }

  lemma {:induction false} FirstKeysSame(a: seq<NormalizedRail>, b: seq<NormalizedRail>)
    requires SameRails(a, b)
    ensures FirstKeys(a) == FirstKeys(b)
  {
    if a != [] {
      FirstKeysSame(a[..|a| - 1], b[..|b| - 1]);
      assert Undated(a[|a| - 1]) == Undated(b[|b| - 1]);
    }
  }

  lemma SameRailsJoin(a: seq<NormalizedRail>, b: seq<NormalizedRail>, c: seq<NormalizedRail>, d: seq<NormalizedRail>)
    requires SameRails(a, b) && SameRails(c, d)
    ensures SameRails(a + c, b + d)
  {
  }

  lemma {:induction false} GroupsSame(a: seq<NormalizedRail>, b: seq<NormalizedRail>, k: Key)
    requires SameRails(a, b)
    ensures SameRails(GroupOf(a, k), GroupOf(b, k))
  {
    if a != [] {
      var front, front', last, last' := a[..|a| - 1], b[..|b| - 1], a[|a| - 1], b[|b| - 1];
      assert a == front + [last] && b == front' + [last'];
      GroupsSame(front, front', k);
      GroupOneMore(front, last, k);
      GroupOneMore(front', last', k);
      SameRailsJoin(GroupOf(front, k), GroupOf(front', k), if last.key == k then [last] else [],
                    if last'.key == k then [last'] else []);
    }
  }

  lemma MergesSame(a: NormalizedRail, b: NormalizedRail, a': NormalizedRail, b': NormalizedRail)
    requires Undated(a) == Undated(a') && Undated(b) == Undated(b')
    ensures Undated(MergeRail(a, b)) == Undated(MergeRail(a', b'))
  {
    assert Undated(MergeRail(a, b)) == Undated(MergeRail(Undated(a), Undated(b)));
    assert Undated(MergeRail(a', b')) == Undated(MergeRail(Undated(a'), Undated(b')));
  }

  lemma {:induction false} FoldsSame(a: seq<NormalizedRail>, b: seq<NormalizedRail>)
    requires a != [] && SameRails(a, b)
    ensures Undated(Fold(a)) == Undated(Fold(b))
  {
    if |a| > 1 {
      FoldsSame(a[..|a| - 1], b[..|b| - 1]);
      MergesSame(Fold(a[..|a| - 1]), a[|a| - 1], Fold(b[..|b| - 1]), b[|b| - 1]);
    }
  }

  // --- Resolving the same names again ---

  /** The rails of a poll, carrying other snapshots. */
  function Redated(rails: seq<NormalizedRail>, snapshots: seq<RailSnapshot>): seq<NormalizedRail>
    requires |rails| == |snapshots|
  {
    seq(|rails|, i requires 0 <= i < |rails| => NormalizedRail(rails[i].key, snapshots[i]))
  }

  lemma ExplainsUndated<T>(c: Catalog<T>, db: Plain<T>, a: NormalizedRail, b: NormalizedRail)
    requires Undated(a) == Undated(b) && Explains(c, db, a)
    ensures Explains(c, db, b)
  {
  }

  /** A poll that names what an earlier one named gets the same rails and changes no table, whatever was
      resolved in between, as long as the aliases that the earlier one ended with are still there. */
  lemma LaterPollsRepeat<T>(c: Catalog<T>, db: Plain<T>, snapshots: seq<RailSnapshot>, db': Plain<T>,
                            snapshots': seq<RailSnapshot>)
    requires PlainNormalize(c, db, snapshots).Ok? && SameSnapshots(snapshots, snapshots')
    requires Extends(PlainNormalize(c, db, snapshots).value.0, db')
    ensures var again := PlainNormalize(c, db', snapshots');
            again.Ok? && SameRails(PlainNormalize(c, db, snapshots).value.1, again.value.1)
                && SameTables(db', again.value.0)
  {
    var (later, rails) := PlainNormalize(c, db, snapshots).value;
    var rails' := Redated(rails, snapshots');
    FinalAliasesExplainAPoll(c, db, snapshots);
    forall rail' | rail' in rails' ensures Explains(c, db', rail') {
      var i :| 0 <= i < |rails'| && rails'[i] == rail';
      assert rails[i] in rails && rails[i].snapshot == snapshots[i];
      ExplanationsStay(c, later, db', rails[i]);
      ExplainsUndated(c, db', rails[i], rail');
    }
    ExplainedPollRepeats(c, db', rails');
    assert SnapshotsOf(rails') == snapshots';
  }

  // --- The same answer, fetched again and again ---

  /** A poll of a venue: the tables it is resolved against, what the venue answered, and when. */
  datatype Fetch<T> = Fetch(db: Plain<T>, snapshots: seq<RailSnapshot>, at: Time)
  {
    function Resolved(c: Catalog<T>): Result<(Plain<T>, seq<NormalizedRail>), ResolveError> {
      PlainNormalize(c, db, snapshots)
    }
  }

  /** The venue answers the same each time, and between one poll and the next aliases may come but none goes or
      changes. */
  ghost predicate SameAnswers<T>(c: Catalog<T>, fs: seq<Fetch<T>>) {
    && fs != [] && fs[0].Resolved(c).Ok?
    && forall i | 0 < i < |fs| ::
         && SameSnapshots(fs[0].snapshots, fs[i].snapshots)
         && (fs[i - 1].Resolved(c).Ok? ==> Extends(fs[i - 1].Resolved(c).value.0, fs[i].db))
  }

  /** Every one of the polls succeeds, names the rails of the first, and keeps the aliases it ended with. */
  lemma {:induction false} AnswersRepeat<T>(c: Catalog<T>, fs: seq<Fetch<T>>, i: nat)
    requires SameAnswers(c, fs) && i < |fs|
    ensures var first, again := fs[0].Resolved(c), fs[i].Resolved(c);
            && again.Ok? && SameRails(first.value.1, again.value.1)
            && Extends(first.value.0, again.value.0)
            && (i > 0 ==> SameTables(fs[i].db, again.value.0))
  {
    if i > 0 {
      AnswersRepeat(c, fs, i - 1);
      LaterPollsRepeat(c, fs[0].db, fs[0].snapshots, fs[i].db, fs[i].snapshots);
    }
  }

  /** The complete cycle that a fetch is, its snapshots merged. */
  predicate CycleOf<T>(c: Catalog<T>, f: Fetch<T>, exchange: int, h: Happening) {
    && f.Resolved(c).Ok?
    && h.Cycle? && h.exchange == exchange && h.poll.complete && h.poll.observedAt == f.at
    && MergedPoll(f.Resolved(c).value.1, f.at, h.poll.observations)
  }

  predicate CyclesOf<T>(c: Catalog<T>, fs: seq<Fetch<T>>, exchange: int, hs: seq<Happening>) {
    |hs| == |fs| && forall i | 0 <= i < |fs| :: CycleOf(c, fs[i], exchange, hs[i])
  }

  /** What the snapshots of a rail say. */
  function Said(rails: seq<NormalizedRail>, at: Time, k: Key): Observation
    requires k in FirstKeys(rails)
  {
    GroupIsNonEmpty(rails, k);
    ObservationOf(Fold(GroupOf(rails, k)), at)
  }

  lemma SaidSame(a: seq<NormalizedRail>, at: Time, b: seq<NormalizedRail>, bt: Time, k: Key)
    requires SameRails(a, b) && k in FirstKeys(a)
    ensures k in FirstKeys(b) && SameData(Said(b, bt, k), Said(a, at, k))
  {
    FirstKeysSame(a, b);
    GroupsSame(a, b, k);
    GroupIsNonEmpty(a, k);
    FoldsSame(GroupOf(a, k), GroupOf(b, k));
  }

  lemma ObservationIsSaid(rails: seq<NormalizedRail>, at: Time, obs: seq<Observation>, k: Key)
    requires MergedPoll(rails, at, obs)
    ensures k in FirstKeys(rails) ==> exists ob <- obs :: ob.key == k
    ensures k in FirstKeys(rails) ==> forall ob <- obs | ob.key == k :: ob == Said(rails, at, k)
  {
    if k in FirstKeys(rails) {
      var j :| 0 <= j < |FirstKeys(rails)| && FirstKeys(rails)[j] == k;
      assert obs[j] in obs && obs[j].key == k;
    }
  }

  /** The happening is a complete report of the key that says what `said` says. */
  predicate Reports(h: Happening, k: Key, said: Observation) {
    var sig := SignalFor(h, k);
    sig.Seen? && sig.complete && SameData(sig.obs, said)
  }

  lemma CycleSays<T>(c: Catalog<T>, f: Fetch<T>, h: Happening, k: Key)
    ensures CycleOf(c, f, k.exchangeID, h) && k in FirstKeys(f.Resolved(c).value.1) ==>
              Reports(h, k, Said(f.Resolved(c).value.1, f.at, k))
  {
    if CycleOf(c, f, k.exchangeID, h) {
      ObservationIsSaid(f.Resolved(c).value.1, f.at, h.poll.observations, k);
      PollSignalIsSaid(h.poll, h.poll.observations, k);
    }
  }

  lemma FetchSays<T>(c: Catalog<T>, fs: seq<Fetch<T>>, hs: seq<Happening>, k: Key, i: nat)
    requires SameAnswers(c, fs) && i < |fs| == |hs|
    ensures CyclesOf(c, fs, k.exchangeID, hs) && k in FirstKeys(fs[0].Resolved(c).value.1) ==>
              Reports(hs[i], k, Said(fs[0].Resolved(c).value.1, fs[0].at, k))
  {
    AnswersRepeat(c, fs, i);
    CycleSays(c, fs[i], hs[i], k);
    if k in FirstKeys(fs[0].Resolved(c).value.1) {
      SaidSame(fs[0].Resolved(c).value.1, fs[0].at, fs[i].Resolved(c).value.1, fs[i].at, k);
    }
  }

  lemma {:induction false} HistoryIs(hs: seq<Happening>, k: Key, like: Observation)
    requires forall h <- hs :: Reports(h, k, like)
    ensures Repeating(HistoryOf(hs, k), like) && Observations(HistoryOf(hs, k)) == |hs|
  {
    if hs != [] {
      assert hs[|hs| - 1] in hs;
      HistoryIs(hs[..|hs| - 1], k, like);
      var front := HistoryOf(hs[..|hs| - 1], k);
      assert (front + [SignalFor(hs[|hs| - 1], k)])[..|front|] == front;
    }
  }

  lemma {:induction false} HistoryJoins(a: seq<Happening>, b: seq<Happening>, k: Key)
    ensures HistoryOf(a + b, k) == HistoryOf(a, k) + HistoryOf(b, k)
  {
    if b == [] {
      assert a + b == a;
    } else {
      HistoryJoins(a, b[..|b| - 1], k);
      assert (a + b)[..|a + b| - 1] == a + b[..|b| - 1];
    }
  }

  lemma AnswersAreRepeating<T>(c: Catalog<T>, fs: seq<Fetch<T>>, hs: seq<Happening>, k: Key)
    requires SameAnswers(c, fs)
    ensures k in FirstKeys(fs[0].Resolved(c).value.1) && CyclesOf(c, fs, k.exchangeID, hs) ==>
              && Repeating(HistoryOf(hs, k), Said(fs[0].Resolved(c).value.1, fs[0].at, k))
              && Observations(HistoryOf(hs, k)) == |fs|
  {
    if k in FirstKeys(fs[0].Resolved(c).value.1) && CyclesOf(c, fs, k.exchangeID, hs) {
      var said := Said(fs[0].Resolved(c).value.1, fs[0].at, k);
      forall h | h in hs ensures Reports(h, k, said) {
        var i :| 0 <= i < |hs| && hs[i] == h;
        FetchSays(c, fs, hs, k, i);
      }
      HistoryIs(hs, k, said);
    }
  }

  /** From `before` to `after`, `polls` polls settle the key on what was said exactly when its state needed no
      more of them, which N + 1 always do; a settled key stays so silently. */
  predicate SettledBy(o: Limits, before: Trace, after: Trace, polls: nat, said: Observation) {
    && (Settled(after.state, said) <==> polls >= Remaining(o, before.state, said))
    && (polls > o.confirmationsRequired ==> Settled(after.state, said))
    && (Settled(before.state, said) ==> Settled(after.state, said) && after.log == before.log)
  }

  /** When all that a venue further answers is the same snapshots, in complete polls, then every rail they name
      is settled on what they say, once what is in flight is written, exactly after as many polls as its state
      needed, and so after N + 1 at most; a rail that was settled stays so silently. Snapshots are resolved,
      merged, diffed and written in between, and whatever the other exchanges do makes no difference. */
  lemma SameAnswersSettle<T>(o: Limits, ids: IDs, c: Catalog<T>, ms: seq<Move>, later: seq<Move>,
                             fs: seq<Fetch<T>>, hs: seq<Happening>, k: Key)
    requires (forall m <- ms :: Respects(m, k.exchangeID)) && forall m <- later :: Respects(m, k.exchangeID)
    ensures var before := Share(Landed(o, ids, RunMoves(o, ids, ms), k.exchangeID), k);
            var after := Share(Landed(o, ids, RunMoves(o, ids, later), k.exchangeID), k);
            SameAnswers(c, fs) && k in FirstKeys(fs[0].Resolved(c).value.1) && CyclesOf(c, fs, k.exchangeID, hs)
            && DecidedSoFar(later, k.exchangeID) == DecidedSoFar(ms, k.exchangeID) + hs ==>
              SettledBy(o, before, after, |fs|, Said(fs[0].Resolved(c).value.1, fs[0].at, k))
  {
    if SameAnswers(c, fs) && DecidedSoFar(later, k.exchangeID) == DecidedSoFar(ms, k.exchangeID) + hs {
      AnswersAreRepeating(c, fs, hs, k);
      HistoryJoins(DecidedSoFar(ms, k.exchangeID), hs, k);
      if k in FirstKeys(fs[0].Resolved(c).value.1) && CyclesOf(c, fs, k.exchangeID, hs) {
        EveryRunConverges(o, ids, ms, later, HistoryOf(hs, k), Said(fs[0].Resolved(c).value.1, fs[0].at, k), k);
      }
    }
  }
}
