/** What the event log of one key says over a whole run: how often it can speak, in which order, and
    that it is enough to rebuild the rail. */
module RailEvents {
  import opened RailTypes
  import opened RailMachine
  import opened RailInvariant

  function Timeline(log: seq<Event>): seq<EventType> {
    seq(|log|, i requires 0 <= i < |log| => log[i].kind)
  }

  /** The kinds of event a statement is about: a stretch is one side's moves with the listing events
      that delimit its active stretches. */
  datatype Topic = Listing | Delisting | Deposits | Withdraws | DepositStretch | WithdrawStretch
  {
    predicate Covers(k: EventType) {
      match this
      case Listing => k == RailDelisted || k == RailRelisted
      case Delisting => k == RailDelisted
      case Deposits => k == DepositOff || k == DepositOn
      case Withdraws => k == WithdrawOff || k == WithdrawOn
      case DepositStretch => k == DepositOff || k == DepositOn || k == RailDelisted || k == RailRelisted
      case WithdrawStretch => k == WithdrawOff || k == WithdrawOn || k == RailDelisted || k == RailRelisted
    }
  }

  /** The subsequence of the kinds in `wanted`. */
  function Only(kinds: seq<EventType>, wanted: Topic): seq<EventType> {
    if kinds == [] then []
    else
      var last := kinds[|kinds| - 1];
      Only(kinds[..|kinds| - 1], wanted) + (if wanted.Covers(last) then [last] else [])
  }

  lemma {:induction false} OnlyConcat(a: seq<EventType>, b: seq<EventType>, wanted: Topic)
    ensures Only(a + b, wanted) == Only(a, wanted) + Only(b, wanted)
  {
    if b == [] {
      assert a + b == a;
    } else {
      assert (a + b)[..|a + b| - 1] == a + b[..|b| - 1];
      OnlyConcat(a, b[..|b| - 1], wanted);
    }
  }

  lemma TimelineConcat(a: seq<Event>, b: seq<Event>)
    ensures Timeline(a + b) == Timeline(a) + Timeline(b)
  {
  }

  lemma OnlyShort(kinds: seq<EventType>, wanted: Topic)
    requires |kinds| <= 1
    ensures Only(kinds, wanted) == if kinds != [] && wanted.Covers(kinds[0]) then kinds else []
  {
  }

  /** The events of one topic that a move from `s` to `s'` must record. */
  function Moves(s: KeyState, s': KeyState, topic: Topic): seq<EventType> {
    if s.rail.None? || s'.rail.None? || s.Initial() then []
    else
      var r, r' := s.rail.value, s'.rail.value;
      if r.isActive && r'.isActive then
        (if topic.Covers(DepositOn) then DepositMove(r, r') else []) +
        (if topic.Covers(WithdrawOn) then WithdrawMove(r, r') else [])
      else
        var k := if r'.isActive then RailRelisted else RailDelisted;
        if r.isActive != r'.isActive && topic.Covers(k) then [k] else []
  }

  /** How the kinds `added` to the log by one signal relate to the states before and after it. */
  ghost predicate Told(s: KeyState, s': KeyState, added: seq<EventType>) {
    && (s.rail.None? ==> s'.rail.None? || s'.Initial())
    && (s.rail.Some? ==> s'.rail.Some? && (s'.Initial() ==> s.Initial()))
    && (s.rail.None? || s.Initial() ==> added == [])
    && forall topic :: Only(added, topic) == Moves(s, s', topic)
  }

  lemma SignalTells(o: Limits, id: int, t: Trace, sig: Signal) returns (added: seq<EventType>)
    requires Coherent(o, t.state)
    ensures Timeline(Advance(o, id, t, sig).log) == Timeline(t.log) + added
    ensures Told(t.state, Advance(o, id, t, sig).state, added)
  {
    added := Timeline(React(o, t.state, sig).events);
    TimelineConcat(t.log, React(o, t.state, sig).events);
    if t.state.rail.None? {
      AdvanceUnknown(o, id, t, sig);
    } else {
      match sig
      case Seen(obs, complete) =>
        if t.state.Initial() {
          AdvanceInitial(o, id, t, obs, complete);
        } else if t.state.Active() {
          ActiveTells(o, id, t, obs, complete);
        } else {
          AdvanceInactive(o, id, t, obs, complete);
          ShortTells(added);
        }
      case Missed(at) =>
        AdvanceAbsent(o, id, t, at);
        ShortTells(added);
      case _ => AdvanceQuiet(o, id, t);
    }
  }

  lemma ShortTells(added: seq<EventType>)
    requires |added| <= 1
    ensures forall topic :: Only(added, topic) == if added != [] && topic.Covers(added[0]) then added else []
  {
    forall topic { OnlyShort(added, topic); }
  }

  lemma ActiveTells(o: Limits, id: int, t: Trace, obs: Observation, complete: bool)
    requires Coherent(o, t.state) && t.state.Stable()
    ensures var t' := Advance(o, id, t, Seen(obs, complete));
            t'.state.Stable() && Told(t.state, t'.state, Timeline(React(o, t.state, Seen(obs, complete)).events))
  {
    AdvanceActive(o, id, t, obs, complete);
    var prev := t.state.rail.value;
    var p := Streaked(t.state.status, obs);
    var commit := obs.Reported() != prev.Committed() && p.count >= o.confirmationsRequired;
    var after := Refreshed(prev, obs, if commit then Some(p) else None);
    var kinds := ChangeKinds(prev, after, obs, commit);
    assert Timeline(EventsOf(kinds, prev, after, obs.observedAt)) == kinds;
    forall topic ensures Only(kinds, topic) == Moves(t.state, Advance(o, id, t, Seen(obs, complete)).state, topic) {
      OnlyChanges(prev, after, obs, commit, topic);
    }
  }

  lemma OnlyChanges(prev: Rail, after: Rail, obs: Observation, commit: bool, wanted: Topic)
    requires !commit ==> prev.Committed() == after.Committed()
    ensures Only(ChangeKinds(prev, after, obs, commit), wanted)
              == (if wanted.Covers(DepositOn) then DepositMove(prev, after) else [])
                 + (if wanted.Covers(WithdrawOn) then WithdrawMove(prev, after) else [])
  {
    OnlyKinds(if commit then StatusChangeEvents(prev, after) else [],
              DepositMove(prev, after), WithdrawMove(prev, after),
              if FeeDiffers(prev, obs) then [FeeChanged] else [],
              if MinDiffers(prev, obs) then [MinChanged] else [], wanted);
  }

  lemma OnlyKinds(status: seq<EventType>, d: seq<EventType>, w: seq<EventType>, f: seq<EventType>, m: seq<EventType>,
                  wanted: Topic)
    requires status == d + w
    requires d == [] || d == [DepositOff] || d == [DepositOn]
    requires w == [] || w == [WithdrawOff] || w == [WithdrawOn]
    requires f == [] || f == [FeeChanged]
    requires m == [] || m == [MinChanged]
    ensures Only(status + f + m, wanted)
              == (if wanted.Covers(DepositOn) then d else []) + (if wanted.Covers(WithdrawOn) then w else [])
  {
    OnlySum(status, d, w, f, m, wanted);
    OnlySide(d, DepositOff, DepositOn, wanted);
    OnlySide(w, WithdrawOff, WithdrawOn, wanted);
  }

  lemma OnlyDrops(a: seq<EventType>, b: seq<EventType>, wanted: Topic)
    requires b == [] || (|b| == 1 && !wanted.Covers(b[0]))
    ensures Only(a + b, wanted) == Only(a, wanted)
  {
    OnlyConcat(a, b, wanted);
    OnlyShort(b, wanted);
  }

  lemma OnlySum(status: seq<EventType>, d: seq<EventType>, w: seq<EventType>, f: seq<EventType>, m: seq<EventType>,
                wanted: Topic)
    requires status == d + w
    requires f == [] || (|f| == 1 && !wanted.Covers(f[0]))
    requires m == [] || (|m| == 1 && !wanted.Covers(m[0]))
    ensures Only(status + f + m, wanted) == Only(d, wanted) + Only(w, wanted)
  {
    OnlyDrops(status + f, m, wanted);
    OnlyDrops(status, f, wanted);
    OnlyConcat(d, w, wanted);
  }

  lemma OnlySide(d: seq<EventType>, off: EventType, on: EventType, wanted: Topic)
    requires d == [] || d == [off] || d == [on]
    requires wanted.Covers(off) == wanted.Covers(on)
    ensures Only(d, wanted) == if wanted.Covers(on) then d else []
  {
    OnlyShort(d, wanted);
  }

  // --- How often the log can speak ---

  function Observations(sigs: seq<Signal>): nat {
    if sigs == [] then 0 else Observations(sigs[..|sigs| - 1]) + if sigs[|sigs| - 1].Seen? then 1 else 0
  }

  function Absences(sigs: seq<Signal>): nat {
    if sigs == [] then 0 else Absences(sigs[..|sigs| - 1]) + if sigs[|sigs| - 1].Missed? then 1 else 0
  }

  predicate Commits(before: KeyState, after: KeyState) {
    before.Stable() && after.rail.Some? && before.rail.value.Committed() != after.rail.value.Committed()
  }

  /** The number of polls of a run that change the committed pair of a settled rail. */
  function CommitCount(o: Limits, id: int, sigs: seq<Signal>): nat {
    if sigs == [] then 0
    else
      var front := sigs[..|sigs| - 1];
      CommitCount(o, id, front) + if Commits(Run(o, id, front).state, Run(o, id, sigs).state) then 1 else 0
  }

  function PendingCount(s: KeyState): nat {
    if s.status.Some? && s.status.value.count >= 0 then s.status.value.count else 0
  }

  function MissingCount(s: KeyState): nat {
    if s.Active() && s.rail.value.missingCount >= 0 then s.rail.value.missingCount else 0
  }

  /** One signal pays for what it spends: a commit uses up N confirmations, a delisting T absences. */
  predicate Pays(o: Limits, s: KeyState, s': KeyState, sig: Signal) {
    && PendingCount(s') + (if Commits(s, s') then o.confirmationsRequired else 0)
         <= PendingCount(s) + (if sig.Seen? then 1 else 0)
    && MissingCount(s') + (if s.Active() && !s'.Active() then o.delistThreshold else 0)
         <= MissingCount(s) + (if sig.Missed? then 1 else 0)
  }

  lemma SignalPays(o: Limits, id: int, t: Trace, sig: Signal)
    requires Coherent(o, t.state)
    ensures Pays(o, t.state, Advance(o, id, t, sig).state, sig)
  {
    if t.state.rail.None? {
      AdvanceUnknown(o, id, t, sig);
    } else {
      match sig
      case Seen(obs, complete) =>
        if t.state.Initial() {
          AdvanceInitial(o, id, t, obs, complete);
        } else if t.state.Active() {
          AdvanceActive(o, id, t, obs, complete);
        } else {
          AdvanceInactive(o, id, t, obs, complete);
        }
      case Missed(at) => AdvanceAbsent(o, id, t, at);
      case _ => AdvanceQuiet(o, id, t);
    }
  }

  /** A balance of `n` per `spent` stays covered when each step earns what it spends. */
  lemma Balance(n: nat, spent: nat, credit: nat, earned: nat, spends: bool, credit': nat, earns: nat)
    requires n * spent + credit <= earned
    requires credit' + (if spends then n else 0) <= credit + earns
    ensures n * (spent + if spends then 1 else 0) + credit' <= earned + earns
  {
  }

  /** What events `kinds` and `commits` committed changes have used up is covered by what was seen. */
  predicate PaidFor(o: Limits, s: KeyState, kinds: seq<EventType>, commits: nat, seen: nat, missed: nat) {
    && o.confirmationsRequired * commits + PendingCount(s) <= seen
    && o.delistThreshold * |Only(kinds, Delisting)| + MissingCount(s) <= missed
    && |Only(kinds, Deposits)| <= commits
    && |Only(kinds, Withdraws)| <= commits
  }

  lemma PaidForOneMore(o: Limits, s: KeyState, s': KeyState, sig: Signal, kinds: seq<EventType>, added: seq<EventType>,
                       commits: nat, commits': nat, seen: nat, seen': nat, missed: nat, missed': nat)
    requires PaidFor(o, s, kinds, commits, seen, missed) && Told(s, s', added) && Pays(o, s, s', sig)
    requires commits' == commits + if Commits(s, s') then 1 else 0
    requires seen' == seen + if sig.Seen? then 1 else 0
    requires missed' == missed + if sig.Missed? then 1 else 0
    ensures PaidFor(o, s', kinds + added, commits', seen', missed')
  {
    var gone := s.Active() && !s'.Active();
    var delists := |Only(kinds, Delisting)|;
    CountAdded(kinds, added, s, s');
    Balance(o.confirmationsRequired, commits, PendingCount(s), seen, Commits(s, s'), PendingCount(s'),
        if sig.Seen? then 1 else 0);
    Balance(o.delistThreshold, delists, MissingCount(s), missed, gone, MissingCount(s'), if sig.Missed? then 1 else 0);
    Monotone(o.delistThreshold, |Only(kinds + added, Delisting)|, delists + if gone then 1 else 0);
  }

  lemma {:induction false} FlappingIsPaidFor(o: Limits, id: int, sigs: seq<Signal>)
    ensures var t := Run(o, id, sigs);
            PaidFor(o, t.state, Timeline(t.log), CommitCount(o, id, sigs), Observations(sigs), Absences(sigs))
  {
    if sigs != [] {
      var front, last := sigs[..|sigs| - 1], sigs[|sigs| - 1];
      var t := Run(o, id, front);
      FlappingIsPaidFor(o, id, front);
      ReachableIsCoherent(o, id, front);
      var added := SignalTells(o, id, t, last);
      SignalPays(o, id, t, last);
      PaidForOneMore(o, t.state, Run(o, id, sigs).state, last, Timeline(t.log), added,
                     CommitCount(o, id, front), CommitCount(o, id, sigs),
                     Observations(front), Observations(sigs), Absences(front), Absences(sigs));
    }
  }

  lemma Monotone(n: nat, a: nat, b: nat)
    requires a <= b
    ensures n * a <= n * b
  {
  }

  lemma CountAdded(kinds: seq<EventType>, added: seq<EventType>, s: KeyState, s': KeyState)
    requires Told(s, s', added)
    ensures var c := if Commits(s, s') then 1 else 0;
            && |Only(kinds + added, Delisting)|
                 <= |Only(kinds, Delisting)| + (if s.Active() && !s'.Active() then 1 else 0)
            && |Only(kinds + added, Deposits)| <= |Only(kinds, Deposits)| + c
            && |Only(kinds + added, Withdraws)| <= |Only(kinds, Withdraws)| + c
  {
    OnlyConcat(kinds, added, Delisting);
    OnlyConcat(kinds, added, Deposits);
    OnlyConcat(kinds, added, Withdraws);
    MovesAreFew(s, s');
  }

  lemma MovesAreFew(s: KeyState, s': KeyState)
    ensures |Moves(s, s', Delisting)| <= if s.Active() && !s'.Active() then 1 else 0
    ensures |Moves(s, s', Deposits)| <= if Commits(s, s') then 1 else 0
    ensures |Moves(s, s', Withdraws)| <= if Commits(s, s') then 1 else 0
  {
  }

  /** Anti-flap bounds over any run: at most one poll in N observations commits a status change, each
      such poll records at most one deposit and one withdraw event, and at most one delisting is
      recorded for every T absences from complete polls. */
  lemma FlappingIsBounded(o: Limits, id: int, sigs: seq<Signal>)
    ensures var kinds := Timeline(Run(o, id, sigs).log);
            && o.confirmationsRequired * CommitCount(o, id, sigs) <= Observations(sigs)
            && |Only(kinds, Deposits)| <= CommitCount(o, id, sigs)
            && |Only(kinds, Withdraws)| <= CommitCount(o, id, sigs)
            && o.delistThreshold * |Only(kinds, Delisting)| <= Absences(sigs)
  {
    FlappingIsPaidFor(o, id, sigs);
  }

  // --- In which order ---

  predicate NoRepeat(kinds: seq<EventType>) {
    forall i :: 0 < i < |kinds| ==> kinds[i - 1] != kinds[i]
  }

  /** The kinds of one side together with the listing events that delimit its active stretches. */
  predicate SideTells(kinds: seq<EventType>, off: EventType, on: EventType, active: bool, enabled: bool) {
    && NoRepeat(kinds)
    && (kinds != [] ==>
          var last := kinds[|kinds| - 1];
          && (last == RailDelisted ==> !active)
          && (last == RailRelisted ==> active)
          && (last == off ==> active && !enabled)
          && (last == on ==> active && enabled))
  }

  /** Delist and relist events alternate and the last one tells whether the rail is active. */
  predicate ListingTells(kinds: seq<EventType>, active: bool) {
    NoRepeat(kinds) && (kinds != [] ==> (active <==> kinds[|kinds| - 1] == RailRelisted))
  }

  predicate EventsTell(kinds: seq<EventType>, s: KeyState) {
    match s.rail
    case None => kinds == []
    case Some(r) =>
      && (r.isInitial ==> kinds == [])
      && ListingTells(Only(kinds, Listing), r.isActive)
      && SideTells(Only(kinds, DepositStretch), DepositOff, DepositOn, r.isActive, r.depositEnabled)
      && SideTells(Only(kinds, WithdrawStretch), WithdrawOff, WithdrawOn, r.isActive, r.withdrawEnabled)
  }

  lemma {:induction false} OnlyIsWanted(kinds: seq<EventType>, wanted: Topic)
    ensures forall k <- Only(kinds, wanted) :: wanted.Covers(k)
  {
    if kinds != [] {
      OnlyIsWanted(kinds[..|kinds| - 1], wanted);
    }
  }

  lemma SideKeepsOrder(kinds: seq<EventType>, added: seq<EventType>, off: EventType, on: EventType,
                       active: bool, enabled: bool, active': bool, enabled': bool)
    requires off != on && !Listing.Covers(off) && !Listing.Covers(on)
    requires SideTells(kinds, off, on, active, enabled)
    requires active && !active' ==> added == [RailDelisted]
    requires !active && active' ==> added == [RailRelisted]
    requires !active && !active' ==> added == []
    requires active && active' ==> added == if enabled == enabled' then [] else [if enabled' then on else off]
    ensures SideTells(kinds + added, off, on, active', enabled')
  {
    if added == [] {
      assert kinds + added == kinds;
    } else {
      assert (kinds + added)[..|kinds|] == kinds;
    }
  }

  lemma ListingKeepsOrder(kinds: seq<EventType>, added: seq<EventType>, active: bool, active': bool)
    requires ListingTells(kinds, active) && forall k <- kinds :: Listing.Covers(k)
    requires added == if active == active' then [] else [if active' then RailRelisted else RailDelisted]
    ensures ListingTells(kinds + added, active')
  {
    if added == [] {
      assert kinds + added == kinds;
    } else {
      assert kinds != [] ==> Listing.Covers(kinds[|kinds| - 1]);
    }
  }

  lemma StretchMoves(s: KeyState, s': KeyState)
    requires s.rail.Some? && s'.rail.Some? && !s.Initial()
    ensures var r, r' := s.rail.value, s'.rail.value;
            var listed := if r.isActive == r'.isActive then []
                else [if r'.isActive then RailRelisted else RailDelisted];
            && Moves(s, s', Listing) == listed
            && Moves(s, s', DepositStretch) == (if r.isActive && r'.isActive then DepositMove(r, r') else listed)
            && Moves(s, s', WithdrawStretch) == (if r.isActive && r'.isActive then WithdrawMove(r, r') else listed)
  {
  }

  lemma DepositsKeepOrder(kinds: seq<EventType>, added: seq<EventType>, s: KeyState, s': KeyState)
    requires s.rail.Some? && s'.rail.Some? && !s.Initial()
    requires SideTells(Only(kinds, DepositStretch), DepositOff, DepositOn, s.rail.value.isActive,
                       s.rail.value.depositEnabled)
    requires Only(added, DepositStretch) == Moves(s, s', DepositStretch)
    ensures SideTells(Only(kinds + added, DepositStretch), DepositOff, DepositOn,
                      s'.rail.value.isActive, s'.rail.value.depositEnabled)
  {
    OnlyConcat(kinds, added, DepositStretch);
    StretchMoves(s, s');
    SideKeepsOrder(Only(kinds, DepositStretch), Moves(s, s', DepositStretch), DepositOff, DepositOn,
                   s.rail.value.isActive, s.rail.value.depositEnabled, s'.rail.value.isActive,
                   s'.rail.value.depositEnabled);
  }

  lemma WithdrawsKeepOrder(kinds: seq<EventType>, added: seq<EventType>, s: KeyState, s': KeyState)
    requires s.rail.Some? && s'.rail.Some? && !s.Initial()
    requires SideTells(Only(kinds, WithdrawStretch), WithdrawOff, WithdrawOn, s.rail.value.isActive,
                       s.rail.value.withdrawEnabled)
    requires Only(added, WithdrawStretch) == Moves(s, s', WithdrawStretch)
    ensures SideTells(Only(kinds + added, WithdrawStretch), WithdrawOff, WithdrawOn,
                      s'.rail.value.isActive, s'.rail.value.withdrawEnabled)
  {
    OnlyConcat(kinds, added, WithdrawStretch);
    StretchMoves(s, s');
    SideKeepsOrder(Only(kinds, WithdrawStretch), Moves(s, s', WithdrawStretch), WithdrawOff, WithdrawOn,
                   s.rail.value.isActive, s.rail.value.withdrawEnabled, s'.rail.value.isActive,
                   s'.rail.value.withdrawEnabled);
  }

  lemma ListingsKeepOrder(kinds: seq<EventType>, added: seq<EventType>, s: KeyState, s': KeyState)
    requires s.rail.Some? && s'.rail.Some? && !s.Initial()
    requires ListingTells(Only(kinds, Listing), s.rail.value.isActive) && Only(added, Listing) == Moves(s, s', Listing)
    ensures ListingTells(Only(kinds + added, Listing), s'.rail.value.isActive)
  {
    StretchMoves(s, s');
    OnlyConcat(kinds, added, Listing);
    OnlyIsWanted(kinds, Listing);
    ListingKeepsOrder(Only(kinds, Listing), Moves(s, s', Listing), s.rail.value.isActive, s'.rail.value.isActive);
  }

  lemma AddedKeepsOrder(kinds: seq<EventType>, added: seq<EventType>, s: KeyState, s': KeyState)
    requires EventsTell(kinds, s) && Told(s, s', added)
    ensures EventsTell(kinds + added, s')
  {
    if s.rail.None? || s.Initial() {
      assert kinds + added == [];
    } else {
      DepositsKeepOrder(kinds, added, s, s');
      WithdrawsKeepOrder(kinds, added, s, s');
      ListingsKeepOrder(kinds, added, s, s');
    }
  }

  /** Over any run, delist and relist events alternate and the last of them tells whether the rail is
      active; within an active stretch the off and on events of each side alternate and the last of
      them tells whether the side is enabled. */
  lemma {:induction false} EventsAlternate(o: Limits, id: int, sigs: seq<Signal>)
    ensures EventsTell(Timeline(Run(o, id, sigs).log), Run(o, id, sigs).state)
  {
    if sigs != [] {
      var front := sigs[..|sigs| - 1];
      EventsAlternate(o, id, front);
      ReachableIsCoherent(o, id, front);
      var added := SignalTells(o, id, Run(o, id, front), sigs[|sigs| - 1]);
      AddedKeepsOrder(Timeline(Run(o, id, front).log), added, Run(o, id, front).state, Run(o, id, sigs).state);
    }
  }

  // --- Fees and minimums ---

  predicate FeeMoved(before: Rail, after: Rail) {
    before.withdrawFee != after.withdrawFee || before.withdrawFeeType != after.withdrawFeeType
    || before.withdrawFeePercent != after.withdrawFeePercent
  }

  /** The kinds of event a signal adds to a log. */
  function AddedBy(o: Limits, t: Trace, sig: Signal): seq<EventType> {
    Timeline(React(o, t.state, sig).events)
  }

  lemma PricesIn(status: seq<EventType>, f: seq<EventType>, m: seq<EventType>, kinds: seq<EventType>)
    requires kinds == status + f + m && FeeChanged !in status && MinChanged !in status
    requires (f == [] || f == [FeeChanged]) && (m == [] || m == [MinChanged])
    ensures FeeChanged in kinds <==> f != []
    ensures MinChanged in kinds <==> m != []
  {
    assert f != [] ==> kinds[|status|] == FeeChanged;
    assert m != [] ==> kinds[|status| + |f|] == MinChanged;
  }

  lemma PriceKinds(prev: Rail, obs: Observation, commit: Option<PendingStatus>)
    ensures var after := Refreshed(prev, obs, commit);
            var kinds := ChangeKinds(prev, after, obs, commit.Some?);
            && (FeeChanged in kinds <==> FeeMoved(prev, after))
            && (MinChanged in kinds <==> prev.withdrawMin != after.withdrawMin)
  {
    var after := Refreshed(prev, obs, commit);
    PricesIn(if commit.Some? then StatusChangeEvents(prev, after) else [],
             if FeeDiffers(prev, obs) then [FeeChanged] else [],
             if MinDiffers(prev, obs) then [MinChanged] else [], ChangeKinds(prev, after, obs, commit.Some?));
  }

  lemma ActivePrices(o: Limits, id: int, t: Trace, obs: Observation, complete: bool)
    requires t.state.Stable()
    ensures var s' := Advance(o, id, t, Seen(obs, complete)).state;
            && s'.rail.Some?
            && (FeeChanged in AddedBy(o, t, Seen(obs, complete)) <==> FeeMoved(t.state.rail.value, s'.rail.value))
            && (MinChanged in AddedBy(o, t, Seen(obs, complete)) <==>
                 t.state.rail.value.withdrawMin != s'.rail.value.withdrawMin)
  {
    AdvanceActive(o, id, t, obs, complete);
    var prev := t.state.rail.value;
    var p := Streaked(t.state.status, obs);
    var commit := obs.Reported() != prev.Committed() && p.count >= o.confirmationsRequired;
    var after := Refreshed(prev, obs, if commit then Some(p) else None);
    var kinds := ChangeKinds(prev, after, obs, commit);
    assert Timeline(EventsOf(kinds, prev, after, obs.observedAt)) == kinds;
    PriceKinds(prev, obs, if commit then Some(p) else None);
  }

  /** A fee or minimum event is recorded exactly when an observation moves the fee, its type or percent, or
      the minimum of an active, settled rail. */
  lemma PriceEventsAreExact(o: Limits, id: int, sigs: seq<Signal>, sig: Signal)
    ensures var t, t' := Run(o, id, sigs), Run(o, id, sigs + [sig]);
            var added := AddedBy(o, t, sig);
            && Timeline(t'.log) == Timeline(t.log) + added
            && (FeeChanged in added <==> t.state.Stable() && FeeMoved(t.state.rail.value, t'.state.rail.value))
            && (MinChanged in added <==>
                  t.state.Stable() && t.state.rail.value.withdrawMin != t'.state.rail.value.withdrawMin)
  {
    var t := Run(o, id, sigs);
    RunSnoc(o, id, Trace(UNKNOWN, []), sigs, sig);
    TimelineConcat(t.log, React(o, t.state, sig).events);
    if t.state.rail.None? {
      AdvanceUnknown(o, id, t, sig);
    } else {
      match sig
      case Seen(obs, complete) =>
        if t.state.Initial() {
          AdvanceInitial(o, id, t, obs, complete);
        } else if t.state.Active() {
          ActivePrices(o, id, t, obs, complete);
        } else {
          AdvanceInactive(o, id, t, obs, complete);
        }
      case Missed(at) => AdvanceAbsent(o, id, t, at);
      case _ => AdvanceQuiet(o, id, t);
    }
  }

  // --- What an event says ---

  /** The snapshot shows the rail, field by field. */
  predicate Shows(s: RailState, r: Rail) {
    && s.depositEnabled == r.depositEnabled && s.withdrawEnabled == r.withdrawEnabled
    && s.depositConfirmations == r.depositConfirmations
    && s.withdrawMin == r.withdrawMin && s.withdrawFee == r.withdrawFee
    && s.withdrawFeeType == r.withdrawFeeType && s.withdrawFeePercent == r.withdrawFeePercent
    && s.depositOffStartedAt == r.depositOffStartedAt && s.withdrawOffStartedAt == r.withdrawOffStartedAt
    && s.isActive == r.isActive && s.missingSince == r.missingSince && s.missingCount == r.missingCount
    && s.isInitial == r.isInitial && s.lastSeenAt == r.lastSeenAt
  }

  /** The event is of this kind, was recorded at this time, and shows the rail before and after. */
  predicate Describes(e: Event, kind: EventType, before: Rail, after: Rail, at: Time) {
    && e.kind == kind && e.railID == before.id && e.key == before.key
    && Shows(e.before, before) && Shows(e.after, after) && e.occurredAt == at
  }

  function SideKinds(was: bool, now: bool, off: EventType, on: EventType): seq<EventType> {
    if was && !now then [off] else if !was && now then [on] else []
  }

  /** What is to be told of a settled rail that was `before` and is `after`, and in which order. */
  function KindsOf(before: Rail, after: Rail): seq<EventType> {
    if before.isActive && after.isActive then
      SideKinds(before.depositEnabled, after.depositEnabled, DepositOff, DepositOn)
      + SideKinds(before.withdrawEnabled, after.withdrawEnabled, WithdrawOff, WithdrawOn)
      + (if FeeMoved(before, after) then [FeeChanged] else [])
      + (if before.withdrawMin != after.withdrawMin then [MinChanged] else [])
    else if before.isActive then [RailDelisted]
    else if after.isActive then [RailRelisted]
    else []
  }

  /** The log `after` is the log `before` followed by one event for each kind. */
  ghost predicate Appends(before: seq<Event>, after: seq<Event>, kinds: seq<EventType>, r: Rail, r': Rail, at: Time) {
    && |after| == |before| + |kinds| && before <= after
    && forall i :: 0 <= i < |kinds| ==> Describes(after[|before| + i], kinds[i], r, r', at)
  }

  /** What one signal does to the log of a key. */
  ghost predicate Recorded(t: Trace, t': Trace, sig: Signal) {
    if t.state.rail.None? || t.state.Initial() then t'.log == t.log
    else
      && t'.state.rail.Some?
      && match sig
         case Seen(obs, _) =>
           Appends(t.log, t'.log, KindsOf(t.state.rail.value, t'.state.rail.value), t.state.rail.value,
                   t'.state.rail.value, obs.observedAt)
         case Missed(at) =>
           Appends(t.log, t'.log, KindsOf(t.state.rail.value, t'.state.rail.value), t.state.rail.value,
                   t'.state.rail.value, at)
         case _ => t'.log == t.log
  }

  lemma OneEvent(log: seq<Event>, kind: EventType, r: Rail, r': Rail, at: Time)
    ensures Appends(log, log + [NewEvent(kind, r, r', at)], [kind], r, r', at)
  {
  }

  lemma ActiveKinds(prev: Rail, obs: Observation, commit: Option<PendingStatus>)
    requires prev.isActive
    requires commit.Some? ==> commit.value.target == obs.Reported()
    ensures var after := Refreshed(prev, obs, commit);
            ChangeKinds(prev, after, obs, commit.Some?) == KindsOf(prev, after)
  {
  }

  lemma ActiveRecords(o: Limits, id: int, t: Trace, obs: Observation, complete: bool)
    requires t.state.Stable()
    ensures Recorded(t, Advance(o, id, t, Seen(obs, complete)), Seen(obs, complete))
  {
    AdvanceActive(o, id, t, obs, complete);
    var prev := t.state.rail.value;
    var p := Streaked(t.state.status, obs);
    var commit := obs.Reported() != prev.Committed() && p.count >= o.confirmationsRequired;
    ActiveKinds(prev, obs, if commit then Some(p) else None);
  }

  lemma InactiveRecords(o: Limits, id: int, t: Trace, obs: Observation, complete: bool)
    requires t.state.rail.Some? && !t.state.Initial() && !t.state.Active()
    ensures Recorded(t, Advance(o, id, t, Seen(obs, complete)), Seen(obs, complete))
  {
    AdvanceInactive(o, id, t, obs, complete);
  }

  lemma AbsenceRecords(o: Limits, id: int, t: Trace, at: Time)
    requires Coherent(o, t.state) && t.state.rail.Some?
    ensures Recorded(t, Advance(o, id, t, Missed(at)), Missed(at))
  {
    AdvanceAbsent(o, id, t, at);
  }

  lemma SignalRecords(o: Limits, id: int, t: Trace, sig: Signal)
    requires Coherent(o, t.state)
    ensures Recorded(t, Advance(o, id, t, sig), sig)
  {
    if t.state.rail.None? {
      AdvanceUnknown(o, id, t, sig);
    } else if sig.Missed? {
      AbsenceRecords(o, id, t, sig.at);
    } else if !sig.Seen? {
      AdvanceQuiet(o, id, t);
    } else if t.state.Initial() {
      AdvanceInitial(o, id, t, sig.obs, sig.complete);
    } else if t.state.Active() {
      ActiveRecords(o, id, t, sig.obs, sig.complete);
    } else {
      InactiveRecords(o, id, t, sig.obs, sig.complete);
    }
  }

  /** In every run, an event is recorded exactly when a settled rail moves: one for each side that moved, one
      for a fee and one for a minimum that moved, in that order, or else one for leaving or joining the list.
      Each shows the whole rail before and after and has the time of the observation or of the absence. */
  lemma EventsAreExact(o: Limits, id: int, sigs: seq<Signal>, sig: Signal)
    ensures Recorded(Run(o, id, sigs), Run(o, id, sigs + [sig]), sig)
  {
    RunSnoc(o, id, Trace(UNKNOWN, []), sigs, sig);
    ReachableIsCoherent(o, id, sigs);
    SignalRecords(o, id, Run(o, id, sigs), sig);
  }

  // --- Enough to rebuild the rail ---

  /** What an event subscriber can know of a rail. */
  datatype View = View(
    depositEnabled: bool,
    withdrawEnabled: bool,
    depositOffStartedAt: Option<Time>,
    withdrawOffStartedAt: Option<Time>,
    withdrawMin: Option<Decimal>,
    withdrawFee: Option<Decimal>,
    withdrawFeeType: string,
    withdrawFeePercent: Option<Decimal>,
    isActive: bool)

  function ViewOf(s: RailState): View {
    View(s.depositEnabled, s.withdrawEnabled, s.depositOffStartedAt, s.withdrawOffStartedAt,
         s.withdrawMin, s.withdrawFee, s.withdrawFeeType, s.withdrawFeePercent, s.isActive)
  }

  function ViewOfRail(r: Rail): View {
    View(r.depositEnabled, r.withdrawEnabled, r.depositOffStartedAt, r.withdrawOffStartedAt,
         r.withdrawMin, r.withdrawFee, r.withdrawFeeType, r.withdrawFeePercent, r.isActive)
  }

  /** The rail's state at the poll that committed its baseline. */
  function AtBaseline(o: Limits, id: int, sigs: seq<Signal>): Option<RailState> {
    if sigs == [] then None
    else
      var front := sigs[..|sigs| - 1];
      var after := Run(o, id, sigs).state;
      if Run(o, id, front).state.Initial() && after.rail.Some? && !after.Initial()
      then Some(StateFromRail(after.rail.value))
      else AtBaseline(o, id, front)
  }

  /** A subscriber's copy: start from `base` and take over the After snapshot of each event in turn. */
  function Replay(base: RailState, log: seq<Event>): RailState {
    if log == [] then base else log[|log| - 1].after
  }

  lemma AdvanceIsRecorded(o: Limits, id: int, t: Trace, sig: Signal, base: RailState)
    requires Coherent(o, t.state)
    requires t.state.Stable() ==> ViewOf(Replay(base, t.log)) == ViewOfRail(t.state.rail.value)
    requires t.state.rail.Some? && !t.state.Initial()
    ensures var t' := Advance(o, id, t, sig);
            && t'.state.rail.Some?
            && (t'.state.Stable() ==> ViewOf(Replay(base, t'.log)) == ViewOfRail(t'.state.rail.value))
  {
    match sig
    case Seen(obs, complete) =>
      if t.state.Active() {
        ActiveIsRecorded(o, id, t, obs, complete, base);
      } else {
        AdvanceInactive(o, id, t, obs, complete);
      }
    case Missed(at) => AdvanceAbsent(o, id, t, at);
    case _ => AdvanceQuiet(o, id, t);
  }

  lemma ActiveIsRecorded(o: Limits, id: int, t: Trace, obs: Observation, complete: bool, base: RailState)
    requires Coherent(o, t.state) && t.state.Stable()
    requires ViewOf(Replay(base, t.log)) == ViewOfRail(t.state.rail.value)
    ensures var t' := Advance(o, id, t, Seen(obs, complete));
            && t'.state.Stable()
            && ViewOf(Replay(base, t'.log)) == ViewOfRail(t'.state.rail.value)
  {
    AdvanceActive(o, id, t, obs, complete);
    var prev := t.state.rail.value;
    var p := Streaked(t.state.status, obs);
    var commit := obs.Reported() != prev.Committed() && p.count >= o.confirmationsRequired;
    var after := Refreshed(prev, obs, if commit then Some(p) else None);
    QuietKeepsView(prev, obs, if commit then Some(p) else None);
    assert t.log + [] == t.log;
  }

  /** An observation that records nothing leaves the view of the rail as it is. */
  lemma QuietKeepsView(prev: Rail, obs: Observation, commit: Option<PendingStatus>)
    requires prev.isActive && (commit.Some? ==> commit.value.target != prev.Committed())
    ensures var after := Refreshed(prev, obs, commit);
            ChangeKinds(prev, after, obs, commit.Some?) == [] ==> ViewOfRail(after) == ViewOfRail(prev)
  {
    var after := Refreshed(prev, obs, commit);
    assert commit.Some? ==> after.Committed() != prev.Committed() && |StatusChangeEvents(prev, after)| > 0;
  }

  /** The event log is faithful: for every active, settled rail, the state at its baseline overridden by
      the After snapshot of each event, all of which are later, is the stored rail in everything a
      subscriber can know. */
  lemma {:induction false} LogIsFaithful(o: Limits, id: int, sigs: seq<Signal>)
    ensures var t := Run(o, id, sigs);
            && (t.state.rail.Some? && !t.state.Initial() ==> AtBaseline(o, id, sigs).Some?)
            && (t.state.Stable() ==>
                  ViewOf(Replay(AtBaseline(o, id, sigs).value, t.log)) == ViewOfRail(t.state.rail.value))
    decreases |sigs|
  {
    if sigs != [] {
      var front, last := sigs[..|sigs| - 1], sigs[|sigs| - 1];
      var t := Run(o, id, front);
      LogIsFaithful(o, id, front);
      ReachableIsCoherent(o, id, front);
      var added := SignalTells(o, id, t, last);
      if t.state.rail.Some? && !t.state.Initial() {
        AdvanceIsRecorded(o, id, t, last, AtBaseline(o, id, front).value);
      } else {
        EventsAlternate(o, id, front);
        assert |Timeline(t.log)| == |t.log|;
      }
    }
  }
}
