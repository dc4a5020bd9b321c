/** Several snapshots of one rail in one poll are merged into one (internal/ingester/runner.go). */
module Merging {
  import opened RailTypes
  import opened Sequences
  import opened Text

  const FEE_TYPE_HYBRID := "hybrid"

  datatype RailSnapshot = RailSnapshot(
    exchangeSlug: string,
    coinSymbol: string,
    coinName: string,
    rawChainSymbol: string,
    rawChainName: string,
    rawNetworkID: string,
    contractAddress: string,
    depositEnabled: bool,
    withdrawEnabled: bool,
    depositConfirmations: Option<int>,
    withdrawMin: Option<Decimal>,
    withdrawFee: Option<Decimal>,
    withdrawFeeType: string,
    withdrawFeePercent: Option<Decimal>,
    observedAt: Time)

  datatype NormalizedRail = NormalizedRail(key: Key, snapshot: RailSnapshot)

  function MinInt(a: Option<int>, b: Option<int>): Option<int> {
    if a.None? then b else if b.None? || a.value <= b.value then a else b
  }

  function MinDecimal(a: Option<Decimal>, b: Option<Decimal>): Option<Decimal> {
    if a.None? then b else if b.None? || a.value <= b.value then a else b
  }

  /** Blank gives way, equal types stay, different types are hybrid. */
  function JoinFeeTypes(x: string, y: string): string {
    if x == "" then y else if y == "" || x == y then x else FEE_TYPE_HYBRID
  }

  function MergeFeeType(a: string, b: string): string {
    JoinFeeTypes(Trim(a), Trim(b))
  }

  lemma MergedFeeTypeIsTrimmed(a: string, b: string)
    ensures Trim(MergeFeeType(a, b)) == MergeFeeType(a, b)
  {
    TrimIsIdempotent(a);
    TrimIsIdempotent(b);
    assert Trim(FEE_TYPE_HYBRID) == FEE_TYPE_HYBRID;
  }

  lemma JoinIsAssociative(x: string, y: string, z: string)
    ensures JoinFeeTypes(JoinFeeTypes(x, y), z) == JoinFeeTypes(x, JoinFeeTypes(y, z))
  {
  }

  function MergeSnapshot(a: RailSnapshot, b: RailSnapshot): RailSnapshot {
    a.(depositEnabled := a.depositEnabled || b.depositEnabled,
       withdrawEnabled := a.withdrawEnabled || b.withdrawEnabled,
       depositConfirmations := MinInt(a.depositConfirmations, b.depositConfirmations),
       withdrawMin := MinDecimal(a.withdrawMin, b.withdrawMin),
       withdrawFee := MinDecimal(a.withdrawFee, b.withdrawFee),
       withdrawFeePercent := MinDecimal(a.withdrawFeePercent, b.withdrawFeePercent),
       withdrawFeeType := MergeFeeType(a.withdrawFeeType, b.withdrawFeeType),
       contractAddress := if Trim(a.contractAddress) == "" && Trim(b.contractAddress) != ""
                          then b.contractAddress else a.contractAddress,
       observedAt := if b.observedAt > a.observedAt then b.observedAt else a.observedAt)
  }

  function MergeRail(a: NormalizedRail, b: NormalizedRail): NormalizedRail {
    a.(snapshot := MergeSnapshot(a.snapshot, b.snapshot))
  }

  /** How the snapshots of a rail are grouped does not matter. */
  lemma MergeIsAssociative(a: NormalizedRail, b: NormalizedRail, c: NormalizedRail)
    ensures MergeRail(MergeRail(a, b), c) == MergeRail(a, MergeRail(b, c))
  {
    var x, y, z := a.snapshot.withdrawFeeType, b.snapshot.withdrawFeeType, c.snapshot.withdrawFeeType;
    MergedFeeTypeIsTrimmed(x, y);
    MergedFeeTypeIsTrimmed(y, z);
    JoinIsAssociative(Trim(x), Trim(y), Trim(z));
  }

  /** The merge of the snapshots of one rail, in the order they come. */
  function Fold(group: seq<NormalizedRail>): NormalizedRail
    requires group != []
  {
    if |group| == 1 then group[0] else MergeRail(Fold(group[..|group| - 1]), group[|group| - 1])
  }

  predicate Has(group: seq<NormalizedRail>, side: NormalizedRail -> bool) {
    exists r <- group :: side(r)
  }

  /** `m` is the least amount given in the group, absent only when none is given. */
  predicate IsLeastInt(group: seq<NormalizedRail>, amount: NormalizedRail -> Option<int>, m: Option<int>) {
    if m.None? then forall r <- group :: amount(r).None?
    else (exists r <- group :: amount(r) == m) && forall r <- group :: amount(r).Some? ==> m.value <= amount(r).value
  }

  predicate IsLeastDecimal(group: seq<NormalizedRail>, amount: NormalizedRail -> Option<Decimal>, m: Option<Decimal>) {
    if m.None? then forall r <- group :: amount(r).None?
    else (exists r <- group :: amount(r) == m) && forall r <- group :: amount(r).Some? ==> m.value <= amount(r).value
  }

  function FeeTypes(group: seq<NormalizedRail>): seq<string> {
    seq(|group|, i requires 0 <= i < |group| => Trim(group[i].snapshot.withdrawFeeType))
  }

  /** The least upper bound of fee types: blank below all, hybrid above all, the others unrelated. */
  predicate IsJoin(types: seq<string>, t: string) {
    && (forall x <- types :: x == "" || x == t || t == "hybrid")
    && (t == "" || t in types ||
        (t == "hybrid" &&
         exists i, j :: 0 <= i < j < |types| && types[i] != "" && types[j] != "" && types[i] != types[j]))
  }

  predicate IsLatest(group: seq<NormalizedRail>, at: Time) {
    (exists r <- group :: r.snapshot.observedAt == at) && forall r <- group :: r.snapshot.observedAt <= at
  }

  /** What the merged snapshot says about the group, whatever the order: a side is enabled when any
      snapshot enables it, each amount is the least one given, and the time is the latest. */
  predicate Merges(group: seq<NormalizedRail>, m: RailSnapshot) {
    && (m.depositEnabled <==> Has(group, (r: NormalizedRail) => r.snapshot.depositEnabled))
    && (m.withdrawEnabled <==> Has(group, (r: NormalizedRail) => r.snapshot.withdrawEnabled))
    && IsLeastInt(group, (r: NormalizedRail) => r.snapshot.depositConfirmations, m.depositConfirmations)
    && IsLeastDecimal(group, (r: NormalizedRail) => r.snapshot.withdrawMin, m.withdrawMin)
    && IsLeastDecimal(group, (r: NormalizedRail) => r.snapshot.withdrawFee, m.withdrawFee)
    && IsLeastDecimal(group, (r: NormalizedRail) => r.snapshot.withdrawFeePercent, m.withdrawFeePercent)
    && IsJoin(FeeTypes(group), Trim(m.withdrawFeeType))
    && IsLatest(group, m.observedAt)
  }

  function FirstContract(group: seq<NormalizedRail>): Option<string> {
    if group == [] then None
    else if Trim(group[0].snapshot.contractAddress) != "" then Some(group[0].snapshot.contractAddress)
    else FirstContract(group[1..])
  }

  lemma LeastInt(front: seq<NormalizedRail>, last: NormalizedRail, amount: NormalizedRail -> Option<int>,
                 m: Option<int>)
    requires IsLeastInt(front, amount, m)
    ensures IsLeastInt(front + [last], amount, MinInt(m, amount(last)))
  {
    assert last in front + [last] && forall r <- front :: r in front + [last];
  }

  lemma LeastDecimal(front: seq<NormalizedRail>, last: NormalizedRail, amount: NormalizedRail -> Option<Decimal>,
                     m: Option<Decimal>)
    requires IsLeastDecimal(front, amount, m)
    ensures IsLeastDecimal(front + [last], amount, MinDecimal(m, amount(last)))
  {
    assert last in front + [last] && forall r <- front :: r in front + [last];
  }

  lemma HasOneMore(front: seq<NormalizedRail>, last: NormalizedRail, side: NormalizedRail -> bool)
    ensures Has(front + [last], side) <==> Has(front, side) || side(last)
  {
    assert last in front + [last] && forall r <- front :: r in front + [last];
  }

  lemma LatestOneMore(front: seq<NormalizedRail>, last: NormalizedRail, at: Time)
    requires IsLatest(front, at)
    ensures IsLatest(front + [last], if last.snapshot.observedAt > at then last.snapshot.observedAt else at)
  {
    assert last in front + [last] && forall r <- front :: r in front + [last];
  }

  lemma JoinOneMore(types: seq<string>, x: string, y: string)
    requires IsJoin(types, x)
    ensures IsJoin(types + [y], JoinFeeTypes(x, y))
  {
    var more := types + [y];
    assert forall i :: 0 <= i < |types| ==> more[i] == types[i];
    assert more[|types|] == y;
    if x != "" && y != "" && x != y && x in types {
      var i :| 0 <= i < |types| && types[i] == x;
      assert more[i] != more[|types|];
    } else if x == FEE_TYPE_HYBRID && x !in types {
      var i, j :| 0 <= i < j < |types| && types[i] != "" && types[j] != "" && types[i] != types[j];
      assert more[i] != more[j];
    }
  }

  lemma {:induction false} FoldMerges(group: seq<NormalizedRail>)
    requires group != []
    ensures Merges(group, Fold(group).snapshot)
  {
    if |group| == 1 {
      assert group[0] in group && forall r <- group :: r == group[0];
      assert FeeTypes(group) == [Trim(group[0].snapshot.withdrawFeeType)];
    } else {
      var front, last := group[..|group| - 1], group[|group| - 1];
      var m := Fold(front).snapshot;
      FoldMerges(front);
      assert group == front + [last];
      HasOneMore(front, last, (r: NormalizedRail) => r.snapshot.depositEnabled);
      HasOneMore(front, last, (r: NormalizedRail) => r.snapshot.withdrawEnabled);
      LeastInt(front, last, (r: NormalizedRail) => r.snapshot.depositConfirmations, m.depositConfirmations);
      LeastDecimal(front, last, (r: NormalizedRail) => r.snapshot.withdrawMin, m.withdrawMin);
      LeastDecimal(front, last, (r: NormalizedRail) => r.snapshot.withdrawFee, m.withdrawFee);
      LeastDecimal(front, last, (r: NormalizedRail) => r.snapshot.withdrawFeePercent, m.withdrawFeePercent);
      JoinOneMore(FeeTypes(front), Trim(m.withdrawFeeType), Trim(last.snapshot.withdrawFeeType));
      MergedFeeTypeIsTrimmed(m.withdrawFeeType, last.snapshot.withdrawFeeType);
      assert FeeTypes(group) == FeeTypes(front) + [Trim(last.snapshot.withdrawFeeType)];
      LatestOneMore(front, last, m.observedAt);
    }
  }

  lemma {:induction false} FirstContractSnoc(front: seq<NormalizedRail>, last: NormalizedRail)
    ensures FirstContract(front + [last]) ==
              if FirstContract(front).Some? || Trim(last.snapshot.contractAddress) == "" then FirstContract(front)
              else Some(last.snapshot.contractAddress)
    ensures FirstContract(front).Some? ==> Trim(FirstContract(front).value) != ""
    ensures FirstContract(front).None? && front != [] ==> Trim(front[0].snapshot.contractAddress) == ""
  {
    if front != [] {
      assert (front + [last])[1..] == front[1..] + [last];
      FirstContractSnoc(front[1..], last);
    }
  }

  /** Both snapshots are of one rail, by the names the venue gives it. */
  predicate SameNames(a: RailSnapshot, b: RailSnapshot) {
    && a.exchangeSlug == b.exchangeSlug && a.coinSymbol == b.coinSymbol && a.coinName == b.coinName
    && a.rawChainSymbol == b.rawChainSymbol && a.rawChainName == b.rawChainName && a.rawNetworkID == b.rawNetworkID
  }

  /** A merged rail keeps its key and the names of its first snapshot, and the first contract address that is
      not blank. */
  lemma {:induction false} FoldKeepsFirstContract(group: seq<NormalizedRail>)
    requires group != []
    ensures Fold(group).key == group[0].key && SameNames(Fold(group).snapshot, group[0].snapshot)
    ensures Fold(group).snapshot.contractAddress ==
              if FirstContract(group).Some? then FirstContract(group).value else group[0].snapshot.contractAddress
  {
    var front, last := group[..|group| - 1], group[|group| - 1];
    assert group == front + [last];
    FirstContractSnoc(front, last);
    if |group| > 1 {
      FoldKeepsFirstContract(front);
    }
  }

  /** The part of a merged snapshot that depends only on which snapshots were merged. */
  function Essence(m: RailSnapshot)
    : (bool, bool, Option<int>, Option<Decimal>, Option<Decimal>, Option<Decimal>, string, Time)
  {
    (m.depositEnabled, m.withdrawEnabled, m.depositConfirmations, m.withdrawMin, m.withdrawFee, m.withdrawFeePercent,
     Trim(m.withdrawFeeType), m.observedAt)
  }

  lemma OneJoin(types: seq<string>, t: string, u: string)
    requires IsJoin(types, t) && IsJoin(types, u)
    ensures t == u
  {
    if t != "" && t !in types {
      var i, j :| 0 <= i < j < |types| && types[i] != "" && types[j] != "" && types[i] != types[j];
      assert types[i] in types && types[j] in types;
    }
    if u != "" && u !in types {
      var i, j :| 0 <= i < j < |types| && types[i] != "" && types[j] != "" && types[i] != types[j];
      assert types[i] in types && types[j] in types;
    }
  }

  lemma MergesOneThing(group: seq<NormalizedRail>, a: RailSnapshot, b: RailSnapshot)
    requires Merges(group, a) && Merges(group, b)
    ensures Essence(a) == Essence(b)
  {
    OneJoin(FeeTypes(group), Trim(a.withdrawFeeType), Trim(b.withdrawFeeType));
  }

  lemma JoinAnyOrder(types: seq<string>, types': seq<string>, t: string)
    requires forall x :: x in types <==> x in types'
    requires IsJoin(types, t)
    ensures IsJoin(types', t)
  {
    if t != "" && t !in types {
      var i, j :| 0 <= i < j < |types| && types[i] != "" && types[j] != "" && types[i] != types[j];
      assert types[i] in types' && types[j] in types';
      var k :| 0 <= k < |types'| && types'[k] == types[i];
      var l :| 0 <= l < |types'| && types'[l] == types[j];
      assert k < l || l < k;
    }
  }

  lemma FeeTypesAnyOrder(group: seq<NormalizedRail>, group': seq<NormalizedRail>)
    requires forall r :: r in group ==> r in group'
    ensures forall x :: x in FeeTypes(group) ==> x in FeeTypes(group')
  {
    forall x | x in FeeTypes(group) ensures x in FeeTypes(group') {
      var i :| 0 <= i < |group| && FeeTypes(group)[i] == x;
      assert group[i] in group;
      var j :| 0 <= j < |group'| && group'[j] == group[i];
      assert FeeTypes(group')[j] == x;
    }
  }

  lemma MergesAnyOrder(group: seq<NormalizedRail>, group': seq<NormalizedRail>, m: RailSnapshot)
    requires forall r :: r in group <==> r in group'
    requires Merges(group, m)
    ensures Merges(group', m)
  {
    FeeTypesAnyOrder(group, group');
    FeeTypesAnyOrder(group', group);
    JoinAnyOrder(FeeTypes(group), FeeTypes(group'), Trim(m.withdrawFeeType));
  }

  /** The order, and even the number of repetitions, of a rail's snapshots does not matter: status,
      confirmations, minimum, fees, fee type and time of the merge depend only on which there are. */
  lemma MergeOrderIsIrrelevant(group: seq<NormalizedRail>, group': seq<NormalizedRail>)
    requires group != [] && group' != []
    requires forall r :: r in group <==> r in group'
    ensures Essence(Fold(group).snapshot) == Essence(Fold(group').snapshot)
  {
    FoldMerges(group);
    FoldMerges(group');
    MergesAnyOrder(group, group', Fold(group).snapshot);
    MergesOneThing(group', Fold(group).snapshot, Fold(group').snapshot);
  }

  // --- The loop over all snapshots of a poll ---

  /** The snapshots of one rail, in their order. */
  function GroupOf(rails: seq<NormalizedRail>, k: Key): seq<NormalizedRail> {
    Filter(rails, (r: NormalizedRail) => r.key == k)
  }

  /** The rails of a poll in the order of their first snapshot. */
  function FirstKeys(rails: seq<NormalizedRail>): seq<Key> {
    if rails == [] then []
    else
      var earlier, last := FirstKeys(rails[..|rails| - 1]), rails[|rails| - 1];
      earlier + (if last.key in earlier then [] else [last.key])
  }

  /** Each rail of the poll is listed exactly once. */
  lemma {:induction false} FirstKeysAreTheKeys(rails: seq<NormalizedRail>)
    ensures Distinct(FirstKeys(rails))
    ensures forall k :: k in FirstKeys(rails) <==> exists r <- rails :: r.key == k
  {
    if rails != [] {
      FirstKeysAreTheKeys(rails[..|rails| - 1]);
      assert rails == rails[..|rails| - 1] + [rails[|rails| - 1]];
    }
  }

  lemma GroupIsNonEmpty(rails: seq<NormalizedRail>, k: Key)
    ensures GroupOf(rails, k) != [] <==> k in FirstKeys(rails)
    ensures forall r <- GroupOf(rails, k) :: r.key == k
  {
    FirstKeysAreTheKeys(rails);
    FilterMembers(rails, (r: NormalizedRail) => r.key == k);
    if k in FirstKeys(rails) {
      var r :| r in rails && r.key == k;
      assert r in GroupOf(rails, k);
    }
    assert GroupOf(rails, k) != [] ==> GroupOf(rails, k)[0] in GroupOf(rails, k);
  }

  lemma GroupOneMore(front: seq<NormalizedRail>, last: NormalizedRail, k: Key)
    ensures GroupOf(front + [last], k) == GroupOf(front, k) + (if last.key == k then [last] else [])
    ensures FirstKeys(front + [last]) == FirstKeys(front) + (if last.key in FirstKeys(front) then [] else [last.key])
  {
    assert (front + [last])[..|front|] == front;
  }

  lemma FoldOneMore(group: seq<NormalizedRail>, last: NormalizedRail)
    requires group != []
    ensures Fold(group + [last]) == MergeRail(Fold(group), last)
  {
    assert (group + [last])[..|group|] == group;
  }

  /** `r` is the merge of all the snapshots its rail has among `rails`. */
  predicate MergedFrom(rails: seq<NormalizedRail>, k: Key, r: NormalizedRail) {
    GroupOf(rails, k) != [] && r == Fold(GroupOf(rails, k))
  }

  lemma MergedFromOneMore(front: seq<NormalizedRail>, last: NormalizedRail, k: Key, r: NormalizedRail)
    requires if k in FirstKeys(front) then MergedFrom(front, k, r) else k == last.key && r == last
    ensures MergedFrom(front + [last], k, if k in FirstKeys(front) && k == last.key then MergeRail(r, last) else r)
  {
    GroupOneMore(front, last, k);
    GroupIsNonEmpty(front, k);
    if k in FirstKeys(front) {
      FoldOneMore(GroupOf(front, k), last);
      assert GroupOf(front, k) + [] == GroupOf(front, k);
    } else {
      assert GroupOf(front + [last], k) == [last];
    }
  }

  lemma MergedFromKey(rails: seq<NormalizedRail>, k: Key, r: NormalizedRail)
    requires MergedFrom(rails, k, r)
    ensures r.key == k
  {
    GroupIsNonEmpty(rails, k);
    FoldKeepsFirstContract(GroupOf(rails, k));
    assert GroupOf(rails, k)[0] in GroupOf(rails, k);
  }

  /** The map and the order list of the merge loop after the snapshots `rails`. */
  ghost predicate Gathered(rails: seq<NormalizedRail>, merged: map<Key, NormalizedRail>, order: seq<Key>) {
    && order == FirstKeys(rails)
    && (forall k :: k in merged <==> k in order)
    && (forall k <- merged :: MergedFrom(rails, k, merged[k]))
  }

  lemma GatherKnown(front: seq<NormalizedRail>, rail: NormalizedRail, merged: map<Key, NormalizedRail>, order: seq<Key>)
    requires Gathered(front, merged, order) && rail.key in merged
    ensures Gathered(front + [rail], merged[rail.key := MergeRail(merged[rail.key], rail)], order)
  {
    GroupOneMore(front, rail, rail.key);
    assert order + [] == order;
    forall k | k in merged
      ensures MergedFrom(front + [rail], k, if k == rail.key then MergeRail(merged[k], rail) else merged[k])
    {
      MergedFromOneMore(front, rail, k, merged[k]);
    }
  }

  lemma GatherNew(front: seq<NormalizedRail>, rail: NormalizedRail, merged: map<Key, NormalizedRail>, order: seq<Key>)
    requires Gathered(front, merged, order) && rail.key !in merged
    ensures Gathered(front + [rail], merged[rail.key := rail], order + [rail.key])
  {
    GroupOneMore(front, rail, rail.key);
    forall k | k in merged ensures MergedFrom(front + [rail], k, merged[k]) {
      MergedFromOneMore(front, rail, k, merged[k]);
    }
    MergedFromOneMore(front, rail, rail.key, rail);
  }

  /** The first loop of the merge: one entry per rail, and the rails in order of appearance. */
  method Gather(rails: seq<NormalizedRail>) returns (merged: map<Key, NormalizedRail>, order: seq<Key>)
    ensures Gathered(rails, merged, order)
  {
    merged, order := map[], [];
    for i := 0 to |rails|
      invariant Gathered(rails[..i], merged, order)
    {
      var rail := rails[i];
      assert rails[..i + 1] == rails[..i] + [rail];
      if rail.key in merged {
        GatherKnown(rails[..i], rail, merged, order);
        merged := merged[rail.key := MergeRail(merged[rail.key], rail)];
      } else {
        GatherNew(rails[..i], rail, merged, order);
        merged := merged[rail.key := rail];
        order := order + [rail.key];
      }
    }
    assert rails[..|rails|] == rails;
  }

  /** `result` holds the merges of the rails `keys`, in that order. */
  predicate MergedList(rails: seq<NormalizedRail>, keys: seq<Key>, result: seq<NormalizedRail>) {
    |result| == |keys| && forall i :: 0 <= i < |result| ==>
          result[i].key == keys[i] && MergedFrom(rails, keys[i], result[i])
  }

  lemma MergedListOneMore(rails: seq<NormalizedRail>, keys: seq<Key>, result: seq<NormalizedRail>, k: Key,
                          r: NormalizedRail)
    requires MergedList(rails, keys, result) && MergedFrom(rails, k, r)
    ensures MergedList(rails, keys + [k], result + [r])
  {
    MergedFromKey(rails, k, r);
  }

  method MergeDuplicateRails(rails: seq<NormalizedRail>) returns (result: seq<NormalizedRail>)
    ensures MergedList(rails, FirstKeys(rails), result)
  {
    var merged, order := Gather(rails);
    result := [];
    for i := 0 to |order|
      invariant MergedList(rails, order[..i], result)
    {
      assert order[i] in order && order[..i + 1] == order[..i] + [order[i]];
      MergedListOneMore(rails, order[..i], result, order[i], merged[order[i]]);
      result := result + [merged[order[i]]];
    }
    assert order[..|order|] == order;
  }

  /** The observation handed to the engine; a snapshot without a time takes the current one. */
  function ObservationOf(rail: NormalizedRail, now: Time): Observation {
    var s := rail.snapshot;
    Observation(rail.key, s.depositEnabled, s.withdrawEnabled, s.depositConfirmations, s.withdrawMin, s.withdrawFee,
                s.withdrawFeeType, s.withdrawFeePercent, Trim(s.contractAddress),
                if s.observedAt == ZERO_TIME then now else s.observedAt)
  }

  /** What an observation says about the snapshots of its rail: a side is on exactly when any snapshot has it
      on, each amount is the least one given, the fee type the join of theirs, or as written if there is but one,
      the contract the first that is not blank, and the time the latest, or the current one when no snapshot has
      a time. */
  predicate Tells(group: seq<NormalizedRail>, now: Time, ob: Observation)
    requires group != []
  {
    && ob.key == group[0].key
    && (ob.depositEnabled <==> Has(group, (r: NormalizedRail) => r.snapshot.depositEnabled))
    && (ob.withdrawEnabled <==> Has(group, (r: NormalizedRail) => r.snapshot.withdrawEnabled))
    && IsLeastInt(group, (r: NormalizedRail) => r.snapshot.depositConfirmations, ob.depositConfirmations)
    && IsLeastDecimal(group, (r: NormalizedRail) => r.snapshot.withdrawMin, ob.withdrawMin)
    && IsLeastDecimal(group, (r: NormalizedRail) => r.snapshot.withdrawFee, ob.withdrawFee)
    && IsLeastDecimal(group, (r: NormalizedRail) => r.snapshot.withdrawFeePercent, ob.withdrawFeePercent)
    && (if |group| == 1 then ob.withdrawFeeType == group[0].snapshot.withdrawFeeType
        else IsJoin(FeeTypes(group), ob.withdrawFeeType))
    && ob.contractAddress == (if FirstContract(group).Some? then Trim(FirstContract(group).value) else "")
    && (if IsLatest(group, ZERO_TIME) then ob.observedAt == now else IsLatest(group, ob.observedAt))
  }

  lemma ObservationTellsTheSnapshots(group: seq<NormalizedRail>, now: Time)
    requires group != []
    ensures Tells(group, now, ObservationOf(Fold(group), now))
  {
    FoldMerges(group);
    FoldKeepsFirstContract(group);
    FirstContractIsFirst(group);
    if |group| > 1 {
      MergedFeeTypeIsTrimmed(Fold(group[..|group| - 1]).snapshot.withdrawFeeType,
                             group[|group| - 1].snapshot.withdrawFeeType);
    }
  }

  lemma {:induction false} FirstContractIsFirst(group: seq<NormalizedRail>)
    ensures FirstContract(group).None? <==> forall r <- group :: Trim(r.snapshot.contractAddress) == ""
  {
    if group != [] {
      FirstContractIsFirst(group[1..]);
      assert group == [group[0]] + group[1..];
    }
  }

  method NormalizedObservations(rails: seq<NormalizedRail>, now: Time) returns (observations: seq<Observation>)
    ensures |observations| == |rails|
    ensures forall i :: 0 <= i < |rails| ==> observations[i] == ObservationOf(rails[i], now)
  {
    observations := [];
    for i := 0 to |rails|
      invariant |observations| == i
      invariant forall j :: 0 <= j < i ==> observations[j] == ObservationOf(rails[j], now)
    {
      observations := observations + [ObservationOf(rails[i], now)];
    }
  }
}
