/** The rails table: what writing a batch of mutations makes of it (internal/ingester/runner.go). The table
    gives row IDs: `ids` is the ID each key gets when it is first inserted, fixed and arbitrary. */
module RailTable {
  import opened RailTypes
  import opened RailMachine
  import opened PollDiff

  type IDs = Key -> int

  /** INSERT ... ON CONFLICT (exchange_id, coin_id, chain_id) DO UPDATE: a known key keeps its row ID. */
  function UpsertOne(rails: map<Key, Rail>, m: RailMutation, ids: IDs): map<Key, Rail> {
    var k := m.after.key;
    rails[k := m.after.(id := if k in rails then rails[k].id else ids(k))]
  }

  function Upsert(rails: map<Key, Rail>, mutations: seq<RailMutation>, ids: IDs): map<Key, Rail> {
    if mutations == [] then rails
    else UpsertOne(Upsert(rails, mutations[..|mutations| - 1], ids), mutations[|mutations| - 1], ids)
  }

  lemma {:induction false} UpsertAt(rails: map<Key, Rail>, mutations: seq<RailMutation>, ids: IDs, k: Key)
    requires |MutationsFor(mutations, k)| <= 1
    ensures Lookup(Upsert(rails, mutations, ids), k)
              == Written(Lookup(rails, k),
                         if MutationsFor(mutations, k) == [] then None else Some(MutationsFor(mutations, k)[0]), ids(k))
  {
    if mutations != [] {
      UpsertAt(rails, mutations[..|mutations| - 1], ids, k);
    }
  }

  lemma {:induction false} UpsertKeepsOwnKeys(rails: map<Key, Rail>, mutations: seq<RailMutation>, ids: IDs)
    requires OwnKeys(rails)
    ensures OwnKeys(Upsert(rails, mutations, ids))
  {
    if mutations != [] {
      UpsertKeepsOwnKeys(rails, mutations[..|mutations| - 1], ids);
    }
  }

  /** What a batch makes of a row depends on that row only. */
  lemma {:induction false} UpsertSame(rails: map<Key, Rail>, rails': map<Key, Rail>, mutations: seq<RailMutation>,
                                      ids: IDs, k: Key)
    requires Lookup(rails, k) == Lookup(rails', k)
    ensures Lookup(Upsert(rails, mutations, ids), k) == Lookup(Upsert(rails', mutations, ids), k)
  {
    if mutations != [] {
      var front, last := mutations[..|mutations| - 1], mutations[|mutations| - 1];
      UpsertSame(rails, rails', front, ids, k);
      if last.after.key == k {
        assert k in Upsert(rails, front, ids) <==> k in Upsert(rails', front, ids);
      }
    }
  }

  /** Rows that a batch does not name stay as they are. */
  lemma {:induction false} UpsertLeavesOthers(rails: map<Key, Rail>, mutations: seq<RailMutation>, ids: IDs, k: Key)
    requires forall m <- mutations :: m.after.key != k
    ensures Lookup(Upsert(rails, mutations, ids), k) == Lookup(rails, k)
  {
    if mutations != [] {
      UpsertLeavesOthers(rails, mutations[..|mutations| - 1], ids, k);
    }
  }
}
