/** How the names of a snapshot become IDs (internal/normalizer/resolver.go), told on the catalog alone: which
    search answers, and what is inserted when none does. */
module Naming {
  import opened RailTypes
  import opened Text
  import opened Merging
  import opened Resolver

  // --- Contracts ---

  predicate IsHex(s: string) {
    |s| >= 2 && s[0] == '0' && (s[1] == 'x' || s[1] == 'X')
  }

  /** A contract is taken between its outer spaces; a hexadecimal one has no capital letters, any other is as
      written. */
  lemma ContractsAreNormal(raw: string)
    ensures var n := NormalizeContract(raw);
            exists t :: Between(raw, t)
              && if IsHex(t) then EqualUpToCase(t, n) && forall c <- n :: !('A' <= c <= 'Z') else n == t
  {
    var t := Trim(raw);
    TrimIsBetween(raw);
    ToLowerMeans(t, t);
    assert IsHex(t) <==> "0x" <= t || "0X" <= t;
    forall c | c in ToLower(t) ensures !('A' <= c <= 'Z') {
      var i :| 0 <= i < |t| && ToLower(t)[i] == c;
    }
  }

  // --- One snapshot ---

  /** The chain a name without an alias stands for: the one that is found by symbol or name, else the one whose
      slug the name is a synonym of, else a new one with that symbol, or the name for want of one. */
  ghost predicate ChainNamed<T>(c: Catalog<T>, before: T, after: T, symbol: string, name: string, id: int) {
    var slug := c.synonym(symbol, name);
    if c.findChain(before, symbol, name).Some? then
      c.findChain(before, symbol, name) == Some(id) && after == before
    else if slug.Some? && c.findChainBySlug(before, slug.value).Some? then
      c.findChainBySlug(before, slug.value) == Some(id) && after == before
    else
      c.insertChain(before, if symbol == "" then name else symbol, name) == (after, id)
  }

  ghost predicate CoinNamed<T>(c: Catalog<T>, before: T, after: T, symbol: string, name: string, id: int) {
    if c.findCoin(before, symbol, name).Some? then c.findCoin(before, symbol, name) == Some(id) && after == before
    else c.insertCoin(before, symbol, name) == (after, id)
  }

  /** The alias decides if there is one. */
  ghost predicate ChainTold<T>(c: Catalog<T>, db: Plain<T>, after: T, key: ChainKey, id: int) {
    if key in db.chainAliases then id == db.chainAliases[key] && after == db.tables
    else ChainNamed(c, db.tables, after, key.rawSymbol, key.rawName, id)
  }

  /** A contract that is known on a known chain decides, then the alias, then the name. */
  ghost predicate CoinTold<T>(c: Catalog<T>, db: Plain<T>, before: T, after: T, key: CoinKey, chainID: int,
                              contract: string, id: int)
  {
    if contract != "" && chainID != 0 && c.coinByContract(chainID, contract).Some? then
      c.coinByContract(chainID, contract) == Some(id) && after == before
    else if key in db.coinAliases then id == db.coinAliases[key] && after == before
    else CoinNamed(c, before, after, key.rawSymbol, key.rawName, id)
  }

  /** The chain of the snapshot is resolved first, leaving the tables `middle`, and then its coin. */
  ghost predicate NamedBy<T>(c: Catalog<T>, db: Plain<T>, later: Plain<T>, middle: T, s: RailSnapshot, k: Key) {
    && Slug(s.exchangeSlug) in db.exchanges && k.exchangeID == db.exchanges[Slug(s.exchangeSlug)]
    && ChainTold(c, db, middle,
                 ChainKey(k.exchangeID, Trim(s.rawChainSymbol), Trim(s.rawChainName), Trim(s.rawNetworkID)), k.chainID)
    && CoinTold(c, db, middle, later.tables, CoinKey(k.exchangeID, Trim(s.coinSymbol), Trim(s.coinName)), k.chainID,
                NormalizeContract(s.contractAddress), k.coinID)
  }

  ghost predicate Named<T(!new)>(c: Catalog<T>, db: Plain<T>, later: Plain<T>, s: RailSnapshot, k: Key) {
    exists middle: T :: NamedBy(c, db, later, middle, s, k)
  }

  /** A snapshot is refused exactly when its exchange is blank or unknown, its chain has neither symbol nor name,
      or its coin has no symbol. */
  predicate RefusedWith<T>(db: Plain<T>, s: RailSnapshot, e: ResolveError) {
    if Slug(s.exchangeSlug) == "" then e == MissingExchange
    else if Slug(s.exchangeSlug) !in db.exchanges then e == UnknownExchange
    else if Trim(s.rawChainSymbol) == "" && Trim(s.rawChainName) == "" then e == MissingChainInput
    else Trim(s.coinSymbol) == "" && e == MissingCoinInput
  }

  lemma SnapshotIsNamed<T(!new)>(c: Catalog<T>, db: Plain<T>, s: RailSnapshot)
    ensures match PlainSnapshot(c, db, s)
            case Ok((later, rail)) => Named(c, db, later, s, rail.key) && forall e :: !RefusedWith(db, s, e)
            case Err(e) => RefusedWith(db, s, e)
  {
    match PlainSnapshot(c, db, s)
    case Ok((later, rail)) =>
      var k := rail.key;
      var key := ChainKey(k.exchangeID, Trim(s.rawChainSymbol), Trim(s.rawChainName), Trim(s.rawNetworkID));
      assert NamedBy(c, db, later, PlainChainOf(c, db, key).0.tables, s, k);
    case Err(_) =>
  }

  // --- A whole poll ---

  /** The `i`th snapshot of a poll that is resolved gets its names from the tables as they are when its turn
      comes. */
  ghost predicate NamedInTurn<T(!new)>(c: Catalog<T>, db: Plain<T>, snapshots: seq<RailSnapshot>, i: nat, k: Key)
    requires i < |snapshots|
  {
    var before, after := PlainNormalize(c, db, snapshots[..i]), PlainNormalize(c, db, snapshots[..i + 1]);
    before.Ok? && after.Ok? && Named(c, before.value.0, after.value.0, snapshots[i], k)
  }

  lemma LastIsNamedInTurn<T(!new)>(c: Catalog<T>, db: Plain<T>, front: seq<RailSnapshot>, last: RailSnapshot)
    ensures PlainNormalize(c, db, front).Ok? ==>
              var next := PlainSnapshot(c, PlainNormalize(c, db, front).value.0, last);
              next.Ok? ==> NamedInTurn(c, db, front + [last], |front|, next.value.1.key)
  {
    if PlainNormalize(c, db, front).Ok? {
      assert (front + [last])[..|front|] == front && (front + [last])[..|front| + 1] == front + [last];
      NormalizeOneMore(c, db, front, last, front + [last]);
      SnapshotIsNamed(c, PlainNormalize(c, db, front).value.0, last);
    }
  }

  lemma NamedInTurnStays<T(!new)>(c: Catalog<T>, db: Plain<T>, front: seq<RailSnapshot>, last: RailSnapshot, i: nat,
                                  k: Key)
    requires i < |front|
    ensures NamedInTurn(c, db, front, i, k) ==> NamedInTurn(c, db, front + [last], i, k)
  {
    assert (front + [last])[..i] == front[..i] && (front + [last])[..i + 1] == front[..i + 1];
  }

  /** In a poll that is resolved, every snapshot is named in turn. */
  lemma {:induction false} EverySnapshotIsNamed<T(!new)>(c: Catalog<T>, db: Plain<T>, snapshots: seq<RailSnapshot>,
                                                         i: nat)
    requires i < |snapshots|
    ensures match PlainNormalize(c, db, snapshots)
            case Ok((_, rails)) => NamedInTurn(c, db, snapshots, i, rails[i].key)
            case Err(_) => true
  {
    var front, last := snapshots[..|snapshots| - 1], snapshots[|snapshots| - 1];
    assert snapshots == front + [last];
    NormalizeOneMore(c, db, front, last, snapshots);
    if PlainNormalize(c, db, snapshots).Ok? {
      if i == |front| {
        LastIsNamedInTurn(c, db, front, last);
      } else {
        EverySnapshotIsNamed(c, db, front, i);
        NamedInTurnStays(c, db, front, last, i, PlainNormalize(c, db, front).value.1[i].key);
      }
    }
  }

  /** The snapshot at `i` is refused with `e`, and none before it is refused. */
  ghost predicate FirstRefusal<T>(db: Plain<T>, snapshots: seq<RailSnapshot>, i: int, e: ResolveError) {
    && 0 <= i < |snapshots| && RefusedWith(db, snapshots[i], e)
    && forall j, d :: 0 <= j < i ==> !RefusedWith(db, snapshots[j], d)
  }

  lemma SameExchangesRefuseAlike<T>(a: Plain<T>, b: Plain<T>, s: RailSnapshot, e: ResolveError)
    requires a.exchanges == b.exchanges
    ensures RefusedWith(a, s, e) <==> RefusedWith(b, s, e)
  {
  }

  lemma FirstRefusalStays<T>(db: Plain<T>, front: seq<RailSnapshot>, last: RailSnapshot, i: int, e: ResolveError)
    requires FirstRefusal(db, front, i, e)
    ensures FirstRefusal(db, front + [last], i, e)
  {
    assert forall j | 0 <= j <= i :: (front + [last])[j] == front[j];
  }

  /** The snapshot after those that are all accepted is refused as it would be at first. */
  lemma NextRefusal<T(!new)>(c: Catalog<T>, db: Plain<T>, front: seq<RailSnapshot>, last: RailSnapshot)
    requires forall s <- front, e :: !RefusedWith(db, s, e)
    ensures PlainNormalize(c, db, front).Ok? ==>
              var next := PlainSnapshot(c, PlainNormalize(c, db, front).value.0, last);
              if next.Ok? then forall e :: !RefusedWith(db, last, e)
              else FirstRefusal(db, front + [last], |front|, next.error)
  {
    if PlainNormalize(c, db, front).Ok? {
      var middle := PlainNormalize(c, db, front).value.0;
      FinalAliasesExplainAPoll(c, db, front);
      SnapshotIsNamed(c, middle, last);
      forall e ensures RefusedWith(db, last, e) <==> RefusedWith(middle, last, e) {
        SameExchangesRefuseAlike(db, middle, last, e);
      }
      assert forall j | 0 <= j < |front| :: (front + [last])[j] in front;
    }
  }

  /** A poll is refused exactly at the first of its snapshots that is, with its error: what is resolved before
      makes no difference to that. */
  lemma {:induction false} PollsFailAtTheFirstRefusal<T(!new)>(c: Catalog<T>, db: Plain<T>,
                                                               snapshots: seq<RailSnapshot>)
    ensures match PlainNormalize(c, db, snapshots)
            case Ok(_) => forall s <- snapshots, e :: !RefusedWith(db, s, e)
            case Err(e) => exists i :: FirstRefusal(db, snapshots, i, e)
  {
    if snapshots != [] {
      var front, last := snapshots[..|snapshots| - 1], snapshots[|snapshots| - 1];
      assert snapshots == front + [last];
      PollsFailAtTheFirstRefusal(c, db, front);
      NormalizeOneMore(c, db, front, last, snapshots);
      if PlainNormalize(c, db, front).Ok? {
        NextRefusal(c, db, front, last);
      } else {
        var i :| FirstRefusal(db, front, i, PlainNormalize(c, db, front).error);
        FirstRefusalStays(db, front, last, i, PlainNormalize(c, db, front).error);
      }
    }
  }

  // --- What is known is not inserted again ---

  /** The tables and aliases of `db` know the snapshot's chain and coin. */
  ghost predicate Known<T>(c: Catalog<T>, db: Plain<T>, s: RailSnapshot) {
    var slug := Slug(s.exchangeSlug);
    slug in db.exchanges ==>
      var chain := ChainKey(db.exchanges[slug], Trim(s.rawChainSymbol), Trim(s.rawChainName), Trim(s.rawNetworkID));
      var coin := CoinKey(db.exchanges[slug], Trim(s.coinSymbol), Trim(s.coinName));
      var synonym := c.synonym(chain.rawSymbol, chain.rawName);
      && (chain in db.chainAliases || c.findChain(db.tables, chain.rawSymbol, chain.rawName).Some?
          || (synonym.Some? && c.findChainBySlug(db.tables, synonym.value).Some?))
      && (coin in db.coinAliases || c.findCoin(db.tables, coin.rawSymbol, coin.rawName).Some?)
  }

  lemma KnownSnapshotInsertsNothing<T>(c: Catalog<T>, db: Plain<T>, s: RailSnapshot)
    requires Known(c, db, s) && PlainSnapshot(c, db, s).Ok?
    ensures PlainSnapshot(c, db, s).value.0.tables == db.tables
  {
  }

  lemma KnownStays<T>(c: Catalog<T>, db: Plain<T>, later: Plain<T>, s: RailSnapshot)
    requires Known(c, db, s) && Extends(db, later) && later.tables == db.tables
    ensures Known(c, later, s)
  {
  }

  /** A poll whose chains and coins are all known inserts neither. */
  lemma {:induction false} KnownPollsInsertNothing<T>(c: Catalog<T>, db: Plain<T>, snapshots: seq<RailSnapshot>)
    requires forall s <- snapshots :: Known(c, db, s)
    ensures match PlainNormalize(c, db, snapshots)
            case Ok((later, _)) => later.tables == db.tables
            case Err(_) => true
  {
    if snapshots != [] && PlainNormalize(c, db, snapshots).Ok? {
      var front, last := snapshots[..|snapshots| - 1], snapshots[|snapshots| - 1];
      assert snapshots == front + [last];
      KnownPollsInsertNothing(c, db, front);
      FinalAliasesExplainAPoll(c, db, front);
      var middle := PlainNormalize(c, db, front).value.0;
      KnownStays(c, db, middle, last);
      KnownSnapshotInsertsNothing(c, middle, last);
    }
  }
}
