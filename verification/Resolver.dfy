/** Resolving the names of a poll to coin and chain IDs (internal/normalizer/resolver.go). The resolver
    keeps caches, starts from hydrated alias rows, and may put off its alias writes; the specification
    is a resolver that looks everything up and writes each alias at once. */
module Resolver {
  import opened RailTypes
  import opened Sequences
  import opened Text
  import opened Merging

  datatype CoinKey = CoinKey(exchangeID: int, rawSymbol: string, rawName: string)

  datatype ChainKey = ChainKey(exchangeID: int, rawSymbol: string, rawName: string, rawNetworkID: string)

  /** What one coin lookup depends on: the alias key, and the chain and contract it may match by. */
  datatype CoinQuery = CoinQuery(key: CoinKey, chainID: int, contract: string)

  /** The canonical coins and chains of a database: how its tables `T` are searched and extended is
      arbitrary. Contracts and chain synonyms are fixed during a poll. */
  datatype Catalog<!T> = Catalog(
    findCoin: (T, string, string) -> Option<int>,
    insertCoin: (T, string, string) -> (T, int),
    coinByContract: (int, string) -> Option<int>,
    findChain: (T, string, string) -> Option<int>,
    findChainBySlug: (T, string) -> Option<int>,
    insertChain: (T, string, string) -> (T, int),
    synonym: (string, string) -> Option<string>)

  datatype ResolveError = MissingExchange | UnknownExchange | MissingChainInput | MissingCoinInput

  function NormalizeContract(s: string): string {
    var c := Trim(s);
    if "0x" <= c || "0X" <= c then ToLower(c) else c
  }

  function FirstNonEmpty(a: string, b: string): string {
    if a != "" then a else b
  }

  // --- The plain resolver ---

  /** The tables, and which alias keys have been written since the start. */
  datatype Plain<T> = Plain(
    tables: T,
    exchanges: map<string, int>,
    coinAliases: map<CoinKey, int>,
    chainAliases: map<ChainKey, int>,
    coinWrites: set<CoinKey>,
    chainWrites: set<ChainKey>)

  function PlainExchange<T>(db: Plain<T>, exchangeSlug: string): Result<int, ResolveError> {
    var slug := Slug(exchangeSlug);
    if slug == "" then Err(MissingExchange)
    else if slug in db.exchanges then Ok(db.exchanges[slug])
    else Err(UnknownExchange)
  }

  /** The canonical chain of a name, through the synonyms if need be; a new one as a last resort. */
  function CanonicalChain<T>(c: Catalog<T>, tables: T, symbol: string, name: string): (T, int) {
    var found := c.findChain(tables, symbol, name);
    var slug := c.synonym(symbol, name);
    var bySlug := if slug.Some? then c.findChainBySlug(tables, slug.value) else None;
    if found.Some? then (tables, found.value)
    else if bySlug.Some? then (tables, bySlug.value)
    else c.insertChain(tables, FirstNonEmpty(symbol, name), name)
  }

  function CanonicalCoin<T>(c: Catalog<T>, tables: T, symbol: string, name: string): (T, int) {
    var found := c.findCoin(tables, symbol, name);
    if found.Some? then (tables, found.value) else c.insertCoin(tables, symbol, name)
  }

  function PlainChainOf<T>(c: Catalog<T>, db: Plain<T>, key: ChainKey): (Plain<T>, int) {
    var (tables, id) := if key in db.chainAliases then (db.tables, db.chainAliases[key])
                        else CanonicalChain(c, db.tables, key.rawSymbol, key.rawName);
    (db.(tables := tables, chainAliases := db.chainAliases[key := id], chainWrites := db.chainWrites + {key}), id)
  }

  /** The coin a contract on a chain stands for, when both are given and the contract is known. */
  function ByContract<T>(c: Catalog<T>, q: CoinQuery): Option<int> {
    if q.contract != "" && q.chainID != 0 then c.coinByContract(q.chainID, q.contract) else None
  }

  /** A coin is identified by its contract if possible, and then no alias is written. */
  function PlainCoinOf<T>(c: Catalog<T>, db: Plain<T>, q: CoinQuery): (Plain<T>, int) {
    if ByContract(c, q).Some? then (db, ByContract(c, q).value)
    else
      var (tables, id) := if q.key in db.coinAliases then (db.tables, db.coinAliases[q.key])
                          else CanonicalCoin(c, db.tables, q.key.rawSymbol, q.key.rawName);
      (db.(tables := tables, coinAliases := db.coinAliases[q.key := id], coinWrites := db.coinWrites + {q.key}), id)
  }

  function PlainSnapshot<T>(c: Catalog<T>, db: Plain<T>, s: RailSnapshot)
    : (r: Result<(Plain<T>, NormalizedRail), ResolveError>)
    ensures r.Ok? ==> r.value.1.snapshot == s
  {
    var exchange := PlainExchange(db, s.exchangeSlug);
    if exchange.Err? then Err(exchange.error)
    else
      var chainKey := ChainKey(exchange.value, Trim(s.rawChainSymbol), Trim(s.rawChainName), Trim(s.rawNetworkID));
      if chainKey.rawSymbol == "" && chainKey.rawName == "" then Err(MissingChainInput)
      else
        var (db1, chainID) := PlainChainOf(c, db, chainKey);
        var key := CoinKey(exchange.value, Trim(s.coinSymbol), Trim(s.coinName));
        if key.rawSymbol == "" then Err(MissingCoinInput)
        else
          var (db2, coinID) := PlainCoinOf(c, db1, CoinQuery(key, chainID, NormalizeContract(s.contractAddress)));
          Ok((db2, NormalizedRail(Key(exchange.value, coinID, chainID), s)))
  }

  /** One rail for each snapshot, in order, carrying it. */
  predicate Follow(rails: seq<NormalizedRail>, snapshots: seq<RailSnapshot>) {
    |rails| == |snapshots| && forall i | 0 <= i < |rails| :: rails[i].snapshot == snapshots[i]
  }

  lemma FollowOneMore(before: seq<NormalizedRail>, snapshots: seq<RailSnapshot>, rails: seq<NormalizedRail>)
    requires snapshots != [] && Follow(before, snapshots[..|snapshots| - 1])
    requires |rails| == |snapshots| && rails == before + [rails[|rails| - 1]]
    requires rails[|rails| - 1].snapshot == snapshots[|snapshots| - 1]
    ensures Follow(rails, snapshots)
  {
  }

  /** The rails of all snapshots, until the first error. */
  function PlainNormalize<T>(c: Catalog<T>, db: Plain<T>, snapshots: seq<RailSnapshot>)
    : (r: Result<(Plain<T>, seq<NormalizedRail>), ResolveError>)
    ensures r.Ok? ==> Follow(r.value.1, snapshots)
  {
    if snapshots == [] then Ok((db, []))
    else
      var before := PlainNormalize(c, db, snapshots[..|snapshots| - 1]);
      if before.Err? then before
      else
        var last := PlainSnapshot(c, before.value.0, snapshots[|snapshots| - 1]);
        if last.Err? then Err(last.error)
        else
          var rails := before.value.1 + [last.value.1];
          FollowOneMore(before.value.1, snapshots, rails);
          Ok((last.value.0, rails))
  }

  lemma {:induction false} ErrorsStop<T>(c: Catalog<T>, db: Plain<T>, snapshots: seq<RailSnapshot>, n: nat)
    requires n <= |snapshots|
    ensures PlainNormalize(c, db, snapshots[..n]).Err? ==>
              PlainNormalize(c, db, snapshots) == PlainNormalize(c, db, snapshots[..n])
  {
    if n == |snapshots| {
      assert snapshots[..n] == snapshots;
    } else {
      var front := snapshots[..|snapshots| - 1];
      assert front[..n] == snapshots[..n];
      ErrorsStop(c, db, front, n);
    }
  }

  lemma NormalizeOneMore<T>(c: Catalog<T>, db: Plain<T>, front: seq<RailSnapshot>, s: RailSnapshot,
                            more: seq<RailSnapshot>)
    requires more == front + [s]
    ensures match PlainNormalize(c, db, front)
            case Err(e) => PlainNormalize(c, db, more) == Err(e)
            case Ok((middle, before)) =>
              match PlainSnapshot(c, middle, s)
              case Err(e) => PlainNormalize(c, db, more) == Err(e)
              case Ok((later, rail)) => PlainNormalize(c, db, more) == Ok((later, before + [rail]))
  {
    assert more[..|front|] == front;
  }

  /** The next snapshot of a poll adds its rail, or ends the poll with its error. */
  lemma NormalizeNext<T>(c: Catalog<T>, db: Plain<T>, snapshots: seq<RailSnapshot>, front: seq<RailSnapshot>,
                         s: RailSnapshot,
                         more: seq<RailSnapshot>)
    requires more == front + [s] && |more| <= |snapshots| && more == snapshots[..|more|]
    ensures PlainNormalize(c, db, front).Ok? ==>
            var next := PlainSnapshot(c, PlainNormalize(c, db, front).value.0, s);
            if next.Ok?
            then PlainNormalize(c, db, more) ==
                  Ok((next.value.0, PlainNormalize(c, db, front).value.1 + [next.value.1]))
            else PlainNormalize(c, db, snapshots) == Err(next.error)
  {
    NormalizeOneMore(c, db, front, s, more);
    ErrorsStop(c, db, snapshots, |more|);
  }

  // --- The resolver with its caches ---

  datatype CoinAliasRow = CoinAliasRow(exchangeID: int, rawSymbol: string, rawName: string, coinID: int)
  {
    function Cleaned(): CoinKey {
      CoinKey(exchangeID, Trim(rawSymbol), Trim(rawName))
    }

    predicate Usable() {
      exchangeID != 0 && Cleaned().rawSymbol != "" && coinID != 0
    }
  }

  datatype ChainAliasRow = ChainAliasRow(exchangeID: int, rawSymbol: string, rawName: string, rawNetworkID: string,
                                         chainID: int)
  {
    function Cleaned(): ChainKey {
      ChainKey(exchangeID, Trim(rawSymbol), Trim(rawName), Trim(rawNetworkID))
    }

    predicate Usable() {
      exchangeID != 0 && (Cleaned().rawSymbol != "" || Cleaned().rawName != "") && chainID != 0
    }
  }

  /** The row is in the alias table under its trimmed names. */
  predicate CoinRowStored(r: CoinAliasRow, stored: map<CoinKey, int>) {
    var k := CoinKey(r.exchangeID, Trim(r.rawSymbol), Trim(r.rawName));
    k in stored && stored[k] == r.coinID
  }

  predicate ChainRowStored(r: ChainAliasRow, stored: map<ChainKey, int>) {
    var k := ChainKey(r.exchangeID, Trim(r.rawSymbol), Trim(r.rawName), Trim(r.rawNetworkID));
    k in stored && stored[k] == r.chainID
  }

  /** The row has an exchange, a symbol and a coin, and `k` is its key. */
  predicate GivesCoin(r: CoinAliasRow, k: CoinKey) {
    && r.exchangeID != 0 && Trim(r.rawSymbol) != "" && r.coinID != 0
    && k == CoinKey(r.exchangeID, Trim(r.rawSymbol), Trim(r.rawName))
  }

  /** The row has an exchange, a symbol or a name, and a chain, and `k` is its key. */
  predicate GivesChain(r: ChainAliasRow, k: ChainKey) {
    && r.exchangeID != 0 && (Trim(r.rawSymbol) != "" || Trim(r.rawName) != "") && r.chainID != 0
    && k == ChainKey(r.exchangeID, Trim(r.rawSymbol), Trim(r.rawName), Trim(r.rawNetworkID))
  }

  ghost predicate AnyGivesCoin(rows: seq<CoinAliasRow>, k: CoinKey) {
    exists r <- rows :: GivesCoin(r, k)
  }

  ghost predicate AnyGivesChain(rows: seq<ChainAliasRow>, k: ChainKey) {
    exists r <- rows :: GivesChain(r, k)
  }

  lemma OneMoreCoinRow(rows: seq<CoinAliasRow>, row: CoinAliasRow, k: CoinKey)
    ensures AnyGivesCoin(rows + [row], k) <==> AnyGivesCoin(rows, k) || (row.Usable() && row.Cleaned() == k)
  {
    assert row in rows + [row] && forall r <- rows :: r in rows + [row];
  }

  lemma OneMoreChainRow(rows: seq<ChainAliasRow>, row: ChainAliasRow, k: ChainKey)
    ensures AnyGivesChain(rows + [row], k) <==> AnyGivesChain(rows, k) || (row.Usable() && row.Cleaned() == k)
  {
    assert row in rows + [row] && forall r <- rows :: r in rows + [row];
  }

  /** The alias side of a resolver, for coins or for chains: the alias rows it knows, the keys it has
      upserted, those still pending, and the stored rows. */
  datatype AliasCache<!K> = AliasCache(known: map<K, int>, seen: set<K>, pending: map<K, int>, stored: map<K, int>)

  /** The cache stands for the plain resolver's `aliases`, of which it has written `writes`: stored rows
      overridden by pending ones, one pending row for each key written if writes are put off. */
  predicate CacheMirrors<K>(c: AliasCache<K>, deferred: bool, aliases: map<K, int>, writes: set<K>) {
    && c.stored + c.pending == aliases
    && c.seen == writes
    && c.pending.Keys == (if deferred then c.seen else {})
    && (forall k <- c.known :: k in aliases && aliases[k] == c.known[k])
    && (forall k <- c.seen :: k in c.known)
  }

  function UpsertOnce<K>(c: AliasCache<K>, deferred: bool, key: K, id: int): AliasCache<K> {
    if key in c.seen then c
    else if deferred then c.(pending := c.pending[key := id], seen := c.seen + {key})
    else c.(stored := c.stored[key := id], seen := c.seen + {key})
  }

  /** The rows after a first upsert are the plain resolver's, whether it is written or put off. */
  lemma FirstUpsertIsStored<K>(stored: map<K, int>, pending: map<K, int>, aliases: map<K, int>, deferred: bool, key: K,
                               id: int)
    requires stored + pending == aliases && (!deferred ==> pending == map[])
    ensures if deferred then stored + pending[key := id] == aliases[key := id]
            else stored[key := id] + pending == aliases[key := id]
  {
  }

  /** Upserting an alias once, and remembering it, mirrors the plain resolver writing it every time. */
  lemma UpsertMirrors<K>(c: AliasCache<K>, deferred: bool, aliases: map<K, int>, writes: set<K>, key: K, id: int)
    requires CacheMirrors(c, deferred, aliases, writes)
    requires key in aliases ==> aliases[key] == id
    ensures var c' := UpsertOnce(c, deferred, key, id);
            CacheMirrors(c'.(known := c'.known[key := id]), deferred, aliases[key := id], writes + {key})
  {
    if key in c.seen {
      assert aliases[key := id] == aliases && writes + {key} == writes;
    } else {
      FirstUpsertIsStored(c.stored, c.pending, aliases, deferred, key, id);
    }
  }

  /** A key the cache does not know is stored exactly when the plain resolver has it. */
  lemma UnknownIsStored<K>(c: AliasCache<K>, deferred: bool, aliases: map<K, int>, writes: set<K>, key: K)
    requires CacheMirrors(c, deferred, aliases, writes) && key !in c.known
    ensures key in c.stored <==> key in aliases
    ensures key in aliases ==> aliases[key] == c.stored[key]
  {
    assert key !in c.pending;
  }

  /** The alias store a resolver reads and writes through. */
  class Store<T> {
    const catalog: Catalog<T>
    var tables: T
    var exchanges: map<string, int>
    var coinAliases: map<CoinKey, int>
    var chainAliases: map<ChainKey, int>

    constructor (catalog: Catalog<T>, tables: T, exchanges: map<string, int>,
                 coinAliases: map<CoinKey, int>, chainAliases: map<ChainKey, int>)
      ensures this.catalog == catalog
      ensures Contents() == Plain(tables, exchanges, coinAliases, chainAliases, {}, {})
    {
      this.catalog, this.tables, this.exchanges := catalog, tables, exchanges;
      this.coinAliases, this.chainAliases := coinAliases, chainAliases;
    }

    function Contents(): Plain<T>
      reads this
    {
      Plain(tables, exchanges, coinAliases, chainAliases, {}, {})
    }
  }

  class PollResolver<T> {
    const store: Store<T>
    const deferAliasUpserts: bool
    var exchangeIDs: map<string, int>
    var coinRefs: map<CoinQuery, int>
    var chainRefs: map<ChainKey, int>
    var coinAliasRefs: map<CoinKey, int>
    var chainAliasRefs: map<ChainKey, int>
    var seenCoinAliases: set<CoinKey>
    var seenChainAliases: set<ChainKey>
    var pendingCoinAliases: map<CoinKey, int>
    var pendingChainAliases: map<ChainKey, int>

    /** The resolver stands where the plain resolver stands with database `db`: the tables are the same,
        the aliases are the stored ones overridden by the pending ones, every cached answer is the plain
        answer, and the aliases seen are exactly those the plain resolver has written. */
    ghost predicate Mirrors(db: Plain<T>)
      reads this, store
    {
      && ChainsMirror(db.chainAliases, db.chainWrites) && CoinsMirror(db.coinAliases, db.coinWrites)
      && ExchangesMirror(db.exchanges)
      && store.tables == db.tables
    }

    ghost predicate ExchangesMirror(exchanges: map<string, int>)
      reads this`exchangeIDs, store`exchanges
    {
      && store.exchanges == exchanges
      && (forall s <- exchangeIDs :: s in exchanges && exchanges[s] == exchangeIDs[s])
    }

    function ChainCache(): AliasCache<ChainKey>
      reads this`chainAliasRefs, this`seenChainAliases, this`pendingChainAliases, store`chainAliases
    {
      AliasCache(chainAliasRefs, seenChainAliases, pendingChainAliases, store.chainAliases)
    }

    function CoinCache(): AliasCache<CoinKey>
      reads this`coinAliasRefs, this`seenCoinAliases, this`pendingCoinAliases, store`coinAliases
    {
      AliasCache(coinAliasRefs, seenCoinAliases, pendingCoinAliases, store.coinAliases)
    }

    ghost predicate ChainsMirror(aliases: map<ChainKey, int>, writes: set<ChainKey>)
      reads this`chainRefs, this`chainAliasRefs, this`seenChainAliases, this`pendingChainAliases, store`chainAliases
    {
      && CacheMirrors(ChainCache(), deferAliasUpserts, aliases, writes)
      && (forall k <- chainRefs :: k in writes && k in aliases && aliases[k] == chainRefs[k])
    }

    ghost predicate CoinsMirror(aliases: map<CoinKey, int>, writes: set<CoinKey>)
      reads this`coinRefs, this`coinAliasRefs, this`seenCoinAliases, this`pendingCoinAliases, store`coinAliases
    {
      && CacheMirrors(CoinCache(), deferAliasUpserts, aliases, writes)
      && (forall q <- coinRefs ::
            if ByContract(store.catalog, q).Some? then ByContract(store.catalog, q).value == coinRefs[q]
            else q.key in writes && q.key in aliases && aliases[q.key] == coinRefs[q])
    }

    /** A resolver for one poll of one exchange, hydrated with the exchange's ID and alias rows. */
    constructor (store: Store<T>, deferred: bool, exchangeSlug: string, exchangeID: int,
                 coinRows: seq<CoinAliasRow>, chainRows: seq<ChainAliasRow>)
      requires Slug(exchangeSlug) in store.exchanges && store.exchanges[Slug(exchangeSlug)] == exchangeID
      requires forall r <- coinRows :: CoinRowStored(r, store.coinAliases)
      requires forall r <- chainRows :: ChainRowStored(r, store.chainAliases)
      ensures this.store == store && this.deferAliasUpserts == deferred
      ensures Mirrors(store.Contents())
    {
      this.store, this.deferAliasUpserts := store, deferred;
      exchangeIDs := if Slug(exchangeSlug) != "" && exchangeID != 0
                     then map[Slug(exchangeSlug) := exchangeID] else map[];
      coinRefs, chainRefs := map[], map[];
      seenCoinAliases, seenChainAliases := {}, {};
      pendingCoinAliases, pendingChainAliases := map[], map[];
      var coins := HydratedCoins(coinRows, store.coinAliases);
      var chains := HydratedChains(chainRows, store.chainAliases);
      coinAliasRefs, chainAliasRefs := coins, chains;
      new;
      assert store.coinAliases + map[] == store.coinAliases && store.chainAliases + map[] == store.chainAliases;
    }

    /** The aliases of the rows that have an exchange, a symbol and a coin. */
    static method HydratedCoins(rows: seq<CoinAliasRow>, ghost stored: map<CoinKey, int>)
      returns (refs: map<CoinKey, int>)
      requires forall r <- rows :: CoinRowStored(r, stored)
      ensures forall k :: k in refs <==> AnyGivesCoin(rows, k)
      ensures forall k <- refs :: k in stored && stored[k] == refs[k]
    {
      refs := map[];
      for i := 0 to |rows|
        invariant forall k :: k in refs <==> AnyGivesCoin(rows[..i], k)
        invariant forall k <- refs :: k in stored && stored[k] == refs[k]
      {
        var row := rows[i];
        assert row in rows && rows[..i + 1] == rows[..i] + [row];
        forall k { OneMoreCoinRow(rows[..i], row, k); }
        if row.Usable() {
          refs := refs[row.Cleaned() := row.coinID];
        }
      }
      assert rows[..|rows|] == rows;
    }

    /** The aliases of the rows that have an exchange, a symbol or a name, and a chain. */
    static method HydratedChains(rows: seq<ChainAliasRow>, ghost stored: map<ChainKey, int>)
      returns (refs: map<ChainKey, int>)
      requires forall r <- rows :: ChainRowStored(r, stored)
      ensures forall k :: k in refs <==> AnyGivesChain(rows, k)
      ensures forall k <- refs :: k in stored && stored[k] == refs[k]
    {
      refs := map[];
      for i := 0 to |rows|
        invariant forall k :: k in refs <==> AnyGivesChain(rows[..i], k)
        invariant forall k <- refs :: k in stored && stored[k] == refs[k]
      {
        var row := rows[i];
        assert row in rows && rows[..i + 1] == rows[..i] + [row];
        forall k { OneMoreChainRow(rows[..i], row, k); }
        if row.Usable() {
          refs := refs[row.Cleaned() := row.chainID];
        }
      }
      assert rows[..|rows|] == rows;
    }

    method ExchangeID(exchangeSlug: string, ghost db: Plain<T>) returns (result: Result<int, ResolveError>)
      requires Mirrors(db)
      modifies this`exchangeIDs
      ensures Mirrors(db) && result == PlainExchange(db, exchangeSlug)
    {
      var slug := Slug(exchangeSlug);
      if slug == "" {
        return Err(MissingExchange);
      }
      if slug in exchangeIDs {
        return Ok(exchangeIDs[slug]);
      }
      if slug !in store.exchanges {
        return Err(UnknownExchange);
      }
      exchangeIDs := exchangeIDs[slug := store.exchanges[slug]];
      return Ok(exchangeIDs[slug]);
    }

    method UpsertChainAliasOnce(key: ChainKey, id: int)
      modifies this`seenChainAliases, this`pendingChainAliases, store`chainAliases
      ensures ChainCache() == UpsertOnce(old(ChainCache()), deferAliasUpserts, key, id)
    {
      if key in seenChainAliases {
        return;
      }
      if deferAliasUpserts {
        pendingChainAliases := pendingChainAliases[key := id];
      } else {
        store.chainAliases := store.chainAliases[key := id];
      }
      seenChainAliases := seenChainAliases + {key};
    }

    method UpsertCoinAliasOnce(key: CoinKey, id: int)
      modifies this`seenCoinAliases, this`pendingCoinAliases, store`coinAliases
      ensures CoinCache() == UpsertOnce(old(CoinCache()), deferAliasUpserts, key, id)
    {
      if key in seenCoinAliases {
        return;
      }
      if deferAliasUpserts {
        pendingCoinAliases := pendingCoinAliases[key := id];
      } else {
        store.coinAliases := store.coinAliases[key := id];
      }
      seenCoinAliases := seenCoinAliases + {key};
    }

    /** Upserts and caches a resolved chain. */
    method RememberChain(key: ChainKey, id: int, ghost aliases: map<ChainKey, int>, ghost writes: set<ChainKey>)
      requires ChainsMirror(aliases, writes) && (key in aliases ==> aliases[key] == id)
      modifies this`chainRefs, this`chainAliasRefs, this`seenChainAliases, this`pendingChainAliases, store`chainAliases
      ensures ChainsMirror(aliases[key := id], writes + {key})
      ensures deferAliasUpserts ==> store.chainAliases == old(store.chainAliases)
    {
      UpsertMirrors(ChainCache(), deferAliasUpserts, aliases, writes, key, id);
      UpsertChainAliasOnce(key, id);
      chainAliasRefs := chainAliasRefs[key := id];
      chainRefs := chainRefs[key := id];
    }

    /** Upserts and caches a coin resolved by its name. */
    method RememberCoin(q: CoinQuery, id: int, ghost aliases: map<CoinKey, int>, ghost writes: set<CoinKey>)
      requires CoinsMirror(aliases, writes) && (q.key in aliases ==> aliases[q.key] == id)
      requires ByContract(store.catalog, q).None?
      modifies this`coinRefs, this`coinAliasRefs, this`seenCoinAliases, this`pendingCoinAliases, store`coinAliases
      ensures CoinsMirror(aliases[q.key := id], writes + {q.key})
      ensures deferAliasUpserts ==> store.coinAliases == old(store.coinAliases)
    {
      UpsertMirrors(CoinCache(), deferAliasUpserts, aliases, writes, q.key, id);
      UpsertCoinAliasOnce(q.key, id);
      coinAliasRefs := coinAliasRefs[q.key := id];
      coinRefs := coinRefs[q := id];
    }

    /** Caches a coin found by its contract; no alias is written. */
    method RememberContract(q: CoinQuery, id: int, ghost aliases: map<CoinKey, int>, ghost writes: set<CoinKey>)
      requires CoinsMirror(aliases, writes) && ByContract(store.catalog, q) == Some(id)
      modifies this`coinRefs
      ensures CoinsMirror(aliases, writes)
    {
      coinRefs := coinRefs[q := id];
    }

    /** A cached chain is the plain answer, and looking it up again would change nothing. */
    lemma CachedChain(key: ChainKey, db: Plain<T>)
      requires ChainsMirror(db.chainAliases, db.chainWrites) && key in chainRefs
      ensures PlainChainOf(store.catalog, db, key) == (db, chainRefs[key])
    {
      assert db.chainAliases[key := chainRefs[key]] == db.chainAliases && db.chainWrites + {key} == db.chainWrites;
    }

    /** A cached coin is the plain answer, and looking it up again would change nothing. */
    lemma CachedCoin(q: CoinQuery, db: Plain<T>)
      requires CoinsMirror(db.coinAliases, db.coinWrites) && q in coinRefs
      ensures PlainCoinOf(store.catalog, db, q) == (db, coinRefs[q])
    {
      if ByContract(store.catalog, q).None? {
        assert db.coinAliases[q.key := coinRefs[q]] == db.coinAliases && db.coinWrites + {q.key} == db.coinWrites;
      }
    }

    /** The chain of an alias key, from the alias rows known, the stored ones or the canonical chains. */
    method FindChain(key: ChainKey, ghost aliases: map<ChainKey, int>, ghost writes: set<ChainKey>) returns (id: int)
      requires ChainsMirror(aliases, writes)
      modifies store`tables
      ensures (store.tables, id) == if key in aliases then (old(store.tables), aliases[key])
                                    else CanonicalChain(store.catalog, old(store.tables), key.rawSymbol, key.rawName)
    {
      if key in chainAliasRefs {
        return chainAliasRefs[key];
      }
      UnknownIsStored(ChainCache(), deferAliasUpserts, aliases, writes, key);
      if key in store.chainAliases {
        return store.chainAliases[key];
      }
      var found := CanonicalChain(store.catalog, store.tables, key.rawSymbol, key.rawName);
      store.tables := found.0;
      return found.1;
    }

    method FindCoin(key: CoinKey, ghost aliases: map<CoinKey, int>, ghost writes: set<CoinKey>) returns (id: int)
      requires CoinsMirror(aliases, writes)
      modifies store`tables
      ensures (store.tables, id) == if key in aliases then (old(store.tables), aliases[key])
                                    else CanonicalCoin(store.catalog, old(store.tables), key.rawSymbol, key.rawName)
    {
      if key in coinAliasRefs {
        return coinAliasRefs[key];
      }
      UnknownIsStored(CoinCache(), deferAliasUpserts, aliases, writes, key);
      if key in store.coinAliases {
        return store.coinAliases[key];
      }
      var found := CanonicalCoin(store.catalog, store.tables, key.rawSymbol, key.rawName);
      store.tables := found.0;
      return found.1;
    }

    method ResolveChainByName(key: ChainKey, ghost db: Plain<T>) returns (id: int)
      requires Mirrors(db)
      modifies this`chainRefs, this`chainAliasRefs, this`seenChainAliases, this`pendingChainAliases
      modifies store`chainAliases, store`tables
      ensures Mirrors(PlainChainOf(store.catalog, db, key).0) && id == PlainChainOf(store.catalog, db, key).1
      ensures deferAliasUpserts ==> store.chainAliases == old(store.chainAliases)
    {
      ghost var later := PlainChainOf(store.catalog, db, key).0;
      id := FindChain(key, db.chainAliases, db.chainWrites);
      RememberChain(key, id, db.chainAliases, db.chainWrites);
      assert ChainsMirror(later.chainAliases, later.chainWrites);
      assert CoinsMirror(later.coinAliases, later.coinWrites);
    }

    method ResolveChain(key: ChainKey, ghost db: Plain<T>) returns (id: int)
      requires Mirrors(db)
      modifies this`chainRefs, this`chainAliasRefs, this`seenChainAliases, this`pendingChainAliases
      modifies store`chainAliases, store`tables
      ensures Mirrors(PlainChainOf(store.catalog, db, key).0) && id == PlainChainOf(store.catalog, db, key).1
      ensures deferAliasUpserts ==> store.chainAliases == old(store.chainAliases)
    {
      if key in chainRefs {
        CachedChain(key, db);
        return chainRefs[key];
      }
      id := ResolveChainByName(key, db);
    }

    method ResolveCoinByName(q: CoinQuery, ghost db: Plain<T>) returns (id: int)
      requires Mirrors(db) && ByContract(store.catalog, q).None?
      modifies this`coinRefs, this`coinAliasRefs, this`seenCoinAliases, this`pendingCoinAliases, store`coinAliases
      modifies store`tables
      ensures Mirrors(PlainCoinOf(store.catalog, db, q).0) && id == PlainCoinOf(store.catalog, db, q).1
      ensures deferAliasUpserts ==> store.coinAliases == old(store.coinAliases)
    {
      ghost var later := PlainCoinOf(store.catalog, db, q).0;
      id := FindCoin(q.key, db.coinAliases, db.coinWrites);
      RememberCoin(q, id, db.coinAliases, db.coinWrites);
      assert CoinsMirror(later.coinAliases, later.coinWrites);
      assert ChainsMirror(later.chainAliases, later.chainWrites);
    }

    method ResolveCoin(q: CoinQuery, ghost db: Plain<T>) returns (id: int)
      requires Mirrors(db)
      modifies this`coinRefs, this`coinAliasRefs, this`seenCoinAliases, this`pendingCoinAliases, store`coinAliases
      modifies store`tables
      ensures Mirrors(PlainCoinOf(store.catalog, db, q).0) && id == PlainCoinOf(store.catalog, db, q).1
      ensures deferAliasUpserts ==> store.coinAliases == old(store.coinAliases)
    {
      if q in coinRefs {
        CachedCoin(q, db);
        return coinRefs[q];
      }
      if q.contract != "" && q.chainID != 0 {
        var coin := store.catalog.coinByContract(q.chainID, q.contract);
        if coin.Some? {
          RememberContract(q, coin.value, db.coinAliases, db.coinWrites);
          return coin.value;
        }
      }
      id := ResolveCoinByName(q, db);
    }

    /** All snapshots of a poll. The answers are the plain resolver's, error for error, and afterwards
        the resolver stands where the plain resolver does. */
    method Normalize(snapshots: seq<RailSnapshot>, ghost db: Plain<T>)
      returns (result: Result<seq<NormalizedRail>, ResolveError>)
      requires Mirrors(db)
      modifies this, store`tables, store`coinAliases, store`chainAliases
      ensures match PlainNormalize(store.catalog, db, snapshots)
              case Ok((db', rails)) => result == Ok(rails) && Mirrors(db')
              case Err(e) => result == Err(e)
      ensures deferAliasUpserts ==>
                store.coinAliases == old(store.coinAliases) && store.chainAliases == old(store.chainAliases)
    {
      var rails: seq<NormalizedRail> := [];
      ghost var plain := db;
      for i := 0 to |snapshots|
        invariant PlainNormalize(store.catalog, db, snapshots[..i]) == Ok((plain, rails))
        invariant Mirrors(plain)
        invariant deferAliasUpserts ==>
                    store.coinAliases == old(store.coinAliases) && store.chainAliases == old(store.chainAliases)
      {
        PrefixOneMore(snapshots, i);
        NormalizeNext(store.catalog, db, snapshots, snapshots[..i], snapshots[i], snapshots[..i + 1]);
        ghost var step := PlainSnapshot(store.catalog, plain, snapshots[i]);
        var rail := NormalizeOne(snapshots[i], plain);
        if rail.Err? {
          return Err(rail.error);
        }
        plain := step.value.0;
        rails := rails + [rail.value];
      }
      assert snapshots[..|snapshots|] == snapshots;
      return Ok(rails);
    }

    method NormalizeOne(s: RailSnapshot, ghost db: Plain<T>) returns (result: Result<NormalizedRail, ResolveError>)
      requires Mirrors(db)
      modifies this, store`tables, store`coinAliases, store`chainAliases
      ensures match PlainSnapshot(store.catalog, db, s)
              case Ok((db', rail)) => result == Ok(rail) && Mirrors(db')
              case Err(e) => result == Err(e)
      ensures deferAliasUpserts ==>
                store.coinAliases == old(store.coinAliases) && store.chainAliases == old(store.chainAliases)
    {
      var exchange := ExchangeID(s.exchangeSlug, db);
      if exchange.Err? {
        return Err(exchange.error);
      }
      result := NormalizeFor(exchange.value, s, db);
    }

    /** A snapshot whose exchange is known. */
    method NormalizeFor(exchangeID: int, s: RailSnapshot, ghost db: Plain<T>)
      returns (result: Result<NormalizedRail, ResolveError>)
      requires Mirrors(db) && PlainExchange(db, s.exchangeSlug) == Ok(exchangeID)
      modifies this, store`tables, store`coinAliases, store`chainAliases
      ensures match PlainSnapshot(store.catalog, db, s)
              case Ok((db', rail)) => result == Ok(rail) && Mirrors(db')
              case Err(e) => result == Err(e)
      ensures deferAliasUpserts ==>
                store.coinAliases == old(store.coinAliases) && store.chainAliases == old(store.chainAliases)
    {
      var chainKey := ChainKey(exchangeID, Trim(s.rawChainSymbol), Trim(s.rawChainName), Trim(s.rawNetworkID));
      if chainKey.rawSymbol == "" && chainKey.rawName == "" {
        return Err(MissingChainInput);
      }
      var chainID := ResolveChain(chainKey, db);
      ghost var db1 := PlainChainOf(store.catalog, db, chainKey).0;
      var key := CoinKey(exchangeID, Trim(s.coinSymbol), Trim(s.coinName));
      if key.rawSymbol == "" {
        return Err(MissingCoinInput);
      }
      var coinID := ResolveCoin(CoinQuery(key, chainID, NormalizeContract(s.contractAddress)), db1);
      return Ok(NormalizedRail(Key(exchangeID, coinID, chainID), s));
    }

    /** Writes the aliases that were put off. The alias tables are then those of the plain resolver, and
        the keys upserted are exactly those it wrote, once each: none for a coin found by its contract. */
    method FlushAliasUpserts(ghost db: Plain<T>)
      requires Mirrors(db)
      modifies store`coinAliases, store`chainAliases
      ensures store.coinAliases == db.coinAliases && store.chainAliases == db.chainAliases && store.tables == db.tables
      ensures deferAliasUpserts ==>
                pendingCoinAliases.Keys == db.coinWrites && pendingChainAliases.Keys == db.chainWrites
    {
      store.coinAliases := UpsertAll(store.coinAliases, pendingCoinAliases);
      store.chainAliases := UpsertAll(store.chainAliases, pendingChainAliases);
    }
  }

  /** One upsert for each pending alias, in whatever order the map gives them. */
  method UpsertAll<K>(stored: map<K, int>, pending: map<K, int>) returns (aliases: map<K, int>)
    ensures aliases == stored + pending
  {
    aliases := stored;
    var left := pending.Keys;
    while left != {}
      invariant left <= pending.Keys
      invariant aliases.Keys + left == stored.Keys + pending.Keys
      invariant forall k <- aliases :: k !in left ==> aliases[k] == (stored + pending)[k]
      decreases left
    {
      var key :| key in left;
      aliases := aliases[key := pending[key]];
      left := left - {key};
    }
  }

  /** One poll as the runner resolves it: a hydrated resolver that puts off its alias writes, flushed at
      the end. The rails and the tables it leaves are those of the plain resolver. On an error the poll is rolled
      back and no alias has been written. */
  method ResolvePoll<T>(store: Store<T>, exchangeSlug: string, exchangeID: int, coinRows: seq<CoinAliasRow>,
                        chainRows: seq<ChainAliasRow>, snapshots: seq<RailSnapshot>)
    returns (result: Result<seq<NormalizedRail>, ResolveError>)
    requires Slug(exchangeSlug) in store.exchanges && store.exchanges[Slug(exchangeSlug)] == exchangeID
    requires forall r <- coinRows :: CoinRowStored(r, store.coinAliases)
    requires forall r <- chainRows :: ChainRowStored(r, store.chainAliases)
    modifies store`tables, store`coinAliases, store`chainAliases
    ensures match PlainNormalize(store.catalog, old(store.Contents()), snapshots)
            case Ok((db, rails)) =>
              result == Ok(rails) && store.tables == db.tables
              && store.coinAliases == db.coinAliases && store.chainAliases == db.chainAliases
            case Err(e) => result == Err(e) && store.Contents() == old(store.Contents())
  {
    ghost var start := store.Contents();
    var tables := store.tables;
    var resolver := new PollResolver(store, true, exchangeSlug, exchangeID, coinRows, chainRows);
    result := resolver.Normalize(snapshots, start);
    if result.Err? {
      store.tables := tables;
      return;
    }
    ghost var db := PlainNormalize(store.catalog, start, snapshots).value.0;
    resolver.FlushAliasUpserts(db);
  }

  function ChainKeyOf(rail: NormalizedRail): ChainKey {
    var s := rail.snapshot;
    ChainKey(rail.key.exchangeID, Trim(s.rawChainSymbol), Trim(s.rawChainName), Trim(s.rawNetworkID))
  }

  function CoinQueryOf(rail: NormalizedRail): CoinQuery {
    var s := rail.snapshot;
    CoinQuery(CoinKey(rail.key.exchangeID, Trim(s.coinSymbol), Trim(s.coinName)), rail.key.chainID,
        NormalizeContract(s.contractAddress))
  }

  /** A rail's names are not blank and its IDs are those the tables of `db` give for them: the
      exchange of its slug, the chain of its alias, and the coin of its contract or else of its alias. */
  predicate Explains<T>(c: Catalog<T>, db: Plain<T>, rail: NormalizedRail) {
    var q := CoinQueryOf(rail);
    && (ChainKeyOf(rail).rawSymbol != "" || ChainKeyOf(rail).rawName != "") && q.key.rawSymbol != ""
    && PlainExchange(db, rail.snapshot.exchangeSlug) == Ok(rail.key.exchangeID)
    && ChainKeyOf(rail) in db.chainAliases && db.chainAliases[ChainKeyOf(rail)] == rail.key.chainID
    && (if ByContract(c, q).Some? then ByContract(c, q).value == rail.key.coinID
        else q.key in db.coinAliases && db.coinAliases[q.key] == rail.key.coinID)
  }

  function CoinWritesOf<T>(c: Catalog<T>, rails: seq<NormalizedRail>): set<CoinKey> {
    set rail <- rails | ByContract(c, CoinQueryOf(rail)).None? :: CoinQueryOf(rail).key
  }

  function ChainWritesOf(rails: seq<NormalizedRail>): set<ChainKey> {
    set rail <- rails :: ChainKeyOf(rail)
  }

  /** `later` has every alias of `db`, with the same answer, and the same exchanges. */
  ghost predicate Extends<T>(db: Plain<T>, later: Plain<T>) {
    && later.exchanges == db.exchanges
    && (forall k <- db.coinAliases :: k in later.coinAliases && later.coinAliases[k] == db.coinAliases[k])
    && (forall k <- db.chainAliases :: k in later.chainAliases && later.chainAliases[k] == db.chainAliases[k])
  }

  /** What `later` tells about the snapshots that led to it from `db`, whose rails are `rails`. */
  ghost predicate ExplainsPoll<T>(c: Catalog<T>, db: Plain<T>, later: Plain<T>, rails: seq<NormalizedRail>) {
    && Extends(db, later)
    && (forall rail <- rails :: Explains(c, later, rail))
    && later.chainWrites == db.chainWrites + ChainWritesOf(rails)
    && later.coinWrites == db.coinWrites + CoinWritesOf(c, rails)
  }

  lemma SnapshotIsAnswered<T>(c: Catalog<T>, db: Plain<T>, s: RailSnapshot)
    requires PlainSnapshot(c, db, s).Ok?
    ensures var (later, rail) := PlainSnapshot(c, db, s).value;
            && rail.snapshot == s && Extends(db, later) && Explains(c, later, rail)
            && later.chainWrites == db.chainWrites + {ChainKeyOf(rail)}
            && (ByContract(c, CoinQueryOf(rail)).Some? ==> later.coinWrites == db.coinWrites)
            && (ByContract(c, CoinQueryOf(rail)).None? ==> later.coinWrites == db.coinWrites + {CoinQueryOf(rail).key})
  {
  }

  lemma SnapshotIsExplained<T>(c: Catalog<T>, db: Plain<T>, s: RailSnapshot)
    requires PlainSnapshot(c, db, s).Ok?
    ensures var (later, rail) := PlainSnapshot(c, db, s).value;
            rail.snapshot == s && ExplainsPoll(c, db, later, [rail])
  {
    var (later, rail) := PlainSnapshot(c, db, s).value;
    SnapshotIsAnswered(c, db, s);
    assert CoinWritesOf(c, [rail]) == if ByContract(c, CoinQueryOf(rail)).Some? then {} else {CoinQueryOf(rail).key};
    assert ChainWritesOf([rail]) == {ChainKeyOf(rail)};
  }

  lemma ExplanationsStay<T>(c: Catalog<T>, db: Plain<T>, later: Plain<T>, rail: NormalizedRail)
    requires Extends(db, later) && Explains(c, db, rail)
    ensures Explains(c, later, rail)
  {
  }

  lemma ExplanationsCompose<T>(c: Catalog<T>, db: Plain<T>, middle: Plain<T>, later: Plain<T>,
                               rails: seq<NormalizedRail>, rail: NormalizedRail)
    requires ExplainsPoll(c, db, middle, rails) && ExplainsPoll(c, middle, later, [rail])
    ensures ExplainsPoll(c, db, later, rails + [rail])
  {
    WritesGrow(c, rails, rail);
    forall r <- rails + [rail] ensures Explains(c, later, r) {
      if r in rails {
        ExplanationsStay(c, middle, later, r);
      } else {
        assert r in [rail];
      }
    }
  }

  /** All the rails of a poll, early or late, are explained by the tables the poll ends with, so one name
      has one answer throughout. No alias the poll started with changes, and the aliases written are
      those of its chains and of the coins that no contract identifies. */
  lemma {:induction false} FinalAliasesExplainAPoll<T>(c: Catalog<T>, db: Plain<T>, snapshots: seq<RailSnapshot>)
    ensures match PlainNormalize(c, db, snapshots)
            case Ok((later, rails)) => ExplainsPoll(c, db, later, rails)
            case Err(_) => true
  {
    if snapshots == [] {
      assert CoinWritesOf(c, []) == {} && ChainWritesOf([]) == {};
    } else if PlainNormalize(c, db, snapshots).Ok? {
      var front, last := snapshots[..|snapshots| - 1], snapshots[|snapshots| - 1];
      FinalAliasesExplainAPoll(c, db, front);
      var (middle, before) := PlainNormalize(c, db, front).value;
      SnapshotIsExplained(c, middle, last);
      var (later, rail) := PlainSnapshot(c, middle, last).value;
      ExplanationsCompose(c, db, middle, later, before, rail);
      assert snapshots == front + [last];
      NormalizeOneMore(c, db, front, last, snapshots);
    }
  }

  lemma WritesGrow<T>(c: Catalog<T>, rails: seq<NormalizedRail>, rail: NormalizedRail)
    ensures CoinWritesOf(c, rails + [rail]) == CoinWritesOf(c, rails) + CoinWritesOf(c, [rail])
    ensures ChainWritesOf(rails + [rail]) == ChainWritesOf(rails) + ChainWritesOf([rail])
  {
    forall r <- rails + [rail] ensures r in rails || r == rail {}
    forall r <- rails ensures r in rails + [rail] {}
    assert rail in rails + [rail];
  }

  /** Nothing but the record of what was written has changed. */
  predicate SameTables<T(==)>(db: Plain<T>, later: Plain<T>) {
    && later.tables == db.tables && later.exchanges == db.exchanges
    && later.coinAliases == db.coinAliases && later.chainAliases == db.chainAliases
  }

  lemma ExplainedResolvesAgain<T>(c: Catalog<T>, db: Plain<T>, later: Plain<T>, rail: NormalizedRail)
    requires Explains(c, db, rail) && SameTables(db, later)
    ensures var again := PlainSnapshot(c, later, rail.snapshot);
            again.Ok? && again.value.1 == rail && SameTables(db, again.value.0)
  {
    var k, q := ChainKeyOf(rail), CoinQueryOf(rail);
    assert db.chainAliases[k := rail.key.chainID] == db.chainAliases;
    if ByContract(c, q).None? {
      assert db.coinAliases[q.key := rail.key.coinID] == db.coinAliases;
    }
  }

  /** The snapshots resolve to these rails and leave the tables alone. */
  predicate Repeats<T(==)>(c: Catalog<T>, db: Plain<T>, snapshots: seq<RailSnapshot>, rails: seq<NormalizedRail>) {
    var again := PlainNormalize(c, db, snapshots);
    again.Ok? && again.value.1 == rails && SameTables(db, again.value.0)
  }

  lemma RepeatsOneMore<T>(c: Catalog<T>, db: Plain<T>, front: seq<NormalizedRail>, last: NormalizedRail,
                          snapshots: seq<RailSnapshot>, rails: seq<NormalizedRail>)
    requires snapshots == SnapshotsOf(front) + [last.snapshot] && rails == front + [last]
    ensures Repeats(c, db, SnapshotsOf(front), front) && Explains(c, db, last) ==> Repeats(c, db, snapshots, rails)
  {
    if Repeats(c, db, SnapshotsOf(front), front) && Explains(c, db, last) {
      ExplainedResolvesAgain(c, db, PlainNormalize(c, db, SnapshotsOf(front)).value.0, last);
      NormalizeOneMore(c, db, SnapshotsOf(front), last.snapshot, snapshots);
    }
  }

  lemma {:induction false} ExplainedPollRepeats<T>(c: Catalog<T>, db: Plain<T>, rails: seq<NormalizedRail>)
    requires forall rail <- rails :: Explains(c, db, rail)
    ensures Repeats(c, db, SnapshotsOf(rails), rails)
  {
    if rails != [] {
      var front, last := rails[..|rails| - 1], rails[|rails| - 1];
      ExplainedPollRepeats(c, db, front);
      SnapshotsOneMore(rails);
      assert last in rails;
      RepeatsOneMore(c, db, front, last, SnapshotsOf(rails), rails);
    }
  }

  lemma SnapshotsOneMore(rails: seq<NormalizedRail>)
    requires rails != []
    ensures var front, last := rails[..|rails| - 1], rails[|rails| - 1];
            rails == front + [last] && SnapshotsOf(rails) == SnapshotsOf(front) + [last.snapshot]
  {
  }

  function SnapshotsOf(rails: seq<NormalizedRail>): (snapshots: seq<RailSnapshot>)
    ensures Follow(rails, snapshots)
  {
    seq(|rails|, i requires 0 <= i < |rails| => rails[i].snapshot)
  }

  /** A poll that names the same rails again, by a later resolver, gets the same IDs, inserts no coin or
      chain and changes no alias: rail keys are stable from poll to poll. */
  lemma PollsRepeat<T>(c: Catalog<T>, db: Plain<T>, snapshots: seq<RailSnapshot>)
    ensures match PlainNormalize(c, db, snapshots)
            case Ok((later, rails)) => Repeats(c, later, snapshots, rails)
            case Err(_) => true
  {
    FinalAliasesExplainAPoll(c, db, snapshots);
    match PlainNormalize(c, db, snapshots)
    case Ok((later, rails)) =>
      ExplainedPollRepeats(c, later, rails);
      assert SnapshotsOf(rails) == snapshots;
    case Err(_) =>
  }
}
