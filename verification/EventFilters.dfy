/** Subscription filters (internal/api/ws/filters.go, internal/exchanges/exchanges.go): how they are
    normalized, what they match live, and what the backfill query selects with them. A nil slice of the
    program is None. */
module EventFilters {
  import opened RailTypes
  import opened Sequences
  import opened Text

  /** An event as subscribers see it. Its exchange, coin and chain are given by their slugs. */
  datatype LiveEvent = LiveEvent(id: int, occurredAt: Time, exchange: string, coin: string, chain: string,
                                 eventType: string)

  type Allowed = Option<seq<string>>

  datatype Filters = Filters(exchange: Allowed, coin: Allowed, chain: Allowed, eventType: Allowed)

  datatype Field = ExchangeField | CoinField | ChainField | EventTypeField

  datatype FilterError = EmptyValue(field: Field) | UnsupportedEventType(value: string)

  const EVENT_TYPES: set<string> := {
    "deposit_off", "deposit_on", "withdraw_off", "withdraw_on",
    "fee_changed", "min_changed", "rail_delisted", "rail_relisted" }

  // --- Slugs ---

  predicate IsSlug(s: string) {
    s != "" && Slug(s) == s
  }

  function Compact(s: string): string {
    Filter(s, c => c != ' ' && c != '_' && c != '-')
  }

  /** The slug of an exchange, with the spellings of Gate.io folded into one. */
  function ExchangeSlug(raw: string): string {
    var slug := Slug(raw);
    if Compact(slug) in {"gate.io", "gateio"} then "gate" else slug
  }

  lemma ExchangeSlugIsSlug(raw: string)
    ensures ExchangeSlug(raw) == "" || IsSlug(ExchangeSlug(raw))
    ensures ExchangeSlug(raw) == "" <==> Slug(raw) == ""
    ensures ExchangeSlug(ExchangeSlug(raw)) == ExchangeSlug(raw)
  {
    SlugIsIdempotent(raw);
    GateIsASlug();
    if Slug(raw) == "" {
      assert Compact("") == "";
    }
  }

  lemma GateIsASlug()
    ensures Slug("gate") == "gate" && Compact("gate") == "gate"
  {
    var g := "gate";
    assert Trim(g) == g;
    assert ToLower(g) == g;
    FilterAll(g, c => c != ' ' && c != '_' && c != '-');
  }

  function NameOf(kind: EventType): string {
    match kind
    case DepositOff => "deposit_off"
    case DepositOn => "deposit_on"
    case WithdrawOff => "withdraw_off"
    case WithdrawOn => "withdraw_on"
    case FeeChanged => "fee_changed"
    case MinChanged => "min_changed"
    case RailDelisted => "rail_delisted"
    case RailRelisted => "rail_relisted"
  }

  /** The types a filter may name are those that the diff engine records. */
  lemma EventTypesAreTheKinds()
    ensures forall kind :: NameOf(kind) in EVENT_TYPES
    ensures forall name <- EVENT_TYPES :: exists kind :: NameOf(kind) == name
    ensures forall name <- EVENT_TYPES :: IsClean(name) && name != ""
  {
    assert NameOf(DepositOff) == "deposit_off" && NameOf(DepositOn) == "deposit_on";
    assert NameOf(WithdrawOff) == "withdraw_off" && NameOf(WithdrawOn) == "withdraw_on";
    assert NameOf(FeeChanged) == "fee_changed" && NameOf(MinChanged) == "min_changed";
    assert NameOf(RailDelisted) == "rail_delisted" && NameOf(RailRelisted) == "rail_relisted";
  }

  // --- Normalization ---

  function Mapped(values: seq<string>, f: string -> string): (r: seq<string>)
    ensures |r| == |values| && forall i :: 0 <= i < |r| ==> r[i] == f(values[i])
  {
    seq(|values|, i requires 0 <= i < |values| => f(values[i]))
  }

  /** Each value once, where it first occurs. */
  function Uniques(values: seq<string>): seq<string> {
    if values == [] then []
    else
      var r, last := Uniques(values[..|values| - 1]), values[|values| - 1];
      if last in r then r else r + [last]
  }

  lemma {:induction false} UniquesAreTheValues(values: seq<string>)
    ensures Distinct(Uniques(values))
    ensures forall v :: v in Uniques(values) <==> v in values
  {
    if values != [] {
      var front, last := values[..|values| - 1], values[|values| - 1];
      UniquesAreTheValues(front);
      assert values == front + [last];
    }
  }

  lemma {:induction false} UniquesOfDistinct(values: seq<string>)
    requires Distinct(values)
    ensures Uniques(values) == values
  {
    if values != [] {
      UniquesOfDistinct(values[..|values| - 1]);
    }
  }

  lemma UniquesOneMore(values: seq<string>, f: string -> string, value: string)
    ensures Mapped(values + [value], f) == Mapped(values, f) + [f(value)]
    ensures var u := Uniques(Mapped(values, f));
            Uniques(Mapped(values + [value], f)) == if f(value) in u then u else u + [f(value)]
  {
    var mapped := Mapped(values, f) + [f(value)];
    assert Mapped(values + [value], f) == mapped;
    assert mapped[..|values|] == Mapped(values, f);
  }

  function Slugs(values: seq<string>): seq<string> {
    Uniques(Mapped(values, Slug))
  }

  /** Every value has a slug. */
  predicate AllSlugs(values: seq<string>) {
    "" !in Mapped(values, Slug)
  }

  /** A list stands for its slugs, each once; a value without a slug is an error. */
  function SlugList(values: Allowed, field: Field): Result<Allowed, FilterError> {
    if values.None? then Ok(None)
    else if !AllSlugs(values.value) then Err(EmptyValue(field))
    else Ok(Some(Slugs(values.value)))
  }

  function ExchangeList(values: Allowed): Result<Allowed, FilterError> {
    var slugs := SlugList(values, ExchangeField);
    if slugs.Err? || slugs.value.None? then slugs
    else Ok(Some(Uniques(Mapped(slugs.value.value, ExchangeSlug))))
  }

  function FirstUnsupported(values: seq<string>): (r: Option<string>)
    ensures r.None? <==> forall v <- values :: v in EVENT_TYPES
  {
    if values == [] then None
    else if values[0] !in EVENT_TYPES then Some(values[0])
    else FirstUnsupported(values[1..])
  }

  function EventTypeList(values: Allowed): Result<Allowed, FilterError> {
    var slugs := SlugList(values, EventTypeField);
    if slugs.Err? || slugs.value.None? then slugs
    else if FirstUnsupported(slugs.value.value).Some? then
      Err(UnsupportedEventType(FirstUnsupported(slugs.value.value).value))
    else slugs
  }

  function Normalized(f: Filters): Result<Filters, FilterError> {
    var exchange := ExchangeList(f.exchange);
    var coin := SlugList(f.coin, CoinField);
    var chain := SlugList(f.chain, ChainField);
    var eventType := EventTypeList(f.eventType);
    if exchange.Err? then Err(exchange.error)
    else if coin.Err? then Err(coin.error)
    else if chain.Err? then Err(chain.error)
    else if eventType.Err? then Err(eventType.error)
    else Ok(Filters(exchange.value, coin.value, chain.value, eventType.value))
  }

  lemma SlugsAt(values: seq<string>, i: nat)
    requires i < |values|
    ensures var u, slug := Slugs(values[..i]), Slug(values[i]);
            && Slugs(values[..i + 1]) == (if slug in u then u else u + [slug])
            && (AllSlugs(values[..i + 1]) <==> AllSlugs(values[..i]) && slug != "")
            && (slug == "" ==> !AllSlugs(values))
  {
    assert values[..i + 1] == values[..i] + [values[i]];
    UniquesOneMore(values[..i], Slug, values[i]);
    assert Mapped(values, Slug)[i] == Slug(values[i]);
  }

  method NormalizeSlugList(values: Allowed, field: Field) returns (r: Result<Allowed, FilterError>)
    ensures r == SlugList(values, field)
  {
    if values.None? {
      return Ok(None);
    }
    var given := values.value;
    var out: seq<string> := [];
    var seen: set<string> := {};
    for i := 0 to |given|
      invariant AllSlugs(given[..i]) && out == Slugs(given[..i])
      invariant forall v :: v in seen <==> v in out
    {
      var slug := Slug(given[i]);
      SlugsAt(given, i);
      if slug == "" {
        return Err(EmptyValue(field));
      }
      if slug !in seen {
        seen := seen + {slug};
        out := out + [slug];
      }
    }
    assert given[..|given|] == given;
    r := Ok(Some(out));
  }

  method NormalizeSlugs(values: seq<string>) returns (out: seq<string>)
    ensures out == ExchangeSlugs(values)
  {
    out := [];
    var seen: set<string> := {};
    for i := 0 to |values|
      invariant out == ExchangeSlugs(values[..i])
      invariant forall v :: v in seen <==> v in out
    {
      ExchangeSlugsAt(values, i);
      var slug := ExchangeSlug(values[i]);
      if slug != "" && slug !in seen {
        seen := seen + {slug};
        out := out + [slug];
      }
    }
    assert values[..|values|] == values;
  }

  lemma ExchangeSlugsAt(values: seq<string>, i: nat)
    requires i < |values|
    ensures var u, slug := ExchangeSlugs(values[..i]), ExchangeSlug(values[i]);
            ExchangeSlugs(values[..i + 1]) == if slug == "" || slug in u then u else u + [slug]
  {
    assert values[..i + 1] == values[..i] + [values[i]];
    ExchangeSlugsOneMore(values[..i], values[i]);
  }

  function ExchangeSlugs(values: seq<string>): seq<string> {
    Uniques(Filter(Mapped(values, ExchangeSlug), s => s != ""))
  }

  lemma ExchangeSlugsOneMore(values: seq<string>, value: string)
    ensures var u, slug := ExchangeSlugs(values), ExchangeSlug(value);
            ExchangeSlugs(values + [value]) == if slug == "" || slug in u then u else u + [slug]
  {
    var keep := s => s != "";
    UniquesOneMore(values, ExchangeSlug, value);
    FilterConcat(Mapped(values, ExchangeSlug), [ExchangeSlug(value)], keep);
    var before := Filter(Mapped(values, ExchangeSlug), keep);
    assert (before + [ExchangeSlug(value)])[..|before|] == before;
    assert before + [] == before;
  }

  method NormalizeExchangeList(values: Allowed) returns (r: Result<Allowed, FilterError>)
    ensures r == ExchangeList(values)
  {
    r := NormalizeSlugList(values, ExchangeField);
    if r.Err? || r.value.None? {
      return;
    }
    var slugs := r.value.value;
    UniquesAreTheValues(Mapped(values.value, Slug));
    SlugsAreNormal(values.value);
    forall s | s in Mapped(slugs, ExchangeSlug) ensures s != "" {
      var i :| 0 <= i < |slugs| && Mapped(slugs, ExchangeSlug)[i] == s;
      ExchangeSlugIsSlug(slugs[i]);
      assert slugs[i] in slugs;
    }
    FilterAll(Mapped(slugs, ExchangeSlug), s => s != "");
    var out := NormalizeSlugs(slugs);
    r := Ok(Some(out));
  }

  method NormalizeEventTypes(values: Allowed) returns (r: Result<Allowed, FilterError>)
    ensures r == EventTypeList(values)
  {
    r := NormalizeSlugList(values, EventTypeField);
    if r.Err? || r.value.None? {
      return;
    }
    var slugs := r.value.value;
    for i := 0 to |slugs|
      invariant FirstUnsupported(slugs) == FirstUnsupported(slugs[i..])
    {
      if slugs[i] !in EVENT_TYPES {
        return Err(UnsupportedEventType(slugs[i]));
      }
    }
  }

  method NormalizeFilters(f: Filters) returns (r: Result<Filters, FilterError>)
    ensures r == Normalized(f)
  {
    var exchange := NormalizeExchangeList(f.exchange);
    if exchange.Err? {
      return Err(exchange.error);
    }
    var coin := NormalizeSlugList(f.coin, CoinField);
    if coin.Err? {
      return Err(coin.error);
    }
    var chain := NormalizeSlugList(f.chain, ChainField);
    if chain.Err? {
      return Err(chain.error);
    }
    var eventType := NormalizeEventTypes(f.eventType);
    if eventType.Err? {
      return Err(eventType.error);
    }
    r := Ok(Filters(exchange.value, coin.value, chain.value, eventType.value));
  }

  // --- Normal forms ---

  predicate NormalList(values: Allowed) {
    values.Some? ==> Distinct(values.value) && forall v <- values.value :: IsSlug(v)
  }

  predicate Normal(f: Filters) {
    && NormalList(f.exchange) && NormalList(f.coin) && NormalList(f.chain) && NormalList(f.eventType)
    && (f.exchange.Some? ==> forall v <- f.exchange.value :: ExchangeSlug(v) == v)
    && (f.eventType.Some? ==> forall v <- f.eventType.value :: v in EVENT_TYPES)
  }

  lemma SlugsAreNormal(values: seq<string>)
    ensures forall v <- Uniques(Mapped(values, Slug)) :: Slug(v) == v
  {
    var slugs := Mapped(values, Slug);
    UniquesAreTheValues(slugs);
    forall v | v in Uniques(slugs) ensures Slug(v) == v {
      var i :| 0 <= i < |slugs| && slugs[i] == v;
      SlugIsIdempotent(values[i]);
    }
  }

  lemma SlugListIsNormal(values: Allowed, field: Field)
    ensures SlugList(values, field).Ok? ==> NormalList(SlugList(values, field).value)
  {
    if values.Some? {
      SlugsAreNormal(values.value);
      UniquesAreTheValues(Mapped(values.value, Slug));
    }
  }

  lemma SlugListKeepsNormal(values: Allowed, field: Field)
    requires NormalList(values)
    ensures SlugList(values, field) == Ok(values)
  {
    if values.Some? {
      forall i | 0 <= i < |values.value| ensures Slug(values.value[i]) == values.value[i] {
        assert values.value[i] in values.value;
      }
      assert Mapped(values.value, Slug) == values.value;
      UniquesOfDistinct(values.value);
    }
  }

  lemma ExchangeListIsNormal(values: Allowed)
    ensures ExchangeList(values).Ok? ==>
              var r := ExchangeList(values).value;
              NormalList(r) && (r.Some? ==> forall v <- r.value :: ExchangeSlug(v) == v)
  {
    SlugListIsNormal(values, ExchangeField);
    if values.Some? && ExchangeList(values).Ok? {
      var slugs := SlugList(values, ExchangeField).value.value;
      var exchanges := Mapped(slugs, ExchangeSlug);
      UniquesAreTheValues(exchanges);
      forall v | v in Uniques(exchanges) ensures IsSlug(v) && ExchangeSlug(v) == v {
        var i :| 0 <= i < |exchanges| && exchanges[i] == v;
        ExchangeSlugIsSlug(slugs[i]);
        assert slugs[i] in slugs;
      }
    }
  }

  /** Normalizing gives a normal form, and the normal forms are exactly what it leaves alone: so doing it
      again, as every layer of the socket does, changes nothing. */
  lemma NormalFormsAreFixed(f: Filters)
    ensures Normalized(f).Ok? ==> Normal(Normalized(f).value)
    ensures Normal(f) <==> Normalized(f) == Ok(f)
  {
    if Normalized(f).Ok? {
      ExchangeListIsNormal(f.exchange);
      SlugListIsNormal(f.coin, CoinField);
      SlugListIsNormal(f.chain, ChainField);
      SlugListIsNormal(f.eventType, EventTypeField);
    }
    if Normal(f) {
      SlugListKeepsNormal(f.exchange, ExchangeField);
      SlugListKeepsNormal(f.coin, CoinField);
      SlugListKeepsNormal(f.chain, ChainField);
      SlugListKeepsNormal(f.eventType, EventTypeField);
      if f.exchange.Some? {
        assert Mapped(f.exchange.value, ExchangeSlug) == f.exchange.value;
        UniquesOfDistinct(f.exchange.value);
      }
    }
  }

  // --- What is accepted, and what becomes of it ---

  ghost predicate HasBlank(values: Allowed) {
    values.Some? && exists v <- values.value :: Between(v, "")
  }

  ghost predicate Supported(v: string) {
    exists kind :: SameWord(v, NameOf(kind))
  }

  ghost predicate AllSupported(values: Allowed) {
    values.Some? ==> forall v <- values.value :: Supported(v)
  }

  lemma BlankIsRefused(values: Allowed, field: Field)
    ensures SlugList(values, field) == Err(EmptyValue(field)) <==> HasBlank(values)
    ensures SlugList(values, field).Ok? <==> !HasBlank(values)
  {
    if values.Some? {
      forall v | v in values.value ensures Slug(v) == "" <==> Between(v, "") {
        BlankMeans(v);
      }
      if v :| v in values.value && Slug(v) == "" {
        var i :| 0 <= i < |values.value| && values.value[i] == v;
        assert Mapped(values.value, Slug)[i] == "";
      }
      if "" in Mapped(values.value, Slug) {
        var i :| 0 <= i < |values.value| && Mapped(values.value, Slug)[i] == "";
        assert values.value[i] in values.value;
      }
    }
  }

  lemma SupportedMeans(v: string)
    ensures Slug(v) in EVENT_TYPES <==> Supported(v)
  {
    EventTypesAreTheKinds();
    forall kind ensures Slug(v) == NameOf(kind) <==> SameWord(v, NameOf(kind)) {
      SlugsAreClean(NameOf(kind));
      SlugsMeanWords(v, NameOf(kind));
    }
  }

  lemma {:induction false} FirstUnsupportedOneMore(values: seq<string>, v: string)
    ensures FirstUnsupported(values + [v]) ==
              if FirstUnsupported(values).Some? then FirstUnsupported(values)
              else if v in EVENT_TYPES then None else Some(v)
  {
    if values != [] {
      assert (values + [v])[1..] == values[1..] + [v];
      FirstUnsupportedOneMore(values[1..], v);
    }
  }

  lemma {:induction false} FirstUnsupportedOfUniques(values: seq<string>)
    ensures FirstUnsupported(Uniques(values)) == FirstUnsupported(values)
  {
    if values != [] {
      var front, last := values[..|values| - 1], values[|values| - 1];
      assert values == front + [last];
      FirstUnsupportedOfUniques(front);
      FirstUnsupportedOneMore(front, last);
      FirstUnsupportedOneMore(Uniques(front), last);
    }
  }

  lemma {:induction false} FirstUnsupportedIsFirst(values: seq<string>) returns (i: nat)
    requires FirstUnsupported(values).Some?
    ensures i < |values| && values[i] == FirstUnsupported(values).value && values[i] !in EVENT_TYPES
    ensures forall j :: 0 <= j < i ==> values[j] in EVENT_TYPES
  {
    if values[0] !in EVENT_TYPES {
      i := 0;
    } else {
      var k := FirstUnsupportedIsFirst(values[1..]);
      i := k + 1;
      assert forall j | 0 < j < i :: values[j] == values[1..][j - 1];
    }
  }

  /** The `i`th event type is the first that is not supported, and `v` is its word. */
  ghost predicate FirstOdd(values: Allowed, i: int, v: string) {
    && values.Some? && 0 <= i < |values.value| && !Supported(values.value[i])
    && SameWord(values.value[i], v) && IsClean(v)
    && forall j :: 0 <= j < i ==> Supported(values.value[j])
  }

  lemma OddIsFound(values: seq<string>)
    ensures match FirstUnsupported(Mapped(values, Slug))
            case None => AllSupported(Some(values))
            case Some(v) => exists i :: FirstOdd(Some(values), i, v)
  {
    var slugs := Mapped(values, Slug);
    forall i | 0 <= i < |slugs| ensures slugs[i] in EVENT_TYPES <==> Supported(values[i]) {
      SupportedMeans(values[i]);
    }
    if FirstUnsupported(slugs).Some? {
      var i := FirstUnsupportedIsFirst(slugs);
      SlugsAreClean(values[i]);
      SlugIsIdempotent(values[i]);
      SlugsMeanWords(values[i], slugs[i]);
      assert FirstOdd(Some(values), i, slugs[i]);
    } else {
      forall v | v in values ensures Supported(v) {
        var i :| 0 <= i < |slugs| && values[i] == v;
        assert slugs[i] in slugs;
      }
    }
  }

  lemma EventTypesAreAccepted(values: Allowed)
    requires !HasBlank(values)
    ensures match EventTypeList(values)
            case Ok(_) => AllSupported(values)
            case Err(e) => e.UnsupportedEventType? && exists i :: FirstOdd(values, i, e.value)
  {
    BlankIsRefused(values, EventTypeField);
    if values.Some? {
      FirstUnsupportedOfUniques(Mapped(values.value, Slug));
      OddIsFound(values.value);
    }
  }

  /** Filters are refused exactly when a value is blank or an event type is not one that is recorded. The first
      field with a blank value is named, in the order exchange, coin, chain, event type, or else the first
      event type that is not supported. */
  lemma RefusalIsExact(f: Filters)
    ensures match Normalized(f)
            case Ok(_) =>
              && !HasBlank(f.exchange) && !HasBlank(f.coin) && !HasBlank(f.chain) && !HasBlank(f.eventType)
              && AllSupported(f.eventType)
            case Err(UnsupportedEventType(v)) =>
              && !HasBlank(f.exchange) && !HasBlank(f.coin) && !HasBlank(f.chain) && !HasBlank(f.eventType)
              && exists i :: FirstOdd(f.eventType, i, v)
            case Err(EmptyValue(field)) =>
              match field
              case ExchangeField => HasBlank(f.exchange)
              case CoinField => !HasBlank(f.exchange) && HasBlank(f.coin)
              case ChainField => !HasBlank(f.exchange) && !HasBlank(f.coin) && HasBlank(f.chain)
              case EventTypeField =>
                !HasBlank(f.exchange) && !HasBlank(f.coin) && !HasBlank(f.chain) && HasBlank(f.eventType)
  {
    BlankIsRefused(f.exchange, ExchangeField);
    BlankIsRefused(f.coin, CoinField);
    BlankIsRefused(f.chain, ChainField);
    BlankIsRefused(f.eventType, EventTypeField);
    if !HasBlank(f.eventType) {
      EventTypesAreAccepted(f.eventType);
    }
  }

  /** The list `out` holds the words of `values`, each once and clean, and no others. */
  ghost predicate HoldsTheWords(values: seq<string>, out: seq<string>) {
    && Distinct(out) && (forall w <- out :: IsClean(w))
    && (forall w <- out :: exists v <- values :: SameWord(v, w))
    && (forall v <- values :: exists w <- out :: SameWord(v, w))
  }

  /** The word `a` appears in the list before the word `b` does. */
  ghost predicate AppearsFirst(values: seq<string>, a: string, b: string) {
    exists i :: 0 <= i < |values| && SameWord(values[i], a) && forall j :: 0 <= j <= i ==> !SameWord(values[j], b)
  }

  /** Of any two words of `out`, the one that comes first appears first in `values`. */
  ghost predicate InOrderOfAppearance(values: seq<string>, out: seq<string>) {
    forall p, q :: 0 <= p < q < |out| ==> AppearsFirst(values, out[p], out[q])
  }

  lemma SlugsHoldTheWords(values: seq<string>)
    ensures HoldsTheWords(values, Slugs(values))
  {
    var out := Slugs(values);
    UniquesAreTheValues(Mapped(values, Slug));
    forall v | v in values ensures Slug(v) in out && IsClean(Slug(v)) && SameWord(v, Slug(v)) {
      UniquesMean(values, Slug, Slug(v));
      SlugsAreClean(v);
      SlugIsIdempotent(v);
      SlugsMeanWords(v, Slug(v));
    }
    forall w | w in out ensures exists v <- values :: Slug(v) == w {
      UniquesMean(values, Slug, w);
    }
  }

  lemma AppearsFirstAt(values: seq<string>, a: string, b: string, i: nat)
    requires i < |values| && Slug(values[i]) == a && Slug(b) == b
    requires forall j :: 0 <= j <= i ==> Mapped(values, Slug)[j] != b
    ensures AppearsFirst(values, a, b)
  {
    SlugIsIdempotent(values[i]);
    SlugsMeanWords(values[i], a);
    forall j | 0 <= j <= i ensures !SameWord(values[j], b) {
      SlugsMeanWords(values[j], b);
      assert Mapped(values, Slug)[j] != b;
    }
  }

  lemma {:induction false} UniquesKeepOrder(values: seq<string>, p: nat, q: nat)
    requires p < q < |Uniques(values)|
    ensures exists i :: 0 <= i < |values| && values[i] == Uniques(values)[p]
              && forall j :: 0 <= j <= i ==> values[j] != Uniques(values)[q]
  {
    var front := values[..|values| - 1];
    UniquesAreTheValues(front);
    var u := Uniques(front);
    if q < |u| {
      UniquesKeepOrder(front, p, q);
      var i :| 0 <= i < |front| && front[i] == u[p] && forall j :: 0 <= j <= i ==> front[j] != u[q];
      assert values[i] == u[p];
      assert forall j | 0 <= j <= i :: values[j] == front[j];
    } else {
      assert u[p] in front;
      var i :| 0 <= i < |front| && front[i] == u[p];
      assert values[i] == u[p];
      forall j | 0 <= j <= i ensures values[j] != Uniques(values)[q] {
        assert values[j] == front[j] && front[j] in front;
      }
    }
  }

  lemma SlugsKeepOrder(values: seq<string>)
    ensures InOrderOfAppearance(values, Slugs(values))
  {
    var slugs, out := Mapped(values, Slug), Slugs(values);
    forall p, q | 0 <= p < q < |out| ensures AppearsFirst(values, out[p], out[q]) {
      UniquesKeepOrder(slugs, p, q);
      var i :| 0 <= i < |slugs| && slugs[i] == out[p] && forall j :: 0 <= j <= i ==> slugs[j] != out[q];
      SlugsAreNormal(values);
      AppearsFirstAt(values, out[p], out[q], i);
    }
  }

  /** A normalized list holds each word of the client's list once, clean, in the order of first appearance. */
  lemma NormalizedListHoldsTheWords(values: seq<string>, field: Field)
    ensures match SlugList(Some(values), field)
            case Ok(out) => out.Some? && HoldsTheWords(values, out.value) && InOrderOfAppearance(values, out.value)
            case Err(_) => HasBlank(Some(values))
  {
    BlankIsRefused(Some(values), field);
    SlugsHoldTheWords(values);
    SlugsKeepOrder(values);
  }

  // --- Matching ---

  predicate MatchField(allowed: Allowed, actual: string) {
    allowed.None? || Slug(actual) in allowed.value
  }

  predicate Match(f: Filters, e: LiveEvent) {
    && MatchField(f.exchange, e.exchange)
    && MatchField(f.coin, e.coin)
    && MatchField(f.chain, e.chain)
    && MatchField(f.eventType, e.eventType)
  }

  predicate MatchNothing(f: Filters) {
    f.exchange == Some([]) || f.coin == Some([]) || f.chain == Some([]) || f.eventType == Some([])
  }

  /** Up to the slugs that `slug` gives, the value is one of the list as the client wrote it. */
  predicate Asked(values: Allowed, actual: string, slug: string -> string) {
    values.None? || exists v <- values.value :: slug(v) == Slug(actual)
  }

  /** What one filter lets through, told on the characters: the client wrote the same word. */
  ghost predicate WordAsked(values: Allowed, actual: string) {
    values.None? || exists v <- values.value :: SameWord(v, actual)
  }

  /** Without spaces, underscores and dashes, and up to case, the client wrote gate.io or gateio. */
  ghost predicate SpellsGate(v: string) {
    exists x :: Between(v, x)
      && var letters := Filter(x, (c: char) => c !in {' ', '_', '-'});
         EqualUpToCase(letters, "gate.io") || EqualUpToCase(letters, "gateio")
  }

  /** The same for exchanges, whose every spelling of Gate.io stands for gate. */
  ghost predicate VenueAsked(values: Allowed, actual: string) {
    values.None? || exists v <- values.value :: SameWord(if SpellsGate(v) then "gate" else v, actual)
  }

  /** Normalizing keeps the meaning: an event matches when in each field the client filters by it has, up to
      case, outer spaces and the spelling of Gate.io, one of the words the client wrote. */
  lemma MatchMeansAsked(f: Filters, e: LiveEvent)
    requires Normalized(f).Ok?
    ensures Match(Normalized(f).value, e) <==>
            && VenueAsked(f.exchange, e.exchange) && WordAsked(f.coin, e.coin)
            && WordAsked(f.chain, e.chain) && WordAsked(f.eventType, e.eventType)
  {
    ExchangeListMeans(f.exchange, e.exchange);
    SlugListMeans(f.coin, CoinField, e.coin);
    SlugListMeans(f.chain, ChainField, e.chain);
    SlugListMeans(f.eventType, EventTypeField, e.eventType);
    AskedMeansWords(f.coin, e.coin);
    AskedMeansWords(f.chain, e.chain);
    AskedMeansWords(f.eventType, e.eventType);
    AskedMeansVenues(f.exchange, e.exchange);
  }

  lemma AskedMeansWords(values: Allowed, actual: string)
    ensures Asked(values, actual, Slug) <==> WordAsked(values, actual)
  {
    if values.Some? {
      forall v | v in values.value ensures Slug(v) == Slug(actual) <==> SameWord(v, actual) {
        SlugsMeanWords(v, actual);
      }
    }
  }

  lemma AskedMeansVenues(values: Allowed, actual: string)
    ensures Asked(values, actual, ExchangeSlug) <==> VenueAsked(values, actual)
  {
    if values.Some? {
      forall v | v in values.value
        ensures ExchangeSlug(v) == Slug(actual) <==> SameWord(if SpellsGate(v) then "gate" else v, actual)
      {
        ExchangeSlugMeans(v, actual);
      }
    }
  }

  lemma ExchangeSlugMeans(v: string, actual: string)
    ensures ExchangeSlug(v) == Slug(actual) <==> SameWord(if SpellsGate(v) then "gate" else v, actual)
  {
    GateSpellings(v);
    GateIsASlug();
    SlugsMeanWords(if SpellsGate(v) then "gate" else v, actual);
  }

  lemma {:induction false} CompactLowers(s: string)
    ensures Compact(ToLower(s)) == ToLower(Filter(s, (c: char) => c !in {' ', '_', '-'}))
  {
    if s != [] {
      var front, last := s[..|s| - 1], s[|s| - 1];
      CompactLowers(front);
      assert ToLower(s)[..|s| - 1] == ToLower(front);
      LowerCharMeans(last, last);
    }
  }

  lemma GateSpellings(v: string)
    ensures Compact(Slug(v)) in {"gate.io", "gateio"} <==> SpellsGate(v)
  {
    var letters := Filter(Trim(v), (c: char) => c !in {' ', '_', '-'});
    TrimIsBetween(v);
    CompactLowers(Trim(v));
    LowerAlready("gate.io");
    LowerAlready("gateio");
    ToLowerMeans(letters, "gate.io");
    ToLowerMeans(letters, "gateio");
    if SpellsGate(v) {
      var x :| Between(v, x) &&
        var l := Filter(x, (c: char) => c !in {' ', '_', '-'});
        EqualUpToCase(l, "gate.io") || EqualUpToCase(l, "gateio");
      BetweenIsUnique(v, x, Trim(v));
    }
  }

  lemma LowerAlready(s: string)
    requires forall c <- s :: !('A' <= c <= 'Z')
    ensures ToLower(s) == s
  {
    assert forall i | 0 <= i < |s| :: s[i] in s;
  }

  lemma SlugListMeans(values: Allowed, field: Field, actual: string)
    requires SlugList(values, field).Ok?
    ensures MatchField(SlugList(values, field).value, actual) <==> Asked(values, actual, Slug)
  {
    if values.Some? {
      UniquesMean(values.value, Slug, Slug(actual));
    }
  }

  lemma ExchangeListMeans(values: Allowed, actual: string)
    ensures ExchangeList(values).Ok? ==>
              (MatchField(ExchangeList(values).value, actual) <==> Asked(values, actual, ExchangeSlug))
  {
    if values.Some? {
      ExchangeSlugsMean(values.value, Slug(actual));
    }
  }

  lemma UniquesMean(values: seq<string>, f: string -> string, slug: string)
    ensures slug in Uniques(Mapped(values, f)) <==> exists v <- values :: f(v) == slug
  {
    var mapped := Mapped(values, f);
    UniquesAreTheValues(mapped);
    if slug in mapped {
      var i :| 0 <= i < |mapped| && mapped[i] == slug;
      assert values[i] in values;
    }
    if v :| v in values && f(v) == slug {
      var i :| 0 <= i < |values| && values[i] == v;
      assert mapped[i] == slug;
    }
  }

  lemma ExchangeSlugsMean(values: seq<string>, slug: string)
    ensures slug in Uniques(Mapped(Uniques(Mapped(values, Slug)), ExchangeSlug)) <==>
              exists v <- values :: ExchangeSlug(v) == slug
  {
    forall v | v in values ensures ExchangeSlug(Slug(v)) == ExchangeSlug(v) {
      SlugIsIdempotent(v);
    }
    UniquesOfUniquesMean(values, Slug, ExchangeSlug, slug);
  }

  lemma UniquesOfUniquesMean(values: seq<string>, f: string -> string, g: string -> string, slug: string)
    requires forall v <- values :: g(f(v)) == g(v)
    ensures slug in Uniques(Mapped(Uniques(Mapped(values, f)), g)) <==> exists v <- values :: g(v) == slug
  {
    var once := Uniques(Mapped(values, f));
    UniquesMean(once, g, slug);
    if s :| s in once && g(s) == slug {
      UniquesMean(values, f, s);
    }
    if v :| v in values && g(v) == slug {
      UniquesMean(values, f, f(v));
    }
  }

  // --- The page filter ---

  predicate SelectField(allowed: Allowed, stored: string) {
    allowed.None? || stored in allowed.value
  }

  /** What the backfill query selects: the stored value itself must be listed. */
  predicate OnPage(f: Filters, e: LiveEvent) {
    && SelectField(f.exchange, e.exchange)
    && SelectField(f.coin, e.coin)
    && SelectField(f.chain, e.chain)
    && SelectField(f.eventType, e.eventType)
  }

  predicate CleanField(allowed: Allowed, stored: string) {
    allowed.Some? ==> IsClean(stored)
  }

  predicate CleanWhereFiltered(f: Filters, e: LiveEvent) {
    && CleanField(f.exchange, e.exchange) && CleanField(f.coin, e.coin)
    && CleanField(f.chain, e.chain) && CleanField(f.eventType, e.eventType)
  }

  /** A page never selects an event that would not match live, and it selects a matching event exactly
      when the stored values that are filtered by are lower case and trimmed. */
  lemma PageSelectsCleanMatches(f: Filters, e: LiveEvent)
    requires Normal(f)
    ensures OnPage(f, e) <==> Match(f, e) && CleanWhereFiltered(f, e)
  {
    FieldSelectsCleanMatches(f.exchange, e.exchange);
    FieldSelectsCleanMatches(f.coin, e.coin);
    FieldSelectsCleanMatches(f.chain, e.chain);
    FieldSelectsCleanMatches(f.eventType, e.eventType);
  }

  lemma FieldSelectsCleanMatches(allowed: Allowed, stored: string)
    requires NormalList(allowed)
    ensures SelectField(allowed, stored) <==> MatchField(allowed, stored) && CleanField(allowed, stored)
  {
    SlugsAreClean(stored);
  }

  /** A value that the field lets through, if there is one. */
  function AnyOf(allowed: Allowed): string {
    if allowed.Some? && allowed.value != [] then allowed.value[0] else ""
  }

  /** The shortcut is taken exactly when no event whatever could be selected. */
  lemma MatchNothingIsExact(f: Filters)
    ensures MatchNothing(f) <==> forall e :: !OnPage(f, e)
  {
    if !MatchNothing(f) {
      assert OnPage(f, LiveEvent(0, 0, AnyOf(f.exchange), AnyOf(f.coin), AnyOf(f.chain), AnyOf(f.eventType)));
    }
  }
}
