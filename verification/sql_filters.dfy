/** The WHERE clauses and positional arguments the screener and rankings
    endpoints build from their optional query parameters. Each active filter
    appends one clause naming placeholder `$i` and one argument, then bumps `i`. */
module SqlFilters {
  import opened Wrappers
  import Text
  import RankingWeights

  /** A positional query argument. */
  datatype SqlArg = TextArg(s: string) | RealArg(x: real) | BoolArg(b: bool)

  /** The filter conditions, in the order the endpoints test them. */
  datatype Condition = TickerOrNameLike | SectorEquals | RsiAtMost | TrendBullishEquals

  /** A condition bound to its placeholder number. */
  datatype Clause = Clause(cond: Condition, placeholder: nat)

  /** The optional query parameters: `q`, `sector`, `rsi_lte`, `bullish`. */
  datatype Filters = Filters(
    q: Option<string>,
    sector: Option<string>,
    rsiLte: Option<real>,
    bullish: Option<bool>)

  /** The order in which the screener tests its filters. */
  const ScreenerOrder: seq<Condition> := [TickerOrNameLike, SectorEquals, RsiAtMost, TrendBullishEquals]

  /** Position of a condition in `ScreenerOrder`. */
  function Rank(c: Condition): (k: nat)
    ensures k < |ScreenerOrder| && ScreenerOrder[k] == c
  {
    match c
    case TickerOrNameLike => 0
    case SectorEquals => 1
    case RsiAtMost => 2
    case TrendBullishEquals => 3
  }

  /** Python truthiness of an optional string: `None` and `""` are both false. */
  predicate Truthy(o: Option<string>) {
    o.Some? && o.value != ""
  }

  /** Whether a filter applies: the text filters when truthy (`if q:`), the
      others whenever present (`is not None`, so `0.0` and `False` count). */
  predicate Active(f: Filters, c: Condition) {
    match c
    case TickerOrNameLike => Truthy(f.q)
    case SectorEquals => Truthy(f.sector)
    case RsiAtMost => f.rsiLte.Some?
    case TrendBullishEquals => f.bullish.Some?
  }

  /** The argument a filter contributes; `q` is wrapped as `%q%`. */
  function ArgFor(f: Filters, c: Condition): SqlArg {
    match c
    case TickerOrNameLike => TextArg("%" + f.q.GetOr("") + "%")
    case SectorEquals => TextArg(f.sector.GetOr(""))
    case RsiAtMost => RealArg(f.rsiLte.GetOr(0.0))
    case TrendBullishEquals => BoolArg(f.bullish.GetOr(false))
  }

  /** The SQL text of a clause; the `q` clause uses its placeholder twice. */
  function RenderClause(c: Clause): string {
    var p := "$" + Text.NatToString(c.placeholder);
    match c.cond
    case TickerOrNameLike => "(ticker ILIKE " + p + " OR name ILIKE " + p + ")"
    case SectorEquals => "sector = " + p
    case RsiAtMost => "rsi14 <= " + p
    case TrendBullishEquals => "trend_bullish = " + p
  }

  /** `("WHERE " + " AND ".join(where)) if where else ""` */
  function WhereSql(clauses: seq<Clause>): (r: string)
    ensures r == "" <==> |clauses| == 0
    ensures |clauses| > 0 ==> |r| > 6 && r[..6] == "WHERE "
    ensures |clauses| == 1 ==> r == "WHERE " + RenderClause(clauses[0])
  {
    if |clauses| == 0 then ""
    else "WHERE " + Text.Join(seq(|clauses|, j requires 0 <= j < |clauses| => RenderClause(clauses[j])), " AND ")
  }

  /** The clauses are joined with " AND ": one more clause extends the WHERE
      text by " AND " and that clause's SQL. */
  lemma WhereSqlAppend(clauses: seq<Clause>, c: Clause)
    requires |clauses| > 0
    ensures WhereSql(clauses + [c]) == WhereSql(clauses) + " AND " + RenderClause(c)
  {
    var all := clauses + [c];
    var xs := seq(|clauses|, j requires 0 <= j < |clauses| => RenderClause(clauses[j]));
    var ys := seq(|all|, j requires 0 <= j < |all| => RenderClause(all[j]));
    assert ys == xs + [RenderClause(c)];
    Text.JoinAppend(xs, RenderClause(c), " AND ");
  }

  /** What the endpoint threads through its filters: the clauses so far
      (`where`), the argument list (`args`) and the next placeholder (`i`). */
  datatype Builder = Builder(clauses: seq<Clause>, args: seq<SqlArg>, next: nat)

  /** The builder invariant: `i` is one past the last argument, and the clauses
      own the last `|clauses|` placeholders, consecutively. */
  predicate Consecutive(b: Builder) {
    && b.next == |b.args| + 1
    && |b.clauses| <= |b.args|
    && forall j :: 0 <= j < |b.clauses| ==> b.clauses[j].placeholder == b.next - |b.clauses| + j
  }

  /** One `if <filter>: where.append(...); args.append(...); i += 1` step. */
  function AddFilter(b: Builder, f: Filters, c: Condition): (r: Builder)
    requires Consecutive(b)
    ensures Consecutive(r)
    ensures Active(f, c) ==> r.clauses == b.clauses + [Clause(c, b.next)]
                             && r.args == b.args + [ArgFor(f, c)]
    ensures !Active(f, c) ==> r == b
  {
    if Active(f, c) then Builder(b.clauses + [Clause(c, b.next)], b.args + [ArgFor(f, c)], b.next + 1)
    else b
  }

  /** The conditions of `order` that are active, in order. */
  function Selected(f: Filters, order: seq<Condition>): (r: seq<Condition>)
    ensures |r| <= |order|
  {
    if |order| == 0 then []
    else (if Active(f, order[0]) then [order[0]] else []) + Selected(f, order[1..])
  }

  /** Conditions numbered with consecutive placeholders from `start`. */
  function Numbered(conds: seq<Condition>, start: nat): (r: seq<Clause>)
    ensures |r| == |conds|
    ensures forall j :: 0 <= j < |r| ==> r[j] == Clause(conds[j], start + j)
  {
    seq(|conds|, j requires 0 <= j < |conds| => Clause(conds[j], start + j))
  }

  /** The arguments the selected conditions contribute, in order. */
  function ArgsFor(f: Filters, conds: seq<Condition>): (r: seq<SqlArg>)
    ensures |r| == |conds|
    ensures forall j :: 0 <= j < |r| ==> r[j] == ArgFor(f, conds[j])
  {
    seq(|conds|, j requires 0 <= j < |conds| => ArgFor(f, conds[j]))
  }

  lemma NumberedCons(c: Condition, rest: seq<Condition>, start: nat)
    ensures Numbered([c] + rest, start) == [Clause(c, start)] + Numbered(rest, start + 1)
  {
  }

  lemma ArgsForCons(f: Filters, c: Condition, rest: seq<Condition>)
    ensures ArgsFor(f, [c] + rest) == [ArgFor(f, c)] + ArgsFor(f, rest)
  {
  }

  /** The chain of filter steps over `order`: every active condition appends
      one clause, numbered consecutively from `b.next`, and one argument. */
  function ApplyFilters(b: Builder, f: Filters, order: seq<Condition>): (r: Builder)
    requires Consecutive(b)
    ensures Consecutive(r)
    ensures r.clauses == b.clauses + Numbered(Selected(f, order), b.next)
    ensures r.args == b.args + ArgsFor(f, Selected(f, order))
    decreases |order|
  {
    if |order| == 0 then b
    else
      var b' := AddFilter(b, f, order[0]);
      var r := ApplyFilters(b', f, order[1..]);
      var rest := Selected(f, order[1..]);
      if Active(f, order[0]) then
        assert Selected(f, order) == [order[0]] + rest;
        ActiveStep(b, f, order[0], rest, r);
        r
      else
        assert Selected(f, order) == rest;
        r
  }

  /** Prepending an active condition to the selection prepends its clause and
      argument, at the current placeholder. */
  lemma ActiveStep(b: Builder, f: Filters, c: Condition, rest: seq<Condition>, r: Builder)
    requires r.clauses == (b.clauses + [Clause(c, b.next)]) + Numbered(rest, b.next + 1)
    requires r.args == (b.args + [ArgFor(f, c)]) + ArgsFor(f, rest)
    ensures r.clauses == b.clauses + Numbered([c] + rest, b.next)
    ensures r.args == b.args + ArgsFor(f, [c] + rest)
  {
    NumberedCons(c, rest, b.next);
    ArgsForCons(f, c, rest);
  }

  /** The screener's WHERE clauses and arguments. */
  function ScreenerQuery(f: Filters): (r: Builder)
    ensures |r.clauses| == |r.args| == |Selected(f, ScreenerOrder)|
    ensures r.next == |r.args| + 1
    ensures forall j :: 0 <= j < |r.clauses| ==>
              r.clauses[j] == Clause(Selected(f, ScreenerOrder)[j], j + 1)
              && r.args[j] == ArgFor(f, r.clauses[j].cond)
  {
    var r := ApplyFilters(Builder([], [], 1), f, ScreenerOrder);
    assert r.clauses == Numbered(Selected(f, ScreenerOrder), 1);
    assert r.args == ArgsFor(f, Selected(f, ScreenerOrder));
    r
  }

  /** The number of filters that apply. */
  function ActiveCount(f: Filters): nat {
    (if Truthy(f.q) then 1 else 0) + (if Truthy(f.sector) then 1 else 0)
    + (if f.rsiLte.Some? then 1 else 0) + (if f.bullish.Some? then 1 else 0)
  }

  /** Conditions listed in strictly increasing `Rank`: the fixed order, no repeats. */
  predicate InOrder(cs: seq<Condition>) {
    forall i, j :: 0 <= i < j < |cs| ==> Rank(cs[i]) < Rank(cs[j])
  }

  /** Selection keeps exactly the active conditions and their relative order. */
  lemma {:induction false} SelectedMembers(f: Filters, order: seq<Condition>)
    requires InOrder(order)
    ensures InOrder(Selected(f, order))
    ensures forall c :: c in Selected(f, order) <==> c in order && Active(f, c)
  {
    if |order| > 0 {
      var rest := Selected(f, order[1..]);
      SelectedMembers(f, order[1..]);
      if Active(f, order[0]) {
        assert Selected(f, order) == [order[0]] + rest;
        forall j | 0 <= j < |rest|
          ensures Rank(order[0]) < Rank(rest[j])
        {
          assert rest[j] in order[1..];
        }
      } else {
        assert Selected(f, order) == rest;
      }
    }
  }

  /** The screener selects one condition per applicable filter. */
  lemma ScreenerSelectedCount(f: Filters)
    ensures |Selected(f, ScreenerOrder)| == ActiveCount(f)
  {
    var o := ScreenerOrder;
    assert o[1..] == [SectorEquals, RsiAtMost, TrendBullishEquals];
    assert o[1..][1..] == [RsiAtMost, TrendBullishEquals];
    assert o[1..][1..][1..] == [TrendBullishEquals];
    assert o[1..][1..][1..][1..] == [];
  }

  /** k applicable filters give k clauses and k arguments, with placeholders
      `$1..$k`. */
  lemma ScreenerNumbering(f: Filters)
    ensures var r := ScreenerQuery(f);
            && |r.clauses| == |r.args| == ActiveCount(f)
            && (forall j :: 0 <= j < |r.clauses| ==> r.clauses[j].placeholder == j + 1)
  {
    ScreenerSelectedCount(f);
  }

  /** The conditions of a clause list, in order. */
  function Conditions(clauses: seq<Clause>): (r: seq<Condition>)
    ensures |r| == |clauses|
    ensures forall j :: 0 <= j < |r| ==> r[j] == clauses[j].cond
  {
    seq(|clauses|, j requires 0 <= j < |clauses| => clauses[j].cond)
  }

  /** Exactly the applicable filters, each once, in the fixed order. */
  predicate ExactlyActive(f: Filters, conds: seq<Condition>) {
    && InOrder(conds)
    && forall c :: c in conds <==> Active(f, c)
  }

  /** Each clause belongs to an applicable filter, every applicable filter has
      one, and the clauses follow the fixed order q, sector, rsi_lte, bullish. */
  lemma ScreenerClauses(f: Filters)
    ensures ExactlyActive(f, Conditions(ScreenerQuery(f).clauses))
  {
    var r := ScreenerQuery(f);
    var sel := Selected(f, ScreenerOrder);
    assert Conditions(r.clauses) == sel;
    SelectedMembers(f, ScreenerOrder);
    forall c | Active(f, c)
      ensures c in sel
    {
      assert c == ScreenerOrder[Rank(c)];
    }
  }

  /** The q filter binds one argument, `%q%`, and names it for both ticker and
      name; since it is tested first it always takes `$1`. */
  lemma ScreenerTextSearch(f: Filters)
    requires Truthy(f.q)
    ensures var r := ScreenerQuery(f);
            && |r.clauses| > 0
            && r.clauses[0] == Clause(TickerOrNameLike, 1)
            && r.args[0] == TextArg("%" + f.q.value + "%")
            && RenderClause(r.clauses[0]) == "(ticker ILIKE $1 OR name ILIKE $1)"
  {
    assert Selected(f, ScreenerOrder)[0] == TickerOrNameLike;
  }

  /** With no applicable filter the WHERE text is empty; a missing or empty
      `q` or `sector` does not count as a filter. */
  lemma ScreenerNoFilters(q: Option<string>, sector: Option<string>)
    requires !Truthy(q) && !Truthy(sector)
    ensures var r := ScreenerQuery(Filters(q, sector, None, None));
            r.clauses == [] && r.args == [] && WhereSql(r.clauses) == ""
  {
    var f := Filters(q, sector, None, None);
    ScreenerSelectedCount(f);
  }

  /** `float(cfg.weights.get(key, default))` */
  function WeightOr(w: RankingWeights.Weights, k: nat): (x: real)
    requires k < |RankingWeights.WeightKeys|
    ensures RankingWeights.Lookup(w, RankingWeights.WeightKeys[k]).None? ==> x == RankingWeights.DefaultWeights[k]
    ensures RankingWeights.Lookup(w, RankingWeights.WeightKeys[k]).Some?
            ==> x == RankingWeights.Lookup(w, RankingWeights.WeightKeys[k]).value
  {
    RankingWeights.Lookup(w, RankingWeights.WeightKeys[k]).GetOr(RankingWeights.DefaultWeights[k])
  }

  /** The rankings query: `$1..$5` are the five weights, so the one optional
      filter, `sector`, starts at `$6`. */
  function RankingsQuery(w: RankingWeights.Weights, sector: Option<string>): (r: Builder)
    ensures Consecutive(r)
    ensures |r.args| == 5 + (if Truthy(sector) then 1 else 0)
    ensures forall k :: 0 <= k < 5 ==> r.args[k] == RealArg(WeightOr(w, k))
    ensures Truthy(sector) ==> r.clauses == [Clause(SectorEquals, 6)] && r.args[5] == TextArg(sector.value)
    ensures !Truthy(sector) ==> r.clauses == []
  {
    var weightArgs := seq(5, k requires 0 <= k < 5 => RealArg(WeightOr(w, k)));
    var f := Filters(None, sector, None, None);
    var r := ApplyFilters(Builder([], weightArgs, 6), f, [SectorEquals]);
    assert Selected(f, [SectorEquals]) == (if Truthy(sector) then [SectorEquals] else []);
    r
  }

  /** The rankings query reads a validated configuration's own weights, never
      the defaults. */
  lemma RankingsUseValidatedWeights(cfg: RankingWeights.RankingConfig, sector: Option<string>, k: nat)
    requires RankingWeights.ValidateConfig(cfg).Success?
    requires k < 5
    ensures RankingsQuery(cfg.weights, sector).args[k]
            == RealArg(RankingWeights.Lookup(cfg.weights, RankingWeights.WeightKeys[k]).value)
  {
    RankingWeights.ValidatedConfigHasEveryWeight(cfg);
  }

  /** With every filter set, all four clauses appear, numbered `$1..$4` in
      the order q, sector, rsi_lte, bullish. */
  lemma ScreenerAllFilters(f: Filters)
    requires Truthy(f.q) && Truthy(f.sector) && f.rsiLte.Some? && f.bullish.Some?
    ensures Conditions(ScreenerQuery(f).clauses) == ScreenerOrder
    ensures forall j :: 0 <= j < 4 ==> ScreenerQuery(f).clauses[j].placeholder == j + 1
  {
    SelectAll(f, ScreenerOrder);
  }

  /** When every condition applies, selection keeps them all. */
  lemma {:induction false} SelectAll(f: Filters, order: seq<Condition>)
    requires forall c :: Active(f, c)
    ensures Selected(f, order) == order
  {
    if |order| > 0 {
      SelectAll(f, order[1..]);
      assert order == [order[0]] + order[1..];
    }
  }
}
