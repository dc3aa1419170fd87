/** The universe refresh (`refresh_universe.py`): choosing the constituents
    table and its symbol column among the tables scraped from a page, cleaning
    the symbols, mapping them to Yahoo Finance tickers, and the membership rows
    stored for a snapshot. Fetching and parsing the page are not modelled: the
    tables arrive as input. */
module Universe {
  import opened Wrappers
  import Text
  import Seqs

  /** A column of a scraped table; its cells are already rendered by
      `astype(str)`, so a missing value reads "nan". */
  datatype Column = Column(name: string, cells: seq<string>)

  /** A scraped table: its columns in order. */
  datatype Table = Table(columns: seq<Column>)

  /** The errors the selection raises (`KeyError`s), with their debug context. */
  datatype LookupError =
    | MissingColumns(required: set<string>, sample: seq<seq<string>>)
    | NoSymbolColumn(columns: seq<string>)
    | NoTsxSymbolColumn(sample: seq<seq<string>>)

  function Names(t: Table): (r: seq<string>)
    ensures |r| == |t.columns|
    ensures forall i :: 0 <= i < |r| ==> r[i] == t.columns[i].name
  {
    seq(|t.columns|, i requires 0 <= i < |t.columns| => t.columns[i].name)
  }

  /** `[list(t.columns) for t in tables[:8]]` */
  function Sample(tables: seq<Table>): (r: seq<seq<string>>)
    ensures |r| == if |tables| < 8 then |tables| else 8
    ensures forall i :: 0 <= i < |r| ==> r[i] == Names(tables[i])
  {
    var n := if |tables| < 8 then |tables| else 8;
    seq(n, i requires 0 <= i < n => Names(tables[i]))
  }

  /** `t.columns = [str(c).strip() for c in t.columns]` */
  function StripColumnNames(t: Table): (r: Table)
    ensures |r.columns| == |t.columns|
    ensures forall i :: 0 <= i < |t.columns| ==>
              r.columns[i] == Column(Text.Strip(t.columns[i].name), t.columns[i].cells)
  {
    Table(seq(|t.columns|, i requires 0 <= i < |t.columns| =>
      Column(Text.Strip(t.columns[i].name), t.columns[i].cells)))
  }

  /** The tables as `_fetch_wiki_html_tables` hands them on: column names stripped. */
  function FetchedTables(raw: seq<Table>): (r: seq<Table>)
    ensures |r| == |raw|
    ensures forall i :: 0 <= i < |raw| ==> r[i] == StripColumnNames(raw[i])
  {
    seq(|raw|, i requires 0 <= i < |raw| => StripColumnNames(raw[i]))
  }

  /** `required_cols.issubset(set(t.columns))` */
  predicate HasColumns(t: Table, required: set<string>) {
    forall c :: c in required ==> c in Names(t)
  }

  /** A scraped column whose name is padded with whitespace still satisfies a
      requirement on its bare name, because names are stripped before selection. */
  lemma StrippedNameSelects(t: Table, i: nat, name: string)
    requires i < |t.columns| && Text.Strip(t.columns[i].name) == name
    ensures HasColumns(StripColumnNames(t), {name})
  {
    assert Names(StripColumnNames(t))[i] == name;
  }

  /** `_pick_table_by_columns`: the first table having every required column,
      or a `KeyError` naming the requirement and showing the first tables' columns. */
  function PickTableByColumns(tables: seq<Table>, required: set<string>): (r: Result<Table, LookupError>)
    ensures r.Failure? <==> forall i :: 0 <= i < |tables| ==> !HasColumns(tables[i], required)
    ensures r.Failure? ==> r.error == MissingColumns(required, Sample(tables))
    ensures r.Success? ==> HasColumns(r.value, required)
    ensures r.Success? ==> exists i :: 0 <= i < |tables| && tables[i] == r.value
                                     && forall j :: 0 <= j < i ==> !HasColumns(tables[j], required)
  {
    match Seqs.FirstWhere(tables, t => HasColumns(t, required))
    case None => Failure(MissingColumns(required, Sample(tables)))
    case Some(i) => Success(tables[i])
  }

  /** `df[name]` for a name the table has: its first column of that name. */
  function ColumnNamed(t: Table, name: string): (c: Column)
    requires name in Names(t)
    ensures c in t.columns && c.name == name
    ensures exists i :: 0 <= i < |t.columns| && t.columns[i] == c
                        && forall j :: 0 <= j < i ==> t.columns[j].name != name
  {
    var i :| 0 <= i < |Names(t)| && Names(t)[i] == name;
    assert t.columns[i].name == name;
    var k := Seqs.FirstWhere(t.columns, (col: Column) => col.name == name);
    t.columns[k.value]
  }

  /** The key a column is looked up under: `str(c).strip().lower()`. */
  function ColumnKey(name: string): string {
    Text.ToLower(Text.Strip(name))
  }

  /** The lookup keys of a table's columns, in column order. */
  function Keys(t: Table): (r: seq<string>)
    ensures |r| == |t.columns|
    ensures forall i :: 0 <= i < |r| ==> r[i] == ColumnKey(t.columns[i].name)
  {
    seq(|t.columns|, i requires 0 <= i < |t.columns| => ColumnKey(t.columns[i].name))
  }

  /** The symbol-column names tried, in priority order. */
  const SymbolCandidates: seq<string> :=
    ["symbol", "ticker", "s&p 500 symbol", "s&p/tsx 60 symbol", "tsx symbol", "sp500 symbol"]

  /** The first of `cands` present among `keys`, as the candidate's position
      and the position of the last key equal to it. */
  function FirstCandidate(keys: seq<string>, cands: seq<string>): (r: Option<(nat, nat)>)
    ensures r.None? <==> forall k :: 0 <= k < |cands| ==> cands[k] !in keys
    ensures r.Some? ==>
      var (k, i) := r.value;
      && k < |cands| && i < |keys|
      && keys[i] == cands[k]
      && (forall k' :: 0 <= k' < k ==> cands[k'] !in keys)
      && (forall j :: i < j < |keys| ==> keys[j] != cands[k])
  {
    if |cands| == 0 then None
    else
      match Seqs.LastIndexOf(keys, cands[0])
      case Some(i) => Some((0, i))
      case None =>
        match FirstCandidate(keys, cands[1..])
        case None => None
        case Some((k, i)) => Some((k + 1, i))
  }

  /** Some column's key is one of the symbol candidates. */
  predicate HasSymbolColumn(t: Table) {
    FirstCandidate(Keys(t), SymbolCandidates).Some?
  }

  /** `_extract_symbol_series`: the column whose stripped, lower-cased name is
      the first candidate present (the last such column if several share it). */
  function ExtractSymbolSeries(t: Table): (r: Result<Column, LookupError>)
    ensures r.Success? <==> HasSymbolColumn(t)
    ensures r.Failure? ==> r.error == NoSymbolColumn(Names(t))
    ensures r.Success? ==> r.value == t.columns[FirstCandidate(Keys(t), SymbolCandidates).value.1]
  {
    match FirstCandidate(Keys(t), SymbolCandidates)
    case None => Failure(NoSymbolColumn(Names(t)))
    case Some((_, i)) => Success(t.columns[i])
  }

  /** Extraction sees only the columns' keys: tables whose columns have the same
      stripped, lower-cased names ("Ticker" and " TICKER ") give the same
      column position, whatever the exact spelling. */
  lemma SymbolColumnCaseInsensitive(t: Table, u: Table)
    requires Keys(t) == Keys(u)
    ensures FirstCandidate(Keys(t), SymbolCandidates) == FirstCandidate(Keys(u), SymbolCandidates)
    ensures ExtractSymbolSeries(t).Success? == ExtractSymbolSeries(u).Success?
  {
  }

  /** A cleaned symbol is kept: not blank and not the text "nan" in any case. */
  predicate Kept(s: string) {
    s != "" && Text.ToLower(s) != "nan"
  }

  /** One cell of the symbol column: stripped, and dropped when blank or "nan". */
  function CleanCell(c: string): (r: Option<string>)
    ensures r.Some? <==> Kept(Text.Strip(c))
    ensures r.Some? ==> r.value == Text.Strip(c) && Text.IsStripped(r.value) && Kept(r.value)
  {
    var s := Text.Strip(c);
    if Kept(s) then Some(s) else None
  }

  /** `sym.astype(str).str.strip()` followed by dropping blanks and "nan". */
  function CleanSymbols(cells: seq<string>): (r: seq<string>)
    ensures |r| <= |cells|
    ensures forall k :: 0 <= k < |r| ==> Text.IsStripped(r[k]) && Kept(r[k])
    ensures forall k :: 0 <= k < |r| ==> exists i :: 0 <= i < |cells| && CleanCell(cells[i]) == Some(r[k])
  {
    Seqs.FilterMap(cells, CleanCell)
  }

  /** Cleaning works cell by cell, so it keeps the input order. */
  lemma CleanSymbolsAppend(a: seq<string>, b: seq<string>)
    ensures CleanSymbols(a + b) == CleanSymbols(a) + CleanSymbols(b)
  {
    Seqs.FilterMapAppend(a, b, CleanCell);
  }

  /** A cell survives cleaning exactly when its stripped text is kept. */
  lemma CleanSymbolsSingle(c: string)
    ensures CleanSymbols([c]) == if Kept(Text.Strip(c)) then [Text.Strip(c)] else []
  {
    assert [c][1..] == [];
  }

  /** Cleaning already cleaned symbols changes nothing. */
  lemma CleanSymbolsIdempotent(cells: seq<string>)
    ensures CleanSymbols(CleanSymbols(cells)) == CleanSymbols(cells)
  {
    var r := CleanSymbols(cells);
    forall k | 0 <= k < |r|
      ensures CleanCell(r[k]) == Some(r[k])
    {
      Text.StripStripped(r[k]);
    }
    Seqs.FilterMapIdentity(r, CleanCell);
  }

  /** `df.empty`: no columns or no rows. */
  predicate IsEmpty(t: Table) {
    |t.columns| == 0 || |t.columns[0].cells| == 0
  }

  /** `fetch_sp500_symbols` on the tables scraped from the S&P 500 page: the
      first table with a "Symbol" column, else a symbol-like column of the first
      table (an empty first table, or no table, gives no symbols). */
  function Sp500Symbols(raw: seq<Table>): (r: Result<seq<string>, LookupError>)
    ensures var tables := FetchedTables(raw);
            r.Failure? <==> && (forall i :: 0 <= i < |tables| ==> !HasColumns(tables[i], {"Symbol"}))
                            && |tables| > 0 && !IsEmpty(tables[0])
                            && !HasSymbolColumn(tables[0])
    ensures r.Failure? ==> r.error == NoSymbolColumn(Names(FetchedTables(raw)[0]))
    ensures r.Success? ==> forall k :: 0 <= k < |r.value| ==> Text.IsStripped(r.value[k]) && Kept(r.value[k])
  {
    var tables := FetchedTables(raw);
    match PickTableByColumns(tables, {"Symbol"})
    case Success(df) => Success(CleanSymbols(ColumnNamed(df, "Symbol").cells))
    case Failure(_) =>
      var df := if |tables| > 0 then tables[0] else Table([]);
      if IsEmpty(df) then Success([])
      else
        match ExtractSymbolSeries(df)
        case Success(col) => Success(CleanSymbols(col.cells))
        case Failure(e) => Failure(e)
  }

  /** `fetch_tsx60_symbols` on the tables scraped from the S&P/TSX 60 page: the
      first table with a "Symbol" column, else the first table with a
      symbol-like column, else a `KeyError`. */
  function Tsx60Symbols(raw: seq<Table>): (r: Result<seq<string>, LookupError>)
    ensures var tables := FetchedTables(raw);
            r.Failure? <==> && (forall i :: 0 <= i < |tables| ==> !HasColumns(tables[i], {"Symbol"}))
                            && (forall i :: 0 <= i < |tables| ==> !HasSymbolColumn(tables[i]))
    ensures r.Failure? ==> r.error == NoTsxSymbolColumn(Sample(FetchedTables(raw)))
    ensures r.Success? ==> forall k :: 0 <= k < |r.value| ==> Text.IsStripped(r.value[k]) && Kept(r.value[k])
  {
    var tables := FetchedTables(raw);
    match PickTableByColumns(tables, {"Symbol"})
    case Success(df) => Success(CleanSymbols(ColumnNamed(df, "Symbol").cells))
    case Failure(_) =>
      match Seqs.FirstWhere(tables, HasSymbolColumn)
      case Some(i) => Success(CleanSymbols(ExtractSymbolSeries(tables[i]).value.cells))
      case None => Failure(NoTsxSymbolColumn(Sample(tables)))
  }

  /** The S&P 500 symbols are the cleaned cells of one column, in column
      order: the "Symbol" column of the first table having one; failing that,
      nothing for a missing or empty first table; failing that, the symbol-like
      column of the first table. */
  lemma Sp500SymbolsSource(raw: seq<Table>)
    ensures var tables := FetchedTables(raw);
            var pick := PickTableByColumns(tables, {"Symbol"});
            var r := Sp500Symbols(raw);
            && (pick.Success? ==> r == Success(CleanSymbols(ColumnNamed(pick.value, "Symbol").cells)))
            && (pick.Failure? && (|tables| == 0 || IsEmpty(tables[0])) ==> r == Success([]))
            && (pick.Failure? && |tables| > 0 && !IsEmpty(tables[0]) && HasSymbolColumn(tables[0])
                ==> r == Success(CleanSymbols(ExtractSymbolSeries(tables[0]).value.cells)))
  {
  }

  /** The S&P/TSX 60 symbols are the cleaned cells of one column, in column
      order: the "Symbol" column of the first table having one, else the
      symbol-like column of the first table that has such a column. */
  lemma Tsx60SymbolsSource(raw: seq<Table>)
    ensures var tables := FetchedTables(raw);
            var pick := PickTableByColumns(tables, {"Symbol"});
            var found := Seqs.FirstWhere(tables, HasSymbolColumn);
            var r := Tsx60Symbols(raw);
            && (pick.Success? ==> r == Success(CleanSymbols(ColumnNamed(pick.value, "Symbol").cells)))
            && (pick.Failure? && found.Some?
                ==> r == Success(CleanSymbols(ExtractSymbolSeries(tables[found.value]).value.cells)))
  {
  }

  /** A Yahoo Finance ticker with its exchange and currency. */
  datatype YfSymbol = YfSymbol(ticker: string, exchange: string, currency: string)

  /** US share classes whose dot Yahoo Finance spells as a dash. */
  const DotToDash: map<string, string> := map["BRK.B" := "BRK-B", "BF.B" := "BF-B"]

  /** `normalize_yfinance_symbol(raw, universe_code)` */
  function NormalizeYfinanceSymbol(raw: string, universeCode: string): (r: YfSymbol)
    ensures Text.Strip(raw) in DotToDash ==> r == YfSymbol(DotToDash[Text.Strip(raw)], "US", "USD")
    ensures Text.Strip(raw) !in DotToDash && universeCode == "TSX60"
            ==> r == YfSymbol(Text.Strip(raw) + ".TO", "TSX", "CAD")
    ensures Text.Strip(raw) !in DotToDash && universeCode != "TSX60"
            ==> r == YfSymbol(Text.Strip(raw), "US", "USD")
  {
    var s := Text.Strip(raw);
    if s in DotToDash then YfSymbol(DotToDash[s], "US", "USD")
    else if universeCode == "TSX60" then YfSymbol(s + ".TO", "TSX", "CAD")
    else YfSymbol(s, "US", "USD")
  }

  /** Surrounding whitespace never affects the mapping. */
  lemma NormalizeIgnoresPadding(raw: string, universeCode: string)
    ensures NormalizeYfinanceSymbol(raw, universeCode) == NormalizeYfinanceSymbol(Text.Strip(raw), universeCode)
  {
    Text.StripIdempotent(raw);
  }

  /** A symbol is listed in Toronto exactly when it comes from the TSX 60 list
      and is not one of the US share-class spellings; only then is it in CAD. */
  lemma NormalizeExchange(raw: string, universeCode: string)
    ensures var r := NormalizeYfinanceSymbol(raw, universeCode);
            && (r.exchange == "TSX" <==> universeCode == "TSX60" && Text.Strip(raw) !in DotToDash)
            && (r.currency == "CAD" <==> r.exchange == "TSX")
            && (r.exchange == "US" <==> r.currency == "USD")
  {
  }

  /** For TSX symbols the suffix can be taken off again, so distinct symbols get
      distinct Yahoo tickers. */
  lemma NormalizeTsxInjective(a: string, b: string)
    requires Text.Strip(a) !in DotToDash && Text.Strip(b) !in DotToDash
    requires NormalizeYfinanceSymbol(a, "TSX60") == NormalizeYfinanceSymbol(b, "TSX60")
    ensures Text.Strip(a) == Text.Strip(b)
  {
    var ta := NormalizeYfinanceSymbol(a, "TSX60").ticker;
    assert ta[..|ta| - 3] == Text.Strip(a);
    assert ta[..|ta| - 3] == Text.Strip(b);
  }

  /** A row of `universe_membership_daily`; `asOf` is a day number. */
  datatype MembershipRow = MembershipRow(
    universeCode: string,
    asOf: int,
    tickerRaw: string,
    source: string,
    isMember: bool)

  /** `insert_membership_snapshot`'s rows: one per ticker, in order, each
      marking the ticker a member as scraped from Wikipedia. */
  function MembershipRows(universeCode: string, asOf: int, tickers: seq<string>): (rows: seq<MembershipRow>)
    ensures |rows| == |tickers|
    ensures forall i :: 0 <= i < |rows| ==>
              rows[i] == MembershipRow(universeCode, asOf, tickers[i], "wikipedia", true)
  {
    if |tickers| == 0 then []
    else [MembershipRow(universeCode, asOf, tickers[0], "wikipedia", true)]
         + MembershipRows(universeCode, asOf, tickers[1..])
  }
}
