# Stock fundamentals pipeline: a Dafny model of its pure core

The repository pairs an ETL pipeline with a FastAPI service. The ETL side scrapes index constituents from Wikipedia, maps them to Yahoo Finance tickers and computes price changes. The API side serves a screener, rankings, company series and data-quality figures. Under the database and HTTP plumbing sits a small amount of sequential logic, and this project models that logic and proves properties of it.

- **Screener and rankings query builders** (`SqlFilters`).
  - Each optional filter that applies appends one `WHERE` clause with placeholder `$i` and one argument, then bumps `i`.
  - The screener starts at `$1`.
  - The rankings query reserves `$1..$5` for its five weights, so its sector filter is `$6`.
- **The ranking configuration** (`RankingWeights`).
  - It holds the weight dictionary and the defaults 0.35/0.25/0.20/0.10/0.10 used for missing keys.
  - `update_ranking_config` checks a configuration in a fixed order: the weights are non-empty, their sum lies in (0.99, 1.01), and the five required keys are present.
- **`_normalize_json`** (`JsonValues`): the coercion of a json column into a dictionary.
- **The data-quality percentages** (`DataQuality`).
  - NULL counts read as 0.
  - A percentage is 0 when the universe count is 0.
- **The series endpoint** (`CompanySeries`).
  - An empty fetch gives a 404.
  - Otherwise the newest-first rows are reversed into chart order.
- **The universe refresh** (`Universe`), covering:
  - stripping the scraped column names;
  - picking the first table with the required columns;
  - the case-insensitive, priority-ordered lookup of a symbol column;
  - cleaning the symbols;
  - the S&P 500 and S&P/TSX 60 fallbacks;
  - `normalize_yfinance_symbol`;
  - the membership rows.
- **The price job** (`Prices`), covering:
  - `get_close_price`, the latest close on or before a date, both as a prefix split and as a binary search;
  - `calc_change`;
  - the per-ticker row with look-back offsets of 30, 90, 180 and 364 days.

Support modules:
- `Wrappers`: `Option`, `Result`, and `HttpError` for a raised `HTTPException`.
- `Text`: Python `str.strip` whitespace, ASCII lower-casing, decimal rendering and `str.join`.
- `Seqs`: a first-match search, a last-index search and a filter-map, shared by the universe code.

Conventions used throughout:
- Dates are day numbers.
- Prices and weights are reals.
- A pandas table is a sequence of named columns whose cells are already rendered as strings.
- `json.loads` is a function parameter that returns `None` where Python raises.
- `str(v)` of an arbitrary value is carried by the value itself.

## Model

| member | source | states |
|---|---|---|
| JsonValues.NormalizeJson | api/app/main.py:68-82 | `None` becomes `{}`, a dictionary is returned as is, a string becomes its parsed JSON value or `{"raw": s}` when parsing fails, and any other value becomes `{"raw": str(v)}`. |
| JsonValues.NormalizeJsonIsDict | api/app/main.py:68-82 | The coercion yields a dictionary in every case except one: a string that parses as JSON whose top-level value is not an object. |
| JsonValues.NormalizeJsonIdempotent | api/app/main.py:73-76 | A dictionary is returned as is, so coercing an already coerced dictionary changes nothing. |
| JsonValues.NormalizeJsonKeepsRawText | api/app/main.py:77-82 | An unparsable string, or a value of any other type, becomes `{"raw": text}` holding the original text unchanged. |
| RankingWeights.Lookup | api/app/main.py:429-433 | `weights.get(key)` is absent exactly when no item has the key; a found value is the value of an item with that key. |
| RankingWeights.LookupDistinct | api/app/main.py:429-433 | In a dictionary (distinct keys), `get` of a present key returns that key's own value. |
| RankingWeights.ValidateConfig | api/app/main.py:312-338 | The config is accepted iff the weights are non-empty, sum strictly between 0.99 and 1.01, and contain every required key. Acceptance returns the config unchanged. Every refusal is a 400. Empty weights are reported first, a bad sum second, and only then the set of missing keys, which is non-empty and exactly the required keys not present. |
| RankingWeights.DefaultsAreValid | api/app/main.py:429-433 | The default weights form a configuration the validator accepts: they sum to 1 and name all five keys. |
| RankingWeights.ValidatedConfigHasEveryWeight | api/app/main.py:320-323 | An accepted configuration has a value for every key the rankings query reads. |
| RankingWeights.SumBoundIsExclusive | api/app/main.py:315-317 | A sum of exactly 0.99 is refused with the 400 that reports the sum. |
| SqlFilters.WhereSql | api/app/main.py:373 | The WHERE text is empty iff there are no clauses, otherwise it begins with `WHERE `; a single clause gives `WHERE ` followed by that clause. |
| SqlFilters.WhereSqlAppend | api/app/main.py:373 | One more clause extends the WHERE text by ` AND ` and that clause, so the clauses appear in order, separated by ` AND `. |
| SqlFilters.AddFilter | api/app/main.py:356-371 | One filter step keeps placeholders consecutive and `i` one past the last argument; an applicable filter appends its clause at placeholder `i` and its argument, an inapplicable one changes nothing. |
| SqlFilters.ApplyFilters | api/app/main.py:352-371 | Running the filter steps in order appends the applicable conditions, numbered consecutively from the current `i`, and their arguments in the same order. |
| SqlFilters.ScreenerQuery | api/app/main.py:352-371 | The screener has as many clauses as arguments. Clause `j` is the `j`-th applicable filter at placeholder `$j+1`, argument `j` is that filter's value, and `i` ends one past the last argument. |
| SqlFilters.SelectedMembers | api/app/main.py:356-371 | Selection keeps exactly the applicable conditions, in their original order. |
| SqlFilters.ScreenerSelectedCount | api/app/main.py:356-371 | The number of selected conditions is the number of applicable filters. |
| SqlFilters.ScreenerNumbering | api/app/main.py:352-371 | k applicable filters give k clauses and k arguments with placeholders `$1..$k`. |
| SqlFilters.ScreenerClauses | api/app/main.py:356-371 | Each clause belongs to an applicable filter, and every applicable filter has exactly one clause. The clauses follow the fixed order q, sector, rsi_lte, bullish. |
| SqlFilters.ScreenerTextSearch | api/app/main.py:356-359 | A non-empty `q` takes `$1`, binds the single argument `%q%`, and renders as `(ticker ILIKE $1 OR name ILIKE $1)`. |
| SqlFilters.ScreenerNoFilters | api/app/main.py:356-373 | A missing or empty `q`/`sector`, with no other filter, gives no clause, no argument and an empty WHERE text. |
| SqlFilters.ScreenerAllFilters | api/app/main.py:352-371 | With all four filters set, the clauses are q, sector, rsi_lte and bullish at `$1..$4`. |
| SqlFilters.SelectAll | api/app/main.py:356-371 | When every filter applies, none is skipped. |
| SqlFilters.WeightOr | api/app/main.py:429-433 | Each weight is the configured value if the key is present, else its default (0.35, 0.25, 0.20, 0.10, 0.10 for trend, rsi, value, size, yield). |
| SqlFilters.RankingsQuery | api/app/main.py:429-442 | Arguments 1 to 5 are the five weights in order. A non-empty sector adds the single clause `sector = $6` and a sixth argument. Otherwise there is no clause. Numbering stays consecutive. |
| SqlFilters.RankingsUseValidatedWeights | api/app/main.py:429-433 | For a configuration that passed validation, every weight argument is the configured value, never a default. |
| Text.NatToString | api/app/main.py:357-369 | A placeholder number renders as a non-empty string of decimal digits with no leading zero: only 0 renders starting with `0`. |
| Text.NatToStringInjective | api/app/main.py:357-369 | Distinct placeholder numbers render as distinct `$n` texts. |
| Text.ParseNatToString | api/app/main.py:357-369 | The decimal rendering of a placeholder number parses back to that number. |
| Text.Join | api/app/main.py:373 | Joining no items gives the empty string, and joining one item gives that item. Otherwise the result begins with the first item and ends with the last. |
| Text.JoinAppend | api/app/main.py:373 | Joining one more item appends the separator and the item. |
| Text.Strip | etl_pipeline/refresh_universe.py:37 | `strip()` gives text that neither starts nor ends with whitespace and is no longer than its input; StripIsInfix says what was removed. |
| Text.StripIsInfix | etl_pipeline/refresh_universe.py:37 | `strip()` removes exactly the leading and trailing whitespace: the result is an infix whose removed ends are all whitespace, and which neither starts nor ends with whitespace. |
| Text.StripStripped | etl_pipeline/refresh_universe.py:37 | Stripping text with no surrounding whitespace changes nothing. |
| Text.StripIdempotent | etl_pipeline/refresh_universe.py:92 | Stripping twice is stripping once. |
| DataQuality.Pct | api/app/main.py:653-656 | A percentage is 0 for an empty universe; otherwise, multiplied by the universe, it gives 100 times the count. |
| DataQuality.PctBounded | api/app/main.py:653-656 | A count between 0 and the universe gives a percentage between 0 and 100. |
| DataQuality.PctRecoversCount | api/app/main.py:653-656 | The count is recovered as percentage times universe over 100. |
| DataQuality.Snapshot | api/app/main.py:646-675 | Each payload count is the NULL-coerced query count, and each of the four percentages is its count's share of the coerced universe. |
| DataQuality.NullUniverseGivesZero | api/app/main.py:646-656 | A NULL universe count makes every percentage 0 rather than dividing. |
| CompanySeries.Reverse | api/app/main.py:415 | Row `i` of the reversed list is row `n-1-i` of the fetched list. |
| CompanySeries.ReverseReverse | api/app/main.py:415 | Reversing twice restores the original order. |
| CompanySeries.ReverseKeepsRows | api/app/main.py:415 | Reversal keeps exactly the same rows (as a multiset). |
| CompanySeries.SeriesResponse | api/app/main.py:412-416 | An empty fetch is a 404 "Ticker not found or no data". Any other fetch is answered with all its rows in reverse order. |
| CompanySeries.SeriesResponseAscending | api/app/main.py:405-416 | Rows fetched newest first (equal dates allowed) are answered oldest first, ending with the newest row. |
| Universe.StripColumnNames | etl_pipeline/refresh_universe.py:36-37 | Every column keeps its position and cells; only its name is stripped. |
| Universe.FetchedTables | etl_pipeline/refresh_universe.py:36-38 | Every table is kept, in order, with stripped column names. |
| Universe.StrippedNameSelects | etl_pipeline/refresh_universe.py:36-47 | A column whose scraped name is a padded `name` satisfies a requirement for `name` once fetched. |
| Universe.Sample | etl_pipeline/refresh_universe.py:50 | The debug sample lists the column names of the first (at most) 8 tables. |
| Universe.PickTableByColumns | etl_pipeline/refresh_universe.py:46-54 | The result is the first table whose columns include every required column. If there is none, the error names the requirement and carries the sample. |
| Universe.ColumnNamed | etl_pipeline/refresh_universe.py:86 | `df["Symbol"]` is the first column with that exact name. |
| Universe.FirstCandidate | etl_pipeline/refresh_universe.py:63-75 | The result is the highest-priority candidate present among the keys. The position is that of the last key equal to it, since later columns overwrite earlier ones in the key map. No result means no candidate is present. |
| Universe.ExtractSymbolSeries | etl_pipeline/refresh_universe.py:57-77 | The lookup succeeds iff some column's stripped, lower-cased name is a candidate, and then returns the column the candidate search designates. Otherwise the error lists the table's column names. |
| Universe.SymbolColumnCaseInsensitive | etl_pipeline/refresh_universe.py:63-75 | Tables whose column names agree after stripping and lower-casing pick the same column position. |
| Universe.CleanCell | etl_pipeline/refresh_universe.py:92-94 | A cell is kept, stripped, exactly when its stripped text is neither empty nor "nan" in any case. |
| Universe.CleanSymbols | etl_pipeline/refresh_universe.py:92-95 | Every surviving symbol is stripped, non-empty and not "nan", and is the cleaned form of some input cell. |
| Universe.CleanSymbolsAppend | etl_pipeline/refresh_universe.py:92-95 | Cleaning works cell by cell and keeps the input order. |
| Universe.CleanSymbolsSingle | etl_pipeline/refresh_universe.py:92-94 | One cell yields its stripped text if kept, else nothing. |
| Universe.CleanSymbolsIdempotent | etl_pipeline/refresh_universe.py:92-95 | Cleaning cleaned symbols changes nothing. |
| Universe.Sp500Symbols | etl_pipeline/refresh_universe.py:80-95 | The S&P 500 fetch fails iff no table has a "Symbol" column, the first table exists and is non-empty, and it has no symbol-like column. The failure is the symbol-column error listing the first table's column names. Every returned symbol is clean. |
| Universe.Tsx60Symbols | etl_pipeline/refresh_universe.py:98-123 | The TSX 60 fetch fails iff no table has a "Symbol" column and no table has a symbol-like column. The failure carries the sample of the first tables. Every returned symbol is clean. |
| Universe.Sp500SymbolsSource | etl_pipeline/refresh_universe.py:84-95 | The S&P 500 symbols are the cleaned cells of one column: the "Symbol" column of the first table having one; else nothing when there is no first table or it is empty; else the symbol-like column of the first table. |
| Universe.Tsx60SymbolsSource | etl_pipeline/refresh_universe.py:102-123 | The TSX 60 symbols are the cleaned cells of the "Symbol" column of the first table having one, else of the symbol-like column of the first table that has one. |
| Universe.NormalizeYfinanceSymbol | etl_pipeline/refresh_universe.py:126-145 | On the stripped symbol, the rules apply in order: the share-class table maps to a dash spelling in US/USD, TSX60 symbols get `.TO` in TSX/CAD, and everything else stays as is in US/USD. |
| Universe.NormalizeIgnoresPadding | etl_pipeline/refresh_universe.py:130 | Surrounding whitespace never changes the mapping. |
| Universe.NormalizeExchange | etl_pipeline/refresh_universe.py:133-145 | The exchange is TSX iff the universe is TSX60 and the symbol is not a listed share class. CAD goes exactly with TSX, and USD exactly with US. |
| Universe.NormalizeTsxInjective | etl_pipeline/refresh_universe.py:140-142 | Distinct TSX symbols get distinct Yahoo tickers. |
| Universe.MembershipRows | etl_pipeline/refresh_universe.py:175 | There is exactly one row per ticker, in order, each `(universe_code, as_of, t, "wikipedia", True)`. |
| Prices.DropNa | etl_pipeline/etl_prices.py:61-62 | The close series drops the missing closes only. It is empty iff every close is missing, and each observation comes from a bar with that date and close. |
| Prices.DropNaSingle | etl_pipeline/etl_prices.py:61 | A bar yields its observation exactly when its close is present. |
| Prices.DropNaAppend | etl_pipeline/etl_prices.py:61 | Dropping works bar by bar, so every bar with a close contributes its observation, in bar order. |
| Prices.DropNaSorted | etl_pipeline/etl_prices.py:61 | Dropping missing closes keeps the series in date order. |
| Prices.UpTo | etl_pipeline/etl_prices.py:25 | `loc[:target]` is the prefix of observations dated on or before the target; every later observation is after it. |
| Prices.ClosePrice | etl_pipeline/etl_prices.py:25-28 | There is no price iff every observation is dated after the target. |
| Prices.ClosePriceIsLatest | etl_pipeline/etl_prices.py:25-28 | The price is that of the latest observation on or before the target. |
| Prices.ClosePriceExactDate | etl_pipeline/etl_prices.py:25-28 | On a date with one observation, the lookup returns that day's price. |
| Prices.ClosePriceAtLastDate | etl_pipeline/etl_prices.py:69-70 | Looked up at the last observed date, the price is the last close, which is how today's close is read. |
| Prices.SearchRight | etl_pipeline/etl_prices.py:25 | Binary search finds the cut point of the slice: everything before it is on or before the target, everything from it is after. |
| Prices.CutIsUnique | etl_pipeline/etl_prices.py:25 | A sorted series has a single cut point between the observations on or before a date and those after it. |
| Prices.GetClosePrice | etl_pipeline/etl_prices.py:20-28 | The binary-search lookup returns the same answer as the slice-based definition. |
| Prices.CalcChange | etl_pipeline/etl_prices.py:30-38 | A change exists iff both the close at today and the close `offset` days earlier exist. The past close moved by that percentage is today's close. |
| Prices.CalcChangeZeroOffset | etl_pipeline/etl_prices.py:32-37 | Over zero days the change is 0. |
| Prices.SeriesRow | etl_pipeline/etl_prices.py:69-98 | A ticker is skipped for division by zero iff some look-back lands on a zero close. Otherwise its row is dated at the last observation with the last close. |
| Prices.SeriesRowChanges | etl_pipeline/etl_prices.py:69-76 | The four stored changes are the changes over 30, 90, 180 and 364 days to the last observed date. |
| Prices.PriceUpdate | etl_pipeline/etl_prices.py:61-64 | A ticker is skipped with "No data" iff none of its bars has a close. |
| Prices.PriceUpdateUsesCloses | etl_pipeline/etl_prices.py:61-70 | A ticker with some close gets the row of its sorted close series with missing closes dropped. |

## Left out

- **Database access.** All connections, every SQL statement body, the upserts and the query that produces the data-quality counts are left out. They are I/O whose meaning lives in PostgreSQL, so the model stops at the clauses, arguments and payloads handed to them.
- **Network.** The HTTP fetch of the Wikipedia pages, `pd.read_html` and the yfinance downloads are left out. The scraped tables and the downloaded bars are inputs.
- **Framework glue.** FastAPI routing, `Query(...)` bounds on `limit` and `days`, pydantic coercion of the response rows, and the settings are left out. The `LIMIT` and `ORDER BY` text of the queries is not rendered.
- **The job's loops.** `main()` in the price job and the universe refresh iterate over tickers and commit. That iteration and the console messages are left out. One ticker's outcome is modelled (`Prices.PriceUpdate`).
- **Pydantic and ORM models** in `api/app/models.py`. They carry no behaviour.
- **Frontend logic.** The chart-series merge, base-100 normalisation and colour hashing are not part of any source file modelled here.
- **`json.loads` and `str()`.** These are foreign calls. `json.loads` is a parameter of `JsonValues.NormalizeJson`. The result of `str(v)` is carried by the value.
- `Prices.CalcChange`: requires a non-zero past close. Python raises `ZeroDivisionError` there, and the per-ticker `except` in `main()` catches it; `Prices.SeriesRow` models that as a skipped ticker (`DivisionByZero`).
- `Prices.CalcChange`: no rounding to four decimals. `DataQuality.Pct` likewise has no rounding to two decimals. Reals stand for binary floats throughout, so `RankingWeights.ValidateConfig`'s 0.99/1.01 bounds are exact.
- `RankingWeights.ValidateConfig`: the missing keys are reported as a set rather than the sorted list rendered into the message. The other error messages are reduced to their case.
- `Text.ToLower`: lower-cases ASCII letters only, while Python's `str.lower` is Unicode-wide.
- `Universe.ColumnNamed`: with several columns sharing the exact name "Symbol", pandas returns all of them as a frame. The model takes the first one.
- `Universe.ExtractSymbolSeries`: when the winning column name occurs twice, `df[col_map[c]]` returns a frame and the later `.str` call raises. The model returns a single column instead.
- `RankingWeights.ValidateConfig`: a NaN weight makes both `s <= 0.99` and `s >= 1.01` false, so Python accepts a NaN sum when all five keys are present. Reals have no NaN, so the model refuses every sum outside (0.99, 1.01).
- `Universe.Sp500Symbols`: `df.empty` is modelled as "no columns or no rows of the first column".
- `Universe.Sp500Symbols`: the `KeyError` messages are reduced to their debug context (the required set, the column names, the sample).
- `Prices.PriceUpdate`: `pd.to_datetime(df.index.date)` is modelled by taking bar dates as day numbers. The bars are assumed date-sorted, as the download returns them.
- `Universe.MembershipRows`: the `execute_values` insert and its conflict handling are left out.
