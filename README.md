# Crypto price tracker — verified model of its core

`crypto_price_tracker_v2.py` opens the CoinMarketCap front page in a browser,
reads the first ten rows of the market table into records (time, rank, name,
price, 1h, 24h, 7d, market cap), shows them, optionally filters them by a
minimum price and a minimum 24-hour change, appends what is left to a CSV
file and prints the three largest 24-hour gainers and losers.

This project models the logic of that script in Dafny and proves what it
promises:

- `common.dfy` (module `Common`): `Option`, the number parser type, the
  `[:n]` / `head(n)` prefix and the subsequence relation with its lemmas.
- `text.dfy` (module `Text`): `clean_number` built from `str.replace` and
  `str.strip` (with Python's whitespace set), `split("\n")[0]` and the
  `lower() == "y"` test of a console answer.
- `table.dfy` (module `Table`): the record of one coin.
- `scraper.dfy` (module `Scraper`): the record-building loop of
  `fetch_crypto_data`, as a method with a loop invariant, over the cell texts
  of the rendered table rows.
- `filter_engine.dfy` (module `FilterEngine`): `filter_data`, as a method
  that reassigns the table step by step, against a declarative description
  of its result.
- `analyzer.dfy` (module `Analyzer`): the `24h_num` key, the sort and the
  `head(3)` of `find_gainers_and_losers`.
- `tracker.dfy` (module `Tracker`): which stages `main` runs, in which order
  and on which table.

Python's `float(...)` is a parameter `parse: string -> Option<real>`;
`None` is the `ValueError` it raises. The console answers, the capture
timestamp and the rendered page are parameters too.

Two behaviours of the code are easy to misread, and the model follows the
code. First, when the 24h step of `filter_data` raises, the message says the
full data is shown, but the function returns the table already filtered by
price (`FilterEngine.FilterErrorPaths`). Second, a 24h cell without a percent
sign ranks as 0, ahead of every negative change, so it can take a gainers
slot when fewer than three changes are positive.

## Model

| member | source | states |
|---|---|---|
| Text.Delete | crypto_price_tracker_v2.py:31-34 | `replace(c, "")` is a subsequence of its input with every occurrence of c removed and every other character kept with its count |
| Text.Strip | crypto_price_tracker_v2.py:35 | `strip()` is no longer than its input and neither starts nor ends with whitespace |
| Text.StripIsTrimmedSlice | crypto_price_tracker_v2.py:35 | `strip()` is a contiguous slice of its input with only whitespace cut off at each end |
| Text.DeleteSymbols | crypto_price_tracker_v2.py:31-34 | the four replacements leave no `$ , % \n` and only characters of the input |
| Text.CleanNumber | crypto_price_tracker_v2.py:29-36 | the cleaned text is no longer than the input, contains none of `$ , % \n`, only characters of the input, and has no outer whitespace |
| Text.DeletionsKeepNonSymbols | crypto_price_tracker_v2.py:31-34 | the chain of four replacements equals one pass that keeps exactly the non-symbol characters in order |
| Text.CleanNumberIsStripOfKept | crypto_price_tracker_v2.py:29-36 | `clean_number` is "keep the non-symbol characters, then strip" |
| Text.CleanNumberFixesClean | crypto_price_tracker_v2.py:29-36 | a text without symbols and outer whitespace is returned unchanged |
| Text.CleanNumberIdempotent | crypto_price_tracker_v2.py:29-36 | cleaning twice gives the same as cleaning once |
| Text.Split | crypto_price_tracker_v2.py:58 | `split("\n")` gives at least one piece, no piece holds the separator, and the first piece is the text up to the first separator |
| Text.JoinSplit | crypto_price_tracker_v2.py:58 | joining the pieces of a split with the separator gives back the text |
| Text.Lower | crypto_price_tracker_v2.py:102 | `lower()` keeps the length |
| Text.IsYesExactly | crypto_price_tracker_v2.py:102-103 | `answer.lower() == "y"` holds exactly for the answers "y" and "Y" |
| Common.Take | crypto_price_tracker_v2.py:44 | `[:n]` is the prefix of length min(n, len) |
| Scraper.WideRows | crypto_price_tracker_v2.py:49-52 | the rows kept are an order-preserving subsequence of the rows and all have at least seven cells |
| Scraper.WideRowsCounts | crypto_price_tracker_v2.py:49-52 | every row with at least seven cells is kept exactly as often as it occurs, and no narrower row is kept |
| Scraper.RecordsTranscribeWideRows | crypto_price_tracker_v2.py:49-65 | there is one record per row with at least seven cells, in row order; it carries the timestamp, cells 0 and 2 to 6 verbatim and cell 1 up to its first newline |
| Scraper.FetchCryptoData | crypto_price_tracker_v2.py:44-69 | the loop returns the records of the first ten rows, at most min(10, rows) of them, all with the one timestamp |
| Scraper.NarrowRowSkipped | crypto_price_tracker_v2.py:51-52 | a row with fewer than seven cells contributes nothing wherever it stands |
| Scraper.ExtraCellsIgnored | crypto_price_tracker_v2.py:55-64 | rows that agree on their first seven cells give the same records, whatever follows |
| FilterEngine.ApplyParse | crypto_price_tracker_v2.py:111 | the numeric column exists exactly when every cell parses after cleaning, and then holds each row's number at its index |
| FilterEngine.MatchingSelects | crypto_price_tracker_v2.py:112 | the kept rows are a subsequence of the table, all meet the bounds, and each row meeting them is kept as often as it occurs |
| FilterEngine.MaskIsMatching | crypto_price_tracker_v2.py:112 | the boolean mask `df[num >= float(bound)]` keeps exactly the rows meeting the inclusive bound |
| FilterEngine.MatchingUnbounded | crypto_price_tracker_v2.py:110-114 | with both thresholds empty every row is kept |
| FilterEngine.MatchingComposes | crypto_price_tracker_v2.py:110-116 | filtering by price and then by 24h change is filtering by both at once |
| FilterEngine.FilterData | crypto_price_tracker_v2.py:101-122 | the step-by-step filter returns the declined-prompt table, the error-path table or the rows meeting both bounds, as the three cases of the filter's result |
| FilterEngine.FilterWithoutBoundsIsIdentity | crypto_price_tracker_v2.py:102-104 | an answer other than y/Y, or two empty thresholds, leaves the table unchanged |
| FilterEngine.FilterKeepsOrder | crypto_price_tracker_v2.py:101-122 | on every path the result is an order-preserving subsequence of the input table |
| FilterEngine.FilterAllParse | crypto_price_tracker_v2.py:110-116 | when the price step parses every row and the 24h step parses every row that passed the price bound, the result is exactly the rows meeting both inclusive bounds |
| FilterEngine.FilterErrorPaths | crypto_price_tracker_v2.py:118-120 | a failing price step returns the input table; a failing 24h step returns the price-filtered table |
| Analyzer.RankAll | crypto_price_tracker_v2.py:89 | the `24h_num` key of a row is the cleaned and parsed 24h text when that text contains `%`, and 0 otherwise; the key column exists exactly when every row's key parses, and pairs each row with its key at the same index |
| Analyzer.InsertAdds | crypto_price_tracker_v2.py:91-92 | one insertion step adds the element and keeps all others |
| Analyzer.InsertSorted | crypto_price_tracker_v2.py:91-92 | one insertion step keeps the order by key |
| Analyzer.SortValues | crypto_price_tracker_v2.py:91-92 | the sorted table is a permutation of the table, ordered by key |
| Analyzer.Top | crypto_price_tracker_v2.py:91-92 | `sort_values(...).head(3)` has min(3, rows) rows taken from the table, in key order, and no row left out may precede a row kept |
| Analyzer.FindGainersAndLosers | crypto_price_tracker_v2.py:88-92 | the analysis raises exactly when some 24h key does not parse; otherwise both lists have min(3, rows) rows of the table, each with its own key |
| Analyzer.GainersAndLosersAreExtreme | crypto_price_tracker_v2.py:91-92 | gainers are in non-increasing key order and no row outside them has a larger key; losers symmetrically |
| Analyzer.LeadersAreMaxAndMin | crypto_price_tracker_v2.py:91-92 | the first gainer has the largest key of the table and the first loser the smallest |
| Analyzer.FewRowsAllListed | crypto_price_tracker_v2.py:91-92 | with three rows or fewer both lists are permutations of the whole table |
| Tracker.Run | crypto_price_tracker_v2.py:133-150 | the saved table is the non-empty filtered table, a subsequence of the scraped records; an empty filter result after a non-empty scrape saves nothing; the analysis runs on the saved table and is defined exactly when every key parses |
| Tracker.StagesGating | crypto_price_tracker_v2.py:136-150 | a run starts with fetching; an empty scrape ends it there; an empty filter result skips save and analysis; save and analysis happen together, analysis right after save; the closing message is printed unless the scrape was empty or the analysis raised |

## Left out

- Browser handling (`start_browser`, `driver.get`, `driver.quit`, lines 19-26, 40): the rendered page is a parameter, the cell texts of each `tbody tr` row.
- The 25-second wait at lines 41-43 and its uncaught timeout: it belongs to the browser layer.
- The `try`/`except` around one record (lines 54-67): with the cell texts given, building a record cannot raise; a stale element is a browser event.
- The capture time (`datetime.now()`, line 47): a parameter.
- Console prompts and printing (`input`, `print`, `show_data`, `to_string`, lines 72-76, 94-98, 102, 107-108, 128): answers are parameters, output is dropped; the headless prompt only configures the browser.
- `save_to_csv` (lines 79-85): header on create and append otherwise are filesystem behaviour; the model records only which table is saved. The helper columns `Price_num` and `24h_num`, added to the frame in place at lines 111 and 115, are also written to the file; the model's records do not carry them.
- IEEE float semantics of `float(...)` (`nan`, `inf`, exponents, rounding): parsing is an abstract partial function onto the reals.
- Analyzer.SortValues: pandas' default sort kind does not fix the order of rows with equal keys; the model uses one stable order, and only properties that hold for every order (key order, permutation, extremes) are stated as promises.
- Text.Lower: only ASCII letters are lowered; for the yes/no test only "Y" matters.
- The bare `except` of `filter_data` (line 118, covering both prompts and both steps) catches every exception, not only `ValueError`; the model's only source of exceptions is the parser.
