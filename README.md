# eBay sold-listing scraper: the listing pipeline in Dafny

This project models the listing-processing part of `main.py` of a small eBay
scraper. The scraper opens a search page of sold listings, reads a title,
prices and a sale date out of each result element, drops listings whose
title matches a blacklist, and prints one padded report line per listing.
The browser is replaced by an abstract page. Each listing element is a
`Listing(dataView, texts)`. `dataView` is its `data-view` attribute. `texts`
maps each relative XPath that resolves under the element to that element's
text. An XPath missing from `texts` is one whose lookup raises
`NoSuchElementException`.

Modules, in dependency order:

- `Wrappers` (`wrappers.dfy`): `Option` and `Result`.
- `PyStrings` (`pystrings.dfy`): the Python string operations the code uses: `lower()`, the `in` substring test and `split(sep)`. `Join` is not used by the scraper; it is there only to specify `Split` (`PyStrings.JoinSplit`).
- `Filtering` (`filtering.dfy`): the list comprehension with a condition (`Filter`) and the append-when-present loop (`FilterMap`). Index-witness lemmas show that each keeps exactly the qualifying positions, in order.
- `Scraper` (`scraper.dfy`): `Scraper.get_data` as the imperative method `GetData`, with the functions that specify it.
- `Keywords` (`keywords.dfy`): `remove_by_keywords` as a fold of filters over the keywords.
- `Report` (`report.dfy`): `pad` as an imperative method, and the length filter. It also has the per-record unpack/split/format steps as a function `ParseRow`, the printing loop as the method `PrintRows`, and the whole post-scrape part of `main` as `Run`.

The model follows the code as written. In particular:

- The id is the segment between the first and the second `|` of the `data-view` string (`split("|")[1]`). It is not the last segment. No `iid:` prefix is removed, and the id is never turned into an integer.
- Prices are never split on `" to "`, and nothing is averaged.
- Only the title is lower-cased, not the keywords. So a keyword containing an upper-case letter removes nothing (`Keywords.UppercaseKeywordRemovesNothing`).
- The `len(metadata) > 2` filter does not make the four-way unpack safe. A record reaching the unpack may have any length from 3 to one more than the number of selectors. With the four selectors of `main`, a listing where both price XPaths resolve gives a record of length 5, and that record fails (`Report.ValidRecordsUnpack`, `Report.ShortRecordAdmitted`, `Report.LongRecordAdmitted`).

Errors are values. `ParseRow` returns `Err(UnpackMismatch(n))` for the
`ValueError` of `iid, _, price, date = metadata`. It returns
`Err(MissingIdSeparator)` and `Err(MissingSoldMarker)` for the `IndexError`s
of the two `split(...)[1]`. `PrintRows` stops at the first such error, as the
uncaught exception stops `main`.

## Model

| member | source | states |
|---|---|---|
| `Scraper.GetData` | main.py:50-73 | the records returned are `Assemble(listings, selectors)` and the messages logged are `Messages(listings, selectors)`; proved on the nested loops with their invariants |
| `Scraper.ReadListing` | main.py:60-68 | the inner loop over one listing yields exactly its kept texts (`Kept`) and the messages for its unresolved XPaths (`Missing`) |
| `Scraper.KeptSelection` | main.py:61-67 | the texts kept for one listing are exactly those of the XPaths that resolve to non-empty text, in selector order, unchanged; absent and empty fields are skipped |
| `Scraper.AssembleSelection` | main.py:58-71 | the records are, in listing order, exactly the listings that kept some field, each being its `data-view` followed by its kept texts; listings that kept nothing are dropped |
| `Scraper.RecordBounds` | main.py:58-71 | every record has length between 2 and `1 + len(metadata_xpaths)` |
| `Scraper.MissingSelection` | main.py:61-68 | a listing logs one "No metadata found for: <xpath>" message for exactly each XPath that does not resolve, in selector order |
| `Scraper.KeptSnoc` | main.py:61-67 | one more selector adds at most its own text, at the end |
| `Scraper.AssembleSnoc` | main.py:58-71 | one more listing adds at most its own record, at the end |
| `Scraper.MissingSnoc` | main.py:61-68 | one more selector adds at most its own message, at the end |
| `Keywords.RemoveByKeywords` | main.py:75-78 | every record in the result is a record of the input |
| `Keywords.RemoveByKeywordsIsFilter` | main.py:75-78 | the keyword-by-keyword passes equal one filter keeping the records whose lower-cased title contains none of the keywords |
| `Keywords.RemoveByKeywordsSelection` | main.py:75-78 | the result is an order-preserving subsequence of the input, with survivors unchanged; a record survives iff no keyword is a substring of `lower(item[1])` |
| `Keywords.RemoveByKeywordsIdempotent` | main.py:75-78 | filtering twice with the same keywords gives the same result as filtering once |
| `Keywords.UppercaseKeywordRemovesNothing` | main.py:77 | a keyword containing an upper-case letter never occurs in a lower-cased title, so its pass returns the data unchanged |
| `Keywords.EmptyKeywordRemovesAll` | main.py:77 | the empty keyword is a substring of every title, so its pass removes every record |
| `Report.Pad` | main.py:80-84 | `pad(s, n)` has length `max(len(s), n)`, has `s` as prefix, and holds only spaces after `len(s)`; it equals `s` when `len(s) >= n` |
| `Report.PaddedShape` | main.py:80-84 | the padded string has length `max(len(s), n)`, starts with `s` and holds only spaces after it |
| `PyStrings.MissingCharNotContained` | main.py:77 | a string never contains a substring that has a character the string lacks |
| `Report.BlacklistSparesTitle` | main.py:100-111 | none of the six blacklist words of `main` is a substring of the lower-cased title "MacBook Pro" |
| `Report.TitleSurvivesBlacklist` | main.py:75-78 | a record titled "MacBook Pro" survives every pass of `remove_by_keywords` with the blacklist of `main` |
| `Report.IdFieldPresent` | main.py:117 | `split("\|")[1]` exists iff the `data-view` string contains a `\|` |
| `Report.IdFieldSegment` | main.py:117 | the id is the text after the first `\|` up to the second `\|` or the end, and contains no `\|` |
| `Report.DateFieldPresent` | main.py:119 | `split("Sold ")[1]` exists iff the text contains `"Sold "` |
| `Report.DateFieldSegment` | main.py:119 | the date is the text after the first `"Sold "` up to the next `"Sold "` that starts after it, or the end |
| `Report.FormatRowLayout` | main.py:118-120 | the printed line is the id, one extra space when the id is shorter than 6, then ` \| ` padded to an id column of at least 9; then the price padded to at least 10; then `\| ` and the date; the exact length follows |
| `Report.IdColumnShape` | main.py:118-120 | the id column is the id, then `"  \| "` and spaces up to width 9 when the id is shorter than 6, or just `" \| "` otherwise |
| `Report.FormatRecord` | main.py:116-120 | the loop body computes, with `pad`, exactly the line or the error of `ParseRow` |
| `Report.ParseRowOutcome` | main.py:116-120 | a record prints iff it has exactly 4 entries, a `\|` in the `data-view` and `"Sold "` in the date; otherwise it fails with the unpack error, then the missing `\|`, then the missing `"Sold "`, in that order; the title is ignored |
| `Report.LongRecordsSelection` | main.py:112 | the length filter keeps, in order and unchanged, exactly the records longer than 2 |
| `Report.ValidRecordsUnpack` | main.py:112-116 | every record reaching the unpack has length from 3 to `1 + len(metadata_xpaths)`, and the unpack fails for every length but 4 |
| `Report.ValidWhenAllPass` | main.py:104-112 | when every scraped record survives the keywords and is longer than 2, the records reaching the unpack are all the scraped records, in order |
| `Report.ValidOfOne` | main.py:58-112 | a single listing whose record is titled "MacBook Pro" and has more than two entries reaches the unpack unchanged under the blacklist of `main` |
| `Report.ShortRecordAdmitted` | main.py:89-116 | with the four selectors and the six blacklist words of `main`, a "MacBook Pro" listing where neither price resolves gives a record of length 3 that passes the keyword and length filters and then fails the unpack |
| `Report.LongRecordAdmitted` | main.py:89-116 | with the same selectors and blacklist, a "MacBook Pro" listing where both prices resolve gives a record of length 5 that passes both filters and then fails the unpack |
| `Report.PrintRows` | main.py:115-120 | the printed lines are the lines of the records in order, up to the first record that raises; that record's error is returned, and with no error every record printed |
| `Report.Run` | main.py:89-120 | the counts printed are the number of scraped records and of valid records; the messages are those of `get_data`; the printed lines and the error are those of `PrintRows` on the valid records |
| `PyStrings.LowerChar` | main.py:77 | ASCII `A`-`Z` map to `a`-`z` (code point plus 32), every other character is kept, and no result is upper-case |
| `PyStrings.Lower` | main.py:77 | `lower()` keeps the length, maps each character by `LowerChar`, and leaves no upper-case letter |
| `PyStrings.IndexOfLeftmost` | main.py:117-119 | the search `split` performs finds an occurrence of the separator with none before it, and finds none exactly when the separator does not occur |
| `PyStrings.JoinSplit` | main.py:117-119 | joining the pieces of `s.split(sep)` with `sep` gives back `s` |
| `PyStrings.SplitPiecesFree` | main.py:117-119 | no piece of `s.split(sep)` contains `sep` |
| `PyStrings.SplitHasSecond` | main.py:117-119 | `s.split(sep)` has a piece at index 1 iff `sep` occurs in `s` |
| `PyStrings.SplitSecond` | main.py:117-119 | piece 1 of `s.split(sep)` runs from the end of the first occurrence of `sep` to the start of the next occurrence after it, or to the end |

## Left out

- `Scraper.__init__`, `open_link`, `close` and `current_url` (main.py:24-48) only drive Selenium, so they are not modelled. `Run` starts from the page's listings, given as data.
- `find_elements`, `find_element`, `.text` and `get_attribute` are replaced by the `Listing` data. `get_attribute` returning `None` for a missing `data-view` attribute is not modelled: `dataView` is always a string.
- The `tqdm` progress bar and every `print` are left out. `GetData` returns the messages it would print. `Run` returns the two counts and the report lines instead of printing them.
- The XPath strings and blacklist words hard-coded in `main` (main.py:90-111) are parameters of `Run`, not constants. `Report.MainBlacklist` repeats the six words for the example lemmas.
- PyStrings.Lower: lower-cases only the ASCII letters `A`-`Z`. Python's `str.lower()` also maps non-ASCII letters (`'É'.lower()` is `'é'`; here `'É'` is kept).
- PyStrings.LowerChar: the same ASCII-only restriction, one character at a time.
- Keywords.RemoveByKeywords: requires every record to have an index 1 whenever there is a keyword, because `item[1]` raises `IndexError` otherwise. Its only caller passes records of `get_data`, which all have length at least 2 (`Scraper.RecordBounds`).
- `sheets.py` (a Google Sheets client with an OAuth flow and `token.json` file I/O) and `settings.py` (one boolean constant) are not part of this model.
