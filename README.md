# nextairing — a Dafny model of the episode pipeline

`nextairing` is a small command-line program. It takes a list of TV series identifiers. For each one it fetches the
series' listing page, picks the upcoming episode from the page and prints one line:

    <series> <number>: "<title>" (<countdown>)

If the page lists no upcoming episode, it prints `<identifier>: no episode scheduled to air` instead. The first
failure, either a failed fetch or a list item without enough children, aborts the whole run.

This project models the logic of `src/main.rs` that sits between the network and the output:

- `text.dfy` (module `Text`) models whitespace trimming as Rust's `str::trim` does it. The whitespace set is a
  parameter `isWs: char -> bool`, so every fact holds for any set.
- `episode.dfy` (module `Episodes`) models the `Episode` record, the `DataNotFoundError` error and the `Display`
  impls of both, plus the no-episode line.
- `extractor.dfy` (module `Extractor`) models the extraction half of `get_page`. It selects the last matched list
  item and reads its first four element children through a cursor, returning at the first one that is absent.
  `Extract` is the reference definition. `ExtractEpisode` is the step-by-step method proved equal to it.
- `airings.dfy` (module `Airings`) models `get_page` as a whole (`GetPage`, which applies `Extract` after the
  fetch). It also models the closure that turns that outcome into a line (`Airing`), and `get_airings`.
  Fetching and parsing a page is an oracle `fetch: string -> Fetched`. `get_airings`'s `map(..).collect()`
  into a `Result` is the short-circuiting fold `CollectMap`.

Each matched list item is given as the sequence of the text contents of its element children, in document order.

## Model

| member | source | states |
|---|---|---|
| `Text.Trim` | src/main.rs:37 | the trimmed text is no longer than the input, and it neither starts nor ends with whitespace |
| `Text.TrimSliceOf` | src/main.rs:37 | trimming keeps one contiguous slice of the input, and everything it drops on either side is whitespace |
| `Text.TrimIsSlice` | src/main.rs:37 | converse: a slice surrounded only by whitespace that has no whitespace at either end is exactly what trimming returns |
| `Text.TrimPadded` | src/main.rs:37 | whitespace padding around a text is removed and the text, including its inner whitespace, is kept verbatim |
| `Text.TrimIdempotent` | src/main.rs:37 | trimming twice gives the same as trimming once |
| `Episodes.MissingDataMessage` | src/main.rs:16-19 | a missing-field error displays as `Missing data: ` followed by exactly the field name |
| `Episodes.MissingDataMessageNamesField` | src/main.rs:16-19 | distinct fields give distinct messages, so the message tells which field is absent |
| `Episodes.NoEpisodeLine` | src/main.rs:74 | the no-episode line is the caller's identifier followed by exactly `: no episode scheduled to air` |
| `Episodes.NoEpisodeLineNamesSeries` | src/main.rs:74 | the no-episode line determines the identifier it was made for |
| `Episodes.FormatEpisode` | src/main.rs:35-39 | the display line holds the trimmed series, a space, the trimmed number, `: "`, the trimmed title, `" (`, the trimmed countdown and `)`, each piece at its stated position and with the stated length |
| `Episodes.FormatEpisodeStripsPadding` | src/main.rs:35-39 | an episode displays as `series number: "title" (countdown)`, each field with its surrounding whitespace removed and its inner text preserved |
| `Episodes.FormatEpisodeIgnoresPadding` | src/main.rs:37 | an episode and its field-by-field trimmed copy display identically, so stored fields may be raw |
| `Extractor.Extract` | src/main.rs:50-65 | no episode exactly when nothing matched. A missing-field error exactly when the last match has fewer than four children, and it names field k+1 for k children. Otherwise the episode is the last match's children 1 to 4, verbatim and in order |
| `Extractor.ExtractEpisode` | src/main.rs:50-65 | no match gives NoEpisode and only then. Otherwise the last match is used. With four or more children, the episode is children 1 to 4 verbatim and in order. With k < 4 children, the error names field k+1 (series, number, title, countdown) |
| `Extractor.ExtractIgnoresEarlierMatches` | src/main.rs:50-53 | matches before the last one never influence the result |
| `Extractor.ExtractIgnoresExtraChildren` | src/main.rs:55-59 | element children after the fourth are ignored |
| `Extractor.ExtractMissingNamesField` | src/main.rs:56-59 | a last item with 0, 1, 2 or 3 children fails with the message `Missing data: series`, `number`, `title` or `countdown` respectively |
| `Airings.GetPage` | src/main.rs:41-66 | a failed fetch gives that fetch error. A page with no match gives `Ok(None)`. Otherwise a last match with fewer than four children gives the missing-field error for field k+1, and one with four or more gives its first four children as the episode |
| `Airings.Airing` | src/main.rs:71-75 | a failed fetch becomes that identifier's error. A page with no match gives the identifier's no-episode line. Otherwise the last match gives the formatted episode, or the missing-field error when it has fewer than four children |
| `Airings.CollectMap` | src/main.rs:71-76 | the collected result succeeds exactly when every element's result succeeds, and then it has one value per element |
| `Airings.CollectMapValues` | src/main.rs:71-76 | on success, value i is the mapped result of element i |
| `Airings.CollectMapFailsAtFirstError` | src/main.rs:71-76 | the collection fails with the error of the first failing element |
| `Airings.CollectMapStopsAtFirstError` | src/main.rs:71-76 | elements after the first failing one are never mapped: changing the function on them changes nothing |
| `Airings.CollectMapIgnoresRest` | src/main.rs:76 | once a prefix fails, appending more elements does not change the outcome |
| `Airings.CollectMapAppend` | src/main.rs:76 | after a prefix that succeeds, the rest is collected on its own: either its error is the outcome, or its values follow the prefix's values |
| `Airings.GetAirings` | src/main.rs:68-77 | the batch succeeds exactly when every identifier's line succeeds, and then it gives one line per identifier (none for no identifiers) |
| `Airings.GetAiringsLines` | src/main.rs:71-75 | on success, line i is the line of identifier i |
| `Airings.GetAiringsStopsFetching` | src/main.rs:71-76 | the batch fails with the first failing identifier's error, and identifiers after it are never fetched: any oracle that agrees up to that identifier gives the same outcome |
| `Airings.BatchAbortsOnFailedFetch` | src/main.rs:71-76 | for `[a, b, c]` where `a` succeeds and `b`'s fetch fails, the batch yields that fetch error and no lines at all |

## Left out

- Building the URL and sending the HTTP GET with `hyper::Client` (src/main.rs:42-44) are network I/O in a foreign library. Together with reading the response body (src/main.rs:47), they are the oracle `fetch`. Its `FetchErr(cause)` stands for every error either step propagates, and the cause is an opaque string.
- HTML parsing, CSS selector evaluation and `text_contents` (kuchiki, src/main.rs:47-50, 55-59) are foreign library calls. The model takes the matched items, each as the text contents of its element children, as given.
- The `.unwrap()` on parsing the constant selector (src/main.rs:50) cannot fail for that constant, so it is not modelled.
- `main`, reading the arguments and printing lines or the failure (src/main.rs:79-88) are process I/O. The model stops at the `Result` that `get_airings` returns.
- `Error::description` (src/main.rs:22-26) is boilerplate that nothing in the pipeline uses.
- Airings.GetAirings: the oracle `fetch` is a function of the identifier. So an identifier named twice in one batch gets the same answer both times, while the program fetches the page again and may get a different one. For the same reason, `Airings.GetAiringsStopsFetching` says nothing about a later repeat of an identifier that was already fetched.
- Text.Trim: the exact Unicode whitespace set of Rust's `char::is_whitespace` is not modelled. Whitespace is a parameter `isWs`, and every property holds for any such predicate.
- Repeating a run against unchanged pages gives the same output. This holds because every member of the model is a deterministic function of the identifiers and the oracle, so it needs no lemma of its own.
