# rtl-trino-analysis: the record pipeline in Dafny

This project models the pure core of `rtl-trino-analysis`, a tool that pulls
CloudFront real-time log rows out of Trino, enriches them and counts them.
It covers three parts:

- **The `fetch` command's transformer and row loop.** `processRecord` turns one
  query row (`fetch.Entry`) into an `rtl.Record`. It strips the first `.` from
  the timestamp and reads the rest as base-10 int64 epoch milliseconds. It reads
  year, month and day with `Atoi`. It then enriches the client address with
  geolocation data and parses the user agent, and copies every other column
  verbatim. `runFetch` folds `processRecord` over the rows in order and stops at
  the first failure, before anything is written.
- **The geolocation service.** `Lookup` decodes the database's answer for an
  address into a zero-valued `Record` and projects it into `GeoIPData`. The city
  is the `"en"` name, and the subdivision ISO codes are joined with `;`. `New`
  rejects an empty database path before it opens anything.
- **The `stats` command's counting loop.** It builds a map from each client
  address string to the number of records carrying it.

Modules:

| file | module | contents |
|---|---|---|
| wrappers.dfy | `Wrappers` | `Option` and `Result` with `:-` support |
| gotypes.dfy | `GoTypes` | Go's fixed-width integer ranges; `float64` as an opaque bit pattern |
| strconv.dfy | `Strconv` | `strconv.ParseInt(s, 10, 64)` and `strconv.Atoi`, following the library's control flow, proved against a reference decimal grammar |
| strings.dfy | `Strings` | `strings.Replace(..., 1)`, `strings.Join`, and `strings.Split` as Join's inverse |
| fetch.dfy | `Fetch` | the query row `Entry` |
| geoip.dfy | `GeoIP` | `Record`, `GeoIPData`, `Lookup`, `New`, `SetGeoDB` |
| useragent.dfy | `UserAgent` | `useragent.Record` and `Parse` |
| rtl.dfy | `Rtl` | the enriched `rtl.Record` |
| fetchcmd.dfy | `FetchCmd` | `processRecord`, and the `runFetch` row loop as a fold and as a loop |
| statscmd.dfy | `StatsCmd` | the count map, generic in its key, and `getStats` |

Collaborators the model cannot see are parameters:

- the MaxMind reader, as `GeoIP.Database`: an address to an error or to the fields the database holds;
- `maxminddb.Open`;
- `net.ParseIP` and `IP.String()`;
- the uap-go rules table and its classifier.

Two behaviours of the source worth stating plainly:

- `useragent.Parse` reloads its rules table on every call and returns an error
  when loading fails (pkg/useragent/useragent.go:26-29); `UserAgent.Parse`
  models that failure.
- `strconv.ParseInt` accepts a leading `+` or `-`, so the timestamp `"-5.0"`
  denotes -50 ms and is not an error.

## Model

| member | source | states |
|---|---|---|
| FetchCmd.ProcessRecordSpec | cmd/fetch.go:126-190 | A row becomes a record exactly when the dot-stripped timestamp and the year, month and day columns are each decimal int64 text, the database answers for the parsed address, and the user-agent rules load. The record then carries those decimal values, the lookup result, the parser result, and an empty `ClientIPAddr` (never assigned). (about `FetchCmd.ProcessRecord`) |
| FetchCmd.ProcessRecordErrorOrder | cmd/fetch.go:128-156 | The first failing step decides the error, in the order timestamp, year, month, day, geolocation, user agent. (about `FetchCmd.ProcessRecord`) |
| FetchCmd.ProcessRecordParsesBeforeEnriching | cmd/fetch.go:128-151 | A row with an unparsable timestamp or date fails with a parse error that is the same whatever the database and the user-agent rules would answer. (about `FetchCmd.ProcessRecord`) |
| FetchCmd.ProcessRecordRestoresEntry | cmd/fetch.go:158-189 | Every scalar column is copied to the same-named record field. The record, plus the timestamp, address and date texts, rebuilds the row exactly; the user-agent text survives as `Raw`. (about `FetchCmd.ProcessRecord`) |
| FetchCmd.ParseTimestampSpec | cmd/fetch.go:128-132 | The timestamp is accepted exactly when its first-dot-stripped text is decimal int64 text, and its milliseconds are that value. Every error names ParseInt and the stripped text. Decimal text outside int64 is a range error. (about `FetchCmd.ParseTimestamp`) |
| FetchCmd.StripPoint | cmd/fetch.go:128 | Seconds with no point, then a point, then a fraction lose exactly that point. (about `FetchCmd.TimestampDigits`) |
| FetchCmd.TimestampFraction | cmd/fetch.go:128-132 | Seconds and a fraction of any width read as one number, seconds·10^width + fraction, not scaled to milliseconds. (about `FetchCmd.ParseTimestamp`) |
| FetchCmd.TimestampExample | cmd/fetch.go:128-132 | "1645564800.123" is the instant 1645564800123 ms. (about `FetchCmd.ParseTimestamp`) |
| FetchCmd.TimestampShortFraction | cmd/fetch.go:128-132 | "1645564800.5" is 16455648005 ms, not 1645564800500. (about `FetchCmd.ParseTimestamp`) |
| FetchCmd.TimestampWithoutPoint | cmd/fetch.go:128-132 | "1645564800" is read whole as 1645564800 ms, with no error. (about `FetchCmd.ParseTimestamp`) |
| FetchCmd.PointNotAccepted | cmd/fetch.go:128 | Text that still contains a point is never accepted as a number. (about `FetchCmd.Accepted`) |
| FetchCmd.TimestampTwoPoints | cmd/fetch.go:128-131 | Only the first point is removed, so any timestamp with two or more points fails. (about `FetchCmd.ParseTimestamp`) |
| FetchCmd.TimestampInnerPoint | cmd/fetch.go:128-131 | "1.2.3" becomes "12.3" and fails as a ParseInt syntax error on "12.3". (about `FetchCmd.ParseTimestamp`) |
| FetchCmd.TimestampNotNumeric | cmd/fetch.go:128-131 | A timestamp of at most 19 characters with no point that is not decimal text (for example "" or "abc") is a ParseInt syntax error on that text. (about `FetchCmd.ParseTimestamp`) |
| FetchCmd.DateExamples | cmd/fetch.go:135-146 | There is no calendar range check: month "13" is accepted. "" and "Feb" are errors. (about `Strconv.Atoi`) |
| FetchCmd.Collect | cmd/fetch.go:92-111 | The batch succeeds exactly when every row does, with one record per row in row order. Otherwise it fails with the error of the first failing row. |
| FetchCmd.RunFetch | cmd/fetch.go:92-119 | The row loop builds the same result as the fold: the full ordered batch handed to `writeData`, or the first failing row's error, returned before `writeData`. |
| FetchCmd.CollectStopsAtFailure | cmd/fetch.go:104-107 | Rows after the first failure are never processed: appending rows to a failing prefix leaves the result unchanged. (about `FetchCmd.Collect`) |
| FetchCmd.CollectAppend | cmd/fetch.go:95-111 | After a prefix that succeeds, the batch for the longer input succeeds exactly when the suffix's batch does, and is the two batches concatenated. (about `FetchCmd.Collect`) |
| FetchCmd.BatchClientIPAddrEmpty | cmd/fetch.go:158-189 | No record of a successful batch has `ClientIPAddr` set. (about `FetchCmd.Batch`) |
| Strconv.ParseIntSpec | cmd/fetch.go:128 | `ParseInt(s, 10, 64)` succeeds exactly on an optionally signed digit string whose value fits in int64, and returns that value. Every error names ParseInt and `s`. In-grammar text out of range is ErrRange; short malformed text is ErrSyntax. (about `Strconv.ParseInt`) |
| Strconv.ParseUintSpec | cmd/fetch.go:128 | The unsigned scan succeeds exactly on a non-empty digit string whose value fits in uint64. An all-digit string too large for uint64 is a range error; malformed text of at most 19 characters is a syntax error. (about `Strconv.ParseUint`) |
| Strconv.ScanDigitsSpec | cmd/fetch.go:128 | The digit scan, started with the value of a prefix in its accumulator, reaches the value of the whole string, or detects overflow or a non-digit. (about `Strconv.ScanDigits`) |
| Strconv.AtoiIsParseInt | cmd/fetch.go:135-146 | `Atoi`'s fast path for short input agrees with `ParseInt`: same outcome, same value, and the same error relabelled "Atoi". (about `Strconv.Atoi`) |
| Strconv.AtoiSpec | cmd/fetch.go:135-146 | `Atoi` succeeds exactly on optionally signed decimal int64 text, and returns its value. Every error names Atoi and the input. (about `Strconv.Atoi`) |
| Strconv.DigitsValueConcat | cmd/fetch.go:128 | Digits written after digits shift the first group left by the second group's length. (about `Strconv.DigitsValue`) |
| Strings.ReplaceFirst | cmd/fetch.go:128 | Only the first occurrence of the character is replaced; text without it is unchanged. |
| Strings.SplitJoin | pkg/geoip/geoip.go:127 | Splitting a join on the separator gives back the parts, if there is at least one and none contains the separator. (about `Strings.Join` and `Strings.Split`) |
| Strings.JoinSplit | pkg/geoip/geoip.go:127 | Joining the pieces of a split gives back the text. (about `Strings.Join` and `Strings.Split`) |
| UserAgent.Parse | pkg/useragent/useragent.go:25-47 | Parsing fails exactly when the rules table fails to load, with that error. On success `Raw` is the line and the other fields regroup into the classifier's answer. |
| GeoIP.Lookup | pkg/geoip/geoip.go:104-129 | The lookup fails exactly when the database does, with its error. On success the returned address is the queried one. |
| GeoIP.LookupFields | pkg/geoip/geoip.go:117-127 | City is the "en" name or "". Continent, country, coordinates, metro code, time zone and postal code are the database's values or their zero values. An answer with no subdivisions, absent or an empty list, gives "". (about `GeoIP.Lookup` and `GeoIP.Decode`) |
| GeoIP.LookupNotFound | pkg/geoip/geoip.go:105-128 | An address the database does not hold is not an error: every field is empty or zero and only the address is filled in. (about `GeoIP.Lookup` and `GeoIP.Decode`) |
| GeoIP.SubdivisionCodes | pkg/geoip/geoip.go:112-115 | The collected codes are the subdivisions' ISO codes, in source order. |
| GeoIP.LookupSubdivisionsRoundTrip | pkg/geoip/geoip.go:112-127 | For at least one code and none containing ';', splitting `Subdivision` on ';' gives back exactly the database's codes in order, "" for an entry without a code. (about `GeoIP.Lookup`) |
| GeoIP.ApplyOptionsLastWins | pkg/geoip/geoip.go:73-75 | The options are applied in order, so the last `SetGeoDB` decides the path. (about `GeoIP.ApplyOptions`) |
| GeoIP.New | pkg/geoip/geoip.go:69-89 | An empty path is rejected with "geodb is required". Otherwise the configuration holds the path and the opened database, or a failed open ends the process. |
| GeoIP.NewEmptyPath | pkg/geoip/geoip.go:77-80 | With no path, or an empty last one, `New` is rejected whatever the open would have done: no open is attempted. (about `GeoIP.New`) |
| StatsCmd.CountMap | cmd/stats.go:76-79 | A key is in the map exactly when some record carries it, and maps to the number of records carrying it. |
| StatsCmd.CountMapSum | cmd/stats.go:74-79 | The counts add up to the number of records. (about `StatsCmd.CountMap`) |
| StatsCmd.CountMapKeys | cmd/stats.go:76-79 | The keys are exactly the keys that occur, every count is at least 1, and an empty batch gives an empty map. (about `StatsCmd.CountMap`) |
| StatsCmd.CountMapPermutation | cmd/stats.go:77-79 | Reordering the records does not change the map. (about `StatsCmd.CountMap`) |
| StatsCmd.CountBy | cmd/stats.go:76-79 | The counting loop builds the count map, and its counts sum to the number of records. |
| StatsCmd.GetStats | cmd/stats.go:76-79 | Keyed by the enriched address's text: the keys are the addresses that occur, each count is the number of records at that address and is at least 1, and the counts sum to the number of records. |
| StatsCmd.ThreeAndOne | cmd/stats.go:77-79 | Three records under one key and one under another give the map {first: 3, second: 1}. (about `StatsCmd.CountMap`) |
| StatsCmd.StatsExample | cmd/stats.go:78 | Three records at 1.2.3.4 and one at 5.6.7.8 give {1.2.3.4: 3, 5.6.7.8: 1}. (about `StatsCmd.CountMap`) |
| StatsCmd.CountMapUniform | cmd/stats.go:77-79 | Records that all carry one key are counted under that key alone. (about `StatsCmd.CountMap`) |
| StatsCmd.ClientIPAddrKeyCollapses | cmd/fetch.go:158-189 | Keyed by the never-assigned `ClientIPAddr` instead, every record would fall under "". That is why the count keys on `ClientIP.IP`. (about `StatsCmd.CountMap`) |

## Left out

- Trino connection, query and row scan (cmd/fetch.go:75-89, pkg/fetch/fetch.go:90-123): network and SQL plumbing. The rows arrive as a sequence in which each row has either been scanned into an `Entry` or failed to scan with an error. `rows.Err()` is never checked after the loop, so a cursor error that ends iteration early is not seen; the model takes the rows the cursor yielded.
- gob encoding and decoding, and file I/O (cmd/fetch.go:192-213, cmd/stats.go:57-72): a foreign serializer. `writeData` creates the file directly, with no atomic publish, and `getStats` reads `outfile`, not `datafile`. `GetStats` starts from the decoded records.
- MaxMind reader internals, `maxminddb.Open`, `net.ParseIP` and `IP.String()`: these are function parameters. An unparsable address reaches the reader as the nil IP, and the reader's answer for it is whatever the parameter says.
- The uap-go rules and matching: the loaded table is a parameter, and so is the classifier it yields.
- MySQL loader and `push` (pkg/mysql/mysql.go, cmd/push.go), and CLI, configuration, logging and globals (cmd/root.go, cmd/uap.go, cmd/vars.go): not part of the pipeline's logic.
- Floating-point fields (`TimeTaken`, `Latitude`, `Longitude`) are copied, never computed, so they are opaque 64-bit patterns.
- `time.Time` is modelled as integer epoch milliseconds (`time.UnixMilli`). There is no calendar conversion.
- The stats output loop prints in Go's unspecified map order; only the map is modelled.
- `geo.Close` and other resource lifecycle (cmd/fetch.go:121, pkg/geoip/geoip.go:99-101).
- GeoIP.New: `log.Fatal` exits the process. It is modelled as the outcome `Fatal` carrying the open error, not as a process exit.
- Strings are sequences of characters, not bytes. The model assumes Go's `int` is 64 bits wide.
- Strconv.ParseIntSpec: the error kind is pinned down for malformed text of at most 19 characters. Longer malformed text may be reported as a range error by the digit scan, which stops at the first overflow before reaching the bad character; the model keeps that behaviour but the lemma does not name the kind.
- Strings.Split is modelled only as far as `Lookup`'s join needs it: a one-character separator.
