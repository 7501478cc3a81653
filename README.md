# radar-feeder-tools: the flight-observation ledger, in Dafny

This project models the core of radar-feeder-tools. That tool keeps a
24-hour ledger (`all_aircraft.json`) of the flights an ADS-B feeder saw.
When asked to, it also scans the feeder's snapshot files a second time and
bulk-inserts the observations of that scan (not the ledger) into Postgres.
It covers three parts:

- **`internal/history/history.go`**
  - `ReadHistoricalFiles` scans the dump1090 `history*` snapshot files of a
    data directory into a set of `(Code, When)` observations.
  - `MergeHistoryFiles` unions that set with the ledger, evicts everything
    more than 24 hours older than the newest observation, sorts by
    `(When, Code)` and hands the result to the file write.
  - Both are modelled imperatively: loops over the listing, a map-like set
    that is added to and deleted from, and an in-place sort of an array. Each
    is proved against specification functions (`HistoricalObservations`,
    `Retained`, `IsLedgerOf`, `MergeFailure`).
- **`internal/radarstorage/radarstorage.go`**
  - `UploadToFlyPostgresInstance` builds `insert … values ($1, $2), ($3, $4), … on conflict do nothing;`
    with its argument list, exactly as text, then maps the database outcome
    to the returned error.
- **`cmd/dump1090-history-manager/main.go`**
  - `run()` validates `--data_dir`, merges, and when `--postgres_upload` is
    set, reads the snapshots again and runs the upload loop of at most three
    iterations.
  - The model records the externally visible steps of a run (`Merge`,
    `ReadHistory`, `Connect(i)`, `Upload(i)`) and the error it ends with.

Modules:

- `Wrappers` holds `Option` and `Result`.
- `Observations` holds `FlightObservation`, the `(When, Code)` ledger order
  and the uniqueness of a sorted ledger.
- `History`, `RadarStorage` and `HistoryManager` are one module per source
  file.

The environment is passed in as plain data:

- The file system: a data directory is `DirMissing`, `DirUnreadable` or a
  listing of `(name, read/parse outcome)`. The ledger file is `LedgerAbsent`,
  `LedgerUnreadable`, `LedgerCorrupt` or `LedgerStored(observations)`.
  Creating the output directory and writing the ledger are boolean outcomes.
- The database: the outcome of `sql.Open` and of `ExecContext`/`RowsAffected`
  for each attempt.
- RFC 3339 formatting of a Unix second: a function parameter.

The order in which a Go map hands out its keys is unspecified. It is modelled
by arbitrary choice (`:|`), and every result is proved for every such order.

The retry test on `main.go:57` examines `err`, the error of `sql.Open`. That
value is nil at that point, so a failed upload is never retried. `Run` and
`UploadWithRetries` take the examined variable as a parameter `RetryTest`:

- `StaleOpenError` is the code as written.
- `CurrentUploadError` is the evident intent: retry when the upload itself
  failed with a connection reset.

See "## Findings" for this discrepancy.

## Model

| member | source | states |
|---|---|---|
| History.ReadHistoricalFiles | internal/history/history.go:103-138 | The scan returns exactly `HistoricalObservations(dir)`: a missing directory gives an empty result and no error; an unreadable one gives the read-dir error; otherwise the listing is scanned in order, first error wins |
| History.ScanMembers | internal/history/history.go:112-135 | A successful scan contains an observation iff some entry named `history*` holds a snapshot with non-zero `now`, an aircraft with that non-empty flight, and `When == floor(now)` of that same file |
| History.EntryMembers | internal/history/history.go:113-135 | One entry contributes exactly the observations `Contributes` describes: nothing for non-history names, zero `now`, or empty flights |
| History.SightingsMembers | internal/history/history.go:128-135 | A snapshot's aircraft list yields `(flight, when)` iff that non-empty flight is in the list |
| History.ScanFailsFast | internal/history/history.go:112-123 | The scan fails iff some entry fails to read or decode; the error is that of the first failing entry, which is a `history*` file, and every entry before it succeeded (a read error names that file, a decode error names none) |
| History.ScanFailurePersists | internal/history/history.go:116-123 | Once a prefix of the listing fails, the whole scan returns that error: no partial result |
| History.MergeHistoryFiles | internal/history/history.go:34-97 | The error is the first failing step in order (output dir, ledger read, ledger decode, data scan, ledger write); the ledger is handed to the write iff the first four succeed, and then it is strictly sorted by (When, Code) with exactly the retained observations of ledger ∪ fresh (an absent ledger counting as empty) |
| History.LoadLedger | internal/history/history.go:52-55 | The map built from the ledger holds exactly the ledger's observations, duplicates collapsed |
| History.AddObservations | internal/history/history.go:62-64 | After the insertions the map is exactly ledger ∪ fresh |
| History.Prune | internal/history/history.go:66-82 | The deletions leave exactly `Retained(all)`, with the cutoff computed from the newest second (and `math.MinInt64` for an empty map) |
| History.RetainedByCutoff | internal/history/history.go:66-82 | With `latest` the newest second, an observation is kept iff `When >= latest - 86400`, so one exactly at the cutoff survives, and the newest ones are always kept |
| History.RetainedIdempotent | internal/history/history.go:66-82 | Pruning an already pruned set removes nothing |
| History.LatestExists | internal/history/history.go:67-75 | A non-empty set has a newest second, attained by one of its members |
| History.Keys | internal/history/history.go:67 | `maps.Keys` lists every key exactly once, in some order |
| History.LatestWhen | internal/history/history.go:68-75 | The `MaxFunc` by `When` returns a second attained by some key and not exceeded by any |
| History.IndexOfEarliest | internal/history/history.go:86-88 | Returns a position in the unsorted suffix holding an observation not after any other there under the (When, Code) comparator |
| History.SortObservations | internal/history/history.go:85-88 | The in-place sort leaves the array ordered by (When, Code) and a permutation of its input |
| History.SortedLedger | internal/history/history.go:84-88 | The written sequence is strictly increasing under (When, Code) and holds exactly the retained keys |
| History.RemergeIsIdentity | internal/history/history.go:52-88 | Merging the produced ledger again, when the second scan brings no observation the first merge did not already hold (in particular the same unchanged data directory read again), writes the identical sequence |
| Observations.LedgerUnique | internal/history/history.go:85-88 | Two strictly sorted sequences with the same elements are equal, so the written ledger does not depend on map iteration order |
| Observations.LedgerLength | internal/history/history.go:85-88 | The written ledger has one entry per retained observation: no duplicates |
| Observations.BeforeTotal | internal/history/history.go:87 | The comparator `cmp.Or(cmp.Compare(When), cmp.Compare(Code))` orders any two distinct observations one way or the other |
| Observations.BeforeTransitive | internal/history/history.go:87 | The comparator's strict order is transitive |
| Observations.CodeLessTransitive | internal/history/history.go:87 | Lexicographic order on codes is transitive |
| RadarStorage.UploadToFlyPostgresInstance | internal/radarstorage/radarstorage.go:18-51 | No flights: nothing executed and no error. Otherwise one `Exec` of `InsertStatement(n)` with the flights' arguments, each flight visited once; the error is the wrapped exec error, else the RowsAffected error, else none |
| RadarStorage.BuildInsert | internal/radarstorage/radarstorage.go:22-40 | The builder loop (counter from 1, step 2), the cut of the trailing ", " and the suffix produce exactly `InsertStatement(n)`, with the arguments `Args(order)` for the visiting order |
| RadarStorage.AppendGroups | internal/radarstorage/radarstorage.go:25-30 | The map loop visits every flight exactly once and leaves the builder holding its initial content followed by one group and ", " per flight, numbered from 1 in steps of 2, with the arguments `Args(order)` |
| RadarStorage.ArgsLayout | internal/radarstorage/radarstorage.go:24-30 | The argument list has `2n` entries, the highest placeholder number; entry `2k` is the k-th flight's code and `2k+1` its formatted time |
| RadarStorage.ValuesListPrefix | internal/radarstorage/radarstorage.go:25-30 | The groups of the first k flights, followed by ", " when more flights come, begin the list for n flights |
| RadarStorage.GroupAt | internal/radarstorage/radarstorage.go:25-28 | The k-th flight (from 0) contributes the group `($2k+1, $2k+2)`, right after the groups of the flights before it and their ", " |
| RadarStorage.InsertStatementShape | internal/radarstorage/radarstorage.go:23-40 | The statement starts with the insert prefix, ends with ` on conflict do nothing;`, its last group is `($2n-1, $2n)` and `)` directly precedes the suffix (no ", " left) |
| RadarStorage.DecimalRoundTrip | internal/radarstorage/radarstorage.go:27 | `%d` of a placeholder number parses back to that number |
| HistoryManager.Run | cmd/dump1090-history-manager/main.go:27-67 | Empty `--data_dir`: error, nothing done. Merge always comes first, and a merge failure ends the run. With upload off a merge success returns nil. Otherwise the snapshots are read again: a read error is returned as is, else the run continues exactly as the upload loop |
| HistoryManager.UploadWithRetries | cmd/dump1090-history-manager/main.go:45-66 | The loop's error and steps are exactly `UploadAttempts(flights, env, test, 0, None)` |
| HistoryManager.AttemptsBounded | cmd/dump1090-history-manager/main.go:46-65 | Whatever the retry test, at most three uploads are made and every attempt number is below three |
| HistoryManager.StaleTestNeverRetries | cmd/dump1090-history-manager/main.go:46-66 | As written, an `sql.Open` error is returned at once without an upload; otherwise exactly one upload is made, its outcome ends the run, and the "failed in 3 tries" error is never returned |
| HistoryManager.ResetNotRetriedAsWritten | cmd/dump1090-history-manager/main.go:55-61 | A connection reset on the first upload ends the run as written, while the corrected test connects again |
| HistoryManager.ResetsRetriedThreeTimes | cmd/dump1090-history-manager/main.go:46-66 | With the corrected test, three resets in a row give exactly three connect/upload pairs and the "failed in 3 tries" error carrying the last upload error |

## Left out

- File system and JSON are not modelled as bytes. `os.MkdirAll`, `os.ReadFile`, `os.ReadDir`, `json.Unmarshal` and `os.WriteFile` are outcomes in the input. `json.MarshalIndent` of a slice of plain structs cannot fail, so its error path is not modelled.
- Error texts are not modelled, only which error occurs. A snapshot that fails to read gives `HistoryFileReadFailed(name)`, since `os.ReadFile`'s error carries the path. A snapshot that fails to decode gives `HistoryFileUnmarshalFailed` with no name, since the wrapped `json.Unmarshal` error names no file. So the code does not report which snapshot was corrupt, unlike the design's promise of a parse error naming the file.
- The ledger write is a plain overwrite (`os.WriteFile`). It is not atomic: a failure part-way can leave a truncated file. The model records only whether the write succeeded. The design intent is a write that never leaves a half-written ledger, and the code does not do that.
- `Now` is a Dafny `real` floored with `.Floor`. IEEE-754 rounding, NaN and infinities are not modelled. A snapshot with `0 < now < 1` yields `When == 0`, as in the code.
- `When` is an unbounded integer. Overflow of `int64` and of Go's `time` arithmetic near its extremes is not modelled. The cutoff is the integer comparison `When < latest - 86400`.
- RFC 3339 formatting is the parameter `formatTime`. Postgres semantics, including `on conflict do nothing`, the context and the connection string, are outside the model.
- Logging (`glog`), `defer db.Close()` and the timing of an upload are not modelled. They do not affect results.
- The stable sort is modelled as a selection sort. That sort is not stable, but the comparator is a strict total order on distinct keys, so any correct sort gives the same sequence (`Observations.LedgerUnique`).
- `cmd/update/main.go` is not part of this model. It is a superseded copy of the scan without retention or sorting.
- `cmd/history-accumulator/main.go` is not part of this model. It only holds flag definitions.
- `internal/testing/history_accumulator_test.go` is not part of this model. It depends on fixture files that are not available.
- Design intent and code disagree on the retry. The intent is to retry a connection reset up to three times. The code retries never (see Findings). The model follows the code, and the corrected behaviour is available as `CurrentUploadError`.

## Findings

| source | as written | input that shows it | evidently intended | confidence | as-written member | corrected member |
|---|---|---|---|---|---|---|
| cmd/dump1090-history-manager/main.go:57 | the retry test examines `err` from `sql.Open`, nil once the connection opened, so a failed upload is never retried and line 66 is unreachable | `sql.Open` succeeds and the first `ExecContext` fails with `ECONNRESET`: the run returns the upload error after one attempt | retry when the upload's own error is a connection reset, up to three attempts, then report the last error | not executed | HistoryManager.ResetNotRetriedAsWritten | HistoryManager.ResetsRetriedThreeTimes |
