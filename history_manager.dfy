/** cmd/dump1090-history-manager/main.go: the control flow of `run()`.
    Flags become a configuration record; the file system, the data directory
    as read by each of the two scans, and the database's answer to each
    connection and upload attempt are an environment record. */
module HistoryManager {
  import opened Wrappers
  import opened Observations
  import opened History
  import opened RadarStorage

  /** `--data_dir` and `--postgres_upload`; `--out_dir` only locates the ledger,
      whose state is part of the environment. */
  datatype Config = Config(dataDir: string, postgresUpload: bool)

  datatype Environment = Environment(
    outDirCreated: bool,
    ledger: LedgerFile,
    dataAtMerge: DataDir,
    ledgerWritten: bool,
    dataAtUpload: DataDir,
    formatTime: int -> string,
    open: nat -> Option<DbError>,
    exec: nat -> ExecOutcome)

  datatype RunError =
    | DataDirRequired
    | MergeFailed(mergeCause: HistoryError)
    | ScanFailed(scanCause: HistoryError)
    | OpenFailed(openCause: DbError)
    | UploadFailed(uploadCause: UploadError)
    | RetriesExhausted(latest: Option<UploadError>)

  /** The externally visible steps of a run, in order. */
  datatype Step = Merge | ReadHistory | Connect(attempt: nat) | Upload(attempt: nat)

  /** Which error the retry test looks at: the code tests the error left by
      `sql.Open` (nil once the connection opened); the evident intent is the
      error of the upload just made. */
  datatype RetryTest = StaleOpenError | CurrentUploadError

  const MaxAttempts: nat := 3

  /** `errors.Is(…, unix.ECONNRESET)` on the variable the test examines. */
  predicate Retries(test: RetryTest, openErr: Option<DbError>, uploadErr: UploadError)
  {
    match test
    case StaleOpenError => openErr == Some(ConnectionReset)
    case CurrentUploadError => uploadErr.cause == ConnectionReset
  }

  /** The error the merge step returns in this environment, if any. */
  function MergeOutcome(env: Environment): Option<HistoryError>
  {
    MergeFailure(env.outDirCreated, env.ledger, env.dataAtMerge, env.ledgerWritten)
  }

  /** The run gets past the merge with uploading enabled. */
  predicate ReachesUpload(cfg: Config, env: Environment)
  {
    cfg.dataDir != [] && MergeOutcome(env).None? && cfg.postgresUpload
  }

  /** The retry loop from attempt `retry` on, `latest` being the last upload
      error: the error it ends with and the steps it takes. */
  function UploadAttempts(flights: set<FlightObservation>, env: Environment, test: RetryTest, retry: nat, latest: Option<UploadError>)
    : (Option<RunError>, seq<Step>)
    decreases MaxAttempts - retry
  {
    if retry >= MaxAttempts then (Some(RetriesExhausted(latest)), [])
    else
      match env.open(retry)
      case Some(e) => (Some(OpenFailed(e)), [Connect(retry)])
      case None =>
        match UploadFailure(flights, env.exec(retry))
        case None => (None, [Connect(retry), Upload(retry)])
        case Some(e) =>
          if Retries(test, None, e) then
            var rest := UploadAttempts(flights, env, test, retry + 1, Some(e));
            (rest.0, [Connect(retry), Upload(retry)] + rest.1)
          else
            (Some(UploadFailed(e)), [Connect(retry), Upload(retry)])
  }

  /** A retried attempt adds its connect and upload to whatever the later
      attempts do. */
  lemma RetriedAttempt(flights: set<FlightObservation>, env: Environment, test: RetryTest, retry: nat,
    latest: Option<UploadError>, steps: seq<Step>)
    requires retry < MaxAttempts && env.open(retry).None?
    requires UploadFailure(flights, env.exec(retry)).Some?
    requires Retries(test, None, UploadFailure(flights, env.exec(retry)).value)
    ensures var rest := UploadAttempts(flights, env, test, retry + 1, UploadFailure(flights, env.exec(retry)));
      && UploadAttempts(flights, env, test, retry, latest).0 == rest.0
      && steps + UploadAttempts(flights, env, test, retry, latest).1 == (steps + [Connect(retry), Upload(retry)]) + rest.1
  {
  }

  function CountUploads(steps: seq<Step>): nat
  {
    if steps == [] then 0
    else CountUploads(steps[..|steps| - 1]) + (if steps[|steps| - 1].Upload? then 1 else 0)
  }

  lemma CountUploadsAppend(a: seq<Step>, b: seq<Step>)
    ensures CountUploads(a + b) == CountUploads(a) + CountUploads(b)
    decreases |b|
  {
    if b != [] {
      var n := |b| - 1;
      assert (a + b)[..|a + b| - 1] == a + b[..n];
      assert (a + b)[|a + b| - 1] == b[n];
      CountUploadsAppend(a, b[..n]);
    } else {
      assert a + b == a;
    }
  }

  /** Whatever the retry test, the loop makes at most one upload per
      remaining attempt of the three, and every attempt it makes is numbered
      below three. */
  lemma {:induction false} AttemptsBounded(flights: set<FlightObservation>, env: Environment, test: RetryTest, retry: nat, latest: Option<UploadError>)
    requires retry <= MaxAttempts
    ensures var steps := UploadAttempts(flights, env, test, retry, latest).1;
      && CountUploads(steps) <= MaxAttempts - retry
      && forall s :: s in steps ==> (s.Connect? || s.Upload?) && s.attempt < MaxAttempts
    decreases MaxAttempts - retry
  {
    assert CountUploads([Connect(retry)]) == 0 by {
      assert [Connect(retry)][..0] == [];
    }
    if retry < MaxAttempts && env.open(retry).None? {
      var e := UploadFailure(flights, env.exec(retry));
      var head := [Connect(retry), Upload(retry)];
      assert CountUploads(head) == 1 by {
        assert head[..1] == [Connect(retry)];
      }
      var steps := UploadAttempts(flights, env, test, retry, latest).1;
      if e.Some? && Retries(test, None, e.value) {
        var rest := UploadAttempts(flights, env, test, retry + 1, e);
        AttemptsBounded(flights, env, test, retry + 1, e);
        CountUploadsAppend(head, rest.1);
      }
    }
  }

  /** As written, a failed upload is never retried: the outcome is decided
      by the first attempt, at most one upload is made, and the
      "failed in 3 tries" error is never returned. */
  lemma StaleTestNeverRetries(flights: set<FlightObservation>, env: Environment)
    ensures var (r, steps) := UploadAttempts(flights, env, StaleOpenError, 0, None);
      && (env.open(0).Some? ==> r == Some(OpenFailed(env.open(0).value)) && steps == [Connect(0)])
      && (env.open(0).None? ==>
            steps == [Connect(0), Upload(0)]
            && r == (match UploadFailure(flights, env.exec(0))
                     case None => None
                     case Some(e) => Some(UploadFailed(e))))
      && !(r.Some? && r.value.RetriesExhausted?)
  {
  }

  /** The discrepancy: a connection reset on the first upload ends the run as
      written, while retrying on the upload's own error tries again. */
  lemma ResetNotRetriedAsWritten(flights: set<FlightObservation>, env: Environment)
    requires flights != {}
    requires env.open(0).None? && env.exec(0) == ExecFailed(ConnectionReset)
    ensures UploadAttempts(flights, env, StaleOpenError, 0, None)
      == (Some(UploadFailed(ExecError(ConnectionReset))), [Connect(0), Upload(0)])
    ensures UploadAttempts(flights, env, CurrentUploadError, 0, None).1[..3]
      == [Connect(0), Upload(0), Connect(1)]
  {
  }

  /** Retrying on the upload's own error: three connection resets in a row
      end the run with the "failed in 3 tries" error carrying the last one,
      after exactly three uploads. */
  lemma ResetsRetriedThreeTimes(flights: set<FlightObservation>, env: Environment)
    requires forall k :: 0 <= k < MaxAttempts ==> env.open(k).None?
    requires forall k :: 0 <= k < MaxAttempts ==>
      UploadFailure(flights, env.exec(k)).Some? && UploadFailure(flights, env.exec(k)).value.cause == ConnectionReset
    ensures UploadAttempts(flights, env, CurrentUploadError, 0, None)
      == (Some(RetriesExhausted(UploadFailure(flights, env.exec(2)))),
          [Connect(0), Upload(0), Connect(1), Upload(1), Connect(2), Upload(2)])
  {
    var failed := k => UploadFailure(flights, env.exec(k));
    var exhausted := Some(RetriesExhausted(failed(2)));
    assert env.open(2).None? && failed(2).Some?;
    var last := UploadAttempts(flights, env, CurrentUploadError, 2, failed(1));
    assert last.0 == exhausted;
    assert last.1 == [Connect(2), Upload(2)] + [] == [Connect(2), Upload(2)];
    assert env.open(1).None? && failed(1).Some?;
    var middle := UploadAttempts(flights, env, CurrentUploadError, 1, failed(0));
    assert middle.0 == exhausted;
    assert middle.1 == [Connect(1), Upload(1)] + last.1 == [Connect(1), Upload(1), Connect(2), Upload(2)];
    assert env.open(0).None? && failed(0).Some?;
    var first := UploadAttempts(flights, env, CurrentUploadError, 0, None);
    assert first.0 == exhausted;
    assert first.1 == [Connect(0), Upload(0)] + middle.1
      == [Connect(0), Upload(0), Connect(1), Upload(1), Connect(2), Upload(2)];
  }

  /** Lines 45-66 of run(): up to three iterations, each opening a connection
      and uploading; a failed upload is retried when the retry test says so.
      With `StaleOpenError` the test examines `err`, the error of `sql.Open`,
      which is nil at that point, as the code does; with `CurrentUploadError`
      it examines the upload's own error. */
  method UploadWithRetries(flights: set<FlightObservation>, env: Environment, test: RetryTest)
    returns (r: Option<RunError>, steps: seq<Step>)
    ensures (r, steps) == UploadAttempts(flights, env, test, 0, None)
  {
    steps := [];
    var errUpload: Option<UploadError> := None;
    ghost var outcome := UploadAttempts(flights, env, test, 0, None);
    assert [] + outcome.1 == outcome.1;
    for retry := 0 to MaxAttempts
      invariant outcome.0 == UploadAttempts(flights, env, test, retry, errUpload).0
      invariant outcome.1 == steps + UploadAttempts(flights, env, test, retry, errUpload).1
    {
      ghost var errBefore, stepsBefore := errUpload, steps;
      var err := env.open(retry);
      if err.Some? {
        return Some(OpenFailed(err.value)), steps + [Connect(retry)];
      }
      var upload;
      ghost var order;
      upload, order := UploadToFlyPostgresInstance(flights, env.formatTime, env.exec(retry));
      steps := steps + [Connect(retry), Upload(retry)];
      errUpload := upload.err;
      if errUpload.Some? {
        if Retries(test, err, errUpload.value) {
          RetriedAttempt(flights, env, test, retry, errBefore, stepsBefore);
          continue;
        }
        return Some(UploadFailed(errUpload.value)), steps;
      }
      return None, steps;
    }
    assert steps + [] == steps;
    return Some(RetriesExhausted(errUpload)), steps;
  }

  /** run(): validates `--data_dir`, merges, and, when uploading is enabled,
      reads the snapshots again and runs the upload loop. `Run(cfg, env,
      StaleOpenError)` is the code as written. */
  method Run(cfg: Config, env: Environment, test: RetryTest) returns (r: Option<RunError>, trace: seq<Step>)
    ensures cfg.dataDir == [] ==> r == Some(DataDirRequired) && trace == []
    ensures cfg.dataDir != [] ==> |trace| >= 1 && trace[0] == Merge
    ensures cfg.dataDir != [] && MergeOutcome(env).Some? ==>
      r == Some(MergeFailed(MergeOutcome(env).value)) && trace == [Merge]
    ensures cfg.dataDir != [] && MergeOutcome(env).None? && !cfg.postgresUpload ==>
      r == None && trace == [Merge]
    ensures ReachesUpload(cfg, env) ==> |trace| >= 2 && trace[..2] == [Merge, ReadHistory]
    ensures ReachesUpload(cfg, env) && HistoricalObservations(env.dataAtUpload).Failure? ==>
      r == Some(ScanFailed(HistoricalObservations(env.dataAtUpload).error)) && trace == [Merge, ReadHistory]
    ensures ReachesUpload(cfg, env) && HistoricalObservations(env.dataAtUpload).Success? ==>
      (r, trace[2..]) == UploadAttempts(HistoricalObservations(env.dataAtUpload).value, env, test, 0, None)
  {
    if |cfg.dataDir| == 0 {
      return Some(DataDirRequired), [];
    }
    var merged := MergeHistoryFiles(env.outDirCreated, env.ledger, env.dataAtMerge, env.ledgerWritten);
    if merged.err.Some? {
      return Some(MergeFailed(merged.err.value)), [Merge];
    }
    if !cfg.postgresUpload {
      return None, [Merge];
    }
    var flights := ReadHistoricalFiles(env.dataAtUpload);
    if flights.Failure? {
      return Some(ScanFailed(flights.error)), [Merge, ReadHistory];
    }
    var steps;
    r, steps := UploadWithRetries(flights.value, env, test);
    trace := [Merge, ReadHistory] + steps;
    assert trace[2..] == steps;
  }
}
