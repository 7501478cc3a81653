/** internal/history/history.go: reading the feeder's snapshot files
    (ReadHistoricalFiles) and rewriting the ledger all_aircraft.json
    (MergeHistoryFiles). The file system and JSON decoding are inputs: a data
    directory is its listing with each file's parse outcome, and the ledger
    file is its read-and-parse outcome. */
module History {
  import opened Wrappers
  import opened Observations

  /** One element of a snapshot's `aircraft` array; a missing `flight` field
      decodes to the empty string. */
  datatype Aircraft = Aircraft(flight: string)

  /** A decoded snapshot file: `now` in fractional Unix seconds. */
  datatype Snapshot = Snapshot(now: real, aircraft: seq<Aircraft>)

  /** What reading and decoding one directory entry gives. */
  datatype FileContent = ReadFailed | Malformed | Parsed(snapshot: Snapshot)

  datatype DirEntry = DirEntry(name: string, content: FileContent)

  /** What listing the data directory gives. */
  datatype DataDir = DirMissing | DirUnreadable | DirListing(entries: seq<DirEntry>)

  /** What reading and decoding all_aircraft.json gives. */
  datatype LedgerFile =
    | LedgerAbsent
    | LedgerUnreadable
    | LedgerCorrupt
    | LedgerStored(observations: seq<FlightObservation>)

  /** The errors the two operations return. A snapshot read error carries the
      file's path, as `os.ReadFile`'s error does; a snapshot decode error does
      not, since `json.Unmarshal` sees only the bytes. */
  datatype HistoryError =
    | OutDirCreateFailed
    | LedgerReadFailed
    | LedgerUnmarshalFailed
    | DataDirReadFailed
    | HistoryFileReadFailed(name: string)
    | HistoryFileUnmarshalFailed
    | LedgerWriteFailed

  /** The ledger handed to the file write, if the merge got that far, and the
      error returned, if any. */
  datatype MergeResult = MergeResult(written: Option<seq<FlightObservation>>, err: Option<HistoryError>)

  const HistoryPrefix: string := "history"

  /** The retention window, 24 hours in seconds. */
  const RetentionSeconds: int := 24 * 60 * 60

  /** `math.MinInt64`, the latest second of an empty ledger. */
  const MinInt64: int := -0x8000_0000_0000_0000

  /** `strings.HasPrefix(name, "history")`. */
  predicate IsHistoryFile(name: string)
  {
    |HistoryPrefix| <= |name| && name[..|HistoryPrefix|] == HistoryPrefix
  }

  // ---------------------------------------------------------------------
  // Reading the snapshot files
  // ---------------------------------------------------------------------

  /** The observations one snapshot's aircraft list yields at second `when`. */
  function Sightings(aircraft: seq<Aircraft>, when: int): set<FlightObservation>
  {
    if aircraft == [] then {}
    else
      var last := aircraft[|aircraft| - 1];
      Sightings(aircraft[..|aircraft| - 1], when)
        + (if last.flight == [] then {} else {FlightObservation(last.flight, when)})
  }

  /** The contribution of one directory entry, or the error that aborts the scan. */
  function EntryObservations(e: DirEntry): Result<set<FlightObservation>, HistoryError>
  {
    if !IsHistoryFile(e.name) then Success({})
    else
      match e.content
      case ReadFailed => Failure(HistoryFileReadFailed(e.name))
      case Malformed => Failure(HistoryFileUnmarshalFailed)
      case Parsed(snap) =>
        if snap.now == 0.0 then Success({})
        else Success(Sightings(snap.aircraft, snap.now.Floor))
  }

  /** The entries in listing order; the first failing entry decides the error. */
  function ScanEntries(entries: seq<DirEntry>): Result<set<FlightObservation>, HistoryError>
  {
    if entries == [] then Success({})
    else
      match ScanEntries(entries[..|entries| - 1])
      case Failure(err) => Failure(err)
      case Success(before) =>
        match EntryObservations(entries[|entries| - 1])
        case Failure(err) => Failure(err)
        case Success(seen) => Success(before + seen)
  }

  /** What ReadHistoricalFiles returns for a data directory; a nil map is
      the empty set. */
  function HistoricalObservations(dir: DataDir): Result<set<FlightObservation>, HistoryError>
  {
    match dir
    case DirMissing => Success({})
    case DirUnreadable => Failure(DataDirReadFailed)
    case DirListing(entries) => ScanEntries(entries)
  }

  /** Entry `e` yields observation `o`: `e` is a history file holding a
      snapshot with a non-zero `now`, `o.When` is that `now` floored, and
      `o.Code` is the non-empty `flight` of one of its aircraft. */
  ghost predicate Contributes(e: DirEntry, o: FlightObservation)
  {
    && IsHistoryFile(e.name)
    && e.content.Parsed?
    && e.content.snapshot.now != 0.0
    && o.when == e.content.snapshot.now.Floor
    && o.code != []
    && Aircraft(o.code) in e.content.snapshot.aircraft
  }

  lemma {:induction false} SightingsMembers(aircraft: seq<Aircraft>, when: int, o: FlightObservation)
    ensures o in Sightings(aircraft, when) <==> o.when == when && o.code != [] && Aircraft(o.code) in aircraft
  {
    if aircraft != [] {
      var init := aircraft[..|aircraft| - 1];
      SightingsMembers(init, when, o);
      assert aircraft == init + [aircraft[|aircraft| - 1]];
    }
  }

  lemma EntryMembers(e: DirEntry, o: FlightObservation)
    requires EntryObservations(e).Success?
    ensures o in EntryObservations(e).value <==> Contributes(e, o)
  {
    if IsHistoryFile(e.name) && e.content.Parsed? && e.content.snapshot.now != 0.0 {
      SightingsMembers(e.content.snapshot.aircraft, e.content.snapshot.now.Floor, o);
    }
  }

  /** A successful scan yields exactly the observations some history file
      contributes: other entries, snapshots whose `now` is zero and aircraft
      without a flight add nothing, and every observation carries a non-empty
      code and the floored `now` of its own file. */
  lemma {:induction false} ScanMembers(entries: seq<DirEntry>, o: FlightObservation)
    requires ScanEntries(entries).Success?
    ensures o in ScanEntries(entries).value <==> exists i :: 0 <= i < |entries| && Contributes(entries[i], o)
  {
    if entries != [] {
      var n := |entries| - 1;
      var init := entries[..n];
      ScanMembers(init, o);
      EntryMembers(entries[n], o);
      if o in ScanEntries(entries).value {
        if o in ScanEntries(init).value {
          var i :| 0 <= i < |init| && Contributes(init[i], o);
          assert entries[i] == init[i];
        }
      }
    }
  }

  lemma ScanExtend(entries: seq<DirEntry>, i: nat, before: set<FlightObservation>)
    requires i < |entries|
    requires ScanEntries(entries[..i]) == Success(before)
    requires EntryObservations(entries[i]).Success?
    ensures ScanEntries(entries[..i + 1]) == Success(before + EntryObservations(entries[i]).value)
  {
    assert entries[..i + 1][..i] == entries[..i];
  }

  /** Once a prefix of the listing fails, the whole scan fails with the same
      error: no partial result is ever returned. */
  lemma {:induction false} ScanFailurePersists(entries: seq<DirEntry>, k: nat)
    requires k <= |entries|
    requires ScanEntries(entries[..k]).Failure?
    ensures ScanEntries(entries) == ScanEntries(entries[..k])
    decreases |entries| - k
  {
    if k < |entries| {
      assert entries[..k + 1][..k] == entries[..k];
      ScanFailurePersists(entries, k + 1);
    } else {
      assert entries[..k] == entries;
    }
  }

  /** The scan fails exactly when some entry fails; the error is that of the
      first failing entry, which is always a history file. */
  lemma {:induction false} ScanFailsFast(entries: seq<DirEntry>)
    ensures ScanEntries(entries).Failure? <==> exists i :: 0 <= i < |entries| && EntryObservations(entries[i]).Failure?
    ensures ScanEntries(entries).Failure? ==>
      exists i :: 0 <= i < |entries|
        && IsHistoryFile(entries[i].name)
        && EntryObservations(entries[i]) == ScanEntries(entries)
        && forall j :: 0 <= j < i ==> EntryObservations(entries[j]).Success?
  {
    if entries != [] {
      var n := |entries| - 1;
      var init := entries[..n];
      ScanFailsFast(init);
      assert forall j :: 0 <= j < n ==> init[j] == entries[j];
      if ScanEntries(init).Success? {
        assert forall j :: 0 <= j < n ==> EntryObservations(entries[j]).Success?;
      }
    }
  }

  // ---------------------------------------------------------------------
  // Retention
  // ---------------------------------------------------------------------

  /** The observations of `all` not older than 24 hours before the latest one.
      Stated without the maximum: `o` is kept iff no observation is more than
      24 hours newer. */
  function Retained(all: set<FlightObservation>): set<FlightObservation>
  {
    set o | o in all && forall p :: p in all ==> p.when - RetentionSeconds <= o.when
  }

  ghost predicate IsLatest(all: set<FlightObservation>, latest: int)
  {
    && (exists o :: o in all && o.when == latest)
    && (forall o :: o in all ==> o.when <= latest)
  }

  lemma {:induction false} LatestExists(all: set<FlightObservation>)
    requires all != {}
    ensures exists latest :: IsLatest(all, latest)
  {
    var x :| x in all;
    var rest := all - {x};
    if rest == {} {
      assert all == {x};
      assert IsLatest(all, x.when);
    } else {
      LatestExists(rest);
      var m :| IsLatest(rest, m);
      if x.when <= m {
        assert IsLatest(all, m);
      } else {
        assert IsLatest(all, x.when);
      }
    }
  }

  /** With `latest` the newest second, an observation is kept iff
      `When >= latest - 86400` (one exactly at the cutoff survives), so the
      newest observations are always kept. */
  lemma RetainedByCutoff(all: set<FlightObservation>, latest: int)
    requires IsLatest(all, latest)
    ensures forall o :: o in Retained(all) <==> o in all && o.when >= latest - RetentionSeconds
    ensures forall o :: o in all && o.when == latest ==> o in Retained(all)
  {
    var newest :| newest in all && newest.when == latest;
    forall o | o in Retained(all)
      ensures o.when >= latest - RetentionSeconds
    {
      assert newest.when - RetentionSeconds <= o.when;
    }
  }

  /** Retention applied to an already retained set changes nothing. */
  lemma RetainedIdempotent(all: set<FlightObservation>)
    ensures Retained(Retained(all)) == Retained(all)
  {
    if all != {} {
      LatestExists(all);
      var latest :| IsLatest(all, latest);
      RetainedByCutoff(all, latest);
      var kept := Retained(all);
      assert IsLatest(kept, latest);
      RetainedByCutoff(kept, latest);
    }
  }

  // ---------------------------------------------------------------------
  // Merging
  // ---------------------------------------------------------------------

  /** The ledger file was either absent (the empty ledger) or decoded. */
  predicate LedgerReadable(ledger: LedgerFile)
  {
    ledger.LedgerAbsent? || ledger.LedgerStored?
  }

  function LedgerContents(ledger: LedgerFile): set<FlightObservation>
    requires LedgerReadable(ledger)
  {
    if ledger.LedgerAbsent? then {} else Elements(ledger.observations)
  }

  /** The error MergeHistoryFiles returns, steps in source order: creating
      the output directory, reading the ledger, decoding it, scanning the data
      directory, writing the ledger back. */
  function MergeFailure(outDirCreated: bool, ledger: LedgerFile, data: DataDir, ledgerWritten: bool): Option<HistoryError>
  {
    if !outDirCreated then Some(OutDirCreateFailed)
    else if ledger.LedgerUnreadable? then Some(LedgerReadFailed)
    else if ledger.LedgerCorrupt? then Some(LedgerUnmarshalFailed)
    else if HistoricalObservations(data).Failure? then Some(HistoricalObservations(data).error)
    else if !ledgerWritten then Some(LedgerWriteFailed)
    else None
  }

  /** Running the merge again on the ledger it wrote, when the data directory
      brings nothing beyond what the first merge saw (the same snapshot files
      read again, some of them gone, or none at all), writes the identical
      ledger. */
  lemma RemergeIsIdentity(ledger: LedgerFile, data: DataDir, out: seq<FlightObservation>,
    data2: DataDir, again: seq<FlightObservation>)
    requires LedgerReadable(ledger) && HistoricalObservations(data).Success?
    requires IsLedgerOf(out, Retained(LedgerContents(ledger) + HistoricalObservations(data).value))
    requires HistoricalObservations(data2).Success?
    requires HistoricalObservations(data2).value <= LedgerContents(ledger) + HistoricalObservations(data).value
    requires IsLedgerOf(again, Retained(LedgerContents(LedgerStored(out)) + HistoricalObservations(data2).value))
    ensures again == out
  {
    var all := LedgerContents(ledger) + HistoricalObservations(data).value;
    var kept := Retained(all);
    var both := kept + HistoricalObservations(data2).value;
    assert LedgerContents(LedgerStored(out)) == kept;
    if all != {} {
      LatestExists(all);
      var latest :| IsLatest(all, latest);
      RetainedByCutoff(all, latest);
      assert IsLatest(both, latest);
      RetainedByCutoff(both, latest);
      assert Retained(both) == kept;
    } else {
      assert both == {};
    }
    LedgerUnique(again, out, kept);
  }

  // ---------------------------------------------------------------------
  // Imperative operations
  // ---------------------------------------------------------------------

  /** `maps.Keys`: the keys of a Go map, each once, in an unspecified order. */
  method Keys(s: set<FlightObservation>) returns (keys: seq<FlightObservation>)
    ensures Distinct(keys) && Elements(keys) == s && |keys| == |s|
  {
    keys := [];
    var rest := s;
    while rest != {}
      invariant Distinct(keys)
      invariant Elements(keys) + rest == s && Elements(keys) !! rest
      invariant |keys| + |rest| == |s|
      decreases rest
    {
      var k :| k in rest;
      keys := keys + [k];
      rest := rest - {k};
    }
  }

  /** `slices.MaxFunc` by `When`, of which only the `When` is used. */
  method LatestWhen(keys: seq<FlightObservation>) returns (latest: int)
    requires keys != []
    ensures IsLatest(Elements(keys), latest)
  {
    latest := keys[0].when;
    for i := 1 to |keys|
      invariant exists k :: 0 <= k < i && keys[k].when == latest
      invariant forall k :: 0 <= k < i ==> keys[k].when <= latest
    {
      if keys[i].when > latest {
        latest := keys[i].when;
      }
    }
    assert forall o :: o in Elements(keys) ==> exists k :: 0 <= k < |keys| && keys[k] == o;
  }

  /** ReadHistoricalFiles: scans the listing, skipping entries that are not
      history files, snapshots with a zero `now` and aircraft without a flight,
      and collects (flight, floor(now)) pairs into a set. */
  method ReadHistoricalFiles(dir: DataDir) returns (r: Result<set<FlightObservation>, HistoryError>)
    ensures r == HistoricalObservations(dir)
  {
    if dir.DirMissing? {
      return Success({});
    }
    if dir.DirUnreadable? {
      return Failure(DataDirReadFailed);
    }
    var entries := dir.entries;
    var allAircraft: set<FlightObservation> := {};
    for i := 0 to |entries|
      invariant ScanEntries(entries[..i]) == Success(allAircraft)
    {
      var e := entries[i];
      if !IsHistoryFile(e.name) {
        ScanExtend(entries, i, allAircraft);
        assert EntryObservations(e) == Success({});
        assert allAircraft + {} == allAircraft;
        continue;
      }
      match e.content {
        case ReadFailed =>
          assert entries[..i + 1][..i] == entries[..i];
          ScanFailurePersists(entries, i + 1);
          return Failure(HistoryFileReadFailed(e.name));
        case Malformed =>
          assert entries[..i + 1][..i] == entries[..i];
          ScanFailurePersists(entries, i + 1);
          return Failure(HistoryFileUnmarshalFailed);
        case Parsed(snap) =>
          if snap.now == 0.0 {
            ScanExtend(entries, i, allAircraft);
            assert EntryObservations(e) == Success({});
            assert allAircraft + {} == allAircraft;
            continue;
          }
          var when := snap.now.Floor;
          ghost var before := allAircraft;
          ScanExtend(entries, i, before);
          for j := 0 to |snap.aircraft|
            invariant allAircraft == before + Sightings(snap.aircraft[..j], when)
          {
            assert snap.aircraft[..j + 1][..j] == snap.aircraft[..j];
            var a := snap.aircraft[j];
            if |a.flight| == 0 {
              continue;
            }
            allAircraft := allAircraft + {FlightObservation(a.flight, when)};
          }
          assert snap.aircraft[..|snap.aircraft|] == snap.aircraft;
          assert EntryObservations(e) == Success(Sightings(snap.aircraft, when));
          assert ScanEntries(entries[..i + 1]) == Success(allAircraft);
      }
    }
    assert entries[..|entries|] == entries;
    return Success(allAircraft);
  }

  /** The earliest observation of `a[lo..]` under the ledger order. */
  method IndexOfEarliest(a: array<FlightObservation>, lo: nat) returns (m: nat)
    requires lo < a.Length
    ensures lo <= m < a.Length
    ensures forall q :: lo <= q < a.Length ==> NotAfter(a[m], a[q])
  {
    m := lo;
    BeforeIrreflexive(a[lo]);
    for j := lo + 1 to a.Length
      invariant lo <= m < j
      invariant forall q :: lo <= q < j ==> NotAfter(a[m], a[q])
    {
      if Before(a[j], a[m]) {
        forall q | lo <= q < j
          ensures NotAfter(a[j], a[q])
        {
          if Before(a[q], a[j]) {
            BeforeTransitive(a[q], a[j], a[m]);
          }
        }
        BeforeIrreflexive(a[j]);
        m := j;
      }
    }
  }

  /** The selection sort's invariant after `i` rounds: the first `i` positions
      are in order and none of them comes after anything in the rest. */
  ghost predicate SortedUpTo(s: seq<FlightObservation>, i: nat)
  {
    && (forall p, q :: 0 <= p < q < i && q < |s| ==> NotAfter(s[p], s[q]))
    && (forall p, q :: 0 <= p < i <= q < |s| ==> NotAfter(s[p], s[q]))
  }

  /** Swapping the earliest element of the rest into position `i` extends the
      sorted prefix by one and keeps the elements. */
  lemma SwapStep(s: seq<FlightObservation>, i: nat, m: nat)
    requires i <= m < |s|
    requires SortedUpTo(s, i)
    requires forall q :: i <= q < |s| ==> NotAfter(s[m], s[q])
    ensures SortedUpTo(s[i := s[m]][m := s[i]], i + 1)
    ensures multiset(s[i := s[m]][m := s[i]]) == multiset(s)
  {
    var t := s[i := s[m]][m := s[i]];
    forall p, q | 0 <= p < i + 1 <= q < |t|
      ensures NotAfter(t[p], t[q])
    {
      if p < i {
        assert t[p] == s[p];
        assert t[q] == s[q] || t[q] == s[i];
      } else {
        assert t[q] == s[q] || t[q] == s[i];
      }
    }
  }

  /** `slices.SortStableFunc` with the (When, Code) comparator, in place. */
  method SortObservations(a: array<FlightObservation>)
    modifies a
    ensures Sorted(a[..])
    ensures multiset(a[..]) == old(multiset(a[..]))
  {
    for i := 0 to a.Length
      invariant SortedUpTo(a[..], i)
      invariant multiset(a[..]) == old(multiset(a[..]))
    {
      var m := IndexOfEarliest(a, i);
      ghost var before := a[..];
      SwapStep(before, i, m);
      a[i], a[m] := a[m], a[i];
      assert a[..] == before[i := before[m]][m := before[i]];
    }
  }

  /** Lines 52-55: the ledger's observations become map keys. */
  method LoadLedger(current: seq<FlightObservation>) returns (allAircraft: set<FlightObservation>)
    ensures allAircraft == Elements(current)
  {
    allAircraft := {};
    for i := 0 to |current|
      invariant allAircraft == Elements(current[..i])
    {
      assert current[..i + 1] == current[..i] + [current[i]];
      allAircraft := allAircraft + {current[i]};
    }
    assert current[..|current|] == current;
  }

  /** Lines 62-64: the snapshot observations are added; a pair already
      present stays a single key. */
  method AddObservations(allAircraft: set<FlightObservation>, fromHistory: set<FlightObservation>)
    returns (merged: set<FlightObservation>)
    ensures merged == allAircraft + fromHistory
  {
    merged := allAircraft;
    var pending := fromHistory;
    while pending != {}
      invariant pending <= fromHistory
      invariant merged == allAircraft + (fromHistory - pending)
      decreases pending
    {
      var k :| k in pending;
      merged := merged + {k};
      pending := pending - {k};
    }
  }

  /** Lines 66-82: finds the newest second and deletes every key more than
      24 hours older. */
  method Prune(allAircraft: set<FlightObservation>) returns (kept: set<FlightObservation>)
    ensures kept == Retained(allAircraft)
  {
    kept := allAircraft;
    var keys := Keys(allAircraft);
    var latestUnixSecond := MinInt64;
    if |keys| != 0 {
      latestUnixSecond := LatestWhen(keys);
    }
    var cutoff := latestUnixSecond - RetentionSeconds;
    for i := 0 to |keys|
      invariant kept == set o | o in allAircraft && (o.when >= cutoff || o !in keys[..i])
    {
      assert keys[..i + 1] == keys[..i] + [keys[i]];
      if keys[i].when < cutoff {
        kept := kept - {keys[i]};
      }
    }
    assert keys[..|keys|] == keys;
    if allAircraft != {} {
      RetainedByCutoff(allAircraft, latestUnixSecond);
    }
  }

  /** Lines 85-88: the remaining keys, sorted by (When, Code). */
  method SortedLedger(kept: set<FlightObservation>) returns (written: seq<FlightObservation>)
    ensures IsLedgerOf(written, kept)
  {
    var current := Keys(kept);
    var a := new FlightObservation[|current|](i requires 0 <= i < |current| => current[i]);
    assert a[..] == current;
    SortObservations(a);
    written := a[..];
    DistinctPermutation(written, current);
    SortedDistinctIsStrict(written);
    forall o
      ensures o in written <==> o in current
    {
      assert o in written <==> o in multiset(written);
      assert o in current <==> o in multiset(current);
    }
  }

  /** MergeHistoryFiles: loads the ledger (absent means empty), adds the
      snapshot observations, evicts everything more than 24 hours older than
      the newest observation, sorts by (When, Code) and hands the result to
      the file write. */
  method MergeHistoryFiles(outDirCreated: bool, ledger: LedgerFile, data: DataDir, ledgerWritten: bool)
    returns (r: MergeResult)
    ensures r.err == MergeFailure(outDirCreated, ledger, data, ledgerWritten)
    ensures r.written.Some? <==> outDirCreated && LedgerReadable(ledger) && HistoricalObservations(data).Success?
    ensures r.written.Some? ==>
      IsLedgerOf(r.written.value, Retained(LedgerContents(ledger) + HistoricalObservations(data).value))
  {
    if !outDirCreated {
      return MergeResult(None, Some(OutDirCreateFailed));
    }
    var current: seq<FlightObservation>;
    match ledger {
      case LedgerUnreadable =>
        return MergeResult(None, Some(LedgerReadFailed));
      case LedgerCorrupt =>
        return MergeResult(None, Some(LedgerUnmarshalFailed));
      case LedgerAbsent =>
        current := [];
      case LedgerStored(observations) =>
        current := observations;
    }
    var allAircraft := LoadLedger(current);
    var fromHistory := ReadHistoricalFiles(data);
    if fromHistory.Failure? {
      return MergeResult(None, Some(fromHistory.error));
    }
    allAircraft := AddObservations(allAircraft, fromHistory.value);
    allAircraft := Prune(allAircraft);
    var written := SortedLedger(allAircraft);
    if !ledgerWritten {
      return MergeResult(Some(written), Some(LedgerWriteFailed));
    }
    return MergeResult(Some(written), None);
  }
}
