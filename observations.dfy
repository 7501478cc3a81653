/** The ledger's record type, `FlightObservation` (internal/history/history.go),
    and the order the ledger is written in: `When` first, then `Code`. */
module Observations {

  /** One sighting of an aircraft identifier at a whole Unix second. The Go
      struct is used as a map key, so two observations are the same key
      exactly when both fields are equal, which is datatype equality here. */
  datatype FlightObservation = FlightObservation(code: string, when: int)

  /** Go's `cmp.Compare` on strings: lexicographic, a proper prefix first.
      Go compares UTF-8 bytes; UTF-8 preserves code-point order, so comparing
      characters gives the same answer. */
  predicate CodeLess(a: string, b: string)
  {
    if a == [] then b != []
    else if b == [] then false
    else if a[0] != b[0] then a[0] < b[0]
    else CodeLess(a[1..], b[1..])
  }

  lemma {:induction false} CodeLessIrreflexive(a: string)
    ensures !CodeLess(a, a)
  {
    if a != [] {
      CodeLessIrreflexive(a[1..]);
    }
  }

  lemma {:induction false} CodeLessTransitive(a: string, b: string, c: string)
    requires CodeLess(a, b) && CodeLess(b, c)
    ensures CodeLess(a, c)
  {
    if a != [] && b != [] && c != [] && a[0] == b[0] && b[0] == c[0] {
      CodeLessTransitive(a[1..], b[1..], c[1..]);
    }
  }

  lemma {:induction false} CodeLessTotal(a: string, b: string)
    ensures a == b || CodeLess(a, b) || CodeLess(b, a)
  {
    if a != [] && b != [] && a[0] == b[0] {
      CodeLessTotal(a[1..], b[1..]);
      if a[1..] == b[1..] {
        assert a == [a[0]] + a[1..] && b == [b[0]] + b[1..];
      }
    }
  }

  /** The comparator of the ledger sort (`cmp.Or` of the `When` comparison
      and the `Code` comparison) answers "negative" exactly when Before holds. */
  predicate Before(x: FlightObservation, y: FlightObservation)
  {
    x.when < y.when || (x.when == y.when && CodeLess(x.code, y.code))
  }

  /** The comparator answers "negative or zero". */
  predicate NotAfter(x: FlightObservation, y: FlightObservation)
  {
    !Before(y, x)
  }

  lemma BeforeIrreflexive(x: FlightObservation)
    ensures !Before(x, x)
  {
    CodeLessIrreflexive(x.code);
  }

  lemma BeforeTransitive(x: FlightObservation, y: FlightObservation, z: FlightObservation)
    requires Before(x, y) && Before(y, z)
    ensures Before(x, z)
  {
    if x.when == y.when == z.when {
      CodeLessTransitive(x.code, y.code, z.code);
    }
  }

  /** The comparator returns zero only for equal observations, so the order
      is total and the sorted ledger is unique. */
  lemma BeforeTotal(x: FlightObservation, y: FlightObservation)
    ensures x == y || Before(x, y) || Before(y, x)
  {
    CodeLessTotal(x.code, y.code);
  }

  ghost predicate Sorted(s: seq<FlightObservation>)
  {
    forall i, j :: 0 <= i < j < |s| ==> NotAfter(s[i], s[j])
  }

  ghost predicate StrictlySorted(s: seq<FlightObservation>)
  {
    forall i, j :: 0 <= i < j < |s| ==> Before(s[i], s[j])
  }

  ghost predicate Distinct<T>(s: seq<T>)
  {
    forall i, j :: 0 <= i < j < |s| ==> s[i] != s[j]
  }

  function Elements<T>(s: seq<T>): set<T>
  {
    set x | x in s
  }

  /** Appending an element not yet present keeps a sequence free of repeats. */
  lemma AppendFresh<T>(s: seq<T>, x: T)
    requires Distinct(s) && x !in Elements(s)
    ensures Distinct(s + [x]) && Elements(s + [x]) == Elements(s) + {x}
  {
  }

  /** `s` is a ledger holding exactly the observations `obs`: strictly
      increasing in (When, Code), hence without duplicates. */
  ghost predicate IsLedgerOf(s: seq<FlightObservation>, obs: set<FlightObservation>)
  {
    StrictlySorted(s) && Elements(s) == obs
  }

  lemma SortedDistinctIsStrict(s: seq<FlightObservation>)
    requires Sorted(s) && Distinct(s)
    ensures StrictlySorted(s)
  {
    forall i, j | 0 <= i < j < |s|
      ensures Before(s[i], s[j])
    {
      BeforeTotal(s[i], s[j]);
    }
  }

  lemma StrictlySortedIsDistinct(s: seq<FlightObservation>)
    requires StrictlySorted(s)
    ensures Distinct(s)
  {
    forall i, j | 0 <= i < j < |s|
      ensures s[i] != s[j]
    {
      BeforeIrreflexive(s[i]);
    }
  }

  /** No element occurs twice in a sequence without repeats. */
  lemma {:induction false} DistinctCount<T>(s: seq<T>, x: T)
    requires Distinct(s)
    ensures multiset(s)[x] <= 1
  {
    if s != [] {
      assert s == [s[0]] + s[1..];
      assert Distinct(s[1..]) by {
        forall i, j | 0 <= i < j < |s[1..]|
          ensures s[1..][i] != s[1..][j]
        {
          assert s[1..][i] == s[i + 1] && s[1..][j] == s[j + 1];
        }
      }
      DistinctCount(s[1..], x);
      if x == s[0] {
        assert x !in s[1..];
      }
    }
  }

  /** A permutation of a sequence without repeats has no repeats. */
  lemma DistinctPermutation<T>(s: seq<T>, t: seq<T>)
    requires multiset(s) == multiset(t) && Distinct(t)
    ensures Distinct(s)
  {
    forall i, j | 0 <= i < j < |s|
      ensures s[i] != s[j]
    {
      if s[i] == s[j] {
        var x := s[i];
        assert s == s[..j] + s[j..];
        assert x in s[..j] && x in s[j..];
        assert multiset(s)[x] == multiset(s[..j])[x] + multiset(s[j..])[x];
        DistinctCount(t, x);
        assert false;
      }
    }
  }

  lemma ElementsEmpty<T>(s: seq<T>)
    ensures Elements(s) == {} <==> s == []
  {
    if s != [] {
      assert s[0] in Elements(s);
    }
  }

  /** A sequence without repeats has as many elements as its set. */
  lemma {:induction false} DistinctCardinality<T>(s: seq<T>)
    requires Distinct(s)
    ensures |Elements(s)| == |s|
  {
    if s != [] {
      var last := |s| - 1;
      assert Distinct(s[..last]);
      DistinctCardinality(s[..last]);
      assert s == s[..last] + [s[last]];
      assert Elements(s) == Elements(s[..last]) + {s[last]};
      assert s[last] !in Elements(s[..last]);
    }
  }

  /** The ledger of a set of observations is unique: the write-back does not
      depend on the order in which the map handed out its keys. */
  lemma {:induction false} LedgerUnique(s: seq<FlightObservation>, t: seq<FlightObservation>, obs: set<FlightObservation>)
    requires IsLedgerOf(s, obs) && IsLedgerOf(t, obs)
    ensures s == t
  {
    if s != [] && t != [] {
      assert s[0] in obs && t[0] in obs;
      if s[0] != t[0] {
        var i :| 0 <= i < |s| && s[i] == t[0];
        var j :| 0 <= j < |t| && t[j] == s[0];
        assert Before(s[0], t[0]) by { assert i > 0; }
        assert Before(t[0], s[0]) by { assert j > 0; }
        BeforeTransitive(s[0], t[0], s[0]);
        BeforeIrreflexive(s[0]);
      }
      var rest := obs - {s[0]};
      StrictlySortedIsDistinct(s);
      StrictlySortedIsDistinct(t);
      assert Elements(s[1..]) == rest by {
        assert s == [s[0]] + s[1..];
      }
      assert Elements(t[1..]) == rest by {
        assert t == [t[0]] + t[1..];
      }
      LedgerUnique(s[1..], t[1..], rest);
      assert s == [s[0]] + s[1..] && t == [t[0]] + t[1..];
    } else {
      ElementsEmpty(s);
      ElementsEmpty(t);
    }
  }

  /** A ledger holds each of its observations exactly once. */
  lemma LedgerLength(s: seq<FlightObservation>, obs: set<FlightObservation>)
    requires IsLedgerOf(s, obs)
    ensures |s| == |obs|
  {
    StrictlySortedIsDistinct(s);
    DistinctCardinality(s);
  }
}
