/**
 * Column validation of a parsed CSV table (`checkCsvData`): the keys of the
 * FIRST record, sorted, must equal the sorted expected column list. Later
 * records are not looked at.
 */
module Validation {
  import opened Wrappers
  import opened Records

  /** The expected columns as the source declares them, before sorting. */
  const ExpectedColumns: seq<string> := ["latitude", "longitude", "address"]

  /** The expected columns as `columns.sort()` leaves them at load time (see `ColumnsSorted`). */
  const Columns: seq<string> := ["address", "latitude", "longitude"]

  datatype ValidationError = FormatError | LengthMismatch | NameMismatch
  {
    /** The string the source throws for each rejection. */
    function Message(): string
    {
      match this
      case FormatError => "csv data format error"
      case LengthMismatch => "csv data error, clumn length mismatch"
      case NameMismatch => "csv data error, column name mismatch"
    }
  }

  // ---------------------------------------------------------------------------
  // The default order of `Array.prototype.sort` on strings: lexicographic by character.

  /** `a` sorts strictly before `b`. */
  predicate Below(a: string, b: string)
  {
    if a == [] then b != []
    else if b == [] then false
    else if a[0] != b[0] then a[0] < b[0]
    else Below(a[1..], b[1..])
  }

  predicate Le(a: string, b: string)
  {
    a == b || Below(a, b)
  }

  lemma {:induction false} BelowAsymmetric(a: string, b: string)
    ensures !(Below(a, b) && Below(b, a))
  {
    if a != [] && b != [] && a[0] == b[0] {
      BelowAsymmetric(a[1..], b[1..]);
    }
  }

  lemma {:induction false} BelowTransitive(a: string, b: string, c: string)
    requires Below(a, b) && Below(b, c)
    ensures Below(a, c)
  {
    if a != [] && a[0] == b[0] && b[0] == c[0] {
      BelowTransitive(a[1..], b[1..], c[1..]);
    }
  }

  lemma {:induction false} BelowTotal(a: string, b: string)
    ensures a == b || Below(a, b) || Below(b, a)
  {
    if a != [] && b != [] && a[0] == b[0] {
      BelowTotal(a[1..], b[1..]);
      if a[1..] == b[1..] {
        assert a == [a[0]] + a[1..] && b == [b[0]] + b[1..];
      }
    }
  }

  lemma LeTransitive(a: string, b: string, c: string)
    requires Le(a, b) && Le(b, c)
    ensures Le(a, c)
  {
    if a != b && b != c {
      BelowTransitive(a, b, c);
    }
  }

  lemma LeAntisymmetric(a: string, b: string)
    requires Le(a, b) && Le(b, a)
    ensures a == b
  {
    BelowAsymmetric(a, b);
  }

  predicate Sorted(s: seq<string>)
  {
    forall i, j :: 0 <= i < j < |s| ==> Le(s[i], s[j])
  }

  // ---------------------------------------------------------------------------
  // Sorting, as the library does it: the result is ordered and a permutation.

  function Insert(x: string, s: seq<string>): (r: seq<string>)
    requires Sorted(s)
    ensures Sorted(r)
    ensures multiset(r) == multiset(s) + multiset{x}
  {
    if s == [] then [x]
    else if Below(s[0], x) then
      var t := Insert(x, s[1..]);
      assert multiset(t) == multiset(s[1..]) + multiset{x};
      InsertAfter(s[0], x, s[1..], t);
      assert s == [s[0]] + s[1..];
      [s[0]] + t
    else
      BelowTotal(x, s[0]);
      forall j | 0 <= j < |s| ensures Le(x, s[j]) {
        LeTransitive(x, s[0], s[j]);
      }
      [x] + s
  }

  /** Helper: putting `h` in front of `t` keeps the order when `h` is below everything in `t`. */
  lemma InsertAfter(h: string, x: string, rest: seq<string>, t: seq<string>)
    requires Below(h, x)
    requires Sorted(rest) && Sorted(t)
    requires forall j :: 0 <= j < |rest| ==> Le(h, rest[j])
    requires multiset(t) == multiset(rest) + multiset{x}
    ensures Sorted([h] + t)
  {
    forall j | 0 <= j < |t| ensures Le(h, t[j]) {
      assert t[j] in multiset(t);
      if t[j] != x {
        assert t[j] in multiset(rest);
        var m :| 0 <= m < |rest| && rest[m] == t[j];
      }
    }
  }

  function SortStrings(s: seq<string>): (r: seq<string>)
    ensures Sorted(r)
    ensures multiset(r) == multiset(s)
  {
    if s == [] then []
    else
      assert s == [s[0]] + s[1..];
      Insert(s[0], SortStrings(s[1..]))
  }

  /** Two ordered arrangements of the same strings are the same sequence. */
  lemma {:induction false} SortedUnique(a: seq<string>, b: seq<string>)
    requires Sorted(a) && Sorted(b)
    requires multiset(a) == multiset(b)
    ensures a == b
    decreases |a|
  {
    if a != [] {
      assert a[0] in multiset(b);
      HeadIsLeast(a, b[0]);
      HeadIsLeast(b, a[0]);
      LeAntisymmetric(a[0], b[0]);
      TailMultiset(a);
      TailMultiset(b);
      SortedUnique(a[1..], b[1..]);
      assert a == [a[0]] + a[1..] && b == [b[0]] + b[1..];
    } else {
      assert |b| == |multiset(b)| == 0;
    }
  }

  /** Helper: the head of an ordered sequence is below every element. */
  lemma HeadIsLeast(s: seq<string>, x: string)
    requires Sorted(s) && s != [] && x in multiset(s)
    ensures Le(s[0], x)
  {
    var i :| 0 <= i < |s| && s[i] == x;
  }

  /** Helper: dropping the head removes one copy of it. */
  lemma TailMultiset(s: seq<string>)
    requires s != []
    ensures multiset(s[1..]) == multiset(s) - multiset{s[0]}
  {
    assert s == [s[0]] + s[1..];
  }

  /** Sorting depends only on which strings there are, not on their order. */
  lemma SortedIffSameMultiset(s: seq<string>, t: seq<string>)
    ensures SortStrings(s) == SortStrings(t) <==> multiset(s) == multiset(t)
  {
    if multiset(s) == multiset(t) {
      SortedUnique(SortStrings(s), SortStrings(t));
    }
  }

  /** `Columns` is what sorting the declared column list yields. */
  lemma ColumnsSorted()
    ensures SortStrings(ExpectedColumns) == Columns
  {
    assert multiset(ExpectedColumns) == multiset(Columns);
    SortsToColumns(ExpectedColumns);
  }

  /** Helper: any arrangement of the three column names sorts to `Columns`. */
  lemma SortsToColumns(s: seq<string>)
    requires multiset(s) == multiset(Columns)
    ensures SortStrings(s) == Columns
  {
    var c := Columns;
    assert Below(c[0], c[1]);
    assert Below(c[1], c[2]) by {
      assert c[1][1..] == "atitude" && c[2][1..] == "ongitude";
    }
    BelowTransitive(c[0], c[1], c[2]);
    assert Sorted(c);
    SortedUnique(SortStrings(s), c);
  }

  // ---------------------------------------------------------------------------
  // The decision and its implementation.

  /**
   * What `checkCsvData` decides about an already-parsed table: the first
   * record's keys must be a rearrangement of the expected columns.
   */
  function Validate(records: seq<Record>): Result<seq<Record>, ValidationError>
  {
    if |records| == 0 then Failure(FormatError)
    else if |Names(records[0])| != |ExpectedColumns| then Failure(LengthMismatch)
    else if multiset(Names(records[0])) != multiset(ExpectedColumns) then Failure(NameMismatch)
    else Success(records)
  }

  /**
   * `checkCsvData` after parsing: rejects an empty table, then a first record
   * with a different key count, then sorts that record's keys and compares them
   * position by position with the sorted expected columns.
   */
  method CheckCsvData(records: seq<Record>) returns (res: Result<seq<Record>, ValidationError>)
    ensures res == Validate(records)
  {
    if |records| == 0 {
      return Failure(FormatError);
    }
    var dataColumns := Names(records[0]);
    if |Columns| != |dataColumns| {
      return Failure(LengthMismatch);
    }
    ghost var keys := dataColumns;
    dataColumns := SortStrings(dataColumns);
    var i := 0;
    while i < |Columns|
      invariant 0 <= i <= |Columns| == |dataColumns|
      invariant forall k :: 0 <= k < i ==> Columns[k] == dataColumns[k]
    {
      if Columns[i] != dataColumns[i] {
        ColumnsSorted();
        SortedIffSameMultiset(keys, ExpectedColumns);
        return Failure(NameMismatch);
      }
      i := i + 1;
    }
    assert Columns == dataColumns;
    ColumnsSorted();
    SortedIffSameMultiset(keys, ExpectedColumns);
    return Success(records);
  }

  // ---------------------------------------------------------------------------
  // Properties of the decision.

  /** Success exactly when the first record's keys are the three expected columns; the table comes back unchanged. */
  lemma ValidateAccepts(records: seq<Record>)
    ensures Validate(records).Success? <==>
      records != [] && multiset(Names(records[0])) == multiset{"address", "latitude", "longitude"}
    ensures Validate(records).Success? ==> Validate(records).value == records
  {
    if records != [] && multiset(Names(records[0])) == multiset(ExpectedColumns) {
      assert |multiset(Names(records[0]))| == |Names(records[0])|;
    }
  }

  /** For a real object (no repeated key): exactly the columns address, latitude and longitude, none missing, none extra. */
  lemma ValidateAcceptsKeyed(records: seq<Record>)
    requires records != [] && Keyed(records[0])
    ensures Validate(records).Success? <==>
      |records[0]| == 3 && "address" in Names(records[0]) && "latitude" in Names(records[0]) && "longitude" in Names(records[0])
  {
    var ns := Names(records[0]);
    ValidateAccepts(records);
    if |ns| == 3 && "address" in ns && "latitude" in ns && "longitude" in ns {
      assert forall i, j :: 0 <= i < j < |ns| ==> ns[i] != ns[j];
      ThreeColumns(ns);
    }
  }

  /** Helper: three distinct names including the three columns are exactly the three columns. */
  lemma ThreeColumns(ns: seq<string>)
    requires forall i, j :: 0 <= i < j < |ns| ==> ns[i] != ns[j]
    requires |ns| == 3 && "address" in ns && "latitude" in ns && "longitude" in ns
    ensures multiset(ns) == multiset{"address", "latitude", "longitude"}
  {
    DistinctMultiset(ns);
    var m := multiset{"address", "latitude", "longitude"};
    forall x ensures multiset(ns)[x] == m[x] {
    }
  }

  /** Helper: a sequence without repetitions holds each element once. */
  lemma {:induction false} DistinctMultiset(s: seq<string>)
    requires forall i, j :: 0 <= i < j < |s| ==> s[i] != s[j]
    ensures forall x :: multiset(s)[x] == if x in s then 1 else 0
  {
    if s != [] {
      assert s == [s[0]] + s[1..];
      DistinctMultiset(s[1..]);
      assert s[0] !in s[1..];
    }
  }

  /** The empty table is a format error; a first record with a key count other than three is a length mismatch. */
  lemma ValidateErrors(records: seq<Record>)
    ensures records == [] ==> Validate(records) == Failure(FormatError)
    ensures records != [] && |records[0]| != 3 ==> Validate(records) == Failure(LengthMismatch)
  {
  }

  /** Only the first record is inspected: tables with the same first record get the same verdict. */
  lemma ValidateOnlyFirst(a: seq<Record>, b: seq<Record>)
    requires a != [] && b != [] && a[0] == b[0]
    ensures Validate(a).Success? == Validate(b).Success?
    ensures Validate(a).Failure? ==> Validate(a) == Validate(b)
  {
  }

  /** The header `lat,long,address` is a column name mismatch. */
  lemma RenamedColumnsRejected(r: Record, rest: seq<Record>)
    requires Names(r) == ["lat", "long", "address"]
    ensures Validate([r] + rest) == Failure(NameMismatch)
  {
    assert "lat" in multiset(Names(r));
    assert "lat" !in multiset(ExpectedColumns);
  }
}
