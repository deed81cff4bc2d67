/**
 * The file scan: the header line fixes the columns, and each later line whose
 * field count matches promotes every column to the least specific type seen.
 */
module FileAnalysis {
  import opened Wrappers
  import opened GoStrings
  import opened DbTypes
  import opened Inference

  /** `getAnalyzer`: the flavour name, in any letter case, selects a catalog. */
  function GetAnalyzer(flavor: string): (r: Result<TypeAnalyzer, string>)
    ensures r.Success? <==> ToLower(flavor) == "postgresql"
    ensures r.Success? ==> r.value == PostgreSQLAnalyzer
    ensures r.Failure? ==>
      r.error == "unsupported database flavor: " + flavor + ". Supported flavors: postgresql"
  {
    if ToLower(flavor) == "postgresql" then Success(PostgreSQLAnalyzer)
    else Failure("unsupported database flavor: " + flavor + ". Supported flavors: postgresql")
  }

  /** Whether a flavour is supported does not depend on the case of its letters. */
  lemma GetAnalyzerIgnoresCase(flavor: string)
    ensures GetAnalyzer(flavor).Success? == GetAnalyzer(ToLower(flavor)).Success?
    ensures GetAnalyzer("PostgreSQL").Success? && GetAnalyzer("mysql").Failure?
  {
    ToLowerIdempotent(flavor);
    assert ToLower("PostgreSQL") == "postgresql";
    assert ToLower("mysql") == "mysql";
  }

  function Max(a: int, b: int): int {
    if a < b then b else a
  }

  /** The starting positions: every column at the most specific type, position 0. */
  function Zeros(n: nat): (r: seq<int>)
    ensures |r| == n && forall c :: 0 <= c < n ==> r[c] == 0
  {
    seq(n, _ => 0)
  }

  /**
   * One line of the scan: a line whose field count differs from the column count
   * is skipped; otherwise each column rises to its field's inferred position when
   * that is larger.
   */
  function Promote(columnTypes: seq<int>, fields: seq<string>, types: seq<DataType>, lib: LibraryParsers): (r: seq<int>)
    ensures |r| == |columnTypes|
    ensures forall c :: 0 <= c < |r| ==> columnTypes[c] <= r[c]
    ensures |fields| != |columnTypes| ==> r == columnTypes
  {
    if |fields| != |columnTypes| then
      columnTypes
    else
      seq(|columnTypes|, c requires 0 <= c < |columnTypes| =>
        Max(columnTypes[c], InferredPosition(fields[c], types, lib)))
  }

  /** The column positions after scanning `lines` in order, starting from `init`. */
  function Scan(init: seq<int>, lines: seq<string>, delimiter: char, types: seq<DataType>, lib: LibraryParsers): (r: seq<int>)
    ensures |r| == |init|
    ensures forall c :: 0 <= c < |r| ==> init[c] <= r[c]
    decreases |lines|
  {
    if lines == [] then init
    else
      var before := Scan(init, lines[..|lines| - 1], delimiter, types, lib);
      Promote(before, Split(lines[|lines| - 1], delimiter), types, lib)
  }

  /** A line the scan takes into account: it splits into exactly `n` fields. */
  predicate Accepted(line: string, delimiter: char, n: nat) {
    |Split(line, delimiter)| == n
  }

  /** The per-field loop of the scan: raise each column to its field's inferred position when that is larger. */
  method PromoteInPlace(positions: array<int>, fields: seq<string>, types: seq<DataType>, lib: LibraryParsers)
    requires |fields| == positions.Length
    modifies positions
    ensures positions[..] == Promote(old(positions[..]), fields, types, lib)
  {
    ghost var before := positions[..];
    for i := 0 to |fields|
      invariant forall c :: 0 <= c < i ==> positions[c] == Max(before[c], InferredPosition(fields[c], types, lib))
      invariant forall c :: i <= c < |fields| ==> positions[c] == before[c]
    {
      var fieldType := InferType(fields[i], types, lib);
      if fieldType > positions[i] {
        positions[i] := fieldType;
      }
    }
  }

  /**
   * The line loop of the scan: each line with as many fields as there are
   * columns promotes them in place; other lines are skipped.
   */
  method ScanInPlace(positions: array<int>, lines: seq<string>, delimiter: char, types: seq<DataType>, lib: LibraryParsers)
    modifies positions
    ensures positions[..] == Scan(old(positions[..]), lines, delimiter, types, lib)
  {
    ghost var init := positions[..];
    var n := positions.Length;
    var k := 0;
    while k < |lines|
      invariant 0 <= k <= |lines|
      invariant positions[..] == Scan(init, lines[..k], delimiter, types, lib)
    {
      assert lines[..k + 1][..k] == lines[..k];
      var fields := Split(lines[k], delimiter);
      if |fields| == n {
        PromoteInPlace(positions, fields, types, lib);
      }
      k := k + 1;
    }
    assert lines[..k] == lines;
  }

  /**
   * `analyzeFileTypes`: the header line's fields name the columns, every column
   * starts at position 0, and each later line with as many fields as the header
   * promotes the columns in place. Lines with another field count are skipped.
   */
  method AnalyzeFileTypes(lines: seq<string>, delimiter: char, analyzer: TypeAnalyzer, lib: LibraryParsers)
    returns (headers: seq<string>, columnTypes: seq<int>)
    ensures lines == [] ==> headers == [] && columnTypes == []
    ensures lines != [] ==> headers == Split(lines[0], delimiter)
    ensures |columnTypes| == |headers|
    ensures lines != [] ==>
      columnTypes == Scan(Zeros(|headers|), lines[1..], delimiter, analyzer.GetTypes(), lib)
  {
    if lines == [] {
      return [], [];
    }
    headers := Split(lines[0], delimiter);
    var n := |headers|;
    var positions := new int[n];
    for i := 0 to n
      invariant forall c :: 0 <= c < i ==> positions[c] == 0
    {
      positions[i] := 0;
    }
    assert positions[..] == Zeros(n);
    ScanInPlace(positions, lines[1..], delimiter, analyzer.GetTypes(), lib);
    columnTypes := positions[..];
  }

  /**
   * A column's position never decreases during the scan: the positions after any
   * prefix of the lines are at most the positions after all of them.
   */
  lemma {:induction false} ScanPrefixMonotone(init: seq<int>, lines: seq<string>, k: nat, delimiter: char,
                                              types: seq<DataType>, lib: LibraryParsers, c: nat)
    requires k <= |lines| && c < |init|
    ensures Scan(init, lines[..k], delimiter, types, lib)[c] <= Scan(init, lines, delimiter, types, lib)[c]
  {
    if k < |lines| {
      var shorter := lines[..|lines| - 1];
      assert shorter[..k] == lines[..k];
      ScanPrefixMonotone(init, shorter, k, delimiter, types, lib, c);
    } else {
      assert lines[..k] == lines;
    }
  }

  /**
   * The scan ends at a running maximum: each column's final position is at least
   * its starting position and the inferred position of its field in every
   * accepted line, and it is one of those values.
   */
  lemma {:induction false} ScanIsColumnMaximum(init: seq<int>, lines: seq<string>, delimiter: char,
                                               types: seq<DataType>, lib: LibraryParsers, c: nat)
    requires c < |init|
    ensures var r := Scan(init, lines, delimiter, types, lib);
      init[c] <= r[c] &&
      (forall k :: 0 <= k < |lines| && Accepted(lines[k], delimiter, |init|) ==>
        InferredPosition(Split(lines[k], delimiter)[c], types, lib) <= r[c]) &&
      (r[c] == init[c] ||
        exists k :: 0 <= k < |lines| && Accepted(lines[k], delimiter, |init|) &&
          r[c] == InferredPosition(Split(lines[k], delimiter)[c], types, lib))
  {
    if lines != [] {
      var shorter := lines[..|lines| - 1];
      ScanIsColumnMaximum(init, shorter, delimiter, types, lib, c);
      var before := Scan(init, shorter, delimiter, types, lib);
      var last := lines[|lines| - 1];
      forall k | 0 <= k < |lines| - 1
        ensures lines[k] == shorter[k]
      {
      }
      if Accepted(last, delimiter, |init|) {
        var p := InferredPosition(Split(last, delimiter)[c], types, lib);
        assert Scan(init, lines, delimiter, types, lib)[c] == Max(before[c], p);
      }
    }
  }

  /** A line whose field count differs from the header's leaves the result as if it were absent. */
  lemma {:induction false} ScanSkipsMismatch(init: seq<int>, front: seq<string>, bad: string, back: seq<string>,
                                             delimiter: char, types: seq<DataType>, lib: LibraryParsers)
    requires !Accepted(bad, delimiter, |init|)
    ensures Scan(init, front + [bad] + back, delimiter, types, lib) == Scan(init, front + back, delimiter, types, lib)
  {
    if back == [] {
      assert front + [bad] + back == front + [bad];
      assert (front + [bad])[..|front|] == front;
      assert front + back == front;
    } else {
      var shorter := back[..|back| - 1];
      ScanSkipsMismatch(init, front, bad, shorter, delimiter, types, lib);
      assert (front + [bad] + back)[..|front + [bad] + back| - 1] == front + [bad] + shorter;
      assert (front + back)[..|front + back| - 1] == front + shorter;
    }
  }

  /** With the PostgreSQL catalog every column ends at a position in [0, 7]. */
  lemma {:induction false} PostgresScanBounds(n: nat, lines: seq<string>, delimiter: char, lib: LibraryParsers, c: nat)
    requires c < n
    ensures 0 <= Scan(Zeros(n), lines, delimiter, PostgreSQLAnalyzer.GetTypes(), lib)[c] <= 7
  {
    var types := PostgreSQLAnalyzer.GetTypes();
    ScanIsColumnMaximum(Zeros(n), lines, delimiter, types, lib, c);
  }

  /** Scanning two runs of lines one after the other is scanning their concatenation. */
  lemma {:induction false} ScanAppend(init: seq<int>, front: seq<string>, back: seq<string>, delimiter: char,
                                      types: seq<DataType>, lib: LibraryParsers)
    ensures Scan(init, front + back, delimiter, types, lib) ==
      Scan(Scan(init, front, delimiter, types, lib), back, delimiter, types, lib)
  {
    if back == [] {
      assert front + back == front;
    } else {
      var shorter := back[..|back| - 1];
      ScanAppend(init, front, shorter, delimiter, types, lib);
      assert (front + back)[..|front + back| - 1] == front + shorter;
      assert (front + back)[|front + back| - 1] == back[|back| - 1];
    }
  }
}
