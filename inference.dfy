/**
 * Value classification: the recognizers for each catalog type name and the
 * first-match walk over a catalog that gives a value its type position.
 */
module Inference {
  import opened GoStrings
  import opened StrConv
  import opened DbTypes

  /** The values `isBoolean` accepts once trimmed and lower-cased; "1" and "0" are not among them. */
  const BooleanWords: set<string> := {"true", "false", "t", "f"}

  /** The type names the recognizer dispatch knows. */
  const KnownNames: set<string> :=
    {"boolean", "smallint", "integer", "bigint", "numeric", "timestamp", "date", "text"}

  predicate IsBoolean(value: string) {
    ToLower(TrimSpace(value)) in BooleanWords
  }

  /** A 16-bit parse, followed by the (redundant) smallint range check. */
  predicate IsSmallInt(value: string) {
    var p := ParseInt(value, 16);
    p.Some? && -32768 <= p.value <= 32767
  }

  predicate IsInteger(value: string) {
    ParseInt(value, 32).Some?
  }

  predicate IsBigInt(value: string) {
    ParseInt(value, 64).Some?
  }

  /**
   * The recognizers that wrap library parsers (`strconv.ParseFloat` and
   * `time.Parse` with fixed layouts), taken as given predicates.
   */
  datatype LibraryParsers = LibraryParsers(
    isNumeric: string -> bool,
    isTimestamp: string -> bool,
    isDate: string -> bool)

  /**
   * The case of the dispatch on a catalog name: whether the catalog entry called
   * `name` claims `value`. Each numeric case excludes what the case before it takes.
   */
  function Accepts(name: string, value: string, lib: LibraryParsers): (r: bool)
    ensures r ==> name in KnownNames
    ensures name == "text" ==> r
  {
    if name == "boolean" then IsBoolean(value)
    else if name == "smallint" then IsSmallInt(value)
    else if name == "integer" then IsInteger(value) && !IsSmallInt(value)
    else if name == "bigint" then IsBigInt(value) && !IsInteger(value)
    else if name == "numeric" then lib.isNumeric(value) && !IsBigInt(value)
    else if name == "timestamp" then lib.isTimestamp(value)
    else if name == "date" then lib.isDate(value)
    else name == "text"
  }

  /** Some entry at or after position `i` claims the value. */
  predicate SomeAcceptsFrom(value: string, types: seq<DataType>, lib: LibraryParsers, i: nat) {
    exists j :: i <= j < |types| && Accepts(types[j].name, value, lib)
  }

  /**
   * The first position at or after `i` whose entry claims the value, or the
   * last position of the catalog when none does.
   */
  function InferFrom(value: string, types: seq<DataType>, lib: LibraryParsers, i: nat): (r: int)
    requires i <= |types|
    ensures -1 <= r < |types|
    ensures SomeAcceptsFrom(value, types, lib, i) ==>
      i <= r && Accepts(types[r].name, value, lib) &&
      forall j :: i <= j < r ==> !Accepts(types[j].name, value, lib)
    ensures !SomeAcceptsFrom(value, types, lib, i) ==> r == |types| - 1
    decreases |types| - i
  {
    if i == |types| then |types| - 1
    else if Accepts(types[i].name, value, lib) then i
    else InferFrom(value, types, lib, i + 1)
  }

  /**
   * The position `inferType` returns: the first catalog entry that claims the
   * value, or the last position when none does (-1 for an empty catalog).
   */
  function InferredPosition(value: string, types: seq<DataType>, lib: LibraryParsers): (r: int)
    ensures types != [] ==> 0 <= r < |types|
    ensures types == [] ==> r == -1
    ensures SomeAcceptsFrom(value, types, lib, 0) ==>
      Accepts(types[r].name, value, lib) && forall j :: 0 <= j < r ==> !Accepts(types[j].name, value, lib)
    ensures !SomeAcceptsFrom(value, types, lib, 0) ==> r == |types| - 1
  {
    InferFrom(value, types, lib, 0)
  }

  /**
   * `inferType`: walk the catalog (what `analyzer.GetTypes()` returns) in order
   * and stop at the first entry that claims the value.
   */
  method InferType(value: string, types: seq<DataType>, lib: LibraryParsers) returns (r: int)
    ensures r == InferredPosition(value, types, lib)
  {
    var i := 0;
    while i < |types|
      invariant 0 <= i <= |types|
      invariant InferFrom(value, types, lib, i) == InferFrom(value, types, lib, 0)
    {
      if Accepts(types[i].name, value, lib) {
        return i;
      }
      i := i + 1;
    }
    return |types| - 1;
  }

  /** White space around one of the boolean words, in any letter case, is still boolean. */
  lemma BooleanIgnoresPaddingAndCase(p: string, w: string, q: string)
    requires AllSpace(p) && AllSpace(q) && ToLower(w) in BooleanWords
    ensures IsBoolean(p + w + q)
  {
    var lw := ToLower(w);
    assert lw == "true" || lw == "false" || lw == "t" || lw == "f";
    assert lw[0] == 't' || lw[0] == 'f';
    assert lw[|lw| - 1] == 'e' || lw[|lw| - 1] == 't' || lw[|lw| - 1] == 'f';
    assert !IsSpace(w[0]) by { assert lw[0] == LowerChar(w[0]); }
    assert !IsSpace(w[|w| - 1]) by { assert lw[|lw| - 1] == LowerChar(w[|w| - 1]); }
    TrimSpacePadded(p, w, q);
  }

  /** A decimal literal (sign and digits only) is never one of the boolean words. */
  lemma DecimalLiteralNotBoolean(value: string)
    requires IsDecimalLiteral(value)
    ensures !IsBoolean(value)
  {
    DecimalLiteralUntrimmed(value);
    DecimalLiteralNotWord(value);
  }

  /** Lower-casing a decimal literal keeps its leading sign or digit, which no boolean word starts with. */
  lemma DecimalLiteralNotWord(value: string)
    requires IsDecimalLiteral(value)
    ensures ToLower(value) !in BooleanWords
  {
    var lv := ToLower(value);
    assert lv[0] == LowerChar(value[0]) == value[0];
    assert lv != "true" && lv != "false" && lv != "t" && lv != "f" by {
      assert "true"[0] == 't' && "false"[0] == 'f' && "t"[0] == 't' && "f"[0] == 'f';
    }
  }

  /** Trimming leaves a decimal literal as it is: it neither starts nor ends with white space. */
  lemma DecimalLiteralUntrimmed(value: string)
    requires IsDecimalLiteral(value)
    ensures TrimSpace(value) == value
  {
    if value[0] == '+' || value[0] == '-' {
      assert value[|value| - 1] == value[1..][|value| - 2];
    }
    TrimSpacePadded([], value, []);
    assert [] + value + [] == value;
  }

  /** The three integer recognizers hold exactly for decimal literals within the 16-, 32- and 64-bit ranges. */
  lemma IntegerRecognizersExact(value: string)
    ensures IsSmallInt(value) <==> IsDecimalLiteral(value) && -0x8000 <= LiteralValue(value) < 0x8000
    ensures IsInteger(value) <==> IsDecimalLiteral(value) && -0x8000_0000 <= LiteralValue(value) < 0x8000_0000
    ensures IsBigInt(value) <==>
      IsDecimalLiteral(value) && -0x8000_0000_0000_0000 <= LiteralValue(value) < 0x8000_0000_0000_0000
  {
    ParseIntExact(value, 16);
    ParseIntExact(value, 32);
    ParseIntExact(value, 64);
  }

  /** The integer ranges nest: every smallint is an integer and every integer a bigint. */
  lemma IntegerRangesNest(value: string)
    ensures IsSmallInt(value) ==> IsInteger(value)
    ensures IsInteger(value) ==> IsBigInt(value)
  {
    ParseIntWidens(value, 16, 32);
    ParseIntWidens(value, 32, 64);
  }

  /** The smallint, integer, bigint and numeric cases never claim the same value. */
  lemma NumericCasesExclusive(value: string, lib: LibraryParsers, a: string, b: string)
    requires a in {"smallint", "integer", "bigint", "numeric"}
    requires b in {"smallint", "integer", "bigint", "numeric"}
    requires Accepts(a, value, lib) && Accepts(b, value, lib)
    ensures a == b
  {
    IntegerRangesNest(value);
  }

  /** A catalog none of whose names the dispatch knows classifies every value at its last position. */
  lemma UnknownNamesMatchNothing(value: string, types: seq<DataType>, lib: LibraryParsers)
    requires forall j :: 0 <= j < |types| ==> types[j].name !in KnownNames
    ensures InferredPosition(value, types, lib) == |types| - 1
  {
  }

  /** The position of the catalog's first "text" entry bounds every inferred position. */
  lemma TextBoundsInference(value: string, types: seq<DataType>, lib: LibraryParsers, t: nat)
    requires t < |types| && types[t].name == "text"
    ensures 0 <= InferredPosition(value, types, lib) <= t
  {
  }

  /** How each entry of the PostgreSQL catalog dispatches. */
  lemma PostgresDispatch(value: string, lib: LibraryParsers)
    ensures var t := PostgreSQLAnalyzer.GetTypes();
      Accepts(t[0].name, value, lib) == IsBoolean(value) &&
      Accepts(t[1].name, value, lib) == IsSmallInt(value) &&
      Accepts(t[2].name, value, lib) == (IsInteger(value) && !IsSmallInt(value)) &&
      Accepts(t[3].name, value, lib) == (IsBigInt(value) && !IsInteger(value)) &&
      Accepts(t[4].name, value, lib) == (lib.isNumeric(value) && !IsBigInt(value)) &&
      Accepts(t[5].name, value, lib) == lib.isTimestamp(value) &&
      Accepts(t[6].name, value, lib) == lib.isDate(value) &&
      Accepts(t[7].name, value, lib)
  {
    PostgresTypeNames();
    var n := Names(PostgreSQLAnalyzer.GetTypes());
    assert n[0] == "boolean" && n[1] == "smallint" && n[2] == "integer" && n[3] == "bigint";
    assert n[4] == "numeric" && n[5] == "timestamp" && n[6] == "date" && n[7] == "text";
  }

  /**
   * With the PostgreSQL catalog the recognizers are tried in the order boolean,
   * smallint, integer, bigint, numeric, timestamp, date, and "text" takes the rest.
   */
  lemma {:induction false} PostgresClassification(value: string, lib: LibraryParsers)
    ensures InferredPosition(value, PostgreSQLAnalyzer.GetTypes(), lib) ==
      if IsBoolean(value) then 0
      else if IsSmallInt(value) then 1
      else if IsInteger(value) then 2
      else if IsBigInt(value) then 3
      else if lib.isNumeric(value) then 4
      else if lib.isTimestamp(value) then 5
      else if lib.isDate(value) then 6
      else 7
  {
    var t := PostgreSQLAnalyzer.GetTypes();
    PostgresDispatch(value, lib);
    assert InferFrom(value, t, lib, 7) == 7;
    assert InferFrom(value, t, lib, 6) == if lib.isDate(value) then 6 else 7;
  }

  /**
   * With the PostgreSQL catalog every value gets a position in [0, 7], and it
   * gets 7 ("text") exactly when the boolean through date cases all decline it.
   */
  lemma PostgresTextIsFallback(value: string, lib: LibraryParsers)
    ensures var r := InferredPosition(value, PostgreSQLAnalyzer.GetTypes(), lib);
      0 <= r <= 7 &&
      (r == 7 <==> forall j :: 0 <= j < 7 ==> !Accepts(PostgreSQLAnalyzer.GetTypes()[j].name, value, lib))
  {
    PostgresDispatch(value, lib);
  }

  /**
   * With the PostgreSQL catalog a decimal literal that fits 64 bits is classified
   * by its value alone: smallint within 16 bits, integer within 32, bigint otherwise.
   */
  lemma PostgresIntegerRanges(value: string, lib: LibraryParsers)
    requires IsDecimalLiteral(value)
    requires -0x8000_0000_0000_0000 <= LiteralValue(value) < 0x8000_0000_0000_0000
    ensures var n := LiteralValue(value);
      InferredPosition(value, PostgreSQLAnalyzer.GetTypes(), lib) ==
        if -0x8000 <= n < 0x8000 then 1
        else if -0x8000_0000 <= n < 0x8000_0000 then 2
        else 3
  {
    PostgresClassification(value, lib);
    DecimalLiteralNotBoolean(value);
    IntegerRecognizersExact(value);
  }

  /**
   * With the PostgreSQL catalog a decimal literal beyond 64 bits is numeric when
   * the float parser takes it.
   */
  lemma PostgresBeyondBigint(value: string, lib: LibraryParsers)
    requires IsDecimalLiteral(value) && lib.isNumeric(value)
    requires !(-0x8000_0000_0000_0000 <= LiteralValue(value) < 0x8000_0000_0000_0000)
    ensures InferredPosition(value, PostgreSQLAnalyzer.GetTypes(), lib) == 4
  {
    PostgresClassification(value, lib);
    DecimalLiteralNotBoolean(value);
    IntegerRecognizersExact(value);
  }

  /** "true" is boolean with the PostgreSQL catalog. */
  lemma PostgresBooleanTrue(lib: LibraryParsers)
    ensures InferredPosition("true", PostgreSQLAnalyzer.GetTypes(), lib) == 0
  {
    assert ToLower("true") == "true";
    PostgresBooleanWord("true", lib);
  }

  /** "TRUE" is boolean with the PostgreSQL catalog. */
  lemma PostgresBooleanUpperTrue(lib: LibraryParsers)
    ensures InferredPosition("TRUE", PostgreSQLAnalyzer.GetTypes(), lib) == 0
  {
    assert ToLower("TRUE") == "true";
    PostgresBooleanWord("TRUE", lib);
  }

  /** "false" is boolean with the PostgreSQL catalog. */
  lemma PostgresBooleanFalse(lib: LibraryParsers)
    ensures InferredPosition("false", PostgreSQLAnalyzer.GetTypes(), lib) == 0
  {
    assert ToLower("false") == "false";
    PostgresBooleanWord("false", lib);
  }

  /** "t" is boolean with the PostgreSQL catalog. */
  lemma PostgresBooleanT(lib: LibraryParsers)
    ensures InferredPosition("t", PostgreSQLAnalyzer.GetTypes(), lib) == 0
  {
    assert ToLower("t") == "t";
    PostgresBooleanWord("t", lib);
  }

  /** "f" is boolean with the PostgreSQL catalog. */
  lemma PostgresBooleanF(lib: LibraryParsers)
    ensures InferredPosition("f", PostgreSQLAnalyzer.GetTypes(), lib) == 0
  {
    assert ToLower("f") == "f";
    PostgresBooleanWord("f", lib);
  }

  /** A boolean word in any letter case gets the first PostgreSQL position. */
  lemma PostgresBooleanWord(w: string, lib: LibraryParsers)
    requires ToLower(w) in BooleanWords
    ensures InferredPosition(w, PostgreSQLAnalyzer.GetTypes(), lib) == 0
  {
    BooleanIgnoresPaddingAndCase([], w, []);
    assert [] + w + [] == w;
    PostgresClassification(w, lib);
  }

  /** "1" is smallint with the PostgreSQL catalog, not boolean. */
  lemma PostgresSmallintOne(lib: LibraryParsers)
    ensures !IsBoolean("1")
    ensures InferredPosition("1", PostgreSQLAnalyzer.GetTypes(), lib) == 1
  {
    assert FormatInt(1) == "1";
    PostgresFormattedInteger(1, lib);
  }

  /** "0" is smallint with the PostgreSQL catalog, not boolean. */
  lemma PostgresSmallintZero(lib: LibraryParsers)
    ensures !IsBoolean("0")
    ensures InferredPosition("0", PostgreSQLAnalyzer.GetTypes(), lib) == 1
  {
    assert FormatInt(0) == "0";
    PostgresFormattedInteger(0, lib);
  }

  /** "-32768", the least 16-bit value, is smallint with the PostgreSQL catalog. */
  lemma PostgresSmallintMin(lib: LibraryParsers)
    ensures InferredPosition("-32768", PostgreSQLAnalyzer.GetTypes(), lib) == 1
  {
    assert FormatInt(-32768) == "-32768";
    PostgresFormattedInteger(-32768, lib);
  }

  /** "32767", the greatest 16-bit value, is smallint with the PostgreSQL catalog. */
  lemma PostgresSmallintMax(lib: LibraryParsers)
    ensures InferredPosition("32767", PostgreSQLAnalyzer.GetTypes(), lib) == 1
  {
    assert FormatInt(32767) == "32767";
    PostgresFormattedInteger(32767, lib);
  }

  /** "32768", one past the 16-bit range, is integer with the PostgreSQL catalog. */
  lemma PostgresIntegerPastSmallint(lib: LibraryParsers)
    ensures InferredPosition("32768", PostgreSQLAnalyzer.GetTypes(), lib) == 2
  {
    assert FormatInt(32768) == "32768";
    PostgresFormattedInteger(32768, lib);
  }

  /** "yes" is not one of the boolean words. */
  lemma NotBooleanYes()
    ensures !IsBoolean("yes")
  {
    TrimSpacePadded([], "yes", []);
    assert [] + "yes" + [] == "yes";
    assert ToLower("yes") == "yes";
  }

  /**
   * With the PostgreSQL catalog the decimal spelling of a 64-bit integer is
   * smallint within 16 bits, integer within 32 and bigint beyond, and never boolean.
   */
  lemma PostgresFormattedInteger(n: int, lib: LibraryParsers)
    requires -0x8000_0000_0000_0000 <= n < 0x8000_0000_0000_0000
    ensures !IsBoolean(FormatInt(n))
    ensures InferredPosition(FormatInt(n), PostgreSQLAnalyzer.GetTypes(), lib) ==
      if -0x8000 <= n < 0x8000 then 1
      else if -0x8000_0000 <= n < 0x8000_0000 then 2
      else 3
  {
    ParseFormatRoundTrip(n, 64);
    ParseIntExact(FormatInt(n), 64);
    DecimalLiteralNotBoolean(FormatInt(n));
    PostgresIntegerRanges(FormatInt(n), lib);
  }
}
