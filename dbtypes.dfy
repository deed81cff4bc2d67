/**
 * The type catalog: a database flavour's candidate column types in order of
 * preference, and the table of which types a value of each type also fits.
 */
module DbTypes {

  /** A candidate column type; a lower priority is a more specific type. */
  datatype DataType = DataType(name: string, priority: int)

  /** The supported database flavours; each supplies its own catalog. */
  datatype TypeAnalyzer = PostgreSQLAnalyzer
  {
    /** The catalog, most specific type first. */
    function GetTypes(): (r: seq<DataType>)
      ensures |r| == 8
      ensures forall i :: 0 <= i < |r| ==> r[i].priority == i + 1
    {
      match this
      case PostgreSQLAnalyzer =>
        [ DataType("boolean", 1),
          DataType("smallint", 2),
          DataType("integer", 3),
          DataType("bigint", 4),
          DataType("numeric", 5),
          DataType("timestamp", 6),
          DataType("date", 7),
          DataType("text", 8) ]
    }

    /** For each type, the types a value of it also fits, from itself to the least specific. */
    function GetTypeCompatibility(): (r: map<string, seq<string>>)
      ensures forall name :: name in r <==> name in Names(GetTypes())
    {
      match this
      case PostgreSQLAnalyzer =>
        assert Names(GetTypes())
            == ["boolean", "smallint", "integer", "bigint", "numeric", "timestamp", "date", "text"];
        map[
          "boolean" := ["boolean", "text"],
          "smallint" := ["smallint", "integer", "bigint", "numeric", "text"],
          "integer" := ["integer", "bigint", "numeric", "text"],
          "bigint" := ["bigint", "numeric", "text"],
          "numeric" := ["numeric", "text"],
          "timestamp" := ["timestamp", "date", "text"],
          "date" := ["date", "text"],
          "text" := ["text"]
        ]
    }
  }

  /** The names of a catalog, in catalog order. */
  function Names(types: seq<DataType>): seq<string> {
    seq(|types|, i requires 0 <= i < |types| => types[i].name)
  }

  /** The first catalog position holding `name`, or -1 when there is none. */
  function PositionOf(types: seq<DataType>, name: string): (r: int)
    ensures -1 <= r < |types|
  {
    if types == [] then -1
    else if types[0].name == name then 0
    else
      var p := PositionOf(types[1..], name);
      if p == -1 then -1 else p + 1
  }

  /** The PostgreSQL catalog lists exactly these eight names, in this order. */
  lemma PostgresTypeNames()
    ensures Names(PostgreSQLAnalyzer.GetTypes())
         == ["boolean", "smallint", "integer", "bigint", "numeric", "timestamp", "date", "text"]
  {
  }

  /** Priorities strictly increase along the catalog. */
  lemma PostgresPrioritiesIncrease()
    ensures forall i, j :: 0 <= i < j < |PostgreSQLAnalyzer.GetTypes()| ==>
      PostgreSQLAnalyzer.GetTypes()[i].priority < PostgreSQLAnalyzer.GetTypes()[j].priority
  {
  }

  /** No two catalog entries share a name. */
  predicate DistinctNames(types: seq<DataType>) {
    forall i, j :: 0 <= i < j < |types| ==> types[i].name != types[j].name
  }

  /** No name occurs twice, so each name has a single catalog position. */
  lemma PostgresNamesDistinct()
    ensures DistinctNames(PostgreSQLAnalyzer.GetTypes())
  {
  }

  /** The compatibility table has one entry per catalog type and no other. */
  lemma PostgresCompatibilityKeys()
    ensures |PostgreSQLAnalyzer.GetTypeCompatibility()| == 8
  {
    var m := PostgreSQLAnalyzer.GetTypeCompatibility();
    var names := Names(PostgreSQLAnalyzer.GetTypes());
    PostgresNamesDistinct();
    assert forall i, j :: 0 <= i < j < |names| ==> names[i] != names[j];
    DistinctCard(names);
    assert m.Keys == set x | x in names;
  }

  /** A sequence without repetitions has as many distinct elements as it has positions. */
  lemma {:induction false} DistinctCard<T>(q: seq<T>)
    requires forall i, j :: 0 <= i < j < |q| ==> q[i] != q[j]
    ensures |set x | x in q| == |q|
  {
    if q != [] {
      DistinctCard(q[1..]);
      assert (set x | x in q) == {q[0]} + (set x | x in q[1..]);
      assert q[0] !in q[1..];
    }
  }

  /** Each list starts with its own key and ends with "text"; "text" is compatible only with itself. */
  lemma PostgresCompatibilityEnds()
    ensures forall name :: name in PostgreSQLAnalyzer.GetTypeCompatibility() ==>
      var l := PostgreSQLAnalyzer.GetTypeCompatibility()[name];
      l != [] && l[0] == name && l[|l| - 1] == "text"
    ensures PostgreSQLAnalyzer.GetTypeCompatibility()["text"] == ["text"]
  {
  }

  /** `PositionOf` finds the first entry with the name, and -1 exactly when there is none. */
  lemma {:induction false} PositionOfFirst(types: seq<DataType>, name: string)
    ensures var r := PositionOf(types, name);
      (r >= 0 ==> types[r].name == name && forall j :: 0 <= j < r ==> types[j].name != name) &&
      (r == -1 ==> forall j :: 0 <= j < |types| ==> types[j].name != name)
  {
    if types != [] && types[0].name != name {
      PositionOfFirst(types[1..], name);
    }
  }

  /** In a catalog without repeated names, `PositionOf` finds each entry at its own position. */
  lemma PositionOfDistinct(types: seq<DataType>, i: int)
    requires DistinctNames(types)
    requires 0 <= i < |types|
    ensures PositionOf(types, types[i].name) == i
  {
    PositionOfFirst(types, types[i].name);
  }

  /** The entries of `l` are catalog names at strictly increasing positions. */
  predicate IncreasingPositions(types: seq<DataType>, l: seq<string>) {
    forall i, j :: 0 <= i < j < |l| ==> 0 <= PositionOf(types, l[i]) < PositionOf(types, l[j])
  }

  /** Names found at strictly increasing indices of a catalog without repeated names are at increasing positions. */
  lemma IncreasingAt(types: seq<DataType>, l: seq<string>, idx: seq<int>)
    requires DistinctNames(types)
    requires |idx| == |l|
    requires forall k :: 0 <= k < |l| ==> 0 <= idx[k] < |types| && types[idx[k]].name == l[k]
    requires forall j, k :: 0 <= j < k < |idx| ==> idx[j] < idx[k]
    ensures IncreasingPositions(types, l)
  {
    forall k | 0 <= k < |l|
      ensures PositionOf(types, l[k]) == idx[k]
    {
      PositionOfDistinct(types, idx[k]);
    }
  }

  /**
   * Compatibility lists name catalog types in strictly increasing catalog position,
   * so a type is compatible only with itself and less specific types: the smallint list.
   */
  lemma PostgresCompatibilityOrderedSmallint()
    ensures IncreasingPositions(PostgreSQLAnalyzer.GetTypes(), PostgreSQLAnalyzer.GetTypeCompatibility()["smallint"])
  {
    var types := PostgreSQLAnalyzer.GetTypes();
    var m := PostgreSQLAnalyzer.GetTypeCompatibility();
    PostgresNamesDistinct();
    IncreasingAt(types, m["smallint"], [1, 2, 3, 4, 7]);
  }

  /**
   * Compatibility lists name catalog types in strictly increasing catalog position,
   * so a type is compatible only with itself and less specific types: the integer and bigint lists.
   */
  lemma PostgresCompatibilityOrderedIntegerBigint()
    ensures IncreasingPositions(PostgreSQLAnalyzer.GetTypes(), PostgreSQLAnalyzer.GetTypeCompatibility()["integer"])
    ensures IncreasingPositions(PostgreSQLAnalyzer.GetTypes(), PostgreSQLAnalyzer.GetTypeCompatibility()["bigint"])
  {
    var types := PostgreSQLAnalyzer.GetTypes();
    var m := PostgreSQLAnalyzer.GetTypeCompatibility();
    PostgresNamesDistinct();
    IncreasingAt(types, m["integer"], [2, 3, 4, 7]);
    IncreasingAt(types, m["bigint"], [3, 4, 7]);
  }

  /**
   * Compatibility lists name catalog types in strictly increasing catalog position,
   * so a type is compatible only with itself and less specific types: the boolean and numeric lists.
   */
  lemma PostgresCompatibilityOrderedBooleanNumeric()
    ensures IncreasingPositions(PostgreSQLAnalyzer.GetTypes(), PostgreSQLAnalyzer.GetTypeCompatibility()["boolean"])
    ensures IncreasingPositions(PostgreSQLAnalyzer.GetTypes(), PostgreSQLAnalyzer.GetTypeCompatibility()["numeric"])
  {
    var types := PostgreSQLAnalyzer.GetTypes();
    var m := PostgreSQLAnalyzer.GetTypeCompatibility();
    PostgresNamesDistinct();
    IncreasingAt(types, m["boolean"], [0, 7]);
    IncreasingAt(types, m["numeric"], [4, 7]);
  }

  /**
   * Compatibility lists name catalog types in strictly increasing catalog position,
   * so a type is compatible only with itself and less specific types: the timestamp, date and text lists.
   */
  lemma PostgresCompatibilityOrderedTemporal()
    ensures IncreasingPositions(PostgreSQLAnalyzer.GetTypes(), PostgreSQLAnalyzer.GetTypeCompatibility()["timestamp"])
    ensures IncreasingPositions(PostgreSQLAnalyzer.GetTypes(), PostgreSQLAnalyzer.GetTypeCompatibility()["date"])
    ensures IncreasingPositions(PostgreSQLAnalyzer.GetTypes(), PostgreSQLAnalyzer.GetTypeCompatibility()["text"])
  {
    var types := PostgreSQLAnalyzer.GetTypes();
    var m := PostgreSQLAnalyzer.GetTypeCompatibility();
    PostgresNamesDistinct();
    IncreasingAt(types, m["timestamp"], [5, 6, 7]);
    IncreasingAt(types, m["date"], [6, 7]);
    IncreasingAt(types, m["text"], [7]);
  }
}
