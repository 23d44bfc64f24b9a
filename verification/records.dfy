/**
 * The records the handlers build from a fetched result: `dict(zip(columns, row))` for each row,
 * where `columns` are the names of the result's columns in order.
 */
module RecordMaps {

  /** Python's `zip(columns, row)`: pairs up to the shorter of the two, in order. */
  function Zip<V>(columns: seq<string>, row: seq<V>): (pairs: seq<(string, V)>)
    ensures |pairs| == if |columns| < |row| then |columns| else |row|
    ensures forall i :: 0 <= i < |pairs| ==> pairs[i] == (columns[i], row[i])
  {
    if columns == [] || row == [] then []
    else [(columns[0], row[0])] + Zip(columns[1..], row[1..])
  }

  /** Python's `dict(pairs)`: the pairs are inserted in order, so a repeated key ends with its last value. */
  function Dict<V>(pairs: seq<(string, V)>): (d: map<string, V>)
    ensures d.Keys == set i | 0 <= i < |pairs| :: pairs[i].0
  {
    if pairs == [] then map[]
    else
      var last := pairs[|pairs| - 1];
      var d := Dict(pairs[..|pairs| - 1]);
      assert forall i :: 0 <= i < |pairs| - 1 ==> pairs[..|pairs| - 1][i] == pairs[i];
      d[last.0 := last.1]
  }

  /** A key is bound to the value of the last pair that carries it. */
  lemma {:induction false} DictLastWins<V>(pairs: seq<(string, V)>, i: nat)
    requires i < |pairs|
    requires forall j :: i < j < |pairs| ==> pairs[j].0 != pairs[i].0
    ensures pairs[i].0 in Dict(pairs) && Dict(pairs)[pairs[i].0] == pairs[i].1
  {
    var n := |pairs| - 1;
    if i < n {
      var init := pairs[..n];
      assert init[i] == pairs[i];
      assert forall j :: i < j < |init| ==> init[j] == pairs[j];
      DictLastWins(init, i);
    }
  }

  /** One row as a record: `dict(zip(columns, row))`. */
  function Record<V>(columns: seq<string>, row: seq<V>): (r: map<string, V>)
    ensures forall k :: k in r ==> k in columns
  {
    Dict(Zip(columns, row))
  }

  /** A record's keys are the names of the columns the row reaches, and no others. */
  lemma RecordKeys<V>(columns: seq<string>, row: seq<V>)
    ensures Record(columns, row).Keys == set i | 0 <= i < |columns| && i < |row| :: columns[i]
  {
    var pairs := Zip(columns, row);
    assert forall i :: 0 <= i < |pairs| ==> pairs[i].0 == columns[i];
  }

  /** A column maps to the row's value at the column's last position among the first min(|columns|, |row|). */
  lemma RecordValue<V>(columns: seq<string>, row: seq<V>, i: nat)
    requires i < |columns| && i < |row|
    requires forall j :: i < j < |columns| && j < |row| ==> columns[j] != columns[i]
    ensures columns[i] in Record(columns, row) && Record(columns, row)[columns[i]] == row[i]
  {
    DictLastWins(Zip(columns, row), i);
  }

  /** The result of a fetch as records: `[dict(zip(columns, row)) for row in rows]`. */
  function Records<V>(columns: seq<string>, rows: seq<seq<V>>): (r: seq<map<string, V>>)
    ensures |r| == |rows|
  {
    if rows == [] then [] else [Record(columns, rows[0])] + Records(columns, rows[1..])
  }

  /** Exactly one record per fetched row, in fetch order. */
  lemma {:induction false} RecordsInFetchOrder<V>(columns: seq<string>, rows: seq<seq<V>>)
    ensures |Records(columns, rows)| == |rows|
    ensures forall i :: 0 <= i < |rows| ==> Records(columns, rows)[i] == Record(columns, rows[i])
  {
    if rows != [] {
      RecordsInFetchOrder(columns, rows[1..]);
    }
  }

  /** A repeated column keeps the value from its later position; surplus values are dropped. */
  lemma RecordExamples()
    ensures Record(["A", "A"], [1, 2]) == map["A" := 2]
    ensures Record(["A", "B"], [1]) == map["A" := 1]
    ensures Record(["A"], [1, 2]) == map["A" := 1]
  {
    assert Zip(["A", "A"], [1, 2]) == [("A", 1), ("A", 2)];
    assert [("A", 1), ("A", 2)][..1] == [("A", 1)];
    assert Zip(["A", "B"], [1]) == [("A", 1)];
    assert Zip(["A"], [1, 2]) == [("A", 1)];
  }
}
