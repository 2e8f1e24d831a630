/** Tables of usage rows: the sum of a column, and the rows of one day, bucket or model. */
module UsageTables {
  import opened UsageTotals

  datatype Row = Row(usage: Totals, eventCount: nat)

  /** The key of a day-by-model or bucket-by-model row. */
  type Cell = (int, string)

  function RowOf<K>(table: map<K, Totals>, key: K): Totals {
    if key in table then table[key] else Zero
  }

  function Bump<K>(table: map<K, Totals>, key: K, usage: Totals): map<K, Totals> {
    table[key := Add(RowOf(table, key), usage)]
  }

  function BumpRow<K>(table: map<K, Row>, key: K, usage: Totals): map<K, Row>
    requires key in table
  {
    table[key := Row(Add(table[key].usage, usage), table[key].eventCount + 1)]
  }

  /** Rows of both tables, added where the keys meet. */
  function AddTables<K>(a: map<K, Totals>, b: map<K, Totals>): map<K, Totals> {
    map key | key in a.Keys + b.Keys :: Add(RowOf(a, key), RowOf(b, key))
  }

  function RowsAt<V>(table: map<Cell, V>, at: int): map<Cell, V> {
    map cell | cell in table && cell.0 == at :: table[cell]
  }

  function RowsFor<V>(table: map<Cell, V>, model: string): map<Cell, V> {
    map cell | cell in table && cell.1 == model :: table[cell]
  }

  // ---- Columns of numbers ----

  /** One component of every row. */
  function Column<K>(table: map<K, Totals>, p: Part): map<K, nat> {
    map key | key in table :: PartOf(table[key], p)
  }

  function RowColumn<K>(table: map<K, Row>, p: Part): map<K, nat> {
    map key | key in table :: PartOf(table[key].usage, p)
  }

  function Counts<K>(table: map<K, Row>): map<K, nat> {
    map key | key in table :: table[key].eventCount
  }

  function Value<K>(column: map<K, nat>, key: K): nat {
    if key in column then column[key] else 0
  }

  function Raise<K>(column: map<K, nat>, key: K, n: nat): map<K, nat> {
    column[key := Value(column, key) + n]
  }

  /** The sum of a column, in whatever order its rows are visited. */
  ghost function Sum<K>(column: map<K, nat>): nat {
    if column == map[] then 0
    else
      var key :| key in column;
      column[key] + Sum(column - {key})
  }

  lemma SomeMember<T>(members: set<T>) returns (member: T)
    requires members != {}
    ensures member in members
  {
    member :| member in members;
  }

  lemma SomeKey<K, V>(table: map<K, V>) returns (key: K)
    requires table.Keys != {}
    ensures key in table
  {
    key :| key in table.Keys;
  }

  /** Any row can be taken out first. */
  lemma {:induction false} SumTakeOut<K>(column: map<K, nat>, key: K)
    requires key in column
    ensures Sum(column) == column[key] + Sum(column - {key})
    decreases |column|
  {
    var first :| first in column && Sum(column) == column[first] + Sum(column - {first});
    if first != key {
      var rest := column - {first};
      SumTakeOut(rest, key);
      SumTakeOut(column - {key}, first);
      assert rest - {key} == column - {key} - {first};
    }
  }

  lemma EmptyColumn<K>(column: map<K, nat>)
    requires column.Keys == {}
    ensures Sum(column) == 0
  {
    assert column == map[];
  }

  lemma SumRaise<K>(column: map<K, nat>, key: K, n: nat)
    ensures Sum(Raise(column, key, n)) == Sum(column) + n
  {
    var raised := Raise(column, key, n);
    SumTakeOut(raised, key);
    assert raised - {key} == column - {key};
    if key in column {
      SumTakeOut(column, key);
    } else {
      assert column - {key} == column;
    }
  }

  /** Columns with no key in common add up. */
  lemma {:induction false} SumOfUnion<K>(a: map<K, nat>, b: map<K, nat>)
    requires a.Keys !! b.Keys
    ensures Sum(a + b) == Sum(a) + Sum(b)
    decreases a.Keys
  {
    if a.Keys == {} {
      assert a == map[] && a + b == b;
    } else {
      var key := SomeKey(a);
      SumOfUnion(a - {key}, b);
      SumTakeOut(a, key);
      SumTakeOut(a + b, key);
      assert (a + b) - {key} == (a - {key}) + b;
    }
  }

  // ---- How the table operations act on columns ----

  lemma BumpColumn<K>(table: map<K, Totals>, key: K, usage: Totals, p: Part)
    ensures Column(Bump(table, key, usage), p) == Raise(Column(table, p), key, PartOf(usage, p))
  {
    PartOfAdd(RowOf(table, key), usage, p);
  }

  lemma BumpRowColumn<K>(table: map<K, Row>, key: K, usage: Totals, p: Part)
    requires key in table
    ensures RowColumn(BumpRow(table, key, usage), p) == Raise(RowColumn(table, p), key, PartOf(usage, p))
    ensures Counts(BumpRow(table, key, usage)) == Raise(Counts(table), key, 1)
  {
    PartOfAdd(table[key].usage, usage, p);
  }

  function AddColumns<K>(a: map<K, nat>, b: map<K, nat>): map<K, nat> {
    map key | key in a.Keys + b.Keys :: Value(a, key) + Value(b, key)
  }

  lemma AddColumnsRaise<K>(a: map<K, nat>, b: map<K, nat>, key: K)
    requires key in b
    ensures AddColumns(a, b) == Raise(AddColumns(a, b - {key}), key, b[key])
  {
  }

  lemma {:induction false} SumOfAddedColumns<K>(a: map<K, nat>, b: map<K, nat>)
    ensures Sum(AddColumns(a, b)) == Sum(a) + Sum(b)
    decreases b.Keys
  {
    if b.Keys == {} {
      EmptyColumn(b);
      assert AddColumns(a, b) == a;
    } else {
      var key := SomeKey(b);
      var rest := AddColumns(a, b - {key});
      SumOfAddedColumns(a, b - {key});
      SumRaise(rest, key, b[key]);
      SumTakeOut(b, key);
      AddColumnsRaise(a, b, key);
    }
  }

  lemma SumOfAddedTables<K>(a: map<K, Totals>, b: map<K, Totals>, p: Part)
    ensures Sum(Column(AddTables(a, b), p)) == Sum(Column(a, p)) + Sum(Column(b, p))
  {
    forall key | key in a.Keys + b.Keys
      ensures Column(AddTables(a, b), p)[key] == AddColumns(Column(a, p), Column(b, p))[key]
    {
      PartOfAdd(RowOf(a, key), RowOf(b, key), p);
      ValueOfColumn(a, key, p);
      ValueOfColumn(b, key, p);
    }
    assert Column(AddTables(a, b), p) == AddColumns(Column(a, p), Column(b, p));
    SumOfAddedColumns(Column(a, p), Column(b, p));
  }

  lemma ValueOfColumn<K>(table: map<K, Totals>, key: K, p: Part)
    ensures PartOf(RowOf(table, key), p) == Value(Column(table, p), key)
  {
  }

  // ---- Rows that equal the sum of their cells ----

  /** Every row is the sum of its cells, and there are no other cells. */
  ghost predicate RowsMatchCells(rows: map<int, nat>, cells: map<Cell, nat>) {
    && (forall at | at in rows :: rows[at] == Sum(RowsAt(cells, at)))
    && forall cell | cell in cells :: cell.0 in rows
  }

  ghost predicate ModelsMatchCells(models: map<string, nat>, cells: map<Cell, nat>) {
    && (forall model | model in models :: models[model] == Sum(RowsFor(cells, model)))
    && forall cell | cell in cells :: cell.1 in models
  }

  lemma RaiseAt(cells: map<Cell, nat>, cell: Cell, n: nat, at: int)
    ensures Sum(RowsAt(Raise(cells, cell, n), at)) == Sum(RowsAt(cells, at)) + if cell.0 == at then n else 0
  {
    if cell.0 == at {
      SumRaise(RowsAt(cells, at), cell, n);
      assert RowsAt(Raise(cells, cell, n), at) == Raise(RowsAt(cells, at), cell, n);
    } else {
      assert RowsAt(Raise(cells, cell, n), at) == RowsAt(cells, at);
    }
  }

  lemma RaiseFor(cells: map<Cell, nat>, cell: Cell, n: nat, model: string)
    ensures Sum(RowsFor(Raise(cells, cell, n), model)) == Sum(RowsFor(cells, model)) + if cell.1 == model then n else 0
  {
    if cell.1 == model {
      SumRaise(RowsFor(cells, model), cell, n);
      assert RowsFor(Raise(cells, cell, n), model) == Raise(RowsFor(cells, model), cell, n);
    } else {
      assert RowsFor(Raise(cells, cell, n), model) == RowsFor(cells, model);
    }
  }

  lemma RaiseKeepsRows(rows: map<int, nat>, cells: map<Cell, nat>, cell: Cell, n: nat)
    requires RowsMatchCells(rows, cells) && cell.0 in rows
    ensures RowsMatchCells(Raise(rows, cell.0, n), Raise(cells, cell, n))
  {
    forall at | at in rows
      ensures Raise(rows, cell.0, n)[at] == Sum(RowsAt(Raise(cells, cell, n), at))
    {
      RaiseAt(cells, cell, n, at);
    }
  }

  lemma RaiseKeepsModels(models: map<string, nat>, cells: map<Cell, nat>, cell: Cell, n: nat)
    requires ModelsMatchCells(models, cells)
    ensures ModelsMatchCells(Raise(models, cell.1, n), Raise(cells, cell, n))
  {
    forall model | model in Raise(models, cell.1, n)
      ensures Raise(models, cell.1, n)[model] == Sum(RowsFor(Raise(cells, cell, n), model))
    {
      RaiseFor(cells, cell, n, model);
      if model !in models {
        assert RowsFor(cells, model) == map[];
      }
    }
  }

  lemma WithoutRow(cells: map<Cell, nat>, at: int, other: int)
    requires at != other
    ensures RowsAt(cells - RowsAt(cells, at).Keys, other) == RowsAt(cells, other)
    ensures Sum(cells) == Sum(RowsAt(cells, at)) + Sum(cells - RowsAt(cells, at).Keys)
  {
    var row := RowsAt(cells, at);
    SumOfUnion(row, cells - row.Keys);
    assert row + (cells - row.Keys) == cells;
  }

  lemma WithoutModel(cells: map<Cell, nat>, model: string, other: string)
    requires model != other
    ensures RowsFor(cells - RowsFor(cells, model).Keys, other) == RowsFor(cells, other)
    ensures Sum(cells) == Sum(RowsFor(cells, model)) + Sum(cells - RowsFor(cells, model).Keys)
  {
    var row := RowsFor(cells, model);
    SumOfUnion(row, cells - row.Keys);
    assert row + (cells - row.Keys) == cells;
  }

  /** When each row is the sum of its cells, the rows and the cells have the same sum. */
  lemma {:induction false} RowsAndCellsHaveOneSum(rows: map<int, nat>, cells: map<Cell, nat>)
    requires RowsMatchCells(rows, cells)
    ensures Sum(rows) == Sum(cells)
    decreases rows.Keys
  {
    if rows.Keys == {} {
      if cells.Keys != {} {
        var cell := SomeKey(cells);
      }
      EmptyColumn(rows);
      EmptyColumn(cells);
    } else {
      var at := SomeKey(rows);
      var others := cells - RowsAt(cells, at).Keys;
      forall other | other != at
        ensures RowsAt(others, other) == RowsAt(cells, other)
      {
        WithoutRow(cells, at, other);
      }
      RowsAndCellsHaveOneSum(rows - {at}, others);
      WithoutRow(cells, at, at + 1);
      SumTakeOut(rows, at);
    }
  }

  lemma {:induction false} ModelsAndCellsHaveOneSum(models: map<string, nat>, cells: map<Cell, nat>)
    requires ModelsMatchCells(models, cells)
    ensures Sum(models) == Sum(cells)
    decreases models.Keys
  {
    if models.Keys == {} {
      if cells.Keys != {} {
        var cell := SomeKey(cells);
      }
      EmptyColumn(models);
      EmptyColumn(cells);
    } else {
      var model := SomeKey(models);
      var others := cells - RowsFor(cells, model).Keys;
      forall other | other != model
        ensures RowsFor(others, other) == RowsFor(cells, other)
      {
        WithoutModel(cells, model, other);
      }
      ModelsAndCellsHaveOneSum(models - {model}, others);
      WithoutModel(cells, model, model + " ");
      SumTakeOut(models, model);
    }
  }
}
