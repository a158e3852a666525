/** The `ResultTable` component: from the data it is given to either the
    "No results found" notice or a table of a header and body rows.
    `JSON.stringify` is the parameter `stringify`; its formatting is not
    modelled. */
module ResultTable {
  import opened JsValues

  /** What the component renders. A cell is the text `JSON.stringify`
      returns, or nothing when the read gave undefined (`JSON.stringify`
      returns undefined for it). `Crash` is a TypeError thrown while
      rendering: a column read on a null row. */
  datatype View =
    | NoResults
    | Grid(header: seq<string>, body: seq<seq<Option<string>>>)
    | Crash

  /** The column names: `Object.keys(data[0] || {})`. Each column names a
      property the first row really has. */
  function Columns(first: Json): (cols: seq<string>)
    ensures Falsy(first) ==> cols == []
    ensures !Falsy(first) ==> cols == Keys(first)
    ensures first.Obj? && !Falsy(first) ==> forall k :: k in cols <==> HasKey(first.members, k)
    ensures forall i, j :: 0 <= i < j < |cols| ==> cols[i] != cols[j]
    ensures forall k :: k in cols ==> Get(first, k).Defined?
  {
    if Falsy(first) then [] else Keys(first)
  }

  /** One body cell: `JSON.stringify(row[column])`. `CellByKind` says what
      it is for each kind of row. */
  function Cell(row: Json, column: string, stringify: Json -> string): (c: Option<string>)
    requires !row.Null?
    ensures c.Some? <==> Get(row, column).Defined?
    ensures c.Some? ==> c.value == stringify(Get(row, column).value)
  {
    var read := Get(row, column);
    if read.Defined? then Some(stringify(read.value)) else None
  }

  /** A cell by the kind of row. An object row shows the value of the
      column's last member, and nothing when it has no such member. An array
      or string row shows its element at an index key and its length at
      "length", and nothing for any other key. A boolean or number row shows
      nothing. */
  lemma CellByKind(row: Json, column: string, stringify: Json -> string)
    requires !row.Null?
    ensures row.Obj? && !HasKey(row.members, column) ==> Cell(row, column, stringify) == None
    ensures row.Obj? ==> forall m :: IsLastWithKey(row.members, m, column) ==>
              Cell(row, column, stringify) == Some(stringify(row.members[m].1))
    ensures row.Arr? ==> forall i :: 0 <= i < |row.items| && column == Decimal(i) ==>
              Cell(row, column, stringify) == Some(stringify(row.items[i]))
    ensures row.Arr? && column == "length" ==> Cell(row, column, stringify) == Some(stringify(Num(|row.items|)))
    ensures row.Arr? && column != "length" && (forall i :: 0 <= i < |row.items| ==> Decimal(i) != column) ==>
              Cell(row, column, stringify) == None
    ensures row.Str? ==> forall i :: 0 <= i < |row.s| && column == Decimal(i) ==>
              Cell(row, column, stringify) == Some(stringify(Str([row.s[i]])))
    ensures row.Str? && column == "length" ==> Cell(row, column, stringify) == Some(stringify(Num(|row.s|)))
    ensures row.Str? && column != "length" && (forall i :: 0 <= i < |row.s| ==> Decimal(i) != column) ==>
              Cell(row, column, stringify) == None
    ensures row.Bool? || row.Num? ==> Cell(row, column, stringify) == None
  {
    match row {
      case Arr(items) => ArrayCell(items, column, stringify);
      case Str(s) => StringCell(s, column, stringify);
      case Obj(members) => ObjectMemberCell(members, column, stringify);
      case _ =>
    }
  }

  /** `CellByKind` for an array row. */
  lemma ArrayCell(items: seq<Json>, column: string, stringify: Json -> string)
    ensures forall i :: 0 <= i < |items| && column == Decimal(i) ==>
              Cell(Arr(items), column, stringify) == Some(stringify(items[i]))
    ensures column == "length" ==> Cell(Arr(items), column, stringify) == Some(stringify(Num(|items|)))
    ensures column != "length" && (forall i :: 0 <= i < |items| ==> Decimal(i) != column) ==>
              Cell(Arr(items), column, stringify) == None
  {
    forall i | 0 <= i < |items| && column == Decimal(i)
      ensures Cell(Arr(items), column, stringify) == Some(stringify(items[i]))
    {
      GetIndex(items, i);
    }
  }

  /** `CellByKind` for a string row. */
  lemma StringCell(s: string, column: string, stringify: Json -> string)
    ensures forall i :: 0 <= i < |s| && column == Decimal(i) ==>
              Cell(Str(s), column, stringify) == Some(stringify(Str([s[i]])))
    ensures column == "length" ==> Cell(Str(s), column, stringify) == Some(stringify(Num(|s|)))
    ensures column != "length" && (forall i :: 0 <= i < |s| ==> Decimal(i) != column) ==>
              Cell(Str(s), column, stringify) == None
  {
    forall i | 0 <= i < |s| && column == Decimal(i)
      ensures Cell(Str(s), column, stringify) == Some(stringify(Str([s[i]])))
    {
      IndexOfDecimal(i, |s|);
      assert Decimal(i)[0] != 'l';
    }
  }

  /** `CellByKind` for an object row. */
  lemma ObjectMemberCell(members: seq<(string, Json)>, column: string, stringify: Json -> string)
    ensures !HasKey(members, column) ==> Cell(Obj(members), column, stringify) == None
    ensures forall m :: IsLastWithKey(members, m, column) ==>
              Cell(Obj(members), column, stringify) == Some(stringify(members[m].1))
  {
    forall m | IsLastWithKey(members, m, column)
      ensures Cell(Obj(members), column, stringify) == Some(stringify(members[m].1))
    {
      GetMember(members, m);
    }
  }

  /** One body row: `columns.map(column => cell)`. */
  function RowCells(row: Json, columns: seq<string>, stringify: Json -> string): (cells: seq<Option<string>>)
    requires !row.Null? || columns == []
    ensures |cells| == |columns|
    ensures forall j :: 0 <= j < |columns| ==> cells[j] == Cell(row, columns[j], stringify)
  {
    if columns == [] then []
    else
      var init := columns[..|columns| - 1];
      assert forall j :: 0 <= j < |init| ==> init[j] == columns[j];
      RowCells(row, init, stringify) + [Cell(row, columns[|columns| - 1], stringify)]
  }

  /** The body: `data.map(row => RowCells(row))`. */
  function BodyRows(rows: seq<Json>, columns: seq<string>, stringify: Json -> string): (body: seq<seq<Option<string>>>)
    requires columns == [] || Null !in rows
    ensures |body| == |rows|
    ensures forall i :: 0 <= i < |rows| ==> body[i] == RowCells(rows[i], columns, stringify)
  {
    seq(|rows|, i requires 0 <= i < |rows| => RowCells(rows[i], columns, stringify))
  }

  /** The component. Data that is not an array, or is empty, renders the
      notice; otherwise the header holds the columns of the first row and the
      body one row per element, each with one cell per column. */
  function Render(data: Json, stringify: Json -> string): (v: View)
    ensures v.NoResults? <==> !data.Arr? || data.items == []
    ensures v.Crash? <==> data.Arr? && data.items != [] && Columns(data.items[0]) != [] && Null in data.items
    ensures v.Grid? ==> data.Arr? && data.items != [] && v.header == Columns(data.items[0])
    ensures v.Grid? ==> |v.body| == |data.items|
    ensures v.Grid? ==> forall i :: 0 <= i < |v.body| ==> |v.body[i]| == |v.header|
    ensures v.Grid? ==> forall i, j :: 0 <= i < |v.body| && 0 <= j < |v.header| ==>
                          !data.items[i].Null? && v.body[i][j] == Cell(data.items[i], v.header[j], stringify)
  {
    if !data.Arr? || data.items == [] then NoResults
    else
      var columns := Columns(data.items[0]);
      if columns != [] && Null in data.items then Crash
      else Grid(columns, BodyRows(data.items, columns, stringify))
  }

  // ---------------------------------------------------------------------
  // Properties of the rendered table.

  /** The columns depend on the first element only: replacing every later
      element leaves the header as it was. */
  lemma ColumnsFromFirstOnly(a: seq<Json>, b: seq<Json>, stringify: Json -> string)
    requires a != [] && b != [] && a[0] == b[0]
    requires Render(Arr(a), stringify).Grid? && Render(Arr(b), stringify).Grid?
    ensures Render(Arr(a), stringify).header == Render(Arr(b), stringify).header
  {
  }

  /** A key that only later rows have never becomes a column. */
  lemma LaterKeysNeverColumns(data: seq<Json>, k: string, stringify: Json -> string)
    requires Render(Arr(data), stringify).Grid?
    requires data[0].Null? || !Get(data[0], k).Defined?
    ensures k !in Render(Arr(data), stringify).header
  {
  }

  /** Every cell of the first body row is present. */
  lemma FirstRowComplete(data: seq<Json>, stringify: Json -> string)
    requires Render(Arr(data), stringify).Grid?
    ensures forall j :: 0 <= j < |Render(Arr(data), stringify).header| ==>
              Render(Arr(data), stringify).body[0][j].Some?
  {
    var v := Render(Arr(data), stringify);
    forall j | 0 <= j < |v.header| ensures v.body[0][j].Some? {
      assert v.header[j] in Columns(data[0]);
    }
  }

  /** A column that an object row lacks gives an absent cell in that row. */
  lemma MissingColumnAbsent(data: seq<Json>, i: nat, j: nat, stringify: Json -> string)
    requires Null !in data
    requires i < |data| && data[i].Obj?
    requires j < |Columns(data[0])| && Columns(data[0])[j] !in Keys(data[i])
    ensures Render(Arr(data), stringify).Grid?
    ensures Render(Arr(data), stringify).body[i][j] == None
  {
  }

  /** An object row shows, under a column it has, the value of that key's
      last occurrence. */
  lemma ObjectCell(data: seq<Json>, i: nat, j: nat, m: nat, stringify: Json -> string)
    requires Null !in data
    requires i < |data| && data[i].Obj?
    requires j < |Columns(data[0])|
    requires m < |data[i].members| && data[i].members[m].0 == Columns(data[0])[j]
    requires forall p :: m < p < |data[i].members| ==> data[i].members[p].0 != data[i].members[m].0
    ensures Render(Arr(data), stringify).Grid?
    ensures Render(Arr(data), stringify).body[i][j] == Some(stringify(data[i].members[m].1))
  {
    GetMember(data[i].members, m);
  }

  /** A non-empty array as first element gives the columns "0", "1", ...,
      and its own row shows its elements in order. */
  lemma ArrayFirstRow(data: seq<Json>, stringify: Json -> string)
    requires data != [] && data[0].Arr? && data[0].items != []
    requires Null !in data
    ensures Render(Arr(data), stringify).Grid?
    ensures Render(Arr(data), stringify).header == IndexKeys(|data[0].items|)
    ensures forall j :: 0 <= j < |data[0].items| ==>
              Render(Arr(data), stringify).body[0][j] == Some(stringify(data[0].items[j]))
  {
    var v := Render(Arr(data), stringify);
    forall j | 0 <= j < |data[0].items|
      ensures v.body[0][j] == Some(stringify(data[0].items[j]))
    {
      GetIndex(data[0].items, j);
    }
  }
}
