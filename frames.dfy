/** The part of a pandas DataFrame the history path uses: named columns of
    equal length, column assignment, `empty` and `isnull().values.any()`. */
module Frames {
  import opened Json

  /** An instant after conversion to the machine's time zone.  All converted
      timestamps share that zone, so two of them are equal exactly when they
      denote the same instant. */
  datatype LocalTime = LocalTime(epochMicros: int)

  /** A cell holds a decoded JSON value copied from the payload, or a
      converted timestamp. */
  datatype Cell = Raw(j: Json) | Time(t: LocalTime)

  /** pandas' notion of a missing value; JSON null becomes None. */
  predicate IsNull(c: Cell)
  {
    c == Raw(JNull)
  }

  /** The value of a frame: its column names in order, each column's cells,
      and the number of rows. */
  datatype Table = Table(columns: seq<string>, data: map<string, seq<Cell>>, height: nat)

  /** Column names are distinct, every named column has cells, and every
      column is exactly `height` long. */
  ghost predicate WellFormed(t: Table)
  {
    && (forall i, j :: 0 <= i < j < |t.columns| ==> t.columns[i] != t.columns[j])
    && (forall c :: c in t.data <==> c in t.columns)
    && (forall c :: c in t.data ==> |t.data[c]| == t.height)
  }

  /** `df.empty`: true when either axis has length zero. */
  predicate IsEmpty(t: Table)
    ensures WellFormed(t) ==> (IsEmpty(t) <==> forall c :: c in t.data ==> t.data[c] == [])
  {
    assert |t.columns| > 0 ==> t.columns[0] in t.columns;
    t.height == 0 || |t.columns| == 0
  }

  /** `df.isnull().values.any()`: some cell of some column is missing. */
  predicate HasNull(t: Table)
    ensures !HasNull(t) <==> forall c :: c in t.data ==> Raw(JNull) !in t.data[c]
  {
    exists c, k :: c in t.data && 0 <= k < |t.data[c]| && IsNull(t.data[c][k])
  }

  /** `df[name] = col`: replaces the column where it stands, or appends it as
      the last column when the frame has none of that name. */
  function WithColumn(t: Table, name: string, col: seq<Cell>): (r: Table)
    requires WellFormed(t) && |col| == t.height
    ensures WellFormed(r) && r.height == t.height
    ensures name in t.columns ==> r.columns == t.columns
    ensures name !in t.columns ==> r.columns == t.columns + [name]
    ensures r.data[name] == col
    ensures forall c :: c in t.data && c != name ==> c in r.data && r.data[c] == t.data[c]
  {
    Table(if name in t.columns then t.columns else t.columns + [name], t.data[name := col], t.height)
  }

  /** A DataFrame object: `validate` changes its columns in place. */
  class Frame {
    var columns: seq<string>
    var data: map<string, seq<Cell>>
    var height: nat

    function Value(): Table
      reads this
    {
      Table(columns, data, height)
    }

    /** `pd.DataFrame(song_dict, columns = keys)` */
    constructor (columns: seq<string>, data: map<string, seq<Cell>>, height: nat)
      requires WellFormed(Table(columns, data, height))
      ensures Value() == Table(columns, data, height)
    {
      this.columns := columns;
      this.data := data;
      this.height := height;
    }

    /** `df[name] = col` */
    method SetColumn(name: string, col: seq<Cell>)
      requires WellFormed(Value()) && |col| == height
      modifies this
      ensures Value() == WithColumn(old(Value()), name, col)
      ensures WellFormed(Value())
    {
      if name !in columns {
        columns := columns + [name];
      }
      data := data[name := col];
    }
  }
}
