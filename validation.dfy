/** `GetHistory.validate`: converting the play timestamps to local time,
    adding the date column, and the emptiness, primary-key and null checks. */
module Validation {
  import opened Results
  import opened Json
  import opened Frames
  import opened Extract

  const PLAYED_AT: string := "played_at"
  const DATE: string := "date"

  /** The machine's time zone, left uninterpreted: `parse` stands for
      dateutil's `parse` followed by `astimezone(local_timezone)` (None when
      the string cannot be parsed), `dateOf` for `strftime("%Y-%m-%d")` in
      that zone. */
  datatype Zone = Zone(parse: string -> Option<LocalTime>, dateOf: LocalTime -> string)

  /** The exceptions `validate` raises. */
  datatype ValidationError =
    | TimestampUnparsable   // parse rejects the cell, or the cell is not a string
    | PrimaryKeyViolated    // "Primary key check is violated!"
    | NullValuesFound       // "Null values found!"

  /** How `validate` ends: it returns `False`, returns the frame, or raises. */
  datatype Verdict = NoSongs | Passed | Raised(error: ValidationError)

  /** The conversion of one `played_at` cell; only a string can be parsed. */
  function ToLocal(zone: Zone, c: Cell): (r: Result<LocalTime, ValidationError>)
    ensures r.Ok? <==> c.Raw? && c.j.JStr? && zone.parse(c.j.s).Some?
    ensures r.Ok? ==> zone.parse(c.j.s) == Some(r.value)
    ensures r.Err? ==> r.error == TimestampUnparsable
  {
    match c
    case Raw(JStr(s)) =>
      (match zone.parse(s)
       case Some(t) => Ok(t)
       case None => Err(TimestampUnparsable))
    case _ => Err(TimestampUnparsable)
  }

  /** `df.apply(lambda row: parse(row["played_at"]).astimezone(...), axis=1)` */
  function LocalizeColumn(zone: Zone, cells: seq<Cell>): (r: Result<seq<LocalTime>, ValidationError>)
    ensures r.Ok? <==> forall k :: 0 <= k < |cells| ==> ToLocal(zone, cells[k]).Ok?
    ensures r.Ok? ==> |r.value| == |cells| && forall k :: 0 <= k < |cells| ==> ToLocal(zone, cells[k]) == Ok(r.value[k])
    ensures r.Err? ==> r.error == TimestampUnparsable
  {
    MapAll((c: Cell) => ToLocal(zone, c), cells)
  }

  function TimeCells(times: seq<LocalTime>): (cells: seq<Cell>)
    ensures |cells| == |times| && forall k :: 0 <= k < |times| ==> cells[k] == Time(times[k])
  {
    seq(|times|, k requires 0 <= k < |times| => Time(times[k]))
  }

  function DateCells(zone: Zone, times: seq<LocalTime>): (cells: seq<Cell>)
    ensures |cells| == |times| && forall k :: 0 <= k < |times| ==> cells[k] == Raw(JStr(zone.dateOf(times[k])))
  {
    seq(|times|, k requires 0 <= k < |times| => Raw(JStr(zone.dateOf(times[k]))))
  }

  /** Every `played_at` cell converts. */
  predicate AllConvert(zone: Zone, t: Table)
    requires PLAYED_AT in t.data
  {
    forall k :: 0 <= k < |t.data[PLAYED_AT]| ==> ToLocal(zone, t.data[PLAYED_AT][k]).Ok?
  }

  /** The frame after lines 165-166, or None when some timestamp does not
      convert.  No row is added, dropped or moved: `played_at` holds each
      row's converted instant, `date` (appended, or overwritten if already
      there) holds that instant's calendar date, and every other column is
      untouched. */
  function Localize(zone: Zone, t: Table): (r: Option<Table>)
    requires WellFormed(t) && PLAYED_AT in t.columns
    ensures r.Some? <==> AllConvert(zone, t)
    ensures r.Some? ==>
      var u := r.value;
      && WellFormed(u) && u.height == t.height
      && u.columns == (if DATE in t.columns then t.columns else t.columns + [DATE])
      && (forall c :: c in t.data && c != PLAYED_AT && c != DATE ==> c in u.data && u.data[c] == t.data[c])
      && (forall k :: 0 <= k < t.height ==>
            var time := ToLocal(zone, t.data[PLAYED_AT][k]).value;
            && u.data[PLAYED_AT][k] == Time(time)
            && u.data[DATE][k] == Raw(JStr(zone.dateOf(time))))
  {
    match LocalizeColumn(zone, t.data[PLAYED_AT])
    case Err(_) => None
    case Ok(times) => Some(WithLocalTimes(zone, t, times))
  }

  /** Lines 165-166 once every instant is known: `played_at` overwritten
      with the instants, then `date` assigned their dates. */
  function WithLocalTimes(zone: Zone, t: Table, times: seq<LocalTime>): (u: Table)
    requires WellFormed(t) && PLAYED_AT in t.columns && |times| == t.height
    ensures WellFormed(u) && u.height == t.height
    ensures u.columns == (if DATE in t.columns then t.columns else t.columns + [DATE])
    ensures forall c :: c in t.data && c != PLAYED_AT && c != DATE ==> c in u.data && u.data[c] == t.data[c]
    ensures u.data[PLAYED_AT] == TimeCells(times) && u.data[DATE] == DateCells(zone, times)
  {
    var converted := WithColumn(t, PLAYED_AT, TimeCells(times));
    assert |PLAYED_AT| != |DATE|;
    WithColumn(converted, DATE, DateCells(zone, times))
  }

  /** The distinct values of a column, as `nunique(dropna=False)` counts them. */
  function Distinct(col: seq<Cell>): set<Cell>
  {
    set x | x in col
  }

  /** `pd.Series(col).is_unique`: no value occurs twice, which is pandas'
      own test that the number of distinct values equals the length. */
  predicate IsUnique(col: seq<Cell>)
    ensures IsUnique(col) <==> |Distinct(col)| == |col|
  {
    DistinctCount(col);
    forall i, j :: 0 <= i < j < |col| ==> col[i] != col[j]
  }

  /** A column has at most as many distinct values as cells, and exactly as
      many when no value repeats. */
  lemma {:induction false} DistinctCount(col: seq<Cell>)
    ensures |Distinct(col)| <= |col|
    ensures (forall i, j :: 0 <= i < j < |col| ==> col[i] != col[j]) <==> |Distinct(col)| == |col|
  {
    if col != [] {
      var init, x := col[..|col| - 1], col[|col| - 1];
      DistinctCount(init);
      assert col == init + [x];
      assert Distinct(col) == Distinct(init) + {x};
      if x in init {
        var i :| 0 <= i < |init| && init[i] == x;
        assert col[i] == col[|col| - 1];
        assert Distinct(col) == Distinct(init);
      } else {
        assert x !in Distinct(init);
        assert (forall i, j :: 0 <= i < j < |col| ==> col[i] != col[j]) <==>
               (forall i, j :: 0 <= i < j < |init| ==> init[i] != init[j]);
      }
    }
  }

  /** Lines 171-195 on the converted frame, in source order: empty, then
      primary key, then nulls.  No date-window filter is applied. */
  function Check(t: Table): (r: Verdict)
    requires PLAYED_AT in t.data
    ensures r == NoSongs <==> IsEmpty(t)
    ensures r == Raised(PrimaryKeyViolated) <==> !IsEmpty(t) && !IsUnique(t.data[PLAYED_AT])
    ensures r == Passed <==> !IsEmpty(t) && IsUnique(t.data[PLAYED_AT]) && !HasNull(t)
    ensures r != Raised(TimestampUnparsable)
  {
    if IsEmpty(t) then NoSongs
    else if !IsUnique(t.data[PLAYED_AT]) then Raised(PrimaryKeyViolated)
    else if HasNull(t) then Raised(NullValuesFound)
    else Passed
  }

  /** How `validate` ends on a frame holding `t`. */
  function ValidateVerdict(zone: Zone, t: Table): (r: Verdict)
    requires WellFormed(t) && PLAYED_AT in t.columns
    ensures r == Raised(TimestampUnparsable) <==> !AllConvert(zone, t)
    ensures r == NoSongs <==> AllConvert(zone, t) && t.height == 0
  {
    match Localize(zone, t)
    case None => Raised(TimestampUnparsable)
    case Some(u) => Check(u)
  }

  /** `validate(df)`: overwrites `played_at` and adds `date` in place, then
      checks.  A conversion failure leaves the frame as it was; otherwise the
      frame keeps its converted columns whatever the checks decide. */
  method Validate(zone: Zone, df: Frame) returns (v: Verdict)
    requires WellFormed(df.Value()) && PLAYED_AT in df.columns
    modifies df
    ensures v == ValidateVerdict(zone, old(df.Value()))
    ensures Localize(zone, old(df.Value())).None? ==> df.Value() == old(df.Value())
    ensures Localize(zone, old(df.Value())).Some? ==> df.Value() == Localize(zone, old(df.Value())).value
  {
    var times := LocalizeColumn(zone, df.data[PLAYED_AT]);
    if times.Err? {
      return Raised(TimestampUnparsable);
    }
    df.SetColumn(PLAYED_AT, TimeCells(times.value));
    df.SetColumn(DATE, DateCells(zone, times.value));

    if IsEmpty(df.Value()) {
      return NoSongs;
    }
    if !IsUnique(df.data[PLAYED_AT]) {
      return Raised(PrimaryKeyViolated);
    }
    if HasNull(df.Value()) {
      return Raised(NullValuesFound);
    }
    return Passed;
  }

  /** Some cell outside `played_at` and `date` is missing. */
  predicate HasNullOutsideTimestamps(t: Table)
  {
    exists c, k :: c in t.data && c != PLAYED_AT && c != DATE && 0 <= k < |t.data[c]| && IsNull(t.data[c][k])
  }

  /** The converted instants of two different rows are different. */
  predicate InstantsDistinct(zone: Zone, t: Table)
    requires PLAYED_AT in t.data && AllConvert(zone, t)
  {
    forall i, j :: 0 <= i < j < |t.data[PLAYED_AT]| ==>
      ToLocal(zone, t.data[PLAYED_AT][i]).value != ToLocal(zone, t.data[PLAYED_AT][j]).value
  }

  /** After conversion neither `played_at` nor `date` holds a null, so the
      null check sees exactly the nulls of the other columns. */
  lemma {:induction false} NullsAfterLocalize(zone: Zone, t: Table)
    requires WellFormed(t) && PLAYED_AT in t.columns && AllConvert(zone, t)
    ensures HasNull(Localize(zone, t).value) <==> HasNullOutsideTimestamps(t)
  {
    var u := Localize(zone, t).value;
    if HasNull(u) {
      var c, k :| c in u.data && 0 <= k < |u.data[c]| && IsNull(u.data[c][k]);
      assert k < t.height;
      assert u.data[PLAYED_AT][k].Time? && u.data[DATE][k].j.JStr?;
      assert c != PLAYED_AT && c != DATE;
      assert c in u.columns;
      assert c in t.columns;
      assert u.data[c] == t.data[c];
    }
    if HasNullOutsideTimestamps(t) {
      var c, k :| c in t.data && c != PLAYED_AT && c != DATE && 0 <= k < |t.data[c]| && IsNull(t.data[c][k]);
      assert u.data[c][k] == t.data[c][k];
    }
  }

  /** An empty frame makes `validate` return False: no exception, whatever
      the columns; the frame gains an empty `date` column. */
  lemma EmptyFrameReturnsFalse(zone: Zone, t: Table)
    requires WellFormed(t) && PLAYED_AT in t.columns && t.height == 0
    ensures Localize(zone, t).Some? && Localize(zone, t).value.height == 0
    ensures ValidateVerdict(zone, t) == NoSongs
  {
  }

  /** Two rows whose timestamps convert to the same instant make `validate`
      raise the primary-key error, even when their raw strings differ (the
      same instant written with two offsets) and whatever nulls the frame
      holds: the key check runs before the null check. */
  lemma {:induction false} DuplicateInstantRaises(zone: Zone, t: Table, i: int, j: int)
    requires WellFormed(t) && PLAYED_AT in t.columns && AllConvert(zone, t)
    requires 0 <= i < j < t.height
    requires ToLocal(zone, t.data[PLAYED_AT][i]) == ToLocal(zone, t.data[PLAYED_AT][j])
    ensures ValidateVerdict(zone, t) == Raised(PrimaryKeyViolated)
  {
    var u := Localize(zone, t).value;
    assert u.data[PLAYED_AT][i] == u.data[PLAYED_AT][j];
    assert !IsUnique(u.data[PLAYED_AT]);
  }

  /** With distinct converted instants, a single missing cell in any other
      column makes `validate` raise the null error. */
  lemma {:induction false} NullCellRaises(zone: Zone, t: Table, c: string, k: int)
    requires WellFormed(t) && PLAYED_AT in t.columns && AllConvert(zone, t) && InstantsDistinct(zone, t)
    requires c in t.columns && c != PLAYED_AT && c != DATE
    requires 0 <= k < t.height && IsNull(t.data[c][k])
    ensures ValidateVerdict(zone, t) == Raised(NullValuesFound)
  {
    var u := Localize(zone, t).value;
    assert u.data[c][k] == t.data[c][k];
    assert HasNull(u);
    assert IsUnique(u.data[PLAYED_AT]) by {
      forall a, b | 0 <= a < b < |u.data[PLAYED_AT]|
        ensures u.data[PLAYED_AT][a] != u.data[PLAYED_AT][b]
      {
        assert ToLocal(zone, t.data[PLAYED_AT][a]).value != ToLocal(zone, t.data[PLAYED_AT][b]).value;
      }
    }
  }

  /** `validate` returns the frame exactly when every timestamp converts,
      the frame has rows, the converted instants are distinct, and no cell
      outside the two timestamp columns is missing. */
  lemma {:induction false} PassedIff(zone: Zone, t: Table)
    requires WellFormed(t) && PLAYED_AT in t.columns
    ensures ValidateVerdict(zone, t) == Passed <==>
      && AllConvert(zone, t)
      && t.height > 0
      && InstantsDistinct(zone, t)
      && !HasNullOutsideTimestamps(t)
  {
    if AllConvert(zone, t) {
      var u := Localize(zone, t).value;
      NullsAfterLocalize(zone, t);
      if IsUnique(u.data[PLAYED_AT]) {
        forall a, b | 0 <= a < b < t.height
          ensures ToLocal(zone, t.data[PLAYED_AT][a]).value != ToLocal(zone, t.data[PLAYED_AT][b]).value
        {
          assert u.data[PLAYED_AT][a] != u.data[PLAYED_AT][b];
        }
      }
      if InstantsDistinct(zone, t) && t.height > 0 && !HasNullOutsideTimestamps(t) {
        forall a, b | 0 <= a < b < |u.data[PLAYED_AT]|
          ensures u.data[PLAYED_AT][a] != u.data[PLAYED_AT][b]
        {
          assert ToLocal(zone, t.data[PLAYED_AT][a]).value != ToLocal(zone, t.data[PLAYED_AT][b]).value;
        }
      }
    }
  }

  /** A frame that passes keeps every row in its place: nothing is dropped
      for its date, each row's `date` is the date of its own converted
      instant, and the other columns are those of the input. */
  lemma PassedKeepsEveryRow(zone: Zone, t: Table)
    requires WellFormed(t) && PLAYED_AT in t.columns
    requires ValidateVerdict(zone, t) == Passed
    ensures Localize(zone, t).Some?
    ensures var u := Localize(zone, t).value;
      && u.height == t.height
      && (forall c, k :: c in t.data && c != PLAYED_AT && c != DATE && 0 <= k < t.height ==> u.data[c][k] == t.data[c][k])
      && (forall k :: 0 <= k < t.height ==>
            u.data[PLAYED_AT][k].Time? && u.data[DATE][k] == Raw(JStr(zone.dateOf(u.data[PLAYED_AT][k].t))))
  {
  }

  /** The extracted table is what `validate` expects; when it passes, the
      frame has the six extracted columns followed by `date`, and one row per
      play item. */
  lemma ExtractedFrameValidates(zone: Zone, receivedSongs: Json)
    requires ExtractRows(receivedSongs).Ok?
    ensures var t := SongTable(ExtractRows(receivedSongs).value);
      WellFormed(t) && PLAYED_AT in t.columns
    ensures var t := SongTable(ExtractRows(receivedSongs).value);
      ValidateVerdict(zone, t) == Passed ==>
        Localize(zone, t).value.columns == SONG_COLUMNS + [DATE] &&
        Localize(zone, t).value.height == |ExtractRows(receivedSongs).value|
  {
  }

  /** A payload with no plays gives an empty table, and `validate` returns
      False on it. */
  lemma NoPlaysGivesNoSongs(zone: Zone, receivedSongs: Json)
    requires HasKey(receivedSongs, "items") && receivedSongs.fields["items"] == JArr([])
    ensures ExtractRows(receivedSongs) == Ok([])
    ensures ValidateVerdict(zone, SongTable([])) == NoSongs
  {
  }
}
