/** `GetHistory.run_ETL`'s history path: `load(validate(extract_songs()))`,
    preceded by the id list that the constructor builds in `get_features`.
    The store is not modelled; an outcome says what `load` is handed. */
module Etl {
  import opened Results
  import opened Json
  import opened Frames
  import opened Extract
  import opened FeatureIds
  import opened Validation

  /** Why a run stops early. */
  datatype Abort =
    | ConstructorFailed(idList: LookupError)   // the id loop or join of `get_features` raised
    | ExtractionFailed(lookup: LookupError)
    | ValidationFailed(error: ValidationError)
    | LoadGivenFalse     // `load(False)`: `False.to_sql` raises AttributeError

  /** How a run of the history path ends: `load` receives a validated frame,
      the run finishes without loading, or it aborts. */
  datatype RunOutcome = Loaded(table: Table) | FinishedEmpty | Aborted(reason: Abort)

  /** The composition as written.  The constructor has already built the id
      list, so a payload whose ids cannot be collected or joined stops there;
      otherwise the `False` that `validate` returns for an empty frame is
      passed on to `load`. */
  function RunAsWritten(zone: Zone, receivedSongs: Json): (r: RunOutcome)
    ensures r.Aborted? && r.reason.ConstructorFailed? <==> CsvIdList(receivedSongs).Err?
    ensures r.Aborted? && r.reason.ExtractionFailed? ==>
      HasKey(receivedSongs, "items") && TrackLoopElements(receivedSongs.fields["items"]).Ok?
    ensures r.Loaded? ==> ExtractRows(receivedSongs).Ok? && CsvIdList(receivedSongs).Ok?
  {
    if CsvIdList(receivedSongs).Err? then
      Aborted(ConstructorFailed(CsvIdList(receivedSongs).error))
    else
      match ExtractRows(receivedSongs)
      case Err(e) => Aborted(ExtractionFailed(e))
      case Ok(rows) =>
        var t := SongTable(rows);
        match ValidateVerdict(zone, t)
        case NoSongs => Aborted(LoadGivenFalse)
        case Passed => Loaded(Localize(zone, t).value)
        case Raised(e) => Aborted(ValidationFailed(e))
  }

  /** The composition as intended: the same, except that an empty frame ends
      the run quietly, without calling `load`. */
  function Run(zone: Zone, receivedSongs: Json): (r: RunOutcome)
    ensures r.Aborted? && r.reason.ConstructorFailed? <==> CsvIdList(receivedSongs).Err?
    ensures r.Aborted? && r.reason.ExtractionFailed? ==>
      HasKey(receivedSongs, "items") && TrackLoopElements(receivedSongs.fields["items"]).Ok?
    ensures r.Loaded? ==> ExtractRows(receivedSongs).Ok? && CsvIdList(receivedSongs).Ok?
  {
    if CsvIdList(receivedSongs).Err? then
      Aborted(ConstructorFailed(CsvIdList(receivedSongs).error))
    else
      match ExtractRows(receivedSongs)
      case Err(e) => Aborted(ExtractionFailed(e))
      case Ok(rows) =>
        var t := SongTable(rows);
        match ValidateVerdict(zone, t)
        case NoSongs => FinishedEmpty
        case Passed => Loaded(Localize(zone, t).value)
        case Raised(e) => Aborted(ValidationFailed(e))
  }

  /** A day without plays (`"items": []`) crashes the run as written. */
  lemma NoPlaysCrashesAsWritten(zone: Zone, receivedSongs: Json)
    requires HasKey(receivedSongs, "items") && receivedSongs.fields["items"] == JArr([])
    ensures RunAsWritten(zone, receivedSongs) == Aborted(LoadGivenFalse)
  {
    NoPlaysGivesNoSongs(zone, receivedSongs);
  }

  /** `validate` returns False on the extracted frame exactly when there
      are no rows. */
  lemma {:induction false} NoSongsIffNoRows(zone: Zone, rows: seq<Row>)
    ensures ValidateVerdict(zone, SongTable(rows)) == NoSongs <==> rows == []
  {
    var t := SongTable(rows);
    if rows == [] {
      EmptyFrameReturnsFalse(zone, t);
    } else if Localize(zone, t).Some? {
      var u := Localize(zone, t).value;
      assert u.height == |rows| > 0;
      assert !IsEmpty(u);
    }
  }

  /** The intended run finishes without loading exactly when extraction
      succeeds with no rows, and that is the only case where it differs
      from the run as written. */
  lemma {:induction false} RunFinishesEmptyIff(zone: Zone, receivedSongs: Json)
    ensures Run(zone, receivedSongs) == FinishedEmpty <==> ExtractRows(receivedSongs) == Ok([])
    ensures Run(zone, receivedSongs) != RunAsWritten(zone, receivedSongs) <==>
      Run(zone, receivedSongs) == FinishedEmpty
  {
    if CsvIdList(receivedSongs).Ok? {
      if ExtractRows(receivedSongs).Ok? {
        NoSongsIffNoRows(zone, ExtractRows(receivedSongs).value);
      }
    } else if ExtractRows(receivedSongs).Ok? {
      IdsMatchSpotifyIdColumn(receivedSongs);
      assert ExtractRows(receivedSongs) != Ok([]);
    }
  }

  /** What `load` receives in the intended run is a non-empty frame with
      the six extracted columns and `date`, one row per play, distinct
      `played_at` instants and no missing cell. */
  lemma {:induction false} LoadedFrameIsClean(zone: Zone, receivedSongs: Json)
    requires Run(zone, receivedSongs).Loaded?
    ensures ExtractRows(receivedSongs).Ok?
    ensures var u := Run(zone, receivedSongs).table;
      && WellFormed(u)
      && u.columns == SONG_COLUMNS + [DATE]
      && u.height == |ExtractRows(receivedSongs).value| > 0
      && IsUnique(u.data[PLAYED_AT])
      && !HasNull(u)
  {
    var rows := ExtractRows(receivedSongs).value;
    ExtractedFrameValidates(zone, receivedSongs);
  }
}
