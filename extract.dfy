/** `GetHistory.extract_songs`: flattening the recently-played payload into a
    six-column table, one row per play. */
module Extract {
  import opened Results
  import opened Json
  import opened Frames

  /** The six values kept of one play, still as the payload holds them. */
  datatype Row = Row(
    spotifyId: Json,
    uri: Json,
    songName: Json,
    artistName: Json,
    playedAt: Json,
    durationMs: Json)

  /** The columns of the extracted table, in order.  The date prefix of
      `played_at` is computed but is not one of them. */
  const SONG_COLUMNS: seq<string> :=
    ["spotify_id", "uri", "song_name", "artist_name", "played_at", "duration_ms"]

  /** The album artists of a track, when the item has that path. */
  function AlbumArtists(song: Json): Json
  {
    if HasKey(song, "track") && HasKey(song.fields["track"], "album")
       && HasKey(song.fields["track"].fields["album"], "artists")
    then song.fields["track"].fields["album"].fields["artists"]
    else JNull
  }

  /** An item on which every lookup of the loop body before the `[0:10]`
      slice succeeds: a `track` object with `id`, `uri`, `name` and `album`,
      an album whose `artists` is a non-empty list whose first element is an
      object with a `name`, and a `played_at` key. */
  predicate ReachesSlice(song: Json)
  {
    && HasKey(song, "track")
    && HasKey(song, "played_at")
    && (var track := song.fields["track"];
        && HasKey(track, "id") && HasKey(track, "uri") && HasKey(track, "name")
        && HasKey(track, "album")
        && HasKey(track.fields["album"], "artists"))
    && (var artists := AlbumArtists(song);
        artists.JArr? && |artists.elems| > 0 && HasKey(artists.elems[0], "name"))
  }

  /** An item every lookup of the loop body succeeds on: it reaches the
      slice, its `played_at` can be sliced (a string or a list), and its
      track has a `duration_ms`. */
  predicate IsPlayItem(song: Json)
  {
    && ReachesSlice(song)
    && (song.fields["played_at"].JStr? || song.fields["played_at"].JArr?)
    && HasKey(song.fields["track"], "duration_ms")
  }

  /** The row a well-shaped item gives: the track's fields verbatim, the name
      of the first album artist, and the raw `played_at`. */
  function PlayRow(song: Json): Row
    requires IsPlayItem(song)
  {
    var track := song.fields["track"];
    Row(track.fields["id"], track.fields["uri"], track.fields["name"],
        AlbumArtists(song).elems[0].fields["name"],
        song.fields["played_at"], track.fields["duration_ms"])
  }

  /** One pass of the loop body, with its lookups in source order; the first
      lookup that fails decides the exception. */
  function RowOf(song: Json): (r: Result<Row, LookupError>)
    ensures r.Ok? <==> IsPlayItem(song)
    ensures r.Ok? ==> r.value == PlayRow(song)
  {
    var track :- Get(song, "track");
    var id :- Get(track, "id");
    var uri :- Get(track, "uri");
    var name :- Get(track, "name");
    var album :- Get(track, "album");
    var artists :- Get(album, "artists");
    var firstArtist :- First(artists);
    var artist :- Get(firstArtist, "name");
    var playedAt :- Get(song, "played_at");
    var day :- Prefix(playedAt, 10);
    var duration :- Get(track, "duration_ms");
    Ok(Row(id, uri, name, artist, playedAt, duration))
  }

  /** What `extract_songs` computes, as a value: the rows of all items of
      `receivedSongs["items"]`, or the first lookup error. */
  function ExtractRows(receivedSongs: Json): (r: Result<seq<Row>, LookupError>)
    ensures r.Ok? ==> HasKey(receivedSongs, "items") && TrackLoopElements(receivedSongs.fields["items"]).Ok?
    ensures r.Ok? ==>
      var songs := TrackLoopElements(receivedSongs.fields["items"]).value;
      |r.value| == |songs| && forall k :: 0 <= k < |songs| ==> RowOf(songs[k]) == Ok(r.value[k])
  {
    var items :- Get(receivedSongs, "items");
    var songs :- TrackLoopElements(items);
    MapAll(RowOf, songs)
  }

  function Cells(values: seq<Json>): (cells: seq<Cell>)
    ensures |cells| == |values|
    ensures forall k :: 0 <= k < |values| ==> cells[k] == Raw(values[k])
  {
    seq(|values|, k requires 0 <= k < |values| => Raw(values[k]))
  }

  /** The value a row holds for one of the six columns. */
  function Field(row: Row, column: string): Json
  {
    match column
    case "spotify_id" => row.spotifyId
    case "uri" => row.uri
    case "song_name" => row.songName
    case "artist_name" => row.artistName
    case "played_at" => row.playedAt
    case "duration_ms" => row.durationMs
    case _ => JNull
  }

  function Column(rows: seq<Row>, column: string): (cells: seq<Cell>)
    ensures |cells| == |rows|
    ensures forall k :: 0 <= k < |rows| ==> cells[k] == Raw(Field(rows[k], column))
  {
    seq(|rows|, k requires 0 <= k < |rows| => Raw(Field(rows[k], column)))
  }

  /** The list of one column's values, as `extract_songs` accumulates it. */
  function Project(rows: seq<Row>, column: string): (values: seq<Json>)
    ensures |values| == |rows|
    ensures forall k :: 0 <= k < |rows| ==> values[k] == Field(rows[k], column)
  {
    seq(|rows|, k requires 0 <= k < |rows| => Field(rows[k], column))
  }

  /** Appending a row appends its value to each column's list. */
  lemma ProjectExtend(rows: seq<Row>, row: Row)
    ensures Project(rows + [row], "spotify_id") == Project(rows, "spotify_id") + [row.spotifyId]
    ensures Project(rows + [row], "uri") == Project(rows, "uri") + [row.uri]
    ensures Project(rows + [row], "song_name") == Project(rows, "song_name") + [row.songName]
    ensures Project(rows + [row], "artist_name") == Project(rows, "artist_name") + [row.artistName]
    ensures Project(rows + [row], "played_at") == Project(rows, "played_at") + [row.playedAt]
    ensures Project(rows + [row], "duration_ms") == Project(rows, "duration_ms") + [row.durationMs]
  {
    forall c | c in SONG_COLUMNS
      ensures Project(rows + [row], c) == Project(rows, c) + [Field(row, c)]
    {
    }
  }

  /** The DataFrame built from the rows: exactly the six columns, in order,
      one row per element of `rows`, the k-th cell of a column holding the
      k-th row's value for it. */
  function SongTable(rows: seq<Row>): (t: Table)
    ensures WellFormed(t) && t.columns == SONG_COLUMNS && t.height == |rows|
    ensures "date" !in t.columns
    ensures forall c, k :: c in SONG_COLUMNS && 0 <= k < |rows| ==> t.data[c][k] == Raw(Field(rows[k], c))
  {
    Table(SONG_COLUMNS, map c | c in SONG_COLUMNS :: Column(rows, c), |rows|)
  }

  /** `extract_songs`: one loop over the items appending to seven lists, then
      a DataFrame of six of them. */
  method ExtractSongs(receivedSongs: Json) returns (r: Result<Frame, LookupError>)
    ensures r.Err? <==> ExtractRows(receivedSongs).Err?
    ensures r.Err? ==> r.error == ExtractRows(receivedSongs).error
    ensures r.Ok? ==> fresh(r.value) && r.value.Value() == SongTable(ExtractRows(receivedSongs).value)
  {
    var items :- Get(receivedSongs, "items");
    var songs :- TrackLoopElements(items);

    var spotifyId: seq<Json> := [];
    var uri: seq<Json> := [];
    var songNames: seq<Json> := [];
    var artistNames: seq<Json> := [];
    var playedAtList: seq<Json> := [];
    var date: seq<Json> := [];
    var duration: seq<Json> := [];
    ghost var rows: seq<Row> := [];

    var i := 0;
    while i < |songs|
      invariant 0 <= i <= |songs|
      invariant MapAll(RowOf, songs[..i]) == Ok(rows)
      invariant spotifyId == Project(rows, "spotify_id") && uri == Project(rows, "uri")
      invariant songNames == Project(rows, "song_name") && artistNames == Project(rows, "artist_name")
      invariant playedAtList == Project(rows, "played_at") && duration == Project(rows, "duration_ms")
      invariant |date| == i
    {
      var song := RowOf(songs[i]);
      if song.Err? {
        MapAllFailsAt(RowOf, songs, i, rows);
        return Err(song.error);
      }
      var row := song.value;
      spotifyId := spotifyId + [row.spotifyId];
      uri := uri + [row.uri];
      songNames := songNames + [row.songName];
      artistNames := artistNames + [row.artistName];
      playedAtList := playedAtList + [row.playedAt];
      date := date + [Prefix(row.playedAt, 10).value];
      duration := duration + [row.durationMs];

      ProjectExtend(rows, row);
      MapAllExtend(RowOf, songs, i, rows);
      rows := rows + [row];
      i := i + 1;
    }
    assert songs[..i] == songs;

    var songDict := map[
      "spotify_id" := Cells(spotifyId),
      "uri" := Cells(uri),
      "song_name" := Cells(songNames),
      "artist_name" := Cells(artistNames),
      "played_at" := Cells(playedAtList),
      "duration_ms" := Cells(duration)];
    SongDictIsTable(rows);
    var songFrame := new Frame(SONG_COLUMNS, songDict, |spotifyId|);
    return Ok(songFrame);
  }

  /** The dictionary of six lists that `extract_songs` hands to pandas holds
      the table of the rows those lists were filled from. */
  lemma SongDictIsTable(rows: seq<Row>)
    ensures map[
      "spotify_id" := Cells(Project(rows, "spotify_id")),
      "uri" := Cells(Project(rows, "uri")),
      "song_name" := Cells(Project(rows, "song_name")),
      "artist_name" := Cells(Project(rows, "artist_name")),
      "played_at" := Cells(Project(rows, "played_at")),
      "duration_ms" := Cells(Project(rows, "duration_ms"))] == SongTable(rows).data
  {
    CellsOfProject(rows, "spotify_id");
    CellsOfProject(rows, "uri");
    CellsOfProject(rows, "song_name");
    CellsOfProject(rows, "artist_name");
    CellsOfProject(rows, "played_at");
    CellsOfProject(rows, "duration_ms");
  }

  lemma CellsOfProject(rows: seq<Row>, column: string)
    ensures Cells(Project(rows, column)) == Column(rows, column)
  {
  }

  /** Extraction succeeds exactly when the payload has `items`, and `items`
      is a list of well-shaped play items (or an empty dict or string, which
      the loop runs over zero times). */
  lemma ExtractSucceedsIff(receivedSongs: Json)
    ensures ExtractRows(receivedSongs).Ok? <==>
      && HasKey(receivedSongs, "items")
      && (var items := receivedSongs.fields["items"];
          || (items.JArr? && forall k :: 0 <= k < |items.elems| ==> IsPlayItem(items.elems[k]))
          || items == JObj(map[])
          || items == JStr([]))
  {
  }

  /** One row per element of `items`, in the same order: the k-th row holds
      the k-th item's track id, uri, name and duration verbatim, its raw
      `played_at`, and the name of its first album artist. */
  lemma OneRowPerItem(receivedSongs: Json)
    requires ExtractRows(receivedSongs).Ok?
    ensures HasKey(receivedSongs, "items")
    ensures var items := receivedSongs.fields["items"];
            var rows := ExtractRows(receivedSongs).value;
      && (items.JArr? ==>
            && |rows| == |items.elems|
            && forall k :: 0 <= k < |rows| ==>
                 var track := items.elems[k].fields["track"];
                 && IsPlayItem(items.elems[k])
                 && rows[k].spotifyId == track.fields["id"]
                 && rows[k].uri == track.fields["uri"]
                 && rows[k].songName == track.fields["name"]
                 && rows[k].artistName == track.fields["album"].fields["artists"].elems[0].fields["name"]
                 && rows[k].playedAt == items.elems[k].fields["played_at"]
                 && rows[k].durationMs == track.fields["duration_ms"])
      && (!items.JArr? ==> rows == [])
  {
    var items := receivedSongs.fields["items"];
    if items.JArr? {
      var rows := ExtractRows(receivedSongs).value;
      forall k | 0 <= k < |rows|
        ensures IsPlayItem(items.elems[k]) && rows[k] == PlayRow(items.elems[k])
      {
        assert RowOf(items.elems[k]) == Ok(rows[k]);
      }
    }
  }

  /** Only the first album artist is read: replacing every other artist of
      the list leaves the extracted row unchanged. */
  lemma OtherArtistsIgnored(song: Json, others: seq<Json>)
    requires IsPlayItem(song)
    ensures var first := AlbumArtists(song).elems[0];
            RowOf(WithAlbumArtists(song, [first] + others)) == RowOf(song)
  {
    var first := AlbumArtists(song).elems[0];
    var changed := WithAlbumArtists(song, [first] + others);
    assert AlbumArtists(changed) == JArr([first] + others);
    assert IsPlayItem(changed);
  }

  /** `song` with its track's album artists replaced by `artists`. */
  function WithAlbumArtists(song: Json, artists: seq<Json>): Json
    requires IsPlayItem(song)
  {
    var track := song.fields["track"];
    var album := track.fields["album"];
    JObj(song.fields["track" := JObj(track.fields["album" := JObj(album.fields["artists" := JArr(artists)])])])
  }

  /** A play whose `played_at` is null (or a number, a boolean, a dict)
      makes extraction raise, at the `[0:10]` slice when nothing earlier has
      raised: no such value reaches the table, so the null check of
      `validate` never sees a null `played_at`. */
  lemma UnsliceablePlayedAtAborts(receivedSongs: Json, k: int)
    requires HasKey(receivedSongs, "items") && receivedSongs.fields["items"].JArr?
    requires 0 <= k < |receivedSongs.fields["items"].elems|
    requires var song := receivedSongs.fields["items"].elems[k];
             HasKey(song, "played_at") && !song.fields["played_at"].JStr? && !song.fields["played_at"].JArr?
    ensures ExtractRows(receivedSongs).Err?
  {
    var items := receivedSongs.fields["items"].elems;
    assert !IsPlayItem(items[k]);
    assert RowOf(items[k]).Err?;
  }

  /** When the items before it are plays and every lookup before the slice
      succeeds on it, an unsliceable `played_at` is what stops extraction, and
      the exception is the slice's TypeError. */
  lemma SliceErrorIsTypeError(receivedSongs: Json, k: int)
    requires HasKey(receivedSongs, "items") && receivedSongs.fields["items"].JArr?
    requires var items := receivedSongs.fields["items"].elems;
      && 0 <= k < |items|
      && (forall i :: 0 <= i < k ==> IsPlayItem(items[i]))
      && ReachesSlice(items[k])
      && !items[k].fields["played_at"].JStr? && !items[k].fields["played_at"].JArr?
    ensures ExtractRows(receivedSongs) == Err(TypeError)
  {
    var items := receivedSongs.fields["items"].elems;
    assert RowOf(items[k]) == Err(TypeError);
    MapAllStopsAtFirstFailure(RowOf, items, k);
  }
}
