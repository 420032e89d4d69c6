/** The comma-separated list of track ids that `GetHistory.get_features`
    sends to the audio-features endpoint. */
module FeatureIds {
  import opened Results
  import opened Json
  import opened Frames
  import opened Extract

  const SEPARATOR: char := ','

  /** `ids["track"]["id"]` for one item. */
  function TrackId(song: Json): (r: Result<Json, LookupError>)
    ensures r.Ok? <==> HasKey(song, "track") && HasKey(song.fields["track"], "id")
    ensures r.Ok? ==> r.value == song.fields["track"].fields["id"]
  {
    var track :- Get(song, "track");
    Get(track, "id")
  }

  /** The ids the loop collects: every item's track id in item order, or the
      first lookup error. */
  function TrackIds(receivedSongs: Json): (r: Result<seq<Json>, LookupError>)
    ensures r.Ok? ==> HasKey(receivedSongs, "items") && TrackLoopElements(receivedSongs.fields["items"]).Ok?
    ensures r.Ok? ==>
      var songs := TrackLoopElements(receivedSongs.fields["items"]).value;
      |r.value| == |songs| && forall k :: 0 <= k < |songs| ==> TrackId(songs[k]) == Ok(r.value[k])
  {
    var items :- Get(receivedSongs, "items");
    var songs :- TrackLoopElements(items);
    MapAll(TrackId, songs)
  }

  /** Python's `sep.join(parts)` on a list of strings. */
  function Join(parts: seq<string>, sep: char): string
  {
    if parts == [] then ""
    else if |parts| == 1 then parts[0]
    else parts[0] + [sep] + Join(parts[1..], sep)
  }

  /** Python's `s.split(sep)` for a one-character separator: the pieces
      between separators, with an empty piece at each end that starts or
      ends with one; `"".split(sep)` is `[""]`. */
  function Split(s: string, sep: char): (parts: seq<string>)
    ensures |parts| > 0
  {
    if s == [] then [[]]
    else
      var rest := Split(s[1..], sep);
      if s[0] == sep then [[]] + rest else [[s[0]] + rest[0]] + rest[1..]
  }

  /** The strings held by `ids`, when every one of them is a string. */
  function Strings(ids: seq<Json>): (strs: seq<string>)
    requires forall k :: 0 <= k < |ids| ==> ids[k].JStr?
    ensures |strs| == |ids| && forall k :: 0 <= k < |ids| ==> ids[k] == JStr(strs[k])
  {
    seq(|ids|, k requires 0 <= k < |ids| => ids[k].s)
  }

  /** `','.join(spotify_id)`: TypeError unless every id is a string, which
      is what a track without an id (a local file: JSON null) runs into. */
  function JoinIds(ids: seq<Json>): (r: Result<string, LookupError>)
    ensures r.Ok? <==> forall k :: 0 <= k < |ids| ==> ids[k].JStr?
    ensures r.Err? ==> r.error == TypeError
  {
    if forall k :: 0 <= k < |ids| ==> ids[k].JStr? then Ok(Join(Strings(ids), SEPARATOR))
    else Err(TypeError)
  }

  /** The id string as a value: the ids collected, then joined. */
  function CsvIdList(receivedSongs: Json): (r: Result<string, LookupError>)
    ensures r.Ok? <==> TrackIds(receivedSongs).Ok? && forall k :: 0 <= k < |TrackIds(receivedSongs).value| ==> TrackIds(receivedSongs).value[k].JStr?
  {
    var ids :- TrackIds(receivedSongs);
    JoinIds(ids)
  }

  /** Lines 87-92 of `get_features`: a loop appending each item's track id,
      then a join. */
  method FeatureIdList(receivedSongs: Json) returns (r: Result<string, LookupError>)
    ensures r == CsvIdList(receivedSongs)
  {
    var items :- Get(receivedSongs, "items");
    var songs :- TrackLoopElements(items);

    var spotifyId: seq<Json> := [];
    var i := 0;
    while i < |songs|
      invariant 0 <= i <= |songs|
      invariant MapAll(TrackId, songs[..i]) == Ok(spotifyId)
    {
      if TrackId(songs[i]).Err? {
        assert forall j :: 0 <= j < i ==> songs[..i][j] == songs[j];
        MapAllStopsAtFirstFailure(TrackId, songs, i);
      }
      var track :- Get(songs[i], "track");
      var id :- Get(track, "id");
      MapAllExtend(TrackId, songs, i, spotifyId);
      spotifyId := spotifyId + [id];
      i := i + 1;
    }
    assert songs[..i] == songs;

    var csvList := JoinIds(spotifyId);
    return csvList;
  }

  /** A piece without the separator, followed by the separator, splits off
      as one piece. */
  lemma {:induction false} SplitAfterPiece(piece: string, sep: char, rest: string)
    requires sep !in piece
    ensures Split(piece + [sep] + rest, sep) == [piece] + Split(rest, sep)
  {
    var s := piece + [sep] + rest;
    if piece == [] {
      assert s[1..] == rest;
    } else {
      assert s[0] == piece[0] && s[1..] == piece[1..] + [sep] + rest;
      SplitAfterPiece(piece[1..], sep, rest);
      assert [piece[0]] + piece[1..] == piece;
    }
  }

  /** A string without the separator splits into itself. */
  lemma {:induction false} SplitWithoutSeparator(piece: string, sep: char)
    requires sep !in piece
    ensures Split(piece, sep) == [piece]
  {
    if piece != [] {
      SplitWithoutSeparator(piece[1..], sep);
      assert [piece[0]] + piece[1..] == piece;
    }
  }

  /** Splitting the joined ids gives the ids back, when there is at least
      one and none contains the separator. */
  lemma {:induction false} SplitJoinRoundTrip(parts: seq<string>, sep: char)
    requires |parts| > 0
    requires forall k :: 0 <= k < |parts| ==> sep !in parts[k]
    ensures Split(Join(parts, sep), sep) == parts
  {
    if |parts| == 1 {
      SplitWithoutSeparator(parts[0], sep);
    } else {
      SplitJoinRoundTrip(parts[1..], sep);
      SplitAfterPiece(parts[0], sep, Join(parts[1..], sep));
      assert [parts[0]] + parts[1..] == parts;
    }
  }

  /** Joining the pieces of a split gives the string back. */
  lemma {:induction false} JoinSplitRoundTrip(s: string, sep: char)
    ensures Join(Split(s, sep), sep) == s
  {
    if s != [] {
      JoinSplitRoundTrip(s[1..], sep);
      var rest := Split(s[1..], sep);
      if s[0] != sep {
        var parts := [[s[0]] + rest[0]] + rest[1..];
        assert parts[1..] == rest[1..];
        if |rest| > 1 {
          assert Join(rest, sep) == rest[0] + [sep] + Join(rest[1..], sep);
        }
      }
    }
  }

  /** The id string holds the item ids in item order: it is empty when there
      are no items, and otherwise splits at the commas into exactly the ids
      (Spotify ids are base-62 and hold no comma). */
  lemma CsvIdListRoundTrip(receivedSongs: Json)
    requires CsvIdList(receivedSongs).Ok?
    ensures TrackIds(receivedSongs).Ok?
    ensures var ids := TrackIds(receivedSongs).value;
            var csv := CsvIdList(receivedSongs).value;
      && (forall k :: 0 <= k < |ids| ==> ids[k].JStr?)
      && (ids == [] ==> csv == "")
      && (ids != [] && (forall k :: 0 <= k < |ids| ==> SEPARATOR !in ids[k].s) ==>
            |Split(csv, SEPARATOR)| == |ids| &&
            forall k :: 0 <= k < |ids| ==> ids[k] == JStr(Split(csv, SEPARATOR)[k]))
  {
    var ids := TrackIds(receivedSongs).value;
    if ids != [] && (forall k :: 0 <= k < |ids| ==> SEPARATOR !in ids[k].s) {
      SplitJoinRoundTrip(Strings(ids), SEPARATOR);
    }
  }

  /** Whenever extraction succeeds the id loop succeeds too, and collects the
      table's `spotify_id` column, cell for cell. */
  lemma IdsMatchSpotifyIdColumn(receivedSongs: Json)
    requires ExtractRows(receivedSongs).Ok?
    ensures TrackIds(receivedSongs).Ok?
    ensures var rows := ExtractRows(receivedSongs).value;
            var ids := TrackIds(receivedSongs).value;
      |ids| == |rows| && forall k :: 0 <= k < |rows| ==> SongTable(rows).data["spotify_id"][k] == Raw(ids[k])
  {
    var songs := TrackLoopElements(receivedSongs.fields["items"]).value;
    var rows := ExtractRows(receivedSongs).value;
    forall k | 0 <= k < |songs|
      ensures TrackId(songs[k]) == Ok(rows[k].spotifyId)
    {
      assert RowOf(songs[k]) == Ok(rows[k]);
    }
    var ids := TrackIds(receivedSongs).value;
    forall k | 0 <= k < |rows|
      ensures SongTable(rows).data["spotify_id"][k] == Raw(ids[k])
    {
      assert Field(rows[k], "spotify_id") == rows[k].spotifyId;
    }
  }

  /** Once the id list has been built, as it is before extraction ever runs,
      every `spotify_id` cell of the extracted table is a string: a null id
      stops the run at the join, before `validate` could report it. */
  lemma BuiltIdListMeansStringIds(receivedSongs: Json)
    requires CsvIdList(receivedSongs).Ok? && ExtractRows(receivedSongs).Ok?
    ensures var rows := ExtractRows(receivedSongs).value;
      forall k :: 0 <= k < |rows| ==>
        SongTable(rows).data["spotify_id"][k].Raw? && SongTable(rows).data["spotify_id"][k].j.JStr?
  {
    IdsMatchSpotifyIdColumn(receivedSongs);
  }
}
