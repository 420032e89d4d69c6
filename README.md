# Spotify listening-history ETL: the extract → validate path

This project models, in Dafny, the part of the `spotify-ETL` job that turns the
"recently played" payload into the `streaming_history` table and decides
whether the table may be loaded:

- `GetHistory.extract_songs` flattens the decoded JSON payload into a six-column
  DataFrame. It produces one row per element of `items` and takes the artist
  from the first album artist only.
- `GetHistory.validate` converts `played_at` to the machine's local time and
  adds a `date` column, in place. It then takes the `return False` branch
  of main.py:172-174 for an empty frame (the model follows that branch as
  the code intends; pandas most likely raises ValueError earlier, at
  main.py:165, see `Validation.EmptyFrameReturnsFalse` under Left out),
  raises "Primary key check is violated!" when two converted instants are
  equal, raises "Null values found!" when a cell is missing, and otherwise
  returns the frame.
- The comma-separated id list that `get_features` sends for audio features.
- `run_ETL`'s composition `load(validate(extract_songs()))`, up to the call
  of `load`. The constructor calls `get_features` before `run_ETL` runs
  (main.py:40), so each run first builds the id list. A payload without
  `items`, or with an item whose track id is missing or null, therefore stops
  in the constructor and never reaches `extract_songs` or `validate`
  (`Etl.Run`, `FeatureIds.BuiltIdListMeansStringIds`).

Modules, one per concern:

- `results.dfy` (`Results`): `Option`, `Result`, and `MapAll`. `MapAll` is the
  "first failure wins" map that a Python loop whose body may raise performs.
- `json.dfy` (`Json`): decoded JSON, and what Python's `j[key]`, `j[0]`,
  `j[0:10]` and `for x in j` do on each shape. Each one either returns a value
  or raises `KeyError`, `IndexError` or `TypeError`.
- `frames.dfy` (`Frames`): a DataFrame as a `Table` value. It has named
  columns of equal length, `empty`, `isnull().values.any()` and column
  assignment. `Frame` is the mutable object that `validate` updates in place.
- `extract.dfy` (`Extract`): `extract_songs` as a loop method, proved against
  the value-level `ExtractRows`/`SongTable`.
- `feature_ids.dfy` (`FeatureIds`): the id loop and `','.join`, proved against
  `CsvIdList`. `Split` is its inverse, used for the round trip.
- `validation.dfy` (`Validation`): the conversion, the three checks, and the
  in-place `Validate` method.
- `etl.dfy` (`Etl`): the run as written and as intended.

The time-zone conversion is a parameter. `Zone.parse` stands for dateutil's
`parse` followed by `astimezone(local zone)`, and returns None when the string
cannot be parsed. `Zone.dateOf` stands for `strftime("%Y-%m-%d")` in that
zone. Converted timestamps are `LocalTime` instants, so the uniqueness check
compares instants, not the raw strings. A cell that is not a string (null, a
list) cannot be parsed and makes `validate` raise during the conversion.

Three facts about main.py shape the model:

- `validate` applies no date-window filter. `yesterday` (main.py:187) is
  never used, and the loop at main.py:189-193 is commented out.
- A row holds exactly the six values collected at main.py:126-132. The date
  prefix computed at main.py:131 is appended to a list that the DataFrame
  at main.py:144-145 does not use.
- For an empty frame, the model takes the `return False` branch of
  main.py:172-174, as the code intends, and `run_ETL` hands that `False` to
  `load` (main.py:235). pandas most likely raises ValueError earlier, at
  main.py:165. See `Validation.EmptyFrameReturnsFalse` under Left out, and
  Findings.

## Model

| member | source | states |
|---|---|---|
| `Json.First` | main.py:129 | `artists[0]` succeeds exactly on a non-empty list or string and gives its first element |
| `Json.Prefix` | main.py:131 | `played_at[0:10]` succeeds exactly on a string or a list and gives a prefix of length min(10, length) |
| `Json.Get` | main.py:90 | `j[key]` succeeds iff `j` is a dict holding `key` and gives its value. A dict without the key raises KeyError, and anything else raises TypeError |
| `Json.TrackLoopElements` | main.py:125 | a list's elements are looped over. An empty dict or an empty string gives zero iterations. Anything else raises TypeError |
| `Frames.IsEmpty` | main.py:172 | on a well-formed frame, `df.empty` holds iff the frame holds no cell at all |
| `Frames.HasNull` | main.py:183 | `df.isnull().values.any()`: some cell of some column is null, i.e. JSON null, which pandas shows as None or NaN |
| `Frames.WithColumn` | main.py:165-166 | `df[name] = col` keeps the frame well formed and the same height; it replaces the named column in place or appends it last, and leaves every other column unchanged |
| `Frames.Frame.constructor` | main.py:144-145 | the new frame holds exactly the given columns, cells and height |
| `Frames.Frame.SetColumn` | main.py:165-166 | the frame's new value is `WithColumn` of its old value |
| `Extract.ExtractRows` | main.py:113-132 | on success, `items` exists and can be looped over, and there is one row per element, row k being what the loop body makes of element k |
| `Extract.RowOf` | main.py:126-132 | an item yields a row iff it has every path the loop body reads (`IsPlayItem`); the row is the track's id, uri, name and duration verbatim, the first album artist's name and the raw `played_at` |
| `Extract.SongTable` | main.py:134-145 | the frame has exactly the six columns in order (no `date`), one row per row, and cell k of each column is row k's value |
| `Extract.ExtractSongs` | main.py:110-147 | the loop method fails with `ExtractRows`' error exactly when that fails; otherwise it returns a fresh frame whose value is `SongTable` of those rows |
| `Extract.ExtractSucceedsIff` | main.py:113-132 | extraction succeeds iff `items` exists and is a list of well-shaped items, an empty dict or an empty string |
| `Extract.OneRowPerItem` | main.py:125-132 | one row per element of `items`, in order; row k's fields equal item k's `track.id`, `track.uri`, `track.name`, `played_at`, `track.duration_ms` and `track.album.artists[0].name` |
| `Extract.OtherArtistsIgnored` | main.py:129 | replacing every album artist after the first leaves the row unchanged |
| `Extract.UnsliceablePlayedAtAborts` | main.py:130-131 | an item whose `played_at` is null, a number, a boolean or a dict makes extraction raise: at the slice when nothing earlier has raised, otherwise at an earlier lookup |
| `Extract.SliceErrorIsTypeError` | main.py:125-131 | when every earlier item is a play and every lookup before the slice succeeds on the item, the unsliceable `played_at` stops extraction with the slice's TypeError |
| `Extract.SongDictIsTable` | main.py:134-142 | the six lists filled by the loop, placed under their column names, are exactly the data of `SongTable` of the rows |
| `FeatureIds.TrackId` | main.py:90 | `ids["track"]["id"]` succeeds iff both keys exist and yields the track's id |
| `FeatureIds.TrackIds` | main.py:87-90 | on success, `items` exists and can be looped over, and there is one id per element, id k being `ids["track"]["id"]` of element k |
| `FeatureIds.CsvIdList` | main.py:87-92 | the id string is built iff every id can be collected and every collected id is a string |
| `FeatureIds.JoinIds` | main.py:92 | `','.join` succeeds iff every id is a string, and raises TypeError otherwise (a track with a null id) |
| `FeatureIds.FeatureIdList` | main.py:87-92 | the loop-and-join method returns `CsvIdList` of the payload: the same string or the same first error |
| `FeatureIds.SplitJoinRoundTrip` | main.py:92 | splitting a join of at least one comma-free string at the commas gives the strings back |
| `FeatureIds.JoinSplitRoundTrip` | main.py:92 | joining the pieces of any split gives the string back |
| `FeatureIds.CsvIdListRoundTrip` | main.py:87-92 | the id string is empty when there are no items; otherwise, provided no id contains a comma, it splits at the commas into exactly the item ids, in item order |
| `FeatureIds.IdsMatchSpotifyIdColumn` | main.py:89-90 | when extraction succeeds, the id loop succeeds too and collects the `spotify_id` column cell for cell |
| `FeatureIds.BuiltIdListMeansStringIds` | main.py:87-92 | once the id list is built, every `spotify_id` cell of the extracted table is a string, never null |
| `Validation.ToLocal` | main.py:165 | a cell converts iff it is a string that the zone's parser accepts, and the result is the parsed instant. Otherwise the conversion raises |
| `Validation.LocalizeColumn` | main.py:165 | the column converts iff every cell converts, and the k-th instant is the conversion of the k-th cell |
| `Validation.Localize` | main.py:164-166 | conversion succeeds iff every `played_at` converts. Then the height is unchanged, `played_at` k holds row k's instant, `date` (appended or overwritten) holds that instant's date, and the other columns are untouched |
| `Validation.WithLocalTimes` | main.py:165-166 | once the instants are known, the result is a well-formed frame of the same height. `played_at` holds the instants and `date` (appended, or overwritten if already present) holds their dates; every other column is unchanged |
| `Validation.IsUnique` | main.py:177 | `is_unique` holds iff the number of distinct values equals the column's length |
| `Validation.DistinctCount` | main.py:177 | a column never has more distinct values than cells, and has exactly as many iff no value occurs twice |
| `Validation.Check` | main.py:171-195 | the checks run in source order. An empty frame gives `False`. Otherwise repeated instants raise the primary-key error whatever the nulls are. Otherwise a null raises the null error. Otherwise the frame is returned. It never reports a conversion error |
| `Validation.ValidateVerdict` | main.py:160-195 | `validate` raises at the conversion iff some `played_at` does not convert, and it returns `False` iff everything converts and the frame has no rows |
| `Validation.Validate` | main.py:160-195 | the method's verdict is `ValidateVerdict` of the old frame. The frame is unchanged on a conversion failure and is `Localize` of the old frame otherwise, even when a check then raises |
| `Validation.NullsAfterLocalize` | main.py:182-184 | after conversion the frame has a null iff some column other than `played_at` and `date` had one |
| `Validation.EmptyFrameReturnsFalse` | main.py:171-174 | an empty frame makes `validate` return False without raising |
| `Validation.DuplicateInstantRaises` | main.py:176-180 | two rows with the same converted instant raise the primary-key error, whatever the raw strings and whatever nulls are present |
| `Validation.NullCellRaises` | main.py:182-184 | with distinct instants, one missing cell in any other column raises the null error |
| `Validation.PassedIff` | main.py:171-195 | `validate` returns the frame iff every timestamp converts, there are rows, the instants are distinct, and no other cell is missing |
| `Validation.PassedKeepsEveryRow` | main.py:186-195 | a frame that passes keeps every row and its place. No row is filtered by date, each `date` is that row's converted date, and the other cells are the input's |
| `Validation.ExtractedFrameValidates` | main.py:235 | the extracted table meets `validate`'s needs; if it passes, its columns are the six plus `date` and it has one row per play |
| `Validation.NoPlaysGivesNoSongs` | main.py:172-174 | `"items": []` extracts to no rows, and `validate` returns False on the result |
| `Etl.RunAsWritten` | main.py:232-235 | the run as written, after the constructor's id list. It stops in the constructor iff the id list cannot be built. If extraction raises, `items` exists and can be looped over. Anything loaded was extracted from a payload whose id list was built |
| `Etl.Run` | main.py:232-235 | the intended run gives the same three guarantees, and ends quietly on an empty frame |
| `Etl.NoPlaysCrashesAsWritten` | main.py:232-235 | as written, a payload with no plays ends the run in `load(False)`, once the empty frame takes the `return False` branch of main.py:172-174 as the model assumes. pandas most likely raises ValueError earlier, at main.py:165 (see `Validation.EmptyFrameReturnsFalse` under Left out). Either way the run ends in an exception |
| `Etl.NoSongsIffNoRows` | main.py:172-174 | `validate` returns False on the extracted frame iff there are no rows |
| `Etl.RunFinishesEmptyIff` | main.py:232-235 | the corrected run finishes without loading iff extraction gives no rows, and only then does it differ from the run as written |
| `Etl.LoadedFrameIsClean` | main.py:235 | `load` receives only a non-empty frame. It has the six columns plus `date`, one row per play, distinct `played_at` instants and no missing cell |

## Left out

- The token refresh (`refresh.py`, `refresh_token`) is not modelled: it is network I/O.
- The HTTP requests of `get_songs` and `get_features` are not modelled either. The payload is a parameter.
- `pipeline.py` is not modelled: it only constructs the object and calls `run_ETL`.
- `load` is not modelled: SQLite DDL and `to_sql` are foreign behaviour. Cross-run uniqueness of `played_at` rests on the store's PRIMARY KEY. The model only says what `load` is handed.
- `extract_features` is not modelled: a pandas passthrough and a CSV write.
- The CSV debug dumps and the console messages are not modelled.
- The `datetime.now()` window of `get_songs` and the unused `yesterday` value are not modelled: clock reads with no effect on the history path.
- dateutil's parser, `tzlocal` and `strftime` are abstracted as the `Zone` parameter.
- `GetHistory` is not a class here. Its fields hold I/O results (token, payloads), so the payload is passed explicitly instead.
- Validation.Validate: requires a `played_at` column. Its callers always pass `extract_songs`' frame. The KeyError on a frame without that column is not modelled.
- Validation.EmptyFrameReturnsFalse: follows the code's intent, and does not model pandas' `apply(axis=1)` on a zero-row frame. Depending on the pandas version, that call returns a copy of the frame, and assigning it to one column at main.py:165 may raise ValueError before `df.empty` is reached.
- Extract.ExtractSongs: evaluates each item's lookups before the seven appends. Python interleaves them. The difference cannot be seen, because the lists are dropped when a lookup raises.
- The `date` list that `extract_songs` fills and drops is kept only as a local of `Extract.ExtractSongs`.
- JSON numbers are integers only. Floats and NaN are not modelled. pandas turning an integer column with `None` into floats with NaN does not matter: both count as null.
- Json.Prefix: slicing a dict is modelled as TypeError. Python 3.12 and later raise KeyError there.

## Findings

| source | as written | input that shows it | evidently intended | confidence | as-written member | corrected member |
|---|---|---|---|---|---|---|
| main.py:232-235 | `run_ETL` calls `load(validate(...))`. For an empty frame, `validate` is meant to return `False` (main.py:172-174), and `load` then calls `False.to_sql`, which raises AttributeError. With pandas' zero-row `apply(axis=1)`, the conversion at main.py:165 more likely raises ValueError first (see `Validation.EmptyFrameReturnsFalse` under Left out). Either way the run ends in an exception | a payload `{"items": []}` (a day without plays) | an empty frame ends the run without loading and without error | high (not executed) | `Etl.NoPlaysCrashesAsWritten` | `Etl.RunFinishesEmptyIff` |
