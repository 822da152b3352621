# Satellite image annotator: session-state model

This project models the annotation bookkeeping of the Streamlit script
`annotator.py`. The user draws markers, polygons and rectangles on a map.
The script keeps the drawn features in the session list `drawn_features`.
It keeps a label and a note for each feature under the session keys
`label_<i>` and `notes_<i>`, where `i` is the feature's current position.
It can delete one feature, clear them all, move the map to a chosen place,
and export the features with their metadata to a timestamped GeoJSON or CSV
file.

Modules:

- `Store` (store.dfy) holds the feature values and the drawing widget's
  reply. It also holds the specification of the two list edits:
  `AddAll`, the append-if-absent ingest loop, and `RemoveAt`, which is
  `list.pop(i)`. The lemmas about them are here too: prefix, membership,
  no duplicates, idempotence, and what removal keeps.
- `ExportRows` (export_rows.dfy) builds the export rows from the store and
  the position-keyed metadata. It proves when building succeeds, what each
  row holds, and where building fails. It also states the
  metadata-after-delete behaviour.
- `ExportName` (export_name.dfy) builds the file name
  `annotations_YYYYMMDD_HHMMSS.geojson|csv`. It proves the name's layout,
  that the timestamp reads back out of it, and that the name is injective.
- `Annotator` (annotator.dfy) holds the class `Session`. Its fields are the
  session state. Its methods are the script steps that change that state,
  each proved against the specification functions above. A client method,
  `DeleteThenExport`, drives one session. It draws a marker and a polygon,
  labels them "Marker" and "Lake", deletes the marker and exports. Every
  button click reruns the script, and every run first ingests the drawing
  widget's reply, which still lists both drawings. So the deleted marker is
  appended again after the polygon. Its asserts show that the export has
  two rows: the polygon labelled "Marker" and the marker labelled "Lake".

Equality of drawn features is Python's dictionary `==`. Here it is
datatype equality, which is also structural: coordinates keep their list
nesting, and property maps, like dictionaries, ignore key order. The
current time, the map widget's reply and the coordinates of a chosen place
are parameters.

Three behaviours of the script that the model keeps:

- Writing a label or a note stores it under the position's key. Nothing
  checks the position against the store, so no out-of-range error is
  raised (annotator.py:101-102).
- Clear-all reassigns only `drawn_features`. The `label_<i>`/`notes_<i>`
  entries stay (annotator.py:141).
- Labels and notes are not part of a feature. They live under position
  keys, and Delete does not re-key them (annotator.py:101-104).

## Model

| member | source | states |
|---|---|---|
| Store.AddAll | annotator.py:89-91 | the ingest loop as a fold of append-if-absent over the batch, in order; the old store is an unchanged prefix and at most one entry per drawing is added (membership, no duplicates and idempotence are the AddAll lemmas below) |
| Store.NewDrawings | annotator.py:86-88 | a reply yields drawings exactly when it is present, has an `all_drawings` entry and that entry is a list, and then it yields that list |
| Store.Ingested | annotator.py:86-91 | processing a reply leaves the store unchanged when it yields no drawings; otherwise the old store is an unchanged prefix and every drawing of the reply is present (idempotence is IngestedIdempotent) |
| Store.RemoveAt | annotator.py:104 | `pop(i)` at a valid index: the length drops by one, entries before `i` keep their place, entries after it move down by one, and the multiset loses exactly the removed feature |
| Store.AddAllExtends | annotator.py:86-91 | after ingesting a batch, the old store is an unchanged prefix and every drawing of the batch is present; nothing outside the old store and the batch appears; at most one entry is added per drawing |
| Store.AddAllKeepsNoDup | annotator.py:89-91 | ingesting preserves "no two equal features", even when the batch repeats a feature, because membership is tested against the growing list |
| Store.AddAllAbsorbed | annotator.py:89-91 | a batch whose drawings are all already stored leaves the store unchanged |
| Store.AddAllIdempotent | annotator.py:89-91 | ingesting the same batch a second time leaves the store unchanged |
| Store.IngestedIdempotent | annotator.py:86-91 | processing the same widget reply twice equals processing it once, for every shape of reply (absent, no `all_drawings`, not a list, a list) |
| Store.RemoveAtKeepsNoDup | annotator.py:104 | removing an entry keeps "no two equal features", and the removed feature is no longer stored |
| ExportRows.Rows | annotator.py:114-122 | the row-building loop: a success has one row per feature; a failure names a missing label or notes key at a position inside the store (the exact rows and the first-gap failure are RowsSucceed and RowsFailAtFirstGap) |
| ExportRows.RowsSucceed | annotator.py:114-122 | row building succeeds iff every position has both a `label_i` and a `notes_i` key; then there is one row per feature, in store order, and row `i` has feature `i`'s geometry and type and the label and notes stored under `i` |
| ExportRows.RowsFailAtFirstGap | annotator.py:115-119 | a failed build names the first position with a missing key: all earlier positions have both keys, and the label key is reported before the notes key |
| ExportRows.RowsFailureSticks | annotator.py:115-122 | once the loop fails on a prefix of the store it fails the same way on the whole store |
| ExportRows.DeleteShiftsMetadata | annotator.py:101-119 | after deleting position `i`, the feature that moved from `k + 1` to `k` is exported with the label and notes entered for position `k`; export still succeeds and has one row fewer |
| ExportName.Pad | annotator.py:128 | a zero-padded field is exactly `width` characters, all decimal digits |
| ExportName.PadRoundTrip | annotator.py:128 | reading a zero-padded field back gives the number whenever the number fits the width |
| ExportName.Extension | annotator.py:127-131 | the extension is `.geojson` for exactly the format "GeoJSON" and `.csv` for every other format |
| ExportName.FileName | annotator.py:127-131 | the name is 27 characters plus the extension, starts with `annotations_` and ends with the format's extension (digits and round trip are FileNameLayout and FileNameRoundTrip) |
| ExportName.FileNameLayout | annotator.py:127-131 | the name is `annotations_`, eight digits, `_`, six digits, then `.geojson` exactly when the format is "GeoJSON" and `.csv` for any other format |
| ExportName.FileNameRoundTrip | annotator.py:127-131 | the timestamp, to the second, reads back out of the name, and the extension tells which format was chosen |
| ExportName.FileNameInjective | annotator.py:127-131 | two different timestamps or extensions never give the same name |
| Annotator.IngestPair | annotator.py:89-91 | two distinct drawings ingested into an empty store are stored in order, and re-ingested after the first was deleted they come back with the deleted one appended last |
| Annotator.RowsOfPair | annotator.py:114-122 | a two-feature store whose positions 0 and 1 carry labels and notes exports exactly those two rows, in order |
| Annotator.Session.constructor | annotator.py:16-24 | a new session has an empty store, no metadata, centre San Francisco and zoom 12 |
| Annotator.Session.GoToLocation | annotator.py:46-49 | the centre becomes the chosen coordinates and the zoom becomes 12; store and metadata are unchanged |
| Annotator.Session.Ingest | annotator.py:85-91 | the store becomes the append-if-absent fold of the reply's `all_drawings` list over the old store, or stays the same when the reply is absent, lacks the key or holds a non-list; no duplicates before implies none after; metadata and view are unchanged |
| Annotator.Session.ShowPanels | annotator.py:98-102 | after the panels are rendered, every position has `label_i` and `notes_i`; existing values are kept and only positions in the store gain an empty entry |
| Annotator.Session.EditLabel | annotator.py:101 | typing a label stores it under `label_idx` only |
| Annotator.Session.EditNotes | annotator.py:102 | typing notes stores them under `notes_idx` only |
| Annotator.Session.Delete | annotator.py:103-104 | a valid index removes exactly that entry (`RemoveAt`); an invalid one reports `IndexOutOfRange` and changes nothing; the label and notes maps are not re-keyed; no duplicates is kept |
| Annotator.Session.ClearAll | annotator.py:138-141 | the store becomes empty; map centre, zoom and metadata are unchanged |
| Annotator.Session.Export | annotator.py:107-131 | an empty store has nothing to export; otherwise the result is the row build's error, or the rows in store order with the timestamped name for the chosen format |

## Left out

- Geocoding through Nominatim (annotator.py:31-45) is left out. It is network I/O. The options dictionary built from its results (keyed by display name) and the float parsing of `lat`/`lon` go with it. "Go to location" takes the chosen coordinates as parameters.
- Package installs, page configuration, titles, headers, expanders, the success message and `st.rerun`/`experimental_rerun` are left out. They are UI framework plumbing.
- The Folium map, the satellite tile layer and the Draw plugin options (annotator.py:52-83) are left out. They are the rendering widget. The widget's reply is a parameter of `Ingest`.
- shapely's `shape()`, the WKT conversion for CSV, the GeoDataFrame and the `to_file`/`to_csv` writes are left out. They are foreign library calls and file I/O. Rows carry the geometry value unchanged for both formats. A geometry that shapely would reject is not modelled as an error.
- `datetime.now()` is left out. It is the wall clock, so the timestamp is a parameter.
- Streamlit drops the state of widgets that are not rendered in a run. That is framework behaviour and is not modelled. The label and notes maps keep every key until it is overwritten.
- Coordinate numbers are reals and are only compared, never computed with. The map centre is carried as two reals, with no numeric reasoning.
- Annotator.Session.Delete: takes a non-negative index. The script only passes `enumerate` positions, so Python's negative `pop` indices are not modelled.
- Annotator.Session.ClearAll: is modelled without the "store is non-empty" guard on the button (annotator.py:139). On an empty store the assignment gives the same result.
- ExportName.Pad: prints `%Y` zero-padded to four digits for every year from 1 to 9999, as Python documents it. Some C libraries do not pad years below 1000. The wall clock never produces such years.
