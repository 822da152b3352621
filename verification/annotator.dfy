/** The annotator's session state and the script steps that change it: the
    drawn-feature list, the position-keyed `label_<i>` / `notes_<i>` entries,
    and the map centre and zoom. */
module Annotator {
  import opened Store
  import opened ExportRows
  import opened ExportName

  /** A map centre, `[lat, lon]`. The coordinates are carried, never
      computed with. */
  datatype Coord = Coord(lat: real, lon: real)

  /** The zoom the map starts at and returns to after "Go to location". */
  const LocationZoom: int := 12

  /** The initial centre: San Francisco. */
  const DefaultCenter: Coord := Coord(37.7749, -122.4194)

  datatype StoreError = IndexOutOfRange

  datatype Outcome<E> = Pass | Fail(error: E)

  /** The file an export produces: its name and its rows. */
  datatype ExportFile = ExportFile(name: string, rows: seq<Row>)

  class Session {
    /** `drawn_features`: the stored features, in drawing order. */
    var drawnFeatures: seq<Feature>
    /** The `label_<i>` entries, keyed by position `i`. */
    var labels: Metadata
    /** The `notes_<i>` entries, keyed by position `i`. */
    var notes: Metadata
    /** `map_center` and `map_zoom`. */
    var mapCenter: Coord
    var mapZoom: int

    /** The store never holds two equal features. */
    ghost predicate Valid()
      reads this
    {
      NoDup(drawnFeatures)
    }

    /** A fresh session: no features, no metadata, the default view. */
    constructor ()
      ensures Valid()
      ensures drawnFeatures == [] && labels == map[] && notes == map[]
      ensures mapCenter == DefaultCenter && mapZoom == LocationZoom
    {
      drawnFeatures := [];
      labels := map[];
      notes := map[];
      mapCenter := DefaultCenter;
      mapZoom := LocationZoom;
    }

    /** "Go to location": centre on the chosen place at zoom 12; the store
        and its metadata are untouched. */
    method GoToLocation(lat: real, lon: real)
      modifies this`mapCenter, this`mapZoom
      ensures mapCenter == Coord(lat, lon) && mapZoom == LocationZoom
      ensures drawnFeatures == old(drawnFeatures)
      ensures labels == old(labels) && notes == old(notes)
    {
      mapCenter := Coord(lat, lon);
      mapZoom := LocationZoom;
    }

    /** Process the drawing widget's reply: when it carries an
        `all_drawings` list, append each drawing that is not already in the
        store, checking against the store as it grows; otherwise do
        nothing. */
    method Ingest(mapData: Option<MapData>)
      requires Valid()
      modifies this`drawnFeatures
      ensures Valid()
      ensures drawnFeatures == Ingested(old(drawnFeatures), mapData)
      ensures NewDrawings(mapData).None? ==> drawnFeatures == old(drawnFeatures)
      ensures labels == old(labels) && notes == old(notes)
      ensures mapCenter == old(mapCenter) && mapZoom == old(mapZoom)
    {
      if mapData.Some? && mapData.value.allDrawings.Some? {
        var newFeatures := mapData.value.allDrawings.value;
        if newFeatures.DrawingList? {
          var items := newFeatures.items;
          for j := 0 to |items|
            invariant drawnFeatures == AddAll(old(drawnFeatures), items[..j])
            invariant NoDup(drawnFeatures)
          {
            assert items[..j + 1][..j] == items[..j];
            if items[j] !in drawnFeatures {
              AddAllKeepsNoDup(drawnFeatures, [items[j]]);
              drawnFeatures := drawnFeatures + [items[j]];
            }
          }
          assert items[..|items|] == items;
        }
      }
    }

    /** Render one panel per stored feature: each panel's Label and Notes
        inputs create `label_<i>` and `notes_<i>` with an empty value when
        the key is not there yet, and leave an existing value alone. */
    method ShowPanels()
      modifies this`labels, this`notes
      ensures Keyed(labels, notes, |drawnFeatures|)
      ensures forall i :: i in old(labels) ==> i in labels && labels[i] == old(labels)[i]
      ensures forall i :: i in old(notes) ==> i in notes && notes[i] == old(notes)[i]
      ensures forall i :: i in labels && i !in old(labels) ==> i < |drawnFeatures| && labels[i] == ""
      ensures forall i :: i in notes && i !in old(notes) ==> i < |drawnFeatures| && notes[i] == ""
      ensures drawnFeatures == old(drawnFeatures)
    {
      for idx := 0 to |drawnFeatures|
        invariant Keyed(labels, notes, idx)
        invariant forall i :: i in old(labels) ==> i in labels && labels[i] == old(labels)[i]
        invariant forall i :: i in old(notes) ==> i in notes && notes[i] == old(notes)[i]
        invariant forall i :: i in labels && i !in old(labels) ==> i < idx && labels[i] == ""
        invariant forall i :: i in notes && i !in old(notes) ==> i < idx && notes[i] == ""
      {
        if idx !in labels {
          labels := labels[idx := ""];
        }
        if idx !in notes {
          notes := notes[idx := ""];
        }
      }
    }

    /** Typing into the Label input of panel `idx`: stores the text under
        `label_<idx>`. */
    method EditLabel(idx: nat, text: string)
      modifies this`labels
      ensures labels == old(labels)[idx := text]
      ensures drawnFeatures == old(drawnFeatures) && notes == old(notes)
    {
      labels := labels[idx := text];
    }

    /** Typing into the Notes area of panel `idx`: stores the text under
        `notes_<idx>`. */
    method EditNotes(idx: nat, text: string)
      modifies this`notes
      ensures notes == old(notes)[idx := text]
      ensures drawnFeatures == old(drawnFeatures) && labels == old(labels)
    {
      notes := notes[idx := text];
    }

    /** The Delete button of panel `idx`: `drawn_features.pop(idx)`. The
        position-keyed label and notes entries are NOT re-keyed, so every
        later feature now reads its predecessor's entries
        (see `ExportRows.DeleteShiftsMetadata`). */
    method Delete(idx: nat) returns (r: Outcome<StoreError>)
      requires Valid()
      modifies this`drawnFeatures
      ensures Valid()
      ensures idx < |old(drawnFeatures)| ==>
        r == Pass && drawnFeatures == RemoveAt(old(drawnFeatures), idx)
      ensures idx >= |old(drawnFeatures)| ==>
        r == Fail(IndexOutOfRange) && drawnFeatures == old(drawnFeatures)
      ensures labels == old(labels) && notes == old(notes)
      ensures mapCenter == old(mapCenter) && mapZoom == old(mapZoom)
    {
      if idx < |drawnFeatures| {
        RemoveAtKeepsNoDup(drawnFeatures, idx);
        drawnFeatures := RemoveAt(drawnFeatures, idx);
        r := Pass;
      } else {
        r := Fail(IndexOutOfRange);
      }
    }

    /** "Clear All Annotations": the store becomes empty; the map view and
        the label and notes entries are left as they were. */
    method ClearAll()
      modifies this`drawnFeatures
      ensures Valid()
      ensures drawnFeatures == []
      ensures labels == old(labels) && notes == old(notes)
      ensures mapCenter == old(mapCenter) && mapZoom == old(mapZoom)
    {
      drawnFeatures := [];
    }

    /** "Export Annotations": nothing to export for an empty store (the
        Export section is only shown for a non-empty one); otherwise the
        rows built in store order, stopping at the first missing key, and
        the timestamped name for the chosen format. Nothing in the session
        changes. */
    method Export(format: string, stamp: Timestamp) returns (r: Result<ExportFile, ExportError>)
      requires ValidStamp(stamp)
      ensures drawnFeatures == [] ==> r == Failure(NothingToExport)
      ensures drawnFeatures != [] ==>
        match Rows(drawnFeatures, labels, notes)
        case Failure(e) => r == Failure(e)
        case Success(rows) => r == Success(ExportFile(FileName(stamp, format), rows))
    {
      if drawnFeatures == [] {
        return Failure(NothingToExport);
      }
      var fs := drawnFeatures;
      var rows: seq<Row> := [];
      for idx := 0 to |fs|
        invariant Rows(fs[..idx], labels, notes) == Success(rows)
      {
        assert fs[..idx + 1][..idx] == fs[..idx];
        if idx !in labels {
          RowsFailureSticks(fs, labels, notes, idx + 1);
          return Failure(MissingLabel(idx));
        }
        if idx !in notes {
          RowsFailureSticks(fs, labels, notes, idx + 1);
          return Failure(MissingNotes(idx));
        }
        rows := rows + [Row(fs[idx].geometry, labels[idx], notes[idx], fs[idx].geometry.kind)];
      }
      assert fs[..|fs|] == fs;
      var name := FileName(stamp, format);
      r := Success(ExportFile(name, rows));
    }
  }

  /** Two drawings ingested into an empty store, then into a store holding
      only the second: the widget keeps reporting both, so the first comes
      back at the end. */
  lemma IngestPair(a: Feature, b: Feature)
    requires a != b
    ensures AddAll([], [a, b]) == [a, b]
    ensures AddAll([b], [a, b]) == [b, a]
  {
  }

  /** The rows exported for a two-feature store whose two positions both
      carry a label and notes. */
  lemma RowsOfPair(a: Feature, b: Feature, labels: Metadata, notes: Metadata)
    requires 0 in labels && 1 in labels && 0 in notes && 1 in notes
    ensures Rows([a, b], labels, notes) == Success([
      Row(a.geometry, labels[0], notes[0], a.geometry.kind),
      Row(b.geometry, labels[1], notes[1], b.geometry.kind)])
  {
    assert [a][..0] == [];
    assert Rows([a][..0], labels, notes) == Success([]);
    var first := RowAt([a], labels, notes, 0);
    assert Rows([a], labels, notes) == Success([] + [first]);
    assert [] + [first] == [first];
    assert [a, b][..1] == [a];
    var second := RowAt([a, b], labels, notes, 1);
    assert Rows([a, b], labels, notes) == Success([first] + [second]);
    assert first == Row(a.geometry, labels[0], notes[0], a.geometry.kind);
    assert second == Row(b.geometry, labels[1], notes[1], b.geometry.kind);
    assert [first] + [second] == [first, second];
  }

  /** A session as a user drives it. Each button click reruns the script,
      and every run first ingests the widget's reply, which still lists
      everything drawn on the map. Draw a marker and a polygon, label them,
      delete the marker, export: the deleted marker is ingested again and
      appended after the polygon, the polygon (now at position 0) is
      exported with the label typed for the marker, and the marker with the
      label typed for the polygon. */
  method DeleteThenExport(point: Feature, polygon: Feature, stamp: Timestamp)
    requires point != polygon && ValidStamp(stamp)
  {
    var s := new Session();
    var reply := Some(MapData(Some(DrawingList([point, polygon]))));
    IngestPair(point, polygon);
    s.Ingest(reply);
    assert s.drawnFeatures == [point, polygon];
    s.ShowPanels();
    s.EditLabel(0, "Marker");
    s.EditLabel(1, "Lake");
    assert s.labels[0] == "Marker" && s.labels[1] == "Lake";

    // The Delete click, then the rerun it triggers.
    var deleted := s.Delete(0);
    assert deleted == Pass && s.drawnFeatures == [polygon];
    s.Ingest(reply);
    assert s.drawnFeatures == [polygon, point];
    s.ShowPanels();
    assert s.labels[0] == "Marker" && s.labels[1] == "Lake";

    // The Export click.
    RowsOfPair(polygon, point, s.labels, s.notes);
    var out := s.Export("GeoJSON", stamp);
    assert out == Success(ExportFile(FileName(stamp, "GeoJSON"), [
      Row(polygon.geometry, "Marker", s.notes[0], polygon.geometry.kind),
      Row(point.geometry, "Lake", s.notes[1], point.geometry.kind)]));
  }
}
