/** The drawn-feature store: the ordered list the session keeps under
    `drawn_features`, the map-widget reply it is fed from, and the pure
    specification of the two list edits the script makes (append-if-absent
    while ingesting, remove-at-position when a Delete button is pressed). */
module Store {

  datatype Option<T> = None | Some(value: T)

  /** A GeoJSON `coordinates` value: a number, or a list of such values
      nested as deep as the geometry needs (a Point is a list of two
      numbers, a Polygon a list of rings of such lists). Equality is
      Python's list `==`, nesting included. The numbers are only ever
      compared, never computed with. */
  datatype Coordinates = Number(value: real) | List(items: seq<Coordinates>)

  /** A GeoJSON geometry as the drawing widget reports it: its `type` tag
      ("Point", "Polygon", ...) and its coordinates. */
  datatype Geometry = Geometry(kind: string, coordinates: Coordinates)

  /** One raw drawn feature. The script compares these dictionaries with
      Python's `==`, a field-by-field comparison; datatype equality is the
      same structural comparison (and map equality, like dict equality,
      ignores key order). */
  datatype Feature = Feature(geometry: Geometry, properties: map<string, string>)

  /** What the drawing widget puts under the `all_drawings` key: a list of
      features, or some other value (the widget sends `None` before anything
      is drawn). */
  datatype Drawings = DrawingList(items: seq<Feature>) | NotAList

  /** The widget's reply; `allDrawings` is `None` when the key is absent. */
  datatype MapData = MapData(allDrawings: Option<Drawings>)

  /** No two equal features are both in the store. */
  ghost predicate NoDup(s: seq<Feature>) {
    forall i, j :: 0 <= i < j < |s| ==> s[i] != s[j]
  }

  /** One step of the ingest loop: append `f` unless an equal feature is
      already present. */
  function AddIfAbsent(s: seq<Feature>, f: Feature): seq<Feature> {
    if f in s then s else s + [f]
  }

  /** The whole ingest loop over `fs`, in order; membership is tested
      against the list as it grows, so a repeat inside `fs` is dropped too. */
  function AddAll(s: seq<Feature>, fs: seq<Feature>): (r: seq<Feature>)
    ensures |s| <= |r| <= |s| + |fs|
    ensures r[..|s|] == s
    decreases |fs|
  {
    if fs == [] then s else AddIfAbsent(AddAll(s, fs[..|fs| - 1]), fs[|fs| - 1])
  }

  /** The drawings the script would ingest from a widget reply: none when the
      reply is absent, lacks `all_drawings`, or holds a non-list there. */
  function NewDrawings(m: Option<MapData>): (r: Option<seq<Feature>>)
    ensures r.Some? <==> m.Some? && m.value.allDrawings.Some? && m.value.allDrawings.value.DrawingList?
    ensures r.Some? ==> r.value == m.value.allDrawings.value.items
  {
    match m
    case None => None
    case Some(data) =>
      match data.allDrawings
      case None => None
      case Some(NotAList) => None
      case Some(DrawingList(items)) => Some(items)
  }

  /** The store after the script has processed widget reply `m`. */
  function Ingested(s: seq<Feature>, m: Option<MapData>): (r: seq<Feature>)
    ensures NewDrawings(m).None? ==> r == s
    ensures |s| <= |r| && r[..|s|] == s
    ensures NewDrawings(m).Some? ==> forall f :: f in NewDrawings(m).value ==> f in r
  {
    match NewDrawings(m)
    case None => s
    case Some(fs) =>
      AddAllExtends(s, fs);
      AddAll(s, fs)
  }

  /** `list.pop(i)` for a valid index: the entry at `i` is gone, the entries
      before it keep their positions, the entries after it move down by one,
      and nothing else is lost or gained. */
  function RemoveAt(s: seq<Feature>, i: nat): (r: seq<Feature>)
    requires i < |s|
    ensures |r| == |s| - 1
    ensures forall k :: 0 <= k < i ==> r[k] == s[k]
    ensures forall k :: i <= k < |r| ==> r[k] == s[k + 1]
    ensures multiset(r) + multiset{s[i]} == multiset(s)
  {
    assert s == s[..i] + [s[i]] + s[i + 1..];
    s[..i] + s[i + 1..]
  }

  /** Ingesting keeps the old store as an unchanged prefix, makes every
      ingested drawing present, brings in nothing that was not in the old
      store or the batch, and adds at most one entry per drawing. */
  lemma {:induction false} AddAllExtends(s: seq<Feature>, fs: seq<Feature>)
    ensures |s| <= |AddAll(s, fs)| <= |s| + |fs|
    ensures AddAll(s, fs)[..|s|] == s
    ensures forall f :: f in fs ==> f in AddAll(s, fs)
    ensures forall f :: f in AddAll(s, fs) ==> f in s || f in fs
  {
    if fs != [] {
      var init, last := fs[..|fs| - 1], fs[|fs| - 1];
      AddAllExtends(s, init);
      var before := AddAll(s, init);
      assert fs == init + [last];
      if last !in before {
        assert (before + [last])[..|s|] == before[..|s|];
      }
    }
  }

  /** Ingesting preserves "no two equal features", even for a batch that
      repeats a feature. */
  lemma {:induction false} AddAllKeepsNoDup(s: seq<Feature>, fs: seq<Feature>)
    requires NoDup(s)
    ensures NoDup(AddAll(s, fs))
  {
    if fs != [] {
      var init, last := fs[..|fs| - 1], fs[|fs| - 1];
      AddAllKeepsNoDup(s, init);
      var before := AddAll(s, init);
      if last !in before {
        var after := before + [last];
        forall i, j | 0 <= i < j < |after| ensures after[i] != after[j] {
          if j == |before| {
            assert after[i] == before[i];
          }
        }
      }
    }
  }

  /** A batch whose drawings are all present already changes nothing. */
  lemma {:induction false} AddAllAbsorbed(s: seq<Feature>, fs: seq<Feature>)
    requires forall f :: f in fs ==> f in s
    ensures AddAll(s, fs) == s
  {
    if fs != [] {
      var init := fs[..|fs| - 1];
      assert forall f :: f in init ==> f in fs;
      AddAllAbsorbed(s, init);
      assert fs[|fs| - 1] in fs;
    }
  }

  /** Ingesting the same batch a second time leaves the store unchanged. */
  lemma AddAllIdempotent(s: seq<Feature>, fs: seq<Feature>)
    ensures AddAll(AddAll(s, fs), fs) == AddAll(s, fs)
  {
    AddAllExtends(s, fs);
    AddAllAbsorbed(AddAll(s, fs), fs);
  }

  /** Processing the same widget reply twice is the same as processing it
      once, whatever shape the reply has. */
  lemma IngestedIdempotent(s: seq<Feature>, m: Option<MapData>)
    ensures Ingested(Ingested(s, m), m) == Ingested(s, m)
  {
    if NewDrawings(m).Some? {
      AddAllIdempotent(s, NewDrawings(m).value);
    }
  }

  /** Removing an entry keeps "no two equal features", and the removed
      feature is no longer in the store. */
  lemma RemoveAtKeepsNoDup(s: seq<Feature>, i: nat)
    requires i < |s| && NoDup(s)
    ensures NoDup(RemoveAt(s, i))
    ensures s[i] !in RemoveAt(s, i)
  {
  }
}
