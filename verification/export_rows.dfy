/** The rows the Export button builds (`features_with_metadata`): one per
    stored feature, in store order, with the feature's geometry and type and
    the label and notes the session holds under `label_<i>` and `notes_<i>`,
    where `i` is the feature's current position. */
module ExportRows {
  import opened Store

  datatype Result<T, E> = Success(value: T) | Failure(error: E)

  /** One exported row: columns geometry, label, notes and type. */
  datatype Row = Row(geometry: Geometry, labelText: string, notes: string, kind: string)

  /** Why an export produces no file. `NothingToExport` is the empty store,
      for which the Export section is not shown at all; `MissingLabel(i)`
      and `MissingNotes(i)` are the session-state lookups of `label_<i>` and
      `notes_<i>` that raise because the key was never set. */
  datatype ExportError = NothingToExport | MissingLabel(index: nat) | MissingNotes(index: nat)

  /** Position-keyed metadata: the `label_<i>` and `notes_<i>` keys. */
  type Metadata = map<nat, string>

  /** Every position below `n` has both a label and a notes entry. */
  ghost predicate Keyed(labels: Metadata, notes: Metadata, n: nat) {
    forall i :: 0 <= i < n ==> i in labels && i in notes
  }

  /** The row for the feature at position `i`. */
  function RowAt(fs: seq<Feature>, labels: Metadata, notes: Metadata, i: nat): Row
    requires i < |fs| && i in labels && i in notes
  {
    Row(fs[i].geometry, labels[i], notes[i], fs[i].geometry.kind)
  }

  /** The row-building loop run over `fs`: rows in store order, stopping at
      the first position whose label (read first) or notes key is missing. */
  function Rows(fs: seq<Feature>, labels: Metadata, notes: Metadata): (r: Result<seq<Row>, ExportError>)
    ensures r.Success? ==> |r.value| == |fs|
    ensures r.Failure? ==> !r.error.NothingToExport? && r.error.index < |fs|
    decreases |fs|
  {
    if fs == [] then Success([])
    else
      var i := |fs| - 1;
      match Rows(fs[..i], labels, notes)
      case Failure(e) => Failure(e)
      case Success(rows) =>
        if i !in labels then Failure(MissingLabel(i))
        else if i !in notes then Failure(MissingNotes(i))
        else Success(rows + [RowAt(fs, labels, notes, i)])
  }

  /** Building rows succeeds exactly when every position has its label and
      notes; then there is one row per feature, in store order, and row `i`
      carries feature `i`'s geometry and type and the metadata stored under
      key `i`. */
  lemma {:induction false} RowsSucceed(fs: seq<Feature>, labels: Metadata, notes: Metadata)
    ensures Rows(fs, labels, notes).Success? <==> Keyed(labels, notes, |fs|)
    ensures Rows(fs, labels, notes).Success? ==>
      var rows := Rows(fs, labels, notes).value;
      && |rows| == |fs|
      && forall i :: 0 <= i < |fs| ==>
           rows[i] == Row(fs[i].geometry, labels[i], notes[i], fs[i].geometry.kind)
  {
    if fs != [] {
      var i := |fs| - 1;
      var init := fs[..i];
      RowsSucceed(init, labels, notes);
      if Rows(fs, labels, notes).Success? {
        var rows := Rows(fs, labels, notes).value;
        forall k | 0 <= k < |fs|
          ensures rows[k] == Row(fs[k].geometry, labels[k], notes[k], fs[k].geometry.kind)
        {
          if k < i {
            assert init[k] == fs[k];
          }
        }
      }
    }
  }

  /** A failed export names the first position whose metadata is missing:
      every earlier position has both keys, and at the named position the
      label key is missing, or the label is there and the notes key is not. */
  lemma {:induction false} RowsFailAtFirstGap(fs: seq<Feature>, labels: Metadata, notes: Metadata)
    requires Rows(fs, labels, notes).Failure?
    ensures var e := Rows(fs, labels, notes).error;
      && (e.MissingLabel? || e.MissingNotes?)
      && e.index < |fs|
      && Keyed(labels, notes, e.index)
      && (e.MissingLabel? ==> e.index !in labels)
      && (e.MissingNotes? ==> e.index in labels && e.index !in notes)
  {
    var i := |fs| - 1;
    if Rows(fs[..i], labels, notes).Failure? {
      RowsFailAtFirstGap(fs[..i], labels, notes);
    } else {
      RowsSucceed(fs[..i], labels, notes);
    }
  }

  /** Once the loop has failed on a prefix of the store it fails the same
      way on the whole store. */
  lemma {:induction false} RowsFailureSticks(fs: seq<Feature>, labels: Metadata, notes: Metadata, k: nat)
    requires k <= |fs| && Rows(fs[..k], labels, notes).Failure?
    ensures Rows(fs, labels, notes) == Rows(fs[..k], labels, notes)
    decreases |fs|
  {
    if k < |fs| {
      var i := |fs| - 1;
      assert fs[..i][..k] == fs[..k];
      RowsFailureSticks(fs[..i], labels, notes, k);
    } else {
      assert fs[..k] == fs;
    }
  }

  /** Position-keyed metadata after a Delete: the label and notes maps are
      not re-keyed, so once the entry at `i` is removed, the feature that
      moved from position `k + 1` down to `k` is exported with the label and
      notes that were entered for position `k`, and the export still
      succeeds whenever it did before. */
  lemma DeleteShiftsMetadata(fs: seq<Feature>, i: nat, labels: Metadata, notes: Metadata, k: nat)
    requires i < |fs| && i <= k < |fs| - 1
    requires Keyed(labels, notes, |fs|)
    ensures Rows(RemoveAt(fs, i), labels, notes).Success?
    ensures |Rows(RemoveAt(fs, i), labels, notes).value| == |fs| - 1
    ensures var row := Rows(RemoveAt(fs, i), labels, notes).value[k];
      && row.geometry == fs[k + 1].geometry
      && row.kind == fs[k + 1].geometry.kind
      && row.labelText == labels[k]
      && row.notes == notes[k]
  {
    RowsSucceed(RemoveAt(fs, i), labels, notes);
  }
}
