/** The settings store (src/stores/settings.ts): the grid-snap record that feeds
    the line snapper and the export options, both changed in place. */
module Settings {
  import opened Types
  import GridSnapping

  /** The settings record with `enabled` flipped and every other field kept. */
  function ToggleEnabled(s: GridSnapSettings): (r: GridSnapSettings)
    ensures r.enabled == !s.enabled
    ensures r.orthogonalSnapAngle == s.orthogonalSnapAngle && r.diagonalSnapAngle == s.diagonalSnapAngle
    ensures r.enableDiagonalSnap == s.enableDiagonalSnap
  {
    s.(enabled := !s.enabled)
  }

  /** Toggling twice restores the settings, and a toggle is the partial update
      that supplies only `enabled`. */
  lemma ToggleTwice(s: GridSnapSettings)
    ensures ToggleEnabled(ToggleEnabled(s)) == s
    ensures ToggleEnabled(s) == GridSnapping.MergeGridSnap(s, GridSnapUpdate(Some(!s.enabled), None, None, None))
    ensures ToggleEnabled(s) != s
  {
  }

  class SettingsStore {
    var openImportExportDialog: bool
    var exportOptions: ExportOptions
    var gridSnap: GridSnapSettings

    /** The store's initial state: every export option on, snapping on with a
        15 degree orthogonal and a 10 degree diagonal tolerance. */
    constructor ()
      ensures !openImportExportDialog
      ensures exportOptions == ExportOptions(true, true, true, true, true)
      ensures gridSnap.enabled && gridSnap.enableDiagonalSnap
      ensures gridSnap.orthogonalSnapAngle == 15.0 && gridSnap.diagonalSnapAngle == 10.0
    {
      openImportExportDialog := false;
      exportOptions := ExportOptions(true, true, true, true, true);
      gridSnap := GridSnapSettings(true, 15.0, 10.0, true);
    }

    /** `updateGridSnapSettings`: the supplied fields overwrite gridSnap. */
    method UpdateGridSnapSettings(update: GridSnapUpdate)
      modifies this
      ensures gridSnap == GridSnapping.MergeGridSnap(old(gridSnap), update)
      ensures exportOptions == old(exportOptions) && openImportExportDialog == old(openImportExportDialog)
    {
      gridSnap := GridSnapping.MergeGridSnap(gridSnap, update);
    }

    /** `toggleGridSnap`. */
    method ToggleGridSnap()
      modifies this
      ensures gridSnap == ToggleEnabled(old(gridSnap))
      ensures exportOptions == old(exportOptions) && openImportExportDialog == old(openImportExportDialog)
    {
      gridSnap := gridSnap.(enabled := !gridSnap.enabled);
    }
  }

  /** With the default tolerances, a line given the angle 10 degrees snaps level,
      one given 80 degrees snaps upright, one given 50 degrees snaps to the 45
      degree diagonal and one given 30 degrees is left alone. The verdict depends
      only on the angle passed in. Deltas (5, 6) point at about 50.2 degrees. The
      other deltas point at about 5.7, 84.3 and 31.0 degrees, which give the same
      verdicts. */
  lemma DefaultSnapExamples(g: GridSnapping.GridSnapper)
    requires g.settings == GridSnapSettings(true, 15.0, 10.0, true)
    ensures g.SnapLine(0.0, 0.0, 10.0, 1.0, 10.0).snapType == Some(GridSnapping.Horizontal)
    ensures g.SnapLine(0.0, 0.0, 1.0, 10.0, 80.0).snapType == Some(GridSnapping.Vertical)
    ensures g.SnapLine(0.0, 0.0, 5.0, 6.0, 50.0) == GridSnapping.SnapResult(5.5, 5.5, true, Some(GridSnapping.Diagonal45))
    ensures !g.SnapLine(0.0, 0.0, 10.0, 6.0, 30.0).snapped
  {
    assert GridSnapping.NormalizeAngle(10.0) == 10.0;
    assert GridSnapping.NormalizeAngle(80.0) == 80.0;
    assert GridSnapping.NormalizeAngle(50.0) == 50.0;
    assert GridSnapping.NormalizeAngle(30.0) == 30.0;
  }
}
