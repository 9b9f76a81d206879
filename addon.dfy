// The first variant of the add-on: toggle_camera_collections_render raises
// an error when there is no camera, the operator turns that error into a
// warning and CANCELLED, and the panel labels its button by the state.
module ToggleAddon {
  import opened SceneData
  import opened LayerTree
  import opened CameraToggle
  import opened ToggleContext

  /**
   * collections_of_object as the add-on's loop writes it: walk
   * bpy.data.collections and keep each one that links an object of this name.
   */
  method CollectionsOfObject(collections: seq<Collection>, name: string) returns (cols: seq<nat>)
    ensures cols == CollectionsOf(collections, name)
  {
    cols := [];
    var c := 0;
    while c < |collections|
      invariant 0 <= c <= |collections|
      invariant cols == Filter(Range(c), ContainsObject(collections, name))
    {
      RangeStep(c);
      if name in collections[c].objectNames {
        cols := cols + [c];
      }
      c := c + 1;
    }
  }

  /**
   * toggle_camera_collections_render: with no camera, an error and no change
   * at all; otherwise the objects, the tree and the toggle state become those
   * of one press of the toggle, and the press's message is returned.
   */
  method ToggleCameraCollectionsRender(ctx: Context) returns (r: Result<string>)
    requires ctx.Valid()
    modifies ctx`objects, ctx`layerTree, ctx`lastAction
    ensures ctx.Valid()
    ensures var t := Toggle(old(ctx.objects), ctx.collections, old(ctx.layerTree), ctx.camera, old(ctx.lastAction));
            && (t.Err? ==> r == Err(t.error) && ctx.objects == old(ctx.objects) && ctx.layerTree == old(ctx.layerTree)
                           && ctx.lastAction == old(ctx.lastAction))
            && (t.Ok? ==> r == Ok(t.value.message) && ctx.objects == t.value.objects && ctx.layerTree == t.value.tree
                          && ctx.lastAction == t.value.state)
  {
    var cams := CameraIndices(ctx.objects);
    if cams == [] {
      return Err(NoCameraMessage);
    }
    var active := ActiveCamera(cams, ctx.camera);
    if ctx.lastAction != DisabledOthers {
      var name := ctx.objects[active].name;
      ctx.ApplyCameraPass(true, active);
      ctx.lastAction := DisabledOthers;
      r := Ok(DisabledPrefix + name + "\"");
    } else {
      ctx.ApplyCameraPass(false, active);
      ctx.lastAction := EnabledAll;
      r := Ok(EnabledMessage);
    }
  }

  /**
   * OBJECT_OT_toggle_camera_render.execute: the error of the toggle becomes
   * a warning and CANCELLED, its message an info report and FINISHED.
   */
  method ExecuteToggleOperator(ctx: Context) returns (status: OperatorStatus, report: Report)
    requires ctx.Valid()
    modifies ctx`objects, ctx`layerTree, ctx`lastAction
    ensures ctx.Valid()
    ensures var t := Toggle(old(ctx.objects), ctx.collections, old(ctx.layerTree), ctx.camera, old(ctx.lastAction));
            && (t.Err? ==> status == Cancelled && report == Report(Warning, NoCameraMessage)
                           && ctx.objects == old(ctx.objects) && ctx.layerTree == old(ctx.layerTree)
                           && ctx.lastAction == old(ctx.lastAction))
            && (t.Ok? ==> status == Finished && report == Report(Info, t.value.message)
                          && ctx.objects == t.value.objects && ctx.layerTree == t.value.tree
                          && ctx.lastAction == t.value.state)
  {
    var r := ToggleCameraCollectionsRender(ctx);
    match r
    case Err(e) =>
      status, report := Cancelled, Report(Warning, e);
    case Ok(msg) =>
      status, report := Finished, Report(Info, msg);
  }
}
