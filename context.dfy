// The state the add-ons work on, as one context object (the blend data,
// the current view layer, the scene's camera and render settings, and the
// window manager's toggle state), and the two loops both variants share:
// set_collection_render_enabled and the per-camera loop of the toggle.
module ToggleContext {
  import opened SceneData
  import opened LayerTree
  import opened CameraToggle

  /** The set an operator's execute returns. */
  datatype OperatorStatus = Finished | Cancelled

  datatype ReportLevel = Info | Warning

  /** One call of the operator's self.report. */
  datatype Report = Report(level: ReportLevel, text: string)

  /** One call of bpy.ops.render.render(animation=True), with the scene camera and output path it renders with. */
  datatype RenderCall = RenderCall(camera: nat, filepath: string)

  class Context {
    /** bpy.data.objects */
    var objects: seq<SceneObject>
    /** bpy.data.collections */
    var collections: seq<Collection>
    /** context.view_layer: its layer-collection tree, root at index 0 */
    var layerTree: seq<LayerNode>
    /** the trees of the scene's other view layers */
    var otherViewLayers: seq<seq<LayerNode>>
    /** context.scene.camera, as a position in bpy.data.objects */
    var camera: Option<nat>
    /** context.window_manager.cam_toggle_last_action */
    var lastAction: ToggleState
    /** scene.render.engine */
    var engine: string
    /** scene.render.filepath */
    var filepath: string
    /** the render calls made so far */
    var renderCalls: seq<RenderCall>

    /**
     * The view layer's tree is a tree whose root shows the scene's master
     * collection, which is not in bpy.data.collections; scene.camera, when
     * set, is one of bpy.data.objects.
     */
    ghost predicate Valid()
      reads this`layerTree, this`objects, this`collections, this`camera
    {
      TreeWf(layerTree) && layerTree[0].collection >= |collections| && CameraValid(objects, camera)
    }

    /** The loop of set_collection_render_enabled: lc.exclude = exclude for each node lc of `lcs`, in turn. */
    method SetExclude(lcs: seq<nat>, exclude: bool)
      requires IndicesBelow(lcs, |layerTree|)
      modifies this`layerTree
      ensures |layerTree| == |old(layerTree)|
      ensures forall k :: 0 <= k < |layerTree| ==>
                layerTree[k] == if k in lcs then old(layerTree)[k].(exclude := exclude) else old(layerTree)[k]
    {
      ghost var t0 := layerTree;
      var i := 0;
      while i < |lcs|
        invariant 0 <= i <= |lcs|
        invariant |layerTree| == |t0|
        invariant forall k :: 0 <= k < |t0| ==>
                    layerTree[k] == if k in lcs[..i] then t0[k].(exclude := exclude) else t0[k]
      {
        var lc := lcs[i];
        layerTree := layerTree[lc := layerTree[lc].(exclude := exclude)];
        assert lcs[..i + 1] == lcs[..i] + [lc];
        i := i + 1;
      }
      assert lcs[..|lcs|] == lcs;
    }

    /**
     * set_collection_render_enabled: every node of the current view layer that
     * shows collection c gets exclude = not enabled; nothing else changes.
     */
    method SetCollectionRenderEnabled(c: nat, enabled: bool)
      requires Valid()
      modifies this`layerTree
      ensures Valid()
      ensures layerTree == WithExclude(old(layerTree), c, !enabled)
      ensures forall k :: 0 <= k < |layerTree| ==>
                layerTree[k].exclude == if old(layerTree)[k].collection == c then !enabled else old(layerTree)[k].exclude
    {
      ghost var t0 := layerTree;
      var lcs := LayerCollectionsForCollection(layerTree, c);
      assert forall j :: 0 <= j < |lcs| ==> lcs[j] in lcs;
      SetExclude(lcs, !enabled);
      assert layerTree == WithExclude(t0, c, !enabled);
      SameShapeWf(t0, layerTree);
    }

    /** The inner loop of the toggle: set_collection_render_enabled for each collection of one camera, in order. */
    method SetCollectionsRenderEnabled(cols: seq<nat>, enabled: bool)
      requires Valid()
      modifies this`layerTree
      ensures Valid()
      ensures layerTree == ApplyCollections(old(layerTree), cols, !enabled)
    {
      ghost var before := layerTree;
      var j := 0;
      while j < |cols|
        invariant 0 <= j <= |cols|
        invariant layerTree == ApplyCollections(before, cols[..j], !enabled)
        invariant Valid()
      {
        SetCollectionRenderEnabled(cols[j], enabled);
        assert cols[..j + 1][..j] == cols[..j];
        j := j + 1;
      }
      assert cols[..|cols|] == cols;
    }

    /**
     * One turn of the camera loop: cam.hide_render = not shown, then every
     * collection holding cam is set enabled iff shown.
     */
    method SetCameraRenderEnabled(cam: nat, hidden: bool)
      requires Valid() && cam < |objects|
      modifies this`objects, this`layerTree
      ensures Valid()
      ensures objects == old(objects)[cam := old(objects)[cam].(hideRender := hidden)]
      ensures layerTree == ApplyCollections(old(layerTree), CollectionsOf(collections, old(objects)[cam].name), hidden)
    {
      objects := objects[cam := objects[cam].(hideRender := hidden)];
      var cols := CollectionsOf(collections, objects[cam].name);
      SetCollectionsRenderEnabled(cols, !hidden);
    }

    /** The camera loop over `cams`, in order: each camera is shown iff `disable` is false or it is `active`. */
    method SetCamerasRenderEnabled(cams: seq<nat>, disable: bool, active: nat)
      requires Valid() && IndicesBelow(cams, |objects|)
      modifies this`objects, this`layerTree
      ensures Valid()
      ensures objects == HideCamerasAmong(old(objects), cams, disable, active)
      ensures layerTree == CameraPass(old(objects), collections, old(layerTree), cams, disable, active)
    {
      ghost var o0, t0 := objects, layerTree;
      var i := 0;
      while i < |cams|
        invariant 0 <= i <= |cams|
        invariant objects == HideCamerasAmong(o0, cams[..i], disable, active)
        invariant layerTree == CameraPass(o0, collections, t0, cams[..i], disable, active)
        invariant Valid()
      {
        var cam := cams[i];
        HideCamerasAmongName(o0, cams[..i], disable, active, cam);
        HideCamerasStep(o0, cams, i, disable, active);
        CameraPassStep(o0, collections, t0, cams, i, disable, active);
        SetCameraRenderEnabled(cam, disable && cam != active);
        assert objects == HideCamerasAmong(o0, cams[..i + 1], disable, active);
        i := i + 1;
      }
      assert cams[..|cams|] == cams;
    }

    /**
     * The camera loop of the toggle, both branches: for each camera in list
     * order, hide it unless it is shown (`disable` is false, or it is `active`),
     * then set every collection holding it enabled iff it is shown.
     */
    method ApplyCameraPass(disable: bool, active: nat)
      requires Valid()
      modifies this`objects, this`layerTree
      ensures Valid()
      ensures objects == HideCameras(old(objects), disable, active)
      ensures layerTree == CameraPass(old(objects), collections, old(layerTree), CameraIndices(old(objects)), disable, active)
    {
      HideCamerasDone(objects, disable, active);
      var cams := CameraIndices(objects);
      SetCamerasRenderEnabled(cams, disable, active);
    }
  }
}
