// The camera render toggle as a transition on values: what one press of the
// toggle does to the cameras' hide_render flags, to the exclude flags of the
// view layer's tree, and to the toggle state, and what it reports.
module CameraToggle {
  import opened SceneData
  import opened LayerTree

  const NoCameraMessage := "No camera found in the scene."
  const DisabledPrefix := "\U{1F4F7} Non-active cameras disabled. Active camera: \""
  const EnabledMessage := "\U{2705} All cameras enabled for rendering."

  /** The cameras' flags after one pass: a camera is hidden iff `disable` holds and it is not `active`. */
  function HideCameras(objects: seq<SceneObject>, disable: bool, active: nat): (objects': seq<SceneObject>)
    ensures |objects'| == |objects|
  {
    seq(|objects|, i requires 0 <= i < |objects| =>
      if objects[i].isCamera then objects[i].(hideRender := disable && i != active) else objects[i])
  }

  /** set_collection_render_enabled for each of the collections `cols`, in order, with the same flag. */
  function ApplyCollections(tree: seq<LayerNode>, cols: seq<nat>, exclude: bool): (tree': seq<LayerNode>)
    ensures SameShape(tree, tree')
  {
    if cols == [] then tree
    else WithExclude(ApplyCollections(tree, cols[..|cols| - 1], exclude), cols[|cols| - 1], exclude)
  }

  /**
   * The tree after the loop over `cams`: for each camera in turn, every
   * collection holding it is set enabled iff the camera is shown, i.e. iff
   * `disable` is false or the camera is `active`.
   */
  function CameraPass(objects: seq<SceneObject>, collections: seq<Collection>, tree: seq<LayerNode>,
                      cams: seq<nat>, disable: bool, active: nat): (tree': seq<LayerNode>)
    requires IndicesBelow(cams, |objects|)
    ensures SameShape(tree, tree')
  {
    if cams == [] then tree
    else
      var cam := cams[|cams| - 1];
      ApplyCollections(CameraPass(objects, collections, tree, cams[..|cams| - 1], disable, active),
                       CollectionsOf(collections, objects[cam].name), disable && cam != active)
  }

  /** Camera `cam` is linked (by name) to collection c. */
  predicate InCollection(objects: seq<SceneObject>, collections: seq<Collection>, cam: nat, c: nat) {
    cam < |objects| && c < |collections| && objects[cam].name in collections[c].objectNames
  }

  /** The last camera of `cams`, in list order, that collection c holds. */
  function LastWriter(objects: seq<SceneObject>, collections: seq<Collection>, cams: seq<nat>, c: nat): (w: Option<nat>)
    ensures w.None? <==> forall i :: 0 <= i < |cams| ==> !InCollection(objects, collections, cams[i], c)
    ensures w.Some? ==> exists i :: 0 <= i < |cams| && cams[i] == w.value && InCollection(objects, collections, cams[i], c) &&
                         forall j :: i < j < |cams| ==> !InCollection(objects, collections, cams[j], c)
  {
    if cams == [] then None
    else if InCollection(objects, collections, cams[|cams| - 1], c) then Some(cams[|cams| - 1])
    else LastWriter(objects, collections, cams[..|cams| - 1], c)
  }

  /** One collection pass over a node: set if the node shows one of the collections. */
  lemma {:induction false} ApplyCollectionsAt(tree: seq<LayerNode>, cols: seq<nat>, exclude: bool, k: nat)
    requires k < |tree|
    ensures ApplyCollections(tree, cols, exclude)[k] ==
            if tree[k].collection in cols then tree[k].(exclude := exclude) else tree[k]
  {
    if cols != [] {
      var init := cols[..|cols| - 1];
      ApplyCollectionsAt(tree, init, exclude, k);
      assert tree[k].collection in cols <==> tree[k].collection in init || tree[k].collection == cols[|cols| - 1];
    }
  }

  /**
   * Last write wins: after the camera loop, a node whose collection holds
   * some camera has the exclude flag written for the last such camera in
   * list order; every other node is unchanged.
   */
  lemma {:induction false} CameraPassAt(objects: seq<SceneObject>, collections: seq<Collection>, tree: seq<LayerNode>,
                                        cams: seq<nat>, disable: bool, active: nat, k: nat)
    requires IndicesBelow(cams, |objects|) && k < |tree|
    ensures CameraPass(objects, collections, tree, cams, disable, active)[k] ==
            match LastWriter(objects, collections, cams, tree[k].collection)
            case None => tree[k]
            case Some(w) => tree[k].(exclude := disable && w != active)
  {
    if cams != [] {
      var init, cam := cams[..|cams| - 1], cams[|cams| - 1];
      CameraPassAt(objects, collections, tree, init, disable, active, k);
      var before := CameraPass(objects, collections, tree, init, disable, active);
      ApplyCollectionsAt(before, CollectionsOf(collections, objects[cam].name), disable && cam != active, k);
    }
  }

  /** Which camera writes last to a collection depends only on the cameras' names. */
  lemma {:induction false} LastWriterNamesOnly(objects: seq<SceneObject>, objects': seq<SceneObject>,
                                               collections: seq<Collection>, cams: seq<nat>, c: nat)
    requires |objects'| == |objects|
    requires forall i :: 0 <= i < |objects| ==> objects'[i].name == objects[i].name
    ensures LastWriter(objects', collections, cams, c) == LastWriter(objects, collections, cams, c)
  {
    if cams != [] {
      LastWriterNamesOnly(objects, objects', collections, cams[..|cams| - 1], c);
    }
  }

  /** The objects after the camera loop has set the flags of the cameras `done`, one after the other. */
  function HideCamerasAmong(objects: seq<SceneObject>, done: seq<nat>, disable: bool, active: nat): (objects': seq<SceneObject>)
    ensures |objects'| == |objects|
  {
    if done == [] then objects
    else
      var prev, cam := HideCamerasAmong(objects, done[..|done| - 1], disable, active), done[|done| - 1];
      if cam < |prev| then prev[cam := prev[cam].(hideRender := disable && cam != active)] else prev
  }

  /** Setting the flags one camera at a time: each object reached gets its flag, every other is unchanged. */
  lemma {:induction false} HideCamerasAmongAt(objects: seq<SceneObject>, done: seq<nat>, disable: bool, active: nat, i: nat)
    requires i < |objects|
    ensures HideCamerasAmong(objects, done, disable, active)[i] ==
            if i in done then objects[i].(hideRender := disable && i != active) else objects[i]
  {
    if done != [] {
      var init := done[..|done| - 1];
      HideCamerasAmongAt(objects, init, disable, active, i);
      assert i in done <==> i in init || i == done[|done| - 1];
    }
  }

  /** Setting flags keeps every object's name. */
  lemma HideCamerasAmongName(objects: seq<SceneObject>, done: seq<nat>, disable: bool, active: nat, i: nat)
    requires i < |objects|
    ensures HideCamerasAmong(objects, done, disable, active)[i].name == objects[i].name
  {
    HideCamerasAmongAt(objects, done, disable, active, i);
  }

  /** Loop step for the objects: the camera after the prefix gets its flag. */
  lemma HideCamerasStep(objects: seq<SceneObject>, cams: seq<nat>, i: nat, disable: bool, active: nat)
    requires i < |cams| && cams[i] < |objects|
    ensures var prev := HideCamerasAmong(objects, cams[..i], disable, active);
            HideCamerasAmong(objects, cams[..i + 1], disable, active) ==
            prev[cams[i] := prev[cams[i]].(hideRender := disable && cams[i] != active)]
  {
    assert cams[..i + 1][..i] == cams[..i];
  }

  /** Loop exit for the objects: once every camera is done, the objects are HideCameras. */
  lemma HideCamerasDone(objects: seq<SceneObject>, disable: bool, active: nat)
    ensures HideCamerasAmong(objects, CameraIndices(objects), disable, active) == HideCameras(objects, disable, active)
  {
    forall i | 0 <= i < |objects|
      ensures HideCamerasAmong(objects, CameraIndices(objects), disable, active)[i] == HideCameras(objects, disable, active)[i]
    {
      HideCamerasAmongAt(objects, CameraIndices(objects), disable, active, i);
    }
  }

  /** Loop step for the tree: the pass over one more camera applies that camera's collections. */
  lemma CameraPassStep(objects: seq<SceneObject>, collections: seq<Collection>, tree: seq<LayerNode>,
                       cams: seq<nat>, i: nat, disable: bool, active: nat)
    requires IndicesBelow(cams, |objects|) && i < |cams|
    ensures CameraPass(objects, collections, tree, cams[..i + 1], disable, active) ==
            ApplyCollections(CameraPass(objects, collections, tree, cams[..i], disable, active),
                             CollectionsOf(collections, objects[cams[i]].name), disable && cams[i] != active)
  {
    var prefix := cams[..i + 1];
    assert prefix[..|prefix| - 1] == cams[..i];
  }

  /** What a successful press leaves behind: the objects, the tree, the new state and the report text. */
  datatype Outcome = Outcome(objects: seq<SceneObject>, tree: seq<LayerNode>, state: ToggleState, message: string)

  /** scene.camera, or the first camera when no scene camera is set. */
  function ActiveCamera(cams: seq<nat>, camera: Option<nat>): (active: nat)
    requires cams != []
    ensures camera.None? ==> active == cams[0]
    ensures camera.Some? ==> active == camera.value
  {
    if camera.None? then cams[0] else camera.value
  }

  predicate CameraValid(objects: seq<SceneObject>, camera: Option<nat>) {
    camera.Some? ==> camera.value < |objects|
  }

  /**
   * One press of the toggle (toggle_camera_collections_render, and the body
   * of the tools variant's toggle operator): an error when there is no
   * camera; from any state but disabled_others, hide every camera but the
   * active one and exclude the collections of the hidden ones; from
   * disabled_others, show every camera and include their collections.
   */
  function Toggle(objects: seq<SceneObject>, collections: seq<Collection>, tree: seq<LayerNode>,
                  camera: Option<nat>, state: ToggleState): (r: Result<Outcome>)
    requires CameraValid(objects, camera)
    ensures r.Err? <==> CameraIndices(objects) == []
    ensures r.Err? ==> r.error == NoCameraMessage
    ensures r.Ok? ==> r.value.state != state && SameShape(tree, r.value.tree) && |r.value.objects| == |objects|
  {
    var cams := CameraIndices(objects);
    if cams == [] then Err(NoCameraMessage)
    else
      var active := ActiveCamera(cams, camera);
      if state != DisabledOthers then
        Ok(Outcome(HideCameras(objects, true, active), CameraPass(objects, collections, tree, cams, true, active),
                   DisabledOthers, DisabledPrefix + objects[active].name + "\""))
      else
        Ok(Outcome(HideCameras(objects, false, active), CameraPass(objects, collections, tree, cams, false, active),
                   EnabledAll, EnabledMessage))
  }

  /** Some camera lies in the collection that node k shows: the toggle writes node k. */
  predicate Touched(objects: seq<SceneObject>, collections: seq<Collection>, tree: seq<LayerNode>, k: nat)
    requires k < |tree|
  {
    LastWriter(objects, collections, CameraIndices(objects), tree[k].collection).Some?
  }

  /**
   * From any state but disabled_others, a press hides exactly the cameras
   * other than the active one (scene.camera, or the first camera), leaves
   * every other object alone, and names the active camera in its report.
   */
  lemma DisableOthersCameras(objects: seq<SceneObject>, collections: seq<Collection>, tree: seq<LayerNode>, camera: Option<nat>)
    requires CameraValid(objects, camera) && CameraIndices(objects) != []
    ensures var r := Toggle(objects, collections, tree, camera, EnabledAll);
            var active := ActiveCamera(CameraIndices(objects), camera);
            && r.Ok? && r.value.state == DisabledOthers
            && r.value.message == DisabledPrefix + objects[active].name + "\""
            && (forall i :: 0 <= i < |objects| ==>
                  r.value.objects[i] == if objects[i].isCamera then objects[i].(hideRender := i != active) else objects[i])
  {
  }

  /**
   * From any state but disabled_others, each node whose collection holds a
   * camera is excluded iff the last camera in list order that the collection
   * holds is not the active one; every other node is as before.
   */
  lemma {:induction false} DisableOthersTree(objects: seq<SceneObject>, collections: seq<Collection>, tree: seq<LayerNode>, camera: Option<nat>)
    requires CameraValid(objects, camera) && CameraIndices(objects) != []
    ensures var r := Toggle(objects, collections, tree, camera, EnabledAll);
            var cams := CameraIndices(objects);
            var active := ActiveCamera(cams, camera);
            && r.Ok?
            && forall k :: 0 <= k < |tree| ==>
                 r.value.tree[k] == match LastWriter(objects, collections, cams, tree[k].collection)
                                    case None => tree[k]
                                    case Some(w) => tree[k].(exclude := w != active)
  {
    var cams := CameraIndices(objects);
    var active := ActiveCamera(cams, camera);
    forall k | 0 <= k < |tree|
      ensures CameraPass(objects, collections, tree, cams, true, active)[k] ==
              match LastWriter(objects, collections, cams, tree[k].collection)
              case None => tree[k]
              case Some(w) => tree[k].(exclude := w != active)
    {
      CameraPassAt(objects, collections, tree, cams, true, active, k);
    }
  }

  /**
   * From disabled_others, a press shows every camera, includes every node
   * whose collection holds a camera, leaves every other object and node
   * alone, and returns to enabled_all.
   */
  lemma {:induction false} EnableAllClears(objects: seq<SceneObject>, collections: seq<Collection>, tree: seq<LayerNode>, camera: Option<nat>)
    requires CameraValid(objects, camera) && CameraIndices(objects) != []
    ensures var r := Toggle(objects, collections, tree, camera, DisabledOthers);
            && r.Ok? && r.value.state == EnabledAll && r.value.message == EnabledMessage
            && (forall i :: 0 <= i < |objects| ==>
                  r.value.objects[i] == if objects[i].isCamera then objects[i].(hideRender := false) else objects[i])
            && (forall k :: 0 <= k < |tree| ==>
                  r.value.tree[k] == if Touched(objects, collections, tree, k) then tree[k].(exclude := false) else tree[k])
  {
    var cams := CameraIndices(objects);
    var active := ActiveCamera(cams, camera);
    forall k | 0 <= k < |tree|
      ensures CameraPass(objects, collections, tree, cams, false, active)[k] ==
              if Touched(objects, collections, tree, k) then tree[k].(exclude := false) else tree[k]
    {
      CameraPassAt(objects, collections, tree, cams, false, active, k);
    }
  }

  /**
   * Nodes that show the same collection agree after a press when the toggle
   * writes that collection, wherever they sit in the tree.
   */
  lemma {:induction false} SharedCollectionAgrees(objects: seq<SceneObject>, collections: seq<Collection>, tree: seq<LayerNode>,
                                                  camera: Option<nat>, state: ToggleState, k1: nat, k2: nat)
    requires CameraValid(objects, camera) && CameraIndices(objects) != []
    requires k1 < |tree| && k2 < |tree| && tree[k1].collection == tree[k2].collection && Touched(objects, collections, tree, k1)
    ensures var r := Toggle(objects, collections, tree, camera, state);
            r.Ok? && r.value.tree[k1].exclude == r.value.tree[k2].exclude
  {
    var cams := CameraIndices(objects);
    var active := ActiveCamera(cams, camera);
    var disable := state != DisabledOthers;
    CameraPassAt(objects, collections, tree, cams, disable, active, k1);
    CameraPassAt(objects, collections, tree, cams, disable, active, k2);
  }

  /**
   * A press never writes the root of the view layer's tree: it shows the
   * scene's master collection, which no entry of bpy.data.collections is.
   */
  lemma ToggleKeepsRoot(objects: seq<SceneObject>, collections: seq<Collection>, tree: seq<LayerNode>,
                        camera: Option<nat>, state: ToggleState)
    requires CameraValid(objects, camera) && CameraIndices(objects) != []
    requires tree != [] && tree[0].collection >= |collections|
    ensures var r := Toggle(objects, collections, tree, camera, state);
            r.Ok? && r.value.tree[0] == tree[0]
  {
    var cams := CameraIndices(objects);
    CameraPassAt(objects, collections, tree, cams, state != DisabledOthers, ActiveCamera(cams, camera), 0);
  }

  /** Every camera shown, and every node the toggle writes included: the state enabled_all aims at. */
  predicate AllEnabled(objects: seq<SceneObject>, collections: seq<Collection>, tree: seq<LayerNode>) {
    && (forall i :: 0 <= i < |objects| && objects[i].isCamera ==> !objects[i].hideRender)
    && (forall k :: 0 <= k < |tree| && Touched(objects, collections, tree, k) ==> !tree[k].exclude)
  }

  /**
   * A press changes no object's type or name and no node's collection, so
   * the next press sees the same cameras and writes the same nodes.
   */
  lemma {:induction false} ToggleKeepsCameras(objects: seq<SceneObject>, collections: seq<Collection>, tree: seq<LayerNode>,
                                              camera: Option<nat>, state: ToggleState)
    requires CameraValid(objects, camera) && CameraIndices(objects) != []
    ensures var r := Toggle(objects, collections, tree, camera, state);
            && r.Ok? && CameraValid(r.value.objects, camera)
            && (forall i :: 0 <= i < |objects| ==>
                  r.value.objects[i].name == objects[i].name && r.value.objects[i].isCamera == objects[i].isCamera)
            && CameraIndices(r.value.objects) == CameraIndices(objects)
            && (forall k :: 0 <= k < |tree| ==>
                  Touched(r.value.objects, collections, r.value.tree, k) == Touched(objects, collections, tree, k))
  {
    var r := Toggle(objects, collections, tree, camera, state);
    var o1, t1 := r.value.objects, r.value.tree;
    assert forall i :: 0 <= i < |objects| ==> o1[i].isCamera == objects[i].isCamera && o1[i].name == objects[i].name;
    CameraIndicesOfTypes(objects, o1);
    forall k | 0 <= k < |tree| ensures Touched(o1, collections, t1, k) == Touched(objects, collections, tree, k) {
      LastWriterNamesOnly(objects, o1, collections, CameraIndices(objects), tree[k].collection);
    }
  }

  /**
   * Two presses from enabled_all: the state is enabled_all again, every camera
   * is shown and every node the toggle writes is included; everything else is
   * as before the first press.
   */
  lemma {:induction false} ToggleTwice(objects: seq<SceneObject>, collections: seq<Collection>, tree: seq<LayerNode>, camera: Option<nat>)
    requires CameraValid(objects, camera) && CameraIndices(objects) != []
    ensures var r1 := Toggle(objects, collections, tree, camera, EnabledAll);
            && r1.Ok? && CameraValid(r1.value.objects, camera)
            && var r2 := Toggle(r1.value.objects, collections, r1.value.tree, camera, r1.value.state);
               && r2.Ok? && r2.value.state == EnabledAll
               && AllEnabled(r2.value.objects, collections, r2.value.tree)
               && (forall i :: 0 <= i < |objects| && !objects[i].isCamera ==> r2.value.objects[i] == objects[i])
               && (forall k :: 0 <= k < |tree| && !Touched(objects, collections, tree, k) ==> r2.value.tree[k] == tree[k])
  {
    var r1 := Toggle(objects, collections, tree, camera, EnabledAll);
    ToggleKeepsCameras(objects, collections, tree, camera, EnabledAll);
    var o1, t1 := r1.value.objects, r1.value.tree;
    ToggleKeepsCameras(o1, collections, t1, camera, DisabledOthers);
    EnableAllClears(o1, collections, t1, camera);
    var cams := CameraIndices(objects);
    var active := ActiveCamera(cams, camera);
    forall k | 0 <= k < |tree| && !Touched(objects, collections, tree, k) ensures t1[k] == tree[k] {
      CameraPassAt(objects, collections, tree, cams, true, active, k);
    }
  }

  /**
   * Two presses from enabled_all restore a scene in which every camera was
   * shown and every node the toggle writes was included, flag for flag.
   */
  lemma {:induction false} ToggleTwiceRestores(objects: seq<SceneObject>, collections: seq<Collection>, tree: seq<LayerNode>, camera: Option<nat>)
    requires CameraValid(objects, camera) && CameraIndices(objects) != []
    requires AllEnabled(objects, collections, tree)
    ensures var r1 := Toggle(objects, collections, tree, camera, EnabledAll);
            && r1.Ok? && CameraValid(r1.value.objects, camera)
            && var r2 := Toggle(r1.value.objects, collections, r1.value.tree, camera, r1.value.state);
               r2.Ok? && r2.value.state == EnabledAll && r2.value.objects == objects && r2.value.tree == tree
  {
    ToggleTwice(objects, collections, tree, camera);
    var r1 := Toggle(objects, collections, tree, camera, EnabledAll);
    ToggleKeepsCameras(objects, collections, tree, camera, EnabledAll);
    var r2 := Toggle(r1.value.objects, collections, r1.value.tree, camera, r1.value.state);
    ToggleKeepsCameras(r1.value.objects, collections, r1.value.tree, camera, r1.value.state);
    var o2, t2 := r2.value.objects, r2.value.tree;
    assert forall i :: 0 <= i < |objects| ==> o2[i] == objects[i];
    assert forall k :: 0 <= k < |tree| ==> t2[k] == tree[k];
  }

  /** The panel's button label: "Enable All" exactly when the last action disabled the others. */
  function PanelLabel(state: ToggleState): (text: string)
    ensures text == "Enable All" <==> state == DisabledOthers
    ensures text == "Disable Others" <==> state != DisabledOthers
  {
    if state != DisabledOthers then "Disable Others" else "Enable All"
  }
}
