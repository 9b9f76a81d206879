# Camera render toggle, modelled in Dafny

The model covers two Blender add-ons that manage which cameras of a scene render.

- **Camera Render Toggle** (`camera_render_toggle_addon.py`) adds a toggle. The first press hides every camera except the active one from rendering. It also excludes, in the current view layer, the layer collections that show the hidden cameras' collections. The next press shows every camera again and includes those collections.
- **Camera Render Tools** (`camera_render_toggle_C-gy.py`) has the same toggle written inline in its operator. It adds a batch-render operator. That operator logs how many cameras the scene has and which ones it skips. It then renders each renderable camera in turn, into a file named after the render engine, the camera and the time, and logs the start and end of each render.

Modules, one per part of the add-ons:

- **`SceneData`** (`scene_data.dfy`): the blend data the add-ons read.
  - `bpy.data.objects` is a sequence of `SceneObject(name, isCamera, hideRender)`.
  - `bpy.data.collections` is a sequence of `Collection(objectNames, hideRender)`. Collections are identified by position, so their names are not kept.
  - Objects are referred to by their position in that list, which stands for Python object identity.
  - A collection holds an object when it holds the object's name, just as `col.objects.get(name)` does.
  - Also here are `get_all_camera_objects` (`CameraIndices`) and `collections_of_object` (`CollectionsOf`).
- **`LayerTree`** (`layer_tree.dfy`): the layer-collection tree of the current view layer.
  - The tree is an arena of `LayerNode(collection, exclude, children)`, with the root at index 0.
  - `TreeWf` says it is a tree: children come after their parent, every node has exactly one parent, and the root has none.
  - The breadth-first queue walk `iter_layer_collections` is a method. It is proved to yield every node exactly once, in breadth-first order.
  - `layer_collections_for_collection` is also here.
  - `ToggleContext.Context.Valid` also says that the root shows the scene's master collection, which is not in `bpy.data.collections`. So the toggle never writes the root (`CameraToggle.ToggleKeepsRoot`).
- **`CameraToggle`** (`toggle.dfy`): one press of the toggle, as a function `Toggle` on values. It comes with the lemmas stating what a press does.
  - `CameraPass` gives the exclude flags after the camera loop. `CameraPassAt` proves the "last write wins" rule that governs them.
  - `DisableOthersCameras`, `DisableOthersTree` and `EnableAllClears` describe the two transitions.
  - `ToggleTwice` and `ToggleTwiceRestores` describe two presses in a row.
- **`ToggleContext`** (`context.dfy`): the Blender context as a `Context` class, and the loops both toggles share.
  - Its fields are the objects, the collections, the current view layer's tree, the other view layers' trees, `scene.camera`, the window manager's `cam_toggle_last_action`, the render engine, `scene.render.filepath`, and a trace of render calls.
  - `set_collection_render_enabled` and the camera loop of the toggle are methods that update the fields in place. Each is proved to leave the fields equal to the value-level functions of `CameraToggle`.
  - The camera loop looks up a camera's collections with `SceneData.CollectionsOf`, which both add-ons' `collections_of_object` are proved or defined to equal.
- **`ToggleAddon`** (`addon.dfy`): the first add-on's `collections_of_object` loop, its `toggle_camera_collections_render` and the `execute` of its operator.
- **`RenderTools`** (`tools.dfy`): the second add-on.
  - Its toggle operator.
  - `is_renderable`, `get_renderable_cameras` and the skipped list.
  - The engine tag and the output names.
  - The log lines, as a `LogLine` datatype with its text given by `LineText`.
  - The batch-render operator as a loop over the renderable cameras.
- **`Text`** (`text.dfy`): the text operations the batch operator relies on.
  - `str` of a non-negative int, with a parser proved to invert it.
  - `", ".join`.
  - `os.path.join` on a POSIX system.

Where the code and the add-ons' own descriptions differ, the model follows the code:

- **The toggle writes layer-collection `exclude` flags, and only in `context.view_layer`.** It never writes `collection.hide_render`. The scene's other view layers (`Context.otherViewLayers`) are left as they were.
- **A collection shared by several cameras is written once per camera, and the last camera in list order decides its flag.** So when the active camera shares a collection with a later camera, that collection ends up excluded (`CameraToggle.DisableOthersTree`). It does not end up enabled.
- **`is_renderable` reads the object's and its collections' `hide_render` only.** The exclude flags the toggle writes play no part in it. The batch therefore renders exactly the cameras whose own flags and collections allow it, whatever the view layer excludes (`RenderTools.RenderableAfterEnableAll`, `RenderTools.RenderableAfterDisableOthers`).
- **`get_all_camera_objects` walks `bpy.data.objects`, which includes cameras that are not linked to the scene.**
- **`scene.camera` may be an object that is not a camera.** In that case the first press hides every camera (`CameraToggle.DisableOthersCameras`).
- **Two presses give back the starting flags only when every camera was shown and every collection the toggle writes was included before the first press** (`CameraToggle.ToggleTwiceRestores`). From any other starting point, two presses leave every camera shown and every written node included (`CameraToggle.ToggleTwice`).

## Model

| member | source | states |
|---|---|---|
| SceneData.CameraIndices | camera_render_toggle_addon.py:44-45 | the cameras are exactly the objects of type camera, listed once each in the order of bpy.data.objects |
| SceneData.CameraIndicesOfTypes | camera_render_toggle_addon.py:44-45 | the camera list depends on nothing but the objects' types, so changing render flags does not change it |
| SceneData.CollectionsOf | camera_render_toggle_C-gy.py:62-64 | the collections of an object are exactly those holding an object of its name, in the order of bpy.data.collections |
| ToggleAddon.CollectionsOfObject | camera_render_toggle_addon.py:48-55 | the loop over bpy.data.collections collects exactly CollectionsOf: the collections that link an object of that name, in order |
| LayerTree.BfsStep | camera_render_toggle_addon.py:60-64 | taking the head of the queue and appending its children keeps the queue invariant (yielded nodes plus queue are the root followed by the children of the yielded nodes, with no node twice), and fewer nodes are left to yield |
| LayerTree.NodeReached | camera_render_toggle_addon.py:58-64 | in a breadth-first order of a tree every node is reached, because its parent is |
| LayerTree.IterLayerCollections | camera_render_toggle_addon.py:58-64 | the queue walk yields the root first, then each node's children in visiting order; it yields every node of the tree exactly once |
| LayerTree.LayerCollectionsForCollection | camera_render_toggle_addon.py:66-67 | the result is the breadth-first order filtered to the nodes showing the collection: every such node, once each, and no other |
| LayerTree.WithExclude | camera_render_toggle_addon.py:69-71 | setting exclude on the nodes of one collection keeps each node's collection and children |
| LayerTree.SameShapeWf | camera_render_toggle_addon.py:69-71 | a tree whose nodes only had their exclude flags changed is still a well-formed tree |
| ToggleContext.Context.SetExclude | camera_render_toggle_addon.py:70-71 | after the loop, the listed nodes have the new exclude flag and every other node is as before |
| ToggleContext.Context.SetCollectionRenderEnabled | camera_render_toggle_addon.py:69-71 | every node of the current view layer showing the collection has exclude = not enabled; every other node and every other field is unchanged; the tree stays well formed |
| ToggleContext.Context.SetCollectionsRenderEnabled | camera_render_toggle_addon.py:89-90 | the inner loop applies set_collection_render_enabled to each collection of the camera in order, giving ApplyCollections of the old tree |
| ToggleContext.Context.SetCameraRenderEnabled | camera_render_toggle_addon.py:87-90 | one turn of the camera loop: only that camera's hide_render changes among the objects, and the tree becomes ApplyCollections over its collections |
| ToggleContext.Context.SetCamerasRenderEnabled | camera_render_toggle_addon.py:86-90 | the camera loop over a list leaves the objects as HideCamerasAmong and the tree as CameraPass of the old state |
| ToggleContext.Context.ApplyCameraPass | camera_render_toggle_addon.py:85-97 | both branches of the toggle's camera loop: the objects become HideCameras and the tree CameraPass over all cameras, in list order |
| CameraToggle.HideCameras | camera_render_toggle_addon.py:85-95 | the pass keeps the number of objects |
| CameraToggle.HideCamerasAmong | camera_render_toggle_addon.py:86-88 | setting the flags of some cameras one at a time keeps the number of objects |
| CameraToggle.HideCamerasAmongAt | camera_render_toggle_addon.py:86-88 | after the flags of the cameras done so far are set, each of those cameras is hidden iff the pass disables and it is not the active one; every other object is unchanged |
| CameraToggle.HideCamerasAmongName | camera_render_toggle_addon.py:88 | setting hide_render keeps every object's name |
| CameraToggle.HideCamerasStep | camera_render_toggle_addon.py:86-88 | one more turn of the loop sets exactly the next camera's flag |
| CameraToggle.HideCamerasDone | camera_render_toggle_addon.py:86-88 | once the loop has visited every camera, the objects are HideCameras: each camera hidden iff the pass disables and it is not active, and nothing else changed |
| CameraToggle.ApplyCollections | camera_render_toggle_addon.py:89-90 | writing exclude flags for a list of collections keeps the tree's shape |
| CameraToggle.ApplyCollectionsAt | camera_render_toggle_addon.py:89-90 | after the collections of one camera are written, a node has the new flag iff its collection is one of them, and is otherwise unchanged |
| CameraToggle.CameraPass | camera_render_toggle_addon.py:86-90 | the camera loop keeps the tree's shape |
| CameraToggle.CameraPassStep | camera_render_toggle_addon.py:86-90 | one more camera applies exactly that camera's collections to the tree |
| CameraToggle.LastWriter | camera_render_toggle_addon.py:86-90 | none iff no camera of the list lies in the collection; otherwise a camera that does, with no later camera in the list that does |
| CameraToggle.CameraPassAt | camera_render_toggle_addon.py:86-90 | last write wins: after the loop, a node whose collection holds some camera has the flag written for the last such camera, every other node is unchanged |
| CameraToggle.LastWriterNamesOnly | camera_render_toggle_addon.py:48-55 | which camera writes a collection last depends only on the objects' names, since membership is looked up by name |
| CameraToggle.ActiveCamera | camera_render_toggle_addon.py:82-83 | the active camera is scene.camera, or the first camera when scene.camera is None |
| CameraToggle.Toggle | camera_render_toggle_addon.py:73-99 | an error with the no-camera message iff there is no camera; otherwise the state flips, the tree keeps its shape and no object is added or removed |
| CameraToggle.DisableOthersCameras | camera_render_toggle_addon.py:85-92 | from enabled_all, each camera's record becomes the same record with hide_render set iff it is not the active one, every other object is unchanged, the state is disabled_others, and the message is the fixed prefix, the active camera's name and a closing quote |
| CameraToggle.DisableOthersTree | camera_render_toggle_addon.py:85-91 | from enabled_all, a node whose collection holds a camera is excluded iff the last such camera in list order is not the active one; every other node is unchanged |
| CameraToggle.EnableAllClears | camera_render_toggle_addon.py:93-99 | from disabled_others, a press shows every camera, includes every node whose collection holds a camera, leaves everything else alone, moves to enabled_all with its message |
| CameraToggle.SharedCollectionAgrees | camera_render_toggle_addon.py:66-71 | after a press, two nodes showing the same written collection carry the same exclude flag, wherever they sit in the tree |
| CameraToggle.ToggleKeepsCameras | camera_render_toggle_addon.py:73-99 | a press keeps every object's name and type, so the next press sees the same cameras and writes the same nodes |
| CameraToggle.ToggleKeepsRoot | camera_render_toggle_addon.py:69-71 | a press never writes the root of the view layer's tree, since the root shows the scene's master collection and no entry of bpy.data.collections |
| CameraToggle.ToggleTwice | camera_render_toggle_addon.py:73-99 | two presses from enabled_all end in enabled_all with every camera shown and every written node included; other objects and nodes are as before the first press |
| CameraToggle.ToggleTwiceRestores | camera_render_toggle_addon.py:73-99 | two presses from enabled_all, starting with every camera shown and every written node included, give back exactly the starting objects and tree |
| CameraToggle.PanelLabel | camera_render_toggle_addon.py:124-125 | the button reads "Enable All" iff the last action was disabled_others, "Disable Others" otherwise |
| ToggleAddon.ToggleCameraCollectionsRender | camera_render_toggle_addon.py:73-99 | with no camera, the no-camera error and no change at all; otherwise the objects, the tree and the state become those of Toggle, and its message is returned |
| ToggleAddon.ExecuteToggleOperator | camera_render_toggle_addon.py:107-114 | the error becomes a warning report and CANCELLED with nothing changed; success becomes an info report of the message and FINISHED |
| RenderTools.ExecuteToggle | camera_render_toggle_C-gy.py:123-152 | the inline toggle: with no camera, a warning, CANCELLED and no change; otherwise the state of Toggle, its message as an info report, and FINISHED |
| RenderTools.NoneHidden | camera_render_toggle_C-gy.py:51-54 | the loop over the object's collections is true iff none of them has hide_render set |
| RenderTools.IsRenderable | camera_render_toggle_C-gy.py:48-54 | an object is renderable iff its hide_render is off and no collection holding it has hide_render on |
| RenderTools.RenderableCameras | camera_render_toggle_C-gy.py:59-60 | exactly the renderable cameras, in the order of bpy.data.objects |
| RenderTools.SkippedCameras | camera_render_toggle_C-gy.py:184 | exactly the cameras that are not renderable, in the order of bpy.data.objects |
| RenderTools.RenderableSkippedPartition | camera_render_toggle_C-gy.py:182-184 | the renderable count plus the skipped count is the number of cameras |
| RenderTools.RenderableAfterDisableOthers | camera_render_toggle_C-gy.py:137-143 | after a press from enabled_all, the only camera that can be renderable is the active one, and it is renderable iff no collection holding it has hide_render on |
| RenderTools.RenderableAfterEnableAll | camera_render_toggle_C-gy.py:145-150 | after a press from disabled_others, a camera is renderable iff no collection holding it has hide_render on |
| RenderTools.EngineTag | camera_render_toggle_C-gy.py:172-180 | one letter: C for Cycles, E for either Eevee identifier, W for Workbench, X for any other engine, each iff |
| RenderTools.OutputNameParts | camera_render_toggle_C-gy.py:198 | the output name is tag, "_", camera name, "_", timestamp, and each part can be read back from it |
| RenderTools.OutputNameInjective | camera_render_toggle_C-gy.py:197-198 | with the same engine and timestamp, two renders go to the same name only if the cameras' names are equal |
| RenderTools.LogHeader | camera_render_toggle_C-gy.py:187-193 | four lines ending with an empty one; the second reads "No skipped cameras." iff no camera is skipped |
| RenderTools.LogHeaderReadBack | camera_render_toggle_C-gy.py:188-193 | the camera total and the renderable count parse back from the header's text, and the skipped line lists the skipped names |
| RenderTools.EntriesAt | camera_render_toggle_C-gy.py:205-215 | the per-camera log has three lines per render; the j-th entry is numbered j + 1 of the renderable count and names the j-th renderable camera |
| RenderTools.CounterParts | camera_render_toggle_C-gy.py:206 | a counter is "[", the digits of idx, "/", the digits of n, and "]" |
| RenderTools.CounterReadBack | camera_render_toggle_C-gy.py:206 | both numbers of "[idx/n]" parse back from the digits on either side of the "/" |
| RenderTools.CounterInjective | camera_render_toggle_C-gy.py:206 | different renders of one batch carry different "[idx/n]" counters |
| RenderTools.ElapsedTextReadBack | camera_render_toggle_C-gy.py:212-215 | the elapsed text is the minutes, "m ", the seconds and "s"; the seconds are below 60 and minutes times 60 plus seconds is the elapsed time |
| RenderTools.LineText | camera_render_toggle_C-gy.py:188-215 | only the blank line has empty text; a started or finished line begins with its "[idx/n]" counter |
| RenderTools.StartedLineReadBack | camera_render_toggle_C-gy.py:206 | a started line is the counter, " Started rendering: ", the camera's name, " at " and the start time; the name reads back once the time's length is known |
| RenderTools.FinishedLineReadBack | camera_render_toggle_C-gy.py:215 | a finished line is the counter, " Finished: ", the camera's name, then " at ", the end time and the elapsed text in parentheses; the name reads back once that tail is known |
| RenderTools.RenderingReports | camera_render_toggle_C-gy.py:203 | one report per render made so far |
| RenderTools.RenderingReportsAt | camera_render_toggle_C-gy.py:195-203 | the j-th report is numbered j + 1 of the renderable count and names the j-th renderable camera |
| RenderTools.PlannedRenders | camera_render_toggle_C-gy.py:195-208 | one render call per camera rendered so far |
| RenderTools.PlannedRendersAt | camera_render_toggle_C-gy.py:195-208 | the j-th render call renders the j-th renderable camera into the output folder, under the name built from its name and the j-th timestamp |
| RenderTools.RenderCamera | camera_render_toggle_C-gy.py:196-215 | one turn: the camera becomes scene.camera, the filepath its output path, one render call is appended with them, and the report and three log lines are those of that render |
| RenderTools.RenderCameras | camera_render_toggle_C-gy.py:195-215 | the loop renders the listed cameras in order: the log entries, reports and render calls are those of every camera, and the scene camera and filepath are the last camera's (or unchanged when there is none) |
| RenderTools.BatchRender | camera_render_toggle_C-gy.py:164-230 | the log is the header over all, skipped and renderable cameras followed by one entry per renderable camera; one render call per renderable camera, in order; FINISHED |
| Text.NatToString | camera_render_toggle_C-gy.py:188 | str of a count is a non-empty string of digits with no leading zero |
| Text.ParseNatToString | camera_render_toggle_C-gy.py:188 | reading back the digits of a count gives the count |
| Text.NatToStringInjective | camera_render_toggle_C-gy.py:193 | different counts are written differently |
| Text.JoinNamesSnoc | camera_render_toggle_C-gy.py:190 | joining one more name appends ", " and that name |
| Text.JoinNamesEnds | camera_render_toggle_C-gy.py:190 | the joined list starts with the first name and ends with the last |
| Text.PathJoin | camera_render_toggle_C-gy.py:186 | an absolute name replaces the folder; otherwise the path is the folder and the name, with a "/" between them exactly when the folder is non-empty and does not already end in "/" |
| Text.PathJoinName | camera_render_toggle_C-gy.py:198 | a relative name can be read back from the end of the joined path, preceded by "/" unless the folder was empty |

## Left out

- Registration is not modelled: `bl_info`, `register`/`unregister`, `_ensure_state_prop`, keymaps, and the operators' `bl_options`. These attach the add-on to Blender and change no scene state. The toggle state is always one of the two enum values, so the `getattr` default in the panels never applies.
- Panel drawing is not modelled. Only the toggle button's label is (`CameraToggle.PanelLabel`). The output-folder field, the shutdown checkbox and the batch button are UI only.
- The batch operator's file-system calls are not modelled: `bpy.path.abspath`, `os.path.exists`, `os.makedirs`, and the opening and writing of `render_log.txt`.
  - The output folder is a parameter, taken as already absolute.
  - The log is returned as its sequence of `LogLine`s, and `LineText` gives each line's text. Encoding, line breaks and failures of the file system are not modelled.
- Clocks are not modelled. `datetime.now()` and `time.time()` become a parameter `clock` that gives each render its timestamp, start time, end time and elapsed seconds. `strftime` formatting is not modelled.
- RenderTools.BatchRender: the elapsed time is a whole number of seconds. `divmod` of the float difference, followed by `int()` of both parts, is not modelled.
- `bpy.ops.render.render(animation=True)` is an opaque call. It is recorded as a `RenderCall` of the scene camera and the output path it was made with. Its failure, which would abort the batch, is not modelled.
- The "Rendering complete." popup is not modelled. Neither is the optional shutdown, which calls the operating system's shutdown command.
- Text.PathJoin: only the POSIX behaviour of `os.path.join` is modelled. Drive letters and backslashes of Windows paths are not.
- RenderTools.IsRenderable: `obj.users_collection` also lists the scene's master collection, which is not in `bpy.data.collections`. The model consults only the collections in `bpy.data.collections`.
- Object and collection names are taken to be unique, as Blender keeps them.
- ToggleContext.Context.SetCollectionRenderEnabled, CameraToggle.DisableOthersTree, CameraToggle.EnableAllClears, CameraToggle.ToggleTwice, CameraToggle.ToggleTwiceRestores: writing `lc.exclude` is modelled as changing that one node only. When Blender runs the property's update, it also copies the flag to every layer collection below that node; that copying is Blender's, not the add-ons', and is not modelled. So "every other node is unchanged" holds of the model, not of a tree where a written node has descendants. For example, with root, then P showing collection X (inactive camera B), then Q below P showing collection Y (active camera A, listed before B), the model ends with Q included, while Blender's write for B excludes P and Q with it.
- ToggleAddon.CollectionsOfObject models the first add-on's loop. The second add-on's list comprehension for the same function is `SceneData.CollectionsOf`. Both variants of `iter_layer_collections` (an append loop and `q.extend`) enqueue the same children in the same order, and are modelled by `LayerTree.IterLayerCollections`.
