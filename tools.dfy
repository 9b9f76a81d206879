// The second variant of the add-on, Camera Render Tools: the same toggle
// written inline in its operator, and the batch-render operator that renders
// every renderable camera in turn and keeps a log of what it did.
module RenderTools {
  import opened SceneData
  import opened LayerTree
  import opened CameraToggle
  import opened ToggleContext
  import opened Text

  /**
   * OBJECT_OT_toggle_camera_render.execute of this variant: with no camera, a
   * warning, CANCELLED and no change; otherwise one press of the toggle, its
   * message as an info report, and FINISHED.
   */
  method ExecuteToggle(ctx: Context) returns (status: OperatorStatus, report: Report)
    requires ctx.Valid()
    modifies ctx`objects, ctx`layerTree, ctx`lastAction
    ensures ctx.Valid()
    ensures var t := Toggle(old(ctx.objects), ctx.collections, old(ctx.layerTree), ctx.camera, old(ctx.lastAction));
            && (t.Err? ==> status == Cancelled && report == Report(Warning, NoCameraMessage)
                           && ctx.objects == old(ctx.objects) && ctx.layerTree == old(ctx.layerTree)
                           && ctx.lastAction == old(ctx.lastAction))
            && (t.Ok? ==> status == Finished && report == Report(Info, t.value.message)
                          && ctx.objects == t.value.objects && ctx.layerTree == t.value.tree
                          && ctx.lastAction == t.value.state)
  {
    var cams := CameraIndices(ctx.objects);
    if cams == [] {
      return Cancelled, Report(Warning, NoCameraMessage);
    }
    var active := ActiveCamera(cams, ctx.camera);
    if ctx.lastAction != DisabledOthers {
      var name := ctx.objects[active].name;
      ctx.ApplyCameraPass(true, active);
      ctx.lastAction := DisabledOthers;
      report := Report(Info, DisabledPrefix + name + "\"");
    } else {
      ctx.ApplyCameraPass(false, active);
      ctx.lastAction := EnabledAll;
      report := Report(Info, EnabledMessage);
    }
    status := Finished;
  }

  // ---------------------------------------------------------------------
  // Which cameras the batch renders
  // ---------------------------------------------------------------------

  /** The loop of is_renderable over users_collection: false at the first hidden collection. */
  function NoneHidden(collections: seq<Collection>, cols: seq<nat>): (r: bool)
    requires IndicesBelow(cols, |collections|)
    ensures r <==> forall i :: 0 <= i < |cols| ==> !collections[cols[i]].hideRender
  {
    if cols == [] then true
    else if collections[cols[0]].hideRender then false
    else NoneHidden(collections, cols[1..])
  }

  /**
   * is_renderable: the object's own hide_render is off and no collection it
   * is linked to has hide_render on. The exclude flags of the view layer,
   * which the toggle writes, play no part.
   */
  function IsRenderable(objects: seq<SceneObject>, collections: seq<Collection>, i: nat): (r: bool)
    requires i < |objects|
    ensures r <==> !objects[i].hideRender &&
                   forall c :: 0 <= c < |collections| && objects[i].name in collections[c].objectNames ==>
                                 !collections[c].hideRender
  {
    var users := CollectionsOf(collections, objects[i].name);
    assert forall j :: 0 <= j < |users| ==> users[j] in users;
    !objects[i].hideRender && NoneHidden(collections, users)
  }

  function RenderableAt(objects: seq<SceneObject>, collections: seq<Collection>): nat -> bool {
    (i: nat) => i < |objects| && IsRenderable(objects, collections, i)
  }

  function NotIn(s: seq<nat>): nat -> bool {
    (x: nat) => x !in s
  }

  /** get_renderable_cameras: the renderable cameras, in the order of bpy.data.objects. */
  function RenderableCameras(objects: seq<SceneObject>, collections: seq<Collection>): (r: seq<nat>)
    ensures Increasing(r)
    ensures forall i :: i in r <==> 0 <= i < |objects| && objects[i].isCamera && IsRenderable(objects, collections, i)
    ensures forall j :: 0 <= j < |r| ==> r[j] < |objects|
  {
    var cams := CameraIndices(objects);
    FilterIncreasing(cams, RenderableAt(objects, collections));
    var r := Filter(cams, RenderableAt(objects, collections));
    assert forall j :: 0 <= j < |r| ==> r[j] in r;
    r
  }

  /** The cameras the batch skips: those of the camera list that are not among the renderable ones. */
  function SkippedCameras(objects: seq<SceneObject>, collections: seq<Collection>): (s: seq<nat>)
    ensures Increasing(s)
    ensures forall i :: i in s <==> 0 <= i < |objects| && objects[i].isCamera && !IsRenderable(objects, collections, i)
    ensures forall j :: 0 <= j < |s| ==> s[j] < |objects|
  {
    var cams := CameraIndices(objects);
    FilterIncreasing(cams, NotIn(RenderableCameras(objects, collections)));
    var s := Filter(cams, NotIn(RenderableCameras(objects, collections)));
    assert forall j :: 0 <= j < |s| ==> s[j] in s;
    s
  }

  /** Every camera is either rendered or skipped, so the two counts add up to the number of cameras. */
  lemma {:induction false} RenderableSkippedPartition(objects: seq<SceneObject>, collections: seq<Collection>)
    ensures |RenderableCameras(objects, collections)| + |SkippedCameras(objects, collections)| == |CameraIndices(objects)|
  {
    var cams := CameraIndices(objects);
    var renderable := RenderableCameras(objects, collections);
    assert forall x :: x in cams ==> NotIn(renderable)(x) == !RenderableAt(objects, collections)(x);
    FilterPartition(cams, RenderableAt(objects, collections), NotIn(renderable));
  }

  /**
   * From any state but disabled_others, a press leaves at most the active
   * camera renderable: it is renderable afterwards iff it is a camera none of
   * whose collections has hide_render on.
   */
  lemma RenderableAfterDisableOthers(objects: seq<SceneObject>, collections: seq<Collection>, tree: seq<LayerNode>,
                                     camera: Option<nat>)
    requires CameraValid(objects, camera) && CameraIndices(objects) != []
    ensures var r := Toggle(objects, collections, tree, camera, EnabledAll);
            var active := ActiveCamera(CameraIndices(objects), camera);
            && r.Ok?
            && forall i :: i in RenderableCameras(r.value.objects, collections) <==>
                 i == active && objects[i].isCamera &&
                 forall c :: 0 <= c < |collections| && objects[i].name in collections[c].objectNames ==>
                               !collections[c].hideRender
  {
    DisableOthersCameras(objects, collections, tree, camera);
    var r := Toggle(objects, collections, tree, camera, EnabledAll);
    assert forall i :: 0 <= i < |objects| ==>
                         r.value.objects[i].isCamera == objects[i].isCamera && r.value.objects[i].name == objects[i].name;
  }

  /**
   * From disabled_others, a press makes renderable exactly the cameras none
   * of whose collections has hide_render on: the exclude flags it writes do
   * not enter into it.
   */
  lemma RenderableAfterEnableAll(objects: seq<SceneObject>, collections: seq<Collection>, tree: seq<LayerNode>,
                                 camera: Option<nat>)
    requires CameraValid(objects, camera) && CameraIndices(objects) != []
    ensures var r := Toggle(objects, collections, tree, camera, DisabledOthers);
            && r.Ok?
            && forall i :: i in RenderableCameras(r.value.objects, collections) <==>
                 0 <= i < |objects| && objects[i].isCamera &&
                 forall c :: 0 <= c < |collections| && objects[i].name in collections[c].objectNames ==>
                               !collections[c].hideRender
  {
    EnableAllClears(objects, collections, tree, camera);
  }

  // ---------------------------------------------------------------------
  // Names, paths and log lines
  // ---------------------------------------------------------------------

  /** The engine_map lookup with its default: a one-letter prefix per render engine. */
  function EngineTag(engine: string): (tag: string)
    ensures |tag| == 1
    ensures tag == "C" <==> engine == "CYCLES"
    ensures tag == "E" <==> engine == "BLENDER_EEVEE_NEXT" || engine == "BLENDER_EEVEE"
    ensures tag == "W" <==> engine == "BLENDER_WORKBENCH"
    ensures tag == "X" <==> engine !in {"CYCLES", "BLENDER_EEVEE_NEXT", "BLENDER_EEVEE", "BLENDER_WORKBENCH"}
  {
    var engineMap := map["CYCLES" := "C", "BLENDER_EEVEE_NEXT" := "E", "BLENDER_EEVEE" := "E", "BLENDER_WORKBENCH" := "W"];
    if engine in engineMap then engineMap[engine] else "X"
  }

  /** The file name of one camera's render: engine tag, camera name and timestamp, joined by "_". */
  function OutputName(tag: string, name: string, stamp: string): string {
    tag + "_" + name + "_" + stamp
  }

  /** Tag, camera name and timestamp can be read back from an output name once the lengths of tag and timestamp are known. */
  lemma OutputNameParts(tag: string, name: string, stamp: string)
    ensures var out := OutputName(tag, name, stamp);
            && |out| == |tag| + |name| + |stamp| + 2
            && out[..|tag|] == tag
            && out[|tag| + 1..|out| - |stamp| - 1] == name
            && out[|out| - |stamp|..] == stamp
  {
    var out := OutputName(tag, name, stamp);
    assert out == tag + ("_" + name + "_" + stamp);
    assert out == (tag + "_" + name + "_") + stamp;
    assert out[|tag| + 1..|out| - |stamp| - 1] == name;
  }

  /**
   * Two renders with the same engine and the same timestamp go to the same
   * file only if the cameras have the same name.
   */
  lemma OutputNameInjective(engine: string, name: string, name': string, stamp: string)
    requires OutputName(EngineTag(engine), name, stamp) == OutputName(EngineTag(engine), name', stamp)
    ensures name == name'
  {
    OutputNameParts(EngineTag(engine), name, stamp);
    OutputNameParts(EngineTag(engine), name', stamp);
  }

  const TotalPrefix := "Total cameras: "
  const SkippedPrefix := "Skipped cameras: "
  const NoSkippedText := "No skipped cameras."
  const RenderablePrefix := "Renderable cameras: "
  const LogFileName := "render_log.txt"

  /** The clock readings for one render: the timestamp of its file name, its start and end times, and the whole seconds it took. */
  datatype RenderClock = RenderClock(stamp: string, startedAt: string, finishedAt: string, elapsedSeconds: nat)

  /** One line of render_log.txt, by what it records. */
  datatype LogLine =
    | TotalLine(total: nat)
    | SkippedLine(names: seq<string>)
    | NoSkippedLine
    | RenderableLine(count: nat)
    | BlankLine
    | StartedLine(idx: nat, n: nat, name: string, at: string)
    | FinishedLine(idx: nat, n: nat, name: string, at: string, seconds: nat)

  /** "[idx/n]" */
  function Counter(idx: nat, n: nat): string {
    "[" + NatToString(idx) + "/" + NatToString(n) + "]"
  }

  /** "[" + a + "/" + b + "]" can be cut back into a and b. */
  lemma CounterShape(a: string, b: string)
    ensures var c := "[" + a + "/" + b + "]";
            && |c| == |a| + |b| + 3 && c[0] == '[' && c[|c| - 1] == ']' && c[|a| + 1] == '/'
            && c[1..|a| + 1] == a && c[|a| + 2..|c| - 1] == b
  {
    var c, rest := "[" + a + "/" + b + "]", "/" + b + "]";
    assert c == "[" + a + rest by {
      AppendAssoc("[" + a, "/" + b, "]");
      AppendAssoc("[" + a, "/", b);
    }
    Parts3("[", a, rest);
    Parts3("/", b, "]");
    assert c[|a| + 2..|c| - 1] == rest[1..|rest| - 1];
  }

  /** A counter is "[", the digits of idx, "/", the digits of n, and "]". */
  lemma CounterParts(idx: nat, n: nat)
    ensures var c, a, b := Counter(idx, n), NatToString(idx), NatToString(n);
            && |c| == |a| + |b| + 3 && c[0] == '[' && c[|c| - 1] == ']' && c[|a| + 1] == '/'
            && c[1..|a| + 1] == a && c[|a| + 2..|c| - 1] == b
  {
    CounterShape(NatToString(idx), NatToString(n));
  }

  /** Both numbers of a counter can be read back: idx is the digits up to the "/", n the digits after it. */
  lemma CounterReadBack(idx: nat, n: nat)
    ensures var c, k := Counter(idx, n), |NatToString(idx)|;
            && |c| == k + |NatToString(n)| + 3 && c[0] == '[' && c[|c| - 1] == ']'
            && AllDigits(c[1..k + 1]) && c[k + 1] == '/'
            && ParseNat(c[1..k + 1]) == idx && ParseNat(c[k + 2..|c| - 1]) == n
  {
    CounterParts(idx, n);
    ParseNatToString(idx);
    ParseNatToString(n);
  }

  /** int(mins), int(secs) of divmod(elapsed, 60), written as "Xm Ys". */
  function ElapsedText(seconds: nat): string {
    NatToString(seconds / 60) + "m " + NatToString(seconds % 60) + "s"
  }

  /** m + "m " + sec + "s" can be cut back into m and sec. */
  lemma ElapsedShape(m: string, sec: string)
    ensures var t := m + "m " + sec + "s";
            && |t| == |m| + |sec| + 3 && t[..|m|] == m && t[|m|..|m| + 2] == "m " && t[|t| - 1] == 's'
            && t[|m| + 2..|t| - 1] == sec
  {
    var t := m + "m " + sec + "s";
    assert t == m + "m " + (sec + "s") by {
      AppendAssoc(m + "m ", sec, "s");
    }
    Parts3(m, "m ", sec + "s");
    assert t[|m| + 2..|t| - 1] == (sec + "s")[..|sec|];
  }

  /**
   * The minutes are the digits before "m ", the seconds the digits between
   * it and the final "s"; the seconds are below 60, and together they give
   * back the elapsed time.
   */
  lemma ElapsedTextReadBack(seconds: nat)
    ensures var t, k := ElapsedText(seconds), |NatToString(seconds / 60)|;
            && |t| >= k + 4 && AllDigits(t[..k]) && t[k..k + 2] == "m " && t[|t| - 1] == 's'
            && AllDigits(t[k + 2..|t| - 1]) && |t[k + 2..|t| - 1]| >= 1
            && ParseNat(t[k + 2..|t| - 1]) < 60
            && ParseNat(t[..k]) * 60 + ParseNat(t[k + 2..|t| - 1]) == seconds
  {
    ElapsedShape(NatToString(seconds / 60), NatToString(seconds % 60));
    ParseNatToString(seconds / 60);
    ParseNatToString(seconds % 60);
  }

  /** The text of a log line, without its line break. */
  function LineText(line: LogLine): (text: string)
    ensures text == "" <==> line.BlankLine?
    ensures line.StartedLine? || line.FinishedLine? ==>
              |text| > |Counter(line.idx, line.n)| && text[..|Counter(line.idx, line.n)|] == Counter(line.idx, line.n)
  {
    match line
    case TotalLine(total) => TotalPrefix + NatToString(total)
    case SkippedLine(names) => SkippedPrefix + JoinNames(names)
    case NoSkippedLine => NoSkippedText
    case RenderableLine(count) => RenderablePrefix + NatToString(count)
    case BlankLine => ""
    case StartedLine(idx, n, name, at) => Counter(idx, n) + " Started rendering: " + name + " at " + at
    case FinishedLine(idx, n, name, at, seconds) =>
      Counter(idx, n) + " Finished: " + name + " at " + at + " (" + ElapsedText(seconds) + ")"
  }

  /**
   * The lines written when the log is opened: the number of cameras, the
   * skipped names or "No skipped cameras.", the number of renderable cameras,
   * and an empty line.
   */
  function LogHeader(total: nat, skipped: seq<string>, renderable: nat): (lines: seq<LogLine>)
    ensures |lines| == 4 && LineText(lines[3]) == ""
    ensures LineText(lines[1]) == NoSkippedText <==> skipped == []
  {
    var skippedLine := if skipped != [] then SkippedLine(skipped) else NoSkippedLine;
    assert skipped != [] ==> LineText(skippedLine)[0] == 'S';
    [TotalLine(total), skippedLine, RenderableLine(renderable), BlankLine]
  }

  /** The counts and the skipped names can be read back from the header's text. */
  lemma LogHeaderReadBack(total: nat, skipped: seq<string>, renderable: nat)
    ensures var text := Texts(LogHeader(total, skipped, renderable));
            && |text[0]| > |TotalPrefix| && text[0][..|TotalPrefix|] == TotalPrefix
            && ParseNat(text[0][|TotalPrefix|..]) == total
            && |text[2]| > |RenderablePrefix| && text[2][..|RenderablePrefix|] == RenderablePrefix
            && ParseNat(text[2][|RenderablePrefix|..]) == renderable
            && (skipped != [] ==> text[1] == SkippedPrefix + JoinNames(skipped))
  {
    var text := Texts(LogHeader(total, skipped, renderable));
    assert text[0][|TotalPrefix|..] == NatToString(total);
    assert text[2][|RenderablePrefix|..] == NatToString(renderable);
    ParseNatToString(total);
    ParseNatToString(renderable);
  }

  /** The texts of a sequence of log lines, line by line. */
  function Texts(lines: seq<LogLine>): (text: seq<string>)
    ensures |text| == |lines|
    ensures forall i :: 0 <= i < |lines| ==> text[i] == LineText(lines[i])
  {
    seq(|lines|, i requires 0 <= i < |lines| => LineText(lines[i]))
  }

  /**
   * A started line is the counter, " Started rendering: ", the camera's name,
   * " at " and the start time: the name can be read back once the length of
   * the time is known.
   */
  lemma StartedLineReadBack(idx: nat, n: nat, name: string, at: string)
    ensures var text, c, p := LineText(StartedLine(idx, n, name, at)), Counter(idx, n), " Started rendering: ";
            && |text| == |c| + |p| + |name| + 4 + |at|
            && text[..|c|] == c
            && text[|c|..|c| + |p|] == p
            && text[|c| + |p|..|text| - |at| - 4] == name
            && text[|text| - |at|..] == at
  {
    var text, c, p := LineText(StartedLine(idx, n, name, at)), Counter(idx, n), " Started rendering: ";
    assert text == c + p + name + " at " + at;
    assert text == (c + p) + name + (" at " + at);
    assert text[|c| + |p|..|text| - |at| - 4] == name;
  }

  /**
   * A finished line is the counter, " Finished: ", the camera's name, " at ",
   * the end time, and the elapsed time in parentheses: the name can be read
   * back once the lengths of the time and the elapsed text are known.
   */
  lemma FinishedLineReadBack(idx: nat, n: nat, name: string, at: string, seconds: nat)
    ensures var text, c, p := LineText(FinishedLine(idx, n, name, at, seconds)), Counter(idx, n), " Finished: ";
            var tail := " at " + at + " (" + ElapsedText(seconds) + ")";
            && |text| == |c| + |p| + |name| + |tail|
            && text[..|c|] == c
            && text[|c|..|c| + |p|] == p
            && text[|c| + |p|..|text| - |tail|] == name
            && text[|text| - |tail|..] == tail
  {
    var text, c, p := LineText(FinishedLine(idx, n, name, at, seconds)), Counter(idx, n), " Finished: ";
    var tail := " at " + at + " (" + ElapsedText(seconds) + ")";
    assert text == (c + p) + name + tail by {
      var x, t1 := c + p + name, " at " + at;
      var t2 := t1 + " (";
      var t3 := t2 + ElapsedText(seconds);
      AppendAssoc(x, " at ", at);
      AppendAssoc(x, t1, " (");
      AppendAssoc(x, t2, ElapsedText(seconds));
      AppendAssoc(x, t3, ")");
    }
    Parts3(c + p, name, tail);
    assert text[..|c|] == c && text[|c|..|c| + |p|] == p by {
      assert text[..|c| + |p|] == c + p;
      Parts3(c, p, []);
    }
  }

  /** The lines logged for the idx-th of n renders: started, finished, and an empty line. */
  function CameraEntry(idx: nat, n: nat, name: string, clk: RenderClock): seq<LogLine> {
    [StartedLine(idx, n, name, clk.startedAt), FinishedLine(idx, n, name, clk.finishedAt, clk.elapsedSeconds), BlankLine]
  }

  /** The log entries of the first k of the renders of `names`, numbered from 1. */
  function Entries(names: seq<string>, clock: nat -> RenderClock, k: nat): seq<LogLine>
    requires k <= |names|
  {
    if k == 0 then [] else Entries(names, clock, k - 1) + CameraEntry(k, |names|, names[k - 1], clock(k))
  }

  /** Entry j (from 0) of the log is numbered j + 1 of n and names the (j + 1)-th renderable camera. */
  lemma {:induction false} EntriesAt(names: seq<string>, clock: nat -> RenderClock, k: nat)
    requires k <= |names|
    ensures |Entries(names, clock, k)| == 3 * k
    ensures forall j :: 0 <= j < k ==>
              Entries(names, clock, k)[3 * j..3 * j + 3] == CameraEntry(j + 1, |names|, names[j], clock(j + 1))
  {
    if k > 0 {
      EntriesAt(names, clock, k - 1);
      var prev := Entries(names, clock, k - 1);
      var e := Entries(names, clock, k);
      forall j | 0 <= j < k
        ensures e[3 * j..3 * j + 3] == CameraEntry(j + 1, |names|, names[j], clock(j + 1))
      {
        if j < k - 1 {
          assert e[3 * j..3 * j + 3] == prev[3 * j..3 * j + 3];
        } else {
          assert e[3 * j..3 * j + 3] == CameraEntry(k, |names|, names[k - 1], clock(k));
        }
      }
    }
  }

  /** "[idx/n]" numbers the renders 1 to n: different renders carry different counters. */
  lemma CounterInjective(i: nat, j: nat, n: nat)
    requires Counter(i, n) == Counter(j, n)
    ensures i == j
  {
    CounterParts(i, n);
    CounterParts(j, n);
    NatToStringInjective(i, j);
  }

  /** The report made as the idx-th of n renders starts. */
  function RenderingReport(idx: nat, n: nat, name: string): Report {
    Report(Info, Counter(idx, n) + " Rendering " + name + "...")
  }

  /** The reports of the first k of the renders of `names`, numbered from 1. */
  function RenderingReports(names: seq<string>, k: nat): (reports: seq<Report>)
    requires k <= |names|
    ensures |reports| == k
  {
    if k == 0 then [] else RenderingReports(names, k - 1) + [RenderingReport(k, |names|, names[k - 1])]
  }

  /** Report j (from 0) is numbered j + 1 of n and names the (j + 1)-th renderable camera. */
  lemma {:induction false} RenderingReportsAt(names: seq<string>, k: nat)
    requires k <= |names|
    ensures forall j :: 0 <= j < k ==> RenderingReports(names, k)[j] == RenderingReport(j + 1, |names|, names[j])
  {
    if k > 0 {
      RenderingReportsAt(names, k - 1);
    }
  }

  /** The output path of the idx-th render: the engine tag, the camera's name and that render's timestamp, in the output folder. */
  function OutputPath(outputDir: string, tag: string, name: string, clk: RenderClock): string {
    PathJoin(outputDir, OutputName(tag, name, clk.stamp))
  }

  /**
   * The first k render calls of the batch: the renderable cameras in order,
   * the idx-th with the output path built from its name and the idx-th
   * timestamp.
   */
  function PlannedRenders(objects: seq<SceneObject>, cams: seq<nat>, k: nat, outputDir: string, tag: string,
                          clock: nat -> RenderClock): (calls: seq<RenderCall>)
    requires k <= |cams| && IndicesBelow(cams, |objects|)
    ensures |calls| == k
  {
    if k == 0 then []
    else PlannedRenders(objects, cams, k - 1, outputDir, tag, clock) +
         [RenderCall(cams[k - 1], OutputPath(outputDir, tag, objects[cams[k - 1]].name, clock(k)))]
  }

  /** Render call j (from 0) renders the (j + 1)-th camera into the file named for it and for the (j + 1)-th timestamp. */
  lemma {:induction false} PlannedRendersAt(objects: seq<SceneObject>, cams: seq<nat>, k: nat, outputDir: string, tag: string,
                                            clock: nat -> RenderClock)
    requires k <= |cams| && IndicesBelow(cams, |objects|)
    ensures forall j :: 0 <= j < k ==>
              PlannedRenders(objects, cams, k, outputDir, tag, clock)[j] ==
              RenderCall(cams[j], OutputPath(outputDir, tag, objects[cams[j]].name, clock(j + 1)))
  {
    if k > 0 {
      PlannedRendersAt(objects, cams, k - 1, outputDir, tag, clock);
      var prev := PlannedRenders(objects, cams, k - 1, outputDir, tag, clock);
      var last := RenderCall(cams[k - 1], OutputPath(outputDir, tag, objects[cams[k - 1]].name, clock(k)));
      assert PlannedRenders(objects, cams, k, outputDir, tag, clock) == prev + [last];
    }
  }

  /**
   * One turn of the batch loop, the idx-th of n renders: make cam the scene
   * camera, point the output path at its file, report, log the start,
   * render, and log the end.
   */
  method RenderCamera(ctx: Context, idx: nat, n: nat, cam: nat, name: string, outputDir: string, tag: string,
                      clk: RenderClock)
    returns (lines: seq<LogLine>, report: Report)
    requires ctx.Valid() && cam < |ctx.objects| && name == ctx.objects[cam].name
    modifies ctx`camera, ctx`filepath, ctx`renderCalls
    ensures ctx.Valid()
    ensures ctx.camera == Some(cam)
    ensures ctx.filepath == OutputPath(outputDir, tag, name, clk)
    ensures ctx.renderCalls == old(ctx.renderCalls) + [RenderCall(cam, ctx.filepath)]
    ensures report == RenderingReport(idx, n, name)
    ensures lines == CameraEntry(idx, n, name, clk)
  {
    ctx.camera := Some(cam);
    ctx.filepath := OutputPath(outputDir, tag, ctx.objects[cam].name, clk);
    report := RenderingReport(idx, n, name);
    lines := [StartedLine(idx, n, name, clk.startedAt)];
    ctx.renderCalls := ctx.renderCalls + [RenderCall(cam, ctx.filepath)];
    lines := lines + [FinishedLine(idx, n, name, clk.finishedAt, clk.elapsedSeconds), BlankLine];
  }

  /**
   * The loop of the batch, `for idx, cam in enumerate(cams, start=1)`: make
   * cam the scene camera, point the output path at its file, report, log the
   * start, render, and log the end.
   */
  method RenderCameras(ctx: Context, cams: seq<nat>, outputDir: string, tag: string, clock: nat -> RenderClock)
    returns (entries: seq<LogLine>, reports: seq<Report>)
    requires ctx.Valid() && IndicesBelow(cams, |ctx.objects|)
    modifies ctx`camera, ctx`filepath, ctx`renderCalls
    ensures ctx.Valid()
    ensures var names := Names(ctx.objects, cams);
            && entries == Entries(names, clock, |cams|)
            && reports == RenderingReports(names, |cams|)
            && ctx.renderCalls == old(ctx.renderCalls) + PlannedRenders(ctx.objects, cams, |cams|, outputDir, tag, clock)
            && (cams == [] ==> ctx.camera == old(ctx.camera) && ctx.filepath == old(ctx.filepath))
            && (cams != [] ==> ctx.camera == Some(cams[|cams| - 1])
                               && ctx.filepath == OutputPath(outputDir, tag, names[|cams| - 1], clock(|cams|)))
  {
    var names := Names(ctx.objects, cams);
    ghost var calls0 := ctx.renderCalls;
    entries, reports := [], [];
    var idx := 1;
    while idx <= |cams|
      invariant 1 <= idx <= |cams| + 1
      invariant ctx.Valid()
      invariant entries == Entries(names, clock, idx - 1)
      invariant reports == RenderingReports(names, idx - 1)
      invariant ctx.renderCalls == calls0 + PlannedRenders(ctx.objects, cams, idx - 1, outputDir, tag, clock)
      invariant idx == 1 ==> ctx.camera == old(ctx.camera) && ctx.filepath == old(ctx.filepath)
      invariant idx > 1 ==> ctx.camera == Some(cams[idx - 2])
                            && ctx.filepath == OutputPath(outputDir, tag, names[idx - 2], clock(idx - 1))
    {
      var lines, report := RenderCamera(ctx, idx, |cams|, cams[idx - 1], names[idx - 1], outputDir, tag, clock(idx));
      reports := reports + [report];
      entries := entries + lines;
      idx := idx + 1;
    }
  }

  /**
   * OBJECT_OT_batch_render_active_cameras.execute: write the log header
   * (cameras counted, skipped names, renderable count), then render each
   * renderable camera in order, logging each render.
   */
  method BatchRender(ctx: Context, outputDir: string, clock: nat -> RenderClock)
    returns (status: OperatorStatus, logPath: string, log: seq<LogLine>, reports: seq<Report>)
    requires ctx.Valid()
    modifies ctx`camera, ctx`filepath, ctx`renderCalls
    ensures ctx.Valid()
    ensures status == Finished
    ensures logPath == PathJoin(outputDir, LogFileName)
    ensures var objects, collections := old(ctx.objects), old(ctx.collections);
            var cams := RenderableCameras(objects, collections);
            var names := Names(objects, cams);
            && log == LogHeader(|CameraIndices(objects)|, Names(objects, SkippedCameras(objects, collections)), |cams|)
                      + Entries(names, clock, |cams|)
            && reports == RenderingReports(names, |cams|)
            && ctx.renderCalls == old(ctx.renderCalls) + PlannedRenders(objects, cams, |cams|, outputDir, EngineTag(ctx.engine), clock)
            && (cams == [] ==> ctx.camera == old(ctx.camera) && ctx.filepath == old(ctx.filepath))
            && (cams != [] ==> ctx.camera == Some(cams[|cams| - 1])
                               && ctx.filepath == OutputPath(outputDir, EngineTag(ctx.engine), names[|cams| - 1], clock(|cams|)))
  {
    var tag := EngineTag(ctx.engine);
    var allCameras := CameraIndices(ctx.objects);
    var cams := RenderableCameras(ctx.objects, ctx.collections);
    var skipped := Names(ctx.objects, SkippedCameras(ctx.objects, ctx.collections));
    logPath := PathJoin(outputDir, LogFileName);
    var header := LogHeader(|allCameras|, skipped, |cams|);
    var entries;
    entries, reports := RenderCameras(ctx, cams, outputDir, tag, clock);
    log := header + entries;
    status := Finished;
  }
}
