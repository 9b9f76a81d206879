// The part of a scene that the camera render toggle add-ons read and write:
// the objects of the blend file, its collections, and the layer-collection
// tree of one view layer. Objects, collections and tree nodes are referred
// to by their position, which stands for Python object identity.
module SceneData {

  datatype Option<T> = None | Some(value: T)

  /** A value, or the text of the error that was raised instead. */
  datatype Result<T> = Ok(value: T) | Err(error: string)

  /** An entry of bpy.data.objects: its name, whether its type is 'CAMERA', and its hide_render flag. */
  datatype SceneObject = SceneObject(name: string, isCamera: bool, hideRender: bool)

  /**
   * An entry of bpy.data.collections: the names of the objects linked to it,
   * and its own hide_render flag. Collections are identified by position, so
   * their names play no part.
   */
  datatype Collection = Collection(objectNames: set<string>, hideRender: bool)

  /**
   * A layer collection of a view layer: the collection it shows (an index into
   * bpy.data.collections, or any other number for the scene's master collection,
   * which is not in that list), its exclude flag, and its children as indices
   * into the same arena of nodes.
   */
  datatype LayerNode = LayerNode(collection: nat, exclude: bool, children: seq<nat>)

  /** The window manager's cam_toggle_last_action. */
  datatype ToggleState = EnabledAll | DisabledOthers

  /** Every element of s is a position in a list of length n. */
  predicate IndicesBelow(s: seq<nat>, n: nat) {
    forall i :: 0 <= i < |s| ==> s[i] < n
  }

  predicate Increasing(s: seq<nat>) {
    forall i, j :: 0 <= i < j < |s| ==> s[i] < s[j]
  }

  predicate Distinct(s: seq<nat>) {
    forall i, j :: 0 <= i < j < |s| ==> s[i] != s[j]
  }

  /** The elements of s that satisfy p, in the order of s (a Python list comprehension with an `if`). */
  function Filter(s: seq<nat>, p: nat -> bool): (r: seq<nat>)
    ensures |r| <= |s|
    ensures forall x :: x in r <==> x in s && p(x)
  {
    if s == [] then []
    else Filter(s[..|s| - 1], p) + (if p(s[|s| - 1]) then [s[|s| - 1]] else [])
  }

  /** Filtering keeps the order of its input. */
  lemma {:induction false} FilterIncreasing(s: seq<nat>, p: nat -> bool)
    requires Increasing(s)
    ensures Increasing(Filter(s, p))
  {
    if s != [] {
      var init := s[..|s| - 1];
      FilterIncreasing(init, p);
      var f, last := Filter(init, p), s[|s| - 1];
      forall x | x in f ensures x < last {
        var i :| 0 <= i < |init| && init[i] == x;
      }
      if p(last) {
        var r := f + [last];
        assert Filter(s, p) == r;
        forall i, j | 0 <= i < j < |r| ensures r[i] < r[j] {
          if j == |f| {
            assert r[i] == f[i] && f[i] in f;
          }
        }
      }
    }
  }

  /** Filtering a sequence without repetitions yields one without repetitions. */
  lemma {:induction false} FilterDistinct(s: seq<nat>, p: nat -> bool)
    requires Distinct(s)
    ensures Distinct(Filter(s, p))
  {
    if s != [] {
      var init := s[..|s| - 1];
      FilterDistinct(init, p);
      assert s[|s| - 1] !in init;
    }
  }

  /** Filtering by p and by its negation splits the input: the two counts add up to its length. */
  lemma {:induction false} FilterPartition(s: seq<nat>, p: nat -> bool, q: nat -> bool)
    requires forall x :: x in s ==> q(x) == !p(x)
    ensures |Filter(s, p)| + |Filter(s, q)| == |s|
  {
    if s != [] {
      var init := s[..|s| - 1];
      assert forall x :: x in init ==> x in s;
      FilterPartition(init, p, q);
      assert s[|s| - 1] in s;
    }
  }

  /** Two tests that agree on every element of s select the same elements. */
  lemma {:induction false} FilterCongruent(s: seq<nat>, p: nat -> bool, q: nat -> bool)
    requires forall x :: x in s ==> p(x) == q(x)
    ensures Filter(s, p) == Filter(s, q)
  {
    if s != [] {
      var init := s[..|s| - 1];
      assert forall x :: x in init ==> x in s;
      FilterCongruent(init, p, q);
      assert s[|s| - 1] in s;
    }
  }

  /** 0, 1, ..., n - 1: the positions of a list of length n. */
  function Range(n: nat): (r: seq<nat>)
    ensures |r| == n
    ensures forall i :: 0 <= i < n ==> r[i] == i
  {
    seq(n, i requires 0 <= i => i as nat)
  }

  lemma RangeIncreasing(n: nat)
    ensures Increasing(Range(n))
    ensures forall i :: i in Range(n) <==> 0 <= i < n
  {
    forall i | 0 <= i < n ensures i in Range(n) {
      assert Range(n)[i] == i;
    }
  }

  /** Range(n + 1) is Range(n) followed by n. */
  lemma RangeStep(n: nat)
    ensures Range(n + 1)[..n] == Range(n) && Range(n + 1)[n] == n
  {
  }

  function IsCameraAt(objects: seq<SceneObject>): nat -> bool {
    (i: nat) => i < |objects| && objects[i].isCamera
  }

  /**
   * get_all_camera_objects: the objects of type 'CAMERA', in the order of
   * bpy.data.objects, as positions in that list.
   */
  function CameraIndices(objects: seq<SceneObject>): (cams: seq<nat>)
    ensures Increasing(cams)
    ensures forall i :: i in cams <==> 0 <= i < |objects| && objects[i].isCamera
    ensures forall j :: 0 <= j < |cams| ==> cams[j] < |objects| && objects[cams[j]].isCamera
  {
    RangeIncreasing(|objects|);
    FilterIncreasing(Range(|objects|), IsCameraAt(objects));
    var cams := Filter(Range(|objects|), IsCameraAt(objects));
    assert forall j :: 0 <= j < |cams| ==> cams[j] in cams;
    cams
  }

  /** The list of cameras depends on nothing but the objects' types. */
  lemma CameraIndicesOfTypes(objects: seq<SceneObject>, objects': seq<SceneObject>)
    requires |objects'| == |objects|
    requires forall i :: 0 <= i < |objects| ==> objects'[i].isCamera == objects[i].isCamera
    ensures CameraIndices(objects') == CameraIndices(objects)
  {
    FilterCongruent(Range(|objects|), IsCameraAt(objects), IsCameraAt(objects'));
  }

  function ContainsObject(collections: seq<Collection>, name: string): nat -> bool {
    (c: nat) => c < |collections| && name in collections[c].objectNames
  }

  /**
   * collections_of_object: the collections, in the order of bpy.data.collections,
   * that hold an object of the given name.
   */
  function CollectionsOf(collections: seq<Collection>, name: string): (cols: seq<nat>)
    ensures Increasing(cols)
    ensures forall c :: c in cols <==> 0 <= c < |collections| && name in collections[c].objectNames
  {
    RangeIncreasing(|collections|);
    FilterIncreasing(Range(|collections|), ContainsObject(collections, name));
    Filter(Range(|collections|), ContainsObject(collections, name))
  }

  /** The names of the objects at the given positions, in the same order. */
  function Names(objects: seq<SceneObject>, idx: seq<nat>): (names: seq<string>)
    requires IndicesBelow(idx, |objects|)
    ensures |names| == |idx|
    ensures forall i :: 0 <= i < |idx| ==> names[i] == objects[idx[i]].name
  {
    seq(|idx|, i requires 0 <= i < |idx| => objects[idx[i]].name)
  }
}
