/** Removal of nested keys addressed by dot paths (`str_no_keys` and its inner
    `remove_by_path`), on a copy of the document. */
module KeyRemoval {
  import opened Wrappers
  import opened JsonValue
  import opened DotPath

  /** `Vec::remove` panics when asked for an index at or beyond the length;
      the panic aborts the whole call. */
  datatype RemovalError = IndexOutOfBounds(index: nat, len: nat)

  // ---------------------------------------------------------------------------
  // The walker, step for step as `remove_by_path` in src/lib.rs
  // ---------------------------------------------------------------------------

  /** One path, one segment at a time: on an object a segment is a key, on an
      array it must read as a `usize` index, and a scalar ends the walk. The
      final segment removes; a step that does not resolve abandons the path
      and leaves the value as it was. */
  function RemoveByPath(item: Json, path: seq<string>): Result<Json, RemovalError>
    decreases |path|
  {
    if |path| == 0 then Success(item)
    else
      match item
      case Obj(m) =>
        if |path| == 1 then Success(Obj(m - {path[0]}))
        else if path[0] in m then
          match RemoveByPath(m[path[0]], path[1..])
          case Success(child) => Success(Obj(m[path[0] := child]))
          case Failure(e) => Failure(e)
        else Success(item)
      case Arr(a) =>
        (match ParseUsize(path[0])
         case Some(i) =>
           if |path| == 1 then
             if i < |a| then Success(Arr(a[..i] + a[i + 1..])) else Failure(IndexOutOfBounds(i, |a|))
           else if i < |a| then
             match RemoveByPath(a[i], path[1..])
             case Success(child) => Success(Arr(a[i := child]))
             case Failure(e) => Failure(e)
           else Success(item)
         case None => Success(item))
      case _ => Success(item)
  }

  // ---------------------------------------------------------------------------
  // A reference description: find the parent, take the child out, put it back
  // ---------------------------------------------------------------------------

  /** The node a path leads to, stepping by the same rules as the walker. */
  function Get(item: Json, path: seq<string>): Option<Json>
    decreases |path|
  {
    if |path| == 0 then Some(item)
    else
      match item
      case Obj(m) => if path[0] in m then Get(m[path[0]], path[1..]) else None
      case Arr(a) =>
        (match ParseUsize(path[0])
         case Some(i) => if i < |a| then Get(a[i], path[1..]) else None
         case None => None)
      case _ => None
  }

  /** `item` with the node at a resolving `path` replaced by `v`. */
  function Put(item: Json, path: seq<string>, v: Json): Json
    requires Get(item, path).Some?
    decreases |path|
  {
    if |path| == 0 then v
    else
      match item
      case Obj(m) => Obj(m[path[0] := Put(m[path[0]], path[1..], v)])
      case Arr(a) =>
        var i := ParseUsize(path[0]).value;
        Arr(a[i := Put(a[i], path[1..], v)])
      case _ => item
  }

  /** Taking the child named by one segment out of a node: an object loses
      that key (if it has it) and nothing else; an array loses the element
      at a `usize` index, the rest keeping their order, or panics when the
      index is out of range; a segment that is no index, or a scalar node,
      changes nothing. */
  function Detach(parent: Json, seg: string): (r: Result<Json, RemovalError>)
    ensures !parent.IsContainer() ==> r == Success(parent)
    ensures parent.Obj? ==>
      && r.Success? && r.value.Obj?
      && r.value.fields.Keys == parent.fields.Keys - {seg}
      && forall k :: k in r.value.fields ==> r.value.fields[k] == parent.fields[k]
    ensures parent.Arr? && ParseUsize(seg).None? ==> r == Success(parent)
    ensures parent.Arr? && ParseUsize(seg).Some? ==>
      var i, a := ParseUsize(seg).value, parent.items;
      && (r.Failure? <==> i >= |a|)
      && (r.Failure? ==> r.error == IndexOutOfBounds(i, |a|))
      && (r.Success? ==>
            && r.value.Arr?
            && |r.value.items| == |a| - 1
            && (forall j :: 0 <= j < i ==> r.value.items[j] == a[j])
            && (forall j :: i <= j < |r.value.items| ==> r.value.items[j] == a[j + 1]))
  {
    match parent
    case Obj(m) => Success(Obj(m - {seg}))
    case Arr(a) =>
      (match ParseUsize(seg)
       case Some(i) => if i < |a| then Success(Arr(a[..i] + a[i + 1..])) else Failure(IndexOutOfBounds(i, |a|))
       case None => Success(parent))
    case _ => Success(parent)
  }

  /** Removal described top-down: resolve the parent of the last segment;
      if it does not resolve nothing changes, otherwise detach the child and
      write the parent back in place. */
  function ReferenceRemove(item: Json, path: seq<string>): Result<Json, RemovalError> {
    if |path| == 0 then Success(item)
    else
      var up := path[..|path| - 1];
      match Get(item, up)
      case None => Success(item)
      case Some(parent) =>
        match Detach(parent, path[|path| - 1])
        case Success(p) => Success(Put(item, up, p))
        case Failure(e) => Failure(e)
  }

  /** The in-place recursive walk and the top-down description agree on
      every value and every path. */
  lemma {:induction false} RemoveByPathMatchesReference(item: Json, path: seq<string>)
    ensures RemoveByPath(item, path) == ReferenceRemove(item, path)
    decreases |path|
  {
    if |path| <= 1 {
      if |path| == 1 {
        assert path[..0] == [];
      }
    } else {
      var rest := path[1..];
      var up := path[..|path| - 1];
      assert up[0] == path[0];
      assert up[1..] == rest[..|rest| - 1];
      assert rest[|rest| - 1] == path[|path| - 1];
      match item
      case Obj(m) =>
        if path[0] in m {
          RemoveByPathMatchesReference(m[path[0]], rest);
          assert Get(item, up) == Get(m[path[0]], rest[..|rest| - 1]);
          assert m[path[0] := m[path[0]]] == m;
        }
      case Arr(a) =>
        var i := ParseUsize(path[0]);
        if i.Some? && i.value < |a| {
          RemoveByPathMatchesReference(a[i.value], rest);
          assert Get(item, up) == Get(a[i.value], rest[..|rest| - 1]);
          assert a[i.value := a[i.value]] == a;
        }
      case _ =>
    }
  }

  /** Putting a node back where `Get` found its place makes `Get` find it. */
  lemma {:induction false} GetPut(item: Json, path: seq<string>, v: Json)
    requires Get(item, path).Some?
    ensures Get(Put(item, path, v), path) == Some(v)
    decreases |path|
  {
    if |path| > 0 {
      match item
      case Obj(m) => GetPut(m[path[0]], path[1..], v);
      case Arr(a) => GetPut(a[ParseUsize(path[0]).value], path[1..], v);
      case _ =>
    }
  }

  // ---------------------------------------------------------------------------
  // Consequences for the walker
  // ---------------------------------------------------------------------------

  /** When the path up to its last segment does not resolve (a missing
      intermediate key, an intermediate array segment that is no index or is
      out of range, or a scalar on the way), the value is left unchanged. */
  lemma {:induction false} UnresolvedPathIsNoOp(item: Json, path: seq<string>)
    requires |path| > 0
    requires Get(item, path[..|path| - 1]).None?
    ensures RemoveByPath(item, path) == Success(item)
  {
    RemoveByPathMatchesReference(item, path);
  }

  /** A path whose last step lands on a scalar, or on an array with a segment
      that is no index, leaves the value unchanged. */
  lemma {:induction false} NothingToDetachIsNoOp(item: Json, path: seq<string>)
    requires |path| > 0
    requires Get(item, path[..|path| - 1]).Some?
    requires var parent := Get(item, path[..|path| - 1]).value;
      || !parent.IsContainer()
      || (parent.Arr? && ParseUsize(path[|path| - 1]).None?)
    ensures RemoveByPath(item, path) == Success(item)
  {
    var up := path[..|path| - 1];
    RemoveByPathMatchesReference(item, path);
    PutBack(item, up);
  }

  /** Writing back what was found changes nothing. */
  lemma {:induction false} PutBack(item: Json, path: seq<string>)
    requires Get(item, path).Some?
    ensures Put(item, path, Get(item, path).value) == item
    decreases |path|
  {
    if |path| > 0 {
      match item
      case Obj(m) =>
        PutBack(m[path[0]], path[1..]);
        assert m[path[0] := m[path[0]]] == m;
      case Arr(a) =>
        var i := ParseUsize(path[0]).value;
        PutBack(a[i], path[1..]);
        assert a[i := a[i]] == a;
      case _ =>
    }
  }

  /** The walk panics exactly when the last segment is a `usize` index at or
      beyond the length of the array the rest of the path resolves to. */
  lemma RemovePanicsExactlyOnIndexOutOfRange(item: Json, path: seq<string>)
    ensures RemoveByPath(item, path).Failure? <==>
      && |path| > 0
      && var parent := Get(item, path[..|path| - 1]);
      && parent.Some? && parent.value.Arr?
      && ParseUsize(path[|path| - 1]).Some?
      && ParseUsize(path[|path| - 1]).value >= |parent.value.items|
  {
    RemoveByPathMatchesReference(item, path);
  }

  /** A removal that goes through changes the value only at the parent of
      the last segment, which becomes that parent with the child detached. */
  lemma RemoveLandsAtParent(item: Json, path: seq<string>)
    requires |path| > 0
    requires Get(item, path[..|path| - 1]).Some?
    requires RemoveByPath(item, path).Success?
    ensures var up := path[..|path| - 1];
      var parent := Get(item, up).value;
      && Detach(parent, path[|path| - 1]).Success?
      && RemoveByPath(item, path).value == Put(item, up, Detach(parent, path[|path| - 1]).value)
      && Get(RemoveByPath(item, path).value, up) == Some(Detach(parent, path[|path| - 1]).value)
  {
    var up := path[..|path| - 1];
    RemoveByPathMatchesReference(item, path);
    GetPut(item, up, Detach(Get(item, up).value, path[|path| - 1]).value);
  }

  /** A one-segment path acts on the value itself: it is exactly `Detach`. */
  lemma SingleSegmentIsDetach(item: Json, seg: string)
    ensures RemoveByPath(item, [seg]) == Detach(item, seg)
  {
  }

  /** A second write to the same place overrides the first. */
  lemma {:induction false} PutPut(item: Json, path: seq<string>, v: Json, w: Json)
    requires Get(item, path).Some?
    ensures Get(Put(item, path, v), path).Some?
    ensures Put(Put(item, path, v), path, w) == Put(item, path, w)
    decreases |path|
  {
    GetPut(item, path, v);
    if |path| > 0 {
      match item
      case Obj(m) =>
        PutPut(m[path[0]], path[1..], v, w);
      case Arr(a) =>
        PutPut(a[ParseUsize(path[0]).value], path[1..], v, w);
      case _ =>
    }
  }

  /** Removing a key from an object is idempotent: a second removal of the
      same path finds the key gone and changes nothing. (Array removal is
      not: a second removal takes out the next element.) */
  lemma RemoveObjectKeyIsIdempotent(item: Json, path: seq<string>)
    requires |path| > 0
    requires Get(item, path[..|path| - 1]).Some? && Get(item, path[..|path| - 1]).value.Obj?
    ensures RemoveByPath(item, path).Success?
    ensures RemoveByPath(RemoveByPath(item, path).value, path) == RemoveByPath(item, path)
  {
    var up, last := path[..|path| - 1], path[|path| - 1];
    var parent := Get(item, up).value;
    var p := Detach(parent, last).value;
    RemoveByPathMatchesReference(item, path);
    var once := Put(item, up, p);
    GetPut(item, up, p);
    RemoveByPathMatchesReference(once, path);
    assert p.fields - {last} == p.fields;
    PutPut(item, up, p, p);
  }

  // ---------------------------------------------------------------------------
  // The fold over every requested path
  // ---------------------------------------------------------------------------

  /** The requested paths applied left to right, each split on '.', each
      seeing the outcome of the ones before; a panic ends the fold. */
  function RemoveAll(doc: Json, keyPaths: seq<string>): Result<Json, RemovalError>
    decreases |keyPaths|
  {
    if |keyPaths| == 0 then Success(doc)
    else
      match RemoveByPath(doc, Split(keyPaths[0]))
      case Success(next) => RemoveAll(next, keyPaths[1..])
      case Failure(e) => Failure(e)
  }

  /** Removing two lists of paths in one call is removing the first list and
      then the second from what remains. */
  lemma {:induction false} RemoveAllAppend(doc: Json, first: seq<string>, second: seq<string>)
    ensures RemoveAll(doc, first + second) ==
      match RemoveAll(doc, first)
      case Success(mid) => RemoveAll(mid, second)
      case Failure(e) => Failure(e)
    decreases |first|
  {
    if |first| == 0 {
      assert first + second == second;
    } else {
      assert (first + second)[0] == first[0];
      assert (first + second)[1..] == first[1..] + second;
      match RemoveByPath(doc, Split(first[0]))
      case Success(next) => RemoveAllAppend(next, first[1..], second);
      case Failure(_) =>
    }
  }

  /** The loop of `str_no_keys` over a working copy: the result is the fold of
      the walker over the split paths. */
  method RemoveKeys(doc: Json, keyPaths: seq<string>) returns (r: Result<Json, RemovalError>)
    ensures r == RemoveAll(doc, keyPaths)
  {
    var json := doc;
    var n := 0;
    while n < |keyPaths|
      invariant 0 <= n <= |keyPaths|
      invariant RemoveAll(doc, keyPaths) == RemoveAll(json, keyPaths[n..])
    {
      var parts := Split(keyPaths[n]);
      var step := RemoveByPath(json, parts);
      assert keyPaths[n..][1..] == keyPaths[n + 1..];
      match step {
        case Failure(e) =>
          return Failure(e);
        case Success(next) =>
          json := next;
      }
      n := n + 1;
    }
    r := Success(json);
  }

  /** A worked case: removing "a.b" and "x.y.z" from
      {"a": {"b": 1, "c": 2}, "d": 3} drops the inner key "b", and the path
      through the missing key "x" changes nothing and raises nothing. */
  lemma RemoveAllExample()
    ensures
      var one, two, three := Num(Number("1")), Num(Number("2")), Num(Number("3"));
      RemoveAll(Obj(map["a" := Obj(map["b" := one, "c" := two]), "d" := three]), ["a.b", "x.y.z"])
        == Success(Obj(map["a" := Obj(map["c" := two]), "d" := three]))
  {
    var one, two, three := Num(Number("1")), Num(Number("2")), Num(Number("3"));
    var doc := Obj(map["a" := Obj(map["b" := one, "c" := two]), "d" := three]);
    SplitJoin(["a", "b"]);
    SplitJoin(["x", "y", "z"]);
    assert Join(["a", "b"]) == "a.b";
    assert Join(["x", "y", "z"]) == "x.y.z";
    var after := Obj(map["a" := Obj(map["c" := two]), "d" := three]);
    assert map["b" := one, "c" := two] - {"b"} == map["c" := two];
    assert RemoveByPath(doc.fields["a"], ["b"]) == Success(Obj(map["c" := two]));
    assert ["a", "b"][1..] == ["b"];
    assert doc.fields["a" := Obj(map["c" := two])] == after.fields;
    assert RemoveByPath(doc, ["a", "b"]) == Success(after);
    assert RemoveByPath(after, ["x", "y", "z"]) == Success(after);
    assert ["a.b", "x.y.z"][1..] == ["x.y.z"];
  }
}
