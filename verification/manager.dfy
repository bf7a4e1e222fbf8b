/** `JsonPatchManager`: one stored JSON document and a counter of the patch
    applications since the document was last replaced wholesale. */
module PatchManager {
  import opened Wrappers
  import opened JsonValue
  import KeyRemoval

  // ---------------------------------------------------------------------------
  // The library boundary
  // ---------------------------------------------------------------------------

  /** A parsed RFC 6902 patch; its operations are interpreted only by the
      library, so they stay opaque here. */
  datatype Patch = Patch(operations: seq<Json>)

  /** What applying a patch reports. A rejected patch comes back with the
      document as the library left it: whether it rolls back is the
      library's business, not the manager's. */
  datatype PatchOutcome = Applied(doc: Json) | Rejected(left: Json)

  /** The functions the manager delegates to: JSON text parsing
      (`serde_json::from_str`), patch parsing, RFC 6902 patch application
      (`json_patch::patch`) and RFC 7396 merge (`json_patch::merge`). Each is
      a total function whose behaviour is not part of this model. */
  datatype Library = Library(
    parse: string -> Option<Json>,
    parsePatch: string -> Option<Patch>,
    applyPatch: (Json, Patch) -> PatchOutcome,
    mergePatch: (Json, Json) -> Json)

  // ---------------------------------------------------------------------------
  // State, errors and transitions
  // ---------------------------------------------------------------------------

  datatype Manager = Manager(doc: Json, counter: nat)

  /** Which text failed to parse; it picks the error message. */
  datatype Input = InitialJson | NewJson | PatchJson | AdditionalData

  /** Every failure surfaces to the caller as a Python `ValueError`, except
      the index panic of key removal, which surfaces as a panic exception. */
  datatype Error =
    | ParseFailed(input: Input)
    | PatchFailed
    | NotBothObjects
    | IndexPanic(index: nat, len: nat)

  /** The state after a call and what the call returns. */
  datatype Step<T> = Step(next: Manager, out: Result<T, Error>)

  /** `new`: parse the initial text; the counter starts at zero. */
  function New(lib: Library, text: string): (r: Result<Manager, Error>)
    ensures r.Success? <==> lib.parse(text).Some?
    ensures r.Success? ==> r.value.doc == lib.parse(text).value && r.value.counter == 0
    ensures r.Failure? ==> r.error == ParseFailed(InitialJson)
  {
    match lib.parse(text)
    case Some(doc) => Success(Manager(doc, 0))
    case None => Failure(ParseFailed(InitialJson))
  }

  /** `set_original`: a parsed text replaces the document and resets the
      counter; unparsable text returns before anything is assigned. */
  function SetOriginal(m: Manager, lib: Library, text: string): (r: Step<()>)
    ensures lib.parse(text).None? ==> r.next == m && r.out == Failure(ParseFailed(NewJson))
    ensures lib.parse(text).Some? ==> r.next == Manager(lib.parse(text).value, 0) && r.out.Success?
  {
    match lib.parse(text)
    case Some(doc) => Step(Manager(doc, 0), Success(()))
    case None => Step(m, Failure(ParseFailed(NewJson)))
  }

  /** `get_original`: the stored document; nothing changes. */
  function GetOriginal(m: Manager): Step<Json>
  {
    Step(m, Success(m.doc))
  }

  /** `str`: the same reading as `get_original`. */
  function Str(m: Manager): Step<Json>
  {
    GetOriginal(m)
  }

  /** `get_counter`: the counter; nothing changes. */
  function GetCounter(m: Manager): Step<nat>
  {
    Step(m, Success(m.counter))
  }

  /** `apply_patch`: an unparsable patch or a patch the library rejects is an
      error that leaves the counter alone; a successful application counts
      once, however many operations the patch holds. */
  function ApplyPatch(m: Manager, lib: Library, text: string): (r: Step<Json>)
    ensures lib.parsePatch(text).None? ==> r == Step(m, Failure(ParseFailed(PatchJson)))
    ensures r.out.Success? <==>
      lib.parsePatch(text).Some? && lib.applyPatch(m.doc, lib.parsePatch(text).value).Applied?
    ensures r.out.Success? ==> r.next.counter == m.counter + 1 && r.out.value == r.next.doc
    ensures r.out.Success? ==> r.next.doc == lib.applyPatch(m.doc, lib.parsePatch(text).value).doc
    ensures r.out.Failure? ==> r.next.counter == m.counter
  {
    match lib.parsePatch(text)
    case None => Step(m, Failure(ParseFailed(PatchJson)))
    case Some(p) =>
      match lib.applyPatch(m.doc, p)
      case Applied(doc) => Step(Manager(doc, m.counter + 1), Success(doc))
      case Rejected(left) => Step(Manager(left, m.counter), Failure(PatchFailed))
  }

  /** `merge`: an RFC 7396 merge of the parsed text into the document; it
      never touches the counter, and unparsable text changes nothing. */
  function Merge(m: Manager, lib: Library, text: string): (r: Step<Json>)
    ensures r.next.counter == m.counter
    ensures lib.parse(text).None? ==> r == Step(m, Failure(ParseFailed(PatchJson)))
    ensures lib.parse(text).Some? ==>
      r.next.doc == lib.mergePatch(m.doc, lib.parse(text).value) && r.out == Success(r.next.doc)
  {
    match lib.parse(text)
    case None => Step(m, Failure(ParseFailed(PatchJson)))
    case Some(p) =>
      var doc := lib.mergePatch(m.doc, p);
      Step(Manager(doc, m.counter), Success(doc))
  }

  /** `str_no_keys`: the requested paths removed from a copy of the document;
      the stored document and counter stay as they were. */
  function StrNoKeys(m: Manager, keyPaths: seq<string>): (r: Step<Json>)
    ensures r.next == m
    ensures r.out.Success? <==> KeyRemoval.RemoveAll(m.doc, keyPaths).Success?
    ensures r.out.Success? ==> r.out.value == KeyRemoval.RemoveAll(m.doc, keyPaths).value
    ensures r.out.Failure? ==>
      var e := KeyRemoval.RemoveAll(m.doc, keyPaths).error;
      r.out.error == IndexPanic(e.index, e.len)
  {
    match KeyRemoval.RemoveAll(m.doc, keyPaths)
    case Success(doc) => Step(m, Success(doc))
    case Failure(e) => Step(m, Failure(IndexPanic(e.index, e.len)))
  }

  // ---------------------------------------------------------------------------
  // The body `post_json` sends
  // ---------------------------------------------------------------------------

  /** One-level union of two objects: every key of either, the additional
      side winning where both have the key. */
  function ShallowUnion(orig: map<string, Json>, add: map<string, Json>): (r: map<string, Json>)
    ensures r.Keys == orig.Keys + add.Keys
    ensures forall k :: k in add ==> r[k] == add[k]
    ensures forall k :: k in orig && k !in add ==> r[k] == orig[k]
  {
    orig + add
  }

  /** The insertion loop of `post_json`: a clone of the original object, then
      each additional entry inserted in turn. */
  method InsertAll(orig: map<string, Json>, add: map<string, Json>) returns (merged: map<string, Json>)
    ensures merged == ShallowUnion(orig, add)
  {
    merged := orig;
    var todo := add.Keys;
    while todo != {}
      invariant todo <= add.Keys
      invariant merged.Keys == orig.Keys + (add.Keys - todo)
      invariant forall k :: k in add && k !in todo ==> merged[k] == add[k]
      invariant forall k :: k in orig && (k !in add || k in todo) ==> merged[k] == orig[k]
      decreases todo
    {
      var k :| k in todo;
      merged := merged[k := add[k]];
      todo := todo - {k};
    }
  }

  /** The document `post_json` would send: the stored one when no additional
      data is given; otherwise the shallow union of two objects, or an error
      when the data does not parse or either side is not an object. The
      stored document is never modified. */
  function PostBody(m: Manager, lib: Library, additional: Option<string>): (r: Step<Json>)
    ensures r.next == m
    ensures additional.None? ==> r.out == Success(m.doc)
    ensures additional.Some? && lib.parse(additional.value).None? ==>
      r.out == Failure(ParseFailed(AdditionalData))
    ensures additional.Some? && lib.parse(additional.value).Some? ==>
      var extra := lib.parse(additional.value).value;
      && (r.out.Success? <==> m.doc.Obj? && extra.Obj?)
      && (r.out.Failure? ==> r.out.error == NotBothObjects)
      && (r.out.Success? ==>
            && r.out.value.Obj?
            && r.out.value.fields.Keys == m.doc.fields.Keys + extra.fields.Keys
            && (forall k :: k in extra.fields ==> r.out.value.fields[k] == extra.fields[k])
            && (forall k :: k in m.doc.fields && k !in extra.fields ==>
                  r.out.value.fields[k] == m.doc.fields[k]))
  {
    match additional
    case None => Step(m, Success(m.doc))
    case Some(text) =>
      match lib.parse(text)
      case None => Step(m, Failure(ParseFailed(AdditionalData)))
      case Some(extra) =>
        if m.doc.Obj? && extra.Obj? then Step(m, Success(Obj(ShallowUnion(m.doc.fields, extra.fields))))
        else Step(m, Failure(NotBothObjects))
  }

  // ---------------------------------------------------------------------------
  // Sequences of calls and what the counter means
  // ---------------------------------------------------------------------------

  /** A call a Python caller can make on a live manager. */
  datatype Call =
    | CallSetOriginal(text: string)
    | CallGetOriginal
    | CallApplyPatch(patchText: string)
    | CallMerge(mergeText: string)
    | CallStr
    | CallStrNoKeys(keyPaths: seq<string>)
    | CallGetCounter
    | CallPostJson(additional: Option<string>)

  /** The state a call leaves behind. */
  function Execute(m: Manager, lib: Library, c: Call): Manager {
    match c
    case CallSetOriginal(text) => SetOriginal(m, lib, text).next
    case CallGetOriginal => GetOriginal(m).next
    case CallApplyPatch(text) => ApplyPatch(m, lib, text).next
    case CallMerge(text) => Merge(m, lib, text).next
    case CallStr => Str(m).next
    case CallStrNoKeys(keyPaths) => StrNoKeys(m, keyPaths).next
    case CallGetCounter => GetCounter(m).next
    case CallPostJson(additional) => PostBody(m, lib, additional).next
  }

  /** The call replaces the document wholesale. */
  predicate Resets(lib: Library, c: Call) {
    c.CallSetOriginal? && lib.parse(c.text).Some?
  }

  /** The call applies a patch successfully from state `m`. */
  predicate PatchSucceeds(m: Manager, lib: Library, c: Call) {
    c.CallApplyPatch? && ApplyPatch(m, lib, c.patchText).out.Success?
  }

  /** Which calls may touch what: only `set_original`, `apply_patch` and
      `merge` can change the document, and the counter is reset by a
      replacement, raised by exactly one by a successful patch, and left
      alone by everything else. */
  lemma ExecuteEffects(m: Manager, lib: Library, c: Call)
    ensures !(c.CallSetOriginal? || c.CallApplyPatch? || c.CallMerge?) ==> Execute(m, lib, c) == m
    ensures Resets(lib, c) ==> Execute(m, lib, c).counter == 0
    ensures PatchSucceeds(m, lib, c) ==> Execute(m, lib, c).counter == m.counter + 1
    ensures !Resets(lib, c) && !PatchSucceeds(m, lib, c) ==> Execute(m, lib, c).counter == m.counter
  {
  }

  /** The state after a sequence of calls, one after another. */
  function Run(m: Manager, lib: Library, calls: seq<Call>): Manager
    decreases |calls|
  {
    if |calls| == 0 then m
    else Execute(Run(m, lib, calls[..|calls| - 1]), lib, calls[|calls| - 1])
  }

  /** The position of the last wholesale replacement, or -1 if there is none. */
  function LastReset(lib: Library, calls: seq<Call>): (k: int)
    ensures -1 <= k < |calls|
    ensures k >= 0 ==> Resets(lib, calls[k])
    ensures forall j :: k < j < |calls| ==> !Resets(lib, calls[j])
    decreases |calls|
  {
    if |calls| == 0 then -1
    else if Resets(lib, calls[|calls| - 1]) then |calls| - 1
    else LastReset(lib, calls[..|calls| - 1])
  }

  /** How many of the calls at positions `lo` up to `hi` applied a patch
      successfully, each from the state the calls before it produced. */
  function PatchesBetween(m: Manager, lib: Library, calls: seq<Call>, lo: nat, hi: nat): nat
    requires hi <= |calls|
    decreases hi
  {
    if hi <= lo then 0
    else
      PatchesBetween(m, lib, calls, lo, hi - 1)
      + (if PatchSucceeds(Run(m, lib, calls[..hi - 1]), lib, calls[hi - 1]) then 1 else 0)
  }

  /** Counting over a prefix is the same in any longer run. */
  lemma {:induction false} PatchesBetweenPrefix(m: Manager, lib: Library, pre: seq<Call>, calls: seq<Call>, lo: nat, hi: nat)
    requires hi <= |pre| <= |calls| && pre == calls[..|pre|]
    ensures PatchesBetween(m, lib, pre, lo, hi) == PatchesBetween(m, lib, calls, lo, hi)
    decreases hi
  {
    if hi > lo {
      PatchesBetweenPrefix(m, lib, pre, calls, lo, hi - 1);
      assert pre[..hi - 1] == calls[..hi - 1];
    }
  }

  /** What the counter means: after any sequence of calls it equals the
      number of successful patch applications since the last wholesale
      replacement, or, if there was none, the starting count plus all the
      successful patch applications. */
  lemma {:induction false} CounterCountsPatchesSinceReset(m: Manager, lib: Library, calls: seq<Call>)
    ensures Run(m, lib, calls).counter ==
      (if LastReset(lib, calls) < 0 then m.counter else 0)
      + PatchesBetween(m, lib, calls, LastReset(lib, calls) + 1, |calls|)
    decreases |calls|
  {
    if |calls| > 0 {
      var n := |calls|;
      var pre := calls[..n - 1];
      var c := calls[n - 1];
      var before := Run(m, lib, pre);
      ExecuteEffects(before, lib, c);
      if !Resets(lib, c) {
        CounterCountsPatchesSinceReset(m, lib, pre);
        var lo := LastReset(lib, pre) + 1;
        PatchesBetweenPrefix(m, lib, pre, calls, lo, n - 1);
        assert calls[..n - 1] == pre;
      }
    }
  }
}
