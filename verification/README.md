# JsonPatchManager in Dafny

A model of `JsonPatchManager`, the Rust core of a Python extension that keeps
one JSON document in memory and mutates it. The manager holds the document
and a counter of patch applications since the document was last replaced.
It offers these operations:

- construction and wholesale replacement from JSON text;
- RFC 6902 patch application, which counts;
- RFC 7396 merge, which does not count;
- readers for the document and the counter;
- `str_no_keys`, which removes dot-path keys from a copy of the document;
- `post_json`, which may merge extra data shallowly into a copy before sending it.

Modules, one per concern of `src/lib.rs`:

- `Wrappers` (`wrappers.dfy`): `Option` and `Result`.
- `JsonValue` (`json.dfy`): the JSON value as a datatype. Objects are maps. Numbers are opaque.
- `DotPath` (`dotpath.dfy`): `str::split('.')` and `str::parse::<usize>()` as pure functions, each characterised completely:
  - `Split` is the inverse of `Join` on dot-free pieces;
  - `ParseUsize` accepts exactly an optional `+`, then leading zeros, then the canonical digits of a value up to 2^64 - 1.
- `KeyRemoval` (`removal.dfy`): `remove_by_path` written step for step as the Rust code walks it. A top-down reference description (resolve the parent, detach the child, write the parent back) is proved equal to it on every input. The fold of `str_no_keys` is given both as a function and as the Rust loop.
- `PatchManager` (`manager.dfy`): the manager record `{doc, counter}` and one transition function per operation. The `post_json` body preparation is included. A trace lemma states what the counter means over any sequence of calls.

Library calls are parameters. A `Library` value carries four total functions:

- the JSON text parser;
- the patch parser;
- RFC 6902 application;
- RFC 7396 merge.

Nothing is assumed about them beyond their types.

Behaviour worth noting:

- A final array segment that parses as an index at or beyond the array's length panics in `arr.remove(index)` (src/lib.rs:75). The model returns `IndexOutOfBounds(index, len)`. The panic ends the whole `str_no_keys` call, and `PatchManager.StrNoKeys` reports it as `IndexPanic`.
- After a failed `apply_patch` the document is whatever the patch library leaves behind (`Rejected(left)`, src/lib.rs:39-40). Only the counter is guaranteed to stay put.
- When `post_json` is given additional data, both it and the stored document must be objects; otherwise it is an error (src/lib.rs:103-111). Without additional data the stored document is sent as it is, whatever its kind (src/lib.rs:113-114).

## Model

| member | source | states |
|---|---|---|
| DotPath.Split | src/lib.rs:88 | splitting always yields at least one piece, and no piece contains a dot |
| DotPath.JoinSplit | src/lib.rs:88 | joining the pieces of a split with '.' gives back the original text, so nothing is lost |
| DotPath.SplitJoin | src/lib.rs:88 | splitting dot-free pieces joined with '.' recovers exactly those pieces, so `Split` is the inverse of `Join` |
| DotPath.ParseUsizeAccepts | src/lib.rs:73 | an optional '+', any number of leading zeros and the digits of a value up to 2^64 - 1 parse to that value |
| DotPath.ParseUsizeSound | src/lib.rs:73 | anything that parses is an optional '+', then zeros, then the canonical digits of a value that fits in `usize`; so empty text, a lone '+', a '-' sign and non-digits are rejected |
| DotPath.ParseUsizeRejectsOverflow | src/lib.rs:73 | a value beyond 2^64 - 1 is rejected however it is written |
| KeyRemoval.Detach | src/lib.rs:62-82 | final step: an object loses exactly the named key and keeps every other key and value; an absent key changes nothing; an array loses the element at a parsed index, one shorter with the others in order; an index at or beyond the length is an `IndexOutOfBounds` failure; a non-index segment or a scalar changes nothing |
| KeyRemoval.RemoveByPathMatchesReference | src/lib.rs:58-84 | for every value and path, the recursive walk equals the top-down description: resolve the parent, detach the last segment, write the parent back; an unresolved parent leaves the value unchanged |
| KeyRemoval.SingleSegmentIsDetach | src/lib.rs:63-75 | a one-segment path acts on the value itself exactly as `Detach` does |
| KeyRemoval.UnresolvedPathIsNoOp | src/lib.rs:66-82 | the value is unchanged when the path short of its last segment does not resolve: a missing intermediate key, an array segment that is not an index, an index out of range, or a scalar on the way |
| KeyRemoval.NothingToDetachIsNoOp | src/lib.rs:72-82 | when the parent resolves to a scalar, or to an array and the last segment is not an index, the value is unchanged |
| KeyRemoval.RemovePanicsExactlyOnIndexOutOfRange | src/lib.rs:72-75 | the walk fails if and only if the parent is an array and the last segment parses to an index at or beyond its length |
| KeyRemoval.RemoveLandsAtParent | src/lib.rs:58-84 | a removal that goes through changes the value only at the parent path, where the parent now has the child detached |
| KeyRemoval.RemoveObjectKeyIsIdempotent | src/lib.rs:63-65 | removing a key path whose parent is an object twice is the same as removing it once |
| KeyRemoval.RemoveAllAppend | src/lib.rs:86-91 | paths are applied left to right, each seeing earlier removals: removing `first + second` is removing `first` then `second`, and a panic stops everything |
| KeyRemoval.RemoveKeys | src/lib.rs:86-91 | the loop over a working copy yields the fold of the walker over the split paths |
| KeyRemoval.RemoveAllExample | src/lib.rs:57-92 | removing "a.b" and "x.y.z" from {"a": {"b": 1, "c": 2}, "d": 3} yields {"a": {"c": 2}, "d": 3}; the missing path is ignored |
| PatchManager.New | src/lib.rs:19-23 | construction succeeds exactly when the text parses, storing the parsed value with counter 0; otherwise it is a parse error |
| PatchManager.SetOriginal | src/lib.rs:25-30 | parsed text replaces the document and resets the counter to 0 whatever it was; unparsable text leaves document and counter unchanged |
| PatchManager.ApplyPatch | src/lib.rs:36-43 | an unparsable patch changes nothing; success happens exactly when the patch parses and applies, and raises the counter by exactly one, however many operations the patch holds; any failure leaves the counter unchanged |
| PatchManager.Merge | src/lib.rs:45-50 | the counter is never changed; unparsable text changes nothing; otherwise the document becomes the library merge of the parsed value and is returned |
| PatchManager.StrNoKeys | src/lib.rs:57-92 | document and counter are unchanged; the result is the removal fold over a copy, and a removal panic is reported as `IndexPanic` |
| PatchManager.ShallowUnion | src/lib.rs:103-110 | result keys are the union of both key sets; keys of the additional data take its value, the rest keep the original value |
| PatchManager.InsertAll | src/lib.rs:105-109 | cloning the original object and inserting each additional entry yields exactly the shallow union |
| PatchManager.PostBody | src/lib.rs:99-115 | the stored state is unchanged; no additional data gives the stored document; unparsable data is a parse error; the result is a success exactly when both sides are objects, and then it is their shallow union; otherwise it is an error |
| PatchManager.ExecuteEffects | src/lib.rs:19-95 | only `set_original`, `apply_patch` and `merge` can change the state; a replacement sets the counter to 0, a successful patch raises it by one, every other call leaves it unchanged |
| PatchManager.CounterCountsPatchesSinceReset | src/lib.rs:25-43 | after any sequence of calls the counter is the number of successful patch applications since the last successful `set_original`; if there was none, it is the starting count plus all successful patches |

## Left out

- HTTP transport in `post_json` (src/lib.rs:128-142): building the client, sending, checking the status and reading the body are network I/O. Only the body to be sent is modelled (`PostBody`).
- Header conversion in `post_json` (src/lib.rs:117-126): Python dict downcasts and header name/value validation belong to libraries outside this model.
- The pyo3 class and module registration (src/lib.rs:1-10, 16, 146-150) is binding glue.
- The internals of JSON parsing, patch parsing, RFC 6902 application and RFC 7396 merge are library code. They are opaque fields of `Library`.
- Serialisation (`to_string`): readers and mutating calls return the JSON value that would be serialised, not its text.
- JSON number representation is opaque (`Number`). Objects are maps, so key order is not modelled. Key order depends on serde_json build features, and with insertion order kept, `Map::remove` could also reorder the remaining keys.
- PatchManager.ApplyPatch: the counter is an unbounded `nat`. The i64 `counter += 1` overflow after 2^63 - 1 successful patches is not modelled, because its outcome depends on the build profile (a panic or a wrap-around).
- DotPath.ParseUsize: assumes a 64-bit target, so the upper bound is 2^64 - 1.
- PatchManager.GetOriginal, PatchManager.Str and PatchManager.GetCounter carry no contract of their own. They are plain reads, and `ExecuteEffects` states that they leave the state alone.
