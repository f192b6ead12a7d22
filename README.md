# Delta-merge engine of `sse_converter.py`, modelled in Dafny

`sse_to_json_converter` reads a Server-Sent Events transcript. It folds the
`delta` events into one JSON document, starting from an empty dict. Each
`delta` payload is a JSON envelope. An envelope is one of three shapes:

- a batch `{"v": [op, ...]}`;
- a single operation `{"p": path, "o": kind, "v": value}`;
- a root `patch`, whose `v` is a batch.

An operation is `add`, `replace` or the custom `append`, applied at a
JSON-pointer-like path. Before the operation runs, the parent walk creates any
missing intermediate lists and dicts. A dispatched payload of exactly `[DONE]`
ends the stream.

The project is split into one module per part of the engine:

| file | module | part of the engine |
|---|---|---|
| `json.dfy` | `JsonValue` | JSON values, truthiness, `dict.get`, and the faults that are raised and then swallowed |
| `text.dfy` | `Text` | the `str` operations the engine uses: `strip`, `split`, `splitlines`, `isdigit`, `int`, `"".join` |
| `pointer.dfy` | `Pointer` | `_parse_json_pointer` |
| `resolver.dfy` | `Resolver` | `_ensure_and_get_parent`: the walk as the function `Walk` and as the loop `EnsureParent` |
| `applier.dfy` | `Applier` | `_apply_single_delta_operation`: as the function `ApplyOp` and as the method `ApplySingle` |
| `envelope.dfy` | `Envelope` | the envelope shapes: the functions `ApplyOps`/`ApplyEnvelope` and the methods `ApplyBatch`/`ApplyDelta` |
| `framer.dfy` | `Framer` | the line loop: the functions `Step`/`Feed` and the method `Convert` |

Each imperative part of the source is a Dafny method. That method is proved
equal to a specification function. The properties are then proved
about those functions.

**Documents are values.** The Python code mutates one tree through aliases:

- `current` in the walk;
- `parent_container` in the applier;
- `actual_target` in `append`.

Here a position in the document is a handle, the list of segments that leads to it:

- `Get` reads the node at a handle;
- `Put` writes a node back at a handle.

An in-place update through an alias is a `Put` at the alias's handle. This
matches the source exactly, because no node of the document is ever reachable
along two paths:

- `json.loads` builds fresh trees;
- values are only ever inserted into one place.

**Raising does not roll back.** A `ValueError` and the `AttributeError`s raised
inside the `try` are modelled as an `Outcome`. The `Outcome` holds the document
as it stands at the raise, together with the fault. The raise abandons the rest
of the event's operations, and every change already made stays.

**Behaviour of the code that is easy to misread, and that the model follows:**

- The pointer parser strips every leading and trailing `/`. `"/"` is one
  empty key, not the root.
- A raise ends the whole event: the operations of the batch after it are
  never applied.
- A dispatched event of any name stops the stream when its payload is
  `[DONE]`.
  - For names other than `delta` and `delta_encoding`, the loop breaks before
    the reset.
  - For `delta_encoding`, and for `delta` (whose `[DONE]` payload does not
    decode), the loop breaks just after the reset.
- The last dispatched payload is kept across events.
  - A blank line that dispatches nothing still tests that payload.
  - That test can never succeed, because the loop has already stopped on such a
    payload (`Framer.StopsExactlyOnDispatchedDone`).
- An operation with an unknown kind such as `remove` below the root still
  runs the parent walk. The intermediates it creates stay.
- A truthy path that is not a string raises, because it has no `strip`. A
  falsy path of any type (`0`, `false`, `[]`, `{}`) is a root operation.

## Model

| member | source | states |
|---|---|---|
| Text.TrimIsInfix | sse_converter.py:10 | `s.strip(cs)` is the infix `s[i..j]` whenever `s[..i]` and `s[j..]` are runs of `cs` characters and `s[i..j]` neither starts nor ends with one; a string made only of `cs` characters strips to `""` |
| Text.SkipFromIs | sse_converter.py:10 | the left edge of `strip` is the first character not in `cs` |
| Text.SkipBackFromIs | sse_converter.py:10 | the right edge of `strip` is just after the last character not in `cs` |
| Text.FirstInIs | sse_converter.py:10 | `split` cuts at the first separator: the search stops at the first character of `cs` |
| Text.Split | sse_converter.py:10 | `s.split(sep)` has at least one piece, no piece contains `sep`, and joining the pieces with `sep` gives `s` back |
| Text.SplitOfJoin | sse_converter.py:10 | splitting the join of separator-free pieces gives the pieces back |
| Text.Trim | sse_converter.py:10 | `strip(cs)` never lengthens its input, and what it leaves neither starts nor ends with a character of `cs` |
| Text.Strip | sse_converter.py:132 | `strip()` never lengthens its input, and what it leaves neither starts nor ends with whitespace |
| Text.StripIsIdempotent | sse_converter.py:132 | stripping a stripped line changes nothing |
| Text.DigitsOf | sse_converter.py:22-25 | the decimal form of an index passes `isdigit` and has no leading zero |
| Text.DecimalIgnoresLeadingZero | sse_converter.py:24-25 | `int` ignores a leading zero, so the segments `"01"` and `"1"` address the same element |
| Text.DecimalOfDigitsOf | sse_converter.py:25 | `int(str(n)) == n`, so the digit segment written for an index reads back as that index |
| Text.SplitLines | sse_converter.py:131 | `splitlines()` yields lines with no line boundary in them, and no lines exactly for the empty text |
| Text.SplitLinesLast | sse_converter.py:131 | a last line without a terminator is still one line |
| Text.SplitLinesStep | sse_converter.py:131 | a line ended by `"\r\n"` or by any single boundary character is split off as one line, and the rest is split on |
| Text.SplitLinesOfTerminated | sse_converter.py:131 | newline-terminated lines are split back into exactly those lines |
| Pointer.ParsePointer | sse_converter.py:3-10 | the empty pointer gives no segments and any other gives at least one; the segments hold no `/` and, joined with `/`, give the pointer with every surrounding `/` stripped |
| Pointer.PointerParts | sse_converter.py:8-10 | the segments of an operation's `p`: exactly the falsy values (`""`, `0`, `false`, `[]`, `{}`) give the root, and exactly the truthy values that are not strings have no segments (they raise) |
| Pointer.EverySurroundingSlashIsStripped | sse_converter.py:10 | any number of leading and trailing slashes around a body give the body's segments |
| Pointer.LeadingSlashIsOptional | sse_converter.py:8-10 | `"a/b"` and `"/a/b"` parse alike |
| Pointer.OnlySlashesIsOneEmptyKey | sse_converter.py:8-10 | `"/"`, `"//"`, ... parse to one empty key, not to the root |
| Pointer.ParseOfFormatted | sse_converter.py:8-10 | formatting segments as `/s1/s2/...` and parsing the result gives the segments back |
| Resolver.Pad | sse_converter.py:29-30 | padding keeps the list as a prefix, adds only nulls, and stops at the first length that exceeds the index |
| Resolver.Walk | sse_converter.py:12-47 | after a walk without a fault, the parent of the target exists, and for a path of two or more segments it is a list exactly when the last segment is all digits; the root keeps its kind |
| Resolver.WalkChild | sse_converter.py:33-46 | the child a step descends into always has the kind that the next segment asks for |
| Resolver.WalkFaultsOnlyAtFirstStep | sse_converter.py:24-40 | the walk raises exactly when its first step meets the wrong container, and a raise leaves the tree untouched |
| Resolver.WalkOnObjectRoot | sse_converter.py:24-27 | with the dict root, the walk raises exactly on a leading digit segment of a path of two or more segments, and the root stays a dict |
| Resolver.WalkFirstStep | sse_converter.py:29-46 | one step keeps a child of the right kind and otherwise puts in an empty container; other dict members are kept; a list keeps its other elements and grows only by nulls |
| Resolver.WalkIsIdempotent | sse_converter.py:20-47 | walking the walked tree again along the same path changes nothing |
| Resolver.PadWithNulls | sse_converter.py:29-30 | the `append(None)` loop computes `Pad` |
| Resolver.StepInto | sse_converter.py:22-46 | one in-place step raises exactly when the container is the wrong kind, and otherwise leaves the child that `Walk` descends into |
| Resolver.EnsureParent | sse_converter.py:12-47 | the loop gives the tree and fault of `Walk`, and the parent exists when there is no fault |
| Applier.ApplyAtRoot | sse_converter.py:59-69 | a root operation never changes the kind of the root |
| Applier.Insert | sse_converter.py:79 | `list.insert(i, v)`: `v` lands at `i`, or at the end when `i` is past it, and every later element moves one place right |
| Applier.AppendTarget | sse_converter.py:98-106 | the target `append` finds is the child at the key whenever that is an in-range list element at a digit key or a dict member at a non-digit key, and a non-null target is always that child; a digit key against anything but a list finds nothing, even a dict member of that name |
| Applier.Append | sse_converter.py:97-117 | `append` never changes the kind of the parent |
| Applier.ApplyAtParent | sse_converter.py:74-117 | a raise leaves the parent as it was; the parent keeps its kind; only `add` and `replace` can raise |
| Applier.ApplyAlong | sse_converter.py:71-117 | a raise below the root keeps the tree as the walk left it |
| Applier.ApplyOp | sse_converter.py:49-118 | one operation never changes the kind of the root, whether it applies, does nothing or raises; `ApplySingle` is proved to compute it |
| Applier.ApplySingle | sse_converter.py:49-118 | the method computes `ApplyOp`: the null checks, the root case, the parse, the walk, and the operation on the parent, written back |
| Applier.ApplyBelowRoot | sse_converter.py:71-117 | the method computes `ApplyAlong` via the loop `EnsureParent` |
| Applier.MissingPathOrKindIsNoOp | sse_converter.py:53-55 | with no path or no kind, the document is unchanged and nothing raises |
| Applier.RootOperations | sse_converter.py:59-69 | at the root: `add` merges a dict value into a dict root, with the value winning; `replace` leaves exactly the value's members; everything else changes nothing; nothing raises |
| Applier.TextPathAppliesAlongItsSegments | sse_converter.py:57-71 | a non-empty string path is applied below the root along its parsed segments |
| Applier.OperationTouchesOnlyTheParent | sse_converter.py:71-117 | below the root only the walked parent changes: its handle holds the operated parent, putting the walked parent back gives the walked tree, and the fault is the parent operation's |
| Applier.UnknownKindStillWalks | sse_converter.py:71-97 | an unknown kind below the root has exactly the walk's effect, including its intermediates and its fault |
| Applier.OneSegmentOperatesOnParent | sse_converter.py:20 | a one-segment path applies the operation to the root as the parent |
| Applier.KeyPathOperatesOnRoot | sse_converter.py:57-72 | the path `/k` for a plain key `k` applies the operation to the root as the parent |
| Applier.AddAtKey | sse_converter.py:80-83 | `add` at a key succeeds exactly on a dict parent, sets that member and keeps all others |
| Applier.AddAtIndex | sse_converter.py:75-79 | `add` at an index succeeds exactly on a list parent, inserts the value there (or at the end) and shifts later elements right |
| Applier.ReplaceAtIndex | sse_converter.py:86-90 | `replace` at an index succeeds exactly on a list parent with the index in range, and overwrites just that element; otherwise it raises and changes nothing |
| Applier.ReplaceAtKeyIsAdd | sse_converter.py:91-95 | `replace` at a key has the same effect as `add` at that key |
| Applier.AppendText | sse_converter.py:108-110 | text appended to text is concatenated in place, and nothing else in the parent changes |
| Applier.AppendTextTwice | sse_converter.py:108-110 | appending `a` and then `b` to a text is appending `a + b` |
| Applier.AppendToList | sse_converter.py:111-112 | a value appended to an existing list becomes its last element, and nothing else in the parent changes |
| Applier.AppendMergesDict | sse_converter.py:113-117 | a dict appended into a dict parent leaves a dict target: the old members if it was a dict, overridden by the value's; the parent's keys are its old keys plus the key, and its other members are kept |
| Applier.AppendOtherwiseNoOp | sse_converter.py:97-118 | every other `append` combination leaves the parent unchanged |
| Applier.AddThenAppendText | sse_converter.py:74-110 | adding a text at a top-level key and then appending a token gives the document that adding the joined text does |
| Envelope.ApplyOps | sse_converter.py:147-153 | a batch never changes the kind of the root, and the empty batch does nothing; `ApplyBatch` is proved to compute it |
| Envelope.ApplyEnvelope | sse_converter.py:141-170 | every envelope, whatever its shape, keeps the root's kind, so a dict root stays a dict; `ApplyDelta` is proved to compute it |
| Envelope.ApplyBatch | sse_converter.py:147-153 | the loop over a batch computes `ApplyOps`: operations applied in order, stopping at the first raise |
| Envelope.ApplyDelta | sse_converter.py:141-170 | the envelope dispatch computes `ApplyEnvelope` |
| Envelope.ApplyOpsOfConcat | sse_converter.py:147-153 | running a batch `a + b` is running `a` and then, unless it raised, running `b`; a raise abandons exactly the rest |
| Envelope.RootPatchIsBatch | sse_converter.py:160-168 | the root `patch` envelope has the effect of the batch envelope with the same operations |
| Envelope.SingleIsOneElementBatch | sse_converter.py:155-170 | a single-operation envelope has the effect of the batch holding just that operation |
| Envelope.UnrecognisedEnvelopeIsIgnored | sse_converter.py:145-170 | a dict with no `o` and no batch-shaped `v` changes nothing |
| Framer.Dispatch | sse_converter.py:138-177 | only a `delta` payload that decodes can change the document, and a dict document stays a dict |
| Framer.Step | sse_converter.py:131-189 | a line that is not blank after stripping never changes the document or the kept payload and never breaks the loop; a break leaves `[DONE]` as the kept payload; a dict document stays a dict |
| Framer.Feed | sse_converter.py:131-189 | feeding lines breaks only with `[DONE]` as the kept payload, and keeps a dict document a dict |
| Framer.Converted | sse_converter.py:120-191 | whatever the text, the converter returns a dict |
| Framer.Convert | sse_converter.py:120-191 | the line loop, with its two `break`s, computes `Converted`, and returns a dict |
| Framer.StopsExactlyOnDispatchedDone | sse_converter.py:134-184 | the loop breaks on a line exactly when the line is blank and dispatches a payload equal to `[DONE]`; otherwise the kept payload is still not `[DONE]` |
| Framer.FeedOfConcat | sse_converter.py:131-189 | feeding `a + b` is feeding `a` and then, unless the loop broke, `b` |
| Framer.WithoutBlankLineNothingIsApplied | sse_converter.py:131-189 | lines none of which is blank never break the loop and never change the document |
| Framer.TrailingEventIsNeverApplied | sse_converter.py:131-191 | an event still open when the text ends is never applied |
| Framer.EventLineSetsName | sse_converter.py:186-187 | the line `event: n` sets the event name to `n` |
| Framer.DataLineAppends | sse_converter.py:188-189 | the line `data: d` appends `d` to the collected data |
| Framer.DataLinesAccumulate | sse_converter.py:188-189 | data lines are collected in order and do not break the loop |
| Framer.EventIsDispatchedAtBlankLine | sse_converter.py:134-189 | a whole event is dispatched at its blank line with its data joined without separator; name and data are reset; the rest is read only when the payload is not `[DONE]` |
| Framer.DoneEndsTheStream | sse_converter.py:179-184 | a `[DONE]` event ends the stream: nothing after it is read, and a non-`delta` one leaves the document unchanged |
| Framer.BareDoneIsIgnored | sse_converter.py:134-184 | `data: [DONE]` without an event name is dropped at the blank line and the stream goes on |

## Left out

- `json.loads` (sse_converter.py:142) is not modelled. It is the parameter `decode`, which gives `None` where the library raises `JSONDecodeError`. Nothing is assumed about it, not even that it rejects `[DONE]`.
- `json.dumps` and the `__main__` sample (sse_converter.py:194-204) are output plumbing and are not modelled.
- JSON numbers are integers: floats are not modelled. The only test the code makes of a number is the truthiness of a numeric `p` (sse_converter.py:8), which `Num` keeps for integers; a float `p` such as `0.0` (a root operation) or `0.5` (which raises) has no counterpart. Dicts are maps, so key insertion order is not modelled.
- `str.isdigit` is modelled for ASCII digits only. Python also accepts other Unicode digits: for some (`'²'`) `int()` then raises, while decimal digits of other scripts (`'３'`, `'٣'`) make list indices in Python. Both kinds of segment are treated here as keys.
- Python's bool/int equality (`1 == True`) plays no part here: every equality test the engine makes is against a string.
- The document is a value, not a heap. Aliasing is modelled by handles with `Get`/`Put`, which is exact here because the tree is never shared. Object identity itself is not modelled.
- Exceptions other than the modelled faults are not modelled: running out of memory and recursion limits.
