/**
 * The single-operation applier (sse_converter.py, `_apply_single_delta_operation`):
 * `add`, `replace` and the custom `append`, with their special cases at the
 * root. The operation's `p`, `o` and `v` are whatever JSON the envelope held;
 * `Null` stands for a member that was absent or null, as `dict.get` does.
 */
module Applier {
  import opened JsonValue
  import opened Text
  import opened Pointer
  import opened Resolver

  /**
   * An operation on the root itself (the path was `""` or another falsy
   * value). `add` shallow-merges a dict value into a dict root; `replace`
   * clears a dict root and then copies a dict value in; anything else does
   * nothing.
   */
  function ApplyAtRoot(root: Json, kind: Json, value: Json): (r: Json)
    ensures r.Obj? == root.Obj? && r.Arr? == root.Arr?
  {
    if kind == Str("add") then
      if root.Obj? && value.Obj? then Obj(root.fields + value.fields) else root
    else if kind == Str("replace") then
      if root.Obj? then Obj(map[] + (if value.Obj? then value.fields else map[])) else root
    else
      root
  }

  /**
   * `list.insert(i, v)` for a non-negative index: `v` lands at `i`, or at the
   * end when `i` is past it, and every later element moves one place right.
   */
  function Insert(s: seq<Json>, i: nat, v: Json): (r: seq<Json>)
    ensures |r| == |s| + 1
    ensures r[if i < |s| then i else |s|] == v
    ensures forall k :: 0 <= k < |s| ==> r[if k < i then k else k + 1] == s[k]
  {
    if i < |s| then s[..i] + [v] + s[i..] else s + [v]
  }

  /**
   * What `append` finds at the target: an in-range list element, a dict
   * member, or None. A digit key is only ever looked up in a list, so against
   * a dict it finds nothing even when the dict has that key.
   */
  function AppendTarget(parent: Json, key: string): (t: Json)
    ensures t != Null ==> Child(parent, key) == Some(t)
    ensures IsDigits(key) && parent.Arr? && Decimal(key) < |parent.elems| ==> t == Child(parent, key).value
    ensures !IsDigits(key) && parent.Obj? && key in parent.fields ==> t == Child(parent, key).value
    ensures IsDigits(key) && !parent.Arr? ==> t == Null
  {
    if IsDigits(key) then
      if parent.Arr? && Decimal(key) < |parent.elems| then parent.elems[Decimal(key)] else Null
    else if parent.Obj? then Lookup(parent.fields, key)
    else Null
  }

  /**
   * The custom `append` on the parent container, checked in this order: text
   * onto text concatenates; anything onto an existing list becomes its last
   * element; a dict value into a dict parent makes the target a dict (replacing
   * whatever non-dict was there) and shallow-merges the value into it; any
   * other combination does nothing.
   */
  function Append(parent: Json, key: string, value: Json): (r: Json)
    ensures r.Obj? == parent.Obj? && r.Arr? == parent.Arr?
  {
    var target := AppendTarget(parent, key);
    if target.Str? && value.Str? then
      SetChild(parent, key, Str(target.s + value.s))
    else if target.Arr? then
      SetChild(parent, key, Arr(target.elems + [value]))
    else if value.Obj? && parent.Obj? then
      var base := Lookup(parent.fields, key);
      Obj(parent.fields[key := Obj((if base.Obj? then base.fields else map[]) + value.fields)])
    else
      parent
  }

  /**
   * The operation on the parent container the walk returned, at the final
   * segment `key`. A fault leaves the parent as it was, and the parent keeps
   * its kind in every case.
   */
  function ApplyAtParent(parent: Json, key: string, kind: Json, value: Json): (r: Outcome)
    ensures r.fault.Some? ==> r.doc == parent
    ensures r.doc.Obj? == parent.Obj? && r.doc.Arr? == parent.Arr?
    ensures kind != Str("add") && kind != Str("replace") ==> r.fault.None?
  {
    if kind == Str("add") then
      if IsDigits(key) then
        if parent.Arr? then Outcome(Arr(Insert(parent.elems, Decimal(key), value)), None)
        else Outcome(parent, Some(StructureMismatch))
      else if parent.Obj? then Outcome(Obj(parent.fields[key := value]), None)
      else Outcome(parent, Some(StructureMismatch))
    else if kind == Str("replace") then
      if IsDigits(key) then
        if parent.Arr? && Decimal(key) < |parent.elems| then
          Outcome(Arr(parent.elems[Decimal(key) := value]), None)
        else Outcome(parent, Some(ReplaceOutOfRange))
      else if parent.Obj? then Outcome(Obj(parent.fields[key := value]), None)
      else Outcome(parent, Some(StructureMismatch))
    else if kind == Str("append") then
      Outcome(Append(parent, key, value), None)
    else
      Outcome(parent, None)
  }

  /**
   * An operation below the root: the parent walk runs first (creating
   * intermediates whatever the kind), then the operation is applied to the
   * parent, which is written back where the walk found it. A fault from either
   * step keeps every change made before it.
   */
  function ApplyAlong(root: Json, parts: seq<string>, kind: Json, value: Json): (out: Outcome)
    requires |parts| >= 1
    ensures out.fault.Some? ==> out.doc == Walk(root, parts).doc
    ensures out.doc.Obj? == root.Obj? && out.doc.Arr? == root.Arr?
  {
    var w := Walk(root, parts);
    if w.fault.Some? then w
    else
      var h := parts[..|parts| - 1];
      var parent := Get(w.doc, h).value;
      var leaf := ApplyAtParent(parent, parts[|parts| - 1], kind, value);
      PutOfGet(w.doc, h);
      PutKeepsKind(w.doc, h, leaf.doc);
      Outcome(Put(w.doc, h, leaf.doc), leaf.fault)
  }

  /**
   * `_apply_single_delta_operation` as a function on values. A missing path or
   * kind changes nothing; a truthy non-string path raises; a falsy path is a
   * root operation; any other path is parsed and applied below the root.
   * Whatever it does or raises, the root keeps its kind, so a dict root stays
   * a dict.
   */
  function ApplyOp(root: Json, path: Json, kind: Json, value: Json): (r: Outcome)
    ensures r.doc.Obj? == root.Obj? && r.doc.Arr? == root.Arr?
  {
    if path == Null || kind == Null then Outcome(root, None)
    else match PointerParts(path)
      case None => Outcome(root, Some(PointerNotText))
      case Some(parts) =>
        if parts == [] then Outcome(ApplyAtRoot(root, kind, value), None)
        else ApplyAlong(root, parts, kind, value)
  }

  /**
   * `_apply_single_delta_operation` as the sequence of steps it is: decode the
   * path, handle the root, or else run the parent walk (the loop of
   * `EnsureParent`), apply the operation to the parent and write it back.
   */
  method ApplySingle(root: Json, path: Json, kind: Json, value: Json) returns (out: Outcome)
    ensures out == ApplyOp(root, path, kind, value)
  {
    if path == Null || kind == Null {
      out := Outcome(root, None);
      assert out == ApplyOp(root, path, kind, value);
    } else if !Truthy(path) {
      // `_parse_json_pointer` gives [] for a falsy path: an operation on the root
      assert PointerParts(path) == Some([]);
      out := Outcome(ApplyAtRoot(root, kind, value), None);
      assert out == ApplyOp(root, path, kind, value);
    } else if !path.Str? {
      // a truthy path that is not a string has no `strip`
      out := Outcome(root, Some(PointerNotText));
      assert out == ApplyOp(root, path, kind, value);
    } else {
      var parts := ParsePointer(path.s);
      assert PointerParts(path) == Some(parts) && parts != [];
      out := ApplyBelowRoot(root, parts, kind, value);
      assert out == ApplyOp(root, path, kind, value);
    }
  }

  /** The part of `_apply_single_delta_operation` after the root case. */
  method ApplyBelowRoot(root: Json, parts: seq<string>, kind: Json, value: Json) returns (out: Outcome)
    requires |parts| >= 1
    ensures out == ApplyAlong(root, parts, kind, value)
  {
    var doc, fault := EnsureParent(root, parts);
    if fault.Some? {
      return Outcome(doc, fault);
    }
    var h := parts[..|parts| - 1];
    var parent := Get(doc, h).value;
    var leaf := ApplyAtParent(parent, parts[|parts| - 1], kind, value);
    out := Outcome(Put(doc, h, leaf.doc), leaf.fault);
  }

  // ---------------------------------------------------------------------
  // Properties of one operation
  // ---------------------------------------------------------------------

  /** An operation with no path or no kind leaves the document exactly as it was. */
  lemma MissingPathOrKindIsNoOp(root: Json, path: Json, kind: Json, value: Json)
    requires path == Null || kind == Null
    ensures ApplyOp(root, path, kind, value) == Outcome(root, None)
  {
  }

  /**
   * At the root: `add` merges a dict value into a dict root, value winning on
   * shared keys and every other root key kept; `replace` leaves a dict root
   * holding exactly the value's members (none when the value is not a dict);
   * every other kind, and every non-dict root, is left alone. Nothing raises.
   */
  lemma RootOperations(root: Json, path: Json, kind: Json, value: Json)
    requires path != Null && kind != Null && !Truthy(path)
    ensures var out := ApplyOp(root, path, kind, value);
      out.fault.None?
      && (kind == Str("add") && root.Obj? && value.Obj? ==>
            out.doc.Obj? && out.doc.fields.Keys == root.fields.Keys + value.fields.Keys
            && (forall k :: k in value.fields ==> out.doc.fields[k] == value.fields[k])
            && (forall k :: k in root.fields && k !in value.fields ==> out.doc.fields[k] == root.fields[k]))
      && (kind == Str("replace") && root.Obj? ==>
            out.doc == (if value.Obj? then value else Obj(map[])))
      && (!(kind == Str("add") && root.Obj? && value.Obj?) && !(kind == Str("replace") && root.Obj?) ==>
            out.doc == root)
  {
    if kind == Str("replace") && root.Obj? && value.Obj? {
      assert map[] + value.fields == value.fields;
    }
  }

  /** A non-empty string path is parsed and applied below the root. */
  lemma TextPathAppliesAlongItsSegments(root: Json, s: string, kind: Json, value: Json)
    requires s != "" && kind != Null
    ensures |ParsePointer(s)| >= 1
    ensures ApplyOp(root, Str(s), kind, value) == ApplyAlong(root, ParsePointer(s), kind, value)
  {
  }

  /**
   * Below the root the operation touches only the parent the walk returned:
   * with no walk fault, the result's fault is the parent operation's, the
   * parent handle holds the operated parent, and putting the walked parent
   * back gives exactly the walked tree. A walk fault returns the walked tree.
   */
  lemma {:induction false} OperationTouchesOnlyTheParent(root: Json, parts: seq<string>, kind: Json, value: Json)
    requires |parts| >= 1
    ensures var w := Walk(root, parts); var out := ApplyAlong(root, parts, kind, value);
      (w.fault.Some? ==> out == w)
      && (w.fault.None? ==>
            var h := parts[..|parts| - 1];
            var parent := Get(w.doc, h).value;
            var leaf := ApplyAtParent(parent, parts[|parts| - 1], kind, value);
            out.fault == leaf.fault
            && Get(out.doc, h) == Some(leaf.doc)
            && Put(out.doc, h, parent) == w.doc)
  {
    var w := Walk(root, parts);
    if w.fault.None? {
      var h := parts[..|parts| - 1];
      var parent := Get(w.doc, h).value;
      var leaf := ApplyAtParent(parent, parts[|parts| - 1], kind, value);
      GetOfPut(w.doc, h, leaf.doc);
      PutOfPut(w.doc, h, leaf.doc, parent);
      PutOfGet(w.doc, h);
    }
  }

  /**
   * An unknown kind (such as `remove`, or a non-string) below the root still
   * runs the parent walk: the intermediates it creates stay, and so does its fault.
   */
  lemma UnknownKindStillWalks(root: Json, parts: seq<string>, kind: Json, value: Json)
    requires |parts| >= 1
    requires kind != Str("add") && kind != Str("replace") && kind != Str("append")
    ensures ApplyAlong(root, parts, kind, value) == Walk(root, parts)
  {
    var w := Walk(root, parts);
    if w.fault.None? {
      PutOfGet(w.doc, parts[..|parts| - 1]);
    }
  }

  /** `add` at a key creates or overwrites that member of a dict parent and keeps the others; a non-dict parent raises. */
  lemma AddAtKey(parent: Json, key: string, value: Json)
    requires !IsDigits(key)
    ensures var r := ApplyAtParent(parent, key, Str("add"), value);
      (r.fault.None? <==> parent.Obj?)
      && (parent.Obj? ==>
            r.doc.Obj? && r.doc.fields.Keys == parent.fields.Keys + {key}
            && Child(r.doc, key) == Some(value)
            && forall k :: k in parent.fields && k != key ==> r.doc.fields[k] == parent.fields[k])
  {
  }

  /**
   * `add` at a digit segment inserts into a list parent: the value lands at the
   * index (or at the end when the index is past it) and later elements shift
   * one place right; a non-list parent raises.
   */
  lemma AddAtIndex(parent: Json, key: string, value: Json)
    requires IsDigits(key)
    ensures var r := ApplyAtParent(parent, key, Str("add"), value); var i := Decimal(key);
      (r.fault.None? <==> parent.Arr?)
      && (parent.Arr? ==>
            var s := parent.elems;
            r.doc.Arr? && |r.doc.elems| == |s| + 1
            && r.doc.elems[if i < |s| then i else |s|] == value
            && (forall k :: 0 <= k < |s| && k < i ==> r.doc.elems[k] == s[k])
            && (forall k :: 0 <= k < |s| && k >= i ==> r.doc.elems[k + 1] == s[k]))
  {
    if parent.Arr? {
      var s := parent.elems;
      var r := Insert(s, Decimal(key), value);
      assert forall k :: 0 <= k < |s| ==> r[if k < Decimal(key) then k else k + 1] == s[k];
    }
  }

  /**
   * `replace` at a digit segment succeeds exactly when the parent is a list and
   * the index is in range; it then overwrites that one element and nothing else.
   */
  lemma ReplaceAtIndex(parent: Json, key: string, value: Json)
    requires IsDigits(key)
    ensures var r := ApplyAtParent(parent, key, Str("replace"), value); var i := Decimal(key);
      (r.fault.None? <==> parent.Arr? && i < |parent.elems|)
      && (r.fault.Some? ==> r.fault == Some(ReplaceOutOfRange) && r.doc == parent)
      && (r.fault.None? ==>
            r.doc.Arr? && |r.doc.elems| == |parent.elems| && Child(r.doc, key) == Some(value)
            && forall k :: 0 <= k < |parent.elems| && k != i ==> r.doc.elems[k] == parent.elems[k])
  {
  }

  /** `replace` at a key is `add` at that key, both on the parent and for a whole operation. */
  lemma ReplaceAtKeyIsAdd(root: Json, parts: seq<string>, value: Json)
    requires |parts| >= 1 && !IsDigits(parts[|parts| - 1])
    ensures ApplyAlong(root, parts, Str("replace"), value) == ApplyAlong(root, parts, Str("add"), value)
  {
  }

  /** `append` of text onto text concatenates in place. */
  lemma AppendText(parent: Json, key: string, value: Json)
    requires AppendTarget(parent, key).Str? && value.Str?
    ensures Child(Append(parent, key, value), key) == Some(Str(AppendTarget(parent, key).s + value.s))
    ensures Put(Append(parent, key, value), [key], AppendTarget(parent, key)) == parent
  {
    var t := AppendTarget(parent, key);
    var r := Append(parent, key, value);
    assert Put(r, [key], t) == SetChild(r, key, Put(Str(t.s + value.s), [], t));
    if parent.Arr? {
      assert parent.elems[Decimal(key) := Str(t.s + value.s)][Decimal(key) := t] == parent.elems;
    } else {
      assert parent.fields[key := Str(t.s + value.s)][key := t] == parent.fields;
    }
  }

  /**
   * Appending text twice is appending the two texts at once: a streamed
   * string grows token by token into the concatenation of its tokens.
   */
  lemma {:induction false} AppendTextTwice(parent: Json, key: string, a: string, b: string)
    requires AppendTarget(parent, key).Str?
    ensures Append(Append(parent, key, Str(a)), key, Str(b)) == Append(parent, key, Str(a + b))
  {
    var t := AppendTarget(parent, key);
    var once := Append(parent, key, Str(a));
    assert AppendTarget(once, key) == Str(t.s + a);
    assert t.s + a + b == t.s + (a + b);
    if parent.Arr? {
      var i := Decimal(key);
      assert parent.elems[i := Str(t.s + a)][i := Str(t.s + a + b)] == parent.elems[i := Str(t.s + (a + b))];
    } else {
      assert parent.fields[key := Str(t.s + a)][key := Str(t.s + a + b)] == parent.fields[key := Str(t.s + (a + b))];
    }
  }

  /** Anything appended to an existing list (unless text onto text) becomes its new last element. */
  lemma AppendToList(parent: Json, key: string, value: Json)
    requires AppendTarget(parent, key).Arr?
    ensures Child(Append(parent, key, value), key) == Some(Arr(AppendTarget(parent, key).elems + [value]))
    ensures Put(Append(parent, key, value), [key], AppendTarget(parent, key)) == parent
  {
    var t := AppendTarget(parent, key);
    var r := Append(parent, key, value);
    assert Put(r, [key], t) == SetChild(r, key, Put(Arr(t.elems + [value]), [], t));
    if parent.Arr? {
      assert parent.elems[Decimal(key) := Arr(t.elems + [value])][Decimal(key) := t] == parent.elems;
    } else {
      assert parent.fields[key := Arr(t.elems + [value])][key := t] == parent.fields;
    }
  }

  /**
   * A dict appended into a dict parent, when neither earlier rule applies,
   * leaves the target a dict holding the old members (if it was a dict; a
   * string or other value there is discarded) overridden by the value's.
   */
  lemma AppendMergesDict(parent: Json, key: string, value: Json)
    requires parent.Obj? && value.Obj?
    requires !AppendTarget(parent, key).Arr?
    ensures var r := Append(parent, key, value); var prior := Lookup(parent.fields, key);
      r.Obj? && r.fields.Keys == parent.fields.Keys + {key} && r.fields[key].Obj?
      && r.fields[key].fields.Keys == (if prior.Obj? then prior.fields.Keys else {}) + value.fields.Keys
      && (forall k :: k in value.fields ==> r.fields[key].fields[k] == value.fields[k])
      && (prior.Obj? ==> forall k :: k in prior.fields && k !in value.fields ==> r.fields[key].fields[k] == prior.fields[k])
      && (forall k :: k in parent.fields && k != key ==> r.fields[k] == parent.fields[k])
  {
  }

  /** Every other `append` combination is a no-op: for instance a string onto an absent key creates nothing. */
  lemma AppendOtherwiseNoOp(parent: Json, key: string, value: Json)
    requires !(AppendTarget(parent, key).Str? && value.Str?)
    requires !AppendTarget(parent, key).Arr?
    requires !(value.Obj? && parent.Obj?)
    ensures Append(parent, key, value) == parent
  {
  }

  /**
   * The streaming pattern at a top-level key: `add` a text and then `append`
   * a token gives the same document as adding the joined text at once.
   * (`KeyPathOperatesOnRoot` connects the segment list `[k]` to the path `/k`.)
   */
  lemma AddThenAppendText(root: Json, k: string, a: string, b: string)
    requires root.Obj? && !IsDigits(k)
    ensures var added := ApplyAlong(root, [k], Str("add"), Str(a));
      var appended := ApplyAlong(added.doc, [k], Str("append"), Str(b));
      added.fault.None? && appended.fault.None?
      && appended.doc == ApplyAlong(root, [k], Str("add"), Str(a + b)).doc
      && Child(appended.doc, k) == Some(Str(a + b))
  {
    var added := Obj(root.fields[k := Str(a)]);
    OneSegmentOperatesOnParent(root, k, Str("add"), Str(a));
    OneSegmentOperatesOnParent(root, k, Str("add"), Str(a + b));
    OneSegmentOperatesOnParent(added, k, Str("append"), Str(b));
    assert AppendTarget(added, k) == Str(a);
    assert added.fields[k := Str(a + b)] == root.fields[k := Str(a + b)];
  }

  /** A path `/k` for a plain key `k` applies the operation with the root as the parent. */
  lemma KeyPathOperatesOnRoot(root: Json, k: string, kind: Json, value: Json)
    requires k != "" && '/' !in k && kind != Null
    ensures ApplyOp(root, Str("/" + k), kind, value) == ApplyAtParent(root, k, kind, value)
  {
    assert Join([k], '/') == k;
    ParseOfFormatted([k]);
    TextPathAppliesAlongItsSegments(root, "/" + k, kind, value);
    OneSegmentOperatesOnParent(root, k, kind, value);
  }

  /** A one-segment path needs no walk: the operation applies to the root as the parent. */
  lemma OneSegmentOperatesOnParent(root: Json, key: string, kind: Json, value: Json)
    ensures ApplyAlong(root, [key], kind, value) == ApplyAtParent(root, key, kind, value)
  {
    assert [key][..0] == [];
  }
}
