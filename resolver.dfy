/**
 * The get-or-create parent walk (sse_converter.py, `_ensure_and_get_parent`).
 *
 * Python walks a mutable tree and hands back an aliased reference to the parent
 * container. Here the document is a value: a position in it is a handle (the
 * list of segments leading there), `Get` reads the node at a handle and `Put`
 * writes a node back at a handle, which is what an in-place update through an
 * alias amounts to.
 */
module Resolver {
  import opened JsonValue
  import opened Text

  /** The node one segment below `node`: a list element at an in-range digit segment, or a dict member. */
  function Child(node: Json, seg: string): (r: Option<Json>)
  {
    if node.Arr? && IsDigits(seg) && Decimal(seg) < |node.elems| then Some(node.elems[Decimal(seg)])
    else if node.Obj? && seg in node.fields then Some(node.fields[seg])
    else None
  }

  /** `node[seg] = v` for a slot that exists. */
  function SetChild(node: Json, seg: string, v: Json): (r: Json)
    requires Child(node, seg).Some?
    ensures Child(r, seg) == Some(v)
    ensures r.Arr? == node.Arr? && r.Obj? == node.Obj?
  {
    if node.Arr? then Arr(node.elems[Decimal(seg) := v]) else Obj(node.fields[seg := v])
  }

  /** The node at handle `h`, if the path exists. */
  function Get(node: Json, h: seq<string>): (r: Option<Json>)
    decreases |h|
  {
    if h == [] then Some(node)
    else match Child(node, h[0])
      case None => None
      case Some(c) => Get(c, h[1..])
  }

  /** `node` with the node at handle `h` replaced by `v`; unchanged when the path does not exist. */
  function Put(node: Json, h: seq<string>, v: Json): (r: Json)
    decreases |h|
  {
    if h == [] then v
    else match Child(node, h[0])
      case None => node
      case Some(c) => SetChild(node, h[0], Put(c, h[1..], v))
  }

  /** After writing `v` at an existing handle, reading that handle gives `v`. */
  lemma {:induction false} GetOfPut(node: Json, h: seq<string>, v: Json)
    requires Get(node, h).Some?
    ensures Get(Put(node, h, v), h) == Some(v)
    decreases |h|
  {
    if h != [] {
      var c := Child(node, h[0]).value;
      GetOfPut(c, h[1..], v);
    }
  }

  /** Writing back the node already at a handle changes nothing. */
  lemma {:induction false} PutOfGet(node: Json, h: seq<string>)
    requires Get(node, h).Some?
    ensures Put(node, h, Get(node, h).value) == node
    decreases |h|
  {
    if h != [] {
      var c := Child(node, h[0]).value;
      PutOfGet(c, h[1..]);
      if node.Arr? {
        assert node.elems[Decimal(h[0]) := c] == node.elems;
      } else {
        assert node.fields[h[0] := c] == node.fields;
      }
    }
  }

  /** A second write at the same handle overrides the first. */
  lemma {:induction false} PutOfPut(node: Json, h: seq<string>, a: Json, b: Json)
    requires Get(node, h).Some?
    ensures Put(Put(node, h, a), h, b) == Put(node, h, b)
    decreases |h|
  {
    if h != [] {
      var c := Child(node, h[0]).value;
      PutOfPut(c, h[1..], a, b);
      if node.Arr? {
        assert node.elems[Decimal(h[0]) := Put(c, h[1..], a)][Decimal(h[0]) := Put(c, h[1..], b)]
          == node.elems[Decimal(h[0]) := Put(c, h[1..], b)];
      }
    }
  }

  /**
   * Writing `next` at `h` and then descending one segment further reads the
   * child of `next`, and writing below it is one write of the updated `next`.
   */
  lemma {:induction false} PutThenDescend(node: Json, h: seq<string>, next: Json, seg: string, x: Json)
    requires Get(node, h).Some? && Child(next, seg).Some?
    ensures Get(Put(node, h, next), h + [seg]) == Child(next, seg)
    ensures Put(Put(node, h, next), h + [seg], x) == Put(node, h, SetChild(next, seg, x))
    decreases |h|
  {
    if h == [] {
      assert [seg][1..] == [];
    } else {
      var c := Child(node, h[0]).value;
      assert (h + [seg])[0] == h[0] && (h + [seg])[1..] == h[1..] + [seg];
      PutThenDescend(c, h[1..], next, seg, x);
      var d := Put(node, h, next);
      assert Child(d, h[0]) == Some(Put(c, h[1..], next));
      if node.Arr? {
        var i := Decimal(h[0]);
        assert node.elems[i := Put(c, h[1..], next)][i := Put(Put(c, h[1..], next), h[1..] + [seg], x)]
          == node.elems[i := Put(c, h[1..], SetChild(next, seg, x))];
      }
    }
  }

  /** Writing below the root keeps the root's kind. */
  lemma PutKeepsKind(node: Json, h: seq<string>, v: Json)
    ensures h != [] ==> Put(node, h, v).Arr? == node.Arr? && Put(node, h, v).Obj? == node.Obj?
  {
  }

  /** `while len(current) <= idx: current.append(None)`: pad with nulls until `idx` is in range. */
  function Pad(s: seq<Json>, idx: nat): (r: seq<Json>)
    ensures |r| == if |s| > idx then |s| else idx + 1
    ensures r[..|s|] == s
    ensures forall k :: |s| <= k < |r| ==> r[k] == Null
  {
    if |s| > idx then s else s + seq(idx + 1 - |s|, _ => Null)
  }

  /**
   * `_ensure_and_get_parent` as a function on values: the tree after the walk
   * along all segments but the last, and the fault it raised. At each step
   * the next segment decides the kind of the child (a list when it is all
   * digits, a dict otherwise); a missing child or one of another kind is
   * replaced by an empty container of that kind. A step at a digit segment
   * needs a list and pads it; a step at a key needs a dict.
   */
  function Walk(cur: Json, parts: seq<string>): (w: Outcome)
    requires |parts| >= 1
    ensures w.fault.None? ==> Get(w.doc, parts[..|parts| - 1]).Some?
    ensures w.fault.None? && |parts| >= 2 ==>
      Fits(Get(w.doc, parts[..|parts| - 1]).value, IsDigits(parts[|parts| - 1]))
    ensures w.doc.Arr? == cur.Arr? && w.doc.Obj? == cur.Obj?
    decreases |parts|
  {
    if |parts| == 1 then Outcome(cur, None)
    else
      var seg := parts[0];
      var rest := parts[1..];
      assert parts[..|parts| - 1] == [seg] + rest[..|rest| - 1];
      if IsDigits(seg) then
        if !cur.Arr? then Outcome(cur, Some(StructureMismatch))
        else
          var idx := Decimal(seg);
          var sub := Walk(WalkChild(cur, parts), rest);
          Outcome(Arr(Pad(cur.elems, idx)[idx := sub.doc]), sub.fault)
      else
        if !cur.Obj? then Outcome(cur, Some(StructureMismatch))
        else
          var sub := Walk(WalkChild(cur, parts), rest);
          Outcome(Obj(cur.fields[seg := sub.doc]), sub.fault)
  }

  /**
   * The walk raises exactly when its first step meets the wrong container
   * (a digit segment against a non-list, a key against a non-dict): every
   * later step enters a container the lookahead has just made fit. A raise
   * leaves the tree untouched.
   */
  lemma {:induction false} WalkFaultsOnlyAtFirstStep(cur: Json, parts: seq<string>)
    requires |parts| >= 1
    ensures Walk(cur, parts).fault.Some? <==> |parts| >= 2 && !Fits(cur, IsDigits(parts[0]))
    ensures Walk(cur, parts).fault.Some? ==>
      Walk(cur, parts) == Outcome(cur, Some(StructureMismatch))
    decreases |parts|
  {
    if |parts| >= 2 && Fits(cur, IsDigits(parts[0])) {
      var child := WalkChild(cur, parts);
      WalkFaultsOnlyAtFirstStep(child, parts[1..]);
    }
  }

  /** The child the first step of the walk descends into, when that step does not raise. */
  function WalkChild(cur: Json, parts: seq<string>): (c: Json)
    requires |parts| >= 2 && Fits(cur, IsDigits(parts[0]))
    ensures Fits(c, IsDigits(parts[1]))
  {
    var wantList := IsDigits(parts[1]);
    if IsDigits(parts[0]) then
      var padded := Pad(cur.elems, Decimal(parts[0]));
      if Fits(padded[Decimal(parts[0])], wantList) then padded[Decimal(parts[0])] else EmptyContainer(wantList)
    else
      if parts[0] in cur.fields && Fits(cur.fields[parts[0]], wantList) then cur.fields[parts[0]]
      else EmptyContainer(wantList)
  }

  /** With the dict root the converter uses, the walk raises exactly on a leading digit segment. */
  lemma WalkOnObjectRoot(root: Json, parts: seq<string>)
    requires root.Obj? && |parts| >= 1
    ensures Walk(root, parts).fault.Some? <==> |parts| >= 2 && IsDigits(parts[0])
    ensures Walk(root, parts).doc.Obj?
  {
    WalkFaultsOnlyAtFirstStep(root, parts);
  }

  /**
   * One step of the walk: an existing child of the kind the next segment asks
   * for is kept and walked into; a missing child, or one of the other kind or
   * a scalar or null, is replaced by an empty container of that kind. Every
   * other member of a dict is kept; a list keeps its other elements and grows
   * by nulls just far enough to hold the index.
   */
  lemma WalkFirstStep(cur: Json, parts: seq<string>)
    requires |parts| >= 2 && Fits(cur, IsDigits(parts[0]))
    ensures var w := Walk(cur, parts);
      Child(w.doc, parts[0]) == Some(Walk(WalkChild(cur, parts), parts[1..]).doc)
    ensures var w := Walk(cur, parts); var c := Child(cur, parts[0]);
      WalkChild(cur, parts) == (if c.Some? && Fits(c.value, IsDigits(parts[1])) then c.value
                                else EmptyContainer(IsDigits(parts[1])))
    ensures var w := Walk(cur, parts);
      cur.Obj? ==> w.doc.fields.Keys == cur.fields.Keys + {parts[0]}
                   && forall k :: k in cur.fields && k != parts[0] ==> w.doc.fields[k] == cur.fields[k]
    ensures var w := Walk(cur, parts);
      cur.Arr? ==> var idx := Decimal(parts[0]);
                   |w.doc.elems| == (if |cur.elems| > idx then |cur.elems| else idx + 1)
                   && (forall k :: 0 <= k < |cur.elems| && k != idx ==> w.doc.elems[k] == cur.elems[k])
                   && (forall k :: |cur.elems| <= k < |w.doc.elems| && k != idx ==> w.doc.elems[k] == Null)
  {
  }

  /** Walking a second time along the same path changes nothing: the path now exists with the right kinds. */
  lemma {:induction false} WalkIsIdempotent(cur: Json, parts: seq<string>)
    requires |parts| >= 1
    ensures Walk(Walk(cur, parts).doc, parts) == Walk(cur, parts)
    decreases |parts|
  {
    WalkFaultsOnlyAtFirstStep(cur, parts);
    if |parts| >= 2 && Fits(cur, IsDigits(parts[0])) {
      var w := Walk(cur, parts);
      var child := WalkChild(cur, parts);
      var sub := Walk(child, parts[1..]);
      WalkIsIdempotent(child, parts[1..]);
      WalkFaultsOnlyAtFirstStep(w.doc, parts);
      assert WalkChild(w.doc, parts) == sub.doc;
      if IsDigits(parts[0]) {
        var idx := Decimal(parts[0]);
        assert Pad(w.doc.elems, idx) == w.doc.elems;
        assert w.doc.elems[idx := sub.doc] == w.doc.elems;
      } else {
        assert w.doc.fields[parts[0] := sub.doc] == w.doc.fields;
      }
    }
  }

  /** Put a sub-walk's result back at handle `h` of `doc`. */
  function Graft(doc: Json, h: seq<string>, o: Outcome): (r: Outcome)
  {
    Outcome(Put(doc, h, o.doc), o.fault)
  }

  /** The `while len(current) <= idx: current.append(None)` loop. */
  method PadWithNulls(s: seq<Json>, idx: nat) returns (elems: seq<Json>)
    ensures elems == Pad(s, idx)
  {
    elems := s;
    while |elems| <= idx
      invariant |s| <= |elems|
      invariant elems[..|s|] == s
      invariant forall k :: |s| <= k < |elems| ==> elems[k] == Null
      invariant |elems| > |s| ==> |elems| <= idx + 1
      decreases idx + 1 - |elems|
    {
      elems := elems + [Null];
    }
  }

  /**
   * One step of the walk, in place: check the container kind the segment
   * needs, pad a list up to the index, and make the child at the segment fit
   * the kind the next segment asks for. `ok` is false where the code raises.
   */
  method StepInto(current: Json, parts: seq<string>) returns (next: Json, ok: bool)
    requires |parts| >= 2
    ensures ok == Fits(current, IsDigits(parts[0]))
    ensures ok ==> Child(next, parts[0]) == Some(WalkChild(current, parts))
    ensures ok ==> var sub := Walk(WalkChild(current, parts), parts[1..]);
      Walk(current, parts) == Outcome(SetChild(next, parts[0], sub.doc), sub.fault)
  {
    var seg := parts[0];
    var wantList := IsDigits(parts[1]);
    next := current;
    if IsDigits(seg) {
      if !current.Arr? {
        return current, false;
      }
      var idx := Decimal(seg);
      var elems := PadWithNulls(current.elems, idx);
      if !Fits(elems[idx], wantList) {
        elems := elems[idx := EmptyContainer(wantList)];
      }
      next := Arr(elems);
    } else {
      if !current.Obj? {
        return current, false;
      }
      var fields := current.fields;
      if seg !in fields || !Fits(fields[seg], wantList) {
        fields := fields[seg := EmptyContainer(wantList)];
      }
      next := Obj(fields);
    }
    ok := true;
  }

  /**
   * `_ensure_and_get_parent` as the loop it is: `current` is the handle
   * `parts[..i]` into `doc`; each step pads or replaces the child in place and
   * descends. Returns the tree after the walk and the fault raised, if any;
   * when there is none, the parent of the target exists at `parts[..|parts|-1]`.
   */
  method EnsureParent(root: Json, parts: seq<string>) returns (doc: Json, fault: Option<Fault>)
    requires |parts| >= 1
    ensures Outcome(doc, fault) == Walk(root, parts)
    ensures fault.None? ==> Get(doc, parts[..|parts| - 1]).Some?
  {
    doc := root;
    fault := None;
    var i := 0;
    while i < |parts| - 1
      invariant 0 <= i <= |parts| - 1
      invariant Get(doc, parts[..i]).Some?
      invariant Walk(root, parts) == Graft(doc, parts[..i], Walk(Get(doc, parts[..i]).value, parts[i..]))
    {
      var here := parts[..i];
      var seg := parts[i];
      assert parts[i..][0] == seg && parts[i..][1..] == parts[i + 1..];
      var next, ok := StepInto(Get(doc, here).value, parts[i..]);
      if !ok {
        fault := Some(StructureMismatch);
        WalkFaultsOnlyAtFirstStep(Get(doc, here).value, parts[i..]);
        PutOfGet(doc, here);
        return;
      }
      var sub := Walk(Child(next, seg).value, parts[i + 1..]);
      PutThenDescend(doc, here, next, seg, sub.doc);
      assert parts[..i + 1] == here + [seg];
      doc := Put(doc, here, next);
      i := i + 1;
    }
    assert |parts[i..]| == 1;
    PutOfGet(doc, parts[..i]);
  }
}
