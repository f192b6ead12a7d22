/**
 * The envelope dispatcher of `sse_to_json_converter` (sse_converter.py): a
 * decoded `delta` payload is a batch `{"v": [op, ...]}`, a single operation
 * `{"p", "o", "v"}`, or a root `patch` whose `v` is a batch.
 */
module Envelope {
  import opened JsonValue
  import opened Applier

  /**
   * The operations of a batch applied in order, each element's `p`, `o` and
   * `v` read with `.get`. An element that is not a dict raises, and any raise
   * abandons the rest of the batch; what was done before it stays. The root
   * keeps its kind throughout.
   */
  function ApplyOps(doc: Json, ops: seq<Json>): (r: Outcome)
    ensures r.doc.Obj? == doc.Obj? && r.doc.Arr? == doc.Arr?
    ensures ops == [] ==> r == Outcome(doc, None)
    decreases |ops|
  {
    if ops == [] then Outcome(doc, None)
    else if !ops[0].Obj? then Outcome(doc, Some(NotAnObject))
    else
      var f := ops[0].fields;
      var first := ApplyOp(doc, Lookup(f, "p"), Lookup(f, "o"), Lookup(f, "v"));
      if first.fault.Some? then first else ApplyOps(first.doc, ops[1..])
  }

  /**
   * The envelope shapes, tested in this order: a list `v` with neither `p` nor
   * `o` is a batch; otherwise an `o` makes a single operation, except that
   * `o == "patch"` at `p == ""` applies its `v` as a batch when it is a list
   * (and does nothing otherwise); anything else does nothing. A payload that
   * is not a dict has no `.get` and raises. Every envelope keeps the root's
   * kind, so a dict root stays a dict.
   */
  function ApplyEnvelope(doc: Json, env: Json): (r: Outcome)
    ensures r.doc.Obj? == doc.Obj? && r.doc.Arr? == doc.Arr?
  {
    if !env.Obj? then Outcome(doc, Some(NotAnObject))
    else
      var f := env.fields;
      if Lookup(f, "v").Arr? && "p" !in f && "o" !in f then
        ApplyOps(doc, f["v"].elems)
      else if "o" in f then
        var p := Lookup(f, "p");
        var o := Lookup(f, "o");
        var v := Lookup(f, "v");
        if o == Str("patch") && p == Str("") then
          if v.Arr? then ApplyOps(doc, v.elems) else Outcome(doc, None)
        else
          ApplyOp(doc, p, o, v)
      else
        Outcome(doc, None)
  }

  /** The `for single_op in ...` loop: apply each operation until one raises. */
  method ApplyBatch(doc: Json, ops: seq<Json>) returns (out: Outcome)
    ensures out == ApplyOps(doc, ops)
  {
    var current := doc;
    var i := 0;
    while i < |ops|
      invariant 0 <= i <= |ops|
      invariant ApplyOps(doc, ops) == ApplyOps(current, ops[i..])
    {
      assert ops[i..][0] == ops[i] && ops[i..][1..] == ops[i + 1..];
      if !ops[i].Obj? {
        return Outcome(current, Some(NotAnObject));
      }
      var f := ops[i].fields;
      var r := ApplySingle(current, Lookup(f, "p"), Lookup(f, "o"), Lookup(f, "v"));
      if r.fault.Some? {
        return r;
      }
      current := r.doc;
      i := i + 1;
    }
    out := Outcome(current, None);
  }

  /** The `try` body for one decoded `delta` payload: pick the envelope shape and apply it. */
  method ApplyDelta(doc: Json, env: Json) returns (out: Outcome)
    ensures out == ApplyEnvelope(doc, env)
  {
    if !env.Obj? {
      return Outcome(doc, Some(NotAnObject));
    }
    var f := env.fields;
    if Lookup(f, "v").Arr? && "p" !in f && "o" !in f {
      out := ApplyBatch(doc, f["v"].elems);
    } else if "o" in f {
      var p, o, v := Lookup(f, "p"), Lookup(f, "o"), Lookup(f, "v");
      if o == Str("patch") && p == Str("") {
        if v.Arr? {
          out := ApplyBatch(doc, v.elems);
        } else {
          out := Outcome(doc, None);
        }
      } else {
        out := ApplySingle(doc, p, o, v);
      }
    } else {
      out := Outcome(doc, None);
    }
  }

  /**
   * A batch is its parts in sequence: running `a + b` is running `a` and,
   * unless that raised, running `b` on the result. So a raise abandons exactly
   * the operations after it.
   */
  lemma {:induction false} ApplyOpsOfConcat(doc: Json, a: seq<Json>, b: seq<Json>)
    ensures var x := ApplyOps(doc, a);
      ApplyOps(doc, a + b) == if x.fault.Some? then x else ApplyOps(x.doc, b)
    decreases |a|
  {
    if a != [] {
      assert (a + b)[0] == a[0] && (a + b)[1..] == a[1..] + b;
      if a[0].Obj? {
        var f := a[0].fields;
        var first := ApplyOp(doc, Lookup(f, "p"), Lookup(f, "o"), Lookup(f, "v"));
        if first.fault.None? {
          ApplyOpsOfConcat(first.doc, a[1..], b);
        }
      }
    } else {
      assert a + b == b;
    }
  }

  /** A root `patch` envelope has the effect of the batch envelope holding the same operations. */
  lemma RootPatchIsBatch(doc: Json, ops: seq<Json>)
    ensures ApplyEnvelope(doc, Obj(map["p" := Str(""), "o" := Str("patch"), "v" := Arr(ops)]))
         == ApplyEnvelope(doc, Obj(map["v" := Arr(ops)]))
  {
    var patch := map["p" := Str(""), "o" := Str("patch"), "v" := Arr(ops)];
    assert "p" in patch && "o" in patch && Lookup(patch, "v") == Arr(ops);
    assert Lookup(patch, "o") == Str("patch") && Lookup(patch, "p") == Str("");
  }

  /**
   * A single-operation envelope (one with `o`, other than the root `patch`)
   * has the effect of a batch holding just that operation.
   */
  lemma SingleIsOneElementBatch(doc: Json, env: Json)
    requires env.Obj? && "o" in env.fields
    requires !(Lookup(env.fields, "o") == Str("patch") && Lookup(env.fields, "p") == Str(""))
    ensures ApplyEnvelope(doc, env) == ApplyEnvelope(doc, Obj(map["v" := Arr([env])]))
  {
    var f := env.fields;
    var first := ApplyOp(doc, Lookup(f, "p"), Lookup(f, "o"), Lookup(f, "v"));
    assert ApplyOps(doc, [env]) == (if first.fault.Some? then first else ApplyOps(first.doc, []));
  }

  /** A dict with no `o` and no batch-shaped `v` is ignored. */
  lemma UnrecognisedEnvelopeIsIgnored(doc: Json, env: Json)
    requires env.Obj? && "o" !in env.fields
    requires !(Lookup(env.fields, "v").Arr? && "p" !in env.fields)
    ensures ApplyEnvelope(doc, env) == Outcome(doc, None)
  {
  }
}
