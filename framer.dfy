/**
 * The event framer of `sse_to_json_converter` (sse_converter.py): the text is
 * read line by line; `event:` names the current event, `data:` lines are
 * collected, and a blank line dispatches the collected event and resets.
 * Only `delta` events change the document, and a dispatched payload of
 * exactly `[DONE]` ends the stream.
 */
module Framer {
  import opened JsonValue
  import opened Text
  import opened Envelope

  /** The payload that ends the stream. */
  const Done: string := "[DONE]"

  /**
   * The converter's loop state: the document built so far, the current event
   * name (`""` standing for both `None` and an empty name, which the code
   * treats alike), the collected data lines, and the last dispatched payload,
   * which is kept across events.
   */
  datatype Frame = Frame(doc: Json, name: string, data: seq<string>, full: string)

  /** The state before the first line: an empty dict and no event. */
  const Start: Frame := Frame(Obj(map[]), "", [], "")

  /**
   * The effect of one dispatched event on the document. `delta_encoding` and
   * any other name leave it alone; a `delta` payload that does not decode is
   * ignored, and one that does is applied as an envelope, keeping whatever it
   * did before a raise.
   */
  function Dispatch(doc: Json, name: string, payload: string, decode: string -> Option<Json>): (r: Json)
    ensures r != doc ==> name == "delta" && decode(payload).Some?
    ensures doc.Obj? ==> r.Obj?
  {
    if name == "delta" then
      match decode(payload)
      case None => doc
      case Some(env) => ApplyEnvelope(doc, env).doc
    else doc
  }

  /**
   * One line of the stream, after `strip()`: the next state and whether the
   * loop breaks. A blank line dispatches only when there is a name and at
   * least one data line, then always resets name and data; it breaks when the
   * last dispatched payload is `[DONE]`. The value of an `event:` or `data:`
   * line is what follows the first colon, stripped. Other lines are ignored.
   * Only a blank line can change the document or break the loop, and the loop
   * breaks only with `[DONE]` as the remembered payload.
   */
  function Step(st: Frame, raw: string, decode: string -> Option<Json>): (r: (Frame, bool))
    ensures Strip(raw) != "" ==> !r.1 && r.0.doc == st.doc && r.0.full == st.full
    ensures r.1 ==> r.0.full == Done
    ensures st.doc.Obj? ==> r.0.doc.Obj?
  {
    var line := Strip(raw);
    if line == "" then
      if st.name != "" && st.data != [] then
        var payload := Concat(st.data);
        (Frame(Dispatch(st.doc, st.name, payload, decode), "", [], payload), payload == Done)
      else
        (Frame(st.doc, "", [], st.full), st.full == Done)
    else if StartsWith(line, "event:") then
      (st.(name := Strip(line[6..])), false)
    else if StartsWith(line, "data:") then
      (st.(data := st.data + [Strip(line[5..])]), false)
    else
      (st, false)
  }

  /**
   * The lines fed one at a time: the final state and whether the loop broke,
   * which it does only with `[DONE]` as the remembered payload. A dict
   * document stays a dict.
   */
  function Feed(st: Frame, lines: seq<string>, decode: string -> Option<Json>): (r: (Frame, bool))
    ensures r.1 ==> r.0.full == Done
    ensures st.doc.Obj? ==> r.0.doc.Obj?
    decreases |lines|
  {
    if lines == [] then (st, false)
    else
      var (next, stop) := Step(st, lines[0], decode);
      if stop then (next, true) else Feed(next, lines[1..], decode)
  }

  /** `sse_to_json_converter`: the document after feeding every line of the text, always a dict. */
  function Converted(text: string, decode: string -> Option<Json>): (doc: Json)
    ensures doc.Obj?
  {
    Feed(Start, SplitLines(text), decode).0.doc
  }

  /** The converter's loop over `splitlines()`, with `json.loads` given as `decode`. */
  method Convert(text: string, decode: string -> Option<Json>) returns (doc: Json)
    ensures doc == Converted(text, decode)
    ensures doc.Obj?
  {
    var lines := SplitLines(text);
    doc := Obj(map[]);
    var name: string := "";
    var data: seq<string> := [];
    var full: string := "";
    var i := 0;
    while i < |lines|
      invariant 0 <= i <= |lines|
      invariant full != Done && doc.Obj?
      invariant Converted(text, decode) == Feed(Frame(doc, name, data, full), lines[i..], decode).0.doc
    {
      ghost var before := Frame(doc, name, data, full);
      ghost var step := Step(before, lines[i], decode);
      assert lines[i..][0] == lines[i] && lines[i..][1..] == lines[i + 1..];
      assert Feed(before, lines[i..], decode) == if step.1 then step else Feed(step.0, lines[i + 1..], decode);
      var line := Strip(lines[i]);
      if line == "" {
        if name != "" && data != [] {
          full := Concat(data);
          if name == "delta_encoding" {
          } else if name == "delta" {
            var env := decode(full);
            if env.Some? {
              var r := ApplyDelta(doc, env.value);
              doc := r.doc;
            }
          } else if full == Done {
            assert step.1 && step.0.doc == doc;
            break;
          }
        }
        name := "";
        data := [];
        if full == Done {
          assert step.1 && step.0.doc == doc;
          break;
        }
      } else if StartsWith(line, "event:") {
        name := Strip(line[6..]);
      } else if StartsWith(line, "data:") {
        data := data + [Strip(line[5..])];
      }
      assert !step.1 && step.0 == Frame(doc, name, data, full);
      i := i + 1;
    }
  }

  /**
   * The loop breaks on a line exactly when that line is blank and dispatches a
   * payload equal to `[DONE]`; otherwise the remembered payload is still not
   * `[DONE]`. In particular a `[DONE]` payload without an event name is never
   * dispatched and does not stop the stream.
   */
  lemma StopsExactlyOnDispatchedDone(st: Frame, raw: string, decode: string -> Option<Json>)
    requires st.full != Done
    ensures var (next, stop) := Step(st, raw, decode);
      (stop <==> Strip(raw) == "" && st.name != "" && st.data != [] && Concat(st.data) == Done)
      && (!stop ==> next.full != Done)
  {
  }

  /** Feeding `a + b` is feeding `a` and then, unless the loop broke, `b`. */
  lemma {:induction false} FeedOfConcat(st: Frame, a: seq<string>, b: seq<string>, decode: string -> Option<Json>)
    ensures var (mid, stop) := Feed(st, a, decode);
      Feed(st, a + b, decode) == if stop then (mid, true) else Feed(mid, b, decode)
    decreases |a|
  {
    if a == [] {
      assert a + b == b;
    } else {
      assert (a + b)[0] == a[0] && (a + b)[1..] == a[1..] + b;
      var (next, stop) := Step(st, a[0], decode);
      if !stop {
        FeedOfConcat(next, a[1..], b, decode);
      }
    }
  }

  /** Feeding a line and then more lines. */
  lemma FeedOfCons(st: Frame, line: string, rest: seq<string>, decode: string -> Option<Json>)
    ensures var (next, stop) := Step(st, line, decode);
      Feed(st, [line] + rest, decode) == if stop then (next, true) else Feed(next, rest, decode)
  {
    assert ([line] + rest)[0] == line && ([line] + rest)[1..] == rest;
  }

  /** A blank line dispatches, or not, and resets. */
  lemma BlankLineStep(st: Frame, decode: string -> Option<Json>)
    ensures Step(st, "", decode) ==
      if st.name != "" && st.data != [] then
        (Frame(Dispatch(st.doc, st.name, Concat(st.data), decode), "", [], Concat(st.data)), Concat(st.data) == Done)
      else
        (Frame(st.doc, "", [], st.full), st.full == Done)
  {
    assert Strip("") == "";
  }

  /** Lines none of which is blank never break the loop and never change the document. */
  lemma {:induction false} WithoutBlankLineNothingIsApplied(st: Frame, lines: seq<string>, decode: string -> Option<Json>)
    requires forall k :: 0 <= k < |lines| ==> Strip(lines[k]) != ""
    ensures Feed(st, lines, decode).0.doc == st.doc && !Feed(st, lines, decode).1
    decreases |lines|
  {
    if lines != [] {
      var (next, stop) := Step(st, lines[0], decode);
      assert !stop && next.doc == st.doc;
      WithoutBlankLineNothingIsApplied(next, lines[1..], decode);
    }
  }

  /** An event still open when the text ends (no blank line after it) is never applied. */
  lemma TrailingEventIsNeverApplied(st: Frame, lines: seq<string>, tail: seq<string>, decode: string -> Option<Json>)
    requires forall k :: 0 <= k < |tail| ==> Strip(tail[k]) != ""
    ensures Feed(st, lines + tail, decode).0.doc == Feed(st, lines, decode).0.doc
  {
    FeedOfConcat(st, lines, tail, decode);
    var (mid, stop) := Feed(st, lines, decode);
    if !stop {
      WithoutBlankLineNothingIsApplied(mid, tail, decode);
    }
  }

  /** A string that `strip()` leaves as it is. */
  predicate Clean(s: string)
  {
    s != "" && s[0] !in Whitespace && s[|s| - 1] !in Whitespace
  }

  /** Every string of `ds` is clean. */
  predicate AllClean(ds: seq<string>)
  {
    ds == [] || (Clean(ds[0]) && AllClean(ds[1..]))
  }

  lemma StripOfClean(s: string)
    requires Clean(s)
    ensures Strip(s) == s
  {
    assert s[0..|s|] == s;
    TrimIsInfix(s, Whitespace, 0, |s|);
  }

  lemma StripOfSpaced(s: string)
    requires Clean(s)
    ensures Strip(" " + s) == s
  {
    var x := " " + s;
    assert x[1..|x|] == s;
    assert x[1] == s[0] && x[|x| - 1] == s[|s| - 1];
    TrimIsInfix(x, Whitespace, 1, |x|);
  }

  /** The lines `data: d` for each `d` of `ds`. */
  function DataLines(ds: seq<string>): (lines: seq<string>)
    ensures |lines| == |ds|
  {
    if ds == [] then [] else ["data: " + ds[0]] + DataLines(ds[1..])
  }

  /** The lines of one event as a server writes it: its name, its data lines and a blank line. */
  function EventLines(name: string, ds: seq<string>): (lines: seq<string>)
  {
    ["event: " + name] + DataLines(ds) + [""]
  }

  /** The line `event: n` sets the event name to `n`. */
  lemma EventLineSetsName(st: Frame, n: string, decode: string -> Option<Json>)
    requires Clean(n)
    ensures Step(st, "event: " + n, decode) == (st.(name := n), false)
  {
    var line := "event: " + n;
    assert Clean(line) by { assert line[|line| - 1] == n[|n| - 1]; }
    StripOfClean(line);
    assert StartsWith(line, "event:");
    assert line[6..] == " " + n by {
      assert forall k :: 0 <= k < |line| - 6 ==> line[6 + k] == (" " + n)[k];
    }
    StripOfSpaced(n);
  }

  /** The line `data: d` appends `d` to the collected data. */
  lemma DataLineAppends(st: Frame, d: string, decode: string -> Option<Json>)
    requires Clean(d)
    ensures Step(st, "data: " + d, decode) == (st.(data := st.data + [d]), false)
  {
    var line := "data: " + d;
    assert Clean(line) by { assert line[|line| - 1] == d[|d| - 1]; }
    StripOfClean(line);
    assert !StartsWith(line, "event:") by { assert line[0] != "event:"[0]; }
    assert StartsWith(line, "data:");
    assert line[5..] == " " + d by {
      assert forall k :: 0 <= k < |line| - 5 ==> line[5 + k] == (" " + d)[k];
    }
    StripOfSpaced(d);
  }

  lemma FirstDataLine(st: Frame, ds: seq<string>, decode: string -> Option<Json>)
    requires ds != [] && Clean(ds[0])
    ensures Feed(st, DataLines(ds), decode) == Feed(st.(data := st.data + [ds[0]]), DataLines(ds[1..]), decode)
  {
    assert DataLines(ds) == ["data: " + ds[0]] + DataLines(ds[1..]);
    FeedOfCons(st, "data: " + ds[0], DataLines(ds[1..]), decode);
    DataLineAppends(st, ds[0], decode);
  }

  /** Appending the first element and then the rest is appending the whole. */
  lemma ConsAppend(a: seq<string>, ds: seq<string>)
    requires ds != []
    ensures (a + [ds[0]]) + ds[1..] == a + ds
  {
    assert [ds[0]] + ds[1..] == ds;
  }

  /** Data lines are collected in order, without breaking the loop. */
  lemma {:induction false} DataLinesAccumulate(st: Frame, ds: seq<string>, decode: string -> Option<Json>)
    requires AllClean(ds)
    ensures Feed(st, DataLines(ds), decode) == (st.(data := st.data + ds), false)
    decreases |ds|
  {
    if ds != [] {
      var next := st.(data := st.data + [ds[0]]);
      FirstDataLine(st, ds, decode);
      DataLinesAccumulate(next, ds[1..], decode);
      ConsAppend(st.data, ds);
    } else {
      assert st.data + ds == st.data;
    }
  }

  /**
   * A whole event `event: n`, `data: d1`, ..., `data: dk`, blank line: the
   * dispatched payload is the collected data (anything left over from lines
   * before it, then `d1 ... dk`) joined with no separator; the name and data
   * are reset; and the rest of the stream is read only when that payload is
   * not `[DONE]`.
   */
  lemma EventIsDispatchedAtBlankLine(st: Frame, n: string, ds: seq<string>, rest: seq<string>, decode: string -> Option<Json>)
    requires Clean(n) && ds != []
    requires AllClean(ds)
    ensures var payload := Concat(st.data + ds);
      var next := Frame(Dispatch(st.doc, n, payload, decode), "", [], payload);
      Feed(st, EventLines(n, ds) + rest, decode) == if payload == Done then (next, true) else Feed(next, rest, decode)
  {
    var first := "event: " + n;
    var named := st.(name := n);
    var collected := named.(data := st.data + ds);
    assert EventLines(n, ds) + rest == [first] + (DataLines(ds) + ([""] + rest));
    EventLineSetsName(st, n, decode);
    FeedOfCons(st, first, DataLines(ds) + ([""] + rest), decode);
    DataLinesAccumulate(named, ds, decode);
    FeedOfConcat(named, DataLines(ds), [""] + rest, decode);
    FeedOfCons(collected, "", rest, decode);
    BlankLineStep(collected, decode);
  }

  /**
   * A `[DONE]` event ends the stream: whatever follows it is never read, and
   * the document is what the event itself left (unchanged, unless it is a
   * `delta` that decodes).
   */
  lemma DoneEndsTheStream(st: Frame, n: string, rest: seq<string>, decode: string -> Option<Json>)
    requires Clean(n) && st.data == []
    ensures Feed(st, EventLines(n, [Done]) + rest, decode) == (Frame(Dispatch(st.doc, n, Done, decode), "", [], Done), true)
    ensures n != "delta" ==> Feed(st, EventLines(n, [Done]) + rest, decode).0.doc == st.doc
  {
    assert Concat(st.data + [Done]) == Done;
    EventIsDispatchedAtBlankLine(st, n, [Done], rest, decode);
  }

  /** A bare `data: [DONE]` with no event name is dropped at the blank line and the stream goes on. */
  lemma BareDoneIsIgnored(st: Frame, rest: seq<string>, decode: string -> Option<Json>)
    requires st.name == "" && st.full != Done
    ensures Feed(st, DataLines([Done]) + [""] + rest, decode) == Feed(Frame(st.doc, "", [], st.full), rest, decode)
  {
    var collected := st.(data := st.data + [Done]);
    assert AllClean([Done]) by { assert Clean(Done); }
    assert DataLines([Done]) + [""] + rest == DataLines([Done]) + ([""] + rest);
    DataLinesAccumulate(st, [Done], decode);
    FeedOfConcat(st, DataLines([Done]), [""] + rest, decode);
    FeedOfCons(collected, "", rest, decode);
    BlankLineStep(collected, decode);
  }
}
