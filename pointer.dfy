/**
 * Pointer parsing (sse_converter.py, `_parse_json_pointer`): a pointer string
 * becomes the list of its `/`-separated segments. There is no `~0`/`~1`
 * unescaping, so a key containing `/` cannot be addressed.
 */
module Pointer {
  import opened JsonValue
  import opened Text

  /**
   * `_parse_json_pointer`: the empty pointer is the root (no segments);
   * otherwise every leading and trailing `/` is stripped and the rest is split
   * on `/`, so a non-empty pointer always has at least one segment.
   */
  function ParsePointer(s: string): (parts: seq<string>)
    ensures s == "" <==> parts == []
    ensures s != "" ==> Join(parts, '/') == Trim(s, {'/'})
    ensures forall k :: 0 <= k < |parts| ==> '/' !in parts[k]
  {
    if s == "" then [] else Split(Trim(s, {'/'}), '/')
  }

  /**
   * The segments of the `p` member of an operation, which may be any JSON
   * value: a falsy value (`""`, `0`, `false`, `[]`, `{}`) addresses the root,
   * a string is parsed, and any other value has no `strip` method (None).
   */
  function PointerParts(p: Json): (r: Option<seq<string>>)
    ensures r.None? <==> Truthy(p) && !p.Str?
    ensures r == Some([]) <==> !Truthy(p)
  {
    if !Truthy(p) then Some([])
    else if p.Str? then Some(ParsePointer(p.s))
    else None
  }

  /** A run of `n` slashes. */
  function Slashes(n: nat): (r: string)
    ensures |r| == n && forall k :: 0 <= k < n ==> r[k] == '/'
  {
    if n == 0 then "" else "/" + Slashes(n - 1)
  }

  /**
   * However many slashes surround a pointer body that neither starts nor ends
   * with `/`, the segments are those of the body: `"a/b"`, `"/a/b"` and
   * `"//a/b/"` all parse alike.
   */
  lemma EverySurroundingSlashIsStripped(n: nat, body: string, m: nat)
    requires body != "" && body[0] != '/' && body[|body| - 1] != '/'
    ensures ParsePointer(Slashes(n) + body + Slashes(m)) == Split(body, '/')
  {
    var x := Slashes(n) + body + Slashes(m);
    var j := n + |body|;
    assert x[n..j] == body by {
      assert x == Slashes(n) + body + Slashes(m);
    }
    assert forall k :: 0 <= k < n ==> x[k] in {'/'} by {
      forall k | 0 <= k < n
        ensures x[k] in {'/'}
      {
        assert x[k] == Slashes(n)[k];
      }
    }
    assert forall k :: j <= k < |x| ==> x[k] in {'/'} by {
      forall k | j <= k < |x|
        ensures x[k] in {'/'}
      {
        assert x[k] == Slashes(m)[k - j];
      }
    }
    TrimIsInfix(x, {'/'}, n, j);
  }

  /** `"a/b"` and `"/a/b"` give the same segments. */
  lemma LeadingSlashIsOptional(body: string)
    requires body != "" && body[0] != '/' && body[|body| - 1] != '/'
    ensures ParsePointer("/" + body) == ParsePointer(body)
  {
    assert Slashes(0) == "";
    assert Slashes(1) == "/";
    assert Slashes(1) + body + Slashes(0) == "/" + body;
    assert Slashes(0) + body + Slashes(0) == body;
    EverySurroundingSlashIsStripped(1, body, 0);
    EverySurroundingSlashIsStripped(0, body, 0);
  }

  /** A pointer made only of slashes is one empty key, not the root. */
  lemma OnlySlashesIsOneEmptyKey(n: nat)
    requires n >= 1
    ensures ParsePointer(Slashes(n)) == [""]
  {
    var x := Slashes(n);
    TrimIsInfix(x, {'/'}, 0, 0);
    assert Split("", '/') == [""];
  }

  /**
   * Formatting segments as `/s1/s2/...` and parsing the result gives the
   * segments back, when none contains `/` and the first and last are non-empty.
   */
  lemma ParseOfFormatted(segs: seq<string>)
    requires |segs| >= 1 && segs[0] != "" && segs[|segs| - 1] != ""
    requires forall k :: 0 <= k < |segs| ==> '/' !in segs[k]
    ensures ParsePointer("/" + Join(segs, '/')) == segs
  {
    var body := Join(segs, '/');
    JoinEnds(segs);
    assert body[0] == segs[0][0] && body[0] != '/';
    assert Slashes(0) == "";
    assert Slashes(1) == "/";
    assert Slashes(1) + body + Slashes(0) == "/" + body;
    EverySurroundingSlashIsStripped(1, body, 0);
    SplitOfJoin(segs, '/');
  }

  /** The joined body starts with the first segment's first character and ends with the last's last. */
  lemma {:induction false} JoinEnds(segs: seq<string>)
    requires |segs| >= 1 && segs[0] != "" && segs[|segs| - 1] != ""
    ensures var j := Join(segs, '/');
      j != "" && j[0] == segs[0][0] && j[|j| - 1] == segs[|segs| - 1][|segs[|segs| - 1]| - 1]
  {
    if |segs| > 1 {
      JoinEndsLast(segs[1..]);
      assert Join(segs, '/') == segs[0] + ['/'] + Join(segs[1..], '/');
    }
  }

  lemma {:induction false} JoinEndsLast(segs: seq<string>)
    requires |segs| >= 1 && segs[|segs| - 1] != ""
    ensures var j := Join(segs, '/');
      j != "" && j[|j| - 1] == segs[|segs| - 1][|segs[|segs| - 1]| - 1]
  {
    if |segs| > 1 {
      JoinEndsLast(segs[1..]);
      assert Join(segs, '/') == segs[0] + ['/'] + Join(segs[1..], '/');
    }
  }
}
