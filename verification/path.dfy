/**
 * Paths as the edge functions read them: `pathname.split("/").filter(Boolean)`
 * and `indexOf` over the resulting segments, with the facts that recover the
 * segments of a path written from plain segments.
 */
module RoutePath {
  import opened JsText

  /** `split("/").filter(Boolean)`: the non-empty pieces, in order. */
  function Segments(pieces: seq<string>): (r: seq<string>)
    ensures forall i :: 0 <= i < |r| ==> r[i] != []
    ensures forall s :: s in r <==> s in pieces && s != []
  {
    if pieces == [] then []
    else (if pieces[0] != [] then [pieces[0]] else []) + Segments(pieces[1..])
  }

  /** `parts.indexOf(name)`. */
  function SegmentIndex(parts: seq<string>, name: string): (r: int)
    ensures r >= -1
    ensures r == -1 <==> name !in parts
    ensures r >= 0 ==> r < |parts| && parts[r] == name && name !in parts[..r]
  {
    if parts == [] then -1
    else if parts[0] == name then 0
    else
      var k := SegmentIndex(parts[1..], name);
      if k == -1 then -1
      else
        assert parts[..k + 1] == [parts[0]] + parts[1..][..k];
        k + 1
  }

  lemma {:induction false} SegmentIndexAt(parts: seq<string>, name: string, k: nat)
    requires k < |parts| && parts[k] == name && name !in parts[..k]
    ensures SegmentIndex(parts, name) == k
  {
    if k > 0 {
      assert parts[..k][0] == parts[0];
      assert parts[1..][..k - 1] == parts[..k][1..];
      SegmentIndexAt(parts[1..], name, k - 1);
    }
  }

  /** The path `/s1/s2/…/sn`. */
  function PathOf(segs: seq<string>): string
  {
    "/" + Join(segs, "/")
  }

  predicate PlainSegments(segs: seq<string>)
  {
    forall i :: 0 <= i < |segs| ==> segs[i] != [] && '/' !in segs[i]
  }

  /** Splitting a join on a separator the parts do not contain gives the parts back. */
  lemma {:induction false} SplitJoin(segs: seq<string>)
    requires segs != [] && PlainSegments(segs)
    ensures Split(Join(segs, "/"), '/') == segs
  {
    if |segs| == 1 {
      SplitNone(segs[0], '/');
    } else {
      SplitJoin(segs[1..]);
      SplitConcat(segs[0], '/', Join(segs[1..], "/"));
      assert Join(segs, "/") == segs[0] + ['/'] + Join(segs[1..], "/");
      assert segs == [segs[0]] + segs[1..];
    }
  }

  lemma {:induction false} SegmentsKeepPlain(segs: seq<string>)
    requires PlainSegments(segs)
    ensures Segments(segs) == segs
  {
    if segs != [] {
      SegmentsKeepPlain(segs[1..]);
      assert segs == [segs[0]] + segs[1..];
    }
  }

  /** The pieces of a path written from plain segments are those segments. */
  lemma PathSegments(segs: seq<string>)
    requires segs != [] && PlainSegments(segs)
    ensures Segments(Split(PathOf(segs), '/')) == segs
  {
    SplitJoin(segs);
    SplitConcat("", '/', Join(segs, "/"));
    assert PathOf(segs) == "" + ['/'] + Join(segs, "/");
    SegmentsKeepPlain(segs);
    assert Segments([""] + segs) == Segments(segs);
  }

  lemma PlainJoined(prefix: seq<string>, name: string, rest: seq<string>)
    requires PlainSegments(prefix) && PlainSegments(rest) && PlainSegments([name])
    ensures PlainSegments(prefix + [name] + rest)
  {
    var segs := prefix + [name] + rest;
    forall i | 0 <= i < |segs|
      ensures segs[i] != [] && '/' !in segs[i]
    {
      if i < |prefix| { assert segs[i] == prefix[i]; }
      else if i > |prefix| { assert segs[i] == rest[i - |prefix| - 1]; }
      else { assert segs[i] == [name][0]; }
    }
  }
}
