/** Express's router: a route is a verb, a path pattern whose `:name`
    segments capture one non-empty path segment, and the chain of
    middlewares before its handler. A request goes to the FIRST registered
    route that matches, and Express decodes each captured segment with
    `decodeURIComponent`, answering 400 when that fails. */
module Routing {
  import opened Wrappers
  import UriCoding

  datatype Verb = GET | POST | PATCH | DELETE

  datatype Segment = Lit(text: string) | Param(name: string)

  /** The middlewares a route chain can hold before its handler. */
  datatype Stage = AuthGuardStage | RefreshStage | UploadStage

  datatype Route = Route(verb: Verb, pattern: seq<Segment>, stages: seq<Stage>, handler: string)

  /** Position of the first `c` in `s` at or after `i`. */
  function IndexFrom(s: string, c: char, i: nat): (r: Option<nat>)
    requires i <= |s|
    ensures r.Some? ==> i <= r.value < |s| && s[r.value] == c && forall j :: i <= j < r.value ==> s[j] != c
    ensures r.None? ==> forall j :: i <= j < |s| ==> s[j] != c
    decreases |s| - i
  {
    if i == |s| then None else if s[i] == c then Some(i) else IndexFrom(s, c, i + 1)
  }

  /** `s.split("/")`. */
  function Split(s: string): (r: seq<string>)
    ensures |r| >= 1
    decreases |s|
  {
    match IndexFrom(s, '/', 0)
    case None => [s]
    case Some(k) => [s[..k]] + Split(s[k + 1..])
  }

  lemma SplitNoSlash(s: string)
    requires forall i :: 0 <= i < |s| ==> s[i] != '/'
    ensures Split(s) == [s]
  {
  }

  lemma SplitConcat(a: string, b: string)
    requires forall i :: 0 <= i < |a| ==> a[i] != '/'
    ensures Split(a + "/" + b) == [a] + Split(b)
  {
    var s := a + "/" + b;
    assert s[|a|] == '/';
    assert forall i :: 0 <= i < |a| ==> s[i] == a[i];
    assert IndexFrom(s, '/', 0) == Some(|a|);
    assert s[..|a|] == a && s[|a| + 1..] == b;
  }

  /** A string with one slash splits into the parts around it. */
  lemma SplitTwo(s: string, a: string, b: string)
    requires s == a + "/" + b
    requires forall i :: 0 <= i < |a| ==> a[i] != '/'
    requires forall i :: 0 <= i < |b| ==> b[i] != '/'
    ensures Split(s) == [a, b]
  {
    SplitConcat(a, b);
    SplitNoSlash(b);
  }

  /** The captured (still encoded) segments of a path that matches a pattern. */
  function MatchPattern(pattern: seq<Segment>, segments: seq<string>): (r: Option<map<string, string>>)
    ensures r.Some? ==> |pattern| == |segments|
    decreases |pattern|
  {
    if pattern == [] then (if segments == [] then Some(map[]) else None)
    else if segments == [] then None
    else
      var rest := MatchPattern(pattern[1..], segments[1..]);
      match pattern[0]
      case Lit(t) => if t == segments[0] then rest else None
      case Param(n) =>
        if segments[0] != "" && rest.Some? then Some(rest.value[n := segments[0]]) else None
  }

  /** A pattern of two literals matches exactly those two segments. */
  lemma LitPairMatch(pattern: seq<Segment>, a: string, b: string, segs: seq<string>)
    requires pattern == [Lit(a), Lit(b)]
    ensures MatchPattern(pattern, segs).Some? <==> segs == [a, b]
    ensures MatchPattern(pattern, segs).Some? ==> MatchPattern(pattern, segs) == Some(map[])
  {
    if |segs| == 2 {
      assert MatchPattern(pattern[1..][1..], segs[1..][1..]) == Some(map[]);
      if segs[0] == a && segs[1] == b {
        assert segs == [a, b];
      }
    }
  }

  /** A literal followed by a parameter captures a non-empty second segment. */
  lemma LitParamMatch(pattern: seq<Segment>, a: string, n: string, segs: seq<string>)
    requires pattern == [Lit(a), Param(n)]
    ensures MatchPattern(pattern, segs).Some? <==> |segs| == 2 && segs[0] == a && segs[1] != ""
    ensures MatchPattern(pattern, segs).Some? ==> MatchPattern(pattern, segs) == Some(map[n := segs[1]])
  {
    if |segs| == 2 {
      assert MatchPattern(pattern[1..][1..], segs[1..][1..]) == Some(map[]);
    }
  }

  /** Splits a path like "/verify-email/abc" into its segments. */
  function Segments(path: string): seq<string> {
    if path != [] && path[0] == '/' then Split(path[1..]) else Split(path)
  }

  /** The segments of `p + e` when `p` is "/" + a + "/" and neither `a`
      nor `e` holds a slash. */
  lemma PrefixedSegments(p: string, a: string, e: string)
    requires p == "/" + a + "/"
    requires forall i :: 0 <= i < |a| ==> a[i] != '/'
    requires forall i :: 0 <= i < |e| ==> e[i] != '/'
    ensures Segments(p + e) == [a, e]
  {
    var path := p + e;
    assert path[0] == '/';
    assert path[1..] == a + "/" + e;
    SplitTwo(path[1..], a, e);
  }

  /** Index of the first route that takes the request. */
  function FirstMatch(routes: seq<Route>, verb: Verb, path: string): (r: Option<nat>)
    ensures r.Some? ==>
              && r.value < |routes|
              && routes[r.value].verb == verb
              && MatchPattern(routes[r.value].pattern, Segments(path)).Some?
    ensures r.Some? ==> forall j :: 0 <= j < r.value ==>
      !(routes[j].verb == verb && MatchPattern(routes[j].pattern, Segments(path)).Some?)
    ensures r.None? ==> forall j :: 0 <= j < |routes| ==>
      !(routes[j].verb == verb && MatchPattern(routes[j].pattern, Segments(path)).Some?)
    decreases |routes|
  {
    if routes == [] then None
    else if routes[0].verb == verb && MatchPattern(routes[0].pattern, Segments(path)).Some? then Some(0)
    else
      match FirstMatch(routes[1..], verb, path)
      case None => None
      case Some(i) => Some(i + 1)
  }

  /** The route that takes a request is the first one that matches it. */
  lemma FirstMatchAt(routes: seq<Route>, verb: Verb, path: string, k: nat)
    requires k < |routes| && routes[k].verb == verb && MatchPattern(routes[k].pattern, Segments(path)).Some?
    requires forall j :: 0 <= j < k ==>
      !(routes[j].verb == verb && MatchPattern(routes[j].pattern, Segments(path)).Some?)
    ensures FirstMatch(routes, verb, path) == Some(k)
  {
  }

  /** Route parameters after `decodeURIComponent`; None when a segment does
      not decode (Express then responds 400). */
  function DecodeParams(raw: map<string, string>): (r: Option<map<string, string>>)
    ensures r.Some? ==> r.value.Keys == raw.Keys
    ensures r.Some? ==> forall k :: k in raw ==> UriCoding.Decode(raw[k]) == Some(r.value[k])
    ensures r.None? ==> exists k :: k in raw && UriCoding.Decode(raw[k]).None?
  {
    if forall k :: k in raw ==> UriCoding.Decode(raw[k]).Some? then
      Some(map k | k in raw :: UriCoding.Decode(raw[k]).value)
    else None
  }
}
