/** The JavaScript values the handlers read from request bodies and write
    into JWT payloads and JSON responses, with the few built-ins the core
    applies to them (truthiness, `String.prototype.trim`, ASCII `toLowerCase`). */
module JsValues {
  import opened Wrappers

  /** A JSON value. Numbers are integers: every number the core puts into a
      token or a response is a millisecond or second timestamp. */
  datatype Json =
    | JNull
    | JBool(b: bool)
    | JNum(n: int)
    | JStr(s: string)
    | JArr(items: seq<Json>)
    | JObj(fields: map<string, Json>)

  /** JavaScript truthiness of a value that may be `undefined` (None). */
  predicate Truthy(v: Option<Json>) {
    match v
    case None => false
    case Some(JNull) => false
    case Some(JBool(b)) => b
    case Some(JNum(n)) => n != 0
    case Some(JStr(s)) => s != ""
    case Some(_) => true
  }

  /** Property access `obj.key` on an object or on `request.cookies`:
      `undefined` when absent. */
  function Get<V>(fields: map<string, V>, key: string): (v: Option<V>)
    ensures v.Some? <==> key in fields
    ensures v.Some? ==> v.value == fields[key]
  {
    if key in fields then Some(fields[key]) else None
  }

  /** The string inside a value, when it is one (`typeof v === "string"`). */
  function AsString(v: Option<Json>): (r: Option<string>)
    ensures r.Some? <==> v.Some? && v.value.JStr?
    ensures r.Some? ==> v.value == JStr(r.value)
  {
    if v.Some? && v.value.JStr? then Some(v.value.s) else None
  }

  /** Property access `v.key` on any value: `undefined` unless `v` is an
      object holding the key. */
  function Prop(v: Json, key: string): (r: Option<Json>)
    ensures r.Some? <==> v.JObj? && key in v.fields
    ensures r.Some? ==> r.value == v.fields[key]
  {
    if v.JObj? then Get(v.fields, key) else None
  }

  /** The object `{...fields, key: v}`; a key whose value is `undefined`
      is left out, as `JSON.stringify` leaves it out. */
  function With(fields: map<string, Json>, key: string, v: Option<Json>): (r: map<string, Json>)
    ensures v.Some? ==> r == fields[key := v.value]
    ensures v.None? ==> r == fields - {key}
  {
    if v.Some? then fields[key := v.value] else fields - {key}
  }

  /** A string-or-`undefined` as string conversion shows it (template
      literals, `res.cookie`): `undefined` becomes the text "undefined". */
  function Show(v: Option<string>): (r: string)
    ensures v.Some? ==> r == v.value
    ensures v.None? ==> r == "undefined"
  {
    if v.Some? then v.value else "undefined"
  }

  /** WhiteSpace and LineTerminator code points of ECMAScript, the set
      `String.prototype.trim` removes. */
  predicate IsJsSpace(c: char) {
    || c == '\t' || c == '\n' || c == '\U{000B}' || c == '\U{000C}' || c == '\r'
    || c == ' ' || c == '\U{00A0}' || c == '\U{1680}'
    || ('\U{2000}' <= c <= '\U{200A}')
    || c == '\U{2028}' || c == '\U{2029}' || c == '\U{202F}' || c == '\U{205F}'
    || c == '\U{3000}' || c == '\U{FEFF}'
  }

  /** The first position at or after `i` that does not hold white space. */
  function SkipSpaces(s: string, i: nat): (k: nat)
    requires i <= |s|
    ensures i <= k <= |s|
    ensures forall j :: i <= j < k ==> IsJsSpace(s[j])
    ensures k == |s| || !IsJsSpace(s[k])
    decreases |s| - i
  {
    if i < |s| && IsJsSpace(s[i]) then SkipSpaces(s, i + 1) else i
  }

  /** The end of `s[..k]` once its trailing white space is dropped. */
  function SkipSpacesBack(s: string, k: nat): (e: nat)
    requires k <= |s|
    ensures e <= k
    ensures forall j :: e <= j < k ==> IsJsSpace(s[j])
    ensures e == 0 || !IsJsSpace(s[e - 1])
  {
    if k > 0 && IsJsSpace(s[k - 1]) then SkipSpacesBack(s, k - 1) else k
  }

  /** `s.trimStart()`. */
  function TrimStart(s: string): (r: string)
    ensures |r| <= |s| && r == s[|s| - |r|..]
    ensures forall i :: 0 <= i < |s| - |r| ==> IsJsSpace(s[i])
    ensures r == [] || !IsJsSpace(r[0])
  {
    s[SkipSpaces(s, 0)..]
  }

  /** `s.trimEnd()`. */
  function TrimEnd(s: string): (r: string)
    ensures |r| <= |s| && r == s[..|r|]
    ensures forall i :: |r| <= i < |s| ==> IsJsSpace(s[i])
    ensures r == [] || !IsJsSpace(r[|r| - 1])
  {
    s[..SkipSpacesBack(s, |s|)]
  }

  /** `s.trim()`: the longest infix of `s` that neither starts nor ends with
      white space, obtained by dropping only white space. */
  function Trim(s: string): (r: string)
  {
    TrimEnd(TrimStart(s))
  }

  /** `trim` drops only white space: its result is the infix of `s` that
      starts where `trimStart` stopped. */
  lemma TrimSpec(s: string)
    ensures var r, i := Trim(s), |s| - |TrimStart(s)|;
      && i + |r| <= |s|
      && forall j :: 0 <= j < |r| ==> r[j] == s[i + j]
  {
  }

  /** `trim` leaves no white space at either end. */
  lemma TrimStripsEnds(s: string)
    ensures var r := Trim(s);
      r == [] || (!IsJsSpace(r[0]) && !IsJsSpace(r[|r| - 1]))
  {
    var t := TrimStart(s);
    var r := TrimEnd(t);
    if r != [] {
      assert r[0] == t[0];
    }
  }

  /** Applying `trim` twice is the same as applying it once. */
  lemma TrimIdempotent(s: string)
    ensures Trim(Trim(s)) == Trim(s)
  {
    TrimStripsEnds(s);
    TrimFixed(Trim(s));
  }

  /** A string without white space at either end is left as it is. */
  lemma TrimFixed(r: string)
    requires r == [] || (!IsJsSpace(r[0]) && !IsJsSpace(r[|r| - 1]))
    ensures Trim(r) == r
  {
    assert SkipSpaces(r, 0) == 0;
    assert TrimStart(r) == r;
    assert SkipSpacesBack(r, |r|) == |r|;
  }

  /** White space before a string that does not start with white space
      is all `trimStart` removes. */
  lemma TrimStartPadding(pad: string, s: string)
    requires forall i :: 0 <= i < |pad| ==> IsJsSpace(pad[i])
    requires s == [] || !IsJsSpace(s[0])
    ensures TrimStart(pad + s) == s
  {
    var w := pad + s;
    assert forall j :: 0 <= j < |pad| ==> w[j] == pad[j];
    assert s != [] ==> w[|pad|] == s[0];
    assert SkipSpaces(w, 0) == |pad|;
    assert w[|pad|..] == s;
  }

  /** White space after a string that does not end with white space is all
      `trimEnd` removes. */
  lemma TrimEndPadding(s: string, pad: string)
    requires forall i :: 0 <= i < |pad| ==> IsJsSpace(pad[i])
    requires s == [] || !IsJsSpace(s[|s| - 1])
    ensures TrimEnd(s + pad) == s
  {
    var w := s + pad;
    assert forall j :: |s| <= j < |w| ==> w[j] == pad[j - |s|];
    assert s != [] ==> w[|s| - 1] == s[|s| - 1];
    assert SkipSpacesBack(w, |w|) == |s|;
    assert w[..|s|] == s;
  }

  /** `(pad + s + pad).trim()` is `s` when `s` has no white space at either end. */
  lemma TrimPadding(pad: string, s: string)
    requires forall i :: 0 <= i < |pad| ==> IsJsSpace(pad[i])
    requires s == [] || (!IsJsSpace(s[0]) && !IsJsSpace(s[|s| - 1]))
    ensures Trim(pad + s + pad) == s
  {
    assert pad + s + pad == pad + (s + pad);
    if s == [] {
      assert pad + s + pad == (pad + pad) + [];
      TrimStartPadding(pad + pad, []);
    } else {
      TrimStartPadding(pad, s + pad);
      TrimEndPadding(s, pad);
    }
  }

  /** The lower-case letter of an upper-case ASCII letter is 32 code points
      further on; every other character is its own lower case. */
  function ToLowerAsciiChar(c: char): (d: char)
    ensures 'A' <= c <= 'Z' ==> 'a' <= d <= 'z' && d as int == c as int + 32
    ensures !('A' <= c <= 'Z') ==> d == c
  {
    if 'A' <= c <= 'Z' then (c as int + 32) as char else c
  }

  /** `s.toLowerCase()` on the ASCII range; other code points are kept. */
  function ToLowerAscii(s: string): (r: string)
    ensures |r| == |s|
    ensures forall i :: 0 <= i < |s| ==> r[i] == ToLowerAsciiChar(s[i])
  {
    seq(|s|, i requires 0 <= i < |s| => ToLowerAsciiChar(s[i]))
  }

  /** A lowered string holds no upper-case ASCII letter, so lowering it
      again changes nothing. */
  lemma LowerAsciiIdempotent(s: string)
    ensures forall i :: 0 <= i < |s| ==> !('A' <= ToLowerAscii(s)[i] <= 'Z')
    ensures ToLowerAscii(ToLowerAscii(s)) == ToLowerAscii(s)
  {
  }
}
