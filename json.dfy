// The Python values that `json.loads` produces, and the few built-in operations on them
// that multinav/muse_log.py and multinav/muse_labeler.py rely on: truthiness, `dict.get`,
// `x or default`, and `str.strip`.
module PyJson {

  /** A decoded JSON document: `None`, `bool`, `int`, `float`, `str`, `list` or `dict`. */
  datatype Json =
    | JNull
    | JBool(b: bool)
    | JInt(i: int)
    | JFloat(f: real)
    | JStr(s: string)
    | JArr(items: seq<Json>)
    | JObj(fields: map<string, Json>)

  /** Python's `bool(v)`: `None`, `False`, zero, and empty strings, lists and dicts are false. */
  predicate Truthy(v: Json)
  {
    match v
    case JNull => false
    case JBool(b) => b
    case JInt(i) => i != 0
    case JFloat(f) => f != 0.0
    case JStr(s) => |s| > 0
    case JArr(items) => |items| > 0
    case JObj(fields) => |fields| > 0
  }

  /** `d.get(k)`: a missing key reads as `None`. */
  function Get(d: map<string, Json>, k: string): (r: Json)
    ensures r == JNull <==> k !in d || d[k] == JNull
    ensures r != JNull ==> k in d && d[k] == r
  {
    if k in d then d[k] else JNull
  }

  /** `d.get(k, default)`: the default only for a missing key, not for a stored `None`. */
  function GetOr(d: map<string, Json>, k: string, default: Json): (r: Json)
    ensures r == default <==> k !in d || d[k] == default
    ensures r != default ==> r == Get(d, k)
    ensures default == JNull ==> r == Get(d, k)
  {
    if k in d then d[k] else default
  }

  /** `v or default`. */
  function Or(v: Json, default: Json): (r: Json)
    ensures r == v || r == default
    ensures Truthy(r) <==> Truthy(v) || Truthy(default)
    ensures Truthy(v) ==> r == v
  {
    if Truthy(v) then v else default
  }

  /** The empty dict `{}`. */
  const EmptyObj: Json := JObj(map[])

  /** The characters `str.isspace` (and so `str.strip()`) treats as white space. */
  predicate IsSpace(c: char)
  {
    || ('\t' <= c <= '\r')
    || ('\U{1c}' <= c <= '\U{1f}')
    || c == ' ' || c == '\U{85}' || c == '\U{a0}' || c == '\U{1680}'
    || ('\U{2000}' <= c <= '\U{200a}')
    || c == '\U{2028}' || c == '\U{2029}' || c == '\U{202f}' || c == '\U{205f}' || c == '\U{3000}'
  }

  /** `s.lstrip()`. */
  function StripLeft(s: string): (r: string)
    ensures |r| <= |s| && r == s[|s| - |r|..]
    ensures |r| > 0 ==> !IsSpace(r[0])
    ensures forall i :: 0 <= i < |s| - |r| ==> IsSpace(s[i])
  {
    if |s| > 0 && IsSpace(s[0]) then StripLeft(s[1..]) else s
  }

  /** `s.rstrip()`. */
  function StripRight(s: string): (r: string)
    ensures |r| <= |s| && r == s[..|r|]
    ensures |r| > 0 ==> !IsSpace(r[|r| - 1])
    ensures forall i :: |r| <= i < |s| ==> IsSpace(s[i])
  {
    if |s| > 0 && IsSpace(s[|s| - 1]) then StripRight(s[..|s| - 1]) else s
  }

  /** `s.strip()`. */
  function Strip(s: string): (r: string)
  {
    StripRight(StripLeft(s))
  }

  /** `line.strip()` is empty exactly when every character of the line is white space. */
  lemma StripEmptyIffBlank(s: string)
    ensures |Strip(s)| == 0 <==> forall i :: 0 <= i < |s| ==> IsSpace(s[i])
  {
    var l := StripLeft(s);
    if |Strip(s)| > 0 {
      assert |l| > 0 && !IsSpace(l[0]) && l[0] == s[|s| - |l|];
    }
  }

  /** What strip removes is white space at the two ends: the result is the slice
      `s[a..b]`, everything outside it is white space, and it starts and ends with a
      non-space character. */
  lemma StripIsTrimmedSlice(s: string) returns (a: nat, b: nat)
    ensures a <= b <= |s| && Strip(s) == s[a..b]
    ensures forall i :: 0 <= i < a ==> IsSpace(s[i])
    ensures forall i :: b <= i < |s| ==> IsSpace(s[i])
    ensures a < b ==> !IsSpace(s[a]) && !IsSpace(s[b - 1])
  {
    var l := StripLeft(s);
    var r := StripRight(l);
    a, b := |s| - |l|, |s| - |l| + |r|;
    TrimmedSlice(s, l, r, a, b);
  }

  /** The slice facts behind `StripIsTrimmedSlice`, for a suffix `l` of `s` after leading
      white space and a prefix `r` of `l` before trailing white space. */
  lemma TrimmedSlice(s: string, l: string, r: string, a: nat, b: nat)
    requires |l| <= |s| && l == s[|s| - |l|..]
    requires |l| > 0 ==> !IsSpace(l[0])
    requires forall i :: 0 <= i < |s| - |l| ==> IsSpace(s[i])
    requires |r| <= |l| && r == l[..|r|]
    requires |r| > 0 ==> !IsSpace(r[|r| - 1])
    requires forall i :: |r| <= i < |l| ==> IsSpace(l[i])
    requires a == |s| - |l| && b == a + |r|
    ensures a <= b <= |s| && r == s[a..b]
    ensures forall i :: 0 <= i < a ==> IsSpace(s[i])
    ensures forall i :: b <= i < |s| ==> IsSpace(s[i])
    ensures a < b ==> !IsSpace(s[a]) && !IsSpace(s[b - 1])
  {
    forall i | b <= i < |s| ensures IsSpace(s[i]) {
      assert s[i] == l[i - a];
    }
    if a < b {
      assert r[0] == l[0] == s[a];
      assert r[|r| - 1] == s[b - 1];
    }
  }
}
