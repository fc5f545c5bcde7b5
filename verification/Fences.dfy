/** Getting the JSON object out of a model's answer. */
module Fences {
  import opened Prelude
  import opened Text

  const FENCE := "```"
  const JSON_FENCE := "```json"

  function StripPrefix(s: string, p: string): Option<string> {
    if p <= s then Some(s[|p|..]) else None
  }

  function TrimEndMatches(s: string, p: string): string
    requires p != ""
  {
    if |p| <= |s| && s[|s| - |p|..] == p then TrimEndMatches(s[..|s| - |p|], p) else s
  }

  function Find(s: string, c: char): Option<nat> {
    if s == "" then None
    else if s[0] == c then Some(0)
    else match Find(s[1..], c) case Some(k) => Some(k + 1) case None => None
  }

  function RFind(s: string, c: char): Option<nat> {
    if s == "" then None
    else if s[|s| - 1] == c then Some(|s| - 1)
    else RFind(s[..|s| - 1], c)
  }

  lemma {:induction false} FindIs(s: string, c: char)
    ensures match Find(s, c)
            case Some(k) => k < |s| && s[k] == c && c !in s[..k]
            case None => c !in s
  {
    if s != "" && s[0] != c {
      FindIs(s[1..], c);
      assert forall x :: x in s ==> x == s[0] || x in s[1..];
      match Find(s[1..], c) {
        case Some(k) => assert s[..k + 1] == [s[0]] + s[1..][..k];
        case None =>
      }
    }
  }

  lemma {:induction false} RFindIs(s: string, c: char)
    ensures match RFind(s, c)
            case Some(k) => k < |s| && s[k] == c && c !in s[k + 1..]
            case None => c !in s
  {
    if s != "" && s[|s| - 1] != c {
      var init := s[..|s| - 1];
      RFindIs(init, c);
      assert forall x :: x in s ==> x == s[|s| - 1] || x in init;
      match RFind(init, c) {
        case Some(k) => assert s[k + 1..] == init[k + 1..] + [s[|s| - 1]];
        case None =>
      }
    }
  }

  /** Without surrounding whitespace and code fences. */
  function Unfenced(raw: string): string {
    var trimmed := Trim(raw);
    var inner := if StripPrefix(trimmed, JSON_FENCE).Some? then StripPrefix(trimmed, JSON_FENCE)
                 else StripPrefix(trimmed, FENCE);
    if inner.Some? then Trim(TrimEndMatches(inner.value, FENCE)) else trimmed
  }

  /** From the first opening brace to the last closing one, when they are in that order. */
  function Object(s: string): string {
    FindIs(s, '{');
    RFindIs(s, '}');
    match (Find(s, '{'), RFind(s, '}'))
    case (Some(i), Some(j)) => if j > i then s[i..j + 1] else s
    case _ => s
  }

  function StripFences(raw: string): string {
    Object(Unfenced(raw))
  }

  /** Both parsers over any JSON decoder: each cuts the same slice first. */
  function Parse<T>(raw: string, json: string -> Option<T>): Option<T> {
    json(StripFences(raw))
  }

  // ---------------------------------------------------------------------------
  // What unfencing takes off
  // ---------------------------------------------------------------------------

  function Repeated(p: string, n: nat): string {
    if n == 0 then "" else Repeated(p, n - 1) + p
  }

  lemma {:induction false} TrimEndMatchesIs(s: string, p: string) returns (n: nat)
    requires p != ""
    ensures s == TrimEndMatches(s, p) + Repeated(p, n)
    ensures |p| <= |TrimEndMatches(s, p)| ==> TrimEndMatches(s, p)[|TrimEndMatches(s, p)| - |p|..] != p
    decreases |s|
  {
    n := 0;
    if |p| <= |s| && s[|s| - |p|..] == p {
      var init := s[..|s| - |p|];
      var m := TrimEndMatchesIs(init, p);
      n := m + 1;
      assert s == init + p;
      OneMore(s, init, p, TrimEndMatches(init, p), m);
    }
  }

  lemma OneMore(s: string, init: string, p: string, body: string, m: nat)
    requires s == init + p && init == body + Repeated(p, m)
    ensures s == body + Repeated(p, m + 1)
  {
  }

  /** `body` is what opens a fence, without the fences that close it and the whitespace. */
  ghost predicate IsInside(inner: string, body: string) {
    exists rest, n: nat ::
      && inner == rest + Repeated("```", n) && (3 <= |rest| ==> rest[|rest| - 3..] != "```")
      && IsTrimmed(rest, body)
  }

  /** `body` is the answer without whitespace around it and, if it starts with a fence, marked
      as JSON or not, without the fences. */
  ghost predicate IsUnfenced(raw: string, body: string) {
    exists text :: IsTrimmed(raw, text) &&
      if "```json" <= text then IsInside(text[7..], body)
      else if "```" <= text then IsInside(text[3..], body)
      else body == text
  }

  lemma InsideIs(inner: string)
    ensures IsInside(inner, Trim(TrimEndMatches(inner, FENCE)))
  {
    var n := TrimEndMatchesIs(inner, FENCE);
    TrimIs(TrimEndMatches(inner, FENCE));
  }

  lemma UnfencedIs(raw: string)
    ensures IsUnfenced(raw, Unfenced(raw))
  {
    var text := Trim(raw);
    TrimIs(raw);
    if JSON_FENCE <= text {
      InsideIs(text[7..]);
    } else if FENCE <= text {
      InsideIs(text[3..]);
    }
  }

  // ---------------------------------------------------------------------------
  // Cutting an edge off
  // ---------------------------------------------------------------------------

  ghost predicate NoBrace(s: string) {
    '{' !in s && '}' !in s
  }

  /** `t` is what is left of `s` between two edges without braces. */
  ghost predicate Core(s: string, a: string, t: string, b: string) {
    s == a + t + b && NoBrace(a) && NoBrace(b)
  }

  lemma CoreOfCore(s: string, a: string, t: string, b: string, c: string, u: string, d: string)
    requires Core(s, a, t, b) && Core(t, c, u, d)
    ensures Core(s, a + c, u, d + b)
  {
  }

  lemma {:induction false} TrimStartCore(s: string) returns (a: string)
    ensures Core(s, a, TrimStart(s), "")
  {
    if s != "" && IsWhitespace(s[0]) {
      var rest := TrimStartCore(s[1..]);
      a := [s[0]] + rest;
      assert s == [s[0]] + s[1..];
    } else {
      a := "";
    }
  }

  lemma {:induction false} TrimEndCore(s: string) returns (b: string)
    ensures Core(s, "", TrimEnd(s), b)
  {
    if s != "" && IsWhitespace(s[|s| - 1]) {
      var rest := TrimEndCore(s[..|s| - 1]);
      b := rest + [s[|s| - 1]];
      assert s == s[..|s| - 1] + [s[|s| - 1]];
    } else {
      b := "";
    }
  }

  lemma TrimCore(s: string) returns (a: string, b: string)
    ensures Core(s, a, Trim(s), b)
  {
    a := TrimStartCore(s);
    b := TrimEndCore(TrimStart(s));
    CoreOfCore(s, a, TrimStart(s), "", "", Trim(s), b);
  }

  lemma {:induction false} TrimEndMatchesCore(s: string) returns (b: string)
    ensures Core(s, "", TrimEndMatches(s, FENCE), b)
  {
    if 3 <= |s| && s[|s| - 3..] == FENCE {
      var rest := TrimEndMatchesCore(s[..|s| - 3]);
      b := rest + FENCE;
      assert s == s[..|s| - 3] + s[|s| - 3..];
    } else {
      b := "";
    }
  }

  lemma PrefixCore(s: string, p: string)
    requires NoBrace(p) && StripPrefix(s, p).Some?
    ensures Core(s, p, StripPrefix(s, p).value, "")
  {
    assert s == p + s[|p|..];
  }

  /** Unfencing only ever drops edges without braces. */
  lemma UnfencedCore(raw: string) returns (a: string, b: string)
    ensures Core(raw, a, Unfenced(raw), b)
  {
    a, b := TrimCore(raw);
    var t := Trim(raw);
    var p := if StripPrefix(t, JSON_FENCE).Some? then JSON_FENCE else FENCE;
    if StripPrefix(t, p).Some? {
      PrefixCore(t, p);
      var inner := StripPrefix(t, p).value;
      var e := TrimEndMatchesCore(inner);
      var c, d := TrimCore(TrimEndMatches(inner, FENCE));
      CoreOfCore(inner, "", TrimEndMatches(inner, FENCE), e, c, Unfenced(raw), d);
      CoreOfCore(t, p, inner, "", "" + c, Unfenced(raw), d + e);
      CoreOfCore(raw, a, t, b, p + ("" + c), Unfenced(raw), d + e + "");
      a, b := a + (p + ("" + c)), d + e + "" + b;
    }
  }

  // ---------------------------------------------------------------------------
  // What the result is
  // ---------------------------------------------------------------------------

  ghost predicate IsFirst(s: string, c: char, k: nat) {
    k < |s| && s[k] == c && c !in s[..k]
  }

  ghost predicate IsLast(s: string, c: char, k: nat) {
    k < |s| && s[k] == c && c !in s[k + 1..]
  }

  lemma NotBefore(s: string, c: char, k: nat, j: nat)
    requires k <= |s| && c !in s[..k] && j < |s|
    ensures s[j] == c ==> k <= j
  {
    if j < k { assert s[..k][j] == s[j]; }
  }

  lemma NotAfter(s: string, c: char, k: nat, j: nat)
    requires k < |s| && c !in s[k + 1..] && j < |s|
    ensures s[j] == c ==> j <= k
  {
    if k < j { assert s[k + 1..][j - k - 1] == s[j]; }
  }

  lemma FirstIsFind(s: string, c: char, k: nat)
    requires IsFirst(s, c, k)
    ensures Find(s, c) == Some(k)
  {
    FindIs(s, c);
    var j := Find(s, c).value;
    NotBefore(s, c, k, j);
    NotBefore(s, c, j, k);
  }

  lemma LastIsRFind(s: string, c: char, k: nat)
    requires IsLast(s, c, k)
    ensures RFind(s, c) == Some(k)
  {
    RFindIs(s, c);
    var j := RFind(s, c).value;
    NotAfter(s, c, k, j);
    NotAfter(s, c, j, k);
  }

  /** A result with an object in it, for every raw answer: whatever surrounds it, the slice
      runs from the answer's own first `{` to its last `}`. */
  lemma ObjectOfRaw(raw: string, i: nat, j: nat)
    requires IsFirst(raw, '{', i) && IsLast(raw, '}', j) && i < j
    ensures StripFences(raw) == raw[i..j + 1]
  {
    var a, b := UnfencedCore(raw);
    var t := Unfenced(raw);
    InCore(raw, a, t, b, '{', i);
    InCore(raw, a, t, b, '}', j);
    ObjectOfCore(raw, a, t, b, i - |a|, j - |a|);
  }

  lemma ObjectOfCore(raw: string, a: string, t: string, b: string, x: nat, y: nat)
    requires Core(raw, a, t, b) && x < y < |t|
    requires IsFirst(raw, '{', |a| + x) && IsLast(raw, '}', |a| + y)
    ensures Object(t) == raw[|a| + x..|a| + y + 1]
  {
    CoreCuts(raw, a, t, b, x, y);
    FirstIsFind(t, '{', x);
    LastIsRFind(t, '}', y);
  }

  /** Positions of the core seen from outside. */
  lemma CoreCuts(s: string, a: string, t: string, b: string, x: nat, y: nat)
    requires s == a + t + b && x < |t| && y < |t|
    ensures s[|a| + x] == t[x] && s[|a| + y] == t[y]
    ensures s[..|a| + x] == a + t[..x] && s[|a| + y + 1..] == t[y + 1..] + b
    ensures x <= y ==> s[|a| + x..|a| + y + 1] == t[x..y + 1]
  {
    CutBefore(s, a, t, b, x);
    CutAfter(s, a, t, b, y + 1);
    if x <= y { CutMiddle(s, a, t, b, x, y + 1); }
  }

  lemma CutBefore(s: string, a: string, t: string, b: string, x: nat)
    requires s == a + t + b && x <= |t|
    ensures s[..|a| + x] == a + t[..x]
  {
  }

  lemma CutAfter(s: string, a: string, t: string, b: string, y: nat)
    requires s == a + t + b && y <= |t|
    ensures s[|a| + y..] == t[y..] + b
  {
  }

  lemma CutMiddle(s: string, a: string, t: string, b: string, x: nat, y: nat)
    requires s == a + t + b && x <= y <= |t|
    ensures s[|a| + x..|a| + y] == t[x..y]
  {
  }

  lemma InCore(s: string, a: string, t: string, b: string, c: char, k: nat)
    requires Core(s, a, t, b) && k < |s| && s[k] == c && (c == '{' || c == '}')
    ensures |a| <= k < |a| + |t| && t[k - |a|] == c
  {
    assert a == s[..|a|] && b == s[|a| + |t|..];
    NotBefore(s, c, |a|, k);
    if |a| + |t| > 0 { NotAfter(s, c, |a| + |t| - 1, k); }
  }

  /** ... and without one, the answer minus its fences. */
  lemma NoObject(raw: string)
    requires forall i: nat, j: nat :: IsFirst(raw, '{', i) && IsLast(raw, '}', j) ==> j <= i
    ensures StripFences(raw) == Unfenced(raw) && IsUnfenced(raw, StripFences(raw))
  {
    UnfencedIs(raw);
    var a, b := UnfencedCore(raw);
    var t := Unfenced(raw);
    FindIs(t, '{');
    RFindIs(t, '}');
    if Find(t, '{').Some? && RFind(t, '}').Some? {
      var i, j := Find(t, '{').value, RFind(t, '}').value;
      CoreCuts(raw, a, t, b, i, j);
      assert IsFirst(raw, '{', i + |a|) && IsLast(raw, '}', j + |a|);
    }
  }

  /** Unwrapping inverts wrapping: prose, fences and whitespace on either side are gone. */
  lemma Unwraps(p: string, j: string, q: string)
    requires '{' !in p && '}' !in q && |j| >= 2 && j[0] == '{' && j[|j| - 1] == '}'
    ensures StripFences(p + j + q) == j
  {
    var raw := p + j + q;
    var first, last := |p|, |p| + |j| - 1;
    assert raw[..first] == p && raw[last + 1..] == q;
    ObjectOfRaw(raw, first, last);
    assert raw[first..last + 1] == j;
  }

  ghost predicate IsSlice(t: string, s: string, i: nat, j: nat) {
    i <= j <= |s| && t == s[i..j]
  }

  /** The result is always a contiguous slice of the answer. */
  lemma ResultIsSlice(raw: string)
    ensures exists i: nat, j: nat :: IsSlice(StripFences(raw), raw, i, j)
  {
    var a, b := UnfencedCore(raw);
    var t := Unfenced(raw);
    var x, y := ObjectIsSlice(t);
    SliceOfCore(raw, a, t, b, x, y);
    assert IsSlice(StripFences(raw), raw, |a| + x, |a| + y);
  }

  lemma ObjectIsSlice(t: string) returns (x: nat, y: nat)
    ensures x <= y <= |t| && Object(t) == t[x..y]
  {
    FindIs(t, '{');
    RFindIs(t, '}');
    x, y := 0, |t|;
    if Find(t, '{').Some? && RFind(t, '}').Some? && RFind(t, '}').value > Find(t, '{').value {
      x, y := Find(t, '{').value, RFind(t, '}').value + 1;
    }
  }

  lemma SliceOfCore(raw: string, a: string, t: string, b: string, x: nat, y: nat)
    requires raw == a + t + b && x <= y <= |t|
    ensures IsSlice(t[x..y], raw, |a| + x, |a| + y)
  {
    CutMiddle(raw, a, t, b, x, y);
  }

  /** Whatever a decoder makes of an object, it makes of every wrapping of it. */
  lemma ParsesThroughWrapping<T>(p: string, j: string, q: string, json: string -> Option<T>)
    requires '{' !in p && '}' !in q && |j| >= 2 && j[0] == '{' && j[|j| - 1] == '}'
    ensures Parse(p + j + q, json) == json(j)
  {
    Unwraps(p, j, q);
  }
}
