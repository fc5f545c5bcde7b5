/** Percent-encoding of one path segment, and the reference paths built from it.
    Strings arrive as their UTF-8 bytes; a path is ASCII text. */
module PathCodec {
  import opened Prelude

  newtype byte = x: int | 0 <= x < 256

  /** Section 2.3 of RFC 3986: ALPHA, DIGIT, "-", ".", "_", "~". */
  predicate IsUnreserved(c: char) {
    || 'A' <= c <= 'Z' || 'a' <= c <= 'z' || '0' <= c <= '9'
    || c == '-' || c == '.' || c == '_' || c == '~'
  }

  function Hex(d: nat): char
    requires d < 16
  {
    if d < 10 then ('0' as int + d) as char else ('A' as int + d - 10) as char
  }

  /** Section 2.1 of RFC 3986 lets a decoder accept either case. */
  function HexValue(c: char): Option<nat> {
    if '0' <= c <= '9' then Some(c as int - '0' as int)
    else if 'A' <= c <= 'F' then Some(c as int - 'A' as int + 10)
    else if 'a' <= c <= 'f' then Some(c as int - 'a' as int + 10)
    else None
  }

  function EncodedByte(b: byte): string {
    var c := (b as int) as char;
    if IsUnreserved(c) then [c] else ['%', Hex(b as int / 16), Hex(b as int % 16)]
  }

  /** The pieces of all bytes, in order. */
  function Joining(s: seq<byte>, f: byte -> string): string {
    if s == [] then "" else Joining(s[..|s| - 1], f) + f(s[|s| - 1])
  }

  function Encoded(s: seq<byte>): string {
    Joining(s, EncodedByte)
  }

  method EncSegment(s: seq<byte>) returns (out: string)
    ensures out == Encoded(s)
  {
    out := "";
    for k := 0 to |s|
      invariant out == Encoded(s[..k])
    {
      assert s[..k + 1][..k] == s[..k];
      var c := (s[k] as int) as char;
      if 'A' <= c <= 'Z' || 'a' <= c <= 'z' || '0' <= c <= '9' || c == '-' || c == '.' || c == '_' || c == '~' {
        out := out + [c];
      } else {
        out := out + ['%', Hex(s[k] as int / 16), Hex(s[k] as int % 16)];
      }
    }
    assert s[..|s|] == s;
  }

  /** The decoder of section 2.1 of RFC 3986: a percent sign and two hex digits stand for
      one byte, any other ASCII character for itself. */
  function Decoded(t: string): Option<seq<byte>> {
    if t == "" then Some([])
    else if t[0] == '%' then
      if |t| < 3 || HexValue(t[1]).None? || HexValue(t[2]).None? || Decoded(t[3..]).None? then None
      else Some([(16 * HexValue(t[1]).value + HexValue(t[2]).value) as byte] + Decoded(t[3..]).value)
    else if t[0] as int >= 128 || Decoded(t[1..]).None? then None
    else Some([(t[0] as int) as byte] + Decoded(t[1..]).value)
  }

  lemma DecodedByte(b: byte, t: string)
    requires Decoded(t).Some?
    ensures Decoded(EncodedByte(b) + t) == Some([b] + Decoded(t).value)
  {
    var e := EncodedByte(b);
    if |e| == 1 {
      assert (e + t)[1..] == t;
    } else {
      assert (e + t)[3..] == t;
      assert (e + t)[1] == e[1] && (e + t)[2] == e[2];
    }
  }

  lemma {:induction false} JoiningFront(b: byte, s: seq<byte>, f: byte -> string)
    ensures Joining([b] + s, f) == f(b) + Joining(s, f)
  {
    if s == [] {
      assert [b] + s == [b] && [b][..0] == [];
    } else {
      JoiningFront(b, s[..|s| - 1], f);
      assert ([b] + s)[..|s|] == [b] + s[..|s| - 1];
    }
  }

  /** Decoding undoes encoding on every byte string. */
  lemma {:induction false} RoundTrip(s: seq<byte>)
    ensures Decoded(Encoded(s)) == Some(s)
  {
    if s != [] {
      RoundTrip(s[1..]);
      assert [s[0]] + s[1..] == s;
      JoiningFront(s[0], s[1..], EncodedByte);
      DecodedByte(s[0], Encoded(s[1..]));
    }
  }

  predicate IsUpperHex(c: char) {
    '0' <= c <= '9' || 'A' <= c <= 'F'
  }

  /** Position `k` of a percent triplet. */
  predicate InTriplet(t: string, k: nat) {
    || (k < |t| && t[k] == '%' && k + 2 < |t| && IsUpperHex(t[k + 1]) && IsUpperHex(t[k + 2]))
    || (1 <= k < |t| && t[k - 1] == '%' && IsUpperHex(t[k]))
    || (2 <= k < |t| && t[k - 2] == '%' && IsUpperHex(t[k]))
  }

  /** The output holds unreserved characters and percent signs followed by two upper-case
      hex digits, nothing else. */
  lemma {:induction false} OutputIsClean(s: seq<byte>, k: nat)
    requires k < |Encoded(s)|
    ensures Encoded(s)[k] == '%' || IsUnreserved(Encoded(s)[k])
    ensures Encoded(s)[k] == '%' ==> InTriplet(Encoded(s), k)
  {
    var init, e := Encoded(s[..|s| - 1]), EncodedByte(s[|s| - 1]);
    if k < |init| {
      OutputIsClean(s[..|s| - 1], k);
      assert init[k] == Encoded(s)[k];
      if init[k] == '%' {
        PercentHasRoom(s[..|s| - 1], k);
      }
    } else {
      assert Encoded(s)[k] == e[k - |init|];
    }
  }

  lemma {:induction false} PercentHasRoom(s: seq<byte>, k: nat)
    requires k < |Encoded(s)| && Encoded(s)[k] == '%'
    ensures k + 2 < |Encoded(s)| && IsUpperHex(Encoded(s)[k + 1]) && IsUpperHex(Encoded(s)[k + 2])
  {
    var init := Encoded(s[..|s| - 1]);
    if k < |init| {
      PercentHasRoom(s[..|s| - 1], k);
    } else {
      assert Encoded(s)[k] == EncodedByte(s[|s| - 1])[k - |init|];
    }
  }

  // ---------------------------------------------------------------------------
  // Paths
  // ---------------------------------------------------------------------------

  const ROOT := "/records/state/"

  function KindPath(kind: seq<byte>): string {
    ROOT + Encoded(kind)
  }

  function ValuePath(kind: seq<byte>, key: seq<byte>): string {
    ROOT + Encoded(kind) + "/" + Encoded(key)
  }

  function HistoryPath(kind: seq<byte>, key: seq<byte>): string {
    ROOT + Encoded(kind) + "/" + Encoded(key) + "/history"
  }

  function Slashes(t: string): nat {
    if t == "" then 0 else Slashes(t[..|t| - 1]) + if t[|t| - 1] == '/' then 1 else 0
  }

  lemma {:induction false} SlashesAdd(a: string, b: string)
    ensures Slashes(a + b) == Slashes(a) + Slashes(b)
  {
    if b == "" {
      assert a + b == a;
    } else {
      SlashesAdd(a, b[..|b| - 1]);
      assert (a + b)[..|a + b| - 1] == a + b[..|b| - 1];
    }
  }

  lemma {:induction false} EncodedHasNoSlash(s: seq<byte>)
    ensures Slashes(Encoded(s)) == 0 && '/' !in Encoded(s)
  {
    if s != [] {
      EncodedHasNoSlash(s[..|s| - 1]);
      var e := EncodedByte(s[|s| - 1]);
      SlashesAdd(Encoded(s[..|s| - 1]), e);
      if |e| == 1 {
        assert e[..0] == "";
      } else {
        assert e[..2][..1] == [e[0]] && [e[0]][..0] == "";
        assert Slashes([e[0]]) == 0;
        assert Slashes(e[..2]) == 0;
      }
    }
  }

  lemma NoSlashBefore(a: string, rest: string, t: string, k: nat)
    requires '/' !in a && t == a + rest && k < |t|
    ensures t[k] == '/' ==> k >= |a|
  {
    if k < |a| { assert t[k] == a[k]; }
  }

  /** Two texts joined by a slash that neither first part contains fall apart in one way. */
  lemma SplitAtSlash(a: string, b: string, c: string, d: string)
    requires '/' !in a && '/' !in c && a + "/" + b == c + "/" + d
    ensures a == c && b == d
  {
    var t := a + "/" + b;
    assert t[|a|] == '/' && t[|c|] == '/';
    NoSlashBefore(a, "/" + b, t, |c|);
    NoSlashBefore(c, "/" + d, t, |a|);
    assert t[..|a|] == a && t[..|c|] == c;
    assert t[|a| + 1..] == b && t[|c| + 1..] == d;
  }

  /** A value path spells the kind first and the key second, one segment each. */
  lemma ValuePathIs(kind: seq<byte>, key: seq<byte>) returns (a: string, b: string)
    ensures ValuePath(kind, key) == "/records/state/" + a + "/" + b
    ensures '/' !in a && Decoded(a) == Some(kind)
    ensures '/' !in b && Decoded(b) == Some(key)
    ensures HistoryPath(kind, key) == "/records/state/" + a + "/" + b + "/history"
    ensures KindPath(kind) == "/records/state/" + a
  {
    a, b := Encoded(kind), Encoded(key);
    RoundTrip(kind);
    RoundTrip(key);
    EncodedHasNoSlash(kind);
    EncodedHasNoSlash(key);
  }

  lemma Unprefix(p: string, a: string, b: string)
    requires p + a == p + b
    ensures a == b
  {
    assert (p + a)[|p|..] == a && (p + b)[|p|..] == b;
  }

  lemma EncodedIsInjective(s: seq<byte>, t: seq<byte>)
    requires Encoded(s) == Encoded(t)
    ensures s == t
  {
    RoundTrip(s);
    RoundTrip(t);
  }

  /** One reference, one path. */
  lemma ValuePathIsInjective(k1: seq<byte>, s1: seq<byte>, k2: seq<byte>, s2: seq<byte>)
    requires ValuePath(k1, s1) == ValuePath(k2, s2)
    ensures k1 == k2 && s1 == s2
  {
    EncodedHasNoSlash(k1);
    EncodedHasNoSlash(k2);
    var a, b, c, d := Encoded(k1), Encoded(s1), Encoded(k2), Encoded(s2);
    PathRegroups(a, b);
    PathRegroups(c, d);
    Unprefix(ROOT, a + "/" + b, c + "/" + d);
    SplitAtSlash(a, b, c, d);
    EncodedIsInjective(k1, k2);
    EncodedIsInjective(s1, s2);
  }

  lemma PathRegroups(a: string, b: string)
    ensures ROOT + a + "/" + b == ROOT + (a + "/" + b)
  {
  }

  lemma HistoryPathIsInjective(k1: seq<byte>, s1: seq<byte>, k2: seq<byte>, s2: seq<byte>)
    requires HistoryPath(k1, s1) == HistoryPath(k2, s2)
    ensures k1 == k2 && s1 == s2
  {
    var a, b := ValuePath(k1, s1), ValuePath(k2, s2);
    var whole := a + "/history";
    assert whole == b + "/history" && |a| == |b|;
    assert whole[..|a|] == a && (b + "/history")[..|b|] == b;
    ValuePathIsInjective(k1, s1, k2, s2);
  }

  /** A value path, a history path and a listing path never coincide. */
  lemma PathsAreDisjoint(k1: seq<byte>, s1: seq<byte>, k2: seq<byte>, s2: seq<byte>)
    ensures ValuePath(k1, s1) != HistoryPath(k2, s2)
    ensures KindPath(k1) != ValuePath(k2, s2) && KindPath(k1) != HistoryPath(k2, s2)
  {
    ValueSlashes(k1, s1);
    ValueSlashes(k2, s2);
    SlashesAdd(ValuePath(k2, s2), "/history");
    SlashesAdd(ROOT, Encoded(k1));
    EncodedHasNoSlash(k1);
    HistorySlash();
  }

  lemma ValueSlashes(kind: seq<byte>, key: seq<byte>)
    ensures Slashes(ValuePath(kind, key)) == Slashes(ROOT) + 1
  {
    EncodedHasNoSlash(kind);
    EncodedHasNoSlash(key);
    SlashesAdd(ROOT, Encoded(kind));
    SlashesAdd(ROOT + Encoded(kind), "/");
    SlashesAdd(ROOT + Encoded(kind) + "/", Encoded(key));
    assert "/"[..0] == "";
  }

  lemma HistorySlash()
    ensures Slashes("/history") >= 1
  {
    assert "/history" == "/" + "history" && "/"[..0] == "";
    SlashesAdd("/", "history");
  }

  /** A segment that section 5.2.4 of RFC 3986 would remove while resolving the path. */
  predicate IsDotSegment(t: string) {
    t == "." || t == ".."
  }

  const DOT: byte := 46

  /** Encoding keeps a segment opaque to dot-segment removal exactly when the name is not
      itself one or two dots, which pass through unescaped. */
  lemma OpaqueIff(s: seq<byte>)
    ensures IsDotSegment(Encoded(s)) <==> s == [DOT] || s == [DOT, DOT]
  {
    assert EncodedByte(DOT) == ".";
    JoiningFront(DOT, [], EncodedByte);
    JoiningFront(DOT, [DOT], EncodedByte);
    assert [DOT] + [] == [DOT] && [DOT] + [DOT] == [DOT, DOT];
    assert Encoded([DOT]) == "." && Encoded([DOT, DOT]) == "..";
    if Encoded(s) == "." { EncodedIsInjective(s, [DOT]); }
    if Encoded(s) == ".." { EncodedIsInjective(s, [DOT, DOT]); }
  }
}
