/** Whitespace and trimming as the source language's standard library defines them. */
module Text {

  /** The White_Space property of the Unicode character database. */
  predicate IsWhitespace(c: char) {
    || '\U{0009}' <= c <= '\U{000D}'
    || c == '\U{0020}' || c == '\U{0085}' || c == '\U{00A0}' || c == '\U{1680}'
    || '\U{2000}' <= c <= '\U{200A}'
    || c == '\U{2028}' || c == '\U{2029}' || c == '\U{202F}' || c == '\U{205F}' || c == '\U{3000}'
  }

  predicate IsBlank(s: string) {
    forall k :: 0 <= k < |s| ==> IsWhitespace(s[k])
  }

  function TrimStart(s: string): string {
    if s != "" && IsWhitespace(s[0]) then TrimStart(s[1..]) else s
  }

  function TrimEnd(s: string): string {
    if s != "" && IsWhitespace(s[|s| - 1]) then TrimEnd(s[..|s| - 1]) else s
  }

  function Trim(s: string): string {
    TrimEnd(TrimStart(s))
  }

  ghost predicate AllWhitespace(s: string) {
    forall c :: c in s ==> IsWhitespace(c)
  }

  /** `body` is `s` between two runs of whitespace, with none left at its own ends. */
  ghost predicate IsTrimmed(s: string, body: string) {
    && (exists x, y :: AllWhitespace(x) && AllWhitespace(y) && s == x + body + y)
    && (body != "" ==> !IsWhitespace(body[0]) && !IsWhitespace(body[|body| - 1]))
  }

  lemma {:induction false} TrimStartIs(s: string) returns (x: string)
    ensures s == x + TrimStart(s) && AllWhitespace(x)
    ensures TrimStart(s) != "" ==> !IsWhitespace(TrimStart(s)[0])
  {
    x := "";
    if s != "" && IsWhitespace(s[0]) {
      var rest := TrimStartIs(s[1..]);
      x := [s[0]] + rest;
      assert s == [s[0]] + s[1..];
    }
  }

  lemma {:induction false} TrimEndIs(s: string) returns (y: string)
    ensures s == TrimEnd(s) + y && AllWhitespace(y)
    ensures TrimEnd(s) != "" ==> !IsWhitespace(TrimEnd(s)[|TrimEnd(s)| - 1]) && TrimEnd(s)[0] == s[0]
  {
    y := "";
    if s != "" && IsWhitespace(s[|s| - 1]) {
      var rest := TrimEndIs(s[..|s| - 1]);
      y := rest + [s[|s| - 1]];
      assert s == s[..|s| - 1] + [s[|s| - 1]];
    }
  }

  /** Trimming takes off all the whitespace at both ends and nothing else. */
  lemma TrimIs(s: string)
    ensures IsTrimmed(s, Trim(s))
  {
    var x := TrimStartIs(s);
    var y := TrimEndIs(TrimStart(s));
    assert s == x + Trim(s) + y;
  }

  /** Only whitespace exactly when trimming leaves nothing. */
  lemma BlankIs(s: string)
    ensures IsBlank(s) <==> Trim(s) == ""
  {
    TrimIs(s);
    var x, y :| AllWhitespace(x) && AllWhitespace(y) && s == x + Trim(s) + y;
    assert Trim(s) != "" ==> s[|x|] == Trim(s)[0];
    if Trim(s) == "" {
      assert s == x + y;
      forall k | 0 <= k < |s|
        ensures IsWhitespace(s[k])
      {
        assert s[k] in x || s[k] in y;
      }
    }
  }

  /** The 25 characters with that property. */
  const WHITE_SPACE :=
    "\U{0009}\U{000A}\U{000B}\U{000C}\U{000D}\U{0020}\U{0085}\U{00A0}\U{1680}" +
    "\U{2000}\U{2001}\U{2002}\U{2003}\U{2004}\U{2005}\U{2006}\U{2007}\U{2008}\U{2009}\U{200A}" +
    "\U{2028}\U{2029}\U{202F}\U{205F}\U{3000}"

  lemma WhitespaceIs(c: char)
    ensures IsWhitespace(c) <==> c in WHITE_SPACE
  {
  }

  function Concat(lines: seq<string>): string {
    if lines == [] then "" else Concat(lines[..|lines| - 1]) + lines[|lines| - 1]
  }

  lemma {:induction false} ConcatFront(first: string, lines: seq<string>)
    ensures Concat([first] + lines) == first + Concat(lines)
  {
    if lines == [] {
      assert [first] + lines == [first] && [first][..0] == [];
    } else {
      ConcatFront(first, lines[..|lines| - 1]);
      assert ([first] + lines)[..|lines|] == [first] + lines[..|lines| - 1];
    }
  }

  lemma {:induction false} ConcatGrows(lines: seq<string>, j: nat, k: nat)
    requires j <= k <= |lines|
    ensures |Concat(lines[..j])| <= |Concat(lines[..k])|
  {
    if j < k {
      ConcatGrows(lines, j, k - 1);
      assert lines[..k][..k - 1] == lines[..k - 1];
    }
  }
}
