/** Entity extraction: capitalised words, and the phrases that runs of content words form. */
module Phrases {
  import opened Prelude
  import opened Text

  /** What comes from outside: the Unicode character classes, lower-casing, the length of a
      string in UTF-8, the two word lists, and the regex tokenizer. */
  datatype Lexicon = Lexicon(isAlphanumeric: char -> bool, isNumeric: char -> bool,
                             isUpper: char -> bool, isLower: char -> bool, lower: string -> string,
                             bytes: string -> nat, words: string -> seq<string>,
                             stopwords: set<string>, verbs: set<string>)

  // ---------------------------------------------------------------------------
  // Splitting and joining
  // ---------------------------------------------------------------------------

  /** The pieces between separators, empty ones included. */
  function Split(text: string, isSep: char -> bool): (pieces: seq<string>)
    ensures pieces != []
  {
    if text == "" then [""]
    else
      var rest := Split(text[1..], isSep);
      if isSep(text[0]) then [""] + rest else [[text[0]] + rest[0]] + rest[1..]
  }

  function Separators(text: string, isSep: char -> bool): string {
    if text == "" then ""
    else (if isSep(text[0]) then [text[0]] else "") + Separators(text[1..], isSep)
  }

  function Weave(pieces: seq<string>, seps: string): string
    decreases |seps|
  {
    if pieces == [] then ""
    else if seps == "" then pieces[0]
    else pieces[0] + [seps[0]] + Weave(pieces[1..], seps[1..])
  }

  lemma WeaveFront(c: char, rest: seq<string>, seps: string)
    requires rest != []
    ensures Weave([[c] + rest[0]] + rest[1..], seps) == [c] + Weave(rest, seps)
  {
    var pieces := [[c] + rest[0]] + rest[1..];
    assert pieces[1..] == rest[1..];
    if seps != "" {
      assert [c] + rest[0] + [seps[0]] + Weave(rest[1..], seps[1..]) == [c] + (rest[0] + [seps[0]] + Weave(rest[1..], seps[1..]));
    }
  }

  /** Pieces hold no separator, and with the separators put back they are the text. */
  lemma {:induction false} SplitIs(text: string, isSep: char -> bool)
    ensures forall k, c :: 0 <= k < |Split(text, isSep)| && c in Split(text, isSep)[k] ==> !isSep(c)
    ensures |Split(text, isSep)| == |Separators(text, isSep)| + 1
    ensures Weave(Split(text, isSep), Separators(text, isSep)) == text
  {
    if text != "" {
      SplitIs(text[1..], isSep);
      var rest, seps := Split(text[1..], isSep), Separators(text[1..], isSep);
      var pieces := Split(text, isSep);
      if isSep(text[0]) {
        assert pieces[1..] == rest && ([text[0]] + seps)[1..] == seps;
        assert Weave(pieces, [text[0]] + seps) == "" + [text[0]] + Weave(rest, seps);
        assert forall k :: 1 <= k < |pieces| ==> pieces[k] == rest[k - 1];
      } else {
        WeaveFront(text[0], rest, seps);
        assert "" + seps == seps;
        assert forall k :: 1 <= k < |pieces| ==> pieces[k] == rest[k];
        assert pieces[0] == [text[0]] + rest[0];
      }
      assert text == [text[0]] + text[1..];
    }
  }

  function JoinWords(words: seq<string>): string {
    if words == [] then ""
    else if |words| == 1 then words[0]
    else JoinWords(words[..|words| - 1]) + " " + words[|words| - 1]
  }

  function Spaces(n: nat): string {
    seq(n, k requires 0 <= k < n => ' ')
  }

  /** The words in order, one space between neighbours and none at the ends. */
  ghost predicate IsSpaced(words: seq<string>, text: string) {
    if words == [] then text == "" else text == Weave(words, Spaces(|words| - 1))
  }

  lemma {:induction false} WeaveEnd(pieces: seq<string>, seps: string, c: char, last: string)
    requires |pieces| == |seps| + 1
    ensures Weave(pieces + [last], seps + [c]) == Weave(pieces, seps) + [c] + last
    decreases |seps|
  {
    var more := pieces + [last];
    if seps == "" {
      assert more == [pieces[0], last] && more[1..] == [last];
    } else {
      WeaveEnd(pieces[1..], seps[1..], c, last);
      assert more[1..] == pieces[1..] + [last] && (seps + [c])[1..] == seps[1..] + [c];
    }
  }

  lemma {:induction false} JoinIs(words: seq<string>)
    ensures IsSpaced(words, JoinWords(words))
  {
    if |words| > 1 {
      var init, last := words[..|words| - 1], words[|words| - 1];
      JoinIs(init);
      WeaveEnd(init, Spaces(|init| - 1), ' ', last);
      assert init + [last] == words && Spaces(|init| - 1) + [' '] == Spaces(|words| - 1);
    }
  }

  function NonEmpty(pieces: seq<string>): seq<string> {
    if pieces == [] then []
    else NonEmpty(pieces[..|pieces| - 1]) + if pieces[|pieces| - 1] == "" then [] else [pieces[|pieces| - 1]]
  }

  /** Whitespace collapsed to single spaces. */
  function Normalized(text: string): string {
    JoinWords(NonEmpty(Split(text, IsWhitespace)))
  }

  /** Gaps and words by turns, a gap at either end. */
  ghost function Spread(gaps: seq<string>, words: seq<string>): string
    requires |gaps| == |words| + 1
  {
    if words == [] then gaps[0] else gaps[0] + words[0] + Spread(gaps[1..], words[1..])
  }

  /** The text is these words between gaps of whitespace, none empty between two words. */
  ghost predicate IsSpread(text: string, gaps: seq<string>, words: seq<string>) {
    && |gaps| == |words| + 1 && text == Spread(gaps, words)
    && (forall k :: 0 <= k < |gaps| ==> AllWhitespace(gaps[k]))
    && (forall k :: 0 < k < |words| ==> gaps[k] != "")
    && (forall k :: 0 <= k < |words| ==> words[k] != "" && forall c :: c in words[k] ==> !IsWhitespace(c))
  }

  lemma {:induction false} NonEmptyFront(p: string, rest: seq<string>)
    ensures NonEmpty([p] + rest) == (if p == "" then [] else [p]) + NonEmpty(rest)
  {
    if rest == [] {
      assert [p] + rest == [p] && [p][..0] == [];
    } else {
      NonEmptyFront(p, rest[..|rest| - 1]);
      assert ([p] + rest)[..|rest|] == [p] + rest[..|rest| - 1];
    }
  }

  ghost predicate HoldsNoSpace(pieces: seq<string>) {
    forall k, c :: 0 <= k < |pieces| && c in pieces[k] ==> !IsWhitespace(c)
  }

  lemma OneSpread(p: string) returns (gaps: seq<string>)
    requires HoldsNoSpace([p])
    ensures IsSpread(p, gaps, NonEmpty([p]))
  {
    NonEmptyFront(p, []);
    assert [p] + [] == [p];
    assert forall c :: c in p ==> c in [p][0];
    if p == "" {
      gaps := [""];
    } else {
      gaps := ["", ""];
      assert gaps[1..] == [""] && [p][1..] == [];
    }
  }

  lemma MoreSpread(p: string, c: char, text: string, gaps: seq<string>, words: seq<string>) returns (more: seq<string>)
    requires IsSpread(text, gaps, words) && IsWhitespace(c) && forall x :: x in p ==> !IsWhitespace(x)
    ensures IsSpread(p + [c] + text, more, (if p == "" then [] else [p]) + words)
  {
    var first := [c] + gaps[0];
    var rest := [first] + gaps[1..];
    assert rest[1..] == gaps[1..];
    SpreadFront(c, gaps, words);
    assert forall k :: 1 <= k < |rest| ==> rest[k] == gaps[k];
    if p == "" {
      more := rest;
      assert [] + words == words && "" + [c] + text == [c] + text;
    } else {
      more := [""] + rest;
      assert more[1..] == rest && ([p] + words)[1..] == words;
      assert forall k :: 1 <= k < |more| ==> more[k] == rest[k - 1];
      assert forall k :: 1 <= k < |words| + 1 ==> ([p] + words)[k] == words[k - 1];
    }
  }

  lemma SpreadFront(c: char, gaps: seq<string>, words: seq<string>)
    requires |gaps| == |words| + 1
    ensures Spread([[c] + gaps[0]] + gaps[1..], words) == [c] + Spread(gaps, words)
  {
    var rest := [[c] + gaps[0]] + gaps[1..];
    assert rest[1..] == gaps[1..];
    if words != [] {
      assert [c] + gaps[0] + words[0] + Spread(gaps[1..], words[1..]) == [c] + (gaps[0] + words[0] + Spread(gaps[1..], words[1..]));
    }
  }

  lemma {:induction false} WovenIsSpread(pieces: seq<string>, seps: string) returns (gaps: seq<string>)
    requires |pieces| == |seps| + 1 && HoldsNoSpace(pieces) && AllWhitespace(seps)
    ensures IsSpread(Weave(pieces, seps), gaps, NonEmpty(pieces))
    decreases |seps|
  {
    if seps == "" {
      assert pieces == [pieces[0]];
      gaps := OneSpread(pieces[0]);
    } else {
      var rest := WovenIsSpread(pieces[1..], seps[1..]);
      NonEmptyFront(pieces[0], pieces[1..]);
      assert [pieces[0]] + pieces[1..] == pieces;
      gaps := MoreSpread(pieces[0], seps[0], Weave(pieces[1..], seps[1..]), rest, NonEmpty(pieces[1..]));
    }
  }

  lemma {:induction false} SeparatorsAre(text: string, isSep: char -> bool)
    ensures forall c :: c in Separators(text, isSep) ==> isSep(c)
  {
    if text != "" { SeparatorsAre(text[1..], isSep); }
  }

  /** Normalizing keeps the words of the text, in order, and puts one space between them. */
  lemma NormalizedIs(text: string) returns (gaps: seq<string>, words: seq<string>)
    ensures IsSpread(text, gaps, words) && IsSpaced(words, Normalized(text))
  {
    var pieces, seps := Split(text, IsWhitespace), Separators(text, IsWhitespace);
    SplitIs(text, IsWhitespace);
    SeparatorsAre(text, IsWhitespace);
    words := NonEmpty(pieces);
    gaps := WovenIsSpread(pieces, seps);
    JoinIs(words);
  }

  // ---------------------------------------------------------------------------
  // Runs of kept words
  // ---------------------------------------------------------------------------

  function IsSeparator(lx: Lexicon): char -> bool {
    (c: char) => !lx.isAlphanumeric(c) && c != '-' && c != '_'
  }

  /** The word a piece contributes; None when it breaks the phrase. */
  function Kept(lx: Lexicon, piece: string): Option<string> {
    var token := Trim(piece);
    var lower := lx.lower(token);
    if token == "" || lower in lx.stopwords || lower in lx.verbs
       || (forall k :: 0 <= k < |lower| ==> lx.isNumeric(lower[k]))
    then None else Some(lower)
  }

  type Words = seq<Option<string>>

  function WordsOf(lx: Lexicon, text: string): (ws: Words)
  {
    var pieces := Split(text, IsSeparator(lx));
    seq(|pieces|, k requires 0 <= k < |pieces| => Kept(lx, pieces[k]))
  }

  /** The piece without whitespace around it, in lower case, if it is there, is on neither
      list and is not all digits. */
  ghost predicate IsWordOf(lx: Lexicon, piece: string, word: Option<string>) {
    exists token :: IsTrimmed(piece, token) &&
      var lower := lx.lower(token);
      var plain := token != "" && lower !in lx.stopwords && lower !in lx.verbs && exists c :: c in lower && !lx.isNumeric(c);
      word == if plain then Some(lower) else None
  }

  lemma KeptIs(lx: Lexicon, piece: string)
    ensures IsWordOf(lx, piece, Kept(lx, piece))
  {
    TrimIs(piece);
    var lower := lx.lower(Trim(piece));
    assert (exists c :: c in lower && !lx.isNumeric(c)) <==> !(forall k :: 0 <= k < |lower| ==> lx.isNumeric(lower[k]));
  }

  ghost predicate IsWordChar(lx: Lexicon, c: char) {
    lx.isAlphanumeric(c) || c == '-' || c == '_'
  }

  /** The words of a text: it is cut at everything but letters, digits, hyphens and
      underscores, and each piece contributes its word or breaks the phrase. */
  lemma WordsAre(lx: Lexicon, text: string) returns (pieces: seq<string>, seps: string)
    ensures |pieces| == |seps| + 1 && Weave(pieces, seps) == text
    ensures forall k, c :: 0 <= k < |pieces| && c in pieces[k] ==> IsWordChar(lx, c)
    ensures forall c :: c in seps ==> !IsWordChar(lx, c)
    ensures |WordsOf(lx, text)| == |pieces| && forall k :: 0 <= k < |pieces| ==> IsWordOf(lx, pieces[k], WordsOf(lx, text)[k])
  {
    hide IsWordOf, Weave, Separators, Kept;
    pieces, seps := Split(text, IsSeparator(lx)), Separators(text, IsSeparator(lx));
    SplitIs(text, IsSeparator(lx));
    SeparatorsAre(text, IsSeparator(lx));
    assert forall c :: IsSeparator(lx)(c) <==> !IsWordChar(lx, c);
    assert forall k, c :: 0 <= k < |pieces| && c in pieces[k] ==> !IsSeparator(lx)(c);
    EachKept(lx, text);
  }

  lemma EachKept(lx: Lexicon, text: string)
    ensures var pieces := Split(text, IsSeparator(lx));
            |WordsOf(lx, text)| == |pieces| && forall k :: 0 <= k < |pieces| ==> IsWordOf(lx, pieces[k], WordsOf(lx, text)[k])
  {
    hide IsWordOf, Kept;
    var pieces := Split(text, IsSeparator(lx));
    forall k | 0 <= k < |pieces|
      ensures IsWordOf(lx, pieces[k], WordsOf(lx, text)[k])
    {
      KeptIs(lx, pieces[k]);
    }
  }

  datatype Run = Run(start: nat, end: nat)

  /** A run of at least two kept words that can be extended on neither side. */
  ghost predicate IsPhraseRun(ws: Words, r: Run) {
    && r.start + 2 <= r.end <= |ws|
    && (forall k :: r.start <= k < r.end ==> ws[k].Some?)
    && (r.start > 0 ==> ws[r.start - 1].None?)
    && (r.end < |ws| ==> ws[r.end].None?)
  }

  function Between(ws: Words, i: nat, j: nat): (s: seq<string>)
    requires i <= j <= |ws|
    ensures |s| == j - i
  {
    seq(j - i, k requires 0 <= k < j - i => if ws[i + k].Some? then ws[i + k].value else "")
  }

  function PhraseAt(ws: Words, r: Run): string {
    if r.start <= r.end <= |ws| then JoinWords(Between(ws, r.start, r.end)) else ""
  }

  datatype State = State(open: Option<nat>, runs: seq<Run>)

  function Closed(n: nat, s: State): State {
    State(None, if s.open.Some? && s.open.value + 2 <= n then s.runs + [Run(s.open.value, n)] else s.runs)
  }

  /** The run still open after `n` pieces, and the phrase runs closed before. */
  function Scan(ws: Words, n: nat): (s: State)
    requires n <= |ws|
    ensures s.open.Some? ==> s.open.value < n
  {
    if n == 0 then State(None, [])
    else
      var s := Scan(ws, n - 1);
      if ws[n - 1].None? then Closed(n - 1, s)
      else if s.open.Some? then s
      else s.(open := Some(n - 1))
  }

  function RunsIn(ws: Words): seq<Run> {
    Closed(|ws|, Scan(ws, |ws|)).runs
  }

  ghost predicate OpenIs(ws: Words, n: nat, open: Option<nat>)
    requires n <= |ws|
  {
    match open
    case None => n == 0 || ws[n - 1].None?
    case Some(i) => i < n && (forall k :: i <= k < n ==> ws[k].Some?) && (i > 0 ==> ws[i - 1].None?)
  }

  ghost predicate RunsAre(ws: Words, n: nat, runs: seq<Run>) {
    PhraseRunsBefore(ws, n, runs) && InLine(runs) && Complete(ws, n, runs)
  }

  ghost predicate PhraseRunsBefore(ws: Words, n: nat, runs: seq<Run>) {
    forall k :: 0 <= k < |runs| ==> IsPhraseRun(ws, runs[k]) && runs[k].end < n
  }

  ghost predicate InLine(runs: seq<Run>) {
    forall k, l :: 0 <= k < l < |runs| ==> runs[k].end < runs[l].start
  }

  ghost predicate Complete(ws: Words, n: nat, runs: seq<Run>) {
    forall r: Run :: IsPhraseRun(ws, r) && r.end < n ==> r in runs
  }

  ghost predicate BeforeOpen(s: State) {
    s.open.Some? ==> forall k :: 0 <= k < |s.runs| ==> s.runs[k].end < s.open.value
  }

  /** Closing at a break, or at the end, adds the open run if it is long enough. */
  lemma ClosingStep(ws: Words, n: nat, s: State)
    requires n <= |ws| && (n < |ws| ==> ws[n].None?)
    requires OpenIs(ws, n, s.open) && RunsAre(ws, n, s.runs) && BeforeOpen(s)
    ensures RunsAre(ws, n + 1, Closed(n, s).runs)
  {
    ClosingCompletes(ws, n, s);
    if s.open.Some? && s.open.value + 2 <= n {
      AppendRun(ws, n, s.runs, Run(s.open.value, n));
    }
  }

  lemma AppendRun(ws: Words, n: nat, runs: seq<Run>, r: Run)
    requires PhraseRunsBefore(ws, n, runs) && InLine(runs)
    requires IsPhraseRun(ws, r) && r.end == n && forall k :: 0 <= k < |runs| ==> runs[k].end < r.start
    ensures PhraseRunsBefore(ws, n + 1, runs + [r]) && InLine(runs + [r])
  {
  }

  lemma ClosingCompletes(ws: Words, n: nat, s: State)
    requires n <= |ws| && OpenIs(ws, n, s.open) && Complete(ws, n, s.runs)
    ensures Complete(ws, n + 1, Closed(n, s).runs)
  {
    var runs := Closed(n, s).runs;
    forall r: Run | IsPhraseRun(ws, r) && r.end < n + 1
      ensures r in runs
    {
      if r.end == n {
        EndsOpen(ws, n, s.open, r);
        assert runs[|s.runs|] == r;
      } else {
        assert r in s.runs;
      }
    }
  }

  lemma EndsOpen(ws: Words, n: nat, open: Option<nat>, r: Run)
    requires n <= |ws| && OpenIs(ws, n, open) && IsPhraseRun(ws, r) && r.end == n
    ensures open == Some(r.start)
  {
    assert ws[n - 1].Some?;
    var i := open.value;
    assert r.start < i ==> r.start <= i - 1 < r.end;
    assert i < r.start ==> i <= r.start - 1 < n;
  }

  lemma NotEndingAt(ws: Words, r: Run, k: nat)
    requires IsPhraseRun(ws, r) && k < |ws| && ws[k].Some?
    ensures r.end != k
  {
  }

  lemma SkippingCompletes(ws: Words, n: nat, runs: seq<Run>)
    requires 0 < n <= |ws| && ws[n - 1].Some? && Complete(ws, n - 1, runs)
    ensures Complete(ws, n, runs)
  {
    forall r: Run | IsPhraseRun(ws, r) && r.end < n
      ensures r in runs
    {
      NotEndingAt(ws, r, n - 1);
    }
  }

  lemma {:induction false} ScanIs(ws: Words, n: nat)
    requires n <= |ws|
    ensures var s := Scan(ws, n); OpenIs(ws, n, s.open) && RunsAre(ws, n, s.runs) && BeforeOpen(s)
  {
    if n > 0 {
      ScanIs(ws, n - 1);
      var s := Scan(ws, n - 1);
      if ws[n - 1].None? {
        ClosingStep(ws, n - 1, s);
      } else {
        SkippingCompletes(ws, n, s.runs);
      }
    }
  }

  // ---------------------------------------------------------------------------
  // Phrases
  // ---------------------------------------------------------------------------

  function Texts(ws: Words, runs: seq<Run>): (s: seq<string>)
    ensures |s| == |runs|
  {
    seq(|runs|, k requires 0 <= k < |runs| => PhraseAt(ws, runs[k]))
  }

  /** Every phrase run's words in order, first occurrences only. */
  function PhrasesIn(ws: Words): seq<string> {
    Merge([], Texts(ws, RunsIn(ws)))
  }

  /** The run's words, in order. */
  ghost predicate IsRun(ws: Words, r: Run, words: seq<string>) {
    r.start + |words| == r.end <= |ws| && forall k :: 0 <= k < |words| ==> ws[r.start + k] == Some(words[k])
  }

  /** `p` is the words of the run in order, one space between neighbours. */
  ghost predicate Spells(ws: Words, r: Run, p: string) {
    exists words: seq<string> :: IsRun(ws, r, words) && IsSpaced(words, p)
  }

  lemma PhraseIs(ws: Words, r: Run, p: string)
    requires IsPhraseRun(ws, r)
    ensures Spells(ws, r, p) <==> PhraseAt(ws, r) == p
  {
    hide IsSpaced, JoinWords;
    var words := Between(ws, r.start, r.end);
    JoinIs(words);
    SpacedOnce(words, p, JoinWords(words));
    RunWords(ws, r, words);
    if Spells(ws, r, p) {
      var other: seq<string> :| IsRun(ws, r, other) && IsSpaced(other, p);
      RunWords(ws, r, other);
    }
  }

  lemma RunWords(ws: Words, r: Run, words: seq<string>)
    requires IsPhraseRun(ws, r)
    ensures IsRun(ws, r, words) <==> words == Between(ws, r.start, r.end)
  {
    var all := Between(ws, r.start, r.end);
    assert forall k :: 0 <= k < |all| ==> ws[r.start + k] == Some(all[k]);
    if IsRun(ws, r, words) {
      assert forall k :: 0 <= k < |all| ==> ws[r.start + k] == Some(words[k]) && all[k] == words[k];
    }
  }

  lemma SpacedOnce(words: seq<string>, p: string, q: string)
    requires IsSpaced(words, q)
    ensures IsSpaced(words, p) <==> p == q
  {
  }

  /** The phrases are exactly the maximal runs of two or more kept words, each once, in the
      order in which they first occur. */
  lemma PhrasesAre(ws: Words)
    ensures forall r: Run :: r in RunsIn(ws) <==> IsPhraseRun(ws, r)
    ensures InLine(RunsIn(ws))
    ensures Distinct(PhrasesIn(ws))
    ensures forall p :: p in PhrasesIn(ws) <==> exists r :: IsPhraseRun(ws, r) && Spells(ws, r, p)
    ensures InFirstOrder(Texts(ws, RunsIn(ws)), PhrasesIn(ws))
  {
    RunsInOrder(ws);
    PhraseMembers(ws);
    forall p, r | IsPhraseRun(ws, r)
      ensures Spells(ws, r, p) <==> PhraseAt(ws, r) == p
    {
      PhraseIs(ws, r, p);
    }
    MergeIs([], Texts(ws, RunsIn(ws)));
    MergeOrder(Texts(ws, RunsIn(ws)));
  }

  lemma RunsInOrder(ws: Words)
    ensures forall r: Run :: r in RunsIn(ws) <==> IsPhraseRun(ws, r)
    ensures InLine(RunsIn(ws))
  {
    ScanIs(ws, |ws|);
    ClosingStep(ws, |ws|, Scan(ws, |ws|));
    var runs := RunsIn(ws);
    assert RunsAre(ws, |ws| + 1, runs);
    forall r: Run | r in runs
      ensures IsPhraseRun(ws, r)
    {
      var k :| 0 <= k < |runs| && runs[k] == r;
    }
  }

  lemma PhraseMembers(ws: Words)
    ensures forall p :: p in PhrasesIn(ws) <==> exists r :: IsPhraseRun(ws, r) && PhraseAt(ws, r) == p
  {
    RunsInOrder(ws);
    var runs, texts := RunsIn(ws), Texts(ws, RunsIn(ws));
    MergeIs([], texts);
    forall p
      ensures p in PhrasesIn(ws) <==> exists r :: IsPhraseRun(ws, r) && PhraseAt(ws, r) == p
    {
      if p in texts {
        var k :| 0 <= k < |texts| && texts[k] == p;
        assert runs[k] in runs && PhraseAt(ws, runs[k]) == p;
      }
      if r :| IsPhraseRun(ws, r) && PhraseAt(ws, r) == p {
        assert r in runs;
        var k :| 0 <= k < |runs| && runs[k] == r;
        assert texts[k] == p;
      }
    }
  }

  /** Ends the current run; a run of two or more words is a phrase, kept once. */
  method Flush(current: seq<string>, out: seq<string>, seen: set<string>) returns (phrases: seq<string>, known: set<string>)
    requires forall p :: p in seen <==> p in out
    ensures phrases == if |current| >= 2 then Merge(out, [JoinWords(current)]) else out
    ensures |current| >= 2 ==> exists p :: IsSpaced(current, p) && p in phrases
    ensures forall p :: p in known <==> p in phrases
  {
    JoinIs(current);
    phrases, known := out, seen;
    if |current| >= 2 {
      var phrase := JoinWords(current);
      assert [phrase][..0] == [];
      if phrase !in known {
        known := known + {phrase};
        phrases := phrases + [phrase];
      }
    }
  }

  function OpenWords(ws: Words, n: nat): seq<string>
    requires n <= |ws|
  {
    var s := Scan(ws, n);
    if s.open.Some? then Between(ws, s.open.value, n) else []
  }

  function PhrasesSoFar(ws: Words, n: nat): seq<string>
    requires n <= |ws|
  {
    Merge([], Texts(ws, Scan(ws, n).runs))
  }

  /** What flushing at `n` does, in terms of the runs. */
  lemma FlushCloses(ws: Words, n: nat)
    requires n <= |ws|
    ensures var current := OpenWords(ws, n);
            (if |current| >= 2 then Merge(PhrasesSoFar(ws, n), [JoinWords(current)]) else PhrasesSoFar(ws, n))
            == Merge([], Texts(ws, Closed(n, Scan(ws, n)).runs))
  {
    var s, current := Scan(ws, n), OpenWords(ws, n);
    if |current| >= 2 {
      var runs := Closed(n, s).runs;
      assert runs == s.runs + [Run(s.open.value, n)];
      assert Texts(ws, runs) == Texts(ws, s.runs) + [JoinWords(current)];
      MergeSplits([], Texts(ws, s.runs), [JoinWords(current)]);
    }
  }

  lemma KeptStep(ws: Words, k: nat)
    requires k < |ws| && ws[k].Some?
    ensures OpenWords(ws, k + 1) == OpenWords(ws, k) + [ws[k].value]
    ensures PhrasesSoFar(ws, k + 1) == PhrasesSoFar(ws, k)
  {
    var s, t := Scan(ws, k), Scan(ws, k + 1);
    assert t.runs == s.runs;
    if s.open.Some? {
      assert Between(ws, s.open.value, k + 1) == Between(ws, s.open.value, k) + [ws[k].value];
    } else {
      assert Between(ws, k, k + 1) == [ws[k].value];
    }
  }

  lemma BreakStep(ws: Words, k: nat)
    requires k < |ws| && ws[k].None?
    ensures OpenWords(ws, k + 1) == []
    ensures PhrasesSoFar(ws, k + 1) == Merge([], Texts(ws, Closed(k, Scan(ws, k)).runs))
  {
  }

  method ExtractPhrases(lx: Lexicon, text: string) returns (phrases: seq<string>)
    ensures phrases == PhrasesIn(WordsOf(lx, text))
  {
    phrases := GatherPhrases(WordsOf(lx, text));
  }

  method GatherPhrases(ws: Words) returns (phrases: seq<string>)
    ensures phrases == PhrasesIn(ws)
  {
    phrases := [];
    var seen: set<string>, current: seq<string> := {}, [];
    for k := 0 to |ws|
      invariant phrases == PhrasesSoFar(ws, k) && current == OpenWords(ws, k)
      invariant forall p :: p in seen <==> p in phrases
    {
      if ws[k].None? {
        FlushCloses(ws, k);
        BreakStep(ws, k);
        phrases, seen := Flush(current, phrases, seen);
        current := [];
      } else {
        KeptStep(ws, k);
        current := current + [ws[k].value];
      }
    }
    FlushCloses(ws, |ws|);
    phrases, seen := Flush(current, phrases, seen);
  }

  // ---------------------------------------------------------------------------
  // Entities
  // ---------------------------------------------------------------------------

  predicate IsProperNoun(lx: Lexicon, word: string) {
    && lx.bytes(word) >= 2 && word != "" && lx.isUpper(word[0])
    && exists k :: 0 <= k < |word| && lx.isLower(word[k])
  }

  predicate IsNameToken(lx: Lexicon, word: string) {
    IsProperNoun(lx, word) && lx.bytes(lx.lower(word)) >= 2
    && lx.lower(word) !in lx.stopwords && lx.lower(word) !in lx.verbs
  }

  function NameTokens(lx: Lexicon, tokens: seq<string>): seq<string> {
    if tokens == [] then []
    else NameTokens(lx, tokens[..|tokens| - 1]) +
         if IsNameToken(lx, tokens[|tokens| - 1]) then [lx.lower(tokens[|tokens| - 1])] else []
  }

  function Entities(lx: Lexicon, text: string): seq<string> {
    if IsBlank(text) then []
    else Merge(Merge([], NameTokens(lx, lx.words(Normalized(text)))), PhrasesIn(WordsOf(lx, Normalized(text))))
  }

  /** `name` is a capitalised token, of at least two bytes and with a small letter in it, in
      lower case, itself at least two bytes long and on neither list. */
  ghost predicate IsName(lx: Lexicon, token: string, name: string) {
    && lx.bytes(token) >= 2 && token != "" && lx.isUpper(token[0]) && (exists c :: c in token && lx.isLower(c))
    && name == lx.lower(token) && lx.bytes(name) >= 2 && name !in lx.stopwords && name !in lx.verbs
  }

  lemma NameIs(lx: Lexicon, token: string, name: string)
    ensures IsName(lx, token, name) <==> IsNameToken(lx, token) && name == lx.lower(token)
  {
    assert (exists c :: c in token && lx.isLower(c)) <==> exists k :: 0 <= k < |token| && lx.isLower(token[k]);
  }

  lemma {:induction false} NamesAre(lx: Lexicon, tokens: seq<string>)
    ensures forall e :: e in NameTokens(lx, tokens) <==> exists k :: 0 <= k < |tokens| && IsName(lx, tokens[k], e)
  {
    if tokens != [] {
      var init, last := tokens[..|tokens| - 1], tokens[|tokens| - 1];
      NamesAre(lx, init);
      forall e
        ensures e in NameTokens(lx, tokens) <==> exists k :: 0 <= k < |tokens| && IsName(lx, tokens[k], e)
      {
        NameIs(lx, last, e);
        if k :| 0 <= k < |init| && IsName(lx, init[k], e) { assert tokens[k] == init[k]; }
        if k :| 0 <= k < |tokens| && IsName(lx, tokens[k], e) { assert k < |init| ==> init[k] == tokens[k]; }
        assert IsName(lx, last, e) ==> tokens[|tokens| - 1] == last;
      }
    }
  }

  /** No entity twice; exactly the names among the tokens and the phrases, and none in a text
      that is all whitespace. */
  lemma EntitiesAre(lx: Lexicon, text: string)
    ensures Distinct(Entities(lx, text))
    ensures IsBlank(text) ==> Entities(lx, text) == []
    ensures !IsBlank(text) ==> forall e :: e in Entities(lx, text) <==>
              var tokens, ws := lx.words(Normalized(text)), WordsOf(lx, Normalized(text));
              || (exists k :: 0 <= k < |tokens| && IsName(lx, tokens[k], e))
              || (exists r :: IsPhraseRun(ws, r) && Spells(ws, r, e))
  {
    var tokens, ws := lx.words(Normalized(text)), WordsOf(lx, Normalized(text));
    NamesAre(lx, tokens);
    MergeIs([], NameTokens(lx, tokens));
    MergeIs(Merge([], NameTokens(lx, tokens)), PhrasesIn(ws));
    PhrasesAre(ws);
  }

  lemma NameStep(lx: Lexicon, tokens: seq<string>, k: nat)
    requires k < |tokens|
    ensures NameTokens(lx, tokens[..k + 1]) ==
            if IsNameToken(lx, tokens[k]) then NameTokens(lx, tokens[..k]) + [lx.lower(tokens[k])] else NameTokens(lx, tokens[..k])
  {
    assert tokens[..k + 1][..k] == tokens[..k];
  }

  method ExtractEntities(lx: Lexicon, text: string) returns (out: seq<string>)
    ensures out == Entities(lx, text)
  {
    out := [];
    if IsBlank(text) {
      return;
    }
    var normalized := Normalized(text);
    out := GatherNames(lx, lx.words(normalized));
    var phrases := ExtractPhrases(lx, normalized);
    out := AppendNew(out, phrases);
  }

  /** Capitalised tokens, lower-cased, each once. */
  method GatherNames(lx: Lexicon, tokens: seq<string>) returns (out: seq<string>)
    ensures out == Merge([], NameTokens(lx, tokens))
  {
    out := [];
    var seen: set<string> := {};
    for k := 0 to |tokens|
      invariant out == Merge([], NameTokens(lx, tokens[..k]))
      invariant forall e :: e in seen <==> e in out
    {
      NameStep(lx, tokens, k);
      var raw := tokens[k];
      if IsProperNoun(lx, raw) {
        var lower := lx.lower(raw);
        if lx.bytes(lower) >= 2 && lower !in lx.stopwords && lower !in lx.verbs {
          MergeOne([], NameTokens(lx, tokens[..k]), lower);
          if lower !in seen {
            seen := seen + {lower};
            out := out + [lower];
          }
        }
      }
    }
    assert tokens[..|tokens|] == tokens;
  }

  /** The phrases not listed yet go behind the names. */
  method AppendNew(names: seq<string>, phrases: seq<string>) returns (out: seq<string>)
    ensures out == Merge(names, phrases)
  {
    out := names;
    var seen := Elements(names);
    for k := 0 to |phrases|
      invariant out == Merge(names, phrases[..k])
      invariant forall e :: e in seen <==> e in out
    {
      assert phrases[..k + 1][..k] == phrases[..k];
      if phrases[k] !in seen {
        seen := seen + {phrases[k]};
        out := out + [phrases[k]];
      }
    }
    assert phrases[..|phrases|] == phrases;
  }
}
