/** The text handling of `typeWriterEffect` (js/app/main.js): every
    `<br>`-style tag of a message is turned into a line break, then the text
    is emitted one character at a time, each line break written back as
    `<br/>`. The element's markup is modelled as a plain string. */
module Typewriter {

  /** The characters `\s` matches in a JavaScript regular expression. */
  predicate IsJsSpace(c: char)
    ensures c == ' ' || c == '\t' || c == '\n' || c == '\r' ==> IsJsSpace(c)
    ensures IsJsSpace(c) ==> c != '<' && c != '/' && c != '>' && c != 'b' && c != 'B' && c != 'r' && c != 'R'
  {
    var n := c as int;
    || n == 0x09 || n == 0x0A || n == 0x0B || n == 0x0C || n == 0x0D || n == 0x20
    || n == 0xA0 || n == 0x1680 || (0x2000 <= n <= 0x200A)
    || n == 0x2028 || n == 0x2029 || n == 0x202F || n == 0x205F || n == 0x3000 || n == 0xFEFF
  }

  /** The number of leading `\s` characters. */
  function SpaceRun(s: string): (n: nat)
    ensures n <= |s|
    ensures forall i :: 0 <= i < n ==> IsJsSpace(s[i])
    ensures n < |s| ==> !IsJsSpace(s[n])
  {
    if s != [] && IsJsSpace(s[0]) then 1 + SpaceRun(s[1..]) else 0
  }

  /** The length of the match of `/<br\s*\/?>/i` at the start of `s`, or 0
      when the pattern does not match there. `\s*` takes every space, since
      neither `/` nor `>` is one, so the match is unique. */
  function BreakAt(s: string): (n: nat)
    ensures n <= |s|
    ensures n > 0 ==> n >= 4 && s[0] == '<' && s[n - 1] == '>'
    ensures |s| > 0 && s[0] != '<' ==> n == 0
  {
    if |s| >= 3 && s[0] == '<' && (s[1] == 'b' || s[1] == 'B') && (s[2] == 'r' || s[2] == 'R') then
      var w := 3 + SpaceRun(s[3..]);
      var w' := if w < |s| && s[w] == '/' then w + 1 else w;
      if w' < |s| && s[w'] == '>' then w' + 1 else 0
    else 0
  }

  /** Every character of `s` is matched by `\s`. */
  predicate AllSpaces(s: string) {
    forall i :: 0 <= i < |s| ==> IsJsSpace(s[i])
  }

  /** `t` is, as a whole, a match of `/<br\s*\/?>/i`: `<`, `b` or `B`, `r` or
      `R`, a run of spaces, an optional `/`, and `>`. */
  predicate IsBreakTag(t: string) {
    && |t| >= 4 && t[0] == '<' && (t[1] == 'b' || t[1] == 'B') && (t[2] == 'r' || t[2] == 'R')
    && t[|t| - 1] == '>'
    && var mid := t[3..|t| - 1];
      || AllSpaces(mid)
      || (|mid| > 0 && mid[|mid| - 1] == '/' && AllSpaces(mid[..|mid| - 1]))
  }

  /** `BreakAt` finds exactly the matches of the pattern: a prefix of `s` is a
      match if and only if it is `BreakAt(s)` characters long. In particular
      `BreakAt(s) == 0` means no prefix of `s` matches. */
  lemma {:induction false} BreakAtMatches(s: string)
    ensures forall m :: 0 < m <= |s| ==> (IsBreakTag(s[..m]) <==> m == BreakAt(s))
  {
    forall m | 0 < m <= |s|
      ensures IsBreakTag(s[..m]) <==> m == BreakAt(s)
    {
      if IsBreakTag(s[..m]) {
        TagPrefixIsBreak(s, m);
      }
      if m == BreakAt(s) {
        BreakIsTagPrefix(s);
      }
    }
  }

  lemma TagPrefixIsBreak(s: string, m: nat)
    requires 0 < m <= |s| && IsBreakTag(s[..m])
    ensures BreakAt(s) == m
  {
    var t := s[..m];
    var mid := t[3..m - 1];
    assert mid == s[3..m - 1];
    assert s[m - 1] == '>';
    if AllSpaces(mid) {
      assert s[3..][m - 4] == '>';
      SpaceRunExact(s[3..], m - 4);
    } else {
      var body := mid[..|mid| - 1];
      assert s[m - 2] == '/';
      assert s[3..][m - 5] == '/';
      forall i | 0 <= i < m - 5
        ensures IsJsSpace(s[3..][i])
      {
        assert s[3..][i] == body[i];
      }
      SpaceRunExact(s[3..], m - 5);
    }
  }

  lemma BreakIsTagPrefix(s: string)
    requires BreakAt(s) > 0
    ensures IsBreakTag(s[..BreakAt(s)])
  {
    var n := BreakAt(s);
    var k := SpaceRun(s[3..]);
    var t := s[..n];
    var mid := t[3..n - 1];
    var sp := s[3..];
    if s[3 + k] == '/' {
      assert n == 5 + k && |mid| == k + 1;
      var body := mid[..|mid| - 1];
      forall i | 0 <= i < k
        ensures IsJsSpace(body[i])
      {
        assert body[i] == sp[i];
      }
    } else {
      assert n == 4 + k && |mid| == k;
      forall i | 0 <= i < k
        ensures IsJsSpace(mid[i])
      {
        assert mid[i] == sp[i];
      }
    }
  }

  /** `htmlText.replace(/<br\s*\/?>/gi, "\n")`: scanning from the left, each
      match becomes one line break and the scan resumes after it. */
  function Normalise(s: string): (t: string)
    ensures |t| <= |s|
    decreases |s|
  {
    if s == [] then []
    else
      var n := BreakAt(s);
      if n > 0 then "\n" + Normalise(s[n..])
      else [s[0]] + Normalise(s[1..])
  }

  /** One step of the replacement, against the pattern itself: a `<` that
      starts no match, like any other character that starts none, is kept as
      it is; a match is replaced by one line break and the scan resumes after
      it. */
  lemma NormaliseStep(s: string)
    requires s != []
    ensures (forall m :: 0 < m <= |s| ==> !IsBreakTag(s[..m])) ==>
      Normalise(s) == [s[0]] + Normalise(s[1..])
    ensures forall m :: 0 < m <= |s| && IsBreakTag(s[..m]) ==>
      Normalise(s) == "\n" + Normalise(s[m..])
  {
    BreakAtMatches(s);
    var n := BreakAt(s);
    if n > 0 {
      assert IsBreakTag(s[..n]);
    }
  }

  /** What one step of `type()` appends to the element. */
  function Emit(c: char): (html: string)
    ensures c == '\n' <==> html == "<br/>"
    ensures c != '\n' ==> html == [c]
  {
    if c == '\n' then "<br/>" else [c]
  }

  /** The markup the element holds once every character of `t` is emitted:
      no raw line break is left, each one stands as a `<br/>` tag. */
  function Render(t: string): (html: string)
    ensures '\n' !in html
    ensures |html| >= |t|
  {
    if t == [] then [] else Emit(t[0]) + Render(t[1..])
  }

  lemma {:induction false} RenderAppend(t: string, c: char)
    ensures Render(t + [c]) == Render(t) + Emit(c)
  {
    if t == [] {
      assert [c][1..] == [];
    } else {
      assert (t + [c])[1..] == t[1..] + [c];
      RenderAppend(t[1..], c);
    }
  }

  /** `typeWriterEffect`: after the normalisation, `type()` runs once per
      character, appending it (a line break as `<br/>`); when it stops the
      element holds the rendering of the whole normalised text. */
  method TypeWriterEffect(htmlText: string) returns (html: string)
    ensures html == Render(Normalise(htmlText))
  {
    var text := Normalise(htmlText);
    html := "";
    var i := 0;
    while i < |text|
      invariant 0 <= i <= |text|
      invariant html == Render(text[..i])
      decreases |text| - i
    {
      if text[i] == '\n' {
        html := html + "<br/>";
      } else {
        html := html + [text[i]];
      }
      RenderAppend(text[..i], text[i]);
      assert text[..i + 1] == text[..i] + [text[i]];
      i := i + 1;
    }
    assert text[..i] == text;
  }

  /** A text with no `<` comes through the normalisation unchanged. */
  lemma {:induction false} NormaliseWithoutTags(s: string)
    requires '<' !in s
    ensures Normalise(s) == s
    decreases |s|
  {
    if s != [] {
      assert '<' !in s[1..];
      NormaliseWithoutTags(s[1..]);
    }
  }

  /** Every variant of the tag — `b` and `r` in either case, any run of
      spaces, with or without the closing slash — becomes one line break,
      and the scan goes on right after it. */
  lemma TagBecomesBreak(b: char, r: char, spaces: string, slash: bool, rest: string)
    requires b == 'b' || b == 'B'
    requires r == 'r' || r == 'R'
    requires forall i :: 0 <= i < |spaces| ==> IsJsSpace(spaces[i])
    ensures var close := if slash then "/>" else ">";
      Normalise(['<', b, r] + spaces + close + rest) == "\n" + Normalise(rest)
  {
    var close := if slash then "/>" else ">";
    var s := ['<', b, r] + spaces + close + rest;
    var w := 3 + |spaces|;
    assert s[3..] == spaces + close + rest;
    assert s[w] == close[0];
    SpaceRunExact(s[3..], |spaces|);
    var n := w + |close|;
    assert BreakAt(s) == n;
    assert s[n..] == rest;
  }

  lemma {:induction false} SpaceRunExact(s: string, n: nat)
    requires n < |s| && !IsJsSpace(s[n])
    requires forall i :: 0 <= i < n ==> IsJsSpace(s[i])
    ensures SpaceRun(s) == n
    decreases n
  {
    if n > 0 {
      SpaceRunExact(s[1..], n - 1);
    }
  }

  lemma NormaliseBreakTag(rest: string)
    ensures Normalise("<br/>" + rest) == "\n" + Normalise(rest)
  {
    assert ['<', 'b', 'r'] + "" + "/>" + rest == "<br/>" + rest;
    TagBecomesBreak('b', 'r', "", true, rest);
  }

  lemma NormalisePlain(c: char, rest: string)
    requires c != '<'
    ensures Normalise([c] + rest) == [c] + Normalise(rest)
  {
    var s := [c] + rest;
    assert BreakAt(s) == 0;
    assert s[1..] == rest;
  }

  /** Round trip: for a text with no `<`, normalising what the typewriter
      writes gives back the text, every `<br/>` it wrote becoming the line
      break it came from. */
  lemma {:induction false} NormaliseRender(t: string)
    requires '<' !in t
    ensures Normalise(Render(t)) == t
    decreases |t|
  {
    if t != [] {
      var rest := Render(t[1..]);
      assert '<' !in t[1..];
      NormaliseRender(t[1..]);
      if t[0] == '\n' {
        NormaliseBreakTag(rest);
      } else {
        NormalisePlain(t[0], rest);
      }
    }
  }
}
