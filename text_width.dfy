/**
 * Visual width of terminal text, as computed by `display_width` and
 * `pad_to_width` (the three Python dialog/help scripts carry identical
 * copies): ANSI SGR colour escapes `ESC [ <digits and semicolons> m` are
 * removed left to right, then every remaining character counts 2 columns if
 * its East-Asian width class is F or W and 1 otherwise.
 */
module TextWidth {
  import opened Strings

  const ESC: char := '\U{1B}'

  /** Characters of the box and table frames drawn by the scripts. */
  const FrameChars: set<char> := {
    '│', '─', '┌', '┬', '┐', '├', '┼', '┤', '└', '┴', '┘',
    '║', '═', '╔', '╗', '╠', '╣', '╚', '╝'
  }

  predicate NarrowFrame(isWide: char -> bool)
  {
    !isWide(' ') && forall c :: c in FrameChars ==> !isWide(c)
  }

  /**
   * `unicodedata.east_asian_width(c) in ('F', 'W')`. The Unicode table is
   * not modelled: any classification is allowed in which the space and the
   * frame characters are narrow (their classes are Na and A).
   */
  type WideOracle = isWide: char -> bool | NarrowFrame(isWide) witness (c: char) => false

  /** A character of `[0-9;]`, the parameters of an SGR escape. */
  predicate IsParamChar(c: char)
  {
    ('0' <= c <= '9') || c == ';'
  }

  /** A complete SGR escape sequence `ESC [ [0-9;]* m`. */
  predicate IsSgr(e: string)
  {
    && |e| >= 3 && e[0] == ESC && e[1] == '[' && e[|e| - 1] == 'm'
    && forall i :: 2 <= i < |e| - 1 ==> IsParamChar(e[i])
  }

  /** Length of the longest run of parameter characters at the head of `s`. */
  function ParamRun(s: string): (n: nat)
    ensures n <= |s|
    ensures forall i :: 0 <= i < n ==> IsParamChar(s[i])
    ensures n < |s| ==> !IsParamChar(s[n])
    decreases |s|
  {
    if s != [] && IsParamChar(s[0]) then 1 + ParamRun(s[1..]) else 0
  }

  /** Length of the SGR escape the regular expression matches at the head of `s`, 0 if none. */
  function EscapeAt(s: string): (n: nat)
    ensures n <= |s|
    ensures n > 0 ==> IsSgr(s[..n])
  {
    if |s| >= 2 && s[0] == ESC && s[1] == '[' then
      var k := ParamRun(s[2..]);
      if 2 + k < |s| && s[2 + k] == 'm' then 3 + k else 0
    else 0
  }

  /** `re.sub(r'\033\[[0-9;]*m', '', s)`, scanning left to right. */
  function StripSgr(s: string): (r: string)
    ensures |r| <= |s|
    decreases |s|
  {
    if s == [] then []
    else
      var n := EscapeAt(s);
      if n > 0 then StripSgr(s[n..]) else [s[0]] + StripSgr(s[1..])
  }

  function CharWidth(isWide: WideOracle, c: char): nat
  {
    if isWide(c) then 2 else 1
  }

  /** Sum of the character widths, with no escape stripping. */
  function WidthSum(isWide: WideOracle, s: string): nat
    decreases |s|
  {
    if s == [] then 0 else CharWidth(isWide, s[0]) + WidthSum(isWide, s[1..])
  }

  /** `display_width(text)`. */
  function DisplayWidth(isWide: WideOracle, s: string): nat
  {
    WidthSum(isWide, StripSgr(s))
  }

  /** A character that can neither continue nor complete an escape begun before it. */
  predicate Breaks(c: char)
  {
    c != '[' && c != 'm' && !IsParamChar(c)
  }

  /** `t` cannot complete an escape left open at the end of whatever precedes it. */
  predicate StartsClean(t: string)
  {
    t == [] || Breaks(t[0])
  }

  lemma {:induction false} ParamRunExact(s: string, n: nat)
    requires n < |s| && !IsParamChar(s[n])
    requires forall i :: 0 <= i < n ==> IsParamChar(s[i])
    ensures ParamRun(s) == n
    decreases n
  {
    if n > 0 {
      ParamRunExact(s[1..], n - 1);
    }
  }

  /** An SGR escape at the head of `s` is found, with its whole length: the match is never missed. */
  lemma EscapeAtComplete(s: string, k: nat)
    requires 0 < k <= |s| && IsSgr(s[..k])
    ensures EscapeAt(s) == k
  {
    ParamRunExact(s[2..], k - 3);
  }

  lemma {:induction false} ParamRunAppend(a: string, t: string)
    requires ParamRun(a) < |a| || StartsClean(t)
    ensures ParamRun(a + t) == ParamRun(a)
    decreases |a|
  {
    if a != [] && IsParamChar(a[0]) {
      assert (a + t)[1..] == a[1..] + t;
      ParamRunAppend(a[1..], t);
    }
  }

  lemma EscapeAtAppend(a: string, t: string)
    requires a != [] && StartsClean(t)
    ensures EscapeAt(a + t) == EscapeAt(a)
  {
    if |a| >= 2 && a[0] == ESC && a[1] == '[' {
      assert (a + t)[2..] == a[2..] + t;
      ParamRunAppend(a[2..], t);
    }
  }

  /** An escape sequence at the head of the text is removed entirely. */
  lemma StripSgrEscape(e: string, t: string)
    requires IsSgr(e)
    ensures StripSgr(e + t) == StripSgr(t)
  {
    var s := e + t;
    assert s[2..] == e[2..] + t;
    ParamRunExact(s[2..], |e| - 3);
    assert EscapeAt(s) == |e|;
    assert s[|e|..] == t;
  }

  /** Text without ESC passes through unchanged. */
  lemma {:induction false} StripSgrPlainPrefix(p: string, t: string)
    requires ESC !in p
    ensures StripSgr(p + t) == p + StripSgr(t)
    decreases |p|
  {
    if p != [] {
      assert (p + t)[1..] == p[1..] + t;
      StripSgrPlainPrefix(p[1..], t);
      assert StripSgr(p + t) == [p[0]] + StripSgr(p[1..] + t);
      ConcatAssoc([p[0]], p[1..], StripSgr(t));
      assert p == [p[0]] + p[1..];
    } else {
      assert p + t == t;
    }
  }

  /** Escape removal distributes over a cut before a character that breaks any open escape. */
  lemma {:induction false} StripSgrAppend(a: string, t: string)
    requires StartsClean(t)
    ensures StripSgr(a + t) == StripSgr(a) + StripSgr(t)
    decreases |a|
  {
    if a == [] {
      assert a + t == t;
    } else {
      EscapeAtAppend(a, t);
      var n := EscapeAt(a);
      if n > 0 {
        assert (a + t)[n..] == a[n..] + t;
        StripSgrAppend(a[n..], t);
        assert StripSgr(a + t) == StripSgr(a[n..] + t);
      } else {
        assert (a + t)[1..] == a[1..] + t;
        StripSgrAppend(a[1..], t);
        assert StripSgr(a + t) == [a[0]] + StripSgr(a[1..] + t);
        ConcatAssoc([a[0]], StripSgr(a[1..]), StripSgr(t));
      }
    }
  }

  /** An escape sequence at the end of the text shows nothing either. */
  lemma StripSgrTrailing(t: string, e: string)
    requires IsSgr(e)
    ensures StripSgr(t + e) == StripSgr(t)
  {
    StripSgrAppend(t, e);
    StripSgrEscape(e, []);
    assert e + [] == e;
  }

  lemma {:induction false} WidthSumAppend(isWide: WideOracle, a: string, b: string)
    ensures WidthSum(isWide, a + b) == WidthSum(isWide, a) + WidthSum(isWide, b)
    decreases |a|
  {
    if a == [] {
      assert a + b == b;
    } else {
      assert (a + b)[1..] == a[1..] + b;
      WidthSumAppend(isWide, a[1..], b);
    }
  }

  /** Each character counts at least one column, exactly one when none is wide. */
  lemma {:induction false} WidthSumBounds(isWide: WideOracle, s: string)
    ensures WidthSum(isWide, s) >= |s|
    ensures WidthSum(isWide, s) == |s| <==> forall i :: 0 <= i < |s| ==> !isWide(s[i])
    decreases |s|
  {
    if s != [] {
      WidthSumBounds(isWide, s[1..]);
      assert forall i :: 1 <= i < |s| ==> s[i] == s[1..][i - 1];
    }
  }

  /**
   * The width is at least the number of characters left once the escapes
   * are removed, and equal to it exactly when none of them is wide.
   */
  lemma DisplayWidthCountsVisible(isWide: WideOracle, s: string)
    ensures DisplayWidth(isWide, s) >= |StripSgr(s)|
    ensures DisplayWidth(isWide, s) == |StripSgr(s)| <==>
            forall i :: 0 <= i < |StripSgr(s)| ==> !isWide(StripSgr(s)[i])
  {
    WidthSumBounds(isWide, StripSgr(s));
  }

  /** An SGR escape in front of any text adds no width. */
  lemma EscapeHasNoWidth(isWide: WideOracle, e: string, t: string)
    requires IsSgr(e)
    ensures DisplayWidth(isWide, e + t) == DisplayWidth(isWide, t)
  {
    StripSgrEscape(e, t);
  }

  /** Widths add up across a cut before a character that breaks any open escape. */
  lemma DisplayWidthAppend(isWide: WideOracle, a: string, t: string)
    requires StartsClean(t)
    ensures DisplayWidth(isWide, a + t) == DisplayWidth(isWide, a) + DisplayWidth(isWide, t)
  {
    StripSgrAppend(a, t);
    WidthSumAppend(isWide, StripSgr(a), StripSgr(t));
  }

  lemma {:induction false} WidthSumSpaces(isWide: WideOracle, n: nat)
    ensures WidthSum(isWide, Spaces(n)) == n
    decreases n
  {
    if n > 0 {
      assert Spaces(n)[1..] == Spaces(n - 1);
      WidthSumSpaces(isWide, n - 1);
    }
  }

  lemma DisplayWidthSpaces(isWide: WideOracle, n: nat)
    ensures DisplayWidth(isWide, Spaces(n)) == n
  {
    StripSgrPlainPrefix(Spaces(n), []);
    assert Spaces(n) + [] == Spaces(n);
    WidthSumSpaces(isWide, n);
  }

  /** Every character of `s` belongs to a box or table frame. */
  predicate FrameOnly(s: string)
  {
    forall i :: 0 <= i < |s| ==> s[i] in FrameChars
  }

  lemma FrameOnlyAppend(a: string, b: string)
    requires FrameOnly(a) && FrameOnly(b)
    ensures FrameOnly(a + b)
  {
    assert forall i :: |a| <= i < |a + b| ==> (a + b)[i] == b[i - |a|];
  }

  lemma FrameOnlyNarrow(isWide: WideOracle, s: string)
    requires FrameOnly(s)
    ensures WidthSum(isWide, s) == |s|
  {
    WidthSumBounds(isWide, s);
  }

  lemma FrameOnlyHasNoEscape(s: string)
    requires FrameOnly(s)
    ensures ESC !in s
  {
    assert ESC !in FrameChars;
  }

  /** The colour codes around a run of frame characters are invisible. */
  lemma ColouredFrameVisible(colour: string, rule: string, reset: string)
    requires IsSgr(colour) && IsSgr(reset) && FrameOnly(rule)
    ensures StripSgr(colour + rule + reset) == rule
  {
    FrameOnlyHasNoEscape(rule);
    assert colour + rule + reset == colour + (rule + reset);
    StripSgrEscape(colour, rule + reset);
    StripSgrPlainPrefix(rule, reset);
    StripSgrEscape(reset, []);
    assert reset + [] == reset;
  }

  /** The concatenation of a list of strings. */
  function Concat(codes: seq<string>): string
    decreases |codes|
  {
    if codes == [] then [] else codes[0] + Concat(codes[1..])
  }

  /** A string made only of SGR escape sequences has width 0. */
  lemma {:induction false} OnlyEscapesHaveNoWidth(isWide: WideOracle, codes: seq<string>)
    requires forall i :: 0 <= i < |codes| ==> IsSgr(codes[i])
    ensures DisplayWidth(isWide, Concat(codes)) == 0
    decreases |codes|
  {
    if codes != [] {
      OnlyEscapesHaveNoWidth(isWide, codes[1..]);
      StripSgrEscape(codes[0], Concat(codes[1..]));
    }
  }

  /**
   * `pad_to_width(text, width)`: spaces are appended up to `width` columns;
   * text already as wide or wider is returned unchanged, never truncated.
   */
  function PadToWidth(isWide: WideOracle, s: string, width: int): (r: string)
    ensures |r| >= |s| && r[..|s|] == s
    ensures forall i :: |s| <= i < |r| ==> r[i] == ' '
    ensures DisplayWidth(isWide, s) >= width ==> r == s
    ensures DisplayWidth(isWide, s) <= width ==>
              |r| == |s| + (width - DisplayWidth(isWide, s)) && DisplayWidth(isWide, r) == width
  {
    var padding := width - DisplayWidth(isWide, s);
    var r := s + (if padding > 0 then Spaces(padding) else "");
    if padding > 0 then
      DisplayWidthAppend(isWide, s, Spaces(padding));
      DisplayWidthSpaces(isWide, padding);
      r
    else
      assert r == s;
      r
  }

  /** Padding twice to the same width is the same as padding once. */
  lemma PadIsIdempotent(isWide: WideOracle, s: string, width: int)
    ensures PadToWidth(isWide, PadToWidth(isWide, s, width), width) == PadToWidth(isWide, s, width)
  {
  }

  /** Padded text is never narrower than the target nor than the original. */
  lemma PaddedWidth(isWide: WideOracle, s: string, width: int)
    ensures DisplayWidth(isWide, PadToWidth(isWide, s, width)) ==
            if DisplayWidth(isWide, s) <= width then width else DisplayWidth(isWide, s)
  {
  }
}
