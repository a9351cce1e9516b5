/**
 * `templates/go/dxlog/dxlog.go`: the line builders of the Go logging
 * helpers and the request counter. Go strings are byte strings; here a
 * string is its sequence of code points, and `len` is written out as the
 * UTF-8 byte length. What is printed is returned as lines, and what goes
 * to `slog` as a record of its level and message.
 */
module DxLog {
  import opened Optional
  import opened Strings
  import opened TextWidth

  const ColorReset: string := "\U{1B}[0m"
  const ColorRed: string := "\U{1B}[31m"
  const ColorGreen: string := "\U{1B}[32m"
  const ColorYellow: string := "\U{1B}[33m"
  const ColorBlue: string := "\U{1B}[34m"
  const ColorPurple: string := "\U{1B}[35m"
  const ColorCyan: string := "\U{1B}[36m"
  const ColorGray: string := "\U{1B}[90m"

  datatype Level = Info | Warn

  /** One `slog` call: its level and message (the attributes are not modelled). */
  datatype Record = Record(level: Level, message: string)

  // ---------------------------------------------------------------- bytes

  /** The number of bytes UTF-8 uses for a code point. */
  function Utf8Len(c: char): nat
  {
    if c as int < 0x80 then 1
    else if c as int < 0x800 then 2
    else if c as int < 0x1_0000 then 3
    else 4
  }

  /** Go's `len(s)`: the UTF-8 byte length. */
  function ByteLen(s: string): nat
    decreases |s|
  {
    if s == [] then 0 else ByteLen(s[..|s| - 1]) + Utf8Len(s[|s| - 1])
  }

  lemma {:induction false} ByteLenAppend(a: string, b: string)
    ensures ByteLen(a + b) == ByteLen(a) + ByteLen(b)
    decreases |b|
  {
    if b == [] {
      assert a + b == a;
    } else {
      ByteLenAppend(a, b[..|b| - 1]);
      assert (a + b)[..|a + b| - 1] == a + b[..|b| - 1];
    }
  }

  /** A string takes between one and four bytes per code point, one exactly when it is ASCII. */
  lemma {:induction false} ByteLenBounds(s: string)
    ensures |s| <= ByteLen(s) <= 4 * |s|
    ensures ByteLen(s) == |s| <==> forall i :: 0 <= i < |s| ==> s[i] as int < 0x80
    decreases |s|
  {
    if s != [] {
      var init := s[..|s| - 1];
      ByteLenBounds(init);
      assert forall i :: 0 <= i < |init| ==> init[i] == s[i];
    }
  }

  // ---------------------------------------------------------------- Box

  /**
   * `Box(text)` as written: a border of `len(text) + 4` double bars, the
   * text between "║  " and "  ║", and an empty line before and after.
   */
  function Box(text: string): seq<string>
  {
    var border := Repeat('═', ByteLen(text) + 4);
    ["", "╔" + border + "╗", "║  " + text + "  ║", "╚" + border + "╝", ""]
  }

  /**
   * The top and bottom borders repeat '═' exactly `len(text) + 4` times
   * and differ only in their corners; the middle line holds the text with
   * two blanks each side, so its byte-length interior is that same count.
   */
  lemma BoxShape(text: string)
    ensures var lines := Box(text);
            var n := ByteLen(text) + 4;
            && |lines| == 5 && lines[0] == "" && lines[4] == ""
            && lines[1] == ['╔'] + Repeat('═', n) + ['╗']
            && lines[3] == ['╚'] + Repeat('═', n) + ['╝']
            && lines[1][1..|lines[1]| - 1] == lines[3][1..|lines[3]| - 1]
            && lines[2] == "║  " + text + "  ║"
            && ByteLen(lines[2][1..|lines[2]| - 1]) == n
  {
    var mid := "║  " + text + "  ║";
    assert mid[1..|mid| - 1] == "  " + text + "  ";
    ByteLenAppend("  ", text);
    ByteLenAppend("  " + text, "  ");
    var n := ByteLen(text) + 4;
    assert (['╔'] + Repeat('═', n) + ['╗'])[1..n + 1] == Repeat('═', n);
    assert (['╚'] + Repeat('═', n) + ['╝'])[1..n + 1] == Repeat('═', n);
  }

  /** A string without an escape character is shown as it is. */
  lemma PlainIsVisible(s: string)
    requires ESC !in s
    ensures StripSgr(s) == s
  {
    StripSgrPlainPrefix(s, []);
    assert s + [] == s;
  }

  /** A border of `n` bars between two corners is `n + 2` columns wide. */
  lemma BorderWidth(isWide: WideOracle, left: char, right: char, n: nat)
    requires left in FrameChars && right in FrameChars
    ensures DisplayWidth(isWide, [left] + Repeat('═', n) + [right]) == n + 2
  {
    var line := [left] + Repeat('═', n) + [right];
    assert '═' in FrameChars;
    FrameOnlyAppend([left], Repeat('═', n));
    FrameOnlyAppend([left] + Repeat('═', n), [right]);
    FrameOnlyHasNoEscape(line);
    PlainIsVisible(line);
    FrameOnlyNarrow(isWide, line);
  }

  /** The middle line is six columns wider than the text, whatever colour codes the text holds. */
  lemma MiddleWidth(isWide: WideOracle, text: string)
    ensures DisplayWidth(isWide, "║  " + text + "  ║") == DisplayWidth(isWide, text) + 6
  {
    assert "║  " + text + "  ║" == "║  " + (text + "  ║");
    StripSgrPlainPrefix("║  ", text + "  ║");
    StripSgrAppend(text, "  ║");
    PlainIsVisible("  ║");
    WidthSumAppend(isWide, "║  ", StripSgr(text) + "  ║");
    WidthSumAppend(isWide, StripSgr(text), "  ║");
    assert '║' in FrameChars;
  }

  /**
   * As written, the box lines up only when the text's byte length equals
   * its display width: the borders are `len(text) + 6` columns wide and the
   * middle line `width(text) + 6`.
   */
  lemma BoxAlignedIff(isWide: WideOracle, text: string)
    ensures DisplayWidth(isWide, Box(text)[1]) == ByteLen(text) + 6
    ensures DisplayWidth(isWide, Box(text)[3]) == ByteLen(text) + 6
    ensures DisplayWidth(isWide, Box(text)[2]) == DisplayWidth(isWide, text) + 6
    ensures DisplayWidth(isWide, Box(text)[1]) == DisplayWidth(isWide, Box(text)[2]) <==>
            ByteLen(text) == DisplayWidth(isWide, text)
  {
    var n := ByteLen(text) + 4;
    var lines := Box(text);
    BoxShape(text);
    assert lines[1] == ['╔'] + Repeat('═', n) + ['╗'];
    assert lines[3] == ['╚'] + Repeat('═', n) + ['╝'];
    assert lines[2] == "║  " + text + "  ║";
    BorderWidth(isWide, '╔', '╗', n);
    BorderWidth(isWide, '╚', '╝', n);
    MiddleWidth(isWide, text);
  }

  /**
   * A two-letter Cyrillic word takes four bytes but two columns, so the
   * borders overhang the middle line by two columns.
   */
  lemma BoxMisalignedExample(isWide: WideOracle)
    requires !isWide('О') && !isWide('к')
    ensures DisplayWidth(isWide, Box("Ок")[1]) == 10
    ensures DisplayWidth(isWide, Box("Ок")[2]) == 8
  {
    BoxAlignedIff(isWide, "Ок");
    assert ByteLen("Ок") == 4 by {
      assert "Ок"[..1] == "О";
    }
    PlainIsVisible("Ок");
    assert WidthSum(isWide, "Ок") == 2 by {
      assert "Ок"[1..] == "к";
    }
  }

  /** `Box` with the border measured in display columns instead of bytes. */
  function AlignedBox(isWide: WideOracle, text: string): seq<string>
  {
    var border := Repeat('═', DisplayWidth(isWide, text) + 4);
    ["", "╔" + border + "╗", "║  " + text + "  ║", "╚" + border + "╝", ""]
  }

  /** Measured in columns, the three lines of the box are always equally wide. */
  lemma AlignedBoxLinesMatch(isWide: WideOracle, text: string)
    ensures var lines := AlignedBox(isWide, text);
            && DisplayWidth(isWide, lines[1]) == DisplayWidth(isWide, text) + 6
            && DisplayWidth(isWide, lines[2]) == DisplayWidth(isWide, lines[1])
            && DisplayWidth(isWide, lines[3]) == DisplayWidth(isWide, lines[1])
            && lines[2] == "║  " + text + "  ║"
  {
    var n := DisplayWidth(isWide, text) + 4;
    assert "╔" + Repeat('═', n) + "╗" == ['╔'] + Repeat('═', n) + ['╗'];
    assert "╚" + Repeat('═', n) + "╝" == ['╚'] + Repeat('═', n) + ['╝'];
    BorderWidth(isWide, '╔', '╗', n);
    BorderWidth(isWide, '╚', '╝', n);
    MiddleWidth(isWide, text);
  }

  // ---------------------------------------------------------------- Section

  /** `Section(label)`: 40 light bars, a blank and the label, in gray. */
  function Section(title: string): string
  {
    ColorGray + Repeat('─', 40) + " " + title + ColorReset
  }

  /** A coloured run of light bars, a blank and a text show as the bars, the blank and the text's visible part. */
  lemma ColouredRuleVisible(colour: string, n: nat, text: string)
    requires IsSgr(colour)
    ensures StripSgr(colour + Repeat('─', n) + " " + text + ColorReset) == Repeat('─', n) + " " + StripSgr(text)
  {
    var bars := Repeat('─', n);
    var rule := bars + " ";
    assert '─' in FrameChars;
    FrameOnlyHasNoEscape(bars);
    assert ESC !in rule;
    StripSgrTrailing(colour + bars + " " + text, ColorReset);
    ConcatAssoc(colour, bars, " ");
    ConcatAssoc(colour, rule, text);
    StripSgrEscape(colour, rule + text);
    StripSgrPlainPrefix(rule, text);
    ConcatAssoc(bars, " ", StripSgr(text));
  }

  lemma ColouredRuleWidth(isWide: WideOracle, colour: string, n: nat, text: string)
    requires IsSgr(colour)
    ensures DisplayWidth(isWide, colour + Repeat('─', n) + " " + text + ColorReset) == n + 1 + DisplayWidth(isWide, text)
  {
    ColouredRuleVisible(colour, n, text);
    assert '─' in FrameChars;
    WidthSumAppend(isWide, Repeat('─', n), " ");
    WidthSumAppend(isWide, Repeat('─', n) + " ", StripSgr(text));
    FrameOnlyNarrow(isWide, Repeat('─', n));
  }

  /** A section line shows exactly 40 bars, one blank and the label, without the gray codes. */
  lemma SectionVisible(isWide: WideOracle, title: string)
    ensures StripSgr(Section(title)) == Repeat('─', 40) + " " + StripSgr(title)
    ensures DisplayWidth(isWide, Section(title)) == 41 + DisplayWidth(isWide, title)
  {
    ColouredRuleVisible(ColorGray, 40, title);
    ColouredRuleWidth(isWide, ColorGray, 40, title);
  }

  // ---------------------------------------------------------------- messages

  function DigitChar(d: nat): char
    requires d < 10
  {
    ('0' as int + d) as char
  }

  predicate IsDigit(c: char)
  {
    '0' <= c <= '9'
  }

  /** The decimal digits of a natural number, without leading zeros. */
  function Digits(n: nat): (s: string)
    ensures |s| >= 1
    ensures forall i :: 0 <= i < |s| ==> IsDigit(s[i])
    decreases n
  {
    if n < 10 then [DigitChar(n)] else Digits(n / 10) + [DigitChar(n % 10)]
  }

  /** `%d` of a Go int: a minus sign for negatives, then the digits. */
  function Decimal(n: int): string
  {
    if n < 0 then "-" + Digits(-n) else Digits(n)
  }

  /** The value of a string of digits. */
  function DigitsValue(s: string): int
    decreases |s|
  {
    if s == [] then 0 else DigitsValue(s[..|s| - 1]) * 10 + (s[|s| - 1] as int - '0' as int)
  }

  /** Reads back a `%d` rendering. */
  function ParseDecimal(s: string): int
  {
    if |s| > 0 && s[0] == '-' then -DigitsValue(s[1..]) else DigitsValue(s)
  }

  lemma {:induction false} DigitsRoundTrip(n: nat)
    ensures DigitsValue(Digits(n)) == n
    ensures Digits(n)[0] != '0' || n == 0
    decreases n
  {
    if n >= 10 {
      DigitsRoundTrip(n / 10);
      var s := Digits(n);
      assert s[..|s| - 1] == Digits(n / 10);
    }
  }

  /** `%d` loses nothing: every int is read back from its decimal rendering. */
  lemma DecimalRoundTrip(n: int)
    ensures ParseDecimal(Decimal(n)) == n
    ensures '/' !in Decimal(n) && ']' !in Decimal(n)
  {
    if n < 0 {
      DigitsRoundTrip(-n);
      assert ("-" + Digits(-n))[1..] == Digits(-n);
    } else {
      DigitsRoundTrip(n);
    }
  }

  const STEP_HEAD: string := "▸ ["

  /** `fmt.Sprintf("▸ [%d/%d] %s", step, total, msg)`. */
  function StepMessage(step: int, total: int, msg: string): string
  {
    STEP_HEAD + Decimal(step) + "/" + Decimal(total) + "] " + msg
  }

  /** Reads a step message back into its step, total and text. */
  function ParseStep(m: string): Option<(int, int, string)>
  {
    if !StartsWith(m, STEP_HEAD) then None else ParseCounts(m[|STEP_HEAD|..])
  }

  /** `<step>/<total>] <text>`: the step runs up to the first '/'. */
  function ParseCounts(rest: string): Option<(int, int, string)>
  {
    match IndexOf(rest, '/')
    case None => None
    case Some(i) =>
      match ParseTotal(rest[i + 1..])
      case None => None
      case Some((total, msg)) => Some((ParseDecimal(rest[..i]), total, msg))
  }

  /** `<total>] <text>`: the total runs up to the first ']'. */
  function ParseTotal(after: string): Option<(int, string)>
  {
    match IndexOf(after, ']')
    case None => None
    case Some(j) =>
      if !StartsWith(after[j..], "] ") then None else Some((ParseDecimal(after[..j]), after[j + 2..]))
  }

  lemma ParseTotalParts(b: string, msg: string)
    requires ']' !in b
    ensures ParseTotal(b + "] " + msg) == Some((ParseDecimal(b), msg))
  {
    var after := b + "] " + msg;
    assert after == b + [']'] + (" " + msg);
    IndexOfAfter(b, ']', " " + msg);
    assert after[..|b|] == b;
    assert after[|b|..] == "] " + msg;
    assert after[|b| + 2..] == msg;
  }

  lemma ParseCountsParts(a: string, tail: string)
    requires '/' !in a
    ensures ParseCounts(a + "/" + tail) ==
            match ParseTotal(tail)
            case None => None
            case Some((total, msg)) => Some((ParseDecimal(a), total, msg))
  {
    var rest := a + "/" + tail;
    assert rest == a + ['/'] + tail;
    IndexOfAfter(a, '/', tail);
    assert rest[..|a|] == a;
    assert rest[|a| + 1..] == tail;
  }

  /** A message built from a step without '/' and a total without ']' splits back into its parts. */
  lemma ParseStepParts(a: string, b: string, msg: string)
    requires '/' !in a && ']' !in b
    ensures ParseStep(STEP_HEAD + a + "/" + b + "] " + msg) == Some((ParseDecimal(a), ParseDecimal(b), msg))
  {
    var tail := b + "] " + msg;
    var m := STEP_HEAD + a + "/" + b + "] " + msg;
    assert m == STEP_HEAD + (a + "/" + tail);
    assert m[..|STEP_HEAD|] == STEP_HEAD;
    assert m[|STEP_HEAD|..] == a + "/" + tail;
    ParseTotalParts(b, msg);
    ParseCountsParts(a, tail);
  }

  /** A step message determines its step, its total and its text, whatever the text holds. */
  lemma StepRoundTrip(step: int, total: int, msg: string)
    ensures ParseStep(StepMessage(step, total, msg)) == Some((step, total, msg))
  {
    DecimalRoundTrip(step);
    DecimalRoundTrip(total);
    ParseStepParts(Decimal(step), Decimal(total), msg);
  }

  /** `Success(msg)`: an info record with a check mark. */
  function Success(msg: string): Record
  {
    Record(Info, "✅ " + msg)
  }

  /** `Fail(msg)`: a warning record with a cross. */
  function Fail(msg: string): Record
  {
    Record(Warn, "❌ " + msg)
  }

  /**
   * The mark and a blank are prepended and nothing else changes: removing
   * them gives the text back, so neither loses information, and a success
   * never reads as a failure.
   */
  lemma MarkedMessages(msg: string, other: string)
    ensures Success(msg).message[2..] == msg && Fail(msg).message[2..] == msg
    ensures Success(msg).message[..2] == "✅ " && Fail(msg).message[..2] == "❌ "
    ensures Success(msg).message != Fail(other).message
  {
    assert Success(msg).message[0] != Fail(other).message[0];
  }

  // ---------------------------------------------------------------- requests

  newtype u64 = x: int | 0 <= x < 0x1_0000_0000_0000_0000

  /** `atomic.AddUint64(&requestCounter, 1)`: one more, wrapping to 0 after the largest uint64. */
  function NextId(c: u64): u64
  {
    if c == 0xFFFF_FFFF_FFFF_FFFF then 0 else c + 1
  }

  /** The increment is addition modulo 2^64. */
  lemma NextIdWraps(c: u64)
    ensures NextId(c) as int == (c as int + 1) % 0x1_0000_0000_0000_0000
  {
  }

  /** The ids `k` successive requests return, starting from counter `c`. */
  function Ids(c: u64, k: nat): seq<u64>
    decreases k
  {
    if k == 0 then [] else [NextId(c)] + Ids(NextId(c), k - 1)
  }

  /**
   * Until the counter wraps, successive requests return consecutive ids:
   * from a fresh counter, 1, 2, 3, …, strictly increasing.
   */
  lemma {:induction false} IdsCountUp(c: u64, k: nat)
    requires c as int + k < 0x1_0000_0000_0000_0000
    ensures |Ids(c, k)| == k
    ensures forall i :: 0 <= i < k ==> Ids(c, k)[i] as int == c as int + i + 1
    ensures forall i, j :: 0 <= i < j < k ==> Ids(c, k)[i] < Ids(c, k)[j]
    decreases k
  {
    if k > 0 {
      IdsCountUp(NextId(c), k - 1);
    }
  }

  /** `strings.Repeat(s, n)`: `n` copies of `s`. */
  function RepeatString(s: string, n: nat): (r: string)
    decreases n
  {
    if n == 0 then [] else RepeatString(s, n - 1) + s
  }

  /** `n` copies of `s` have `n * |s|` characters. */
  lemma {:induction false} RepeatStringLength(s: string, n: nat)
    ensures |RepeatString(s, n)| == n * |s|
    decreases n
  {
    if n > 0 {
      RepeatStringLength(s, n - 1);
      assert n * |s| == (n - 1) * |s| + |s|;
    }
  }

  /** `n` copies of `s` take `n` times its bytes: Go's `len(strings.Repeat(s, n)) == n * len(s)`. */
  lemma {:induction false} RepeatStringByteLen(s: string, n: nat)
    ensures ByteLen(RepeatString(s, n)) == n * ByteLen(s)
    decreases n
  {
    if n > 0 {
      RepeatStringByteLen(s, n - 1);
      ByteLenAppend(RepeatString(s, n - 1), s);
      assert n * ByteLen(s) == (n - 1) * ByteLen(s) + ByteLen(s);
    }
  }

  /** Copy `k` of `n` sits at offset `k * |s|`. */
  lemma {:induction false} RepeatStringCopy(s: string, n: nat, k: nat)
    requires k < n
    ensures 0 <= k * |s| <= (k + 1) * |s| <= n * |s| == |RepeatString(s, n)|
    ensures RepeatString(s, n)[k * |s|..(k + 1) * |s|] == s
    decreases n
  {
    RepeatStringLength(s, n);
    RepeatStringLength(s, n - 1);
    var prev := RepeatString(s, n - 1);
    assert RepeatString(s, n) == prev + s;
    assert n * |s| == (n - 1) * |s| + |s|;
    if k < n - 1 {
      RepeatStringCopy(s, n - 1, k);
      assert RepeatString(s, n)[k * |s|..(k + 1) * |s|] == prev[k * |s|..(k + 1) * |s|];
    } else {
      assert k * |s| == |prev|;
      assert (k + 1) * |s| == k * |s| + |s|;
    }
  }

  /** With one character, repeating the string is repeating the character. */
  lemma {:induction false} RepeatOneChar(c: char, n: nat)
    ensures RepeatString([c], n) == Repeat(c, n)
    decreases n
  {
    if n > 0 {
      RepeatOneChar(c, n - 1);
      assert Repeat(c, n) == Repeat(c, n - 1) + [c];
    }
  }

  /**
   * The package state: the request counter and the separator settings,
   * which callers may change between requests.
   */
  class Logger {
    var requestCounter: u64
    var separatorChar: string
    var separatorLen: int

    constructor ()
      ensures requestCounter == 0 && separatorChar == "═" && separatorLen == 60
    {
      requestCounter := 0;
      separatorChar := "═";
      separatorLen := 60;
    }

    /**
     * `NewRequest(emoji, label)`: the counter moves on by one and its new
     * value is the id; an empty line and the cyan separator are printed,
     * and the request is logged as "<emoji> <label>". A negative
     * separator length makes `strings.Repeat` panic, so it is excluded.
     */
    method NewRequest(emoji: string, title: string) returns (id: u64, output: seq<string>, record: Record)
      requires separatorLen >= 0
      modifies this
      ensures requestCounter == NextId(old(requestCounter)) && id == requestCounter
      ensures separatorChar == old(separatorChar) && separatorLen == old(separatorLen)
      ensures output == ["", ColorCyan + RepeatString(separatorChar, separatorLen) + ColorReset]
      ensures record == Record(Info, emoji + " " + title)
    {
      requestCounter := NextId(requestCounter);
      id := requestCounter;
      var separator := RepeatString(separatorChar, separatorLen);
      output := ["", ColorCyan + separator + ColorReset];
      record := Record(Info, emoji + " " + title);
    }
  }

  /** With the default settings the separator shows exactly 60 double bars. */
  lemma DefaultSeparator(isWide: WideOracle)
    ensures StripSgr(ColorCyan + RepeatString("═", 60) + ColorReset) == Repeat('═', 60)
    ensures DisplayWidth(isWide, ColorCyan + RepeatString("═", 60) + ColorReset) == 60
  {
    RepeatOneChar('═', 60);
    assert "═" == ['═'];
    assert '═' in FrameChars;
    var rule := Repeat('═', 60);
    ColouredFrameVisible(ColorCyan, rule, ColorReset);
    FrameOnlyNarrow(isWide, rule);
  }
}
