/**
 * What the two confirmation dialogs (`templates/shell/dx-confirm.py` and
 * `templates/shell/dx-confirm-sync.py`) have in common: a red double-line
 * box of a fixed inner width, and the rule that turns the chooser's answer
 * (or a typed line when the chooser is missing) into an exit code.
 */
module Dialog {
  import opened Strings
  import opened TextWidth

  const RESET: string := "\U{1B}[0m"
  const BOLD: string := "\U{1B}[1m"
  const RED: string := "\U{1B}[31m"
  const GREEN: string := "\U{1B}[32m"
  const YELLOW: string := "\U{1B}[33m"
  const CYAN: string := "\U{1B}[36m"
  const DIM: string := "\U{1B}[2m"

  /** A red vertical border, `{RED}║{RESET}`. */
  function Border(): string
  {
    RED + "║" + RESET
  }

  /** `print_line`'s frame: the text padded to the box width between two borders. */
  function BoxLine(isWide: WideOracle, text: string, boxWidth: int): string
  {
    Border() + PadToWidth(isWide, text, boxWidth) + Border()
  }

  /** The frame characters of a separator: left corner, right corner. */
  function SeparatorCorners(style: string): (char, char)
  {
    if style == "top" then ('╔', '╗') else if style == "mid" then ('╠', '╣') else ('╚', '╝')
  }

  /** The visible part of a separator: `boxWidth` double bars between two corners. */
  function SeparatorRule(style: string, boxWidth: int): string
  {
    var (left, right) := SeparatorCorners(style);
    [left] + Repeat('═', boxWidth) + [right]
  }

  /** `print_separator(style)`: 'top', 'mid', and anything else meaning bottom. */
  function BoxSeparator(style: string, boxWidth: int): string
  {
    RED + SeparatorRule(style, boxWidth) + RESET
  }

  lemma StripBorder(t: string)
    ensures StripSgr(Border() + t) == "║" + StripSgr(t)
  {
    assert Border() + t == RED + ("║" + (RESET + t));
    StripSgrEscape(RED, "║" + (RESET + t));
    StripSgrPlainPrefix("║", RESET + t);
    StripSgrEscape(RESET, t);
  }

  /** What a box line shows: the padded text between two borders, colour codes gone. */
  lemma BoxLineVisible(isWide: WideOracle, text: string, boxWidth: int)
    ensures StripSgr(BoxLine(isWide, text, boxWidth)) ==
            "║" + (StripSgr(PadToWidth(isWide, text, boxWidth)) + "║")
  {
    FramedVisible(PadToWidth(isWide, text, boxWidth));
  }

  /** Text between two borders shows between two `║`. */
  lemma FramedVisible(p: string)
    ensures StripSgr(Border() + p + Border()) == "║" + (StripSgr(p) + "║")
  {
    StripBeforeBorder(p);
    StripBorder(p + Border());
    ConcatAssoc(Border(), p, Border());
  }

  lemma BorderVisible()
    ensures StripSgr(Border()) == "║"
  {
    StripBorder([]);
    assert Border() + [] == Border();
  }

  lemma StripBeforeBorder(p: string)
    ensures StripSgr(p + Border()) == StripSgr(p) + "║"
  {
    BorderVisible();
    StripSgrAppend(p, Border());
  }

  /** A box line is two columns wider than its padded text. */
  lemma BoxLineWidth(isWide: WideOracle, text: string, boxWidth: int)
    ensures DisplayWidth(isWide, BoxLine(isWide, text, boxWidth)) ==
            DisplayWidth(isWide, PadToWidth(isWide, text, boxWidth)) + 2
  {
    var padded := StripSgr(PadToWidth(isWide, text, boxWidth));
    BoxLineVisible(isWide, text, boxWidth);
    WidthSumAppend(isWide, "║", padded + "║");
    WidthSumAppend(isWide, padded, "║");
    assert '║' in FrameChars;
  }

  lemma SeparatorRuleIsFrame(style: string, boxWidth: int)
    ensures FrameOnly(SeparatorRule(style, boxWidth))
    ensures |SeparatorRule(style, boxWidth)| == (if boxWidth > 0 then boxWidth else 0) + 2
  {
    var (left, right) := SeparatorCorners(style);
    assert '═' in FrameChars && left in FrameChars && right in FrameChars;
    FrameOnlyAppend([left], Repeat('═', boxWidth));
    FrameOnlyAppend([left] + Repeat('═', boxWidth), [right]);
  }

  /**
   * What a separator shows: exactly `boxWidth` double bars between the two
   * corners of its style; 'top' gives ╔╗, 'mid' gives ╠╣ and every other
   * style ╚╝.
   */
  lemma BoxSeparatorVisible(style: string, boxWidth: int)
    ensures style == "top" ==> StripSgr(BoxSeparator(style, boxWidth)) == "╔" + Repeat('═', boxWidth) + "╗"
    ensures style == "mid" ==> StripSgr(BoxSeparator(style, boxWidth)) == "╠" + Repeat('═', boxWidth) + "╣"
    ensures style != "top" && style != "mid" ==>
              StripSgr(BoxSeparator(style, boxWidth)) == "╚" + Repeat('═', boxWidth) + "╝"
  {
    SeparatorRuleIsFrame(style, boxWidth);
    ColouredFrameVisible(RED, SeparatorRule(style, boxWidth), RESET);
  }

  lemma BoxSeparatorWidth(isWide: WideOracle, style: string, boxWidth: int)
    ensures DisplayWidth(isWide, BoxSeparator(style, boxWidth)) ==
            (if boxWidth > 0 then boxWidth else 0) + 2
  {
    SeparatorRuleIsFrame(style, boxWidth);
    ColouredFrameVisible(RED, SeparatorRule(style, boxWidth), RESET);
    FrameOnlyNarrow(isWide, SeparatorRule(style, boxWidth));
  }

  /**
   * When the text fits the box, the line between its borders is exactly
   * `boxWidth` columns, and the whole line is as wide as a separator.
   */
  lemma BoxLineFits(isWide: WideOracle, text: string, boxWidth: int, style: string)
    requires DisplayWidth(isWide, text) <= boxWidth
    ensures DisplayWidth(isWide, PadToWidth(isWide, text, boxWidth)) == boxWidth
    ensures DisplayWidth(isWide, BoxLine(isWide, text, boxWidth)) ==
            DisplayWidth(isWide, BoxSeparator(style, boxWidth))
  {
    BoxLineWidth(isWide, text, boxWidth);
    BoxSeparatorWidth(isWide, style, boxWidth);
  }

  /** Two leading blanks add two columns. */
  lemma IndentWidth(isWide: WideOracle, text: string)
    ensures DisplayWidth(isWide, "  " + text) == DisplayWidth(isWide, text) + 2
  {
    StripSgrPlainPrefix("  ", text);
    WidthSumAppend(isWide, "  ", StripSgr(text));
  }

  /** A colour code before and RESET after the text add no width. */
  lemma ColouredWidth(isWide: WideOracle, colour: string, text: string)
    requires IsSgr(colour)
    ensures DisplayWidth(isWide, colour + text + RESET) == DisplayWidth(isWide, text)
  {
    assert colour + text + RESET == colour + (text + RESET);
    EscapeHasNoWidth(isWide, colour, text + RESET);
    DisplayWidthAppend(isWide, text, RESET);
    assert RESET == RESET + [];
    EscapeHasNoWidth(isWide, RESET, []);
  }

  /** What a dialog run leaves behind: the lines it printed and its exit status. */
  datatype Outcome = Outcome(output: seq<string>, exitCode: int)

  /** What the user answered: the chooser's standard output, or the line typed when it is missing. */
  datatype Answer = Chosen(stdout: string) | Typed(line: string)

  /**
   * The choice the script acts on: the stripped chooser output, or, when
   * the chooser is missing, `yes` if the stripped lower-cased line is "y"
   * and `no` otherwise.
   */
  function Choice(answer: Answer, yes: string, no: string): string
  {
    match answer
    case Chosen(stdout) => Strip(stdout)
    case Typed(line) => if Lower(Strip(line)) == "y" then yes else no
  }

  /** 0 when the choice is exactly the confirming option, 1 otherwise. */
  function ExitCode(answer: Answer, yes: string, no: string): int
  {
    if Choice(answer, yes, no) != yes then 1 else 0
  }

  /**
   * The script exits with 0 exactly when the chooser printed the confirming
   * option (up to surrounding whitespace) or, without a chooser, the typed
   * line is "y" or "Y" up to surrounding whitespace; empty input cancels.
   */
  lemma ExitCodeZeroIff(answer: Answer, yes: string, no: string)
    requires yes != no
    ensures ExitCode(answer, yes, no) == 0 || ExitCode(answer, yes, no) == 1
    ensures ExitCode(answer, yes, no) == 0 <==>
            || (answer.Chosen? && Strip(answer.stdout) == yes)
            || (answer.Typed? && (Strip(answer.line) == "y" || Strip(answer.line) == "Y"))
  {
    if answer.Typed? {
      LowerIsY(Strip(answer.line));
    }
  }
}
