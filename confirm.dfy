/**
 * `templates/shell/dx-confirm.py`: the generic danger dialog. It draws a red
 * box of inner width 50 with a title and a description that the two
 * characters `\n` (backslash, n) break into lines, then asks to continue or
 * cancel. A run is modelled as the lines it prints and its exit status; the
 * answer of the chooser (or of the typed fallback) is a parameter.
 */
module Confirm {
  import opened Strings
  import opened TextWidth
  import opened Dialog

  const BOX_WIDTH: int := 50
  const CONTINUE: string := "✅ Продолжить"
  const CANCEL: string := "❌ Отмена"
  const USAGE: string := "Usage: dx-confirm.py 'TITLE' 'DESCRIPTION'"
  /** The two characters backslash and `n`: a line break written inside a shell argument. */
  const LINE_BREAK: string := "\\n"
  const WARNING: string := "\U{26A0}\U{FE0F}  "
  const CANCELLED: string := GREEN + "✓" + RESET + " Отменено."

  /** `print_line(content)`: the content indented by two blanks inside the box. */
  function PrintLine(isWide: WideOracle, content: string): string
  {
    BoxLine(isWide, "  " + content, BOX_WIDTH)
  }

  /** `print_separator(style)`. */
  function PrintSeparator(style: string): string
  {
    BoxSeparator(style, BOX_WIDTH)
  }

  /** One description line, printed in red. */
  function DescriptionLine(isWide: WideOracle, piece: string): string
  {
    PrintLine(isWide, RED + piece + RESET)
  }

  function DescriptionLines(isWide: WideOracle, pieces: seq<string>): seq<string>
  {
    seq(|pieces|, k requires 0 <= k < |pieces| => DescriptionLine(isWide, pieces[k]))
  }

  /** Everything printed before the question: ten frame lines around the description lines. */
  function Screen(isWide: WideOracle, title: string, description: string): (lines: seq<string>)
    ensures |lines| == 10 + |Split(description, LINE_BREAK)|
  {
    Frame(isWide, title, DescriptionLines(isWide, Split(description, LINE_BREAK)))
  }

  /** The box around the given body lines: seven lines above them, three below. */
  function Frame(isWide: WideOracle, title: string, body: seq<string>): seq<string>
  {
    ["", PrintSeparator("top"), PrintLine(isWide, ""), PrintLine(isWide, BOLD + WARNING + title + RESET),
     PrintLine(isWide, ""), PrintSeparator("mid"), PrintLine(isWide, "")]
    + body
    + [PrintLine(isWide, ""), PrintSeparator("bottom"), ""]
  }

  lemma FrameLayout(isWide: WideOracle, title: string, body: seq<string>)
    ensures var f := Frame(isWide, title, body);
            && |f| == 10 + |body|
            && f[1] == PrintSeparator("top")
            && f[3] == PrintLine(isWide, BOLD + WARNING + title + RESET)
            && f[5] == PrintSeparator("mid")
            && f[|f| - 2] == PrintSeparator("bottom")
            && forall k :: 0 <= k < |body| ==> f[7 + k] == body[k]
  {
  }

  /**
   * `main()` for the arguments after the program name: fewer than two give
   * the usage line and status 1; otherwise the screen, then status 0 on
   * "continue" and the cancellation notice with status 1 on anything else.
   */
  function Run(isWide: WideOracle, args: seq<string>, answer: Answer): Outcome
  {
    if |args| < 2 then Outcome([USAGE], 1)
    else
      var screen := Screen(isWide, args[0], args[1]);
      if Choice(answer, CONTINUE, CANCEL) != CONTINUE then Outcome(screen + [CANCELLED], 1)
      else Outcome(screen + [""], 0)
  }

  /**
   * The dialog lets the command go ahead (status 0) exactly when both
   * arguments are present and the user picked "continue", or typed "y" or
   * "Y" without the chooser; every other outcome is status 1.
   */
  lemma RunExitCode(isWide: WideOracle, args: seq<string>, answer: Answer)
    ensures Run(isWide, args, answer).exitCode == 0 || Run(isWide, args, answer).exitCode == 1
    ensures Run(isWide, args, answer).exitCode == 0 <==>
            && |args| >= 2
            && (|| (answer.Chosen? && Strip(answer.stdout) == CONTINUE)
                || (answer.Typed? && (Strip(answer.line) == "y" || Strip(answer.line) == "Y")))
    ensures |args| < 2 ==> Run(isWide, args, answer).output == [USAGE]
  {
    assert CONTINUE[0] != CANCEL[0];
    ExitCodeZeroIff(answer, CONTINUE, CANCEL);
  }

  /** With both arguments, the screen comes first and is followed by one closing line. */
  lemma RunShowsScreen(isWide: WideOracle, args: seq<string>, answer: Answer)
    requires |args| >= 2
    ensures var o := Run(isWide, args, answer);
            var screen := Screen(isWide, args[0], args[1]);
            && |o.output| == |screen| + 1
            && o.output[..|screen|] == screen
            && o.output[|screen|] == (if o.exitCode == 0 then "" else CANCELLED)
  {
  }

  /**
   * The screen shows the title on its fourth line and the description
   * pieces from the eighth line on, in order; the pieces contain no `\n`
   * and joined back with it give the description, so nothing is lost.
   */
  lemma ScreenLayout(isWide: WideOracle, title: string, description: string)
    ensures var pieces := Split(description, LINE_BREAK);
            var screen := Screen(isWide, title, description);
            && screen[1] == PrintSeparator("top")
            && screen[3] == PrintLine(isWide, BOLD + WARNING + title + RESET)
            && screen[5] == PrintSeparator("mid")
            && screen[|screen| - 2] == PrintSeparator("bottom")
            && Join(pieces, LINE_BREAK) == description
            && forall k :: 0 <= k < |pieces| ==>
                 && !Contains(pieces[k], LINE_BREAK)
                 && screen[7 + k] == PrintLine(isWide, RED + pieces[k] + RESET)
  {
    JoinSplit(description, LINE_BREAK);
    SplitPiecesAreFree(description, LINE_BREAK);
    FrameLayout(isWide, title, DescriptionLines(isWide, Split(description, LINE_BREAK)));
  }

  /**
   * A description without the two-character `\n` is shown on a single
   * line; a real newline character does not break it.
   */
  lemma SingleLineDescription(isWide: WideOracle, title: string, description: string)
    requires !Contains(description, LINE_BREAK)
    ensures |Screen(isWide, title, description)| == 11
    ensures Screen(isWide, title, description)[7] == PrintLine(isWide, RED + description + RESET)
  {
    SplitWithoutSeparator(description, LINE_BREAK);
  }

  /**
   * Content of at most 48 columns fills the box exactly: the line is as wide
   * as every separator, 52 columns.
   */
  lemma LineFits(isWide: WideOracle, content: string, style: string)
    requires DisplayWidth(isWide, content) <= BOX_WIDTH - 2
    ensures DisplayWidth(isWide, PrintLine(isWide, content)) == BOX_WIDTH + 2
    ensures DisplayWidth(isWide, PrintLine(isWide, content)) == DisplayWidth(isWide, PrintSeparator(style))
  {
    IndentWidth(isWide, content);
    BoxLineFits(isWide, "  " + content, BOX_WIDTH, style);
    BoxSeparatorWidth(isWide, style, BOX_WIDTH);
  }

  /** The red colour of a description line does not count towards its width. */
  lemma DescriptionLineFits(isWide: WideOracle, piece: string, style: string)
    requires DisplayWidth(isWide, piece) <= BOX_WIDTH - 2
    ensures DisplayWidth(isWide, DescriptionLine(isWide, piece)) == DisplayWidth(isWide, PrintSeparator(style))
  {
    ColouredWidth(isWide, RED, piece);
    LineFits(isWide, RED + piece + RESET, style);
  }
}
