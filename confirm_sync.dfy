/**
 * `templates/shell/dx-confirm-sync.py`: the dialog shown before the
 * production database is copied over the development one. The box is 56
 * columns wide; the production target comes from the first two arguments,
 * the development database name from the PROJECT_NAME environment variable.
 */
module ConfirmSync {
  import opened Optional
  import opened Strings
  import opened TextWidth
  import opened Dialog

  const BOX_WIDTH: int := 56
  const SYNC: string := "✅ Да, синхронизировать"
  const CANCEL: string := "❌ Отмена"
  const DEFAULT_SERVER: string := "deploy@server"
  const DEFAULT_DIR: string := "project"
  const DEFAULT_PROJECT: string := "mybot"
  const CANCELLED: string := GREEN + "✓" + RESET + " Отменено."
  const TITLE: string := "\U{26A0}\U{FE0F}  ВНИМАНИЕ!"
  const LOSS: string := "Все текущие данные в DEV БД пропадут"
  const REPLACED: string := "и будут заменены продакшн данными!"

  /**
   * `print_line(content, color)`: a colour that is present and non-empty
   * (Python truthiness) wraps the content, otherwise it is left alone.
   */
  function PrintLine(isWide: WideOracle, content: string, colour: Option<string>): string
  {
    var text := if colour.Some? && colour.value != "" then "  " + colour.value + content + RESET
                else "  " + content;
    BoxLine(isWide, text, BOX_WIDTH)
  }

  function PrintSeparator(style: string): string
  {
    BoxSeparator(style, BOX_WIDTH)
  }

  /** `os.getenv('PROJECT_NAME', 'mybot')`: a set variable wins, even when empty. */
  function ProjectName(env: Option<string>): string
  {
    if env.Some? then env.value else DEFAULT_PROJECT
  }

  /** The production server and directory: the first two arguments, or their defaults. */
  function Target(args: seq<string>): (string, string)
  {
    (if |args| > 0 then args[0] else DEFAULT_SERVER, if |args| > 1 then args[1] else DEFAULT_DIR)
  }

  function ProdLine(isWide: WideOracle, server: string, dir: string): string
  {
    PrintLine(isWide, DIM + "PROD:" + RESET + " " + CYAN + server + ":" + dir + RESET, None)
  }

  function DevLine(isWide: WideOracle, project: string): string
  {
    PrintLine(isWide, DIM + "DEV:" + RESET + "  " + YELLOW + "localhost:5433/" + project + "_dev" + RESET, None)
  }

  /** The fixed warning: the frame, the title and the four lines about what will be lost. */
  function Warning(isWide: WideOracle): (lines: seq<string>)
    ensures |lines| == 14
  {
    WarningFrame(PrintLine(isWide, "", None), PrintLine(isWide, BOLD + TITLE + RESET, Some("")),
                 PrintLine(isWide, "Бро, ты собираешься скачать " + CYAN + "PROD" + RESET + " базу данных", None),
                 PrintLine(isWide, "и загрузить её в " + YELLOW + "DEV" + RESET + ".", None),
                 PrintLine(isWide, RED + LOSS + RESET, None),
                 PrintLine(isWide, RED + REPLACED + RESET, None))
  }

  /** The order of the warning's lines, for any blank, title and four message lines. */
  function WarningFrame(blank: string, title: string, download: string, upload: string,
                        loss: string, replaced: string): seq<string>
  {
    ["", PrintSeparator("top"), blank, title, blank, PrintSeparator("mid"), blank,
     download, upload, blank, loss, replaced, blank, PrintSeparator("mid")]
  }

  /**
   * The warning opens with a blank line and the top separator, shows the
   * bold title between blank box lines, then after the middle separator
   * the two red lines about the lost data, and closes with the middle
   * separator.
   */
  lemma WarningLayout(isWide: WideOracle)
    ensures var w := Warning(isWide);
            var blank := PrintLine(isWide, "", None);
            && w[0] == ""
            && w[1] == PrintSeparator("top")
            && w[2] == blank && w[4] == blank && w[6] == blank && w[9] == blank && w[12] == blank
            && w[3] == PrintLine(isWide, BOLD + TITLE + RESET, Some(""))
            && w[5] == PrintSeparator("mid")
            && w[10] == PrintLine(isWide, RED + LOSS + RESET, None)
            && w[11] == PrintLine(isWide, RED + REPLACED + RESET, None)
            && w[13] == PrintSeparator("mid")
  {
    WarningFrameLayout(PrintLine(isWide, "", None), PrintLine(isWide, BOLD + TITLE + RESET, Some("")),
                       PrintLine(isWide, "Бро, ты собираешься скачать " + CYAN + "PROD" + RESET + " базу данных", None),
                       PrintLine(isWide, "и загрузить её в " + YELLOW + "DEV" + RESET + ".", None),
                       PrintLine(isWide, RED + LOSS + RESET, None),
                       PrintLine(isWide, RED + REPLACED + RESET, None));
  }

  lemma WarningFrameLayout(blank: string, title: string, download: string, upload: string,
                           loss: string, replaced: string)
    ensures var w := WarningFrame(blank, title, download, upload, loss, replaced);
            && |w| == 14 && w[0] == ""
            && w[1] == PrintSeparator("top")
            && w[2] == blank && w[4] == blank && w[6] == blank && w[9] == blank && w[12] == blank
            && w[3] == title && w[5] == PrintSeparator("mid")
            && w[10] == loss && w[11] == replaced
            && w[13] == PrintSeparator("mid")
  {
  }

  /** Everything printed before the question. */
  function Screen(isWide: WideOracle, server: string, dir: string, project: string): seq<string>
  {
    Warning(isWide) + [ProdLine(isWide, server, dir), DevLine(isWide, project), PrintSeparator("bottom"), ""]
  }

  /**
   * `main()` for the arguments after the program name: the screen, then
   * status 0 on "yes, synchronise" and the cancellation notice with
   * status 1 on anything else.
   */
  function Run(isWide: WideOracle, args: seq<string>, env: Option<string>, answer: Answer): Outcome
  {
    var (server, dir) := Target(args);
    var screen := Screen(isWide, server, dir, ProjectName(env));
    if Choice(answer, SYNC, CANCEL) != SYNC then Outcome(screen + [CANCELLED], 1)
    else Outcome(screen, 0)
  }

  /**
   * The database is synchronised (status 0) exactly when the user picked
   * "yes, synchronise", or typed "y" or "Y" without the chooser; anything
   * else, including an empty answer, cancels with status 1.
   */
  lemma RunExitCode(isWide: WideOracle, args: seq<string>, env: Option<string>, answer: Answer)
    ensures Run(isWide, args, env, answer).exitCode == 0 || Run(isWide, args, env, answer).exitCode == 1
    ensures Run(isWide, args, env, answer).exitCode == 0 <==>
            || (answer.Chosen? && Strip(answer.stdout) == SYNC)
            || (answer.Typed? && (Strip(answer.line) == "y" || Strip(answer.line) == "Y"))
  {
    assert SYNC[0] != CANCEL[0];
    ExitCodeZeroIff(answer, SYNC, CANCEL);
  }

  /** The screen has 18 lines; the fifteenth names the production target, the sixteenth the development database. */
  lemma ScreenLayout(isWide: WideOracle, server: string, dir: string, project: string)
    ensures |Screen(isWide, server, dir, project)| == 18
    ensures Screen(isWide, server, dir, project)[14] == ProdLine(isWide, server, dir)
    ensures Screen(isWide, server, dir, project)[15] == DevLine(isWide, project)
    ensures Screen(isWide, server, dir, project)[16] == PrintSeparator("bottom")
  {
    AfterWarning(Warning(isWide), ProdLine(isWide, server, dir), DevLine(isWide, project), PrintSeparator("bottom"), "");
  }

  /** Four lines after fourteen sit at positions 14 to 17. */
  lemma AfterWarning(w: seq<string>, a: string, b: string, c: string, d: string)
    requires |w| == 14
    ensures var s := w + [a, b, c, d]; |s| == 18 && s[14] == a && s[15] == b && s[16] == c
  {
  }

  /**
   * What a run prints: the 18 screen lines, plus the cancellation notice
   * when it cancels. Missing arguments fall back to deploy@server and
   * project, a missing PROJECT_NAME to mybot.
   */
  lemma RunShowsTarget(isWide: WideOracle, args: seq<string>, env: Option<string>, answer: Answer)
    ensures var o := Run(isWide, args, env, answer);
            && |o.output| == 18 + o.exitCode
            && (|args| >= 2 ==> o.output[14] == ProdLine(isWide, args[0], args[1]))
            && (|args| == 1 ==> o.output[14] == ProdLine(isWide, args[0], DEFAULT_DIR))
            && (|args| == 0 ==> o.output[14] == ProdLine(isWide, DEFAULT_SERVER, DEFAULT_DIR))
            && (env.None? ==> o.output[15] == DevLine(isWide, DEFAULT_PROJECT))
            && (env.Some? ==> o.output[15] == DevLine(isWide, env.value))
            && (o.exitCode == 1 ==> o.output[18] == CANCELLED)
  {
    var (server, dir) := Target(args);
    var project := ProjectName(env);
    ScreenLayout(isWide, server, dir, project);
    RunExitCode(isWide, args, env, answer);
  }

  /** An empty colour is the same as none: the warning line is printed uncoloured. */
  lemma EmptyColourIsNone(isWide: WideOracle, content: string)
    ensures PrintLine(isWide, content, Some("")) == PrintLine(isWide, content, None)
  {
  }

  /** A colour escape around the content does not change the line's width. */
  lemma ColourKeepsWidth(isWide: WideOracle, content: string, colour: string)
    requires IsSgr(colour)
    ensures DisplayWidth(isWide, PrintLine(isWide, content, Some(colour))) ==
            DisplayWidth(isWide, PrintLine(isWide, content, None))
  {
    var coloured := "  " + colour + content + RESET;
    assert coloured == "  " + (colour + content + RESET);
    IndentWidth(isWide, colour + content + RESET);
    ColouredWidth(isWide, colour, content);
    IndentWidth(isWide, content);
    BoxLineWidth(isWide, coloured, BOX_WIDTH);
    BoxLineWidth(isWide, "  " + content, BOX_WIDTH);
  }

  /**
   * Content of at most 54 columns, with or without a colour, fills the box
   * exactly: the line is as wide as every separator, 58 columns.
   */
  lemma LineFits(isWide: WideOracle, content: string, colour: Option<string>, style: string)
    requires DisplayWidth(isWide, content) <= BOX_WIDTH - 2
    requires colour.Some? ==> colour.value == "" || IsSgr(colour.value)
    ensures DisplayWidth(isWide, PrintLine(isWide, content, colour)) == BOX_WIDTH + 2
    ensures DisplayWidth(isWide, PrintLine(isWide, content, colour)) == DisplayWidth(isWide, PrintSeparator(style))
  {
    IndentWidth(isWide, content);
    BoxLineFits(isWide, "  " + content, BOX_WIDTH, style);
    BoxSeparatorWidth(isWide, style, BOX_WIDTH);
    if colour.Some? && colour.value != "" {
      ColourKeepsWidth(isWide, content, colour.value);
    }
  }
}
