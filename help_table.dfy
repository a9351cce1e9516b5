/**
 * The Makefile help table (`templates/shell/make-help.py`): cyan table
 * borders around three padded columns. `print_row` and `print_separator`
 * return their line instead of printing it.
 */
module HelpTable {
  import opened Strings
  import opened TextWidth

  const CYAN: string := "\U{1B}[36m"
  const RESET: string := "\U{1B}[0m"

  /** A cyan vertical bar, `{CYAN}│{RESET}`. */
  function Bar(): string
  {
    CYAN + "│" + RESET
  }

  /** One padded cell with its surrounding blanks, ` {c} `. */
  function Cell(c: string): string
  {
    " " + c + " "
  }

  /** `print_row(col1, col2, col3, widths)`. */
  function Row(isWide: WideOracle, col1: string, col2: string, col3: string, widths: seq<int>): string
    requires |widths| >= 3
  {
    var c1 := PadToWidth(isWide, col1, widths[0]);
    var c2 := PadToWidth(isWide, col2, widths[1]);
    var c3 := PadToWidth(isWide, col3, widths[2]);
    Bar() + Cell(c1) + Bar() + Cell(c2) + Bar() + Cell(c3) + Bar()
  }

  /** The corner and junction characters: left, middle, right. */
  function Corners(style: string): (char, char, char)
  {
    if style == "top" then ('┌', '┬', '┐')
    else if style == "mid" then ('├', '┼', '┤')
    else ('└', '┴', '┘')
  }

  /** The visible part of a separator: horizontal runs of `widths[i] + 2` bars. */
  function Rule(left: char, mid: char, right: char, widths: seq<int>): string
    requires |widths| >= 3
  {
    [left] + Repeat('─', widths[0] + 2) + [mid] + Repeat('─', widths[1] + 2)
    + [mid] + Repeat('─', widths[2] + 2) + [right]
  }

  /** `print_separator(widths, style)`. */
  function Separator(widths: seq<int>, style: string): string
    requires |widths| >= 3
  {
    var (left, mid, right) := Corners(style);
    CYAN + Rule(left, mid, right, widths) + RESET
  }

  /** Every cell fits its column, so padding brings it to exactly the column width. */
  predicate CellsFit(isWide: WideOracle, col1: string, col2: string, col3: string, widths: seq<int>)
    requires |widths| >= 3
  {
    && DisplayWidth(isWide, col1) <= widths[0]
    && DisplayWidth(isWide, col2) <= widths[1]
    && DisplayWidth(isWide, col3) <= widths[2]
  }

  function Positive(n: int): nat
  {
    if n > 0 then n else 0
  }

  lemma BarWidth(isWide: WideOracle)
    ensures DisplayWidth(isWide, Bar()) == 1
  {
    assert '│' in FrameChars;
    ColouredFrameVisible(CYAN, "│", RESET);
    FrameOnlyNarrow(isWide, "│");
  }

  lemma CellWidth(isWide: WideOracle, c: string)
    ensures DisplayWidth(isWide, Cell(c)) == DisplayWidth(isWide, c) + 2
  {
    DisplayWidthAppend(isWide, " " + c, " ");
    StripSgrPlainPrefix(" ", c);
    WidthSumAppend(isWide, " ", StripSgr(c));
    StripSgrPlainPrefix(" ", []);
    assert " " + [] == " ";
  }

  /** Appending a bar or a cell adds its own width. */
  lemma AppendBar(isWide: WideOracle, p: string)
    ensures DisplayWidth(isWide, p + Bar()) == DisplayWidth(isWide, p) + 1
  {
    DisplayWidthAppend(isWide, p, Bar());
    BarWidth(isWide);
  }

  lemma AppendCell(isWide: WideOracle, p: string, c: string)
    ensures DisplayWidth(isWide, p + Cell(c)) == DisplayWidth(isWide, p) + DisplayWidth(isWide, c) + 2
  {
    DisplayWidthAppend(isWide, p, Cell(c));
    CellWidth(isWide, c);
  }

  /** A row is as wide as its padded cells plus four bars and six blanks. */
  lemma RowWidth(isWide: WideOracle, col1: string, col2: string, col3: string, widths: seq<int>)
    requires |widths| >= 3
    ensures var c1 := PadToWidth(isWide, col1, widths[0]);
            var c2 := PadToWidth(isWide, col2, widths[1]);
            var c3 := PadToWidth(isWide, col3, widths[2]);
            DisplayWidth(isWide, Row(isWide, col1, col2, col3, widths)) ==
              DisplayWidth(isWide, c1) + DisplayWidth(isWide, c2) + DisplayWidth(isWide, c3) + 10
    ensures CellsFit(isWide, col1, col2, col3, widths) ==>
              DisplayWidth(isWide, Row(isWide, col1, col2, col3, widths)) == widths[0] + widths[1] + widths[2] + 10
  {
    var c1 := PadToWidth(isWide, col1, widths[0]);
    var c2 := PadToWidth(isWide, col2, widths[1]);
    var c3 := PadToWidth(isWide, col3, widths[2]);
    BarWidth(isWide);
    var p := Bar();
    AppendCell(isWide, p, c1);
    p := p + Cell(c1);
    AppendBar(isWide, p);
    p := p + Bar();
    AppendCell(isWide, p, c2);
    p := p + Cell(c2);
    AppendBar(isWide, p);
    p := p + Bar();
    AppendCell(isWide, p, c3);
    p := p + Cell(c3);
    AppendBar(isWide, p);
    p := p + Bar();
    assert p == Row(isWide, col1, col2, col3, widths);
  }

  lemma RuleIsFrame(left: char, mid: char, right: char, widths: seq<int>)
    requires |widths| >= 3 && left in FrameChars && mid in FrameChars && right in FrameChars
    ensures FrameOnly(Rule(left, mid, right, widths))
  {
    assert '─' in FrameChars;
    var p := [left];
    FrameOnlyAppend(p, Repeat('─', widths[0] + 2));
    p := p + Repeat('─', widths[0] + 2);
    FrameOnlyAppend(p, [mid]);
    p := p + [mid];
    FrameOnlyAppend(p, Repeat('─', widths[1] + 2));
    p := p + Repeat('─', widths[1] + 2);
    FrameOnlyAppend(p, [mid]);
    p := p + [mid];
    FrameOnlyAppend(p, Repeat('─', widths[2] + 2));
    p := p + Repeat('─', widths[2] + 2);
    FrameOnlyAppend(p, [right]);
  }

  /**
   * What a separator shows once the colour codes are gone: the corners of
   * its style ('top', 'mid', anything else meaning bottom) around three
   * runs of `widths[i] + 2` horizontal bars.
   */
  lemma SeparatorVisible(widths: seq<int>, style: string)
    requires |widths| >= 3
    ensures style == "top" ==> StripSgr(Separator(widths, style)) == Rule('┌', '┬', '┐', widths)
    ensures style == "mid" ==> StripSgr(Separator(widths, style)) == Rule('├', '┼', '┤', widths)
    ensures style != "top" && style != "mid" ==>
              StripSgr(Separator(widths, style)) == Rule('└', '┴', '┘', widths)
    ensures FrameOnly(StripSgr(Separator(widths, style)))
  {
    var (left, mid, right) := Corners(style);
    RuleIsFrame(left, mid, right, widths);
    ColouredFrameVisible(CYAN, Rule(left, mid, right, widths), RESET);
  }

  /** A separator is as wide as its bars plus four corner and junction characters. */
  lemma SeparatorWidth(isWide: WideOracle, widths: seq<int>, style: string)
    requires |widths| >= 3
    ensures DisplayWidth(isWide, Separator(widths, style)) ==
              Positive(widths[0] + 2) + Positive(widths[1] + 2) + Positive(widths[2] + 2) + 4
  {
    SeparatorVisible(widths, style);
    FrameOnlyNarrow(isWide, StripSgr(Separator(widths, style)));
  }

  /** When every cell fits, a row lines up exactly with the separators around it. */
  lemma RowMatchesSeparator(isWide: WideOracle, col1: string, col2: string, col3: string,
                            widths: seq<int>, style: string)
    requires |widths| >= 3 && CellsFit(isWide, col1, col2, col3, widths)
    ensures DisplayWidth(isWide, Row(isWide, col1, col2, col3, widths)) ==
            DisplayWidth(isWide, Separator(widths, style))
  {
    RowWidth(isWide, col1, col2, col3, widths);
    SeparatorWidth(isWide, widths, style);
  }
}
