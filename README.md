# Developer-experience scripts: a verified model

The repository ships a set of developer-experience helpers for a
bot/API/frontend project. This model covers six of them:

- `templates/shell/make-help.py` draws the Makefile help as a three-column table with
  cyan box-drawing borders. It pads each cell by its *display* width: ANSI
  colour codes take no columns and East-Asian wide characters take two.
- `templates/shell/dx-confirm.py` is the generic danger dialog. It shows a red box of inner
  width 50 with a title and a description that the two characters `\n` break
  into lines. It then asks "✅ Продолжить" / "❌ Отмена" through the `gum`
  chooser, or through a typed `y/N` when `gum` is missing. It exits 0 only on
  "continue".
- `templates/shell/dx-confirm-sync.py` is the database-sync dialog. Its box has inner width 56.
  It shows the production target (arguments or defaults) and the development
  database (`PROJECT_NAME`). Its exit rule is the same.
- `templates/shell/dev-stop.py` finds the iTerm2 dev window, first by session names and then by
  shape. It sends Ctrl+C to every session whose name shows a dev process and
  labels each by the first matching pattern. It skips the production
  monitoring tab under `--local-only`/`--local` and counts the successful stops.
- `templates/shell/dev-restart.py` finds the dev window by shape (at least 2 tabs, at least 4 sessions
  in the first). It restarts sessions *by position*: for session i it sends
  Ctrl+C, `clear`, then command i of the local table (7 entries) or of the
  production-monitoring table (4 entries). It counts the successful restarts.
- `templates/go/dxlog/dxlog.go` holds the Go logging helpers:
  - the request counter and its separator;
  - section rules;
  - success, failure and step messages;
  - the highlighted box.

Modules:

| module | file | role |
|---|---|---|
| `Optional` | `option.dfy` | the option type |
| `Strings` | `strings.dfy` | the Python/Go string primitives the scripts use |
| `TextWidth` | `text_width.dfy` | `display_width` and `pad_to_width`, which are identical in the three Python scripts |
| `HelpTable` | `help_table.dfy` | make-help |
| `Dialog` | `dialog.dfy` | what the two confirmation dialogs share |
| `Confirm` | `confirm.dfy` | dx-confirm |
| `ConfirmSync` | `confirm_sync.dfy` | dx-confirm-sync |
| `Iterm` | `iterm.dfy` | the iTerm2 API as used |
| `DevStop` | `dev_stop.dfy` | dev-stop |
| `DevRestart` | `dev_restart.dfy` | dev-restart |
| `DxLog` | `dxlog.dfy` | dxlog |

### Terminal width

- The East-Asian width table is a parameter `isWide: WideOracle`. This is any
  predicate on characters that calls the space and the box-drawing characters
  narrow, as Unicode does.
- `re.sub(r'\033\[[0-9;]*m', '', text)` is the scanner `TextWidth.StripSgr`.

### Dialog runs

A dialog run is the `Outcome` of the lines it prints and its exit status. The
user's answer is a parameter `Answer`: either the chooser's output or the
typed line.

### The iTerm2 connection

- A window, tab or session is a value; a session's `name` variable is an
  `Option<string>` read once.
- The connection is a class `Iterm.Connection` holding the ordered log of every
  text sent. Each `async_send_text` call consumes one entry of a failure script
  fixed in advance, so "which call raised" is an input and not a guess.
- The stop and restart loops are methods over that connection. Each is proved
  equal to a pure specification (`DevStop.StopAll` over `DevStop.WindowVisits`,
  `DevRestart.RestartAll` over `DevRestart.RestartPlan`), and the properties
  are lemmas about the specification.

### Go strings

Go strings are byte strings. Here they are sequences of code points, and
`len` is written out as the UTF-8 byte length `DxLog.ByteLen`.

### Where the code is followed

- **Command order in dev-restart.** The module docstring of
  `templates/shell/dev-restart.py` (lines 6-14) lists the first tab as
  Bot, API, DB Logs, Frontend, Tunnel, Deploy, Status. The code's tables (lines 39-55) say
  Bot, Frontend, API, Tunnel, Deploy, DB Logs, Status, and Prod Bot, Prod DB, Prod API, Prod
  Status. The model follows the code.
- **Labels in dev-stop.** dev-stop's label chain tests `(docker)` only after `(docker-compose)` and
  tests `(bash)` and `(sleep)` before `(ssh)`. The model keeps that order. The final
  `display_name = name` branch can never be taken for a dev session
  (`DevStop.DevLabelIsFixed`).

## Model

| member | source | states |
|---|---|---|
| Strings.Split | templates/shell/dx-confirm.py:67 | `str.split` with a non-empty separator: at least one piece, and the first piece is a prefix of the input |
| Strings.JoinSplit | templates/shell/dx-confirm.py:67 | joining the pieces of a split with the separator gives back the input |
| Strings.SplitPiecesAreFree | templates/shell/dx-confirm.py:67 | no piece of a split contains the separator |
| Strings.SplitWithoutSeparator | templates/shell/dx-confirm.py:67 | a string without the separator splits into itself alone |
| Strings.Strip | templates/shell/dx-confirm.py:87 | `str.strip()`: a slice of the input with only whitespace dropped before and after it, and no whitespace left at either end |
| Strings.TrimStart | templates/shell/dx-confirm.py:87 | leading whitespace removed: the result is a suffix, everything dropped is whitespace and it starts with a non-space |
| Strings.TrimEnd | templates/shell/dx-confirm.py:87 | trailing whitespace removed: the result is a prefix, everything dropped is whitespace and it ends with a non-space |
| Strings.Lower | templates/shell/dx-confirm.py:89 | `str.lower()` on ASCII: same length, each capital becomes its small letter, every other character is kept, and no capital is left |
| Strings.LowerIdempotent | templates/shell/dx-confirm.py:89 | lower-casing an already lower-cased string changes nothing |
| Strings.LowerIsY | templates/shell/dx-confirm.py:89-90 | the lower-cased answer is "y" exactly when the answer is "y" or "Y" |
| Strings.Repeat | templates/shell/make-help.py:35 | `c * n`: length `max(n, 0)` and every character is `c` |
| TextWidth.ParamRun | templates/shell/make-help.py:27 | the `[0-9;]*` run of an escape: maximal, all parameter characters |
| TextWidth.EscapeAt | templates/shell/make-help.py:27 | whatever is matched at the front is a whole `ESC [ params m` sequence |
| TextWidth.EscapeAtComplete | templates/shell/make-help.py:27 | a whole `ESC [ params m` sequence at the front is always matched, with its full length |
| TextWidth.StripSgr | templates/shell/make-help.py:27 | `re.sub(r'\033\[[0-9;]*m', '', text)` as a left-to-right scan: never longer than its input; StripSgrEscape, StripSgrPlainPrefix and StripSgrAppend state what it removes and keeps |
| TextWidth.StripSgrEscape | templates/shell/make-help.py:27 | a colour code at the front is removed entirely |
| TextWidth.StripSgrPlainPrefix | templates/shell/make-help.py:27 | text without ESC passes through unchanged |
| TextWidth.StripSgrAppend | templates/shell/make-help.py:27 | stripping distributes over concatenation when the second part does not continue an escape |
| TextWidth.WidthSumBounds | templates/shell/make-help.py:28 | the width of a string is at least its length, with equality exactly when no character is wide |
| TextWidth.DisplayWidth | templates/shell/make-help.py:23-28 | `display_width`: 2 columns per wide and 1 per other character left after stripping; DisplayWidthCountsVisible and DisplayWidthAppend state its bounds and additivity |
| TextWidth.DisplayWidthCountsVisible | templates/shell/make-help.py:23-28 | `display_width` is at least the number of visible characters, with equality exactly when none of them is wide |
| TextWidth.EscapeHasNoWidth | templates/shell/make-help.py:23-28 | a colour code adds no width |
| TextWidth.DisplayWidthAppend | templates/shell/make-help.py:23-28 | widths add up over concatenation |
| TextWidth.DisplayWidthSpaces | templates/shell/make-help.py:35 | n blanks are n columns wide |
| TextWidth.OnlyEscapesHaveNoWidth | templates/shell/make-help.py:23-28 | a string made only of colour codes is zero columns wide |
| TextWidth.PadToWidth | templates/shell/make-help.py:31-35 | `pad_to_width`: the text followed only by blanks; unchanged when already at least `width` wide; otherwise exactly `width` columns, padded with `width - display_width` blanks |
| TextWidth.PadIsIdempotent | templates/shell/make-help.py:31-35 | padding a padded string again changes nothing |
| TextWidth.PaddedWidth | templates/shell/make-help.py:31-35 | the padded width is `max(width, display_width)`: text that is too wide is never cut |
| HelpTable.Row | templates/shell/make-help.py:38-43 | `print_row`: a cyan bar, then each cell padded to its column with a blank on either side and a cyan bar after it; its width is in RowWidth |
| HelpTable.Separator | templates/shell/make-help.py:46-56 | `print_separator(widths, style)`: the style's corners and junctions around runs of `widths[i] + 2` bars, in cyan; SeparatorVisible and SeparatorWidth state what it shows |
| HelpTable.RowWidth | templates/shell/make-help.py:38-43 | a row is as wide as its three padded cells plus ten columns of bars and blanks, and exactly `w0 + w1 + w2 + 10` when every cell fits |
| HelpTable.SeparatorVisible | templates/shell/make-help.py:46-56 | a separator shows the corners of its style ('top', 'mid', anything else is bottom) around runs of `widths[i] + 2` bars, and nothing but frame characters |
| HelpTable.SeparatorWidth | templates/shell/make-help.py:46-56 | a separator is as wide as its three bar runs plus four corners and junctions |
| HelpTable.RowMatchesSeparator | templates/shell/make-help.py:38-56 | when every cell fits its column, a row lines up exactly with the separators |
| Dialog.BoxLineVisible | templates/shell/dx-confirm.py:36-38 | a box line shows its padded text between two `║` borders, and the colour codes are gone |
| Dialog.BoxLineWidth | templates/shell/dx-confirm.py:36-38 | a box line is two columns wider than its padded content |
| Dialog.BoxSeparatorVisible | templates/shell/dx-confirm.py:41-47 | a separator shows exactly `BOX_WIDTH` double bars between ╔╗ ('top'), ╠╣ ('mid') or ╚╝ (anything else) |
| Dialog.BoxSeparatorWidth | templates/shell/dx-confirm.py:41-47 | a separator is `BOX_WIDTH + 2` columns wide |
| Dialog.BoxLineFits | templates/shell/dx-confirm-sync.py:38-54 | when the text fits, its padded part is exactly the box width and the line is as wide as any separator |
| Dialog.BoxLine | templates/shell/dx-confirm.py:36-38 | `print_line`'s box line: the text padded to the box width between two red `║`; BoxLineVisible and BoxLineWidth state what it shows |
| Dialog.BoxSeparator | templates/shell/dx-confirm.py:41-47 | `print_separator(style)`: `BOX_WIDTH` double bars between the corners of the style, in red; BoxSeparatorVisible and BoxSeparatorWidth state what it shows |
| Dialog.Choice | templates/shell/dx-confirm.py:77-90 | the chosen option: the chooser's output stripped of surrounding whitespace, or without the chooser the confirming option when the typed line is `y` or `Y` up to whitespace and the cancelling option otherwise; ExitCodeZeroIff states when it confirms |
| Dialog.ExitCode | templates/shell/dx-confirm.py:92-97 | status 0 when the choice is the confirming option, 1 otherwise; ExitCodeZeroIff states when that is |
| Dialog.ExitCodeZeroIff | templates/shell/dx-confirm.py:87-97 | the status is 0 or 1; it is 0 exactly when the stripped chooser output is the confirming option, or (without the chooser) the stripped typed line is "y" or "Y" |
| Confirm.Screen | templates/shell/dx-confirm.py:58-72 | the box has ten fixed lines plus one per description piece |
| Confirm.PrintLine | templates/shell/dx-confirm.py:36-38 | `print_line(content)`: the content after two blanks in a box line of width 50; LineFits states its width |
| Confirm.DescriptionLines | templates/shell/dx-confirm.py:66-68 | one red box line per description piece, in order; ScreenLayout places them |
| Confirm.Run | templates/shell/dx-confirm.py:50-97 | `main`: the usage line and status 1 with fewer than two arguments, else the screen and the choice's status; RunExitCode and RunShowsScreen state it |
| Confirm.ScreenLayout | templates/shell/dx-confirm.py:58-72 | top, title (bold, warning sign), middle and bottom separators at their places; piece k of the description at line 7+k in red; the pieces join back to the description and none contains `\n` |
| Confirm.SingleLineDescription | templates/shell/dx-confirm.py:66-68 | a description without `\n` gives one red line and an 11-line box |
| Confirm.RunExitCode | templates/shell/dx-confirm.py:50-97 | fewer than two arguments print the usage line and exit 1; otherwise the status is 0 exactly on "continue" or a typed y/Y |
| Confirm.RunShowsScreen | templates/shell/dx-confirm.py:55-97 | with both arguments the output is the screen followed by an empty line on success or the cancellation notice otherwise |
| Confirm.LineFits | templates/shell/dx-confirm.py:36-47 | content up to 48 columns gives a line 52 columns wide, as wide as every separator |
| Confirm.DescriptionLineFits | templates/shell/dx-confirm.py:67-68 | a description piece up to 48 columns stays aligned with the separators despite its colour codes |
| ConfirmSync.Warning | templates/shell/dx-confirm-sync.py:59-72 | the warning part of the screen is fourteen lines; WarningLayout states their order |
| ConfirmSync.WarningLayout | templates/shell/dx-confirm-sync.py:59-72 | the warning opens with an empty line and the top separator, shows the bold title at line 3 between blank box lines, the middle separator at 5, the two red lines about the lost data at 10 and 11, and the middle separator at 13 |
| ConfirmSync.PrintLine | templates/shell/dx-confirm-sync.py:38-45 | `print_line(content, color)`: a non-empty colour wraps the content, then two blanks and padding to width 56 in a box line; ColourKeepsWidth and LineFits state its width |
| ConfirmSync.ProjectName | templates/shell/dx-confirm-sync.py:20 | `os.getenv('PROJECT_NAME', 'mybot')`: a set variable wins, even when empty |
| ConfirmSync.Target | templates/shell/dx-confirm-sync.py:56-57 | the production server and directory: the first two arguments, or "deploy@server" and "project" |
| ConfirmSync.Screen | templates/shell/dx-confirm-sync.py:59-78 | the warning, the PROD and DEV lines, the bottom separator and an empty line; ScreenLayout places them |
| ConfirmSync.Run | templates/shell/dx-confirm-sync.py:57-106 | `main`: the screen, then status 0 on "yes, synchronise", else the cancellation notice and status 1; RunShowsTarget and RunExitCode state it |
| ConfirmSync.ScreenLayout | templates/shell/dx-confirm-sync.py:61-78 | eighteen lines, with the PROD line at 14, the DEV line at 15 and the bottom separator at 16 |
| ConfirmSync.RunShowsTarget | templates/shell/dx-confirm-sync.py:57-106 | the PROD line shows the arguments or the defaults "deploy@server" and "project"; the DEV line shows `PROJECT_NAME` or "mybot"; 18 lines on success and the cancellation notice as a 19th on cancel |
| ConfirmSync.RunExitCode | templates/shell/dx-confirm-sync.py:84-106 | status 0 exactly on "yes, synchronise" or a typed y/Y, 1 otherwise |
| ConfirmSync.EmptyColourIsNone | templates/shell/dx-confirm-sync.py:40-43 | `color=""` is falsy and draws the same line as no colour |
| ConfirmSync.ColourKeepsWidth | templates/shell/dx-confirm-sync.py:38-45 | a colour code around the content does not change the line's width |
| ConfirmSync.LineFits | templates/shell/dx-confirm-sync.py:38-54 | content up to 54 columns, coloured or not, gives a line as wide as every separator (58 columns) |
| Iterm.FindFirst | templates/shell/dev-restart.py:79-83 | the first position whose element satisfies the test, and None only when none does |
| Iterm.Send | templates/shell/dev-stop.py:27-33 | `async_send_text`: a call either appends one text to the log or raises; either way one entry of the failure script is used up |
| Iterm.Connection.SendText | templates/shell/dev-stop.py:28 | `async_send_text`: appends one entry to the log and consumes one entry of the failure script, exactly as the specification `Send` says |
| Iterm.NoFailuresSplit | templates/shell/dev-restart.py:109-135 | a failure-free stretch of calls splits into two failure-free stretches |
| DevStop.LabelPrecedence | templates/shell/dev-stop.py:90-107 | "(bot)" wins over every other pattern; "(docker)" gives Status only without "(docker-compose)"; "(ssh)" alone gives SSH, or Prod Monitor on the production tab |
| DevStop.DevLabelIsFixed | templates/shell/dev-stop.py:86-107 | every dev session gets one of the fixed labels, so the fallback to the raw name is never taken |
| DevStop.IsDevName | templates/shell/dev-stop.py:80-86 | a session is a dev session when it has a non-empty name containing one of the eight patterns |
| DevStop.Label | templates/shell/dev-stop.py:89-107 | the `display_name` chain, first matching branch wins; LabelPrecedence and DevLabelIsFixed state it |
| DevStop.LocateForStop | templates/shell/dev-stop.py:36-52 | the first window with a dev session, and only when none has one the first window of the dev shape; FindDevWindow is proved equal to it |
| DevStop.TabVisits | templates/shell/dev-stop.py:80-107 | the dev sessions of one tab in order, each with its label; TabVisitsSound, TabVisitsComplete and TabVisitsOrdered state it |
| DevStop.WindowVisits | templates/shell/dev-stop.py:73-107 | every tab's visits in tab order, skipping tab 1 under `--local-only`; WindowVisitsSound, WindowVisitsComplete and WindowVisitsOrdered state it |
| DevStop.StopAll | templates/shell/dev-stop.py:25-33 | `stop_session` for each visit in turn, counting the successes; StopAllLog and StopAllNoFailures state it |
| DevStop.FindDevWindow | templates/shell/dev-stop.py:36-52 | the first window holding a session whose name matches a dev pattern; failing that, the first window with at least 2 tabs and at least 4 sessions in the first; else none |
| DevStop.TabVisitsSound | templates/shell/dev-stop.py:80-107 | every session visited in a tab has a name matching a dev pattern and carries its session id and label |
| DevStop.TabVisitsComplete | templates/shell/dev-stop.py:80-107 | every session of the tab whose name matches a dev pattern is visited |
| DevStop.TabVisitsOrdered | templates/shell/dev-stop.py:80 | visits in a tab follow session order |
| DevStop.WindowVisitsSound | templates/shell/dev-stop.py:73-107 | every visit is a dev session of the window, never in the skipped production tab |
| DevStop.WindowVisitsComplete | templates/shell/dev-stop.py:73-107 | every dev session outside a skipped tab is visited, with its label (Prod Monitor only in tab 1) |
| DevStop.WindowVisitsOrdered | templates/shell/dev-stop.py:73-80 | visits follow tab order, then session order |
| DevStop.StopAllLog | templates/shell/dev-stop.py:25-33 | stopping sends only Ctrl+C, one call per visited session and only to visited sessions, and never more successes than visits |
| DevStop.StopAllNoFailures | templates/shell/dev-stop.py:25-33 | without failures every visited session receives Ctrl+C, in order, and every visit is counted |
| DevStop.StopSession | templates/shell/dev-stop.py:25-33 | `stop_session`: one Ctrl+C send, successful exactly when the call does not fail |
| DevStop.StopTab | templates/shell/dev-stop.py:80-115 | the session loop of one tab extends the run of `StopAll` by that tab's visits |
| DevStop.StopWindow | templates/shell/dev-stop.py:71-115 | the whole tab loop leaves the connection and the count exactly as `StopAll` over `WindowVisits` says |
| DevStop.StopDevEnvironment | templates/shell/dev-stop.py:55-121 | no window found: nothing is sent and nothing is counted; otherwise the window `FindDevWindow` finds is stopped as `StopWindow` says, with `--local-only`/`--local` skipping tab 1 |
| DevRestart.FlagTakenForDirectory | templates/shell/dev-restart.py:27 | as written, `dev-restart.py --local-only` takes the flag as the project directory and runs `cd '--local-only' && make bot` |
| DevRestart.ProjectDirAsWritten | templates/shell/dev-restart.py:27 | `PROJECT_DIR` as written: the first argument whatever it is, else the working directory |
| DevRestart.ProjectDir | templates/shell/dev-restart.py:17-27 | the corrected `PROJECT_DIR`: the first argument only when it is not a flag, else the working directory |
| DevRestart.ProjectDirIsNotAFlag | templates/shell/dev-restart.py:17-27 | the corrected project directory is the first argument when it is not a flag, else the working directory; it agrees with the code whenever the first argument is not a flag |
| DevRestart.CommandShapes | templates/shell/dev-restart.py:39-55 | seven local commands, each starting with `cd '<dir>' && `; four monitoring commands, each running quoted inside `ssh <server> 'cd <prod dir> && …'` |
| DevRestart.Tab1Commands | templates/shell/dev-restart.py:39-47 | `TAB1_COMMANDS`: the seven names and commands, in table order |
| DevRestart.Tab2Commands | templates/shell/dev-restart.py:50-55 | `TAB2_COMMANDS`: the four names and ssh-wrapped commands, in table order |
| DevRestart.RestartOne | templates/shell/dev-restart.py:58-74 | `restart_session`: Ctrl+C, `clear\n`, then the command, ending with False at the first failing call; RestartOneLog states it |
| DevRestart.RestartOneLog | templates/shell/dev-restart.py:58-74 | a restart sends a prefix of Ctrl+C, `clear\n` and `<command>\n`; it succeeds exactly when none of the three calls fails, and then all three are sent; on a failure no call is made after the failing one |
| DevRestart.RestartSession | templates/shell/dev-restart.py:58-74 | `restart_session` does what `RestartOne` says, stopping at the first failing call |
| DevRestart.TabJobsExact | templates/shell/dev-restart.py:109-117 | position i of a tab gets command i, for i below min(sessions, commands); later sessions are untouched |
| DevRestart.TabJobsInTab | templates/shell/dev-restart.py:109-117 | every restart planned for a tab goes to a session of that tab |
| DevRestart.TabJobs | templates/shell/dev-restart.py:109-117 | one job per session whose position has a command table entry, in order; TabJobsExact states it |
| DevRestart.RestartPlan | templates/shell/dev-restart.py:102-135 | the first tab's jobs, then the second tab's unless `--local-only`/`--local` or there is no second tab; RestartPlanPositions states it |
| DevRestart.RestartPlanPositions | templates/shell/dev-restart.py:102-135 | the plan is tab 0's min(n, 7) jobs, then tab 1's min(n, 4) jobs when it is not `--local-only` and there is a second tab, each at its own position; no tab from index 2 on is touched |
| DevRestart.RestartAllLog | templates/shell/dev-restart.py:109-135 | the count never exceeds the planned jobs; every successful restart adds three sends and a failed one at most two; every send goes to a planned session |
| DevRestart.RestartAllNoFailures | templates/shell/dev-restart.py:109-135 | without failures every planned job is restarted, and the log is exactly their three sends each, in plan order |
| DevRestart.RestartAll | templates/shell/dev-restart.py:100-135 | `restart_session` for each planned job in turn, counting the successes; RestartAllLog and RestartAllNoFailures state it |
| DevRestart.FindDevWindow | templates/shell/dev-restart.py:77-83 | the first window with at least 2 tabs and at least 4 sessions in its first tab |
| DevRestart.RestartTab | templates/shell/dev-restart.py:109-117 | one tab's position loop extends `RestartAll` by that tab's jobs |
| DevRestart.RestartDevEnvironment | templates/shell/dev-restart.py:86-135 | no window found: nothing sent and nothing counted; otherwise the window has at least 2 tabs and the connection and count are exactly `RestartAll` over the plan, built from `PROJECT_DIR` as line 27 computes it |
| DxLog.ByteLenBounds | templates/go/dxlog/dxlog.go:84 | `len` of a string is between its code-point count and four times it, equal to it exactly for ASCII text |
| DxLog.ByteLen | templates/go/dxlog/dxlog.go:84 | Go's `len` of a string: the sum of the UTF-8 lengths of its code points; ByteLenBounds states its range |
| DxLog.Box | templates/go/dxlog/dxlog.go:83-90 | `Box` as written, its bars counted by `len(text) + 4`; BoxShape and BoxAlignedIff state it |
| DxLog.AlignedBox | templates/go/dxlog/dxlog.go:83-90 | the corrected box, its bars counted by the display width of the text; AlignedBoxLinesMatch states it |
| DxLog.Section | templates/go/dxlog/dxlog.go:53-56 | `Section`: gray, forty light bars, a blank, the label, then the reset code; SectionVisible states what it shows |
| DxLog.BoxShape | templates/go/dxlog/dxlog.go:83-90 | `Box` prints a blank line, a top border, the text between `║  ` and `  ║`, a bottom border with the same bars and a blank line; the bar count is the byte length of the text plus four |
| DxLog.BoxAlignedIff | templates/go/dxlog/dxlog.go:83-90 | the borders are byte length + 6 columns and the middle is display width + 6, so they line up exactly when the byte length equals the display width |
| DxLog.BoxMisalignedExample | templates/go/dxlog/dxlog.go:84-89 | for "Ок" the border is 10 columns and the text line 8 |
| DxLog.AlignedBoxLinesMatch | templates/go/dxlog/dxlog.go:83-90 | the corrected box: all three lines have the same width, and the text line is unchanged |
| DxLog.SectionVisible | templates/go/dxlog/dxlog.go:53-56 | a section shows 40 light bars, a blank and the title, and is 41 columns wider than the title |
| DxLog.Digits | templates/go/dxlog/dxlog.go:70 | `%d` of a natural number is a non-empty run of decimal digits |
| DxLog.DigitsRoundTrip | templates/go/dxlog/dxlog.go:70 | decimal digits read back as the number, without a leading zero |
| DxLog.DecimalRoundTrip | templates/go/dxlog/dxlog.go:70 | `%d` of any integer, sign included, reads back as that integer and contains neither `/` nor `]` |
| DxLog.StepMessage | templates/go/dxlog/dxlog.go:69-71 | `fmt.Sprintf("▸ [%d/%d] %s", step, total, msg)`; StepRoundTrip states that it can be read back |
| DxLog.StepRoundTrip | templates/go/dxlog/dxlog.go:69-71 | a step message `▸ [step/total] msg` determines step, total and message |
| DxLog.MarkedMessages | templates/go/dxlog/dxlog.go:58-66 | success and failure messages are the text after the ✅ or ❌ mark, and the two never coincide |
| DxLog.Success | templates/go/dxlog/dxlog.go:58-61 | an Info record of `✅ msg`; MarkedMessages states it |
| DxLog.Fail | templates/go/dxlog/dxlog.go:63-66 | a Warn record of `❌ msg`; MarkedMessages states it |
| DxLog.NextIdWraps | templates/go/dxlog/dxlog.go:40 | the counter increments modulo 2^64 |
| DxLog.NextId | templates/go/dxlog/dxlog.go:40 | `atomic.AddUint64(&requestCounter, 1)` on a `uint64`: the next value modulo 2^64 |
| DxLog.IdsCountUp | templates/go/dxlog/dxlog.go:39-50 | before wrap-around, successive request ids are 1, 2, 3, … above the start and strictly increasing |
| DxLog.RepeatStringLength | templates/go/dxlog/dxlog.go:42 | `strings.Repeat(s, n)` has `n` times as many code points as `s` |
| DxLog.RepeatString | templates/go/dxlog/dxlog.go:42 | `strings.Repeat(s, n)`: `n` copies of `s`; RepeatStringLength, RepeatStringByteLen and RepeatStringCopy state it |
| DxLog.RepeatStringByteLen | templates/go/dxlog/dxlog.go:42 | `len(strings.Repeat(s, n)) == n * len(s)`, counting UTF-8 bytes as Go does |
| DxLog.RepeatStringCopy | templates/go/dxlog/dxlog.go:42 | copy `k` of `strings.Repeat(s, n)` starts at code point `k` times the code points of `s`, so the result is n copies of `s` back to back |
| DxLog.Logger.NewRequest | templates/go/dxlog/dxlog.go:39-50 | increments the counter (mod 2^64) and returns its new value; prints an empty line and a cyan separator of `SeparatorLen` copies of `SeparatorChar`; logs "emoji label" at Info; the separator settings are unchanged |
| DxLog.Logger.constructor | templates/go/dxlog/dxlog.go:16-23 | the counter starts at 0, the separator is "═" repeated 60 times |
| DxLog.DefaultSeparator | templates/go/dxlog/dxlog.go:21-22 | the default separator shows 60 double bars, 60 columns wide |

## Left out

- `make-help.py`'s `main` (lines 59 onwards) prints fixed data through `print_row` and `print_separator`. Only those two are modelled. `PROJECT_NAME` only appears in its heading.
- The East-Asian width table of `unicodedata` is not modelled. It is a parameter (`WideOracle`) of which only the width of spaces and box-drawing characters is fixed.
- `str.lower()` is modelled on ASCII letters only, which is all the comparison with "y" can observe.
- Printing, `input()` and the `gum` subprocess are not modelled. A run returns its lines, and the chooser output or typed line is a parameter. The environment filter that drops `BOLD` for `gum` is not modelled.
- Confirm.RunExitCode and ConfirmSync.RunExitCode: an end-of-file or interrupt on `input()` raises in the source and is not a modelled answer.
- The `asyncio.sleep` pauses, the `--debug` lines and the progress and summary lines printed by dev-stop and dev-restart are not modelled. These scripts return the found/count values they would print instead.
- `.env` loading is not modelled. The working directory `os.getcwd()`, `PROD_SERVER` and `PROD_DIR` are parameters of `DevRestart.RestartDevEnvironment`. dev-stop's own `PROJECT_DIR` (line 19) is never used and is left out.
- DevRestart.RestartDevEnvironment: the final `async_activate` and `async_select` of the first tab (lines 138-140) do not send text and are not modelled.
- Exceptions other than a failing `async_send_text` are not modelled. These include a failing name read, connection loss and a failure while focusing the window; they abort the script in the source.
- Session names are read once. A session renamed while a script runs is not modelled.
- Iterm.Connection.SendText: only whether the call raised is observable; the text on screen is not.
- DxLog.Logger.NewRequest requires `SeparatorLen >= 0`, because `strings.Repeat` panics on a negative count. It omits the `req_id` attribute and the caller's extra `slog` attributes from the logged record.
- The `slog` handler's formatting, the attributes of `Success`, `Fail` and `Step`, and the output streams are not modelled. A log call is a record of its level and message.
- The atomicity of `atomic.AddUint64` across goroutines is not modelled; the counter is a field updated by one caller at a time.
- `Timer` (`dxlog.go` lines 73-80) reads the clock and `Table` (lines 92-98) iterates a Go map in random order. Neither is modelled.
- DxLog.ByteLen: invalid UTF-8 in Go strings is not representable. A string is its code points, and `len` is their UTF-8 byte count.

## Findings

| source | as written | input that shows it | evidently intended | confidence | as-written member | corrected member |
|---|---|---|---|---|---|---|
| templates/go/dxlog/dxlog.go:84 | the border width is `len(text) + 4`, a byte count | `Box("Ок")`: 4 bytes, 2 columns, so the borders are 10 columns and the text line 8 | borders as wide as the text line, measured in display columns | high, not executed | DxLog.BoxMisalignedExample | DxLog.AlignedBoxLinesMatch |
| templates/shell/dev-restart.py:27 | `PROJECT_DIR = sys.argv[1]` whenever there is an argument | `dev-restart.py --local-only`: the directory becomes `--local-only`, so every command starts `cd '--local-only' && ` | the directory is optional before the flag (usage at lines 17-18), so a flag is not a directory | medium, not executed | DevRestart.FlagTakenForDirectory | DevRestart.ProjectDirIsNotAFlag |

`DevRestart.RestartDevEnvironment` models `main` as written: its plan is
built from `DevRestart.ProjectDirAsWritten`, so the defect of line 27 is part
of what it promises. `DevRestart.ProjectDir` is the corrected choice, and
`DevRestart.ProjectDirIsNotAFlag` states where the two agree.
`DxLog.AlignedBox` is the box the rest of the model refers to.
