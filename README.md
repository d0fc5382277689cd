# Pixel tasker tools: a Dafny model

This project models `tools.py` of the pixel tasker agent. That file holds the tool
functions a vision-driven agent uses to operate Tasker on an Android phone:

- `analyzeImage` turns the vision model's normalised boxes (0..1000, laid out
  `[ymin, xmin, ymax, xmax]`) into pixel boxes `abs_box = [xmin, ymin, xmax, ymax]`
  and a click point `click_x`, `click_y`. It updates the element list in place.
- `navigateTaskerStep` launches Tasker, analyses the screen and taps the first element found.
- `performClick` and `performTextInput` build the `input tap` and `input text` shell commands.
- `testTask` broadcasts a task name and decides pass or fail from what the device prints.

Modules, one file each:

- `Common`: Option, Result and the exceptions the code can raise.
- `Geometry`: coordinate scaling and the click point.
- `Elements`: element records and the in-place mapping pass. `MapElements` loops over an `array`.
- `Navigation`: the first-element decision and its replies.
- `Text`: Python `str()` of an int, `lower()` and substring `in`.
- `Shell`: how a POSIX shell reads quoted words.
- `Commands`: the command and status strings, the escaping and the `passed` predicate.
- `Tools`: a `Session` class. Its methods are the tool functions, and their effects are appended to its `trace`.
  The effects covered are connecting to the device, launching an app, sleeping, taking a screenshot, running a shell
  command, opening the image and asking the vision model.

What the device prints and what the model answers come in as parameters: `output` and `answer`.

Rules of the code worth stating directly:

- A task passes when the lower-cased output contains `success` (tools.py:90). An output containing `error` still
  passes when it also contains `success` (`Commands.PassedInContext`). An empty output fails (`Commands.PassedNeedsWord`).
- `abs_box` is `[xmin, ymin, xmax, ymax]` (tools.py:43-48), while `box_2d` is `[ymin, xmin, ymax, xmax]`.
- The code does not check that the screen size is positive or that box values lie in 0..1000. The model has no such
  preconditions. The bound lemmas assume them.
- Two exceptions raised inside the pass and the selection are returned as `Err`: IndexError for a `box_2d` with
  fewer than four entries, and KeyError for a first element without `click_x` or `click_y`. The missing device serial
  of `getDevice` is returned as `Err` too.

## Model

| member | source | states |
|---|---|---|
| `Geometry.TruncDiv` | tools.py:44-47 | `int()` truncates toward zero: the quotient is bracketed by the numerator from below for positive and from above for negative numerators |
| `Geometry.ScaleCoord` | tools.py:44-47 | int(b / 1000 * dim) computed exactly: b * dim / 1000 truncated toward zero, bracketed by multiples of 1000 on either sign |
| `Geometry.ScaleCoordMonotone` | tools.py:44-47 | scaling a box value by a non-negative dimension preserves order |
| `Geometry.ScaleCoordBounds` | tools.py:44-47 | a value in 0..1000 scales into 0..dim; 0 goes to 0 and 1000 goes to dim exactly |
| `Geometry.AbsBox` | tools.py:43-48 | four values in the order xmin, ymin, xmax, ymax: the x values scale box_2d[1] and box_2d[3] by the width, the y values box_2d[0] and box_2d[2] by the height |
| `Geometry.AbsBoxWithinScreen` | tools.py:42-48 | with values in 0..1000, abs_box x values lie in 0..W and y values in 0..H; an ordered box stays ordered |
| `Geometry.FullScreenBox` | tools.py:42-48 | box [0,0,1000,1000] maps to [0,0,W,H] |
| `Geometry.FullScreenClickExample` | tools.py:42-51 | on a 1080 x 2400 screen the full box is [0,0,1080,2400], clicked at (540, 1200) |
| `Geometry.AbsBoxMonotone` | tools.py:42-48 | abs_box is monotone in each of the four input values, with the axes swapped into x-first order |
| `Geometry.MidpointBetween` | tools.py:50-51 | the floor midpoint of an ordered pair lies between its ends |
| `Geometry.Midpoint` | tools.py:50-51 | Python's `(a + b) // 2`: the floor of half the sum, and between a and b when a <= b |
| `Geometry.ClickX` | tools.py:50 | click_x is the floor midpoint of abs_box[0] and abs_box[2], inside them when they are ordered |
| `Geometry.ClickY` | tools.py:51 | click_y is the floor midpoint of abs_box[1] and abs_box[3], inside them when they are ordered |
| `Geometry.ClickInsideAbsBox` | tools.py:42-51 | when xmin <= xmax and ymin <= ymax, (click_x, click_y) lies inside abs_box, bounds included |
| `Elements.MapElement` | tools.py:41-51 | mapping one element keeps box_2d and every other key; an element without box_2d is unchanged; the result's abs_box and click point agree with its box |
| `Elements.MapElementFixesConsistent` | tools.py:41-51 | an element whose derived fields already agree with its box is unchanged |
| `Elements.MapElementIdempotent` | tools.py:41-51 | mapping twice gives the same element as mapping once |
| `Elements.MapAll` | tools.py:40-51 | the pass over a list keeps its length and order and maps each element on its own |
| `Elements.FirstUnmappable` | tools.py:40-48 | finds the first element whose box_2d is too short to index; none exactly when every element is mappable |
| `Elements.MapAnalysis` | tools.py:38-52 | without "elements" the answer is unchanged; otherwise all elements are mapped, or IndexError when some box_2d has fewer than four entries |
| `Elements.MapElements` | tools.py:40-51 | the in-place loop: on success every array slot holds its mapped element; on IndexError at k, slots before k are mapped and the rest are untouched |
| `Elements.FirstUnmappableAt` | tools.py:40-48 | the loop's stopping index is the first unmappable element |
| `Elements.MapAnalysisInPlace` | tools.py:38-52 | running the in-place loop on a copy of the list gives exactly MapAnalysis |
| `Elements.MapAnalysisFrame` | tools.py:40-52 | after the pass, top-level keys, list length, each box_2d and other keys are preserved; unboxed elements are unchanged |
| `Navigation.SelectStep` | tools.py:70-72 | absent or empty list: not found; otherwise the first element's click_x then click_y are looked up, and a tap at them happens exactly when both exist |
| `Navigation.StepReply` | tools.py:72-74 | a tap gives "Step executed", not found gives "Element not found", a missing key gives KeyError |
| `Navigation.MappedFirstElementTappedInside` | tools.py:40-72 | after the pass, a first element with an ordered box_2d is tapped inside its abs_box |
| `Navigation.UnboxedFirstElementRaises` | tools.py:40-72 | a first element without box_2d and without click_x raises KeyError, even if later elements are mapped |
| `Text.IntToString` | tools.py:58 | Python str() of an int is non-empty, has no space, and is digits with an optional leading minus, with no leading zero except in "0" itself |
| `Text.IntToStringRoundTrip` | tools.py:58 | str() of an int reads back as the same int |
| `Text.Lower` | tools.py:90 | the ASCII fold of Python lower() (see `Text.LowerChar` under Left out) keeps the length, folds each character on its own, leaves no upper-case letter, and returns text without one unchanged |
| `Text.ContainsIff` | tools.py:90 | the scan behind `in` finds a pattern exactly when it occurs at some index |
| `Shell.ReadSingleQuoted` | tools.py:87 | a single-quoted word ends at the first single quote; unterminated exactly when there is none |
| `Commands.TapCommandRoundTrip` | tools.py:58 | "input tap " + str(x) + " " + str(y) reads back as exactly (x, y) |
| `Commands.TapCommand` | tools.py:58 | the tap command starts with "input tap " and its arguments read back as exactly (x, y) |
| `Commands.ClickStatusRoundTrip` | tools.py:60 | "Clicked at (" + str(x) + ", " + str(y) + ")" reads back as exactly (x, y) |
| `Commands.ClickStatus` | tools.py:60 | the status starts with "Clicked at (" and names exactly the point (x, y) |
| `Commands.ReplaceChar` | tools.py:97 | Python str.replace with a one-character pattern turns a lone occurrence into the replacement and keeps a lone other character; with ReplaceCharAppend (replace distributes over concatenation) this fixes the result for every text; text without the pattern comes back unchanged, and no occurrence is left when the replacement has none |
| `Commands.Escape` | tools.py:97 | the chained replace calls: a backslash before each `"` and `'`, every other character kept in order |
| `Commands.EscapeIsPerCharacter` | tools.py:97 | `replace('"', ...)` followed by `replace("'", ...)` escapes each character on its own: the second call never touches what the first inserted |
| `Commands.EscapeLength` | tools.py:97 | escaped length = input length + number of '"' + number of "'" |
| `Commands.EscapeWithoutQuotes` | tools.py:97 | text without quotes is returned unchanged |
| `Commands.EscapeRoundTrip` | tools.py:97 | removing the backslash before each quote gives back the text: all other characters stay, in order |
| `Commands.EscapeAsWrittenKeepsBackslash` | tools.py:97-98 | with the escaping of tools.py, the shell hands `\'` to `input text` for `'` |
| `Commands.EscapeAsWrittenBreaksOut` | tools.py:97-98 | with the escaping of tools.py, text `\"` closes the double quotes early |
| `Commands.EscapeAsWrittenSubstitutes` | tools.py:97-98 | with the escaping of tools.py, `$HOME` is left to parameter substitution |
| `Commands.EscapeAsWrittenSafeDomain` | tools.py:97-98 | text free of backslash, $, backtick and single quote reaches `input text` unchanged with the escaping of tools.py |
| `Commands.EscapeDqReadsBack` | tools.py:97-98 | the corrected escaping is read by the shell as exactly the text, ending at the closing quote |
| `Commands.TextInputCommand` | tools.py:97-98 | the command performTextInput sends, `input text "` + escaped + `"`; its quoted argument reads back as the text when the text has none of backslash, $, backtick and `'` |
| `Commands.CorrectedTextInputCommand` | tools.py:97-98 | the corrected command: its quoted argument reads back as exactly the text, whatever it holds |
| `Commands.InputStatus` | tools.py:100 | the status is "Input text: " followed by the text before escaping |
| `Commands.BroadcastQuotesTaskName` | tools.py:87 | the single-quoted word read from the task name and its closing quote is the name exactly when the name has no single quote |
| `Commands.BroadcastCommand` | tools.py:87 | the broadcast prefix, an opening quote, then the task name unescaped and a closing quote; the shell's quoted word is the name exactly when the name has no single quote, and otherwise the name up to its first quote, with the rest of the name left over as shell text |
| `Commands.BroadcastSplitsAtFirstQuote` | tools.py:87 | for a name with a single quote, the quoted word ends at the name's first quote and the rest of the name follows it unquoted |
| `Commands.Passed` | tools.py:90 | passed exactly when "success" occurs at some index of the lower-cased output |
| `Commands.PassedCaseInsensitive` | tools.py:90 | lower-casing the output first does not change the verdict |
| `Commands.PassedNeedsWord` | tools.py:90 | outputs shorter than "success", the empty one included, fail |
| `Commands.PassedInContext` | tools.py:90 | a passing output still passes with any text around it, "error" included |
| `Commands.PassedExamples` | tools.py:90 | "Task SUCCESS" passes; "error" fails |
| `Tools.GetDevice` | tools.py:15-18 | no configured serial raises ValueError; otherwise connects to that serial |
| `Tools.Prompt` | tools.py:29-30 | the caller's query when there is one, otherwise the generic default prompt |
| `Tools.StepQuery` | tools.py:69 | "Find element for: " + the step description + ". Provide box for click." |
| `Tools.NavigateEffects` | tools.py:65-74 | connect, launch Tasker, sleep 2, connect, screenshot, open the image, ask; then one tap at the selected point exactly when the step taps, and nothing else |
| `Tools.NavigateReply` | tools.py:70-74 | "Step executed" exactly when the step taps, "Element not found" exactly when the list is absent or empty, and no other success; an error exactly when the pass raises (that same IndexError) or the first element lacks click_x or click_y (KeyError of the first missing key) |
| `Tools.Session.Connect` | tools.py:15-18 | raises the ValueError with no effect when no serial is set; otherwise connects to that serial |
| `Tools.Session.CaptureScreen` | tools.py:21-25 | fails with the ValueError and no effect when no serial is set; otherwise connects and takes a screenshot to current_screen.png, reporting success |
| `Tools.Session.AnalyzeImage` | tools.py:28-52 | opens the image and sends it with the caller's query or the default prompt; the parsed answer goes through MapAnalysis |
| `Tools.Session.PerformClick` | tools.py:55-60 | connects over adb, sends the tap command and sleeps one second; reports "Clicked at (x, y)" |
| `Tools.Session.NavigateTaskerStep` | tools.py:63-74 | without serial: ValueError, no effect; otherwise the effects are NavigateEffects and the reply is NavigateReply |
| `Tools.Session.TestTask` | tools.py:84-90 | without serial: ValueError; otherwise connects and sends one broadcast command, reporting the output and Passed(output) |
| `Tools.Session.PerformTextInput` | tools.py:93-100 | connects over adb, sends the text-input command as tools.py builds it (Commands.TextInputCommand) and sleeps one second; the status carries the unescaped text |
| `Tools.NavigateTapsFirstElement` | tools.py:63-74 | a first element with an ordered box yields "Step executed" and exactly one tap, inside its abs_box |
| `Tools.NavigateNotFoundTapsNothing` | tools.py:70-74 | an absent or empty list yields "Element not found" and no shell command |

## Left out

- Device I/O through uiautomator2 and adb is modelled only as effects in `Session.trace`. This covers connecting,
  screenshots, app launch and shell execution. The device's printed output is a parameter.
- Failures of those library calls are left out. `u2.connect`, `app_start`, `screenshot` and `shell` can raise on a real
  device. In the model no `Session` method fails because of the device. Its only errors are the missing serial and the
  IndexError or KeyError raised by a parsed answer.
- `time.sleep` is modelled as a `Sleep` effect. Real time is not modelled.
- `GenerativeModel` is constructed in analyzeImage and generatePlan. That construction is not an effect in the model.
- The Gemini calls and `json.loads` are foreign calls. The parsed answer is a parameter. An unparsable reply raises
  a JSON error in tools.py. The model has no case for that error.
- `generatePlan` is not modelled. It only forwards a prompt to the model and parses the reply.
- `int(b / 1000 * W)` is computed in floating point. The model uses the exact quotient `b * W / 1000`, truncated toward
  zero. The two can differ when rounding lands on an integer boundary.
- Box entries are integers in the model. JSON floats and values of other types are not modelled. An "elements" value
  that is not a list, and a top-level answer that is not an object, are not modelled either.
- Keys other than box_2d, abs_box, click_x and click_y are carried as opaque values.
- `Text.LowerChar`: folds only ASCII A..Z. Python's `lower()` also folds other Unicode letters, and one of them, U+0130,
  becomes two characters. For the pattern "success" the verdict is the same: only the ASCII letters S, U, C and E
  lower-case to s, u, c and e.
- `Shell.ReadDq`: treats every unescaped `$` or backtick as a substitution. It does not check whether a name follows.
- `Session.PerformClick` and `Session.PerformTextInput` record `AdbConnect` with the serial as configured, without the
  serial check. What that library does with no serial is not part of this model.
- The legacy snake_case aliases at the end of tools.py are plain renames.
- The agent definitions under `vision_tasker_agent/` are declarative configuration. The sequential, loop and parallel
  behaviour lives in the agent library, which is not part of this model.
- `test_agent_behavior.py` and `test_updated_agent.py` import an intent classifier and workflow runners. No shown file
  defines them, so they are not modelled.

## Findings

| source | as written | input that shows it | evidently intended | confidence | as-written member | corrected member |
|---|---|---|---|---|---|---|
| tools.py:97-98 | `'` becomes `\'` inside a double-quoted shell argument. There a backslash escapes only `$`, backtick, `"`, `\` and newline, so the backslash is kept | text `'` is typed as `\'` | the typed text equals the text (the status reports it unescaped) | medium; not executed | `Commands.EscapeAsWrittenKeepsBackslash` (on `Commands.Escape`, as sent by `Commands.TextInputCommand`) | `Commands.CorrectedTextInputCommand` (on `Commands.EscapeDq`, proved by `Commands.EscapeDqReadsBack`) |
| tools.py:97-98 | backslashes are not escaped, so `\"` becomes `\\"`, which the shell reads as `\` followed by the closing quote | text `\"` ends the argument after `\` and leaves a stray `"` | the whole text stays inside the quotes | medium; not executed | `Commands.EscapeAsWrittenBreaksOut` (on `Commands.Escape`) | `Commands.CorrectedTextInputCommand` (on `Commands.EscapeDq`, proved by `Commands.EscapeDqReadsBack`) |
| tools.py:97-98 | `$` and backtick are not escaped | text `$HOME` is substituted by the shell | special characters are escaped for the shell | medium; not executed | `Commands.EscapeAsWrittenSubstitutes` (on `Commands.Escape`) | `Commands.CorrectedTextInputCommand` (on `Commands.EscapeDq`, proved by `Commands.EscapeDqReadsBack`) |
