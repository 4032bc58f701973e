# Security-patch dialog of the module's web UI

The web UI has a dialog that sets the security-patch level the module
reports. The level lives in two files:

- `/data/adb/security_patch` is the settings file. Its `auto_config=` line
  says whether the level is found automatically (`1`) or set by hand (`0`).
- `/data/adb/tricky_store/security_patch.txt` is the manual file. It holds
  either a single `all=YYYYMMDD` line, or `system=`, `boot=` and `vendor=`
  lines for the per-partition values of advanced mode.

This project models three parts of the dialog and proves properties of each.

**Validators.** There are three. Each is a character-class predicate, and
each is proved equal to the anchored regular expression the dialog tests,
written over a small regular-expression datatype:

- `isValid8Digit` accepts `YYYYMMDD`;
- `isValid6Digit` accepts `YYYYMM` or the sentinel `prop`;
- `isValidDateFormat` accepts `YYYY-MM-DD` with month 01–12 and day 01–31, or
  the sentinel `no`.

**Save button.** The button does four things:

- It decides, from the toggle and the trimmed inputs, whether to disable the
  manual value, reject one input with its own message, or write a manual value.
- It serialises that value.
- After a successful write, it clears the inputs of the other mode.
- It picks the message to show.

**`loadCurrentConfig`.** This reads the two files back into the inputs and
decides whether the dialog opens in advanced mode.

The dialog is a class. Its toggle and four inputs are fields that the
handlers update in place, and each handler is proved against a specification
function over a snapshot of that state.

The outside world enters only as parameters: the text `cat` printed
(absent when the command failed), and whether a shell command succeeded.
On top of that, the model writes out the two file changes a save makes. The
`sed` command turns the settings file to `auto_config=0`, and the manual file
receives the value. With these, a lemma proves the round trip: a successful
manual save, followed by a reload, puts every saved value back into its
input.

Three facts of the code as written are proved, not hidden:

- A `YYYY-MM-DD` date is only checked for ranges, so `2023-02-31` passes.
- Each manual-file line resets all four tracked values. So only the final line
  decides whether the dialog opens in advanced mode.
- A manual file whose text ends with a line break therefore never switches
  advanced mode on. `echo` writes such a text. Whether `execCommand` strips
  the break is decided in `main.js`, which is not part of this model. The
  round-trip lemmas cover both cases.

Files:

- `wrappers.dfy`: Option
- `text.dfy`: JavaScript's `trim`, `split`, `join` and `startsWith` on strings
- `regex.dfy`: whole-string regular-expression matching
- `validators.dfy`: the three validators
- `dialog_state.dfy`: the inputs as a value
- `save_patch.dfy`: the save decision and serialiser
- `config_reader.dfy`: the reading side of `loadCurrentConfig`
- `dialog.dfy`: the dialog class
- `round_trip.dfy`: the files after a save, and reading them back

## Model

| member | source | states |
|---|---|---|
| Validators.IsValid8Digit | module/webui/scripts/security_patch.js:149-152 | `isValid8Digit` accepts only eight-character values, none of which the six-digit or the date check accepts; `Valid8DigitIsRegexTest` ties it to `^\d{8}$` |
| Validators.IsValid6Digit | module/webui/scripts/security_patch.js:142-146 | nothing `isValid6Digit` accepts is also a valid date; `Valid6DigitIsRegexTest` ties it to its regular expression |
| Validators.IsValidDateFormat | module/webui/scripts/security_patch.js:135-139 | `isValidDateFormat` accepts only values of two (`no`) or ten (`YYYY-MM-DD`) characters; `ValidDateFormatIsRegexTest` ties it to its regular expression |
| Text.Trim | module/webui/scripts/security_patch.js:196 | `trim()` never lengthens a string; `TrimSpec` states what it removes |
| Text.Split | module/webui/scripts/security_patch.js:73 | `split` always returns at least one piece (one empty piece for an empty text); `SplitSpec` states what the pieces are |
| SavePatch.DecideSave | module/webui/scripts/security_patch.js:194-240 | the save decision: a rejection names an input of the mode in use, whose trimmed value fails that input's check; a manual value is never empty; `NormalModeDecision` and `AdvancedModeDecision` state each mode in full |
| SavePatch.AdvancedValue | module/webui/scripts/security_patch.js:242-247 | the advanced-mode value is empty exactly when all three trimmed inputs are; `AdvancedValueLines` states its lines |
| ConfigReader.LastSet | module/webui/scripts/security_patch.js:92-117 | the value an input receives from the manual file is never empty (an empty value is turned into null); `LastSetSpec` characterises it |
| ConfigReader.TrackedAfter | module/webui/scripts/security_patch.js:92-117 | no tracked value is ever the empty string after the loop: each is null or a non-empty value |
| ConfigReader.Reload | module/webui/scripts/security_patch.js:69-128 | the reload never switches the toggle off, changes nothing when either `cat` fails, and never empties an input |
| RoundTrip.SetAutoConfig | module/webui/scripts/security_patch.js:55 | reading the rewritten settings file line by line gives the old lines with every `auto_config=` line replaced and the others unchanged |
| RoundTrip.UpdatedLinesReadBack | module/webui/scripts/security_patch.js:55 | the lines `sed` rewrote are read back as they were written |
| RoundTrip.ResaveWritesSameValue | module/webui/scripts/security_patch.js:196-247 | pressing save again straight after the reload that followed a manual save writes the same value again |
| Validators.Valid8DigitIsRegexTest | module/webui/scripts/security_patch.js:149-152 | `isValid8Digit` accepts a string exactly when `^\d{8}$` matches all of it: eight ASCII digits |
| Validators.Valid6DigitIsRegexTest | module/webui/scripts/security_patch.js:142-146 | `isValid6Digit` accepts exactly `prop` and the strings `^\d{6}$` matches |
| Validators.ValidDateFormatIsRegexTest | module/webui/scripts/security_patch.js:135-139 | `isValidDateFormat` accepts exactly `no` and the strings its `YYYY-MM-DD` regular expression matches in full; every accepted value other than `no` has ten characters |
| Validators.DateMatches | module/webui/scripts/security_patch.js:137 | the date expression matches exactly four digits, `-`, a month 01–12, `-`, a day 01–31 |
| Validators.MonthMatches | module/webui/scripts/security_patch.js:137 | the month alternative matches exactly the two-digit numbers 1 to 12 |
| Validators.DayMatches | module/webui/scripts/security_patch.js:137 | the day alternative matches exactly the two-digit numbers 1 to 31 |
| Validators.DateIgnoresMonthLength | module/webui/scripts/security_patch.js:137 | the day is not checked against the month: `2023-02-31` is accepted |
| Validators.DateRejectsOutOfRange | module/webui/scripts/security_patch.js:137 | month 13 and day 00 are rejected |
| Validators.ValidatedCharacters | module/webui/scripts/security_patch.js:135-152 | a value any validator accepts holds only digits, `-` and the letters of `no`/`prop`, hence no `=` and no line break |
| Validators.DigitsMatch | module/webui/scripts/security_patch.js:144 | `\d{n}` matches exactly the strings of n ASCII digits |
| Regex.MatchLength | module/webui/scripts/security_patch.js:137 | a fixed-width expression only matches strings of its width |
| Regex.CatSplit | module/webui/scripts/security_patch.js:137 | a concatenation whose left part has fixed width splits its match at that width |
| Regex.RepeatRange | module/webui/scripts/security_patch.js:144 | `[lo-hi]{n}` matches exactly n characters in the range |
| Text.TrimSpec | module/webui/scripts/security_patch.js:196 | `trim()` is empty exactly for a blank string, otherwise it neither starts nor ends with white space; it is the slice of the original that is left once a white-space prefix and a white-space suffix are removed |
| Text.TrimIdempotent | module/webui/scripts/security_patch.js:216-218 | trimming twice is trimming once, so an input that holds a trimmed value is saved as it is |
| Text.SplitSpec | module/webui/scripts/security_patch.js:73 | `split` yields pieces free of the separator that join back to the text, and at least two exactly when the separator occurs |
| Text.SplitJoin | module/webui/scripts/security_patch.js:247 | splitting a `join` of separator-free pieces gives the pieces back |
| ConfigReader.LastPieceIsTail | module/webui/scripts/security_patch.js:91 | the final piece of a split is a suffix of the text |
| SavePatch.NormalModeDecision | module/webui/scripts/security_patch.js:194-207 | normal mode: a blank `all` input disables, a trimmed input that is not eight digits is rejected with `invalid_all`, otherwise `all=<trimmed>` is written; the advanced inputs play no part |
| SavePatch.AdvancedModeDecision | module/webui/scripts/security_patch.js:215-247 | advanced mode: three blank inputs disable; otherwise system, then boot, then vendor is checked, the first failing non-empty one rejected with its own key; a value is written exactly when one input is non-empty and every non-empty one passes; the `all` input plays no part |
| SavePatch.ManualValueLines | module/webui/scripts/security_patch.js:207-247 | the written value is the line `all=<value>` in normal mode, and one `key=value` line per non-empty input, in the order system, boot, vendor, in advanced mode |
| SavePatch.AdvancedValueLines | module/webui/scripts/security_patch.js:242-247 | `filter(Boolean).join('\n')` of the three entries reads back as exactly the non-empty entries |
| SavePatch.DropEmpty | module/webui/scripts/security_patch.js:246 | `filter(Boolean)` keeps exactly the non-empty strings, none empty, never more than it was given |
| SavePatch.DropEmptyOfThree | module/webui/scripts/security_patch.js:242-246 | filtering the three entries keeps them in order, dropping the empty ones |
| SavePatch.ManualValueIsShellSafe | module/webui/scripts/security_patch.js:56 | a written value holds only digits, `-`, `=`, line feeds and the letters of the keys and sentinels, so no `"`, `$`, backquote or backslash can break out of `echo "${value}"` |
| SavePatch.AfterSave | module/webui/scripts/security_patch.js:208-251 | the toggle never changes; an input changes only after a successful manual write, and only to empty; after such a write every input of the other mode is emptied (system, boot and vendor after a normal-mode write, `all` after an advanced-mode write) and the inputs of the mode in use keep their text |
| SavePatch.PromptFor | module/webui/scripts/security_patch.js:39-66 | the message succeeds exactly when no input was rejected and the command succeeded; a rejection shows the field's `invalid_` key, a failed command `save_failed`, a disable `value_empty`, a manual write `save_success` |
| ConfigReader.ValueOfSpec | module/webui/scripts/security_patch.js:77 | `line.split('=')[1]` is the text between the first `=` and the next `=` or the end of the line |
| ConfigReader.ValueOfEntry | module/webui/scripts/security_patch.js:93-94 | a line written as `key=value` starts with `key=` and reads back as `value` |
| ConfigReader.AutoConfigOf | module/webui/scripts/security_patch.js:74-79 | the flag is `1` when no line starts with `auto_config=`, otherwise the value of the last such line |
| ConfigReader.LastSetSpec | module/webui/scripts/security_patch.js:92-117 | an input is left alone exactly when no line gives its key a non-empty value |
| ConfigReader.LastSetAppend | module/webui/scripts/security_patch.js:92-117 | the lines read later override the earlier ones |
| ConfigReader.AutoConfigOneKeepsInputs | module/webui/scripts/security_patch.js:81-86 | with `auto_config=1` the manual file is not read and the inputs and toggle stay as they are |
| ConfigReader.AdvancedOnlyFromFinalLine | module/webui/scripts/security_patch.js:122-127 | the toggle is switched on only when the flag is `0` and the manual file's final line gives `system`, `boot` or `vendor` a non-empty value |
| ConfigReader.TrailingLineBreakKeepsToggle | module/webui/scripts/security_patch.js:91-127 | a manual file ending in a line break never changes the toggle |
| Dialog.ReadAutoConfig | module/webui/scripts/security_patch.js:74-79 | the loop over the settings file's lines computes the flag `AutoConfigOf` defines |
| Dialog.PatchDialog.ReadManualLines | module/webui/scripts/security_patch.js:92-117 | the loop over the manual file's lines leaves each tracked value as the final line sets it, and each input holding the last non-empty value given to its key, or its old text; the toggle is unchanged |
| Dialog.PatchDialog.LoadCurrentConfig | module/webui/scripts/security_patch.js:69-128 | the dialog's new state is the specification `Reload` of its old state and what the two `cat` commands printed |
| Dialog.PatchDialog.Save | module/webui/scripts/security_patch.js:193-252 | the save handler takes the decision `DecideSave`, shows `PromptFor`, leaves the inputs as `AfterSave` says, and reloads exactly after a manual write |
| Dialog.PatchDialog.SaveClicked | module/webui/scripts/security_patch.js:193-255 | the whole click handler: after a manual write the state is the reload of the saved state, otherwise nothing changes |
| Dialog.PatchDialog.AutoConfigure | module/webui/scripts/security_patch.js:172-187 | auto-configuration succeeds exactly when the script printed something other than `not set` and the `sed` command succeeded; only then are the four inputs emptied |
| Dialog.PatchDialog.AutoConfigClicked | module/webui/scripts/security_patch.js:172-190 | the auto-config click handler always ends with a reload |
| RoundTrip.SetAutoConfigReadsBack | module/webui/scripts/security_patch.js:55 | after `sed` rewrites the `auto_config=` lines to a value, the dialog reads that value as the flag |
| RoundTrip.NoAutoConfigLineReadsAsAuto | module/webui/scripts/security_patch.js:55 | without an `auto_config=` line, `sed` changes nothing and the flag reads as `1`, so a manual value is never loaded back |
| RoundTrip.SplitWithTrailingSeparator | module/webui/scripts/security_patch.js:91 | a line break at the end of the text adds one empty final line |
| RoundTrip.TrackEntry | module/webui/scripts/security_patch.js:93-116 | a `key=value` line gives a value to its own key only |
| RoundTrip.LastSetOfManualLines | module/webui/scripts/security_patch.js:92-117 | reading the advanced-mode lines back gives each device field its own value and `all` none |
| RoundTrip.ReadBackLastSet | module/webui/scripts/security_patch.js:92-117 | reading any manual value back gives each input exactly the trimmed value saved for it, with or without a trailing line break |
| RoundTrip.SaveReloadRoundTrip | module/webui/scripts/security_patch.js:207-254 | after a successful manual save and the reload, every saved value is back in its input, the other mode's inputs are empty, blank inputs of the saved mode keep their text, and the toggle is unchanged |
| RoundTrip.ReopenedDialogMode | module/webui/scripts/security_patch.js:122-127 | a dialog reopened with the toggle off comes up in advanced mode after a manual save exactly when the value was saved in advanced mode and read back without a trailing line break |

## Left out

- The DOM, CSS classes, opacity, the `setTimeout` animations and hiding the dialog are not modelled; the toggle's change handler only swaps which inputs are visible.
- The shell commands themselves (`cat`, `sed`, `echo`, `rm`, `chmod`, `get_extra.sh`) are not modelled. Their output is an `Option<string>` parameter, and their success is a boolean. `execCommand` and `showPrompt` come from `main.js`, which is not part of this model.
- `execCommand` is taken to throw exactly when the command fails, and a throw in `loadCurrentConfig` is modelled as stopping it with the inputs as they were; the console error is left out.
- The line break `echo` appends is a parameter of the round-trip lemmas, because whether `execCommand` strips it is decided in `main.js`.
- The save handler's model covers only a reload that reads the two files. No lemma links those parameters to the files `sed` and `echo` produced; `RoundTrip` states that link over values.
- The disable path removes the manual file, and the dialog does not reload after it. So the files it leaves are not modelled beyond the message and the unchanged inputs.
- `async`/`await` and overlapping clicks are not modelled: each handler runs to completion.
- Strings are sequences of Unicode scalar values, not UTF-16 code units. The validators accept only ASCII, so this only matters for `trim`, which is modelled with ECMAScript's white-space and line-terminator set.
- `line.split('=')[1]` is `undefined` in JavaScript when the line has no `=`. That cannot happen here, because it is only taken on lines starting with `key=`.
- The keyboard and event wiring in `securityPatch` is left out, apart from the two buttons' handlers.
