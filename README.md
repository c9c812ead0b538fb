# pythonja error pipeline, in Dafny

pythonja is a browser page where students write Python, run it with
Pyodide and read Japanese explanations of the errors they get. This
project models the page's error pipeline in `script.js`:

- `analyze` parses a Pyodide traceback. It collapses the preamble before
  the first frame of the live buffer `<exec>`. It then finds the last
  `File "…", line N[, in scope]` frame that is followed by a final
  `Type: message` line.
- `getMessage` is an ordered, first-match-wins cascade of 48 rules. It
  turns the exception message into a Japanese sentence, and returns the
  message unchanged when no rule accepts it.
- The label helpers `getType`, `getErrorType` and `getFileName`, with their
  two static tables.
- `escapeHTML`.
- `getScript`, which reads the offending line from the editor buffer. The
  buffer is a parameter.
- `outputError`. It appends HTML fragments to the output pane and replaces
  the lint annotations with one error annotation on the offending line.
- The editor's change handler. It marks every maximal run of full-width
  symbols as a warning.
- The URL-safe character substitution of `base64encode`/`base64decode`.

Modules, in dependency order:

| file | module | what it holds |
|---|---|---|
| text.dfy | `Text` | JavaScript string operations the source uses: `\s` whitespace, `trim`/`trimEnd`, `indexOf`, `split("\n")`, the first-occurrence `replace`, and decimal digits for `parseInt` |
| html.dfy | `Html` | `escapeHTML` and the "inert text" property of its output |
| urlsafe.dfy | `UrlSafe` | the three-character substitution of the base64 helpers |
| labels.dfy | `Labels` | `python_types`, `error_types`, `getType`, `getErrorType`, `getFileName` |
| patterns.dfy | `Patterns` | the anchored regular expressions of `getMessage` as piece sequences, a possessive matcher, and the backtracking semantics it agrees with |
| messages.dfy | `Messages` | the cascade as a list of rule identifiers, each with a test and a sentence, plus the snippet heuristics |
| traceback.dfy | `Traceback` | `analyze`, with both regular expressions modelled by the choices their search makes |
| lint.dfy | `Lint` | `matchAll` of the lint class, and the annotations of a whole buffer |
| report.dfy | `Report` | `getScript`, and the value `outputError` produces: its fragments and its annotation |
| page.dfy | `Page` | the page state (`lint_data` and the output pane) as a class whose methods are the change handler and `outputError` |

The regular expressions are modelled as sequences of pieces. Each piece is
a literal, an optional literal, one character of a class, or a greedy run.
Every run in the table is either last or followed by a literal whose first
character lies outside the run's class. On such patterns, possessive
matching gives the same groups as the backtracking engine
(`Patterns.PossessiveIsBacktracking`).

## Model

| member | source | states |
|---|---|---|
| Html.EscapeIsCharwise | script.js:106-108 | the three chained `replaceAll` passes equal escaping each character on its own |
| Html.EscapeHtmlInert | script.js:106-108 | the escaped text holds no `<` or `>`, and every `&` in it begins `&amp;`, `&lt;` or `&gt;` |
| Html.EscapeHtmlIdentity | script.js:106-108 | text without `&`, `<` and `>` is returned unchanged |
| Html.EscapeHtmlIdempotent | script.js:106-108 | on such text, escaping twice equals escaping once |
| Html.InertTrimEnd | script.js:197 | `trimEnd` of escaped text is still inert: no entity is cut in half |
| UrlSafe.ToUrlSafePointwise | script.js:52 | the encoding substitution keeps the length and maps each character by `+`→`_`, `/`→`-`, `=`→`.` |
| UrlSafe.FromUrlSafePointwise | script.js:56 | the decoding substitution maps each character back by `_`→`+`, `-`→`/`, `.`→`=` |
| UrlSafe.EncodeRoundTrip | script.js:52-56 | base64 text is encoded into the URL-safe alphabet, and decoding gives it back |
| UrlSafe.DecodeRoundTrip | script.js:52-56 | URL-safe text is decoded into the base64 alphabet, and encoding gives it back |
| Labels.TypeLabelShape | script.js:391-397 | a `python_types` key gives its Japanese name followed by `(t型)`, whatever the suffix; any other name gives `t型` followed by the suffix |
| Labels.TypeLabelExamples | script.js:383-397 | `getType("str")` is `文字列(str型)`, and an unknown type with suffix `のデータ` gives `Frobnicator型のデータ` |
| Labels.ErrorTypeLabelInjective | script.js:231-237 | two exception types with the same `getErrorType` label are the same type |
| Labels.ErrorTypeLabelExamples | script.js:218-237 | `NameError` gets its table label, `KeyError` (not in the table) gets `【エラー(KeyError)】` |
| Labels.FileLabelCases | script.js:239-247 | the label is `プログラム` exactly for `<exec>`; any other name ends with the name and a space, with no prefix exactly when the name starts with `<` |
| Patterns.PossessiveIsBacktracking | script.js:263-377 | on a well-formed pattern the possessive matcher returns what the backtracking regex engine returns, groups included |
| Patterns.TakesAll | script.js:263-377 | a text assembled from parts that the pieces take one for one matches, and the groups are the parts of the capturing pieces |
| Patterns.RefutesSound | script.js:263-377 | a message that starts with a prefix the pattern refutes does not match |
| Messages.Translate | script.js:255-381 | `getMessage` returns the message itself when no rule accepts it, and otherwise the sentence of the first rule that accepts |
| Messages.ApplyIsFirstMatch | script.js:255-381 | running any list of rules in order yields the first accepting rule's sentence, or the message when none accepts |
| Messages.RulePositions | script.js:255-381 | the cascade has 48 rules, each at its own position in source order |
| Messages.InvalidSyntaxSentence | script.js:258-262 | `invalid syntax` gets the forgotten-`in` hint exactly when the snippet is a `for` header without `in`, and the generic sentence otherwise |
| Messages.ForWithoutInExample | script.js:259 | `for x range(10):` counts as a `for` header without `in` |
| Messages.ForWithInExample | script.js:259 | `for x in range(10):` does not |
| Messages.ExpectedColonSentence | script.js:269-273 | `expected ':'` gets the use-`elif` hint exactly when the snippet is an `else` followed by a comparison and a colon, and the missing-colon sentence otherwise |
| Messages.ElseWithConditionExample | script.js:270 | `else x == 1:` counts as an `else` followed by a condition |
| Messages.FullWidthCharSentence | script.js:296-297 | `invalid character 'c' (…)` with a full-width symbol c gets the sentence naming c and asking for English input mode |
| Messages.FullWidthSymbolsPrintable | script.js:296-299 | every full-width symbol is also accepted by the general rule, so only rule order picks the full-width sentence |
| Messages.InvalidCharSentence | script.js:298-299 | any other character of the Basic Multilingual Plane except a line break gets the general sentence naming it |
| Messages.AstralCharPassesThrough | script.js:296-299 | a character outside the Basic Multilingual Plane is a surrogate pair to the regex without the `u` flag, so neither invalid-character rule accepts the message; when the exception is not a KeyError (whose rule at script.js:366 accepts any message) no rule does, and the message is returned unchanged |
| Messages.NameSuggestionSentence | script.js:325-326 | `name 'X' is not defined. Did you mean: 'Y'?` is decided by the suggestion rule, and its sentence names both X and Y |
| Messages.NameNotDefinedSentence | script.js:327-328 | `name 'X' is not defined` with nothing after it is decided by the plain rule, and its sentence names X |
| Messages.MissingArgumentsSentence | script.js:337-340 | `f() missing N required positional arguments: L`, for any name f without a space, quote or `(`, gives the sentence holding `f()`, N and L with its separators rewritten |
| Messages.MissingArgumentsOfSum | script.js:337-340 | `sum() missing …`, whose name starts with the `s` of the `string index out of range` rule (script.js:322), still gets the missing-arguments sentence |
| Messages.QuietBeforeCall | script.js:255-336 | no rule before the missing-arguments rule accepts a message that starts with such a name and `(` |
| Messages.JoinArgsTwo | script.js:338 | the argument list `'a' and 'b'` becomes `'a', 'b'` |
| Messages.CalledBuiltin | script.js:349 | the snippet search finds `input` or `print` exactly when the snippet contains `input(` or `print(`, and the name found is the one whose call comes first |
| Messages.NotCallableSentence | script.js:347-352 | `'X' object is not callable` gives the shadowed-builtin sentence when the snippet calls `input` or `print`, and otherwise `getType(X, '')` followed by the not-callable sentence |
| Messages.InvalidIntLiteralSentence | script.js:354-357 | `invalid literal for int() with base B: 'S'` gives the not-an-integer sentence for base `10` and the base-B sentence otherwise, and both quote `'S'` |
| Messages.KeyErrorSentence | script.js:366-367 | a KeyError whose message is a quoted key is echoed with the fixed suffix |
| Messages.UnknownPassesThrough | script.js:380 | a message that starts unlike every rule, holds no `(` and is not a KeyError is returned unchanged |
| Messages.RecursionErrorPassesThrough | script.js:380 | `maximum recursion depth exceeded` has no rule and is returned unchanged |
| Traceback.FirstExecFrame | script.js:202 | the lazy `.*?` stops at the first position from which `\s+File "<exec>", line \d` matches, or there is no such position |
| Traceback.CollapseSpan | script.js:202 | the deleted span starts right after the first header and ends at the first `<exec>` frame after it, with no frame in between |
| Traceback.CollapsePreamble | script.js:202 | without a span the text is unchanged; otherwise the span is removed and the frame follows the header directly |
| Traceback.CollapseIdempotent | script.js:202 | collapsing twice equals collapsing once |
| Traceback.ExceptionAt | script.js:204 | a recognised exception line has a nonempty type with no colon and no whitespace, and a message that holds no line break, does not start with whitespace and ends the text; between the colon and the message there is only whitespace |
| Traceback.FrameAt | script.js:204 | a recognised frame line starts `  File "name", line ` followed by a nonempty run of digits |
| Traceback.LocationAt | script.js:204-212 | a match at a position yields well-formed captures, a line number that is the decimal value of the frame's digits, and an exception line after the frame: the type, a colon, whitespace and the message ending the text |
| Traceback.LastLocation | script.js:204 | the greedy `[\s\S]*` settles on the last position from which the rest matches, or there is none |
| Traceback.Analyze | script.js:201-216 | the original error is the collapsed, `trimEnd`ed text; the location is absent exactly when no position matches, and otherwise comes from the last matching position |
| Traceback.AnalyzeSound | script.js:204-212 | a found location is well formed, the original error holds its frame line with the digits of its line number, and it ends with the exception line: type, colon, whitespace and message |
| Traceback.LocationOfTail | script.js:204-212 | a printed frame line, a snippet that ends its last line without a colon, and an exception line are read back field for field, whatever precedes them |
| Lint.MatchesAreMaximalRuns | script.js:33 | every match of the lint class is a maximal run of lint characters, and its text is the line's text there |
| Lint.MaximalRunsAreMatched | script.js:33 | every maximal run of lint characters is among the matches |
| Lint.MatchesOrdered | script.js:33-34 | the matches come from left to right, each ending before the next begins |
| Lint.Warn | script.js:35-40 | a warning lies on one line, carries the fixed message, and spans as many columns as the match has characters |
| Lint.LintWarningsSound | script.js:29-43 | every warning of a buffer lies on an existing line and marks a maximal run of lint characters there |
| Lint.LintWarningsComplete | script.js:29-43 | every maximal run on every line gets its warning |
| Lint.LineWarningsOrdered | script.js:32-41 | the warnings of one line are in increasing column order and do not overlap |
| Report.GetScript | script.js:249-253 | a printed snippet is kept; a file other than `<exec>` gives the empty script; otherwise line `lineno` of the buffer, trimmed and indented by four spaces; and there is no result exactly when the line number is outside the buffer |
| Report.GetScriptOfBuffer | script.js:249-253 | for a buffer made of given lines, the script is line `lineno` trimmed, or absent when there is no such line |
| Report.ErrorAnnotation | script.js:187-192 | the annotation is an error on line `lineno - 1`, columns 0 to 999, carrying the translated message |
| Report.ReportOf | script.js:180-199 | the escaped original error comes first; without a location it is the only fragment and there is no annotation; there is an annotation exactly when the error is located and its script can be read, and then the outcome is the located report whose annotation carries `getMessage`'s sentence on the error's line |
| Report.Located | script.js:185-198 | a located error gives six fragments, the last holding the escaped translated message, and the annotation on its line |
| Report.ReportInert | script.js:182-198 | every fragment body is inert text, so nothing Python printed can add markup to the pane |
| Report.UnlocatedReport | script.js:181-184 | an error with no matching frame gives exactly the original-error fragment and no annotation |
| Report.LocationNamesLine | script.js:196 | the location sentence prints the line number with the digits Python printed |
| Page.PaneTextAppend | script.js:111 | appending an entry adds its text and a line break to the pane |
| Page.Page.constructor | script.js:3 | the page starts with no annotations and an empty pane |
| Page.Page.AddToOutput | script.js:110-113 | the pane gains one entry; the annotations are unchanged |
| Page.Page.OnChange | script.js:29-43 | `lint_data` becomes the warnings of every line of the buffer, in order; the pane is unchanged |
| Page.Page.OutputError | script.js:180-199 | the pane gains the rendered fragments of the report; `lint_data` becomes the report's annotation when there is one and is otherwise left as it was |
| Page.Page.Explain | script.js:187-198 | `lint_data` becomes the one error annotation, and the pane gains the five explanation spans in order |
| Text.SplitJoinLines | script.js:31 | splitting the text of lines joined with line breaks gives the lines back |
| Text.JoinSplitLines | script.js:31 | joining the pieces of `split("\n")` gives the text back |
| Text.DecimalValueRoundTrip | script.js:207 | `parseInt` of a digit string without leading zeros prints back as the same digits |

## Left out

- The DOM: scrolling, `performLint`, and re-reading `innerHTML` after `+=`. The output pane is a list of entries, and `PaneText` gives its text.
- CodeMirror setup and key bindings, the Pyodide loading and execution (`main`, `run`, `evaluatePython`), the run button, `stdin`/`stdout`/`stderr` forwarding, clipboard, `localStorage`, `confirm`/`prompt` and the download link. These are interpreter and UI wiring.
- `btoa`, `atob`, `TextEncoder` and `TextDecoder` in `base64encode`/`base64decode`. Only the character substitution around them is modelled.
- turtle.js is not part of this model.
- Object-literal lookups in `error_types[type]` and `python_types[type]` also find inherited `Object.prototype` members (for example `constructor`). The tables are modelled with their own keys only.
- Columns are counted in characters, not in UTF-16 code units. The regexes have no `u` flag, so a character outside the Basic Multilingual Plane is two UTF-16 units to them. That changes a result only where a `.` stands for exactly one character: the captured `(.)` of the invalid-character rule (script.js:298), where such a character leaves the message unchanged (Messages.AstralCharPassesThrough), and the `.` after a quote at script.js:288, 325 and 361. These pieces take only characters of the Basic Multilingual Plane in the model. Runs of `.` and the other classes take a surrogate pair as two characters of the same class, which gives the same matches.
- `parseInt` is exact on the digit runs the pattern captures. Number precision for very long digit strings is not modelled.
- Report.GetScript: indexing past the last line of the buffer throws in the page. Here that is `None`, and `outputError` stops after the first span, which is where the exception leaves it.
- Messages.KeyErrorSentence: it covers messages that are a quoted key with no `(`. For other KeyError messages, the earlier rules that look for a call or a quote are not refuted in general.
- Messages.NotCallableSentence: it requires the type name to hold no `(`, which rules out the earlier call-shaped rules.
- Details of `script.js` that the model follows as written:
  - the frame line must start with two spaces (`  File "`);
  - `getType` appends `型` in both branches, with no space before the parenthesis;
  - an unlocated error leaves `lint_data` as it was;
  - a located error appends five spans after the original error.
