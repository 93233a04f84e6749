# JSquarto comment linker, modelled in Dafny

JSquarto generates documentation from the doc comments of JavaScript
sources. After it has parsed a doc comment, it has to decide what the
comment documents. `File.getLinkedCodeConstructInfo` in `src/utils/file.ts`
makes that decision in four steps:

1. It splits the file on `'\n'`.
2. It trims the (at most five) lines that follow the comment's last line.
3. It joins those lines without a separator.
4. It asks two functions about the joined text. `getConstructType` is a
   first-match-wins classifier over `function`, `module`, `variable`,
   `class` and `other`. `getConstructName` runs the name extractor of
   `ConstructIdentifier` that belongs to the chosen kind.

A comment without line numbers gets the sentinel `{type: null, name: null}`.
A comment that ends on the file's last line gets `{type: 'other', name: 'other'}`.

The project is written as pure functions:

- `wrappers.dfy`: the `Option` type.
- `text.dfy`: JavaScript's `split`, `join` and `trim`, and the ASCII
  character classes.
- `scan.dfy`: regular-expression building blocks, written as matchers
  over a string. They cover literals, `\s*`, `\w+`, `\b`, lazy and greedy
  runs, the leftmost search of `String.prototype.match`, and the
  existence test of `RegExp.prototype.test`.
- `construct_identifier.dfy`: the four name extractors.
- `construct_classifier.dfy`: `getConstructType` and `getConstructName`.
- `file.dfy`: `getLinkedCodeConstructInfo`.
- `scenarios.dfy`: the linker's type and name, and the extractors, on
  lines that start with a declaration or an export assignment, and on four
  example lines.

Each alternative of each regular expression in the source is its own
matcher. An alternation takes the first alternative that matches at a
position. A search takes the leftmost position where the whole pattern
matches. In almost every pattern used here, a greedy `\w+` or `\s*` is
followed by a token of a disjoint character class, so no backtracking into
these runs is needed. The exception is `function\s*[\s\S]*?\(`, alternative 7
of file.ts:14 and of file.ts:108, where `\s*` is followed by a lazy run of any
character. It does no harm: white space is not `(`, so however the two runs
share the spaces, the lazy run stops at the same first `(` after `function`.
A lazy `[\s\S]*?\)` stops at the first `)` that lets the rest
match. A greedy `.*\)` takes the last `)` before the next line terminator
that lets the rest match.

Because the model is made of pure functions, it is deterministic: the same
comment and content always give the same result. The source has the same
property, because every method builds its regular expressions anew on each
call, including the `/g` one at file.ts:114.

Three details of the code that a reader might not expect. The model
follows the code in each.

- **The comment's own last line is not read.** The code computes the
  trimmed last line of the comment (file.ts:73) but never uses it. The
  window starts on the line after the comment.
- **The end-of-file test is `<`.** The code builds a window only when
  `lastLineIndex < lines.length - 1` (file.ts:72). So an end line past the
  end of the file gives `{'other', 'other'}`, just as one on the file's
  last line does.
- **Nothing recognised gives `null`.** When the window is classified
  `other`, `getConstructName` returns `null` (file.ts:101-102). The model
  uses `None`.

A property the proofs brought out: a window classified `module` never
gets a name. `getExportsConstructName` recognises only export assignments
of functions, and every text containing such an assignment already passes
the `function` test, which is tried first. The `module` branch of
`getConstructName` therefore always returns `null`
(`ConstructClassifier.ModuleWindowsHaveNoName`).

## Model

| member | source | states |
|---|---|---|
| Text.Split | src/utils/file.ts:69 | `split('\n')` returns at least one piece. No piece contains a line feed. Joining the pieces with line feeds gives back the file content. |
| Text.SplitJoinRoundTrip | src/utils/file.ts:69 | Splitting the join of pieces that contain no separator gives back exactly those pieces. This is the other half of the round trip. |
| Text.Trim | src/utils/file.ts:74 | `trim()` returns an infix of its input that neither starts nor ends with white space. Only white space precedes it and only white space follows it. |
| Text.TrimUnique | src/utils/file.ts:74 | Any infix with those properties is the result of `trim()`, so the description determines it. |
| Text.TrimIdempotent | src/utils/file.ts:74 | Trimming an already trimmed line changes nothing. |
| Scan.FirstMatch | src/utils/file.ts:8 | `match` finds the leftmost position where the pattern matches, with what it captures there. No earlier position matches. It finds nothing only when no position matches. |
| Scan.FirstMatchFindsOccurrence | src/utils/file.ts:108-109 | The leftmost search succeeds exactly when `test` does, i.e. when the pattern matches somewhere. |
| ConstructIdentifier.ExportsFunctionAt | src/utils/file.ts:6 | The first export alternative captures an identifier. It also guarantees that an assignment follows `exports.` and that the word `function` after it stands alone. |
| ConstructIdentifier.ModuleExportAt | src/utils/file.ts:6 | Any of the three export alternatives captures an identifier. The assignment after `exports.` assigns a function expression, an arrow function or an async arrow function. |
| ConstructIdentifier.ExportsConstructName | src/utils/file.ts:5-11 | Null exactly when no export alternative matches anywhere. Otherwise it returns the identifier captured at the leftmost match, and that text assigns a function after an `exports.`. |
| ConstructIdentifier.FunctionConstructName | src/utils/file.ts:13-33 | Null unless the function pattern matches. If it matches, an export assignment wins with its exported identifier. Otherwise the leftmost `( … ) =>` wins with its parameter text, even when a declaration name was matched, and null replaces empty text. Only without an arrow does the function pattern's own first defined group decide. |
| ConstructIdentifier.VariableConstructName | src/utils/file.ts:35-41 | Null exactly when `\b(const\|let\|var)\s+(\w+)` does not occur. Otherwise it returns the identifier after the keyword at the leftmost match. |
| ConstructIdentifier.ClassConstructName | src/utils/file.ts:43-49 | Null exactly when `\bclass\s+(\w+)` does not occur. Otherwise it returns the identifier after `class` at the leftmost match. |
| ConstructClassifier.ConstructType | src/utils/file.ts:106-137 | The returned kind's test passes, and the test of every kind ranked before it fails. The order is function, module, variable, class, other. |
| ConstructClassifier.ConstructTypeIsFirstMatch | src/utils/file.ts:106-137 | A kind is the classification if and only if its test passes and every earlier test fails. Exactly one kind is returned. |
| ConstructClassifier.VariableOutranksClass | src/utils/file.ts:120-134 | A window holding a variable declaration and a class declaration, and no function or module pattern, is classified `variable`. |
| ConstructClassifier.KeywordsAgree | src/utils/file.ts:121 | At a word boundary, `(const\b\|\blet\b\|\bvar\b)` agrees with `(const\|let\|var)` whenever the keyword is followed by white space. The bounded form never finds a keyword the other does not. |
| ConstructClassifier.VariablePatternsAgree | src/utils/file.ts:121 | At every position, the variable test of getConstructType captures the same identifier as the pattern of getVariableConstructName (file.ts:36). |
| ConstructClassifier.DeclaresVariableHasName | src/utils/file.ts:121-125 | A text passes the variable test exactly when getVariableConstructName's pattern occurs in it. |
| ConstructClassifier.ConstructName | src/utils/file.ts:89-104 | The name comes only from the extractor of the kind getConstructType chooses for the same text. A variable or a class always gets a non-empty identifier. `other` gets null, and so does `module`. |
| ConstructClassifier.FunctionWordIsFunctionText | src/utils/file.ts:108 | A stand-alone word `function` anywhere in the text passes the function test. |
| ConstructClassifier.AssignedArrowIsFunctionText | src/utils/file.ts:108 | A text that assigns an arrow function to an identifier passes the function test. |
| ConstructClassifier.AssignedAsyncArrowIsFunctionText | src/utils/file.ts:108 | An async arrow function assigned to an identifier passes the function test. |
| ConstructClassifier.AssignsFunctionIsFunctionText | src/utils/file.ts:108 | Every assignment that the export pattern can recognise passes the function test. |
| ConstructClassifier.ModuleWindowsHaveNoName | src/utils/file.ts:99-100 | A text classified `module` gets no name from getExportsConstructName. |
| File.Slice | src/utils/file.ts:74 | `slice(a, b)` with both bounds clipped to the length keeps the elements from `a` on, in order. |
| File.TrimAll | src/utils/file.ts:74 | `map(line => line.trim())` keeps the length, and each element is the trimmed original. |
| File.NextLines | src/utils/file.ts:74 | The window holds one to five lines. It holds five, or every line up to the end of the file when fewer than five remain. Each is the trimmed line at the same offset after the comment's last line. |
| File.FollowingWindow | src/utils/file.ts:70-74 | There is no window exactly when the end line is at or past the file's last line. Otherwise the window holds five lines, or every line that remains when fewer do. Each is the trimmed line at the same offset from the end line on, which is the `slice(lastLineIndex + 1, lastLineIndex + 6)` of file.ts:74. |
| File.LinkedCodeConstructInfo | src/utils/file.ts:61-87 | The sentinels. `{null, null}` comes exactly when a location or a line number is missing. `{'other', 'other'}` comes exactly when the end line is at or past the file's last line. Otherwise the result holds the trimmed lines starting just after the comment, five of them or all that remain, classified and named from their join. |
| File.LinkFromEndLine | src/utils/file.ts:69-82 | The same after the location checks, with the window's exact length. The result is never the null sentinel. |
| File.LinkReadsOnlyEndLine | src/utils/file.ts:62-72 | Two comments that both have line numbers, or both lack them, and that share the end line give the same result. Their columns and their start lines may differ. |
| File.LinkReadsOnlyFollowingLines | src/utils/file.ts:69-79 | Two files with the same number of lines that agree from the comment's end line on give the same result. This holds even when the comment's own lines differ, so its last line is not used. |
| File.FollowingWindowAgrees | src/utils/file.ts:72-74 | The same for the window of a file already split into lines. |
| File.WindowsAgree | src/utils/file.ts:74 | Lines that agree after the comment's last line give the same window. |
| File.SentinelsAreDistinct | src/utils/file.ts:79-86 | The writer can tell the three outcomes apart. Type and name are both `'other'` exactly for a comment at the end of the file, never for a classified window. The type is null exactly for a comment without line numbers. |
| Scenarios.DeclaredClassIsNamed | src/utils/file.ts:43-49 | A line of the form `class Name…`, where `Name` is an identifier not followed by a word character, is named `Name`. |
| Scenarios.DeclaredVariableIsNamed | src/utils/file.ts:35-41 | A line of the form `const Name…`, `let Name…` or `var Name…` is named `Name`. |
| Scenarios.NoAssignmentNoArrow | src/utils/file.ts:21-28 | A line without `=` matches neither the export pattern nor the arrow pattern of getFunctionConstructName. |
| Scenarios.DeclaredFunctionIsNamed | src/utils/file.ts:13-33 | A line of the form `function name…` with no `=` after the name is named `name`. |
| Scenarios.ArrowParamsMatch | src/utils/file.ts:27 | When there is no `)` between a `(` and a later `) =>`, the arrow pattern matches at that `(` and its parameter text is what lies between the two. |
| Scenarios.ExportArrowMatches | src/utils/file.ts:21 | `exports.name = (params) =>…` at the start of the line, with no `)` in `params`, is an export assignment of `name`, and the arrow pattern matches at its `(` as well. |
| Scenarios.ExportedArrowIsNamed | src/utils/file.ts:13-33 | A line of the form `exports.name = (params) =>…`, with no `)` in `params`, is named `name` and not by its parameter text. |
| Scenarios.NoParenNoFunctionText | src/utils/file.ts:108-112 | A text with neither `(` nor `f` fails every alternative of the function test. |
| Scenarios.NoAtNoModuleTag | src/utils/file.ts:114-115 | A text without `@` has no `@module` tag. |
| Scenarios.NoKeywordNoVariable | src/utils/file.ts:121-122 | A text without `o` or `v`, in which every `l` follows a word character, fails the variable test. |
| Scenarios.DeclaredFunctionIsLinked | src/utils/file.ts:89-112 | A line of the form `function name…`, with no `=` after the name, has type `function` and name `name`. |
| Scenarios.ExportedArrowIsLinked | src/utils/file.ts:89-112 | A line of the form `exports.name = (params) =>…`, with no `)` in `params`, has type `function` and name `name`. |
| Scenarios.DeclaredClassIsLinked | src/utils/file.ts:89-137 | A line of the form `class Name…`, with none of `(`, `f`, `@`, `o`, `v` and `l` after `class `, has type `class` and name `Name`. |
| Scenarios.DeclaredVariableIsLinked | src/utils/file.ts:89-127 | A line of the form `const Name…`, `let Name…` or `var Name…`, with none of `(`, `f` and `@` after the keyword, has type `variable` and name `Name`. |
| Scenarios.FunctionExample | src/utils/file.ts:89-112 | `function computeSum(a, b) {` has type `function` and name `computeSum`. |
| Scenarios.ExportExample | src/utils/file.ts:89-112 | `exports.parseConfig = (opts) => {` has type `function` and name `parseConfig`, not `opts`. |
| Scenarios.ClassExample | src/utils/file.ts:89-137 | `class Widget extends Base {` has type `class` and name `Widget`. |
| Scenarios.VariableExample | src/utils/file.ts:89-127 | `const MAX_RETRIES = 5;` has type `variable` and name `MAX_RETRIES`. |

## Left out

- Reading the file (file.ts:57) is left out. `fs.readFileSync` is I/O, so the file content is a parameter of `LinkedCodeConstructInfo`.
- `src/utils/writer.ts` is not part of this model. It creates directories, writes files and fills Markdown templates.
- The comment parser (`src/utils/comment`) is not part of this model. A comment is modelled as optional start and end locations, each with an optional integer line and column. A line that is `None` stands for one that is missing or not a number.
- Character classes are ASCII. `\s` and `trim()` use space and TAB through CR, `\w` is `[A-Za-z0-9_]`, and `.` excludes LF and CR. JavaScript also counts NBSP, the BOM and the other Unicode spaces as white space, and `.` also excludes U+2028 and U+2029.
- Non-integer line numbers are left out. `typeof NaN === 'number'`, so a NaN end line passes the number check. Every comparison with it then fails, and the source returns `{'other', 'other'}`. A fractional end line indexes `undefined` and throws. The model's line numbers are integers.
- The exception for end lines below 1 is modelled as a precondition, `EndLineIsReadable`. For such an end line `lines[endLine - 1]` is `undefined` and `.trim()` throws (file.ts:73). Line numbers are 1-based, so a parsed comment never has one.
- There is no general regular-expression engine. Each pattern of file.ts is written out as matchers, one per alternative. Their capture groups are numbered per alternative, as `match.slice(n).find(...)` sees them.
