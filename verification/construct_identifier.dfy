/** The name extractors of `ConstructIdentifier` (src/utils/file.ts:4-50).
    Each regular expression of the source is written as one matcher per
    alternative, tried at a position; an alternation takes the first
    alternative that matches there, and `String.prototype.match` takes the
    leftmost position where the whole pattern matches. */
module ConstructIdentifier {
  import opened Wrappers
  import opened Text
  import opened Scan

  /*** Pieces shared by several patterns ***/

  /** `\w+\s*=\s*`: the end of the identifier and the position after the
      assignment sign and the spaces that follow it. */
  function AssignedAt(s: string, p: nat): (r: Option<(nat, nat)>)
    ensures r.Some? ==> p < r.value.0 < r.value.1 <= |s|
    ensures r.Some? ==> IsIdentifier(s[p..r.value.0])
    ensures r.Some? ==> !IsWordChar(s[r.value.1 - 1])
  {
    var w :- Word1(s, p);
    var e :- Char(s, Spaces(s, w), '=');
    Some((w, Spaces(s, e)))
  }

  /** `\(([\s\S]*?)\)\s*=>`: an arrow function's parameter list, capturing
      the text up to the first `)` that is followed by `=>`. */
  function ArrowParamsAt(s: string, p: nat): (r: Option<string>)
  {
    var a :- Char(s, p, '(');
    var close :- FirstMatch(s, a, ArrowCloseAt);
    Some(s[a..close.0])
  }

  /** `async\s*\(([\s\S]*?)\)\s*=>` */
  function AsyncArrowParamsAt(s: string, p: nat): (r: Option<string>)
  {
    var a :- Lit(s, p, "async");
    ArrowParamsAt(s, Spaces(s, a))
  }

  /** `async\s*\(.*\)\s*=>`, the greedy form, which captures nothing. */
  function AsyncDotsArrowAt(s: string, p: nat): (r: Option<nat>)
  {
    var a :- Lit(s, p, "async");
    var b :- Char(s, Spaces(s, a), '(');
    var close :- GreedyDotsThen(s, b, ArrowCloseAt);
    Some(close.1)
  }

  /*** Export assignments (src/utils/file.ts:6 and :21) ***/

  /** The word `function` at `k`, not part of a longer identifier. */
  predicate StandaloneFunctionAt(s: string, k: nat) {
    && Lit(s, k, "function").Some?
    && (k == 0 || !IsWordChar(s[k - 1]))
    && (k + 8 == |s| || !IsWordChar(s[k + 8]))
  }

  /** What every export assignment guarantees about the assignment that
      starts at `b`, just after `exports.`: it assigns a function
      expression, an arrow function or an async arrow function. */
  predicate AssignsFunction(s: string, b: nat) {
    || (AssignedAt(s, b).Some? && StandaloneFunctionAt(s, AssignedAt(s, b).value.1))
    || AssignedArrowParamsAt(s, b).Some?
    || AssignedAsyncArrowParamsAt(s, b).Some?
  }

  /** A character reached after optional white space ends the identifier
      before it, unless it is itself a word character. */
  lemma SpacesThenNonWord(s: string, b: nat, c: char)
    requires b <= |s| && Char(s, Spaces(s, b), c).Some? && !IsWordChar(c)
    ensures b < |s| && !IsWordChar(s[b])
  {
  }

  /** `exports\.(\w+)\s*=\s*function\s*\(.*\)` */
  function ExportsFunctionAt(s: string, p: nat): (r: Option<string>)
    ensures r.Some? ==> IsIdentifier(r.value)
    // the word `function` follows the assignment and stands alone
    ensures r.Some? ==> AssignedAt(s, p + 8).Some? && StandaloneFunctionAt(s, AssignedAt(s, p + 8).value.1)
  {
    var a :- Lit(s, p, "exports.");
    var asg :- AssignedAt(s, a);
    var b :- Lit(s, asg.1, "function");
    var c :- Char(s, Spaces(s, b), '(');
    var close :- GreedyDotsThen(s, c, CloseAt);
    SpacesThenNonWord(s, b, '(');
    Some(s[a..asg.0])
  }

  /** `exports.(\w+)\s*=\s*\([\s\S]*?\)\s*=>`; the `.` is unescaped, so any
      character but a line terminator may follow `exports`. */
  function ExportsArrowAt(s: string, p: nat): (r: Option<string>)
    ensures r.Some? ==> IsIdentifier(r.value)
    // an assignment of an arrow function starts in the word after `exports`
    ensures r.Some? ==> AssignedArrowParamsAt(s, p + 8).Some?
  {
    var a :- Lit(s, p, "exports");
    var b :- AnyChar(s, a);
    var asg :- AssignedAt(s, b);
    var params :- ArrowParamsAt(s, asg.1);
    Some(s[b..asg.0])
  }

  /** `exports.(\w+)\s*=\s*async\s*\([\s\S]*?\)\s*=>` */
  function ExportsAsyncArrowAt(s: string, p: nat): (r: Option<string>)
    ensures r.Some? ==> IsIdentifier(r.value)
    // an assignment of an async arrow function starts in the word after `exports`
    ensures r.Some? ==> AssignedAsyncArrowParamsAt(s, p + 8).Some?
  {
    var a :- Lit(s, p, "exports");
    var b :- AnyChar(s, a);
    var asg :- AssignedAt(s, b);
    var params :- AsyncArrowParamsAt(s, asg.1);
    Some(s[b..asg.0])
  }

  /** The pattern of `getExportsConstructName` (file.ts:6): the same three
      alternatives, the first one anchored at the start of the text. Each
      alternative has one group, so the first defined group is its name. */
  function ModuleExportAt(s: string, p: nat): (r: Option<string>)
    ensures r.Some? ==> IsIdentifier(r.value) && AssignsFunction(s, p + 8)
  {
    (if p == 0 then ExportsFunctionAt(s, p) else None)
      .OrElse(ExportsArrowAt(s, p))
      .OrElse(ExportsAsyncArrowAt(s, p))
  }

  /** The export pattern inside `getFunctionConstructName` (file.ts:21):
      the same alternatives with no anchor. */
  function ExportAssignmentAt(s: string, p: nat): (r: Option<string>)
    ensures r.Some? ==> IsIdentifier(r.value)
  {
    ExportsFunctionAt(s, p)
      .OrElse(ExportsArrowAt(s, p))
      .OrElse(ExportsAsyncArrowAt(s, p))
  }

  /** `getExportsConstructName` (file.ts:5-11): the identifier assigned by
      the leftmost export assignment, or nothing when there is none. */
  function ExportsConstructName(line: string): (r: Option<string>)
    ensures r.None? <==> !Occurs(line, ModuleExportAt)
    ensures r.Some? ==> IsIdentifier(r.value) && exists p :: LeftmostAt(line, ModuleExportAt, p, r.value)
    ensures r.Some? ==> exists b :: AssignsFunction(line, b)
  {
    FirstMatchFindsOccurrence(line, ModuleExportAt);
    match FirstMatch(line, 0, ModuleExportAt)
    case Some((p, name)) =>
      assert LeftmostAt(line, ModuleExportAt, p, name);
      NonEmpty(name)
    case None => None
  }

  /*** Function declarations (src/utils/file.ts:14) ***/

  /** `function\s+(\w+)` */
  function FunctionKeywordNameAt(s: string, p: nat): (r: Option<string>)
    ensures r.Some? ==> IsIdentifier(r.value)
  {
    var a :- Lit(s, p, "function");
    var b :- Spaces1(s, a);
    var c :- Word1(s, b);
    Some(s[b..c])
  }

  /** Alternative 1, `(async\s+)?function\s+(\w+)`: group 2, the name. The
      optional group is greedy: the form with `async` is tried first. */
  function DeclaredFunctionAt(s: string, p: nat): (r: Option<string>)
    ensures r.Some? ==> IsIdentifier(r.value)
  {
    var withAsync := (
      var a :- Lit(s, p, "async");
      var b :- Spaces1(s, a);
      FunctionKeywordNameAt(s, b));
    withAsync.OrElse(FunctionKeywordNameAt(s, p))
  }

  /** Alternative 2, `const\s+(\w+)\s*=\s*async\s*\(.*\)\s*=>`: group 3. */
  function ConstAsyncArrowAt(s: string, p: nat): (r: Option<string>)
    ensures r.Some? ==> IsIdentifier(r.value)
  {
    var a :- Lit(s, p, "const");
    var b :- Spaces1(s, a);
    var asg :- AssignedAt(s, b);
    var tail :- AsyncDotsArrowAt(s, asg.1);
    Some(s[b..asg.0])
  }

  /** Alternative 4, `(\w+)\s*=\s*function\s*\(([\s\S]*?)\)`: group 5. */
  function AssignedFunctionAt(s: string, p: nat): (r: Option<string>)
    ensures r.Some? ==> IsIdentifier(r.value)
  {
    var asg :- AssignedAt(s, p);
    var a :- Lit(s, asg.1, "function");
    var b :- Char(s, Spaces(s, a), '(');
    var close :- FirstMatch(s, b, CloseAt);
    Some(s[p..asg.0])
  }

  /** Alternative 5, `(\w+)\s*=\s*\(([\s\S]*?)\)\s*=>`: group 7. */
  function AssignedArrowAt(s: string, p: nat): (r: Option<string>)
    ensures r.Some? ==> IsIdentifier(r.value)
  {
    var asg :- AssignedAt(s, p);
    var params :- ArrowParamsAt(s, asg.1);
    Some(s[p..asg.0])
  }

  /** Alternative 6, `\w+\s*=\s*async\s*\(([\s\S]*?)\)\s*=>`: group 9, the
      parameter text. */
  function AssignedAsyncArrowParamsAt(s: string, p: nat): (r: Option<string>)
  {
    var asg :- AssignedAt(s, p);
    AsyncArrowParamsAt(s, asg.1)
  }

  /** Alternative 7, `\w+\s*=\s*function\s*[\s\S]*?\((([\s\S]*?))\)`: group
      10, the text between the first `(` after `function` and the first `)`
      after that. A later `(` cannot help: if the first one has no `)` after
      it, neither has any later one. */
  function AssignedFunctionParamsAt(s: string, p: nat): (r: Option<string>)
  {
    var asg :- AssignedAt(s, p);
    var a :- Lit(s, asg.1, "function");
    var open :- FirstMatch(s, Spaces(s, a), OpenAt);
    var close :- FirstMatch(s, open.0 + 1, CloseAt);
    Some(s[open.0 + 1..close.0])
  }

  /** Alternative 8, `\w+\s*=\s*\(([\s\S]*?)\)\s*=>`: group 12. It has the
      shape of alternative 5, which is tried first, so it never decides. */
  function AssignedArrowParamsAt(s: string, p: nat): (r: Option<string>)
  {
    var asg :- AssignedAt(s, p);
    ArrowParamsAt(s, asg.1)
  }

  /** The function pattern of `getFunctionConstructName` (file.ts:14),
      returning the first defined group from group 2 on, as
      `match.slice(2).find(...)` does. */
  function FunctionPatternAt(s: string, p: nat): Option<string>
  {
    DeclaredFunctionAt(s, p)
      .OrElse(ConstAsyncArrowAt(s, p))
      .OrElse(ArrowParamsAt(s, p))
      .OrElse(AssignedFunctionAt(s, p))
      .OrElse(AssignedArrowAt(s, p))
      .OrElse(AssignedAsyncArrowParamsAt(s, p))
      .OrElse(AssignedFunctionParamsAt(s, p))
      .OrElse(AssignedArrowParamsAt(s, p))
  }

  /** `getFunctionConstructName` (file.ts:13-33). */
  function FunctionConstructName(line: string): (r: Option<string>)
    // no match of the function pattern: no name
    ensures !Occurs(line, FunctionPatternAt) ==> r.None?
    // an export assignment anywhere wins, with its exported identifier
    ensures Occurs(line, FunctionPatternAt) && Occurs(line, ExportAssignmentAt) ==>
      r.Some? && IsIdentifier(r.value) && exists p :: LeftmostAt(line, ExportAssignmentAt, p, r.value)
    // otherwise any `( ... ) =>` wins, with its parameter text, or no name when that is empty
    ensures Occurs(line, FunctionPatternAt) && !Occurs(line, ExportAssignmentAt) && Occurs(line, ArrowParamsAt) ==>
      exists p, params :: LeftmostAt(line, ArrowParamsAt, p, params) && r == NonEmpty(params)
    // only without an arrow does the function pattern's own group decide
    ensures Occurs(line, FunctionPatternAt) && !Occurs(line, ExportAssignmentAt) && !Occurs(line, ArrowParamsAt) ==>
      exists p, group :: LeftmostAt(line, FunctionPatternAt, p, group) && r == NonEmpty(group)
  {
    FirstMatchFindsOccurrence(line, FunctionPatternAt);
    FirstMatchFindsOccurrence(line, ExportAssignmentAt);
    FirstMatchFindsOccurrence(line, ArrowParamsAt);
    match FirstMatch(line, 0, FunctionPatternAt)
    case None => None
    case Some((fp, group)) =>
      assert LeftmostAt(line, FunctionPatternAt, fp, group);
      var functionName := NonEmpty(group);
      match FirstMatch(line, 0, ExportAssignmentAt)
      case Some((ep, exported)) =>
        assert LeftmostAt(line, ExportAssignmentAt, ep, exported);
        NonEmpty(exported)
      case None =>
        match FirstMatch(line, 0, ArrowParamsAt)
        case Some((ap, params)) =>
          assert LeftmostAt(line, ArrowParamsAt, ap, params);
          NonEmpty(params)
        case None => functionName
  }

  /*** Variables and classes (src/utils/file.ts:36 and :44) ***/

  /** `(const|let|var)` */
  function DeclarationKeywordAt(s: string, p: nat): (r: Option<nat>)
    ensures r.Some? ==> p < r.value <= |s|
  {
    Lit(s, p, "const").OrElse(Lit(s, p, "let")).OrElse(Lit(s, p, "var"))
  }

  /** `\b(const|let|var)\s+(\w+)`: group 2. */
  function VariableNameAt(s: string, p: nat): (r: Option<string>)
    ensures r.Some? ==> IsIdentifier(r.value)
  {
    if !Boundary(s, p) then None
    else
      var a :- DeclarationKeywordAt(s, p);
      var b :- Spaces1(s, a);
      var c :- Word1(s, b);
      Some(s[b..c])
  }

  /** `getVariableConstructName` (file.ts:35-41): the identifier after the
      leftmost `const`, `let` or `var` keyword, or nothing. */
  function VariableConstructName(line: string): (r: Option<string>)
    ensures r.None? <==> !Occurs(line, VariableNameAt)
    ensures r.Some? ==> IsIdentifier(r.value) && exists p :: LeftmostAt(line, VariableNameAt, p, r.value)
  {
    FirstMatchFindsOccurrence(line, VariableNameAt);
    match FirstMatch(line, 0, VariableNameAt)
    case Some((p, name)) =>
      assert LeftmostAt(line, VariableNameAt, p, name);
      NonEmpty(name)
    case None => None
  }

  /** `\bclass\s+(\w+)`: group 1. The same pattern classifies (file.ts:129). */
  function ClassNameAt(s: string, p: nat): (r: Option<string>)
    ensures r.Some? ==> IsIdentifier(r.value)
  {
    if !Boundary(s, p) then None
    else
      var a :- Lit(s, p, "class");
      var b :- Spaces1(s, a);
      var c :- Word1(s, b);
      Some(s[b..c])
  }

  /** `getClassConstructName` (file.ts:43-49): the identifier after the
      leftmost `class` keyword, or nothing. */
  function ClassConstructName(line: string): (r: Option<string>)
    ensures r.None? <==> !Occurs(line, ClassNameAt)
    ensures r.Some? ==> IsIdentifier(r.value) && exists p :: LeftmostAt(line, ClassNameAt, p, r.value)
  {
    FirstMatchFindsOccurrence(line, ClassNameAt);
    match FirstMatch(line, 0, ClassNameAt)
    case Some((p, name)) =>
      assert LeftmostAt(line, ClassNameAt, p, name);
      NonEmpty(name)
    case None => None
  }
}
