/** The linker on lines that start with a declaration or an export
    assignment: such a line is classified by that declaration and named by
    its identifier. */
module Scenarios {
  import opened Wrappers
  import opened Text
  import opened Scan
  import opened ConstructIdentifier
  import opened ConstructClassifier

  /*** Matches that need an assignment sign ***/

  /** An arrow function's parameter list ends in `=>`. */
  lemma ArrowNeedsEquals(s: string, p: nat)
    ensures ArrowParamsAt(s, p).Some? ==> '=' in s
  {
    if ArrowParamsAt(s, p).Some? {
      var a := p + 1;
      var close := FirstMatch(s, a, ArrowCloseAt).value;
      var b := Spaces(s, close.0 + 1);
      LitCharAt(s, b, "=>", 0);
    }
  }

  /** Every export alternative assigns to `exports.name`. */
  lemma ExportNeedsEquals(s: string, p: nat)
    ensures ExportAssignmentAt(s, p).Some? ==> '=' in s
  {
    if ExportAssignmentAt(s, p).Some? {
      var w := Word1(s, p + 8).value;
      assert s[Spaces(s, w)] == '=';
    }
  }

  /*** What the tests of getConstructType need ***/

  /** The literal `function` needs an `f`. */
  lemma FunctionLitNeedsF(s: string, k: nat)
    ensures Lit(s, k, "function").Some? ==> 'f' in s
  {
    if Lit(s, k, "function").Some? {
      LitCharAt(s, k, "function", 0);
    }
  }

  /** `async\s*\(.*\)\s*=>` needs a `(`. */
  lemma AsyncDotsNeedsParen(s: string, k: nat)
    ensures AsyncDotsArrowAt(s, k).Some? ==> '(' in s
  {
    if AsyncDotsArrowAt(s, k).Some? {
      var a := Lit(s, k, "async").value;
      assert s[Spaces(s, a)] == '(';
    }
  }

  /** Alternative 1 of the function test needs an `f`. */
  lemma FunctionKeywordNeedsF(s: string, p: nat)
    ensures FunctionKeywordAt(s, p).Some? ==> 'f' in s
  {
    if FunctionWordAt(s, p).Some? {
      FunctionLitNeedsF(s, p);
    } else if FunctionKeywordAt(s, p).Some? {
      var a := Lit(s, p, "async").value;
      var b := Spaces1(s, a).value;
      FunctionLitNeedsF(s, b);
    }
  }

  /** Alternatives 2 and 3 of the function test need a `(`. */
  lemma AsyncArrowTypesNeedParen(s: string, p: nat)
    ensures AnchoredExportAsyncArrowAt(s, p).Some? ==> '(' in s
    ensures ConstAsyncArrowTypeAt(s, p).Some? ==> '(' in s
  {
    if AnchoredExportAsyncArrowAt(s, p).Some? {
      AsyncDotsNeedsParen(s, AssignedAt(s, p + 8).value.1);
    }
    if ConstAsyncArrowTypeAt(s, p).Some? {
      AsyncDotsNeedsParen(s, AssignedAt(s, Spaces(s, p + 5)).value.1);
    }
  }

  /** Alternatives 4 and 7 of the function test need an `f`. */
  lemma AssignedFunctionTypesNeedF(s: string, p: nat)
    ensures AssignedFunctionTypeAt(s, p).Some? ==> 'f' in s
    ensures AssignedFunctionExpressionTypeAt(s, p).Some? ==> 'f' in s
  {
    if AssignedAt(s, p).Some? {
      FunctionLitNeedsF(s, AssignedAt(s, p).value.1);
    }
  }

  /** `\(([\s\S]*?)\)\s*=>` needs a `(`. */
  lemma ArrowNeedsParen(s: string, q: nat)
    ensures ArrowParamsAt(s, q).Some? ==> '(' in s
  {
    if ArrowParamsAt(s, q).Some? {
      assert s[q] == '(';
    }
  }

  /** `async\s*\(([\s\S]*?)\)\s*=>` needs a `(`. */
  lemma AsyncArrowNeedsParen(s: string, q: nat)
    ensures AsyncArrowParamsAt(s, q).Some? ==> '(' in s
  {
    if AsyncArrowParamsAt(s, q).Some? {
      ArrowNeedsParen(s, Spaces(s, Lit(s, q, "async").value));
    }
  }

  /** Alternatives 5 and 6 of the function test need a `(`. */
  lemma AssignedArrowTypesNeedParen(s: string, p: nat)
    ensures AssignedArrowTypeAt(s, p).Some? ==> '(' in s
    ensures AssignedAsyncArrowTypeAt(s, p).Some? ==> '(' in s
  {
    if AssignedAt(s, p).Some? {
      var b := AssignedAt(s, p).value.1;
      ArrowNeedsParen(s, b);
      AsyncArrowNeedsParen(s, b);
    }
  }

  /** A text with neither `(` nor `f` fails the function test. */
  lemma NoParenNoFunctionText(s: string)
    requires '(' !in s && 'f' !in s
    ensures !IsFunctionText(s)
  {
    forall p | 0 <= p <= |s| ensures !FunctionTypeAt(s, p) {
      FunctionKeywordNeedsF(s, p);
      AsyncArrowTypesNeedParen(s, p);
      AssignedFunctionTypesNeedF(s, p);
      AssignedArrowTypesNeedParen(s, p);
    }
  }

  /** A text without `@` has no module tag. */
  lemma NoAtNoModuleTag(s: string)
    requires '@' !in s
    ensures !HasModuleTag(s)
  {
    forall p | 0 <= p <= |s| ensures ModuleTagAt(s, p).None? {
      if Lit(s, p, "@module").Some? {
        LitCharAt(s, p, "@module", 0);
      }
    }
  }

  /** Each keyword of the variable test needs its own letter: `const` an
      `o`, `var` a `v`, and `let` an `l` that starts a word. */
  lemma VariableKeywordNeeds(s: string, p: nat)
    ensures VariableTypeAt(s, p).Some? ==>
      'o' in s || 'v' in s || (p < |s| && s[p] == 'l' && Boundary(s, p))
  {
    if KeywordThenBoundaryAt(s, p, "const").Some? {
      LitCharAt(s, p, "const", 1);
    } else if WholeKeywordAt(s, p, "let").Some? {
      LitCharAt(s, p, "let", 0);
    } else if WholeKeywordAt(s, p, "var").Some? {
      LitCharAt(s, p, "var", 0);
    }
  }

  /** A text without `o` or `v`, whose every `l` continues a word, fails the
      variable test. */
  lemma NoKeywordNoVariable(s: string)
    requires 'o' !in s && 'v' !in s
    requires forall k :: 0 <= k < |s| && s[k] == 'l' ==> 0 < k && IsWordChar(s[k - 1])
    ensures !DeclaresVariable(s)
  {
    forall p | 0 <= p <= |s| ensures VariableTypeAt(s, p).None? {
      VariableKeywordNeeds(s, p);
    }
  }

  /*** Lines that start with a declaration ***/

  /** `class Name ...` is named `Name`. */
  lemma DeclaredClassIsNamed(name: string, rest: string)
    requires IsIdentifier(name)
    requires rest == [] || !IsWordChar(rest[0])
    ensures ClassConstructName("class " + name + rest) == Some(name)
  {
    var s := "class " + name + rest;
    var e := 6 + |name|;
    LitMatches(s, 0, "class");
    assert s[0..5] == "class";
    RunEndAt(s, 5, 6, SpaceClass);
    RunEndAt(s, 6, e, WordClass);
    assert s[6..e] == name;
    assert ClassNameAt(s, 0) == Some(name);
  }

  /** `(const|let|var)` finds the keyword that starts the line. */
  lemma DeclarationKeywordMatches(s: string, keyword: string)
    requires keyword == "const" || keyword == "let" || keyword == "var"
    requires |keyword| <= |s| && s[..|keyword|] == keyword
    ensures DeclarationKeywordAt(s, 0) == Some(|keyword|)
  {
    LitMatches(s, 0, "const");
    LitMatches(s, 0, "let");
    LitMatches(s, 0, "var");
    assert s[0] == keyword[0];
    assert s[0..|keyword|] == keyword;
  }

  /** `const Name ...`, `let Name ...` and `var Name ...` are named `Name`. */
  lemma DeclaredVariableIsNamed(keyword: string, name: string, rest: string)
    requires keyword == "const" || keyword == "let" || keyword == "var"
    requires IsIdentifier(name)
    requires rest == [] || !IsWordChar(rest[0])
    ensures VariableConstructName(keyword + " " + name + rest) == Some(name)
  {
    var s := keyword + " " + name + rest;
    var k := |keyword|;
    var e := k + 1 + |name|;
    assert s[..k] == keyword;
    DeclarationKeywordMatches(s, keyword);
    RunEndAt(s, k, k + 1, SpaceClass);
    RunEndAt(s, k + 1, e, WordClass);
    assert s[k + 1..e] == name;
    assert VariableNameAt(s, 0) == Some(name);
  }

  /** A line without `=` holds neither an arrow function nor an export
      assignment. */
  lemma NoAssignmentNoArrow(s: string)
    requires '=' !in s
    ensures !Occurs(s, ArrowParamsAt) && !Occurs(s, ExportAssignmentAt)
  {
    forall p | 0 <= p <= |s| ensures ArrowParamsAt(s, p).None? && ExportAssignmentAt(s, p).None? {
      ArrowNeedsEquals(s, p);
      ExportNeedsEquals(s, p);
    }
  }

  /** `function\s+(\w+)` captures the identifier after `function `. */
  lemma FunctionKeywordNameMatches(s: string, e: nat)
    requires 9 < e <= |s| && s[..9] == "function "
    requires IsIdentifier(s[9..e]) && (e == |s| || !IsWordChar(s[e]))
    ensures FunctionKeywordNameAt(s, 0) == Some(s[9..e])
  {
    LitMatches(s, 0, "function");
    assert s[0..8] == s[..9][..8];
    RunEndAt(s, 8, 9, SpaceClass);
    forall k | 9 <= k < e ensures IsWordChar(s[k]) {
      assert s[k] == s[9..e][k - 9];
    }
    RunEndAt(s, 9, e, WordClass);
  }

  /** Without a leading `async`, `(async\s+)?function\s+(\w+)` is
      `function\s+(\w+)`. */
  lemma NoAsyncPrefix(s: string)
    requires 0 < |s| && s[0] != 'a'
    ensures DeclaredFunctionAt(s, 0) == FunctionKeywordNameAt(s, 0)
  {
    LitMatches(s, 0, "async");
  }

  /** `function name` at the start of the line matches the function pattern. */
  lemma FunctionKeywordMatches(s: string, e: nat)
    requires 9 < e <= |s| && s[..9] == "function "
    requires IsIdentifier(s[9..e]) && (e == |s| || !IsWordChar(s[e]))
    ensures FunctionPatternAt(s, 0) == Some(s[9..e])
  {
    assert s[0] == 'f';
    NoAsyncPrefix(s);
    FunctionKeywordNameMatches(s, e);
  }

  /** `function name...` is named `name` when no `=` follows, so that
      neither an arrow nor an export assignment can match. */
  lemma DeclaredFunctionIsNamed(name: string, rest: string)
    requires IsIdentifier(name)
    requires rest == [] || !IsWordChar(rest[0])
    requires '=' !in rest
    ensures FunctionConstructName("function " + name + rest) == Some(name)
  {
    var s := "function " + name + rest;
    var e := 9 + |name|;
    forall k | 0 <= k < |s| ensures s[k] != '=' {
      if k >= e {
        assert s[k] == rest[k - e];
      }
    }
    NoAssignmentNoArrow(s);
    assert s[..9] == "function ";
    assert s[9..e] == name;
    FunctionKeywordMatches(s, e);
    FirstMatchFindsOccurrence(s, ExportAssignmentAt);
    FirstMatchFindsOccurrence(s, ArrowParamsAt);
    assert FirstMatch(s, 0, FunctionPatternAt) == Some((0, name));
  }

  /** The parameter list of an arrow runs to the first `)`, when `=>`
      follows it. */
  lemma ArrowParamsMatch(s: string, a: nat, c: nat)
    requires 0 < a <= c && c + 4 <= |s| && s[a - 1] == '('
    requires ')' !in s[a..c] && s[c..c + 4] == ") =>"
    ensures ArrowParamsAt(s, a - 1) == Some(s[a..c])
  {
    RunEndAt(s, c + 1, c + 2, SpaceClass);
    LitMatches(s, c + 2, "=>");
    assert s[c + 2..c + 4] == "=>";
    assert ArrowCloseAt(s, c) == Some(c + 4);
    forall q | a <= q < c ensures ArrowCloseAt(s, q).None? {
      assert s[q] == s[a..c][q - a];
    }
    FirstMatchAt(s, a, ArrowCloseAt, c);
  }

  /** `exports.name = ` at the start of the line assigns `name`. */
  lemma ExportAssignmentMatches(s: string, e: nat)
    requires 8 < e && e + 3 <= |s| && s[..8] == "exports."
    requires IsIdentifier(s[8..e]) && s[e..e + 3] == " = "
    requires e + 3 == |s| || !IsSpace(s[e + 3])
    ensures Lit(s, 0, "exports") == Some(7) && AnyChar(s, 7) == Some(8)
    ensures AssignedAt(s, 8) == Some((e, e + 3))
  {
    LitMatches(s, 0, "exports");
    assert s[0..7] == s[..8][..7];
    assert s[e] == ' ' && s[e + 1] == '=' && s[e + 2] == ' ';
    forall k | 8 <= k < e ensures IsWordChar(s[k]) {
      assert s[k] == s[8..e][k - 8];
    }
    RunEndAt(s, 8, e, WordClass);
    RunEndAt(s, e, e + 1, SpaceClass);
    RunEndAt(s, e + 2, e + 3, SpaceClass);
  }

  /** An assignment of something that starts with `(` is not `exports.name
      = function`. */
  lemma NotAFunctionExpression(s: string, e: nat)
    requires AssignedAt(s, 8) == Some((e, e + 3)) && e + 3 < |s| && s[e + 3] == '('
    ensures ExportsFunctionAt(s, 0).None?
  {
    LitMatches(s, e + 3, "function");
  }

  /** `exports.name = ` followed by an arrow is an export assignment of
      `name`, at the start of the line. */
  lemma ExportArrowMatches(s: string, e: nat, c: nat)
    requires 8 < e && e + 4 <= c && c + 4 <= |s| && s[..8] == "exports."
    requires IsIdentifier(s[8..e]) && s[e..e + 4] == " = ("
    requires ')' !in s[e + 4..c] && s[c..c + 4] == ") =>"
    ensures ExportAssignmentAt(s, 0) == Some(s[8..e])
    ensures ArrowParamsAt(s, e + 3).Some?
  {
    assert s[e..e + 3] == s[e..e + 4][..3];
    assert s[e + 3] == '(';
    ExportAssignmentMatches(s, e);
    NotAFunctionExpression(s, e);
    ArrowParamsMatch(s, e + 4, c);
    assert ExportsArrowAt(s, 0) == Some(s[8..e]);
  }

  /** Where the pieces of an exported arrow's line lie. */
  lemma ExportLineParts(name: string, params: string, rest: string)
    ensures var s := "exports." + name + " = (" + params + ") =>" + rest;
      var e := 8 + |name|;
      var c := e + 4 + |params|;
      && c + 4 <= |s|
      && s[..8] == "exports." && s[8..e] == name && s[e..e + 4] == " = ("
      && s[e + 4..c] == params && s[c..c + 4] == ") =>"
  {
    var s := "exports." + name + " = (" + params + ") =>" + rest;
    var e := 8 + |name|;
    var c := e + 4 + |params|;
    assert s[..8] == "exports." && s[8..e] == name && s[e..e + 4] == " = (";
    assert s[e + 4..c] == params && s[c..c + 4] == ") =>";
  }

  /** `exports.name = (params) => ...` is named `name`: the export
      assignment outranks the arrow's parameter list. */
  lemma ExportedArrowIsNamed(name: string, params: string, rest: string)
    requires IsIdentifier(name)
    requires ')' !in params
    ensures FunctionConstructName("exports." + name + " = (" + params + ") =>" + rest) == Some(name)
  {
    var s := "exports." + name + " = (" + params + ") =>" + rest;
    var e := 8 + |name|;
    var c := e + 4 + |params|;
    ExportLineParts(name, params, rest);
    ExportArrowMatches(s, e, c);
    assert FunctionPatternAt(s, e + 3).Some?;
  }

  /*** Whole results ***/

  /** `function name...`, with no `=` after the name, is a function named
      `name`. */
  lemma DeclaredFunctionIsLinked(name: string, rest: string)
    requires IsIdentifier(name)
    requires rest == [] || !IsWordChar(rest[0])
    requires '=' !in rest
    ensures var line := "function " + name + rest;
      ConstructType(line) == Function && ConstructName(line) == Some(name)
  {
    var s := "function " + name + rest;
    LitMatches(s, 0, "function");
    assert s[0..8] == "function";
    assert StandaloneFunctionAt(s, 0);
    FunctionWordIsFunctionText(s, 0);
    DeclaredFunctionIsNamed(name, rest);
  }

  /** `exports.name = (params) => ...` is a function named `name`. */
  lemma ExportedArrowIsLinked(name: string, params: string, rest: string)
    requires IsIdentifier(name)
    requires ')' !in params
    ensures var line := "exports." + name + " = (" + params + ") =>" + rest;
      ConstructType(line) == Function && ConstructName(line) == Some(name)
  {
    var s := "exports." + name + " = (" + params + ") =>" + rest;
    var e := 8 + |name|;
    var c := e + 4 + |params|;
    ExportLineParts(name, params, rest);
    assert s[e..e + 3] == s[e..e + 4][..3];
    assert s[e + 3] == '(';
    ExportAssignmentMatches(s, e);
    ExportArrowMatches(s, e, c);
    assert AssignedArrowParamsAt(s, 8).Some?;
    AssignedArrowIsFunctionText(s, 8);
    ExportedArrowIsNamed(name, params, rest);
  }

  /** `class Name ...` is a class named `Name`, when nothing after `class `
      could pass an earlier test: no `(`, `f`, `@`, `o`, `v` or `l`. */
  lemma DeclaredClassIsLinked(name: string, rest: string)
    requires IsIdentifier(name)
    requires rest == [] || !IsWordChar(rest[0])
    requires '(' !in name && 'f' !in name && '@' !in name && 'o' !in name && 'v' !in name && 'l' !in name
    requires '(' !in rest && 'f' !in rest && '@' !in rest && 'o' !in rest && 'v' !in rest && 'l' !in rest
    ensures var line := "class " + name + rest;
      ConstructType(line) == Class && ConstructName(line) == Some(name)
  {
    var s := "class " + name + rest;
    var tail := name + rest;
    forall k | 0 <= k < |s| ensures s[k] == (if k < 6 then "class "[k] else tail[k - 6]) {
    }
    NoParenNoFunctionText(s);
    NoAtNoModuleTag(s);
    NoKeywordNoVariable(s);
    DeclaredClassIsNamed(name, rest);
  }

  /** `const Name ...`, `let Name ...` and `var Name ...` are variables named
      `Name`, when nothing after the keyword could pass an earlier test: no
      `(`, `f` or `@`. */
  lemma DeclaredVariableIsLinked(keyword: string, name: string, rest: string)
    requires keyword == "const" || keyword == "let" || keyword == "var"
    requires IsIdentifier(name)
    requires rest == [] || !IsWordChar(rest[0])
    requires '(' !in name && 'f' !in name && '@' !in name
    requires '(' !in rest && 'f' !in rest && '@' !in rest
    ensures var line := keyword + " " + name + rest;
      ConstructType(line) == Variable && ConstructName(line) == Some(name)
  {
    var s := keyword + " " + name + rest;
    var head := keyword + " ";
    var tail := name + rest;
    assert s == head + tail;
    NoParenNoFunctionText(s);
    NoAtNoModuleTag(s);
    DeclaredVariableIsNamed(keyword, name, rest);
    DeclaresVariableHasName(s);
  }

  /*** Four example lines ***/

  /* Each example names the pieces of its line as parameters: on a string
     literal the verifier would evaluate the whole leftmost search. */

  /** `function computeSum(a, b) {` is the function `computeSum`. */
  lemma FunctionExample(name: string, rest: string)
    requires name == "computeSum" && rest == "(a, b) {"
    ensures FunctionConstructName("function " + name + rest) == Some("computeSum")
    ensures var line := "function " + name + rest;
      ConstructType(line) == Function && ConstructName(line) == Some("computeSum")
  {
    DeclaredFunctionIsLinked(name, rest);
  }

  /** `exports.parseConfig = (opts) => {` is the function `parseConfig`,
      not `opts`. */
  lemma ExportExample(name: string, params: string, rest: string)
    requires name == "parseConfig" && params == "opts" && rest == " {"
    ensures FunctionConstructName("exports." + name + " = (" + params + ") =>" + rest) == Some("parseConfig")
    ensures var line := "exports." + name + " = (" + params + ") =>" + rest;
      ConstructType(line) == Function && ConstructName(line) == Some("parseConfig")
  {
    ExportedArrowIsLinked(name, params, rest);
  }

  /** None of `(`, `f`, `@`, `o`, `v` and `l` occurs after `class ` in
      the class example. */
  lemma ClassExampleLetters(name: string, rest: string)
    requires name == "Widget" && rest == " extends Base {"
    ensures '(' !in name && 'f' !in name && '@' !in name && 'o' !in name && 'v' !in name && 'l' !in name
    ensures '(' !in rest && 'f' !in rest && '@' !in rest && 'o' !in rest && 'v' !in rest && 'l' !in rest
  {
  }

  /** `class Widget extends Base {` is the class `Widget`. */
  lemma ClassExample(name: string, rest: string)
    requires name == "Widget" && rest == " extends Base {"
    ensures ClassConstructName("class " + name + rest) == Some("Widget")
    ensures var line := "class " + name + rest;
      ConstructType(line) == Class && ConstructName(line) == Some("Widget")
  {
    ClassExampleLetters(name, rest);
    DeclaredClassIsLinked(name, rest);
  }

  /** `const MAX_RETRIES = 5;` is the variable `MAX_RETRIES`. */
  lemma VariableExample(keyword: string, name: string, rest: string)
    requires keyword == "const" && name == "MAX_RETRIES" && rest == " = 5;"
    ensures VariableConstructName(keyword + " " + name + rest) == Some("MAX_RETRIES")
    ensures var line := keyword + " " + name + rest;
      ConstructType(line) == Variable && ConstructName(line) == Some("MAX_RETRIES")
  {
    DeclaredVariableIsLinked(keyword, name, rest);
  }
}
