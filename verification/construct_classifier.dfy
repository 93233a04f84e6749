/** `File.getConstructType` and `File.getConstructName`
    (src/utils/file.ts:89-137): the first-match-wins classification of a
    window of code and the name extraction that follows the chosen kind. */
module ConstructClassifier {
  import opened Wrappers
  import opened Text
  import opened Scan
  import opened ConstructIdentifier

  datatype ConstructKind = Function | Module | Variable | Class | Other

  /** The string the source returns for each kind. */
  function KindName(k: ConstructKind): string {
    match k
    case Function => "function"
    case Module => "module"
    case Variable => "variable"
    case Class => "class"
    case Other => "other"
  }

  /*** The function pattern of getConstructType (file.ts:108) ***/

  /** `\bfunction\b` */
  function FunctionWordAt(s: string, p: nat): (r: Option<nat>)
  {
    if !Boundary(s, p) then None
    else
      var a :- Lit(s, p, "function");
      if Boundary(s, a) then Some(a) else None
  }

  /** Alternative 1, `(\basync\s+)?\bfunction\b`. */
  function FunctionKeywordAt(s: string, p: nat): (r: Option<nat>)
  {
    var withAsync := (
      if !Boundary(s, p) then None
      else
        var a :- Lit(s, p, "async");
        var b :- Spaces1(s, a);
        FunctionWordAt(s, b));
    withAsync.OrElse(FunctionWordAt(s, p))
  }

  /** Alternative 2, `^exports\.\w+\s*=\s*async\s*\(.*\)\s*=>`. */
  function AnchoredExportAsyncArrowAt(s: string, p: nat): (r: Option<nat>)
  {
    if p != 0 then None
    else
      var a :- Lit(s, p, "exports.");
      var asg :- AssignedAt(s, a);
      AsyncDotsArrowAt(s, asg.1)
  }

  /** Alternative 3, `\bconst\b\s*\w+\s*=\s*async\s*\(.*\)\s*=>`. */
  function ConstAsyncArrowTypeAt(s: string, p: nat): (r: Option<nat>)
  {
    if !Boundary(s, p) then None
    else
      var a :- Lit(s, p, "const");
      if !Boundary(s, a) then None
      else
        var asg :- AssignedAt(s, Spaces(s, a));
        AsyncDotsArrowAt(s, asg.1)
  }

  /** Alternative 4, `\b\w+\s*=\s*function\s*\(`. */
  function AssignedFunctionTypeAt(s: string, p: nat): (r: Option<nat>)
  {
    if !Boundary(s, p) then None
    else
      var asg :- AssignedAt(s, p);
      var a :- Lit(s, asg.1, "function");
      Char(s, Spaces(s, a), '(')
  }

  /** Alternatives 5 and 8 (the same pattern written twice),
      `\b\w+\s*=\s*\([\s\S]*?\)\s*=>`. */
  function AssignedArrowTypeAt(s: string, p: nat): (r: Option<string>)
  {
    if !Boundary(s, p) then None else AssignedArrowParamsAt(s, p)
  }

  /** Alternative 6, `\b\w+\s*=\s*async\s*\([\s\S]*?\)\s*=>`. */
  function AssignedAsyncArrowTypeAt(s: string, p: nat): (r: Option<string>)
  {
    if !Boundary(s, p) then None else AssignedAsyncArrowParamsAt(s, p)
  }

  /** Alternative 7, `\b\w+\s*=\s*function\s*[\s\S]*?\(`. */
  function AssignedFunctionExpressionTypeAt(s: string, p: nat): (r: Option<nat>)
  {
    if !Boundary(s, p) then None
    else
      var asg :- AssignedAt(s, p);
      var a :- Lit(s, asg.1, "function");
      var open :- FirstMatch(s, Spaces(s, a), OpenAt);
      Some(open.0 + 1)
  }

  /** Some alternative of the function pattern matches at `p`. */
  predicate FunctionTypeAt(s: string, p: nat) {
    || FunctionKeywordAt(s, p).Some?
    || AnchoredExportAsyncArrowAt(s, p).Some?
    || ConstAsyncArrowTypeAt(s, p).Some?
    || AssignedFunctionTypeAt(s, p).Some?
    || AssignedArrowTypeAt(s, p).Some?
    || AssignedAsyncArrowTypeAt(s, p).Some?
    || AssignedFunctionExpressionTypeAt(s, p).Some?
  }

  /** `functionRegex.test(text)` (file.ts:108-109). */
  predicate IsFunctionText(s: string) {
    exists p :: 0 <= p <= |s| && FunctionTypeAt(s, p)
  }

  /*** The other patterns of getConstructType ***/

  /** `@module\s+(.*)` (file.ts:114); the trailing group matches anything. */
  function ModuleTagAt(s: string, p: nat): (r: Option<nat>)
  {
    var a :- Lit(s, p, "@module");
    Spaces1(s, a)
  }

  /** `w\b`: the literal `w`, ending at a word boundary. */
  function KeywordThenBoundaryAt(s: string, p: nat, w: string): (r: Option<nat>)
  {
    var a :- Lit(s, p, w);
    if Boundary(s, a) then Some(a) else None
  }

  /** `\bw\b`: the literal `w` as a whole word. */
  function WholeKeywordAt(s: string, p: nat, w: string): (r: Option<nat>)
  {
    if !Boundary(s, p) then None else KeywordThenBoundaryAt(s, p, w)
  }

  /** `(const\b|\blet\b|\bvar\b)` */
  function BoundedKeywordAt(s: string, p: nat): (r: Option<nat>)
    ensures r.Some? ==> p < r.value <= |s|
  {
    KeywordThenBoundaryAt(s, p, "const")
      .OrElse(WholeKeywordAt(s, p, "let"))
      .OrElse(WholeKeywordAt(s, p, "var"))
  }

  /** `\b(const\b|\blet\b|\bvar\b)\s+(\w+)` (file.ts:121). */
  function VariableTypeAt(s: string, p: nat): (r: Option<string>)
  {
    if !Boundary(s, p) then None
    else
      var a :- BoundedKeywordAt(s, p);
      var b :- Spaces1(s, a);
      var c :- Word1(s, b);
      Some(s[b..c])
  }

  predicate HasModuleTag(s: string) {
    Occurs(s, ModuleTagAt)
  }

  predicate DeclaresVariable(s: string) {
    Occurs(s, VariableTypeAt)
  }

  predicate DeclaresClass(s: string) {
    Occurs(s, ClassNameAt)
  }

  /*** Classification ***/

  /** The order in which the kinds are tested. */
  function Rank(k: ConstructKind): nat {
    match k
    case Function => 0
    case Module => 1
    case Variable => 2
    case Class => 3
    case Other => 4
  }

  /** The test for each kind; `Other` is the fallback and always applies. */
  predicate Matches(k: ConstructKind, text: string) {
    match k
    case Function => IsFunctionText(text)
    case Module => HasModuleTag(text)
    case Variable => DeclaresVariable(text)
    case Class => DeclaresClass(text)
    case Other => true
  }

  /** `getConstructType` (file.ts:106-137): the first kind, in the order
      function, module, variable, class, whose test the text passes, and
      `Other` when it passes none. */
  function ConstructType(text: string): (kind: ConstructKind)
    ensures Matches(kind, text)
    ensures forall k :: Rank(k) < Rank(kind) ==> !Matches(k, text)
  {
    if IsFunctionText(text) then Function
    else if HasModuleTag(text) then Module
    else if DeclaresVariable(text) then Variable
    else if DeclaresClass(text) then Class
    else Other
  }

  /** The characterisation above singles out one kind: a kind whose test
      passes while every earlier test fails is the classification. */
  lemma ConstructTypeIsFirstMatch(text: string, k: ConstructKind)
    ensures k == ConstructType(text) <==>
      Matches(k, text) && forall k' :: Rank(k') < Rank(k) ==> !Matches(k', text)
  {
  }

  /** A window holding both a variable and a class declaration, and no
      function or module pattern, is a variable. */
  lemma VariableOutranksClass(text: string)
    requires !IsFunctionText(text) && !HasModuleTag(text)
    requires DeclaresVariable(text) && DeclaresClass(text)
    ensures ConstructType(text) == Variable
  {
  }

  /*** Agreement between classification and extraction ***/

  /** The variable test of getConstructType and the pattern of
      getVariableConstructName capture the same identifier at every
      position: their extra `\b` assertions always hold after a keyword that
      is followed by white space. */
  lemma VariablePatternsAgree(s: string, p: nat)
    ensures VariableTypeAt(s, p) == VariableNameAt(s, p)
  {
    if Boundary(s, p) {
      KeywordsAgree(s, p);
    }
  }

  /** A literal that ends in a word character leaves one just before the
      position it returns. */
  lemma LitEndsInWord(s: string, p: nat, w: string)
    requires |w| > 0 && IsWordChar(w[|w| - 1])
    requires Lit(s, p, w).Some?
    ensures WordAt(s, p + |w| - 1)
  {
  }

  /** Two literals that differ in their first character never both occur
      at the same position. */
  lemma LitsExclude(s: string, p: nat, w1: string, w2: string)
    requires |w1| > 0 && |w2| > 0 && w1[0] != w2[0]
    requires Lit(s, p, w1).Some?
    ensures Lit(s, p, w2).None?
  {
  }

  /** The keyword alternatives with and without the trailing `\b` agree
      whenever the keyword is followed by white space, and the bounded one
      never finds a keyword the other does not. */
  lemma KeywordsAgree(s: string, p: nat)
    requires Boundary(s, p)
    ensures var k := DeclarationKeywordAt(s, p);
      k.Some? && Spaces1(s, k.value).Some? ==> BoundedKeywordAt(s, p) == k
    ensures BoundedKeywordAt(s, p).Some? ==> BoundedKeywordAt(s, p) == DeclarationKeywordAt(s, p)
  {
    if Lit(s, p, "const").Some? {
      LitEndsInWord(s, p, "const");
      LitsExclude(s, p, "const", "let");
      LitsExclude(s, p, "const", "var");
    } else if Lit(s, p, "let").Some? {
      LitEndsInWord(s, p, "let");
    } else if Lit(s, p, "var").Some? {
      LitEndsInWord(s, p, "var");
    }
  }

  lemma DeclaresVariableHasName(s: string)
    ensures DeclaresVariable(s) <==> Occurs(s, VariableNameAt)
  {
    forall p | 0 <= p <= |s| ensures VariableTypeAt(s, p) == VariableNameAt(s, p) {
      VariablePatternsAgree(s, p);
    }
  }

  /** `getConstructName` (file.ts:89-104): the kind is computed again from
      the same text and only that kind's extractor is consulted. A variable
      or a class always gets its identifier; `Other` never gets a name; and
      neither does `Module`, because every text its extractor could name is
      already classified as a function. */
  function ConstructName(text: string): (name: Option<string>)
    ensures ConstructType(text) == Function ==> name == FunctionConstructName(text)
    ensures ConstructType(text) == Variable ==>
      name == VariableConstructName(text) && name.Some? && IsIdentifier(name.value)
    ensures ConstructType(text) == Class ==>
      name == ClassConstructName(text) && name.Some? && IsIdentifier(name.value)
    ensures ConstructType(text) == Module ==> name == ExportsConstructName(text) && name.None?
    ensures ConstructType(text) == Other ==> name.None?
  {
    DeclaresVariableHasName(text);
    match ConstructType(text)
    case Function => FunctionConstructName(text)
    case Variable => VariableConstructName(text)
    case Class => ClassConstructName(text)
    case Module =>
      ModuleWindowsHaveNoName(text);
      ExportsConstructName(text)
    case Other => None
  }

  /*** Export assignments are function texts ***/

  /** The start of the identifier that contains position `b`. */
  function WordStart(s: string, b: nat): (q: nat)
    requires b <= |s|
    ensures q <= b
    ensures forall k :: q <= k < b ==> IsWordChar(s[k])
    ensures q == 0 || !IsWordChar(s[q - 1])
    decreases b
  {
    if b > 0 && IsWordChar(s[b - 1]) then WordStart(s, b - 1) else b
  }

  /** An assignment found in the middle of an identifier is the assignment
      found at the start of that identifier, where `\b` holds. */
  lemma AssignedAtWordStart(s: string, b: nat)
    requires AssignedAt(s, b).Some?
    ensures Boundary(s, WordStart(s, b))
    ensures AssignedAt(s, WordStart(s, b)) == AssignedAt(s, b)
  {
  }

  /** A whole word `function` passes the function test. */
  lemma FunctionWordIsFunctionText(s: string, k: nat)
    requires StandaloneFunctionAt(s, k)
    ensures IsFunctionText(s)
  {
    LitCharAt(s, k, "function", 0);
    LitCharAt(s, k, "function", 7);
    assert FunctionWordAt(s, k) == Some(k + 8);
    assert FunctionKeywordAt(s, k).Some?;
    assert FunctionTypeAt(s, k);
  }

  /** An arrow function assigned to an identifier that contains position
      `b` passes the function test through `\b\w+\s*=\s*\([\s\S]*?\)\s*=>`
      at the start of that identifier. */
  lemma AssignedArrowIsFunctionText(s: string, b: nat)
    requires AssignedArrowParamsAt(s, b).Some?
    ensures IsFunctionText(s)
  {
    AssignedAtWordStart(s, b);
    var q := WordStart(s, b);
    assert AssignedArrowTypeAt(s, q).Some?;
    assert FunctionTypeAt(s, q);
  }

  /** The same for an async arrow function and
      `\b\w+\s*=\s*async\s*\([\s\S]*?\)\s*=>`. */
  lemma AssignedAsyncArrowIsFunctionText(s: string, b: nat)
    requires AssignedAsyncArrowParamsAt(s, b).Some?
    ensures IsFunctionText(s)
  {
    AssignedAtWordStart(s, b);
    var q := WordStart(s, b);
    assert AssignedAsyncArrowTypeAt(s, q).Some?;
    assert FunctionTypeAt(s, q);
  }

  /** Every assignment an export assignment can start with passes the
      function test. */
  lemma AssignsFunctionIsFunctionText(s: string, b: nat)
    requires AssignsFunction(s, b)
    ensures IsFunctionText(s)
  {
    if AssignedArrowParamsAt(s, b).Some? {
      AssignedArrowIsFunctionText(s, b);
    } else if AssignedAsyncArrowParamsAt(s, b).Some? {
      AssignedAsyncArrowIsFunctionText(s, b);
    } else {
      FunctionWordIsFunctionText(s, AssignedAt(s, b).value.1);
    }
  }

  /** A window classified as a module never gets a name: the `module` branch
      of getConstructName calls getExportsConstructName only on texts that
      contain no export assignment it recognises. */
  lemma ModuleWindowsHaveNoName(text: string)
    requires ConstructType(text) == Module
    ensures ExportsConstructName(text).None?
  {
    if ExportsConstructName(text).Some? {
      var b :| AssignsFunction(text, b);
      AssignsFunctionIsFunctionText(text, b);
    }
  }
}
