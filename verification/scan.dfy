/** The building blocks of the regular expressions the linker uses, as
    matchers over a string. A matcher is tried at a position and either fails
    (`None`) or returns what it matched: the position just after the match, or
    a captured substring. All matchers are total: a position past the end of
    the text simply does not match.

    Almost every quantified piece of the patterns this project models is
    followed by a token of a disjoint character class (`\w+` by `\s*=` or by
    the end of the pattern, `\s*` by a non-space literal), so the greedy run
    is the only one that can lead to a match and no backtracking into it is
    needed. The exception is `function\s*[\s\S]*?\(` (file.ts:14 and :108),
    where `\s*` is followed by a lazy run of any character. That does no
    harm: white space is not `(`, so however the two runs share the spaces,
    the lazy run stops at the same first `(` after `function`. */
module Scan {
  import opened Wrappers
  import opened Text

  /** The character classes a run can be made of: `\s`, `\w`, and `.`
      (anything but a line terminator). */
  datatype CharClass = SpaceClass | WordClass | DotClass

  predicate InClass(cls: CharClass, c: char) {
    match cls
    case SpaceClass => IsSpace(c)
    case WordClass => IsWordChar(c)
    case DotClass => !IsLineTerminator(c)
  }

  /** The end of the longest run of characters of one class starting at `i`. */
  function RunEnd(s: string, i: nat, cls: CharClass): (e: nat)
    requires i <= |s|
    ensures i <= e <= |s|
    ensures forall k :: i <= k < e ==> InClass(cls, s[k])
    ensures e == |s| || !InClass(cls, s[e])
    decreases |s| - i
  {
    if i < |s| && InClass(cls, s[i]) then RunEnd(s, i + 1, cls) else i
  }

  /** The run ends at `e` when every character before `e` is in the class
      and the one at `e`, if any, is not. */
  lemma RunEndAt(s: string, i: nat, e: nat, cls: CharClass)
    requires i <= e <= |s|
    requires forall k :: i <= k < e ==> InClass(cls, s[k])
    requires e == |s| || !InClass(cls, s[e])
    ensures RunEnd(s, i, cls) == e
  {
  }

  /** A literal piece of a pattern, such as `exports\.` or `=>`. */
  function Lit(s: string, i: nat, w: string): (r: Option<nat>)
    ensures r.Some? ==> r.value == i + |w| <= |s|
  {
    if i + |w| <= |s| && forall j :: 0 <= j < |w| ==> s[i + j] == w[j] then Some(i + |w|) else None
  }

  /** One character of a matched literal. */
  lemma LitCharAt(s: string, i: nat, w: string, j: nat)
    requires Lit(s, i, w).Some? && j < |w|
    ensures s[i + j] == w[j]
  {
  }

  /** The literal matches exactly where the text holds it. */
  lemma LitMatches(s: string, i: nat, w: string)
    ensures Lit(s, i, w).Some? <==> i + |w| <= |s| && s[i..i + |w|] == w
  {
  }


  /** One literal character, such as `\(` or `=`. */
  function Char(s: string, i: nat, c: char): (r: Option<nat>)
    ensures r.Some? ==> r.value == i + 1 <= |s| && s[i] == c
  {
    if i < |s| && s[i] == c then Some(i + 1) else None
  }

  /** An unescaped `.`: any character but a line terminator. */
  function AnyChar(s: string, i: nat): (r: Option<nat>)
    ensures r.Some? ==> r.value == i + 1 <= |s| && !IsLineTerminator(s[i])
  {
    if i < |s| && !IsLineTerminator(s[i]) then Some(i + 1) else None
  }

  /** `\s*` */
  function Spaces(s: string, i: nat): (e: nat)
    requires i <= |s|
    ensures i <= e <= |s|
    ensures forall k :: i <= k < e ==> IsSpace(s[k])
    ensures e == |s| || !IsSpace(s[e])
  {
    RunEnd(s, i, SpaceClass)
  }

  /** `\s+` */
  function Spaces1(s: string, i: nat): (r: Option<nat>)
    ensures r.Some? ==> i < r.value <= |s|
    ensures r.Some? ==> forall k :: i <= k < r.value ==> IsSpace(s[k])
    ensures r.Some? <==> i < |s| && IsSpace(s[i])
  {
    if i < |s| && IsSpace(s[i]) then Some(RunEnd(s, i, SpaceClass)) else None
  }

  /** `\w+`: the whole identifier starting at `i`. */
  function Word1(s: string, i: nat): (r: Option<nat>)
    ensures r.Some? ==> i < r.value <= |s| && IsIdentifier(s[i..r.value])
    ensures r.Some? ==> r.value == |s| || !IsWordChar(s[r.value])
  {
    if i < |s| && IsWordChar(s[i]) then Some(RunEnd(s, i, WordClass)) else None
  }

  predicate WordAt(s: string, j: int) {
    0 <= j < |s| && IsWordChar(s[j])
  }

  /** `\b`: a word character on exactly one side of position `i`. */
  predicate Boundary(s: string, i: nat) {
    WordAt(s, i - 1) != WordAt(s, i)
  }

  /** The regular-expression search: the leftmost position at or after `from`
      where the matcher succeeds, with what it returned there. Positions run
      up to and including `|s|`, as a pattern may match the empty suffix. */
  function FirstMatch<T>(s: string, from: nat, m: (string, nat) -> Option<T>): (r: Option<(nat, T)>)
    ensures r.Some? ==> from <= r.value.0 <= |s| && m(s, r.value.0) == Some(r.value.1)
    ensures r.Some? ==> forall q :: from <= q < r.value.0 ==> m(s, q).None?
    ensures r.None? ==> forall q :: from <= q <= |s| ==> m(s, q).None?
    decreases |s| + 1 - from
  {
    if from > |s| then None
    else match m(s, from)
      case Some(v) => Some((from, v))
      case None => FirstMatch(s, from + 1, m)
  }

  /** `v` is what the leftmost match of `m` in `s` returns, at position `p`. */
  ghost predicate LeftmostAt<T>(s: string, m: (string, nat) -> Option<T>, p: nat, v: T) {
    p <= |s| && m(s, p) == Some(v) && forall q :: 0 <= q < p ==> m(s, q).None?
  }

  /** A position where the matcher succeeds, with no success before it, is
      where the search stops. */
  lemma FirstMatchAt<T>(s: string, from: nat, m: (string, nat) -> Option<T>, p: nat)
    requires from <= p <= |s| && m(s, p).Some?
    requires forall q :: from <= q < p ==> m(s, q).None?
    ensures FirstMatch(s, from, m) == Some((p, m(s, p).value))
  {
  }

  /** `RegExp.prototype.test`: the matcher succeeds somewhere in the text. */
  predicate Occurs<T>(s: string, m: (string, nat) -> Option<T>) {
    exists p :: 0 <= p <= |s| && m(s, p).Some?
  }

  /** The search finds a match exactly when the pattern occurs. */
  lemma FirstMatchFindsOccurrence<T>(s: string, m: (string, nat) -> Option<T>)
    ensures FirstMatch(s, 0, m).Some? <==> Occurs(s, m)
  {
  }

  /** `\)\s*=>`: a closing parenthesis followed by an arrow. */
  function ArrowCloseAt(s: string, j: nat): (r: Option<nat>)
    ensures r.Some? ==> j < |s| && s[j] == ')' && r.value <= |s|
  {
    var a :- Char(s, j, ')');
    Lit(s, Spaces(s, a), "=>")
  }

  /** `\)` */
  function CloseAt(s: string, j: nat): Option<nat> {
    Char(s, j, ')')
  }

  /** `\(` */
  function OpenAt(s: string, j: nat): Option<nat> {
    Char(s, j, '(')
  }

  /** The last position in `lo..hi` (inclusive) where the matcher succeeds. */
  function LastMatch<T>(s: string, lo: nat, hi: nat, m: (string, nat) -> Option<T>): (r: Option<(nat, T)>)
    requires lo <= hi
    ensures r.Some? ==> lo <= r.value.0 <= hi && m(s, r.value.0) == Some(r.value.1)
    ensures r.Some? ==> forall q :: r.value.0 < q <= hi ==> m(s, q).None?
    ensures r.None? ==> forall q :: lo <= q <= hi ==> m(s, q).None?
    decreases hi - lo
  {
    match m(s, hi)
    case Some(v) => Some((hi, v))
    case None => if hi == lo then None else LastMatch(s, lo, hi - 1, m)
  }

  /** `.*` followed by `m`: the dots are greedy and stop at a line
      terminator, so `m` is tried from the end of the terminator-free run back
      towards `i`, and the first (rightmost) success is the match. */
  function GreedyDotsThen<T>(s: string, i: nat, m: (string, nat) -> Option<T>): (r: Option<(nat, T)>)
    requires i <= |s|
    ensures r.Some? ==> i <= r.value.0 <= |s| && m(s, r.value.0) == Some(r.value.1)
    ensures r.Some? ==> forall k :: i <= k < r.value.0 ==> !IsLineTerminator(s[k])
    ensures r.None? ==> forall j :: i <= j <= |s| && m(s, j).Some? ==> exists k :: i <= k < j && IsLineTerminator(s[k])
  {
    var lim := RunEnd(s, i, DotClass);
    LastMatch(s, i, lim, m)
  }
}
