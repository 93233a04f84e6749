/** `File.getLinkedCodeConstructInfo` (src/utils/file.ts:61-87): links a
    documentation comment to the code that follows it. The file's content is
    a parameter here; the source reads it from disk once, in the constructor. */
module File {
  import opened Wrappers
  import opened Text
  import opened ConstructClassifier

  /** A position the comment parser reports. `None` stands for a value that
      is missing or is not a number. */
  datatype SourceLocation = SourceLocation(line: Option<int>, column: Option<int>)

  /** The part of a parsed comment the linker reads. */
  datatype Comment = Comment(startLocation: Option<SourceLocation>, endLocation: Option<SourceLocation>)

  /** The three shapes of the returned object:
      `NoLocation` is `{type: null, name: null}`,
      `NoFollowingLine` is `{type: 'other', name: 'other'}`, and
      `Linked` is `{type, name, nextLines}`. */
  datatype ConstructInfo =
    | NoLocation
    | NoFollowingLine
    | Linked(kind: ConstructKind, name: Option<string>, nextLines: seq<string>)

  /** The `type` field as the documentation writer sees it. */
  function TypeField(info: ConstructInfo): Option<string> {
    match info
    case NoLocation => None
    case NoFollowingLine => Some("other")
    case Linked(kind, _, _) => Some(KindName(kind))
  }

  /** The `name` field as the documentation writer sees it. */
  function NameField(info: ConstructInfo): Option<string> {
    match info
    case NoLocation => None
    case NoFollowingLine => Some("other")
    case Linked(_, name, _) => name
  }

  /** Both locations are present and both carry a numeric line. */
  predicate HasLineNumbers(c: Comment) {
    && c.startLocation.Some? && c.endLocation.Some?
    && c.startLocation.value.line.Some? && c.endLocation.value.line.Some?
  }

  function EndLine(c: Comment): int
    requires HasLineNumbers(c)
  {
    c.endLocation.value.line.value
  }

  /** The source reads `lines[endLine - 1]` before anything else; with an end
      line below 1 that element is `undefined` and `.trim()` throws. Lines
      are 1-based, so a well-formed comment always meets this. */
  predicate EndLineIsReadable(c: Comment) {
    HasLineNumbers(c) ==> EndLine(c) >= 1
  }

  /** The number of lines after the comment that are examined. */
  const WindowSize: nat := 5

  /** `xs.slice(a, b)` for non-negative bounds: both are clipped to the length. */
  function Slice<T>(xs: seq<T>, a: nat, b: nat): (r: seq<T>)
    ensures a <= |xs| && a <= b ==> |r| == (if b <= |xs| then b else |xs|) - a
    ensures forall k :: 0 <= k < |r| ==> a + k < |xs| && r[k] == xs[a + k]
  {
    var hi := if b <= |xs| then b else |xs|;
    var lo := if a <= hi then a else hi;
    xs[lo..hi]
  }

  /** `xs.map(line => line.trim())` */
  function TrimAll(xs: seq<string>): (r: seq<string>)
    ensures |r| == |xs|
    ensures forall k :: 0 <= k < |r| ==> r[k] == Trim(xs[k])
  {
    if xs == [] then [] else [Trim(xs[0])] + TrimAll(xs[1..])
  }

  /** `window` is lines `first`, `first + 1`, ... of `lines`, each trimmed. */
  predicate TrimmedFrom(window: seq<string>, lines: seq<string>, first: nat) {
    && first + |window| <= |lines|
    && forall k :: 0 <= k < |window| ==> window[k] == Trim(lines[first + k])
  }

  /** The trimmed lines after the comment's last line, at most five of
      them, and at least one since the comment does not end on the last
      line. The comment's own last line is not part of the window. */
  function NextLines(lines: seq<string>, lastLineIndex: nat): (window: seq<string>)
    requires lastLineIndex < |lines| - 1
    ensures 1 <= |window| <= WindowSize
    ensures |window| == if |lines| - 1 - lastLineIndex < WindowSize then |lines| - 1 - lastLineIndex else WindowSize
    ensures TrimmedFrom(window, lines, lastLineIndex + 1)
  {
    TrimAll(Slice(lines, lastLineIndex + 1, lastLineIndex + 6))
  }

  /** The result for a window: the lines are joined without a separator,
      and kind and name are both computed from that one text. */
  function Classified(window: seq<string>): (info: ConstructInfo)
    ensures info.Linked? && info.nextLines == window
    ensures info.kind == ConstructType(Join(window, []))
    ensures info.name == ConstructName(Join(window, []))
  {
    var text := Join(window, []);
    Linked(ConstructType(text), ConstructName(text), window)
  }

  /** `getLinkedCodeConstructInfo` (file.ts:61-87). */
  function LinkedCodeConstructInfo(fileContent: string, comment: Comment): (info: ConstructInfo)
    requires EndLineIsReadable(comment)
    // no location, or a line that is not a number: the null sentinel
    ensures info == NoLocation <==> !HasLineNumbers(comment)
    // the comment ends on the file's last line, or beyond: the 'other' sentinel
    ensures HasLineNumbers(comment) ==>
      (info == NoFollowingLine <==> EndLine(comment) >= |Split(fileContent, '\n')|)
    // otherwise kind and name both come from the same joined window of following lines
    ensures info.Linked? ==>
      var lines := Split(fileContent, '\n');
      && HasLineNumbers(comment) && EndLine(comment) < |lines|
      && 1 <= |info.nextLines| <= WindowSize
      && |info.nextLines| == (if |lines| - EndLine(comment) < WindowSize then |lines| - EndLine(comment) else WindowSize)
      && TrimmedFrom(info.nextLines, lines, EndLine(comment))
      && info == Classified(info.nextLines)
  {
    if HasLineNumbers(comment) then LinkFromEndLine(fileContent, EndLine(comment)) else NoLocation
  }

  /** The part of getLinkedCodeConstructInfo after the location checks
      (file.ts:69-82). */
  function LinkFromEndLine(fileContent: string, endLine: int): (info: ConstructInfo)
    requires endLine >= 1
    ensures info != NoLocation
    ensures info == NoFollowingLine <==> endLine >= |Split(fileContent, '\n')|
    ensures info.Linked? ==>
      var lines := Split(fileContent, '\n');
      && 1 <= |info.nextLines| <= WindowSize
      && |info.nextLines| == (if |lines| - endLine < WindowSize then |lines| - endLine else WindowSize)
      && TrimmedFrom(info.nextLines, lines, endLine)
      && info == Classified(info.nextLines)
  {
    match FollowingWindow(Split(fileContent, '\n'), endLine)
    case None => NoFollowingLine
    case Some(window) => Classified(window)
  }

  /** The window after the comment's last line, `endLine - 1`, or `None`
      when that is the file's last line or lies beyond it. */
  function FollowingWindow(lines: seq<string>, endLine: int): (window: Option<seq<string>>)
    requires endLine >= 1
    ensures window.None? <==> endLine >= |lines|
    // otherwise five lines, or all that remain when fewer do, from `endLine` on
    ensures window.Some? ==>
      && |window.value| == (if |lines| - endLine < WindowSize then |lines| - endLine else WindowSize)
      && TrimmedFrom(window.value, lines, endLine)
  {
    var lastLineIndex := endLine - 1;
    if lastLineIndex < |lines| - 1 then Some(NextLines(lines, lastLineIndex)) else None
  }

  /** Only the end line is consulted: the columns are not, and of the start
      location only its presence and that of its line are. */
  lemma LinkReadsOnlyEndLine(fileContent: string, c1: Comment, c2: Comment)
    requires EndLineIsReadable(c1)
    requires HasLineNumbers(c1) <==> HasLineNumbers(c2)
    requires HasLineNumbers(c1) ==> EndLine(c1) == EndLine(c2)
    ensures EndLineIsReadable(c2)
    ensures LinkedCodeConstructInfo(fileContent, c1) == LinkedCodeConstructInfo(fileContent, c2)
  {
  }

  /** Only the lines after the comment's last line matter: two files with the
      same number of lines that agree from the comment's end line on give the
      same result, whatever the comment's own lines hold. */
  lemma LinkReadsOnlyFollowingLines(content1: string, content2: string, comment: Comment)
    requires HasLineNumbers(comment) && EndLine(comment) >= 1
    requires |Split(content1, '\n')| == |Split(content2, '\n')|
    requires forall i :: EndLine(comment) <= i < |Split(content1, '\n')| ==>
      Split(content1, '\n')[i] == Split(content2, '\n')[i]
    ensures LinkedCodeConstructInfo(content1, comment) == LinkedCodeConstructInfo(content2, comment)
  {
    FollowingWindowAgrees(Split(content1, '\n'), Split(content2, '\n'), EndLine(comment));
  }

  /** The same, for the file already split into lines. */
  lemma FollowingWindowAgrees(lines1: seq<string>, lines2: seq<string>, endLine: int)
    requires endLine >= 1 && |lines1| == |lines2|
    requires forall i :: endLine <= i < |lines1| ==> lines1[i] == lines2[i]
    ensures FollowingWindow(lines1, endLine) == FollowingWindow(lines2, endLine)
  {
    if endLine - 1 < |lines1| - 1 {
      WindowsAgree(lines1, lines2, endLine - 1);
    }
  }

  lemma WindowsAgree(lines1: seq<string>, lines2: seq<string>, lastLineIndex: nat)
    requires |lines1| == |lines2| && lastLineIndex < |lines1| - 1
    requires forall i :: lastLineIndex < i < |lines1| ==> lines1[i] == lines2[i]
    ensures NextLines(lines1, lastLineIndex) == NextLines(lines2, lastLineIndex)
  {
  }

  /** The writer can tell the sentinels apart: the pair ('other', 'other')
      comes only from a comment at the end of the file, since a window the
      classifier finds nothing in gets the kind 'other' with no name, and
      (null, null) comes only from a comment without line numbers. */
  lemma SentinelsAreDistinct(fileContent: string, comment: Comment)
    requires EndLineIsReadable(comment)
    ensures var info := LinkedCodeConstructInfo(fileContent, comment);
      (TypeField(info) == Some("other") && NameField(info) == Some("other")) <==> info == NoFollowingLine
    ensures var info := LinkedCodeConstructInfo(fileContent, comment);
      TypeField(info).None? <==> info == NoLocation
  {
  }
}
