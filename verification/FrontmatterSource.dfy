/** Reading the frontmatter block of a note as lines, top-level keys and the lines each key owns. */
module FrontmatterSource {
  import opened Options
  import opened JsonValues
  import opened TextLines

  /**
   What the runtime and the YAML library supply: character classes, case folding, the scan for YAML
   features, the YAML reader, and JSON rendering.
   */
  datatype Platform = Platform(
    first: char -> bool, more: char -> bool, space: char -> bool, terminator: char -> bool, fold: string -> string,
    scan: seq<string> -> Option<Features>, mapping: string -> bool,
    canonical: Json -> bool, json: Json -> string, bytes: string -> nat)

  /** Lines that head a block scalar, and lines touched by a quoted scalar of several lines. */
  datatype Features = Features(blockScalars: set<nat>, quoted: set<nat>)

  ghost predicate Conventional(p: Platform) {
    && (forall c :: p.first(c) ==> p.more(c) && !p.space(c) && c != '-')
    && (forall c :: p.more(c) ==> c !in {':', '#', '\n', '\r', ' ', '\t'})
    && p.terminator('\n') && p.terminator('\r') && !p.terminator(' ')
  }

  // -------------------------------------------------------------------------
  // Lines
  // -------------------------------------------------------------------------

  function DropLast(text: string, c: char): string {
    if text != [] && text[|text| - 1] == c then text[..|text| - 1] else text
  }

  /** The line without its ending. */
  function Content(raw: string): string { DropLast(DropLast(raw, '\n'), '\r') }

  function Contents(lines: seq<string>): seq<string> {
    seq(|lines|, i requires 0 <= i < |lines| => Content(lines[i]))
  }

  // -------------------------------------------------------------------------
  // Kinds of lines
  // -------------------------------------------------------------------------

  function FirstVisible(p: Platform, text: string): Option<char> {
    if text == [] then None else if p.space(text[0]) then FirstVisible(p, text[1..]) else Some(text[0])
  }

  predicate CommentText(p: Platform, text: string) { FirstVisible(p, text) == Some('#') }

  predicate SeparatorText(p: Platform, text: string) { FirstVisible(p, text).None? || CommentText(p, text) }

  predicate IsComment(p: Platform, raw: string) { CommentText(p, Content(raw)) }

  predicate IsSeparator(p: Platform, raw: string) { SeparatorText(p, Content(raw)) }

  /** Length of the longest run of key characters at the start. */
  function KeyLength(p: Platform, text: string): (n: nat)
    ensures n <= |text|
  {
    if text != [] && p.more(text[0]) then 1 + KeyLength(p, text[1..]) else 0
  }

  predicate OneLine(p: Platform, text: string) { forall i :: 0 <= i < |text| ==> !p.terminator(text[i]) }

  predicate BareKey(p: Platform, key: string) { key != [] && p.first(key[0]) && KeyLength(p, key) == |key| }

  function TopLevelKey(p: Platform, text: string): Option<string> {
    var n := KeyLength(p, text);
    if 0 < n < |text| && p.first(text[0]) && text[n] == ':' && OneLine(p, text[n + 1..]) then Some(text[..n]) else None
  }

  datatype Kind = Separator | Indented | Key(key: string) | Unsupported

  function KindOfText(p: Platform, text: string): Kind {
    if SeparatorText(p, text) then Separator
    else if text != [] && text[0] in {' ', '\t'} then Indented
    else match TopLevelKey(p, text) case Some(key) => Key(key) case None => Unsupported
  }

  function KindOf(p: Platform, raw: string): Kind { KindOfText(p, Content(raw)) }

  // -------------------------------------------------------------------------
  // Entries
  // -------------------------------------------------------------------------

  datatype Reason =
    | Missing | Unclosed | YamlUnsupported | YamlInvalid | LayoutUnsupported | TopLevelUnsupported | DuplicateKey
    | EmptyPatch | TooManyOperations | KeyUnsupported | DuplicateTarget | ValueUnsupported | ValueTooLarge
    | BlockScalar | QuotedScalar | KeyMissing | AmbiguousComment | Overlap | BodyDrift

  datatype Result<+T> = Ok(value: T) | Fail(reason: Reason)

  datatype StartLine = StartLine(key: string, line: nat)

  predicate HasFold(p: Platform, starts: seq<StartLine>, fold: string) {
    exists i :: 0 <= i < |starts| && p.fold(starts[i].key) == fold
  }

  /** The starts once line `n` is seen. */
  function NextStarts(p: Platform, before: seq<StartLine>, kind: Kind, n: nat): Result<seq<StartLine>> {
    match kind
    case Separator => Ok(before)
    case Indented => if before == [] then Fail(LayoutUnsupported) else Ok(before)
    case Unsupported => Fail(TopLevelUnsupported)
    case Key(key) =>
      if HasFold(p, before, p.fold(key)) then Fail(DuplicateKey) else Ok(before + [StartLine(key, n)])
  }

  /** The lines that start a top-level key, unless the layout is outside the supported subset. */
  function Starts(p: Platform, lines: seq<string>): Result<seq<StartLine>> {
    if lines == [] then Ok([])
    else
      var n := |lines| - 1;
      var before := Starts(p, lines[..n]);
      if before.Fail? then before else NextStarts(p, before.value, KindOf(p, lines[n]), n)
  }

  /** A key and the lines `first..last` it owns; the flags say what makes editing it unsafe. */
  datatype Entry = Entry(key: string, first: nat, last: nat, blockScalar: bool, quoted: bool, leadingComment: bool, trailingComment: bool)

  /** The end of the lines from `from` once trailing separators are left out. */
  function TrimEnd(p: Platform, lines: seq<string>, from: nat, to: nat): (end: nat)
    requires to <= |lines|
    ensures end <= to && (from <= to ==> from <= end)
  {
    if from < to && IsSeparator(p, lines[to - 1]) then TrimEnd(p, lines, from, to - 1) else to
  }

  predicate AnyComment(p: Platform, lines: seq<string>, from: nat, to: nat)
    requires to <= |lines|
  {
    exists i :: from <= i < to && IsComment(p, lines[i])
  }

  /** Whether a comment stands in the run of separators that ends right before `to`. */
  predicate CommentAbove(p: Platform, lines: seq<string>, to: nat)
    requires to <= |lines|
  {
    AnyComment(p, lines, TrimEnd(p, lines, 0, to), to)
  }

  function NextStart(lines: seq<string>, starts: seq<StartLine>, i: nat): nat {
    if i + 1 < |starts| then starts[i + 1].line else |lines|
  }

  ghost predicate StartsInside(lines: seq<string>, starts: seq<StartLine>) {
    && (forall i :: 0 <= i < |starts| ==> starts[i].line < |lines|)
    && (forall i, j :: 0 <= i < j < |starts| ==> starts[i].line < starts[j].line)
  }

  function EntryAt(p: Platform, lines: seq<string>, features: Features, starts: seq<StartLine>, i: nat): Entry
    requires StartsInside(lines, starts) && i < |starts|
  {
    var first, next := starts[i].line, NextStart(lines, starts, i);
    var last := TrimEnd(p, lines, first + 1, next);
    Entry(starts[i].key, first, last,
          exists k :: first <= k < next && k in features.blockScalars,
          exists k :: first <= k < next && k in features.quoted,
          CommentAbove(p, lines, first),
          AnyComment(p, lines, last, next))
  }

  function Entries(p: Platform, lines: seq<string>, features: Features, starts: seq<StartLine>, n: nat): seq<Entry>
    requires StartsInside(lines, starts) && n <= |starts|
  {
    seq(n, i requires 0 <= i < n => EntryAt(p, lines, features, starts, i))
  }

  lemma {:induction false} StartsAreInside(p: Platform, lines: seq<string>)
    requires Starts(p, lines).Ok?
    ensures StartsInside(lines, Starts(p, lines).value)
  {
    if lines != [] { StartsAreInside(p, lines[..|lines| - 1]); }
  }

  // -------------------------------------------------------------------------
  // The block
  // -------------------------------------------------------------------------

  function Opening(content: string): Option<string> {
    if |content| >= 4 && content[..4] == "---\n" then Some("---\n")
    else if |content| >= 5 && content[..5] == "---\r\n" then Some("---\r\n")
    else None
  }

  function ClosingLine(lines: seq<string>): Option<nat> {
    if lines == [] then None
    else if Content(lines[0]) == "---" then Some(0)
    else match ClosingLine(lines[1..]) case None => None case Some(i) => Some(i + 1)
  }

  predicate IsAt(text: string, part: string, i: nat) { i + |part| <= |text| && text[i..i + |part|] == part }

  predicate Includes(text: string, part: string) { exists i :: 0 <= i <= |text| && IsAt(text, part, i) }

  /** The block as lines; the note is `opening + Flatten(lines) + closing + body`. */
  datatype Source = Source(
    opening: string, lines: seq<string>, closing: string, body: string, eol: string,
    entries: seq<Entry>, appendLine: nat, trailingComment: bool)

  function Eol(opening: string, source: string): string
    requires opening == "---\n" || opening == "---\r\n"
  {
    if Includes(source, "\n") && !Includes(source, "\r\n") then "\n" else opening[3..]
  }

  /** What the YAML library and the scan of the keys say of the lines of a block. */
  function ReadStarts(p: Platform, lines: seq<string>): Result<(Features, seq<StartLine>)> {
    var scanned := p.scan(Contents(lines));
    if scanned.None? then Fail(YamlUnsupported)
    else if !p.mapping(Flatten(lines)) then Fail(YamlInvalid)
    else
      var starts := Starts(p, lines);
      if starts.Fail? then Fail(starts.reason) else Ok((scanned.value, starts.value))
  }

  function Assemble(p: Platform, opening: string, lines: seq<string>, closing: string, body: string, features: Features, starts: seq<StartLine>): Source
    requires (opening == "---\n" || opening == "---\r\n") && StartsInside(lines, starts)
  {
    var append := TrimEnd(p, lines, 0, |lines|);
    Source(opening, lines, closing, body, Eol(opening, Flatten(lines)), Entries(p, lines, features, starts, |starts|),
           append, AnyComment(p, lines, append, |lines|))
  }

  function ParseBlock(p: Platform, opening: string, lines: seq<string>, closing: string, body: string): Result<Source>
    requires opening == "---\n" || opening == "---\r\n"
  {
    var found := ReadStarts(p, lines);
    if found.Fail? then Fail(found.reason)
    else
      StartsAreInside(p, lines);
      Ok(Assemble(p, opening, lines, closing, body, found.value.0, found.value.1))
  }

  function Parse(p: Platform, content: string): Result<Source> {
    var opening := Opening(content);
    if opening.None? then Fail(Missing)
    else
      var rest := RawLines(content[|opening.value|..]);
      var closing := ClosingLine(rest);
      if closing.None? || closing.value >= |rest| then Fail(Unclosed)
      else ParseBlock(p, opening.value, rest[..closing.value], rest[closing.value], Flatten(rest[closing.value + 1..]))
  }
}
