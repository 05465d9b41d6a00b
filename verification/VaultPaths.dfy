/** Vault-relative paths as the instruction gate takes them. */
module VaultPaths {
  import opened Options

  /** The parts between separators; a text without any has one part. */
  function Split(path: string): (parts: seq<string>)
    ensures parts != []
  {
    if path == [] then [""]
    else
      var rest := Split(path[1..]);
      if path[0] == '/' then [""] + rest else [[path[0]] + rest[0]] + rest[1..]
  }

  function Join(parts: seq<string>): string {
    if parts == [] then "" else if |parts| == 1 then parts[0] else parts[0] + "/" + Join(parts[1..])
  }

  function Slashes(path: string): string {
    if path == [] then [] else [if path[0] == '\\' then '/' else path[0]] + Slashes(path[1..])
  }

  /** Leaves out empty parts. */
  function Filled(parts: seq<string>): seq<string> {
    if parts == [] then [] else (if parts[0] == "" then [] else [parts[0]]) + Filled(parts[1..])
  }

  /** The parts kept: a first "." of several is tolerated, and separators may be repeated. */
  function Segments(path: string): seq<string> {
    var all := Split(Slashes(path));
    if all[0] == "." && |all| > 1 then Filled(all[1..]) else Filled(all)
  }

  /** The letters a case-insensitive "a" to "z" matches: those of both cases, the long s and the Kelvin sign. */
  predicate IsLetter(c: char) { 'a' <= c <= 'z' || 'A' <= c <= 'Z' || c == '\U{017F}' || c == '\U{212A}' }

  predicate IsDrive(part: string) { |part| == 2 && part[1] == ':' && IsLetter(part[0]) }

  predicate AcceptedSegments(segments: seq<string>) {
    && (forall i :: 0 <= i < |segments| ==> segments[i] != "." && segments[i] != "..")
    && |segments| <= 64 && (segments != [] ==> !IsDrive(segments[0]))
  }

  /** The canonical path, or None when the text cannot be a vault path. */
  function NormalizeVaultPath(path: string): Option<string> {
    if |path| > 4096 || '\0' in path then None
    else
      var segments := Segments(path);
      if AcceptedSegments(segments) then Some(Join(segments)) else None
  }

  // -------------------------------------------------------------------------
  // A canonical path is its own canonical form
  // -------------------------------------------------------------------------

  predicate Plain(part: string) { part != "" && '/' !in part && '\\' !in part }

  predicate AllPlain(parts: seq<string>) { forall i :: 0 <= i < |parts| ==> Plain(parts[i]) }

  lemma {:induction false} SplitPlain(path: string)
    requires '\\' !in path
    ensures forall i :: 0 <= i < |Split(path)| ==> '/' !in Split(path)[i] && '\\' !in Split(path)[i]
  {
    if path != [] { SplitPlain(path[1..]); }
  }

  lemma {:induction false} SlashesGone(path: string)
    ensures '\\' !in Slashes(path)
  {
    if path != [] { SlashesGone(path[1..]); }
  }

  lemma {:induction false} SlashesSame(path: string)
    requires '\\' !in path
    ensures Slashes(path) == path
  {
    if path != [] { SlashesSame(path[1..]); }
  }

  lemma {:induction false} FilledPlain(parts: seq<string>)
    requires forall i :: 0 <= i < |parts| ==> '/' !in parts[i] && '\\' !in parts[i]
    ensures AllPlain(Filled(parts))
  {
    if parts != [] { FilledPlain(parts[1..]); }
  }

  lemma {:induction false} FilledSame(parts: seq<string>)
    requires AllPlain(parts)
    ensures Filled(parts) == parts
  {
    if parts != [] {
      assert AllPlain(parts[1..]);
      FilledSame(parts[1..]);
    }
  }

  lemma {:induction false} SplitPart(part: string)
    requires '/' !in part
    ensures Split(part) == [part]
  {
    if part != [] {
      SplitPart(part[1..]);
      assert [part[0]] + part[1..] == part;
    }
  }

  lemma {:induction false} SplitHead(part: string, rest: string)
    requires '/' !in part
    ensures Split(part + ("/" + rest)) == [part] + Split(rest)
  {
    if part == [] {
      assert part + ("/" + rest) == "/" + rest && ("/" + rest)[1..] == rest;
    } else {
      var whole := part + ("/" + rest);
      assert whole[0] == part[0] && whole[1..] == part[1..] + ("/" + rest);
      SplitHead(part[1..], rest);
      assert ([part[1..]] + Split(rest))[1..] == Split(rest);
      assert [part[0]] + part[1..] == part;
    }
  }

  /** Joining parts without separators and splitting again gives the parts. */
  lemma {:induction false} SplitJoin(parts: seq<string>)
    requires AllPlain(parts) && parts != []
    ensures Split(Join(parts)) == parts && '\\' !in Join(parts)
  {
    if |parts| == 1 {
      SplitPart(parts[0]);
    } else {
      var rest := parts[1..];
      SplitJoin(rest);
      assert Plain(parts[0]);
      SplitHead(parts[0], Join(rest));
      assert parts[0] + "/" + Join(rest) == parts[0] + ("/" + Join(rest));
    }
  }

  lemma SegmentsPlain(path: string)
    ensures AllPlain(Segments(path))
  {
    SlashesGone(path);
    SplitPlain(Slashes(path));
    FilledPlain(Split(Slashes(path)));
    FilledPlain(Split(Slashes(path))[1..]);
  }

  /** The segments of a canonical path are its parts, none of them empty or a step up. */
  lemma CanonicalSegments(path: string)
    requires NormalizeVaultPath(path).Some?
    ensures var canonical := NormalizeVaultPath(path).value;
            && Segments(canonical) == Segments(path) && AcceptedSegments(Segments(canonical)) && AllPlain(Segments(canonical))
            && canonical == Join(Segments(canonical))
  {
    var segments := Segments(path);
    SegmentsPlain(path);
    if segments != [] {
      SplitJoin(segments);
      SlashesSame(Join(segments));
      FilledSame(segments);
    }
  }

  lemma {:induction false} JoinSize(parts: seq<string>)
    requires parts != []
    ensures forall c :: c in Join(parts) ==> c == '/' || exists i :: 0 <= i < |parts| && c in parts[i]
    ensures |Join(parts)| == Total(parts) + |parts| - 1
  {
    if |parts| > 1 {
      JoinSize(parts[1..]);
      forall c | c in Join(parts) ensures c == '/' || exists i :: 0 <= i < |parts| && c in parts[i] {
        if c !in parts[0] && c != '/' {
          assert c in Join(parts[1..]);
          var i :| 0 <= i < |parts[1..]| && c in parts[1..][i];
          assert c in parts[i + 1];
        }
      }
    }
  }

  function Total(parts: seq<string>): nat { if parts == [] then 0 else |parts[0]| + Total(parts[1..]) }

  lemma {:induction false} SplitSize(path: string)
    ensures Total(Split(path)) + |Split(path)| - 1 == |path|
    ensures forall i, c :: 0 <= i < |Split(path)| && c in Split(path)[i] ==> c in path
  {
    if path != [] {
      var rest := Split(path[1..]);
      SplitSize(path[1..]);
      assert path == [path[0]] + path[1..];
      forall i, c | 0 <= i < |Split(path)| && c in Split(path)[i] ensures c in path {
        if path[0] == '/' && i > 0 { assert c in rest[i - 1]; }
        if path[0] != '/' && i > 0 { assert c in rest[i]; }
        if path[0] != '/' && i == 0 { assert c == path[0] || c in rest[0]; }
      }
    }
  }

  lemma {:induction false} FilledSize(parts: seq<string>)
    ensures Total(Filled(parts)) == Total(parts) && |Filled(parts)| <= |parts|
    ensures forall i, c :: 0 <= i < |Filled(parts)| && c in Filled(parts)[i] ==> exists j :: 0 <= j < |parts| && c in parts[j]
  {
    if parts != [] {
      FilledSize(parts[1..]);
      assert parts[0] != "" ==> Filled(parts)[1..] == Filled(parts[1..]);
      assert parts[0] == "" ==> Filled(parts) == Filled(parts[1..]);
      forall i, c | 0 <= i < |Filled(parts)| && c in Filled(parts)[i] ensures exists j :: 0 <= j < |parts| && c in parts[j] {
        if parts[0] == "" || i > 0 {
          var k := if parts[0] == "" then i else i - 1;
          assert Filled(parts)[i] == Filled(parts[1..])[k];
          var j :| 0 <= j < |parts[1..]| && c in parts[1..][j];
          assert c in parts[j + 1];
        }
      }
    }
  }

  lemma {:induction false} SlashesSize(path: string)
    ensures |Slashes(path)| == |path| && ('\0' !in path ==> '\0' !in Slashes(path))
  {
    if path != [] { SlashesSize(path[1..]); }
  }

  /** Canonical paths never grow and gain no character. */
  lemma SegmentsFit(path: string)
    requires Segments(path) != []
    ensures |Join(Segments(path))| <= |path| && ('\0' !in path ==> '\0' !in Join(Segments(path)))
  {
    var all := Split(Slashes(path));
    var kept := if all[0] == "." && |all| > 1 then all[1..] else all;
    SlashesSize(path);
    SplitSize(Slashes(path));
    FilledSize(kept);
    JoinSize(Segments(path));
    forall i, c | 0 <= i < |Segments(path)| && c in Segments(path)[i] ensures c in Slashes(path) {
      var j :| 0 <= j < |kept| && c in kept[j];
      assert c in all[if |kept| < |all| then j + 1 else j];
    }
  }

  /** Normalizing a canonical path changes nothing. */
  lemma NormalizeTwice(path: string)
    requires NormalizeVaultPath(path).Some?
    ensures NormalizeVaultPath(NormalizeVaultPath(path).value) == NormalizeVaultPath(path)
  {
    CanonicalSegments(path);
    if Segments(path) != [] { SegmentsFit(path); }
  }
}
