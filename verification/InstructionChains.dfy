/** Which files are probed for a target, said of the characters of paths: the configured files of every folder above it. */
module InstructionChains {
  import opened Options
  import opened VaultPaths
  import opened InstructionRules

  /** The root, every part of the path that ends before a separator, and of a folder the folder itself. */
  predicate FolderAbove(dir: string, path: string, folder: bool) {
    || dir == ""
    || (folder && dir == path)
    || exists j :: 0 <= j < |path| && path[j] == '/' && dir == path[..j]
  }

  predicate SpellingOf(f: Forms, spelling: string, text: string) { spelling == text || spelling == f.nfc(text) || spelling == f.nfd(text) }

  predicate FileIn(file: string, dir: string, name: string) { file == (if dir == "" then name else dir + "/" + name) }

  /** The file has some spelling of a configured name, and stands in a folder above some spelling of the target. */
  ghost predicate Governs(f: Forms, names: seq<string>, target: Target, file: string) {
    exists path: string, dir: string, n: nat, name: string :: GovernsFrom(f, names, target, file, path, dir, n, name)
  }

  predicate GovernsFrom(f: Forms, names: seq<string>, target: Target, file: string, path: string, dir: string, n: nat, name: string) {
    SpellingOf(f, path, target.path) && FolderAbove(dir, path, target.folder) && NamedIn(f, names, dir, file, n, name)
  }

  /** The file stands in the folder under a spelling of the `n`-th configured name. */
  predicate NamedIn(f: Forms, names: seq<string>, dir: string, file: string, n: nat, name: string) {
    n < |names| && SpellingOf(f, name, names[n]) && FileIn(file, dir, name)
  }

  ghost predicate GovernsAny(f: Forms, names: seq<string>, targets: seq<Target>, file: string) {
    exists t :: 0 <= t < |targets| && Governs(f, names, targets[t], file)
  }

  // -------------------------------------------------------------------------
  // Folders
  // -------------------------------------------------------------------------

  /** Where the separator behind the `i`-th part stands. */
  function SlashAt(path: string, i: nat): (j: nat)
    requires i < |Split(path)| - 1
    ensures j < |path| && path[j] == '/'
  {
    if path[0] == '/' then (if i == 0 then 0 else 1 + SlashAt(path[1..], i - 1)) else 1 + SlashAt(path[1..], i)
  }

  lemma {:induction false} PartsJoin(path: string, i: nat)
    requires i < |Split(path)| - 1
    ensures Join(Split(path)[..i + 1]) == path[..SlashAt(path, i)]
  {
    var rest := Split(path[1..]);
    var parts := Split(path)[..i + 1];
    if path[0] == '/' {
      if i == 0 {
        assert parts == [""];
      } else {
        PartsJoin(path[1..], i - 1);
        assert parts[1..] == rest[..i] && parts[0] == "";
        assert path[..SlashAt(path, i)] == "/" + path[1..][..SlashAt(path[1..], i - 1)];
      }
    } else {
      PartsJoin(path[1..], i);
      HeadJoin(path[0], rest[..i + 1]);
      assert parts == [[path[0]] + rest[0]] + rest[..i + 1][1..];
      assert path[..SlashAt(path, i)] == [path[0]] + path[1..][..SlashAt(path[1..], i)];
    }
  }

  lemma HeadJoin(c: char, parts: seq<string>)
    requires parts != []
    ensures Join([[c] + parts[0]] + parts[1..]) == [c] + Join(parts)
  {
    var longer := [[c] + parts[0]] + parts[1..];
    assert longer[1..] == parts[1..];
    if |parts| > 1 { assert [c] + parts[0] + "/" + Join(parts[1..]) == [c] + (parts[0] + "/" + Join(parts[1..])); }
  }

  lemma {:induction false} AllJoin(path: string)
    ensures Join(Split(path)) == path
  {
    if path != [] {
      AllJoin(path[1..]);
      var rest := Split(path[1..]);
      if path[0] == '/' {
        assert ([""] + rest)[1..] == rest;
      } else {
        HeadJoin(path[0], rest);
      }
      assert path == [path[0]] + path[1..];
    }
  }

  /** Every separator ends some part. */
  lemma {:induction false} SlashEnds(path: string, j: nat) returns (i: nat)
    requires j < |path| && path[j] == '/'
    ensures i < |Split(path)| - 1 && SlashAt(path, i) == j
  {
    if j == 0 {
      i := 0;
    } else {
      i := SlashEnds(path[1..], j - 1);
      if path[0] == '/' { i := i + 1; }
    }
  }

  lemma FolderIsAbove(path: string, folder: bool, k: nat)
    requires 0 < k < |Folders(path, folder)|
    ensures FolderAbove(Folders(path, folder)[k], path, folder)
  {
    var segments := Split(path);
    AllJoin(path);
    assert segments[..|segments|] == segments;
    if k < |segments| { PartsJoin(path, k - 1); }
  }

  lemma AboveIsFolder(path: string, folder: bool, j: nat)
    requires j < |path| && path[j] == '/'
    ensures path[..j] in Folders(path, folder)
  {
    var i := SlashEnds(path, j);
    PartsJoin(path, i);
    assert Folders(path, folder)[i + 1] == path[..j];
  }

  lemma ItselfIsFolder(path: string)
    requires path != ""
    ensures path in Folders(path, true)
  {
    var segments := Split(path);
    AllJoin(path);
    assert segments[..|segments|] == segments;
    assert Folders(path, true)[|segments|] == path;
  }

  lemma FoldersAre(path: string, folder: bool, dir: string)
    ensures dir in Folders(path, folder) <==> FolderAbove(dir, path, folder)
  {
    assert Folders(path, folder)[0] == "";
    if k :| 0 < k < |Folders(path, folder)| && Folders(path, folder)[k] == dir { FolderIsAbove(path, folder, k); }
    if folder && dir == path && path != "" { ItselfIsFolder(path); }
    if j :| 0 <= j < |path| && path[j] == '/' && dir == path[..j] { AboveIsFolder(path, folder, j); }
  }

  // -------------------------------------------------------------------------
  // Chains
  // -------------------------------------------------------------------------

  lemma AliasesAre(f: Forms, path: string, x: string)
    ensures x in Aliases(f, path) <==> SpellingOf(f, x, path)
  {
    UniqueItems([path, f.nfc(path), f.nfd(path)]);
  }

  lemma SpellingsAre(f: Forms, dir: string, text: string, x: string)
    ensures x in SpellingsIn(f, dir, text) <==> exists name: string :: SpellingOf(f, name, text) && FileIn(x, dir, name)
  {
    var aliases := Aliases(f, text);
    FlatMapItems(aliases, spelling => [FilePath(dir, spelling)], x);
    if name: string :| SpellingOf(f, name, text) && FileIn(x, dir, name) {
      AliasesAre(f, text, name);
      var i :| 0 <= i < |aliases| && aliases[i] == name;
    }
    if i :| 0 <= i < |aliases| && x in [FilePath(dir, aliases[i])] {
      AliasesAre(f, text, aliases[i]);
      assert FileIn(x, dir, aliases[i]);
    }
  }

  lemma NamesInAre(f: Forms, names: seq<string>, dir: string, x: string)
    ensures x in NamesIn(f, names, dir) <==> exists n: nat, name: string :: NamedIn(f, names, dir, x, n, name)
  {
    FlatMapItems(names, name => SpellingsIn(f, dir, name), x);
    if i :| 0 <= i < |names| && x in SpellingsIn(f, dir, names[i]) {
      SpellingsAre(f, dir, names[i], x);
      var name: string :| SpellingOf(f, name, names[i]) && FileIn(x, dir, name);
      assert NamedIn(f, names, dir, x, i, name);
    }
    if n: nat, name: string :| NamedIn(f, names, dir, x, n, name) {
      SpellingsAre(f, dir, names[n], x);
    }
  }

  predicate NamedAbove(f: Forms, names: seq<string>, path: string, folder: bool, x: string, dir: string, n: nat, name: string) {
    FolderAbove(dir, path, folder) && NamedIn(f, names, dir, x, n, name)
  }

  lemma ChainOfIs(f: Forms, names: seq<string>, path: string, folder: bool, x: string)
    ensures x in ChainOf(f, names, path, folder) <==> exists dir: string, n: nat, name: string :: NamedAbove(f, names, path, folder, x, dir, n, name)
  {
    var folders := Folders(path, folder);
    FlatMapItems(folders, dir => NamesIn(f, names, dir), x);
    if i :| 0 <= i < |folders| && x in NamesIn(f, names, folders[i]) {
      NamesInAre(f, names, folders[i], x);
      FoldersAre(path, folder, folders[i]);
      var n: nat, name: string :| NamedIn(f, names, folders[i], x, n, name);
      assert NamedAbove(f, names, path, folder, x, folders[i], n, name);
    }
    if dir: string, n: nat, name: string :| NamedAbove(f, names, path, folder, x, dir, n, name) {
      FoldersAre(path, folder, dir);
      NamesInAre(f, names, dir, x);
      assert NamedIn(f, names, dir, x, n, name);
      var i :| 0 <= i < |folders| && folders[i] == dir;
    }
  }

  lemma ChainIs(f: Forms, names: seq<string>, target: Target, x: string)
    ensures x in Chain(f, names, target) <==> Governs(f, names, target, x)
  {
    var aliases := Aliases(f, target.path);
    var each := FlatMap(aliases, alias => ChainOf(f, names, alias, target.folder));
    UniqueItems(each);
    FlatMapItems(aliases, alias => ChainOf(f, names, alias, target.folder), x);
    if i :| 0 <= i < |aliases| && x in ChainOf(f, names, aliases[i], target.folder) {
      ChainOfIs(f, names, aliases[i], target.folder, x);
      AliasesAre(f, target.path, aliases[i]);
      var dir: string, n: nat, name: string :| NamedAbove(f, names, aliases[i], target.folder, x, dir, n, name);
      assert GovernsFrom(f, names, target, x, aliases[i], dir, n, name);
    }
    if path: string, dir: string, n: nat, name: string :| GovernsFrom(f, names, target, x, path, dir, n, name) {
      AliasesAre(f, target.path, path);
      ChainOfIs(f, names, path, target.folder, x);
      assert NamedAbove(f, names, path, target.folder, x, dir, n, name);
      var i :| 0 <= i < |aliases| && aliases[i] == path;
    }
  }

  /** The files probed are exactly those with a spelling of a configured name in a folder above a spelling of a target. */
  lemma ProbedIff(f: Forms, names: seq<string>, targets: seq<Target>, x: string)
    ensures x in Chains(f, names, targets) <==> GovernsAny(f, names, targets, x)
  {
    var each := FlatMap(targets, target => Chain(f, names, target));
    UniqueItems(each);
    FlatMapItems(targets, target => Chain(f, names, target), x);
    forall t | 0 <= t < |targets| ensures x in Chain(f, names, targets[t]) <==> Governs(f, names, targets[t], x) {
      ChainIs(f, names, targets[t], x);
    }
  }

  /** The rules of a call name existing governing files with their digests, and cover every existing one, up to spelling. */
  lemma RulesGovern(f: Forms, names: seq<string>, contents: map<string, Option<string>>, targets: seq<Target>)
    ensures var rules := Rules(f, names, contents, Chains(f, names, targets));
            && (forall e :: e in rules ==>
                  GovernsAny(f, names, targets, e.path) && Present(contents, e.path) && e.digest == DigestOf(contents, e.path))
            && (forall x: string :: GovernsAny(f, names, targets, x) && Present(contents, x) ==> Covered(f, rules, x, DigestOf(contents, x)))
  {
    RulesMean(f, names, contents, Chains(f, names, targets));
    forall x: string ensures x in Chains(f, names, targets) <==> GovernsAny(f, names, targets, x) { ProbedIff(f, names, targets, x); }
  }
}
