/**
 * The statement finder: a pre-order walk over the syntax trees of the
 * searched files that hands out consecutive identifiers to the
 * statements it collects and indexes them by file and line.
 *
 * Syntax trees are abstract here: a node says whether it is a statement,
 * whether it has a `body`, its line, and its child nodes in field order.
 * The file system is a parameter: the walk of the source directory, with
 * each file's relative path, suffix and parsed tree.
 */
module Statements {
  import opened Util

  datatype Ast = Ast(isStmt: bool, hasBody: bool, lineno: int, children: seq<Ast>)

  /** `check`: a statement; in line mode, only one without a body. */
  predicate Check(node: Ast, lineMode: bool)
  {
    node.isStmt && (!lineMode || !node.hasBody)
  }

  /** The nodes the walk collects from a tree, in visiting order. */
  function Collect(node: Ast, lineMode: bool): seq<Ast>
    decreases node, 1
  {
    (if Check(node, lineMode) then [node] else []) + CollectAll(node.children, lineMode)
  }

  function CollectAll(nodes: seq<Ast>, lineMode: bool): seq<Ast>
    decreases nodes, 0
  {
    if nodes == [] then []
    else CollectAll(nodes[..|nodes| - 1], lineMode) + Collect(nodes[|nodes| - 1], lineMode)
  }

  /** `s` is `t` or a node nested in it. */
  predicate Within(s: Ast, t: Ast)
    decreases t
  {
    s == t || exists i :: 0 <= i < |t.children| && Within(s, t.children[i])
  }

  /** `s` lies within one of the nodes. */
  predicate WithinAny(s: Ast, nodes: seq<Ast>)
  {
    exists i :: 0 <= i < |nodes| && Within(s, nodes[i])
  }

  /** The walk collects exactly the nodes of the tree that pass `check`. */
  lemma {:induction false} CollectCharacterized(node: Ast, lineMode: bool)
    ensures forall s :: s in Collect(node, lineMode) <==> Within(s, node) && Check(s, lineMode)
    decreases node, 1
  {
    CollectAllCharacterized(node.children, lineMode);
  }

  lemma {:induction false} CollectAllCharacterized(nodes: seq<Ast>, lineMode: bool)
    ensures forall s :: s in CollectAll(nodes, lineMode) <==> WithinAny(s, nodes) && Check(s, lineMode)
    decreases nodes, 0
  {
    if nodes != [] {
      var init, last := nodes[..|nodes| - 1], nodes[|nodes| - 1];
      CollectAllCharacterized(init, lineMode);
      CollectCharacterized(last, lineMode);
      forall s
        ensures WithinAny(s, nodes) <==> WithinAny(s, init) || Within(s, last)
      {
        if WithinAny(s, nodes) {
          var i :| 0 <= i < |nodes| && Within(s, nodes[i]);
          if i < |init| {
            assert init[i] == nodes[i];
          }
        }
        if WithinAny(s, init) {
          var i :| 0 <= i < |init| && Within(s, init[i]);
          assert nodes[i] == init[i];
        }
      }
    }
  }

  /**
   * Pre-order: a collected node comes first, before everything nested in
   * it, and all that follows it lies within one of its children.
   */
  lemma PreOrder(node: Ast, lineMode: bool)
    requires Check(node, lineMode)
    ensures Collect(node, lineMode)[0] == node
    ensures forall q :: 1 <= q < |Collect(node, lineMode)| ==> WithinAny(Collect(node, lineMode)[q], node.children)
  {
    CollectAllCharacterized(node.children, lineMode);
    var all := Collect(node, lineMode);
    forall q | 1 <= q < |all|
      ensures WithinAny(all[q], node.children)
    {
      assert all[q] == CollectAll(node.children, lineMode)[q - 1];
    }
  }

  // -----------------------------------------------------------------------
  // The index

  /** `lines[file][lineno]`: the identifiers of the statements at a line. */
  type Lines = map<string, map<int, seq<int>>>

  /** The two "create if missing" steps and the append of `generic_visit`. */
  function Record(lines: Lines, file: string, lineno: int, id: int): (r: Lines)
    ensures file in r && lineno in r[file]
  {
    var perFile := if file in lines then lines[file] else map[];
    var ids := if lineno in perFile then perFile[lineno] else [];
    lines[file := perFile[lineno := ids + [id]]]
  }

  /** The statements found so far: the node and its file, in identifier order. */
  type Found = seq<(Ast, string)>

  function StatementsOf(found: Found): (r: map<int, Ast>)
    ensures forall q :: q in r <==> 0 <= q < |found|
  {
    map q | 0 <= q < |found| :: found[q].0
  }

  function FilesOf(found: Found): (r: map<int, string>)
    ensures forall q :: q in r <==> 0 <= q < |found|
  {
    map q | 0 <= q < |found| :: found[q].1
  }

  function LinesOf(found: Found): Lines
  {
    if found == [] then map[]
    else
      var n := |found| - 1;
      Record(LinesOf(found[..n]), found[n].1, found[n].0.lineno, n)
  }

  predicate Increasing(ids: seq<int>)
  {
    forall i, j :: 0 <= i < j < |ids| ==> ids[i] < ids[j]
  }

  /** An identifier listed at `lines[file][lineno]` is a statement of that file at that line. */
  predicate ListedAt(found: Found, file: string, lineno: int, id: int)
  {
    0 <= id < |found| && found[id].1 == file && found[id].0.lineno == lineno
  }

  /** A list of the index at `lines[file][lineno]`: increasing, and naming statements of that file and line. */
  predicate SoundList(found: Found, ids: seq<int>, file: string, lineno: int)
  {
    Increasing(ids) && forall q :: 0 <= q < |ids| ==> ListedAt(found, file, lineno, ids[q])
  }

  predicate ListsSound(found: Found, lines: Lines)
  {
    forall f, l :: f in lines && l in lines[f] ==> SoundList(found, lines[f][l], f, l)
  }

  lemma SoundListGrows(found: Found, ids: seq<int>, file: string, lineno: int)
    requires found != [] && SoundList(found[..|found| - 1], ids, file, lineno)
    ensures SoundList(found, ids, file, lineno)
    ensures found[|found| - 1].1 == file && found[|found| - 1].0.lineno == lineno ==>
      SoundList(found, ids + [|found| - 1], file, lineno)
  {
    var n := |found| - 1;
    assert forall q :: 0 <= q < |ids| ==> ids[q] < n && found[ids[q]] == found[..n][ids[q]];
  }

  /** Every list of the line index is increasing and lists statements of its own file and line. */
  lemma {:induction false} LinesListed(found: Found)
    ensures ListsSound(found, LinesOf(found))
  {
    if found != [] {
      var n := |found| - 1;
      var init := found[..n];
      LinesListed(init);
      var before := LinesOf(init);
      var lines := LinesOf(found);
      var (file, lineno) := (found[n].1, found[n].0.lineno);
      assert lines == Record(before, file, lineno, n);
      forall f, l | f in lines && l in lines[f]
        ensures SoundList(found, lines[f][l], f, l)
      {
        if f == file && l == lineno {
          var ids := if f in before && l in before[f] then before[f][l] else [];
          assert lines[f][l] == ids + [n];
          assert SoundList(init, ids, f, l);
          SoundListGrows(found, ids, f, l);
        } else {
          assert f in before && l in before[f] && lines[f][l] == before[f][l];
          assert SoundList(init, before[f][l], f, l);
          SoundListGrows(found, before[f][l], f, l);
        }
      }
    }
  }

  /**
   * Every statement is listed at its own file and line; with the lists
   * naming only statements of their file and line, each identifier is in
   * exactly one list.
   */
  lemma {:induction false} LinesComplete(found: Found)
    ensures var lines := LinesOf(found);
      forall id :: 0 <= id < |found| ==>
        found[id].1 in lines && found[id].0.lineno in lines[found[id].1] && id in lines[found[id].1][found[id].0.lineno]
  {
    if found != [] {
      var n := |found| - 1;
      var init := found[..n];
      LinesComplete(init);
      var before := LinesOf(init);
      var lines := LinesOf(found);
      var (file, lineno) := (found[n].1, found[n].0.lineno);
      assert lines == Record(before, file, lineno, n);
      forall id | 0 <= id < |found|
        ensures found[id].1 in lines && found[id].0.lineno in lines[found[id].1] && id in lines[found[id].1][found[id].0.lineno]
      {
        if id < n {
          assert init[id] == found[id];
          var (f, l) := (found[id].1, found[id].0.lineno);
          var k :| 0 <= k < |before[f][l]| && before[f][l][k] == id;
          if f == file && l == lineno {
            assert lines[f][l] == before[f][l] + [n];
            assert lines[f][l][k] == id;
          } else {
            assert lines[f][l] == before[f][l];
          }
        } else {
          assert lines[file][lineno][|lines[file][lineno]| - 1] == n;
        }
      }
    }
  }

  /** The statements of a tree, each paired with the file it was found in. */
  function Tag(nodes: seq<Ast>, file: string): (r: Found)
    ensures |r| == |nodes| && forall i :: 0 <= i < |nodes| ==> r[i] == (nodes[i], file)
  {
    seq(|nodes|, i requires 0 <= i < |nodes| => (nodes[i], file))
  }

  // -----------------------------------------------------------------------
  // The source

  /** One directory of the walk: its path and the files in it (relative path, suffix, parsed tree). */
  datatype Directory = Directory(path: string, files: seq<SourceFile>)
  datatype SourceFile = SourceFile(path: string, suffix: string, tree: Ast)

  /** The source path: a single file, a directory walked top-down, or neither. */
  datatype Source = SingleFile(suffix: string, tree: Ast) | Tree(walk: seq<Directory>) | Missing

  /** A path matches one of the exclude patterns; `fnmatch` is a parameter. */
  predicate Excluded(path: string, excludes: seq<string>, fnmatch: (string, string) -> bool)
  {
    exists e :: e in excludes && fnmatch(path, e)
  }

  /** The check of `_search_file`: a Python file that no pattern excludes. */
  predicate Searchable(f: SourceFile, excludes: seq<string>, fnmatch: (string, string) -> bool)
  {
    f.suffix == ".py" && !Excluded(f.path, excludes, fnmatch)
  }

  /** The files of one directory that are parsed, in walk order. */
  function SearchedIn(files: seq<SourceFile>, excludes: seq<string>, fnmatch: (string, string) -> bool): seq<SourceFile>
  {
    if files == [] then []
    else
      var init, last := files[..|files| - 1], files[|files| - 1];
      SearchedIn(init, excludes, fnmatch) + (if Searchable(last, excludes, fnmatch) then [last] else [])
  }

  /** A directory's parsed files are its Python files that no pattern excludes. */
  lemma {:induction false} SearchedInCharacterized(files: seq<SourceFile>, excludes: seq<string>, fnmatch: (string, string) -> bool)
    ensures forall f :: f in SearchedIn(files, excludes, fnmatch) <==> f in files && Searchable(f, excludes, fnmatch)
    decreases |files|
  {
    if files != [] {
      var init, last := files[..|files| - 1], files[|files| - 1];
      SearchedInCharacterized(init, excludes, fnmatch);
      assert forall f :: f in files <==> f in init || f == last;
    }
  }

  /** The files of the walk that are parsed: those of directories no pattern excludes. */
  function SearchedWalk(walk: seq<Directory>, excludes: seq<string>, fnmatch: (string, string) -> bool): seq<SourceFile>
  {
    if walk == [] then []
    else
      var init, last := walk[..|walk| - 1], walk[|walk| - 1];
      SearchedWalk(init, excludes, fnmatch) + (if Excluded(last.path, excludes, fnmatch) then [] else SearchedIn(last.files, excludes, fnmatch))
  }

  /**
   * The walk parses exactly the Python files that no pattern excludes, in
   * the directories that no pattern excludes.
   */
  lemma {:induction false} SearchedWalkCharacterized(walk: seq<Directory>, excludes: seq<string>, fnmatch: (string, string) -> bool)
    ensures forall f :: f in SearchedWalk(walk, excludes, fnmatch) <==>
      exists d :: d in walk && !Excluded(d.path, excludes, fnmatch) && f in d.files && Searchable(f, excludes, fnmatch)
    decreases |walk|
  {
    if walk != [] {
      var init, last := walk[..|walk| - 1], walk[|walk| - 1];
      SearchedWalkCharacterized(init, excludes, fnmatch);
      SearchedInCharacterized(last.files, excludes, fnmatch);
      assert forall d :: d in walk <==> d in init || d == last;
    }
  }

  /** What `search_source` parses: a single file is searched under the name ".". */
  function Searched(source: Source, excludes: seq<string>, fnmatch: (string, string) -> bool): seq<SourceFile>
  {
    match source
    case SingleFile(suffix, tree) =>
      SearchedIn([SourceFile(".", suffix, tree)], excludes, fnmatch)
    case Tree(walk) => SearchedWalk(walk, excludes, fnmatch)
    case Missing => []
  }

  /** The statements found in the parsed files, file after file. */
  function FoundIn(files: seq<SourceFile>, lineMode: bool): Found
  {
    if files == [] then []
    else
      var last := files[|files| - 1];
      FoundIn(files[..|files| - 1], lineMode) + Tag(Collect(last.tree, lineMode), last.path)
  }

  /** The trees stored by the parsed files, later ones overwriting earlier ones. */
  function TreesAfter(trees: map<string, Ast>, files: seq<SourceFile>): map<string, Ast>
  {
    if files == [] then trees
    else
      var last := files[|files| - 1];
      TreesAfter(trees, files[..|files| - 1])[last.path := last.tree]
  }

  /** What `build_candidate` hands over: the source path and the four dictionaries. */
  datatype Index = Index(src: string, statements: map<int, Ast>, trees: map<string, Ast>, files: map<int, string>, lines: Lines)

  class StatementFinder {
    const src: string
    const excludes: seq<string>
    const lineMode: bool
    const fnmatch: (string, string) -> bool
    /** The next identifier to hand out. */
    var identifier: int
    var statements: map<int, Ast>
    var lines: Lines
    var trees: map<string, Ast>
    var files: map<int, string>
    var searched: bool
    var currentFile: Option<string>
    /** The statements collected so far, in identifier order, with their file. */
    ghost var found: Found

    /** The dictionaries are the index of the statements found so far. */
    ghost predicate Valid()
      reads this`identifier, this`statements, this`files, this`lines, this`found
    {
      && identifier == |found|
      && statements == StatementsOf(found)
      && files == FilesOf(found)
      && lines == LinesOf(found)
    }

    /** A finder with nothing searched; absent excludes are an empty list. */
    constructor(src: string, excludes: Option<seq<string>>, lineMode: bool, fnmatch: (string, string) -> bool)
      ensures Valid() && found == [] && !searched && currentFile == None && trees == map[]
      ensures this.src == src && this.lineMode == lineMode && this.fnmatch == fnmatch
      ensures this.excludes == (if excludes.Some? then excludes.value else [])
    {
      this.src := src;
      this.excludes := if excludes.Some? then excludes.value else [];
      this.lineMode := lineMode;
      this.fnmatch := fnmatch;
      identifier := 0;
      statements := map[];
      lines := map[];
      trees := map[];
      files := map[];
      searched := false;
      currentFile := None;
      found := [];
    }

    /** `build_candidate`: the index once the source has been searched, SearchError before. */
    function BuildCandidate(): (r: Result<Index>)
      reads this
      requires Valid()
      ensures r.Err? <==> !searched
      ensures r.Err? ==> r.error == SearchError
      ensures r.Ok? ==> r.value.statements.Keys == r.value.files.Keys
      ensures r.Ok? ==> forall q :: q in r.value.statements <==> 0 <= q < identifier
      ensures r.Ok? ==> r.value == Index(src, statements, trees, files, lines)
    {
      if searched then Ok(Index(src, statements, trees, files, lines)) else Err(SearchError)
    }

    /** `next_identifier`: the current identifier, and the counter moves on by one. */
    method NextIdentifier() returns (id: int)
      modifies this
      ensures id == old(identifier) && identifier == old(identifier) + 1
      ensures statements == old(statements) && files == old(files) && lines == old(lines) && trees == old(trees)
      ensures searched == old(searched) && currentFile == old(currentFile) && found == old(found)
    {
      id := identifier;
      identifier := identifier + 1;
    }

    /** The recording step of `generic_visit`: the next identifier for the node, under the current file and its line. */
    method Register(node: Ast)
      requires Valid() && currentFile.Some?
      modifies this
      ensures Valid()
      ensures currentFile == old(currentFile) && trees == old(trees) && searched == old(searched)
      ensures found == old(found) + [(node, currentFile.value)]
    {
      var file := currentFile.value;
      var id := NextIdentifier();
      statements := statements[id := node];
      files := files[id := file];
      lines := Record(lines, file, node.lineno, id);
      FoundStep(found, (node, file));
      found := found + [(node, file)];
    }

    /**
     * `generic_visit`: a node that passes `check` gets the next identifier
     * and is recorded under the current file and its line; then its
     * children are visited in order.
     */
    method Visit(node: Ast)
      requires Valid() && currentFile.Some?
      modifies this
      ensures currentFile == old(currentFile) && trees == old(trees) && searched == old(searched)
      ensures Valid()
      ensures found == old(found) + Tag(Collect(node, lineMode), currentFile.value)
      decreases node, 1
    {
      ghost var file := currentFile.value;
      ghost var own := if Check(node, lineMode) then [node] else [];
      ghost var rest := CollectAll(node.children, lineMode);
      if Check(node, lineMode) {
        Register(node);
        assert Tag(own, file) == [(node, file)];
      }
      ghost var before := found;
      assert before == old(found) + Tag(own, file);
      VisitAll(node.children);
      assert found == before + Tag(rest, file);
      AppendAssociative(old(found), Tag(own, file), Tag(rest, file));
      TagAppend(own, rest, file);
      assert Collect(node, lineMode) == own + rest;
    }

    /** The child loop of `generic_visit`. */
    method VisitAll(nodes: seq<Ast>)
      requires Valid() && currentFile.Some?
      modifies this
      ensures currentFile == old(currentFile) && trees == old(trees) && searched == old(searched)
      ensures Valid()
      ensures found == old(found) + Tag(CollectAll(nodes, lineMode), currentFile.value)
      decreases nodes, 0
    {
      for i := 0 to |nodes|
        invariant currentFile == old(currentFile) && trees == old(trees) && searched == old(searched)
        invariant Valid()
        invariant found == old(found) + Tag(CollectAll(nodes[..i], lineMode), currentFile.value)
      {
        Visit(nodes[i]);
        TagStep(nodes, i, currentFile.value, lineMode);
        AppendAssociative(old(found), Tag(CollectAll(nodes[..i], lineMode), currentFile.value),
                          Tag(Collect(nodes[i], lineMode), currentFile.value));
      }
      assert nodes[..|nodes|] == nodes;
    }

    /**
     * `_search_file`: a Python file no pattern excludes is stored, becomes
     * the current file and is walked; any other file changes nothing.
     */
    method SearchFile(f: SourceFile)
      requires Valid()
      modifies this
      ensures Valid() && searched == old(searched)
      ensures found == old(found) + FoundIn(SearchedIn([f], excludes, fnmatch), lineMode)
      ensures trees == TreesAfter(old(trees), SearchedIn([f], excludes, fnmatch))
      ensures Searchable(f, excludes, fnmatch) ==> currentFile == Some(f.path)
      ensures !Searchable(f, excludes, fnmatch) ==> currentFile == old(currentFile)
    {
      OneFileDirectory(f, excludes, fnmatch, lineMode, trees);
      ghost var added := FoundIn(SearchedIn([f], excludes, fnmatch), lineMode);
      if Searchable(f, excludes, fnmatch) {
        trees := trees[f.path := f.tree];
        currentFile := Some(f.path);
        Visit(f.tree);
        assert found == old(found) + added;
      } else {
        AppendNothing(found);
        assert added == [];
      }
    }

    /** The file loop over one directory of the walk. */
    method SearchFiles(fs: seq<SourceFile>)
      requires Valid()
      modifies this
      ensures Valid() && searched == old(searched)
      ensures found == old(found) + FoundIn(SearchedIn(fs, excludes, fnmatch), lineMode)
      ensures trees == TreesAfter(old(trees), SearchedIn(fs, excludes, fnmatch))
    {
      for i := 0 to |fs|
        invariant Valid() && searched == old(searched)
        invariant found == old(found) + FoundIn(SearchedIn(fs[..i], excludes, fnmatch), lineMode)
        invariant trees == TreesAfter(old(trees), SearchedIn(fs[..i], excludes, fnmatch))
      {
        SearchFile(fs[i]);
        SearchStep(fs, i, excludes, fnmatch, lineMode, old(trees));
        AppendAssociative(old(found), FoundIn(SearchedIn(fs[..i], excludes, fnmatch), lineMode),
                          FoundIn(SearchedIn([fs[i]], excludes, fnmatch), lineMode));
      }
      assert fs[..|fs|] == fs;
    }

    /**
     * `search_source`: once only. A single file is searched as "."; a
     * directory is walked, skipping directories an exclude pattern
     * matches; afterwards the finder counts as searched.
     */
    method SearchSource(source: Source)
      requires Valid()
      modifies this
      ensures Valid() && searched
      ensures old(searched) ==> found == old(found) && trees == old(trees)
      ensures !old(searched) ==>
        && found == old(found) + FoundIn(Searched(source, excludes, fnmatch), lineMode)
        && trees == TreesAfter(old(trees), Searched(source, excludes, fnmatch))
    {
      if !searched {
        match source {
          case SingleFile(suffix, tree) =>
            SearchFiles([SourceFile(".", suffix, tree)]);
          case Tree(walk) =>
            SearchWalk(walk);
          case Missing =>
        }
        searched := true;
      }
    }

    /** The `os.walk` loop: the files of every directory that no pattern excludes. */
    method SearchWalk(walk: seq<Directory>)
      requires Valid()
      modifies this
      ensures Valid() && searched == old(searched)
      ensures found == old(found) + FoundIn(SearchedWalk(walk, excludes, fnmatch), lineMode)
      ensures trees == TreesAfter(old(trees), SearchedWalk(walk, excludes, fnmatch))
    {
      for i := 0 to |walk|
        invariant Valid() && searched == old(searched)
        invariant found == old(found) + FoundIn(SearchedWalk(walk[..i], excludes, fnmatch), lineMode)
        invariant trees == TreesAfter(old(trees), SearchedWalk(walk[..i], excludes, fnmatch))
      {
        if !Excluded(walk[i].path, excludes, fnmatch) {
          SearchFiles(walk[i].files);
        }
        WalkStep(walk, i, excludes, fnmatch, lineMode, old(trees));
        AppendAssociative(old(found), FoundIn(SearchedWalk(walk[..i], excludes, fnmatch), lineMode),
                          FoundIn(if Excluded(walk[i].path, excludes, fnmatch) then [] else SearchedIn(walk[i].files, excludes, fnmatch), lineMode));
      }
      assert walk[..|walk|] == walk;
    }
  }

  /** What a one-file directory contributes: the file's statements and tree when it is searched, nothing otherwise. */
  lemma OneFileDirectory(f: SourceFile, excludes: seq<string>, fnmatch: (string, string) -> bool, lineMode: bool, trees: map<string, Ast>)
    ensures Searchable(f, excludes, fnmatch) ==>
      && SearchedIn([f], excludes, fnmatch) == [f]
      && FoundIn([f], lineMode) == Tag(Collect(f.tree, lineMode), f.path)
      && TreesAfter(trees, [f]) == trees[f.path := f.tree]
    ensures !Searchable(f, excludes, fnmatch) ==>
      && SearchedIn([f], excludes, fnmatch) == []
      && FoundIn([], lineMode) == []
      && TreesAfter(trees, []) == trees
  {
    assert [f][..0] == [];
    assert FoundIn([f], lineMode) == [] + Tag(Collect(f.tree, lineMode), f.path);
  }

  lemma WalkStep(walk: seq<Directory>, i: nat, excludes: seq<string>, fnmatch: (string, string) -> bool,
                 lineMode: bool, trees: map<string, Ast>)
    requires i < |walk|
    ensures var prior := SearchedWalk(walk[..i], excludes, fnmatch);
            var next := if Excluded(walk[i].path, excludes, fnmatch) then [] else SearchedIn(walk[i].files, excludes, fnmatch);
      && FoundIn(SearchedWalk(walk[..i + 1], excludes, fnmatch), lineMode) == FoundIn(prior, lineMode) + FoundIn(next, lineMode)
      && TreesAfter(trees, SearchedWalk(walk[..i + 1], excludes, fnmatch)) == TreesAfter(TreesAfter(trees, prior), next)
  {
    assert walk[..i + 1][..i] == walk[..i];
    var prior := SearchedWalk(walk[..i], excludes, fnmatch);
    var next := if Excluded(walk[i].path, excludes, fnmatch) then [] else SearchedIn(walk[i].files, excludes, fnmatch);
    assert SearchedWalk(walk[..i + 1], excludes, fnmatch) == prior + next;
    FoundInAppend(prior, next, lineMode);
    TreesAfterAppend(trees, prior, next);
  }

  lemma SearchStep(fs: seq<SourceFile>, i: nat, excludes: seq<string>, fnmatch: (string, string) -> bool,
                   lineMode: bool, trees: map<string, Ast>)
    requires i < |fs|
    ensures var prior := SearchedIn(fs[..i], excludes, fnmatch);
            var next := SearchedIn([fs[i]], excludes, fnmatch);
      && FoundIn(SearchedIn(fs[..i + 1], excludes, fnmatch), lineMode) == FoundIn(prior, lineMode) + FoundIn(next, lineMode)
      && TreesAfter(trees, SearchedIn(fs[..i + 1], excludes, fnmatch)) == TreesAfter(TreesAfter(trees, prior), next)
  {
    assert fs[..i + 1][..i] == fs[..i];
    assert [fs[i]][..0] == [];
    var prior := SearchedIn(fs[..i], excludes, fnmatch);
    var next := SearchedIn([fs[i]], excludes, fnmatch);
    assert next == SearchedIn([], excludes, fnmatch) + (if Searchable(fs[i], excludes, fnmatch) then [fs[i]] else []);
    assert SearchedIn(fs[..i + 1], excludes, fnmatch) == prior + next;
    FoundInAppend(prior, next, lineMode);
    TreesAfterAppend(trees, prior, next);
  }

  lemma {:induction false} FoundInAppend(a: seq<SourceFile>, b: seq<SourceFile>, lineMode: bool)
    ensures FoundIn(a + b, lineMode) == FoundIn(a, lineMode) + FoundIn(b, lineMode)
    decreases |b|
  {
    if b != [] {
      var n := |b| - 1;
      assert (a + b)[..|a + b| - 1] == a + b[..n];
      FoundInAppend(a, b[..n], lineMode);
    } else {
      assert a + b == a;
    }
  }

  lemma {:induction false} TreesAfterAppend(trees: map<string, Ast>, a: seq<SourceFile>, b: seq<SourceFile>)
    ensures TreesAfter(trees, a + b) == TreesAfter(TreesAfter(trees, a), b)
    decreases |b|
  {
    if b != [] {
      var n := |b| - 1;
      assert (a + b)[..|a + b| - 1] == a + b[..n];
      TreesAfterAppend(trees, a, b[..n]);
    } else {
      assert a + b == a;
    }
  }

  lemma FoundStep(found: Found, x: (Ast, string))
    ensures StatementsOf(found + [x]) == StatementsOf(found)[|found| := x.0]
    ensures FilesOf(found + [x]) == FilesOf(found)[|found| := x.1]
    ensures LinesOf(found + [x]) == Record(LinesOf(found), x.1, x.0.lineno, |found|)
  {
    StatementsStep(found, x);
    FilesStep(found, x);
    var longer := found + [x];
    assert longer[..|found|] == found;
  }

  lemma StatementsStep(found: Found, x: (Ast, string))
    ensures StatementsOf(found + [x]) == StatementsOf(found)[|found| := x.0]
  {
    var longer := found + [x];
    var m, m' := StatementsOf(longer), StatementsOf(found)[|found| := x.0];
    assert m.Keys == m'.Keys;
    forall q | q in m
      ensures m[q] == m'[q]
    {
      if q < |found| {
        assert longer[q] == found[q];
      }
    }
  }

  lemma FilesStep(found: Found, x: (Ast, string))
    ensures FilesOf(found + [x]) == FilesOf(found)[|found| := x.1]
  {
    var longer := found + [x];
    var m, m' := FilesOf(longer), FilesOf(found)[|found| := x.1];
    assert m.Keys == m'.Keys;
    forall q | q in m
      ensures m[q] == m'[q]
    {
      if q < |found| {
        assert longer[q] == found[q];
      }
    }
  }

  lemma TagAppend(a: seq<Ast>, b: seq<Ast>, file: string)
    ensures Tag(a + b, file) == Tag(a, file) + Tag(b, file)
  {
  }

  lemma TagStep(nodes: seq<Ast>, i: nat, file: string, lineMode: bool)
    requires i < |nodes|
    ensures Tag(CollectAll(nodes[..i + 1], lineMode), file)
         == Tag(CollectAll(nodes[..i], lineMode), file) + Tag(Collect(nodes[i], lineMode), file)
  {
    assert nodes[..i + 1][..i] == nodes[..i];
  }

  /**
   * After a search, the identifiers are exactly 0 .. N-1 and each is the
   * statement found in that order, recorded with its file.
   */
  lemma ConsecutiveIdentifiers(found: Found)
    ensures StatementsOf(found).Keys == FilesOf(found).Keys
    ensures forall q :: q in StatementsOf(found) <==> 0 <= q < |found|
    ensures forall q :: 0 <= q < |found| ==> StatementsOf(found)[q] == found[q].0 && FilesOf(found)[q] == found[q].1
  {
  }
}
