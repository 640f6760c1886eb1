/**
 * `index_repo`: walk a repository top-down, skipping hidden and tooling
 * directories, and turn every Python file into the units the visitor emits
 * and every other text file of a known kind into one whole-file unit.
 *
 * The file system is a value: a folder holds its files (each with its
 * content, or `None` when it cannot be read as UTF-8) and its
 * sub-directories, both in the order the walk lists them. Parsing is the
 * parameter `parse`, which yields the module's syntax tree or `None` for a
 * syntax error.
 */
module RepoIndex {
  import opened Wrappers
  import opened Text
  import opened CodeUnits
  import opened AstIndexer

  datatype FileEntry = FileEntry(name: string, content: Option<string>)

  datatype Folder = Folder(files: seq<FileEntry>, dirs: seq<SubDir>)

  datatype SubDir = SubDir(name: string, folder: Folder)

  /** A directory the walk does not descend into: hidden, or a virtual environment, tests or caches. */
  predicate Pruned(name: string) {
    StartsWith(name, ".") || name in ["venv", "tests", "node_modules", "__pycache__"]
  }

  /** The extensions indexed as one whole-file unit. */
  predicate WholeFileKind(name: string) {
    EndsWith(name, ".java") || EndsWith(name, ".js") || EndsWith(name, ".ts")
    || EndsWith(name, ".md") || EndsWith(name, ".txt")
  }

  /** The single unit of a non-Python text file at `path`. */
  function WholeFileUnit(path: string, name: string, content: string): (u: CodeUnit)
    ensures u.id == path && u.filePath == path && u.name == name && u.kind == File
    ensures u.startLine == 1 && u.code == content
    ensures u.endLine == |SplitLines(content)|
    ensures (u.endLine == 0) == (content == "")
    ensures u.docstring == None && u.signature == None && u.imports == [] && u.calls == {}
  {
    CodeUnit(path, path, name, File, 1, |SplitLines(content)|, content, None, None, [], {})
  }

  /** What one file at relative path `path` contributes. */
  function FileUnits(parse: string -> Option<Node>, path: string, e: FileEntry): seq<CodeUnit> {
    if EndsWith(e.name, ".py") then
      match e.content
      case None => []
      case Some(c) =>
        match parse(c)
        case None => []
        case Some(tree) => Visited(SourceFile(path, SplitLines(c)), Initial, tree).units
    else if WholeFileKind(e.name) then
      match e.content
      case None => []
      case Some(c) => [WholeFileUnit(path, e.name, c)]
    else []
  }

  /** The files of one directory, in listing order; `prefix` is the directory's relative path with a trailing `/`. */
  function FilesUnits(parse: string -> Option<Node>, prefix: string, es: seq<FileEntry>): seq<CodeUnit>
    decreases |es|
  {
    if es == [] then []
    else FilesUnits(parse, prefix, es[..|es| - 1]) + FileUnits(parse, prefix + es[|es| - 1].name, es[|es| - 1])
  }

  /** A directory still to be walked, with its relative path prefix. */
  datatype Job = Job(prefix: string, folder: Folder)

  function Size(f: Folder): nat {
    1 + SizeDirs(f.dirs)
  }

  function SizeDirs(ds: seq<SubDir>): nat {
    if ds == [] then 0 else Size(ds[0].folder) + SizeDirs(ds[1..])
  }

  function JobsSize(js: seq<Job>): nat {
    if js == [] then 0 else Size(js[0].folder) + JobsSize(js[1..])
  }

  /** The sub-directories the walk keeps, in order, as jobs. */
  function Subjobs(prefix: string, ds: seq<SubDir>): (js: seq<Job>)
    ensures |js| <= |ds|
    ensures forall k :: 0 <= k < |js| ==> StartsWith(js[k].prefix, prefix)
  {
    if ds == [] then []
    else
      var rest := Subjobs(prefix, ds[1..]);
      if Pruned(ds[0].name) then rest
      else
        var p := prefix + ds[0].name + "/";
        assert p[..|prefix|] == prefix;
        [Job(p, ds[0].folder)] + rest
  }

  lemma {:induction false} SubjobsSize(prefix: string, ds: seq<SubDir>)
    ensures JobsSize(Subjobs(prefix, ds)) <= SizeDirs(ds)
  {
    if ds != [] {
      SubjobsSize(prefix, ds[1..]);
      var js := Subjobs(prefix, ds);
      if !Pruned(ds[0].name) {
        assert js[1..] == Subjobs(prefix, ds[1..]);
      }
    }
  }

  lemma {:induction false} JobsSizeAppend(a: seq<Job>, b: seq<Job>)
    ensures JobsSize(a + b) == JobsSize(a) + JobsSize(b)
  {
    if a == [] {
      assert a + b == b;
    } else {
      assert (a + b)[0] == a[0];
      assert (a + b)[1..] == a[1..] + b;
      JobsSizeAppend(a[1..], b);
    }
  }

  /**
   * The units of a directory in walk order: its own files first, then each
   * kept sub-directory's units in turn.
   */
  function IndexFolder(parse: string -> Option<Node>, prefix: string, f: Folder): seq<CodeUnit>
    decreases Size(f), 1
  {
    SubjobsSize(prefix, f.dirs);
    FilesUnits(parse, prefix, f.files) + Pending(parse, Subjobs(prefix, f.dirs))
  }

  /** The units of every job in `js`, in order. */
  function Pending(parse: string -> Option<Node>, js: seq<Job>): seq<CodeUnit>
    decreases JobsSize(js), 2
  {
    if js == [] then [] else IndexFolder(parse, js[0].prefix, js[0].folder) + Pending(parse, js[1..])
  }

  lemma {:induction false} PendingAppend(parse: string -> Option<Node>, a: seq<Job>, b: seq<Job>)
    ensures Pending(parse, a + b) == Pending(parse, a) + Pending(parse, b)
  {
    if a == [] {
      assert a + b == b;
    } else {
      var h := IndexFolder(parse, a[0].prefix, a[0].folder);
      assert (a + b)[0] == a[0];
      assert (a + b)[1..] == a[1..] + b;
      PendingAppend(parse, a[1..], b);
      assert Pending(parse, a + b) == h + (Pending(parse, a[1..]) + Pending(parse, b));
      assert Pending(parse, a) == h + Pending(parse, a[1..]);
    }
  }

  /** Concatenation regroups. */
  lemma AppendAssoc<T>(a: seq<T>, b: seq<T>, c: seq<T>)
    ensures a + b + c == a + (b + c)
  {
  }

  /**
   * One step of the walk: the first pending directory's files, then its
   * kept sub-directories ahead of the rest; the jobs left shrink.
   */
  lemma PendingStep(parse: string -> Option<Node>, todo: seq<Job>, units: seq<CodeUnit>, next: seq<Job>)
    requires todo != []
    requires units == FilesUnits(parse, todo[0].prefix, todo[0].folder.files)
    requires next == Subjobs(todo[0].prefix, todo[0].folder.dirs) + todo[1..]
    ensures Pending(parse, todo) == units + Pending(parse, next)
    ensures JobsSize(next) < JobsSize(todo)
  {
    var job := todo[0];
    var kept := Subjobs(job.prefix, job.folder.dirs);
    SubjobsSize(job.prefix, job.folder.dirs);
    JobsSizeAppend(kept, todo[1..]);
    PendingAppend(parse, kept, todo[1..]);
    var pk := Pending(parse, kept);
    var pr := Pending(parse, todo[1..]);
    assert IndexFolder(parse, job.prefix, job.folder) == units + pk;
    assert Pending(parse, todo) == (units + pk) + pr;
    AppendAssoc(units, pk, pr);
  }

  /** The body of the walk's file loop: read, dispatch on the extension, and index one file. */
  method IndexFile(parse: string -> Option<Node>, path: string, file: FileEntry) returns (units: seq<CodeUnit>)
    ensures units == FileUnits(parse, path, file)
  {
    units := [];
    if EndsWith(file.name, ".py") {
      if file.content.Some? {
        var content := file.content.value;
        var tree := parse(content);
        if tree.Some? {
          var visitor := new ASTVisitor(content, path);
          visitor.Visit(tree.value);
          units := visitor.units;
        }
      }
    } else if WholeFileKind(file.name) {
      if file.content.Some? {
        units := [WholeFileUnit(path, file.name, file.content.value)];
      }
    }
  }

  /** The loop over one directory's files, in listing order. */
  method IndexFiles(parse: string -> Option<Node>, prefix: string, files: seq<FileEntry>) returns (units: seq<CodeUnit>)
    ensures units == FilesUnits(parse, prefix, files)
  {
    units := [];
    for i := 0 to |files|
      invariant units == FilesUnits(parse, prefix, files[..i])
    {
      var file := files[i];
      assert files[..i + 1][..i] == files[..i];
      var more := IndexFile(parse, prefix + file.name, file);
      units := units + more;
    }
    assert files[..|files|] == files;
  }

  /** `index_repo`: the units of the whole repository, relative paths starting at its root. */
  method IndexRepo(parse: string -> Option<Node>, repo: Folder) returns (all: seq<CodeUnit>)
    ensures all == IndexFolder(parse, "", repo)
  {
    all := [];
    var todo := [Job("", repo)];
    assert Pending(parse, todo) == IndexFolder(parse, "", repo) by {
      assert todo[1..] == [];
    }
    while todo != []
      invariant all + Pending(parse, todo) == IndexFolder(parse, "", repo)
      decreases JobsSize(todo)
    {
      var job := todo[0];
      var units := IndexFiles(parse, job.prefix, job.folder.files);
      var next := Subjobs(job.prefix, job.folder.dirs) + todo[1..];
      PendingStep(parse, todo, units, next);
      AppendAssoc(all, units, Pending(parse, next));
      all := all + units;
      todo := next;
    }
    assert all + [] == all;
  }

  // ---------------------------------------------------------------------
  // What the walk guarantees
  // ---------------------------------------------------------------------

  /** Where a unit came from, as its fields show it. */
  ghost predicate UnitShaped(prefix: string, u: CodeUnit) {
    && StartsWith(u.filePath, prefix)
    && (u.kind == File ==> u.id == u.filePath && u.startLine == 1 && u.imports == [] && u.calls == {})
    && (u.kind != File ==> u.id == u.filePath + "::" + u.name)
  }

  ghost predicate AllUnitShaped(prefix: string, units: seq<CodeUnit>) {
    forall k :: 0 <= k < |units| ==> UnitShaped(prefix, units[k])
  }

  lemma StartsWithTrans(s: string, p: string, q: string)
    requires StartsWith(s, p) && StartsWith(p, q)
    ensures StartsWith(s, q)
  {
    assert s[..|q|] == s[..|p|][..|q|];
  }

  lemma ExtendPrefix(prefix: string, name: string)
    ensures StartsWith(prefix + name, prefix)
  {
    assert (prefix + name)[..|prefix|] == prefix;
  }

  lemma FileUnitsShaped(parse: string -> Option<Node>, prefix: string, e: FileEntry)
    ensures AllUnitShaped(prefix, FileUnits(parse, prefix + e.name, e))
  {
    var path := prefix + e.name;
    ExtendPrefix(prefix, e.name);
    if EndsWith(e.name, ".py") && e.content.Some? && parse(e.content.value).Some? {
      var src := SourceFile(path, SplitLines(e.content.value));
      VisitedWellShaped(src, Initial, parse(e.content.value).value);
    }
  }

  lemma {:induction false} FilesUnitsShaped(parse: string -> Option<Node>, prefix: string, es: seq<FileEntry>)
    decreases |es|
    ensures AllUnitShaped(prefix, FilesUnits(parse, prefix, es))
  {
    if es != [] {
      FilesUnitsShaped(parse, prefix, es[..|es| - 1]);
      FileUnitsShaped(parse, prefix, es[|es| - 1]);
    }
  }

  /**
   * Every unit under a directory carries a file path inside that directory;
   * a whole-file unit is identified by its path and starts at line 1, any
   * other unit by `"<path>::<name>"`.
   */
  lemma {:induction false} IndexFolderShaped(parse: string -> Option<Node>, prefix: string, f: Folder)
    decreases Size(f), 1
    ensures AllUnitShaped(prefix, IndexFolder(parse, prefix, f))
  {
    SubjobsSize(prefix, f.dirs);
    FilesUnitsShaped(parse, prefix, f.files);
    PendingShaped(parse, prefix, Subjobs(prefix, f.dirs));
  }

  lemma {:induction false} PendingShaped(parse: string -> Option<Node>, prefix: string, js: seq<Job>)
    requires forall k :: 0 <= k < |js| ==> StartsWith(js[k].prefix, prefix)
    decreases JobsSize(js), 2
    ensures AllUnitShaped(prefix, Pending(parse, js))
  {
    if js != [] {
      IndexFolderShaped(parse, js[0].prefix, js[0].folder);
      PendingShaped(parse, prefix, js[1..]);
      var head := IndexFolder(parse, js[0].prefix, js[0].folder);
      forall k | 0 <= k < |head|
        ensures UnitShaped(prefix, head[k])
      {
        StartsWithTrans(head[k].filePath, js[0].prefix, prefix);
      }
    }
  }

  /** The repository's units all satisfy `UnitShaped` at the root. */
  lemma RepoUnitsShaped(parse: string -> Option<Node>, repo: Folder)
    ensures AllUnitShaped("", IndexFolder(parse, "", repo))
  {
    IndexFolderShaped(parse, "", repo);
  }

  lemma {:induction false} SubjobsIgnorePruned(prefix: string, ds: seq<SubDir>, i: nat, g: Folder)
    requires i < |ds| && Pruned(ds[i].name)
    ensures Subjobs(prefix, ds[i := SubDir(ds[i].name, g)]) == Subjobs(prefix, ds)
  {
    var ds' := ds[i := SubDir(ds[i].name, g)];
    if i > 0 {
      assert ds'[1..] == ds[1..][i - 1 := SubDir(ds[i].name, g)];
      SubjobsIgnorePruned(prefix, ds[1..], i - 1, g);
    } else {
      assert ds'[1..] == ds[1..];
    }
  }

  /** What a pruned directory holds never reaches the index. */
  lemma PrunedDirIgnored(parse: string -> Option<Node>, prefix: string, f: Folder, i: nat, g: Folder)
    requires i < |f.dirs| && Pruned(f.dirs[i].name)
    ensures IndexFolder(parse, prefix, f.(dirs := f.dirs[i := SubDir(f.dirs[i].name, g)]))
         == IndexFolder(parse, prefix, f)
  {
    SubjobsIgnorePruned(prefix, f.dirs, i, g);
  }

  /** A Python file that cannot be read or parsed contributes nothing, and neither does an unknown extension. */
  lemma SkippedFiles(parse: string -> Option<Node>, path: string, e: FileEntry)
    requires || e.content.None?
             || (EndsWith(e.name, ".py") && parse(e.content.value).None?)
             || (!EndsWith(e.name, ".py") && !WholeFileKind(e.name))
    ensures FileUnits(parse, path, e) == []
  {
  }

  /** A readable text file of a known non-Python kind yields exactly one unit, holding its whole content. */
  lemma WholeFileIndexed(parse: string -> Option<Node>, path: string, e: FileEntry)
    requires !EndsWith(e.name, ".py") && WholeFileKind(e.name) && e.content.Some?
    ensures var r := FileUnits(parse, path, e);
      |r| == 1 && r[0].kind == File && r[0].id == path && r[0].code == e.content.value
  {
  }

  /** A Python file yields exactly the visitor's units over its parsed tree, all well shaped for that file. */
  lemma PythonFileIndexed(parse: string -> Option<Node>, path: string, e: FileEntry)
    requires EndsWith(e.name, ".py") && e.content.Some? && parse(e.content.value).Some?
    ensures var src := SourceFile(path, SplitLines(e.content.value));
      AllWellShaped(src, FileUnits(parse, path, e))
  {
    VisitedWellShaped(SourceFile(path, SplitLines(e.content.value)), Initial, parse(e.content.value).value);
  }
}
