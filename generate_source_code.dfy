/** The build script that writes the source viewer's tree: which files are
    included, and the tree of directories and files it builds, visiting
    entries in name order and dropping directories left without children.
    The file system is a value: a directory either lists its entries or
    cannot be read; what reading a file yields (its text, a size placeholder
    or an error text) is given with the file. */
module GenerateSourceCode {
  import opened Wrappers
  import opened Text
  import opened Sorting
  import opened SourceCodeModel

  const IncludeExtensions: set<string> := {".kt", ".xml", ".gradle", ".properties", ".md", ".txt", ".json",
                                         ".java", ".py", ".c", ".cpp", ".h", ".hpp", ".js", ".css", ".html"}

  const ExcludeDirs: set<string> := {"build", ".gradle", ".idea", ".git", "node_modules", "dist",
                                   "generated", "bin", "obj", "__pycache__", ".DS_Store"}

  const ExcludeFiles: set<string> := {"local.properties", "gradle.properties", "gradlew", "gradlew.bat",
                                    "settings.gradle", "build.gradle", "proguard-rules.pro",
                                    "source_code.json"}

  // ---------------------------------------------------------- should_include_file

  /** pathlib's `suffix`: from the last dot, provided the dot is neither the
      first nor the last character of the name. */
  function Suffix(name: string): string {
    var i := LastIndexOf(name, '.');
    if 0 < i < |name| - 1 then name[i..] else []
  }

  /** A suffix is empty, or a dot followed by at least one character and no
      other dot, and it ends the name without being all of it. */
  lemma SuffixShape(name: string)
    ensures var r := Suffix(name);
      r == [] || (|r| >= 2 && r[0] == '.' && '.' !in r[1..] && |r| < |name| && name[|name| - |r|..] == r)
  {
    var i := LastIndexOf(name, '.');
    if 0 < i < |name| - 1 {
      var r := name[i..];
      assert name[|name| - |r|..] == r;
      forall j | 1 <= j < |r| ensures r[j] != '.' {
        assert r[j] == name[i + j];
      }
    }
  }

  /** The last dot of a name, found from its characterisation. */
  lemma LastDotAt(name: string, i: int)
    requires 0 <= i < |name| && name[i] == '.'
    requires forall j :: i < j < |name| ==> name[j] != '.'
    ensures LastIndexOf(name, '.') == i
  {
  }

  lemma SuffixExamples()
    ensures Suffix("Main.kt") == ".kt"
    ensures Suffix("archive.tar.gz") == ".gz"
    ensures Suffix(".gitignore") == ""
    ensures Suffix("notes.") == ""
    ensures Suffix("gradlew") == ""
  {
    LastDotAt("Main.kt", 4);
    assert "Main.kt"[4..] == ".kt";
    LastDotAt("archive.tar.gz", 11);
    assert "archive.tar.gz"[11..] == ".gz";
    LastDotAt(".gitignore", 0);
    LastDotAt("notes.", 5);
  }

  /** The rule should_include_file applies: a file is included when its name
      is not excluded and the checks from the first path component on pass. */
  predicate Included(name: string, parts: seq<string>) {
    name !in ExcludeFiles && IncludedFrom(name, parts, 0)
  }

  /** The checks from path component k on, in the script's order: no
      component is an excluded directory (the file's own name is the last
      component), then the lower-cased suffix is a source extension. */
  predicate IncludedFrom(name: string, parts: seq<string>, k: nat)
    requires k <= |parts|
    decreases |parts| - k
  {
    if k == |parts| then ToLower(Suffix(name)) in IncludeExtensions
    else parts[k] !in ExcludeDirs && IncludedFrom(name, parts, k + 1)
  }

  /** The rule stated at once: the name is not excluded, no path component
      is an excluded directory, and the suffix is a source extension. */
  lemma IncludedIff(name: string, parts: seq<string>)
    ensures Included(name, parts) <==>
      name !in ExcludeFiles
      && NoExcludedDir(parts, 0)
      && ToLower(Suffix(name)) in IncludeExtensions
  {
    IncludedFromIff(name, parts, 0);
  }

  /** No path component from k on is an excluded directory. */
  predicate NoExcludedDir(parts: seq<string>, k: nat) {
    forall j :: k <= j < |parts| ==> parts[j] !in ExcludeDirs
  }

  lemma {:induction false} IncludedFromIff(name: string, parts: seq<string>, k: nat)
    requires k <= |parts|
    ensures IncludedFrom(name, parts, k) <==> NoExcludedDir(parts, k) && IncludedFrom(name, parts, |parts|)
    decreases |parts| - k
  {
    if k < |parts| {
      IncludedFromIff(name, parts, k + 1);
      NoExcludedDirStep(parts, k);
    }
  }

  lemma NoExcludedDirStep(parts: seq<string>, k: nat)
    requires k < |parts|
    ensures NoExcludedDir(parts, k) <==> parts[k] !in ExcludeDirs && NoExcludedDir(parts, k + 1)
  {
  }

  /** should_include_file, with its loop over the path components. */
  method ShouldIncludeFile(name: string, parts: seq<string>) returns (included: bool)
    ensures included == Included(name, parts)
  {
    var ext := ToLower(Suffix(name));
    if name in ExcludeFiles {
      return false;
    }
    var k := 0;
    while k < |parts|
      invariant 0 <= k <= |parts|
      invariant IncludedFrom(name, parts, 0) == IncludedFrom(name, parts, k)
    {
      if parts[k] in ExcludeDirs {
        return false;
      }
      k := k + 1;
    }
    return ext in IncludeExtensions;
  }

  /** Anything below a build directory is left out, whatever its name and
      extension. */
  lemma ExcludedBuildOutput(name: string, parts: seq<string>)
    requires "build" in parts
    ensures !Included(name, parts)
  {
    IncludedIff(name, parts);
    var k :| 0 <= k < |parts| && parts[k] == "build";
  }

  /** The build scripts are left out by name wherever they are, although
      .gradle is a source extension. */
  lemma ExcludedBuildScript(name: string, parts: seq<string>)
    requires name == "build.gradle"
    ensures !Included(name, parts)
  {
  }

  // ---------------------------------------------------------- create_source_code_model

  /** A file-system entry. `content` is what safe_read_file_content returns
      for the file; `readable` is false when listing the directory fails. */
  datatype FsEntry =
    | File(name: string, content: string)
    | Dir(name: string, readable: bool, entries: seq<FsEntry>)

  /** `sorted(directory.iterdir())`: entries of one directory compare by name. */
  predicate ByName(a: FsEntry, b: FsEntry) {
    StrLe(a.name, b.name)
  }

  lemma ByNameTotalPreorder()
    ensures TotalPreorder(ByName)
  {
    forall a: FsEntry, b: FsEntry ensures ByName(a, b) || ByName(b, a) {
      StrLeTotal(a.name, b.name);
    }
    forall a: FsEntry, b: FsEntry, c: FsEntry | ByName(a, b) && ByName(b, c) ensures ByName(a, c) {
      StrLeTransitive(a.name, b.name, c.name);
    }
  }

  /** `os.path.join(relative_path, name)` for a plain name. */
  function JoinPath(rel: string, name: string): string {
    if rel == [] then name else rel + "/" + name
  }

  /** Every directory in the tree below the root has children, every file in
      it passed should_include_file and carries its content, and every path
      is the parent's path joined with the name. */
  predicate WellFormedChild(c: SourceCodeModel, rel: string, parts: seq<string>) {
    c.path == JoinPath(rel, c.name)
    && (c.isDirectory ==> c.content.None? && c.children.Some? && c.children.value != [])
    && (!c.isDirectory ==> Included(c.name, parts + [c.name]) && c.content.Some? && c.children.None?)
  }

  /** The model of a directory: its children, or none when it cannot be
      listed. The root's path is its own name. */
  function Model(d: FsEntry, rel: string, parts: seq<string>): (m: SourceCodeModel)
    requires d.Dir?
    ensures m.isDirectory && m.name == d.name && m.content.None? && m.children.Some?
    ensures m.path == if rel == [] then d.name else rel
    ensures !d.readable ==> m.children.value == []
    decreases d, 2
  {
    var path := if rel == [] then d.name else rel;
    if !d.readable then SourceCodeModel(d.name, path, true, None, Some([]))
    else
      var items := SortBy(d.entries, ByName);
      SortedItemsAreEntries(d);
      SourceCodeModel(d.name, path, true, None, Some(Children(d, items, |items|, rel, parts)))
  }

  /** The sorted listing holds the directory's own entries. */
  lemma SortedItemsAreEntries(d: FsEntry)
    requires d.Dir?
    ensures forall x :: x in SortBy(d.entries, ByName) ==> x in d.entries
  {
    var items := SortBy(d.entries, ByName);
    forall x | x in items ensures x in d.entries {
      assert x in multiset(items);
    }
  }

  /** The children contributed by items[..k], in order. */
  function Children(d: FsEntry, items: seq<FsEntry>, k: nat, rel: string, parts: seq<string>): seq<SourceCodeModel>
    requires d.Dir? && k <= |items|
    requires forall x :: x in items ==> x in d.entries
    decreases d, 1, k
  {
    if k == 0 then [] else Children(d, items, k - 1, rel, parts) + ChildOf(d, items[k - 1], rel, parts)
  }

  /** The model of a file: its path below the parent's, and its content. */
  function FileModel(f: FsEntry, rel: string): SourceCodeModel
    requires f.File?
  {
    SourceCodeModel(f.name, JoinPath(rel, f.name), false, Some(f.content), None)
  }

  /** What one entry contributes: a directory when it has children itself,
      a file when it is included, nothing otherwise. */
  function ChildOf(d: FsEntry, item: FsEntry, rel: string, parts: seq<string>): (r: seq<SourceCodeModel>)
    requires d.Dir? && item in d.entries
    ensures |r| <= 1
    ensures r != [] ==> r[0].name == item.name
    decreases d, 0
  {
    var itemPath := JoinPath(rel, item.name);
    if item.Dir? then
      var child := Model(item, itemPath, parts + [item.name]);
      if child.children.value != [] then [child] else []
    else if Included(item.name, parts + [item.name]) then
      [FileModel(item, rel)]
    else []
  }

  /** create_source_code_model, with its loop over the sorted entries. */
  method CreateSourceCodeModel(directory: FsEntry, relativePath: string, parts: seq<string>)
    returns (model: SourceCodeModel)
    requires directory.Dir?
    ensures model == Model(directory, relativePath, parts)
    decreases directory, 1
  {
    var path := if relativePath == [] then directory.name else relativePath;
    if !directory.readable {
      return SourceCodeModel(directory.name, path, true, None, Some([]));
    }
    var items := SortBy(directory.entries, ByName);
    SortedItemsAreEntries(directory);
    var children: seq<SourceCodeModel> := [];
    var k := 0;
    while k < |items|
      invariant 0 <= k <= |items|
      invariant children == Children(directory, items, k, relativePath, parts)
    {
      var item := items[k];
      assert item in directory.entries;
      var child := EntryChild(directory, item, relativePath, parts);
      ChildrenLast(directory, items, k + 1, relativePath, parts);
      children := children + child;
      k := k + 1;
    }
    model := SourceCodeModel(directory.name, path, true, None, Some(children));
  }

  /** The body of the loop over the entries: recurses into a directory,
      checks a file. */
  method EntryChild(directory: FsEntry, item: FsEntry, relativePath: string, parts: seq<string>)
    returns (r: seq<SourceCodeModel>)
    requires directory.Dir? && item in directory.entries
    ensures r == ChildOf(directory, item, relativePath, parts)
    decreases directory, 0
  {
    var itemRelativePath := JoinPath(relativePath, item.name);
    if item.Dir? {
      var childModel := CreateSourceCodeModel(item, itemRelativePath, parts + [item.name]);
      r := if childModel.children.value != [] then [childModel] else [];
    } else {
      var isIncluded := ShouldIncludeFile(item.name, parts + [item.name]);
      r := if isIncluded then [SourceCodeModel(item.name, itemRelativePath, false, Some(item.content), None)] else [];
    }
  }

  // ---------------------------------------------------------- properties

  /** The name of one of items[..k]. */
  predicate NameAmong(name: string, items: seq<FsEntry>, k: nat) {
    exists j :: 0 <= j < k && j < |items| && name == items[j].name
  }

  /** Each child is well formed and comes from one of items[..k]. */
  lemma {:induction false} ChildrenFromItems(d: FsEntry, items: seq<FsEntry>, k: nat, rel: string, parts: seq<string>)
    requires d.Dir? && k <= |items|
    requires forall x :: x in items ==> x in d.entries
    ensures forall i :: 0 <= i < |Children(d, items, k, rel, parts)| ==>
      WellFormedChild(Children(d, items, k, rel, parts)[i], rel, parts)
      && NameAmong(Children(d, items, k, rel, parts)[i].name, items, k)
  {
    if k > 0 {
      ChildrenFromItems(d, items, k - 1, rel, parts);
      var init := Children(d, items, k - 1, rel, parts);
      var last := ChildOf(d, items[k - 1], rel, parts);
      var cs := init + last;
      forall i | 0 <= i < |cs|
        ensures WellFormedChild(cs[i], rel, parts) && NameAmong(cs[i].name, items, k)
      {
        if i < |init| {
          assert cs[i] == init[i];
          assert NameAmong(init[i].name, items, k - 1);
        } else {
          assert cs[i] == last[0] && last[0].name == items[k - 1].name;
          ChildOfWellFormed(d, items[k - 1], rel, parts);
        }
      }
    }
  }

  /** What one entry contributes is well formed; a file contributes
      exactly when it is included. */
  lemma ChildOfWellFormed(d: FsEntry, item: FsEntry, rel: string, parts: seq<string>)
    requires d.Dir? && item in d.entries
    ensures var r := ChildOf(d, item, rel, parts);
      (r != [] ==> WellFormedChild(r[0], rel, parts))
      && (item.File? ==> (r != [] <==> Included(item.name, parts + [item.name])))
  {
  }

  /** One more entry adds at most one child, after the earlier ones, and
      that child carries the entry's name. */
  lemma ChildrenStep(d: FsEntry, items: seq<FsEntry>, k: nat, rel: string, parts: seq<string>)
    requires d.Dir? && 0 < k <= |items|
    requires forall x :: x in items ==> x in d.entries
    ensures var init, cs := Children(d, items, k - 1, rel, parts), Children(d, items, k, rel, parts);
      |init| <= |cs| <= |init| + 1 && cs[..|init|] == init
      && (|cs| > |init| ==> cs[|init|].name == items[k - 1].name)
  {
    var init := Children(d, items, k - 1, rel, parts);
    var last := ChildOf(d, items[k - 1], rel, parts);
    assert Children(d, items, k, rel, parts) == init + last;
    assert (init + last)[..|init|] == init;
  }

  /** Each child carries the name of one of items[..k]. */
  lemma {:induction false} ChildrenNamed(d: FsEntry, items: seq<FsEntry>, k: nat, rel: string, parts: seq<string>)
    requires d.Dir? && k <= |items|
    requires forall x :: x in items ==> x in d.entries
    ensures forall i :: 0 <= i < |Children(d, items, k, rel, parts)| ==>
      NameAmong(Children(d, items, k, rel, parts)[i].name, items, k)
  {
    if k > 0 {
      ChildrenNamed(d, items, k - 1, rel, parts);
      ChildrenStep(d, items, k, rel, parts);
      var init := Children(d, items, k - 1, rel, parts);
      var cs := Children(d, items, k, rel, parts);
      forall i | 0 <= i < |cs| ensures NameAmong(cs[i].name, items, k) {
        if i < |init| {
          assert cs[i] == cs[..|init|][i] == init[i];
          assert NameAmong(init[i].name, items, k - 1);
        } else {
          assert cs[i].name == items[k - 1].name;
        }
      }
    }
  }

  /** Entries sorted by name have their names in order, pair by pair. */
  lemma NamesInOrder(items: seq<FsEntry>, i: int, j: int)
    requires Sorted(items, ByName) && 0 <= i < j < |items|
    ensures StrLe(items[i].name, items[j].name)
  {
    ByNameTotalPreorder();
    SortedPairwise(items, ByName, i, j);
  }

  /** The children of a directory are in name order. */
  lemma {:induction false} ChildrenSorted(d: FsEntry, items: seq<FsEntry>, k: nat, rel: string, parts: seq<string>)
    requires d.Dir? && k <= |items|
    requires forall x :: x in items ==> x in d.entries
    requires Sorted(items, ByName)
    ensures forall i :: 0 < i < |Children(d, items, k, rel, parts)| ==>
      StrLe(Children(d, items, k, rel, parts)[i - 1].name, Children(d, items, k, rel, parts)[i].name)
  {
    if k > 0 {
      ChildrenSorted(d, items, k - 1, rel, parts);
      ChildrenStep(d, items, k, rel, parts);
      var init := Children(d, items, k - 1, rel, parts);
      var cs := Children(d, items, k, rel, parts);
      if 0 < |init| < |cs| {
        ChildrenNamed(d, items, k - 1, rel, parts);
        assert NameAmong(init[|init| - 1].name, items, k - 1);
        var j :| 0 <= j < k - 1 && init[|init| - 1].name == items[j].name;
        NamesInOrder(items, j, k - 1);
      }
      ExtendInNameOrder(init, cs);
    }
  }

  /** Names in order stay in order when at most one no smaller name follows. */
  lemma ExtendInNameOrder(init: seq<SourceCodeModel>, cs: seq<SourceCodeModel>)
    requires forall i :: 0 < i < |init| ==> StrLe(init[i - 1].name, init[i].name)
    requires |init| <= |cs| <= |init| + 1 && cs[..|init|] == init
    requires 0 < |init| < |cs| ==> StrLe(init[|init| - 1].name, cs[|init|].name)
    ensures forall i :: 0 < i < |cs| ==> StrLe(cs[i - 1].name, cs[i].name)
  {
    forall i | 0 < i < |cs| ensures StrLe(cs[i - 1].name, cs[i].name) {
      assert cs[i - 1] == cs[..|init|][i - 1] == init[i - 1];
      if i < |init| {
        assert cs[i] == cs[..|init|][i] == init[i];
      }
    }
  }

  /** A directory's model: well-formed children in name order, none when
      the directory cannot be listed. */
  lemma ModelShape(d: FsEntry, rel: string, parts: seq<string>)
    requires d.Dir?
    ensures var cs := Model(d, rel, parts).children.value;
      (forall i :: 0 <= i < |cs| ==> WellFormedChild(cs[i], rel, parts))
      && (forall i :: 0 < i < |cs| ==> StrLe(cs[i - 1].name, cs[i].name))
  {
    if d.readable {
      var items := SortBy(d.entries, ByName);
      SortedItemsAreEntries(d);
      ChildrenFromItems(d, items, |items|, rel, parts);
      ByNameTotalPreorder();
      SortBySorted(d.entries, ByName);
      ChildrenSorted(d, items, |items|, rel, parts);
    }
  }

  /** Every included file among items[..k] has its model among the
      children built from them. */
  lemma {:induction false} ChildrenHaveFiles(d: FsEntry, items: seq<FsEntry>, k: nat, rel: string, parts: seq<string>)
    requires d.Dir? && k <= |items|
    requires forall x :: x in items ==> x in d.entries
    ensures forall j :: 0 <= j < k && items[j].File? && Included(items[j].name, parts + [items[j].name]) ==>
      FileModel(items[j], rel) in Children(d, items, k, rel, parts)
  {
    if k > 0 {
      ChildrenHaveFiles(d, items, k - 1, rel, parts);
      forall j | 0 <= j < k && items[j].File? && Included(items[j].name, parts + [items[j].name])
        ensures FileModel(items[j], rel) in Children(d, items, k, rel, parts)
      {
        if j < k - 1 {
          ChildrenGrow(d, items, k, rel, parts, FileModel(items[j], rel));
        } else {
          ChildrenGainFile(d, items, k, rel, parts);
        }
      }
    }
  }

  /** The loop only appends: a child is kept when one more entry is visited. */
  lemma ChildrenGrow(d: FsEntry, items: seq<FsEntry>, k: nat, rel: string, parts: seq<string>, m: SourceCodeModel)
    requires d.Dir? && 0 < k <= |items|
    requires forall x :: x in items ==> x in d.entries
    requires m in Children(d, items, k - 1, rel, parts)
    ensures m in Children(d, items, k, rel, parts)
  {
  }

  /** An included file is the child its entry adds. */
  lemma ChildrenGainFile(d: FsEntry, items: seq<FsEntry>, k: nat, rel: string, parts: seq<string>)
    requires d.Dir? && 0 < k <= |items|
    requires forall x :: x in items ==> x in d.entries
    requires items[k - 1].File? && Included(items[k - 1].name, parts + [items[k - 1].name])
    ensures FileModel(items[k - 1], rel) in Children(d, items, k, rel, parts)
  {
    ChildrenLast(d, items, k, rel, parts);
    ChildOfIncludedFile(d, items[k - 1], rel, parts);
  }

  lemma ChildOfIncludedFile(d: FsEntry, item: FsEntry, rel: string, parts: seq<string>)
    requires d.Dir? && item in d.entries && item.File? && Included(item.name, parts + [item.name])
    ensures ChildOf(d, item, rel, parts) == [FileModel(item, rel)]
  {
  }

  lemma ChildrenLast(d: FsEntry, items: seq<FsEntry>, k: nat, rel: string, parts: seq<string>)
    requires d.Dir? && 0 < k <= |items|
    requires forall x :: x in items ==> x in d.entries
    ensures Children(d, items, k, rel, parts)
      == Children(d, items, k - 1, rel, parts) + ChildOf(d, items[k - 1], rel, parts)
  {
  }

  /** Every included file of a listed directory is in its model. */
  lemma IncludedFileListed(d: FsEntry, rel: string, parts: seq<string>, f: FsEntry)
    requires d.Dir? && d.readable && f in d.entries && f.File? && Included(f.name, parts + [f.name])
    ensures FileModel(f, rel)
            in Model(d, rel, parts).children.value
  {
    var items := SortBy(d.entries, ByName);
    SortedItemsAreEntries(d);
    assert f in multiset(d.entries);
    assert f in multiset(items);
    var j :| 0 <= j < |items| && items[j] == f;
    ChildrenHaveFiles(d, items, |items|, rel, parts);
  }
}
