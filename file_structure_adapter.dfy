/** The source-viewer's directory browser: the shown items, a stack of the
    lists of the directories above, and the title. */
module FileStructureAdapter {
  import opened Wrappers
  import opened Text
  import opened SourceCodeModel

  const RootTitle := "Source Code"
  const FallbackTitle := "Previous Directory"

  /** What the adapter shows: items, directoryStack (top last) and currentDirectory. */
  datatype Browser = Browser(items: seq<SourceCodeModel>, stack: seq<seq<SourceCodeModel>>,
                             currentDirectory: string)

  /** submitInitialList. */
  function SubmitInitial(newItems: seq<SourceCodeModel>): (b: Browser)
    ensures b.items == newItems && b.stack == [] && b.currentDirectory == RootTitle
  {
    Browser(newItems, [], RootTitle)
  }

  /** navigateToDirectory: a file changes nothing; a directory pushes the
      shown items, shows its children (none when null) and takes its name. */
  function Enter(b: Browser, directory: SourceCodeModel): (r: Browser)
    ensures !directory.isDirectory ==> r == b
    ensures directory.isDirectory ==>
      r.stack == b.stack + [b.items] && r.currentDirectory == directory.name
      && r.items == directory.children.GetOr([])
  {
    if !directory.isDirectory then b
    else Browser(directory.children.GetOr([]), b.stack + [b.items], directory.name)
  }

  /** The title after going back into a non-root list: the parent folder of
      its first item's path, else "Previous Directory". */
  function BackTitle(items: seq<SourceCodeModel>): (t: string)
    ensures items == [] ==> t == FallbackTitle
    ensures t != FallbackTitle ==> '/' !in t
  {
    if items != [] && '/' in items[0].path then
      var path := items[0].path;
      var lastSlashIndex := LastIndexOf(path, '/');
      if 0 <= lastSlashIndex < |path| - 1 then SubstringAfterLast(path[..lastSlashIndex], '/')
      else FallbackTitle
    else FallbackTitle
  }

  /** navigateBack: false and no change on an empty stack; otherwise pops. */
  function Back(b: Browser): (r: (Browser, bool))
    ensures r.1 <==> b.stack != []
    ensures !r.1 ==> r.0 == b
    ensures r.1 ==> r.0.items == b.stack[|b.stack| - 1] && r.0.stack == b.stack[..|b.stack| - 1]
    ensures r.1 && |b.stack| == 1 ==> r.0.currentDirectory == RootTitle
  {
    if b.stack == [] then (b, false)
    else
      var items := b.stack[|b.stack| - 1];
      var stack := b.stack[..|b.stack| - 1];
      (Browser(items, stack, if stack == [] then RootTitle else BackTitle(items)), true)
  }

  /** isAtRootLevel. */
  predicate AtRoot(b: Browser) {
    b.stack == []
  }

  /** Entering a directory and going back restores the items and the stack
      depth, and, from the root, the root title. */
  lemma EnterThenBack(b: Browser, directory: SourceCodeModel)
    requires directory.isDirectory
    ensures Back(Enter(b, directory)).1
    ensures Back(Enter(b, directory)).0.items == b.items
    ensures Back(Enter(b, directory)).0.stack == b.stack
    ensures AtRoot(b) ==> Back(Enter(b, directory)).0.currentDirectory == RootTitle
  {
    var e := Enter(b, directory);
    assert e.stack[..|e.stack| - 1] == b.stack;
  }

  /** Going back from depth n reaches the root after n steps, never before. */
  lemma BackDepth(b: Browser, n: nat)
    requires |b.stack| == n + 1
    ensures !AtRoot(b) && |Back(b).0.stack| == n
    ensures AtRoot(Back(b).0) <==> n == 0
  {
  }

  class FileStructureAdapter {
    var items: seq<SourceCodeModel>
    var directoryStack: seq<seq<SourceCodeModel>>
    var currentDirectory: string

    function State(): Browser
      reads this
    {
      Browser(items, directoryStack, currentDirectory)
    }

    constructor ()
      ensures items == [] && directoryStack == [] && currentDirectory == RootTitle
    {
      items := [];
      directoryStack := [];
      currentDirectory := RootTitle;
    }

    method SubmitInitialList(newItems: seq<SourceCodeModel>)
      modifies this
      ensures State() == SubmitInitial(newItems)
    {
      items := newItems;
      directoryStack := [];
      currentDirectory := RootTitle;
    }

    /** The legacy submitList: replaces the items, keeps stack and title. */
    method SubmitList(newItems: seq<SourceCodeModel>)
      modifies this
      ensures items == newItems && directoryStack == old(directoryStack)
      ensures currentDirectory == old(currentDirectory)
    {
      items := newItems;
    }

    method NavigateToDirectory(directory: SourceCodeModel)
      modifies this
      ensures State() == Enter(old(State()), directory)
    {
      if !directory.isDirectory {
        return;
      }
      directoryStack := directoryStack + [items];
      currentDirectory := directory.name;
      items := directory.children.GetOr([]);
    }

    method NavigateBack() returns (moved: bool)
      modifies this
      ensures (State(), moved) == Back(old(State()))
    {
      if directoryStack == [] {
        return false;
      }
      items := directoryStack[|directoryStack| - 1];
      directoryStack := directoryStack[..|directoryStack| - 1];
      currentDirectory := if directoryStack == [] then RootTitle else BackTitle(items);
      return true;
    }

    function IsAtRootLevel(): (root: bool)
      reads this
      ensures root <==> AtRoot(State())
    {
      directoryStack == []
    }
  }
}
