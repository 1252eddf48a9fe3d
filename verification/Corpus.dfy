/**
 The corpus walk (src/corpus.rs `walk_facts`): a depth-first search with an explicit stack of path
 strings over a drive's tree, every directory listed by its path, the files found sorted by path.
 */
module Corpus {
  import opened Wrappers
  import opened WireTypes
  import opened Paths
  import opened Listing

  /** What the drive knows about a file that has content. */
  datatype Info = Info(nodeId: string, size: u64, mtimeMs: u64, locator: string, props: map<string, string>,
                       tags: seq<string>, links: seq<(string, string)>)

  datatype Item = File(name: string, info: Info) | Hollow(name: string) | Folder(name: string, items: seq<Item>)

  type Tree = seq<Item>

  datatype Facts = Facts(path: string, kind: Option<string>, info: Info)

  function FactsOf(path: string, info: Info): Facts {
    Facts(path, if "kind" in info.props then Some(info.props["kind"]) else None, info)
  }

  /** Every directory has strictly ascending, non-empty, slash-free names. */
  predicate WellFormed(tree: Tree) {
    && (forall k :: 0 <= k < |tree| ==> tree[k].name != "" && '/' !in tree[k].name)
    && (forall i, j :: 0 <= i < j < |tree| ==> Less(tree[i].name, tree[j].name))
    && (forall k :: 0 <= k < |tree| ==> tree[k].Folder? ==> WellFormed(tree[k].items))
  }

  // ----- the tree by paths -----

  /** The item of that name, if there is one. */
  function Named(tree: Tree, name: string): Option<Item> {
    if tree == [] then None else if tree[0].name == name then Some(tree[0]) else Named(tree[1..], name)
  }

  /** What is in the directory at `segs`. */
  function Find(tree: Tree, segs: seq<string>): Option<Tree>
    decreases |segs|
  {
    if segs == [] then Some(tree)
    else
      match Named(tree, segs[0])
      case Some(Folder(_, items)) => Find(items, segs[1..])
      case _ => None
  }

  /** `ls`: None when there is no directory there. */
  function Ls(drive: Tree, path: string): Option<Tree>
    requires path != ""
  {
    Find(drive, Segments(path))
  }

  /** The content-bearing file at `segs`, looked up from the root down. */
  function FileAt(tree: Tree, segs: seq<string>): Option<Info>
    decreases |segs|
  {
    if segs == [] then None
    else
      match Named(tree, segs[0])
      case Some(Folder(_, items)) => FileAt(items, segs[1..])
      case Some(File(_, info)) => if |segs| == 1 then Some(info) else None
      case _ => None
  }

  function Child(dir: string, name: string): string {
    if dir == "/" then "/" + name else dir + "/" + name
  }

  /** Where `segs` leads from `dir`. */
  function Descend(dir: string, segs: seq<string>): string
    decreases |segs|
  {
    if segs == [] then dir else Descend(Child(dir, segs[0]), segs[1..])
  }

  predicate Rooted(path: string) {
    path != "" && path[0] == '/'
  }

  // ----- the walk, as a recursion over the tree -----

  /** The content-bearing files under `dir` that one of its items accounts for. */
  function Part(dir: string, item: Item): seq<Facts>
    decreases item
  {
    match item
    case Folder(name, items) => Found(Child(dir, name), items)
    case File(name, info) => [FactsOf(Child(dir, name), info)]
    case Hollow(_) => []
  }

  /** Every content-bearing file under `dir`, in tree order. */
  function Found(dir: string, tree: Tree): seq<Facts>
    decreases tree
  {
    if tree == [] then [] else Part(dir, tree[0]) + Found(dir, tree[1..])
  }

  // ----- lookups -----

  lemma {:induction false} NamedAt(tree: Tree, k: nat)
    requires WellFormed(tree) && k < |tree|
    ensures Named(tree, tree[k].name) == Some(tree[k])
  {
    if k > 0 {
      LessIsStrict(tree[0].name, tree[k].name, tree[0].name);
      NamedAt(tree[1..], k - 1);
    }
  }

  lemma {:induction false} NamedIsAt(tree: Tree, name: string) returns (k: nat)
    requires Named(tree, name).Some?
    ensures k < |tree| && tree[k].name == name && Named(tree, name) == Some(tree[k])
  {
    if tree[0].name == name {
      k := 0;
    } else {
      k := NamedIsAt(tree[1..], name);
      k := k + 1;
    }
  }

  lemma {:induction false} FindSnoc(tree: Tree, segs: seq<string>, name: string)
    ensures Find(tree, segs + [name]) ==
            match Find(tree, segs)
            case None => None
            case Some(t) => Find(t, [name])
    decreases |segs|
  {
    if segs == [] {
      assert [] + [name] == [name];
    } else {
      assert (segs + [name])[1..] == segs[1..] + [name];
      match Named(tree, segs[0])
      case Some(Folder(_, items)) => FindSnoc(items, segs[1..], name);
      case _ =>
    }
  }

  lemma {:induction false} FindWellFormed(tree: Tree, segs: seq<string>)
    requires WellFormed(tree) && Find(tree, segs).Some?
    ensures WellFormed(Find(tree, segs).value)
    decreases |segs|
  {
    if segs != [] {
      var k := NamedIsAt(tree, segs[0]);
      FindWellFormed(tree[k].items, segs[1..]);
    }
  }

  lemma ChildSegments(dir: string, name: string)
    requires Rooted(dir) && name != "" && '/' !in name
    ensures Rooted(Child(dir, name)) && Segments(Child(dir, name)) == Segments(dir) + [name]
  {
    if dir == "/" {
      assert ("/" + name)[1..] == name;
      SplitAt(name, "");
    } else {
      assert (dir + "/" + name)[1..] == dir[1..] + "/" + name;
      SplitJoin(dir[1..], name);
      SplitAt(name, "");
    }
  }

  /** Listing the path the walk builds for a sub-directory gives that sub-directory. */
  lemma LsChild(drive: Tree, dir: string, k: nat)
    requires WellFormed(drive) && Rooted(dir) && Ls(drive, dir).Some? && k < |Ls(drive, dir).value|
    requires Ls(drive, dir).value[k].Folder?
    ensures var item := Ls(drive, dir).value[k];
            Rooted(Child(dir, item.name)) && Ls(drive, Child(dir, item.name)) == Some(item.items)
  {
    var tree := Ls(drive, dir).value;
    FindWellFormed(drive, Segments(dir));
    ChildSegments(dir, tree[k].name);
    FindSnoc(drive, Segments(dir), tree[k].name);
    NamedAt(tree, k);
    assert [tree[k].name][1..] == [];
  }

  // ----- the recursion finds exactly the files there are -----

  predicate Clear(segs: seq<string>) {
    forall k :: 0 <= k < |segs| ==> segs[k] != "" && '/' !in segs[k]
  }

  lemma {:induction false} DescendSegments(dir: string, segs: seq<string>)
    requires Rooted(dir) && Clear(segs)
    ensures Rooted(Descend(dir, segs)) && Segments(Descend(dir, segs)) == Segments(dir) + segs
    decreases |segs|
  {
    if segs == [] {
      assert Descend(dir, segs) == dir;
    } else {
      var child, rest := Child(dir, segs[0]), segs[1..];
      ChildSegments(dir, segs[0]);
      DescendSegments(child, rest);
      assert Descend(dir, segs) == Descend(child, rest);
      assert (Segments(dir) + [segs[0]]) + rest == Segments(dir) + segs;
    }
  }

  lemma {:induction false} PartIsFound(dir: string, tree: Tree, k: nat, f: Facts)
    requires k < |tree| && f in Part(dir, tree[k])
    ensures f in Found(dir, tree)
  {
    if k > 0 { PartIsFound(dir, tree[1..], k - 1, f); }
  }

  lemma {:induction false} FoundIsPart(dir: string, tree: Tree, f: Facts) returns (k: nat)
    requires f in Found(dir, tree)
    ensures k < |tree| && f in Part(dir, tree[k])
  {
    if f in Part(dir, tree[0]) {
      k := 0;
    } else {
      k := FoundIsPart(dir, tree[1..], f);
      k := k + 1;
    }
  }

  lemma {:induction false} FileIsFound(dir: string, tree: Tree, segs: seq<string>)
    requires FileAt(tree, segs).Some?
    ensures FactsOf(Descend(dir, segs), FileAt(tree, segs).value) in Found(dir, tree)
    decreases |segs|
  {
    var k := NamedIsAt(tree, segs[0]);
    var sub := Child(dir, segs[0]);
    if tree[k].Folder? {
      FileIsFound(sub, tree[k].items, segs[1..]);
    } else {
      assert segs[1..] == [];
      assert Descend(dir, segs) == Descend(sub, []) == sub;
    }
    PartIsFound(dir, tree, k, FactsOf(Descend(dir, segs), FileAt(tree, segs).value));
  }

  lemma {:induction false} FoundIsFile(dir: string, tree: Tree, f: Facts) returns (segs: seq<string>)
    requires WellFormed(tree) && f in Found(dir, tree)
    ensures segs != [] && Clear(segs) && FileAt(tree, segs) == Some(f.info) && f == FactsOf(Descend(dir, segs), f.info)
    ensures exists k :: 0 <= k < |tree| && tree[k].name == segs[0] && f in Part(dir, tree[k])
    decreases tree
  {
    var k := FoundIsPart(dir, tree, f);
    NamedAt(tree, k);
    if tree[k].Folder? {
      var rest := FoundIsFile(Child(dir, tree[k].name), tree[k].items, f);
      segs := [tree[k].name] + rest;
      assert segs[1..] == rest;
    } else {
      segs := [tree[k].name];
      assert segs[1..] == [];
    }
  }

  /** A path leads to one file at most. */
  lemma SamePathSameFile(dir: string, tree: Tree, f: Facts, g: Facts)
    requires WellFormed(tree) && Rooted(dir) && f in Found(dir, tree) && g in Found(dir, tree) && f.path == g.path
    ensures f == g
  {
    var a := FoundIsFile(dir, tree, f);
    var b := FoundIsFile(dir, tree, g);
    DescendSegments(dir, a);
    DescendSegments(dir, b);
    assert a == Segments(f.path)[|Segments(dir)|..] == b;
  }

  predicate DistinctPaths(fs: seq<Facts>) {
    forall i, j :: 0 <= i < j < |fs| ==> fs[i].path != fs[j].path
  }

  /** ... and it is found once. */
  lemma {:induction false} FoundOnce(dir: string, tree: Tree)
    requires WellFormed(tree) && Rooted(dir)
    ensures DistinctPaths(Found(dir, tree))
    decreases tree
  {
    if tree != [] {
      var head, tail := Part(dir, tree[0]), Found(dir, tree[1..]);
      if tree[0].Folder? {
        ChildSegments(dir, tree[0].name);
        FoundOnce(Child(dir, tree[0].name), tree[0].items);
      }
      FoundOnce(dir, tree[1..]);
      forall f, g | f in head && g in tail
        ensures f.path != g.path
      {
        PartsDiffer(dir, tree, f, g);
      }
    }
  }

  /** The first name below `dir` tells two parts apart. */
  lemma PartsDiffer(dir: string, tree: Tree, f: Facts, g: Facts)
    requires WellFormed(tree) && Rooted(dir) && tree != []
    requires f in Part(dir, tree[0]) && g in Found(dir, tree[1..])
    ensures f.path != g.path
  {
    PartIsFound(dir, [tree[0]], 0, f);
    var a := FoundIsFile(dir, [tree[0]], f);
    var b := FoundIsFile(dir, tree[1..], g);
    DescendSegments(dir, a);
    DescendSegments(dir, b);
    var n := |Segments(dir)|;
    assert (Segments(dir) + a)[n] == a[0] && (Segments(dir) + b)[n] == b[0];
    var k :| 0 <= k < |tree[1..]| && tree[1..][k].name == b[0];
    LessIsStrict(a[0], b[0], a[0]);
    LessIsStrict(a[0], a[0], a[0]);
    assert Less(tree[0].name, tree[k + 1].name);
  }

  // ----- sorting by path -----

  predicate Ascending(fs: seq<Facts>) {
    forall i, j :: 0 <= i < j < |fs| ==> !Less(fs[j].path, fs[i].path)
  }

  predicate StrictlyAscending(fs: seq<Facts>) {
    forall i, j :: 0 <= i < j < |fs| ==> Less(fs[i].path, fs[j].path)
  }

  function Insert(f: Facts, fs: seq<Facts>): seq<Facts> {
    if fs == [] || !Less(fs[0].path, f.path) then [f] + fs else [fs[0]] + Insert(f, fs[1..])
  }

  /** `sort_by(|a, b| a.path.cmp(&b.path))`: stable, ascending. */
  function SortByPath(fs: seq<Facts>): seq<Facts> {
    if fs == [] then [] else Insert(fs[0], SortByPath(fs[1..]))
  }

  lemma {:induction false} InsertPermutes(f: Facts, fs: seq<Facts>)
    ensures multiset(Insert(f, fs)) == multiset{f} + multiset(fs)
  {
    if fs != [] {
      assert fs == [fs[0]] + fs[1..];
      InsertPermutes(f, fs[1..]);
    }
  }

  lemma InsertMembers(f: Facts, fs: seq<Facts>, g: Facts)
    ensures g in Insert(f, fs) <==> g == f || g in fs
  {
    InsertPermutes(f, fs);
    assert g in Insert(f, fs) <==> g in multiset(Insert(f, fs));
  }

  lemma {:induction false} InsertAscends(f: Facts, fs: seq<Facts>)
    requires Ascending(fs)
    ensures Ascending(Insert(f, fs))
    ensures StrictlyAscending(fs) && (forall g <- fs :: g.path != f.path) ==> StrictlyAscending(Insert(f, fs))
  {
    if fs == [] {
    } else if !Less(fs[0].path, f.path) {
      forall k | 0 <= k < |fs|
        ensures !Less(fs[k].path, f.path)
        ensures fs[0].path != f.path && (k > 0 ==> Less(fs[0].path, fs[k].path)) ==> Less(f.path, fs[k].path)
      {
        LessIsTotal(f.path, fs[0].path);
        LessIsTotal(fs[0].path, fs[k].path);
        LessIsStrict(f.path, fs[0].path, fs[k].path);
        LessIsStrict(fs[k].path, f.path, fs[0].path);
        LessIsStrict(f.path, fs[k].path, f.path);
      }
    } else {
      InsertAscends(f, fs[1..]);
      forall g | g in Insert(f, fs[1..])
        ensures !Less(g.path, fs[0].path)
        ensures StrictlyAscending(fs) ==> Less(fs[0].path, g.path)
      {
        InsertMembers(f, fs[1..], g);
        LessIsStrict(fs[0].path, f.path, fs[0].path);
      }
    }
  }

  lemma {:induction false} SortSorts(fs: seq<Facts>)
    ensures multiset(SortByPath(fs)) == multiset(fs) && Ascending(SortByPath(fs))
    ensures DistinctPaths(fs) ==> StrictlyAscending(SortByPath(fs))
  {
    if fs != [] {
      SortSorts(fs[1..]);
      assert fs == [fs[0]] + fs[1..];
      InsertPermutes(fs[0], SortByPath(fs[1..]));
      forall g | g in SortByPath(fs[1..])
        ensures g in fs[1..]
      {
        assert g in multiset(SortByPath(fs[1..]));
      }
      InsertAscends(fs[0], SortByPath(fs[1..]));
    }
  }

  predicate KeyedByPath(fs: seq<Facts>) {
    forall f, g :: f in fs && g in fs && f.path == g.path ==> f == g
  }

  lemma NothingBeforeHead(a: seq<Facts>, f: Facts)
    requires Ascending(a) && f in a
    ensures !Less(f.path, a[0].path)
  {
    LessIsStrict(f.path, f.path, f.path);
  }

  lemma HeadsAgree(a: seq<Facts>, b: seq<Facts>)
    requires a != [] && b != [] && multiset(a) == multiset(b)
    requires Ascending(a) && Ascending(b) && KeyedByPath(a)
    ensures a[0] == b[0]
  {
    assert a[0] in multiset(b) && b[0] in multiset(a);
    NothingBeforeHead(a, b[0]);
    NothingBeforeHead(b, a[0]);
    LessIsTotal(a[0].path, b[0].path);
  }

  lemma TailsAgree(a: seq<Facts>, b: seq<Facts>)
    requires a != [] && b != [] && multiset(a) == multiset(b) && a[0] == b[0]
    ensures multiset(a[1..]) == multiset(b[1..])
  {
    assert a == [a[0]] + a[1..] && b == [b[0]] + b[1..];
    assert multiset(a[1..]) == multiset(a) - multiset{a[0]};
    assert multiset(b[1..]) == multiset(b) - multiset{b[0]};
  }

  /** When paths identify facts, there is one way to sort them. */
  lemma {:induction false} SortedIsUnique(a: seq<Facts>, b: seq<Facts>)
    requires multiset(a) == multiset(b) && Ascending(a) && Ascending(b) && KeyedByPath(a)
    ensures a == b
  {
    if a == [] || b == [] {
      assert |multiset(a)| == |multiset(b)|;
    } else {
      HeadsAgree(a, b);
      TailsAgree(a, b);
      assert KeyedByPath(a[1..]);
      SortedIsUnique(a[1..], b[1..]);
    }
  }

  // ----- the walk as it is written -----

  /** What listing `dir` would still yield. */
  function Under(drive: Tree, dir: string): seq<Facts>
    requires dir != ""
  {
    match Ls(drive, dir)
    case Some(tree) => Found(dir, tree)
    case None => []
  }

  predicate AllRooted(stack: seq<string>) {
    forall k :: 0 <= k < |stack| ==> Rooted(stack[k])
  }

  /** What the directories on the stack would still yield. */
  function Pending(drive: Tree, stack: seq<string>): multiset<Facts>
    requires AllRooted(stack)
  {
    if stack == [] then multiset{}
    else Pending(drive, stack[..|stack| - 1]) + multiset(Under(drive, stack[|stack| - 1]))
  }

  /** How many directories lie below. */
  function Folders(tree: Tree): nat {
    if tree == [] then 0
    else (match tree[0] case Folder(_, items) => 1 + Folders(items) case _ => 0) + Folders(tree[1..])
  }

  /** How many directories are still to be listed. */
  function ToVisit(drive: Tree, stack: seq<string>): nat
    requires AllRooted(stack)
  {
    if stack == [] then 0
    else
      var tree := Ls(drive, stack[|stack| - 1]);
      ToVisit(drive, stack[..|stack| - 1]) + 1 + if tree.Some? then Folders(tree.value) else 0
  }

  /** The corpus under a path: its files sorted by path, none when it is not a directory. */
  function CorpusOf(drive: Tree, path: string): seq<Facts>
    requires path != ""
  {
    SortByPath(Under(drive, path))
  }

  /** Looking at item `k` takes its part out of what is left of the directory. */
  lemma TakeItem(dir: string, tree: Tree, k: nat)
    requires k < |tree|
    ensures multiset(Found(dir, tree[k..])) == multiset(Part(dir, tree[k])) + multiset(Found(dir, tree[k + 1..]))
    ensures Folders(tree[k..])
            == (match tree[k] case Folder(_, items) => 1 + Folders(items) case _ => 0) + Folders(tree[k + 1..])
  {
    assert tree[k..][1..] == tree[k + 1..] && tree[k..][0] == tree[k];
  }

  /** Pushing sub-directory `k` adds its part to what is pending. */
  lemma PushFolder(drive: Tree, dir: string, tree: Tree, k: nat, stack: seq<string>)
    requires WellFormed(drive) && Rooted(dir) && Ls(drive, dir) == Some(tree) && AllRooted(stack)
    requires k < |tree| && tree[k].Folder?
    ensures var pushed := stack + [Child(dir, tree[k].name)];
            && AllRooted(pushed)
            && Pending(drive, pushed) == Pending(drive, stack) + multiset(Part(dir, tree[k]))
            && ToVisit(drive, pushed) == ToVisit(drive, stack) + 1 + Folders(tree[k].items)
  {
    LsChild(drive, dir, k);
    assert (stack + [Child(dir, tree[k].name)])[..|stack|] == stack;
  }

  /** What is found, pending and still in the directory at hand. */
  function Account(drive: Tree, dir: string, stack: seq<string>, out: seq<Facts>, left: Tree): multiset<Facts>
    requires AllRooted(stack)
  {
    multiset(out) + Pending(drive, stack) + multiset(Found(dir, left))
  }

  lemma AccountFolder(drive: Tree, dir: string, tree: Tree, k: nat, stack: seq<string>, out: seq<Facts>)
    requires WellFormed(drive) && Rooted(dir) && Ls(drive, dir) == Some(tree) && AllRooted(stack)
    requires k < |tree| && tree[k].Folder?
    ensures var pushed := stack + [Child(dir, tree[k].name)];
            && AllRooted(pushed)
            && Account(drive, dir, pushed, out, tree[k + 1..]) == Account(drive, dir, stack, out, tree[k..])
            && ToVisit(drive, pushed) + Folders(tree[k + 1..]) == ToVisit(drive, stack) + Folders(tree[k..])
  {
    TakeItem(dir, tree, k);
    PushFolder(drive, dir, tree, k, stack);
  }

  lemma AccountFile(drive: Tree, dir: string, tree: Tree, k: nat, stack: seq<string>, out: seq<Facts>)
    requires AllRooted(stack) && k < |tree| && tree[k].File?
    ensures var grown := out + [FactsOf(Child(dir, tree[k].name), tree[k].info)];
            && Account(drive, dir, stack, grown, tree[k + 1..]) == Account(drive, dir, stack, out, tree[k..])
            && Folders(tree[k + 1..]) == Folders(tree[k..])
  {
    TakeItem(dir, tree, k);
  }

  lemma AccountHollow(drive: Tree, dir: string, tree: Tree, k: nat, stack: seq<string>, out: seq<Facts>)
    requires AllRooted(stack) && k < |tree| && tree[k].Hollow?
    ensures Account(drive, dir, stack, out, tree[k + 1..]) == Account(drive, dir, stack, out, tree[k..])
    ensures Folders(tree[k + 1..]) == Folders(tree[k..])
  {
    TakeItem(dir, tree, k);
  }

  /** One item: a file goes out, a sub-directory goes on the stack. */
  method VisitItem(drive: Tree, dir: string, ghost tree: Tree, ghost k: nat, item: Item, stack0: seq<string>,
                   out0: seq<Facts>)
    returns (stack: seq<string>, out: seq<Facts>)
    requires WellFormed(drive) && Rooted(dir) && Ls(drive, dir) == Some(tree) && AllRooted(stack0)
    requires k < |tree| && item == tree[k]
    ensures AllRooted(stack)
    ensures Account(drive, dir, stack, out, tree[k + 1..]) == Account(drive, dir, stack0, out0, tree[k..])
    ensures ToVisit(drive, stack) + Folders(tree[k + 1..]) == ToVisit(drive, stack0) + Folders(tree[k..])
  {
    stack, out := stack0, out0;
    var child := Child(dir, item.name);
    match item {
      case Folder(_, _) =>
        AccountFolder(drive, dir, tree, k, stack, out);
        stack := stack + [child];
      case File(_, info) =>
        AccountFile(drive, dir, tree, k, stack, out);
        out := out + [FactsOf(child, info)];
      case Hollow(_) =>
        AccountHollow(drive, dir, tree, k, stack, out);
    }
  }

  /** One directory: its files go out, its sub-directories go on the stack. */
  method Visit(drive: Tree, dir: string, tree: Tree, stack0: seq<string>, out0: seq<Facts>)
    returns (stack: seq<string>, out: seq<Facts>)
    requires WellFormed(drive) && Rooted(dir) && Ls(drive, dir) == Some(tree) && AllRooted(stack0)
    ensures AllRooted(stack)
    ensures multiset(out) + Pending(drive, stack)
            == multiset(out0) + Pending(drive, stack0) + multiset(Found(dir, tree))
    ensures ToVisit(drive, stack) == ToVisit(drive, stack0) + Folders(tree)
  {
    stack, out := stack0, out0;
    assert tree[0..] == tree;
    for k := 0 to |tree|
      invariant AllRooted(stack)
      invariant Account(drive, dir, stack, out, tree[k..]) == Account(drive, dir, stack0, out0, tree)
      invariant ToVisit(drive, stack) + Folders(tree[k..]) == ToVisit(drive, stack0) + Folders(tree)
    {
      stack, out := VisitItem(drive, dir, tree, k, tree[k], stack, out);
    }
    assert tree[|tree|..] == [];
  }

  /** `walk_facts`. */
  method WalkFacts(drive: Tree, path: string) returns (facts: seq<Facts>)
    requires WellFormed(drive) && Rooted(path)
    ensures facts == CorpusOf(drive, path)
  {
    var out: seq<Facts> := [];
    var stack := [path];
    assert stack[..0] == [];
    while stack != []
      invariant AllRooted(stack)
      invariant multiset(out) + Pending(drive, stack) == multiset(Under(drive, path))
      decreases ToVisit(drive, stack)
    {
      var dir := stack[|stack| - 1];
      stack := stack[..|stack| - 1];
      var tree := Ls(drive, dir);
      if tree.None? { continue; }
      stack, out := Visit(drive, dir, tree.value, stack, out);
    }
    facts := SortByPath(out);
    SameSort(drive, path, out);
  }

  lemma SameSort(drive: Tree, path: string, out: seq<Facts>)
    requires WellFormed(drive) && Rooted(path) && multiset(out) == multiset(Under(drive, path))
    ensures SortByPath(out) == CorpusOf(drive, path)
  {
    var found := Under(drive, path);
    SortSorts(out);
    SortSorts(found);
    forall f, g | f in SortByPath(out) && g in SortByPath(out) && f.path == g.path
      ensures f == g
    {
      assert f in multiset(found) && g in multiset(found) by {
        assert f in multiset(SortByPath(out)) && g in multiset(SortByPath(out));
      }
      FindWellFormed(drive, Segments(path));
      SamePathSameFile(path, Ls(drive, path).value, f, g);
    }
    SortedIsUnique(SortByPath(out), SortByPath(found));
  }

  lemma CorpusMembers(drive: Tree, path: string, f: Facts)
    requires path != ""
    ensures f in CorpusOf(drive, path) <==> f in Under(drive, path)
  {
    SortSorts(Under(drive, path));
    assert f in CorpusOf(drive, path) <==> f in multiset(CorpusOf(drive, path));
  }

  /** The corpus is strictly sorted by path, so nothing is there twice. */
  lemma CorpusAscends(drive: Tree, path: string)
    requires WellFormed(drive) && Rooted(path)
    ensures StrictlyAscending(CorpusOf(drive, path))
  {
    if Ls(drive, path).Some? {
      FindWellFormed(drive, Segments(path));
      FoundOnce(path, Ls(drive, path).value);
    }
    SortSorts(Under(drive, path));
  }

  /** The facts of the file that `segs` leads to from the directory `path`: where it is, the kind that its
      properties name, if they do, and all the drive knows of it. */
  predicate LeadsTo(drive: Tree, path: string, segs: seq<string>, f: Facts)
    requires path != ""
  {
    && Ls(drive, path).Some?
    && FileAt(Ls(drive, path).value, segs) == Some(f.info)
    && Rooted(f.path) && Segments(f.path) == Segments(path) + segs
    && f.kind == if "kind" in f.info.props then Some(f.info.props["kind"]) else None
  }

  lemma {:induction false} FileAtClear(tree: Tree, segs: seq<string>)
    requires WellFormed(tree) && FileAt(tree, segs).Some?
    ensures Clear(segs)
    decreases |segs|
  {
    var k := NamedIsAt(tree, segs[0]);
    if tree[k].Folder? {
      FileAtClear(tree[k].items, segs[1..]);
      assert forall i :: 0 < i < |segs| ==> segs[i] == segs[1..][i - 1];
    }
  }

  /** The path the walk builds for a file is the one its segments spell. */
  lemma LeadsToFacts(drive: Tree, path: string, segs: seq<string>, f: Facts)
    requires WellFormed(drive) && Rooted(path) && Ls(drive, path).Some?
    requires FileAt(Ls(drive, path).value, segs) == Some(f.info)
    ensures LeadsTo(drive, path, segs, f) <==> f == FactsOf(Descend(path, segs), f.info)
  {
    FindWellFormed(drive, Segments(path));
    FileAtClear(Ls(drive, path).value, segs);
    DescendSegments(path, segs);
    if LeadsTo(drive, path, segs, f) { SegmentsInjective(f.path, Descend(path, segs)); }
  }

  /** The corpus is exactly the files with content that a lookup from the start path finds. */
  lemma CorpusIsExact(drive: Tree, path: string, f: Facts)
    requires WellFormed(drive) && Rooted(path)
    ensures f in CorpusOf(drive, path) <==> exists segs :: LeadsTo(drive, path, segs, f)
  {
    CorpusMembers(drive, path, f);
    if f in CorpusOf(drive, path) {
      FindWellFormed(drive, Segments(path));
      var segs := FoundIsFile(path, Ls(drive, path).value, f);
      LeadsToFacts(drive, path, segs, f);
    }
    if segs :| LeadsTo(drive, path, segs, f) {
      LeadsToFacts(drive, path, segs, f);
      FileIsFound(path, Ls(drive, path).value, segs);
    }
  }

  // ----- files told apart by node id -----

  /** No two files of the drive have one node id. */
  ghost predicate UniqueNodes(drive: Tree) {
    forall a, b :: FileAt(drive, a).Some? && FileAt(drive, b).Some? && a != b
                   ==> FileAt(drive, a).value.nodeId != FileAt(drive, b).value.nodeId
  }

  /** Looking up from a directory is looking up from the root. */
  lemma {:induction false} FileAtBelow(tree: Tree, at: seq<string>, segs: seq<string>)
    requires Find(tree, at).Some? && FileAt(Find(tree, at).value, segs).Some?
    ensures FileAt(tree, at + segs) == FileAt(Find(tree, at).value, segs)
    decreases |at|
  {
    if at == [] {
      assert at + segs == segs;
    } else {
      assert (at + segs)[1..] == at[1..] + segs && (at + segs)[0] == at[0];
      var k := NamedIsAt(tree, at[0]);
      FileAtBelow(tree[k].items, at[1..], segs);
    }
  }

  /** So a walk meets every node id once. */
  lemma SameNodeSamePath(drive: Tree, path: string, f: Facts, g: Facts)
    requires WellFormed(drive) && Rooted(path) && UniqueNodes(drive)
    requires f in CorpusOf(drive, path) && g in CorpusOf(drive, path) && f.info.nodeId == g.info.nodeId
    ensures f.path == g.path
  {
    CorpusIsExact(drive, path, f);
    CorpusIsExact(drive, path, g);
    var a :| LeadsTo(drive, path, a, f);
    var b :| LeadsTo(drive, path, b, g);
    FileAtBelow(drive, Segments(path), a);
    FileAtBelow(drive, Segments(path), b);
    SegmentsInjective(f.path, g.path);
  }
}
