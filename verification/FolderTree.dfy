/** The prompt-folder forest: built from a flat list of folders that name their parents. */
module FolderTree {
  import opened NoRepeats
  import opened Options
  import opened OrderedDicts
  import opened VersionText

  datatype Folder = Folder(id: string, name: string, parent: Option<string>, sortOrder: int)

  datatype Tree = Node(folder: Folder, children: seq<Tree>)

  // ---------------------------------------------------------------- siblings

  /** The folders filed under a parent, `None` for the roots, in list order. */
  function ChildrenOf(folders: seq<Folder>, parent: Option<string>): seq<Folder> {
    if folders == [] then []
    else if folders[0].parent == parent then [folders[0]] + ChildrenOf(folders[1..], parent)
    else ChildrenOf(folders[1..], parent)
  }

  /** Siblings sort by their order number, then by name. */
  function CompareKeys(a: Folder, b: Folder): int {
    if a.sortOrder != b.sortOrder then Sign(a.sortOrder, b.sortOrder) else CompareText(a.name, b.name)
  }

  /** Stable: a folder goes before those with a greater or an equal key that followed it. */
  function Insert(f: Folder, sorted: seq<Folder>): seq<Folder> {
    if sorted == [] || CompareKeys(f, sorted[0]) <= 0 then [f] + sorted
    else [sorted[0]] + Insert(f, sorted[1..])
  }

  function SortSiblings(fs: seq<Folder>): seq<Folder> {
    if fs == [] then [] else Insert(fs[0], SortSiblings(fs[1..]))
  }

  // ---------------------------------------------------------------- parent chains

  function Find(folders: seq<Folder>, id: string): Option<Folder> {
    if folders == [] then None
    else if folders[0].id == id then Some(folders[0])
    else Find(folders[1..], id)
  }

  ghost predicate DistinctIds(folders: seq<Folder>) {
    folders == [] || (Find(folders[1..], folders[0].id) == None && DistinctIds(folders[1..]))
  }

  /** The folders by id: a repeated id keeps its place and takes the later data. */
  function Entered(folders: seq<Folder>, f: Folder): seq<Folder> {
    if folders == [] then [f]
    else if folders[0].id == f.id then [f] + folders[1..]
    else [folders[0]] + Entered(folders[1..], f)
  }

  /** The folder map of a list, in insertion order. */
  function FolderMap(all: seq<Folder>): seq<Folder> {
    if all == [] then [] else Entered(FolderMap(all[..|all| - 1]), all[|all| - 1])
  }

  function Parent(path: seq<string>): Option<string> {
    if path == [] then None else Some(path[|path| - 1])
  }

  /** A path of ids from a root down, each filed under the one before it. */
  predicate IsChain(folders: seq<Folder>, path: seq<string>)
    decreases |path|
  {
    path == [] ||
    (var f := Find(folders, path[|path| - 1]);
     && f.Some? && f.value.parent == Parent(path[..|path| - 1])
     && IsChain(folders, path[..|path| - 1]))
  }

  /** Following the parents of `id` leads to a root. */
  ghost predicate ReachesRoot(folders: seq<Folder>, id: string) {
    exists path :: IsChain(folders, path) && Parent(path) == Some(id)
  }

  lemma {:induction false} ChainIsUnique(folders: seq<Folder>, p: seq<string>, q: seq<string>)
    requires IsChain(folders, p) && IsChain(folders, q) && Parent(p) == Parent(q)
    ensures p == q
    decreases |p|
  {
    if p != [] {
      ChainIsUnique(folders, p[..|p| - 1], q[..|q| - 1]);
      assert p == p[..|p| - 1] + [p[|p| - 1]] && q == q[..|q| - 1] + [q[|q| - 1]];
    }
  }

  lemma {:induction false} ChainPrefix(folders: seq<Folder>, p: seq<string>, n: nat)
    requires IsChain(folders, p) && n <= |p|
    ensures IsChain(folders, p[..n])
    decreases |p|
  {
    if n < |p| {
      ChainPrefix(folders, p[..|p| - 1], n);
      assert p[..|p| - 1][..n] == p[..n];
    } else {
      assert p[..n] == p;
    }
  }

  lemma ChainDoesNotRepeat(folders: seq<Folder>, p: seq<string>, i: nat, j: nat)
    requires IsChain(folders, p) && i < j < |p|
    ensures p[i] != p[j]
  {
    if p[i] == p[j] {
      ChainPrefix(folders, p, i + 1);
      ChainPrefix(folders, p, j + 1);
      ghost var (short, long) := (p[..i + 1], p[..j + 1]);
      assert |short| < |long|;
      ChainIsUnique(folders, short, long);
    }
  }

  ghost function IdsOf(folders: seq<Folder>): set<string> {
    set f | f in folders :: f.id
  }

  lemma {:induction false} IdCount(folders: seq<Folder>)
    ensures |IdsOf(folders)| <= |folders|
  {
    if folders != [] {
      IdCount(folders[1..]);
      assert folders == [folders[0]] + folders[1..];
      assert IdsOf(folders) == {folders[0].id} + IdsOf(folders[1..]);
    }
  }

  lemma {:induction false} FoundIsIn(folders: seq<Folder>, id: string)
    ensures Find(folders, id).Some? ==> Find(folders, id).value in folders && Find(folders, id).value.id == id
  {
    if folders != [] {
      FoundIsIn(folders[1..], id);
    }
  }

  ghost function Elements(p: seq<string>): set<string> {
    set x | x in p
  }

  lemma {:induction false} ElementCount(folders: seq<Folder>, p: seq<string>)
    requires IsChain(folders, p)
    ensures |Elements(p)| == |p|
    decreases |p|
  {
    if p != [] {
      var (init, last) := (p[..|p| - 1], p[|p| - 1]);
      ElementCount(folders, init);
      assert p == init + [last];
      if last in init {
        var i :| 0 <= i < |init| && init[i] == last;
        ChainDoesNotRepeat(folders, p, i, |init|);
        assert false;
      }
      assert Elements(p) == Elements(init) + {last};
    }
  }

  /** No chain is longer than the list of folders, whatever cycles the other folders form. */
  lemma ChainIsShort(folders: seq<Folder>, p: seq<string>)
    requires IsChain(folders, p)
    ensures |p| <= |folders|
  {
    ElementCount(folders, p);
    forall x | x in p ensures x in IdsOf(folders) {
      var i :| 0 <= i < |p| && p[i] == x;
      ChainPrefix(folders, p, i + 1);
      FoundIsIn(folders, x);
    }
    SubsetSize(Elements(p), IdsOf(folders));
    IdCount(folders);
  }

  // ---------------------------------------------------------------- the forest

  ghost predicate FiledUnder(folders: seq<Folder>, path: seq<string>, fs: seq<Folder>) {
    forall f | f in fs :: Find(folders, f.id) == Some(f) && f.parent == Parent(path)
  }

  /** The trees of these siblings below `path`. */
  ghost function Trees(folders: seq<Folder>, path: seq<string>, fs: seq<Folder>): seq<Tree>
    requires IsChain(folders, path) && FiledUnder(folders, path, fs) && DistinctIds(folders)
    decreases |folders| - |path|, |fs|
  {
    if fs == [] then []
    else
      var below := path + [fs[0].id];
      ExtendChain(folders, path, fs[0]);
      [Node(fs[0], Trees(folders, below, SortSiblings(ChildrenOf(folders, Some(fs[0].id)))))]
      + Trees(folders, path, fs[1..])
  }

  ghost function Forest(folders: seq<Folder>): seq<Tree>
    requires DistinctIds(folders)
  {
    SortedChildrenAreFiled(folders, []);
    Trees(folders, [], SortSiblings(ChildrenOf(folders, None)))
  }

  lemma ExtendChain(folders: seq<Folder>, path: seq<string>, f: Folder)
    requires IsChain(folders, path) && DistinctIds(folders)
    requires Find(folders, f.id) == Some(f) && f.parent == Parent(path)
    ensures IsChain(folders, path + [f.id]) && |path| < |folders|
    ensures FiledUnder(folders, path + [f.id], SortSiblings(ChildrenOf(folders, Some(f.id))))
  {
    var below := path + [f.id];
    assert below[..|below| - 1] == path;
    ChainIsShort(folders, below);
    SortedChildrenAreFiled(folders, below);
  }

  lemma {:induction false} ChildrenFacts(folders: seq<Folder>, parent: Option<string>)
    ensures forall f :: f in ChildrenOf(folders, parent) <==> f in folders && f.parent == parent
  {
    if folders != [] {
      ChildrenFacts(folders[1..], parent);
      assert folders == [folders[0]] + folders[1..];
    }
  }

  lemma {:induction false} FindsItself(folders: seq<Folder>, f: Folder)
    requires DistinctIds(folders) && f in folders
    ensures Find(folders, f.id) == Some(f)
  {
    if folders[0] != f {
      FindsItself(folders[1..], f);
    }
  }

  lemma SortedChildrenAreFiled(folders: seq<Folder>, path: seq<string>)
    requires DistinctIds(folders)
    ensures FiledUnder(folders, path, SortSiblings(ChildrenOf(folders, Parent(path))))
  {
    var cs := ChildrenOf(folders, Parent(path));
    ChildrenFacts(folders, Parent(path));
    forall f | f in SortSiblings(cs) ensures Find(folders, f.id) == Some(f) && f.parent == Parent(path) {
      SortKeepsElements(cs);
      FindsItself(folders, f);
    }
  }

  // ---------------------------------------------------------------- the sort

  lemma {:induction false} InsertKeepsElements(f: Folder, sorted: seq<Folder>)
    ensures multiset(Insert(f, sorted)) == multiset{f} + multiset(sorted)
  {
    if sorted != [] && CompareKeys(f, sorted[0]) > 0 {
      InsertKeepsElements(f, sorted[1..]);
      assert sorted == [sorted[0]] + sorted[1..];
    }
  }

  lemma {:induction false} SortIsPermutation(fs: seq<Folder>)
    ensures multiset(SortSiblings(fs)) == multiset(fs)
  {
    if fs != [] {
      SortIsPermutation(fs[1..]);
      InsertKeepsElements(fs[0], SortSiblings(fs[1..]));
      assert fs == [fs[0]] + fs[1..];
    }
  }

  lemma SortKeepsElements(fs: seq<Folder>)
    ensures forall f :: f in SortSiblings(fs) <==> f in fs
  {
    SortIsPermutation(fs);
    forall f ensures f in SortSiblings(fs) <==> f in fs {
      assert f in SortSiblings(fs) <==> f in multiset(SortSiblings(fs));
    }
  }

  ghost predicate Sorted(fs: seq<Folder>) {
    fs == [] || ((forall g | g in fs[1..] :: CompareKeys(fs[0], g) <= 0) && Sorted(fs[1..]))
  }

  lemma KeysTransitive(a: Folder, b: Folder, c: Folder)
    requires CompareKeys(a, b) <= 0 && CompareKeys(b, c) <= 0
    ensures CompareKeys(a, c) <= 0
  {
    if a.sortOrder == b.sortOrder == c.sortOrder {
      TextTransitive(a.name, b.name, c.name);
    }
  }

  lemma KeysAntisymmetric(a: Folder, b: Folder)
    ensures CompareKeys(a, b) == -CompareKeys(b, a)
  {
    TextOrder(a.name, b.name);
  }

  lemma {:induction false} InsertKeepsSorted(f: Folder, sorted: seq<Folder>)
    requires Sorted(sorted)
    ensures Sorted(Insert(f, sorted))
  {
    var r := Insert(f, sorted);
    InsertKeepsElements(f, sorted);
    if sorted == [] || CompareKeys(f, sorted[0]) <= 0 {
      assert r[1..] == sorted;
      forall g | g in sorted ensures CompareKeys(f, g) <= 0 {
        if g != sorted[0] {
          assert sorted == [sorted[0]] + sorted[1..];
          KeysTransitive(f, sorted[0], g);
        }
      }
    } else {
      InsertKeepsSorted(f, sorted[1..]);
      InsertKeepsElements(f, sorted[1..]);
      assert r[1..] == Insert(f, sorted[1..]);
      KeysAntisymmetric(f, sorted[0]);
      forall g | g in r[1..] ensures CompareKeys(sorted[0], g) <= 0 {
        assert g in multiset(r[1..]);
      }
    }
  }

  function WithKey(fs: seq<Folder>, key: Folder): seq<Folder> {
    if fs == [] then []
    else if CompareKeys(fs[0], key) == 0 then [fs[0]] + WithKey(fs[1..], key)
    else WithKey(fs[1..], key)
  }

  lemma {:induction false} InsertIsStable(f: Folder, sorted: seq<Folder>, key: Folder)
    ensures WithKey(Insert(f, sorted), key)
            == if CompareKeys(f, key) == 0 then [f] + WithKey(sorted, key) else WithKey(sorted, key)
  {
    var r := Insert(f, sorted);
    if sorted == [] || CompareKeys(f, sorted[0]) <= 0 {
      assert r[1..] == sorted;
    } else {
      assert r[1..] == Insert(f, sorted[1..]);
      InsertIsStable(f, sorted[1..], key);
      if CompareKeys(f, key) == 0 && CompareKeys(sorted[0], key) == 0 {
        KeysAntisymmetric(sorted[0], key);
        KeysTransitive(f, key, sorted[0]);
      }
    }
  }

  /** Siblings come sorted by order number and name, none lost or added, and equal keys keep their order. */
  lemma {:induction false} SiblingsAreSorted(fs: seq<Folder>, key: Folder)
    ensures Sorted(SortSiblings(fs)) && multiset(SortSiblings(fs)) == multiset(fs)
    ensures WithKey(SortSiblings(fs), key) == WithKey(fs, key)
  {
    SortIsPermutation(fs);
    if fs != [] {
      SiblingsAreSorted(fs[1..], key);
      InsertKeepsSorted(fs[0], SortSiblings(fs[1..]));
      InsertIsStable(fs[0], SortSiblings(fs[1..]), key);
    }
  }

  // ---------------------------------------------------------------- what the forest contains

  /** The chain from a root to `id`, empty if there is none. */
  ghost function ChainTo(folders: seq<Folder>, id: string): (path: seq<string>)
    ensures IsChain(folders, path)
    ensures path != [] ==> Parent(path) == Some(id)
    ensures path == [] <==> !ReachesRoot(folders, id)
  {
    if ReachesRoot(folders, id) then
      var path :| IsChain(folders, path) && Parent(path) == Some(id);
      path
    else []
  }

  /** How often a folder occurs in some trees. */
  function Occurrences(trees: seq<Tree>, id: string): nat {
    if trees == [] then 0
    else (if trees[0].folder.id == id then 1 else 0) + Occurrences(trees[0].children, id) + Occurrences(trees[1..], id)
  }

  /** `id`'s chain goes through `path` and on through one of `fs`. */
  ghost predicate PassesBelow(folders: seq<Folder>, path: seq<string>, fs: seq<Folder>, id: string) {
    var c := ChainTo(folders, id);
    |path| < |c| && path == c[..|path|] && exists f | f in fs :: f.id == c[|path|]
  }

  /** In the trees of `fs` below `path` a folder occurs once if its chain passes there, and else not at all. */
  lemma {:induction false} OccursIfChainPasses(folders: seq<Folder>, path: seq<string>, fs: seq<Folder>, id: string)
    requires IsChain(folders, path) && FiledUnder(folders, path, fs) && DistinctIds(folders) && NoRepeat(fs)
    ensures Occurrences(Trees(folders, path, fs), id) == if PassesBelow(folders, path, fs, id) then 1 else 0
    decreases |folders| - |path|, |fs|
  {
    if fs != [] {
      var f := fs[0];
      var below := path + [f.id];
      var children := SortSiblings(ChildrenOf(folders, Some(f.id)));
      ExtendChain(folders, path, f);
      SortedHasNoRepeat(folders, Some(f.id));
      OccursIfChainPasses(folders, below, children, id);
      OccursIfChainPasses(folders, path, fs[1..], id);
      var ts := Trees(folders, path, fs);
      assert ts[1..] == Trees(folders, path, fs[1..]);
      assert ts[0] == Node(f, Trees(folders, below, children));
      HereOrBelow(folders, path, f, id);
      FirstOrRest(folders, path, fs, id);
    }
  }

  /** `id`'s chain passes through `f` below `path` if and only if `id` is `f` or the chain goes on from there. */
  lemma HereOrBelow(folders: seq<Folder>, path: seq<string>, f: Folder, id: string)
    requires IsChain(folders, path) && DistinctIds(folders)
    requires Find(folders, f.id) == Some(f) && f.parent == Parent(path)
    ensures PassesBelow(folders, path, [f], id)
            <==> f.id == id || PassesBelow(folders, path + [f.id], SortSiblings(ChildrenOf(folders, Some(f.id))), id)
    ensures f.id == id ==> !PassesBelow(folders, path + [f.id], SortSiblings(ChildrenOf(folders, Some(f.id))), id)
  {
    var below := path + [f.id];
    var c := ChainTo(folders, id);
    ExtendChain(folders, path, f);
    if f.id == id {
      assert Parent(below) == Some(id);
      ChainIsUnique(folders, below, c);
      assert c[..|path|] == path;
    } else if PassesBelow(folders, path, [f], id) {
      assert below == c[..|below|] by {
        assert c[..|below|] == c[..|path|] + [c[|path|]];
      }
      assert |below| < |c|;
      ChainPrefix(folders, c, |below| + 1);
      var next := c[..|below| + 1];
      assert next[..|below|] == below;
      var g := Find(folders, c[|below|]).value;
      FoundIsIn(folders, c[|below|]);
      ChildrenFacts(folders, Some(f.id));
      SortKeepsElements(ChildrenOf(folders, Some(f.id)));
      assert g in SortSiblings(ChildrenOf(folders, Some(f.id)));
    } else if PassesBelow(folders, below, SortSiblings(ChildrenOf(folders, Some(f.id))), id) {
      assert false;
    }
  }

  lemma FirstOrRest(folders: seq<Folder>, path: seq<string>, fs: seq<Folder>, id: string)
    requires fs != [] && NoRepeat(fs) && FiledUnder(folders, path, fs)
    ensures PassesBelow(folders, path, fs, id)
            <==> PassesBelow(folders, path, [fs[0]], id) || PassesBelow(folders, path, fs[1..], id)
    ensures !(PassesBelow(folders, path, [fs[0]], id) && PassesBelow(folders, path, fs[1..], id))
  {
    assert fs == [fs[0]] + fs[1..];
  }

  lemma {:induction false} ChildrenHaveNoRepeat(folders: seq<Folder>, parent: Option<string>)
    requires DistinctIds(folders)
    ensures NoRepeat(ChildrenOf(folders, parent))
  {
    if folders != [] {
      ChildrenHaveNoRepeat(folders[1..], parent);
      ChildrenFacts(folders[1..], parent);
      if folders[0] in folders[1..] {
        FindsItself(folders[1..], folders[0]);
        assert false;
      }
    }
  }

  lemma {:induction false} InsertHasNoRepeat(f: Folder, sorted: seq<Folder>)
    requires NoRepeat(sorted) && f !in sorted
    ensures NoRepeat(Insert(f, sorted))
  {
    if sorted != [] && CompareKeys(f, sorted[0]) > 0 {
      InsertHasNoRepeat(f, sorted[1..]);
      InsertKeepsElements(f, sorted[1..]);
      var r := Insert(f, sorted);
      assert r[1..] == Insert(f, sorted[1..]);
      assert sorted[0] in r[1..] <==> sorted[0] in multiset(r[1..]);
    }
  }

  lemma {:induction false} SortHasNoRepeat(fs: seq<Folder>)
    requires NoRepeat(fs)
    ensures NoRepeat(SortSiblings(fs))
  {
    if fs != [] {
      SortHasNoRepeat(fs[1..]);
      SortKeepsElements(fs[1..]);
      InsertHasNoRepeat(fs[0], SortSiblings(fs[1..]));
    }
  }

  lemma SortedHasNoRepeat(folders: seq<Folder>, parent: Option<string>)
    requires DistinctIds(folders)
    ensures NoRepeat(SortSiblings(ChildrenOf(folders, parent)))
  {
    ChildrenHaveNoRepeat(folders, parent);
    SortHasNoRepeat(ChildrenOf(folders, parent));
  }

  /** The forest holds each folder whose parents lead to a root exactly once, and no other: folders on or behind a
      parent cycle, or below a missing parent, do not appear. */
  lemma ForestContainsExactly(folders: seq<Folder>, id: string)
    requires DistinctIds(folders)
    ensures Occurrences(Forest(folders), id) == if ReachesRoot(folders, id) then 1 else 0
  {
    var roots := SortSiblings(ChildrenOf(folders, None));
    SortedChildrenAreFiled(folders, []);
    SortedHasNoRepeat(folders, None);
    OccursIfChainPasses(folders, [], roots, id);
    var c := ChainTo(folders, id);
    if c != [] {
      ChainPrefix(folders, c, 1);
      assert c[..1][..0] == [];
      FoundIsIn(folders, c[0]);
      ChildrenFacts(folders, None);
      SortKeepsElements(ChildrenOf(folders, None));
      assert Find(folders, c[0]).value in roots;
    }
  }

  ghost function Tops(trees: seq<Tree>): seq<Folder> {
    if trees == [] then [] else [trees[0].folder] + Tops(trees[1..])
  }

  /** Every node's children are all the folders filed under it, sorted. */
  ghost predicate WellFiled(folders: seq<Folder>, trees: seq<Tree>) {
    forall t | t in trees ::
      Tops(t.children) == SortSiblings(ChildrenOf(folders, Some(t.folder.id))) && WellFiled(folders, t.children)
  }

  lemma {:induction false} TreesAreWellFiled(folders: seq<Folder>, path: seq<string>, fs: seq<Folder>)
    requires IsChain(folders, path) && FiledUnder(folders, path, fs) && DistinctIds(folders)
    ensures Tops(Trees(folders, path, fs)) == fs && WellFiled(folders, Trees(folders, path, fs))
    decreases |folders| - |path|, |fs|
  {
    hide IsChain, Find, SortSiblings, ChildrenOf, Parent;
    if fs != [] {
      ExtendChain(folders, path, fs[0]);
      TreesAreWellFiled(folders, path + [fs[0].id], SortSiblings(ChildrenOf(folders, Some(fs[0].id))));
      TreesAreWellFiled(folders, path, fs[1..]);
      var ts := Trees(folders, path, fs);
      assert ts[1..] == Trees(folders, path, fs[1..]);
      assert ts == [ts[0]] + ts[1..];
    }
  }

  /** The top level is the roots and every level below is a node's own children, each sorted. */
  lemma ForestIsWellFiled(folders: seq<Folder>)
    requires DistinctIds(folders)
    ensures Tops(Forest(folders)) == SortSiblings(ChildrenOf(folders, None)) && WellFiled(folders, Forest(folders))
  {
    SortedChildrenAreFiled(folders, []);
    TreesAreWellFiled(folders, [], SortSiblings(ChildrenOf(folders, None)));
  }

  // ---------------------------------------------------------------- repeated ids

  lemma {:induction false} EnteredFacts(folders: seq<Folder>, f: Folder)
    requires DistinctIds(folders)
    ensures DistinctIds(Entered(folders, f))
    ensures forall id :: Find(Entered(folders, f), id) == if id == f.id then Some(f) else Find(folders, id)
    ensures Find(folders, f.id) == None ==> Entered(folders, f) == folders + [f]
  {
    if folders != [] && folders[0].id != f.id {
      EnteredFacts(folders[1..], f);
      assert Entered(folders, f)[1..] == Entered(folders[1..], f);
      assert folders == [folders[0]] + folders[1..];
    }
  }

  lemma {:induction false} MapHasDistinctIds(all: seq<Folder>)
    ensures DistinctIds(FolderMap(all))
    decreases |all|
  {
    if all != [] {
      MapHasDistinctIds(all[..|all| - 1]);
      EnteredFacts(FolderMap(all[..|all| - 1]), all[|all| - 1]);
    }
  }

  lemma {:induction false} FindInPrefix(all: seq<Folder>, n: nat, id: string)
    requires n <= |all| && Find(all, id) == None
    ensures Find(all[..n], id) == None
    decreases |all|
  {
    if n > 0 {
      assert all[..n][1..] == all[1..][..n - 1];
      FindInPrefix(all[1..], n - 1, id);
    }
  }

  lemma {:induction false} DistinctPrefix(all: seq<Folder>, n: nat)
    requires n <= |all| && DistinctIds(all)
    ensures DistinctIds(all[..n])
    ensures n < |all| ==> Find(all[..n], all[n].id) == None
    decreases |all|
  {
    if n > 0 {
      assert all[..n][1..] == all[1..][..n - 1];
      DistinctPrefix(all[1..], n - 1);
      FindInPrefix(all[1..], n - 1, all[0].id);
      if n < |all| && all[n].id == all[0].id {
        assert all[1..][n - 1] == all[n];
        NotFound(all[1..], n - 1);
        assert false;
      }
    }
  }

  lemma {:induction false} NotFound(folders: seq<Folder>, i: nat)
    requires i < |folders|
    ensures Find(folders, folders[i].id).Some?
  {
    if i > 0 {
      NotFound(folders[1..], i - 1);
    }
  }

  /** With distinct ids the map is the list. */
  lemma {:induction false} MapIsList(all: seq<Folder>)
    requires DistinctIds(all)
    ensures FolderMap(all) == all
    decreases |all|
  {
    if all != [] {
      var n := |all| - 1;
      DistinctPrefix(all, n);
      MapIsList(all[..n]);
      EnteredFacts(all[..n], all[n]);
      assert all == all[..n] + [all[n]];
    }
  }

  // ---------------------------------------------------------------- the code

  lemma {:induction false} ChildrenAppend(a: seq<Folder>, f: Folder, parent: Option<string>)
    ensures ChildrenOf(a + [f], parent) == ChildrenOf(a, parent) + if f.parent == parent then [f] else []
  {
    if a == [] {
      assert a + [f] == [f] && [f][1..] == [];
    } else {
      assert (a + [f])[1..] == a[1..] + [f];
      ChildrenAppend(a[1..], f, parent);
    }
  }

  lemma AllChildrenAppend(a: seq<Folder>, f: Folder)
    ensures forall p :: ChildrenOf(a + [f], p) == if f.parent == p then ChildrenOf(a, p) + [f] else ChildrenOf(a, p)
  {
    forall p ensures ChildrenOf(a + [f], p) == if f.parent == p then ChildrenOf(a, p) + [f] else ChildrenOf(a, p) {
      ChildrenAppend(a, f, p);
      assert ChildrenOf(a, p) + [] == ChildrenOf(a, p);
    }
  }

  lemma NoChildren()
    ensures forall p :: ChildrenOf([], p) == []
  {
  }

  /** Enters every folder into the map, files each under its parent and sorts from the roots down; ends whatever
      the parents are. */
  method GetFolderTree(all: seq<Folder>) returns (forest: seq<Tree>)
    ensures DistinctIds(FolderMap(all)) && forest == Forest(FolderMap(all))
    ensures DistinctIds(all) ==> forest == Forest(all)
  {
    MapHasDistinctIds(all);
    if DistinctIds(all) {
      MapIsList(all);
    }
    var folders: seq<Folder> := [];
    var i := 0;
    while i < |all|
      invariant 0 <= i <= |all| && folders == FolderMap(all[..i])
    {
      assert all[..i + 1][..i] == all[..i];
      folders := Entered(folders, all[i]);
      i := i + 1;
    }
    assert all[..i] == all;
    forest := BuildForest(folders);
  }

  method BuildForest(folders: seq<Folder>) returns (forest: seq<Tree>)
    requires DistinctIds(folders)
    ensures forest == Forest(folders)
  {
    hide ChildrenOf, DistinctIds, Trees, SortSiblings;
    NoChildren();
    var children: map<string, seq<Folder>> := map f | f in folders :: f.id := [];
    var roots: seq<Folder> := [];
    var i := 0;
    while i < |folders|
      invariant 0 <= i <= |folders|
      invariant roots == ChildrenOf(folders[..i], None)
      invariant children.Keys == IdsOf(folders)
      invariant forall id | id in children :: children[id] == ChildrenOf(folders[..i], Some(id))
    {
      var f := folders[i];
      assert folders[..i + 1] == folders[..i] + [f];
      AllChildrenAppend(folders[..i], f);
      match f.parent {
        case None =>
          roots := roots + [f];
        case Some(p) =>
          if p in children {
            children := children[p := children[p] + [f]];
          }
      }
      i := i + 1;
    }
    assert folders[..i] == folders;
    SortedChildrenAreFiled(folders, []);
    forest := SortFolders(folders, children, roots, []);
  }

  /** `sort_folders`; `path` is where the recursion stands. */
  method SortFolders(ghost folders: seq<Folder>, children: map<string, seq<Folder>>, siblings: seq<Folder>,
                     ghost path: seq<string>) returns (trees: seq<Tree>)
    requires DistinctIds(folders) && IsChain(folders, path) && FiledUnder(folders, path, SortSiblings(siblings))
    requires children.Keys == IdsOf(folders)
    requires forall id | id in children :: children[id] == ChildrenOf(folders, Some(id))
    ensures trees == Trees(folders, path, SortSiblings(siblings))
    decreases |folders| - |path|
  {
    hide SortSiblings, ChildrenOf, Trees;
    var rest := SortSiblings(siblings);
    trees := [];
    while rest != []
      invariant FiledUnder(folders, path, rest)
      invariant trees + Trees(folders, path, rest) == Trees(folders, path, SortSiblings(siblings))
      decreases |rest|
    {
      var f := rest[0];
      ExtendChain(folders, path, f);
      FoundIsIn(folders, f.id);
      TakeTree(folders, path, rest, trees);
      var below := [];
      if children[f.id] != [] {
        below := SortFolders(folders, children, children[f.id], path + [f.id]);
      } else {
        NoTrees(folders, path + [f.id]);
      }
      trees := trees + [Node(f, below)];
      rest := rest[1..];
    }
    NoTrees(folders, path);
    assert trees + [] == trees;
  }

  lemma NoTrees(folders: seq<Folder>, path: seq<string>)
    requires DistinctIds(folders) && IsChain(folders, path)
    ensures SortSiblings([]) == [] && Trees(folders, path, []) == []
  {
  }

  lemma TakeTree(folders: seq<Folder>, path: seq<string>, fs: seq<Folder>, trees: seq<Tree>)
    requires fs != [] && DistinctIds(folders) && IsChain(folders, path) && FiledUnder(folders, path, fs)
    requires IsChain(folders, path + [fs[0].id]) && |path| < |folders|
    requires FiledUnder(folders, path + [fs[0].id], SortSiblings(ChildrenOf(folders, Some(fs[0].id))))
    ensures FiledUnder(folders, path, fs[1..])
    ensures trees + Trees(folders, path, fs)
            == trees + [Node(fs[0], Trees(folders, path + [fs[0].id], SortSiblings(ChildrenOf(folders, Some(fs[0].id)))))]
               + Trees(folders, path, fs[1..])
  {
  }
}
