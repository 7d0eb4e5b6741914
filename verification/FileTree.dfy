/** The collapsed file tree of the dashboard (build_file_tree and build_dir_node, routes/pages/mod.rs). */
module FileTree {
  import opened CoverageLines
  import opened Permutations
  import opened Sets
  import opened Text

  datatype File = File(path: Text, lines: seq<LineCoverage>, lineRate: real, branchRate: real, branchesCovered: int, branchesTotal: int)

  datatype Node = Node(name: Text, fullPath: Text, isDir: bool, children: seq<Node>, lineRate: real, branchRate: real, fileCount: nat)

  datatype Outcome<+T> = Done(value: T) | OutOfFuel

  // ---- Paths ----

  /** The position of the first slash, the length when there is none. */
  function FindSlash(t: Text): (i: nat)
    ensures i <= |t| && SLASH !in t[..i]
    ensures i < |t| ==> t[i] == SLASH
  {
    if t == [] || t[0] == SLASH then 0 else 1 + FindSlash(t[1..])
  }

  /** `rsplit('/').next()` */
  function LastComponent(t: Text): Text {
    if t == [] || t[|t| - 1] == SLASH then [] else LastComponent(t[..|t| - 1]) + [t[|t| - 1]]
  }

  /** `strip_prefix(prefix).unwrap_or(path)` */
  function Relative(path: Text, prefix: Text): Text {
    if prefix <= path then path[|prefix|..] else path
  }

  predicate InSubDir(f: File, prefix: Text) {
    FindSlash(Relative(f.path, prefix)) < |Relative(f.path, prefix)|
  }

  function SubDir(f: File, prefix: Text): Text {
    Relative(f.path, prefix)[..FindSlash(Relative(f.path, prefix))]
  }

  // ---- Grouping ----

  function LeafFiles(files: seq<File>, prefix: Text): seq<File> {
    if files == [] then []
    else LeafFiles(files[..|files| - 1], prefix) + if InSubDir(files[|files| - 1], prefix) then [] else [files[|files| - 1]]
  }

  function Group(files: seq<File>, prefix: Text, name: Text): seq<File> {
    if files == [] then []
    else
      var f := files[|files| - 1];
      Group(files[..|files| - 1], prefix, name) + if InSubDir(f, prefix) && SubDir(f, prefix) == name then [f] else []
  }

  /** The keys of the map of groups, in its order. */
  function SubDirs(files: seq<File>, prefix: Text): seq<Text> {
    if files == [] then []
    else
      var f := files[|files| - 1];
      var names := SubDirs(files[..|files| - 1], prefix);
      if InSubDir(f, prefix) then InsertName(names, SubDir(f, prefix)) else names
  }

  // ---- Figures ----

  function TotalLines(files: seq<File>): nat {
    if files == [] then 0 else TotalLines(files[..|files| - 1]) + |files[|files| - 1].lines|
  }

  function CoveredIn(files: seq<File>): nat {
    if files == [] then 0 else CoveredIn(files[..|files| - 1]) + CoveredLines(files[|files| - 1].lines)
  }

  function BranchesTotal(files: seq<File>): int {
    if files == [] then 0 else BranchesTotal(files[..|files| - 1]) + files[|files| - 1].branchesTotal
  }

  function BranchesCovered(files: seq<File>): int {
    if files == [] then 0 else BranchesCovered(files[..|files| - 1]) + files[|files| - 1].branchesCovered
  }

  function RateSum(files: seq<File>): real {
    if files == [] then 0.0 else RateSum(files[..|files| - 1]) + files[|files| - 1].branchRate
  }

  function LineRate(files: seq<File>): real {
    Rate(CoveredIn(files), TotalLines(files))
  }

  /** By branch counts where there are any, by the mean of the files' rates otherwise. */
  function BranchRate(files: seq<File>): real {
    if BranchesTotal(files) > 0 then Rate(BranchesCovered(files), BranchesTotal(files))
    else if exists f :: f in files && f.branchRate > 0.0 then RateSum(files) / |files| as real
    else 0.0
  }

  function LeafNode(f: File): Node {
    Node(LastComponent(f.path), f.path, false, [], f.lineRate, f.branchRate, 1)
  }

  function LeafNodes(files: seq<File>): (nodes: seq<Node>)
    ensures |nodes| == |files| && forall i :: 0 <= i < |files| ==> nodes[i] == LeafNode(files[i])
  {
    seq(|files|, i requires 0 <= i < |files| => LeafNode(files[i]))
  }

  // ---- Building ----

  function FullPath(dirName: Text, parent: Text): Text {
    if parent == [] then dirName else parent + [SLASH] + dirName
  }

  /** `build_dir_node`, to a depth of `fuel` calls. */
  function BuildDir(fuel: nat, dirName: Text, parent: Text, files: seq<File>): Outcome<Node>
    decreases fuel, 0
  {
    if fuel == 0 then OutOfFuel
    else
      var full := FullPath(dirName, parent);
      var prefix := full + [SLASH];
      var names, leaves := SubDirs(files, prefix), LeafFiles(files, prefix);
      if |names| == 1 && leaves == [] then
        BuildDir(fuel - 1, dirName + [SLASH] + names[0], parent, Group(files, prefix, names[0]))
      else
        var dirs := BuildDirs(fuel - 1, names, full, files, prefix);
        if dirs.OutOfFuel? then OutOfFuel
        else Done(Node(dirName, full, true, dirs.value + LeafNodes(leaves), LineRate(files), BranchRate(files), |files|))
  }

  /** The directories of the given names, in order. */
  function BuildDirs(fuel: nat, names: seq<Text>, parent: Text, files: seq<File>, prefix: Text): (r: Outcome<seq<Node>>)
    ensures r.Done? ==> |r.value| == |names|
    decreases fuel, 1 + |names|
  {
    if names == [] then Done([])
    else
      var front, last := names[..|names| - 1], names[|names| - 1];
      var before, node := BuildDirs(fuel, front, parent, files, prefix), BuildDir(fuel, last, parent, Group(files, prefix, last));
      if before.Done? && node.Done? then Done(before.value + [node.value]) else OutOfFuel
  }

  /** `build_file_tree` */
  function BuildTree(fuel: nat, files: seq<File>): Outcome<seq<Node>> {
    var dirs := BuildDirs(fuel, SubDirs(files, []), [], files, []);
    if dirs.Done? then Done(dirs.value + LeafNodes(LeafFiles(files, []))) else OutOfFuel
  }

  // ---- What grouping does ----

  lemma {:induction false} InGroup(files: seq<File>, prefix: Text, name: Text, f: File)
    ensures f in Group(files, prefix, name) <==> f in files && InSubDir(f, prefix) && SubDir(f, prefix) == name
  {
    hide InSubDir, SubDir;
    if files != [] {
      var front, last := files[..|files| - 1], files[|files| - 1];
      InGroup(front, prefix, name, f);
      assert f in files <==> f in front || f == last;
    }
  }

  lemma {:induction false} InLeaves(files: seq<File>, prefix: Text, f: File)
    ensures f in LeafFiles(files, prefix) <==> f in files && !InSubDir(f, prefix)
  {
    hide InSubDir;
    if files != [] {
      var front, last := files[..|files| - 1], files[|files| - 1];
      InLeaves(front, prefix, f);
      assert f in files <==> f in front || f == last;
    }
  }

  ghost predicate IsSubDir(files: seq<File>, prefix: Text, name: Text) {
    exists f :: f in files && InSubDir(f, prefix) && SubDir(f, prefix) == name
  }

  lemma {:induction false} SubDirsAre(files: seq<File>, prefix: Text)
    ensures NamesInOrder(SubDirs(files, prefix))
    ensures forall name :: name in SubDirs(files, prefix) <==> IsSubDir(files, prefix, name)
  {
    hide InSubDir, SubDir, InsertName;
    if files != [] {
      var front, last := files[..|files| - 1], files[|files| - 1];
      SubDirsAre(front, prefix);
      if InSubDir(last, prefix) {
        InsertNameKeeps(SubDirs(front, prefix), SubDir(last, prefix));
      }
      forall name
        ensures IsSubDir(files, prefix, name) <==> IsSubDir(front, prefix, name) || (InSubDir(last, prefix) && SubDir(last, prefix) == name)
      {
        OneMoreFile(front, last, prefix, name);
        assert files == front + [last];
      }
    }
  }

  lemma OneMoreFile(front: seq<File>, last: File, prefix: Text, name: Text)
    ensures IsSubDir(front + [last], prefix, name)
       <==> IsSubDir(front, prefix, name) || (InSubDir(last, prefix) && SubDir(last, prefix) == name)
  {
    hide InSubDir, SubDir;
    if f :| f in front && InSubDir(f, prefix) && SubDir(f, prefix) == name {
      assert f in front + [last];
    }
    assert last in front + [last];
  }

  /** The groups of the given names, one after the other. */
  function Gather(files: seq<File>, prefix: Text, names: seq<Text>): seq<File> {
    if names == [] then []
    else Gather(files, prefix, names[..|names| - 1]) + Group(files, prefix, names[|names| - 1])
  }

  lemma GroupOneMore(front: seq<File>, last: File, prefix: Text, name: Text)
    ensures Group(front + [last], prefix, name)
         == Group(front, prefix, name) + if InSubDir(last, prefix) && SubDir(last, prefix) == name then [last] else []
  {
    assert (front + [last])[..|front|] == front;
  }

  lemma {:induction false} GatherOneMore(front: seq<File>, last: File, prefix: Text, names: seq<Text>)
    requires NamesInOrder(names)
    ensures multiset(Gather(front + [last], prefix, names))
         == multiset(Gather(front, prefix, names))
          + if InSubDir(last, prefix) && SubDir(last, prefix) in names then multiset{last} else multiset{}
  {
    hide InSubDir, SubDir, NamesInOrder, Group;
    if names != [] {
      var ns, n := names[..|names| - 1], names[|names| - 1];
      LastIsNew(names);
      GatherOneMore(front, last, prefix, ns);
      GroupOneMore(front, last, prefix, n);
      var a, b := Gather(front, prefix, ns), Group(front, prefix, n);
      assert multiset(Gather(front + [last], prefix, names))
          == multiset(Gather(front + [last], prefix, ns)) + multiset(Group(front + [last], prefix, n));
      assert multiset(Gather(front, prefix, names)) == multiset(a) + multiset(b);
    }
  }

  /** The groups and the leaves together are the files, each as often as it was given. */
  lemma LeavesOneMore(front: seq<File>, last: File, prefix: Text)
    ensures LeafFiles(front + [last], prefix) == LeafFiles(front, prefix) + if InSubDir(last, prefix) then [] else [last]
  {
    assert (front + [last])[..|front|] == front;
  }

  lemma {:induction false} GroupsAreAll(files: seq<File>, prefix: Text, names: seq<Text>)
    requires NamesInOrder(names) && forall f :: f in files && InSubDir(f, prefix) ==> SubDir(f, prefix) in names
    ensures multiset(Gather(files, prefix, names)) + multiset(LeafFiles(files, prefix)) == multiset(files)
  {
    hide InSubDir, SubDir, NamesInOrder;
    if files == [] {
      GatherNothing(prefix, names);
    } else {
      hide Gather, LeafFiles;
      var front, last := files[..|files| - 1], files[|files| - 1];
      assert files == front + [last];
      GroupsAreAll(front, prefix, names);
      GatherOneMore(front, last, prefix, names);
      LeavesOneMore(front, last, prefix);
    }
  }

  lemma {:induction false} GatherNothing(prefix: Text, names: seq<Text>)
    ensures Gather([], prefix, names) == []
  {
    if names != [] {
      GatherNothing(prefix, names[..|names| - 1]);
    }
  }

  // ---- Prefixes ----

  /** All files are below the directory. */
  ghost predicate Placed(full: Text, files: seq<File>) {
    forall f :: f in files ==> full + [SLASH] <= f.path
  }

  lemma {:induction false} SlashAfter(a: Text, b: Text)
    requires SLASH !in a
    ensures FindSlash(a + [SLASH] + b) == |a|
  {
    var t := a + [SLASH] + b;
    if a == [] {
      assert t[0] == SLASH;
    } else {
      assert t[1..] == a[1..] + [SLASH] + b;
      SlashAfter(a[1..], b);
    }
  }

  lemma IsBelow(path: Text, prefix: Text, rel: Text, i: nat)
    requires path == prefix + rel && i < |rel| && rel[i] == SLASH
    ensures prefix + rel[..i] + [SLASH] <= path
  {
    var t := prefix + rel[..i] + [SLASH];
    assert t == path[..|t|];
  }

  /** The files of a group are below prefix and name together. */
  lemma GroupIsBelow(files: seq<File>, prefix: Text, name: Text)
    requires forall f :: f in files ==> prefix <= f.path
    ensures forall f :: f in Group(files, prefix, name) ==> f in files && prefix + name + [SLASH] <= f.path
    ensures name in SubDirs(files, prefix) ==> Group(files, prefix, name) != [] && SLASH !in name
  {
    hide Group, SubDirs, FindSlash;
    forall f | f in Group(files, prefix, name) ensures f in files && prefix + name + [SLASH] <= f.path {
      InGroup(files, prefix, name, f);
      var rel := Relative(f.path, prefix);
      IsBelow(f.path, prefix, rel, FindSlash(rel));
    }
    if name in SubDirs(files, prefix) {
      SubDirsAre(files, prefix);
      var f :| f in files && InSubDir(f, prefix) && SubDir(f, prefix) == name;
      InGroup(files, prefix, name, f);
    }
  }

  lemma GroupIsPlaced(files: seq<File>, full: Text, name: Text)
    requires Placed(full, files)
    ensures Placed(full + [SLASH] + name, Group(files, full + [SLASH], name))
    ensures name in SubDirs(files, full + [SLASH]) ==> Group(files, full + [SLASH], name) != [] && SLASH !in name
  {
    GroupIsBelow(files, full + [SLASH], name);
  }

  // ---- Getting lost ----

  ghost predicate AllAbsolute(files: seq<File>) {
    files != [] && forall f :: f in files ==> f.path != [] && f.path[0] == SLASH
  }

  /** The prefix of a directory that does not start with a slash removes nothing from an absolute path. */
  lemma {:induction false} NothingStripped(files: seq<File>, prefix: Text)
    requires AllAbsolute(files) && prefix != [] && prefix[0] != SLASH
    ensures SubDirs(files, prefix) == [[]] && LeafFiles(files, prefix) == [] && Group(files, prefix, []) == files
  {
    hide InSubDir, SubDir, InsertName;
    var front, last := files[..|files| - 1], files[|files| - 1];
    assert files == front + [last];
    NamelessBelow(last, prefix);
    if front == [] {
      assert SubDirs(front, prefix) == [] && Group(front, prefix, []) == [] && LeafFiles(front, prefix) == [];
    } else {
      NothingStripped(front, prefix);
    }
  }

  lemma NamelessBelow(f: File, prefix: Text)
    requires f.path != [] && f.path[0] == SLASH && prefix != [] && prefix[0] != SLASH
    ensures InSubDir(f, prefix) && SubDir(f, prefix) == []
    ensures InsertName([], []) == [[]] && InsertName([[]], []) == [[]]
  {
    assert Relative(f.path, prefix) == f.path && FindSlash(f.path) == 0;
  }

  /** Absolute paths below a directory named without the leading slash: the same call again and again. */
  lemma {:induction false} Lost(fuel: nat, dirName: Text, files: seq<File>)
    requires AllAbsolute(files) && dirName != [] && dirName[0] != SLASH
    ensures BuildDir(fuel, dirName, [], files) == OutOfFuel
  {
    hide BuildDirs, SubDirs, LeafFiles, Group, LineRate, BranchRate;
    if fuel > 0 {
      NothingStripped(files, dirName + [SLASH]);
      Lost(fuel - 1, dirName + [SLASH] + [], files);
    }
  }

  // ---- What a finished tree is like ----

  /** The first component of a path. */
  function Head(t: Text): Text {
    t[..FindSlash(t)]
  }

  /** The directory continues its parent's path by its name, which starts with the component `head`. */
  predicate Follows(n: Node, parent: Text, head: Text) {
    n.isDir && n.fullPath == FullPath(n.name, parent) && Head(n.name) == head
  }

  /**
   * A node for these files: a leaf for one, or a directory that they are all below, with their figures
   * and never a directory as its only child.
   */
  ghost predicate IsTreeOf(n: Node, files: seq<File>)
    decreases n
  {
    if !n.isDir then |files| == 1 && n == LeafNode(files[0])
    else
      && files != [] && Placed(n.fullPath, files)
      && n.fileCount == |files| && n.lineRate == LineRate(files) && n.branchRate == BranchRate(files)
      && !(|n.children| == 1 && n.children[0].isDir)
      && AreChildrenOf(n.children, n.fullPath, n.fullPath + [SLASH], files)
  }

  /**
   * The nodes below a directory: one for each component that follows its prefix in some path, in order,
   * for the files below that; and then the files directly in it.
   */
  ghost predicate AreChildrenOf(nodes: seq<Node>, parent: Text, prefix: Text, files: seq<File>)
    decreases nodes
  {
    var names, leaves := SubDirs(files, prefix), LeafFiles(files, prefix);
    && |nodes| == |names| + |leaves|
    && (forall i :: 0 <= i < |names| ==>
          Follows(nodes[i], parent, names[i]) && IsTreeOf(nodes[i], Group(files, prefix, names[i])))
    && nodes[|names|..] == LeafNodes(leaves)
  }

  /** The nodes stand for the parts one by one. */
  ghost predicate AreTreesOf(nodes: seq<Node>, parts: seq<seq<File>>)
    decreases nodes
  {
    |nodes| == |parts| && forall i :: 0 <= i < |nodes| ==> IsTreeOf(nodes[i], parts[i])
  }

  function Flatten(parts: seq<seq<File>>): seq<File> {
    if parts == [] then [] else Flatten(parts[..|parts| - 1]) + parts[|parts| - 1]
  }

  ghost predicate ShareOut(parts: seq<seq<File>>, files: seq<File>) {
    multiset(Flatten(parts)) == multiset(files)
  }

  function Singles(files: seq<File>): (parts: seq<seq<File>>)
    ensures |parts| == |files| && forall i :: 0 <= i < |files| ==> parts[i] == [files[i]]
  {
    seq(|files|, i requires 0 <= i < |files| => [files[i]])
  }

  function Groups(files: seq<File>, prefix: Text, names: seq<Text>): (parts: seq<seq<File>>)
    ensures |parts| == |names| && forall i :: 0 <= i < |names| ==> parts[i] == Group(files, prefix, names[i])
  {
    seq(|names|, i requires 0 <= i < |names| => Group(files, prefix, names[i]))
  }

  lemma {:induction false} FlattenGroups(files: seq<File>, prefix: Text, names: seq<Text>)
    ensures Flatten(Groups(files, prefix, names)) == Gather(files, prefix, names)
  {
    hide Group;
    if names != [] {
      FlattenGroups(files, prefix, names[..|names| - 1]);
      assert Groups(files, prefix, names)[..|names| - 1] == Groups(files, prefix, names[..|names| - 1]);
    }
  }

  lemma FlattenOneMore(parts: seq<seq<File>>, part: seq<File>)
    ensures Flatten(parts + [part]) == Flatten(parts) + part
  {
    assert (parts + [part])[..|parts|] == parts;
  }

  lemma {:induction false} FlattenMore(a: seq<seq<File>>, files: seq<File>)
    ensures Flatten(a + Singles(files)) == Flatten(a) + files
  {
    hide Flatten;
    if files == [] {
      assert a + Singles(files) == a;
    } else {
      var front, last := files[..|files| - 1], files[|files| - 1];
      FlattenMore(a, front);
      FlattenOneMore(a + Singles(front), [last]);
      assert a + Singles(files) == a + Singles(front) + [[last]];
      assert Flatten(a) + files == Flatten(a) + front + [last];
    }
  }

  /** Groups and single leaves share the files out. */
  lemma GroupsShareOut(files: seq<File>, prefix: Text)
    ensures ShareOut(Groups(files, prefix, SubDirs(files, prefix)) + Singles(LeafFiles(files, prefix)), files)
  {
    var names := SubDirs(files, prefix);
    SubDirsAre(files, prefix);
    forall f | f in files && InSubDir(f, prefix) ensures SubDir(f, prefix) in names {
      assert IsSubDir(files, prefix, SubDir(f, prefix));
    }
    GroupsAreAll(files, prefix, names);
    FlattenGroups(files, prefix, names);
    FlattenMore(Groups(files, prefix, names), LeafFiles(files, prefix));
  }

  lemma SomethingBelow(files: seq<File>, prefix: Text)
    requires files != []
    ensures SubDirs(files, prefix) != [] || LeafFiles(files, prefix) != []
  {
    var f := files[0];
    InLeaves(files, prefix, f);
    SubDirsAre(files, prefix);
    assert InSubDir(f, prefix) ==> IsSubDir(files, prefix, SubDir(f, prefix));
  }

  /** Where there is one sub-directory and nothing beside it, it has all the files. */
  lemma {:induction false} GroupIsAll(files: seq<File>, prefix: Text, name: Text)
    requires forall f :: f in files ==> InSubDir(f, prefix) && SubDir(f, prefix) == name
    ensures Group(files, prefix, name) == files
  {
    hide InSubDir, SubDir;
    if files != [] {
      var front, last := files[..|files| - 1], files[|files| - 1];
      assert files == front + [last];
      GroupIsAll(front, prefix, name);
    }
  }

  lemma OnlyGroup(files: seq<File>, prefix: Text)
    requires |SubDirs(files, prefix)| == 1 && LeafFiles(files, prefix) == []
    ensures Group(files, prefix, SubDirs(files, prefix)[0]) == files
  {
    hide InSubDir, SubDir, Group, SubDirs, LeafFiles;
    var names := SubDirs(files, prefix);
    SubDirsAre(files, prefix);
    forall f | f in files ensures InSubDir(f, prefix) && SubDir(f, prefix) == names[0] {
      InLeaves(files, prefix, f);
      assert IsSubDir(files, prefix, SubDir(f, prefix));
    }
    GroupIsAll(files, prefix, names[0]);
  }

  lemma CollapsedPath(dirName: Text, parent: Text, name: Text)
    ensures FullPath(dirName + [SLASH] + name, parent) == FullPath(dirName, parent) + [SLASH] + name
  {
    assert parent + [SLASH] + (dirName + [SLASH] + name) == parent + [SLASH] + dirName + [SLASH] + name;
  }

  /** A sub-directory is placed, unless it is a named one directly below the nameless root. */
  lemma ChildIsPlaced(files: seq<File>, full: Text, name: Text)
    requires Placed(full, files) && name in SubDirs(files, full + [SLASH])
    ensures Group(files, full + [SLASH], name) != []
    ensures full != [] || name == [] ==> Placed(FullPath(name, full), Group(files, full + [SLASH], name))
    ensures full == [] && name != [] ==> AllAbsolute(Group(files, full + [SLASH], name)) && name[0] != SLASH
  {
    hide Group, SubDirs;
    GroupIsPlaced(files, full, name);
    GroupIsBelow(files, full + [SLASH], name);
    assert full == [] ==> full + [SLASH] == [SLASH];
  }

  lemma {:induction false} BuildDirsParts(fuel: nat, names: seq<Text>, parent: Text, files: seq<File>, prefix: Text)
    ensures BuildDirs(fuel, names, parent, files, prefix).Done?
       <==> forall i :: 0 <= i < |names| ==> BuildDir(fuel, names[i], parent, Group(files, prefix, names[i])).Done?
    ensures BuildDirs(fuel, names, parent, files, prefix).Done? ==>
      forall i :: 0 <= i < |names| ==>
        BuildDirs(fuel, names, parent, files, prefix).value[i] == BuildDir(fuel, names[i], parent, Group(files, prefix, names[i])).value
  {
    hide BuildDir, Group;
    if names != [] {
      BuildDirsParts(fuel, names[..|names| - 1], parent, files, prefix);
    }
  }

  lemma {:induction false} SlashIsFirst(a: Text, b: Text)
    ensures FindSlash(a + [SLASH] + b) == FindSlash(a) && Head(a + [SLASH] + b) == Head(a)
  {
    var t := a + [SLASH] + b;
    if a == [] {
      assert t[0] == SLASH;
    } else {
      assert t[1..] == a[1..] + [SLASH] + b;
      SlashIsFirst(a[1..], b);
    }
  }

  lemma ComponentIsHead(files: seq<File>, prefix: Text, name: Text)
    requires name in SubDirs(files, prefix)
    ensures SLASH !in name && Head(name) == name
  {
    hide SubDirs;
    SubDirsAre(files, prefix);
    assert IsSubDir(files, prefix, name);
  }

  /** A directory that gets finished is a tree of its files, in its place below its parent. */
  lemma {:induction false} DirIsTree(fuel: nat, dirName: Text, parent: Text, files: seq<File>)
    requires files != [] && Placed(FullPath(dirName, parent), files)
    requires BuildDir(fuel, dirName, parent, files).Done?
    ensures Follows(BuildDir(fuel, dirName, parent, files).value, parent, Head(dirName))
    ensures IsTreeOf(BuildDir(fuel, dirName, parent, files).value, files)
    decreases fuel, 0
  {
    hide SubDirs, LeafFiles, Group, Placed, LineRate, BranchRate, BuildDirs, IsTreeOf, Head;
    var full := FullPath(dirName, parent);
    var prefix := full + [SLASH];
    var names, leaves := SubDirs(files, prefix), LeafFiles(files, prefix);
    if |names| == 1 && leaves == [] {
      OnlyGroup(files, prefix);
      CollapsedPath(dirName, parent, names[0]);
      GroupIsPlaced(files, full, names[0]);
      SlashIsFirst(dirName, names[0]);
      DirIsTree(fuel - 1, dirName + [SLASH] + names[0], parent, files);
    } else {
      DirsAreTrees(fuel - 1, names, full, files);
      DirNodeIsTree(dirName, full, files, BuildDirs(fuel - 1, names, full, files, prefix).value);
    }
  }

  lemma {:induction false} DirsAreTrees(fuel: nat, names: seq<Text>, full: Text, files: seq<File>)
    requires Placed(full, files) && forall i :: 0 <= i < |names| ==> names[i] in SubDirs(files, full + [SLASH])
    requires BuildDirs(fuel, names, full, files, full + [SLASH]).Done?
    ensures
      var dirs := BuildDirs(fuel, names, full, files, full + [SLASH]).value;
      forall i :: 0 <= i < |names| ==> Follows(dirs[i], full, names[i]) && IsTreeOf(dirs[i], Group(files, full + [SLASH], names[i]))
    decreases fuel, 1
  {
    hide SubDirs, LeafFiles, Group, Placed, BuildDirs, BuildDir, IsTreeOf, FullPath, Follows;
    var dirs, prefix := BuildDirs(fuel, names, full, files, full + [SLASH]).value, full + [SLASH];
    BuildDirsParts(fuel, names, full, files, prefix);
    forall i | 0 <= i < |names| ensures Follows(dirs[i], full, names[i]) && IsTreeOf(dirs[i], Group(files, prefix, names[i])) {
      ChildIsPlaced(files, full, names[i]);
      ComponentIsHead(files, prefix, names[i]);
      if full == [] && names[i] != [] {
        Lost(fuel, names[i], Group(files, prefix, names[i]));
        assert false;
      }
      DirIsTree(fuel, names[i], full, Group(files, prefix, names[i]));
    }
  }

  lemma DirNodeIsTree(dirName: Text, full: Text, files: seq<File>, dirs: seq<Node>)
    requires files != [] && Placed(full, files)
    requires var names, leaves := SubDirs(files, full + [SLASH]), LeafFiles(files, full + [SLASH]);
             && !(|names| == 1 && leaves == []) && |dirs| == |names|
             && forall i :: 0 <= i < |names| ==> Follows(dirs[i], full, names[i]) && IsTreeOf(dirs[i], Group(files, full + [SLASH], names[i]))
    ensures
      var leaves := LeafFiles(files, full + [SLASH]);
      IsTreeOf(Node(dirName, full, true, dirs + LeafNodes(leaves), LineRate(files), BranchRate(files), |files|), files)
  {
    hide SubDirs, LeafFiles, Group, Placed, LineRate, BranchRate, LastComponent, Follows;
    var prefix := full + [SLASH];
    var names, leaves := SubDirs(files, prefix), LeafFiles(files, prefix);
    SomethingBelow(files, prefix);
    var children := dirs + LeafNodes(leaves);
    assert children[|names|..] == LeafNodes(leaves);
    assert forall i :: 0 <= i < |names| ==> children[i] == dirs[i];
    assert AreChildrenOf(children, full, prefix, files);
  }

  // ---- There is only one such tree ----

  /** Two directories that all the files are below: one is the other or above it. */
  lemma OneAboveTheOther(p: Text, q: Text, files: seq<File>)
    requires files != [] && Placed(p, files) && Placed(q, files) && |p| <= |q|
    ensures p == q || p + [SLASH] <= q
  {
    var path := files[0].path;
    assert files[0] in files;
    assert p + [SLASH] == path[..|p| + 1] && q + [SLASH] == path[..|q| + 1];
    assert p == path[..|p|] && q == path[..|q|];
  }

  lemma LoneName(names: seq<Text>, name: Text)
    requires NamesInOrder(names) && name in names && forall x :: x in names ==> x == name
    ensures |names| == 1
  {
    if |names| > 1 {
      FirstTwoDiffer(names);
    }
  }

  lemma FirstTwoDiffer(names: seq<Text>)
    requires NamesInOrder(names) && |names| > 1
    ensures names[0] in names && names[1] in names && names[0] != names[1]
  {
    hide Before;
    BeforeIsIrreflexive(names[0]);
  }

  /** With a longer directory that all the files are below, the shorter one has nothing but one directory. */
  lemma OneBelow(p: Text, q: Text, files: seq<File>)
    requires files != [] && Placed(q, files) && p + [SLASH] <= q
    ensures |SubDirs(files, p + [SLASH])| == 1 && LeafFiles(files, p + [SLASH]) == []
  {
    hide SubDirs, LeafFiles, FindSlash;
    var prefix := p + [SLASH];
    var rest := q[|prefix|..];
    assert q == prefix + rest;
    forall f | f in files ensures InSubDir(f, prefix) && SubDir(f, prefix) == Head(rest) {
      var x := f.path[|q| + 1..];
      assert f.path == prefix + (rest + [SLASH] + x);
      assert Relative(f.path, prefix) == rest + [SLASH] + x;
      SlashIsFirst(rest, x);
    }
    SubDirsAre(files, prefix);
    var names, leaves := SubDirs(files, prefix), LeafFiles(files, prefix);
    assert files[0] in files && IsSubDir(files, prefix, Head(rest));
    assert forall name :: name in names ==> name == Head(rest);
    LoneName(names, Head(rest));
    if leaves != [] {
      InLeaves(files, prefix, leaves[0]);
    }
  }

  lemma PathIsForced(a: Node, b: Node, files: seq<File>)
    requires a.isDir && b.isDir && IsTreeOf(a, files) && IsTreeOf(b, files) && |a.fullPath| <= |b.fullPath|
    ensures a.fullPath == b.fullPath
  {
    hide SubDirs, LeafFiles, Group, Placed, LineRate, BranchRate, LastComponent;
    OneAboveTheOther(a.fullPath, b.fullPath, files);
    if a.fullPath != b.fullPath {
      OneBelow(a.fullPath, b.fullPath, files);
    }
  }

  lemma NameIsForced(a: Text, b: Text, parent: Text)
    requires FullPath(a, parent) == FullPath(b, parent)
    ensures a == b
  {
    if parent != [] {
      var s, t := FullPath(a, parent), FullPath(b, parent);
      assert a == s[|parent| + 1..] && b == t[|parent| + 1..];
    }
  }

  lemma {:induction false} NodeIsUnique(a: Node, b: Node, parent: Text, head: Text, files: seq<File>)
    requires Follows(a, parent, head) && Follows(b, parent, head) && IsTreeOf(a, files) && IsTreeOf(b, files)
    ensures a == b
    decreases a, 1
  {
    hide SubDirs, LeafFiles, Group, Placed, LineRate, BranchRate, AreChildrenOf, FullPath, Head;
    if |a.fullPath| <= |b.fullPath| {
      PathIsForced(a, b, files);
    } else {
      PathIsForced(b, a, files);
    }
    NameIsForced(a.name, b.name, parent);
    ChildrenAreUnique(a.children, b.children, a.fullPath, a.fullPath + [SLASH], files);
  }

  /** The files alone decide the tree: its shape, its names, their order and all the figures. */
  lemma {:induction false} ChildrenAreUnique(a: seq<Node>, b: seq<Node>, parent: Text, prefix: Text, files: seq<File>)
    requires AreChildrenOf(a, parent, prefix, files) && AreChildrenOf(b, parent, prefix, files)
    ensures a == b
    decreases a
  {
    hide SubDirs, LeafFiles, Group, IsTreeOf, Follows;
    var names, leaves := SubDirs(files, prefix), LeafFiles(files, prefix);
    forall i | 0 <= i < |a| ensures a[i] == b[i] {
      if i < |names| {
        NodeIsUnique(a[i], b[i], parent, names[i], Group(files, prefix, names[i]));
      } else {
        assert a[i] == a[|names|..][i - |names|] && b[i] == b[|names|..][i - |names|];
      }
    }
  }

  // ---- Where the recursion ends ----

  function MaxLength(files: seq<File>): (n: nat)
    ensures forall f :: f in files ==> |f.path| <= n
  {
    if files == [] then 0
    else
      var front, last := files[..|files| - 1], files[|files| - 1];
      assert files == front + [last];
      if MaxLength(front) < |last.path| then |last.path| else MaxLength(front)
  }

  lemma {:induction false} SubsetIsShorter(a: seq<File>, b: seq<File>)
    requires forall f :: f in a ==> f in b
    ensures MaxLength(a) <= MaxLength(b)
  {
    if a != [] {
      assert a[|a| - 1] in a;
      SubsetIsShorter(a[..|a| - 1], b);
    }
  }

  lemma PrefixIsShorter(full: Text, files: seq<File>)
    requires files != [] && Placed(full, files)
    ensures |full| < MaxLength(files)
  {
    assert files[0] in files;
  }

  /** Below a directory with a name, each call takes a longer prefix off the same paths. */
  lemma {:induction false} Ends(fuel: nat, dirName: Text, parent: Text, files: seq<File>)
    requires files != [] && FullPath(dirName, parent) != [] && Placed(FullPath(dirName, parent), files)
    requires fuel + |FullPath(dirName, parent)| >= MaxLength(files)
    ensures BuildDir(fuel, dirName, parent, files).Done?
    decreases fuel
  {
    hide SubDirs, LeafFiles, Group, Placed, LineRate, BranchRate, BuildDirs, MaxLength;
    var full := FullPath(dirName, parent);
    var prefix := full + [SLASH];
    var names, leaves := SubDirs(files, prefix), LeafFiles(files, prefix);
    PrefixIsShorter(full, files);
    if |names| == 1 && leaves == [] {
      OnlyGroup(files, prefix);
      CollapsedPath(dirName, parent, names[0]);
      GroupIsPlaced(files, full, names[0]);
      Ends(fuel - 1, dirName + [SLASH] + names[0], parent, files);
    } else {
      forall i | 0 <= i < |names| ensures BuildDir(fuel - 1, names[i], full, Group(files, prefix, names[i])).Done? {
        ChildIsPlaced(files, full, names[i]);
        GroupIsShorter(files, prefix, names[i]);
        Ends(fuel - 1, names[i], full, Group(files, prefix, names[i]));
      }
      BuildDirsParts(fuel - 1, names, full, files, prefix);
    }
  }

  lemma GroupIsShorter(files: seq<File>, prefix: Text, name: Text)
    ensures MaxLength(Group(files, prefix, name)) <= MaxLength(files)
  {
    hide Group, InSubDir, SubDir;
    forall f | f in Group(files, prefix, name) ensures f in files {
      InGroup(files, prefix, name, f);
    }
    SubsetIsShorter(Group(files, prefix, name), files);
  }

  const ROOT: Text := [SLASH]

  /** The files with absolute paths: the first call gathers them under the empty name. */
  function Absolute(files: seq<File>): seq<File> {
    Group(files, [], [])
  }

  /** Absolute paths that part directly below the root, with a named directory among them. */
  predicate Stuck(files: seq<File>) {
    var names, leaves := SubDirs(Absolute(files), ROOT), LeafFiles(Absolute(files), ROOT);
    !(|names| == 1 && leaves == []) && exists name :: name in names && name != []
  }

  /** Without absolute paths nothing is ever stuck. */
  lemma RelativePathsAreNotStuck(files: seq<File>)
    requires forall f :: f in files ==> f.path == [] || f.path[0] != SLASH
    ensures !Stuck(files)
  {
    hide Group;
    forall f | f in files ensures !(InSubDir(f, []) && SubDir(f, []) == []) {
      assert Relative(f.path, []) == f.path;
    }
    if Absolute(files) != [] {
      InGroup(files, [], [], Absolute(files)[0]);
    }
  }

  lemma AbsoluteIsPlaced(files: seq<File>)
    ensures Placed([], Absolute(files))
  {
    hide Group, SubDirs;
    GroupIsBelow(files, [], []);
    assert [] + [] + [SLASH] == [] + [SLASH];
  }

  /** Paths below `//` have one nameless directory below the root. */
  lemma {:induction false} DoubleSlash(files: seq<File>)
    requires files != [] && Placed(ROOT, files)
    ensures SubDirs(files, ROOT) == [[]] && LeafFiles(files, ROOT) == []
  {
    var front, last := files[..|files| - 1], files[|files| - 1];
    assert files == front + [last];
    assert ROOT + [SLASH] <= last.path;
    assert Relative(last.path, ROOT)[0] == SLASH;
    if front == [] {
      assert SubDirs(front, ROOT) == [] && LeafFiles(front, ROOT) == [];
    } else {
      DoubleSlash(front);
    }
  }

  /** At the root with paths below `//` only. */
  lemma DoubleSlashEnds(fuel: nat, files: seq<File>)
    requires files != [] && Placed(ROOT, files) && fuel > MaxLength(files)
    ensures BuildDir(fuel, [], [], files).Done?
  {
    hide SubDirs, LeafFiles, Group, Placed, LineRate, BranchRate, BuildDirs, MaxLength;
    DoubleSlash(files);
    OnlyGroup(files, ROOT);
    assert FullPath([], []) + [SLASH] == ROOT && [] + [SLASH] + [] == ROOT;
    Ends(fuel - 1, ROOT, [], files);
  }

  lemma RootEnds(fuel: nat, files: seq<File>)
    requires files != [] && Placed([], files) && fuel > MaxLength(files) + 1
    requires var names, leaves := SubDirs(files, ROOT), LeafFiles(files, ROOT);
             (|names| == 1 && leaves == []) || forall name :: name in names ==> name == []
    ensures BuildDir(fuel, [], [], files).Done?
  {
    hide SubDirs, LeafFiles, Group, Placed, LineRate, BranchRate, BuildDirs, MaxLength;
    var names, leaves := SubDirs(files, ROOT), LeafFiles(files, ROOT);
    assert FullPath([], []) + [SLASH] == ROOT;
    if |names| == 1 && leaves == [] {
      OnlyGroup(files, ROOT);
      CollapsedPath([], [], names[0]);
      GroupIsPlaced(files, [], names[0]);
      Ends(fuel - 1, [] + [SLASH] + names[0], [], files);
    } else {
      forall i | 0 <= i < |names| ensures BuildDir(fuel - 1, names[i], [], Group(files, ROOT, names[i])).Done? {
        assert names[i] in names && [] in SubDirs(files, ROOT);
        assert [] + [SLASH] == ROOT && [] + [SLASH] + [] == ROOT;
        GroupIsPlaced(files, [], []);
        GroupIsShorter(files, ROOT, []);
        DoubleSlashEnds(fuel - 1, Group(files, ROOT, []));
      }
      BuildDirsParts(fuel - 1, names, [], files, ROOT);
    }
  }

  lemma RootIsLost(fuel: nat, files: seq<File>, name: Text)
    requires Placed([], files) && name in SubDirs(files, ROOT) && name != []
    requires !(|SubDirs(files, ROOT)| == 1 && LeafFiles(files, ROOT) == [])
    ensures BuildDir(fuel, [], [], files) == OutOfFuel
  {
    hide SubDirs, LeafFiles, Group, Placed, LineRate, BranchRate, BuildDirs;
    var names := SubDirs(files, ROOT);
    assert FullPath([], []) + [SLASH] == ROOT == [] + [SLASH];
    if fuel > 0 {
      var i :| 0 <= i < |names| && names[i] == name;
      ChildIsPlaced(files, [], name);
      Lost(fuel - 1, name, Group(files, ROOT, name));
      BuildDirsParts(fuel - 1, names, [], files, ROOT);
    }
  }

  /** A directory at the top: named, or the nameless one of the absolute paths. */
  lemma TopEnds(fuel: nat, files: seq<File>, name: Text)
    requires fuel > MaxLength(files) + 1 && name in SubDirs(files, []) && !Stuck(files)
    ensures BuildDir(fuel, name, [], Group(files, [], name)).Done?
  {
    hide SubDirs, LeafFiles, Group, LineRate, BranchRate, BuildDirs, BuildDir, MaxLength;
    GroupIsBelow(files, [], name);
    GroupIsShorter(files, [], name);
    assert [] + name + [SLASH] == name + [SLASH];
    if name != [] {
      Ends(fuel, name, [], Group(files, [], name));
    } else {
      RootEnds(fuel, Absolute(files));
    }
  }

  /** The construction ends exactly for the lists that are not stuck. */
  lemma TreeEnds(files: seq<File>)
    ensures (exists fuel :: BuildTree(fuel, files).Done?) <==> !Stuck(files)
  {
    hide SubDirs, LeafFiles, Group, BuildDirs, BuildDir, MaxLength, Stuck;
    var names := SubDirs(files, []);
    if Stuck(files) {
      forall fuel: nat ensures BuildTree(fuel, files).OutOfFuel? {
        StuckNeverEnds(fuel, files);
      }
    } else {
      var fuel := MaxLength(files) + 2;
      forall i | 0 <= i < |names| ensures BuildDir(fuel, names[i], [], Group(files, [], names[i])).Done? {
        TopEnds(fuel, files, names[i]);
      }
      BuildDirsParts(fuel, names, [], files, []);
      assert BuildTree(fuel, files).Done?;
    }
  }

  lemma StuckNeverEnds(fuel: nat, files: seq<File>)
    requires Stuck(files)
    ensures BuildTree(fuel, files) == OutOfFuel
  {
    hide SubDirs, LeafFiles, Group, BuildDirs, BuildDir;
    AbsoluteIsPlaced(files);
    var name :| name in SubDirs(Absolute(files), ROOT) && name != [];
    RootIsLost(fuel, Absolute(files), name);
    NamelessIsTop(files);
    var names := SubDirs(files, []);
    var i :| 0 <= i < |names| && names[i] == [];
    BuildDirsParts(fuel, names, [], files, []);
  }

  lemma NamelessIsTop(files: seq<File>)
    requires Stuck(files)
    ensures [] in SubDirs(files, [])
  {
    hide Group;
    assert SubDirs([], ROOT) == [];
    var f := Absolute(files)[0];
    InGroup(files, [], [], f);
    SubDirsAre(files, []);
    assert IsSubDir(files, [], []);
  }

  // ---- The whole tree ----

  /** The nodes at the top are in their places, and each stands for its files. */
  lemma TreeIsRight(fuel: nat, files: seq<File>)
    requires BuildTree(fuel, files).Done?
    ensures AreChildrenOf(BuildTree(fuel, files).value, [], [], files)
  {
    hide SubDirs, LeafFiles, Group, BuildDirs, BuildDir, IsTreeOf, LastComponent, Follows;
    var names, leaves := SubDirs(files, []), LeafFiles(files, []);
    var dirs := BuildDirs(fuel, names, [], files, []).value;
    BuildDirsParts(fuel, names, [], files, []);
    var nodes := dirs + LeafNodes(leaves);
    assert nodes[|names|..] == LeafNodes(leaves);
    forall i | 0 <= i < |names| ensures Follows(nodes[i], [], names[i]) && IsTreeOf(nodes[i], Group(files, [], names[i])) {
      TopIsTree(fuel, files, names[i]);
    }
  }

  /** And nothing else is: whatever satisfies that description is the tree. */
  lemma TreeIsUnique(fuel: nat, files: seq<File>, nodes: seq<Node>)
    requires BuildTree(fuel, files).Done?
    ensures AreChildrenOf(nodes, [], [], files) <==> nodes == BuildTree(fuel, files).value
  {
    hide BuildTree, AreChildrenOf;
    TreeIsRight(fuel, files);
    if AreChildrenOf(nodes, [], [], files) {
      ChildrenAreUnique(nodes, BuildTree(fuel, files).value, [], [], files);
    }
  }

  lemma LeafIsTree(f: File)
    ensures IsTreeOf(LeafNode(f), [f])
  {
  }

  lemma TopIsTree(fuel: nat, files: seq<File>, name: Text)
    requires name in SubDirs(files, []) && BuildDir(fuel, name, [], Group(files, [], name)).Done?
    ensures
      var n := BuildDir(fuel, name, [], Group(files, [], name)).value;
      Follows(n, [], name) && IsTreeOf(n, Group(files, [], name))
  {
    hide SubDirs, LeafFiles, Group, BuildDirs, BuildDir, IsTreeOf, Follows;
    GroupIsBelow(files, [], name);
    ComponentIsHead(files, [], name);
    assert [] + name + [SLASH] == name + [SLASH];
    DirIsTree(fuel, name, [], Group(files, [], name));
  }

  /** Children share the files out. */
  lemma ChildrenShareOut(nodes: seq<Node>, parent: Text, prefix: Text, files: seq<File>)
    requires AreChildrenOf(nodes, parent, prefix, files)
    ensures
      var parts := Groups(files, prefix, SubDirs(files, prefix)) + Singles(LeafFiles(files, prefix));
      ShareOut(parts, files) && AreTreesOf(nodes, parts)
  {
    hide SubDirs, LeafFiles, Group, IsTreeOf, LastComponent, LeafNode, Follows, ShareOut;
    var names, leaves := SubDirs(files, prefix), LeafFiles(files, prefix);
    GroupsShareOut(files, prefix);
    var parts := Groups(files, prefix, names) + Singles(leaves);
    forall i | 0 <= i < |nodes| ensures IsTreeOf(nodes[i], parts[i]) {
      if i >= |names| {
        assert nodes[i] == nodes[|names|..][i - |names|];
        LeafIsTree(leaves[i - |names|]);
      }
    }
  }

  /** The leaves below some nodes. */
  function LeavesOf(nodes: seq<Node>): multiset<Node>
    decreases nodes
  {
    if nodes == [] then multiset{}
    else LeavesOf(nodes[..|nodes| - 1]) + LeavesBelow(nodes[|nodes| - 1])
  }

  function LeavesBelow(n: Node): multiset<Node>
    decreases n
  {
    if n.isDir then LeavesOf(n.children) else multiset{n}
  }

  lemma LeafNodesConcat(a: seq<File>, b: seq<File>)
    ensures LeafNodes(a + b) == LeafNodes(a) + LeafNodes(b)
  {
  }

  lemma LeavesRejoin(front: seq<File>, f: File, pre: seq<File>, post: seq<File>)
    requires multiset(LeafNodes(front)) == multiset(LeafNodes(pre + post))
    ensures multiset(LeafNodes(front + [f])) == multiset(LeafNodes(pre + [f] + post))
  {
    hide LeafNode, LeafNodes;
    LeafNodesConcat(front, [f]);
    LeafNodesConcat(pre, post);
    LeafNodesConcat(pre, [f]);
    LeafNodesConcat(pre + [f], post);
  }

  /** Files in another order have their leaves in another order. */
  lemma {:induction false} LeavesArePermuted(a: seq<File>, b: seq<File>)
    requires multiset(a) == multiset(b)
    ensures multiset(LeafNodes(a)) == multiset(LeafNodes(b))
    decreases |a|
  {
    hide LeafNode, LeafNodes;
    SameLength(a, b);
    if a != [] {
      var k := FindLast(a, b);
      LeavesArePermuted(a[..|a| - 1], b[..k] + b[k + 1..]);
      LeavesRejoin(a[..|a| - 1], b[k], b[..k], b[k + 1..]);
      assert a == a[..|a| - 1] + [b[k]] && b == b[..k] + [b[k]] + b[k + 1..];
    } else {
      assert a == b;
    }
  }

  lemma {:induction false} LeavesOfParts(nodes: seq<Node>, parts: seq<seq<File>>)
    requires AreTreesOf(nodes, parts)
    ensures LeavesOf(nodes) == multiset(LeafNodes(Flatten(parts)))
    decreases nodes
  {
    hide LeafNode, IsTreeOf;
    if nodes != [] {
      hide LeavesBelow;
      var ns, ps := nodes[..|nodes| - 1], parts[..|parts| - 1];
      LeavesOfParts(ns, ps);
      LeavesAreFiles(nodes[|nodes| - 1], parts[|parts| - 1]);
      LeafNodesConcat(Flatten(ps), parts[|parts| - 1]);
    }
  }

  /** The leaves below a node are the leaves of its files, as often as they were given, and it counts them. */
  lemma {:induction false} LeavesAreFiles(n: Node, files: seq<File>)
    requires IsTreeOf(n, files)
    ensures LeavesBelow(n) == multiset(LeafNodes(files)) && |LeavesBelow(n)| == n.fileCount
    decreases n
  {
    hide LeafNode, LineRate, BranchRate, Placed, SubDirs, LeafFiles, AreChildrenOf;
    if n.isDir {
      var prefix := n.fullPath + [SLASH];
      ChildrenShareOut(n.children, n.fullPath, prefix, files);
      var parts := Groups(files, prefix, SubDirs(files, prefix)) + Singles(LeafFiles(files, prefix));
      LeavesOfParts(n.children, parts);
      LeavesArePermuted(Flatten(parts), files);
      assert |multiset(LeafNodes(files))| == |files|;
    } else {
      assert LeafNodes(files) == [n] && n.fileCount == 1 by { OneLeaf(n, files); }
    }
  }

  lemma OneLeaf(n: Node, files: seq<File>)
    requires |files| == 1 && n == LeafNode(files[0])
    ensures LeafNodes(files) == [n] && n.fileCount == 1
  {
  }

  /**
   * For every list of files that is not stuck, the tree has exactly the files as its leaves, and every
   * directory shares its own files out among its children, with their figures and without a lone directory.
   */
  lemma TreeHasTheFiles(fuel: nat, files: seq<File>)
    requires BuildTree(fuel, files).Done?
    ensures LeavesOf(BuildTree(fuel, files).value) == multiset(LeafNodes(files))
  {
    hide BuildTree, IsTreeOf, AreChildrenOf, SubDirs, LeafFiles;
    TreeIsRight(fuel, files);
    ChildrenShareOut(BuildTree(fuel, files).value, [], [], files);
    var parts := Groups(files, [], SubDirs(files, [])) + Singles(LeafFiles(files, []));
    LeavesOfParts(BuildTree(fuel, files).value, parts);
    LeavesArePermuted(Flatten(parts), files);
  }

  // ---- The code ----

  /** The loop that sorts the files of a directory into sub-directories and leaves. */
  method Split(files: seq<File>, prefix: Text) returns (groups: map<Text, seq<File>>, leaves: seq<File>)
    ensures leaves == LeafFiles(files, prefix)
    ensures forall name :: name in groups <==> name in SubDirs(files, prefix)
    ensures forall name :: name in groups ==> groups[name] == Group(files, prefix, name)
  {
    hide LeafFiles, SubDirs, Group;
    groups, leaves := map[], [];
    NothingSplit(prefix);
    assert files[..0] == [];
    for k := 0 to |files|
      invariant leaves == LeafFiles(files[..k], prefix)
      invariant forall name :: name in groups <==> name in SubDirs(files[..k], prefix)
      invariant forall name :: name in groups ==> groups[name] == Group(files[..k], prefix, name)
    {
      var relative := Relative(files[k].path, prefix);
      var idx := FindSlash(relative);
      SplitOneMore(files, prefix, k);
      if idx < |relative| {
        var subDir := relative[..idx];
        groups := groups[subDir := (if subDir in groups then groups[subDir] else []) + [files[k]]];
      } else {
        leaves := leaves + [files[k]];
      }
    }
    assert files[..|files|] == files;
  }

  lemma NothingSplit(prefix: Text)
    ensures LeafFiles([], prefix) == [] && SubDirs([], prefix) == []
  {
  }

  lemma {:induction false} UnseenIsEmpty(files: seq<File>, prefix: Text, name: Text)
    ensures name !in SubDirs(files, prefix) ==> Group(files, prefix, name) == []
  {
    hide Group, SubDirs;
    if Group(files, prefix, name) != [] {
      InGroup(files, prefix, name, Group(files, prefix, name)[0]);
      SubDirsAre(files, prefix);
      assert IsSubDir(files, prefix, name);
    }
  }

  lemma SubDirsOneMore(front: seq<File>, last: File, prefix: Text)
    ensures forall name :: name in SubDirs(front + [last], prefix)
              <==> name in SubDirs(front, prefix) || (InSubDir(last, prefix) && name == SubDir(last, prefix))
  {
    hide InSubDir, SubDir, InsertName;
    assert (front + [last])[..|front|] == front;
    SubDirsAre(front, prefix);
    if InSubDir(last, prefix) {
      InsertNameKeeps(SubDirs(front, prefix), SubDir(last, prefix));
    }
  }

  lemma SplitOneMore(files: seq<File>, prefix: Text, k: nat)
    requires k < |files|
    ensures LeafFiles(files[..k + 1], prefix) == LeafFiles(files[..k], prefix) + if InSubDir(files[k], prefix) then [] else [files[k]]
    ensures forall name :: name in SubDirs(files[..k + 1], prefix)
              <==> name in SubDirs(files[..k], prefix) || (InSubDir(files[k], prefix) && name == SubDir(files[k], prefix))
    ensures forall name :: Group(files[..k + 1], prefix, name)
              == Group(files[..k], prefix, name) + if InSubDir(files[k], prefix) && SubDir(files[k], prefix) == name then [files[k]] else []
    ensures forall name :: name !in SubDirs(files[..k], prefix) ==> Group(files[..k], prefix, name) == []
  {
    hide InSubDir, SubDir, SubDirs, Group, LeafFiles;
    var front := files[..k];
    assert files[..k + 1] == front + [files[k]];
    SubDirsOneMore(front, files[k], prefix);
    LeavesOneMore(front, files[k], prefix);
    forall name
      ensures Group(files[..k + 1], prefix, name)
        == Group(front, prefix, name) + if InSubDir(files[k], prefix) && SubDir(files[k], prefix) == name then [files[k]] else []
      ensures name !in SubDirs(front, prefix) ==> Group(front, prefix, name) == []
    {
      GroupOneMore(front, files[k], prefix, name);
      UnseenIsEmpty(front, prefix, name);
    }
  }

  /** The keys of a map in their order, as a `BTreeMap` hands them out. */
  method Keys(groups: map<Text, seq<File>>, ghost names: seq<Text>) returns (keys: seq<Text>)
    requires NamesInOrder(names) && forall name :: name in groups <==> name in names
    ensures keys == names
  {
    hide Before;
    keys := [];
    var todo := groups.Keys;
    while todo != {}
      invariant todo <= groups.Keys && NamesInOrder(keys)
      invariant forall name :: name in keys <==> name in groups && name !in todo
      decreases |todo|
    {
      ghost var _ := ElementOf(todo);
      var name :| name in todo;
      InsertNameKeeps(keys, name);
      keys := InsertName(keys, name);
      todo := todo - {name};
    }
    SortedNamesAreUnique(keys, names);
  }

  /** The loop over the sub-directories in order. */
  method BuildDirNodes(keys: seq<Text>, fullDir: Text, groups: map<Text, seq<File>>, ghost files: seq<File>, ghost prefix: Text, ghost fuel: nat)
    returns (nodes: seq<Node>)
    requires forall k :: 0 <= k < |keys| ==> keys[k] in groups && groups[keys[k]] == Group(files, prefix, keys[k])
    requires BuildDirs(fuel, keys, fullDir, files, prefix).Done?
    ensures BuildDirs(fuel, keys, fullDir, files, prefix) == Done(nodes)
    decreases fuel, 1
  {
    hide Group, BuildDir, BuildDirs;
    BuildDirsParts(fuel, keys, fullDir, files, prefix);
    nodes := [];
    for i := 0 to |keys|
      invariant |nodes| == i
      invariant forall k :: 0 <= k < i ==> BuildDir(fuel, keys[k], fullDir, Group(files, prefix, keys[k])) == Done(nodes[k])
    {
      var node := BuildDirNode(keys[i], fullDir, groups[keys[i]], fuel);
      nodes := nodes + [node];
    }
    assert nodes == BuildDirs(fuel, keys, fullDir, files, prefix).value;
  }

  /** The groups by their keys in order. */
  method Sorted(groups: map<Text, seq<File>>, ghost files: seq<File>, ghost prefix: Text) returns (keys: seq<Text>)
    requires forall name :: name in groups <==> name in SubDirs(files, prefix)
    ensures keys == SubDirs(files, prefix) && forall k :: 0 <= k < |keys| ==> keys[k] in groups
  {
    hide SubDirs, NamesInOrder;
    SubDirsAre(files, prefix);
    keys := Keys(groups, SubDirs(files, prefix));
    forall k | 0 <= k < |keys| ensures keys[k] in groups {
      assert keys[k] in SubDirs(files, prefix);
    }
  }

  method BuildDirNode(dirName: Text, parentPath: Text, files: seq<File>, ghost fuel: nat) returns (node: Node)
    requires BuildDir(fuel, dirName, parentPath, files).Done?
    ensures BuildDir(fuel, dirName, parentPath, files) == Done(node)
    decreases fuel, 0
  {
    hide SubDirs, LeafFiles, Group, LineRate, BranchRate, BuildDirs;
    var fullDir := FullPath(dirName, parentPath);
    var prefix := fullDir + [SLASH];
    var subGroups, leafFiles := Split(files, prefix);
    var keys := Sorted(subGroups, files, prefix);
    if |keys| == 1 && leafFiles == [] {
      node := BuildDirNode(dirName + [SLASH] + keys[0], parentPath, subGroups[keys[0]], fuel - 1);
      return;
    }
    var children := BuildDirNodes(keys, fullDir, subGroups, files, prefix, fuel - 1);
    node := Node(dirName, fullDir, true, children + LeafNodes(leafFiles), LineRate(files), BranchRate(files), |files|);
  }

  /** For the lists on which it ends, `build_file_tree` gives the tree. */
  method BuildFileTree(files: seq<File>) returns (nodes: seq<Node>)
    requires !Stuck(files)
    ensures exists fuel: nat :: BuildTree(fuel, files) == Done(nodes)
  {
    hide SubDirs, LeafFiles, Group, LineRate, BranchRate, BuildDirs, BuildDir, Stuck;
    TreeEnds(files);
    ghost var fuel: nat :| BuildTree(fuel, files).Done?;
    var groups, rootFiles := Split(files, []);
    var keys := Sorted(groups, files, []);
    var dirs := BuildDirNodes(keys, [], groups, files, [], fuel);
    nodes := dirs + LeafNodes(rootFiles);
    assert BuildTree(fuel, files) == Done(nodes);
  }

  /** How deep the recursion is allowed to go does not show in what it gives. */
  lemma {:induction false} FuelIsIrrelevant(fuel: nat, more: nat, dirName: Text, parent: Text, files: seq<File>)
    requires fuel <= more && BuildDir(fuel, dirName, parent, files).Done?
    ensures BuildDir(more, dirName, parent, files) == BuildDir(fuel, dirName, parent, files)
    decreases fuel
  {
    hide SubDirs, LeafFiles, Group, LineRate, BranchRate, BuildDirs;
    var full := FullPath(dirName, parent);
    var prefix := full + [SLASH];
    var names, leaves := SubDirs(files, prefix), LeafFiles(files, prefix);
    if |names| == 1 && leaves == [] {
      FuelIsIrrelevant(fuel - 1, more - 1, dirName + [SLASH] + names[0], parent, Group(files, prefix, names[0]));
    } else {
      BuildDirsParts(fuel - 1, names, full, files, prefix);
      BuildDirsParts(more - 1, names, full, files, prefix);
      forall i | 0 <= i < |names|
        ensures BuildDir(more - 1, names[i], full, Group(files, prefix, names[i])) == BuildDir(fuel - 1, names[i], full, Group(files, prefix, names[i]))
      {
        FuelIsIrrelevant(fuel - 1, more - 1, names[i], full, Group(files, prefix, names[i]));
      }
      assert BuildDirs(more - 1, names, full, files, prefix).value == BuildDirs(fuel - 1, names, full, files, prefix).value;
    }
  }

  lemma NoSlashIsLast(t: Text)
    requires SLASH !in t
    ensures LastComponent(t) == t
  {
    if t != [] {
      assert t == t[..|t| - 1] + [t[|t| - 1]];
      NoSlashIsLast(t[..|t| - 1]);
    }
  }

  /** A file two levels below the root stands in its directory there. */
  lemma BelowRoot(files: seq<File>, f: File, dir: CodeUnit, name: CodeUnit)
    requires f in files && f.path == [SLASH, dir, SLASH, name] && dir != SLASH
    ensures [dir] in SubDirs(Absolute(files), ROOT)
  {
    hide Group, SubDirs;
    InGroup(files, [], [], f);
    SubDirsAre(Absolute(files), ROOT);
    assert Relative(f.path, []) == f.path && Relative(f.path, ROOT) == [dir] + [SLASH] + [name];
    SlashAfter([dir], [name]);
    assert SubDir(f, ROOT) == [dir];
    assert IsSubDir(Absolute(files), ROOT, [dir]);
  }

  /** `/a/x` beside `/b/y`: the construction never ends. */
  lemma PartingAtTheRoot(f: File, g: File)
    requires f.path == [SLASH, 0x61, SLASH, 0x78] && g.path == [SLASH, 0x62, SLASH, 0x79]
    ensures forall fuel :: BuildTree(fuel, [f, g]) == OutOfFuel
  {
    hide Group, SubDirs, LeafFiles, BuildTree;
    var files := [f, g];
    BelowRoot(files, f, 0x61, 0x78);
    BelowRoot(files, g, 0x62, 0x79);
    var names := SubDirs(Absolute(files), ROOT);
    assert [0x61] in names && [0x62] in names && |names| != 1;
    forall fuel: nat ensures BuildTree(fuel, files) == OutOfFuel {
      StuckNeverEnds(fuel, files);
    }
  }
}
