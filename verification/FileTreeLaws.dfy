/** What the figures and names of a file tree are, directory by directory. */
module FileTreeLaws {
  import opened CoverageLines
  import opened FileTree
  import opened Text

  // ---- Sums over files ----

  /** The sums over a directory's files: nothing over none, and each file adds its own. */
  lemma SumsAre(files: seq<File>, f: File)
    ensures TotalLines([]) == 0 && CoveredIn([]) == 0 && BranchesTotal([]) == 0 && BranchesCovered([]) == 0 && RateSum([]) == 0.0
    ensures TotalLines(files + [f]) == TotalLines(files) + |f.lines|
    ensures CoveredIn(files + [f]) == CoveredIn(files) + |HitPositions(f.lines)|
    ensures BranchesTotal(files + [f]) == BranchesTotal(files) + f.branchesTotal
    ensures BranchesCovered(files + [f]) == BranchesCovered(files) + f.branchesCovered
    ensures RateSum(files + [f]) == RateSum(files) + f.branchRate
  {
    assert (files + [f])[..|files|] == files;
    CoveredAreHit(f.lines);
  }

  /** The branch rate: weighted by branches where there are any, else the mean of the rates, which is zero when all are. */
  lemma BranchRateIs(files: seq<File>)
    ensures BranchesTotal(files) > 0 ==> BranchRate(files) * BranchesTotal(files) as real == BranchesCovered(files) as real
    ensures BranchesTotal(files) <= 0 && (exists f :: f in files && f.branchRate > 0.0) ==>
      BranchRate(files) * |files| as real == RateSum(files)
    ensures BranchesTotal(files) <= 0 && (forall f :: f in files ==> f.branchRate <= 0.0) ==> BranchRate(files) == 0.0
  {
    hide BranchesTotal, BranchesCovered, RateSum;
    RateIs(BranchesCovered(files), BranchesTotal(files));
  }

  lemma LineRateIs(files: seq<File>)
    ensures TotalLines(files) > 0 ==> LineRate(files) * TotalLines(files) as real == CoveredIn(files) as real
    ensures TotalLines(files) == 0 ==> LineRate(files) == 0.0
  {
    RateIs(CoveredIn(files), TotalLines(files));
  }

  // ---- Leaves ----

  lemma {:induction false} NameEndsPath(t: Text)
    ensures 0x2F !in LastComponent(t)
    ensures t == LastComponent(t) || exists d :: t == d + [0x2F] + LastComponent(t)
  {
    if t != [] {
      var front, c := t[..|t| - 1], t[|t| - 1];
      assert t == front + [c];
      if c == SLASH {
        assert t == front + [0x2F] + [];
      } else {
        NameEndsPath(front);
        if front != LastComponent(front) {
          var d :| front == d + [0x2F] + LastComponent(front);
          assert t == d + [0x2F] + LastComponent(t);
        }
      }
    }
  }

  /** A leaf has the figures and the path of its file, and the last component of the path as its name. */
  lemma LeafIs(f: File)
    ensures
      var n := LeafNode(f);
      && !n.isDir && n.children == [] && n.fileCount == 1
      && n.fullPath == f.path && n.lineRate == f.lineRate && n.branchRate == f.branchRate
      && 0x2F !in n.name && (f.path == n.name || exists d :: f.path == d + [0x2F] + n.name)
  {
    NameEndsPath(f.path);
  }

  // ---- Directories ----

  /** The node is one of these or below one of them. */
  ghost predicate InTree(nodes: seq<Node>, n: Node)
    decreases nodes
  {
    exists i :: 0 <= i < |nodes| && (nodes[i] == n || InTree(nodes[i].children, n))
  }

  lemma {:induction false} FilesOfDir(nodes: seq<Node>, parent: Text, prefix: Text, files: seq<File>, n: Node) returns (own: seq<File>)
    requires AreChildrenOf(nodes, parent, prefix, files) && InTree(nodes, n) && n.isDir
    ensures IsTreeOf(n, own) && forall f :: f in own ==> f in files
    decreases nodes
  {
    hide SubDirs, LeafFiles, Group, LineRate, BranchRate, LeafNode, Placed, Head;
    var names, leaves := SubDirs(files, prefix), LeafFiles(files, prefix);
    var i :| 0 <= i < |nodes| && (nodes[i] == n || InTree(nodes[i].children, n));
    if i >= |names| {
      assert nodes[i] == nodes[|names|..][i - |names|];
      LeafIs(leaves[i - |names|]);
      assert false;
    }
    var part := Group(files, prefix, names[i]);
    forall f | f in part ensures f in files {
      InGroup(files, prefix, names[i], f);
    }
    if nodes[i] == n {
      own := part;
    } else {
      own := FilesOfDir(nodes[i].children, nodes[i].fullPath, nodes[i].fullPath + [SLASH], part, n);
    }
  }

  /** The figures of a directory by its own files. */
  ghost predicate HasFiguresOf(n: Node, own: seq<File>) {
    && n.fileCount == |own|
    && (BranchesTotal(own) > 0 ==> n.branchRate * BranchesTotal(own) as real == BranchesCovered(own) as real)
    && (BranchesTotal(own) <= 0 && (exists f :: f in own && f.branchRate > 0.0) ==> n.branchRate * n.fileCount as real == RateSum(own))
    && (BranchesTotal(own) <= 0 && (forall f :: f in own ==> f.branchRate <= 0.0) ==> n.branchRate == 0.0)
    && (TotalLines(own) > 0 ==> n.lineRate * TotalLines(own) as real == CoveredIn(own) as real)
    && (TotalLines(own) == 0 ==> n.lineRate == 0.0)
  }

  /** Every directory of the tree has the figures of its own files: those of its leaves, all of them below its path. */
  lemma DirectoryFigures(fuel: nat, files: seq<File>, n: Node) returns (own: seq<File>)
    requires BuildTree(fuel, files).Done? && InTree(BuildTree(fuel, files).value, n) && n.isDir
    ensures LeavesBelow(n) == multiset(LeafNodes(own))
    ensures forall f :: f in own ==> f in files && n.fullPath + [0x2F] <= f.path
    ensures HasFiguresOf(n, own)
  {
    hide BuildTree, AreChildrenOf, LineRate, BranchRate, LeafNode, BranchesTotal, BranchesCovered, RateSum, TotalLines, CoveredIn, InTree, LeavesBelow;
    TreeIsRight(fuel, files);
    own := FilesOfDir(BuildTree(fuel, files).value, [], [], files, n);
    LeavesAreFiles(n, own);
    BranchRateIs(own);
    LineRateIs(own);
  }

  /** A directory of one file at 3 of 3 branches and one at 0 of 300 is at 3 of 303. */
  lemma BranchesAreWeighted(f: File, g: File)
    requires f.branchesCovered == 3 == f.branchesTotal && g.branchesCovered == 0 && g.branchesTotal == 300
    ensures BranchRate([f, g]) * 303.0 == 3.0
  {
    assert [f, g] == [] + [f] + [g];
    SumsAre([], f);
    SumsAre([] + [f], g);
    BranchRateIs([f, g]);
  }
}
