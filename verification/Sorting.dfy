/** The two sorts of the planner: root sets in byte order, block lists stably by slot and root. */
module Sorting {
  import opened Blocks
  import opened Sorts

  ghost predicate Ascending(roots: seq<Root>) {
    forall i, j :: 0 <= i < j < |roots| ==> roots[i] < roots[j]
  }

  /** Go's sortedRootKeys: the one ascending listing of a set of roots. */
  ghost function SortedRoots(roots: set<Root>): (r: seq<Root>)
    ensures Ascending(r)
    ensures forall x :: x in r <==> x in roots
  {
    if roots == {} then []
    else
      var m := Least(roots);
      [m] + SortedRoots(roots - {m})
  }

  ghost function Least(roots: set<Root>): (m: Root)
    requires roots != {}
    ensures m in roots && forall x :: x in roots ==> m <= x
  {
    var y :| y in roots;
    if roots == {y} then y
    else
      assert roots == (roots - {y}) + {y};
      var m := Least(roots - {y});
      if y < m then y else m
  }

  /** Sorts a list of roots in byte order. */
  function SortRootList(roots: seq<Root>): (r: seq<Root>)
    ensures multiset(r) == multiset(roots)
  {
    Sort(roots, RootBefore)
  }

  predicate RootBefore(a: Root, b: Root) {
    a < b
  }

  /** Sorting any listing of a set without repeats gives the ascending listing. */
  lemma SortedListing(listing: seq<Root>, roots: set<Root>)
    requires Distinct(listing) && forall x :: x in listing <==> x in roots
    ensures SortRootList(listing) == SortedRoots(roots)
  {
    SortSorts(listing, RootBefore);
    SortKeeps(listing, RootBefore);
    var r := SortRootList(listing);
    forall i, j | 0 <= i < j < |r|
      ensures r[i] < r[j]
    {
      assert !RootBefore(r[j], r[i]) && r[i] != r[j];
    }
    AscendingUnique(r, SortedRoots(roots), RootBefore);
  }

  predicate BlockBefore(a: Block, b: Block) {
    a.slot < b.slot || (a.slot == b.slot && a.root < b.root)
  }

  ghost predicate SortedBlocks(blocks: seq<Block>) {
    forall i, j :: 0 <= i < j < |blocks| ==> !BlockBefore(blocks[j], blocks[i])
  }

  /** Go's sortBlockInfos: a stable sort. */
  function SortBlocks(blocks: seq<Block>): (r: seq<Block>)
    ensures multiset(r) == multiset(blocks) && SortedBlocks(r)
  {
    SortSorts(blocks, BlockBefore);
    Sort(blocks, BlockBefore)
  }

  /** Blocks of equal slot and root keep their order. */
  lemma BlocksStable(blocks: seq<Block>, x: Block)
    ensures Peers(SortBlocks(blocks), x, BlockBefore) == Peers(blocks, x, BlockBefore)
  {
    SortStable(blocks, x, BlockBefore);
  }

  lemma SortKeepsMembers(blocks: seq<Block>)
    ensures |SortBlocks(blocks)| == |blocks|
    ensures forall b :: b in SortBlocks(blocks) <==> b in blocks
  {
    SortKeeps(blocks, BlockBefore);
  }

  ghost predicate DistinctRoots(blocks: seq<Block>) {
    forall i, j :: 0 <= i < j < |blocks| ==> blocks[i].root != blocks[j].root
  }

  lemma SortKeepsDistinct(infos: seq<Block>)
    requires DistinctRoots(infos)
    ensures DistinctRoots(SortBlocks(infos))
  {
    var r := SortBlocks(infos);
    SortKeeps(infos, BlockBefore);
    forall i, j | 0 <= i < j < |r|
      ensures r[i].root != r[j].root
    {
      assert r[i] != r[j] && r[i] in infos && r[j] in infos;
      OneBlockPerRoot(infos, r[i], r[j]);
    }
  }

  lemma OneBlockPerRoot(infos: seq<Block>, a: Block, b: Block)
    requires DistinctRoots(infos) && a in infos && b in infos && a != b
    ensures a.root != b.root
  {
  }
}
