/** The Lodestar engine's cache of imported post-states: three maps that must agree. */
module StateCache {
  import opened Core
  import opened Blocks
  import opened Sorts

  /** A root; the source keeps it as hexadecimal text, which is never the empty (and so never a false) string. */
  type RootHex = Root

  /** A handle to a beacon state. */
  type State = nat

  const RECENT_STATE_CACHE_SLOTS: int := 64

  /** Entries are compared by identity. */
  class ImportedEntry {
    const blockRoot: RootHex
    const stateRoot: RootHex
    const slot: int
    const state: State

    constructor (blockRoot: RootHex, stateRoot: RootHex, slot: int, state: State)
      ensures this.blockRoot == blockRoot && this.stateRoot == stateRoot && this.slot == slot && this.state == state
    {
      this.blockRoot, this.stateRoot, this.slot, this.state := blockRoot, stateRoot, slot, state;
    }
  }

  datatype RecentEntry = RecentEntry(slot: int, state: State)

  /** What is retained for a block, as a value. */
  datatype Retained = Retained(stateRoot: RootHex, slot: int, state: State)

  type ByRoot = map<RootHex, ImportedEntry>

  /** The block roots of a state root, in insertion order. */
  type Refs = map<RootHex, seq<RootHex>>

  /** The reference lists are exactly the retained block roots by state root, none of them empty. */
  ghost predicate RefsAgree(byBlock: ByRoot, refs: Refs) {
    && (forall b :: b in byBlock ==> byBlock[b].blockRoot == b && byBlock[b].stateRoot in refs)
    && (forall r :: r in refs ==> refs[r] != [] && Distinct(refs[r]))
    && (forall r, b :: r in refs ==> (b in refs[r] <==> b in byBlock && byBlock[b].stateRoot == r))
  }

  /** A state root has an entry exactly when it has references, and the entry is a retained one of that root. */
  ghost predicate StatesAgree(byBlock: ByRoot, byState: ByRoot, refs: Refs) {
    && byState.Keys == refs.Keys
    && (forall r :: r in byState ==>
          byState[r].stateRoot == r && byState[r].blockRoot in byBlock && byBlock[byState[r].blockRoot] == byState[r])
  }

  ghost predicate Agree(byBlock: ByRoot, byState: ByRoot, refs: Refs) {
    RefsAgree(byBlock, refs) && StatesAgree(byBlock, byState, refs)
  }

  /** A lookup by state root finds something exactly while a retained block owns the root, and what it finds is
      owned. */
  lemma NeverDanglingNeverLost(byBlock: ByRoot, byState: ByRoot, refs: Refs, r: RootHex)
    requires Agree(byBlock, byState, refs)
    ensures r in byState <==> exists b :: b in byBlock && byBlock[b].stateRoot == r
    ensures r in byState ==> byState[r] in byBlock.Values && byState[r].stateRoot == r
  {
    if r in byState {
      var b := byState[r].blockRoot;
      assert b in byBlock && byBlock[b].stateRoot == r;
      assert byBlock[b] in byBlock.Values;
    }
  }

  /** A JavaScript set loses one member and keeps the order of the others. */
  function Without(s: seq<RootHex>, x: RootHex): (r: seq<RootHex>)
    ensures forall y :: y in r <==> y in s && y != x
  {
    if s == [] then []
    else if s[0] == x then Without(s[1..], x)
    else [s[0]] + Without(s[1..], x)
  }

  lemma {:induction false} WithoutDistinct(s: seq<RootHex>, x: RootHex)
    requires Distinct(s)
    ensures Distinct(Without(s, x))
  {
    if s != [] {
      WithoutDistinct(s[1..], x);
      assert s[0] !in s[1..];
    }
  }

  function RefRemoved(refs: Refs, stateRoot: RootHex, blockRoot: RootHex): Refs {
    if stateRoot !in refs then refs
    else
      var rest := Without(refs[stateRoot], blockRoot);
      if rest == [] then refs - {stateRoot} else refs[stateRoot := rest]
  }

  function RefAdded(refs: Refs, stateRoot: RootHex, blockRoot: RootHex): Refs {
    var roots := if stateRoot in refs then refs[stateRoot] else [];
    refs[stateRoot := if blockRoot in roots then roots else roots + [blockRoot]]
  }

  /** After a removal the state root points at the oldest block that still owns it, or at nothing. */
  function Repointed(byBlock: ByRoot, byState: ByRoot, refs: Refs, entry: ImportedEntry): ByRoot {
    if entry.stateRoot in byState && byState[entry.stateRoot] == entry then
      if entry.stateRoot in refs && refs[entry.stateRoot] != [] && refs[entry.stateRoot][0] in byBlock then
        byState[entry.stateRoot := byBlock[refs[entry.stateRoot][0]]]
      else byState - {entry.stateRoot}
    else byState
  }

  lemma RemoveKeepsRefs(byBlock: ByRoot, refs: Refs, b: RootHex)
    requires RefsAgree(byBlock, refs) && b in byBlock
    ensures RefsAgree(byBlock - {b}, RefRemoved(refs, byBlock[b].stateRoot, b))
  {
    var r0 := byBlock[b].stateRoot;
    var rest := Without(refs[r0], b);
    WithoutDistinct(refs[r0], b);
    forall c | c in byBlock && c != b && byBlock[c].stateRoot == r0
      ensures rest != []
    {
      assert c in refs[r0] && c in rest;
    }
  }

  lemma RemoveKeepsStates(byBlock: ByRoot, byState: ByRoot, refs: Refs, b: RootHex)
    requires Agree(byBlock, byState, refs) && b in byBlock
    ensures var refs' := RefRemoved(refs, byBlock[b].stateRoot, b);
      StatesAgree(byBlock - {b}, Repointed(byBlock - {b}, byState, refs', byBlock[b]), refs')
  {
    var entry := byBlock[b];
    var r0 := entry.stateRoot;
    var rest := Without(refs[r0], b);
    RemoveKeepsRefs(byBlock, refs, b);
    if byState[r0] != entry {
      assert byState[r0].blockRoot in refs[r0] && byState[r0].blockRoot != b;
      assert byState[r0].blockRoot in rest;
    }
    if rest != [] {
      assert rest[0] in rest;
    }
  }

  lemma RemoveKeeps(byBlock: ByRoot, byState: ByRoot, refs: Refs, b: RootHex)
    requires Agree(byBlock, byState, refs) && b in byBlock
    ensures var refs' := RefRemoved(refs, byBlock[b].stateRoot, b);
      Agree(byBlock - {b}, Repointed(byBlock - {b}, byState, refs', byBlock[b]), refs')
  {
    RemoveKeepsRefs(byBlock, refs, b);
    RemoveKeepsStates(byBlock, byState, refs, b);
  }

  lemma AddedRefs(byBlock: ByRoot, refs: Refs, entry: ImportedEntry)
    requires RefsAgree(byBlock, refs) && entry.blockRoot !in byBlock
    ensures RefsAgree(byBlock[entry.blockRoot := entry], RefAdded(refs, entry.stateRoot, entry.blockRoot))
  {
    var roots := if entry.stateRoot in refs then refs[entry.stateRoot] else [];
    assert entry.blockRoot !in roots;
    var more := roots + [entry.blockRoot];
    assert forall x :: x in more <==> x in roots || x == entry.blockRoot;
  }

  lemma AddedStates(byBlock: ByRoot, byState: ByRoot, refs: Refs, entry: ImportedEntry)
    requires StatesAgree(byBlock, byState, refs) && entry.blockRoot !in byBlock
    ensures StatesAgree(byBlock[entry.blockRoot := entry], byState[entry.stateRoot := entry],
      RefAdded(refs, entry.stateRoot, entry.blockRoot))
  {
  }

  lemma AddKeeps(byBlock: ByRoot, byState: ByRoot, refs: Refs, entry: ImportedEntry)
    requires Agree(byBlock, byState, refs) && entry.blockRoot !in byBlock
    ensures Agree(byBlock[entry.blockRoot := entry], byState[entry.stateRoot := entry],
      RefAdded(refs, entry.stateRoot, entry.blockRoot))
  {
    AddedRefs(byBlock, refs, entry);
    AddedStates(byBlock, byState, refs, entry);
  }

  // ----- contents

  ghost function ContentsOf(byBlock: ByRoot): map<RootHex, Retained> {
    map b | b in byBlock :: Retained(byBlock[b].stateRoot, byBlock[b].slot, byBlock[b].state)
  }

  lemma ContentsDrop(byBlock: ByRoot, b: RootHex)
    ensures ContentsOf(byBlock - {b}) == ContentsOf(byBlock) - {b}
    ensures b !in byBlock ==> ContentsOf(byBlock) - {b} == ContentsOf(byBlock)
  {
  }

  lemma ContentsAdd(byBlock: ByRoot, entry: ImportedEntry)
    ensures ContentsOf(byBlock[entry.blockRoot := entry])
      == ContentsOf(byBlock)[entry.blockRoot := Retained(entry.stateRoot, entry.slot, entry.state)]
  {
  }

  lemma DropThenAdd(m: map<RootHex, Retained>, b: RootHex, v: Retained)
    ensures (m - {b})[b := v] == m[b := v]
  {
  }

  ghost function Members(roots: seq<RootHex>): set<RootHex> {
    set b | b in roots
  }

  lemma NoneDropped(m: map<RootHex, Retained>, roots: seq<RootHex>)
    ensures m - Members(roots[..0]) == m && Members(roots[..|roots|]) == Members(roots)
  {
    assert roots[..|roots|] == roots;
  }

  lemma DropAll(m: map<RootHex, Retained>, roots: seq<RootHex>, k: nat)
    requires k < |roots|
    ensures m - Members(roots[..k]) - {roots[k]} == m - Members(roots[..k + 1])
  {
    assert roots[..k + 1] == roots[..k] + [roots[k]];
    assert Members(roots[..k + 1]) == Members(roots[..k]) + {roots[k]};
  }

  class Cache {
    var stateByStateRoot: map<RootHex, RecentEntry>
    var importedByBlockRoot: ByRoot
    var importedByStateRoot: ByRoot
    var blockRootsByStateRoot: Refs

    ghost predicate Valid()
      reads this
    {
      Agree(importedByBlockRoot, importedByStateRoot, blockRootsByStateRoot)
    }

    /** The imported post-states, by block root. */
    ghost function Contents(): map<RootHex, Retained>
      reads this
    {
      ContentsOf(importedByBlockRoot)
    }

    constructor ()
      ensures Valid() && Contents() == map[] && stateByStateRoot == map[]
    {
      stateByStateRoot, importedByBlockRoot, importedByStateRoot, blockRootsByStateRoot := map[], map[], map[], map[];
    }

    method SetStateRoot(root: RootHex, slot: int, state: State)
      requires Valid()
      modifies this`stateByStateRoot
      ensures Valid() && stateByStateRoot == old(stateByStateRoot)[root := RecentEntry(slot, state)]
    {
      stateByStateRoot := stateByStateRoot[root := RecentEntry(slot, state)];
    }

    /** Forgets a block's post-state, if there is one; a state root it stood for moves on to another owner. */
    method DropImported(blockRoot: RootHex)
      requires Valid()
      modifies this`importedByBlockRoot, this`importedByStateRoot, this`blockRootsByStateRoot
      ensures Valid() && Contents() == old(Contents()) - {blockRoot}
      ensures blockRoot !in importedByBlockRoot
    {
      hide ContentsOf, Repointed, RefRemoved;
      ContentsDrop(importedByBlockRoot, blockRoot);
      if blockRoot !in importedByBlockRoot {
        return;
      }
      var entry := importedByBlockRoot[blockRoot];
      RemoveKeeps(importedByBlockRoot, importedByStateRoot, blockRootsByStateRoot, blockRoot);
      importedByBlockRoot := importedByBlockRoot - {blockRoot};
      RemoveImportedStateRootRef(entry);
      RepointImportedStateRoot(entry);
    }

    method RemoveImportedStateRootRef(entry: ImportedEntry)
      modifies this`blockRootsByStateRoot
      ensures blockRootsByStateRoot == RefRemoved(old(blockRootsByStateRoot), entry.stateRoot, entry.blockRoot)
    {
      if entry.stateRoot !in blockRootsByStateRoot {
        return;
      }
      var blockRoots := Without(blockRootsByStateRoot[entry.stateRoot], entry.blockRoot);
      blockRootsByStateRoot := blockRootsByStateRoot[entry.stateRoot := blockRoots];
      if |blockRoots| == 0 {
        blockRootsByStateRoot := blockRootsByStateRoot - {entry.stateRoot};
      }
    }

    method RepointImportedStateRoot(entry: ImportedEntry)
      modifies this`importedByStateRoot
      ensures importedByStateRoot
        == Repointed(importedByBlockRoot, old(importedByStateRoot), blockRootsByStateRoot, entry)
    {
      if entry.stateRoot in importedByStateRoot && importedByStateRoot[entry.stateRoot] == entry {
        if entry.stateRoot in blockRootsByStateRoot && |blockRootsByStateRoot[entry.stateRoot]| > 0
           && blockRootsByStateRoot[entry.stateRoot][0] in importedByBlockRoot {
          importedByStateRoot :=
            importedByStateRoot[entry.stateRoot := importedByBlockRoot[blockRootsByStateRoot[entry.stateRoot][0]]];
        } else {
          importedByStateRoot := importedByStateRoot - {entry.stateRoot};
        }
      }
    }

    method AddImportedStateRootRef(entry: ImportedEntry)
      modifies this`blockRootsByStateRoot
      ensures blockRootsByStateRoot == RefAdded(old(blockRootsByStateRoot), entry.stateRoot, entry.blockRoot)
    {
      if entry.stateRoot !in blockRootsByStateRoot {
        blockRootsByStateRoot := blockRootsByStateRoot[entry.stateRoot := []];
      }
      if entry.blockRoot !in blockRootsByStateRoot[entry.stateRoot] {
        blockRootsByStateRoot :=
          blockRootsByStateRoot[entry.stateRoot := blockRootsByStateRoot[entry.stateRoot] + [entry.blockRoot]];
      }
    }

    /** Retains a post-state; an earlier one of the same block is replaced, and the state root now stands for the new
        one. */
    method SetImportedPostState(blockRoot: RootHex, stateRoot: RootHex, slot: int, state: State)
      requires Valid()
      modifies this`importedByBlockRoot, this`importedByStateRoot, this`blockRootsByStateRoot
      ensures Valid() && Contents() == old(Contents())[blockRoot := Retained(stateRoot, slot, state)]
      ensures stateRoot in importedByStateRoot && importedByStateRoot[stateRoot].blockRoot == blockRoot
    {
      hide Agree, ContentsOf, RefAdded;
      DropImported(blockRoot);
      var entry := new ImportedEntry(blockRoot, stateRoot, slot, state);
      ContentsAdd(importedByBlockRoot, entry);
      DropThenAdd(old(Contents()), blockRoot, Retained(stateRoot, slot, state));
      AddKeeps(importedByBlockRoot, importedByStateRoot, blockRootsByStateRoot, entry);
      importedByBlockRoot := importedByBlockRoot[blockRoot := entry];
      importedByStateRoot := importedByStateRoot[stateRoot := entry];
      AddImportedStateRootRef(entry);
    }

    /** Finalization drops the post-states of the pruned blocks and no others. */
    method PruneFinalizedBlocks(prunedBlocks: seq<RootHex>)
      requires Valid()
      modifies this`importedByBlockRoot, this`importedByStateRoot, this`blockRootsByStateRoot
      ensures Valid() && Contents() == old(Contents()) - Members(prunedBlocks)
    {
      hide ContentsOf, Agree, Members;
      NoneDropped(old(Contents()), prunedBlocks);
      for k := 0 to |prunedBlocks|
        invariant Valid() && Contents() == old(Contents()) - Members(prunedBlocks[..k])
      {
        DropAll(old(Contents()), prunedBlocks, k);
        DropImported(prunedBlocks[k]);
      }
    }

    /** Recent states leave by age; imported post-states stay. */
    method Prune(currentSlot: int)
      requires Valid()
      modifies this`stateByStateRoot
      ensures Valid()
      ensures stateByStateRoot == map r | r in old(stateByStateRoot)
        && old(stateByStateRoot)[r].slot >= MinStateSlot(currentSlot) :: old(stateByStateRoot)[r]
    {
      var rest := stateByStateRoot.Keys;
      while rest != {}
        invariant rest <= stateByStateRoot.Keys <= old(stateByStateRoot).Keys
        invariant forall r :: r in stateByStateRoot ==> stateByStateRoot[r] == old(stateByStateRoot)[r]
        invariant forall r :: r in old(stateByStateRoot) && r !in rest ==>
          (r in stateByStateRoot <==> old(stateByStateRoot)[r].slot >= MinStateSlot(currentSlot))
        invariant Valid()
        decreases rest
      {
        var root :| root in rest;
        rest := rest - {root};
        if stateByStateRoot[root].slot < MinStateSlot(currentSlot) {
          stateByStateRoot := stateByStateRoot - {root};
        }
      }
    }

    /** Looks among the recent states first, then among the imported post-states. */
    function GetStateRoot(root: RootHex): (r: Option<State>)
      requires Valid()
      reads this
      ensures root in stateByStateRoot ==> r == Some(stateByStateRoot[root].state)
      ensures root !in stateByStateRoot ==>
        (r.Some? <==> exists b :: b in Contents() && Contents()[b].stateRoot == root)
        && (r.Some? ==>
          exists b :: b in Contents() && Contents()[b].stateRoot == root && r.value == Contents()[b].state)
    {
      NeverDanglingNeverLost(importedByBlockRoot, importedByStateRoot, blockRootsByStateRoot, root);
      assert root in importedByStateRoot ==> importedByStateRoot[root].blockRoot in Contents();
      assert forall b :: b in importedByBlockRoot ==> b in Contents();
      if root in stateByStateRoot then Some(stateByStateRoot[root].state)
      else if root in importedByStateRoot then Some(importedByStateRoot[root].state)
      else None
    }

    function GetImportedBlockPostState(blockRoot: RootHex): (r: Option<State>)
      requires Valid()
      reads this
      ensures r == if blockRoot in Contents() then Some(Contents()[blockRoot].state) else None
    {
      if blockRoot in importedByBlockRoot then Some(importedByBlockRoot[blockRoot].state) else None
    }
  }

  function MinStateSlot(currentSlot: int): int {
    if currentSlot - RECENT_STATE_CACHE_SLOTS > 0 then currentSlot - RECENT_STATE_CACHE_SLOTS else 0
  }
}
