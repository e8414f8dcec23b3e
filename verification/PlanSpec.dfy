/** The replay planner as functions on values: the reference the planner classes are proved against. */
module PlanSpec {
  import opened Core
  import opened Blocks
  import opened CanonicalIndex
  import opened Sorting
  import opened AttPlan

  const MAX_ORPHAN_WALK: nat := 16
  const MAX_ORPHANS_PER_SLOT: nat := 8

  type Archive = Root -> Option<Block>

  /** Everything a plan depends on: the era files, the block lookup by root, and the configuration. */
  datatype Env = Env(
    era: Era,
    archive: Archive,
    checkpoints: set<Root>,
    preload: map<uint64, seq<Root>>,
    firstSeen: Option<uint64 -> Option<seq<Attestation>>>,
    mode: Mode,
    cap: uint64)

  /** A root is the hash of its block: lookups answer with the block asked for, and era and archive agree on shared
      roots. */
  ghost predicate ValidEnv(env: Env) {
    && ValidEra(env.era)
    && (forall r :: env.archive(r).Some? ==> env.archive(r).value.root == r)
    && (forall s: uint64 :: env.era(s).Present? && env.archive(env.era(s).block.root).Some?
          ==> env.archive(env.era(s).block.root).value == env.era(s).block)
  }

  /** The planner's state. `visible` is the set of slots whose canonical block the canonical view shows;
      `fetched` the roots found so far; `truncations` the number of walks cut at the limit. */
  datatype PlanState = PlanState(
    visible: set<uint64>,
    imported: set<Root>,
    scheduled: set<Root>,
    missing: set<Root>,
    ignored: set<Root>,
    fetched: set<Root>,
    orphans: map<uint64, seq<Root>>,
    truncations: nat)

  /** The canonical block the view shows at a slot. */
  ghost function ShownAt(era: Era, visible: set<uint64>, slot: uint64): Option<Block> {
    if slot in visible && era(slot).Present? then Some(era(slot).block) else None
  }

  /** Some visible canonical block has this root. */
  ghost predicate RootShown(era: Era, visible: set<uint64>, root: Root) {
    exists s :: s in visible && era(s).Present? && era(s).block.root == root
  }

  ghost predicate RootKnown(env: Env, st: PlanState, root: Root) {
    root in st.imported || RootShown(env.era, st.visible, root)
  }

  /** The root is on the canonical chain, whether the view shows it or not. */
  ghost predicate Canonical(era: Era, info: Block) {
    era(info.slot).Present? && era(info.slot).block.root == info.root
  }

  datatype Verdict = Verdict(canonical: bool, st: PlanState)

  /** isCanonicalBlockInfo: looks in the view, then in the era files, and remembers what it found there. */
  ghost function Judge(env: Env, st: PlanState, info: Block): Option<Verdict> {
    if ShownAt(env.era, st.visible, info.slot).Some? then Some(Verdict(env.era(info.slot).block.root == info.root, st))
    else match env.era(info.slot)
      case Unreadable => None
      case Missed => Some(Verdict(false, st))
      case Present(block) => Some(Verdict(block.root == info.root, st.(visible := st.visible + {info.slot})))
  }

  function ListedAt(orphans: map<uint64, seq<Root>>, slot: uint64): seq<Root> {
    if slot in orphans then orphans[slot] else []
  }

  /** At most eight distinct nonzero roots, in the order in which they come. */
  function Append(roots: seq<Root>, root: Root): seq<Root> {
    if root == ZERO_ROOT || root in roots || |roots| >= MAX_ORPHANS_PER_SLOT then roots else roots + [root]
  }

  /** appendOrphanRoot: a slot whose list stays as it is gets no entry. */
  function AppendOrphan(orphans: map<uint64, seq<Root>>, slot: uint64, root: Root): map<uint64, seq<Root>> {
    var roots := ListedAt(orphans, slot);
    if |Append(roots, root)| == |roots| then orphans else orphans[slot := Append(roots, root)]
  }

  // ----- orphan chains

  datatype Walk = Walk(chain: seq<Block>, truncated: bool, st: PlanState)

  /** One walk up the ancestry: stops at anything known, missing, seen, too new or canonical, and after `fuel`
      blocks. */
  ghost function WalkUp(env: Env, st: PlanState, current: Root, seen: set<Root>, chain: seq<Block>, evalSlot: uint64,
                        fuel: nat): Option<Walk>
    decreases fuel
  {
    if fuel == 0 then Some(Walk(chain, true, st))
    else if current == ZERO_ROOT || RootKnown(env, st, current) || current in st.missing || current in seen
      then Some(Walk(chain, false, st))
    else match env.archive(current)
      case None => Some(Walk(chain, false, st.(missing := st.missing + {current})))
      case Some(info) =>
        var st1 := st.(fetched := st.fetched + {current});
        if info.slot > evalSlot then Some(Walk(chain, false, st1))
        else match Judge(env, st1, info)
          case None => None
          case Some(v) =>
            if v.canonical then Some(Walk(chain, false, v.st))
            else
              WalkUp(env, v.st.(orphans := AppendOrphan(v.st.orphans, info.slot, info.root)), info.parentRoot,
                     seen + {current}, chain + [info], evalSlot, fuel - 1)
  }

  function Reversed(chain: seq<Block>): (r: seq<Block>)
    ensures |r| == |chain|
    ensures forall i :: 0 <= i < |r| ==> r[i] == chain[|chain| - 1 - i]
  {
    seq(|chain|, i requires 0 <= i < |chain| => chain[|chain| - 1 - i])
  }

  datatype Found = Found(blocks: seq<Block>, st: PlanState)

  /** resolveOrphanChain: the walk, oldest block first, counting the walks that were cut. */
  ghost function ResolveChain(env: Env, st: PlanState, root: Root, evalSlot: uint64): Option<Found> {
    match WalkUp(env, st, root, {}, [], evalSlot, MAX_ORPHAN_WALK)
    case None => None
    case Some(w) =>
      Some(Found(Reversed(w.chain), if w.truncated then w.st.(truncations := w.st.truncations + 1) else w.st))
  }

  // ----- orphans by slot

  ghost function OrphansAt(st: PlanState, slot: uint64): seq<Root> {
    ListedAt(st.orphans, slot)
  }

  /** The loop of archiveOrphanInfosBySlot over the listed roots. */
  ghost function GatherOrphans(env: Env, st: PlanState, slot: uint64, roots: seq<Root>, seen: set<Root>,
                               infos: seq<Block>): Option<Found>
    decreases |roots|
  {
    if roots == [] then Some(Found(infos, st))
    else
      var root, rest := roots[0], roots[1..];
      if root == ZERO_ROOT || root in seen || root in st.missing || root in st.ignored
        then GatherOrphans(env, st, slot, rest, seen, infos)
      else match env.archive(root)
        case None => GatherOrphans(env, st.(missing := st.missing + {root}), slot, rest, seen + {root}, infos)
        case Some(info) =>
          var st1 := st.(fetched := st.fetched + {root});
          if info.slot != slot
            then GatherOrphans(env, st1.(ignored := st1.ignored + {root}), slot, rest, seen + {root}, infos)
          else match Judge(env, st1, info)
            case None => None
            case Some(v) =>
              if v.canonical
                then GatherOrphans(env, v.st.(ignored := v.st.ignored + {root}), slot, rest, seen + {root}, infos)
              else GatherOrphans(env, v.st, slot, rest, seen + {root}, infos + [info])
  }

  ghost function OrphanInfos(env: Env, st: PlanState, slot: uint64): Option<Found> {
    match GatherOrphans(env, st, slot, OrphansAt(st, slot), {}, [])
    case None => None
    case Some(f) => Some(f.(blocks := SortBlocks(f.blocks)))
  }

  /** The loop of archiveOrphanImportsForSlot. */
  ghost function ImportOrphans(env: Env, st: PlanState, infos: seq<Block>, minSlot: uint64, out: seq<Block>): Found
    decreases |infos|
  {
    if infos == [] then Found(out, st)
    else
      var info, rest := infos[0], infos[1..];
      if info.slot < minSlot then ImportOrphans(env, st.(ignored := st.ignored + {info.root}), rest, minSlot, out)
      else if RootKnown(env, st, info.root) || info.root in st.scheduled then ImportOrphans(env, st, rest, minSlot, out)
      else ImportOrphans(env, st.(imported := st.imported + {info.root}), rest, minSlot, out + [info])
  }

  ghost function SlotOrphans(env: Env, st: PlanState, slot: uint64, minSlot: uint64): Option<Found> {
    match OrphanInfos(env, st, slot)
    case None => None
    case Some(f) => Some(ImportOrphans(env, f.st, f.blocks, minSlot, []))
  }

  /** sourceBlockInfosBySlot: the shown canonical block, then the orphans known at the slot. */
  ghost function SourceInfos(env: Env, st: PlanState, slot: uint64): Option<Found> {
    match OrphanInfos(env, st, slot)
    case None => None
    case Some(f) =>
      match ShownAt(env.era, st.visible, slot)
      case None => Some(f)
      case Some(block) => Some(f.(blocks := [block] + f.blocks))
  }

  // ----- attestation sources

  datatype Source = Source(slot: uint64, maxAttestationSlot: Option<uint64>)

  /** The existing slots of [lo, hi], ascending. */
  ghost function Existing(blocks: set<uint64>, lo: int, hi: int): seq<uint64>
    requires 0 <= lo && hi <= MAX_UINT64
    decreases hi + 1 - lo
  {
    if lo > hi then [] else (if lo in blocks then [lo] else []) + Existing(blocks, lo + 1, hi)
  }

  /** Sources whose votes are taken up to a slot. */
  function Bounded(slots: seq<uint64>, maxSlot: uint64): (r: seq<Source>)
    ensures |r| == |slots| && forall i :: 0 <= i < |r| ==> r[i] == Source(slots[i], Some(maxSlot))
  {
    seq(|slots|, i requires 0 <= i < |slots| => Source(slots[i], Some(maxSlot)))
  }

  /** planSourcesForSlot. */
  ghost function Sources(blocks: set<uint64>, simSlot: uint64, mode: Mode, cap: uint64, evalSlot: uint64): seq<Source> {
    match mode
    case NextNonMissed =>
      if cap > MAX_UINT64 - simSlot then []
      else
        var found := Existing(blocks, simSlot + 1, simSlot + cap);
        if found == [] then [] else [Source(found[0], None)]
    case StrictKMinus1 => if simSlot < MAX_UINT64 && simSlot + 1 in blocks then [Source(simSlot + 1, None)] else []
    case GreedyLookahead =>
      if cap > MAX_UINT64 - simSlot then []
      else
        Bounded(Existing(blocks, simSlot + 1, simSlot + cap), evalSlot)
    case FirstSeenGossip => []
    case Unsupported(_) => []
  }

  predicate WithinMax(att: Attestation, max: Option<uint64>) {
    max.None? || att.slot <= max.value
  }

  /** A root nobody has dealt with yet. */
  ghost predicate Fresh(env: Env, st: PlanState, root: Root) {
    && root != ZERO_ROOT
    && !RootKnown(env, st, root)
    && root !in st.scheduled && root !in st.missing && root !in st.ignored
  }

  ghost function FreshRoots(env: Env, st: PlanState, atts: seq<Attestation>, max: Option<uint64>): set<Root> {
    set att, r | att in atts && r in {att.targetRoot, att.beaconBlockRoot} && WithinMax(att, max)
      && Fresh(env, st, r) :: r
  }

  function Attestations(infos: seq<Block>): seq<Attestation> {
    if infos == [] then [] else infos[0].attestations + Attestations(infos[1..])
  }

  datatype Roots = Roots(roots: set<Root>, st: PlanState)

  /** The first loop of orphanImportsForSources: a source slot without any block is an error. */
  ghost function SourceRoots(env: Env, st: PlanState, sources: seq<Source>, roots: set<Root>): Option<Roots>
    decreases |sources|
  {
    if sources == [] then Some(Roots(roots, st))
    else
      match SourceInfos(env, st, sources[0].slot)
      case None => None
      case Some(f) =>
        if f.blocks == [] then None
        else
          SourceRoots(env, f.st, sources[1..],
            roots + FreshRoots(env, f.st, Attestations(f.blocks), sources[0].maxAttestationSlot))
  }

  // ----- scheduling in BuildPlan

  datatype Placing = Placing(infos: seq<Block>, pending: map<uint64, seq<Block>>, st: PlanState)

  function PendingAt(pending: map<uint64, seq<Block>>, slot: uint64): seq<Block> {
    if slot in pending then pending[slot] else []
  }

  /** Where one block of a resolved chain goes: ignored, skipped, imported now, or deferred to its own slot. */
  ghost function PlaceBlock(env: Env, p: Placing, info: Block, simSlot: uint64, minSlot: uint64,
                            planEnd: uint64): Placing
  {
    var st := p.st;
    if info.slot < minSlot then p.(st := st.(ignored := st.ignored + {info.root}))
    else if RootKnown(env, st, info.root) || info.root in st.scheduled then p
    else
      var target := if info.slot < simSlot then simSlot else info.slot;
      if target >= planEnd then p.(st := st.(ignored := st.ignored + {info.root}))
      else if target == simSlot then p.(st := st.(imported := st.imported + {info.root}), infos := p.infos + [info])
      else p.(st := st.(scheduled := st.scheduled + {info.root}),
        pending := p.pending[target := PendingAt(p.pending, target) + [info]])
  }

  ghost function PlaceChain(env: Env, p: Placing, chain: seq<Block>, simSlot: uint64, minSlot: uint64,
                            planEnd: uint64): Placing
    decreases |chain|
  {
    if chain == [] then p
      else PlaceChain(env, PlaceBlock(env, p, chain[0], simSlot, minSlot, planEnd), chain[1..], simSlot, minSlot,
      planEnd)
  }

  ghost function PlaceRoots(env: Env, p: Placing, roots: seq<Root>, simSlot: uint64, evalSlot: uint64, minSlot: uint64,
                            planEnd: uint64): Option<Placing>
    decreases |roots|
  {
    if roots == [] then Some(p)
    else if !Fresh(env, p.st, roots[0]) then PlaceRoots(env, p, roots[1..], simSlot, evalSlot, minSlot, planEnd)
    else
      match ResolveChain(env, p.st, roots[0], evalSlot)
      case None => None
      case Some(f) =>
        PlaceRoots(env, PlaceChain(env, p.(st := f.st), f.blocks, simSlot, minSlot, planEnd), roots[1..], simSlot,
          evalSlot, minSlot, planEnd)
  }

  /** orphanImportsForSources. */
  ghost function SourceImports(env: Env, st: PlanState, sources: seq<Source>, simSlot: uint64, evalSlot: uint64,
                               minSlot: uint64, planEnd: uint64, pending: map<uint64, seq<Block>>): Option<Placing>
  {
    if env.mode != GreedyLookahead then Some(Placing([], pending, st))
    else
      match SourceRoots(env, st, sources, {})
      case None => None
      case Some(rs) =>
        match PlaceRoots(env, Placing([], pending, rs.st), SortedRoots(rs.roots), simSlot, evalSlot, minSlot, planEnd)
        case None => None
        case Some(p) => Some(p.(infos := SortBlocks(p.infos)))
  }

  // ----- BuildPlan

  datatype BlockImport = BlockImport(slot: uint64, root: Root, canonical: bool)

  datatype PlanEntry = PlanEntry(simSlot: uint64, evalSlot: uint64, imports: seq<BlockImport>, sources: seq<Source>,
                                 sourceBlockSlot: Option<uint64>)

  function OrphanImports(infos: seq<Block>): (r: seq<BlockImport>)
    ensures |r| == |infos|
    ensures forall i :: 0 <= i < |r| ==> r[i] == BlockImport(infos[i].slot, infos[i].root, false)
  {
    seq(|infos|, i requires 0 <= i < |infos| => BlockImport(infos[i].slot, infos[i].root, false))
  }

  /** The deferred blocks of a slot leave the table when the slot is reached. */
  function Undeferred(pending: map<uint64, seq<Block>>, slot: uint64): map<uint64, seq<Block>> {
    if PendingAt(pending, slot) == [] then pending else pending - {slot}
  }

  /** The loop over the blocks deferred to the current slot. */
  ghost function ImportPending(st: PlanState, infos: seq<Block>, out: seq<Block>): Found
    decreases |infos|
  {
    if infos == [] then Found(out, st)
    else if infos[0].root in st.imported then ImportPending(st, infos[1..], out)
    else ImportPending(st.(imported := st.imported + {infos[0].root}), infos[1..], out + [infos[0]])
  }

  /** The running state of BuildPlan's loop. */
  datatype Planning = Planning(out: seq<PlanEntry>, pending: map<uint64, seq<Block>>, st: PlanState)

  /** The canonical import of a slot comes first and marks its root. */
  ghost function CanonicalImport(env: Env, st: PlanState, simSlot: uint64): (r: (seq<BlockImport>, PlanState)) {
    match ShownAt(env.era, st.visible, simSlot)
    case None => ([], st)
    case Some(block) => ([BlockImport(block.slot, block.root, true)], st.(imported := st.imported + {block.root}))
  }

  /** One iteration: canonical block, orphans listed at the slot, deferred orphans, orphans voted for by the sources. */
  ghost function PlanSlot(env: Env, p: Planning, blocks: set<uint64>, simSlot: uint64, from: uint64,
                          to: uint64): Option<Planning>
  {
    var evalSlot := SaturatingAdd(simSlot, 1);
    var sources := Sources(blocks, simSlot, env.mode, env.cap, evalSlot);
    var (canonical, st1) := CanonicalImport(env, p.st, simSlot);
    match SlotOrphans(env, st1, simSlot, from)
    case None => None
    case Some(listed) =>
      var deferred := ImportPending(listed.st, SortBlocks(PendingAt(p.pending, simSlot)), []);
      match SourceImports(env, deferred.st, sources, simSlot, evalSlot, from, to, Undeferred(p.pending, simSlot))
      case None => None
      case Some(placed) =>
        var imports :=
          canonical + OrphanImports(listed.blocks) + OrphanImports(deferred.blocks) + OrphanImports(placed.infos);
        var first := if sources == [] then None else Some(sources[0].slot);
        Some(Planning(p.out + [PlanEntry(simSlot, evalSlot, imports, sources, first)], placed.pending, placed.st))
  }

  ghost function PlanSlots(env: Env, p: Planning, blocks: set<uint64>, simSlot: uint64, from: uint64,
                           to: uint64): Option<Planning>
    requires simSlot <= to
    decreases (to as int) - (simSlot as int)
  {
    if simSlot == to then Some(p)
    else
      match PlanSlot(env, p, blocks, simSlot, from, to)
      case None => None
      case Some(q) => PlanSlots(env, q, blocks, simSlot + 1, from, to)
  }

  ghost predicate Readable(era: Era, from: uint64, to: uint64) {
    forall s: uint64 :: from <= s <= to ==> !era(s).Unreadable?
  }

  /** Go's cloneOrphanRootsBySlot: drops empty lists and sorts the others. */
  ghost function ClonedOrphans(preload: map<uint64, seq<Root>>): map<uint64, seq<Root>> {
    map s | s in preload && preload[s] != [] :: SortRootList(preload[s])
  }

  ghost function StartState(env: Env, visible: set<uint64>, imported: set<Root>): PlanState {
    PlanState(visible, imported, {}, {}, {}, {}, ClonedOrphans(env.preload), 0)
  }

  predicate PlanRejected(env: Env, from: uint64, to: uint64) {
    || from > to
    || ((env.mode == NextNonMissed || env.mode == GreedyLookahead) && env.cap < 1)
    || env.mode.Unsupported?
    || (env.mode == FirstSeenGossip && env.firstSeen.None?)
  }

  function LoadStart(from: uint64): uint64 {
    if from > 0 then from - 1 else from
  }

  ghost function PlanVisible(env: Env, from: uint64, to: uint64): set<uint64> {
    PresentIn(env.era, Window(LoadStart(from), SaturatingAdd(to, env.cap)))
  }

  ghost function PlanStart(env: Env, from: uint64, to: uint64): Planning {
    var visible := PlanVisible(env, from, to);
    var before := if from > 0 && from - 1 in visible && env.era(from - 1).Present? then {env.era(from - 1).block.root}
      else {};
    Planning([], map[], StartState(env, visible, env.checkpoints + before))
  }

  /** BuildPlan: None where the source returns an error. */
  ghost function BuildPlan(env: Env, from: uint64, to: uint64): Option<Planning> {
    if PlanRejected(env, from, to) || !Readable(env.era, LoadStart(from), SaturatingAdd(to, env.cap)) then None
    else PlanSlots(env, PlanStart(env, from, to), PlanVisible(env, from, to), from, from, to)
  }

  // ----- BuildSlot

  datatype SlotInstruction = SlotInstruction(simSlot: uint64, evalSlot: uint64, imports: seq<BlockImport>,
                                             attestations: seq<Attestation>)

  datatype Votes = Votes(attestations: seq<Attestation>, st: PlanState)

  /** attestationsFromSources' inner loops: drops votes past the bound and exact repeats. */
  function Dedup(atts: seq<Attestation>, max: Option<uint64>, seen: set<Root>,
                 out: seq<Attestation>): (r: (seq<Attestation>, set<Root>))
    decreases |atts|
  {
    if atts == [] then (out, seen)
    else if !WithinMax(atts[0], max) || atts[0].root in seen then Dedup(atts[1..], max, seen, out)
    else Dedup(atts[1..], max, seen + {atts[0].root}, out + [atts[0]])
  }

  ghost function SourceVotes(env: Env, st: PlanState, sources: seq<Source>, seen: set<Root>,
                             out: seq<Attestation>): Option<Votes>
    decreases |sources|
  {
    if sources == [] then Some(Votes(out, st))
    else
      match SourceInfos(env, st, sources[0].slot)
      case None => None
      case Some(f) =>
        var (out1, seen1) := Dedup(Attestations(f.blocks), sources[0].maxAttestationSlot, seen, out);
        SourceVotes(env, f.st, sources[1..], seen1, out1)
  }

  /** The blocks of a chain that one slot's instruction imports. */
  ghost function TakeChain(env: Env, f: Found, chain: seq<Block>, simSlot: uint64, minSlot: uint64): Found
    decreases |chain|
  {
    if chain == [] then f
    else
      var info, rest := chain[0], chain[1..];
      if info.slot < minSlot
        then TakeChain(env, f.(st := f.st.(ignored := f.st.ignored + {info.root})), rest, simSlot, minSlot)
      else if info.slot > simSlot || RootKnown(env, f.st, info.root) || info.root in f.st.scheduled
        then TakeChain(env, f, rest, simSlot, minSlot)
      else TakeChain(env, Found(f.blocks + [info], f.st.(scheduled := f.st.scheduled + {info.root})), rest, simSlot,
        minSlot)
  }

  /** The root loop of orphanImportsForSlotAttestations: only a chain whose tip is the root, at the slot itself, is
      taken. */
  ghost function TakeRoots(env: Env, f: Found, roots: seq<Root>, simSlot: uint64, minSlot: uint64): Option<Found>
    decreases |roots|
  {
    if roots == [] then Some(f)
    else if !Fresh(env, f.st, roots[0]) then TakeRoots(env, f, roots[1..], simSlot, minSlot)
    else
      match ResolveChain(env, f.st, roots[0], simSlot)
      case None => None
      case Some(c) =>
        if c.blocks == [] then TakeRoots(env, f.(st := c.st), roots[1..], simSlot, minSlot)
        else
          var tip := c.blocks[|c.blocks| - 1];
          if tip.root != roots[0] || tip.slot != simSlot then
            TakeRoots(env, f.(st := c.st.(ignored := c.st.ignored + {roots[0]})), roots[1..], simSlot, minSlot)
          else TakeRoots(env, TakeChain(env, f.(st := c.st), c.blocks, simSlot, minSlot), roots[1..], simSlot, minSlot)
  }

  ghost function VoteImports(env: Env, st: PlanState, atts: seq<Attestation>, simSlot: uint64,
                             minSlot: uint64): Option<Found>
  {
    match TakeRoots(env, Found([], st), SortedRoots(FreshRoots(env, st, atts, None)), simSlot, minSlot)
    case None => None
    case Some(f) => Some(f.(blocks := SortBlocks(f.blocks)))
  }

  predicate SlotRejected(env: Env, simSlot: uint64, warmupStart: uint64) {
    || simSlot <= warmupStart
    || ((env.mode == NextNonMissed || env.mode == GreedyLookahead) && env.cap < 1)
    || (env.mode == FirstSeenGossip && env.firstSeen.None?)
  }

  function SlotCap(env: Env): uint64 {
    if env.mode == StrictKMinus1 then 1 else env.cap
  }

  function SlotLoadEnd(env: Env, simSlot: uint64): uint64 {
    if env.mode == FirstSeenGossip then simSlot else SaturatingAdd(simSlot, SlotCap(env))
  }

  /** The votes of a slot: served directly in first-seen mode, read from the source blocks otherwise. */
  ghost function SlotVotes(env: Env, st: PlanState, simSlot: uint64): Option<Votes> {
    if env.mode == FirstSeenGossip then
      if env.firstSeen.None? then None
      else
        match env.firstSeen.value(simSlot)
        case None => None
        case Some(atts) => Some(Votes(atts, st))
    else
      var evalSlot := SaturatingAdd(simSlot, 1);
      var blocks := st.visible * Window(evalSlot, SlotLoadEnd(env, simSlot));
      SourceVotes(env, st, Sources(blocks, simSlot, env.mode, SlotCap(env), evalSlot), {}, [])
  }

  ghost function SlotStart(env: Env, simSlot: uint64, warmupStart: uint64): PlanState
    requires warmupStart < simSlot
  {
    StartState(env, PresentIn(env.era, Window(warmupStart + 1, SlotLoadEnd(env, simSlot))), env.checkpoints)
  }

  /** The imports and the votes of a slot, from an opened state. */
  ghost function SlotInstructed(env: Env, st: PlanState, simSlot: uint64, minSlot: uint64): Option<SlotInstruction> {
    var (canonical, st1) := CanonicalImport(env, st, simSlot);
    match SlotOrphans(env, st1, simSlot, minSlot)
    case None => None
    case Some(listed) =>
      match SlotVotes(env, listed.st, simSlot)
      case None => None
      case Some(votes) =>
        match VoteImports(env, votes.st, votes.attestations, simSlot, minSlot)
        case None => None
        case Some(f) =>
          Some(SlotInstruction(simSlot, SaturatingAdd(simSlot, 1),
                               canonical + OrphanImports(listed.blocks) + OrphanImports(f.blocks), votes.attestations))
  }

  /** BuildSlot: None where the source returns an error. Nothing but the configuration and the oracles is read. */
  ghost function BuildSlot(env: Env, simSlot: uint64, warmupStart: uint64): Option<SlotInstruction> {
    if SlotRejected(env, simSlot, warmupStart) || !Readable(env.era, warmupStart + 1, SlotLoadEnd(env, simSlot))
      then None
    else SlotInstructed(env, SlotStart(env, simSlot, warmupStart), simSlot, warmupStart + 1)
  }
}
