/** The loader of first-seen votes: rows of one epoch, filtered, grouped and sorted into attestations. */
module FirstSeen {
  import opened Core
  import opened Blocks
  import opened RootOrder
  import opened Sorts

  type uint32 = x: int | 0 <= x <= 0xFFFF_FFFF

  datatype Row = Row(slot: uint32, epoch: uint32, validatorIndex: uint32, blockRoot: string, sourceEpoch: uint32,
                     sourceRoot: string, targetEpoch: uint32, targetRoot: string, rawSeenMs: uint32)

  datatype Key = Key(slot: uint64, beaconBlockRoot: Root, sourceEpoch: uint64, sourceRoot: Root, targetEpoch: uint64,
                     targetRoot: Root)

  datatype Vote = Vote(root: Root, index: uint64, key: Key, indices: seq<uint64>)

  /** The epoch asked for, the deadline, and the two opaque functions: root parsing and the hash of a group. */
  datatype Config = Config(epoch: uint64, deadlineMs: uint64, parse: string -> Option<Root>, hash: Key -> Root)

  // ----- the order of groups

  function CompareKeys(a: Key, b: Key): int {
    if a.slot != b.slot then CompareInts(a.slot, b.slot)
    else if CompareRoot(a.beaconBlockRoot, b.beaconBlockRoot) != 0
      then CompareRoot(a.beaconBlockRoot, b.beaconBlockRoot)
    else if a.sourceEpoch != b.sourceEpoch then CompareInts(a.sourceEpoch, b.sourceEpoch)
    else if CompareRoot(a.sourceRoot, b.sourceRoot) != 0 then CompareRoot(a.sourceRoot, b.sourceRoot)
    else if a.targetEpoch != b.targetEpoch then CompareInts(a.targetEpoch, b.targetEpoch)
    else if CompareRoot(a.targetRoot, b.targetRoot) != 0 then CompareRoot(a.targetRoot, b.targetRoot)
    else 0
  }

  /** The fields in order of weight, all compared as numbers. */
  ghost predicate KeyLess(a: Key, b: Key) {
    || a.slot < b.slot
    || (a.slot == b.slot && (
      || a.beaconBlockRoot < b.beaconBlockRoot
      || (a.beaconBlockRoot == b.beaconBlockRoot && (
        || a.sourceEpoch < b.sourceEpoch
        || (a.sourceEpoch == b.sourceEpoch && (
          || a.sourceRoot < b.sourceRoot
          || (a.sourceRoot == b.sourceRoot && (
            || a.targetEpoch < b.targetEpoch
            || (a.targetEpoch == b.targetEpoch && a.targetRoot < b.targetRoot)))))))))
  }

  /** The comparator is the numeric order of the fields, and calls two keys equal only when they are. */
  lemma CompareKeysIsOrder(a: Key, b: Key)
    ensures CompareKeys(a, b) < 0 <==> KeyLess(a, b)
    ensures CompareKeys(a, b) > 0 <==> KeyLess(b, a)
    ensures CompareKeys(a, b) == 0 <==> a == b
  {
    RootOrdersAgree(a.beaconBlockRoot, b.beaconBlockRoot);
    RootOrdersAgree(a.sourceRoot, b.sourceRoot);
    RootOrdersAgree(a.targetRoot, b.targetRoot);
  }

  /** A strict total order: what sort.Slice needs to have one possible result. */
  lemma KeyOrderTotal(a: Key, b: Key, c: Key)
    ensures CompareKeys(a, b) < 0 <==> CompareKeys(b, a) > 0
    ensures CompareKeys(a, b) < 0 && CompareKeys(b, c) < 0 ==> CompareKeys(a, c) < 0
    ensures a != b ==> CompareKeys(a, b) < 0 || CompareKeys(b, a) < 0
  {
    CompareKeysIsOrder(a, b);
    CompareKeysIsOrder(b, a);
    CompareKeysIsOrder(b, c);
    CompareKeysIsOrder(a, c);
  }

  ghost predicate AscendingKeys(keys: seq<Key>) {
    forall i, j :: 0 <= i < j < |keys| ==> KeyLess(keys[i], keys[j])
  }

  predicate KeyBefore(a: Key, b: Key) {
    CompareKeys(a, b) < 0
  }

  lemma KeysOrdered()
    ensures Ordering(KeyBefore)
  {
    forall a, b
      ensures KeyBefore(a, b) <==> KeyLess(a, b)
    {
      CompareKeysIsOrder(a, b);
    }
  }

  /** Keys listed once each sort into strictly ascending order. */
  lemma DistinctKeysAscend(keys: seq<Key>)
    requires Distinct(keys)
    ensures AscendingKeys(Sort(keys, KeyBefore))
    ensures forall x :: x in Sort(keys, KeyBefore) <==> x in keys
  {
    var r := Sort(keys, KeyBefore);
    KeysOrdered();
    SortSorts(keys, KeyBefore);
    SortKeeps(keys, KeyBefore);
    forall i, j | 0 <= i < j < |r|
      ensures KeyLess(r[i], r[j])
    {
      assert !KeyBefore(r[j], r[i]) && r[i] != r[j];
      CompareKeysIsOrder(r[j], r[i]);
    }
  }

  // ----- strictly ascending indices

  ghost predicate AscendingIndices(s: seq<uint64>) {
    forall i, j :: 0 <= i < j < |s| ==> s[i] < s[j]
  }

  ghost predicate Ordered(s: seq<uint64>) {
    forall i, j :: 0 <= i < j < |s| ==> s[i] <= s[j]
  }

  predicate IndexBefore(a: uint64, b: uint64) {
    a < b
  }

  lemma IndicesSorted(s: seq<uint64>)
    ensures Ordered(Sort(s, IndexBefore)) && |Sort(s, IndexBefore)| == |s|
    ensures forall x :: x in Sort(s, IndexBefore) <==> x in s
  {
    SortSorts(s, IndexBefore);
    SortKeeps(s, IndexBefore);
    var r := Sort(s, IndexBefore);
    forall i, j | 0 <= i < j < |r|
      ensures r[i] <= r[j]
    {
      assert !IndexBefore(r[j], r[i]);
    }
  }

  /** The part without repeats has the members of the whole, and ends like it. */
  ghost predicate Squeezed(part: seq<uint64>, whole: seq<uint64>) {
    && part != [] && whole != [] && part[|part| - 1] == whole[|whole| - 1]
    && AscendingIndices(part)
    && (forall x :: x in part <==> x in whole)
  }

  lemma SqueezeStep(part: seq<uint64>, whole: seq<uint64>, value: uint64)
    requires Squeezed(part, whole) && Ordered(whole + [value])
    ensures value == part[|part| - 1] ==> Squeezed(part, whole + [value])
    ensures value != part[|part| - 1] ==> Squeezed(part + [value], whole + [value])
  {
    assert (whole + [value])[|whole| - 1] <= (whole + [value])[|whole|];
  }

  /** Sorts a copy and squeezes out repeats in place. */
  method SortedUniqueUint64s(values: seq<uint64>) returns (r: seq<uint64>)
    ensures AscendingIndices(r)
    ensures forall x :: x in r <==> x in values
  {
    hide Sort;
    if |values| == 0 {
      return [];
    }
    var sorted := Sort(values, IndexBefore);
    IndicesSorted(values);
    var out := new uint64[|sorted|](i requires 0 <= i < |sorted| => sorted[i]);
    assert out[..] == sorted;
    var n := Squeeze(out, sorted);
    return out[..n];
  }

  /** Moves each value that differs from the last one kept to the front. */
  method Squeeze(out: array<uint64>, ghost sorted: seq<uint64>) returns (n: nat)
    requires out[..] == sorted && sorted != [] && Ordered(sorted)
    modifies out
    ensures n <= out.Length && Squeezed(out[..n], sorted)
  {
    hide Squeezed, Ordered;
    n := 1;
    assert out[..1] == sorted[..1] == [sorted[0]];
    FirstSqueezed(sorted[0]);
    for i := 1 to out.Length
      invariant 1 <= n <= i
      invariant forall k :: i <= k < out.Length ==> out[k] == sorted[k]
      invariant Squeezed(out[..n], sorted[..i])
    {
      var value := out[i];
      assert sorted[..i + 1] == sorted[..i] + [value];
      OrderedPrefix(sorted, i + 1);
      ghost var before := out[..n];
      SqueezeStep(before, sorted[..i], value);
      if value != out[n - 1] {
        out[n] := value;
        assert out[..n + 1] == before + [value];
        n := n + 1;
      }
    }
    assert sorted[..out.Length] == sorted;
  }

  lemma FirstSqueezed(x: uint64)
    ensures Squeezed([x], [x])
  {
  }

  lemma OrderedPrefix(s: seq<uint64>, k: nat)
    requires k <= |s| && Ordered(s)
    ensures Ordered(s[..k])
  {
  }

  // ----- rows and groups

  /** Rows after the deadline are dropped before anything else about them is looked at. */
  predicate Counted(cfg: Config, row: Row) {
    row.rawSeenMs <= cfg.deadlineMs
  }

  function KeyOf(cfg: Config, row: Row): Option<Key> {
    match (cfg.parse(row.blockRoot), cfg.parse(row.sourceRoot), cfg.parse(row.targetRoot))
    case (Some(block), Some(source), Some(target)) =>
      Some(Key(row.slot, block, row.sourceEpoch, source, row.targetEpoch, target))
    case _ => None
  }

  /** A counted row of another epoch, or with a root that does not parse, fails the load. */
  predicate Bad(cfg: Config, row: Row) {
    Counted(cfg, row) && (row.epoch != cfg.epoch || KeyOf(cfg, row).None?)
  }

  ghost predicate Votes(cfg: Config, row: Row, key: Key) {
    Counted(cfg, row) && KeyOf(cfg, row) == Some(key)
  }

  ghost function Keys(cfg: Config, rows: set<Row>): set<Key> {
    set row | row in rows && Counted(cfg, row) && KeyOf(cfg, row).Some? :: KeyOf(cfg, row).value
  }

  ghost function Voters(cfg: Config, rows: set<Row>, key: Key): set<uint64> {
    set row: Row | row in rows && Votes(cfg, row, key) :: row.validatorIndex
  }

  /** One vote entry per key, with exactly the validators of that key in strictly ascending order. */
  ghost predicate VoteOk(cfg: Config, rows: set<Row>, v: Vote) {
    && v.key in Keys(cfg, rows) && v.root == cfg.hash(v.key) && v.index == 0
    && AscendingIndices(v.indices) && (forall x: uint64 :: x in v.indices <==> x in Voters(cfg, rows, v.key))
  }

  ghost predicate AscendingVotes(votes: seq<Vote>) {
    forall i, j :: 0 <= i < j < |votes| ==> KeyLess(votes[i].key, votes[j].key)
  }

  /** The votes of one slot, for the keys in `keys`. */
  ghost predicate SlotOk(cfg: Config, rows: set<Row>, keys: set<Key>, slot: uint64, votes: seq<Vote>) {
    && AscendingVotes(votes)
    && (forall v :: v in votes ==> VoteOk(cfg, rows, v) && v.key in keys && v.key.slot == slot)
    && (forall key :: key in keys && key.slot == slot ==> exists v :: v in votes && v.key == key)
  }

  ghost predicate EpochPart(cfg: Config, rows: set<Row>, keys: set<Key>, slots: map<uint64, seq<Vote>>) {
    && (forall s :: s in slots <==> exists key :: key in keys && key.slot == s)
    && (forall s :: s in slots ==> SlotOk(cfg, rows, keys, s, slots[s]))
  }

  /** What a successful load returns: for each slot with counted rows, its votes by ascending key. */
  ghost predicate EpochOk(cfg: Config, rows: set<Row>, slots: map<uint64, seq<Vote>>) {
    EpochPart(cfg, rows, Keys(cfg, rows), slots)
  }

  // ----- what a load means for the rows

  ghost function RowSet(rows: seq<Row>): set<Row> {
    set row | row in rows
  }

  /** The row is a timely vote with the fields of this key. */
  ghost predicate Casts(cfg: Config, row: Row, key: Key) {
    && row.rawSeenMs <= cfg.deadlineMs
    && row.slot == key.slot && row.sourceEpoch == key.sourceEpoch && row.targetEpoch == key.targetEpoch
    && cfg.parse(row.blockRoot) == Some(key.beaconBlockRoot)
    && cfg.parse(row.sourceRoot) == Some(key.sourceRoot)
    && cfg.parse(row.targetRoot) == Some(key.targetRoot)
  }

  /** A timely row of another epoch, or with a text that is no root. */
  ghost predicate Spoils(cfg: Config, row: Row) {
    && row.rawSeenMs <= cfg.deadlineMs
    && (row.epoch != cfg.epoch || cfg.parse(row.blockRoot).None? || cfg.parse(row.sourceRoot).None?
        || cfg.parse(row.targetRoot).None?)
  }

  /** A vote at its own slot, cast by some row, with exactly the validators that cast it in strictly ascending order. */
  ghost predicate VoteCast(cfg: Config, rows: seq<Row>, slot: uint64, v: Vote) {
    && v.key.slot == slot && v.root == cfg.hash(v.key) && v.index == 0
    && v.indices != [] && (forall i, j :: 0 <= i < j < |v.indices| ==> v.indices[i] < v.indices[j])
    && (forall x: uint64 :: x in v.indices <==>
          exists row :: row in rows && Casts(cfg, row, v.key) && row.validatorIndex == x)
  }

  /** A timely row is in a vote at its slot. */
  ghost predicate RowCounted(cfg: Config, row: Row, slots: map<uint64, seq<Vote>>) {
    row.rawSeenMs <= cfg.deadlineMs ==>
      row.slot in slots && exists v :: v in slots[row.slot] && Casts(cfg, row, v.key)
  }

  /** The votes of a slot, at least one, ascending by the six fields. */
  ghost predicate SlotCast(cfg: Config, rows: seq<Row>, slot: uint64, votes: seq<Vote>) {
    && votes != []
    && (forall v :: v in votes ==> VoteCast(cfg, rows, slot, v))
    && (forall i, j :: 0 <= i < j < |votes| ==> KeyLess(votes[i].key, votes[j].key))
  }

  ghost predicate EpochCast(cfg: Config, rows: seq<Row>, slots: map<uint64, seq<Vote>>) {
    && (forall row :: row in rows ==> RowCounted(cfg, row, slots))
    && (forall s :: s in slots ==> SlotCast(cfg, rows, s, slots[s]))
  }

  lemma KeyOfCasts(cfg: Config, row: Row, key: Key)
    ensures Casts(cfg, row, key) <==> Votes(cfg, row, key)
    ensures Spoils(cfg, row) <==> Bad(cfg, row)
  {
  }

  lemma VotersCast(cfg: Config, rows: seq<Row>, key: Key, x: uint64)
    ensures x in Voters(cfg, RowSet(rows), key) <==>
      exists row :: row in rows && Casts(cfg, row, key) && row.validatorIndex == x
  {
    if x in Voters(cfg, RowSet(rows), key) {
      var row: Row :| row in RowSet(rows) && Votes(cfg, row, key) && row.validatorIndex == x;
      KeyOfCasts(cfg, row, key);
    }
    if row :| row in rows && Casts(cfg, row, key) && row.validatorIndex == x {
      KeyOfCasts(cfg, row, key);
      assert row in RowSet(rows);
    }
  }

  lemma VoteIsCast(cfg: Config, rows: seq<Row>, slot: uint64, v: Vote)
    requires VoteOk(cfg, RowSet(rows), v) && v.key.slot == slot
    ensures VoteCast(cfg, rows, slot, v)
  {
    hide Casts, Votes, KeyOf;
    forall x: uint64
      ensures x in v.indices <==> exists row :: row in rows && Casts(cfg, row, v.key) && row.validatorIndex == x
    {
      VotersCast(cfg, rows, v.key, x);
    }
    KeyHasVoter(cfg, RowSet(rows), v.key);
  }

  lemma KeyHasVoter(cfg: Config, rows: set<Row>, key: Key)
    requires key in Keys(cfg, rows)
    ensures Voters(cfg, rows, key) != {}
  {
    var row :| row in rows && Counted(cfg, row) && KeyOf(cfg, row) == Some(key);
    assert row.validatorIndex in Voters(cfg, rows, key);
  }

  /** Rows, fields and votes: what a good epoch means without the groups. */
  lemma EpochMeans(cfg: Config, rows: seq<Row>, slots: map<uint64, seq<Vote>>)
    requires EpochOk(cfg, RowSet(rows), slots) && forall row :: row in rows ==> !Bad(cfg, row)
    ensures EpochCast(cfg, rows, slots)
  {
    hide RowCounted, SlotCast, EpochOk, Bad;
    forall row | row in rows
      ensures RowCounted(cfg, row, slots)
    {
      RowHasVote(cfg, rows, slots, row);
    }
    forall s | s in slots
      ensures SlotCast(cfg, rows, s, slots[s])
    {
      SlotMeans(cfg, rows, slots, s);
    }
  }

  lemma SlotMeans(cfg: Config, rows: seq<Row>, slots: map<uint64, seq<Vote>>, s: uint64)
    requires EpochOk(cfg, RowSet(rows), slots) && s in slots
    ensures SlotCast(cfg, rows, s, slots[s])
  {
    hide VoteOk, VoteCast, KeyLess;
    forall v | v in slots[s]
      ensures VoteCast(cfg, rows, s, v)
    {
      VoteIsCast(cfg, rows, s, v);
    }
    var key :| key in Keys(cfg, RowSet(rows)) && key.slot == s;
    assert exists v :: v in slots[s] && v.key == key;
  }

  lemma RowHasVote(cfg: Config, rows: seq<Row>, slots: map<uint64, seq<Vote>>, row: Row)
    requires EpochOk(cfg, RowSet(rows), slots) && row in rows && !Bad(cfg, row)
    ensures RowCounted(cfg, row, slots)
  {
    hide VoteOk, KeyLess;
    if row.rawSeenMs <= cfg.deadlineMs {
      var key := KeyOf(cfg, row).value;
      assert row in RowSet(rows) && key in Keys(cfg, RowSet(rows)) && key.slot == row.slot;
      var v :| v in slots[key.slot] && v.key == key;
      KeyOfCasts(cfg, row, key);
    }
  }

  // ----- only one result is possible

  predicate VoteBefore(a: Vote, b: Vote) {
    CompareKeys(a.key, b.key) < 0
  }

  lemma VotesOrdered()
    ensures Ordering(VoteBefore)
  {
    forall a: Vote, b: Vote
      ensures VoteBefore(a, b) <==> KeyLess(a.key, b.key)
    {
      CompareKeysIsOrder(a.key, b.key);
    }
  }

  lemma VotesUnique(a: seq<Vote>, b: seq<Vote>)
    requires AscendingVotes(a) && AscendingVotes(b) && forall x :: x in a <==> x in b
    ensures a == b
  {
    VotesOrdered();
    forall x: Vote, y: Vote
      ensures VoteBefore(x, y) <==> KeyLess(x.key, y.key)
    {
      CompareKeysIsOrder(x.key, y.key);
    }
    AscendingUnique(a, b, VoteBefore);
  }

  lemma SameVotes(cfg: Config, rows: set<Row>, keys: set<Key>, s: uint64, a: seq<Vote>, b: seq<Vote>)
    requires SlotOk(cfg, rows, keys, s, a) && SlotOk(cfg, rows, keys, s, b)
    ensures forall x :: x in a ==> x in b
  {
    forall x | x in a
      ensures x in b
    {
      var y :| y in b && y.key == x.key;
      AscendingUnique(x.indices, y.indices, IndexBefore);
    }
  }

  lemma EpochUnique(cfg: Config, rows: set<Row>, a: map<uint64, seq<Vote>>, b: map<uint64, seq<Vote>>)
    requires EpochOk(cfg, rows, a) && EpochOk(cfg, rows, b)
    ensures a == b
  {
    assert a.Keys == b.Keys;
    forall s | s in a
      ensures a[s] == b[s]
    {
      SameVotes(cfg, rows, Keys(cfg, rows), s, a[s], b[s]);
      SameVotes(cfg, rows, Keys(cfg, rows), s, b[s], a[s]);
      VotesUnique(a[s], b[s]);
    }
  }

  ghost function Timely(cfg: Config, rows: set<Row>): set<Row> {
    set row | row in rows && Counted(cfg, row)
  }

  lemma VoteElsewhere(cfg: Config, rows: set<Row>, other: set<Row>, v: Vote)
    requires Timely(cfg, rows) == Timely(cfg, other) && VoteOk(cfg, rows, v)
    ensures VoteOk(cfg, other, v)
  {
    TimelyKeys(cfg, rows);
    TimelyKeys(cfg, other);
    TimelyVoters(cfg, rows, v.key);
    TimelyVoters(cfg, other, v.key);
  }

  lemma LateIgnored(cfg: Config, rows: set<Row>, other: set<Row>, slots: map<uint64, seq<Vote>>)
    requires Timely(cfg, rows) == Timely(cfg, other) && EpochOk(cfg, rows, slots)
    ensures EpochOk(cfg, other, slots)
  {
    hide VoteOk, Timely, Keys, AscendingVotes;
    TimelyKeys(cfg, rows);
    TimelyKeys(cfg, other);
    forall s | s in slots
      ensures SlotOk(cfg, other, Keys(cfg, other), s, slots[s])
    {
      forall v | v in slots[s]
        ensures VoteOk(cfg, other, v)
      {
        VoteElsewhere(cfg, rows, other, v);
      }
    }
  }

  lemma TimelyKeys(cfg: Config, rows: set<Row>)
    ensures Keys(cfg, rows) == Keys(cfg, Timely(cfg, rows))
  {
  }

  lemma TimelyVoters(cfg: Config, rows: set<Row>, key: Key)
    ensures Voters(cfg, rows, key) == Voters(cfg, Timely(cfg, rows), key)
  {
  }

  /** A load depends on the set of its timely rows alone: not on their order or number, nor on the rows after the
      deadline. */
  lemma LoadIsFunctionOfTimelyRows(cfg: Config, rows: set<Row>, other: set<Row>, a: map<uint64, seq<Vote>>,
                                   b: map<uint64, seq<Vote>>)
    requires Timely(cfg, rows) == Timely(cfg, other)
    requires EpochOk(cfg, rows, a) && EpochOk(cfg, other, b)
    ensures a == b
  {
    LateIgnored(cfg, rows, other, a);
    EpochUnique(cfg, other, a, b);
  }

  // ----- the load

  datatype Group = Group(root: Root, indices: seq<uint64>)

  /** The groups of the rows seen so far. */
  ghost predicate GroupsOk(cfg: Config, rows: set<Row>, groups: map<Key, Group>) {
    && groups.Keys == Keys(cfg, rows)
    && (forall key :: key in groups ==>
          groups[key].root == cfg.hash(key) && forall x: uint64 :: x in groups[key].indices <==>
            x in Voters(cfg, rows, key))
  }

  /** The groups are the fields that timely rows share, each with exactly the validators of these rows. */
  ghost predicate GroupsCast(cfg: Config, rows: seq<Row>, groups: map<Key, Group>) {
    && (forall row, key :: row in rows && Casts(cfg, row, key) ==> key in groups)
    && (forall key :: key in groups ==> groups[key].root == cfg.hash(key) && groups[key].indices != [])
    && (forall key, x: uint64 :: key in groups ==> (x in groups[key].indices <==>
          exists row :: row in rows && Casts(cfg, row, key) && row.validatorIndex == x))
  }

  lemma GroupsMean(cfg: Config, rows: seq<Row>, groups: map<Key, Group>)
    requires GroupsOk(cfg, RowSet(rows), groups)
    ensures GroupsCast(cfg, rows, groups)
  {
    forall row, key | row in rows && Casts(cfg, row, key)
      ensures key in groups
    {
      KeyOfCasts(cfg, row, key);
      assert row in RowSet(rows) && key in Keys(cfg, RowSet(rows));
    }
    hide Casts, Votes, KeyOf;
    forall key, x: uint64 | key in groups
      ensures x in groups[key].indices <==>
        exists row :: row in rows && Casts(cfg, row, key) && row.validatorIndex == x
    {
      VotersCast(cfg, rows, key, x);
    }
    forall key | key in groups
      ensures groups[key].indices != []
    {
      KeyHasVoter(cfg, RowSet(rows), key);
    }
  }

  lemma KeysStep(cfg: Config, rows: set<Row>, row: Row)
    ensures Counted(cfg, row) && KeyOf(cfg, row).Some? ==>
      Keys(cfg, rows + {row}) == Keys(cfg, rows) + {KeyOf(cfg, row).value}
    ensures !Counted(cfg, row) ==> Keys(cfg, rows + {row}) == Keys(cfg, rows)
  {
  }

  lemma VotersStep(cfg: Config, rows: set<Row>, row: Row, key: Key)
    ensures Votes(cfg, row, key) ==> Voters(cfg, rows + {row}, key) == Voters(cfg, rows, key) + {row.validatorIndex}
    ensures !Votes(cfg, row, key) ==> Voters(cfg, rows + {row}, key) == Voters(cfg, rows, key)
  {
  }

  lemma NoVoters(cfg: Config, rows: set<Row>, key: Key)
    requires key !in Keys(cfg, rows)
    ensures Voters(cfg, rows, key) == {}
  {
    forall row | row in rows
      ensures !Votes(cfg, row, key)
    {
    }
  }

  lemma GroupSkip(cfg: Config, rows: set<Row>, row: Row, groups: map<Key, Group>)
    requires GroupsOk(cfg, rows, groups) && !Counted(cfg, row)
    ensures GroupsOk(cfg, rows + {row}, groups)
  {
    KeysStep(cfg, rows, row);
    forall key | key in groups
      ensures Voters(cfg, rows + {row}, key) == Voters(cfg, rows, key)
    {
      VotersStep(cfg, rows, row, key);
    }
  }

  lemma GroupAdd(cfg: Config, rows: set<Row>, row: Row, key: Key, groups: map<Key, Group>)
    requires GroupsOk(cfg, rows, groups) && Votes(cfg, row, key)
    ensures var indices := if key in groups then groups[key].indices else [];
      GroupsOk(cfg, rows + {row}, groups[key := Group(cfg.hash(key), indices + [row.validatorIndex])])
  {
    KeysStep(cfg, rows, row);
    forall k | k in groups || k == key
      ensures k == key ==> Voters(cfg, rows + {row}, k) == Voters(cfg, rows, k) + {row.validatorIndex}
      ensures k != key ==> Voters(cfg, rows + {row}, k) == Voters(cfg, rows, k)
    {
      VotersStep(cfg, rows, row, k);
    }
    if key !in groups {
      NoVoters(cfg, rows, key);
    }
  }

  method GroupRows(cfg: Config, rows: seq<Row>) returns (r: Option<map<Key, Group>>)
    ensures r.None? <==> exists row :: row in rows && Spoils(cfg, row)
    ensures r.Some? ==> GroupsOk(cfg, RowSet(rows), r.value) && GroupsCast(cfg, rows, r.value)
  {
    hide GroupsOk;
    var groups: map<Key, Group> := map[];
    NoGroups(cfg);
    for k := 0 to |rows|
      invariant forall row :: row in rows[..k] ==> !Bad(cfg, row)
      invariant GroupsOk(cfg, RowSet(rows[..k]), groups)
    {
      var row := rows[k];
      assert rows[..k + 1] == rows[..k] + [row];
      assert RowSet(rows[..k + 1]) == RowSet(rows[..k]) + {row};
      if row.rawSeenMs > cfg.deadlineMs {
        GroupSkip(cfg, RowSet(rows[..k]), row, groups);
        continue;
      }
      var key := KeyOf(cfg, row);
      if row.epoch != cfg.epoch || key.None? {
        assert Bad(cfg, row);
        RowsSpoil(cfg, rows);
        return None;
      }
      GroupAdd(cfg, RowSet(rows[..k]), row, key.value, groups);
      var indices := if key.value in groups then groups[key.value].indices else [];
      groups := groups[key.value := Group(cfg.hash(key.value), indices + [row.validatorIndex])];
    }
    assert rows[..|rows|] == rows;
    RowsSpoil(cfg, rows);
    GroupsMean(cfg, rows, groups);
    return Some(groups);
  }

  lemma NoGroups(cfg: Config)
    ensures GroupsOk(cfg, RowSet([]), map[])
  {
  }

  /** The keys of the groups in map order, then sorted. */
  method SortedGroups(groups: map<Key, Group>) returns (keys: seq<Key>)
    ensures AscendingKeys(keys)
    ensures forall key :: key in keys <==> key in groups
  {
    hide Sort;
    var listing: seq<Key>, rest := [], groups.Keys;
    while rest != {}
      invariant rest <= groups.Keys
      invariant forall x :: x in listing <==> x in groups && x !in rest
      invariant Distinct(listing)
      decreases rest
    {
      var key :| key in rest;
      listing, rest := listing + [key], rest - {key};
    }
    DistinctKeysAscend(listing);
    return Sort(listing, KeyBefore);
  }

  ghost function KeySet(keys: seq<Key>): set<Key> {
    set key | key in keys
  }

  /** A vote for a key after all keys of its slot goes to the end of the slot's list. */
  lemma EmitStep(cfg: Config, rows: set<Row>, keys: seq<Key>, key: Key, slots: map<uint64, seq<Vote>>, v: Vote)
    requires EpochPart(cfg, rows, KeySet(keys), slots) && VoteOk(cfg, rows, v) && v.key == key
    requires forall k :: k in keys ==> KeyLess(k, key)
    ensures var list := if key.slot in slots then slots[key.slot] else [];
      EpochPart(cfg, rows, KeySet(keys + [key]), slots[key.slot := list + [v]])
  {
    hide SlotOk, VoteOk;
    var list := if key.slot in slots then slots[key.slot] else [];
    var slots' := slots[key.slot := list + [v]];
    assert KeySet(keys + [key]) == KeySet(keys) + {key};
    AppendVote(cfg, rows, KeySet(keys), key, list, v);
    forall s | s in slots'
      ensures SlotOk(cfg, rows, KeySet(keys) + {key}, s, slots'[s])
    {
      if s != key.slot {
        OtherSlot(cfg, rows, KeySet(keys), key, s, slots[s]);
      }
    }
  }

  lemma AppendVote(cfg: Config, rows: set<Row>, keys: set<Key>, key: Key, list: seq<Vote>, v: Vote)
    requires SlotOk(cfg, rows, keys, key.slot, list) || (list == [] && forall k :: k in keys ==> k.slot != key.slot)
    requires VoteOk(cfg, rows, v) && v.key == key && forall k :: k in keys ==> KeyLess(k, key)
    ensures SlotOk(cfg, rows, keys + {key}, key.slot, list + [v])
  {
    var longer := list + [v];
    assert forall x :: x in list ==> x in longer;
    assert longer[|list|] == v;
  }

  lemma OtherSlot(cfg: Config, rows: set<Row>, keys: set<Key>, key: Key, s: uint64, list: seq<Vote>)
    requires SlotOk(cfg, rows, keys, s, list) && s != key.slot
    ensures SlotOk(cfg, rows, keys + {key}, s, list)
  {
  }

  method EmitGroups(cfg: Config, ghost rows: set<Row>, groups: map<Key, Group>) returns (slots: map<uint64, seq<Vote>>)
    requires GroupsOk(cfg, rows, groups)
    ensures EpochOk(cfg, rows, slots)
  {
    hide EpochPart, VoteOk, KeyLess;
    var keys := SortedGroups(groups);
    slots := map[];
    NothingEmitted(cfg, rows);
    for k := 0 to |keys|
      invariant EpochPart(cfg, rows, KeySet(keys[..k]), slots)
    {
      var key := keys[k];
      var indices := SortedUniqueUint64s(groups[key].indices);
      var v := Vote(groups[key].root, 0, key, indices);
      GroupVote(cfg, rows, groups, v);
      assert keys[..k + 1] == keys[..k] + [key];
      EmitStep(cfg, rows, keys[..k], key, slots, v);
      slots := slots[key.slot := (if key.slot in slots then slots[key.slot] else []) + [v]];
    }
    assert keys[..|keys|] == keys;
    assert KeySet(keys) == Keys(cfg, rows);
  }

  lemma NothingEmitted(cfg: Config, rows: set<Row>)
    ensures EpochPart(cfg, rows, KeySet([]), map[])
  {
  }

  lemma GroupVote(cfg: Config, rows: set<Row>, groups: map<Key, Group>, v: Vote)
    requires GroupsOk(cfg, rows, groups) && v.key in groups && v.root == groups[v.key].root && v.index == 0
    requires AscendingIndices(v.indices) && forall x :: x in v.indices <==> x in groups[v.key].indices
    ensures VoteOk(cfg, rows, v)
  {
  }

  /** Loads an epoch from its rows; `file` is None where the rows cannot be read. */
  method LoadEpoch(cfg: Config, file: Option<seq<Row>>) returns (r: Option<map<uint64, seq<Vote>>>)
    ensures r.None? <==> file.None? || exists row :: row in file.value && Spoils(cfg, row)
    ensures r.Some? ==> EpochCast(cfg, file.value, r.value) && EpochOk(cfg, RowSet(file.value), r.value)
  {
    if file.None? {
      return None;
    }
    hide EpochOk, EpochCast, Bad, Spoils;
    var groups := GroupRows(cfg, file.value);
    if groups.None? {
      return None;
    }
    var slots := EmitGroups(cfg, RowSet(file.value), groups.value);
    RowsSpoil(cfg, file.value);
    EpochMeans(cfg, file.value, slots);
    return Some(slots);
  }

  lemma RowsSpoil(cfg: Config, rows: seq<Row>)
    ensures forall row :: row in rows ==> (Bad(cfg, row) <==> Spoils(cfg, row))
  {
  }
}
