/** The Lodestar engine's latest votes by slot: three arrays indexed by validator. */
module VoteTracker {
  import opened Core

  const INIT_VOTE_SLOT: nat := 0
  const NULL_VOTE_INDEX: nat := 0xffff_ffff

  /** A vote of a validator, with the node its root resolves to in the proto-array; None where it is not there. */
  datatype Vote = Vote(validator: nat, slot: nat, node: Option<nat>)

  datatype Latest = Latest(slot: nat, node: nat)

  /** The entries as a function of the votes so far: None before a validator's first vote. */
  ghost function LatestOf(votes: seq<Vote>, v: nat): Option<Latest> {
    if votes == [] then None
    else
      After(LatestOf(votes[..|votes| - 1], v), votes[|votes| - 1], v)
  }

  function After(before: Option<Latest>, vote: Vote, v: nat): Option<Latest> {
    if vote.validator != v || vote.node.None? then before
    else if before.None? || before.value.slot == INIT_VOTE_SLOT || vote.slot > before.value.slot
      then Some(Latest(vote.slot, vote.node.value))
    else before
  }

  class Tracker {
    var voteCurrentIndices: seq<nat>
    var voteNextIndices: seq<nat>
    var voteNextSlots: seq<nat>
    ghost var votes: seq<Vote>

    ghost predicate Valid()
      reads this
    {
      && |voteNextIndices| == |voteNextSlots| == |voteCurrentIndices|
      && (forall v :: 0 <= v < |voteNextSlots| ==> Entry(LatestOf(votes, v), voteNextSlots[v], voteNextIndices[v]))
      && (forall v :: v >= |voteNextSlots| ==> LatestOf(votes, v) == None)
    }

    constructor ()
      ensures Valid() && votes == []
    {
      voteCurrentIndices, voteNextIndices, voteNextSlots, votes := [], [], [], [];
    }

    /** Records a vote if it is newer; the arrays grow together up to the validator. A root without a node is an
        error. */
    method AddLatestMessageBySlot(vote: Vote) returns (ok: bool)
      requires Valid()
      modifies this
      ensures Valid() && votes == old(votes) + [vote]
      ensures ok <==> vote.node.Some?
      ensures |voteNextSlots| == if ok && vote.validator >= old(|voteNextSlots|) then vote.validator + 1
        else old(|voteNextSlots|)
      ensures old(voteCurrentIndices) <= voteCurrentIndices
      ensures forall v :: old(|voteCurrentIndices|) <= v < |voteCurrentIndices| ==>
        voteCurrentIndices[v] == NULL_VOTE_INDEX
    {
      ghost var next := votes + [vote];
      OneMore(votes, vote);
      votes := next;
      if vote.node.None? {
        return false;
      }
      var validatorIndex := vote.validator;
      while |voteNextSlots| < validatorIndex + 1
        invariant |voteNextIndices| == |voteNextSlots| == |voteCurrentIndices|
        invariant old(|voteNextSlots|) <= |voteNextSlots|
        invariant |voteNextSlots| <= validatorIndex + 1 || |voteNextSlots| == old(|voteNextSlots|)
        invariant votes == next && old(voteCurrentIndices) <= voteCurrentIndices
        invariant forall v :: old(|voteCurrentIndices|) <= v < |voteCurrentIndices| ==>
          voteCurrentIndices[v] == NULL_VOTE_INDEX
        invariant forall v :: 0 <= v < |voteNextSlots| ==>
          Entry(LatestOf(old(votes), v), voteNextSlots[v], voteNextIndices[v])
        invariant forall v :: v >= |voteNextSlots| ==> LatestOf(old(votes), v) == None
        decreases validatorIndex + 1 - |voteNextSlots|
      {
        voteNextSlots := voteNextSlots + [INIT_VOTE_SLOT];
        voteCurrentIndices := voteCurrentIndices + [NULL_VOTE_INDEX];
        voteNextIndices := voteNextIndices + [NULL_VOTE_INDEX];
      }
      var existingNextSlot := voteNextSlots[validatorIndex];
      if existingNextSlot == INIT_VOTE_SLOT || vote.slot > existingNextSlot {
        voteNextIndices := voteNextIndices[validatorIndex := vote.node.value];
        voteNextSlots := voteNextSlots[validatorIndex := vote.slot];
      }
      return true;
    }
  }

  /** What the arrays hold for a validator: the initial pair before its first vote. */
  ghost predicate Entry(latest: Option<Latest>, slot: nat, node: nat) {
    match latest
    case None => slot == INIT_VOTE_SLOT && node == NULL_VOTE_INDEX
    case Some(l) => slot == l.slot && node == l.node
  }

  lemma OneMore(votes: seq<Vote>, vote: Vote)
    ensures forall v :: LatestOf(votes + [vote], v) == After(LatestOf(votes, v), vote, v)
  {
    assert (votes + [vote])[..|votes|] == votes;
  }

  ghost predicate By(vote: Vote, v: nat) {
    vote.validator == v && vote.node.Some?
  }

  /** Vote i is the newest of the validator: no vote of it has a larger slot. Among equal slots it is the first to
      arrive, except at the initial slot 0, where it is the last. */
  ghost predicate Decides(votes: seq<Vote>, v: nat, i: nat) {
    && i < |votes| && By(votes[i], v)
    && (forall j :: 0 <= j < |votes| && By(votes[j], v) ==> votes[j].slot <= votes[i].slot)
    && (votes[i].slot > INIT_VOTE_SLOT ==> forall j :: 0 <= j < i && By(votes[j], v) ==> votes[j].slot < votes[i].slot)
    && (votes[i].slot == INIT_VOTE_SLOT ==> forall j :: i < j < |votes| ==> !By(votes[j], v))
  }

  ghost predicate Silent(votes: seq<Vote>, v: nat) {
    forall j :: 0 <= j < |votes| ==> !By(votes[j], v)
  }

  /** After any votes a validator's entry is that of the deciding vote; with positive slots, the first vote for its
      largest slot. */
  lemma {:induction false} LatestDecides(votes: seq<Vote>, v: nat) returns (i: nat)
    ensures LatestOf(votes, v).None? <==> Silent(votes, v)
    ensures LatestOf(votes, v).Some? ==>
      Decides(votes, v, i) && LatestOf(votes, v).value == Latest(votes[i].slot, votes[i].node.value)
  {
    i := 0;
    if votes != [] {
      var before, n := votes[..|votes| - 1], |votes| - 1;
      i := LatestDecides(before, v);
      if By(votes[n], v) {
        if LatestOf(before, v).None? || LatestOf(before, v).value.slot == INIT_VOTE_SLOT
          || votes[n].slot > LatestOf(before, v).value.slot {
          assert forall j :: 0 <= j < n ==> votes[j] == before[j];
          i := n;
        }
      }
    }
  }

  lemma DecidesUnique(votes: seq<Vote>, v: nat, i: nat, j: nat)
    requires Decides(votes, v, i) && Decides(votes, v, j)
    ensures i == j
  {
  }
}
