/** The experts of a layer over the expert-parallel ranks. */
module ExpertShards {
  import opened Arithmetic

  function Local<T>(experts: seq<T>, ep: nat): nat
    requires ep > 0
  {
    |experts| / ep
  }

  lemma RankFits<T>(experts: seq<T>, ep: nat, rank: nat)
    requires rank < ep
    ensures rank * Local(experts, ep) + Local(experts, ep) <= |experts|
  {
    var n := Local(experts, ep);
    assert |experts| == ep * n + |experts| % ep;
    MulMono(rank + 1, ep, n);
    assert (rank + 1) * n == rank * n + n;
  }

  /** The experts of one rank, by their local slot. */
  function Slots<T>(experts: seq<T>, ep: nat, rank: nat): seq<T>
    requires rank < ep
  {
    RankFits(experts, ep, rank);
    experts[rank * Local(experts, ep)..rank * Local(experts, ep) + Local(experts, ep)]
  }

  /** The loop over all experts that copies those of this rank. */
  method CopyExperts<T>(experts: seq<T>, ep: nat, rank: nat) returns (slots: seq<T>)
    requires rank < ep
    ensures slots == Slots(experts, ep, rank)
  {
    var n := Local(experts, ep);
    RankFits(experts, ep, rank);
    var start, end := rank * n, rank * n + n;
    slots := [];
    for idx := 0 to |experts|
      invariant idx <= start ==> slots == []
      invariant start < idx <= end ==> slots == experts[start..idx]
      invariant end < idx ==> slots == experts[start..end]
    {
      if start <= idx < end {
        slots := slots + [experts[idx]];
      }
    }
  }

  function AllSlots<T>(experts: seq<T>, ep: nat, ranks: nat): seq<T>
    requires ranks <= ep
  {
    if ranks == 0 then [] else AllSlots(experts, ep, ranks - 1) + Slots(experts, ep, ranks - 1)
  }

  lemma {:induction false} SlotsSoFar<T>(experts: seq<T>, ep: nat, ranks: nat)
    requires ranks <= ep && ep > 0
    ensures ranks * Local(experts, ep) <= |experts|
    ensures AllSlots(experts, ep, ranks) == experts[..ranks * Local(experts, ep)]
  {
    if ranks > 0 {
      var n := Local(experts, ep);
      RankFits(experts, ep, ranks - 1);
      SlotsSoFar(experts, ep, ranks - 1);
      assert ranks * n == (ranks - 1) * n + n;
      assert experts[..ranks * n] == experts[..(ranks - 1) * n] + experts[(ranks - 1) * n..ranks * n];
    }
  }

  /** The slots of all ranks in turn are all experts exactly when the ranks divide their number; if not,
      the last ones are on no rank. */
  lemma AllExpertsPlacedIff<T>(experts: seq<T>, ep: nat)
    requires ep > 0
    ensures AllSlots(experts, ep, ep) <= experts
    ensures |AllSlots(experts, ep, ep)| == |experts| - |experts| % ep
    ensures AllSlots(experts, ep, ep) == experts <==> |experts| % ep == 0
  {
    SlotsSoFar(experts, ep, ep);
    assert |experts| == ep * Local(experts, ep) + |experts| % ep;
  }

  /** Three experts on two ranks: one each, and the third is on none. */
  lemma ThirdExpertDropped()
    ensures Slots(["a", "b", "c"], 2, 0) == ["a"] && Slots(["a", "b", "c"], 2, 1) == ["b"]
    ensures AllSlots(["a", "b", "c"], 2, 2) == ["a", "b"]
  {
    SlotsSoFar(["a", "b", "c"], 2, 2);
  }
}
