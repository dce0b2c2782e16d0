/** The search for the number of layers of each pipeline stage. */
module PipelineShards {
  import opened Arithmetic

  datatype Outcome = Shards(parts: seq<int>) | ValueError | IndexError

  function Sum(s: seq<int>): int {
    if s == [] then 0 else Sum(s[..|s| - 1]) + s[|s| - 1]
  }

  function Ceil(a: int, b: int): int
    requires b > 0
  {
    (a + b - 1) / b
  }

  function Repeat(x: int, k: nat): seq<int> {
    seq(k, _ => x)
  }

  function FirstPart(layers: int, stages: int, middle: int): int {
    (layers - middle * (stages - 2)) / 2
  }

  function LastPart(layers: int, stages: int, middle: int): int {
    var both := layers - middle * (stages - 2);
    both - both / 2
  }

  function Split(layers: int, stages: int, middle: int): seq<int>
    requires stages >= 2
  {
    [FirstPart(layers, stages, middle)] + Repeat(middle, stages - 2) + [LastPart(layers, stages, middle)]
  }

  predicate Qualifies(layers: int, stages: int, middle: int) {
    0 < FirstPart(layers, stages, middle) <= middle && 0 < LastPart(layers, stages, middle) <= middle
  }

  /** The search succeeds: the smallest possible middle part leaves two layers for the ends. */
  predicate Searchable(layers: int, stages: int)
    requires stages > 0
  {
    Ceil(layers, stages) * (stages - 2) + 2 <= layers
  }

  lemma CeilIs(layers: int, stages: int, m: int)
    requires stages > 0
    ensures m >= Ceil(layers, stages) <==> m * stages >= layers
  {
    var c := Ceil(layers, stages);
    var r := (layers + stages - 1) % stages;
    assert layers + stages - 1 == c * stages + r;
    if m >= c {
      MulMono(c, m, stages);
    } else {
      MulMono(m + 1, c, stages);
      assert (m + 1) * stages == m * stages + stages;
    }
  }

  /** A middle part qualifies exactly between the average, rounded up, and what leaves two layers. */
  lemma QualifiesIff(layers: int, stages: int, m: int)
    requires stages >= 3 && m >= 0
    ensures Qualifies(layers, stages, m) <==> m >= Ceil(layers, stages) && m * (stages - 2) + 2 <= layers
  {
    CeilIs(layers, stages, m);
    assert m * stages == m * (stages - 2) + 2 * m;
  }

  /** A larger middle part is further from the first one. */
  lemma DifferenceGrows(layers: int, stages: int, m: int, n: int)
    requires stages >= 3 && 0 <= m <= n
    ensures m - FirstPart(layers, stages, m) <= n - FirstPart(layers, stages, n)
  {
    MulMono(m, n, stages - 2);
  }

  lemma CeilBelow(layers: int, stages: int)
    requires stages >= 3 && layers >= stages && Searchable(layers, stages)
    ensures 0 < Ceil(layers, stages) < layers
  {
    CeilIs(layers, stages, 0);
    var c := Ceil(layers, stages);
    assert c * (stages - 2) == c + c * (stages - 3);
    MulNonNegative(c, stages - 3);
  }

  lemma SearchableIf(layers: int, stages: int, m: int)
    requires stages >= 3 && m >= Ceil(layers, stages) && m * (stages - 2) + 2 <= layers
    ensures Searchable(layers, stages)
  {
    MulMono(Ceil(layers, stages), m, stages - 2);
  }

  type Candidate = (seq<int>, int)

  function CandidateOf(layers: int, stages: int, m: int): Candidate
    requires stages >= 2
  {
    var f := FirstPart(layers, stages, m);
    (Split(layers, stages, m), if f - m < 0 then m - f else f - m)
  }

  /** The head of a stable sort by difference: the earliest of the least. */
  method LeastDifference(cs: seq<Candidate>) returns (c: Candidate)
    requires cs != []
    ensures exists i :: 0 <= i < |cs| && c == cs[i]
                        && (forall j | 0 <= j < |cs| :: cs[i].1 <= cs[j].1)
                        && (forall j | 0 <= j < i :: cs[i].1 < cs[j].1)
  {
    var i := 0;
    for k := 1 to |cs|
      invariant 0 <= i < k
      invariant forall j | 0 <= j < k :: cs[i].1 <= cs[j].1
      invariant forall j | 0 <= j < i :: cs[i].1 < cs[j].1
    {
      if cs[k].1 < cs[i].1 {
        i := k;
      }
    }
    c := cs[i];
  }

  /** Equal parts in the middle; the ends share the rest, and the last one gets the odd layer. */
  lemma SplitParts(layers: int, stages: int, m: int)
    requires layers >= stages >= 3 && Searchable(layers, stages) && m == Ceil(layers, stages)
    ensures var parts := Split(layers, stages, m);
            && |parts| == stages && Sum(parts) == layers
            && (forall i | 0 < i < stages - 1 :: parts[i] == m)
            && 0 < parts[0] <= parts[stages - 1] <= parts[0] + 1
            && parts[stages - 1] <= m
  {
    CeilIs(layers, stages, 0);
    QualifiesIff(layers, stages, m);
    SumSplit(FirstPart(layers, stages, m), m, stages - 2, LastPart(layers, stages, m));
  }

  /** For three or more stages the search succeeds exactly when middle parts of the average, rounded up, leave
      two layers for the ends; otherwise indexing the empty candidate list raises. The ends share what is left,
      and the last one gets the odd layer. */
  method GetDynamicPipelineShards(layerNum: int, ppSize: int) returns (r: Outcome)
    ensures r.ValueError? <==> layerNum < ppSize || ppSize < 1
    ensures layerNum >= ppSize == 1 ==> r == Shards([layerNum])
    ensures layerNum >= ppSize == 2 ==> r == Shards([layerNum / 2, layerNum - layerNum / 2])
    ensures layerNum >= ppSize >= 3 ==>
              r == if Searchable(layerNum, ppSize) then Shards(Split(layerNum, ppSize, Ceil(layerNum, ppSize)))
                   else IndexError
    ensures r.IndexError? <==> layerNum >= ppSize >= 3 && layerNum < Ceil(layerNum, ppSize) * (ppSize - 2) + 2
    ensures r.Shards? ==> |r.parts| == ppSize && Sum(r.parts) == layerNum
    ensures r.Shards? && ppSize >= 3 ==>
              && (forall i | 0 < i < ppSize - 1 :: r.parts[i] == Ceil(layerNum, ppSize))
              && 0 < r.parts[0] <= r.parts[ppSize - 1] <= r.parts[0] + 1
              && r.parts[ppSize - 1] <= Ceil(layerNum, ppSize)
  {
    if layerNum < ppSize || ppSize < 1 {
      return ValueError;
    }
    if ppSize == 1 {
      SumSplit(layerNum, 0, 0, 0);
      return Shards([layerNum]);
    }
    if ppSize == 2 {
      SumSplit(layerNum / 2, 0, 0, layerNum - layerNum / 2);
      return Shards([layerNum / 2, layerNum - layerNum / 2]);
    }
    var strategy: seq<Candidate> := [];
    var least := Ceil(layerNum, ppSize);
    for m := 0 to layerNum
      invariant strategy == [] <==> !(Searchable(layerNum, ppSize) && least < m)
      invariant strategy != [] ==> strategy[0] == CandidateOf(layerNum, ppSize, least)
      invariant forall i | 0 <= i < |strategy| :: strategy[0].1 <= strategy[i].1
    {
      QualifiesIff(layerNum, ppSize, m);
      var first, last := FirstPart(layerNum, ppSize, m), LastPart(layerNum, ppSize, m);
      if 0 < first <= m && 0 < last <= m {
        SearchableIf(layerNum, ppSize, m);
        CeilIs(layerNum, ppSize, 0);
        DifferenceGrows(layerNum, ppSize, least, m);
        QualifiesIff(layerNum, ppSize, least);
        strategy := strategy + [CandidateOf(layerNum, ppSize, m)];
      }
    }
    if Searchable(layerNum, ppSize) {
      CeilBelow(layerNum, ppSize);
      SplitParts(layerNum, ppSize, least);
    }
    if strategy == [] {
      return IndexError;
    }
    var c := LeastDifference(strategy);
    r := Shards(c.0);
  }

  lemma {:induction false} SumSplit(x: int, mid: int, k: nat, y: int)
    ensures Sum([x] + Repeat(mid, k)) == x + mid * k
    ensures Sum([x] + Repeat(mid, k) + [y]) == x + mid * k + y
  {
    var s := [x] + Repeat(mid, k);
    if k == 0 {
      assert s == [x];
      assert s[..0] == [];
    } else {
      SumSplit(x, mid, k - 1, y);
      assert s[..|s| - 1] == [x] + Repeat(mid, k - 1);
      assert mid * k == mid * (k - 1) + mid;
    }
    assert (s + [y])[..|s|] == s;
  }

  lemma {:induction false} SumAtMost(s: seq<int>, bound: int)
    requires forall i | 0 <= i < |s| :: s[i] <= bound
    ensures Sum(s) <= bound * |s|
  {
    if s != [] {
      SumAtMost(s[..|s| - 1], bound);
      assert bound * |s| == bound * (|s| - 1) + bound;
    }
  }

  /** A found split has one positive part per stage and adds up to the layers; no part exceeds the
      average rounded up, and no split into that many parts has a smaller largest part. */
  lemma SplitIsBest(layers: int, stages: int, other: seq<int>)
    requires layers >= stages >= 3 && Searchable(layers, stages)
    requires |other| == stages && Sum(other) == layers
    ensures var s := Split(layers, stages, Ceil(layers, stages));
            && |s| == stages && Sum(s) == layers
            && (forall i | 0 <= i < |s| :: 0 < s[i] <= Ceil(layers, stages))
            && (exists i :: 0 <= i < |s| && s[i] == Ceil(layers, stages))
            && (exists j :: 0 <= j < |other| && other[j] >= Ceil(layers, stages))
  {
    var c := Ceil(layers, stages);
    var s := Split(layers, stages, c);
    CeilBelow(layers, stages);
    QualifiesIff(layers, stages, c);
    SumSplit(FirstPart(layers, stages, c), c, stages - 2, LastPart(layers, stages, c));
    assert s[1] == c;
    if forall j | 0 <= j < |other| :: other[j] <= c - 1 {
      SumAtMost(other, c - 1);
      CeilIs(layers, stages, c - 1);
    }
  }

  /** Nine layers cannot be searched for eight stages, although nine is at least eight. */
  lemma NineOverEight()
    ensures !Searchable(9, 8)
  {
    assert Ceil(9, 8) == 2;
  }

  /** One layer above a multiple k of the stages the search succeeds only from
      about half as many layers a stage as stages. */
  lemma JustAboveMultiple(stages: int, k: int)
    requires stages >= 3 && 1 <= k
    ensures Searchable(stages * k + 1, stages) <==> 2 * k + 1 >= stages
  {
    var layers := stages * k + 1;
    CeilIs(layers, stages, k + 1);
    CeilIs(layers, stages, k);
    assert (k + 1) * stages == stages * k + stages;
    assert k * stages == stages * k;
    assert Ceil(layers, stages) == k + 1;
    assert (k + 1) * (stages - 2) == stages * k + stages - 2 * k - 2;
  }
}
