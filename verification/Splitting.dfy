/** The two ways the repository splits along the first dimension: `torch.chunk` and `np.array_split`. */
module Splitting {
  import opened Wrappers
  import opened Arithmetic
  import opened Sequences

  /** `torch.chunk`: pieces of the size that makes at most n of them, of which the last may be smaller;
      an empty tensor gives n empty pieces. */
  function Chunk<T>(s: seq<T>, n: nat): seq<seq<T>>
    requires n > 0
  {
    if s == [] then seq(n, _ => []) else
    var size := (|s| + n - 1) / n;
    DivPositive(|s| + n - 1, n);
    Pieces(s, size)
  }

  function Pieces<T>(s: seq<T>, size: nat): seq<seq<T>>
    requires size > 0
    decreases |s|
  {
    if |s| <= size then [s] else [s[..size]] + Pieces(s[size..], size)
  }

  /** Up to `size` items from `at` on. */
  function Segment<T>(s: seq<T>, at: nat, size: nat): seq<T>
    requires at <= |s|
  {
    s[at..if at + size < |s| then at + size else |s|]
  }

  lemma {:induction false} PiecesAt<T>(s: seq<T>, size: nat, i: nat, at: nat)
    requires size > 0 && i < |Pieces(s, size)| && at == i * size
    ensures at <= |s| && Pieces(s, size)[i] == Segment(s, at, size)
    decreases i
  {
    if i > 0 {
      assert at - size == (i - 1) * size;
      PiecesAt(s[size..], size, i - 1, at - size);
      DropSegment(s, size, at);
    }
  }

  lemma DropSegment<T>(s: seq<T>, size: nat, at: nat)
    requires size <= at <= |s|
    ensures Segment(s[size..], at - size, size) == Segment(s, at, size)
  {
  }

  lemma {:induction false} PiecesCount<T>(s: seq<T>, size: nat)
    requires s != [] && size > 0
    ensures |Pieces(s, size)| == (|s| + size - 1) / size
    decreases |s|
  {
    if |s| <= size {
      DivUnique(|s| + size - 1, size, 1, |s| - 1);
    } else {
      PiecesCount(s[size..], size);
      OneLess(|s| - 1, size);
    }
  }

  lemma OneLess(x: nat, size: nat)
    requires size > 0
    ensures (x + size) / size == x / size + 1
  {
    var q, r := x / size, x % size;
    assert x == q * size + r && (q + 1) * size == q * size + size;
    DivUnique(x + size, size, q + 1, r);
  }

  /** Chunk i has the rows from i * size on, where size is the least that needs at most n chunks; the last
      chunk may be shorter, and there may be fewer than n. */
  lemma ChunkAt<T>(s: seq<T>, n: nat, size: nat, i: nat)
    requires s != [] && n > 0 && size == (|s| + n - 1) / n
    ensures size > 0 && |Chunk(s, n)| == (|s| + size - 1) / size <= n
    ensures i < |Chunk(s, n)| ==> i * size <= |s| && Chunk(s, n)[i] == Segment(s, i * size, size)
  {
    DivPositive(|s| + n - 1, n);
    PiecesCount(s, size);
    ChunkCount(|s|, n, size);
    if i < |Chunk(s, n)| {
      PiecesAt(s, size, i, i * size);
    }
  }

  lemma ChunkCount(m: nat, n: nat, size: nat)
    requires m > 0 && n > 0 && size == (m + n - 1) / n > 0
    ensures (m + size - 1) / size <= n
  {
    assert m + n - 1 == size * n + (m + n - 1) % n;
    assert (n + 1) * size == size * n + size;
    DivAtLeast(m + size - 1, size, n + 1);
  }

  /** A length that n divides is cut into n equal pieces. */
  lemma EqualPieces<T>(s: seq<T>, n: nat, k: nat, i: nat)
    requires n > 0 && k > 0 && |s| == n * k && i < n
    ensures |Chunk(s, n)| == n && i * k + k <= |s| && Chunk(s, n)[i] == s[i * k..i * k + k]
  {
    MulAtLeast(n, k);
    DivExact(k, n);
    assert n * k == k * n;
    PieceAt(s, n, k, i);
  }

  lemma {:induction false} PieceAt<T>(s: seq<T>, n: nat, k: nat, i: nat)
    requires n > 0 && k > 0 && |s| == n * k && i < n
    ensures |Pieces(s, k)| == n && i * k + k <= |s| && Pieces(s, k)[i] == s[i * k..i * k + k]
    decreases n
  {
    assert n * k == k + (n - 1) * k;
    if n == 1 {
      assert i * k == 0;
    } else {
      MulAtLeast(n - 1, k);
      if i > 0 {
        PieceAt(s[k..], n - 1, k, i - 1);
        assert i * k == k + (i - 1) * k;
        DropSlice(s, k, (i - 1) * k, k);
      } else {
        PieceAt(s[k..], n - 1, k, 0);
      }
    }
  }

  /** Where piece i starts when m items are split into n pieces, the first m % n of them one longer. */
  function Cut(m: nat, n: nat, i: nat): nat
    requires n > 0
  {
    i * (m / n) + if i < m % n then i else m % n
  }

  lemma CutEnds(m: nat, n: nat)
    requires n > 0
    ensures Cut(m, n, 0) == 0 && Cut(m, n, n) == m
  {
    assert m == n * (m / n) + m % n;
  }

  lemma CutNext(m: nat, n: nat, i: nat)
    requires n > 0
    ensures Cut(m, n, i + 1) == Cut(m, n, i) + m / n + (if i < m % n then 1 else 0)
  {
    assert (i + 1) * (m / n) == i * (m / n) + m / n;
  }

  lemma {:induction false} CutGrows(m: nat, n: nat, i: nat, j: nat)
    requires n > 0 && i <= j
    ensures Cut(m, n, i) <= Cut(m, n, j)
    decreases j
  {
    if i < j {
      CutGrows(m, n, i, j - 1);
      CutNext(m, n, j - 1);
    }
  }

  lemma CutFits(m: nat, n: nat, i: nat)
    requires n > 0 && i < n
    ensures Cut(m, n, i) <= Cut(m, n, i + 1) <= m
  {
    CutGrows(m, n, i, i + 1);
    CutGrows(m, n, i + 1, n);
    CutEnds(m, n);
  }

  /** Piece i of s, split into n pieces. */
  function Piece<T>(s: seq<T>, n: nat, i: nat): seq<T>
    requires i < n
  {
    CutFits(|s|, n, i);
    s[Cut(|s|, n, i)..Cut(|s|, n, i + 1)]
  }

  lemma JoinNext<T>(s: seq<T>, pieces: seq<seq<T>>, start: nat, end: nat)
    requires start <= end <= |s| && Join(pieces) == s[..start]
    ensures Join(pieces + [s[start..end]]) == s[..end]
  {
    JoinSnoc(pieces, s[start..end]);
  }

  /** `np.array_split`; None stands for its ValueError on no pieces. */
  method ArraySplit<T>(s: seq<T>, n: nat) returns (r: Option<seq<seq<T>>>)
    ensures r.None? <==> n == 0
    ensures r.Some? ==> |r.value| == n && forall i | 0 <= i < n :: r.value[i] == Piece(s, n, i)
    ensures r.Some? ==> Join(r.value) == s
    ensures r.Some? ==> forall i | 0 <= i < n :: |r.value[i]| == |s| / n + if i < |s| % n then 1 else 0
  {
    if n == 0 {
      return None;
    }
    var each, extras := |s| / n, |s| % n;
    var pieces: seq<seq<T>> := [];
    var start := 0;
    CutEnds(|s|, n);
    for i := 0 to n
      invariant start == Cut(|s|, n, i) <= |s| && |pieces| == i && Join(pieces) == s[..start]
      invariant forall j | 0 <= j < i :: |pieces[j]| == each + if j < extras then 1 else 0
      invariant forall j | 0 <= j < i :: pieces[j] == Piece(s, n, j)
    {
      CutNext(|s|, n, i);
      CutFits(|s|, n, i);
      var end := start + each + if i < extras then 1 else 0;
      JoinNext(s, pieces, start, end);
      pieces := pieces + [s[start..end]];
      start := end;
    }
    r := Some(pieces);
  }

  /** Every item falls in a piece. */
  lemma PieceOf(m: nat, n: nat, at: nat) returns (i: nat)
    requires n > 0 && at < m
    ensures i < n && Cut(m, n, i) <= at < Cut(m, n, i + 1)
  {
    i := 0;
    CutEnds(m, n);
    while at >= Cut(m, n, i + 1)
      invariant i < n && Cut(m, n, i) <= at
      decreases n - i
    {
      if i + 1 == n {
        assert false;
      }
      i := i + 1;
    }
  }

  lemma PieceUnique(m: nat, n: nat, at: nat, i: nat, j: nat)
    requires n > 0 && Cut(m, n, i) <= at < Cut(m, n, i + 1) && Cut(m, n, j) <= at < Cut(m, n, j + 1)
    ensures i == j
  {
    if i < j {
      CutGrows(m, n, i + 1, j);
    } else if j < i {
      CutGrows(m, n, j + 1, i);
    }
  }
}
