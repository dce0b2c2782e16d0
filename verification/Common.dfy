/** The optional value. */
module Wrappers {
  datatype Option<T> = None | Some(value: T)
}

/** Facts about products and quotients that the solver does not find unaided. */
module Arithmetic {
  lemma MulAtLeast(x: nat, y: nat)
    requires x >= 1
    ensures x * y >= y
  {
  }

  lemma DivExact(x: nat, y: nat)
    requires y > 0
    ensures x * y / y == x && x * y % y == 0
    ensures (x * y + y - 1) / y == x
  {
    DivUnique(x * y, y, x, 0);
    DivUnique(x * y + y - 1, y, x, y - 1);
  }

  lemma DivUnique(z: nat, y: nat, q: nat, r: nat)
    requires y > 0 && z == q * y + r && r < y
    ensures z / y == q && z % y == r
  {
    var q', r' := z / y, z % y;
    assert z == q' * y + r';
    if q' < q {
      assert q * y == q' * y + (q - q') * y;
      MulAtLeast(q - q', y);
    } else if q' > q {
      assert q' * y == q * y + (q' - q) * y;
      MulAtLeast(q' - q, y);
    }
  }

  lemma DivPositive(z: nat, n: nat)
    requires z >= n > 0
    ensures z / n > 0
  {
    assert z == z / n * n + z % n;
  }

  lemma Divides(g: nat, t: nat)
    requires g > 0 && t > 0 && g % t == 0
    ensures t * (g / t) == g && g / t > 0 && t <= g
  {
    assert g == g / t * t;
    if g / t > 0 {
      MulAtLeast(g / t, t);
    }
  }

  lemma DivAtLeast(x: nat, p: nat, a: nat)
    requires p > 0
    ensures a * p <= x <==> a <= x / p
  {
    var h, rem := x / p, x % p;
    assert x == h * p + rem;
    if a <= h {
      MulMono(a, h, p);
    } else {
      MulMono(h + 1, a, p);
    }
  }

  lemma MulMono(x: int, y: int, z: int)
    requires x <= y && z >= 0
    ensures x * z <= y * z
  {
    assert y * z == x * z + (y - x) * z;
    MulNonNegative(y - x, z);
  }

  lemma MulNonNegative(x: int, y: int)
    requires x >= 0 && y >= 0
    ensures x * y >= 0
  {
  }
}

/** The same over the reals. */
module RealArithmetic {
  lemma DivTimes(x: real, y: real)
    requires y > 0.0
    ensures y * (x / y) == x
  {
  }

  lemma TimesMono(x: real, y: real, z: real)
    requires x <= y && z >= 0.0
    ensures x * z <= y * z
  {
    assert y * z == x * z + (y - x) * z;
    TimesNonNegative(y - x, z);
  }

  lemma TimesNonNegative(x: real, y: real)
    requires x >= 0.0 && y >= 0.0
    ensures x * y >= 0.0
  {
  }

  lemma TimesPositive(x: real, y: real)
    requires x > 0.0 && y > 0.0
    ensures x * y > 0.0
  {
  }

  lemma TimesCancels(x: real, y: real, z: real)
    requires z > 0.0 && x * z == y * z
    ensures x == y
  {
    if x < y {
      TimesStrict(x, y, z);
    } else if x > y {
      TimesStrict(y, x, z);
    }
  }

  lemma TimesStrict(x: real, y: real, z: real)
    requires x < y && z > 0.0
    ensures x * z < y * z
  {
    TimesPositive(y - x, z);
    assert (y - x) * z == y * z - x * z;
  }

  lemma DivIs(x: real, y: real, q: real)
    requires y > 0.0 && q * y == x
    ensures x / y == q
  {
    DivTimes(x, y);
    TimesCancels(x / y, q, y);
  }
}

/** Sums, and joining sequences of sequences. */
module Sequences {
  function Join<T>(parts: seq<seq<T>>): seq<T> {
    if parts == [] then [] else parts[0] + Join(parts[1..])
  }

  predicate Sized<T>(parts: seq<seq<T>>, w: nat) {
    forall i | 0 <= i < |parts| :: |parts[i]| == w
  }

  lemma {:induction false} JoinConcat<T>(p: seq<seq<T>>, q: seq<seq<T>>)
    ensures Join(p + q) == Join(p) + Join(q)
  {
    if p == [] {
      assert p + q == q;
    } else {
      JoinConcat(p[1..], q);
      assert (p + q)[1..] == p[1..] + q;
      assert Join(p + q) == p[0] + (Join(p[1..]) + Join(q));
    }
  }

  lemma JoinSnoc<T>(p: seq<seq<T>>, s: seq<T>)
    ensures Join(p + [s]) == Join(p) + s
  {
    JoinConcat(p, [s]);
    assert Join([s]) == s + Join([s][1..]);
  }

  lemma DropSlice<T>(s: seq<T>, skip: nat, at: nat, n: nat)
    requires skip + at + n <= |s|
    ensures s[skip..][at..at + n] == s[skip + at..skip + at + n]
  {
  }

  lemma Associate<T>(a: seq<T>, b: seq<T>, c: seq<T>)
    ensures (a + b) + c == a + (b + c)
  {
  }

  lemma JoinOne<T>(s: seq<T>)
    ensures Join([s]) == s
  {
    assert Join([s]) == s + Join([s][1..]);
  }

  lemma {:induction false} JoinLength<T>(p: seq<seq<T>>, w: nat)
    requires Sized(p, w)
    ensures |Join(p)| == |p| * w
  {
    if p != [] {
      JoinLength(p[1..], w);
      assert |p| * w == w + (|p| - 1) * w;
    }
  }

  function Sum(sizes: seq<nat>): nat {
    if sizes == [] then 0 else Sum(sizes[..|sizes| - 1]) + sizes[|sizes| - 1]
  }

  lemma {:induction false} SumOfEqual(sizes: seq<nat>, k: nat)
    requires forall i | 0 <= i < |sizes| :: sizes[i] == k
    ensures Sum(sizes) == |sizes| * k
  {
    if sizes != [] {
      SumOfEqual(sizes[..|sizes| - 1], k);
      assert |sizes| * k == (|sizes| - 1) * k + k;
    }
  }
}
