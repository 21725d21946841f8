/** The floor shares with which basis and fees leave a lot. */
module Rounding {
  lemma MulMonotone(a: int, b: int, c: int)
    requires a <= b && 0 <= c
    ensures a * c <= b * c
  {
  }

  lemma MulCancel(a: int, b: int, c: int)
    requires a * c <= b * c && 0 < c
    ensures a <= b
  {
    if b < a { MulMonotone(b + 1, a, c); }
  }

  /** The defining bounds of a floor quotient. */
  lemma FloorBounds(x: int, n: int)
    requires n > 0
    ensures (x / n) * n <= x < (x / n + 1) * n
  {
    assert x == n * (x / n) + x % n;
  }

  lemma ShareBounds(total: int, part: int, whole: int)
    requires 0 <= total && 0 < part <= whole
    ensures 0 <= total * part / whole <= total
    ensures part == whole ==> total * part / whole == total
  {
    var q := total * part / whole;
    FloorBounds(total * part, whole);
    MulMonotone(part, whole, total);
    MulMonotone(0, part, total);
    if q < 0 { MulMonotone(q + 1, 0, whole); }
    MulCancel(q, total, whole);
    if part == whole { MulCancel(total, q + 1, whole); if q < total { MulMonotone(q + 1, total, whole); } }
  }

  // ------------------------------------------------------------------------------
  // Repeated relief of one balance. `balance` is spread over `atoms`; a relief of
  // `take` atoms carries away the floor share.

  /** Balance carried away by relieving `takes` one after the other. */
  function Carried(balance: int, atoms: int, takes: seq<int>): int
    decreases |takes|
  {
    if takes == [] || atoms <= 0 then 0
    else
      var share := balance * takes[0] / atoms;
      share + Carried(balance - share, atoms - takes[0], takes[1..])
  }

  lemma CarriedStep(balance: int, atoms: int, takes: seq<int>, share: int)
    requires takes != [] && atoms > 0 && share == balance * takes[0] / atoms
    ensures Carried(balance, atoms, takes) == share + Carried(balance - share, atoms - takes[0], takes[1..])
  {
  }

  function SumOf(xs: seq<int>): int {
    if xs == [] then 0 else xs[0] + SumOf(xs[1..])
  }

  ghost predicate Reliefs(atoms: int, takes: seq<int>) {
    && (forall i :: 0 <= i < |takes| ==> takes[i] > 0)
    && SumOf(takes) <= atoms
  }

  /** One relief keeps the balance per remaining atom from falling. */
  lemma RemainderKeepsRate(b: int, n: int, take: int, B: int, N: int)
    requires 0 <= b && 0 < take <= n && 0 < N && 0 <= B && B * n <= b * N
    ensures var share := b * take / n;
      && B * (n - take) <= (b - share) * N
      && N * (share + 1) > B * take
  {
    var share := b * take / n;
    FloorBounds(b * take, n);
    assert n * (share + 1) > b * take;
    MulChain(n, share + 1, b, take, B, N);
    RateStep(b, n, take, share, B, N);
  }

  /** From `n·s > b·t` and `b·N >= B·n` follows `N·s > B·t`. */
  lemma MulChain(n: int, s: int, b: int, t: int, B: int, N: int)
    requires n > 0 && N > 0 && t > 0 && n * s > b * t && B * n <= b * N
    ensures N * s > B * t
  {
    if N * s <= B * t {
      MulMonotone(N * s, B * t, n);
      assert (N * s) * n == N * (n * s) && (B * t) * n == (B * n) * t;
      MulMonotone(B * n, b * N, t);
      assert (b * N) * t == N * (b * t);
      assert N * (n * s) <= N * (b * t);
      MulMonotone(b * t + 1, n * s, N);
      assert false;
    }
  }

  /** `share·n <= b·take` leaves `(b - share)·n >= b·(n - take)`, and the rate follows. */
  lemma RateStep(b: int, n: int, take: int, share: int, B: int, N: int)
    requires 0 < take <= n && 0 < N && share * n <= b * take && B * n <= b * N
    ensures B * (n - take) <= (b - share) * N
  {
    var left := n - take;
    assert (b - share) * n >= b * left by {
      assert (b - share) * n == b * n - share * n;
      assert b * left == b * n - b * take;
    }
    MulMonotone(B * n, b * N, left);
    MulMonotone(b * left, (b - share) * n, N);
    assert (B * n) * left == (B * left) * n;
    assert (b * N) * left == (b * left) * N;
    assert ((b - share) * n) * N == ((b - share) * N) * n;
    MulCancel(B * left, (b - share) * N, n);
  }

  lemma {:induction false} SumNonNegative(xs: seq<int>)
    requires forall i :: 0 <= i < |xs| ==> xs[i] > 0
    ensures SumOf(xs) >= 0 && (xs != [] ==> SumOf(xs) > 0)
  {
    if xs != [] { SumNonNegative(xs[1..]); }
  }

  lemma {:induction false} CarriedBounds(b: int, n: int, takes: seq<int>)
    requires 0 <= b && Reliefs(n, takes)
    ensures 0 <= Carried(b, n, takes) <= b
    ensures takes != [] && SumOf(takes) == n ==> Carried(b, n, takes) == b
    decreases |takes|
  {
    if takes != [] {
      var take, rest := takes[0], takes[1..];
      SumNonNegative(rest);
      ShareBounds(b, take, n);
      CarriedBounds(b - b * take / n, n - take, rest);
    }
  }

  /** Never above the exact share: the remaining balance keeps at least the old rate. */
  lemma {:induction false} CarriedUpper(b: int, n: int, takes: seq<int>, B: int, N: int)
    requires 0 <= b && 0 < N && 0 <= B && B * n <= b * N && Reliefs(n, takes)
    ensures B * (n - SumOf(takes)) <= (b - Carried(b, n, takes)) * N
    decreases |takes|
  {
    if takes != [] {
      var take, rest := takes[0], takes[1..];
      SumNonNegative(rest);
      ShareBounds(b, take, n);
      RemainderKeepsRate(b, n, take, B, N);
      var share := b * take / n;
      CarriedUpper(b - share, n - take, rest, B, N);
      assert n - take - SumOf(rest) == n - SumOf(takes);
      assert b - share - Carried(b - share, n - take, rest) == b - Carried(b, n, takes);
    }
  }

  /** Each relief loses less than one unit against the exact share. */
  lemma {:induction false} CarriedLower(b: int, n: int, takes: seq<int>, B: int, N: int)
    requires 0 <= b && 0 < N && 0 <= B && B * n <= b * N && Reliefs(n, takes)
    ensures N * (Carried(b, n, takes) + |takes|) >= B * SumOf(takes)
    ensures takes != [] ==> N * (Carried(b, n, takes) + |takes|) > B * SumOf(takes)
    decreases |takes|
  {
    if takes != [] {
      var take, rest := takes[0], takes[1..];
      SumNonNegative(rest);
      ShareBounds(b, take, n);
      RemainderKeepsRate(b, n, take, B, N);
      var share := b * take / n;
      CarriedLower(b - share, n - take, rest, B, N);
      AddProducts(N, share + 1, Carried(b - share, n - take, rest) + |rest|, B, take, SumOf(rest));
    }
  }

  lemma AddProducts(N: int, s: int, s': int, B: int, t: int, t': int)
    requires N * s > B * t && N * s' >= B * t'
    ensures N * (s + s') > B * (t + t')
  {
  }

  /** After k reliefs taking T of N atoms, the amount R carried out of a balance B is
      below the exact share B·T/N by less than k and never above it (both written
      without division); all of B has left when T = N, and never before if B > 0. */
  lemma ReliefRounding(B: int, N: int, takes: seq<int>)
    requires 0 <= B && 0 < N && takes != [] && Reliefs(N, takes)
    ensures var R, T, k := Carried(B, N, takes), SumOf(takes), |takes|;
      && R * N <= B * T < (R + k) * N
      && (T == N ==> R == B)
      && (T < N && B > 0 ==> R < B)
  {
    var R, T := Carried(B, N, takes), SumOf(takes);
    CarriedBounds(B, N, takes);
    CarriedUpper(B, N, takes, B, N);
    CarriedLower(B, N, takes, B, N);
    ComplementShare(B, N, R, T);
    SumNonNegative(takes);
    if T < N && B > 0 { StrictShare(B, N, R, T); }
  }

  /** What is left of the balance bounds what has left it. */
  lemma ComplementShare(B: int, N: int, R: int, T: int)
    requires B * (N - T) <= (B - R) * N
    ensures R * N <= B * T
  {
    assert B * (N - T) == B * N - B * T && (B - R) * N == B * N - R * N;
  }

  lemma StrictShare(B: int, N: int, R: int, T: int)
    requires R * N <= B * T && 0 <= T < N && 0 < B
    ensures R < B
  {
    MulMonotone(1, N - T, B);
    assert (N - T) * B == B * N - B * T;
    if R >= B { MulMonotone(B, R, N); }
  }
}
