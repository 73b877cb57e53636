/**
 The nearest-neighbour resampler of the recording page, in exact rationals:
 an offset of k * source / target is kept as the numerator k * source over the
 denominator target. The page computes in doubles; its rounding drift is not
 part of this model.
 */
module Resampler {
  /** Math.round(p / q): to the nearest integer, halves up. */
  function Round(p: nat, q: nat): nat
    requires q > 0
  {
    (2 * p + q) / (2 * q)
  }

  function Ceil(p: nat, q: nat): nat
    requires q > 0
  {
    (p + q - 1) / q
  }

  /** Which sample slot k takes. */
  function SourceIndex(k: nat, source: nat, target: nat): nat
    requires target > 0
  {
    Round(k * source, target)
  }

  /** Reading past the end of the input gives undefined, which a float array stores as `nan`. */
  function Read<T>(data: seq<T>, i: nat, nan: T): T {
    if i < |data| then data[i] else nan
  }

  lemma DivBounds(a: nat, b: nat)
    requires b > 0
    ensures b * (a / b) <= a < b * (a / b) + b
  {
  }

  lemma MulMonotone(a: nat, b: nat, c: nat)
    requires a <= b
    ensures a * c <= b * c
  {
  }

  /** Dividing reaches n exactly when the dividend reaches n divisors. */
  lemma DivAtLeast(a: nat, b: nat, n: nat)
    requires b > 0
    ensures a / b >= n <==> a >= b * n
  {
    DivBounds(a, b);
    if a / b >= n {
      MulMonotone(n, a / b, b);
    } else {
      MulMonotone(a / b + 1, n, b);
    }
  }

  /** k is below p / q rounded up exactly when k * q is below p. */
  lemma BelowCeil(k: nat, p: nat, q: nat)
    requires q > 0
    ensures k < Ceil(p, q) <==> k * q < p
  {
    var c := Ceil(p, q);
    DivBounds(p + q - 1, q);
    if k < c {
      MulMonotone(k + 1, c, q);
    } else {
      MulMonotone(c, k, q);
    }
  }

  lemma DivMonotone(x: nat, y: nat, d: nat)
    requires d > 0 && x <= y
    ensures x / d <= y / d
  {
    DivBounds(x, d);
    DivAtLeast(y, d, x / d);
  }

  lemma Spread(q: nat, n: nat, k: nat)
    ensures q * (n + k) == q * n + q * k && 2 * q * (n + k) == 2 * (q * n) + 2 * (q * k)
  {
  }

  /** Rounding to nearest never exceeds rounding up, and falls short of it by at most one. */
  lemma RoundVersusCeil(p: nat, q: nat)
    requires q > 0
    ensures Round(p, q) <= Ceil(p, q) <= Round(p, q) + 1
  {
    RoundAtMostCeil(p, q);
    CeilAtMostNext(p, q);
  }

  lemma RoundAtMostCeil(p: nat, q: nat)
    requires q > 0
    ensures Round(p, q) <= Ceil(p, q)
  {
    var c := Ceil(p, q);
    DivBounds(p + q - 1, q);
    Spread(q, c, 1);
    DivAtLeast(2 * p + q, 2 * q, c + 1);
  }

  lemma CeilAtMostNext(p: nat, q: nat)
    requires q > 0
    ensures Ceil(p, q) <= Round(p, q) + 1
  {
    var r := Round(p, q);
    DivBounds(2 * p + q, 2 * q);
    Spread(q, r, 0);
    Spread(q, r, 2);
    DivAtLeast(p + q - 1, q, r + 2);
  }

  /** Sample i lies within half a step of slot k, counting a sample half a step before it as too far. */
  predicate Nearest(i: nat, k: nat, source: nat, target: nat) {
    -(target as int) < 2 * (i * target - k * source) <= target
  }

  lemma DivEquals(a: nat, b: nat, n: nat)
    requires b > 0
    ensures a / b == n <==> b * n <= a < b * n + b
  {
    DivAtLeast(a, b, n);
    DivAtLeast(a, b, n + 1);
    Spread(b, n, 1);
  }

  lemma Doubled(i: nat, target: nat)
    ensures 2 * target * i == 2 * (i * target)
  {
  }

  /** Each slot takes the nearest sample; of two equally near ones, the later. */
  lemma SourceIndexIsNearest(k: nat, source: nat, target: nat, i: nat)
    requires target > 0
    ensures SourceIndex(k, source, target) == i <==> Nearest(i, k, source, target)
  {
    DivEquals(2 * (k * source) + target, 2 * target, i);
    Doubled(i, target);
  }

  /** Later slots never take earlier samples. */
  lemma SourceIndexIsMonotone(j: nat, k: nat, source: nat, target: nat)
    requires target > 0 && j <= k
    ensures SourceIndex(j, source, target) <= SourceIndex(k, source, target)
  {
    MulMonotone(j, k, source);
    DivMonotone(2 * (j * source) + target, 2 * (k * source) + target, 2 * target);
  }

  /** At equal rates every slot would take its own sample. */
  lemma SameRate(k: nat, rate: nat)
    requires rate > 0
    ensures SourceIndex(k, rate, rate) == k
  {
    DivEquals(2 * (k * rate) + rate, 2 * rate, k);
    Doubled(k, rate);
  }

  lemma NextOffset(k: nat, source: nat)
    ensures (k + 1) * source == k * source + source
  {
  }

  /** What resampling makes of a recording, with no word on how it is computed. */
  ghost predicate Resampled<T(!new)>(data: seq<T>, source: nat, target: nat, nan: T, result: seq<T>) {
    && -(source as int) < 2 * (|result| * source - |data| * target) <= source
    && (forall k: nat, i: nat :: k < |result| && Nearest(i, k, source, target) ==>
          result[k] == if i < |data| then data[i] else nan)
  }

  lemma ReadsAreNearest<T(!new)>(data: seq<T>, source: nat, target: nat, nan: T, result: seq<T>)
    requires source > 0 && target > 0 && |result| == Round(|data| * target, source)
    requires forall k :: 0 <= k < |result| ==> result[k] == Read(data, SourceIndex(k, source, target), nan)
    ensures Resampled(data, source, target, nan, result)
  {
    SourceIndexIsNearest(|data|, target, source, |result|);
    forall k: nat, i: nat | k < |result| && Nearest(i, k, source, target)
      ensures result[k] == if i < |data| then data[i] else nan
    {
      SourceIndexIsNearest(k, source, target, i);
    }
  }

  /** One run of the loop for each offset before the end: this one is, and the next would not be. */
  lemma LastRun(p: nat, q: nat)
    requires q > 0
    ensures p == 0 <==> Ceil(p, q) == 0
    ensures p > 0 ==> (Ceil(p, q) - 1) * q < p <= Ceil(p, q) * q
  {
    BelowCeil(0, p, q);
    BelowCeil(Ceil(p, q), p, q);
    if p > 0 {
      BelowCeil(Ceil(p, q) - 1, p, q);
    }
  }

  /**
   The resampler. At equal rates it hands its input back; otherwise the loop
   runs once for every offset short of the input's end. `stores` lists the slots
   stored to, in order; a store past the result is one that a typed array
   ignores. By RoundVersusCeil there is at most one of those.
   */
  method Resample<T(!new)>(data: array<T>, source: nat, target: nat, zero: T, nan: T)
    returns (result: array<T>, ghost stores: seq<nat>)
    requires source > 0 && target > 0
    ensures source == target ==> result == data && stores == []
    ensures source != target ==> fresh(result) && result.Length == Round(data.Length * target, source)
    ensures source != target ==> |stores| == Ceil(data.Length * target, source)
    ensures forall k :: 0 <= k < |stores| ==> stores[k] == k
    ensures forall k :: 0 <= k < result.Length ==> result[k] == Read(data[..], SourceIndex(k, source, target), nan)
    ensures Resampled(data[..], source, target, nan, result[..])
    ensures source != target && data.Length > 0 ==>
              (|stores| - 1) * source < data.Length * target <= |stores| * source
    ensures source != target && data.Length == 0 ==> stores == []
  {
    stores := [];
    if source == target {
      result := data;
      forall k | 0 <= k < data.Length ensures SourceIndex(k, source, target) == k {
        SameRate(k, source);
      }
      SameRate(data.Length, source);
      ReadsAreNearest(data[..], source, target, nan, result[..]);
      return;
    }
    var end := data.Length * target;
    var length := Round(end, source);
    ghost var last := Ceil(end, source);
    RoundVersusCeil(end, source);
    result := new T[length](_ => zero);
    var offsetResult, offsetSource := 0, 0;
    while offsetSource < end
      invariant offsetSource == offsetResult * source
      invariant offsetResult <= last
      invariant |stores| == offsetResult
      invariant forall k :: 0 <= k < |stores| ==> stores[k] == k
      invariant forall k :: 0 <= k < offsetResult && k < length ==>
                  result[k] == Read(data[..], SourceIndex(k, source, target), nan)
      decreases last - offsetResult
    {
      BelowCeil(offsetResult, end, source);
      var i := Round(offsetSource, target);
      var sample := if i < data.Length then data[i] else nan;
      if offsetResult < length {
        result[offsetResult] := sample;
      }
      stores := stores + [offsetResult];
      NextOffset(offsetResult, source);
      offsetResult := offsetResult + 1;
      offsetSource := offsetSource + source;
    }
    BelowCeil(offsetResult, end, source);
    LastRun(end, source);
    ReadsAreNearest(data[..], source, target, nan, result[..]);
  }

  /** The first slot whose nearest sample lies past an input of n samples. */
  function FirstPast(n: nat, source: nat, target: nat): nat
    requires source > 0
  {
    if n == 0 then 0 else Ceil((2 * n - 1) * target, 2 * source)
  }

  lemma Halves(k: nat, s: nat, n: nat, t: nat)
    ensures k * (2 * s) == 2 * (k * s)
    ensures 2 * t * n == 2 * (n * t) && (2 * n - 1) * t == 2 * (n * t) - t
  {
  }

  /** A slot reads past the input exactly from FirstPast on. */
  lemma ReadsPastFrom(k: nat, n: nat, source: nat, target: nat)
    requires source > 0 && target > 0
    ensures SourceIndex(k, source, target) >= n <==> k >= FirstPast(n, source, target)
  {
    if n > 0 {
      Halves(k, source, n, target);
      DivAtLeast(2 * (k * source) + target, 2 * target, n);
      MulMonotone(0, 2 * n - 1, target);
      BelowCeil(k, (2 * n - 1) * target, 2 * source);
    }
  }

  /** Rounding a sum down costs no more than rounding one term up and the other down. */
  lemma FloorOfSum(x: nat, y: nat, d: nat)
    requires d > 0
    ensures (x + y) / d <= Ceil(x, d) + y / d
  {
    var c, e := Ceil(x, d), y / d;
    DivBounds(x + d - 1, d);
    DivBounds(y, d);
    DivAtLeast(x + y, d, c + e + 1);
    assert d * (c + e + 1) == d * c + d * e + d;
  }

  /** At most (source + target) div (2 * source) slots of the result read past the input, so none when downsampling. */
  lemma FewReadsPast(n: nat, source: nat, target: nat)
    requires source > 0 && target > 0
    ensures Round(n * target, source) <= FirstPast(n, source, target) + (source + target) / (2 * source)
    ensures source > target ==> Round(n * target, source) <= FirstPast(n, source, target)
  {
    var d := 2 * source;
    DivAtLeast(source + target, d, 1);
    if n == 0 {
      DivAtLeast(2 * (n * target) + source, d, 1);
    } else {
      Halves(0, source, n, target);
      MulMonotone(0, 2 * n - 1, target);
      FloorOfSum((2 * n - 1) * target, source + target, d);
    }
  }
}
