/** `normalize` (project/src/index.js:135-158): rescale a sequence to [0, 1] by
    its own minimum and maximum. */
module Normalizer {
  import opened Wrappers

  /** The running minimum of the source's first loop: an element replaces it
      only when strictly smaller. */
  function Min(s: seq<real>): (r: real)
    requires |s| > 0
  {
    if |s| == 1 then s[0]
    else
      var m := Min(s[..|s| - 1]);
      if s[|s| - 1] < m then s[|s| - 1] else m
  }

  /** The running maximum of the source's first loop. */
  function Max(s: seq<real>): (r: real)
    requires |s| > 0
  {
    if |s| == 1 then s[0]
    else
      var m := Max(s[..|s| - 1]);
      if s[|s| - 1] > m then s[|s| - 1] else m
  }

  /** `Min` and `Max` are elements of the sequence and bound all of it. */
  lemma {:induction false} MinMaxBounds(s: seq<real>)
    requires |s| > 0
    ensures Min(s) in s && Max(s) in s
    ensures forall i :: 0 <= i < |s| ==> Min(s) <= s[i] <= Max(s)
  {
    if |s| > 1 {
      var front := s[..|s| - 1];
      MinMaxBounds(front);
      assert forall i :: 0 <= i < |front| ==> s[i] == front[i];
    }
  }

  /** `(v - lo) / (hi - lo)`: where `v` falls between `lo` and `hi`. */
  function Rescale(v: real, lo: real, hi: real): (r: real)
    requires lo != hi
  {
    (v - lo) / (hi - lo)
  }

  lemma DivideMonotone(u: real, w: real, d: real)
    requires d > 0.0
    ensures u <= w ==> u / d <= w / d
    ensures u < w ==> u / d < w / d
  {
  }

  /** With `lo < hi`, rescaling maps `lo` to 0 and `hi` to 1, maps [lo, hi] into
      [0, 1], and is strictly increasing. */
  lemma RescaleFacts(v: real, w: real, lo: real, hi: real)
    requires lo < hi
    ensures Rescale(lo, lo, hi) == 0.0 && Rescale(hi, lo, hi) == 1.0
    ensures lo <= v <= hi ==> 0.0 <= Rescale(v, lo, hi) <= 1.0
    ensures v <= w ==> Rescale(v, lo, hi) <= Rescale(w, lo, hi)
    ensures v < w ==> Rescale(v, lo, hi) < Rescale(w, lo, hi)
  {
    var d := hi - lo;
    assert Rescale(lo, lo, hi) == 0.0 / d;
    assert Rescale(hi, lo, hi) == d / d;
    if v <= w {
      DivideMonotone(v - lo, w - lo, d);
    }
    if lo <= v <= hi {
      DivideMonotone(0.0, v - lo, d);
      DivideMonotone(v - lo, d, d);
    }
  }

  /** Rescaling is unchanged when value and bounds go through the same
      `x -> a * x + c` with `a > 0`. */
  lemma RescaleAffine(v: real, lo: real, hi: real, a: real, c: real)
    requires lo != hi && a > 0.0
    ensures Affine(lo, a, c) != Affine(hi, a, c)
    ensures Rescale(Affine(v, a, c), Affine(lo, a, c), Affine(hi, a, c)) == Rescale(v, lo, hi)
  {
    var d, u := hi - lo, v - lo;
    assert a * hi + c - (a * lo + c) == a * d;
    assert a * v + c - (a * lo + c) == a * u;
    assert a * d != 0.0;
    var q := Rescale(v, lo, hi);
    var r := Rescale(a * v + c, a * lo + c, a * hi + c);
    assert q * d == u;
    assert r * (a * d) == a * u;
    assert (r - q) * (a * d) == 0.0;
  }

  /** The result of `normalize`: `None` stands for the NaN every element gets
      when a non-empty input is constant (`max - min == 0`). */
  function Normalized(s: seq<real>): (r: Option<seq<real>>)
    ensures r.Some? ==> |r.value| == |s|
  {
    if |s| > 0 && Min(s) == Max(s) then None
    else Some(seq(|s|, i requires 0 <= i < |s| => Rescale(s[i], Min(s), Max(s))))
  }

  /** The degenerate case is exactly the constant non-empty input. */
  lemma NormalizedFails(s: seq<real>)
    ensures Normalized(s).None? <==> |s| > 0 && forall i :: 0 <= i < |s| ==> s[i] == s[0]
  {
    if |s| > 0 {
      MinMaxBounds(s);
      if forall i :: 0 <= i < |s| ==> s[i] == s[0] {
        assert Min(s) == s[0] == Max(s);
      }
    }
  }

  /** When the input is not constant: every output lies in [0, 1], a minimal
      element maps to 0 and a maximal one to 1, and the order of the inputs is
      kept (strictly and non-strictly). */
  lemma NormalizedRange(s: seq<real>)
    requires Normalized(s).Some?
    ensures var r := Normalized(s).value;
      && (forall i :: 0 <= i < |s| ==> 0.0 <= r[i] <= 1.0)
      && (forall i :: 0 <= i < |s| && s[i] == Min(s) ==> r[i] == 0.0)
      && (forall i :: 0 <= i < |s| && s[i] == Max(s) ==> r[i] == 1.0)
      && (forall i, j :: 0 <= i < |s| && 0 <= j < |s| && s[i] <= s[j] ==> r[i] <= r[j])
      && (forall i, j :: 0 <= i < |s| && 0 <= j < |s| && s[i] < s[j] ==> r[i] < r[j])
  {
    if |s| > 0 {
      MinMaxBounds(s);
      var lo, hi := Min(s), Max(s);
      var r := Normalized(s).value;
      forall i, j | 0 <= i < |s| && 0 <= j < |s|
        ensures 0.0 <= r[i] <= 1.0
        ensures s[i] == lo ==> r[i] == 0.0
        ensures s[i] == hi ==> r[i] == 1.0
        ensures s[i] <= s[j] ==> r[i] <= r[j]
        ensures s[i] < s[j] ==> r[i] < r[j]
      {
        RescaleFacts(s[i], s[j], lo, hi);
      }
    }
  }

  /** `x -> a * x + c`. */
  function Affine(x: real, a: real, c: real): (r: real)
  {
    a * x + c
  }

  /** The map applied to every element. */
  function AffineAll(s: seq<real>, a: real, c: real): (r: seq<real>)
    ensures |r| == |s|
  {
    seq(|s|, i requires 0 <= i < |s| => Affine(s[i], a, c))
  }

  lemma AffineMonotone(x: real, y: real, a: real, c: real)
    requires a > 0.0
    ensures x < y <==> Affine(x, a, c) < Affine(y, a, c)
    ensures x == y <==> Affine(x, a, c) == Affine(y, a, c)
  {
    assert Affine(y, a, c) - Affine(x, a, c) == a * (y - x);
  }

  lemma AffineFront(s: seq<real>, a: real, c: real)
    requires |s| > 1
    ensures AffineAll(s, a, c)[..|s| - 1] == AffineAll(s[..|s| - 1], a, c)
  {
  }

  lemma {:induction false} AffineMin(s: seq<real>, a: real, c: real)
    requires |s| > 0 && a > 0.0
    ensures Min(AffineAll(s, a, c)) == Affine(Min(s), a, c)
  {
    if |s| > 1 {
      var front := s[..|s| - 1];
      AffineMin(front, a, c);
      AffineFront(s, a, c);
      AffineMonotone(s[|s| - 1], Min(front), a, c);
    }
  }

  lemma {:induction false} AffineMax(s: seq<real>, a: real, c: real)
    requires |s| > 0 && a > 0.0
    ensures Max(AffineAll(s, a, c)) == Affine(Max(s), a, c)
  {
    if |s| > 1 {
      var front := s[..|s| - 1];
      AffineMax(front, a, c);
      AffineFront(s, a, c);
      AffineMonotone(Max(front), s[|s| - 1], a, c);
    }
  }

  /** Normalizing is invariant under a positive scaling plus an offset of the input. */
  lemma NormalizedAffineInvariant(s: seq<real>, a: real, c: real)
    requires a > 0.0
    ensures Normalized(AffineAll(s, a, c)) == Normalized(s)
  {
    if |s| > 0 {
      AffineMin(s, a, c);
      AffineMax(s, a, c);
      var t := AffineAll(s, a, c);
      var lo, hi := Min(s), Max(s);
      AffineMonotone(lo, hi, a, c);
      if lo != hi {
        var rs, rt := Normalized(s).value, Normalized(t).value;
        forall i | 0 <= i < |s| ensures rt[i] == rs[i] {
          RescaleAffine(s[i], lo, hi, a, c);
        }
        assert rt == rs;
      }
    }
  }

  /** A constant input such as [3, 3, 3] has no normalization (the source
      divides 0 by 0). */
  lemma ConstantInput()
    ensures Normalized([3.0, 3.0, 3.0]).None?
  {
    NormalizedFails([3.0, 3.0, 3.0]);
  }

  /** `normalize` (project/src/index.js:138-158). */
  method Normalize(data: seq<real>) returns (r: Option<seq<real>>)
    ensures r == Normalized(data)
  {
    // min and max start at +Infinity and -Infinity: the first element replaces both
    var min := 0.0;
    var max := 0.0;
    var i := 0;
    while i < |data|
      invariant 0 <= i <= |data|
      invariant i > 0 ==> min == Min(data[..i]) && max == Max(data[..i])
    {
      assert data[..i + 1][..i] == data[..i];
      if i == 0 || data[i] < min {
        min := data[i];
      }
      if i == 0 || data[i] > max {
        max := data[i];
      }
      i := i + 1;
    }
    assert data[..|data|] == data;
    if |data| > 0 && max == min {
      return None;
    }
    var result := new real[|data|];
    i := 0;
    while i < |data|
      invariant 0 <= i <= |data|
      invariant forall k :: 0 <= k < i ==> result[k] == Rescale(data[k], min, max)
    {
      result[i] := (data[i] - min) / (max - min);
      i := i + 1;
    }
    assert |data| > 0 ==> min == Min(data) && max == Max(data);
    r := Some(result[..]);
    assert result[..] == Normalized(data).value;
  }
}
