/** Per-block features of `rms` and `zeroCrossing` (project/src/index.js:70-133),
    computed over the blocks that `Blocks` enumerates. */
module BlockFeatures {
  import opened Blocks
  import opened SquareRoot

  /** Sum of `s[j] * s[j]` for `lo <= j < hi`, accumulated left to right. */
  function SumOfSquares(s: seq<real>, lo: nat, hi: nat): (r: real)
    requires lo <= hi <= |s|
    decreases hi - lo
  {
    if lo == hi then 0.0 else SumOfSquares(s, lo, hi - 1) + s[hi - 1] * s[hi - 1]
  }

  lemma Square(x: real)
    ensures 0.0 <= x * x
  {
    if x < 0.0 {
      assert (-x) * (-x) == x * x;
    }
  }

  /** A sum of squares is never negative, and it is 0 over a block of zeros. */
  lemma {:induction false} SumOfSquaresBounds(s: seq<real>, lo: nat, hi: nat)
    requires lo <= hi <= |s|
    ensures 0.0 <= SumOfSquares(s, lo, hi)
    ensures (forall j :: lo <= j < hi ==> s[j] == 0.0) ==> SumOfSquares(s, lo, hi) == 0.0
  {
    if lo < hi {
      SumOfSquaresBounds(s, lo, hi - 1);
      Square(s[hi - 1]);
    }
  }

  /** Root mean square of the block of `b` samples starting at `start`. */
  function BlockRms(s: seq<real>, start: nat, b: nat, sqrt: real -> real): (r: real)
    requires b > 0 && start + b <= |s|
  {
    sqrt(SumOfSquares(s, start, start + b) / b as real)
  }

  /** An RMS value is never negative, and an all-zero block has RMS 0. */
  lemma BlockRmsBounds(s: seq<real>, start: nat, b: nat, sqrt: real -> real)
    requires IsSqrt(sqrt)
    requires b > 0 && start + b <= |s|
    ensures 0.0 <= BlockRms(s, start, b, sqrt)
    ensures (forall j :: start <= j < start + b ==> s[j] == 0.0) ==> BlockRms(s, start, b, sqrt) == 0.0
  {
    SumOfSquaresBounds(s, start, start + b);
    SqrtNonNegative(sqrt, SumOfSquares(s, start, start + b) / b as real);
  }

  /** The RMS of every kept block, in block order. */
  function RmsValues(s: seq<real>, b: nat, h: nat, sqrt: real -> real): (r: seq<real>)
    requires b > 0 && h > 0
    ensures |r| == |BlockStarts(|s|, b, h)|
  {
    var starts := BlockStarts(|s|, b, h);
    seq(|starts|, k requires 0 <= k < |starts| => BlockRms(s, starts[k], b, sqrt))
  }

  /** `rms` (project/src/index.js:70-93). */
  method Rms(channelData: seq<real>, sampleRate: real, blockSize: nat, hopSize: nat, sqrt: real -> real)
    returns (result: seq<real>)
    requires blockSize > 0 && hopSize > 0
    ensures result == RmsValues(channelData, blockSize, hopSize, sqrt)
  {
    var bufferLength := |channelData|;
    result := [];
    ghost var starts: seq<nat> := [];
    var i := 0;
    while i < bufferLength
      invariant BlockStarts(bufferLength, blockSize, hopSize) == starts + StartsFrom(i, bufferLength, blockSize, hopSize)
      invariant |result| == |starts|
      invariant forall k :: 0 <= k < |starts| ==> starts[k] + blockSize <= bufferLength
      invariant forall k :: 0 <= k < |starts| ==> result[k] == BlockRms(channelData, starts[k], blockSize, sqrt)
      decreases bufferLength - i
    {
      StartsStep(starts, i, bufferLength, blockSize, hopSize);
      var startSample := i;
      var endSample := i + blockSize;
      if endSample <= bufferLength {
        var sumOfSquared := 0.0;
        var j := startSample;
        while j < endSample
          invariant startSample <= j <= endSample
          invariant sumOfSquared == SumOfSquares(channelData, startSample, j)
        {
          sumOfSquared := sumOfSquared + channelData[j] * channelData[j];
          j := j + 1;
        }
        var mean := sumOfSquared / blockSize as real;
        var rms := sqrt(mean);
        result := result + [rms];
        starts := starts + [i];
      }
      i := i + hopSize;
    }
  }

  /** The pair `(j, j + 1)` changes sign: their product is negative. */
  predicate SignChange(s: seq<real>, j: nat)
    requires j + 1 < |s|
  {
    s[j] * s[j + 1] < 0.0
  }

  /** A negative product means one sample strictly below zero and the other
      strictly above: a pair that touches an exact 0 never counts. */
  lemma SignChangeMeaning(s: seq<real>, j: nat)
    requires j + 1 < |s|
    ensures SignChange(s, j) <==> (s[j] < 0.0 < s[j + 1]) || (s[j + 1] < 0.0 < s[j])
  {
    var a, c := s[j], s[j + 1];
    var p := a * c;
    if a < 0.0 && c < 0.0 {
      assert p == (-a) * (-c);
      assert 0.0 < (-a) * (-c);
    } else if a > 0.0 && c > 0.0 {
      assert 0.0 < p;
    } else if a < 0.0 && c > 0.0 {
      assert p == -((-a) * c);
      assert 0.0 < (-a) * c;
    } else if a > 0.0 && c < 0.0 {
      assert p == -(a * (-c));
      assert 0.0 < a * (-c);
    } else {
      assert a == 0.0 || c == 0.0;
      assert p == 0.0;
    }
  }

  /** Number of sign changes between consecutive samples `j`, `j + 1` with
      `lo <= j` and `j + 1 < hi`. */
  function Crossings(s: seq<real>, lo: nat, hi: nat): (r: nat)
    requires lo <= hi <= |s|
    decreases hi - lo
  {
    if hi <= lo + 1 then 0
    else Crossings(s, lo, hi - 1) + (if SignChange(s, hi - 2) then 1 else 0)
  }

  /** The indices `j` in `[lo, hi - 1)` whose pair changes sign. */
  function CrossingSet(s: seq<real>, lo: nat, hi: nat): (r: set<nat>)
    requires lo <= hi <= |s|
  {
    set j: nat | lo <= j < hi - 1 && SignChange(s, j)
  }

  /** The count is the size of the set of crossing pairs, so at most one per
      pair: `0 <= count <= hi - lo - 1`. */
  lemma {:induction false} CrossingsCount(s: seq<real>, lo: nat, hi: nat)
    requires lo < hi <= |s|
    ensures Crossings(s, lo, hi) == |CrossingSet(s, lo, hi)|
    ensures Crossings(s, lo, hi) <= hi - lo - 1
  {
    if hi == lo + 1 {
      assert CrossingSet(s, lo, hi) == {};
    } else {
      CrossingsCount(s, lo, hi - 1);
      var before := CrossingSet(s, lo, hi - 1);
      if SignChange(s, hi - 2) {
        assert CrossingSet(s, lo, hi) == before + {hi - 2};
        assert hi - 2 !in before;
      } else {
        assert CrossingSet(s, lo, hi) == before;
      }
    }
  }

  /** Zero crossings of one block divided by the block's duration `b / sampleRate`. */
  function BlockZeroCrossing(s: seq<real>, start: nat, b: nat, sampleRate: real): (r: real)
    requires b > 0 && sampleRate > 0.0 && start + b <= |s|
  {
    Crossings(s, start, start + b) as real / (b as real / sampleRate)
  }

  /** The value stored for a block is its crossing count times
      `sampleRate / b`, with the count between 0 and `b - 1`; so it is never negative. */
  lemma BlockZeroCrossingMeaning(s: seq<real>, start: nat, b: nat, sampleRate: real)
    requires b > 0 && sampleRate > 0.0 && start + b <= |s|
    ensures Crossings(s, start, start + b) <= b - 1
    ensures BlockZeroCrossing(s, start, b, sampleRate) == Crossings(s, start, start + b) as real * sampleRate / b as real
    ensures 0.0 <= BlockZeroCrossing(s, start, b, sampleRate)
  {
    CrossingsCount(s, start, start + b);
    var c := Crossings(s, start, start + b) as real;
    assert BlockZeroCrossing(s, start, b, sampleRate) == c / (b as real / sampleRate);
    DivideByDuration(c, b as real, sampleRate);
  }

  /** Dividing by a duration `b / rate` is multiplying by `rate / b`. */
  lemma DivideByDuration(c: real, b: real, rate: real)
    requires b > 0.0 && rate > 0.0 && c >= 0.0
    ensures c / (b / rate) == c * rate / b
    ensures c / (b / rate) >= 0.0
  {
    var d := b / rate;
    assert d * rate == b;
    var v := c / d;
    assert v * d == c;
    assert v * b == c * rate by {
      calc {
        v * b;
        v * (d * rate);
        (v * d) * rate;
        c * rate;
      }
    }
  }

  /** The zero-crossing value of every kept block, in block order. */
  function ZeroCrossingValues(s: seq<real>, sampleRate: real, b: nat, h: nat): (r: seq<real>)
    requires b > 0 && h > 0 && sampleRate > 0.0
    ensures |r| == |BlockStarts(|s|, b, h)|
  {
    var starts := BlockStarts(|s|, b, h);
    seq(|starts|, k requires 0 <= k < |starts| => BlockZeroCrossing(s, starts[k], b, sampleRate))
  }

  /** `zeroCrossing` (project/src/index.js:103-133). */
  method ZeroCrossing(channelData: seq<real>, sampleRate: real, blockSize: nat, hopSize: nat)
    returns (result: seq<real>)
    requires sampleRate > 0.0 && blockSize > 0 && hopSize > 0
    ensures result == ZeroCrossingValues(channelData, sampleRate, blockSize, hopSize)
  {
    var bufferLength := |channelData|;
    result := [];
    ghost var starts: seq<nat> := [];
    var i := 0;
    while i < bufferLength
      invariant BlockStarts(bufferLength, blockSize, hopSize) == starts + StartsFrom(i, bufferLength, blockSize, hopSize)
      invariant |result| == |starts|
      invariant forall k :: 0 <= k < |starts| ==> starts[k] + blockSize <= bufferLength
      invariant forall k :: 0 <= k < |starts| ==> result[k] == BlockZeroCrossing(channelData, starts[k], blockSize, sampleRate)
      decreases bufferLength - i
    {
      StartsStep(starts, i, bufferLength, blockSize, hopSize);
      var startSample := i;
      var endSample := i + blockSize;
      var blockDuration := blockSize as real / sampleRate;
      if endSample <= bufferLength {
        var count: nat := 0;
        var j := startSample;
        while j < endSample - 1
          invariant startSample <= j <= endSample - 1
          invariant count == Crossings(channelData, startSample, j + 1)
        {
          var current := channelData[j];
          var next := channelData[j + 1];
          assert SignChange(channelData, j) <==> current * next < 0.0;
          if current * next < 0.0 {
            count := count + 1;
          }
          j := j + 1;
        }
        assert count == Crossings(channelData, startSample, endSample);
        var zc := count as real / blockDuration;
        assert zc == BlockZeroCrossing(channelData, startSample, blockSize, sampleRate);
        result := result + [zc];
        starts := starts + [i];
      }
      i := i + hopSize;
    }
  }
}
