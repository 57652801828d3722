/** The block enumeration shared by `getTimes`, `rms` and `zeroCrossing`
    (project/src/index.js): a block starts every `hopSize` samples while the
    start is inside the buffer, and it is kept only if it fits whole. */
module Blocks {

  /** The loop visits start `i` while `i < n`; the block is kept when
      `i + b <= n` (the last, partial block is ignored). */
  predicate Kept(i: nat, n: nat, b: nat)
  {
    i < n && i + b <= n
  }

  /** Starts of the kept blocks visited from sample `i` on, hopping by `h`. */
  function StartsFrom(i: nat, n: nat, b: nat, h: nat): (r: seq<nat>)
    requires h > 0
    ensures forall k :: 0 <= k < |r| ==> i <= r[k] && Kept(r[k], n, b)
    decreases n - i
  {
    if i >= n then []
    else (if Kept(i, n, b) then [i] else []) + StartsFrom(i + h, n, b, h)
  }

  /** Sample offsets of the blocks of a buffer of `n` samples, in order; each
      kept block lies wholly inside the buffer. */
  function BlockStarts(n: nat, b: nat, h: nat): (r: seq<nat>)
    requires h > 0
    ensures forall k :: 0 <= k < |r| ==> r[k] < n && r[k] + b <= n
  {
    StartsFrom(0, n, b, h)
  }

  /** One visit of the enumeration: start `i` is appended to the starts kept
      so far exactly when it is kept, and the rest begins at `i + h`. */
  lemma StartsStep(starts: seq<nat>, i: nat, n: nat, b: nat, h: nat)
    requires h > 0 && i < n
    ensures Kept(i, n, b) ==> starts + StartsFrom(i, n, b, h) == (starts + [i]) + StartsFrom(i + h, n, b, h)
    ensures !Kept(i, n, b) ==> starts + StartsFrom(i, n, b, h) == starts + StartsFrom(i + h, n, b, h)
  {
    var rest := StartsFrom(i + h, n, b, h);
    if Kept(i, n, b) {
      assert StartsFrom(i, n, b, h) == [i] + rest;
      assert starts + ([i] + rest) == (starts + [i]) + rest;
    } else {
      assert StartsFrom(i, n, b, h) == [] + rest;
    }
  }

  /** Block start times in seconds, `start / sampleRate`, one per kept block. */
  function BlockTimes(n: nat, sampleRate: real, b: nat, h: nat): (r: seq<real>)
    requires sampleRate > 0.0 && h > 0
    ensures |r| == |BlockStarts(n, b, h)|
  {
    var starts := BlockStarts(n, b, h);
    seq(|starts|, k requires 0 <= k < |starts| => starts[k] as real / sampleRate)
  }

  lemma MulMonotone(a: nat, c: nat, h: nat)
    requires a <= c
    ensures a * h <= c * h
  {
    assert c * h == a * h + (c - a) * h;
  }

  /** Euclidean division pinned down by bounds on the quotient. */
  lemma DivisionBetween(m: nat, h: nat, q: nat)
    requires h > 0
    requires q * h <= m < (q + 1) * h
    ensures m / h == q
  {
    var d := m / h;
    assert m == d * h + m % h && m % h < h;
    if d < q {
      MulMonotone(d + 1, q, h);
    } else if d > q {
      MulMonotone(q + 1, d, h);
    }
  }

  /** From a start `j * h` on, the kept starts are consecutive multiples of `h`,
      the last one fits and the next one would not. */
  lemma {:induction false} StartsFromShape(j: nat, n: nat, b: nat, h: nat)
    requires h > 0 && b > 0
    ensures var r := StartsFrom(j * h, n, b, h);
      && (forall k :: 0 <= k < |r| ==> r[k] == (j + k) * h)
      && (|r| > 0 ==> (j + |r| - 1) * h + b <= n)
      && (j + |r|) * h + b > n
    decreases n - j * h
  {
    var i := j * h;
    var r := StartsFrom(i, n, b, h);
    assert (j + 1) * h == i + h;
    if i < n {
      StartsFromShape(j + 1, n, b, h);
      var rest := StartsFrom(i + h, n, b, h);
      if Kept(i, n, b) {
        assert r == [i] + rest;
        forall k | 0 <= k < |r| ensures r[k] == (j + k) * h {
          if k > 0 {
            assert r[k] == rest[k - 1];
            assert j + 1 + (k - 1) == j + k;
          }
        }
      } else {
        assert |rest| == 0;
        MulMonotone(j, j + |r|, h);
      }
    } else {
      MulMonotone(j, j + |r|, h);
    }
  }

  /** The kept starts are exactly 0, H, 2H, ... up to the last block that fits:
      there are floor((N - B) / H) + 1 of them when N >= B and none otherwise,
      and the k-th is k * H. */
  lemma BlockStartsCount(n: nat, b: nat, h: nat)
    requires h > 0 && b > 0
    ensures |BlockStarts(n, b, h)| == if b <= n then (n - b) / h + 1 else 0
    ensures forall k :: 0 <= k < |BlockStarts(n, b, h)| ==> BlockStarts(n, b, h)[k] == k * h
  {
    StartsFromShape(0, n, b, h);
    var r := BlockStarts(n, b, h);
    assert 0 * h == 0;
    if b <= n {
      var c := |r|;
      assert c > 0;
      assert (c - 1) * h + b <= n;
      assert (c - 1 + 1) * h == c * h;
      DivisionBetween(n - b, h, c - 1);
    } else {
      assert |r| == 0;
    }
  }

  /** Every block the enumeration keeps fits; conversely every multiple of H
      whose block fits is kept. */
  lemma BlockStartsComplete(n: nat, b: nat, h: nat, k: nat)
    requires h > 0 && b > 0
    requires k * h + b <= n
    ensures k < |BlockStarts(n, b, h)| && BlockStarts(n, b, h)[k] == k * h
  {
    StartsFromShape(0, n, b, h);
    var r := BlockStarts(n, b, h);
    if |r| <= k {
      MulMonotone(|r|, k, h);
    }
    assert k < |r|;
    BlockStartsCount(n, b, h);
  }

  /** The times `getTimes` returns: floor((N - B) / H) + 1 of them when N >= B
      and none otherwise, the k-th being k * H / sampleRate. */
  lemma BlockTimesAt(n: nat, sampleRate: real, b: nat, h: nat)
    requires sampleRate > 0.0 && h > 0 && b > 0
    ensures |BlockTimes(n, sampleRate, b, h)| == if b <= n then (n - b) / h + 1 else 0
    ensures forall k :: 0 <= k < |BlockTimes(n, sampleRate, b, h)| ==>
      BlockTimes(n, sampleRate, b, h)[k] == (k * h) as real / sampleRate
  {
    BlockStartsCount(n, b, h);
  }

  /** 4096 samples, blocks of 2048, hops of 512: five blocks, at 0, 512, 1024,
      1536 and 2048 (the block at 2048 ends exactly at the buffer's end). */
  lemma FourThousandSamples()
    ensures BlockStarts(4096, 2048, 512) == [0, 512, 1024, 1536, 2048]
  {
    BlockStartsCount(4096, 2048, 512);
    var r := BlockStarts(4096, 2048, 512);
    assert |r| == 5;
    assert r[0] == 0 && r[1] == 512 && r[2] == 1024 && r[3] == 1536 && r[4] == 2048;
  }

  /** `getTimes` (project/src/index.js:45-61): the start time of every kept block. */
  method GetTimes(channelData: seq<real>, sampleRate: real, blockSize: nat, hopSize: nat)
    returns (times: seq<real>)
    requires sampleRate > 0.0 && hopSize > 0
    ensures times == BlockTimes(|channelData|, sampleRate, blockSize, hopSize)
  {
    var bufferLength := |channelData|;
    times := [];
    ghost var starts: seq<nat> := [];
    var i := 0;
    while i < bufferLength
      invariant BlockStarts(bufferLength, blockSize, hopSize) == starts + StartsFrom(i, bufferLength, blockSize, hopSize)
      invariant times == seq(|starts|, k requires 0 <= k < |starts| => starts[k] as real / sampleRate)
      decreases bufferLength - i
    {
      StartsStep(starts, i, bufferLength, blockSize, hopSize);
      var startSample := i;
      var endSample := i + blockSize;
      if endSample <= bufferLength {
        var time := startSample as real / sampleRate;
        times := times + [time];
        starts := starts + [i];
      }
      i := i + hopSize;
    }
  }
}
