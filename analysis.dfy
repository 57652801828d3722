/** The offline analysis wiring of project/src/index.js:246-255: block times,
    RMS and zero-crossing values, then the two normalized feature axes. */
module Analysis {
  import opened Wrappers
  import opened Blocks
  import opened BlockFeatures
  import opened Normalizer

  const BLOCK_SIZE: nat := 2048
  const HOP_SIZE: nat := 512

  /** The `data` object: one entry per block in each sequence. */
  datatype Data = Data(times: seq<real>, rms: seq<real>, zeroCrossing: seq<real>,
                       normX: seq<real>, normY: seq<real>)
  {
    /** All sequences describe the same blocks, index for index. */
    predicate Aligned()
    {
      && |rms| == |times| && |zeroCrossing| == |times|
      && |normX| == |times| && |normY| == |times|
    }

    /** Every block's feature point lies in the unit square. */
    predicate InUnitSquare()
    {
      && (forall i :: 0 <= i < |normX| ==> 0.0 <= normX[i] <= 1.0)
      && (forall i :: 0 <= i < |normY| ==> 0.0 <= normY[i] <= 1.0)
    }
  }

  /** The `data` an engine is built with: aligned, as every successful
      analysis is (`AnalysisShape`). */
  type AlignedData = d: Data | d.Aligned() witness Data([], [], [], [], [])

  /** The analysis of a mono buffer, the `data` the engine searches.
      `None` when a feature is constant over a non-empty set of blocks, where
      the source's `normalize` yields NaN. */
  function Analysis(channelData: seq<real>, sampleRate: real, sqrt: real -> real): (r: Option<Data>)
    requires sampleRate > 0.0
  {
    var times := BlockTimes(|channelData|, sampleRate, BLOCK_SIZE, HOP_SIZE);
    var rms := RmsValues(channelData, BLOCK_SIZE, HOP_SIZE, sqrt);
    var zeroCrossing := ZeroCrossingValues(channelData, sampleRate, BLOCK_SIZE, HOP_SIZE);
    var normX := Normalized(zeroCrossing);
    var normY := Normalized(rms);
    if normX.None? || normY.None? then None
    else Some(Data(times, rms, zeroCrossing, normX.value, normY.value))
  }

  /** A successful analysis has one entry per kept block in every sequence,
      and every feature point in the unit square. */
  lemma AnalysisShape(channelData: seq<real>, sampleRate: real, sqrt: real -> real)
    requires sampleRate > 0.0
    ensures var d := Analysis(channelData, sampleRate, sqrt);
      d.Some? ==>
        && d.value.Aligned()
        && |d.value.times| == |BlockStarts(|channelData|, BLOCK_SIZE, HOP_SIZE)|
        && d.value.InUnitSquare()
  {
    var d := Analysis(channelData, sampleRate, sqrt);
    if d.Some? {
      NormalizedRange(d.value.zeroCrossing);
      NormalizedRange(d.value.rms);
    }
  }

  /** The analysis of a buffer shorter than one block has no blocks at all. */
  lemma ShortBuffer(channelData: seq<real>, sampleRate: real, sqrt: real -> real)
    requires sampleRate > 0.0 && |channelData| < BLOCK_SIZE
    ensures Analysis(channelData, sampleRate, sqrt).Some?
    ensures Analysis(channelData, sampleRate, sqrt).value.times == []
  {
    BlockStartsCount(|channelData|, BLOCK_SIZE, HOP_SIZE);
  }

  /** Lines 249-255 of project/src/index.js. */
  method Analyze(channelData: seq<real>, sampleRate: real, sqrt: real -> real) returns (data: Option<Data>)
    requires sampleRate > 0.0
    ensures data == Analysis(channelData, sampleRate, sqrt)
  {
    var times := GetTimes(channelData, sampleRate, BLOCK_SIZE, HOP_SIZE);
    var rms := Rms(channelData, sampleRate, BLOCK_SIZE, HOP_SIZE, sqrt);
    var zeroCrossing := ZeroCrossing(channelData, sampleRate, BLOCK_SIZE, HOP_SIZE);
    var normX := Normalize(zeroCrossing);
    var normY := Normalize(rms);
    if normX.None? || normY.None? {
      data := None;
    } else {
      data := Some(Data(times, rms, zeroCrossing, normX.value, normY.value));
    }
  }
}
