/** The concatenative engine of project/src/index.js:180-235 and the control
    point it reads (`globals.guiPosition`, lines 23 and 336-344). The WebAudio
    calls a grain makes are recorded as a `Grain` value in a log. */
module Concat {
  import opened Wrappers
  import opened SquareRoot
  import opened FeatureSearch
  import Analysis

  /** Largest jitter added to a grain's start: `Math.random() * 0.005`. */
  const JITTER: real := 0.005

  /** A point of the gain envelope: `gain` reached at `time`. */
  datatype Breakpoint = Breakpoint(time: real, gain: real)

  /** One fired grain: the buffer source starts at `start` reading from
      `offset` seconds into the buffer (`None` is the `undefined` offset of an
      empty analysis) and stops at `stop`; the gain follows the three
      breakpoints, linearly between them. */
  datatype Grain = Grain(start: real, offset: Option<real>, stop: real,
                         attack: Breakpoint, peak: Breakpoint, release: Breakpoint)

  /** A triangle envelope that opens and closes at the grain's ends with gain
      0 (no click) and peaks at gain 1 halfway through. */
  predicate ClickFree(g: Grain)
  {
    && g.attack == Breakpoint(g.start, 0.0)
    && g.release == Breakpoint(g.stop, 0.0)
    && g.peak.gain == 1.0
    && g.peak.time - g.start == g.stop - g.peak.time
  }

  /** The grain described by lines 217-231 for a grain time, duration and offset. */
  function MakeGrain(grainTime: real, duration: real, offset: Option<real>): (g: Grain)
    ensures ClickFree(g)
    ensures g.start == grainTime && g.stop - g.start == duration && g.offset == offset
    ensures duration >= 0.0 ==> g.start <= g.peak.time <= g.stop
  {
    Grain(grainTime, offset, grainTime + duration,
          Breakpoint(grainTime, 0.0),
          Breakpoint(grainTime + duration / 2.0, 1.0),
          Breakpoint(grainTime + duration, 0.0))
  }

  /** A touch reported by the interface, in normalized coordinates. */
  datatype Touch = Touch(x: real, y: real)

  /** `globals.guiPosition`: both coordinates `null` while nothing touches the interface. */
  class ControlSlot {
    var x: Option<real>
    var y: Option<real>

    /** Both coordinates are set, or both cleared. */
    ghost predicate Paired()
      reads this
    {
      x.None? <==> y.None?
    }

    /** `{ x: null, y: null }` (project/src/index.js:23). */
    constructor ()
      ensures x == None && y == None
      ensures Paired()
    {
      x, y := None, None;
    }

    /** The `@input` handler of lines 336-344: the first touch sets both
        coordinates, no touch clears both. */
    method OnInput(value: seq<Touch>)
      modifies this
      ensures |value| > 0 ==> x == Some(value[0].x) && y == Some(value[0].y)
      ensures |value| == 0 ==> x == None && y == None
      ensures Paired()
    {
      if |value| > 0 {
        x := Some(value[0].x);
        y := Some(value[0].y);
      } else {
        x := None;
        y := None;
      }
    }
  }

  /** `ConcatEngine`: `period` and `duration` are written by the sliders and
      read on every tick; `grains` logs what each tick hands to the audio graph. */
  class ConcatEngine {
    var period: real
    var duration: real
    var grains: seq<Grain>
    const data: Analysis.AlignedData
    const gui: ControlSlot

    /** The constructor's defaults (lines 182-189): period 0.05 s, grains of 0.2 s. */
    constructor (data: Analysis.AlignedData, gui: ControlSlot)
      ensures period == 0.05 && duration == 0.2 && grains == []
      ensures this.data == data && this.gui == gui
    {
      period := 0.05;
      duration := 0.2;
      grains := [];
      this.data := data;
      this.gui := gui;
    }

    /** The period slider's `@input` (line 300). */
    method SetPeriod(value: real)
      modifies this`period
      ensures period == value
    {
      period := value;
    }

    /** The duration slider's `@input` (line 314). */
    method SetDuration(value: real)
      modifies this`duration
      ensures duration == value
    {
      duration := value;
    }

    /** The engine idles while the control point is released. */
    predicate Released()
      reads gui
    {
      gui.x.None? && gui.y.None?
    }

    /** `advanceTime` (lines 203-234). `random` is the value `Math.random()`
        returns and `sqrt` is `Math.sqrt`. Every tick asks to run again one
        period later; a released control point fires nothing, otherwise one
        grain is fired at the block nearest to the control point. */
    method AdvanceTime(currentTime: real, audioTime: real, dt: real, random: real, sqrt: real -> real)
      returns (next: real)
      requires IsSqrt(sqrt)
      requires 0.0 <= random < 1.0
      modifies this`grains
      ensures next == currentTime + period
      ensures Released() ==> grains == old(grains)
      ensures !Released() ==>
        grains == old(grains) + [MakeGrain(audioTime + random * JITTER, duration,
                                           NearestTime(data.times, data.normX, data.normY, AsNumber(gui.x), AsNumber(gui.y)))]
      ensures !Released() ==> audioTime <= grains[|grains| - 1].start < audioTime + JITTER
    {
      if gui.x.None? && gui.y.None? {
        return currentTime + period;
      }
      var positionInBuffer := FindStartTimeFromGuiPosition(gui.x, gui.y, data.times, data.normX, data.normY, sqrt);
      var grainTime := audioTime + random * JITTER;
      grains := grains + [MakeGrain(grainTime, duration, positionInBuffer)];
      return currentTime + period;
    }
  }
}
