/**
 * The frame and transition scheduler of the OLED display UI: an object
 * whose fields are the state record shared with the callbacks and the
 * scheduler's configuration and bookkeeping, with the manual navigation
 * operations, the update poll and the tick that advances the state machine
 * and draws frames, indicator and overlays.
 *
 * Frame callbacks are represented by each frame's indicator preference:
 * invoking frame i leaves `frames[i]` in the state's indicator flag.
 * Calls into the display are returned as a log of `Event`s.
 */
module DisplayUi {
  import opened CInts
  import opened Transitions
  import opened Drawing
  import opened Governor

  /** The state record handed to every frame and overlay callback. */
  datatype UiState = UiState(
    lastUpdate: uint64,
    ticksSinceLastStateSwitch: uint16,
    frameState: FrameState,
    currentFrame: uint8,
    isIndicatorDrawn: bool,
    frameTransitionDirection: int8,
    manualControl: bool)

  /** The configuration fields, grouped to state that an operation leaves them alone. */
  datatype Settings = Settings(
    indicatorPosition: IndicatorPosition,
    indicatorDirection: IndicatorDirection,
    shouldDrawIndicators: bool,
    frameAnimationDirection: AnimationDirection,
    ticksPerFrame: uint16,
    ticksPerTransition: uint16,
    autoTransition: bool,
    frames: seq<bool>,
    frameCount: uint8,
    overlayCount: uint8,
    updateInterval: uint8)

  class OledDisplayUi {
    var indicatorPosition: IndicatorPosition
    var indicatorDirection: IndicatorDirection
    var shouldDrawIndicators: bool
    var frameAnimationDirection: AnimationDirection
    var lastTransitionDirection: int8
    var ticksPerFrame: uint16
    var ticksPerTransition: uint16
    var autoTransition: bool
    /** The frame registry: each frame callback's indicator preference. */
    var frames: seq<bool>
    var frameCount: uint8
    /** Target of an explicit transition, -1 for none. */
    var nextFrameNumber: int8
    var overlayCount: uint8
    var indicatorDrawState: uint8
    var state: UiState
    var updateInterval: uint8

    /**
     * The registry length is the frame count, both directions are +1 or
     * -1, the update interval is positive and the current frame is 0 or
     * one of the frames.
     */
    ghost predicate Valid()
      reads this
    {
      |frames| == frameCount as int &&
      UnitDirection(state.frameTransitionDirection) &&
      UnitDirection(lastTransitionDirection) &&
      updateInterval > 0 &&
      (state.currentFrame == 0 || state.currentFrame < frameCount)
    }

    /**
     * A tick is well defined: there are frames, and the current frame and
     * any override name one of them.
     */
    ghost predicate Drawable()
      reads this
    {
      |frames| == frameCount as int && updateInterval > 0 && Ok(Core(), frameCount)
    }

    /** The fields the state machine reads and writes. */
    function Core(): Machine
      reads this
    {
      Machine(state.ticksSinceLastStateSwitch, state.frameState, state.currentFrame,
              state.frameTransitionDirection, state.manualControl, nextFrameNumber, lastTransitionDirection)
    }

    function CurrentSchedule(): Schedule
      reads this
    {
      Schedule(frameCount, ticksPerFrame, ticksPerTransition, autoTransition)
    }

    function CurrentSettings(): Settings
      reads this
    {
      Settings(indicatorPosition, indicatorDirection, shouldDrawIndicators, frameAnimationDirection,
               ticksPerFrame, ticksPerTransition, autoTransition, frames, frameCount, overlayCount,
               updateInterval)
    }

    /**
     * The calls a tick makes into the display, read off the state it
     * leaves; `travel` is how far a sliding frame has moved.
     */
    ghost function Rendered(travel: int16): seq<Event>
      reads this
      requires Drawable()
    {
      [Clear] + FrameCalls(Core(), frameCount, frameAnimationDirection, travel) +
      (if shouldDrawIndicators
       then IndicatorEvents(Core(), frameCount, indicatorDrawState, state.isIndicatorDrawn,
                            indicatorPosition, indicatorDirection)
       else []) +
      OverlayCalls(overlayCount) + [Flush]
    }

    function GetNextFrameNumber(): uint8
      reads this
      requires HasNext(Core(), frameCount)
    {
      NextFrameNumber(Core(), frameCount)
    }

    /** A scheduler with the default configuration and no frames or overlays. */
    constructor ()
      ensures Valid()
      ensures state == UiState(0, 0, Fixed, 0, true, 1, false)
      ensures CurrentSettings() == Settings(Bottom, LeftRight, true, SlideRight, 151, 15, true, [], 0, 0, 33)
      ensures lastTransitionDirection == 1 && nextFrameNumber == -1 && indicatorDrawState == ShownNextOnly
    {
      indicatorPosition := Bottom;
      indicatorDirection := LeftRight;
      shouldDrawIndicators := true;
      frameAnimationDirection := SlideRight;
      lastTransitionDirection := 1;
      ticksPerFrame := 151;
      ticksPerTransition := 15;
      autoTransition := true;
      frames := [];
      frameCount := 0;
      nextFrameNumber := -1;
      overlayCount := 0;
      indicatorDrawState := ShownNextOnly;
      state := UiState(0, 0, Fixed, 0, true, 1, false);
      updateInterval := 33;
    }

    /**
     * Sets the update interval and the frame and transition lengths in
     * ticks, which the source derives from a frame rate and durations.
     */
    method ConfigureTiming(interval: uint8, perFrame: uint16, perTransition: uint16)
      requires interval > 0
      modifies this
      ensures CurrentSettings() == old(CurrentSettings()).(updateInterval := interval,
                ticksPerFrame := perFrame, ticksPerTransition := perTransition)
      ensures Core() == old(Core()) && state == old(state) && indicatorDrawState == old(indicatorDrawState)
      ensures old(Valid()) ==> Valid()
      ensures old(Drawable()) ==> Drawable()
    {
      updateInterval := interval;
      ticksPerFrame := perFrame;
      ticksPerTransition := perTransition;
    }

    /**
     * Frame length in ticks for a duration in milliseconds: the quotient by
     * the update interval, truncated. (The source divides in single
     * precision; for operands below 2^16 the rounded quotient never reaches
     * the next integer, so truncating it gives the integer quotient.)
     */
    method SetTimePerFrame(time: uint16)
      requires updateInterval > 0
      modifies this
      ensures ticksPerFrame * updateInterval <= time < (ticksPerFrame + 1) * updateInterval
      ensures CurrentSettings() == old(CurrentSettings()).(ticksPerFrame := ticksPerFrame)
      ensures state == old(state) && nextFrameNumber == old(nextFrameNumber)
      ensures lastTransitionDirection == old(lastTransitionDirection) && indicatorDrawState == old(indicatorDrawState)
    {
      ticksPerFrame := time / updateInterval;
    }

    /** Transition length in ticks for a duration in milliseconds, as SetTimePerFrame. */
    method SetTimePerTransition(time: uint16)
      requires updateInterval > 0
      modifies this
      ensures ticksPerTransition * updateInterval <= time < (ticksPerTransition + 1) * updateInterval
      ensures CurrentSettings() == old(CurrentSettings()).(ticksPerTransition := ticksPerTransition)
      ensures state == old(state) && nextFrameNumber == old(nextFrameNumber)
      ensures lastTransitionDirection == old(lastTransitionDirection) && indicatorDrawState == old(indicatorDrawState)
    {
      ticksPerTransition := time / updateInterval;
    }

    method EnableAutoTransition()
      modifies this
      ensures CurrentSettings() == old(CurrentSettings()).(autoTransition := true)
      ensures Core() == old(Core()) && state == old(state) && indicatorDrawState == old(indicatorDrawState)
      ensures old(Drawable()) ==> Drawable()
    {
      autoTransition := true;
    }

    method DisableAutoTransition()
      modifies this
      ensures CurrentSettings() == old(CurrentSettings()).(autoTransition := false)
      ensures Core() == old(Core()) && state == old(state) && indicatorDrawState == old(indicatorDrawState)
      ensures old(Drawable()) ==> Drawable()
    {
      autoTransition := false;
    }

    /** Automatic play forwards: both the live and the saved direction become +1. */
    method SetAutoTransitionForwards()
      modifies this
      ensures state == old(state).(frameTransitionDirection := 1) && lastTransitionDirection == 1
      ensures CurrentSettings() == old(CurrentSettings())
      ensures nextFrameNumber == old(nextFrameNumber) && indicatorDrawState == old(indicatorDrawState)
      ensures old(Valid()) ==> Valid()
      ensures old(Drawable()) ==> Drawable()
    {
      state := state.(frameTransitionDirection := 1);
      lastTransitionDirection := 1;
    }

    /** Automatic play backwards: both the live and the saved direction become -1. */
    method SetAutoTransitionBackwards()
      modifies this
      ensures state == old(state).(frameTransitionDirection := -1) && lastTransitionDirection == -1
      ensures CurrentSettings() == old(CurrentSettings())
      ensures nextFrameNumber == old(nextFrameNumber) && indicatorDrawState == old(indicatorDrawState)
      ensures old(Valid()) ==> Valid()
      ensures old(Drawable()) ==> Drawable()
    {
      state := state.(frameTransitionDirection := -1);
      lastTransitionDirection := -1;
    }

    /** Sets the state's indicator flag (the flag frame callbacks clear to hide the indicator). */
    method EnableIndicator()
      modifies this
      ensures state == old(state).(isIndicatorDrawn := true)
      ensures CurrentSettings() == old(CurrentSettings()) && Core() == old(Core())
      ensures indicatorDrawState == old(indicatorDrawState)
      ensures old(Valid()) ==> Valid()
    {
      state := state.(isIndicatorDrawn := true);
    }

    method DisableIndicator()
      modifies this
      ensures state == old(state).(isIndicatorDrawn := false)
      ensures CurrentSettings() == old(CurrentSettings()) && Core() == old(Core())
      ensures indicatorDrawState == old(indicatorDrawState)
      ensures old(Valid()) ==> Valid()
    {
      state := state.(isIndicatorDrawn := false);
    }

    /** Turns the indicator on globally. */
    method EnableAllIndicators()
      modifies this
      ensures CurrentSettings() == old(CurrentSettings()).(shouldDrawIndicators := true)
      ensures Core() == old(Core()) && state == old(state) && indicatorDrawState == old(indicatorDrawState)
      ensures old(Drawable()) ==> Drawable()
    {
      shouldDrawIndicators := true;
    }

    /** Turns the indicator off globally: ticks then draw no glyphs. */
    method DisableAllIndicators()
      modifies this
      ensures CurrentSettings() == old(CurrentSettings()).(shouldDrawIndicators := false)
      ensures Core() == old(Core()) && state == old(state) && indicatorDrawState == old(indicatorDrawState)
      ensures old(Drawable()) ==> Drawable()
    {
      shouldDrawIndicators := false;
    }

    method SetIndicatorPosition(pos: IndicatorPosition)
      modifies this
      ensures CurrentSettings() == old(CurrentSettings()).(indicatorPosition := pos)
      ensures Core() == old(Core()) && state == old(state) && indicatorDrawState == old(indicatorDrawState)
      ensures old(Drawable()) ==> Drawable()
    {
      indicatorPosition := pos;
    }

    method SetIndicatorDirection(dir: IndicatorDirection)
      modifies this
      ensures CurrentSettings() == old(CurrentSettings()).(indicatorDirection := dir)
      ensures Core() == old(Core()) && state == old(state) && indicatorDrawState == old(indicatorDrawState)
      ensures old(Drawable()) ==> Drawable()
    {
      indicatorDirection := dir;
    }

    method SetFrameAnimation(dir: AnimationDirection)
      modifies this
      ensures CurrentSettings() == old(CurrentSettings()).(frameAnimationDirection := dir)
      ensures Core() == old(Core()) && state == old(state) && indicatorDrawState == old(indicatorDrawState)
      ensures old(Drawable()) ==> Drawable()
    {
      frameAnimationDirection := dir;
    }

    /**
     * Installs a frame registry and resets the state to a fixed frame 0.
     * The pending override, the manual flag and both directions survive,
     * so the scheduler is ready to tick only if the override, if any,
     * still names one of the new frames.
     */
    method SetFrames(newFrames: seq<bool>)
      requires |newFrames| < 0x100
      modifies this
      ensures frames == newFrames && frameCount as int == |newFrames|
      ensures state == old(state).(lastUpdate := 0, ticksSinceLastStateSwitch := 0, frameState := Fixed,
                                   currentFrame := 0, isIndicatorDrawn := true)
      ensures CurrentSettings() == old(CurrentSettings()).(frames := newFrames, frameCount := |newFrames|)
      ensures nextFrameNumber == old(nextFrameNumber) && lastTransitionDirection == old(lastTransitionDirection)
      ensures indicatorDrawState == old(indicatorDrawState)
      ensures old(Valid()) ==> Valid()
      ensures old(Valid()) ==>
                (Drawable() <==> |newFrames| > 0 &&
                                 (nextFrameNumber == -1 || ToUint8(nextFrameNumber) < |newFrames|))
    {
      frames := newFrames;
      frameCount := |newFrames|;
      ResetState();
    }

    /** Installs the overlay registry; the state is not reset. */
    method SetOverlays(count: uint8)
      modifies this
      ensures CurrentSettings() == old(CurrentSettings()).(overlayCount := count)
      ensures Core() == old(Core()) && state == old(state) && indicatorDrawState == old(indicatorDrawState)
      ensures old(Drawable()) ==> Drawable()
    {
      overlayCount := count;
    }

    /** Fixed frame 0, counter and timestamp 0, indicator flag set; nothing else. */
    method ResetState()
      modifies this
      ensures state == old(state).(lastUpdate := 0, ticksSinceLastStateSwitch := 0, frameState := Fixed,
                                   currentFrame := 0, isIndicatorDrawn := true)
      ensures CurrentSettings() == old(CurrentSettings())
      ensures nextFrameNumber == old(nextFrameNumber) && lastTransitionDirection == old(lastTransitionDirection)
      ensures indicatorDrawState == old(indicatorDrawState)
    {
      state := state.(lastUpdate := 0, ticksSinceLastStateSwitch := 0, frameState := Fixed,
                      currentFrame := 0, isIndicatorDrawn := true);
    }

    /**
     * Starts a manual transition forwards unless one is in progress: the
     * direction is saved and forced to +1, the manual flag set and the
     * counter reset.
     */
    method NextFrame()
      modifies this
      ensures old(state.frameState) == InTransition ==> unchanged(this)
      ensures old(state.frameState) == Fixed ==>
                state == old(state).(manualControl := true, frameState := InTransition,
                                     ticksSinceLastStateSwitch := 0, frameTransitionDirection := 1) &&
                lastTransitionDirection == old(state.frameTransitionDirection) &&
                nextFrameNumber == old(nextFrameNumber) && indicatorDrawState == old(indicatorDrawState) &&
                CurrentSettings() == old(CurrentSettings())
      ensures old(Valid()) ==> Valid()
      ensures old(Drawable()) ==> Drawable()
    {
      if state.frameState != InTransition {
        state := state.(manualControl := true, frameState := InTransition, ticksSinceLastStateSwitch := 0);
        lastTransitionDirection := state.frameTransitionDirection;
        state := state.(frameTransitionDirection := 1);
      }
    }

    /** As NextFrame, backwards: the direction is forced to -1. */
    method PreviousFrame()
      modifies this
      ensures old(state.frameState) == InTransition ==> unchanged(this)
      ensures old(state.frameState) == Fixed ==>
                state == old(state).(manualControl := true, frameState := InTransition,
                                     ticksSinceLastStateSwitch := 0, frameTransitionDirection := -1) &&
                lastTransitionDirection == old(state.frameTransitionDirection) &&
                nextFrameNumber == old(nextFrameNumber) && indicatorDrawState == old(indicatorDrawState) &&
                CurrentSettings() == old(CurrentSettings())
      ensures old(Valid()) ==> Valid()
      ensures old(Drawable()) ==> Drawable()
    {
      if state.frameState != InTransition {
        state := state.(manualControl := true, frameState := InTransition, ticksSinceLastStateSwitch := 0);
        lastTransitionDirection := state.frameTransitionDirection;
        state := state.(frameTransitionDirection := -1);
      }
    }

    /**
     * Jumps to a frame without animation, also out of a transition. An
     * index past the last frame does nothing; the current frame only resets
     * the counter; any other frame becomes current, fixed, with the
     * indicator flag set. The override and manual flag are kept.
     */
    method SwitchToFrame(frame: uint8)
      modifies this
      ensures frame >= old(frameCount) ==> unchanged(this)
      ensures frame < old(frameCount) && frame == old(state.currentFrame) ==>
                state == old(state).(ticksSinceLastStateSwitch := 0)
      ensures frame < old(frameCount) && frame != old(state.currentFrame) ==>
                state == old(state).(ticksSinceLastStateSwitch := 0, frameState := Fixed,
                                     currentFrame := frame, isIndicatorDrawn := true)
      ensures CurrentSettings() == old(CurrentSettings())
      ensures nextFrameNumber == old(nextFrameNumber) && lastTransitionDirection == old(lastTransitionDirection)
      ensures indicatorDrawState == old(indicatorDrawState)
      ensures old(Valid()) ==> Valid()
      ensures old(Drawable()) ==> Drawable()
    {
      if frame >= frameCount {
        return;
      }
      state := state.(ticksSinceLastStateSwitch := 0);
      if frame == state.currentFrame {
        return;
      }
      state := state.(frameState := Fixed, currentFrame := frame, isIndicatorDrawn := true);
    }

    /**
     * Starts an animated transition to a frame, whatever the frame state.
     * An index past the last frame does nothing; the current frame only
     * resets the counter; for any other frame the override is set to it,
     * the direction saved and set to -1 if the frame is below the current
     * one and +1 if above, the manual flag set and a transition started.
     */
    method TransitionToFrame(frame: uint8)
      modifies this
      ensures frame >= old(frameCount) ==> unchanged(this)
      ensures frame < old(frameCount) && frame == old(state.currentFrame) ==>
                state == old(state).(ticksSinceLastStateSwitch := 0) &&
                nextFrameNumber == old(nextFrameNumber) && lastTransitionDirection == old(lastTransitionDirection)
      ensures frame < old(frameCount) && frame != old(state.currentFrame) ==>
                nextFrameNumber == ToInt8(frame) &&
                lastTransitionDirection == old(state.frameTransitionDirection) &&
                state == old(state).(ticksSinceLastStateSwitch := 0, manualControl := true,
                                     frameState := InTransition,
                                     frameTransitionDirection := if frame < old(state.currentFrame) then -1 else 1)
      ensures CurrentSettings() == old(CurrentSettings()) && indicatorDrawState == old(indicatorDrawState)
      ensures old(Valid()) ==> Valid()
      ensures old(Drawable()) ==> Drawable()
    {
      if frame >= frameCount {
        return;
      }
      state := state.(ticksSinceLastStateSwitch := 0);
      if frame == state.currentFrame {
        return;
      }
      nextFrameNumber := ToInt8(frame);
      lastTransitionDirection := state.frameTransitionDirection;
      state := state.(manualControl := true, frameState := InTransition);
      state := state.(frameTransitionDirection := if frame < state.currentFrame then -1 else 1);
      Int8RoundTrip(frame);
    }

    /**
     * The update poll at time `now`, with `finish` the clock read that
     * ends it. A tick fires iff the 8-bit budget is spent; it is preceded
     * by the catch-up of the counter and the recording of the time. The
     * result is the budget left at `finish`, narrowed to 8 bits.
     */
    method Update(now: uint32, finish: uint32, travel: int16) returns (remaining: int8, events: seq<Event>)
      requires Valid()
      requires TimeBudget(updateInterval, ToLong(now), state.lastUpdate) <= 0 ==> Drawable()
      modifies this
      ensures remaining == ToInt8(old(updateInterval) - (finish - ToLong(now)))
      ensures TimeBudget(old(updateInterval), ToLong(now), old(state.lastUpdate)) > 0 ==>
                unchanged(this) && events == []
      ensures TimeBudget(old(updateInterval), ToLong(now), old(state.lastUpdate)) <= 0 ==>
                var budget := TimeBudget(old(updateInterval), ToLong(now), old(state.lastUpdate));
                var caughtUp := CaughtUpTicks(old(state.ticksSinceLastStateSwitch), budget, old(updateInterval),
                                              old(autoTransition), old(state.lastUpdate));
                Drawable() &&
                state.lastUpdate == ToUint64(ToLong(now)) &&
                Core() == TickStep(old(Core()).(ticks := caughtUp), CurrentSchedule()) &&
                DrawOutcome(indicatorDrawState, state.isIndicatorDrawn) ==
                  FrameOutcome(Core(), frames, old(indicatorDrawState)) &&
                CurrentSettings() == old(CurrentSettings()) &&
                events == Rendered(travel)
    {
      var frameStart := ToLong(now);
      var timeBudget: int8 := ToInt8(updateInterval - (frameStart - state.lastUpdate));
      assert timeBudget == TimeBudget(updateInterval, frameStart, state.lastUpdate);
      events := [];
      if timeBudget <= 0 {
        ghost var caughtUp := CaughtUpTicks(state.ticksSinceLastStateSwitch, timeBudget, updateInterval,
                                            autoTransition, state.lastUpdate);
        if autoTransition && state.lastUpdate != 0 {
          var skipped := -(timeBudget as int) / updateInterval;
          assert skipped == CatchUp(timeBudget, updateInterval);
          state := state.(ticksSinceLastStateSwitch := ToUint16(state.ticksSinceLastStateSwitch + skipped));
        }
        state := state.(lastUpdate := ToUint64(frameStart));
        assert Core() == old(Core()).(ticks := caughtUp);
        events := Tick(travel);
      }
      remaining := ToInt8(updateInterval - (finish - frameStart));
    }

    /**
     * One tick: the state machine step, then clear, frames, indicator
     * (when enabled), overlays and flush.
     */
    method Tick(travel: int16) returns (events: seq<Event>)
      requires Drawable()
      modifies this
      ensures Drawable()
      ensures Core() == TickStep(old(Core()), CurrentSchedule())
      ensures state.lastUpdate == old(state.lastUpdate)
      ensures DrawOutcome(indicatorDrawState, state.isIndicatorDrawn) ==
                FrameOutcome(Core(), frames, old(indicatorDrawState))
      ensures CurrentSettings() == old(CurrentSettings())
      ensures events == Rendered(travel)
    {
      AdvanceState();
      var frameEvents := DrawFrame(travel);
      events := [Clear] + frameEvents;
      if shouldDrawIndicators {
        var glyphs := DrawIndicator();
        events := events + glyphs;
      }
      var overlays := DrawOverlays();
      events := events + overlays + [Flush];
    }

    /**
     * The state machine half of a tick: count the tick, then commit an
     * elapsed transition, or in a fixed frame restore the direction a
     * manual step overrode and end an elapsed frame.
     */
    method AdvanceState()
      requires Drawable()
      modifies this
      ensures Drawable()
      ensures Core() == TickStep(old(Core()), CurrentSchedule())
      ensures state.lastUpdate == old(state.lastUpdate) && state.isIndicatorDrawn == old(state.isIndicatorDrawn)
      ensures indicatorDrawState == old(indicatorDrawState)
      ensures CurrentSettings() == old(CurrentSettings())
    {
      ghost var before := Core();
      state := state.(ticksSinceLastStateSwitch := ToUint16(state.ticksSinceLastStateSwitch + 1));
      match state.frameState {
        case InTransition =>
          if state.ticksSinceLastStateSwitch >= ticksPerTransition {
            NextFrameDependsOn(before, Core(), frameCount);
            var next := GetNextFrameNumber();
            state := state.(frameState := Fixed, currentFrame := next, ticksSinceLastStateSwitch := 0);
            nextFrameNumber := -1;
          }
        case Fixed =>
          if state.manualControl {
            state := state.(frameTransitionDirection := lastTransitionDirection, manualControl := false);
          }
          if state.ticksSinceLastStateSwitch >= ticksPerFrame {
            if autoTransition {
              state := state.(frameState := InTransition);
            }
            state := state.(ticksSinceLastStateSwitch := 0);
          }
      }
    }

    /**
     * Invokes the frame callbacks. Fixed: the indicator code becomes "not
     * known yet" and the current frame is drawn at the origin, leaving its
     * preference in the indicator flag. Transition: the current and then
     * the next frame are drawn, each with the flag set beforehand; the two
     * preferences give the code (shown now only: 2, shown next only: 1,
     * neither: 3, both: unchanged) and the flag ends as "both want it".
     */
    method DrawFrame(travel: int16) returns (events: seq<Event>)
      requires Drawable()
      modifies this
      ensures Drawable()
      ensures Core() == old(Core()) && CurrentSettings() == old(CurrentSettings())
      ensures state == old(state).(isIndicatorDrawn := state.isIndicatorDrawn)
      ensures events == FrameCalls(Core(), frameCount, frameAnimationDirection, travel)
      ensures DrawOutcome(indicatorDrawState, state.isIndicatorDrawn) ==
                FrameOutcome(Core(), frames, old(indicatorDrawState))
    {
      match state.frameState {
        case InTransition =>
          var x, y, x1, y1 := TransitionOffsets(travel);
          EnableIndicator();
          var current := InvokeFrame(state.currentFrame, x, y);
          var drawnCurrentFrame := state.isIndicatorDrawn;
          EnableIndicator();
          var incoming := InvokeFrame(GetNextFrameNumber(), x1, y1);
          events := [current, incoming];
          if drawnCurrentFrame && !state.isIndicatorDrawn {
            indicatorDrawState := ShownNowOnly;
          } else if !drawnCurrentFrame && state.isIndicatorDrawn {
            indicatorDrawState := ShownNextOnly;
          } else if !drawnCurrentFrame && !state.isIndicatorDrawn {
            indicatorDrawState := HiddenInBoth;
          }
          if !drawnCurrentFrame {
            state := state.(isIndicatorDrawn := false);
          }
        case Fixed =>
          indicatorDrawState := NotKnownYet;
          EnableIndicator();
          var current := InvokeFrame(state.currentFrame, 0, 0);
          events := [current];
      }
    }

    /**
     * Calls frame callback i at offset (x, y): the callback leaves its
     * indicator preference in the state's indicator flag.
     */
    method InvokeFrame(i: uint8, x: int16, y: int16) returns (event: Event)
      requires i as int < |frames|
      modifies this
      ensures CurrentSettings() == old(CurrentSettings())
      ensures event == Frame(i, x, y)
      ensures state == old(state).(isIndicatorDrawn := frames[i])
      ensures nextFrameNumber == old(nextFrameNumber) && lastTransitionDirection == old(lastTransitionDirection)
      ensures indicatorDrawState == old(indicatorDrawState)
      ensures Core() == old(Core())
      ensures old(Drawable()) ==> Drawable()
    {
      event := Frame(i, x, y);
      state := state.(isIndicatorDrawn := frames[i]);
    }

    /**
     * Where the two frames of a transition are drawn: moved along the slide
     * axis, the incoming frame one screen behind, all negated for a negative
     * direction.
     */
    method TransitionOffsets(travel: int16) returns (x: int16, y: int16, x1: int16, y1: int16)
      ensures Offsets(x, y, x1, y1) ==
                Oriented(SlideOffsets(frameAnimationDirection, travel), state.frameTransitionDirection)
    {
      match frameAnimationDirection {
        case SlideLeft =>
          x, y := ToInt16(-(travel as int)), 0;
          x1, y1 := ToInt16(x + DisplayWidth), 0;
        case SlideRight =>
          x, y := travel, 0;
          x1, y1 := ToInt16(x - DisplayWidth), 0;
        case SlideUp =>
          x, y := 0, ToInt16(-(travel as int));
          x1, y1 := 0, ToInt16(y + DisplayHeight);
        case SlideDown =>
          x, y := 0, travel;
          x1, y1 := 0, ToInt16(y - DisplayHeight);
      }
      var dir: int8 := if state.frameTransitionDirection >= 0 then 1 else -1;
      x, y, x1, y1 := ToInt16(x * dir), ToInt16(y * dir), ToInt16(x1 * dir), ToInt16(y1 * dir);
    }

    /**
     * Draws the indicator row unless it is hidden: one glyph per frame,
     * the glyph in the highlighted frame's slot being the active symbol.
     */
    method DrawIndicator() returns (glyphs: seq<Event>)
      requires (!IndicatorHidden(indicatorDrawState, state.isIndicatorDrawn, state.frameState) &&
                indicatorDrawState == ShownNextOnly) ==> HasNext(Core(), frameCount)
      ensures glyphs == IndicatorEvents(Core(), frameCount, indicatorDrawState, state.isIndicatorDrawn,
                                        indicatorPosition, indicatorDirection)
      ensures IndicatorHidden(indicatorDrawState, state.isIndicatorDrawn, state.frameState) ==> glyphs == []
      ensures !IndicatorHidden(indicatorDrawState, state.isIndicatorDrawn, state.frameState) ==>
                |glyphs| == frameCount as int &&
                forall i :: 0 <= i < |glyphs| ==>
                  glyphs[i].Glyph? &&
                  (glyphs[i].active <==>
                     i == HighlightSlot(indicatorDirection, frameCount,
                                        if indicatorDrawState == ShownNextOnly then GetNextFrameNumber()
                                        else state.currentFrame) as int)
    {
      glyphs := [];
      if indicatorDrawState == HiddenInBoth || (!state.isIndicatorDrawn && state.frameState != InTransition) {
        return;
      }
      var frameToHighlight := if indicatorDrawState == ShownNextOnly then GetNextFrameNumber() else state.currentFrame;
      var posOfHighlightFrame: uint8 := match indicatorDirection {
        case LeftRight => frameToHighlight
        case RightLeft => ToUint8(frameCount - frameToHighlight)
      };
      var fade := FadeOf(indicatorDrawState);
      var frameStartPos := 12 * frameCount / 2;
      for i := 0 to frameCount
        invariant |glyphs| == i
        invariant forall j :: 0 <= j < i ==>
                    glyphs[j] == GlyphAt(indicatorPosition, frameCount, j, j == posOfHighlightFrame as int, fade)
      {
        var x: uint16, y: uint16;
        match indicatorPosition {
          case Top =>
            y := 0;
            x := ToUint16(64 - frameStartPos + 12 * i);
          case Bottom =>
            y := 56;
            x := ToUint16(64 - frameStartPos + 12 * i);
          case Right =>
            x := 120;
            y := ToUint16(32 - frameStartPos + 2 + 12 * i);
          case Left =>
            x := 0;
            y := ToUint16(32 - frameStartPos + 2 + 12 * i);
        }
        assert Glyph(x, y, posOfHighlightFrame as int == i, fade) ==
               GlyphAt(indicatorPosition, frameCount, i, i == posOfHighlightFrame as int, fade);
        glyphs := glyphs + [Glyph(x, y, posOfHighlightFrame as int == i, fade)];
      }
      assert glyphs == IndicatorRow(indicatorPosition, frameCount, posOfHighlightFrame, fade);
    }

    /** Invokes every overlay callback once, in registry order. */
    method DrawOverlays() returns (calls: seq<Event>)
      ensures calls == OverlayCalls(overlayCount)
      ensures |calls| == overlayCount as int && forall k :: 0 <= k < |calls| ==> calls[k] == Overlay(k)
    {
      calls := [];
      for i := 0 to overlayCount
        invariant |calls| == i
        invariant forall k :: 0 <= k < i ==> calls[k] == Overlay(k)
      {
        calls := calls + [Overlay(i)];
      }
    }
  }
}
