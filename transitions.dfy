/**
 * The frame/transition state machine of the display scheduler, as a pure
 * function over the fields it reads and writes. The scheduler class's tick
 * is proved to compute exactly this step; the lemmas here follow a run of
 * ticks: a transition commits after exactly its length, a manual direction
 * lasts the transition and is undone on the first fixed tick, and
 * automatic play advances one neighbour per frame period.
 */
module Transitions {
  import opened CInts

  datatype FrameState = InTransition | Fixed

  predicate UnitDirection(d: int) { d == 1 || d == -1 }

  /**
   * The part of the scheduler's state that its tick and navigation logic
   * touch: from the shared state record the tick counter, the frame state,
   * the current frame, the transition direction and the manual flag; from
   * the scheduler itself the pending next-frame override (-1 for none) and
   * the direction saved for after a manual transition.
   */
  datatype Machine = Machine(
    ticks: uint16,
    frameState: FrameState,
    currentFrame: uint8,
    direction: int8,
    manual: bool,
    nextFrameNumber: int8,
    lastDirection: int8)

  /** The configuration the tick reads. */
  datatype Schedule = Schedule(
    frameCount: uint8,
    ticksPerFrame: uint16,
    ticksPerTransition: uint16,
    autoTransition: bool)

  /** The next frame can be computed: an override is pending or there are frames. */
  predicate HasNext(m: Machine, frameCount: uint8)
  {
    m.nextFrameNumber != -1 || frameCount > 0
  }

  /**
   * The invariant under which ticking is well defined: there are frames,
   * the current frame and any pending override name one of them, and both
   * directions are +1 or -1.
   */
  predicate Ok(m: Machine, frameCount: uint8)
  {
    0 < frameCount &&
    m.currentFrame < frameCount &&
    (m.nextFrameNumber == -1 || ToUint8(m.nextFrameNumber) < frameCount) &&
    UnitDirection(m.direction) &&
    UnitDirection(m.lastDirection)
  }

  /**
   * The frame a transition leads to: the pending override when there is
   * one, otherwise the neighbour in the transition direction, wrapping
   * around at both ends.
   */
  function NextFrameNumber(m: Machine, frameCount: uint8): (r: uint8)
    requires HasNext(m, frameCount)
    ensures m.nextFrameNumber != -1 ==> r == ToUint8(m.nextFrameNumber)
    ensures m.nextFrameNumber == -1 && m.currentFrame < frameCount && UnitDirection(m.direction) ==>
              r as int == (m.currentFrame + frameCount + m.direction) % frameCount
    ensures Ok(m, frameCount) ==> r < frameCount
  {
    if m.nextFrameNumber != -1 then ToUint8(m.nextFrameNumber)
    else
      WrapStep(m.currentFrame, frameCount, m.direction);
      ToUint8(CRem(m.currentFrame + frameCount + m.direction, frameCount))
  }

  /**
   * Without an override the next frame is the following one (the last
   * frame wrapping to 0) going forwards, and the preceding one (0 wrapping
   * to the last) going backwards.
   */
  lemma NeighbourFrames(m: Machine, frameCount: uint8)
    requires m.nextFrameNumber == -1 && m.currentFrame < frameCount
    ensures m.direction == 1 ==>
              NextFrameNumber(m, frameCount) == if m.currentFrame + 1 == frameCount then 0 else m.currentFrame + 1
    ensures m.direction == -1 ==>
              NextFrameNumber(m, frameCount) == if m.currentFrame == 0 then frameCount - 1 else m.currentFrame - 1
  {
    WrapStep(m.currentFrame, frameCount, m.direction);
  }

  /** The next frame depends only on the current frame, the direction and the override. */
  lemma NextFrameDependsOn(m: Machine, m': Machine, frameCount: uint8)
    requires HasNext(m, frameCount)
    requires m'.currentFrame == m.currentFrame && m'.direction == m.direction
    requires m'.nextFrameNumber == m.nextFrameNumber
    ensures NextFrameNumber(m', frameCount) == NextFrameNumber(m, frameCount)
  {
  }

  /**
   * One tick of the state machine. The counter is incremented (16 bits,
   * wrapping). In a transition, reaching the transition length commits to
   * the next frame, clears the override and resets the counter. In a fixed
   * frame, a pending manual flag is cleared and the saved direction put
   * back; reaching the frame length resets the counter and, only with
   * automatic transitions on, starts a transition.
   */
  function TickStep(m: Machine, s: Schedule): (r: Machine)
    requires m.frameState == InTransition ==> HasNext(m, s.frameCount)
    ensures Ok(m, s.frameCount) ==> Ok(r, s.frameCount)
  {
    var ticks := ToUint16(m.ticks + 1);
    match m.frameState
    case InTransition =>
      if ticks >= s.ticksPerTransition then
        m.(frameState := Fixed, currentFrame := NextFrameNumber(m, s.frameCount),
           ticks := 0, nextFrameNumber := -1)
      else
        m.(ticks := ticks)
    case Fixed =>
      var restored := if m.manual then m.(direction := m.lastDirection, manual := false) else m;
      if ticks >= s.ticksPerFrame then
        restored.(frameState := if s.autoTransition then InTransition else Fixed, ticks := 0)
      else
        restored.(ticks := ticks)
  }

  /**
   * What a tick may change: a change of frame state resets the counter;
   * only automatic play starts a transition from a fixed frame; the current
   * frame changes only when a transition commits, to the next frame; the
   * direction changes only on a fixed tick with the manual flag set, back
   * to the saved direction; a tick never sets the manual flag nor touches
   * the saved direction.
   */
  lemma TickStepEffects(m: Machine, s: Schedule)
    requires m.frameState == InTransition ==> HasNext(m, s.frameCount)
    ensures var r := TickStep(m, s);
            (r.frameState != m.frameState ==> r.ticks == 0) &&
            (r.frameState == InTransition && m.frameState == Fixed ==> s.autoTransition) &&
            (r.currentFrame != m.currentFrame ==>
               m.frameState == InTransition && r.frameState == Fixed &&
               r.currentFrame == NextFrameNumber(m, s.frameCount)) &&
            (r.direction != m.direction ==>
               m.frameState == Fixed && m.manual && r.direction == m.lastDirection) &&
            (r.manual ==> m.manual) &&
            r.lastDirection == m.lastDirection
  {
  }

  /** The machine after n ticks. */
  function Run(m: Machine, s: Schedule, n: nat): (r: Machine)
    requires Ok(m, s.frameCount)
    ensures Ok(r, s.frameCount)
    decreases n
  {
    if n == 0 then m else TickStep(Run(m, s, n - 1), s)
  }

  /** Ticks a transition takes: a length of 0 still costs one tick. */
  function TransitionLength(s: Schedule): nat
  {
    if s.ticksPerTransition == 0 then 1 else s.ticksPerTransition as nat
  }

  /** Ticks a fixed frame lasts before the counter resets. */
  function FrameLength(s: Schedule): nat
  {
    if s.ticksPerFrame == 0 then 1 else s.ticksPerFrame as nat
  }

  /** A tick of a transition that does not reach the transition length only counts. */
  lemma TransitionCounts(m: Machine, s: Schedule)
    requires m.frameState == InTransition && HasNext(m, s.frameCount) && m.ticks + 1 < TransitionLength(s)
    ensures TickStep(m, s) == m.(ticks := m.ticks + 1)
  {
    assert ToUint16(m.ticks + 1) == m.ticks + 1;
  }

  /** Before it commits, a transition only counts ticks. */
  lemma {:induction false} TransitionInProgress(m: Machine, s: Schedule, k: nat)
    requires Ok(m, s.frameCount) && m.frameState == InTransition && m.ticks == 0
    requires k < TransitionLength(s)
    ensures Run(m, s, k) == m.(ticks := k)
  {
    if k > 0 {
      TransitionInProgress(m, s, k - 1);
      assert Run(m, s, k) == TickStep(m.(ticks := k - 1), s);
      TransitionCounts(m.(ticks := k - 1), s);
    }
  }

  /** The tick that ends a transition. */
  lemma TransitionLastTick(m: Machine, s: Schedule)
    requires Ok(m, s.frameCount) && m.frameState == InTransition && m.ticks == 0
    ensures TickStep(m.(ticks := TransitionLength(s) - 1), s) ==
              m.(frameState := Fixed, currentFrame := NextFrameNumber(m, s.frameCount),
                 ticks := 0, nextFrameNumber := -1)
  {
    var before := m.(ticks := TransitionLength(s) - 1);
    assert ToUint16(before.ticks + 1) == TransitionLength(s);
    assert NextFrameNumber(before, s.frameCount) == NextFrameNumber(m, s.frameCount);
  }

  /**
   * A transition started with the counter at 0 commits after exactly
   * TransitionLength ticks: the frame becomes the next frame, the state
   * fixed, the counter 0, the override cleared, and nothing else changes.
   */
  lemma TransitionCommits(m: Machine, s: Schedule)
    requires Ok(m, s.frameCount) && m.frameState == InTransition && m.ticks == 0
    ensures forall k :: 0 <= k < TransitionLength(s) ==> Run(m, s, k) == m.(ticks := k)
    ensures Run(m, s, TransitionLength(s)) ==
              m.(frameState := Fixed, currentFrame := NextFrameNumber(m, s.frameCount),
                 ticks := 0, nextFrameNumber := -1)
  {
    forall k | 0 <= k < TransitionLength(s) ensures Run(m, s, k) == m.(ticks := k) {
      TransitionInProgress(m, s, k);
    }
    TransitionCommitsAt(m, s);
  }

  /** The machine at the end of a transition started with the counter at 0. */
  lemma TransitionCommitsAt(m: Machine, s: Schedule)
    requires Ok(m, s.frameCount) && m.frameState == InTransition && m.ticks == 0
    ensures Run(m, s, TransitionLength(s)) ==
              m.(frameState := Fixed, currentFrame := NextFrameNumber(m, s.frameCount),
                 ticks := 0, nextFrameNumber := -1)
  {
    var n := TransitionLength(s);
    TransitionInProgress(m, s, n - 1);
    assert Run(m, s, n) == TickStep(Run(m, s, n - 1), s);
    TransitionLastTick(m, s);
  }

  /**
   * Arrival of an explicit transition: with the override set to frame f
   * (as a transition to f leaves it), the current frame stays where it is
   * for TransitionLength - 1 ticks and is f, fixed, with the counter at 0
   * and no override, after exactly TransitionLength ticks.
   */
  lemma TransitionToFrameArrives(m: Machine, s: Schedule, f: uint8)
    requires Ok(m, s.frameCount) && m.frameState == InTransition && m.ticks == 0
    requires f < s.frameCount && m.nextFrameNumber == ToInt8(f)
    ensures forall k :: 0 <= k < TransitionLength(s) ==>
              Run(m, s, k).currentFrame == m.currentFrame && Run(m, s, k).frameState == InTransition
    ensures var r := Run(m, s, TransitionLength(s));
            r.currentFrame == f && r.frameState == Fixed && r.nextFrameNumber == -1 && r.ticks == 0
  {
    TransitionCommits(m, s);
    Int8RoundTrip(f);
  }

  /**
   * A manual transition (manual flag set) keeps its forced direction and
   * the manual flag through the whole transition; the first tick after the
   * commit puts back the saved direction and clears the flag.
   */
  lemma ManualDirectionRestored(m: Machine, s: Schedule)
    requires Ok(m, s.frameCount) && m.frameState == InTransition && m.ticks == 0 && m.manual
    ensures Run(m, s, TransitionLength(s)).direction == m.direction
    ensures Run(m, s, TransitionLength(s)).manual
    ensures Run(m, s, TransitionLength(s) + 1).direction == m.lastDirection
    ensures !Run(m, s, TransitionLength(s) + 1).manual
  {
    TransitionCommits(m, s);
  }

  /** Without the manual flag no tick ever changes the direction or sets the flag. */
  lemma {:induction false} DirectionSettled(m: Machine, s: Schedule, n: nat)
    requires Ok(m, s.frameCount) && !m.manual
    ensures Run(m, s, n).direction == m.direction && !Run(m, s, n).manual
  {
    if n > 0 {
      DirectionSettled(m, s, n - 1);
    }
  }

  /** Without automatic transitions a fixed frame stays fixed on the same frame. */
  lemma {:induction false} StaysFixed(m: Machine, s: Schedule, n: nat)
    requires Ok(m, s.frameCount) && m.frameState == Fixed && !s.autoTransition
    ensures Run(m, s, n).frameState == Fixed && Run(m, s, n).currentFrame == m.currentFrame
  {
    if n > 0 {
      StaysFixed(m, s, n - 1);
    }
  }

  /** A tick of a fixed frame that does not reach the frame length only counts. */
  lemma FixedCounts(m: Machine, s: Schedule)
    requires m.frameState == Fixed && !m.manual && m.ticks + 1 < FrameLength(s)
    ensures TickStep(m, s) == m.(ticks := m.ticks + 1)
  {
    assert ToUint16(m.ticks + 1) == m.ticks + 1;
  }

  /** Before it ends, a fixed frame only counts ticks. */
  lemma {:induction false} FixedInProgress(m: Machine, s: Schedule, k: nat)
    requires Ok(m, s.frameCount) && m.frameState == Fixed && m.ticks == 0 && !m.manual
    requires k < FrameLength(s)
    ensures Run(m, s, k) == m.(ticks := k)
  {
    if k > 0 {
      FixedInProgress(m, s, k - 1);
      assert Run(m, s, k) == TickStep(m.(ticks := k - 1), s);
      FixedCounts(m.(ticks := k - 1), s);
    }
  }

  /**
   * The tick that ends a fixed frame resets the counter to 0, and starts a
   * transition only under automatic play.
   */
  lemma FixedLastTick(m: Machine, s: Schedule)
    requires Ok(m, s.frameCount) && m.frameState == Fixed && !m.manual
    ensures TickStep(m.(ticks := FrameLength(s) - 1), s) ==
              m.(frameState := if s.autoTransition then InTransition else Fixed, ticks := 0)
  {
    assert ToUint16(FrameLength(s) - 1 + 1) == FrameLength(s);
  }

  /**
   * Automatic play starts a transition: from a fixed frame with the counter
   * at 0 and no manual flag, with automatic transitions on, the machine is
   * in a transition with the counter at 0 after exactly FrameLength ticks.
   */
  lemma AutoStartsTransition(m: Machine, s: Schedule)
    requires Ok(m, s.frameCount) && m.frameState == Fixed && m.ticks == 0 && !m.manual
    requires s.autoTransition
    ensures Run(m, s, FrameLength(s)) == m.(frameState := InTransition)
  {
    var n := FrameLength(s);
    FixedInProgress(m, s, n - 1);
    assert Run(m, s, n) == TickStep(Run(m, s, n - 1), s);
    FixedLastTick(m, s);
  }

  /**
   * Automatic play advances: a frame period plus a transition after a
   * fixed frame starts, the machine shows the next frame (the neighbour in
   * the transition direction, or the override), fixed, with the counter
   * at 0, no override and everything else as it was.
   */
  lemma AutoAdvance(m: Machine, s: Schedule)
    requires Ok(m, s.frameCount) && m.frameState == Fixed && m.ticks == 0 && !m.manual
    requires s.autoTransition
    ensures Run(Run(m, s, FrameLength(s)), s, TransitionLength(s)) ==
              m.(currentFrame := NextFrameNumber(m, s.frameCount), nextFrameNumber := -1)
  {
    var started := m.(frameState := InTransition);
    calc {
      Run(Run(m, s, FrameLength(s)), s, TransitionLength(s));
    == { AutoStartsTransition(m, s); }
      Run(started, s, TransitionLength(s));
    == { TransitionCommitsAt(started, s); }
      started.(frameState := Fixed, currentFrame := NextFrameNumber(started, s.frameCount),
               ticks := 0, nextFrameNumber := -1);
    == { NextFrameDependsOn(m, started, s.frameCount); }
      m.(currentFrame := NextFrameNumber(m, s.frameCount), nextFrameNumber := -1);
    }
  }
}
