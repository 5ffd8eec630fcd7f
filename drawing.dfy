/**
 * What one tick draws, as a log of calls into the display: the frame
 * callbacks and where they are placed, the indicator glyphs and which of
 * them is the active symbol, and the overlay callbacks. Also the indicator
 * draw state that the frame callbacks' preferences build up.
 */
module Drawing {
  import opened CInts
  import opened Transitions

  datatype AnimationDirection = SlideUp | SlideDown | SlideLeft | SlideRight
  datatype IndicatorPosition = Top | Right | Bottom | Left
  datatype IndicatorDirection = LeftRight | RightLeft

  /** Whether the indicator row is at rest or sliding in or out of the screen. */
  datatype Fade = Steady | SlideIn | SlideOut

  /** Size of the display in pixels. */
  const DisplayWidth: int := 128
  const DisplayHeight: int := 64

  /**
   * One call into the display, or into a frame callback with the offset it
   * is drawn at. A glyph's x and y are its rest position;
   * while it slides in or out, the coordinate across the indicator's edge
   * is moved off-screen by an amount that grows with the transition.
   */
  datatype Event =
    | Clear
    | Frame(index: uint8, offsetX: int16, offsetY: int16)
    | Glyph(x: uint16, y: uint16, active: bool, fade: Fade)
    | Overlay(index: uint8)
    | Flush

  /** Codes of the indicator draw state. */
  const NotKnownYet: uint8 := 0
  const ShownNextOnly: uint8 := 1
  const ShownNowOnly: uint8 := 2
  const HiddenInBoth: uint8 := 3

  /**
   * Indicator draw state after a transition draw in which the current frame
   * wants the indicator (shownNow) and the next frame does (shownNext); a
   * transition between two frames that both want it keeps the old code.
   */
  function CombinedDrawState(previous: uint8, shownNow: bool, shownNext: bool): uint8
  {
    if shownNow && !shownNext then ShownNowOnly
    else if !shownNow && shownNext then ShownNextOnly
    else if !shownNow && !shownNext then HiddenInBoth
    else previous
  }

  /** The indicator draw state and indicator flag a frame draw leaves behind. */
  datatype DrawOutcome = DrawOutcome(indicatorDrawState: uint8, isIndicatorDrawn: bool)

  /**
   * What drawing the frames does to the indicator bookkeeping, given each
   * frame's indicator preference: a fixed draw resets the code and leaves
   * the current frame's preference; a transition draw combines the two
   * frames' preferences and leaves "both want it".
   */
  function FrameOutcome(m: Machine, frames: seq<bool>, previous: uint8): DrawOutcome
    requires |frames| < 0x100 && Ok(m, |frames|)
  {
    match m.frameState
    case Fixed => DrawOutcome(NotKnownYet, frames[m.currentFrame])
    case InTransition =>
      var shownNow := frames[m.currentFrame];
      var shownNext := frames[NextFrameNumber(m, |frames|)];
      DrawOutcome(CombinedDrawState(previous, shownNow, shownNext), shownNow && shownNext)
  }

  /** The four cases of the indicator draw state after a transition draw. */
  lemma TransitionOutcomeTable(m: Machine, frames: seq<bool>, previous: uint8)
    requires |frames| < 0x100 && Ok(m, |frames|) && m.frameState == InTransition
    ensures var now, next := frames[m.currentFrame], frames[NextFrameNumber(m, |frames|)];
            var o := FrameOutcome(m, frames, previous);
            (now && !next ==> o.indicatorDrawState == ShownNowOnly) &&
            (!now && next ==> o.indicatorDrawState == ShownNextOnly) &&
            (!now && !next ==> o.indicatorDrawState == HiddenInBoth) &&
            (now && next ==> o.indicatorDrawState == previous) &&
            o.isIndicatorDrawn == (now && next)
  {
  }

  /** Where the outgoing (x, y) and the incoming (x1, y1) frame of a transition are drawn. */
  datatype Offsets = Offsets(x: int16, y: int16, x1: int16, y1: int16)

  /**
   * The offsets of a transition whose outgoing frame has travelled `travel`
   * pixels along the slide axis (the slide's progress times the display's
   * width or height, truncated): the incoming frame follows one screen
   * behind it.
   */
  function SlideOffsets(slide: AnimationDirection, travel: int16): Offsets
  {
    match slide
    case SlideLeft =>
      var x := ToInt16(-(travel as int));
      Offsets(x, 0, ToInt16(x + DisplayWidth), 0)
    case SlideRight =>
      Offsets(travel, 0, ToInt16(travel - DisplayWidth), 0)
    case SlideUp =>
      var y := ToInt16(-(travel as int));
      Offsets(0, y, 0, ToInt16(y + DisplayHeight))
    case SlideDown =>
      Offsets(0, travel, 0, ToInt16(travel - DisplayHeight))
  }

  /** The offsets multiplied by the sign of the transition direction, as int16. */
  function Oriented(o: Offsets, direction: int8): Offsets
  {
    var dir := if direction >= 0 then 1 else -1;
    Offsets(ToInt16(o.x * dir), ToInt16(o.y * dir), ToInt16(o.x1 * dir), ToInt16(o.y1 * dir))
  }

  /** The frame callbacks a draw invokes, in order. */
  function FrameCalls(m: Machine, frameCount: uint8, slide: AnimationDirection, travel: int16): seq<Event>
    requires Ok(m, frameCount)
  {
    match m.frameState
    case Fixed => [Frame(m.currentFrame, 0, 0)]
    case InTransition =>
      var o := Oriented(SlideOffsets(slide, travel), m.direction);
      [Frame(m.currentFrame, o.x, o.y), Frame(NextFrameNumber(m, frameCount), o.x1, o.y1)]
  }

  /**
   * For a travel within the screen, the slide moves along one axis only,
   * the outgoing frame is `travel` pixels from the origin in the slide's
   * sense and the incoming frame exactly one display width (or height)
   * behind it; a negative direction mirrors all four values.
   */
  lemma SlideGeometry(slide: AnimationDirection, travel: int16, direction: int8)
    requires 0 <= travel <= DisplayWidth
    ensures var o := Oriented(SlideOffsets(slide, travel), direction);
            var dir := if direction >= 0 then 1 else -1;
            match slide
            case SlideLeft => o.y == 0 && o.y1 == 0 && o.x == -dir * travel && o.x1 == o.x + dir * DisplayWidth
            case SlideRight => o.y == 0 && o.y1 == 0 && o.x == dir * travel && o.x1 == o.x - dir * DisplayWidth
            case SlideUp => o.x == 0 && o.x1 == 0 && o.y == -dir * travel && o.y1 == o.y + dir * DisplayHeight
            case SlideDown => o.x == 0 && o.x1 == 0 && o.y == dir * travel && o.y1 == o.y - dir * DisplayHeight
  {
    if direction >= 0 {
    } else {
    }
  }

  /**
   * The indicator is not drawn when neither frame of a transition wants it,
   * or, outside a transition, when the frame does not.
   */
  predicate IndicatorHidden(indicatorDrawState: uint8, isIndicatorDrawn: bool, frameState: FrameState)
  {
    indicatorDrawState == HiddenInBoth || (!isIndicatorDrawn && frameState != InTransition)
  }

  /**
   * The slot of the frame to highlight. In reverse order the slot is
   * frameCount - highlight, so frame 0 gets slot frameCount, which no
   * glyph has.
   */
  function HighlightSlot(direction: IndicatorDirection, frameCount: uint8, highlight: uint8): uint8
  {
    match direction
    case LeftRight => highlight
    case RightLeft => ToUint8(frameCount - highlight)
  }

  function FadeOf(indicatorDrawState: uint8): Fade
  {
    if indicatorDrawState == ShownNextOnly then SlideIn
    else if indicatorDrawState == ShownNowOnly then SlideOut
    else Steady
  }

  /**
   * Glyph i of frameCount along the given edge, at rest: a 12-pixel pitch
   * starting 6 * frameCount pixels before the middle of a 128x64 screen,
   * stored in 16-bit unsigned coordinates.
   */
  function GlyphAt(position: IndicatorPosition, frameCount: uint8, i: nat, active: bool, fade: Fade): (r: Event)
    ensures r.Glyph? && r.active == active && r.fade == fade
  {
    var frameStartPos := 12 * frameCount / 2;
    match position
    case Top => Glyph(ToUint16(64 - frameStartPos + 12 * i), 0, active, fade)
    case Bottom => Glyph(ToUint16(64 - frameStartPos + 12 * i), 56, active, fade)
    case Right => Glyph(120, ToUint16(32 - frameStartPos + 2 + 12 * i), active, fade)
    case Left => Glyph(0, ToUint16(32 - frameStartPos + 2 + 12 * i), active, fade)
  }

  /** One glyph per frame, the one in slot `slot` active. */
  function IndicatorRow(position: IndicatorPosition, frameCount: uint8, slot: uint8, fade: Fade): seq<Event>
  {
    seq(frameCount, i requires 0 <= i < frameCount => GlyphAt(position, frameCount, i, i == slot as int, fade))
  }

  /**
   * The glyphs the indicator draw emits: none when hidden, else the row
   * with the slot of the highlighted frame active, the highlighted frame
   * being the next one when the indicator slides in and the current one
   * otherwise.
   */
  function IndicatorEvents(m: Machine, frameCount: uint8, indicatorDrawState: uint8, isIndicatorDrawn: bool,
                           position: IndicatorPosition, direction: IndicatorDirection): seq<Event>
    requires (!IndicatorHidden(indicatorDrawState, isIndicatorDrawn, m.frameState) &&
              indicatorDrawState == ShownNextOnly) ==> HasNext(m, frameCount)
  {
    if IndicatorHidden(indicatorDrawState, isIndicatorDrawn, m.frameState) then []
    else
      var highlight := if indicatorDrawState == ShownNextOnly then NextFrameNumber(m, frameCount) else m.currentFrame;
      IndicatorRow(position, frameCount, HighlightSlot(direction, frameCount, highlight), FadeOf(indicatorDrawState))
  }

  /** The overlay callbacks, each once, in registry order. */
  function OverlayCalls(overlayCount: uint8): seq<Event>
  {
    seq(overlayCount, k requires 0 <= k < overlayCount => Overlay(k))
  }

  /** The slots drawn with the active symbol. */
  function ActiveSlots(row: seq<Event>): set<int>
  {
    set i | 0 <= i < |row| && row[i].Glyph? && row[i].active
  }

  /** A row has one glyph per frame; exactly the given slot is active, if it is a slot at all. */
  lemma RowActiveSlots(position: IndicatorPosition, frameCount: uint8, slot: uint8, fade: Fade)
    ensures |IndicatorRow(position, frameCount, slot, fade)| == frameCount as int
    ensures forall i :: 0 <= i < frameCount ==> IndicatorRow(position, frameCount, slot, fade)[i].Glyph?
    ensures ActiveSlots(IndicatorRow(position, frameCount, slot, fade)) ==
              if slot < frameCount then {slot as int} else {}
  {
    var row := IndicatorRow(position, frameCount, slot, fade);
    forall i | 0 <= i < frameCount
      ensures row[i] == GlyphAt(position, frameCount, i, i == slot as int, fade)
    {
    }
    if slot < frameCount {
      assert row[slot].active;
    }
  }

  /**
   * Which slot lights up for a highlighted frame h: slot h in ascending
   * order; in reverse order slot frameCount - h, and none for frame 0.
   */
  lemma HighlightedSlots(position: IndicatorPosition, direction: IndicatorDirection, frameCount: uint8,
                         highlight: uint8, fade: Fade)
    requires highlight < frameCount
    ensures var active := ActiveSlots(IndicatorRow(position, frameCount, HighlightSlot(direction, frameCount, highlight), fade));
            active == if direction == LeftRight then {highlight as int}
                      else if highlight == 0 then {}
                      else {frameCount - highlight}
  {
    RowActiveSlots(position, frameCount, HighlightSlot(direction, frameCount, highlight), fade);
  }

  /**
   * With at most ten frames the row does not wrap: along a horizontal edge
   * glyph i sits at x = 64 - 6 * frameCount + 12 * i, inside the screen.
   */
  lemma RowFitsScreen(position: IndicatorPosition, frameCount: uint8, i: nat, active: bool, fade: Fade)
    requires frameCount <= 10 && i < frameCount
    requires position == Top || position == Bottom
    ensures GlyphAt(position, frameCount, i, active, fade).x == 64 - 6 * frameCount + 12 * i
    ensures 0 <= GlyphAt(position, frameCount, i, active, fade).x <= 128 - 8
  {
  }
}
