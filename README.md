# OLED display UI scheduler

A model of the frame and transition scheduler `OLEDDisplayUi` of the squix78
OLED library. The scheduler shows a carousel of frames, each drawn by a user
callback. It either keeps one frame fixed on the screen or slides from one
frame to the next. Transitions start automatically after a frame period, or
manually by stepping forwards or backwards or by jumping to a frame. A page
indicator shows which frame is current, and overlays are drawn on top. The
application calls `update()` in its loop. `update()` rations ticks to one per
update interval, and on a late call it skips the tick counter ahead.

The project has five modules:

- `CInts` (`c_ints.dfy`): the fixed-width integer types of the fields and the
  value a C assignment keeps. Unsigned values reduce modulo 2^n; the signed
  `int8`/`int16` use two's complement. It also defines C's `%` for a positive
  divisor.
- `Transitions` (`transitions.dfy`): the state machine of `tick()` as the pure
  step `TickStep`, acting on a `Machine`. A `Machine` holds the fields the step
  reads and writes. `NextFrameNumber` is the rule of `getNextFrameNumber`.
  Lemmas about `Run` (n ticks) follow a transition to its commit, and follow a
  manual direction until it is undone. With automatic play they show one
  neighbour step per frame period.
- `Drawing` (`drawing.dfy`): what a tick draws, as a log of `Event`s. The
  events are the clear, the frame callbacks with their int16 offsets, the
  indicator glyphs with their rest positions and which one is active, the
  overlay callbacks, and the flush. The module also gives the indicator code
  that two frames' indicator preferences combine into.
- `Governor` (`governor.dfy`): the arithmetic of `update()`. It defines the
  time budget narrowed to `int8_t` and the catch-up.
- `DisplayUi` (`display_ui.dfy`): the class `OledDisplayUi`. Its fields are
  those of the C++ class and of its state record `OLEDDisplayUiState`, at their
  declared widths. Every method updates them as the source does. `Tick` is
  proved to compute `TickStep` on the `Core()` view of its fields. It is also
  proved to emit exactly `Rendered(travel)`, which is built from the `Drawing`
  functions.

Frame callbacks are modelled by `frames: seq<bool>`: the indicator preference
each callback leaves in the state's indicator flag. Overlay callbacks are
modelled by their count. `millis()` becomes the parameters `now` (read at the
start of `update()`) and `finish` (read for its return value).

The model keeps the code's literal behaviour in these places:

- The catch-up is `(-timeBudget) / updateInterval` on integers. It rounds down;
  the `ceil` around it acts on an integer, so it has no effect.
- The time budget is stored in an `int8_t`. A gap of 200 ms at a 33 ms
  interval wraps to +89, and no tick fires (`Governor.NarrowedBudgetSkipsTick`).
- `switchToFrame` and `transitionToFrame` reset the tick counter even when the
  target is the current frame.
- `transitionToFrame` has no guard against a transition in progress. It saves
  the current, possibly manual, direction as the one to restore.
- `resetState` keeps the pending next-frame override, the manual flag and both
  directions. `setOverlays` does not reset anything.
- With `RIGHT_LEFT` the highlighted slot is `frameCount - frame`: no glyph is lit
  for frame 0, and frame f > 0 lights slot `frameCount - f`.
- A `transitionToFrame` override that is still pending when `setFrames`
  installs fewer frames can point past the last frame. `SetFrames` states
  exactly when the scheduler is then still `Drawable()`. `Update`, `Tick`,
  `AdvanceState` and `DrawFrame` require `Drawable()`. The source indexes past
  its frame array with such an override only once a transition starts, but the
  model also refuses the fixed-frame ticks before that (see "Left out").

## Model

| member | source | states |
|---|---|---|
| CInts.ToUint8 | lib/squix78_OLED/OLEDDisplayUi.h:620 | storing a wider value into a `uint8_t` (the highlighted frame, and the override or remainder returned by `getNextFrameNumber` at 676-677) keeps a value congruent to it modulo 256 |
| CInts.ToUint16 | lib/squix78_OLED/OLEDDisplayUi.h:479 | the `uint16_t` tick counter after `++` (479) or the catch-up `+=` (469) is congruent to the unbounded sum modulo 2^16 |
| CInts.ToUint64 | lib/squix78_OLED/OLEDDisplayUi.h:471 | storing the `long` start time into the `uint64_t` timestamp keeps a value congruent to it modulo 2^64 |
| CInts.ToInt8 | lib/squix78_OLED/OLEDDisplayUi.h:466 | storing a wider value into an `int8_t` keeps a value congruent to it modulo 256 |
| CInts.ToInt16 | lib/squix78_OLED/OLEDDisplayUi.h:555-556 | storing into an `int16_t` keeps a value congruent modulo 2^16, and keeps it unchanged when it is in range |
| CInts.ToLong | lib/squix78_OLED/OLEDDisplayUi.h:465 | the `long` holding a 32-bit millis reading is a signed 32-bit value congruent to it modulo 2^32 |
| CInts.CRem | lib/squix78_OLED/OLEDDisplayUi.h:677 | C's `%` by a positive divisor: Dafny's `%` for a non-negative dividend, otherwise a non-positive remainder above the negated divisor; in both cases the dividend is the divisor times C's truncated quotient plus the remainder |
| CInts.Int8RoundTrip | lib/squix78_OLED/OLEDDisplayUi.h:450 | a frame index other than 255 stored into the `int8_t` override is not the sentinel -1 and reads back as the same index |
| CInts.Int8OfCongruent | lib/squix78_OLED/OLEDDisplayUi.h:466 | the narrowed budget depends only on the wide value modulo 256, so the widths of the intermediate arithmetic do not matter |
| Transitions.NextFrameNumber | lib/squix78_OLED/OLEDDisplayUi.h:675-678 | a pending override is returned as is; otherwise, for a current frame in range and a unit direction, the result is `(current + count + direction) % count`; under `Ok` it is below the frame count |
| Transitions.NeighbourFrames | lib/squix78_OLED/OLEDDisplayUi.h:675-678 | without an override the next frame is the following one going forwards (the last wrapping to 0) and the preceding one going backwards (0 wrapping to the last) |
| CInts.WrapStep | lib/squix78_OLED/OLEDDisplayUi.h:677 | the remainder of `current + count + direction` for a unit direction is the neighbour, wrapping at both ends |
| Transitions.TickStep | lib/squix78_OLED/OLEDDisplayUi.h:479-503 | one tick keeps `Ok`: frames exist, and the current frame and any override name one of them |
| Transitions.TickStepEffects | lib/squix78_OLED/OLEDDisplayUi.h:479-503 | a change of frame state resets the counter; only automatic play starts a transition from a fixed frame; the current frame changes only at a commit, to the next frame; the direction changes only on a fixed tick with the manual flag set, back to the saved direction; a tick never sets the manual flag or touches the saved direction |
| Transitions.TransitionCounts | lib/squix78_OLED/OLEDDisplayUi.h:479-489 | a transition tick that does not reach the transition length only increments the counter |
| Transitions.FixedCounts | lib/squix78_OLED/OLEDDisplayUi.h:479-502 | a fixed tick without the manual flag that does not reach the frame length only increments the counter |
| Transitions.Run | lib/squix78_OLED/OLEDDisplayUi.h:478-503 | any number of ticks keeps `Ok` |
| Transitions.TransitionInProgress | lib/squix78_OLED/OLEDDisplayUi.h:482-489 | a transition started with counter 0 only counts for its first `max(ticksPerTransition, 1) - 1` ticks |
| Transitions.TransitionLastTick | lib/squix78_OLED/OLEDDisplayUi.h:482-489 | the tick that reaches the transition length commits to the next frame, as a fixed frame with counter 0 and no override |
| Transitions.TransitionCommits | lib/squix78_OLED/OLEDDisplayUi.h:482-489 | a transition changes nothing but the counter before `max(ticksPerTransition, 1)` ticks, and has committed exactly at that tick |
| Transitions.TransitionCommitsAt | lib/squix78_OLED/OLEDDisplayUi.h:482-489 | after exactly `max(ticksPerTransition, 1)` ticks the transition has committed to the next frame |
| Transitions.TransitionToFrameArrives | lib/squix78_OLED/OLEDDisplayUi.h:446-455 | after a transition to frame f, the current frame stays put while the transition runs; after exactly `max(ticksPerTransition, 1)` ticks it is f, fixed, with counter 0 and no override |
| Transitions.ManualDirectionRestored | lib/squix78_OLED/OLEDDisplayUi.h:490-495 | a manual direction lasts the whole transition, and the first fixed tick after the commit restores the saved direction and clears the manual flag |
| Transitions.DirectionSettled | lib/squix78_OLED/OLEDDisplayUi.h:490-495 | without the manual flag, no number of ticks changes the direction or sets the flag |
| Transitions.StaysFixed | lib/squix78_OLED/OLEDDisplayUi.h:496-501 | with automatic play off, a fixed frame stays fixed on the same frame for any number of ticks |
| Transitions.FixedInProgress | lib/squix78_OLED/OLEDDisplayUi.h:490-502 | a fixed frame only counts for its first `max(ticksPerFrame, 1) - 1` ticks |
| Transitions.FixedLastTick | lib/squix78_OLED/OLEDDisplayUi.h:496-501 | the tick that reaches the frame length resets the counter to 0 whether or not automatic play is on, and starts a transition exactly when it is |
| Transitions.AutoStartsTransition | lib/squix78_OLED/OLEDDisplayUi.h:496-501 | with automatic play, a fixed frame starts its transition after exactly `max(ticksPerFrame, 1)` ticks |
| Transitions.AutoAdvance | lib/squix78_OLED/OLEDDisplayUi.h:478-503 | with automatic play, a frame period and then a transition take a fixed frame to the next frame (the neighbour in the play direction, or the override): fixed, counter 0, no override, all else unchanged |
| Drawing.TransitionOutcomeTable | lib/squix78_OLED/OLEDDisplayUi.h:561-583 | after a transition draw, the indicator code is 2 (shown now only), 1 (shown next only), 3 (neither) or the previous code (both), and the indicator flag is "both frames want it" |
| Drawing.SlideGeometry | lib/squix78_OLED/OLEDDisplayUi.h:524-556 | a slide moves the frames along one axis only: the outgoing frame is `travel` pixels from the origin in the slide's sense, and the incoming frame is one display width or height behind it; a negative direction mirrors all four offsets |
| Drawing.GlyphAt | lib/squix78_OLED/OLEDDisplayUi.h:635-657 | each placed glyph is a glyph event carrying the given active flag and fade |
| Drawing.RowActiveSlots | lib/squix78_OLED/OLEDDisplayUi.h:635-666 | the indicator row has one glyph per frame, and exactly the highlighted slot is active, or none when that slot is at or past the frame count |
| Drawing.HighlightedSlots | lib/squix78_OLED/OLEDDisplayUi.h:611-663 | with `LEFT_RIGHT` frame h lights slot h; with `RIGHT_LEFT` it lights slot `count - h`, and frame 0 lights none |
| Drawing.RowFitsScreen | lib/squix78_OLED/OLEDDisplayUi.h:635-648 | with up to ten frames a horizontal row does not wrap: glyph i is at x = 64 - 6*count + 12*i, inside the 128-pixel width |
| Governor.CatchUp | lib/squix78_OLED/OLEDDisplayUi.h:469 | the ticks skipped are the whole update intervals in the overrun, rounded down, and at most 128 |
| Governor.FiresWhenDue | lib/squix78_OLED/OLEDDisplayUi.h:465-472 | with an interval below 128 ms and a gap at most 128 ms past it, the budget is the interval minus the gap, a tick fires iff the gap has reached the interval, and the catch-up is the number of whole further intervals in the gap |
| Governor.CatchUpExample | lib/squix78_OLED/OLEDDisplayUi.h:465-472 | interval 33 ms and a gap of 100 ms give budget -67 and 2 skipped ticks, before the tick's own +1 |
| Governor.NarrowedBudgetSkipsTick | lib/squix78_OLED/OLEDDisplayUi.h:466-467 | interval 33 ms and a gap of 200 ms give budget +89 after narrowing, so no tick fires |
| DisplayUi.OledDisplayUi.constructor | lib/squix78_OLED/OLEDDisplayUi.h:69-148 | the field defaults: bottom left-to-right indicator, slide right, 151 ticks per frame, 15 per transition, automatic play, 33 ms interval, indicator code 1, no frames, no overlays, no override, fixed frame 0 |
| DisplayUi.OledDisplayUi.ConfigureTiming | lib/squix78_OLED/OLEDDisplayUi.h:309-317 | sets the update interval and both tick lengths, and nothing else |
| DisplayUi.OledDisplayUi.SetTimePerFrame | lib/squix78_OLED/OLEDDisplayUi.h:335-337 | the frame length becomes the duration divided by the update interval, rounded down; nothing else changes |
| DisplayUi.OledDisplayUi.SetTimePerTransition | lib/squix78_OLED/OLEDDisplayUi.h:338-340 | the transition length becomes the duration divided by the update interval, rounded down; nothing else changes |
| DisplayUi.OledDisplayUi.EnableAutoTransition | lib/squix78_OLED/OLEDDisplayUi.h:321-323 | sets automatic play, and nothing else |
| DisplayUi.OledDisplayUi.DisableAutoTransition | lib/squix78_OLED/OLEDDisplayUi.h:324-326 | clears automatic play, and nothing else |
| DisplayUi.OledDisplayUi.SetAutoTransitionForwards | lib/squix78_OLED/OLEDDisplayUi.h:327-330 | the live and the saved direction both become +1; nothing else changes |
| DisplayUi.OledDisplayUi.SetAutoTransitionBackwards | lib/squix78_OLED/OLEDDisplayUi.h:331-334 | the live and the saved direction both become -1; nothing else changes |
| DisplayUi.OledDisplayUi.EnableIndicator | lib/squix78_OLED/OLEDDisplayUi.h:343-345 | sets the state's indicator flag, and nothing else |
| DisplayUi.OledDisplayUi.DisableIndicator | lib/squix78_OLED/OLEDDisplayUi.h:347-349 | clears the state's indicator flag, and nothing else |
| DisplayUi.OledDisplayUi.EnableAllIndicators | lib/squix78_OLED/OLEDDisplayUi.h:351-353 | turns the indicator on globally, and nothing else |
| DisplayUi.OledDisplayUi.DisableAllIndicators | lib/squix78_OLED/OLEDDisplayUi.h:355-357 | turns the indicator off globally, and nothing else |
| DisplayUi.OledDisplayUi.SetIndicatorPosition | lib/squix78_OLED/OLEDDisplayUi.h:359-361 | sets the indicator edge, and nothing else |
| DisplayUi.OledDisplayUi.SetIndicatorDirection | lib/squix78_OLED/OLEDDisplayUi.h:362-364 | sets the indicator order, and nothing else |
| DisplayUi.OledDisplayUi.SetFrameAnimation | lib/squix78_OLED/OLEDDisplayUi.h:374-376 | sets the slide direction, and nothing else |
| DisplayUi.OledDisplayUi.SetFrames | lib/squix78_OLED/OLEDDisplayUi.h:377-381 | installs the frames and their count and resets the state; the override, the manual flag and the directions survive; the scheduler can tick iff there are frames and the override, if any, is one of them |
| DisplayUi.OledDisplayUi.SetOverlays | lib/squix78_OLED/OLEDDisplayUi.h:384-387 | installs the overlay count; the state is not reset |
| DisplayUi.OledDisplayUi.ResetState | lib/squix78_OLED/OLEDDisplayUi.h:514-520 | fixed frame 0, counter and timestamp 0, indicator flag set; the override, manual flag and directions are kept |
| DisplayUi.OledDisplayUi.NextFrame | lib/squix78_OLED/OLEDDisplayUi.h:418-426 | during a transition nothing changes; otherwise a manual transition starts with counter 0, the old direction saved and the direction +1 |
| DisplayUi.OledDisplayUi.PreviousFrame | lib/squix78_OLED/OLEDDisplayUi.h:427-435 | during a transition nothing changes; otherwise a manual transition starts with counter 0, the old direction saved and the direction -1 |
| DisplayUi.OledDisplayUi.SwitchToFrame | lib/squix78_OLED/OLEDDisplayUi.h:437-444 | an index past the frames changes nothing; the current frame only resets the counter; any other frame becomes current and fixed with counter 0 and the indicator flag set |
| DisplayUi.OledDisplayUi.TransitionToFrame | lib/squix78_OLED/OLEDDisplayUi.h:446-455 | an index past the frames changes nothing; the current frame only resets the counter; otherwise, in any frame state, the override becomes f, the old direction is saved, and the direction is -1 iff f is below the current frame; the manual flag is set and a transition starts with counter 0 |
| DisplayUi.OledDisplayUi.Update | lib/squix78_OLED/OLEDDisplayUi.h:464-475 | with a positive 8-bit budget nothing changes and nothing is drawn; otherwise the counter gets the catch-up (with automatic play and a recorded time), the start time is recorded, and one tick runs; the result is the 8-bit budget left at the finishing clock read |
| DisplayUi.OledDisplayUi.Tick | lib/squix78_OLED/OLEDDisplayUi.h:478-512 | the state machine takes exactly one `TickStep` and keeps the scheduler drawable; the indicator bookkeeping is the `FrameOutcome` of the new state; the calls are clear, frames, indicator (if enabled), overlays and flush, as `Rendered` |
| DisplayUi.OledDisplayUi.AdvanceState | lib/squix78_OLED/OLEDDisplayUi.h:479-503 | the state-machine half of a tick is exactly `TickStep` on the fields, and changes no setting |
| DisplayUi.OledDisplayUi.DrawFrame | lib/squix78_OLED/OLEDDisplayUi.h:522-595 | the calls are `FrameCalls`: the current frame at (0, 0) when fixed; in a transition, the current and then the next frame at their slide offsets. The indicator code and flag are `FrameOutcome`: code 0 and the frame's preference when fixed, otherwise the combination in `Drawing.TransitionOutcomeTable`. Nothing else changes |
| DisplayUi.OledDisplayUi.InvokeFrame | lib/squix78_OLED/OLEDDisplayUi.h:562-567 | a frame callback at an offset is logged with that offset and leaves the frame's indicator preference in the state's flag; nothing else changes |
| DisplayUi.OledDisplayUi.TransitionOffsets | lib/squix78_OLED/OLEDDisplayUi.h:525-556 | the four int16 offsets are those of `SlideOffsets`, multiplied by the sign of the direction |
| DisplayUi.OledDisplayUi.DrawIndicator | lib/squix78_OLED/OLEDDisplayUi.h:597-667 | no glyph when the code is 3, or when the flag is clear outside a transition; otherwise one glyph per frame, with slot i active iff i is the highlighted frame's slot (the next frame for code 1, else the current one) |
| DisplayUi.OledDisplayUi.DrawOverlays | lib/squix78_OLED/OLEDDisplayUi.h:669-673 | every overlay is called once, in index order |

## Left out

- `millis()` is not modelled: `Update` takes the two clock readings as the parameters `now` and `finish`.
- Display hardware (`init`, `clear`, `display`, `drawFastImage`, the display size) is not modelled. Those calls are logged as events, and the display is taken as 128x64, the size the indicator layout assumes.
- The glyph bitmaps and `setActiveSymbol`/`setInactiveSymbol` are left out. A glyph records only whether it is the active one.
- `runLoadingProcess`, `setLoadingDrawFunction` and the default loading-screen lambda are left out. They are delays, yields, text and progress-bar drawing, and user callbacks.
- ConfigureTiming: stands in for `setTargetFPS`. The float computation of the new interval, and the rescaling of both tick lengths, is left to the caller, which passes the results. It requires a positive interval, which `update()` needs to divide by.
- The float slide progress is left out. `DrawFrame`, `Tick` and `Update` take `travel`: the slide progress times the display width or height, truncated to `int16_t`. That parameter is where the float geometry enters.
- The indicator fade offset is left out. Glyphs carry their rest position and whether they slide in or out, but not the float pixel shift of the fade.
- Frame and overlay callbacks may do anything to the state record they receive. The model captures only each frame's fixed indicator preference and the order of the calls.
- The `userData` pointer and `getUiState` (which returns the state's address) have no behaviour to model.
- Tick: requires `Drawable()`. With no frames the source divides by zero. With an override past the last frame it indexes past the frame array once a transition is in progress. The precondition also refuses a fixed frame with such a stale override, which the source ticks safely until a transition starts (or until `transitionToFrame` replaces the override).
- Update: requires `Drawable()` when the budget is spent, for the same reason as `Tick`. It therefore also refuses a tick on a fixed frame with a stale override, which the source performs safely.
- AdvanceState: requires `Drawable()`. A fixed-frame step never reads the override, so the source also steps safely when a stale override points past the frames; the model does not cover that state.
- DrawFrame: requires `Drawable()`. A fixed draw never reads the override, so the source also draws safely when a stale override points past the frames; the model does not cover that state.
- `update()` stores the `uint32_t`-to-`long` clock reading into the `uint64_t` timestamp. It is modelled as the two's-complement conversions it performs.
- `nordic/dfu/bootloader_secure/public_key.c` is a generated key constant with no logic, and is not part of this model.
