# Section navigator of the landing page

The page script's `scroll()` (js/script.js) turns the page into a stack of
full-height sections. One wheel gesture moves one section up or down. A
column of tracker dots lets the reader jump to any section. Each arrival
plays a reveal timeline for the optional children the section contains.
The navigator is a small guarded state machine:

- it tracks the current section `index`;
- a lock flag `canWheel` ignores requests while a move is in flight;
- a timer releases the lock 2000 ms after each accepted move.

This project models that navigator in three modules.

- `RevealTimeline` (reveal_timeline.dfy) models what `animation(index)` does
  to the timeline: the delay it sets and the label and tween calls it makes
  for the parts a section contains. Durations and delays are in tenths of a
  second. The module proves:
  - a tween is added exactly for each present part;
  - tweens follow the fixed probe order;
  - each tween carries its own anchor, duration and delay;
  - each tween is anchored at the label placed just before it;
  - the labels START, IMAGE and CONTENT are placed whatever is present;
  - the 1 s delay is set exactly for section 0.

  The built list is also the only list with these properties.
- `NavigatorModel` (navigator_model.dfy) models the navigator's state as a
  value. Requests, wheel turns, dot clicks and the timer are events. An
  invariant holds in every reachable state:
  - the index is a section;
  - the timeline is that section's reveal;
  - exactly the current section's dot is active.

  Lemmas bound how far wheel turns can move the index, and show that a
  locked navigator ignores every event except the timer.
- `SectionNavigator` (section_navigator.dfy) models the closure as a
  `Navigator` object. Its fields are the closure's variables, and the
  tracker's `active` flags are an array. Its methods mirror the handlers:
  - `SetIndex`;
  - `Animation`, with its dot-clearing loop;
  - the wheel handler;
  - the dot click, with its sibling-counting loop;
  - the timer callback.

  Each method is proved to change the object exactly as the matching
  event changes the value model, so every property proved there holds of
  the object.

Inputs from the browser are parameters:
- which children each section has;
- whether the tracker exists;
- the window height;
- the wheel's `deltaY`.

## Model

| member | source | states |
|---|---|---|
| RevealTimeline.Rank | js/script.js:196-226 | each optional child has a position in the fixed order in which `animation` probes for it: line, h2, h3, firstpageBg, background/slicedbg, themetitle, rollimg, content, appearlast |
| RevealTimeline.StepFor | js/script.js:196-226 | the tween for a present child animates that child, has a positive duration, and only the line's tween is appended at the end rather than anchored at a label |
| RevealTimeline.BuildTimeline | js/script.js:194-226 | builds the new timeline: delayed by 1 s exactly when the section index is 0, its calls those of the script `SCRIPT` (the probe-and-append chain, one line per `if`/`tl.add`) run by `Perform` over the present children; what those calls are is stated by the `Reveal…` lemmas below |
| RevealTimeline.RevealStepsFollowOrder | js/script.js:196-226 | the tweens `animation` adds are those a walk of the probe order keeps for the present children, in that order |
| RevealTimeline.RevealSteps | js/script.js:196-226 | a tween is added for a child iff the child is present; every tween is the page's tween for its child; tweens appear in strictly increasing probe order (so at most once each); with no child present there are no tweens |
| RevealTimeline.RevealStepsUnique | js/script.js:196-226 | any list of the page's tweens over exactly the present children in probe order equals the one `animation` builds |
| RevealTimeline.RevealLabels | js/script.js:199-221 | whatever is present, the timeline places START, IMAGE and CONTENT, in that order, the first two at the end and CONTENT 0.3 s before it |
| RevealTimeline.RevealAnchorsLatest | js/script.js:196-226 | whatever is present, every tween is anchored at the label placed just before it (h2 to background at START, themetitle and rollimg at IMAGE, content and appearlast at CONTENT), and the line tween, added before any label, goes at the end |
| NavigatorModel.Sign | js/script.js:242 | `Math.sign(deltaY)` is -1, 0 or 1 and has the sign of `deltaY` |
| NavigatorModel.OneHot | js/script.js:230-235 | after clearing every dot and marking dot `i`, the only active dot is `i` |
| NavigatorModel.Request | js/script.js:165-182 | `setIndex` does nothing while the lock is held or when the target is out of range; otherwise it moves to the target, takes the lock, scrolls to `target * innerHeight`, rebuilds the timeline for the target and leaves exactly the target's dot active; it preserves the navigator invariant |
| NavigatorModel.Init | js/script.js:148-163 | after `scroll()` starts, the index is 0, the scroll is at the top, and the invariant holds; the lock is taken (with the 1 s section-0 delay on the timeline) iff there is at least one section |
| NavigatorModel.Apply | js/script.js:240-256 | a wheel event is exactly `setIndex(index + Math.sign(deltaY))` (`Request`): it moves the index by at most one, only in the direction of `deltaY`, and with the lock free and the neighbour a section it moves there, takes the lock, scrolls to it and sets its reveal; a click on dot `d` (with a tracker) is exactly `setIndex(d)`, so with the lock free it moves to `d`, takes the lock, scrolls to it and sets its reveal; without a tracker there are no clicks; the timer frees the lock and changes nothing else; every event preserves the invariant |
| NavigatorModel.RunPreservesInv | js/script.js:165-182 | from a state satisfying the invariant, any sequence of events keeps the index a valid section, the timeline that section's reveal and its dot the only active one |
| NavigatorModel.Reachable | js/script.js:148-260 | every state reachable from the start of `scroll()` satisfies the invariant |
| NavigatorModel.LockedRunFrozen | js/script.js:167-175 | while the lock is held and the timer has not fired, wheel turns and clicks change nothing |
| NavigatorModel.WheelRunDistance | js/script.js:240-243 | without clicks, the index moves by at most one section per release of the lock, plus one if the lock is free at the start |
| NavigatorModel.WheelEdges | js/script.js:240-243 | wheeling up at section 0 or down at the last section leaves the navigator unchanged |
| NavigatorModel.WheelZeroReplays | js/script.js:240-243 | a wheel event with zero delta and the lock free re-requests the current section: the index stays, the lock is taken, the scroll target is the section's top and the timeline is still the section's reveal (a replay of the same reveal cannot be told apart in this model) |
| NavigatorModel.WheelDownFromStart | js/script.js:240-243 | with at least two sections, once the first timer has fired a downward wheel from the start moves to section 1, takes the lock, scrolls one viewport down, sets section 1's reveal without the 1 s delay and leaves dot 1 the only active one |
| NavigatorModel.ActiveDotIsIndex | js/script.js:229-235 | in every state satisfying the invariant with a tracker, a dot is active iff it is the current section's dot |
| NavigatorModel.CurrentTimeline | js/script.js:186-226 | the current timeline reveals exactly the children the current section has, in probe order, with the 1 s delay iff the section is the first |
| SectionNavigator.PreviousSibling | js/script.js:251 | a modelling assumption rather than a proved property: `previousElementSibling` of dot `k` is dot `k - 1` and dot 0 has none, which holds when the tracker holds only the appended dots (see `ClickDot` under "Left out") |
| SectionNavigator.DotPosition | js/script.js:249-253 | counting a dot's previous siblings gives exactly the dot's position |
| SectionNavigator.Navigator.constructor | js/script.js:148-163 | `scroll()` appends one inactive dot per section (none without a tracker) and calls `setIndex(0)`, giving the state `Init` describes |
| SectionNavigator.Navigator.SetIndex | js/script.js:165-182 | the object changes exactly as `Request` describes |
| SectionNavigator.Navigator.Animation | js/script.js:186-237 | the timeline becomes the section's reveal; with a tracker, dot `i` becomes the only active dot; index, lock and scroll target are unchanged |
| SectionNavigator.Navigator.MarkDot | js/script.js:230-235 | clearing every dot and then marking dot `i` leaves exactly dot `i` active |
| SectionNavigator.Navigator.Unlock | js/script.js:175 | the timer callback frees the lock and changes nothing else |
| SectionNavigator.Navigator.Wheel | js/script.js:240-243 | the wheel handler changes the object as a wheel event does in `Apply` and keeps it valid |
| SectionNavigator.Navigator.ClickDot | js/script.js:246-256 | a click on dot `d` changes the object as a click event does in `Apply` and keeps it valid |

## Left out

- The `Parallax` class and its frame loop (js/script.js:1-59): floating-point smoothing of mouse input and DOM transform writes.
- The WebGL scene set up in `window.onload` (js/script.js:68-142): three.js calls only.
- The loader fade and startup delay (js/script.js:62-66): timer and tween plumbing.
- Real time. The 2000 ms timer of js/script.js:175 is an explicit `Cooldown` event, so its length plays no part. `Cooldown` may also arrive when no timer is pending, which only adds behaviours, so the proved properties still hold.
- The tween library's semantics. Not modelled:
  - the scroll tween's duration (`scrollSpeed`) and easing;
  - easing and the from-states (scale, opacity) of the reveal tweens;
  - how labels and negative offsets become times on the timeline;
  - `totalProgress(1).kill()` on the previous timeline (js/script.js:190). The previous timeline is simply replaced.
- SectionNavigator.Navigator.SetIndex: calls `Animation` directly. In the page, `animation` runs later, from the scroll tween's `onStart` callback (js/script.js:177-179). The lock is held until then, so no other request can change `index` in between.
- `e.preventDefault()` (js/script.js:241): a browser side effect with no navigator state.
- NavigatorModel.Sign: takes a real `deltaY`, so `NaN` and `-0` are not modelled.
- The DOM queries. Each section is described by the set of optional children present in it. `.background` and `.slicedbg` form one selector list with one tween, so they are one part, `Backdrop`.
- SectionNavigator.Navigator.ClickDot: assumes the tracker's element children are exactly the appended dots. Pre-existing children of `.tracker` would shift the counted positions, and that is not modelled.
