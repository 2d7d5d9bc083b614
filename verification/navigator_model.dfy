/**
  The section navigator's state as a value, and the events that change it.

  The page is a fixed list of sections, each described by the animated parts
  it contains, plus whether it has a tracker (the column of dots, one per
  section). The navigator state holds the current section, the wheel lock,
  the last requested scroll position, the current reveal timeline and the
  dots' `active` flags. Real time is not modelled: the 2000 ms timer that
  releases the wheel lock is an explicit `Cooldown` event.
*/
module NavigatorModel {
  import opened RevealTimeline

  /** Math.sign of a wheel delta (NaN and -0 do not arise for a real). */
  function Sign(x: real): (r: int)
    ensures -1 <= r <= 1
    ensures r == 0 <==> x == 0.0
    ensures r == 1 <==> x > 0.0
  {
    if x > 0.0 then 1 else if x < 0.0 then -1 else 0
  }

  /** What the navigator needs to know about the document. */
  datatype Layout = Layout(sections: seq<set<Part>>, hasTracker: bool)

  /** The navigator's state: the closure variables `index` and `canWheel`,
      the target of the last scroll tween, the timeline `tl` and the
      `active` flag of every tracker dot. */
  datatype Nav = Nav(index: int, canWheel: bool, scrollTarget: int, timeline: Timeline, dots: seq<bool>)

  /** Positions of the dots that carry `active`. */
  function ActiveDots(dots: seq<bool>): set<nat>
  {
    set k: nat | k < |dots| && dots[k]
  }

  /** The dots after `animation(i)`: every class removed, then the i-th one marked. */
  function OneHot(n: nat, i: nat): (d: seq<bool>)
    ensures |d| == n
    ensures i < n ==> ActiveDots(d) == {i}
    ensures n <= i ==> ActiveDots(d) == {}
  {
    seq(n, k => k == i)
  }

  /** The state every reachable navigator is in. */
  ghost predicate Inv(page: Layout, s: Nav)
  {
    var nb := |page.sections|;
    && 0 <= s.index
    && (nb == 0 ==> s.index == 0)
    && (nb > 0 ==> s.index < nb && s.timeline == BuildTimeline(s.index, page.sections[s.index]))
    && |s.dots| == (if page.hasTracker then nb else 0)
    && (page.hasTracker && nb > 0 ==> ActiveDots(s.dots) == {s.index})
  }

  /** setIndex(target) with the window `viewport` pixels high. */
  function Request(page: Layout, s: Nav, target: int, viewport: nat): (r: Nav)
    ensures !s.canWheel ==> r == s
    ensures !(0 <= target < |page.sections|) ==> r == s
    ensures s.canWheel && 0 <= target < |page.sections| ==>
              && r.index == target
              && !r.canWheel
              && r.scrollTarget == target * viewport
              && r.timeline == BuildTimeline(target, page.sections[target])
              && |r.dots| == |s.dots|
              && (page.hasTracker && target < |s.dots| ==> ActiveDots(r.dots) == {target})
              && (!page.hasTracker ==> r.dots == s.dots)
    ensures Inv(page, s) ==> Inv(page, r)
  {
    if s.canWheel && 0 <= target < |page.sections| then
      var moved := s.(index := target, canWheel := false, scrollTarget := target * viewport);
      moved.(timeline := BuildTimeline(target, page.sections[target]),
             dots := if page.hasTracker then OneHot(|s.dots|, target) else s.dots)
    else
      s
  }

  /** The state right after `scroll()` has built the tracker and called setIndex(0). */
  function Init(page: Layout, viewport: nat): (r: Nav)
    ensures Inv(page, r)
    ensures r.index == 0 && r.scrollTarget == 0
    ensures |page.sections| == 0 <==> r.canWheel
    ensures |page.sections| > 0 ==> r.timeline.delay == SECTION_ZERO_DELAY
  {
    var nb := |page.sections|;
    var start := Nav(0, true, 0, Timeline(0, []), if page.hasTracker then seq(nb, _ => false) else []);
    assert page.hasTracker && nb == 0 ==> ActiveDots(start.dots) == {};
    Request(page, start, 0, viewport)
  }

  datatype Event =
    | Wheel(deltaY: real, viewport: nat)
    | DotClick(dot: nat, viewport: nat)
    | Cooldown

  /** One event: a wheel turn, a click on tracker dot `dot`, or the timer. */
  function Apply(page: Layout, s: Nav, e: Event): (r: Nav)
    ensures e.Wheel? ==> r == Request(page, s, s.index + Sign(e.deltaY), e.viewport)
    ensures e.Wheel? ==> -1 <= r.index - s.index <= 1
    ensures e.Wheel? && r.index != s.index ==> r.index == s.index + Sign(e.deltaY)
    ensures e.Wheel? && s.canWheel && 0 <= s.index + Sign(e.deltaY) < |page.sections| ==>
              && r.index == s.index + Sign(e.deltaY)
              && !r.canWheel
              && r.scrollTarget == r.index * e.viewport
              && r.timeline == BuildTimeline(r.index, page.sections[r.index])
    ensures e.DotClick? && page.hasTracker ==> r == Request(page, s, e.dot, e.viewport)
    ensures e.DotClick? && page.hasTracker && s.canWheel && e.dot < |page.sections| ==>
              && r.index == e.dot
              && !r.canWheel
              && r.scrollTarget == e.dot * e.viewport
              && r.timeline == BuildTimeline(e.dot, page.sections[e.dot])
    ensures e.DotClick? && !page.hasTracker ==> r == s
    ensures e.Cooldown? ==> r == s.(canWheel := true)
    ensures Inv(page, s) ==> Inv(page, r)
  {
    match e
    case Wheel(d, vp) => Request(page, s, s.index + Sign(d), vp)
    case DotClick(dot, vp) => if page.hasTracker then Request(page, s, dot, vp) else s
    case Cooldown => s.(canWheel := true)
  }

  /** The state after the events `evs`, in order. */
  function Run(page: Layout, s: Nav, evs: seq<Event>): Nav
    decreases |evs|
  {
    if evs == [] then s else Run(page, Apply(page, s, evs[0]), evs[1..])
  }

  function Cooldowns(evs: seq<Event>): nat
  {
    if evs == [] then 0 else (if evs[0].Cooldown? then 1 else 0) + Cooldowns(evs[1..])
  }

  predicate NoClicks(evs: seq<Event>)
  {
    forall i :: 0 <= i < |evs| ==> !evs[i].DotClick?
  }

  /** Whatever happens, the index stays a valid section and the dots
      and timeline follow it. */
  lemma {:induction false} RunPreservesInv(page: Layout, s: Nav, evs: seq<Event>)
    requires Inv(page, s)
    ensures Inv(page, Run(page, s, evs))
    decreases |evs|
  {
    if evs != [] {
      RunPreservesInv(page, Apply(page, s, evs[0]), evs[1..]);
    }
  }

  /** Every reachable state satisfies the invariant. */
  lemma Reachable(page: Layout, viewport: nat, evs: seq<Event>)
    ensures Inv(page, Run(page, Init(page, viewport), evs))
  {
    RunPreservesInv(page, Init(page, viewport), evs);
  }

  /** While the lock is held and the timer has not fired, wheel turns and
      clicks change nothing. */
  lemma {:induction false} LockedRunFrozen(page: Layout, s: Nav, evs: seq<Event>)
    requires !s.canWheel
    requires forall i :: 0 <= i < |evs| ==> !evs[i].Cooldown?
    ensures Run(page, s, evs) == s
    decreases |evs|
  {
    if evs != [] {
      assert !evs[0].Cooldown?;
      LockedRunFrozen(page, Apply(page, s, evs[0]), evs[1..]);
    }
  }

  /** Without clicks, the index moves by at most one section per release of
      the lock (plus one if the lock is free at the start). */
  lemma {:induction false} WheelRunDistance(page: Layout, s: Nav, evs: seq<Event>)
    requires NoClicks(evs)
    ensures var r := Run(page, s, evs);
            -(Cooldowns(evs) + (if s.canWheel then 1 else 0)) <= r.index - s.index
            && r.index - s.index <= Cooldowns(evs) + (if s.canWheel then 1 else 0)
    decreases |evs|
  {
    if evs != [] {
      var t := Apply(page, s, evs[0]);
      assert !evs[0].DotClick?;
      assert NoClicks(evs[1..]) by {
        forall i | 0 <= i < |evs[1..]| ensures !evs[1..][i].DotClick? {
          assert evs[1..][i] == evs[i + 1];
        }
      }
      WheelRunDistance(page, t, evs[1..]);
      if evs[0].Wheel? {
        assert t.index != s.index ==> s.canWheel && !t.canWheel;
      }
    }
  }

  /** Wheeling past the first or last section does nothing. */
  lemma WheelEdges(page: Layout, s: Nav, d: real, viewport: nat)
    requires Inv(page, s)
    ensures s.index == 0 && d < 0.0 ==> Apply(page, s, Wheel(d, viewport)) == s
    ensures s.index == |page.sections| - 1 && d > 0.0 ==> Apply(page, s, Wheel(d, viewport)) == s
  {
  }

  /** A wheel event with zero delta re-requests the current section: it
      keeps the index, takes the lock and scrolls back to the section's top;
      the timeline is again the section's reveal (a replay of the same
      reveal is not distinguishable in this model). */
  lemma WheelZeroReplays(page: Layout, s: Nav, viewport: nat)
    requires Inv(page, s) && s.canWheel && |page.sections| > 0
    ensures var r := Apply(page, s, Wheel(0.0, viewport));
            && r.index == s.index
            && !r.canWheel
            && r.scrollTarget == s.index * viewport
            && r.timeline == BuildTimeline(s.index, page.sections[s.index])
  {
  }

  /** Once the first timer has fired, wheeling down from the start moves to
      section 1: the lock is taken, the window scrolls one viewport down,
      section 1's reveal replaces the timeline without the first-section
      delay, and with a tracker dot 1 is the only active dot. */
  lemma WheelDownFromStart(page: Layout, viewport: nat, d: real)
    requires |page.sections| >= 2 && d > 0.0
    ensures var r := Run(page, Init(page, viewport), [Cooldown, Wheel(d, viewport)]);
            && r.index == 1
            && !r.canWheel
            && r.scrollTarget == viewport
            && r.timeline == BuildTimeline(1, page.sections[1])
            && r.timeline.delay == 0
            && (page.hasTracker ==> ActiveDots(r.dots) == {1})
  {
    var s0 := Init(page, viewport);
    var s1 := Apply(page, s0, Cooldown);
    var s2 := Apply(page, s1, Wheel(d, viewport));
    assert [Cooldown, Wheel(d, viewport)][1..] == [Wheel(d, viewport)];
    assert Run(page, s0, [Cooldown, Wheel(d, viewport)]) == Run(page, s1, [Wheel(d, viewport)]);
    assert Run(page, s1, [Wheel(d, viewport)]) == s2;
  }

  /** In every reachable state with a tracker, exactly one dot is active and
      it is the dot of the current section. */
  lemma ActiveDotIsIndex(page: Layout, s: Nav)
    requires Inv(page, s) && page.hasTracker && |page.sections| > 0
    ensures forall k :: 0 <= k < |s.dots| ==> (s.dots[k] <==> k == s.index)
  {
    forall k | 0 <= k < |s.dots| ensures s.dots[k] <==> k == s.index {
      assert s.dots[k] <==> k in ActiveDots(s.dots);
    }
  }

  /** The timeline of the current section reveals exactly the parts the
      section contains, in probe order, waiting one second on section 0. */
  lemma CurrentTimeline(page: Layout, s: Nav)
    requires Inv(page, s) && |page.sections| > 0
    ensures forall p :: p in Parts(Steps(s.timeline.calls)) <==> p in page.sections[s.index]
    ensures StrictlyRanked(Parts(Steps(s.timeline.calls)))
    ensures s.timeline.delay == (if s.index == 0 then SECTION_ZERO_DELAY else 0)
  {
    RevealSteps(s.index, page.sections[s.index]);
  }
}
