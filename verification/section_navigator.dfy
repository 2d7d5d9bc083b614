/**
  The navigator as the page runs it: the closure of `scroll()` becomes an
  object whose fields are the closure's variables, and the tracker's dots
  become an array of `active` flags. Each handler is proved to move the
  object exactly as the matching event moves the value model in
  `NavigatorModel`.
*/
module SectionNavigator {
  import opened RevealTimeline
  import opened NavigatorModel

  datatype Option<T> = None | Some(value: T)

  /** The element before tracker dot `k` among the tracker's children. */
  function PreviousSibling(k: nat): (prev: Option<nat>)
    ensures k == 0 <==> prev.None?
    ensures prev.Some? ==> prev.value + 1 == k
  {
    if k == 0 then None else Some(k - 1)
  }

  /** The click handler's count of the dot's preceding siblings: the dot's
      position in the tracker. */
  method DotPosition(dot: nat) returns (position: nat)
    ensures position == dot
  {
    position := 0;
    var node := PreviousSibling(dot);
    while node.Some?
      invariant position <= dot
      invariant node == PreviousSibling(dot - position)
      decreases dot - position
    {
      position := position + 1;
      node := PreviousSibling(node.value);
    }
  }

  class Navigator {
    /** The parts found in each `section` element, in document order. */
    const sections: seq<set<Part>>
    /** `nbPage`: the number of sections. */
    const nbPage: nat
    /** Whether the page has a `.tracker` element. */
    const hasTracker: bool
    /** The `active` flag of each dot appended to the tracker. */
    const tracker: array<bool>

    var index: int
    var canWheel: bool
    /** Where the last scroll tween was sent, in pixels. */
    var scrollTarget: int
    /** The timeline `tl` of the last `animation` call. */
    var timeline: Timeline

    function Page(): Layout
    {
      Layout(sections, hasTracker)
    }

    ghost function Model(): Nav
      reads this, tracker
    {
      Nav(index, canWheel, scrollTarget, timeline, tracker[..])
    }

    /** One dot per section when there is a tracker, none otherwise. */
    ghost predicate Shaped()
    {
      && nbPage == |sections|
      && tracker.Length == (if hasTracker then nbPage else 0)
    }

    ghost predicate Valid()
      reads this, tracker
    {
      Shaped() && Inv(Page(), Model())
    }

    /** `scroll()`: scroll to the top, append one dot per section, then
        request the first section. */
    constructor (sections: seq<set<Part>>, hasTracker: bool, viewport: nat)
      ensures Valid()
      ensures this.sections == sections && this.hasTracker == hasTracker
      ensures Model() == Init(Page(), viewport)
    {
      this.sections := sections;
      this.hasTracker := hasTracker;
      nbPage := |sections|;
      var dots := new bool[if hasTracker then |sections| else 0];
      for i := 0 to dots.Length
        invariant forall k :: 0 <= k < i ==> !dots[k]
      {
        dots[i] := false;
      }
      tracker := dots;
      index := 0;
      canWheel := true;
      scrollTarget := 0;
      timeline := Timeline(0, []);
      new;
      assert tracker[..] == if hasTracker then seq(nbPage, _ => false) else [];
      SetIndex(0, viewport);
    }

    /** `setIndex(newIndex)`: ignored while the lock is held or when
        `newIndex` is not a section; otherwise move there, take the lock,
        scroll and play the section's reveal. */
    method SetIndex(newIndex: int, viewport: nat)
      requires Shaped()
      modifies this, tracker
      ensures Model() == Request(Page(), old(Model()), newIndex, viewport)
    {
      if canWheel {
        if 0 <= newIndex < nbPage {
          index := newIndex;
        } else {
          return;
        }
        canWheel := false;
        scrollTarget := index * viewport;
        Animation(index);
      }
    }

    /** `animation(i)`: replace the timeline by the section's reveal and
        make dot `i` the only active one. */
    method Animation(i: nat)
      requires Shaped() && i < nbPage
      modifies this, tracker
      ensures timeline == BuildTimeline(i, sections[i])
      ensures tracker[..] == if hasTracker then OneHot(nbPage, i) else old(tracker[..])
      ensures index == old(index) && canWheel == old(canWheel) && scrollTarget == old(scrollTarget)
    {
      timeline := BuildTimeline(i, sections[i]);
      if hasTracker {
        MarkDot(i);
      }
    }

    /** The tracker part of `animation(i)`: take `active` off every dot,
        then put it on dot `i`. */
    method MarkDot(i: nat)
      requires i < tracker.Length
      modifies tracker
      ensures tracker[..] == OneHot(tracker.Length, i)
    {
      var k := 0;
      while k < tracker.Length
        invariant 0 <= k <= tracker.Length
        invariant forall j :: 0 <= j < k ==> !tracker[j]
      {
        tracker[k] := false;
        k := k + 1;
      }
      tracker[i] := true;
      assert tracker[..] == OneHot(tracker.Length, i);
    }

    /** The 2000 ms timer started by a successful `setIndex` fires. */
    method Unlock()
      requires Valid()
      modifies this
      ensures Valid()
      ensures Model() == Apply(Page(), old(Model()), Cooldown)
    {
      canWheel := true;
    }

    /** `window.onwheel`: request the neighbouring section in the wheel's direction. */
    method Wheel(deltaY: real, viewport: nat)
      requires Valid()
      modifies this, tracker
      ensures Valid()
      ensures Model() == Apply(Page(), old(Model()), Event.Wheel(deltaY, viewport))
    {
      ghost var before := Model();
      SetIndex(index + Sign(deltaY), viewport);
      assert Model() == Apply(Page(), before, Event.Wheel(deltaY, viewport));
    }

    /** A click on tracker dot `dot`: count its position, then request it. */
    method ClickDot(dot: nat, viewport: nat)
      requires Valid() && hasTracker && dot < tracker.Length
      modifies this, tracker
      ensures Valid()
      ensures Model() == Apply(Page(), old(Model()), DotClick(dot, viewport))
    {
      ghost var before := Model();
      var position := DotPosition(dot);
      SetIndex(position, viewport);
      assert Model() == Apply(Page(), before, DotClick(dot, viewport));
    }
  }
}
