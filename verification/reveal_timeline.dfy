/**
 * The reveal timeline that `animation(index)` builds for one section.
 *
 * The page probes a fixed list of optional children of the section and,
 * for each one that exists, adds a `from` tween to a fresh timeline; three
 * labels (START, IMAGE, CONTENT) are placed between the groups and the
 * tweens are positioned relative to them. The tween engine itself is
 * opaque here: a timeline is the list of calls made on it, and each tween
 * is a record of what it animates, where it is anchored, its duration and
 * its own delay. All times are in tenths of a second.
 */
module RevealTimeline {

  /** The optional children of a section, in the order they are probed.
      Backdrop is an element with class `background` or `slicedbg`: the
      page queries both with one selector list and reveals them in one step. */
  datatype Part = Line | H2 | H3 | FirstPageBg | Backdrop | ThemeTitle | RollImg | Content | AppearLast

  /** The timeline labels the page adds. */
  datatype Label = START | IMAGE | CONTENT

  /** Where a tween is placed: appended at the current end of the timeline,
      or at a label. */
  datatype Anchor = AtEnd | At(mark: Label)

  /** One reveal tween (`tl.from(selector, duration, {..., delay}, anchor)`). */
  datatype Step = Step(part: Part, anchor: Anchor, duration: nat, delay: nat)

  /** A call made on the timeline: placing a label at `offset` from the
      current end, or adding a tween. */
  datatype Call = AddLabel(name: Label, offset: int) | From(step: Step)

  /** A timeline: its own start delay and the calls made on it, in order. */
  datatype Timeline = Timeline(delay: nat, calls: seq<Call>)

  /** One line of `animation(index)` after the delay: probe a part and
      reveal it if present, or place a label. */
  datatype Instr = Reveal(part: Part) | Place(name: Label, offset: int)

  /** `tl.delay(1)` for the first section, in tenths of a second. */
  const SECTION_ZERO_DELAY: nat := 10

  /** `tl.add("CONTENT", "-=0.3")`: CONTENT sits 0.3 s before the end. */
  const CONTENT_OFFSET: int := -3

  /** What `animation(index)` does to the timeline, in source order. */
  const SCRIPT: seq<Instr> := [
    Reveal(Line),
    Place(START, 0),
    Reveal(H2),
    Reveal(H3),
    Reveal(FirstPageBg),
    Reveal(Backdrop),
    Place(IMAGE, 0),
    Reveal(ThemeTitle),
    Reveal(RollImg),
    Place(CONTENT, CONTENT_OFFSET),
    Reveal(Content),
    Reveal(AppearLast)
  ]

  /** The probe order of the optional children. */
  const REVEAL_ORDER: seq<Part> :=
    [Line, H2, H3, FirstPageBg, Backdrop, ThemeTitle, RollImg, Content, AppearLast]

  /** The position of a part in the probe order. */
  function Rank(p: Part): (r: nat)
    ensures r < |REVEAL_ORDER| && REVEAL_ORDER[r] == p
  {
    match p
    case Line => 0
    case H2 => 1
    case H3 => 2
    case FirstPageBg => 3
    case Backdrop => 4
    case ThemeTitle => 5
    case RollImg => 6
    case Content => 7
    case AppearLast => 8
  }

  /** The tween the page adds for a part that is present: anchor, duration
      and delay as written in the page script. */
  function StepFor(p: Part): (st: Step)
    ensures st.part == p
    ensures st.anchor == AtEnd <==> p == Line
    ensures st.duration > 0
  {
    match p
    case Line => Step(Line, AtEnd, 10, 0)
    case H2 => Step(H2, At(START), 10, 0)
    case H3 => Step(H3, At(START), 10, 5)
    case FirstPageBg => Step(FirstPageBg, At(START), 10, 5)
    case Backdrop => Step(Backdrop, At(START), 10, 0)
    case ThemeTitle => Step(ThemeTitle, At(IMAGE), 10, 0)
    case RollImg => Step(RollImg, At(IMAGE), 5, 3)
    case Content => Step(Content, At(CONTENT), 10, 0)
    case AppearLast => Step(AppearLast, At(CONTENT), 10, 3)
  }

  /** The calls one line makes: a tween for a present part, nothing for an
      absent one, a label placement unconditionally. */
  function Emit(ins: Instr, present: set<Part>): seq<Call>
  {
    match ins
    case Reveal(p) => if p in present then [From(StepFor(p))] else []
    case Place(l, offset) => [AddLabel(l, offset)]
  }

  /** The calls made by the lines of the script from line `i` on. */
  function Perform(i: nat, present: set<Part>): seq<Call>
    decreases |SCRIPT| - i, present
  {
    if i >= |SCRIPT| then [] else Emit(SCRIPT[i], present) + Perform(i + 1, present)
  }

  /** The timeline `animation(index)` builds for the section with index
      `index` whose optional children are `present`. */
  function BuildTimeline(index: nat, present: set<Part>): (t: Timeline)
    ensures index == 0 ==> t.delay == SECTION_ZERO_DELAY
    ensures index != 0 ==> t.delay == 0
  {
    Timeline(if index == 0 then SECTION_ZERO_DELAY else 0, Perform(0, present))
  }

  /** The tweens among the calls, in order. */
  function Steps(calls: seq<Call>): seq<Step>
  {
    if calls == [] then []
    else (if calls[0].From? then [calls[0].step] else []) + Steps(calls[1..])
  }

  /** The label placements among the calls, in order. */
  function Marks(calls: seq<Call>): seq<Call>
  {
    if calls == [] then []
    else (if calls[0].AddLabel? then [calls[0]] else []) + Marks(calls[1..])
  }

  /** Where a tween would be anchored by "the label placed last": `latest`
      before the calls (`AtEnd` while no label has been placed), then each
      placed label in turn. */
  function LatestAfter(calls: seq<Call>, latest: Anchor): Anchor
  {
    if calls == [] then latest
    else LatestAfter(calls[1..], if calls[0].AddLabel? then At(calls[0].name) else latest)
  }

  /** Every tween is anchored at the label placed most recently before it,
      and a tween added before any label goes at the end of the timeline
      (`latest` is that anchor before `calls`). */
  predicate Anchored(calls: seq<Call>, latest: Anchor)
  {
    if calls == [] then true
    else match calls[0]
      case AddLabel(l, _) => Anchored(calls[1..], At(l))
      case From(st) => st.anchor == latest && Anchored(calls[1..], latest)
  }

  /** The parts animated by a list of steps. */
  function Parts(steps: seq<Step>): (ps: seq<Part>)
    ensures |ps| == |steps|
    ensures forall i :: 0 <= i < |steps| ==> ps[i] == steps[i].part
  {
    seq(|steps|, i requires 0 <= i < |steps| => steps[i].part)
  }

  /** The parts appear in strictly increasing probe order (so each at most once). */
  predicate StrictlyRanked(ps: seq<Part>)
  {
    forall i, j :: 0 <= i < j < |ps| ==> Rank(ps[i]) < Rank(ps[j])
  }

  /** Every step is the page's tween for the part it animates. */
  predicate Canonical(steps: seq<Step>)
  {
    forall i :: 0 <= i < |steps| ==> steps[i] == StepFor(steps[i].part)
  }

  /** Reference definition: walk an order of parts and keep the tween of
      every part that is present. */
  function Select(order: seq<Part>, present: set<Part>): (r: seq<Step>)
    ensures |r| <= |order|
  {
    if order == [] then []
    else (if order[0] in present then [StepFor(order[0])] else []) + Select(order[1..], present)
  }

  /** The reference definition keeps exactly the parts of the order that
      are present, each with its canonical tween. */
  lemma {:induction false} SelectKeepsPresent(order: seq<Part>, present: set<Part>)
    ensures forall q :: q in Parts(Select(order, present)) <==> q in order && q in present
    ensures Canonical(Select(order, present))
  {
    if order != [] {
      var head := if order[0] in present then [StepFor(order[0])] else [];
      var tail := Select(order[1..], present);
      SelectKeepsPresent(order[1..], present);
      assert Select(order, present) == head + tail;
      assert forall q :: q in order <==> q == order[0] || q in order[1..];
      assert Parts(head) == if order[0] in present then [order[0]] else [];
      assert Parts(head + tail) == Parts(head) + Parts(tail);
    }
  }

  /** With nothing present, nothing is kept. */
  lemma {:induction false} SelectNone(order: seq<Part>)
    ensures Select(order, {}) == []
  {
    if order != [] {
      SelectNone(order[1..]);
    }
  }

  /** Walking a strictly ranked order keeps the tweens strictly ranked. */
  lemma {:induction false} SelectKeepsRank(order: seq<Part>, present: set<Part>)
    requires StrictlyRanked(order)
    ensures StrictlyRanked(Parts(Select(order, present)))
  {
    if order != [] {
      var tail := Select(order[1..], present);
      RankedHead(order);
      SelectKeepsRank(order[1..], present);
      if order[0] in present {
        SelectAbove(order[1..], present, order[0]);
        RankedCons(order[0], Parts(tail));
        PartsCons(StepFor(order[0]), tail);
      } else {
        assert Select(order, present) == tail;
      }
    }
  }

  /** The tweens kept from parts ranked above `h` are ranked above `h`. */
  lemma SelectAbove(order: seq<Part>, present: set<Part>, h: Part)
    requires forall q :: q in order ==> Rank(h) < Rank(q)
    ensures forall k :: 0 <= k < |Select(order, present)| ==> Rank(h) < Rank(Parts(Select(order, present))[k])
  {
    SelectKeepsPresent(order, present);
    var ps := Parts(Select(order, present));
    forall k | 0 <= k < |ps| ensures Rank(h) < Rank(ps[k]) {
      assert ps[k] in ps;
    }
  }

  lemma PartsCons(st: Step, steps: seq<Step>)
    ensures Parts([st] + steps) == [st.part] + Parts(steps)
  {
    assert forall i :: 0 < i < |[st] + steps| ==> ([st] + steps)[i] == steps[i - 1];
  }

  /** A part ranked below every part of a strictly ranked list can go in front. */
  lemma RankedCons(h: Part, ps: seq<Part>)
    requires StrictlyRanked(ps)
    requires forall k :: 0 <= k < |ps| ==> Rank(h) < Rank(ps[k])
    ensures StrictlyRanked([h] + ps)
  {
    forall i, j | 0 <= i < j < |[h] + ps| ensures Rank(([h] + ps)[i]) < Rank(([h] + ps)[j]) {
      assert ([h] + ps)[j] == ps[j - 1];
      if i > 0 {
        assert ([h] + ps)[i] == ps[i - 1];
      }
    }
  }

  /** The probe order is strictly ranked: Rank is the position in it. */
  lemma RevealOrderRanked()
    ensures StrictlyRanked(REVEAL_ORDER)
  {
    forall i | 0 <= i < |REVEAL_ORDER| ensures Rank(REVEAL_ORDER[i]) == i {
      assert REVEAL_ORDER[Rank(REVEAL_ORDER[i])] == REVEAL_ORDER[i];
    }
  }

  /** The parts the script probes from line `i` on, in order. */
  function Revealed(i: nat): seq<Part>
    decreases |SCRIPT| - i
  {
    if i >= |SCRIPT| then []
    else (if SCRIPT[i].Reveal? then [SCRIPT[i].part] else []) + Revealed(i + 1)
  }

  /** The labels the script places from line `i` on, in order. */
  function Placements(i: nat): seq<Call>
    decreases |SCRIPT| - i
  {
    if i >= |SCRIPT| then []
    else (if SCRIPT[i].Place? then [AddLabel(SCRIPT[i].name, SCRIPT[i].offset)] else []) + Placements(i + 1)
  }

  /** From line `i` on, every probed part's tween is anchored at the label
      the script placed last (`latest` is that anchor before line `i`). */
  predicate ScriptAnchored(i: nat, latest: Anchor)
    decreases |SCRIPT| - i
  {
    if i >= |SCRIPT| then true
    else match SCRIPT[i]
      case Place(l, _) => ScriptAnchored(i + 1, At(l))
      case Reveal(p) => StepFor(p).anchor == latest && ScriptAnchored(i + 1, latest)
  }

  lemma {:induction false} StepsConcat(a: seq<Call>, b: seq<Call>)
    ensures Steps(a + b) == Steps(a) + Steps(b)
  {
    if a == [] {
      assert a + b == b;
    } else {
      assert (a + b)[0] == a[0];
      assert (a + b)[1..] == a[1..] + b;
      StepsConcat(a[1..], b);
    }
  }

  lemma {:induction false} MarksConcat(a: seq<Call>, b: seq<Call>)
    ensures Marks(a + b) == Marks(a) + Marks(b)
  {
    if a == [] {
      assert a + b == b;
    } else {
      assert (a + b)[0] == a[0];
      assert (a + b)[1..] == a[1..] + b;
      MarksConcat(a[1..], b);
    }
  }

  lemma {:induction false} AnchoredConcat(a: seq<Call>, b: seq<Call>, latest: Anchor)
    ensures Anchored(a + b, latest) <==> Anchored(a, latest) && Anchored(b, LatestAfter(a, latest))
  {
    if a == [] {
      assert a + b == b;
    } else {
      assert (a + b)[0] == a[0];
      assert (a + b)[1..] == a[1..] + b;
      match a[0]
      case AddLabel(l, _) =>
        AnchoredConcat(a[1..], b, At(l));
      case From(st) =>
        AnchoredConcat(a[1..], b, latest);
    }
  }

  /** The tweens the script adds from line `i` on are those the reference
      definition keeps from the parts it probes. */
  lemma {:induction false} PerformSteps(i: nat, present: set<Part>)
    ensures Steps(Perform(i, present)) == Select(Revealed(i), present)
    decreases |SCRIPT| - i
  {
    if i < |SCRIPT| {
      PerformSteps(i + 1, present);
      StepsConcat(Emit(SCRIPT[i], present), Perform(i + 1, present));
      match SCRIPT[i]
      case Reveal(p) =>
        assert Revealed(i) == [p] + Revealed(i + 1);
        assert ([p] + Revealed(i + 1))[1..] == Revealed(i + 1);
        if p in present {
          assert Emit(SCRIPT[i], present)[1..] == [];
        }
      case Place(l, offset) =>
        assert Emit(SCRIPT[i], present)[1..] == [];
        assert Steps(Emit(SCRIPT[i], present)) == [];
        assert Revealed(i) == Revealed(i + 1);
    }
  }

  /** The labels the script places from line `i` on do not depend on which
      parts are present. */
  lemma {:induction false} PerformMarks(i: nat, present: set<Part>)
    ensures Marks(Perform(i, present)) == Placements(i)
    decreases |SCRIPT| - i
  {
    if i < |SCRIPT| {
      PerformMarks(i + 1, present);
      MarksConcat(Emit(SCRIPT[i], present), Perform(i + 1, present));
      match SCRIPT[i]
      case Reveal(p) =>
        if p in present {
          assert Emit(SCRIPT[i], present)[1..] == [];
        }
      case Place(l, offset) =>
        assert Emit(SCRIPT[i], present)[1..] == [];
    }
  }

  /** An anchoring that holds of the script holds of every timeline it
      builds, whichever parts are present. */
  lemma {:induction false} PerformAnchored(i: nat, present: set<Part>, latest: Anchor)
    requires ScriptAnchored(i, latest)
    ensures Anchored(Perform(i, present), latest)
    decreases |SCRIPT| - i
  {
    if i < |SCRIPT| {
      var ins := SCRIPT[i];
      var e := Emit(ins, present);
      assert Perform(i, present) == e + Perform(i + 1, present);
      AnchoredConcat(e, Perform(i + 1, present), latest);
      if ins.Reveal? {
        PerformAnchored(i + 1, present, latest);
        if ins.part in present {
          assert e[1..] == [];
        }
        assert LatestAfter(e, latest) == latest;
      } else {
        PerformAnchored(i + 1, present, At(ins.name));
        assert e[1..] == [];
        assert LatestAfter(e, latest) == At(ins.name);
      }
    }
  }

  /** The tweens of the built timeline are exactly those the reference
      definition keeps from the probe order. */
  lemma RevealStepsFollowOrder(index: nat, present: set<Part>)
    ensures Steps(BuildTimeline(index, present).calls) == Select(REVEAL_ORDER, present)
  {
    PerformSteps(0, present);
    ScriptProbeOrder();
  }

  /** The script probes the parts in the probe order. */
  lemma ScriptProbeOrder()
    ensures Revealed(0) == REVEAL_ORDER
  {
  }

  /** The reveal steps of a section: one tween for each present part and
      for nothing else, each with the page's anchor, duration and delay, in
      the fixed probe order; none at all when no part is present. */
  lemma RevealSteps(index: nat, present: set<Part>)
    ensures var st := Steps(BuildTimeline(index, present).calls);
      && (forall q :: q in Parts(st) <==> q in present)
      && Canonical(st)
      && StrictlyRanked(Parts(st))
      && (present == {} ==> st == [])
  {
    RevealStepsFollowOrder(index, present);
    SelectKeepsPresent(REVEAL_ORDER, present);
    RevealOrderRanked();
    SelectKeepsRank(REVEAL_ORDER, present);
    forall q ensures q in REVEAL_ORDER {
      assert REVEAL_ORDER[Rank(q)] == q;
    }
    SelectNone(REVEAL_ORDER);
  }

  /** In a strictly ranked list the head has the least rank, does not
      recur, and the tail is strictly ranked too. */
  lemma RankedHead(x: seq<Part>)
    requires StrictlyRanked(x) && x != []
    ensures forall q :: q in x ==> Rank(x[0]) <= Rank(q)
    ensures forall q :: q in x[1..] ==> Rank(x[0]) < Rank(q)
    ensures forall q :: q in x[1..] <==> q in x && q != x[0]
    ensures StrictlyRanked(x[1..])
  {
    forall q | q in x ensures Rank(x[0]) <= Rank(q) {
      var k :| 0 <= k < |x| && x[k] == q;
    }
    forall q ensures q in x[1..] <==> q in x && q != x[0] {
      if q in x[1..] {
        var k :| 0 <= k < |x[1..]| && x[1..][k] == q;
        assert x[k + 1] == q;
        assert Rank(x[0]) < Rank(q);
      }
      if q in x && q != x[0] {
        var k :| 0 <= k < |x| && x[k] == q;
        assert x[1..][k - 1] == q;
      }
    }
    forall i, j | 0 <= i < j < |x[1..]| ensures Rank(x[1..][i]) < Rank(x[1..][j]) {
      assert x[1..][i] == x[i + 1] && x[1..][j] == x[j + 1];
    }
  }

  /** Two strictly ranked lists of the same parts are the same list. */
  lemma {:induction false} RankedPartsUnique(x: seq<Part>, y: seq<Part>)
    requires StrictlyRanked(x) && StrictlyRanked(y)
    requires forall q :: q in x <==> q in y
    ensures x == y
  {
    assert x != [] ==> x[0] in x;
    assert y != [] ==> y[0] in y;
    if x != [] && y != [] {
      RankedHead(x);
      RankedHead(y);
      assert x[0] == y[0] by {
        assert x[0] in y && y[0] in x;
        assert REVEAL_ORDER[Rank(x[0])] == x[0];
        assert REVEAL_ORDER[Rank(y[0])] == y[0];
      }
      RankedPartsUnique(x[1..], y[1..]);
      assert x == [x[0]] + x[1..];
      assert y == [y[0]] + y[1..];
    }
  }

  /** Two canonical step lists in strictly increasing probe order that
      animate the same parts are the same list. */
  lemma RankedUnique(a: seq<Step>, b: seq<Step>)
    requires Canonical(a) && Canonical(b)
    requires StrictlyRanked(Parts(a)) && StrictlyRanked(Parts(b))
    requires forall q :: q in Parts(a) <==> q in Parts(b)
    ensures a == b
  {
    RankedPartsUnique(Parts(a), Parts(b));
    assert |a| == |b|;
    forall i | 0 <= i < |a| ensures a[i] == b[i] {
      assert Parts(a)[i] == Parts(b)[i];
    }
  }

  /** The reveal steps are determined by which parts are present: any
      canonical, probe-ordered step list over exactly the present parts is
      the one the page builds. */
  lemma RevealStepsUnique(index: nat, present: set<Part>, other: seq<Step>)
    requires Canonical(other) && StrictlyRanked(Parts(other))
    requires forall q :: q in Parts(other) <==> q in present
    ensures other == Steps(BuildTimeline(index, present).calls)
  {
    RevealSteps(index, present);
    RankedUnique(other, Steps(BuildTimeline(index, present).calls));
  }

  /** Whatever is present, the timeline places START, IMAGE and CONTENT in
      that order, the first two at its end and CONTENT 0.3 s before it. */
  lemma RevealLabels(index: nat, present: set<Part>)
    ensures Marks(BuildTimeline(index, present).calls)
      == [AddLabel(START, 0), AddLabel(IMAGE, 0), AddLabel(CONTENT, CONTENT_OFFSET)]
  {
    PerformMarks(0, present);
  }

  /** Whatever is present, every tween is anchored at the label placed just
      before it (the line, added before any label, goes at the end), so no
      tween refers to a label that does not exist yet. */
  lemma RevealAnchorsLatest(index: nat, present: set<Part>)
    ensures Anchored(BuildTimeline(index, present).calls, AtEnd)
  {
    ScriptAnchoredFromStart();
    PerformAnchored(0, present, AtEnd);
  }

  /** In the script, each probed part's tween names the label placed last. */
  lemma ScriptAnchoredFromStart()
    ensures ScriptAnchored(0, AtEnd)
  {
  }
}
