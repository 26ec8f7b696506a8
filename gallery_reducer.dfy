/**
 The carousel's layout and navigation state machine: the record the gallery
 keeps, the three actions it understands, and the pure transition between
 them. Widths are exact reals (an idealisation of JavaScript numbers); the
 gallery position and the number of whole tiles shown are integers.
 */
module GalleryReducer {

  datatype Option<T> = None | Some(value: T)

  /** The record the gallery keeps between transitions. */
  datatype State = State(
    galleryPosition: int,       // index of the first tile in view
    galleryWidth: real,         // last measured width of the track's container
    useableWidth: real,         // width between the two fade zones
    elementsShown: int,         // whole tiles that fit in the useable width
    excessSpace: real,          // useable width left over by the tiles alone
    paddingComponentWidth: real // width of each spacer between two tiles
  )

  /** The state before any width has been measured. The spacer width starts at 1000, not 0. */
  const InitialState := State(0, 0.0, 0.0, 0, 0.0, 1000.0)

  /**
   The actions the reducer handles. A boundary callback is an effect; the
   model records only whether the caller supplied one.
   */
  datatype Action =
    | MovePrev(hasOnReachStart: bool)
    | MoveNext(elementCount: int, hasOnReachEnd: bool)
    | SetGalleryWidth(galleryWidth: real, fadeDistance: real, elementWidth: real, minPadding: real)

  /** One invocation of a boundary callback, with the state it is called with. */
  datatype Notice = ReachStart(state: State) | ReachEnd(state: State)

  /** What one dispatch produces: the next state and the callback it invoked, if any. */
  datatype Step = Step(next: State, notice: Option<Notice>)

  /** An action whose arithmetic stays finite: the tile pitch used as a divisor is not zero. */
  predicate WellFormed(a: Action) {
    a.SetGalleryWidth? ==> a.elementWidth + a.minPadding != 0.0
  }

  /** Number of whole tiles of pitch elementWidth + minPadding that fit in useableWidth (Math.floor, never clamped). */
  function ElementsShown(useableWidth: real, elementWidth: real, minPadding: real): (n: int)
    requires elementWidth + minPadding != 0.0
    ensures elementWidth + minPadding > 0.0 ==>
      (n as real) * (elementWidth + minPadding) <= useableWidth < (n as real + 1.0) * (elementWidth + minPadding)
    ensures elementWidth + minPadding > 0.0 ==> (n < 0 <==> useableWidth < 0.0)
    ensures elementWidth + minPadding < 0.0 ==>
      (n as real + 1.0) * (elementWidth + minPadding) < useableWidth <= (n as real) * (elementWidth + minPadding)
  {
    FloorOfQuotient(useableWidth, elementWidth + minPadding);
    (useableWidth / (elementWidth + minPadding)).Floor
  }

  /** Math.floor(u / d) brackets u between consecutive multiples of a positive d. */
  lemma FloorOfQuotient(u: real, d: real)
    requires d != 0.0
    ensures var n := (u / d).Floor;
      && (d > 0.0 ==> (n as real) * d <= u < (n as real + 1.0) * d && (n < 0 <==> u < 0.0))
      && (d < 0.0 ==> (n as real + 1.0) * d < u <= (n as real) * d)
  {
    var n := (u / d).Floor;
    if d > 0.0 {
      ScaleBracket(u, d, n as real);
      SignOfQuotient(u, d);
    } else {
      ScaleBracketNegative(u, d, n as real);
    }
  }

  /** The same bracket for a negative d, where scaling reverses the order. */
  lemma ScaleBracketNegative(u: real, d: real, f: real)
    requires d < 0.0 && f <= u / d < f + 1.0
    ensures (f + 1.0) * d < u <= f * d
  {
    var q := u / d;
    var e := q - f;
    assert q * d == u;
    assert 1.0 * d < e * d <= 0.0;
    assert e * d == q * d - f * d;
    assert u - f * d == e * d;
    assert (f + 1.0) * d == f * d + d;
  }

  /** A real f with f <= u / d < f + 1, for a positive d, brackets u between f * d and (f + 1) * d. */
  lemma ScaleBracket(u: real, d: real, f: real)
    requires d > 0.0 && f <= u / d < f + 1.0
    ensures f * d <= u < (f + 1.0) * d
  {
    var q := u / d;
    var e := q - f;
    assert q * d == u;
    assert 0.0 <= e * d < 1.0 * d;
    assert e * d == q * d - f * d;
    assert u - f * d == e * d;
    assert (f + 1.0) * d == f * d + d;
  }

  /** Dividing by a positive d keeps the sign. */
  lemma SignOfQuotient(u: real, d: real)
    requires d > 0.0
    ensures u / d < 0.0 <==> u < 0.0
  {
  }

  /** Width of each spacer: the excess space shared by the gaps between elementsShown tiles, 0 with fewer than two. */
  function TotalComponentPadding(excessSpace: real, elementsShown: int): (pad: real)
    ensures elementsShown < 2 ==> pad == 0.0
    ensures elementsShown >= 2 ==> pad * ((elementsShown - 1) as real) == excessSpace
  {
    if elementsShown < 2 then 0.0 else excessSpace / ((elementsShown - 1) as real)
  }

  /** The transition function of the gallery. */
  function Reducer(s: State, a: Action): (r: Step)
    requires WellFormed(a)
    // a callback only ever sees the state, which is then returned unchanged
    ensures r.notice.Some? ==> r.next == s && r.notice.value.state == s
    // navigation moves the position by at most one and touches nothing else
    ensures !a.SetGalleryWidth? ==>
      r.next == s.(galleryPosition := r.next.galleryPosition) &&
      s.galleryPosition - 1 <= r.next.galleryPosition <= s.galleryPosition + 1
    // a width change never notifies and never moves the window
    ensures a.SetGalleryWidth? ==>
      r.notice == None && r.next.galleryPosition == s.galleryPosition && r.next.galleryWidth == a.galleryWidth
  {
    match a
    case MovePrev(hasOnReachStart) =>
      if s.galleryPosition > 0 then
        Step(s.(galleryPosition := s.galleryPosition - 1), None)
      else
        Step(s, if hasOnReachStart then Some(ReachStart(s)) else None)
    case MoveNext(elementCount, hasOnReachEnd) =>
      if s.galleryPosition < elementCount - s.elementsShown then
        Step(s.(galleryPosition := s.galleryPosition + 1), None)
      else
        Step(s, if hasOnReachEnd then Some(ReachEnd(s)) else None)
    case SetGalleryWidth(galleryWidth, fadeDistance, elementWidth, minPadding) =>
      // the useable width comes from the width stored by the previous dispatch
      var useableWidth := s.galleryWidth - 2.0 * fadeDistance;
      var elementsShown := ElementsShown(useableWidth, elementWidth, minPadding);
      var excessSpace := useableWidth - elementWidth * (elementsShown as real);
      Step(s.(galleryWidth := galleryWidth,
              useableWidth := useableWidth,
              elementsShown := elementsShown,
              excessSpace := excessSpace,
              paddingComponentWidth := TotalComponentPadding(excessSpace, elementsShown)),
           None)
  }

  /** The state after dispatching the actions in order. */
  function Run(s: State, actions: seq<Action>): State
    requires forall i :: 0 <= i < |actions| ==> WellFormed(actions[i])
    decreases |actions|
  {
    if actions == [] then s else Run(Reducer(s, actions[0]).next, actions[1..])
  }

  /** The range the navigation guards keep the position in, for a fixed tile count. */
  predicate InRange(s: State, elementCount: int) {
    0 <= s.galleryPosition <= if elementCount - s.elementsShown > 0 then elementCount - s.elementsShown else 0
  }

  /** The navigation actions the gallery's arrows dispatch for a list of elementCount tiles. */
  predicate IsNavigation(a: Action, elementCount: int)
    ensures IsNavigation(a, elementCount) ==> WellFormed(a)
  {
    a.MovePrev? || (a.MoveNext? && a.elementCount == elementCount)
  }

  // ---------------------------------------------------------------------------
  // movePrev and moveNext

  lemma MovePrevSpec(s: State, hasOnReachStart: bool)
    ensures var r := Reducer(s, MovePrev(hasOnReachStart));
      && (s.galleryPosition > 0 ==> r.next == s.(galleryPosition := s.galleryPosition - 1) && r.notice == None)
      && (s.galleryPosition <= 0 ==> r.next == s && r.notice == (if hasOnReachStart then Some(ReachStart(s)) else None))
  {
  }

  lemma MoveNextSpec(s: State, elementCount: int, hasOnReachEnd: bool)
    ensures var r := Reducer(s, MoveNext(elementCount, hasOnReachEnd));
      && (r.next.galleryPosition == s.galleryPosition + 1 <==> s.galleryPosition < elementCount - s.elementsShown)
      && (r.next.galleryPosition == s.galleryPosition + 1 ==> r.next == s.(galleryPosition := s.galleryPosition + 1) && r.notice == None)
      && (r.next.galleryPosition != s.galleryPosition + 1 ==>
            r.next == s && r.notice == (if hasOnReachEnd then Some(ReachEnd(s)) else None))
  {
  }

  /** One navigation step keeps the position in range and the geometry fixed. */
  lemma NavigationStepInRange(s: State, a: Action, elementCount: int)
    requires IsNavigation(a, elementCount) && InRange(s, elementCount)
    ensures InRange(Reducer(s, a).next, elementCount)
    ensures Reducer(s, a).next.elementsShown == s.elementsShown
  {
  }

  /** Any sequence of arrow presses keeps the position within [0, max(0, elementCount - elementsShown)]. */
  lemma {:induction false} NavigationStaysInRange(s: State, actions: seq<Action>, elementCount: int)
    requires forall i :: 0 <= i < |actions| ==> IsNavigation(actions[i], elementCount)
    requires InRange(s, elementCount)
    ensures forall i :: 0 <= i < |actions| ==> WellFormed(actions[i])
    ensures InRange(Run(s, actions), elementCount)
    ensures Run(s, actions).elementsShown == s.elementsShown
    decreases |actions|
  {
    if actions != [] {
      NavigationStepInRange(s, actions[0], elementCount);
      NavigationStaysInRange(Reducer(s, actions[0]).next, actions[1..], elementCount);
    }
  }

  /** Whatever mix of arrow presses and width changes is dispatched, the position never becomes negative. */
  lemma {:induction false} NeverNegative(s: State, actions: seq<Action>)
    requires forall i :: 0 <= i < |actions| ==> WellFormed(actions[i])
    requires s.galleryPosition >= 0
    ensures Run(s, actions).galleryPosition >= 0
    decreases |actions|
  {
    if actions != [] {
      NeverNegative(Reducer(s, actions[0]).next, actions[1..]);
    }
  }

  lemma InitialStateInRange(elementCount: int)
    ensures InRange(InitialState, elementCount)
  {
  }

  // ---------------------------------------------------------------------------
  // setGalleryWidth

  /** The new width is stored, but the useable width is derived from the previously stored one. */
  lemma SetGalleryWidthUsesStoredWidth(s: State, g: real, f: real, w: real, p: real)
    requires w + p != 0.0
    ensures var t := Reducer(s, SetGalleryWidth(g, f, w, p)).next;
      && t.galleryWidth == g
      && t.useableWidth == s.galleryWidth - 2.0 * f
      && t.galleryPosition == s.galleryPosition
  {
  }

  /** The second identical dispatch uses the new width, and from then on dispatching it again changes nothing. */
  lemma SetGalleryWidthSettles(s: State, g: real, f: real, w: real, p: real)
    requires w + p != 0.0
    ensures var a := SetGalleryWidth(g, f, w, p);
      var s1 := Reducer(s, a).next;
      var s2 := Reducer(s1, a).next;
      && s2.useableWidth == g - 2.0 * f
      && s2.galleryPosition == s.galleryPosition
      && Reducer(s2, a).next == s2
  {
  }

  /** The geometry stored by a width change, for a positive tile pitch w + p. */
  lemma SetGalleryWidthGeometry(s: State, g: real, f: real, w: real, p: real)
    requires w + p > 0.0
    ensures var t := Reducer(s, SetGalleryWidth(g, f, w, p)).next;
      && (t.elementsShown as real) * (w + p) <= t.useableWidth < (t.elementsShown as real + 1.0) * (w + p)
      && t.excessSpace + w * (t.elementsShown as real) == t.useableWidth
      && (t.useableWidth < 0.0 ==> t.elementsShown < 0)
      && (t.elementsShown < 2 ==> t.paddingComponentWidth == 0.0)
      && (t.elementsShown >= 2 ==> t.paddingComponentWidth * ((t.elementsShown - 1) as real) == t.excessSpace)
  {
  }

  /** With two or more tiles shown, the tiles and the spacers between them fill the useable width exactly. */
  lemma SetGalleryWidthFillsUseableWidth(s: State, g: real, f: real, w: real, p: real)
    requires w + p != 0.0
    ensures var t := Reducer(s, SetGalleryWidth(g, f, w, p)).next;
      t.elementsShown >= 2 ==>
        w * (t.elementsShown as real) + t.paddingComponentWidth * ((t.elementsShown - 1) as real) == t.useableWidth
  {
  }

  /**
   After the same width is dispatched twice, the useable width is the new
   width less both fade zones, and the window of tiles with its spacers fills
   it exactly when two or more tiles are shown; a single tile fits in it when
   the minimum padding is not negative.
   */
  lemma SettledLayout(s: State, g: real, f: real, w: real, p: real)
    requires w + p > 0.0
    ensures var a := SetGalleryWidth(g, f, w, p);
      var t := Reducer(Reducer(s, a).next, a).next;
      var n := t.elementsShown;
      && t.useableWidth == g - 2.0 * f
      && t.galleryPosition == s.galleryPosition
      && (n >= 2 ==> w * (n as real) + t.paddingComponentWidth * ((n - 1) as real) == g - 2.0 * f)
      && (n == 1 && p >= 0.0 ==> t.paddingComponentWidth == 0.0 && w <= g - 2.0 * f)
  {
    var a := SetGalleryWidth(g, f, w, p);
    var t1 := Reducer(s, a).next;
    SetGalleryWidthSettles(s, g, f, w, p);
    SetGalleryWidthGeometry(t1, g, f, w, p);
    SetGalleryWidthFillsUseableWidth(t1, g, f, w, p);
    var t := Reducer(t1, a).next;
    if t.elementsShown == 1 {
      assert (t.elementsShown as real) * (w + p) == w + p;
    }
  }

  /** A non-negative minimum padding is a floor for the spacer width whenever spacers are shown. */
  lemma PaddingAtLeastMinPadding(useableWidth: real, w: real, p: real)
    requires w + p > 0.0 && p >= 0.0
    ensures var n := ElementsShown(useableWidth, w, p);
      n >= 2 ==> TotalComponentPadding(useableWidth - w * (n as real), n) >= p
  {
    var n := ElementsShown(useableWidth, w, p);
    if n >= 2 {
      var excess := useableWidth - w * (n as real);
      var pad := TotalComponentPadding(excess, n);
      var k := (n - 1) as real;
      assert excess >= (n as real) * p;
      assert (n as real) * p >= k * p;
      QuotientAtLeast(excess, k, p);
    }
  }

  /** A quotient by a positive k is at least p when the dividend is at least p * k. */
  lemma QuotientAtLeast(x: real, k: real, p: real)
    requires k > 0.0 && x >= p * k
    ensures x / k >= p
  {
  }

  // ---------------------------------------------------------------------------
  // Consequences of the code as written

  /**
   The measurement of a 1000-wide container with fade 100, tiles 200 wide and
   minimum padding 20: the first dispatch from the initial state still sees
   width 0 (useable -200, -1 tiles shown); only the second yields 800 useable,
   3 tiles and spacers of 100.
   */
  lemma FirstMeasurementIsStale()
    ensures var a := SetGalleryWidth(1000.0, 100.0, 200.0, 20.0);
      var s1 := Reducer(InitialState, a).next;
      var s2 := Reducer(s1, a).next;
      && s1 == State(0, 1000.0, -200.0, -1, 0.0, 0.0)
      && s2 == State(0, 1000.0, 800.0, 3, 200.0, 100.0)
  {
    var a := SetGalleryWidth(1000.0, 100.0, 200.0, 20.0);
    assert ElementsShown(-200.0, 200.0, 20.0) == -1;
    assert ElementsShown(800.0, 200.0, 20.0) == 3;
    var s1 := Reducer(InitialState, a).next;
    assert s1 == State(0, 1000.0, -200.0, -1, 0.0, 0.0);
  }

  /**
   Because elementsShown is not clamped at 0, a negative count loosens the
   moveNext guard: with no tiles at all, the position moves past the end.
   */
  lemma NegativeElementsShownPassesEnd()
    ensures var s := Run(InitialState, [SetGalleryWidth(1000.0, 100.0, 200.0, 20.0), MoveNext(0, true)]);
      s.galleryPosition == 1 && s.elementsShown == -1
  {
    var a := SetGalleryWidth(1000.0, 100.0, 200.0, 20.0);
    assert ElementsShown(-200.0, 200.0, 20.0) == -1;
    var s1 := Reducer(InitialState, a).next;
    assert s1.elementsShown == -1;
    assert Run(InitialState, [a, MoveNext(0, true)]) == Run(s1, [MoveNext(0, true)]);
  }

  /**
   A width change does not re-clamp the position: a window at the last valid
   position for five tiles leaves the range once the wider container holds five.
   */
  lemma ResizeDoesNotReclamp()
    ensures var s := State(2, 1000.0, 800.0, 3, 200.0, 100.0);
      var a := SetGalleryWidth(1300.0, 100.0, 200.0, 20.0);
      var s2 := Run(s, [a, a]);
      && InRange(s, 5)
      && s2.elementsShown == 5
      && s2.galleryPosition == 2
      && !InRange(s2, 5)
  {
    var s := State(2, 1000.0, 800.0, 3, 200.0, 100.0);
    var a := SetGalleryWidth(1300.0, 100.0, 200.0, 20.0);
    assert ElementsShown(800.0, 200.0, 20.0) == 3;
    assert ElementsShown(1100.0, 200.0, 20.0) == 5;
    var s1 := Reducer(s, a).next;
    assert Run(s, [a, a]) == Run(s1, [a]);
  }
}
