/**
 The derivations the HorizontalGallery component computes from its props and
 the reducer's state: prop defaults, the actions its arrows and its width
 measurement dispatch, the track's translation, the arrows' opacity, and the
 sequence of tiles and spacers it renders.
 */
module HorizontalGallery {
  import opened GalleryReducer

  /** The component's props; tiles are opaque content, callbacks are recorded by presence. */
  datatype Props<T> = Props(
    tiles: seq<T>,
    elementWidth: real,
    fadeDistance: Option<real>,
    minPadding: Option<real>,
    hasOnReachEnd: bool,
    hasOnReachStart: bool)

  /** fadeDistance, 100 when the prop is not given. */
  function FadeDistance<T>(props: Props<T>): (f: real)
    ensures props.fadeDistance == Some(f) || (props.fadeDistance == None && f == 100.0)
  {
    match props.fadeDistance
    case Some(f) => f
    case None => 100.0
  }

  /** minPadding, 0 when the prop is not given. */
  function MinPadding<T>(props: Props<T>): (p: real)
    ensures props.minPadding == Some(p) || (props.minPadding == None && p == 0.0)
  {
    match props.minPadding
    case Some(p) => p
    case None => 0.0
  }

  /** The action the width measurement dispatches for a measured container width. */
  function UpdateSize<T>(props: Props<T>, measuredWidth: real): (a: Action)
    ensures a.SetGalleryWidth? && a.galleryWidth == measuredWidth
    ensures a.fadeDistance == FadeDistance(props) && a.elementWidth == props.elementWidth && a.minPadding == MinPadding(props)
    ensures WellFormed(a) <==> props.elementWidth + MinPadding(props) != 0.0
  {
    SetGalleryWidth(measuredWidth, FadeDistance(props), props.elementWidth, MinPadding(props))
  }

  /** The action the left arrow dispatches: movePrev, passing onReachStart through. */
  function PrevClick<T>(props: Props<T>): (a: Action)
    ensures a.MovePrev? && a.hasOnReachStart == props.hasOnReachStart
    ensures IsNavigation(a, |props.tiles|)
  {
    MovePrev(props.hasOnReachStart)
  }

  /** The action the right arrow dispatches: moveNext with the tile count, passing onReachEnd through. */
  function NextClick<T>(props: Props<T>): (a: Action)
    ensures a.MoveNext? && a.elementCount == |props.tiles| && a.hasOnReachEnd == props.hasOnReachEnd
    ensures IsNavigation(a, |props.tiles|)
  {
    MoveNext(|props.tiles|, props.hasOnReachEnd)
  }

  /** Horizontal translation of the whole track, the target of the animation. */
  function TrackTranslation<T>(props: Props<T>, s: State): (x: real)
    // the tile at galleryPosition, that many pitches into the track, lands at the fade edge
    ensures x + (s.galleryPosition as real) * (props.elementWidth + s.paddingComponentWidth) == FadeDistance(props)
  {
    FadeDistance(props) - (props.elementWidth + s.paddingComponentWidth) * (s.galleryPosition as real)
  }

  /** On-screen left edge of tile i: the track's translation plus the tile's offset in the track. */
  function TileLeft<T>(props: Props<T>, s: State, i: int): real {
    TrackTranslation(props, s) + (i as real) * (props.elementWidth + s.paddingComponentWidth)
  }

  /** Opacity of the left arrow: full when the window can move back, dimmed otherwise. */
  function LeftArrowOpacity(s: State): (o: real)
    ensures o == 1.0 || o == 0.2
    // the movePrev guard does not depend on whether a callback was supplied
    ensures o == 1.0 <==> Reducer(s, MovePrev(false)).next != s
  {
    if s.galleryPosition > 0 then 1.0 else 0.2
  }

  /** Opacity of the right arrow: full when the window can move on, dimmed otherwise. */
  function RightArrowOpacity<T>(props: Props<T>, s: State): (o: real)
    ensures o == 1.0 || o == 0.2
    ensures o == 1.0 <==> Reducer(s, NextClick(props)).next != s
  {
    if s.galleryPosition < |props.tiles| - s.elementsShown then 1.0 else 0.2
  }

  // ---------------------------------------------------------------------------
  // The rendered track

  /** One fragment per tile: the tile, preceded by a spacer unless it is the first. */
  datatype Fragment<T> = Fragment(hasSpacer: bool, tile: T)

  /** What the track lays out from left to right. */
  datatype Child<T> = Spacer | Tile(content: T)

  /** The fragments tiles.map builds: one per tile, in order, with a spacer in all but the first. */
  function Fragments<T>(tiles: seq<T>): (fs: seq<Fragment<T>>)
    ensures |fs| == |tiles|
    ensures forall i :: 0 <= i < |fs| ==> fs[i].tile == tiles[i] && (fs[i].hasSpacer <==> i > 0)
  {
    seq(|tiles|, i requires 0 <= i < |tiles| => Fragment(i > 0, tiles[i]))
  }

  /** The tiles the fragments carry, in order. */
  function FragmentTiles<T>(fs: seq<Fragment<T>>): seq<T> {
    seq(|fs|, i requires 0 <= i < |fs| => fs[i].tile)
  }

  /** The children the fragments lay out, in order: every fragment's tile and nothing else but spacers. */
  function Children<T>(fs: seq<Fragment<T>>): (cs: seq<Child<T>>)
    ensures TilesOf(cs) == FragmentTiles(fs)
    decreases |fs|
  {
    if fs == [] then []
    else
      var init, last := fs[..|fs| - 1], fs[|fs| - 1];
      var front := Children(init) + (if last.hasSpacer then [Spacer] else []);
      var cs := front + [Tile(last.tile)];
      assert cs[..|cs| - 1] == front;
      assert last.hasSpacer ==> front[..|front| - 1] == Children(init);
      assert !last.hasSpacer ==> front == Children(init);
      assert TilesOf(front) == TilesOf(Children(init));
      assert FragmentTiles(fs) == FragmentTiles(init) + [last.tile];
      cs
  }

  /** The track rendered for a list of tiles: each tile, in order, with a spacer before all but the first. */
  function Track<T>(tiles: seq<T>): (cs: seq<Child<T>>)
    ensures TilesOf(cs) == tiles
  {
    assert FragmentTiles(Fragments(tiles)) == tiles;
    Children(Fragments(tiles))
  }

  function SpacerCount<T>(cs: seq<Child<T>>): nat
    decreases |cs|
  {
    if cs == [] then 0 else SpacerCount(cs[..|cs| - 1]) + (if cs[|cs| - 1].Spacer? then 1 else 0)
  }

  function TilesOf<T>(cs: seq<Child<T>>): seq<T>
    decreases |cs|
  {
    if cs == [] then []
    else
      var last := cs[|cs| - 1];
      TilesOf(cs[..|cs| - 1]) + (if last.Tile? then [last.content] else [])
  }

  /** Total width of a run of children, each tile elementWidth wide and each spacer spacerWidth wide. */
  function ChildrenWidth<T>(cs: seq<Child<T>>, elementWidth: real, spacerWidth: real): real
    decreases |cs|
  {
    if cs == [] then 0.0
    else ChildrenWidth(cs[..|cs| - 1], elementWidth, spacerWidth) + (if cs[|cs| - 1].Spacer? then spacerWidth else elementWidth)
  }

  /** Tiles sit at the even places of the track and spacers at the odd places between them. */
  ghost predicate Alternates<T>(cs: seq<Child<T>>, tiles: seq<T>) {
    && |cs| == (if tiles == [] then 0 else 2 * |tiles| - 1)
    && forall j :: 0 <= j < |cs| ==> cs[j] == if j % 2 == 0 then Tile(tiles[j / 2]) else Spacer
  }

  lemma FragmentsPrefix<T>(tiles: seq<T>, k: nat)
    requires k <= |tiles|
    ensures Fragments(tiles)[..k] == Fragments(tiles[..k])
  {
  }

  /** Laying out one more tile appends a spacer, unless it is the first tile, and then the tile. */
  lemma ChildrenOfFragmentsStep<T>(tiles: seq<T>)
    requires tiles != []
    ensures Children(Fragments(tiles))
      == Children(Fragments(tiles[..|tiles| - 1])) + (if |tiles| > 1 then [Spacer] else []) + [Tile(tiles[|tiles| - 1])]
  {
    var n := |tiles|;
    FragmentsPrefix(tiles, n - 1);
    assert Fragments(tiles)[..n - 1] == Fragments(tiles[..n - 1]);
  }

  /** The children of the fragments of a list of tiles alternate between tiles and spacers. */
  lemma {:induction false} FragmentChildrenAlternate<T>(tiles: seq<T>)
    ensures Alternates(Children(Fragments(tiles)), tiles)
    decreases |tiles|
  {
    if tiles != [] {
      var n := |tiles|;
      var init := tiles[..n - 1];
      FragmentsPrefix(tiles, n - 1);
      FragmentChildrenAlternate(init);
      var before := Children(Fragments(init));
      var cs := Children(Fragments(tiles));
      ChildrenOfFragmentsStep(tiles);
      forall j | 0 <= j < |cs|
        ensures cs[j] == if j % 2 == 0 then Tile(tiles[j / 2]) else Spacer
      {
        if j < |before| {
          assert cs[j] == before[j];
          assert j / 2 < n - 1;
          assert init[j / 2] == tiles[j / 2];
        }
      }
    }
  }

  /** The track puts tile i at place 2i and a spacer at every odd place between them. */
  lemma TrackAlternates<T>(tiles: seq<T>)
    ensures Alternates(Track(tiles), tiles)
  {
    FragmentChildrenAlternate(tiles);
  }

  /** Counting spacers in the first m children of an alternating track. */
  lemma {:induction false} SpacerCountOfAlternating<T>(cs: seq<Child<T>>, tiles: seq<T>, m: nat)
    requires Alternates(cs, tiles) && m <= |cs|
    ensures SpacerCount(cs[..m]) == m / 2
    decreases m
  {
    if m > 0 {
      SpacerCountOfAlternating(cs, tiles, m - 1);
      assert cs[..m][..m - 1] == cs[..m - 1];
    }
  }

  /** The first i places of each parity: a tile at every even place and a spacer at every odd one. */
  ghost predicate TileSpacerPairs<T>(cs: seq<Child<T>>, i: nat) {
    2 * i <= |cs| && forall j :: 0 <= j < i ==> cs[2 * j].Tile? && cs[2 * j + 1] == Spacer
  }

  lemma AlternatingPairs<T>(cs: seq<Child<T>>, tiles: seq<T>, i: nat)
    requires Alternates(cs, tiles) && 2 * i <= |cs|
    ensures TileSpacerPairs(cs, i)
  {
    forall j | 0 <= j < i
      ensures cs[2 * j].Tile? && cs[2 * j + 1] == Spacer
    {
      assert (2 * j) % 2 == 0 && (2 * j + 1) % 2 == 1;
    }
  }

  /** The first i tiles of an alternating track, each followed by its spacer, take i pitches. */
  lemma WidthOfAlternating<T>(cs: seq<Child<T>>, tiles: seq<T>, i: nat, w: real, pad: real)
    requires Alternates(cs, tiles) && 2 * i <= |cs|
    ensures ChildrenWidth(cs[..2 * i], w, pad) == (i as real) * (w + pad)
  {
    AlternatingPairs(cs, tiles, i);
    WidthOfPairs(cs, i, w, pad);
  }

  lemma {:induction false} WidthOfPairs<T>(cs: seq<Child<T>>, i: nat, w: real, pad: real)
    requires TileSpacerPairs(cs, i)
    ensures ChildrenWidth(cs[..2 * i], w, pad) == (i as real) * (w + pad)
    decreases i
  {
    if i > 0 {
      var k := i - 1;
      assert TileSpacerPairs(cs, k);
      WidthOfPairs(cs, k, w, pad);
      assert cs[2 * k].Tile? && cs[2 * k + 1] == Spacer;
      TileAndSpacerWidth(cs, 2 * i, w, pad);
      assert 2 * i - 2 == 2 * k;
      OnePitchMore(k, ChildrenWidth(cs[..2 * i], w, pad), ChildrenWidth(cs[..2 * k], w, pad), w + pad);
    }
  }

  /** A tile followed by a spacer adds one pitch to the width of a run of children. */
  lemma TileAndSpacerWidth<T>(cs: seq<Child<T>>, k: nat, w: real, pad: real)
    requires 2 <= k <= |cs| && cs[k - 2].Tile? && cs[k - 1] == Spacer
    ensures ChildrenWidth(cs[..k], w, pad) == ChildrenWidth(cs[..k - 2], w, pad) + w + pad
  {
    assert cs[..k][..k - 1] == cs[..k - 1];
    assert cs[..k - 1][..k - 2] == cs[..k - 2];
  }

  /** A width one pitch more than k pitches is k + 1 pitches. */
  lemma OnePitchMore(k: nat, after: real, before: real, pitch: real)
    requires before == (k as real) * pitch && after == before + pitch
    ensures after == ((k + 1) as real) * pitch
  {
    assert (k + 1) as real == k as real + 1.0;
    assert (k as real + 1.0) * pitch == (k as real) * pitch + pitch;
  }

  /** There is one spacer fewer than there are tiles, and none without tiles. */
  lemma {:induction false} SpacerCountOfTrack<T>(tiles: seq<T>)
    ensures SpacerCount(Track(tiles)) == if tiles == [] then 0 else |tiles| - 1
  {
    TrackAlternates(tiles);
    AlternatingSpacerCount(Track(tiles), tiles);
  }

  lemma AlternatingSpacerCount<T>(cs: seq<Child<T>>, tiles: seq<T>)
    requires Alternates(cs, tiles)
    ensures SpacerCount(cs) == if tiles == [] then 0 else |tiles| - 1
  {
    SpacerCountOfAlternating(cs, tiles, |cs|);
    assert cs[..|cs|] == cs;
    if tiles != [] {
      var n := |tiles|;
      assert |cs| / 2 == n - 1;
    }
  }

  /** Tile i starts i tile widths and i spacer widths from the start of the track. */
  lemma {:induction false} TileOffsetInTrack<T>(tiles: seq<T>, i: nat, w: real, pad: real)
    requires i < |tiles|
    ensures 2 * i < |Track(tiles)| && Track(tiles)[2 * i] == Tile(tiles[i])
    ensures ChildrenWidth(Track(tiles)[..2 * i], w, pad) == (i as real) * (w + pad)
  {
    TrackAlternates(tiles);
    AlternatingTileOffset(Track(tiles), tiles, i, w, pad);
  }

  lemma AlternatingTileOffset<T>(cs: seq<Child<T>>, tiles: seq<T>, i: nat, w: real, pad: real)
    requires Alternates(cs, tiles) && i < |tiles|
    ensures 2 * i < |cs| && cs[2 * i] == Tile(tiles[i])
    ensures ChildrenWidth(cs[..2 * i], w, pad) == (i as real) * (w + pad)
  {
    WidthOfAlternating(cs, tiles, i, w, pad);
  }

  /** The whole track is one pitch (tile and spacer) per tile but the last, plus the last tile. */
  lemma {:induction false} TrackWidth<T>(tiles: seq<T>, w: real, pad: real)
    requires tiles != []
    ensures ChildrenWidth(Track(tiles), w, pad) == ((|tiles| - 1) as real) * (w + pad) + w
  {
    TrackAlternates(tiles);
    AlternatingWidth(Track(tiles), tiles, w, pad);
  }

  lemma AlternatingWidth<T>(cs: seq<Child<T>>, tiles: seq<T>, w: real, pad: real)
    requires Alternates(cs, tiles) && tiles != []
    ensures ChildrenWidth(cs, w, pad) == ((|tiles| - 1) as real) * (w + pad) + w
  {
    var n := |tiles|;
    WidthOfAlternating(cs, tiles, n - 1, w, pad);
    assert cs[..|cs|] == cs;
    assert cs[..|cs|][..2 * (n - 1)] == cs[..2 * (n - 1)];
    assert cs[|cs| - 1].Tile?;
  }

  // ---------------------------------------------------------------------------
  // Props, arrows and the reducer

  /** Without the optional props, the fade zones are 100 wide and tiles need no minimum padding. */
  lemma DefaultProps<T>(props: Props<T>, s: State, g: real)
    requires props.fadeDistance == None && props.minPadding == None && props.elementWidth != 0.0
    ensures var a := UpdateSize(props, g);
      var s2 := Reducer(Reducer(s, a).next, a).next;
      && s2.useableWidth == g - 200.0
      && s2.elementsShown == ((g - 200.0) / props.elementWidth).Floor
      && (s.galleryPosition == 0 ==> TrackTranslation(props, s) == 100.0)
  {
  }

  /** The left arrow is at full opacity exactly when its click moves the window back. */
  lemma LeftArrowMatchesGuard<T>(props: Props<T>, s: State)
    ensures var r := Reducer(s, PrevClick(props));
      && (LeftArrowOpacity(s) == 1.0 <==> r.next.galleryPosition != s.galleryPosition)
      && (LeftArrowOpacity(s) == 0.2 <==> r.next == s)
      && (LeftArrowOpacity(s) == 0.2 && props.hasOnReachStart <==> r.notice == Some(ReachStart(s)))
  {
  }

  /** The right arrow is at full opacity exactly when its click moves the window on. */
  lemma RightArrowMatchesGuard<T>(props: Props<T>, s: State)
    ensures var r := Reducer(s, NextClick(props));
      && (RightArrowOpacity(props, s) == 1.0 <==> r.next.galleryPosition != s.galleryPosition)
      && (RightArrowOpacity(props, s) == 0.2 <==> r.next == s)
      && (RightArrowOpacity(props, s) == 0.2 && props.hasOnReachEnd <==> r.notice == Some(ReachEnd(s)))
  {
  }

  /** A successful arrow press slides the track by exactly one tile and one spacer. */
  lemma ArrowShiftsTrackByOnePitch<T>(props: Props<T>, s: State)
    ensures var n := Reducer(s, NextClick(props)).next;
      n != s ==> TrackTranslation(props, n) == TrackTranslation(props, s) - (props.elementWidth + s.paddingComponentWidth)
    ensures var p := Reducer(s, PrevClick(props)).next;
      p != s ==> TrackTranslation(props, p) == TrackTranslation(props, s) + (props.elementWidth + s.paddingComponentWidth)
  {
    var fade, w, pad, k := FadeDistance(props), props.elementWidth, s.paddingComponentWidth, s.galleryPosition;
    var n := Reducer(s, NextClick(props)).next;
    if n != s {
      assert n.galleryPosition == k + 1 && n.paddingComponentWidth == pad;
      assert TrackTranslation(props, n) == fade - (w + pad) * ((k + 1) as real);
      OnePitchFurther(fade, w + pad, k);
    }
    var p := Reducer(s, PrevClick(props)).next;
    if p != s {
      assert p.galleryPosition == k - 1 && p.paddingComponentWidth == pad;
      assert TrackTranslation(props, p) == fade - (w + pad) * ((k - 1) as real);
      OnePitchFurther(fade, w + pad, k - 1);
    }
  }

  lemma OnePitchFurther(fade: real, pitch: real, k: int)
    ensures fade - pitch * ((k + 1) as real) == fade - pitch * (k as real) - pitch
  {
    assert (k + 1) as real == k as real + 1.0;
    assert pitch * (k as real + 1.0) == pitch * (k as real) + pitch;
  }

  /**
   Once a measurement has settled (the same width dispatched twice), the first
   tile of the window starts right after the left fade zone; with two or more
   tiles shown, the last tile of the window ends right at the right fade zone,
   and with one it ends no later.
   */
  lemma SettledWindowFillsViewport<T>(props: Props<T>, s: State, g: real)
    requires props.elementWidth + MinPadding(props) > 0.0
    ensures var a := UpdateSize(props, g);
      var t := Reducer(Reducer(s, a).next, a).next;
      var first := t.galleryPosition;
      var last := t.galleryPosition + t.elementsShown - 1;
      && TileLeft(props, t, first) == FadeDistance(props)
      && (t.elementsShown >= 2 ==> TileLeft(props, t, last) + props.elementWidth == g - FadeDistance(props))
      && (t.elementsShown == 1 && MinPadding(props) >= 0.0 ==> TileLeft(props, t, last) + props.elementWidth <= g - FadeDistance(props))
  {
    var fade, w, p := FadeDistance(props), props.elementWidth, MinPadding(props);
    SettledLayout(s, g, fade, w, p);
    var a := UpdateSize(props, g);
    assert a == SetGalleryWidth(g, fade, w, p);
    var t := Reducer(Reducer(s, a).next, a).next;
    LaidOutWindowEdges(props, t, g);
  }

  /** The window's edges in a state whose tiles and spacers fill the width between the fade zones. */
  lemma LaidOutWindowEdges<T>(props: Props<T>, t: State, g: real)
    requires var n, fade := t.elementsShown, FadeDistance(props);
      && (n >= 2 ==> props.elementWidth * (n as real) + t.paddingComponentWidth * ((n - 1) as real) == g - 2.0 * fade)
      && (n == 1 && MinPadding(props) >= 0.0 ==> t.paddingComponentWidth == 0.0 && props.elementWidth <= g - 2.0 * fade)
    ensures var first, last := t.galleryPosition, t.galleryPosition + t.elementsShown - 1;
      && TileLeft(props, t, first) == FadeDistance(props)
      && (t.elementsShown >= 2 ==> TileLeft(props, t, last) + props.elementWidth == g - FadeDistance(props))
      && (t.elementsShown == 1 && MinPadding(props) >= 0.0 ==> TileLeft(props, t, last) + props.elementWidth <= g - FadeDistance(props))
  {
    var fade, w := FadeDistance(props), props.elementWidth;
    var pad, pos, n := t.paddingComponentWidth, t.galleryPosition, t.elementsShown;
    WindowEdges(fade, w, pad, pos, n);
    var left := fade - (w + pad) * (pos as real);
    assert TileLeft(props, t, pos) == left + (pos as real) * (w + pad);
    assert TileLeft(props, t, pos + n - 1) == left + ((pos + n - 1) as real) * (w + pad);
  }

  /** Left edge of the window's first tile and right edge of its last, for a track at the given position. */
  lemma WindowEdges(fade: real, w: real, pad: real, pos: int, n: int)
    ensures var left := fade - (w + pad) * (pos as real);
      && left + (pos as real) * (w + pad) == fade
      && left + ((pos + n - 1) as real) * (w + pad) + w == fade + w * (n as real) + pad * ((n - 1) as real)
  {
  }

  /**
   Before the first measurement the track sits at the fade distance. The first
   measurement still sees the initial width 0, so with non-negative fade zones
   and a positive pitch it replaces the initial 1000-wide spacers by 0-wide ones.
   */
  lemma InitialTrackTranslation<T>(props: Props<T>, g: real)
    ensures TrackTranslation(props, InitialState) == FadeDistance(props)
    ensures FadeDistance(props) >= 0.0 && props.elementWidth + MinPadding(props) > 0.0 ==>
      Reducer(InitialState, UpdateSize(props, g)).next.paddingComponentWidth == 0.0
  {
    var fade, w, p := FadeDistance(props), props.elementWidth, MinPadding(props);
    if fade >= 0.0 && w + p > 0.0 {
      assert UpdateSize(props, g) == SetGalleryWidth(g, fade, w, p);
      SetGalleryWidthGeometry(InitialState, g, fade, w, p);
      var t := Reducer(InitialState, UpdateSize(props, g)).next;
      var n := t.elementsShown;
      assert t.useableWidth == 0.0 - 2.0 * fade;
      CountOfNonPositiveWidth(n, w + p, t.useableWidth);
    }
  }

  /** No more than one pitch fits into a width that is not positive. */
  lemma CountOfNonPositiveWidth(n: int, pitch: real, u: real)
    requires pitch > 0.0 && (n as real) * pitch <= u <= 0.0
    ensures n < 2
  {
  }

  /** The on-screen left edge of tile i is the track's translation plus the width of the children before it. */
  lemma TileLeftInTrack<T>(props: Props<T>, s: State, i: nat)
    requires i < |props.tiles|
    ensures 2 * i < |Track(props.tiles)|
    ensures TileLeft(props, s, i)
      == TrackTranslation(props, s) + ChildrenWidth(Track(props.tiles)[..2 * i], props.elementWidth, s.paddingComponentWidth)
  {
    var w, pad := props.elementWidth, s.paddingComponentWidth;
    TileOffsetInTrack(props.tiles, i, w, pad);
    TileLeftByOffset(props, s, i, ChildrenWidth(Track(props.tiles)[..2 * i], w, pad));
  }

  /** Tile i sits offset from the track translation when offset is i pitches. */
  lemma TileLeftByOffset<T>(props: Props<T>, s: State, i: nat, offset: real)
    requires offset == (i as real) * (props.elementWidth + s.paddingComponentWidth)
    ensures TileLeft(props, s, i) == TrackTranslation(props, s) + offset
  {
  }

  /** From the initial state, any sequence of arrow clicks keeps the window in range for the component's tiles. */
  lemma ArrowClicksStayInRange<T>(props: Props<T>, clicks: seq<Action>)
    requires forall i :: 0 <= i < |clicks| ==> clicks[i] == PrevClick(props) || clicks[i] == NextClick(props)
    ensures forall i :: 0 <= i < |clicks| ==> WellFormed(clicks[i])
    ensures InRange(Run(InitialState, clicks), |props.tiles|)
  {
    forall i | 0 <= i < |clicks|
      ensures IsNavigation(clicks[i], |props.tiles|)
    {
      if clicks[i] == PrevClick(props) {
        assert IsNavigation(PrevClick(props), |props.tiles|);
      } else {
        assert IsNavigation(NextClick(props), |props.tiles|);
      }
    }
    InitialStateInRange(|props.tiles|);
    NavigationStaysInRange(InitialState, clicks, |props.tiles|);
  }

  // ---------------------------------------------------------------------------
  // The reducer hook

  /** The cell the component keeps its state in, updated by dispatch. */
  class Store {
    var state: State

    constructor ()
      ensures state == InitialState
    {
      state := InitialState;
    }

    /** Dispatches an action, replacing the state and reporting the callback it invoked, if any. */
    method Dispatch(a: Action) returns (notice: Option<Notice>)
      requires WellFormed(a)
      modifies this
      ensures state == Reducer(old(state), a).next
      ensures notice == Reducer(old(state), a).notice
    {
      var r := Reducer(state, a);
      state := r.next;
      notice := r.notice;
    }
  }
}
