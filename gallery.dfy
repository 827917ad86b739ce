/** The scroll model of the circular WebGL gallery, without its rendering:
    the doubled media strip and its spacing, the per-frame recycling that
    makes the strip endless, easing of the scroll position, snapping to a
    whole item, wheel and drag input, and tap hit-testing that opens the
    lightbox. */
module Gallery {
  import opened Common

  datatype GalleryItem = GalleryItem(image: string, text: string)

  /** A width/height pair: the container in pixels or the camera viewport
      in world units. */
  datatype Size = Size(width: real, height: real)

  /** The horizontal part of the container's bounding rectangle. */
  datatype Rect = Rect(left: real, width: real)

  datatype Direction = Right | Left

  // ---------------------------------------------------------------------
  // Items

  /** The built-in items shown when no items are given. */
  function DefaultItems(): (r: seq<GalleryItem>)
    ensures |r| == 12
  {
    [ GalleryItem("https://picsum.photos/seed/1/800/600?grayscale", "Bridge"),
      GalleryItem("https://picsum.photos/seed/2/800/600?grayscale", "Desk Setup"),
      GalleryItem("https://picsum.photos/seed/3/800/600?grayscale", "Waterfall"),
      GalleryItem("https://picsum.photos/seed/4/800/600?grayscale", "Strawberries"),
      GalleryItem("https://picsum.photos/seed/5/800/600?grayscale", "Deep Diving"),
      GalleryItem("https://picsum.photos/seed/16/800/600?grayscale", "Train Track"),
      GalleryItem("https://picsum.photos/seed/17/800/600?grayscale", "Santorini"),
      GalleryItem("https://picsum.photos/seed/8/800/600?grayscale", "Blurry Lights"),
      GalleryItem("https://picsum.photos/seed/9/800/600?grayscale", "New York"),
      GalleryItem("https://picsum.photos/seed/10/800/600?grayscale", "Good Boy"),
      GalleryItem("https://picsum.photos/seed/21/800/600?grayscale", "Coastline"),
      GalleryItem("https://picsum.photos/seed/12/800/600?grayscale", "Palm Trees") ]
  }

  /** The given items, or the defaults when none are given. */
  function GalleryItems(items: seq<GalleryItem>): seq<GalleryItem> {
    if |items| > 0 then items else DefaultItems()
  }

  /** The strip: the gallery items twice over, so never empty and always of
      even length. */
  function MediasImages(items: seq<GalleryItem>): (s: seq<GalleryItem>)
    ensures |s| == 2 * |GalleryItems(items)| && |s| > 0 && |s| % 2 == 0
  {
    GalleryItems(items) + GalleryItems(items)
  }

  /** The strip has twice as many entries as there are gallery items, at
      least one item, and each entry of the second half repeats the entry
      one half-length earlier. */
  lemma MediasImagesShape(items: seq<GalleryItem>)
    ensures var g := GalleryItems(items);
      |g| > 0 && (|items| > 0 ==> g == items) && (|items| == 0 ==> g == DefaultItems())
      && |MediasImages(items)| == 2 * |g|
      && forall i :: 0 <= i < |g| ==> MediasImages(items)[i + |g|] == MediasImages(items)[i] == g[i]
  {
  }

  /** The strip's second half repeats its first, entry by entry. */
  lemma StripHalves(items: seq<GalleryItem>)
    ensures var s := MediasImages(items);
      forall j :: 0 <= j < |s| / 2 ==> s[j + |s| / 2] == s[j]
  {
    var g := GalleryItems(items);
    assert MediasImages(items) == g + g;
  }

  /** In a strip made of two equal halves, reducing an index modulo the
      half-length names the same entry. */
  lemma HalfIndex(images: seq<GalleryItem>, i: nat)
    requires |images| > 0 && |images| % 2 == 0 && i < |images|
    requires forall j :: 0 <= j < |images| / 2 ==> images[j + |images| / 2] == images[j]
    ensures images[i % (|images| / 2)] == images[i]
  {
    var half := |images| / 2;
    if i >= half {
      DivMod(i, half, 1, i - half);
      assert images[(i - half) + half] == images[i - half];
    } else {
      DivMod(i, half, 0, i);
    }
  }

  /** A media plays as a video when its URL ends in one of three video
      extensions. */
  predicate IsVideoUrl(image: string): (b: bool)
    ensures b ==> |image| >= 4 && image[|image| - 1] in {'4', 'm', 'g'}
  {
    EndsWith(image, ".mp4") || EndsWith(image, ".webm") || EndsWith(image, ".ogg")
  }

  /** The lightbox shows a `<video>` only for `.mp4`. */
  predicate LightboxIsVideo(image: string) {
    EndsWith(image, ".mp4")
  }

  /** Whatever the lightbox plays as a video the strip plays as one too; a
      `.webm` source is a video on the strip but an image in the lightbox. */
  lemma LightboxVideoKinds()
    ensures forall image :: LightboxIsVideo(image) ==> IsVideoUrl(image)
    ensures IsVideoUrl("clip.webm") && !LightboxIsVideo("clip.webm")
  {
    assert "clip.webm"[|"clip.webm"| - |".webm"|..] == ".webm";
    assert "clip.webm"[|"clip.webm"| - |".mp4"|..] == "webm";
  }

  /** A URL whose last character is not a digit and not `m` or `g` ends in
      none of the video extensions. */
  lemma NotVideo(image: string)
    requires |image| > 0 && image[|image| - 1] !in "4mg"
    ensures !IsVideoUrl(image)
  {
    var n := |image|;
    assert n >= 4 ==> image[n - 4..][3] == image[n - 1];
    assert n >= 5 ==> image[n - 5..][4] == image[n - 1];
  }

  /** None of the built-in items is a video: each URL ends in `grayscale`. */
  lemma DefaultsAreImages()
    ensures forall i :: 0 <= i < 12 ==> !IsVideoUrl(DefaultItems()[i].image)
  {
    forall i | 0 <= i < 12 ensures !IsVideoUrl(DefaultItems()[i].image) {
      var s := DefaultItems()[i].image;
      assert s[|s| - 1] == 'e';
      NotVideo(s);
    }
  }

  // ---------------------------------------------------------------------
  // Easing

  /** Linear interpolation: the endpoints at 0 and 1, and after one step a
      fraction `1 - t` of the gap remains. */
  function Lerp(p1: real, p2: real, t: real): (r: real)
    ensures t == 0.0 ==> r == p1
    ensures t == 1.0 ==> r == p2
    ensures p2 - r == (1.0 - t) * (p2 - p1)
  {
    p1 + (p2 - p1) * t
  }

  /** `n` animation frames of easing from `current` toward a fixed `target`. */
  function Approach(current: real, target: real, ease: real, n: nat): real
    decreases n
  {
    if n == 0 then current else Lerp(Approach(current, target, ease, n - 1), target, ease)
  }

  function Power(b: real, n: nat): real
    decreases n
  {
    if n == 0 then 1.0 else Power(b, n - 1) * b
  }

  /** After `n` frames the remaining gap is `(1 - ease)^n` times the
      initial one. */
  lemma {:induction false} ApproachGap(current: real, target: real, ease: real, n: nat)
    ensures target - Approach(current, target, ease, n) == Power(1.0 - ease, n) * (target - current)
    decreases n
  {
    if n > 0 {
      var prev := Approach(current, target, ease, n - 1);
      ApproachGap(current, target, ease, n - 1);
      assert target - Approach(current, target, ease, n) == (1.0 - ease) * (target - prev);
      assert (1.0 - ease) * (Power(1.0 - ease, n - 1) * (target - current))
          == (Power(1.0 - ease, n - 1) * (1.0 - ease)) * (target - current);
    }
  }

  /** With an ease strictly between 0 and 1 the position never overshoots:
      it stays between its start and the target, and it reaches the target
      only if it started there. */
  lemma {:induction false} ApproachStaysBehind(current: real, target: real, ease: real, n: nat)
    requires 0.0 < ease < 1.0
    ensures current <= target ==> current <= Approach(current, target, ease, n) <= target
    ensures current >= target ==> target <= Approach(current, target, ease, n) <= current
    ensures Approach(current, target, ease, n) == target <==> current == target
    decreases n
  {
    if n > 0 {
      ApproachStaysBehind(current, target, ease, n - 1);
      LerpBetween(Approach(current, target, ease, n - 1), target, ease);
    }
  }

  /** One step with an ease strictly between 0 and 1 lands strictly between
      the position and the target, unless they already coincide. */
  lemma LerpBetween(p: real, target: real, ease: real)
    requires 0.0 < ease < 1.0
    ensures p < target ==> p < Lerp(p, target, ease) < target
    ensures p > target ==> target < Lerp(p, target, ease) < p
    ensures p == target ==> Lerp(p, target, ease) == p
  {
    var s := ScaledBetween(target - p, ease);
    assert Lerp(p, target, ease) == p + s;
  }

  /** A fraction strictly between 0 and 1 of a gap lies strictly between 0
      and the gap. */
  lemma ScaledBetween(gap: real, ease: real) returns (s: real)
    requires 0.0 < ease < 1.0
    ensures s == gap * ease
    ensures gap > 0.0 ==> 0.0 < s < gap
    ensures gap < 0.0 ==> gap < s < 0.0
  {
    s := gap * ease;
    assert gap - gap * ease == gap * (1.0 - ease);
    if gap > 0.0 {
      assert gap * (1.0 - ease) > 0.0;
    } else if gap < 0.0 {
      assert (-gap) * ease > 0.0;
      assert (-gap) * (1.0 - ease) > 0.0;
    }
  }

  // ---------------------------------------------------------------------
  // Snapping to a whole item

  /** `Math.round`: the nearest integer, halves rounded up. */
  function Round(v: real): int {
    (v + 0.5).Floor
  }

  /** The scroll target moved to the nearest whole multiple of `width`,
      keeping its sign: it moves by at most half a width. */
  function Snap(target: real, width: real): (r: real)
    requires width > 0.0
    ensures target < 0.0 ==> r <= 0.0
    ensures target >= 0.0 ==> r >= 0.0
    ensures Abs(r - target) <= width / 2.0
  {
    var itemIndex := Round(Abs(target) / width);
    NearestMultiple(Abs(target), width);
    assert width * itemIndex as real >= 0.0;
    var item := width * itemIndex as real;
    if target < 0.0 then -item else item
  }

  /** A non-negative `a` is within `w / 2` of `w` times its rounded
      quotient, and that quotient is not negative. */
  lemma NearestMultiple(a: real, w: real)
    requires a >= 0.0 && w > 0.0
    ensures Round(a / w) >= 0
    ensures -(w / 2.0) <= w * Round(a / w) as real - a <= w / 2.0
  {
    var q := a / w;
    var n := Round(q);
    assert q * w == a;
    assert q >= 0.0;
    var d := n as real - q;
    assert -0.5 < d <= 0.5;
    assert w * n as real - a == w * d;
    if d >= 0.0 {
      assert w * (0.5 - d) >= 0.0;
      assert w * d >= 0.0;
    } else {
      assert w * (d + 0.5) >= 0.0;
      assert w * (-d) >= 0.0;
    }
  }

  /** The snapped target is `k` whole widths, with `k` of the target's
      sign. */
  lemma SnapMultiple(target: real, width: real) returns (k: int)
    requires width > 0.0
    ensures Snap(target, width) == k as real * width
    ensures target < 0.0 ==> k <= 0
    ensures target >= 0.0 ==> k >= 0
  {
    var n := Round(Abs(target) / width);
    NearestMultiple(Abs(target), width);
    k := if target < 0.0 then -n else n;
  }

  /** Multiplying by a non-zero width and dividing by it again is the
      identity. */
  lemma DivCancel(m: real, w: real)
    requires w != 0.0
    ensures (m * w) / w == m
  {
  }

  /** A whole multiple of the width snaps to itself. */
  lemma SnapOfMultiple(k: int, width: real)
    requires width > 0.0
    ensures Snap(k as real * width, width) == k as real * width
  {
    var m: nat := if k < 0 then -k else k;
    var a := m as real * width;
    assert Abs(k as real * width) == a by {
      if k < 0 {
        assert k as real * width == -a;
      }
    }
    DivCancel(m as real, width);
    assert a / width == m as real;
    assert (m as real + 0.5).Floor == m;
    assert Round(Abs(k as real * width) / width) == m;
    if k < 0 {
      assert k as real * width < 0.0 by {
        assert m as real * width > 0.0;
      }
      assert -(width * m as real) == k as real * width;
    } else {
      assert k as real * width >= 0.0;
      assert width * m as real == k as real * width;
    }
  }

  /** Snapping a snapped target changes nothing. */
  lemma SnapIdempotent(target: real, width: real)
    requires width > 0.0
    ensures Snap(Snap(target, width), width) == Snap(target, width)
  {
    var k := SnapMultiple(target, width);
    SnapOfMultiple(k, width);
  }

  // ---------------------------------------------------------------------
  // Input

  /** The first of the wheel event's three delta fields that is not zero
      (an absent field reads as zero). */
  function WheelDelta(deltaY: real, wheelDelta: real, detail: real): real {
    if deltaY != 0.0 then deltaY else if wheelDelta != 0.0 then wheelDelta else detail
  }

  /** The target after one wheel event: a fifth of the scroll speed
      forward for a positive delta, backward otherwise. */
  function WheelTarget(target: real, scrollSpeed: real, delta: real): (r: real)
    ensures delta > 0.0 ==> r == target + scrollSpeed / 5.0
    ensures delta <= 0.0 ==> r == target - scrollSpeed / 5.0
  {
    target + (if delta > 0.0 then scrollSpeed else -scrollSpeed) * 0.2
  }

  /** The target while dragging: where the drag started, plus the pointer's
      travel scaled by the scroll speed. With a positive speed, dragging the
      pointer left moves the target forward and dragging right moves it
      back; back at the start the target is the grab position. */
  function DragTarget(position: real, start: real, clientX: real, scrollSpeed: real): (r: real)
    ensures scrollSpeed > 0.0 && clientX < start ==> r > position
    ensures scrollSpeed > 0.0 && clientX > start ==> r < position
    ensures clientX == start ==> r == position
  {
    var travel := start - clientX;
    var factor := scrollSpeed * 0.025;
    assert factor > 0.0 && travel > 0.0 ==> travel * factor > 0.0;
    assert factor > 0.0 && travel < 0.0 ==> (-travel) * factor > 0.0;
    position + travel * factor
  }

  /** A release counts as a tap when it came quickly and nearly in place. */
  predicate IsTap(timeDiff: int, distDiff: real) {
    timeDiff < 250 && distDiff < 10.0
  }

  // ---------------------------------------------------------------------
  // Hit testing

  const HitRadius: real := 0.3

  /** The tap's horizontal position in normalised device coordinates: the
      rectangle's left edge is -1, its right edge 1, and a tap inside it
      lands in between. */
  function MouseX(x: real, rect: Rect): (m: real)
    requires rect.width != 0.0
    ensures x == rect.left ==> m == -1.0
    ensures x == rect.left + rect.width ==> m == 1.0
    ensures rect.width > 0.0 && rect.left <= x <= rect.left + rect.width ==> -1.0 <= m <= 1.0
  {
    var q := (x - rect.left) / rect.width;
    assert q * rect.width == x - rect.left;
    assert rect.width > 0.0 && rect.left <= x <= rect.left + rect.width ==> 0.0 <= q <= 1.0;
    q * 2.0 - 1.0
  }

  /** How far each plane's centre is from the tap, in normalised device
      coordinates. */
  function Distances(planeXs: seq<real>, halfWidth: real, mouseX: real): (ds: seq<real>)
    requires halfWidth != 0.0
    ensures |ds| == |planeXs|
  {
    seq(|planeXs|, i requires 0 <= i < |planeXs| => Abs(planeXs[i] / halfWidth - mouseX))
  }

  /** The first nearest plane, provided it is within the hit radius. */
  function Nearest(ds: seq<real>): (r: Option<nat>)
    ensures r.Some? ==> r.value < |ds| && ds[r.value] < HitRadius
    ensures |ds| == 0 ==> r.None?
  {
    if |ds| == 0 then None
    else
      var k := FirstMinIndex(ds);
      if ds[k] < HitRadius then Some(k) else None
  }

  /** A hit is the first plane at the least distance and is within the
      radius; there is no hit exactly when every plane is outside it. */
  lemma NearestIsClosest(ds: seq<real>)
    ensures Nearest(ds).Some? ==>
      var k := Nearest(ds).value;
      ds[k] < HitRadius
      && (forall j :: 0 <= j < |ds| ==> ds[k] <= ds[j])
      && (forall j :: 0 <= j < k ==> ds[k] < ds[j])
    ensures Nearest(ds).None? <==> forall j :: 0 <= j < |ds| ==> ds[j] >= HitRadius
  {
    if |ds| > 0 {
      FirstMinIndexIsMin(ds);
    }
  }

  // ---------------------------------------------------------------------
  // One frame of a media

  /** What a media's per-frame update depends on. */
  datatype Geometry = Geometry(x: real, scaleX: real, widthTotal: real, viewportWidth: real, isVideo: bool)

  /** What a media's per-frame update changes. */
  datatype Frame = Frame(extra: real, planeX: real, isBefore: bool, isAfter: bool, playing: bool)

  /** The plane lies wholly past the left edge of the viewport. */
  predicate Before(g: Geometry, planeX: real) {
    planeX + g.scaleX / 2.0 < -(g.viewportWidth / 2.0)
  }

  /** The plane lies wholly past the right edge of the viewport. */
  predicate After(g: Geometry, planeX: real) {
    planeX - g.scaleX / 2.0 > g.viewportWidth / 2.0
  }

  /** Near enough to the centre for a video to play. */
  predicate Centred(g: Geometry, planeX: real) {
    Abs(planeX) < g.viewportWidth * 0.4 && !Before(g, planeX) && !After(g, planeX)
  }

  /** A media's frame after one animation frame at scroll position
      `current` moving in direction `dir`: `extra` moves by a strip width
      one way, the other way, or not at all, and only a video changes its
      play state. */
  function Step(g: Geometry, f: Frame, current: real, dir: Direction): (r: Frame)
    ensures r.extra == f.extra || r.extra == f.extra - g.widthTotal || r.extra == f.extra + g.widthTotal
    ensures !g.isVideo ==> r.playing == f.playing
  {
    var px := g.x - current - f.extra;
    var playing := if g.isVideo then Centred(g, px) else f.playing;
    if dir == Right && Before(g, px) then Frame(f.extra - g.widthTotal, px, false, false, playing)
    else if dir == Left && After(g, px) then Frame(f.extra + g.widthTotal, px, false, false, playing)
    else Frame(f.extra, px, Before(g, px), After(g, px), playing)
  }

  /** The recycling rule: moving right, a plane gone past the left edge
      has `extra` lowered by the strip's total width; moving left, one gone
      past the right edge has it raised; either shift clears both flags.
      Otherwise `extra` stays and the flags report the plane's side. */
  lemma StepRecycles(g: Geometry, f: Frame, current: real, dir: Direction)
    ensures var r := Step(g, f, current, dir);
      var px := g.x - current - f.extra;
      r.planeX == px
      && (dir == Right && Before(g, px) ==> r.extra == f.extra - g.widthTotal && !r.isBefore && !r.isAfter)
      && (dir == Left && After(g, px) ==> r.extra == f.extra + g.widthTotal && !r.isBefore && !r.isAfter)
      && (!(dir == Right && Before(g, px)) && !(dir == Left && After(g, px)) ==>
            r.extra == f.extra && r.isBefore == Before(g, px) && r.isAfter == After(g, px))
  {
  }

  /** A recycled plane, drawn at the same scroll position, reappears one
      strip width further along: to the right when moving right, to the
      left when moving left. */
  lemma StepWraps(g: Geometry, f: Frame, current: real, dir: Direction)
    requires g.widthTotal != 0.0
    ensures var r := Step(g, f, current, dir);
      var next := g.x - current - r.extra;
      (r.extra != f.extra ==> next == r.planeX + (if dir == Right then g.widthTotal else -g.widthTotal))
      && (r.extra == f.extra ==> next == r.planeX)
  {
  }

  /** With a non-negative plane and viewport size no plane is past both
      edges, and a playing video is never one that is being recycled. */
  lemma StepFlags(g: Geometry, f: Frame, current: real, dir: Direction)
    requires g.scaleX >= 0.0 && g.viewportWidth >= 0.0
    ensures var r := Step(g, f, current, dir);
      !(r.isBefore && r.isAfter)
      && (g.isVideo && r.playing ==> r.extra == f.extra && !r.isBefore && !r.isAfter)
      && (!g.isVideo ==> r.playing == f.playing)
  {
  }

  /** Frames at a sequence of scroll positions and directions. */
  function Run(g: Geometry, f: Frame, moves: seq<(real, Direction)>): Frame
    decreases |moves|
  {
    if |moves| == 0 then f
    else
      var last := moves[|moves| - 1];
      Step(g, Run(g, f, moves[..|moves| - 1]), last.0, last.1)
  }

  /** However long the gallery runs, `extra` only ever moves by whole strip
      widths: `up` shifts one way and `down` the other. */
  lemma {:induction false} RunExtra(g: Geometry, f: Frame, moves: seq<(real, Direction)>)
    returns (up: nat, down: nat)
    ensures Run(g, f, moves).extra == f.extra + Times(up, g.widthTotal) - Times(down, g.widthTotal)
    decreases |moves|
  {
    if |moves| == 0 {
      up, down := 0, 0;
    } else {
      var prev := Run(g, f, moves[..|moves| - 1]);
      var u, d := RunExtra(g, f, moves[..|moves| - 1]);
      var last := moves[|moves| - 1];
      var e := Step(g, prev, last.0, last.1).extra;
      if e == prev.extra - g.widthTotal {
        up, down := u, d + 1;
      } else if e == prev.extra + g.widthTotal {
        up, down := u + 1, d;
      } else {
        up, down := u, d;
      }
    }
  }

  // ---------------------------------------------------------------------
  // Size and spacing

  const Padding: real := 2.0

  /** The sizes a resize needs: a container with width, which the plane's
      scale divides by, and a non-negative container height and viewport
      width, so that no plane has a negative width. */
  predicate Measurable(screen: Size, viewport: Size) {
    screen.width > 0.0 && screen.height >= 0.0 && viewport.width >= 0.0
  }

  /** The plane's width in world units: 700 pixels at a 1500-pixel-high
      container, scaled with the container's height. */
  function PlaneScaleX(screen: Size, viewport: Size): (w: real)
    requires Measurable(screen, viewport)
  {
    viewport.width * (700.0 * (screen.height / 1500.0)) / screen.width
  }

  lemma PlaneScaleXNonNegative(screen: Size, viewport: Size)
    requires Measurable(screen, viewport)
    ensures PlaneScaleX(screen, viewport) >= 0.0
  {
    var s := 700.0 * (screen.height / 1500.0);
    assert s >= 0.0;
    assert viewport.width * s >= 0.0;
  }

  /** Planes `n` apart on a strip of `2n` are half a strip apart. */
  lemma StripHalf(i: nat, n: nat, width: real)
    ensures Times(i + n, width) == Times(i, width) + Times(2 * n, width) / 2.0
  {
    TimesAdd(i, n, width);
    TimesAdd(n, n, width);
  }

  /** The sizing of one plane. */
  datatype Sizing = Sizing(screen: Size, viewport: Size, scaleX: real, width: real, widthTotal: real, x: real)

  /** Plane `index` of a strip of `length` sized for the given sizes: each
      plane is its width plus padding apart, `x` is `index` of those steps and
      the strip's total width is `length` of them. */
  predicate SizedFor(s: Sizing, index: nat, length: nat) {
    Measurable(s.screen, s.viewport)
    && s.scaleX == PlaneScaleX(s.screen, s.viewport)
    && s.width == s.scaleX + Padding
    && s.widthTotal == Times(length, s.width)
    && s.x == Times(index, s.width)
  }

  // ---------------------------------------------------------------------
  // State

  /** Where each plane is drawn, in strip order. */
  ghost function Positions(ms: seq<Media>): (r: seq<real>)
    reads ms
    ensures |r| == |ms|
  {
    seq(|ms|, i reads ms requires 0 <= i < |ms| => ms[i].planeX)
  }

  /** One plane of the strip. */
  class Media {
    const image: string
    const text: string
    const index: nat
    const length: nat
    const isVideo: bool
    var screen: Size
    var viewport: Size
    var scaleX: real
    var width: real
    var widthTotal: real
    var x: real
    var extra: real
    var planeX: real
    var isBefore: bool
    var isAfter: bool
    /** Whether the video has been told to play; a video starts paused. */
    var playing: bool

    /** The fields a resize sets. */
    function Sizes(): Sizing
      reads this`screen, this`viewport, this`scaleX, this`width, this`widthTotal, this`x
    {
      Sizing(screen, viewport, scaleX, width, widthTotal, x)
    }

    /** The sizing fields agree with the last sizes given. */
    ghost predicate Sized()
      reads this`screen, this`viewport, this`scaleX, this`width, this`widthTotal, this`x
    {
      SizedFor(Sizes(), index, length)
    }

    function Geom(): Geometry
      reads this`x, this`scaleX, this`widthTotal, this`viewport
    {
      Geometry(x, scaleX, widthTotal, viewport.width, isVideo)
    }

    function State(): Frame
      reads this`extra, this`planeX, this`isBefore, this`isAfter, this`playing
    {
      Frame(extra, planeX, isBefore, isAfter, playing)
    }

    constructor(item: GalleryItem, index: nat, length: nat, screen: Size, viewport: Size)
      requires Measurable(screen, viewport)
      ensures image == item.image && text == item.text
      ensures this.index == index && this.length == length
      ensures isVideo == IsVideoUrl(item.image)
      ensures this.screen == screen && this.viewport == viewport && Sized()
      ensures State() == Frame(0.0, 0.0, false, false, false)
    {
      this.image := item.image;
      this.text := item.text;
      this.index := index;
      this.length := length;
      this.isVideo := IsVideoUrl(item.image);
      this.screen := screen;
      this.viewport := viewport;
      this.extra := 0.0;
      this.planeX := 0.0;
      this.isBefore := false;
      this.isAfter := false;
      this.playing := false;
      new;
      OnResize(None, None);
    }

    /** Adopts whichever sizes are given and recomputes the plane's width,
        its position on the strip and the strip's total width. */
    method OnResize(newScreen: Option<Size>, newViewport: Option<Size>)
      requires Measurable(newScreen.GetOr(screen), newViewport.GetOr(viewport))
      modifies this`screen, this`viewport, this`scaleX, this`width, this`widthTotal, this`x
      ensures screen == newScreen.GetOr(old(screen)) && viewport == newViewport.GetOr(old(viewport))
      ensures Sized() && width >= Padding
    {
      if newScreen.Some? {
        screen := newScreen.value;
      }
      if newViewport.Some? {
        viewport := newViewport.value;
      }
      scaleX := PlaneScaleX(screen, viewport);
      PlaneScaleXNonNegative(screen, viewport);
      width := scaleX + Padding;
      widthTotal := Times(length, width);
      x := Times(index, width);
    }

    /** One animation frame: place the plane, flag which side of the
        viewport it has left by, play or pause a video, and recycle a plane
        that has left on the trailing side. */
    method Update(current: real, dir: Direction)
      modifies this`extra, this`planeX, this`isBefore, this`isAfter, this`playing
      ensures State() == Step(Geom(), old(State()), current, dir)
    {
      planeX := x - current - extra;
      var planeOffset := scaleX / 2.0;
      var viewportOffset := viewport.width / 2.0;
      isBefore := planeX + planeOffset < -viewportOffset;
      isAfter := planeX - planeOffset > viewportOffset;
      if isVideo {
        var distFromCenter := Abs(planeX);
        if distFromCenter < viewport.width * 0.4 && !isBefore && !isAfter {
          if !playing {
            playing := true;
          }
        } else if playing {
          playing := false;
        }
      }
      if dir == Right && isBefore {
        extra := extra - widthTotal;
        isBefore := false;
        isAfter := false;
      }
      if dir == Left && isAfter {
        extra := extra + widthTotal;
        isBefore := false;
        isAfter := false;
      }
    }
  }

  /** The scroll record: easing factor, eased position, target, the
      position at the last frame, and where the current drag began. */
  datatype Scroll = Scroll(ease: real, current: real, target: real, last: real, position: Option<real>)

  /** Runs one animation frame on every media of a strip, in order. Media
      `j` carries index `j`, so no media is updated twice. */
  method UpdateAll(ms: seq<Media>, current: real, dir: Direction)
    requires forall j :: 0 <= j < |ms| ==> ms[j].index == j
    modifies ms
    ensures forall j :: 0 <= j < |ms| ==> ms[j].Sizes() == old(ms[j].Sizes())
    ensures forall j :: 0 <= j < |ms| ==>
      ms[j].State() == Step(old(ms[j].Geom()), old(ms[j].State()), current, dir)
  {
    var i := 0;
    while i < |ms|
      invariant 0 <= i <= |ms|
      invariant forall j :: 0 <= j < |ms| ==> ms[j].Sizes() == old(ms[j].Sizes())
      invariant forall j :: 0 <= j < i ==>
        ms[j].State() == Step(old(ms[j].Geom()), old(ms[j].State()), current, dir)
      invariant forall j :: i <= j < |ms| ==> ms[j].State() == old(ms[j].State())
    {
      ms[i].Update(current, dir);
      i := i + 1;
    }
  }

  /** The gallery: the strip of medias and the scroll state driven by
      wheel, drag and animation frames. */
  class App {
    const scrollSpeed: real
    const hasItemClick: bool
    var scroll: Scroll
    var isDown: bool
    var start: real
    var clickStartX: real
    var clickStartTime: int
    var screen: Size
    var viewport: Size
    var mediasImages: seq<GalleryItem>
    var medias: seq<Media>

    /** The strip is two equal halves, media `i` knows its index and the
        strip's length (so no media appears twice), and every media is
        sized for the gallery's current sizes. */
    ghost predicate Valid()
      reads this`medias, this`mediasImages, this`screen, this`viewport, medias
    {
      Measurable(screen, viewport)
      && |mediasImages| > 0 && |mediasImages| % 2 == 0 && |medias| == |mediasImages|
      && (forall j :: 0 <= j < |mediasImages| / 2 ==> mediasImages[j + |mediasImages| / 2] == mediasImages[j])
      && (forall i :: 0 <= i < |medias| ==>
            medias[i].index == i && medias[i].length == |medias| && medias[i].image == mediasImages[i].image
            && medias[i].screen == screen && medias[i].viewport == viewport && medias[i].Sized())
    }

    ghost function PlanePositions(): (r: seq<real>)
      reads this`medias, medias
      ensures |r| == |medias|
    {
      Positions(medias)
    }

    constructor(items: seq<GalleryItem>, screen: Size, viewport: Size, scrollSpeed: real,
                scrollEase: real, hasItemClick: bool)
      requires Measurable(screen, viewport)
      ensures Valid()
      ensures mediasImages == MediasImages(items)
      ensures this.screen == screen && this.viewport == viewport
      ensures this.scrollSpeed == scrollSpeed && this.hasItemClick == hasItemClick
      ensures scroll == Scroll(scrollEase, 0.0, 0.0, 0.0, None)
      ensures !isDown && start == 0.0 && clickStartX == 0.0 && clickStartTime == 0
      ensures forall i :: 0 <= i < |medias| ==>
        fresh(medias[i]) && medias[i].text == mediasImages[i].text
        && medias[i].State() == Step(medias[i].Geom(), Frame(0.0, 0.0, false, false, false), 0.0, Left)
    {
      this.scrollSpeed := scrollSpeed;
      this.hasItemClick := hasItemClick;
      this.scroll := Scroll(scrollEase, 0.0, 0.0, 0.0, None);
      this.isDown := false;
      this.start := 0.0;
      this.clickStartX := 0.0;
      this.clickStartTime := 0;
      this.screen := screen;
      this.viewport := viewport;
      StripHalves(items);
      var images := MediasImages(items);
      var ms := CreateMedias(images, screen, viewport);
      this.mediasImages := images;
      this.medias := ms;
      new;
      // The first animation frame: the position stays at 0, so the strip
      // counts as moving left.
      var _ := Update();
    }

    /** Plane `i + n` of a `2n` strip sits exactly half the strip's width
        after plane `i`. */
    lemma StripSpacing()
      requires Valid()
      ensures forall i :: 1 <= i < |medias| ==> medias[i].x == medias[i - 1].x + medias[i].width
      ensures forall i :: 0 <= i < |medias| / 2 ==>
        medias[i + |medias| / 2].x == medias[i].x + medias[i].widthTotal / 2.0
    {
      var n := |medias| / 2;
      forall i | 1 <= i < |medias|
        ensures medias[i].x == medias[i - 1].x + medias[i].width
      {
        assert medias[i].width == medias[i - 1].width;
      }
      forall i | 0 <= i < n
        ensures medias[i + n].x == medias[i].x + medias[i].widthTotal / 2.0
      {
        assert medias[i + n].width == medias[i].width;
        assert |medias| == 2 * n;
        StripHalf(i, n, medias[i].width);
      }
    }

    /** One animation frame: ease the position toward the target, derive
        the direction from the last frame's position, update every media,
        and remember the position. */
    method Update() returns (direction: Direction)
      requires Valid()
      modifies this`scroll, medias
      ensures Valid()
      ensures var current := Lerp(old(scroll.current), old(scroll.target), old(scroll.ease));
        scroll == old(scroll).(current := current, last := current)
        && direction == (if current > old(scroll.last) then Right else Left)
      ensures forall i :: 0 <= i < |medias| ==>
        medias[i].Sizes() == old(medias[i].Sizes())
        && medias[i].State() == Step(old(medias[i].Geom()), old(medias[i].State()), scroll.current, direction)
    {
      var current := Lerp(scroll.current, scroll.target, scroll.ease);
      scroll := scroll.(current := current);
      direction := if current > scroll.last then Right else Left;
      UpdateAll(medias, current, direction);
      scroll := scroll.(last := current);
    }

    /** A new size: adopt it and resize every media. */
    method OnResize(newScreen: Size, newViewport: Size)
      requires Valid() && Measurable(newScreen, newViewport)
      modifies this`screen, this`viewport, medias
      ensures Valid() && screen == newScreen && viewport == newViewport
      ensures forall i :: 0 <= i < |medias| ==> medias[i].State() == old(medias[i].State())
    {
      screen := newScreen;
      viewport := newViewport;
      ResizeAll(medias, screen, viewport);
    }

    /** Snaps the target to the nearest whole plane width; does nothing
        while there are no medias. */
    method OnCheck()
      requires |medias| > 0 ==> medias[0].width > 0.0
      modifies this`scroll
      ensures |medias| == 0 ==> scroll == old(scroll)
      ensures |medias| > 0 ==> scroll == old(scroll).(target := Snap(old(scroll.target), medias[0].width))
    {
      if |medias| == 0 {
        return;
      }
      var width := medias[0].width;
      var itemIndex := Round(Abs(scroll.target) / width);
      var item := width * itemIndex as real;
      scroll := scroll.(target := if scroll.target < 0.0 then -item else item);
    }

    /** A wheel event nudges the target forward or back. */
    method OnWheel(deltaY: real, wheelDelta: real, detail: real)
      modifies this`scroll
      ensures scroll == old(scroll).(target := WheelTarget(old(scroll.target), scrollSpeed, WheelDelta(deltaY, wheelDelta, detail)))
    {
      var delta := WheelDelta(deltaY, wheelDelta, detail);
      scroll := scroll.(target := scroll.target + (if delta > 0.0 then scrollSpeed else -scrollSpeed) * 0.2);
    }

    /** A press: remember the scroll position, where and when it began. */
    method OnTouchDown(clientX: real, now: int)
      modifies this`isDown, this`scroll, this`start, this`clickStartX, this`clickStartTime
      ensures isDown && scroll == old(scroll).(position := Some(old(scroll.current)))
      ensures start == clientX && clickStartX == clientX && clickStartTime == now
    {
      isDown := true;
      scroll := scroll.(position := Some(scroll.current));
      start := clientX;
      clickStartX := start;
      clickStartTime := now;
    }

    /** A drag moves the target with the pointer; ignored unless pressed. */
    method OnTouchMove(clientX: real)
      modifies this`scroll
      ensures !isDown ==> scroll == old(scroll)
      ensures isDown ==> scroll == old(scroll).(target := DragTarget(old(scroll.position).GetOr(0.0), start, clientX, scrollSpeed))
    {
      if !isDown {
        return;
      }
      var distance := (start - clientX) * (scrollSpeed * 0.025);
      scroll := scroll.(target := scroll.position.GetOr(0.0) + distance);
    }

    /** The item a tap at `x` opens, if any. */
    ghost function Tapped(x: real, rect: Rect): Option<GalleryItem>
      requires Valid() && rect.width != 0.0 && viewport.width != 0.0
      reads this`medias, this`mediasImages, this`screen, this`viewport, medias
    {
      match Nearest(Distances(PlanePositions(), viewport.width / 2.0, MouseX(x, rect)))
      case None => None
      case Some(k) => Some(mediasImages[medias[k].index % (|mediasImages| / 2)])
    }

    /** A tap opens the gallery item of the nearest plane within the hit
        radius, as the strip's first half lists it; it opens nothing when no
        item-click handler is installed. */
    method HandleClick(x: real, rect: Rect) returns (emitted: Option<GalleryItem>)
      requires Valid() && (hasItemClick ==> rect.width != 0.0 && viewport.width != 0.0)
      ensures emitted == if hasItemClick then Tapped(x, rect) else None
    {
      if !hasItemClick {
        return None;
      }
      var hit := NearestMedia(medias, viewport.width / 2.0, MouseX(x, rect));
      if hit.Some? {
        var media := medias[hit.value];
        var originalIndex := media.index % (|mediasImages| / 2);
        emitted := Some(mediasImages[originalIndex]);
      } else {
        emitted := None;
      }
    }

    /** The item a tap opens is the nearest plane's own entry of the strip. */
    lemma TappedItem(x: real, rect: Rect)
      requires Valid() && rect.width != 0.0 && viewport.width != 0.0
      ensures var hit := Nearest(Distances(PlanePositions(), viewport.width / 2.0, MouseX(x, rect)));
        (hit.None? ==> Tapped(x, rect) == None)
        && (hit.Some? ==> Tapped(x, rect) == Some(mediasImages[hit.value]))
    {
      var hit := Nearest(Distances(PlanePositions(), viewport.width / 2.0, MouseX(x, rect)));
      if hit.Some? {
        HalfIndex(mediasImages, hit.value);
      }
    }

    /** A release: end the drag, snap the target, and treat a quick release
        in place as a tap. */
    method OnTouchUp(endX: real, now: int, rect: Rect) returns (emitted: Option<GalleryItem>)
      requires Valid()
      requires IsTap(now - clickStartTime, Abs(endX - clickStartX)) && hasItemClick ==>
                 rect.width != 0.0 && viewport.width != 0.0
      modifies this`isDown, this`scroll
      ensures !isDown && scroll == old(scroll).(target := Snap(old(scroll.target), medias[0].width))
      ensures IsTap(now - clickStartTime, Abs(endX - clickStartX)) ==>
        emitted == if hasItemClick then Tapped(endX, rect) else None
      ensures !IsTap(now - clickStartTime, Abs(endX - clickStartX)) ==> emitted == None
    {
      isDown := false;
      SizedWidth(medias[0]);
      OnCheck();
      var timeDiff := now - clickStartTime;
      var distDiff := Abs(endX - clickStartX);
      if IsTap(timeDiff, distDiff) {
        emitted := HandleClick(endX, rect);
      } else {
        emitted := None;
      }
    }
  }

  /** One media per strip entry, media `i` carrying index `i` and the
      strip's length, each sized for the given sizes and not yet moved. */
  method CreateMedias(images: seq<GalleryItem>, screen: Size, viewport: Size) returns (ms: seq<Media>)
    requires Measurable(screen, viewport)
    ensures |ms| == |images|
    ensures forall k :: 0 <= k < |ms| ==>
      fresh(ms[k]) && ms[k].index == k && ms[k].length == |images|
      && ms[k].image == images[k].image && ms[k].text == images[k].text
      && ms[k].screen == screen && ms[k].viewport == viewport && ms[k].Sized()
      && ms[k].State() == Frame(0.0, 0.0, false, false, false)
  {
    ms := [];
    var i := 0;
    while i < |images|
      invariant 0 <= i <= |images| && |ms| == i
      invariant forall k :: 0 <= k < i ==>
        fresh(ms[k]) && ms[k].index == k && ms[k].length == |images|
        && ms[k].image == images[k].image && ms[k].text == images[k].text
        && ms[k].screen == screen && ms[k].viewport == viewport && ms[k].Sized()
        && ms[k].State() == Frame(0.0, 0.0, false, false, false)
    {
      var m := new Media(images[i], i, |images|, screen, viewport);
      ms := ms + [m];
      i := i + 1;
    }
  }

  /** The scan for the plane nearest a tap: the first plane at the least
      distance, kept only when that distance is within the hit radius. */
  method NearestMedia(ms: seq<Media>, halfWidth: real, mouseX: real) returns (hit: Option<nat>)
    requires halfWidth != 0.0
    ensures hit == Nearest(Distances(Positions(ms), halfWidth, mouseX))
  {
    ghost var ds := Distances(Positions(ms), halfWidth, mouseX);
    var closest: Option<nat> := None;
    // None stands for the initial Infinity.
    var minDistance: Option<real> := None;
    var i := 0;
    while i < |ms|
      invariant 0 <= i <= |ms| == |ds|
      invariant closest.None? <==> i == 0
      invariant closest.None? <==> minDistance.None?
      invariant closest.Some? ==>
        closest.value == FirstMinIndex(ds[..i]) && minDistance == Some(ds[closest.value])
    {
      var planeX := ms[i].planeX;
      var ndcX := planeX / halfWidth;
      var dist := Abs(ndcX - mouseX);
      assert dist == ds[i];
      assert ds[..i + 1][..i] == ds[..i];
      if minDistance.None? || dist < minDistance.value {
        minDistance := Some(dist);
        closest := Some(i);
      }
      i := i + 1;
    }
    assert ds[..|ds|] == ds;
    if closest.Some? && minDistance.value < HitRadius {
      hit := closest;
    } else {
      hit := None;
    }
  }

  /** A sized plane is at least the padding wide. */
  lemma SizedWidth(m: Media)
    requires m.Sized()
    ensures m.width >= Padding
  {
    PlaneScaleXNonNegative(m.screen, m.viewport);
  }

  /** Resizes every media of a strip to the given sizes. */
  method ResizeAll(ms: seq<Media>, screen: Size, viewport: Size)
    requires Measurable(screen, viewport)
    requires forall j :: 0 <= j < |ms| ==> ms[j].index == j
    modifies ms
    ensures forall j :: 0 <= j < |ms| ==> ms[j].State() == old(ms[j].State())
    ensures forall j :: 0 <= j < |ms| ==> ms[j].screen == screen && ms[j].viewport == viewport && ms[j].Sized()
  {
    var i := 0;
    while i < |ms|
      invariant 0 <= i <= |ms|
      invariant forall j :: 0 <= j < |ms| ==> ms[j].State() == old(ms[j].State())
      invariant forall j :: 0 <= j < i ==> ms[j].screen == screen && ms[j].viewport == viewport && ms[j].Sized()
    {
      ms[i].OnResize(Some(screen), Some(viewport));
      i := i + 1;
    }
  }

  /** The lightbox the gallery opens on a tap. */
  class GalleryModal {
    var selected: Option<GalleryItem>

    constructor()
      ensures selected == None
    {
      selected := None;
    }

    /** The item-click handler: show the tapped item. */
    method Open(item: GalleryItem)
      modifies this
      ensures selected == Some(item)
    {
      selected := Some(item);
    }

    /** The close button and the backdrop. */
    method Close()
      modifies this
      ensures selected == None
    {
      selected := None;
    }

    /** The lightbox plays the item as a video rather than showing it as an
        image. */
    predicate ShowsVideo(): (b: bool)
      reads this
      ensures b ==> selected.Some? && IsVideoUrl(selected.value.image)
    {
      selected.Some? && LightboxIsVideo(selected.value.image)
    }
  }
}
