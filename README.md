# Portfolio site: verified model of its interactive components

This project models in Dafny the logic of four parts of a personal portfolio site (a Next.js/React application) and proves properties of that model:

- **Masonry photo grid** (`masonry.dfy`).
  - A breakpoint table picks 1 to 5 columns.
  - Tiles are packed greedily onto the first shortest column. The per-item loop raises one entry of a column-height array in place.
  - The container height is computed from the packed tiles.
  - Each tile's entrance animation gets a start position and a delay.
  - A lightbox shows the selected tile in colour.
- **Folder widget** (`folder.dfy`).
  - The hex colour codec `darkenColor`.
  - Four paper slots filled from the widget's children.
  - The widget's state: the open flag, four magnet offsets, and the item shown in the modal.
- **Circular gallery**, its scroll model without rendering (`gallery.dfy`).
  - The doubled strip of media planes and its even spacing.
  - Per-frame easing and the direction of travel.
  - Recycling of planes that leave the viewport, which makes the strip endless.
  - Snapping the scroll target to a whole plane width.
  - Wheel and drag input, tap detection, the nearest-plane hit test and the lightbox.
- **Home page video coordination** (`page.dfy`).
  - Two videos, the podcast and the advertisement, each with a "playing" flag.
  - They are paused and rewound when the stacked cards change or a video leaves the view.
  - The modal for the upcoming-project clips.

`common.dfy` holds shared helpers:

- an `Option` type;
- counted multiples `Times`, which keep products of a count and a real linear;
- Euclidean division facts;
- the first-minimum search behind `indexOf(Math.min(...))` and the strict `<` scan;
- the maximum behind `Math.max(...)`;
- the substring search behind `endsWith` and `replace`.

## How the model is built

- **Numbers.** JavaScript numbers are exact `real`s.
  - `Math.floor` becomes `.Floor`.
  - `Math.round(v)` becomes `(v + 0.5).Floor`, which is JavaScript's rule: halves round up.
- **Time and the browser.** Time, pointer coordinates, the container's size and bounding rectangle, and the camera viewport are parameters.
- **State.**
  - Where the source updates state in place, the model is a class with `modifies` frames: the gallery's `App` and `Media`, the folder widget, the two lightboxes, and the home page.
  - The masonry grid builder keeps its column-height `array`.
  - Each such method is proved against a function of the inputs and the old state. For example:
    - `Masonry.BuildGrid` equals the recursive `Masonry.Layout`;
    - `Gallery.Media.Update` equals `Gallery.Step`;
    - `Gallery.NearestMedia` equals `Gallery.Nearest`.
  - The properties are then proved about those functions.
- **React state setters** (`setX(...)`) are modelled as immediate field updates. Event handlers are separate method calls, in the order the browser delivers them.

Where a descriptive reading of the code and the code itself differ, the model follows the code:

- **Breakpoint lookup.** The masonry breakpoints come from the first matching `min-width` query, so 1000 px gives 4 columns.
- **The six-item example** (heights 400, 250, 600, 400, 300, 500 on 3 columns):
  - the fifth tile goes to column 0 at `y = 200`, because column 0 (200) is then the shortest;
  - the sixth tile goes to column 2 at `y = 300`.
- **Entrance delay.** It is `(index % columns) * stagger` with `index` in grid order, not the column a tile landed on. `Masonry.DelayIsNotByColumn` exhibits the difference.
- **Video detection.**
  - The gallery strip treats `.mp4`, `.webm` and `.ogg` as video.
  - Its lightbox treats only `.mp4` as video. A `.webm` item plays on the strip but opens as an `<img>` (`Gallery.LightboxVideoKinds`).

## Model

| member | source | states |
|---|---|---|
| Common.FirstMinIndexIsMin | Portfolio-main/src/components/Masonry.tsx:117 | the chosen index holds a value no larger than any entry, and every earlier entry is strictly larger (the first minimum) |
| Common.FirstMinIndexUnique | Portfolio-main/src/components/Masonry.tsx:117 | an index with those two properties is the one chosen |
| Common.SeqMaxIsMax | Portfolio-main/src/components/Masonry.tsx:130 | the maximum bounds every entry and is attained by one of them |
| Common.IndexOfFrom | Portfolio-main/src/components/Masonry.tsx:302 | result is the first occurrence at or after the start, or None exactly when there is none |
| Masonry.FindIndexFrom | Portfolio-main/src/components/Masonry.tsx:39-43 | `findIndex` over the `min-width` queries: the first threshold the viewport reaches, or -1 when it reaches none |
| Masonry.MediaValue | Portfolio-main/src/components/Masonry.tsx:39-43 | with no window the value is the default; otherwise it is the default or one of the table's values |
| Masonry.ColumnCount | Portfolio-main/src/components/Masonry.tsx:98-102 | the column count is always between 1 and 5 |
| Masonry.ColumnCountTable | Portfolio-main/src/components/Masonry.tsx:98-102 | with no window the count is 1; otherwise 5, 4, 3, 2 at 1500, 1000, 600, 400 px and 1 below; always in 1..5 |
| Masonry.ColumnCountMonotone | Portfolio-main/src/components/Masonry.tsx:98-102 | a wider viewport never gets fewer columns |
| Masonry.Place | Portfolio-main/src/components/Masonry.tsx:116-122 | placing an item appends one tile, keeps every tile already placed, keeps the number of columns, and leaves every column but the first shortest at its height |
| Masonry.Pack | Portfolio-main/src/components/Masonry.tsx:113-125 | the packing has one tile per item and one height per column |
| Masonry.GridFor | Portfolio-main/src/components/Masonry.tsx:110-126 | with a zero container width the grid is empty, otherwise it has one tile per item |
| Masonry.Layout | Portfolio-main/src/components/Masonry.tsx:110-126 | the grid is empty while the container has no width and has one tile per item otherwise |
| Masonry.HeightsIgnoreWidth | Portfolio-main/src/components/Masonry.tsx:113-124 | the column heights do not depend on the column width |
| Masonry.HeightsStep | Portfolio-main/src/components/Masonry.tsx:117-122 | item `i` goes to a valid column, the first of minimal height, and only that column grows, by exactly half the item's height |
| Masonry.Placement | Portfolio-main/src/components/Masonry.tsx:116-124 | tile `i` keeps the item's id, img, url and height, has `w` = column width, `h` = height/2, `x = Times(col, columnWidth)`, which is `col * columnWidth` by Common.TimesIsProduct, and `y` = its column's height before it |
| Masonry.LayoutShape | Portfolio-main/src/components/Masonry.tsx:110-126 | for a positive width the grid lists the items in order with `w = width/columns`, `h = height/2`, `0 <= col < columns`, `x = Times(col, w)` (that is `col * w`, by Common.TimesIsProduct), and `y` as above |
| Common.TimesIsProduct | Portfolio-main/src/components/Masonry.tsx:119 | `n` copies of `r` added up are `n * r`, so a tile's `Times(col, columnWidth)` is the source's `columnWidth * col` |
| Masonry.LayoutY | Portfolio-main/src/components/Masonry.tsx:120 | a tile's `y` is its column's height before the tile was placed |
| Masonry.HeightIsColumnTotal | Portfolio-main/src/components/Masonry.tsx:122 | each column's running height is the sum of the box heights placed on it |
| Masonry.HeightsGrow | Portfolio-main/src/components/Masonry.tsx:122 | with non-negative heights, no column height ever decreases |
| Masonry.HeightUntouched | Portfolio-main/src/components/Masonry.tsx:122 | a column's height stays put while items go to other columns |
| Masonry.Abut | Portfolio-main/src/components/Masonry.tsx:118-122 | consecutive tiles of one column abut: the next starts at the previous one's `y + h`, so they never overlap |
| Masonry.MaxHeightIsLowestBottom | Portfolio-main/src/components/Masonry.tsx:128-131 | container height is 0 for an empty grid; no tile reaches below it; a non-empty grid has a tile whose bottom is at it |
| Masonry.MaxHeightEmpty | Portfolio-main/src/components/Masonry.tsx:111 | with no container width, or no items, the container height is 0 |
| Masonry.MaxHeightOfPack | Portfolio-main/src/components/Masonry.tsx:113-131 | with non-negative heights, the lowest tile bottom of a packing equals its tallest column |
| Masonry.MaxHeightIsTallestColumn | Portfolio-main/src/components/Masonry.tsx:128-131 | the container height equals the largest final column height |
| Masonry.ShortestColumn | Portfolio-main/src/components/Masonry.tsx:117 | the scan over the height array returns the first index of the minimum |
| Masonry.BuildGrid | Portfolio-main/src/components/Masonry.tsx:110-126 | the in-place loop over the column-height array builds exactly the specified grid (`Layout`), empty for width 0 |
| Masonry.SixItemHeights | Portfolio-main/src/app/page.tsx:82-87 | the first six page items on 3 columns go to columns 0, 1, 2, 1, 0, 2 with running heights ending at [350, 325, 550] |
| Masonry.SixItemTrace | Portfolio-main/src/components/Masonry.tsx:113-125 | the same six items get `y` = 0, 0, 0, 125, 200, 300 |
| Masonry.SixItemContainer | Portfolio-main/src/components/Masonry.tsx:128-131 | the six-item container is 550 high |
| Masonry.Resolve | Portfolio-main/src/components/Masonry.tsx:137-142 | a fixed direction is used as given; `random` picks one of top, bottom, left, right |
| Masonry.InitialPosition | Portfolio-main/src/components/Masonry.tsx:133-161 | before mounting a tile starts where it ends; a vertical entrance keeps its `x`, a horizontal one its `y`, and a centred one puts the tile's centre on the container's centre |
| Masonry.EntranceGeometry | Portfolio-main/src/components/Masonry.tsx:133-161 | top is `(x, -200)`, bottom `(x, 100)`, left `(-200, y)`, right `(innerWidth + 200, y)`, centre puts the tile's centre on the container's centre; with no container rect a tile starts at `(x, y)` |
| Masonry.EntranceDelay | Portfolio-main/src/components/Masonry.tsx:206 | with a non-negative stagger the delay is never negative and never more than `(columns - 1) * stagger` |
| Masonry.DelayBounds | Portfolio-main/src/components/Masonry.tsx:206 | the first row starts one stagger apart; no delay exceeds `(columns - 1) * stagger` |
| Masonry.DelayIsNotByColumn | Portfolio-main/src/components/Masonry.tsx:206 | the delay follows grid order: the fourth of the six tiles sits on column 1 yet starts at delay 0 |
| Masonry.ColorUrl | Portfolio-main/src/components/Masonry.tsx:301-303 | removes exactly the first `?grayscale` and is the identity when there is none |
| Masonry.ColorUrlIdentity | Portfolio-main/src/components/Masonry.tsx:301-303 | the URL is unchanged exactly when it contains no `?grayscale`; otherwise it is 10 characters shorter |
| Masonry.Lightbox.constructor | Portfolio-main/src/components/Masonry.tsx:106 | no tile is selected at first |
| Masonry.Lightbox.Open | Portfolio-main/src/components/Masonry.tsx:263-264 | clicking a tile selects it |
| Masonry.Lightbox.Close | Portfolio-main/src/components/Masonry.tsx:280-290 | closing clears the selection |
| Folder.ParseHex6 | Portfolio-main/src/components/Folder.tsx:22 | six hex digits read as base 16, place by place |
| Folder.Channels | Portfolio-main/src/components/Folder.tsx:23-25 | the shifts and masks yield three bytes |
| Folder.ChannelsOf | Portfolio-main/src/components/Folder.tsx:23-25 | three bytes packed as `r*65536 + g*256 + b` split back into the same r, g, b |
| Folder.Clamp | Portfolio-main/src/components/Folder.tsx:26-28 | the result is a byte, and a byte is kept |
| Folder.Darkened | Portfolio-main/src/components/Folder.tsx:26-28 | the darkened channels are bytes |
| Folder.Scale | Portfolio-main/src/components/Folder.tsx:26-28 | a darkened channel is always a byte, whatever the percent |
| Folder.ScaleBounds | Portfolio-main/src/components/Folder.tsx:26-28 | each channel lands in 0..255 for any percent; for percent in [0, 1] it never gets brighter; percent 1 gives 0 |
| Folder.ScaleIdentity | Portfolio-main/src/components/Folder.tsx:26-28 | percent 0 leaves a channel unchanged |
| Folder.ToHexRgb | Portfolio-main/src/components/Folder.tsx:29 | `(1 << 24) + (r << 16) + (g << 8) + b` in base 16 is `1` followed by two digits per channel in r, g, b order |
| Folder.Encode | Portfolio-main/src/components/Folder.tsx:29 | dropping the offset's leading `1` leaves `#` followed by the channels' upper-cased digit pairs in r, g, b order |
| Folder.EncodeFormat | Portfolio-main/src/components/Folder.tsx:29 | every output is `#` followed by exactly six upper-case hex digits |
| Folder.DarkenColor | Portfolio-main/src/components/Folder.tsx:14-30 | `darkenColor` always returns `#` followed by exactly six upper-case hex digits |
| Folder.EncodeDecode | Portfolio-main/src/components/Folder.tsx:14-30 | decoding an output gives back the channels it encodes |
| Folder.DarkenRoundTrip | Portfolio-main/src/components/Folder.tsx:14-30 | `darkenColor` yields `#` and six upper-case digits, and reading them back gives the darkened, clamped channels |
| Folder.DarkenFixedPoint | Portfolio-main/src/components/Folder.tsx:14-30 | darkening an output by 0 returns it unchanged |
| Folder.ColorChannels | Portfolio-main/src/components/Folder.tsx:15-25 | a well-formed colour reads as three bytes |
| Folder.ChannelDigits | Portfolio-main/src/components/Folder.tsx:15-25 | each channel of a well-formed colour is its two digits read big-endian |
| Folder.ShorthandChannels | Portfolio-main/src/components/Folder.tsx:16-21 | a shorthand digit `d` stands for the byte `17 * d` |
| Folder.DarkenZero | Portfolio-main/src/components/Folder.tsx:14-30 | at percent 0 the result is `#` and the input's six-digit body in upper case |
| Folder.FixedColorChannels | Portfolio-main/src/components/Folder.tsx:54-56 | the channels of `#ffffff` and `#777777` |
| Folder.FirstPaperChannels | Portfolio-main/src/components/Folder.tsx:55 | white 10% darker has channels 229 |
| Folder.FirstPaperTint | Portfolio-main/src/components/Folder.tsx:55 | `darkenColor('#ffffff', 0.1)` is `#E5E5E5` |
| Folder.SecondPaperChannels | Portfolio-main/src/components/Folder.tsx:56 | white 5% darker has channels 242 |
| Folder.SecondPaperTint | Portfolio-main/src/components/Folder.tsx:56 | `darkenColor('#ffffff', 0.05)` is `#F2F2F2` |
| Folder.GreyBackChannels | Portfolio-main/src/components/Folder.tsx:54 | `#777777` 8% darker has channels 109 |
| Folder.GreyBack | Portfolio-main/src/components/Folder.tsx:54 | `darkenColor('#777777', 0.08)` is `#6D6D6D` |
| Folder.OptimizeItems | Portfolio-main/src/components/Folder.tsx:37-44 | every video child gets `autoPlay` equal to the open flag and nothing else of it changes; other children are kept; the order and count are kept |
| Folder.Papers | Portfolio-main/src/components/Folder.tsx:46-49 | always 4 slots: the first `min(n, 4)` hold the children in order, the rest are empty |
| Folder.ModalViewIdempotent | Portfolio-main/src/components/Folder.tsx:156-168 | the modal keeps a child's kind and a video's source, and presenting a child twice is presenting it once |
| Folder.MagnetPull | Portfolio-main/src/components/Folder.tsx:74-78 | with the pointer over a paper, the offset points toward the pointer on each axis (positive exactly when the pointer is past the centre) and is at most 7.5% of the paper's size |
| Folder.FolderWidget.constructor | Portfolio-main/src/components/Folder.tsx:34-52 | starts closed, with four papers at rest and nothing selected |
| Folder.FolderWidget.HandleClick | Portfolio-main/src/components/Folder.tsx:59-64 | flips `open`; closing resets all four offsets, opening leaves them; the selection is unchanged |
| Folder.FolderWidget.PaperMouseMove | Portfolio-main/src/components/Folder.tsx:72-84 | closed: nothing changes; open: only offset `index` becomes the magnet offset; the flag and selection are unchanged |
| Folder.FolderWidget.PaperMouseLeave | Portfolio-main/src/components/Folder.tsx:86-92 | only offset `index` returns to (0, 0), open or closed; four offsets remain |
| Folder.FolderWidget.PaperClick | Portfolio-main/src/components/Folder.tsx:66-70 | selects the child only while open; the flag and offsets are unchanged |
| Folder.FolderWidget.CloseModal | Portfolio-main/src/components/Folder.tsx:141-147 | the backdrop and close button clear the selection and change nothing else |
| Gallery.DefaultItems | Portfolio-main/src/components/CircularGallery.tsx:489-502 | twelve built-in items |
| Gallery.MediasImages | Portfolio-main/src/components/CircularGallery.tsx:503-504 | the strip has twice as many entries as there are gallery items, so it is never empty and has even length |
| Gallery.MediasImagesShape | Portfolio-main/src/components/CircularGallery.tsx:503-504 | the gallery items are the given ones or, when none are given, the defaults; the strip is them twice over, with entry `i + n` equal to entry `i` |
| Gallery.HalfIndex | Portfolio-main/src/components/CircularGallery.tsx:575-576 | in a strip of two equal halves, `index mod half` names the same entry as `index` |
| Gallery.IsVideoUrl | Portfolio-main/src/components/CircularGallery.tsx:191 | a URL taken for a video has at least four characters and ends in `4`, `m` or `g` |
| Gallery.LightboxVideoKinds | Portfolio-main/src/components/CircularGallery.tsx:697 | whatever the lightbox plays as video the strip does too; `clip.webm` is a video on the strip but not in the lightbox |
| Gallery.NotVideo | Portfolio-main/src/components/CircularGallery.tsx:191 | a URL whose last character is not `4`, `m` or `g` is not a video |
| Gallery.DefaultsAreImages | Portfolio-main/src/components/CircularGallery.tsx:489-502 | none of the defaults is a video |
| Gallery.Lerp | Portfolio-main/src/components/CircularGallery.tsx:33-35 | `lerp(p, q, 0) = p`, `lerp(p, q, 1) = q`, and one step leaves `(1 - t)` of the gap |
| Gallery.LerpBetween | Portfolio-main/src/components/CircularGallery.tsx:33-35 | for an ease strictly in (0, 1) one step lands strictly between the position and the target, unless they coincide |
| Gallery.ApproachGap | Portfolio-main/src/components/CircularGallery.tsx:609 | after `n` frames toward a fixed target the gap is `(1 - ease)^n` times the initial gap |
| Gallery.ApproachStaysBehind | Portfolio-main/src/components/CircularGallery.tsx:609 | the eased position never overshoots, and it equals the target only if it started there |
| Gallery.NearestMultiple | Portfolio-main/src/components/CircularGallery.tsx:587-588 | the rounded quotient is non-negative and its multiple is within half a width of the value |
| Gallery.SnapMultiple | Portfolio-main/src/components/CircularGallery.tsx:584-590 | the snapped target is `k` whole widths with `k` of the target's sign |
| Gallery.Snap | Portfolio-main/src/components/CircularGallery.tsx:584-590 | snapping keeps the sign and moves the target by at most half a width |
| Gallery.SnapOfMultiple | Portfolio-main/src/components/CircularGallery.tsx:584-590 | a whole multiple of the width snaps to itself |
| Gallery.SnapIdempotent | Portfolio-main/src/components/CircularGallery.tsx:584-590 | snapping twice is snapping once |
| Gallery.WheelTarget | Portfolio-main/src/components/CircularGallery.tsx:579-581 | a wheel event moves the target by `+scrollSpeed/5` for a positive delta, `-scrollSpeed/5` otherwise |
| Gallery.DragTarget | Portfolio-main/src/components/CircularGallery.tsx:531-536 | with a positive speed, dragging left moves the target forward and dragging right moves it back; back at the start the target is the grab position |
| Gallery.MouseX | Portfolio-main/src/components/CircularGallery.tsx:553-554 | the rectangle's left edge maps to -1 and its right edge to 1, and a tap inside it lands in between |
| Gallery.Nearest | Portfolio-main/src/components/CircularGallery.tsx:558-573 | a hit names a plane and that plane is within the hit radius; with no planes there is no hit |
| Gallery.NearestIsClosest | Portfolio-main/src/components/CircularGallery.tsx:558-573 | a hit is the first plane at the least distance and is under 0.3; there is no hit exactly when every plane is at 0.3 or more |
| Gallery.StepRecycles | Portfolio-main/src/components/CircularGallery.tsx:328-389 | moving right a plane past the left edge has `extra` lowered by the strip width, moving left one past the right edge has it raised; either clears both flags; otherwise `extra` stays and the flags report the side |
| Gallery.StepWraps | Portfolio-main/src/components/CircularGallery.tsx:382-389 | a recycled plane reappears one strip width further along in the direction of travel |
| Gallery.StepFlags | Portfolio-main/src/components/CircularGallery.tsx:363-380 | no plane is past both edges; a video plays only when centred and never while being recycled; a non-video's play state is untouched |
| Gallery.Step | Portfolio-main/src/components/CircularGallery.tsx:328-389 | one frame moves `extra` by one strip width either way or not at all, and only a video changes its play state |
| Gallery.RunExtra | Portfolio-main/src/components/CircularGallery.tsx:382-389 | over any run of frames `extra` moves only by whole strip widths |
| Gallery.PlaneScaleXNonNegative | Portfolio-main/src/components/CircularGallery.tsx:399-401 | the plane width is never negative |
| Gallery.StripHalf | Portfolio-main/src/components/CircularGallery.tsx:405-406 | positions `n` apart on a strip of `2n` are half the total width apart |
| Gallery.Media.constructor | Portfolio-main/src/components/CircularGallery.tsx:154-191 | a new plane keeps its item, index and length, tests its URL for video, is sized for the given sizes, and starts unshifted and not playing |
| Gallery.Media.OnResize | Portfolio-main/src/components/CircularGallery.tsx:391-407 | adopts the given sizes; `width = scale.x + 2`, `x = width * index`, `widthTotal = width * length`; width is at least 2 |
| Gallery.Media.Update | Portfolio-main/src/components/CircularGallery.tsx:328-390 | one frame's plane position, flags, play state and `extra` are exactly `Step` of the old ones |
| Gallery.UpdateAll | Portfolio-main/src/components/CircularGallery.tsx:611-613 | every plane takes exactly one `Step` and keeps its sizing |
| Gallery.CreateMedias | Portfolio-main/src/components/CircularGallery.tsx:505-522 | plane `i` is a new plane for strip entry `i` with index `i` and the strip's length, sized and unshifted |
| Gallery.ResizeAll | Portfolio-main/src/components/CircularGallery.tsx:604-606 | every plane is resized to the new sizes and keeps its frame state |
| Gallery.SizedWidth | Portfolio-main/src/components/CircularGallery.tsx:403-404 | a sized plane is at least the padding wide, so snapping never divides by zero |
| Gallery.NearestMedia | Portfolio-main/src/components/CircularGallery.tsx:558-573 | the scan with a running minimum starting at infinity returns exactly `Nearest` of the planes' distances |
| Gallery.App.constructor | Portfolio-main/src/components/CircularGallery.tsx:436-463 | the strip is the doubled items; the scroll starts at ease, 0, 0, 0; every plane is sized, then runs one first frame moving left |
| Gallery.App.StripSpacing | Portfolio-main/src/components/CircularGallery.tsx:403-406 | neighbouring planes are one width apart, and plane `i + n` sits half the strip's width after plane `i` |
| Gallery.App.Update | Portfolio-main/src/components/CircularGallery.tsx:608-617 | `current` becomes `lerp(current, target, ease)`; the direction is right exactly when it exceeds `last`; `last` becomes `current`; every plane takes one `Step` |
| Gallery.App.OnResize | Portfolio-main/src/components/CircularGallery.tsx:591-607 | the new sizes are adopted and every plane is resized without moving its frame state |
| Gallery.App.OnCheck | Portfolio-main/src/components/CircularGallery.tsx:584-590 | with no planes the scroll is unchanged; otherwise only the target changes, to its snap to the first plane's width |
| Gallery.App.OnWheel | Portfolio-main/src/components/CircularGallery.tsx:579-583 | only the target changes, by a fifth of the speed in the sign of the first non-zero delta |
| Gallery.App.OnTouchDown | Portfolio-main/src/components/CircularGallery.tsx:524-530 | marks the press, remembers the scroll position, and records where and when it began |
| Gallery.App.OnTouchMove | Portfolio-main/src/components/CircularGallery.tsx:531-536 | ignored unless pressed; otherwise the target is the grab position plus the scaled pointer travel |
| Gallery.App.HandleClick | Portfolio-main/src/components/CircularGallery.tsx:549-578 | with no handler installed nothing is emitted; otherwise the item of the nearest plane within the radius, taken from the first half of the strip |
| Gallery.App.TappedItem | Portfolio-main/src/components/CircularGallery.tsx:575-576 | the item emitted is the nearest plane's own strip entry |
| Gallery.App.OnTouchUp | Portfolio-main/src/components/CircularGallery.tsx:537-548 | ends the press and snaps the target; a release under 250 ms and under 10 px is a tap and emits what `HandleClick` does, any other release emits nothing |
| Gallery.GalleryModal.constructor | Portfolio-main/src/components/CircularGallery.tsx:661 | the lightbox starts empty |
| Gallery.GalleryModal.Open | Portfolio-main/src/components/CircularGallery.tsx:673 | the item-click handler shows the tapped item |
| Gallery.GalleryModal.Close | Portfolio-main/src/components/CircularGallery.tsx:687-691 | the backdrop and close button clear it |
| Gallery.GalleryModal.ShowsVideo | Portfolio-main/src/components/CircularGallery.tsx:697 | whatever the lightbox plays as a video is also a video on the strip |
| Page.UpcomingVideos | Portfolio-main/src/app/page.tsx:376 | the three upcoming-project clips |
| Page.VideoElement.Pause | Portfolio-main/src/app/page.tsx:60 | pausing stops playback without rewinding |
| Page.Home.constructor | Portfolio-main/src/app/page.tsx:23-28 | both flags start false and no clip is selected |
| Page.Home.HandlePodcastPlay | Portfolio-main/src/app/page.tsx:58-61 | marks the podcast playing and pauses the advertisement without rewinding it; the podcast element is untouched |
| Page.Home.HandleAdsPlay | Portfolio-main/src/app/page.tsx:63-66 | marks the advertisement playing and pauses the podcast without rewinding it; the advertisement element is untouched |
| Page.Home.PodcastPaused | Portfolio-main/src/app/page.tsx:312 | the podcast's pause event clears its flag |
| Page.Home.AdsPaused | Portfolio-main/src/app/page.tsx:337 | the advertisement's pause event clears its flag |
| Page.Home.Stop | Portfolio-main/src/app/page.tsx:69-73 | the chosen video is paused, rewound to 0 and marked not playing; the other flag is unchanged |
| Page.Home.HandleActiveItemChange | Portfolio-main/src/app/page.tsx:68-79 | every video not on the active card is paused, rewound and unmarked; the active card's video is untouched; afterwards at most one flag is set, and only the active card's |
| Page.Home.OnIntersection | Portfolio-main/src/app/page.tsx:37-50 | every video reported as out of view is paused, rewound and unmarked; a video with no such report is unchanged |
| Page.LeftViewStep | Portfolio-main/src/app/page.tsx:39-46 | adding one report to a batch marks its video as left only when it is a non-intersecting report |
| Page.Home.SelectUpcoming | Portfolio-main/src/app/page.tsx:376-379 | clicking tile `idx` selects its clip |
| Page.Home.CloseVideo | Portfolio-main/src/app/page.tsx:412 | the modal's close handler clears the selection |

## Left out

- Rendering is not modelled: WebGL through `ogl` (renderer, camera, shaders, textures, the title texture), the gsap and ScrollTrigger tweens, hover scaling, and the JSX markup. These are calls into libraries whose code is not part of this model.
- The gallery's bend is not modelled: the plane's `y` and rotation from `sqrt` and `asin`. It needs transcendental floating-point maths and has no effect on scrolling.
- The gallery's speed uniform, `uTime`, `plane.scale.y` and the viewport-size uniforms are not modelled. They are only fed to the shaders.
- The camera's `tan(fov)` viewport computation is not modelled. The viewport, the container size and the bounding rectangle are parameters of the methods that use them.
- Browser plumbing is not modelled: `debounce`, `autoBind`, `requestAnimationFrame`, `setTimeout`, event-listener wiring, `matchMedia` change listeners and `ResizeObserver`. Each handler is a separate method call. The debounced `onCheck` after a wheel event is a separate call of `Gallery.App.OnCheck`.
- `Date.now()` and `Math.random()` are not modelled. Time is an integer parameter, and `random` is a `pick` parameter choosing one of the four edges.
- `preloadImages` and the `imagesReady` gate are not modelled. They only delay the entrance tweens.
- Floating-point rounding, NaN and Infinity are not modelled: numbers are exact reals. The initial `Infinity` of the hit test is represented by an empty running minimum.
- Gallery.Media.OnResize: requires a container with positive width, a non-negative container height and a non-negative viewport width. The positive width covers the one division the modelled sizing does, by `screen.width`; the source has no guard, and a zero width would give NaN or Infinity. The two non-negative bounds are a modelling choice that keeps every plane at least the padding wide (`Gallery.SizedWidth`); the source does not check them. The division of `plane.scale.y` by `screen.height` is not modelled.
- Gallery.App.HandleClick: when an item-click handler is installed, requires a bounding rectangle of non-zero width and a non-zero viewport width. The source divides by both, and only on that path. `Gallery.App.OnTouchUp` requires the same only for a tap with a handler installed.
- Gallery.App.OnCheck: requires the first plane's width to be positive. This always holds once planes are sized (`Gallery.SizedWidth`), so the source's division is safe.
- Gallery.App.constructor: the `onItemClick` callback is reduced to the flag `hasItemClick`. The tap's emitted item is returned to the caller, and the page passes it to `Gallery.GalleryModal.Open`.
- Gallery.Media.Update: the video's `play()` and `pause()` are the field `playing`; the browser's asynchronous play promise is not modelled. The texture refresh gated by `readyState` is left out.
- Video elements on the home page have only their paused state and `currentTime`; the browser's own pause events are separate calls of `Page.Home.PodcastPaused` and `Page.Home.AdsPaused`. Both elements are always rendered, so the `ref.current` guards are taken to pass. The observer's 0.2 visibility threshold is folded into the reported `isIntersecting`.
- Folder.ColorChannels: `darkenColor` is modelled only for an optional `#` followed by exactly 3 or 6 hex digits. `parseInt`'s reading of a partial prefix and its NaN on bad input are left out.
- Folder.Clamp: clamping is modelled for the whole integer range, so any `percent` is accepted. A percent outside [0, 1] is simply clamped.
- Folder.OptimizeItems: children are either a `<video>` element or some other node. React's element cloning and keys are not modelled.
- `route.ts` and the remaining components are not part of this model: `Projects.tsx`, `Pricing.tsx`, `Skills.tsx`, `Timeline.tsx`, `Overlay.tsx`, `Hero.tsx`, `layout.tsx`, `ExpandableVideo.tsx` and `VideoModal.tsx`. They are static data, markup, third-party animation, or an e-mail relay over a foreign library.
