/** The folder widget: the hex colour codec that darkens its colours, the
    four paper slots filled from its children, and the widget's state
    machine (open flag, four magnet offsets, the item shown in the modal). */
module Folder {
  import opened Common

  // ---------------------------------------------------------------------------
  // Hex digits

  predicate IsHexDigit(c: char) {
    '0' <= c <= '9' || 'a' <= c <= 'f' || 'A' <= c <= 'F'
  }

  /** A digit as `toUpperCase` leaves it: `0-9` or `A-F`. */
  predicate IsUpperHexDigit(c: char) {
    '0' <= c <= '9' || 'A' <= c <= 'F'
  }

  predicate AllHex(s: string) {
    forall i :: 0 <= i < |s| ==> IsHexDigit(s[i])
  }

  /** The value of one digit, either case. */
  function HexValue(c: char): (v: nat)
    requires IsHexDigit(c)
    ensures v < 16
  {
    if c <= '9' then c as int - '0' as int
    else if 'a' <= c then c as int - 'a' as int + 10
    else c as int - 'A' as int + 10
  }

  /** The digit `toString(16)` writes for `v`: lower case. */
  function HexDigit(v: nat): (c: char)
    requires v < 16
    ensures IsHexDigit(c)
  {
    if v < 10 then ('0' as int + v) as char else ('a' as int + v - 10) as char
  }

  /** `toUpperCase` on one character. */
  function UpperChar(c: char): char {
    if 'a' <= c <= 'z' then (c as int - 32) as char else c
  }

  function Upper(s: string): (u: string)
    ensures |u| == |s|
    ensures forall i :: 0 <= i < |s| ==> u[i] == UpperChar(s[i])
  {
    seq(|s|, i requires 0 <= i < |s| => UpperChar(s[i]))
  }

  /** Writing the digit of a value and reading it back, in either case,
      gives the value. */
  lemma HexDigitRoundTrip(v: nat)
    requires v < 16
    ensures HexValue(HexDigit(v)) == v
    ensures IsUpperHexDigit(UpperChar(HexDigit(v)))
    ensures IsHexDigit(UpperChar(HexDigit(v))) && HexValue(UpperChar(HexDigit(v))) == v
  {
  }

  /** Reading a digit and writing it back gives the digit, up to case. */
  lemma HexValueRoundTrip(c: char)
    requires IsHexDigit(c)
    ensures UpperChar(HexDigit(HexValue(c))) == UpperChar(c)
  {
  }

  /** `parseInt(s, 16)` on a string of hex digits: big-endian, base 16. */
  function ParseHex(s: string): nat
    requires AllHex(s)
    decreases |s|
  {
    if |s| == 0 then 0 else ParseHex(s[..|s| - 1]) * 16 + HexValue(s[|s| - 1])
  }

  /** The value of six digits, place by place. */
  lemma ParseHex6(s: string)
    requires |s| == 6 && AllHex(s)
    ensures ParseHex(s) == HexValue(s[0]) * 1048576 + HexValue(s[1]) * 65536 +
                           HexValue(s[2]) * 4096 + HexValue(s[3]) * 256 +
                           HexValue(s[4]) * 16 + HexValue(s[5])
  {
    var v := seq(6, i requires 0 <= i < 6 => HexValue(s[i]));
    assert ParseHex(s[..0]) == 0;
    assert ParseHex(s[..1]) == v[0] by { assert s[..1][..0] == s[..0]; }
    assert ParseHex(s[..2]) == v[0] * 16 + v[1] by { assert s[..2][..1] == s[..1]; }
    assert ParseHex(s[..3]) == v[0] * 256 + v[1] * 16 + v[2] by { assert s[..3][..2] == s[..2]; }
    assert ParseHex(s[..4]) == v[0] * 4096 + v[1] * 256 + v[2] * 16 + v[3] by {
      assert s[..4][..3] == s[..3];
    }
    assert ParseHex(s[..5]) == v[0] * 65536 + v[1] * 4096 + v[2] * 256 + v[3] * 16 + v[4] by {
      assert s[..5][..4] == s[..4];
    }
    assert s[..6] == s;
  }

  /** `n.toString(16)`: lower-case digits, no leading zero. */
  function ToHex(n: nat): (s: string)
    ensures |s| > 0
    decreases n
  {
    if n < 16 then [HexDigit(n)] else ToHex(n / 16) + [HexDigit(n % 16)]
  }

  // ---------------------------------------------------------------------------
  // The colour codec

  /** The colour without one leading `#`. */
  function Body(hex: string): (b: string)
    ensures |hex| > 0 && hex[0] == '#' ==> b == hex[1..]
    ensures !(|hex| > 0 && hex[0] == '#') ==> b == hex
  {
    if |hex| > 0 && hex[0] == '#' then hex[1..] else hex
  }

  /** A three-digit body with every digit doubled, others as they are. */
  function Expand(body: string): (e: string)
    ensures |body| == 3 ==> e == [body[0], body[0], body[1], body[1], body[2], body[2]]
    ensures |body| != 3 ==> e == body
  {
    if |body| == 3 then [body[0], body[0], body[1], body[1], body[2], body[2]] else body
  }

  /** A colour the codec reads in full: an optional `#`, then 3 or 6 hex
      digits. */
  predicate WellFormedColor(hex: string) {
    var b := Body(hex);
    (|b| == 3 || |b| == 6) && AllHex(b)
  }

  datatype Rgb = Rgb(r: int, g: int, b: int)

  predicate ValidRgb(c: Rgb) {
    0 <= c.r <= 255 && 0 <= c.g <= 255 && 0 <= c.b <= 255
  }

  /** `(num >> 16) & 0xff`, `(num >> 8) & 0xff`, `num & 0xff` on a
      non-negative number. */
  function Channels(num: nat): (c: Rgb)
    ensures ValidRgb(c)
  {
    Rgb((num / 65536) % 256, (num / 256) % 256, num % 256)
  }

  function Clamp(v: int): (c: int)
    ensures 0 <= c <= 255
    ensures 0 <= v <= 255 ==> c == v
  {
    if v < 0 then 0 else if v > 255 then 255 else v
  }

  /** One channel darkened: `floor(c * (1 - percent))` clamped to a byte. */
  function Scale(c: int, percent: real): (s: int)
    ensures 0 <= s <= 255
  {
    Clamp((c as real * (1.0 - percent)).Floor)
  }

  /** The six digits of the channels, two per channel, high digit first. */
  function Digits(c: Rgb): (s: string)
    requires ValidRgb(c)
    ensures |s| == 6
  {
    [HexDigit(c.r / 16), HexDigit(c.r % 16), HexDigit(c.g / 16),
     HexDigit(c.g % 16), HexDigit(c.b / 16), HexDigit(c.b % 16)]
  }

  /** `'#' + ((1 << 24) + (r << 16) + (g << 8) + b).toString(16).slice(1).toUpperCase()`:
      the offset's leading digit is dropped, leaving `#` and the channels'
      digit pairs in r, g, b order, in upper case. */
  function Encode(c: Rgb): (s: string)
    requires ValidRgb(c)
    ensures s == "#" + Upper(Digits(c))
  {
    ToHexRgb(c);
    assert ("1" + Digits(c))[1..] == Digits(c);
    "#" + Upper(ToHex(16777216 + c.r * 65536 + c.g * 256 + c.b)[1..])
  }

  /** The channels of a well-formed colour: three bytes. */
  function ColorChannels(hex: string): (c: Rgb)
    requires WellFormedColor(hex)
    ensures ValidRgb(c)
  {
    Channels(ParseHex(Expand(Body(hex))))
  }

  /** The channels `darkenColor` writes out. */
  function Darkened(hex: string, percent: real): (c: Rgb)
    requires WellFormedColor(hex)
    ensures ValidRgb(c)
  {
    var c := ColorChannels(hex);
    Rgb(Scale(c.r, percent), Scale(c.g, percent), Scale(c.b, percent))
  }

  /** `darkenColor(hex, percent)`: always `#` and six upper-case digits. */
  function DarkenColor(hex: string, percent: real): (s: string)
    requires WellFormedColor(hex)
    ensures |s| == 7 && s[0] == '#' && (forall i :: 1 <= i < 7 ==> IsUpperHexDigit(s[i]))
  {
    EncodeFormat(Darkened(hex, percent));
    Encode(Darkened(hex, percent))
  }

  // ---------------------------------------------------------------------------
  // Properties of the codec

  /** The seven digits of `(1 << 24) + (r << 16) + (g << 8) + b`: a leading
      `1`, then two digits per channel in r, g, b order. */
  lemma ToHexRgb(c: Rgb)
    requires ValidRgb(c)
    ensures ToHex(16777216 + c.r * 65536 + c.g * 256 + c.b) == "1" + Digits(c)
  {
    var v := 16777216 + c.r * 65536 + c.g * 256 + c.b;
    var v1 := 1048576 + c.r * 4096 + c.g * 16 + c.b / 16;
    var v2 := 65536 + c.r * 256 + c.g;
    var v3 := 4096 + c.r * 16 + c.g / 16;
    var v4 := 256 + c.r;
    var v5 := 16 + c.r / 16;
    DivMod(v, 16, v1, c.b % 16);
    DivMod(v1, 16, v2, c.b / 16);
    DivMod(v2, 16, v3, c.g % 16);
    DivMod(v3, 16, v4, c.g / 16);
    DivMod(v4, 16, v5, c.r % 16);
    DivMod(v5, 16, 1, c.r / 16);
    assert ToHex(v5) == ['1', HexDigit(c.r / 16)];
    assert ToHex(v4) == ToHex(v5) + [HexDigit(c.r % 16)];
    assert ToHex(v3) == ToHex(v4) + [HexDigit(c.g / 16)];
    assert ToHex(v2) == ToHex(v3) + [HexDigit(c.g % 16)];
    assert ToHex(v1) == ToHex(v2) + [HexDigit(c.b / 16)];
    assert ToHex(v) == ToHex(v1) + [HexDigit(c.b % 16)];
    assert ToHex(v) == ['1'] + Digits(c);
  }

  /** Bytes as three digit pairs, read back. */
  lemma ChannelsOf(c: Rgb)
    requires ValidRgb(c)
    ensures Channels(c.r * 65536 + c.g * 256 + c.b) == c
  {
    var n := c.r * 65536 + c.g * 256 + c.b;
    DivMod(n, 65536, c.r, c.g * 256 + c.b);
    DivMod(c.r, 256, 0, c.r);
    DivMod(n, 256, c.r * 256 + c.g, c.b);
    DivMod(c.r * 256 + c.g, 256, c.r, c.g);
  }

  /** The upper-case digits of the channels read back one by one. */
  lemma ReadDigits(c: Rgb)
    requires ValidRgb(c)
    ensures var d := Upper(Digits(c));
            |d| == 6 && AllHex(d) &&
            HexValue(d[0]) == c.r / 16 && HexValue(d[1]) == c.r % 16 &&
            HexValue(d[2]) == c.g / 16 && HexValue(d[3]) == c.g % 16 &&
            HexValue(d[4]) == c.b / 16 && HexValue(d[5]) == c.b % 16
  {
    HexDigitRoundTrip(c.r / 16);
    HexDigitRoundTrip(c.r % 16);
    HexDigitRoundTrip(c.g / 16);
    HexDigitRoundTrip(c.g % 16);
    HexDigitRoundTrip(c.b / 16);
    HexDigitRoundTrip(c.b % 16);
  }

  /** Every output is `#` followed by exactly six upper-case hex digits. */
  lemma EncodeFormat(c: Rgb)
    requires ValidRgb(c)
    ensures var s := Encode(c);
            |s| == 7 && s[0] == '#' &&
            (forall i :: 1 <= i < 7 ==> IsUpperHexDigit(s[i]))
  {
    HexDigitRoundTrip(c.r / 16);
    HexDigitRoundTrip(c.r % 16);
    HexDigitRoundTrip(c.g / 16);
    HexDigitRoundTrip(c.g % 16);
    HexDigitRoundTrip(c.b / 16);
    HexDigitRoundTrip(c.b % 16);
  }

  /** Decoding an output gives back the channels it encodes. */
  lemma EncodeDecode(c: Rgb)
    requires ValidRgb(c)
    ensures WellFormedColor(Encode(c))
    ensures ColorChannels(Encode(c)) == c
  {
    var s := Encode(c);
    var d := Upper(Digits(c));
    assert s == "#" + d;
    assert Body(s) == d;
    ReadDigits(c);
    assert ParseHex(d) == c.r * 65536 + c.g * 256 + c.b by { ParseHex6(d); }
    ChannelsOf(c);
  }

  /** Reading `darkenColor`'s output back gives the darkened, clamped
      channels. */
  lemma DarkenRoundTrip(hex: string, percent: real)
    requires WellFormedColor(hex)
    ensures var s := DarkenColor(hex, percent);
            WellFormedColor(s) && ColorChannels(s) == Darkened(hex, percent)
  {
    EncodeDecode(Darkened(hex, percent));
  }

  /** An output read back at no darkening is the output itself. */
  lemma DarkenFixedPoint(hex: string, percent: real)
    requires WellFormedColor(hex)
    ensures WellFormedColor(DarkenColor(hex, percent))
    ensures DarkenColor(DarkenColor(hex, percent), 0.0) == DarkenColor(hex, percent)
  {
    var c := Darkened(hex, percent);
    EncodeDecode(c);
    var s := DarkenColor(hex, percent);
    assert Darkened(s, 0.0) == Rgb(Scale(c.r, 0.0), Scale(c.g, 0.0), Scale(c.b, 0.0));
    ScaleIdentity(c.r);
    ScaleIdentity(c.g);
    ScaleIdentity(c.b);
  }

  /** Clamping: every channel lands in a byte whatever the percent; with a
      percent in [0, 1] a channel never gets brighter, and 1 gives black. */
  lemma ScaleBounds(c: int, percent: real)
    requires 0 <= c <= 255
    ensures 0 <= Scale(c, percent) <= 255
    ensures 0.0 <= percent <= 1.0 ==> Scale(c, percent) <= c
    ensures percent == 1.0 ==> Scale(c, percent) == 0
  {
    if 0.0 <= percent <= 1.0 {
      var x := c as real * (1.0 - percent);
      assert c as real * percent >= 0.0;
      assert x == c as real - c as real * percent;
      assert x <= c as real;
    }
  }

  /** Percent 0 leaves a byte as it is. */
  lemma ScaleIdentity(c: int)
    requires 0 <= c <= 255
    ensures Scale(c, 0.0) == c
  {
    assert c as real * (1.0 - 0.0) == c as real;
  }

  /** The six digits of a well-formed colour as channels: each channel is
      its two digits read big-endian. */
  lemma ChannelDigits(hex: string)
    requires WellFormedColor(hex)
    ensures var e := Expand(Body(hex));
            |e| == 6 && AllHex(e) &&
            ColorChannels(hex) == Rgb(HexValue(e[0]) * 16 + HexValue(e[1]),
                                      HexValue(e[2]) * 16 + HexValue(e[3]),
                                      HexValue(e[4]) * 16 + HexValue(e[5]))
  {
    var e := Expand(Body(hex));
    assert AllHex(e);
    ParseHex6(e);
    var c := Rgb(HexValue(e[0]) * 16 + HexValue(e[1]),
                 HexValue(e[2]) * 16 + HexValue(e[3]),
                 HexValue(e[4]) * 16 + HexValue(e[5]));
    assert ParseHex(e) == c.r * 65536 + c.g * 256 + c.b;
    ChannelsOf(c);
  }

  /** A shorthand digit `d` stands for the byte `17 * d`. */
  lemma ShorthandChannels(hex: string)
    requires WellFormedColor(hex) && |Body(hex)| == 3
    ensures var b := Body(hex);
            ColorChannels(hex) == Rgb(17 * HexValue(b[0]), 17 * HexValue(b[1]), 17 * HexValue(b[2]))
  {
    ChannelDigits(hex);
  }

  /** A byte read from two digits splits back into the same two values. */
  lemma PairRoundTrip(x: char, y: char)
    requires IsHexDigit(x) && IsHexDigit(y)
    ensures (HexValue(x) * 16 + HexValue(y)) / 16 == HexValue(x)
    ensures (HexValue(x) * 16 + HexValue(y)) % 16 == HexValue(y)
  {
    DivMod(HexValue(x) * 16 + HexValue(y), 16, HexValue(x), HexValue(y));
  }

  /** Six digits read as channels and written back give the same digits,
      up to case. */
  lemma DigitsRoundTrip(e: string, c: Rgb)
    requires |e| == 6 && AllHex(e)
    requires c == Rgb(HexValue(e[0]) * 16 + HexValue(e[1]),
                      HexValue(e[2]) * 16 + HexValue(e[3]),
                      HexValue(e[4]) * 16 + HexValue(e[5]))
    ensures ValidRgb(c) && Upper(Digits(c)) == Upper(e)
  {
    PairRoundTrip(e[0], e[1]);
    PairRoundTrip(e[2], e[3]);
    PairRoundTrip(e[4], e[5]);
    var d := Digits(c);
    var v := seq(6, k requires 0 <= k < 6 => HexValue(e[k]));
    assert c.r / 16 == v[0] && c.r % 16 == v[1];
    assert c.g / 16 == v[2] && c.g % 16 == v[3];
    assert c.b / 16 == v[4] && c.b % 16 == v[5];
    assert forall k :: 0 <= k < 6 ==> d[k] == HexDigit(v[k]);
    forall k | 0 <= k < 6
      ensures Upper(d)[k] == Upper(e)[k]
    {
      HexValueRoundTrip(e[k]);
    }
    assert Upper(d) == Upper(e);
  }

  /** At percent 0 the result is the input's six-digit body in upper case. */
  lemma DarkenZero(hex: string)
    requires WellFormedColor(hex)
    ensures DarkenColor(hex, 0.0) == "#" + Upper(Expand(Body(hex)))
  {
    ChannelDigits(hex);
    var c := ColorChannels(hex);
    ScaleIdentity(c.r);
    ScaleIdentity(c.g);
    ScaleIdentity(c.b);
    assert Darkened(hex, 0.0) == c;
    DigitsRoundTrip(Expand(Body(hex)), c);
  }

  /** The channels of the two fixed colours the folder darkens. */
  lemma FixedColorChannels()
    ensures WellFormedColor("#ffffff") && ColorChannels("#ffffff") == Rgb(255, 255, 255)
    ensures WellFormedColor("#777777") && ColorChannels("#777777") == Rgb(119, 119, 119)
  {
    var w := "#ffffff";
    var k := "#777777";
    assert Body(w) == "ffffff" && Expand(Body(w)) == "ffffff";
    assert Body(k) == "777777" && Expand(Body(k)) == "777777";
    assert HexValue('f') == 15 && HexValue('7') == 7;
    ChannelDigits(w);
    ChannelDigits(k);
  }

  /** One grey level encoded: the pair of digits written three times. */
  lemma EncodeGrey(v: int, pair: string, upper: string)
    requires 0 <= v <= 255 && |pair| == 2 && |upper| == 2
    requires pair == [HexDigit(v / 16), HexDigit(v % 16)]
    requires UpperChar(pair[0]) == upper[0] && UpperChar(pair[1]) == upper[1]
    ensures Encode(Rgb(v, v, v)) == "#" + upper + upper + upper
  {
    assert Digits(Rgb(v, v, v)) == pair + pair + pair;
    assert Upper(pair + pair + pair) == upper + upper + upper;
  }

  /** White 10% darker, channel by channel. */
  lemma FirstPaperChannels()
    ensures WellFormedColor("#ffffff") && Darkened("#ffffff", 0.1) == Rgb(229, 229, 229)
  {
    FixedColorChannels();
    assert Scale(255, 0.1) == 229;
  }

  /** The first tinted paper: white 10% darker. */
  lemma FirstPaperTint()
    ensures WellFormedColor("#ffffff")
    ensures DarkenColor("#ffffff", 0.1) == "#E5E5E5"
  {
    FirstPaperChannels();
    DivMod(229, 16, 14, 5);
    EncodeGrey(229, "e5", "E5");
  }

  /** White 5% darker, channel by channel. */
  lemma SecondPaperChannels()
    ensures WellFormedColor("#ffffff") && Darkened("#ffffff", 0.05) == Rgb(242, 242, 242)
  {
    FixedColorChannels();
    assert Scale(255, 0.05) == 242;
  }

  /** The second tinted paper: white 5% darker. */
  lemma SecondPaperTint()
    ensures WellFormedColor("#ffffff")
    ensures DarkenColor("#ffffff", 0.05) == "#F2F2F2"
  {
    SecondPaperChannels();
    DivMod(242, 16, 15, 2);
    EncodeGrey(242, "f2", "F2");
  }

  /** `#777777` 8% darker, channel by channel. */
  lemma GreyBackChannels()
    ensures WellFormedColor("#777777") && Darkened("#777777", 0.08) == Rgb(109, 109, 109)
  {
    FixedColorChannels();
    assert Scale(119, 0.08) == 109;
  }

  /** A `#777777` folder's back, 8% darker. */
  lemma GreyBack()
    ensures WellFormedColor("#777777")
    ensures DarkenColor("#777777", 0.08) == "#6D6D6D"
  {
    GreyBackChannels();
    DivMod(109, 16, 6, 13);
    EncodeGrey(109, "6d", "6D");
  }

  // ---------------------------------------------------------------------------
  // Paper slots

  /** A child of the folder: a `<video>` element, with the two props the
      folder sets on it, or any other node. */
  datatype Node = VideoElement(src: string, autoPlay: bool, controls: bool)
                | OtherNode(content: string)

  /** The number of paper slots. */
  const MaxItems: nat := 4

  /** The children with every video's `autoPlay` set to whether the folder
      is open; nothing else changes. */
  function OptimizeItems(items: seq<Node>, open: bool): (r: seq<Node>)
    ensures |r| == |items|
    ensures forall i :: 0 <= i < |items| ==> r[i].VideoElement? == items[i].VideoElement?
    ensures forall i :: 0 <= i < |items| && items[i].VideoElement? ==>
              r[i].autoPlay == open && r[i].src == items[i].src && r[i].controls == items[i].controls
    ensures forall i :: 0 <= i < |items| && items[i].OtherNode? ==> r[i] == items[i]
  {
    seq(|items|, i requires 0 <= i < |items| =>
      if items[i].VideoElement? then items[i].(autoPlay := open) else items[i])
  }

  /** The paper slots: the first four children, then empty slots up to
      four. */
  method Papers(items: seq<Node>) returns (papers: seq<Option<Node>>)
    ensures |papers| == MaxItems
    ensures forall i :: 0 <= i < |papers| && i < |items| ==> papers[i] == Some(items[i])
    ensures forall i :: |items| <= i < |papers| ==> papers[i] == None
  {
    var kept := if |items| < MaxItems then |items| else MaxItems;
    papers := seq(kept, i requires 0 <= i < kept => Some(items[i]));
    while |papers| < MaxItems
      invariant kept <= |papers| <= MaxItems
      invariant forall i :: 0 <= i < kept ==> papers[i] == Some(items[i])
      invariant forall i :: kept <= i < |papers| ==> papers[i] == None
    {
      papers := papers + [None];
    }
  }

  /** What the modal shows for the selected child: a video gains controls
      and plays; anything else is shown as it is. */
  function ModalView(item: Node): (v: Node)
    ensures item.VideoElement? ==> v == VideoElement(item.src, true, true)
    ensures item.OtherNode? ==> v == item
  {
    match item
    case VideoElement(src, _, _) => VideoElement(src, true, true)
    case OtherNode(_) => item
  }

  /** Presenting a child in the modal keeps what it is and where it comes
      from, and presenting it a second time changes nothing. */
  lemma ModalViewIdempotent(item: Node)
    ensures ModalView(ModalView(item)) == ModalView(item)
    ensures ModalView(item).VideoElement? == item.VideoElement?
    ensures item.VideoElement? ==> ModalView(item).src == item.src
  {
  }

  // ---------------------------------------------------------------------------
  // The widget

  datatype Offset = Offset(x: real, y: real)

  /** The bounding rectangle of a paper. */
  datatype Rect = Rect(left: real, top: real, width: real, height: real)

  /** Four papers at rest. */
  function RestOffsets(): (r: seq<Offset>)
    ensures |r| == MaxItems && forall i :: 0 <= i < |r| ==> r[i] == Offset(0.0, 0.0)
  {
    seq(MaxItems, _ => Offset(0.0, 0.0))
  }

  /** The magnet offset of a paper under the pointer: 15% of the pointer's
      distance from the paper's centre, on each axis. */
  function Magnet(rect: Rect, clientX: real, clientY: real): (o: Offset)
    ensures o.x == (clientX - (rect.left + rect.width / 2.0)) * 0.15
    ensures o.y == (clientY - (rect.top + rect.height / 2.0)) * 0.15
    ensures clientX == rect.left + rect.width / 2.0 && clientY == rect.top + rect.height / 2.0 ==>
              o == Offset(0.0, 0.0)
  {
    Offset((clientX - (rect.left + rect.width / 2.0)) * 0.15,
           (clientY - (rect.top + rect.height / 2.0)) * 0.15)
  }

  /** A pointer over the paper pulls it toward the pointer on each axis,
      by at most 7.5% of the paper's size on that axis. */
  lemma MagnetPull(rect: Rect, clientX: real, clientY: real)
    requires rect.width >= 0.0 && rect.height >= 0.0
    requires rect.left <= clientX <= rect.left + rect.width
    requires rect.top <= clientY <= rect.top + rect.height
    ensures var o := Magnet(rect, clientX, clientY);
      Abs(o.x) <= rect.width * 0.075 && Abs(o.y) <= rect.height * 0.075
      && (o.x > 0.0 <==> clientX > rect.left + rect.width / 2.0)
      && (o.x < 0.0 <==> clientX < rect.left + rect.width / 2.0)
      && (o.y > 0.0 <==> clientY > rect.top + rect.height / 2.0)
      && (o.y < 0.0 <==> clientY < rect.top + rect.height / 2.0)
  {
  }

  class FolderWidget {
    var open: bool
    var offsets: seq<Offset>
    var selected: Option<Node>

    /** One offset per paper slot. */
    ghost predicate Valid()
      reads this
    {
      |offsets| == MaxItems
    }

    constructor ()
      ensures Valid()
      ensures !open && offsets == RestOffsets() && selected == None
    {
      open := false;
      offsets := RestOffsets();
      selected := None;
    }

    /** A click on the folder flips it; closing it puts every paper back at
        rest, opening it leaves the offsets as they were. */
    method HandleClick()
      requires Valid()
      modifies this
      ensures Valid()
      ensures open == !old(open)
      ensures old(open) ==> offsets == RestOffsets()
      ensures !old(open) ==> offsets == old(offsets)
      ensures selected == old(selected)
    {
      var wasOpen := open;
      open := !open;
      if wasOpen {
        offsets := RestOffsets();
      }
    }

    /** Moving over a paper of the open folder pulls that paper alone
        toward the pointer; over a closed folder nothing happens. */
    method PaperMouseMove(index: nat, rect: Rect, clientX: real, clientY: real)
      requires Valid() && index < MaxItems
      modifies this
      ensures Valid()
      ensures old(open) ==> offsets == old(offsets)[index := Magnet(rect, clientX, clientY)]
      ensures !old(open) ==> offsets == old(offsets)
      ensures open == old(open) && selected == old(selected)
    {
      if !open {
        return;
      }
      offsets := offsets[index := Magnet(rect, clientX, clientY)];
    }

    /** Leaving a paper puts that paper alone back at rest, open or not. */
    method PaperMouseLeave(index: nat)
      requires Valid() && index < MaxItems
      modifies this
      ensures Valid()
      ensures offsets == old(offsets)[index := Offset(0.0, 0.0)]
      ensures open == old(open) && selected == old(selected)
    {
      offsets := offsets[index := Offset(0.0, 0.0)];
    }

    /** Clicking a paper of the open folder shows its child in the modal;
        on a closed folder the click goes to the folder instead. */
    method PaperClick(item: Node)
      requires Valid()
      modifies this
      ensures Valid()
      ensures old(open) ==> selected == Some(item)
      ensures !old(open) ==> selected == old(selected)
      ensures open == old(open) && offsets == old(offsets)
    {
      if !open {
        return;
      }
      selected := Some(item);
    }

    /** The backdrop and the close button empty the modal. */
    method CloseModal()
      requires Valid()
      modifies this
      ensures Valid()
      ensures selected == None
      ensures open == old(open) && offsets == old(offsets)
    {
      selected := None;
    }

    /** The magnet offset a paper is drawn with: its own offset while the
        folder is open, none while it is closed. */
    function PaperStyle(index: nat): (o: Option<Offset>)
      requires Valid() && index < MaxItems
      reads this
      ensures open ==> o == Some(offsets[index])
      ensures !open ==> o == None
    {
      if open then Some(offsets[index]) else None
    }

    /** What the modal shows: nothing, or the selected child as ModalView
        presents it. */
    function ModalContent(): (m: Option<Node>)
      reads this
      ensures selected.None? <==> m.None?
      ensures selected.Some? ==> m == Some(ModalView(selected.value))
    {
      if selected.None? then None else Some(ModalView(selected.value))
    }
  }
}
