/** pos-terminal/electron/fbr-stamp.ts: the logo and the QR code composed into one bitmap.

    A bitmap is rows of pixels of four bytes: red, green, blue, alpha. */
module Stamp {
  import opened Wrappers
  import opened Rounding

  datatype Image = Image(width: nat, height: nat, data: seq<int>)

  predicate IsByte(v: int) {
    0 <= v <= 255
  }

  predicate Valid(img: Image) {
    |img.data| == 4 * (img.width * img.height) && forall v <- img.data :: IsByte(v)
  }

  // ---- Positions -----------------------------------------------------------

  lemma InRange(w: nat, h: nat, x: nat, y: nat)
    requires x < w && y < h
    ensures w * y + x < w * h
  {
    assert w * (h - 1 - y) >= 0;
    assert w * h == w * y + w + w * (h - 1 - y);
  }

  lemma Position(w: nat, h: nat, p: nat)
    requires p < w * h
    ensures 0 < w && p % w < w && 0 <= p / w < h && p == w * (p / w) + p % w
  {
    assert w != 0;
  }

  lemma OnePosition(w: nat, x: nat, y: nat, r: nat, q: nat)
    requires x < w && r < w && w * y + x == w * q + r
    ensures x == r && y == q
  {
    if q < y {
      StepApart(q, y, w);
    } else if y < q {
      StepApart(y, q, w);
    }
  }

  lemma Decode(w: nat, x: nat, y: nat)
    requires x < w
    ensures (w * y + x) % w == x && (w * y + x) / w == y
  {
    var p := w * y + x;
    Quotient(w, p);
    OnePosition(w, x, y, p % w, p / w);
  }

  lemma Quotient(w: nat, p: nat)
    requires 0 < w
    ensures p == w * (p / w) + p % w && p % w < w && 0 <= p / w
  {
  }

  /** Byte k of the pixel in column x of row y. */
  function At(img: Image, x: nat, y: nat, k: nat): (v: int)
    requires Valid(img) && x < img.width && y < img.height && k < 4
    ensures IsByte(v)
  {
    InRange(img.width, img.height, x, y);
    img.data[4 * (img.width * y + x) + k]
  }

  ghost predicate Fits(w: nat, h: nat, f: (nat, nat, nat) --> int) {
    forall x: nat, y: nat, k: nat :: x < w && y < h && k < 4 ==> f.requires(x, y, k) && IsByte(f(x, y, k))
  }

  /** The image whose byte k at (x, y) is f(x, y, k). */
  ghost function Tabulated(w: nat, h: nat, f: (nat, nat, nat) --> int): (r: Image)
    requires Fits(w, h, f)
    ensures Valid(r) && r.width == w && r.height == h
  {
    var data := seq(4 * (w * h), j requires 0 <= j < 4 * (w * h) =>
      Position(w, h, j / 4); f((j / 4) % w, (j / 4) / w, j % 4));
    assert forall v <- data :: IsByte(v) by {
      forall j | 0 <= j < |data| ensures IsByte(data[j]) {
        Position(w, h, j / 4);
      }
    }
    Image(w, h, data)
  }

  lemma TabulatedAt(w: nat, h: nat, f: (nat, nat, nat) --> int, x: nat, y: nat, k: nat)
    requires Fits(w, h, f) && x < w && y < h && k < 4
    ensures At(Tabulated(w, h, f), x, y, k) == f(x, y, k)
  {
    InRange(w, h, x, y);
    Decode(w, x, y);
    var j := 4 * (w * y + x) + k;
    assert j / 4 == w * y + x && j % 4 == k;
  }

  /** Images that agree pixel by pixel are equal. */
  lemma SameImage(a: Image, b: Image)
    requires Valid(a) && Valid(b) && a.width == b.width && a.height == b.height
    requires forall x: nat, y: nat, k: nat :: x < a.width && y < a.height && k < 4 ==> At(a, x, y, k) == At(b, x, y, k)
    ensures a == b
  {
    forall j | 0 <= j < |a.data| ensures a.data[j] == b.data[j] {
      Position(a.width, a.height, j / 4);
      assert At(a, (j / 4) % a.width, (j / 4) / a.width, j % 4) == At(b, (j / 4) % a.width, (j / 4) / a.width, j % 4);
    }
    assert a.data == b.data;
  }

  // ---- resize --------------------------------------------------------------

  lemma ScaleBelow(x: nat, w: nat, sw: nat)
    requires x < w && 0 < sw
    ensures 0 <= x * sw / w < sw
  {
    StepApart(x, w, sw);
    QuotientBelow(x * sw, w, sw);
    ProductOrder(0, x, sw);
  }

  /** The source column (or row) of a scaled one. */
  function Scale(x: nat, w: nat, sw: nat): (r: nat)
    requires x < w && 0 < sw
    ensures r < sw
  {
    ScaleBelow(x, w, sw);
    x * sw / w
  }

  /** The nearest-neighbour source of pixel (x, y). */
  function Sampled(src: Image, w: nat, h: nat, x: nat, y: nat, k: nat): (v: int)
    requires Valid(src) && 0 < src.width && 0 < src.height && x < w && y < h && k < 4
    ensures IsByte(v)
  {
    At(src, Scale(x, w, src.width), Scale(y, h, src.height), k)
  }

  ghost function Resized(src: Image, w: nat, h: nat): (r: Image)
    requires Valid(src) && 0 < src.width && 0 < src.height
    ensures Valid(r) && r.width == w && r.height == h
  {
    Tabulated(w, h, (x: nat, y: nat, k: nat) requires x < w && y < h && k < 4 => Sampled(src, w, h, x, y, k))
  }

  /** Pixel (x, y) of a resized image is the source's pixel (floor(x sw / w), floor(y sh / h)). */
  lemma ResizedAt(src: Image, w: nat, h: nat, x: nat, y: nat, k: nat)
    requires Valid(src) && 0 < src.width && 0 < src.height && x < w && y < h && k < 4
    ensures At(Resized(src, w, h), x, y, k) == At(src, Scale(x, w, src.width), Scale(y, h, src.height), k)
    ensures Scale(x, w, src.width) == x * src.width / w && Scale(y, h, src.height) == y * src.height / h
  {
    TabulatedAt(w, h, (x: nat, y: nat, k: nat) requires x < w && y < h && k < 4 => Sampled(src, w, h, x, y, k),
                x, y, k);
  }

  lemma ExactQuotient(x: nat, w: nat)
    requires 0 < w
    ensures x * w / w == x
  {
    Quotient(w, x * w);
    OnePosition(w, 0, x, (x * w) % w, (x * w) / w);
  }

  /** Resizing to its own size is the identity. */
  lemma ResizeIdentity(src: Image)
    requires Valid(src) && 0 < src.width && 0 < src.height
    ensures Resized(src, src.width, src.height) == src
  {
    forall x: nat, y: nat, k: nat | x < src.width && y < src.height && k < 4
      ensures At(Resized(src, src.width, src.height), x, y, k) == At(src, x, y, k)
    {
      ResizedAt(src, src.width, src.height, x, y, k);
      ExactQuotient(x, src.width);
      ExactQuotient(y, src.height);
    }
    SameImage(Resized(src, src.width, src.height), src);
  }

  // ---- blit ----------------------------------------------------------------

  /** Math.round of v weighted by a / 255 over c: the nearest byte, a tie going up. */
  function Blend(v: int, c: int, a: int): (r: int)
    requires IsByte(v) && IsByte(c) && IsByte(a)
    ensures IsByte(r)
    ensures 510 * r - 255 <= 2 * (v * a + c * (255 - a)) < 510 * r + 255
    ensures a == 255 ==> r == v
    ensures a == 0 ==> r == c
  {
    ProductOrder(v, 255, a);
    ProductOrder(c, 255, 255 - a);
    ProductOrder(0, v, a);
    ProductOrder(0, c, 255 - a);
    (2 * (v * a + c * (255 - a)) + 255) / 510
  }

  predicate Covers(img: Image, ox: int, oy: int, x: nat, y: nat) {
    ox <= x < ox + img.width && oy <= y < oy + img.height
  }

  function BlitByte(canvas: Image, img: Image, ox: int, oy: int, x: nat, y: nat, k: nat): (v: int)
    requires Valid(canvas) && Valid(img) && x < canvas.width && y < canvas.height && k < 4
    ensures IsByte(v)
  {
    if !Covers(img, ox, oy, x, y) then At(canvas, x, y, k)
    else if k == 3 then 255
    else Blend(At(img, x - ox, y - oy, k), At(canvas, x, y, k), At(img, x - ox, y - oy, 3))
  }

  ghost function Blitted(canvas: Image, img: Image, ox: int, oy: int): (r: Image)
    requires Valid(canvas) && Valid(img)
    ensures Valid(r) && r.width == canvas.width && r.height == canvas.height
  {
    Tabulated(canvas.width, canvas.height,
      (x: nat, y: nat, k: nat) requires x < canvas.width && y < canvas.height && k < 4 =>
        BlitByte(canvas, img, ox, oy, x, y, k))
  }

  /** A blit changes only the clipped rectangle of the image; there each colour is the
      blend and the pixel becomes opaque. */
  lemma BlittedAt(canvas: Image, img: Image, ox: int, oy: int, x: nat, y: nat, k: nat)
    requires Valid(canvas) && Valid(img) && x < canvas.width && y < canvas.height && k < 4
    ensures At(Blitted(canvas, img, ox, oy), x, y, k) == BlitByte(canvas, img, ox, oy, x, y, k)
    ensures At(Blitted(canvas, img, ox, oy), x, y, k) ==
      if ox <= x < ox + img.width && oy <= y < oy + img.height then
        if k == 3 then 255
        else Blend(At(img, x - ox, y - oy, k), At(canvas, x, y, k), At(img, x - ox, y - oy, 3))
      else At(canvas, x, y, k)
  {
    TabulatedAt(canvas.width, canvas.height,
      (x: nat, y: nat, k: nat) requires x < canvas.width && y < canvas.height && k < 4 =>
        BlitByte(canvas, img, ox, oy, x, y, k), x, y, k);
  }

  ghost predicate Disjoint(a: Image, ax: int, ay: int, b: Image, bx: int, by': int) {
    ax + a.width <= bx || bx + b.width <= ax || ay + a.height <= by' || by' + b.height <= ay
  }

  /** Blits of disjoint rectangles commute. */
  lemma BlitsCommute(canvas: Image, a: Image, ax: int, ay: int, b: Image, bx: int, by': int)
    requires Valid(canvas) && Valid(a) && Valid(b) && Disjoint(a, ax, ay, b, bx, by')
    ensures Blitted(Blitted(canvas, a, ax, ay), b, bx, by') == Blitted(Blitted(canvas, b, bx, by'), a, ax, ay)
  {
    var ab, ba := Blitted(Blitted(canvas, a, ax, ay), b, bx, by'), Blitted(Blitted(canvas, b, bx, by'), a, ax, ay);
    forall x: nat, y: nat, k: nat | x < canvas.width && y < canvas.height && k < 4
      ensures At(ab, x, y, k) == At(ba, x, y, k)
    {
      BlittedAt(canvas, a, ax, ay, x, y, k);
      BlittedAt(canvas, b, bx, by', x, y, k);
      BlittedAt(Blitted(canvas, a, ax, ay), b, bx, by', x, y, k);
      BlittedAt(Blitted(canvas, b, bx, by'), a, ax, ay, x, y, k);
    }
    SameImage(ab, ba);
  }

  // ---- The stamp -----------------------------------------------------------

  /** Math.round(n / d) for a non-negative ratio. */
  function Round(n: nat, d: nat): nat
    requires 0 < d
  {
    HalfUp(n, d)
  }

  function QrSize(qrWidth: nat, dotWidth: nat): nat {
    if qrWidth < Round(40 * dotWidth, 100) then qrWidth else Round(40 * dotWidth, 100)
  }

  function LogoWidth(logoWidth: nat, logoHeight: nat, qrSize: nat, dotWidth: nat): int
    requires 0 < logoHeight
  {
    var fit := Round(logoWidth * qrSize, logoHeight);
    var room := dotWidth - qrSize - Round(4 * dotWidth, 100);
    var w := if fit < room then fit else room;
    if w < 1 then 1 else w
  }

  /** n / d rounded half up, as Math.round does. */
  ghost predicate Rounds(n: nat, d: nat, r: int) {
    2 * d * r - d <= 2 * n < 2 * d * r + d
  }

  lemma RoundExactly(n: nat, d: nat)
    requires 0 < d
    ensures Rounds(n, d, Round(n, d))
  {
    var q, t := (2 * n + d) / (2 * d), (2 * n + d) % (2 * d);
    assert 2 * n + d == (2 * d) * q + t;
  }

  /** The layout: the QR is as wide as it is, but at most 40 per cent of the paper; the logo
      keeps its proportions at the QR's height unless the paper left beside the QR and a gap
      of 4 per cent is narrower, and is at least one pixel wide. */
  lemma LayoutExactly(logoWidth: nat, logoHeight: nat, qrWidth: nat, dotWidth: nat, most: int, gap: int, fit: int)
    requires 0 < logoHeight
    requires Rounds(40 * dotWidth, 100, most) && Rounds(4 * dotWidth, 100, gap)
    requires Rounds(logoWidth * QrSize(qrWidth, dotWidth), logoHeight, fit)
    ensures QrSize(qrWidth, dotWidth) == if qrWidth < most then qrWidth else most
    ensures var q := QrSize(qrWidth, dotWidth);
      var room := dotWidth - q - gap;
      var width := if fit < room then fit else room;
      LogoWidth(logoWidth, logoHeight, q, dotWidth) == if width < 1 then 1 else width
  {
    var q := QrSize(qrWidth, dotWidth);
    RoundExactly(40 * dotWidth, 100);
    RoundExactly(4 * dotWidth, 100);
    RoundExactly(logoWidth * q, logoHeight);
    RoundsOnce(40 * dotWidth, 100, most, Round(40 * dotWidth, 100));
    RoundsOnce(4 * dotWidth, 100, gap, Round(4 * dotWidth, 100));
    RoundsOnce(logoWidth * q, logoHeight, fit, Round(logoWidth * q, logoHeight));
  }

  lemma RoundsOnce(n: nat, d: nat, r: int, s: int)
    requires 0 < d && Rounds(n, d, r) && Rounds(n, d, s)
    ensures r == s
  {
    if r < s { StepApart(r, s, d); } else if s < r { StepApart(s, r, d); }
  }

  /** The logo leaves the gap free and so never reaches the QR columns, even when a logo of
      extreme proportions is forced to width 1. */
  lemma LogoStaysLeft(logoWidth: nat, logoHeight: nat, qrWidth: nat, dotWidth: nat)
    requires 0 < logoHeight && 0 < dotWidth
    ensures var q := QrSize(qrWidth, dotWidth);
      q <= dotWidth
      && 1 <= LogoWidth(logoWidth, logoHeight, q, dotWidth) <= dotWidth - q - Round(4 * dotWidth, 100)
  {
  }

  ghost function White(w: nat, h: nat): (r: Image)
    ensures Valid(r) && r.width == w && r.height == h
  {
    Image(w, h, seq(4 * (w * h), _ => 255))
  }

  predicate Usable(img: Image) {
    Valid(img) && 0 < img.width && 0 < img.height
  }

  /** The two scaled parts of the stamp. */
  ghost function ScaledQr(qr: Image, dotWidth: nat): (r: Image)
    requires Usable(qr)
    ensures Valid(r)
  {
    var q := QrSize(qr.width, dotWidth);
    Resized(qr, q, q)
  }

  ghost function ScaledLogo(qr: Image, logo: Image, dotWidth: nat): (r: Image)
    requires Usable(qr) && Usable(logo)
    ensures Valid(r)
  {
    var q := QrSize(qr.width, dotWidth);
    Resized(logo, LogoWidth(logo.width, logo.height, q, dotWidth), q)
  }

  /** Both parts blitted onto a white canvas, `left` at the left edge, `right` at the
      right edge. */
  ghost function Composed(dotWidth: nat, left: Option<Image>, right: Image): (r: Image)
    requires Valid(right) && (left.Some? ==> Valid(left.value))
    ensures Valid(r) && r.width == dotWidth && r.height == right.height
  {
    var canvas := White(dotWidth, right.height);
    var withLeft := if left.Some? then Blitted(canvas, left.value, 0, 0) else canvas;
    Blitted(withLeft, right, dotWidth - right.width, 0)
  }

  /** An image pixel over white. */
  function OverWhite(img: Image, x: nat, y: nat, k: nat): int
    requires Valid(img) && x < img.width && y < img.height && k < 4
  {
    if k == 3 then 255 else Blend(At(img, x, y, k), 255, At(img, x, y, 3))
  }

  /** The whole picture, pixel by pixel: the right part over white in the rightmost
      columns, the left part over white in the leftmost, white between them, opaque
      everywhere. */
  lemma ComposedAt(dotWidth: nat, left: Option<Image>, right: Image, x: nat, y: nat, k: nat)
    requires Valid(right) && right.width <= dotWidth && x < dotWidth && y < right.height && k < 4
    requires left.Some? ==> Valid(left.value) && left.value.width <= dotWidth - right.width
                            && left.value.height == right.height
    ensures At(Composed(dotWidth, left, right), x, y, k) ==
      if dotWidth - right.width <= x then OverWhite(right, x - (dotWidth - right.width), y, k)
      else if left.Some? && x < left.value.width then OverWhite(left.value, x, y, k)
      else 255
  {
    var canvas := White(dotWidth, right.height);
    WhiteAt(dotWidth, right.height, x, y, k);
    if left.Some? {
      BlittedAt(canvas, left.value, 0, 0, x, y, k);
      BlittedAt(Blitted(canvas, left.value, 0, 0), right, dotWidth - right.width, 0, x, y, k);
      if dotWidth - right.width <= x && k != 3 {
        assert !Covers(left.value, 0, 0, x, y);
      }
    } else {
      BlittedAt(canvas, right, dotWidth - right.width, 0, x, y, k);
    }
  }

  lemma WhiteAt(w: nat, h: nat, x: nat, y: nat, k: nat)
    requires x < w && y < h && k < 4
    ensures At(White(w, h), x, y, k) == 255
  {
    InRange(w, h, x, y);
  }

  ghost function LeftPart(qr: Image, logo: Option<Image>, dotWidth: nat): (r: Option<Image>)
    requires Usable(qr) && (logo.Some? ==> Usable(logo.value))
    ensures r.Some? <==> logo.Some?
    ensures r.Some? ==> Valid(r.value)
  {
    if logo.Some? then Some(ScaledLogo(qr, logo.value, dotWidth)) else None
  }

  /** buildFbrStampPng, between decoding and encoding. */
  ghost function StampOf(qr: Image, logo: Option<Image>, dotWidth: nat): (r: Image)
    requires Usable(qr) && (logo.Some? ==> Usable(logo.value))
    ensures Valid(r)
  {
    Composed(dotWidth, LeftPart(qr, logo, dotWidth), ScaledQr(qr, dotWidth))
  }

  /** The layout the compositor chooses satisfies what ComposedAt asks: the stamp is the
      resized logo, the gap and the resized QR side by side, each over white. */
  lemma StampAt(qr: Image, logo: Option<Image>, dotWidth: nat, x: nat, y: nat, k: nat)
    requires Usable(qr) && (logo.Some? ==> Usable(logo.value)) && 0 < dotWidth
    requires x < dotWidth && y < QrSize(qr.width, dotWidth) && k < 4
    ensures QrSize(qr.width, dotWidth) <= dotWidth
    ensures var q, left, right := QrSize(qr.width, dotWidth), LeftPart(qr, logo, dotWidth), ScaledQr(qr, dotWidth);
      && (left.Some? ==> left.value.width <= dotWidth - q && left.value.height == q)
      && At(StampOf(qr, logo, dotWidth), x, y, k) ==
           if dotWidth - q <= x then OverWhite(right, x - (dotWidth - q), y, k)
           else if left.Some? && x < left.value.width then OverWhite(left.value, x, y, k)
           else 255
  {
    LogoStaysLeft(1, 1, qr.width, dotWidth);
    if logo.Some? {
      LogoStaysLeft(logo.value.width, logo.value.height, qr.width, dotWidth);
    }
    ComposedAt(dotWidth, LeftPart(qr, logo, dotWidth), ScaledQr(qr, dotWidth), x, y, k);
  }

  predicate Opaque(img: Image)
    requires Valid(img)
  {
    forall x: nat, y: nat :: x < img.width && y < img.height ==> At(img, x, y, 3) == 255
  }

  /** An opaque QR code comes out byte for byte as its resized self, logo or not. */
  lemma QrSurvives(qr: Image, logo: Option<Image>, dotWidth: nat, x: nat, y: nat, k: nat)
    requires Usable(qr) && (logo.Some? ==> Usable(logo.value)) && 0 < dotWidth && Opaque(qr)
    requires x < QrSize(qr.width, dotWidth) && y < QrSize(qr.width, dotWidth) && k < 4
    ensures var q := QrSize(qr.width, dotWidth);
      && q <= dotWidth
      && At(StampOf(qr, logo, dotWidth), dotWidth - q + x, y, k) == At(Resized(qr, q, q), x, y, k)
  {
    var q := QrSize(qr.width, dotWidth);
    LogoStaysLeft(1, 1, qr.width, dotWidth);
    OpaqueScaled(qr, dotWidth, x, y, k);
    StampAt(qr, logo, dotWidth, dotWidth - q + x, y, k);
  }

  lemma OpaqueScaled(qr: Image, dotWidth: nat, x: nat, y: nat, k: nat)
    requires Usable(qr) && Opaque(qr)
    requires x < QrSize(qr.width, dotWidth) && y < QrSize(qr.width, dotWidth) && k < 4
    ensures OverWhite(ScaledQr(qr, dotWidth), x, y, k) == At(ScaledQr(qr, dotWidth), x, y, k)
  {
    var q := QrSize(qr.width, dotWidth);
    ResizedOpaque(qr, q, q, x, y);
    OpaqueOverWhite(Resized(qr, q, q), x, y, k);
  }

  lemma ResizedOpaque(src: Image, w: nat, h: nat, x: nat, y: nat)
    requires Usable(src) && Opaque(src) && x < w && y < h
    ensures At(Resized(src, w, h), x, y, 3) == 255
  {
    ResizedAt(src, w, h, x, y, 3);
    OpaqueAt(src, Scale(x, w, src.width), Scale(y, h, src.height));
  }

  lemma OpaqueAt(img: Image, x: nat, y: nat)
    requires Valid(img) && Opaque(img) && x < img.width && y < img.height
    ensures At(img, x, y, 3) == 255
  {
  }

  lemma OpaqueOverWhite(img: Image, x: nat, y: nat, k: nat)
    requires Valid(img) && x < img.width && y < img.height && k < 4 && At(img, x, y, 3) == 255
    ensures OverWhite(img, x, y, k) == At(img, x, y, k)
  {
  }

  /** The two blits of a stamp could have been made in either order. */
  lemma StampEitherOrder(qr: Image, logo: Image, dotWidth: nat)
    requires Usable(qr) && Usable(logo) && 0 < dotWidth
    ensures var q := QrSize(qr.width, dotWidth);
      StampOf(qr, Some(logo), dotWidth)
      == Blitted(Blitted(White(dotWidth, q), ScaledQr(qr, dotWidth), dotWidth - q, 0),
                 ScaledLogo(qr, logo, dotWidth), 0, 0)
  {
    var q := QrSize(qr.width, dotWidth);
    LogoStaysLeft(logo.width, logo.height, qr.width, dotWidth);
    BlitsCommute(White(dotWidth, q), ScaledLogo(qr, logo, dotWidth), 0, 0, ScaledQr(qr, dotWidth), dotWidth - q, 0);
  }

  // ---- The compositor ------------------------------------------------------

  /** Which pixels a blit has written when it is about to handle column x of row y. */
  predicate Done(cw: nat, img: Image, ox: int, oy: int, x: int, y: int, p: nat) {
    0 < cw
    && var rx, ry := p % cw - ox, p / cw - oy;
      0 <= rx < img.width && 0 <= ry < img.height && (ry < y || (ry == y && rx < x))
  }

  /** The byte at flat index j, as a pixel's. */
  lemma ByteAt(img: Image, j: nat)
    requires Valid(img) && j < |img.data|
    ensures 0 < img.width && (j / 4) % img.width < img.width && 0 <= (j / 4) / img.width < img.height
    ensures img.data[j] == At(img, (j / 4) % img.width, (j / 4) / img.width, j % 4)
  {
    Position(img.width, img.height, j / 4);
    assert j == 4 * (j / 4) + j % 4;
  }

  /** A byte of a blit's result lies in the canvas's pixel for it. */
  lemma BlittedByte(canvas: Image, img: Image, ox: int, oy: int, j: nat)
    requires Valid(canvas) && Valid(img) && j < |canvas.data|
    ensures 0 < canvas.width && (j / 4) % canvas.width < canvas.width
    ensures 0 <= (j / 4) / canvas.width < canvas.height
    ensures Blitted(canvas, img, ox, oy).data[j]
         == BlitByte(canvas, img, ox, oy, (j / 4) % canvas.width, (j / 4) / canvas.width, j % 4)
  {
  }

  lemma PixelIs(w: nat, h: nat, x: nat, y: nat, p: nat)
    requires x < w && y < h && p < w * h
    ensures p == w * y + x <==> p % w == x && p / w == y
  {
    Position(w, h, p);
    Decode(w, x, y);
  }

  /** A pngjs bitmap. */
  class Png {
    const width: nat
    const height: nat
    const data: array<int>

    constructor (width: nat, height: nat)
      ensures this.width == width && this.height == height
      ensures fresh(data) && data.Length == 4 * (width * height)
      ensures Ok()
    {
      this.width, this.height := width, height;
      ProductOrder(0, width, height);
      data := new int[4 * (width * height)](_ => 0);
    }

    ghost function View(): Image
      reads data
    {
      Image(width, height, data[..])
    }

    ghost predicate Ok()
      reads data
    {
      Valid(View())
    }
  }

  /** The four bytes a resize copies for one pixel. */
  lemma GoalPixel(src: Image, w: nat, h: nat, x: nat, y: nat, di: nat, si: nat)
    requires Valid(src) && 0 < src.width && 0 < src.height && x < w && y < h
    requires di == 4 * (w * y + x)
    requires si == 4 * (src.width * Scale(y, h, src.height) + Scale(x, w, src.width))
    ensures di + 4 <= 4 * (w * h) && si + 4 <= |src.data|
    ensures forall j :: di <= j < di + 4 ==> Resized(src, w, h).data[j] == src.data[si + (j - di)]
  {
    InRange(w, h, x, y);
    InRange(src.width, src.height, Scale(x, w, src.width), Scale(y, h, src.height));
    var goal := Resized(src, w, h);
    forall j | di <= j < di + 4 ensures goal.data[j] == src.data[si + (j - di)] {
      var k := j - di;
      ResizedAt(src, w, h, x, y, k);
      assert goal.data[j] == At(goal, x, y, k);
      assert src.data[si + k] == At(src, Scale(x, w, src.width), Scale(y, h, src.height), k);
    }
  }

  method Resize(src: Png, w: nat, h: nat) returns (dst: Png)
    requires src.Ok() && 0 < src.width && 0 < src.height
    ensures fresh(dst) && fresh(dst.data)
    ensures dst.View() == Resized(src.View(), w, h)
  {
    dst := new Png(w, h);
    ghost var image := src.View();
    ghost var n := 0;
    for y := 0 to h
      invariant n == 4 * (w * y)
      invariant Copied(dst, Resized(image, w, h), n)
    {
      var sy := y * src.height / h;
      for x := 0 to w
        invariant n == 4 * (w * y + x)
        invariant Copied(dst, Resized(image, w, h), n)
      {
        var sx := x * src.width / w;
        assert sx == Scale(x, w, src.width) && sy == Scale(y, h, src.height);
        ResizePixel(dst, src, x, y, sx, sy);
        n := n + 4;
      }
      assert w * (y + 1) == w * y + w;
    }
    assert dst.data[..] == Resized(image, w, h).data;
  }

  ghost predicate Copied(dst: Png, goal: Image, n: nat)
    reads dst.data
  {
    && n <= dst.data.Length == |goal.data|
    && dst.width == goal.width && dst.height == goal.height
    && forall j :: 0 <= j < n ==> dst.data[j] == goal.data[j]
  }

  method ResizePixel(dst: Png, src: Png, x: nat, y: nat, sx: nat, sy: nat)
    requires src.Ok() && 0 < src.width && 0 < src.height && dst.data != src.data
    requires x < dst.width && y < dst.height
    requires sx == Scale(x, dst.width, src.width) && sy == Scale(y, dst.height, src.height)
    requires Copied(dst, Resized(src.View(), dst.width, dst.height), 4 * (dst.width * y + x))
    modifies dst.data
    ensures Copied(dst, Resized(src.View(), dst.width, dst.height), 4 * (dst.width * y + x) + 4)
  {
    var si := 4 * (src.width * sy + sx);
    var di := 4 * (dst.width * y + x);
    GoalPixel(src.View(), dst.width, dst.height, x, y, di, si);
    CopyPixel(dst, src, di, si);
  }

  method CopyPixel(dst: Png, src: Png, di: nat, si: nat)
    requires di + 4 <= dst.data.Length && si + 4 <= src.data.Length && dst.data != src.data
    modifies dst.data
    ensures forall j :: 0 <= j < dst.data.Length ==>
      dst.data[j] == if di <= j < di + 4 then src.data[si + (j - di)] else old(dst.data[j])
  {
    dst.data[di] := src.data[si];
    dst.data[di + 1] := src.data[si + 1];
    dst.data[di + 2] := src.data[si + 2];
    dst.data[di + 3] := src.data[si + 3];
  }

  method BlendPixel(canvas: Png, img: Png, di: nat, si: nat)
    requires canvas.Ok() && img.Ok() && canvas.data != img.data
    requires di + 4 <= canvas.data.Length && si + 4 <= img.data.Length
    modifies canvas.data
    ensures canvas.Ok()
    ensures forall j :: 0 <= j < canvas.data.Length ==>
      canvas.data[j] == if di <= j < di + 3 then Blend(img.data[si + (j - di)], old(canvas.data[j]), img.data[si + 3])
                        else if j == di + 3 then 255 else old(canvas.data[j])
  {
    var a := img.data[si + 3];
    assert img.View().data[si + 3] == a;
    for k := 0 to 3
      invariant canvas.Ok()
      invariant forall j :: 0 <= j < canvas.data.Length ==>
        canvas.data[j] == if di <= j < di + k then Blend(img.data[si + (j - di)], old(canvas.data[j]), a)
                          else old(canvas.data[j])
    {
      assert img.View().data[si + k] == img.data[si + k] && canvas.View().data[di + k] == canvas.data[di + k];
      canvas.data[di + k] := Blend(img.data[si + k], canvas.data[di + k], a);
    }
    canvas.data[di + 3] := 255;
  }

  /** The canvas part way through a blit: finished pixels hold the result, the others what
      they held. */
  ghost predicate Blended(canvas: Png, was: Image, img: Image, ox: int, oy: int, x: int, y: int)
    requires Valid(was) && Valid(img)
    reads canvas.data
  {
    && canvas.width == was.width && canvas.height == was.height && canvas.data.Length == |was.data|
    && forall j :: 0 <= j < canvas.data.Length ==>
         canvas.data[j] == if Done(was.width, img, ox, oy, x, y, j / 4) then Blitted(was, img, ox, oy).data[j]
                           else was.data[j]
  }

  /** Only the four bytes of the canvas pixel under image pixel (x, y) become done. */
  lemma DoneStep(was: Image, img: Image, ox: int, oy: int, x: nat, y: nat, j: nat)
    requires Valid(was) && Valid(img) && x < img.width && y < img.height && j < |was.data|
    ensures 0 < was.width
    ensures var here := (j / 4) % was.width == ox + x && (j / 4) / was.width == oy + y;
      && (Done(was.width, img, ox, oy, x + 1, y, j / 4) <==> Done(was.width, img, ox, oy, x, y, j / 4) || here)
      && (here ==> !Done(was.width, img, ox, oy, x, y, j / 4))
  {
  }

  lemma HereMeans(was: Image, cx: int, cy: int, di: int, j: nat)
    requires Valid(was) && 0 <= cx < was.width && 0 <= cy < was.height && j < |was.data|
    requires di == 4 * (was.width * cy + cx)
    ensures di <= j < di + 4 <==> (j / 4) % was.width == cx && (j / 4) / was.width == cy
  {
    PixelIs(was.width, was.height, cx, cy, j / 4);
  }

  lemma StepByte(was: Image, img: Image, ox: int, oy: int, x: nat, y: nat, di: nat, si: nat, j: nat)
    requires Valid(was) && Valid(img) && x < img.width && y < img.height
    requires 0 <= ox + x < was.width && 0 <= oy + y < was.height
    requires di == 4 * (was.width * (oy + y) + (ox + x)) && si == 4 * (img.width * y + x)
    requires di <= j < di + 4 <= |was.data| && si + 4 <= |img.data|
    ensures IsByte(img.data[si + (j - di)]) && IsByte(was.data[j]) && IsByte(img.data[si + 3])
    ensures Blitted(was, img, ox, oy).data[j]
         == if j < di + 3 then Blend(img.data[si + (j - di)], was.data[j], img.data[si + 3]) else 255
  {
    HereMeans(was, ox + x, oy + y, di, j);
    BlittedByte(was, img, ox, oy, j);
    ByteAt(was, j);
    var k := j % 4;
    assert k == j - di;
    assert img.data[si + k] == At(img, x, y, k) && img.data[si + 3] == At(img, x, y, 3);
  }

  method BlitPixel(canvas: Png, img: Png, ox: int, oy: int, x: nat, y: nat, ghost was: Image)
    requires canvas.Ok() && img.Ok() && canvas.data != img.data && Valid(was)
    requires x < img.width && y < img.height && 0 <= ox + x < canvas.width && 0 <= oy + y < canvas.height
    requires Blended(canvas, was, img.View(), ox, oy, x, y)
    modifies canvas.data
    ensures canvas.Ok() && Blended(canvas, was, img.View(), ox, oy, x + 1, y)
  {
    InRange(img.width, img.height, x, y);
    InRange(canvas.width, canvas.height, ox + x, oy + y);
    var si := 4 * (img.width * y + x);
    var di := 4 * (canvas.width * (oy + y) + (ox + x));
    BlendPixel(canvas, img, di, si);
    forall j: nat | j < canvas.data.Length
      ensures canvas.data[j] == if Done(was.width, img.View(), ox, oy, x + 1, y, j / 4)
                                then Blitted(was, img.View(), ox, oy).data[j] else was.data[j]
    {
      DoneStep(was, img.View(), ox, oy, x, y, j);
      HereMeans(was, ox + x, oy + y, di, j);
      if di <= j < di + 4 {
        StepByte(was, img.View(), ox, oy, x, y, di, si, j);
      }
    }
  }

  /** blit: clipped to the canvas, compositing over what is there. */
  method Blit(canvas: Png, img: Png, ox: int, oy: int)
    requires canvas.Ok() && img.Ok() && canvas.data != img.data
    modifies canvas.data
    ensures canvas.Ok() && canvas.View() == Blitted(old(canvas.View()), img.View(), ox, oy)
  {
    ghost var was := canvas.View();
    for y := 0 to img.height
      invariant canvas.Ok() && Blended(canvas, was, img.View(), ox, oy, 0, y)
    {
      var cy := oy + y;
      if 0 <= cy < canvas.height {
        for x := 0 to img.width
          invariant canvas.Ok() && Blended(canvas, was, img.View(), ox, oy, x, y)
        {
          if 0 <= ox + x < canvas.width {
            BlitPixel(canvas, img, ox, oy, x, y, was);
          } else {
            Clipped(canvas, was, img.View(), ox, oy, x, y);
          }
        }
        RowDone(canvas, was, img.View(), ox, oy, img.width, y);
      } else {
        RowClipped(canvas, was, img.View(), ox, oy, y);
      }
    }
    Finished(canvas, was, img.View(), ox, oy);
  }

  lemma Clipped(canvas: Png, was: Image, img: Image, ox: int, oy: int, x: nat, y: nat)
    requires Valid(was) && Valid(img) && x < img.width && y < img.height
    requires !(0 <= ox + x < canvas.width) && Blended(canvas, was, img, ox, oy, x, y)
    ensures Blended(canvas, was, img, ox, oy, x + 1, y)
  {
  }

  lemma RowDone(canvas: Png, was: Image, img: Image, ox: int, oy: int, x: nat, y: nat)
    requires Valid(was) && Valid(img) && x == img.width
    requires Blended(canvas, was, img, ox, oy, x, y)
    ensures Blended(canvas, was, img, ox, oy, 0, y + 1)
  {
  }

  lemma RowClipped(canvas: Png, was: Image, img: Image, ox: int, oy: int, y: nat)
    requires Valid(was) && Valid(img)
    requires !(0 <= oy + y < canvas.height) && Blended(canvas, was, img, ox, oy, 0, y)
    ensures Blended(canvas, was, img, ox, oy, 0, y + 1)
  {
  }

  lemma Finished(canvas: Png, was: Image, img: Image, ox: int, oy: int)
    requires Valid(was) && Valid(img) && Blended(canvas, was, img, ox, oy, 0, img.height)
    ensures canvas.View() == Blitted(was, img, ox, oy)
  {
    var goal := Blitted(was, img, ox, oy);
    forall j: nat | j < canvas.data.Length ensures canvas.data[j] == goal.data[j] {
      BlittedByte(was, img, ox, oy, j);
      ByteAt(was, j);
    }
    assert canvas.data[..] == goal.data;
  }

  /** canvas.data.fill(255) */
  method Fill(canvas: Png)
    requires canvas.Ok()
    modifies canvas.data
    ensures canvas.Ok() && canvas.View() == White(canvas.width, canvas.height)
  {
    for j := 0 to canvas.data.Length
      invariant forall i :: 0 <= i < j ==> canvas.data[i] == 255
    {
      canvas.data[j] := 255;
    }
    assert canvas.data[..] == White(canvas.width, canvas.height).data;
  }

  /** buildFbrStampPng between decoding the two images and encoding the result; the logo is
      null when its file is missing. */
  method BuildStamp(qr: Png, logo: Png?, dotWidth: nat) returns (canvas: Png)
    requires qr.Ok() && 0 < qr.width && 0 < qr.height
    requires logo != null ==> logo.Ok() && 0 < logo.width && 0 < logo.height
    ensures canvas.View()
         == StampOf(qr.View(), if logo == null then None else Some(logo.View()), dotWidth)
  {
    var qrSize := QrSize(qr.width, dotWidth);
    var qrImg := Resize(qr, qrSize, qrSize);
    var logoImg: Png? := null;
    if logo != null {
      logoImg := Resize(logo, LogoWidth(logo.width, logo.height, qrSize, dotWidth), qrSize);
    }
    canvas := new Png(dotWidth, qrSize);
    Fill(canvas);
    if logoImg != null {
      Blit(canvas, logoImg, 0, 0);
    }
    Blit(canvas, qrImg, dotWidth - qrSize, 0);
  }
}
