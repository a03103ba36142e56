/** Crop geometry of `ImageCropper`: the centred rectangle that brings an image
    to a target aspect ratio by trimming one axis, and the strings the
    "params" output mode reports about it.

    The target ratio, a float in the server, is the exact rational `num / den`
    with `den > 0`, so `w / h >= ratio` becomes `w * den >= h * num`. */
module Crop {
  import opened Text

  /** The dictionary returned by `get_crop_params`. */
  datatype CropParams = CropParams(x: int, y: int, width: int, height: int, cropNeeded: bool)

  /** Python's `int(a / b)` for `b > 0`: the quotient truncated toward zero. */
  function TruncDiv(a: int, b: int): (q: int)
    requires b > 0
    ensures a >= 0 ==> 0 <= q * b <= a < (q + 1) * b
    ensures a < 0 ==> (q - 1) * b < a <= q * b <= 0
  {
    if a >= 0 then FloorQuotient(a, b)
    else
      var m := FloorQuotient(0 - a, b);
      Bracket(m, 0 - a, b);
      0 - m
  }

  /** `n // b` for `n >= 0`, pinned by the bracket around `n`. */
  function FloorQuotient(n: nat, b: int): (m: nat)
    requires b > 0
    ensures 0 <= m * b <= n < (m + 1) * b
  {
    var m := n / b;
    FloorDivBounds(n, b);
    ProductNonNegative(m, b);
    m
  }

  lemma ProductNonNegative(m: nat, b: nat)
    ensures 0 <= m * b
  {
  }

  /** Negating a bracket `m*b <= n < (m+1)*b` with `m >= 0` brackets `-n`
      around `-m`. */
  lemma Bracket(m: int, n: int, b: int)
    requires b > 0 && m >= 0 && m * b <= n < (m + 1) * b
    ensures (0 - m - 1) * b < 0 - n <= (0 - m) * b <= 0
  {
    assert (0 - m - 1) * b == 0 - m * b - b;
    assert (m + 1) * b == m * b + b;
    assert (0 - m) * b == 0 - m * b;
  }

  /** `get_crop_params(w, h, num / den)`. Floor division `//` by 2 is Dafny's
      `/` here, since the divisor is positive. */
  function GetCropParams(w: nat, h: nat, num: int, den: int): (r: CropParams)
    requires h > 0 && den > 0
    ensures r.cropNeeded
    ensures r.width == w || r.height == h
  {
    if w * den >= h * num then
      var newWidth := TruncDiv(h * num, den);
      CropParams((w - newWidth) / 2, 0, newWidth, h, true)
    else
      var newHeight := TruncDiv(w * den, num);
      CropParams(0, (h - newHeight) / 2, w, newHeight, true)
  }

  lemma FloorDivBounds(a: nat, d: int)
    requires d > 0
    ensures (a / d) * d <= a < (a / d + 1) * d
  {
  }

  lemma ScaleMonotone(a: int, b: int, d: int)
    requires d > 0 && a * d <= b * d
    ensures a <= b
  {
  }

  lemma ScaleStrict(a: int, b: int, d: int)
    requires d > 0 && a * d < b * d
    ensures a < b
  {
  }

  /** A source at least as wide as the target keeps its full height; the width
      becomes the largest whole number not above `h * ratio`, which never
      exceeds the source width, and the kept band is centred, the right margin
      being the left margin or one more. */
  lemma CropWidthTrim(w: nat, h: nat, num: int, den: int)
    requires h > 0 && den > 0 && num > 0
    requires w * den >= h * num
    ensures var r := GetCropParams(w, h, num, den);
      && r.y == 0 && r.height == h
      && r.width * den <= h * num < (r.width + 1) * den
      && 0 <= r.width <= w
      && r.x == (w - r.width) / 2
      && 0 <= r.x && r.x + r.width <= w
      && r.x <= w - (r.x + r.width) <= r.x + 1
  {
    var r := GetCropParams(w, h, num, den);
    var a: nat := h * num;
    FloorDivBounds(a, den);
    assert r.width == a / den;
    ScaleMonotone(r.width, w, den);
  }

  /** A source narrower than the target keeps its full width; the height
      becomes the largest whole number not above `w / ratio`, strictly below
      the source height, and the kept band is centred vertically. */
  lemma CropHeightTrim(w: nat, h: nat, num: int, den: int)
    requires h > 0 && den > 0
    requires w * den < h * num
    ensures num > 0
    ensures var r := GetCropParams(w, h, num, den);
      && r.x == 0 && r.width == w
      && r.height * num <= w * den < (r.height + 1) * num
      && 0 <= r.height < h
      && r.y == (h - r.height) / 2
      && 0 <= r.y && r.y + r.height <= h
      && r.y <= h - (r.y + r.height) <= r.y + 1
  {
    var r := GetCropParams(w, h, num, den);
    var a: nat := w * den;
    FloorDivBounds(a, num);
    assert r.height == a / num;
    assert r.height * num < h * num;
  }

  /** For a positive ratio the rectangle lies inside the source, trims at most
      one axis and so never covers more pixels than the source has. */
  lemma CropInsideSource(w: nat, h: nat, num: int, den: int)
    requires h > 0 && den > 0 && num > 0
    ensures var r := GetCropParams(w, h, num, den);
      && 0 <= r.x && 0 <= r.y && 0 <= r.width && 0 <= r.height
      && r.x + r.width <= w && r.y + r.height <= h
      && r.width * r.height <= w * h
  {
    var r := GetCropParams(w, h, num, den);
    if w * den >= h * num {
      CropWidthTrim(w, h, num, den);
      ScaleUp(r.width, w, h);
    } else {
      CropHeightTrim(w, h, num, den);
      ScaleUp(r.height, h, w);
      assert w * r.height == r.height * w && w * h == h * w;
    }
  }

  lemma ScaleUp(a: int, b: int, c: nat)
    requires 0 <= a <= b
    ensures a * c <= b * c
  {
  }

  /** When the source already has the target ratio the rectangle is the whole
      image with zero offsets, and `crop_needed` is still reported. */
  lemma CropExactRatio(w: nat, h: nat, num: int, den: int)
    requires h > 0 && den > 0 && num > 0
    requires w * den == h * num
    ensures GetCropParams(w, h, num, den) == CropParams(0, 0, w, h, true)
  {
    var r := GetCropParams(w, h, num, den);
    CropWidthTrim(w, h, num, den);
    BracketUnique(r.width, w, den);
  }

  /** Only `y` itself has `y * d` in `[x * d, (x + 1) * d)`. */
  lemma BracketUnique(x: int, y: int, d: int)
    requires d > 0 && x * d <= y * d < (x + 1) * d
    ensures x == y
  {
    ScaleMonotone(x, y, d);
    ScaleStrict(y, x + 1, d);
  }

  /** A ratio of zero or below is not rejected: the width-trim branch is
      always taken and the width collapses to zero or below. */
  lemma CropNonPositiveRatio(w: nat, h: nat, num: int, den: int)
    requires h > 0 && den > 0 && num <= 0
    ensures var r := GetCropParams(w, h, num, den);
      r.width <= 0 && r.height == h && r.y == 0 && r.x >= w / 2
  {
    assert h * num <= 0;
  }

  /** A 2000x1000 source at ratio 2.35 = 47/20 is narrower than the target:
      rows 74 to 924 are kept. */
  lemma CropHeaderExample()
    ensures GetCropParams(2000, 1000, 47, 20) == CropParams(0, 74, 2000, 851, true)
  {
  }

  /** The `WxH` size string. */
  function SizeString(w: int, h: int): string
  {
    IntToString(w) + "x" + IntToString(h)
  }

  /** `f"{url}#crop={x},{y},{width},{height}"`. */
  function CropUrl(url: string, p: CropParams): string
  {
    url + "#crop=" + IntToString(p.x) + "," + IntToString(p.y) + ","
      + IntToString(p.width) + "," + IntToString(p.height)
  }

  /** The size string splits at `x` into the two numbers it was made from. */
  lemma SizeStringRoundTrip(w: int, h: int)
    ensures var parts := Split(SizeString(w, h), 'x');
      |parts| == 2 && ParseInt(parts[0]) == Some(w) && ParseInt(parts[1]) == Some(h)
  {
    var parts := [IntToString(w), IntToString(h)];
    assert Join(parts, "x") == SizeString(w, h);
    IntToStringLacks(w, 'x');
    IntToStringLacks(h, 'x');
    SplitJoin(parts, 'x');
    IntToStringRoundTrip(w);
    IntToStringRoundTrip(h);
  }

  lemma JoinFour(a: string, b: string, c: string, d: string, sep: string)
    ensures Join([a, b, c, d], sep) == a + sep + (b + sep + (c + sep + d))
  {
    assert [c, d][1..] == [d];
    assert Join([c, d], sep) == c + sep + d;
    assert [b, c, d][1..] == [c, d];
    assert Join([b, c, d], sep) == b + sep + Join([c, d], sep);
    assert [a, b, c, d][1..] == [b, c, d];
  }

  /** The fragment after `#crop=` is the four fields joined by commas. */
  lemma CropUrlShape(url: string, p: CropParams)
    ensures CropUrl(url, p) == url + "#crop="
      + Join([IntToString(p.x), IntToString(p.y), IntToString(p.width), IntToString(p.height)], ",")
  {
    var (x, y, w, h) := (IntToString(p.x), IntToString(p.y), IntToString(p.width), IntToString(p.height));
    JoinFour(x, y, w, h, ",");
    assert CropUrl(url, p) == url + "#crop=" + x + "," + y + "," + w + "," + h;
  }

  /** The URL keeps the image URL as its prefix, and the `#crop=` fragment
      after it reads back as exactly the four rectangle fields, in order. */
  lemma CropUrlRoundTrip(url: string, p: CropParams)
    ensures var s := CropUrl(url, p);
      && s[..|url| + 6] == url + "#crop="
      && var parts := Split(s[|url| + 6..], ',');
      && |parts| == 4
      && ParseInt(parts[0]) == Some(p.x) && ParseInt(parts[1]) == Some(p.y)
      && ParseInt(parts[2]) == Some(p.width) && ParseInt(parts[3]) == Some(p.height)
  {
    var parts := [IntToString(p.x), IntToString(p.y), IntToString(p.width), IntToString(p.height)];
    var fragment := Join(parts, ",");
    CropUrlShape(url, p);
    assert CropUrl(url, p) == (url + "#crop=") + fragment;
    IntToStringLacks(p.x, ',');
    IntToStringLacks(p.y, ',');
    IntToStringLacks(p.width, ',');
    IntToStringLacks(p.height, ',');
    SplitJoin(parts, ',');
    IntToStringRoundTrip(p.x);
    IntToStringRoundTrip(p.y);
    IntToStringRoundTrip(p.width);
    IntToStringRoundTrip(p.height);
  }

  /** What `smart_crop_to_ratio` reports about the rectangle. */
  datatype CropReport = CropReport(
    originalUrl: string,
    actualSize: string,
    params: CropParams,
    croppedSize: string,
    cropUrl: Option<string>)

  /** `smart_crop_to_ratio` up to the output-format branch. `probed` is what
      the size probe returned (`None` when the download or decoding failed);
      a zero height makes the ratio test divide by zero, which the method's
      exception handler turns into `None`. Only the "params" format adds the
      `#crop=` URL. The "base64" and "compressed" formats download and decode
      the image a second time inside the same handler; `refetchRaises` says
      whether that raised, which also ends in `None`. */
  function SmartCrop(url: string, probed: Option<(nat, nat)>, num: int, den: int, format: string,
                     refetchRaises: bool): (r: Option<CropReport>)
    requires den > 0
    ensures r.None? <==>
      || probed.None? || probed.value.1 == 0
      || ((format == "base64" || format == "compressed") && refetchRaises)
    ensures r.Some? ==>
      && r.value.originalUrl == url
      && r.value.params == GetCropParams(probed.value.0, probed.value.1, num, den)
      && r.value.actualSize == SizeString(probed.value.0, probed.value.1)
      && r.value.croppedSize == SizeString(r.value.params.width, r.value.params.height)
      && (r.value.cropUrl.Some? <==> format == "params")
      && (r.value.cropUrl.Some? ==> r.value.cropUrl.value == CropUrl(url, r.value.params))
  {
    if probed.None? then None
    else
      var (w, h) := probed.value;
      if h == 0 then None
      else if (format == "base64" || format == "compressed") && refetchRaises then None
      else
        var p := GetCropParams(w, h, num, den);
        Some(CropReport(url, SizeString(w, h), p, SizeString(p.width, p.height),
                        if format == "params" then Some(CropUrl(url, p)) else None))
  }
}
