/** The geometry properties of `Window` in `tkreform/base.py`.

    The toolkit reports a window's geometry as a string `"WxH+X+Y"`; `xgeo`
    reads it as four ints and writes four ints back in the same shape, `size`
    and `pos` are its first and last two components and write the partial
    strings `"WxH"` and `"+X+Y"`. `resizable` turns a single flag into a pair
    and `size_range` regroups the toolkit's minimum and maximum sizes by
    axis. The geometry string the toolkit returns is a parameter here. */
module Geometry {
  import opened Common

  /** The `(w, h, x, y)` tuple of `xgeo`. */
  datatype XGeo = XGeo(w: int, h: int, x: int, y: int)

  /** Unpacking fewer values than targets. */
  const NotEnoughValues := ValueError("not enough values to unpack")

  /** `size.split("x", 1)` unpacked into two ints: the first part is read
      before the missing second one is noticed. */
  function ParseSize(size: string): (r: Result<(int, int)>)
    ensures r.Err? ==> r.error.ValueError?
  {
    var parts := SplitOnce(size, 'x');
    var first := ParseInt(if parts.Some? then parts.value.0 else size);
    if first.Err? then Err(first.error)
    else if parts.None? then Err(NotEnoughValues)
    else
      var second := ParseInt(parts.value.1);
      if second.Err? then Err(second.error) else Ok((first.value, second.value))
  }

  /** The `xgeo` getter: `geo.split("+", 2)` unpacked into three parts (so
      `geo` needs two '+'; a third one stays in the last part), then the size
      part, `int(posx)` and `int(posy)`, in that order. */
  function ParseXGeo(geo: string): (r: Result<XGeo>)
    ensures r.Err? ==> r.error.ValueError?
    ensures '+' !in geo ==> r == Err(NotEnoughValues)
  {
    match SplitOnce(geo, '+')
    case None => Err(NotEnoughValues)
    case Some(p) =>
      match SplitOnce(p.1, '+')
      case None => Err(NotEnoughValues)
      case Some(q) =>
        var size, px, py := ParseSize(p.0), ParseInt(q.0), ParseInt(q.1);
        if size.Err? then Err(size.error)
        else if px.Err? then Err(px.error)
        else if py.Err? then Err(py.error)
        else Ok(XGeo(size.value.0, size.value.1, px.value, py.value))
  }

  /** The `size` setter's string `"{0}x{1}"`. */
  function SizeSpec(w: int, h: int): string {
    IntToString(w) + "x" + IntToString(h)
  }

  /** The `pos` setter's string `"+{0}+{1}"`. */
  function PosSpec(x: int, y: int): string {
    "+" + IntToString(x) + "+" + IntToString(y)
  }

  /** The `xgeo` setter's string `"{0}x{1}+{2}+{3}"`. */
  function FormatXGeo(g: XGeo): (s: string)
    ensures s == SizeSpec(g.w, g.h) + PosSpec(g.x, g.y)
  {
    IntToString(g.w) + "x" + IntToString(g.h) + "+" + IntToString(g.x) + "+" + IntToString(g.y)
  }

  /** The `size` getter: the first two components of `xgeo`; it fails
      exactly when `xgeo` does, with its error. */
  function SizeOf(geo: string): (r: Result<(int, int)>)
    ensures r.Ok? <==> ParseXGeo(geo).Ok?
    ensures r.Ok? ==> r.value == (ParseXGeo(geo).value.w, ParseXGeo(geo).value.h)
    ensures r.Err? ==> r.error == ParseXGeo(geo).error
  {
    var g := ParseXGeo(geo);
    if g.Err? then Err(g.error) else Ok((g.value.w, g.value.h))
  }

  /** The `pos` getter: the last two components of `xgeo`; it fails
      exactly when `xgeo` does, with its error. */
  function PosOf(geo: string): (r: Result<(int, int)>)
    ensures r.Ok? <==> ParseXGeo(geo).Ok?
    ensures r.Ok? ==> r.value == (ParseXGeo(geo).value.x, ParseXGeo(geo).value.y)
    ensures r.Err? ==> r.error == ParseXGeo(geo).error
  {
    var g := ParseXGeo(geo);
    if g.Err? then Err(g.error) else Ok((g.value.x, g.value.y))
  }

  /** `str(i)` holds neither '+' nor 'x'. */
  lemma IntTextPlain(i: int)
    ensures '+' !in IntToString(i) && 'x' !in IntToString(i)
  {
    var s := IntToString(i);
    forall k | 0 <= k < |s| ensures s[k] != '+' && s[k] != 'x' {
      assert IsDigit(s[k]) || s[k] == '-';
    }
  }

  /** Reading back the size part the setters write. */
  lemma ParseSizeSpec(w: int, h: int)
    ensures ParseSize(SizeSpec(w, h)) == Ok((w, h))
  {
    IntTextPlain(w);
    SplitOnceAt(IntToString(w), 'x', IntToString(h));
    IntRoundTrip(w);
    IntRoundTrip(h);
  }

  /** Setting `xgeo` to any four ints and reading it back gives them back. */
  lemma XGeoRoundTrip(g: XGeo)
    ensures ParseXGeo(FormatXGeo(g)) == Ok(g)
  {
    var size, sx, sy := SizeSpec(g.w, g.h), IntToString(g.x), IntToString(g.y);
    IntTextPlain(g.w);
    IntTextPlain(g.h);
    IntTextPlain(g.x);
    IntTextPlain(g.y);
    assert '+' !in size by {
      assert size == IntToString(g.w) + ['x'] + IntToString(g.h);
    }
    assert FormatXGeo(g) == size + ['+'] + (sx + ['+'] + sy);
    SplitOnceAt(size, '+', sx + ['+'] + sy);
    SplitOnceAt(sx, '+', sy);
    ParseSizeSpec(g.w, g.h);
    IntRoundTrip(g.x);
    IntRoundTrip(g.y);
  }

  /** `size` and `pos` read the components `xgeo` wrote. */
  lemma SizePosRoundTrip(g: XGeo)
    ensures SizeOf(FormatXGeo(g)) == Ok((g.w, g.h))
    ensures PosOf(FormatXGeo(g)) == Ok((g.x, g.y))
  {
    XGeoRoundTrip(g);
  }

  /** A string with a single '+' has too few parts. */
  lemma XGeoOnePlus(a: string, b: string)
    requires '+' !in a && '+' !in b
    ensures ParseXGeo(a + "+" + b) == Err(NotEnoughValues)
  {
    SplitOnceAt(a, '+', b);
  }

  /** The argument of the `resizable` setter: one flag for both axes, or a
      pair. */
  datatype Resize = Flag(b: bool) | Pair(x: bool, y: bool)

  /** The `resizable` setter's normalisation to an (x, y) pair: one flag
      applies to both axes, a pair is passed through. */
  function Resizable(r: Resize): (p: (bool, bool))
    ensures r.Flag? ==> p.0 == r.b && p.1 == r.b
    ensures r.Pair? ==> p.0 == r.x && p.1 == r.y
  {
    if r.Flag? then (r.b, r.b) else (r.x, r.y)
  }

  /** Writing back the pair that `resizable` reads leaves it as it is, and a
      single flag is the same as that flag for both axes. */
  lemma ResizableReadBack(r: Resize)
    ensures var p := Resizable(r); Resizable(Pair(p.0, p.1)) == p
    ensures r.Flag? ==> Resizable(r) == Resizable(Pair(r.b, r.b))
  {
  }

  /** The toolkit's size limits: `minsize()` and `maxsize()` as (x, y). */
  datatype Limits = Limits(minsize: (int, int), maxsize: (int, int))

  /** The `size_range` setter: `((xmin, xmax), (ymin, ymax))` becomes
      `minsize(xmin, ymin)` and `maxsize(xmax, ymax)`. */
  function LimitsOf(rng: ((int, int), (int, int))): (l: Limits)
    ensures l.minsize.0 == rng.0.0 && l.minsize.1 == rng.1.0
    ensures l.maxsize.0 == rng.0.1 && l.maxsize.1 == rng.1.1
  {
    Limits((rng.0.0, rng.1.0), (rng.0.1, rng.1.1))
  }

  /** The `size_range` getter: the limits regrouped by axis. Setting what it
      reads leaves the limits as they were, and it reads back exactly the
      one range that sets them. */
  function SizeRange(l: Limits): (rng: ((int, int), (int, int)))
    ensures LimitsOf(rng) == l
    ensures forall r :: LimitsOf(r) == l ==> r == rng
  {
    ((l.minsize.0, l.maxsize.0), (l.minsize.1, l.maxsize.1))
  }
}
