/**
 Full-page screenshots: scrolling a page viewport by viewport, and stitching the
 captures onto one canvas. Arithmetic is exact; `Round` is `Math.round`.
 */
module Screenshot {
  import opened Wrappers

  const MAX_CANVAS_SIDE := 65535
  const MAX_CANVAS_AREA := 16384 * 16384

  function Round(x: real): int {
    (x + 0.5).Floor
  }

  function Ceil(x: real): int {
    -((-x).Floor)
  }

  datatype Refusal = NoArea | TooTall | TooWide | TooLarge

  function NoCaptureAreaRefusal(height: real, viewport: real): (r: Option<Refusal>)
    ensures r == Some(NoArea) <==> height <= 0.0 || viewport <= 0.0
    ensures r.Some? ==> r == Some(NoArea)
  {
    if height > 0.0 && viewport > 0.0 then None else Some(NoArea)
  }

  function CanvasLimitRefusal(width: int, height: int): (r: Option<Refusal>)
    ensures r.None? <==> width <= MAX_CANVAS_SIDE && height <= MAX_CANVAS_SIDE && width * height <= MAX_CANVAS_AREA
    ensures r == Some(TooTall) <==> height > MAX_CANVAS_SIDE
    ensures r == Some(TooWide) <==> height <= MAX_CANVAS_SIDE && width > MAX_CANVAS_SIDE
    ensures r != Some(NoArea)
  {
    if height > MAX_CANVAS_SIDE then Some(TooTall)
    else if width > MAX_CANVAS_SIDE then Some(TooWide)
    else if width * height > MAX_CANVAS_AREA then Some(TooLarge)
    else None
  }

  function SliceCount(height: real, viewport: real): int
    requires viewport > 0.0
  {
    Ceil(height / viewport)
  }

  function LastSlice(height: real, viewport: real): real
    requires viewport > 0.0
  {
    height - (SliceCount(height, viewport) - 1) as real * viewport
  }

  lemma DivTimes(x: real, v: real)
    requires v != 0.0
    ensures x / v * v == x
  {
  }

  lemma TimesMonotone(x: real, y: real, v: real)
    requires v > 0.0
    ensures x < y ==> x * v < y * v
    ensures x <= y ==> x * v <= y * v
  {
  }

  lemma OneMore(x: real, v: real)
    ensures (x + 1.0) * v == x * v + v
  {
  }

  lemma NonNegative(x: real, y: real)
    requires 0.0 <= x && 0.0 <= y
    ensures 0.0 <= x * y
  {
  }

  lemma Distribute(x: real, y: real, v: real)
    ensures (x - y) * v == x * v - y * v
  {
  }

  lemma RoomBelow(x: real, last: real, v: real, h: real)
    requires 0.0 <= x && x + 1.0 <= last && v > 0.0 && last * v < h
    ensures 0.0 <= x * v && x * v + v < h
  {
    NonNegative(x, v);
    NonNegative(last - (x + 1.0), v);
    Distribute(last, x + 1.0, v);
    OneMore(x, v);
  }

  lemma RoundIsNear(x: real)
    ensures -0.5 <= x - Round(x) as real <= 0.5
  {
  }

  lemma CeilIsNext(x: real)
    ensures (Ceil(x) - 1) as real < x <= Ceil(x) as real
  {
  }

  lemma LastOfMany(n: int, v: real)
    ensures (n - 1) as real * v == n as real * v - v
  {
    Distribute(n as real, 1.0, v);
  }

  // n viewports cover a page of x viewports, and n - 1 do not.
  lemma CoverTimes(n: int, x: real, height: real, viewport: real)
    requires viewport > 0.0 && (n - 1) as real < x <= n as real && x * viewport == height
    ensures (n - 1) as real * viewport < height <= n as real * viewport
  {
    TimesMonotone((n - 1) as real, x, viewport);
    TimesMonotone(x, n as real, viewport);
  }

  lemma QuotientPositive(height: real, viewport: real)
    requires height > 0.0 && viewport > 0.0
    ensures height / viewport > 0.0
  {
    DivTimes(height, viewport);
    if height / viewport <= 0.0 {
      TimesMonotone(height / viewport, 0.0, viewport);
    }
  }

  // The slices cover the page, and the last one shows something new.
  lemma SlicesCover(height: real, viewport: real)
    requires height > 0.0 && viewport > 0.0
    ensures var n := SliceCount(height, viewport);
            n >= 1 && (n - 1) as real * viewport < height <= n as real * viewport
    ensures 0.0 < LastSlice(height, viewport) <= viewport
  {
    var n, x := SliceCount(height, viewport), height / viewport;
    CeilIsNext(x);
    QuotientPositive(height, viewport);
    DivTimes(height, viewport);
    CoverTimes(n, x, height, viewport);
    LastOfMany(n, viewport);
  }

  lemma RoundShifts(k: int, x: real)
    ensures Round(k as real + x) == k + Round(x)
  {
  }

  // A page distance in device rows: a viewport is as many as a capture has.
  function Scaled(x: real, img: nat, viewport: real): real
    requires viewport > 0.0
  {
    x * (img as real / viewport)
  }

  // Rows of the first i captures.
  function Rows(i: int, img: nat): int {
    i * img
  }

  function TargetHeight(img: nat, height: real, viewport: real): int
    requires viewport > 0.0
  {
    Round(Scaled(height, img, viewport))
  }

  // Image rows of the last slice that are new.
  function LastRows(img: nat, height: real, viewport: real): int
    requires viewport > 0.0
  {
    Round(Scaled(LastSlice(height, viewport), img, viewport))
  }

  lemma ScaledWhole(k: int, img: nat, viewport: real)
    requires viewport > 0.0
    ensures Scaled(k as real * viewport, img, viewport) == Rows(k, img) as real
  {
    var s := img as real / viewport;
    DivTimes(img as real, viewport);
    assert k as real * viewport * s == k as real * (s * viewport);
  }

  lemma ScaledSum(x: real, y: real, img: nat, viewport: real)
    requires viewport > 0.0
    ensures Scaled(x + y, img, viewport) == Scaled(x, img, viewport) + Scaled(y, img, viewport)
  {
  }

  lemma ScaledBounds(x: real, img: nat, viewport: real)
    requires 0.0 <= x <= viewport && viewport > 0.0
    ensures 0.0 <= Scaled(x, img, viewport) <= img as real
    ensures x == viewport ==> Scaled(x, img, viewport) == img as real
  {
    ScaledWhole(1, img, viewport);
    ScaledSum(x, viewport - x, img, viewport);
    NonNegative(x, img as real / viewport);
    NonNegative(viewport - x, img as real / viewport);
  }

  // The canvas is exactly as tall as the whole slices and the new rows of the last one.
  lemma CanvasHeightAddsUp(img: nat, height: real, viewport: real)
    requires height > 0.0 && viewport > 0.0
    ensures var m, last := SliceCount(height, viewport) - 1, LastSlice(height, viewport);
            && Scaled(height, img, viewport) == Rows(m, img) as real + Scaled(last, img, viewport)
            && TargetHeight(img, height, viewport) == Rows(m, img) + LastRows(img, height, viewport)
    ensures 0 <= LastRows(img, height, viewport) <= img
    ensures LastSlice(height, viewport) == viewport ==> LastRows(img, height, viewport) == img
  {
    var m, last := SliceCount(height, viewport) - 1, LastSlice(height, viewport);
    SlicesCover(height, viewport);
    ScaledSum(m as real * viewport, last, img, viewport);
    ScaledWhole(m, img, viewport);
    RoundShifts(Rows(m, img), Scaled(last, img, viewport));
    ScaledBounds(last, img, viewport);
  }

  datatype Image<R> = Image(width: nat, rows: seq<R>)

  // One `drawImage`: `count` rows of an image from `from` on, onto the canvas at `at`; both ends clip.
  datatype Draw<R> = Draw(img: Image<R>, from: int, count: int, at: int)

  type Canvas<R> = seq<Option<R>>

  function DrawnRow<R>(row: Option<R>, d: Draw<R>, y: int): Option<R> {
    if d.at <= y < d.at + d.count && 0 <= d.from + y - d.at < |d.img.rows|
    then Some(d.img.rows[d.from + y - d.at]) else row
  }

  function After<R>(canvas: Canvas<R>, d: Draw<R>): (c: Canvas<R>)
    ensures |c| == |canvas|
    ensures forall y :: 0 <= y < |canvas| ==> c[y] == DrawnRow(canvas[y], d, y)
  {
    seq(|canvas|, y requires 0 <= y < |canvas| => DrawnRow(canvas[y], d, y))
  }

  function Blank<R>(height: nat): (c: Canvas<R>)
    ensures |c| == height && forall y :: 0 <= y < height ==> c[y] == None
  {
    seq(height, y => None)
  }

  function SliceDraw<R>(slices: seq<Image<R>>, viewport: real, last: real, i: nat): Draw<R>
    requires i < |slices| && viewport > 0.0
  {
    var img, imgHeight := slices[i], |slices[0].rows|;
    if i == |slices| - 1 && last < viewport then
      var rows := Round(Scaled(last, imgHeight, viewport));
      Draw(img, |img.rows| - rows, rows, Rows(i, imgHeight))
    else Draw(img, 0, |img.rows|, Rows(i, imgHeight))
  }

  // The draws of a stitch, one per slice, in order.
  function SliceDraws<R>(slices: seq<Image<R>>, viewport: real, last: real, k: nat): (draws: seq<Draw<R>>)
    requires k <= |slices| && viewport > 0.0
    ensures |draws| == k && forall i :: 0 <= i < k ==> draws[i] == SliceDraw(slices, viewport, last, i)
  {
    seq(k, i requires 0 <= i < k => SliceDraw(slices, viewport, last, i))
  }

  // A blank canvas after the first k draws; later ones paint over earlier ones.
  function Painted<R>(draws: seq<Draw<R>>, k: nat, height: nat): (c: Canvas<R>)
    requires k <= |draws|
    ensures |c| == height
  {
    if k == 0 then Blank(height) else After(Painted(draws, k - 1, height), draws[k - 1])
  }

  // The draws follow each other without gap or overlap from the top of the canvas
  // to its end, and each takes rows its image has.
  ghost predicate Tiles<R>(draws: seq<Draw<R>>, height: nat) {
    && draws != [] && draws[0].at == 0
    && draws[|draws| - 1].at + draws[|draws| - 1].count == height
    && (forall i :: 0 <= i < |draws| ==>
          draws[i].count >= 0 && 0 <= draws[i].from && draws[i].from + draws[i].count <= |draws[i].img.rows|)
    && (forall i, j :: 0 <= i && i + 1 == j < |draws| ==> draws[i].at + draws[i].count == draws[j].at)
  }

  predicate OnRow<R>(d: Draw<R>, y: int) {
    d.at <= y < d.at + d.count
  }

  lemma {:induction false} TilesInOrder<R>(draws: seq<Draw<R>>, height: nat, i: nat, j: nat)
    requires Tiles(draws, height) && i < j < |draws|
    ensures draws[i].at + draws[i].count <= draws[j].at
    decreases j - i
  {
    if i + 1 < j {
      TilesInOrder(draws, height, i, j - 1);
      var k := j - 1;
      assert draws[k].at + draws[k].count == draws[j].at;
    }
  }

  // Every canvas row belongs to exactly one draw.
  lemma {:induction false} OneDrawPerRow<R>(draws: seq<Draw<R>>, height: nat, y: nat) returns (i: nat)
    requires Tiles(draws, height) && y < height
    ensures i < |draws| && forall j :: 0 <= j < |draws| ==> (OnRow(draws[j], y) <==> j == i)
  {
    i := |draws| - 1;
    while y < draws[i].at
      invariant i < |draws| && y < draws[i].at + draws[i].count
      decreases i
    {
      var k := i - 1;
      assert draws[k].at + draws[k].count == draws[i].at;
      i := k;
    }
    forall j | 0 <= j < |draws| && OnRow(draws[j], y)
      ensures j == i
    {
      if j < i {
        TilesInOrder(draws, height, j, i);
      } else if i < j {
        TilesInOrder(draws, height, i, j);
      }
    }
  }

  // A row is painted by its own draw only, and is blank until then.
  lemma {:induction false} RowOfDraw<R>(draws: seq<Draw<R>>, height: nat, k: nat, i: nat, y: nat)
    requires i < |draws| && y < height && k <= |draws|
    requires forall j :: 0 <= j < |draws| && OnRow(draws[j], y) ==> j == i
    ensures Painted(draws, k, height)[y] == if i < k then DrawnRow(None, draws[i], y) else None
  {
    if k > 0 {
      RowOfDraw(draws, height, k - 1, i, y);
      var before, d := Painted(draws, k - 1, height), draws[k - 1];
      assert Painted(draws, k, height) == After(before, d);
      assert After(before, d)[y] == DrawnRow(before[y], d, y);
      if k - 1 != i {
        assert !OnRow(d, y);
      }
    }
  }

  // On a tiled canvas every row of every draw shows that draw's image.
  lemma {:induction false} TiledRow<R>(draws: seq<Draw<R>>, height: nat, i: nat, y: nat)
    requires Tiles(draws, height) && i < |draws| && OnRow(draws[i], y)
    ensures y < height && 0 <= draws[i].from + y - draws[i].at < |draws[i].img.rows|
    ensures Painted(draws, |draws|, height)[y] == Some(draws[i].img.rows[draws[i].from + y - draws[i].at])
  {
    if i + 1 < |draws| {
      TilesInOrder(draws, height, i, |draws| - 1);
    }
    var j := OneDrawPerRow(draws, height, y);
    RowOfDraw(draws, height, |draws|, i, y);
  }

  method DrawImage<R>(canvas: array<Option<R>>, d: Draw<R>)
    modifies canvas
    ensures canvas[..] == After(old(canvas[..]), d)
  {
    var y := 0;
    while y < canvas.Length
      invariant y <= canvas.Length
      invariant forall j :: 0 <= j < y ==> canvas[j] == DrawnRow(old(canvas[j]), d, j)
      invariant forall j :: y <= j < canvas.Length ==> canvas[j] == old(canvas[j])
    {
      var r := d.from + y - d.at;
      if d.at <= y < d.at + d.count && 0 <= r < |d.img.rows| {
        canvas[y] := Some(d.img.rows[r]);
      }
      y := y + 1;
    }
  }

  method NewCanvas<R>(height: nat) returns (canvas: array<Option<R>>)
    ensures fresh(canvas) && canvas[..] == Blank(height)
  {
    canvas := new Option<R>[height](_ => None);
    ghost var blank: Canvas<R> := Blank(height);
    assert canvas[..] == blank;
  }

  // A refused canvas is never drawn on.
  method StitchSlices<R>(slices: seq<Image<R>>, viewport: real, height: real, last: real)
      returns (refusal: Option<Refusal>, canvas: array?<Option<R>>)
    requires |slices| > 0 && viewport > 0.0 && height >= 0.0
    ensures refusal == CanvasLimitRefusal(slices[0].width, TargetHeight(|slices[0].rows|, height, viewport))
    ensures canvas == null <==> refusal.Some?
    ensures canvas != null ==>
              && TargetHeight(|slices[0].rows|, height, viewport) == canvas.Length
              && canvas[..] == Painted(SliceDraws(slices, viewport, last, |slices|), |slices|, canvas.Length)
  {
    var targetHeight := TargetHeight(|slices[0].rows|, height, viewport);
    NonNegative(height, |slices[0].rows| as real / viewport);
    refusal := CanvasLimitRefusal(slices[0].width, targetHeight);
    if refusal.Some? { return refusal, null; }
    var c := NewCanvas<R>(targetHeight);
    DrawSlices(c, SliceDraws(slices, viewport, last, |slices|));
    canvas := c;
  }

  method DrawSlices<R>(c: array<Option<R>>, draws: seq<Draw<R>>)
    requires c[..] == Blank(c.Length)
    modifies c
    ensures c[..] == Painted(draws, |draws|, c.Length)
  {
    var i := 0;
    ghost var height, canvas := c.Length, c[..];
    while i < |draws|
      invariant i <= |draws|
      invariant canvas == Painted(draws, i, height)
      invariant c[..] == canvas
    {
      DrawImage(c, draws[i]);
      canvas := After(canvas, draws[i]);
      i := i + 1;
    }
  }

  // A page seen through a viewport: `content(p)` is what is at device row p.
  datatype Page<!R> = Page(height: real, viewport: real, width: nat, imgHeight: nat, content: real -> R)

  predicate Capturable<R>(p: Page<R>) {
    p.height > 0.0 && p.viewport > 0.0
  }

  // Scrolling stops at the bottom of the page.
  function ScrolledTo<R>(p: Page<R>, top: real): real {
    var bottom := if p.height > p.viewport then p.height - p.viewport else 0.0;
    if top <= bottom then top else bottom
  }

  function RowsFrom<R>(p: Page<R>, top: real, count: nat): (rows: seq<R>)
    ensures |rows| == count
    ensures forall r :: 0 <= r < count ==> rows[r] == p.content(top + r as real)
  {
    seq(count, r => p.content(top + r as real))
  }

  // Page position of the first device row capture i shows.
  function CaptureTop<R>(p: Page<R>, i: nat): real
    requires Capturable(p)
  {
    Scaled(ScrolledTo(p, i as real * p.viewport), p.imgHeight, p.viewport)
  }

  function Shot<R>(p: Page<R>, i: nat): Image<R>
    requires Capturable(p)
  {
    Image(p.width, RowsFrom(p, CaptureTop(p, i), p.imgHeight))
  }

  function Shots<R>(p: Page<R>, n: nat): (slices: seq<Image<R>>)
    requires Capturable(p)
    ensures |slices| == n && forall i :: 0 <= i < n ==> slices[i] == Shot(p, i)
  {
    seq(n, i requires 0 <= i < n => Shot(p, i))
  }

  function Count<R>(p: Page<R>): (n: nat)
    requires Capturable(p)
    ensures n >= 1
  {
    SlicesCover(p.height, p.viewport);
    SliceCount(p.height, p.viewport)
  }

  function DrawsOf<R>(p: Page<R>): (draws: seq<Draw<R>>)
    requires Capturable(p)
    ensures |draws| == Count(p)
  {
    SliceDraws(Shots(p, Count(p)), p.viewport, LastSlice(p.height, p.viewport), Count(p))
  }

  lemma DrawOfEqualSlices<R>(slices: seq<Image<R>>, viewport: real, last: real, i: nat, img: nat)
    requires i < |slices| && viewport > 0.0 && |slices[0].rows| == |slices[i].rows| == img
    ensures var d := SliceDraw(slices, viewport, last, i);
            && d.img == slices[i] && d.at == Rows(i, img) && d.from == img - d.count
            && d.count == if i == |slices| - 1 && last < viewport then Round(Scaled(last, img, viewport)) else img
  {
  }

  lemma DrawOfSlice<R>(p: Page<R>, i: nat)
    requires Capturable(p) && i < Count(p)
    ensures var d := DrawsOf(p)[i];
            && d.img == Shot(p, i) && d.at == Rows(i, p.imgHeight) && d.from == p.imgHeight - d.count
            && d.count == if i == Count(p) - 1 then LastRows(p.imgHeight, p.height, p.viewport) else p.imgHeight
  {
    var slices, last := Shots(p, Count(p)), LastSlice(p.height, p.viewport);
    assert slices[0] == Shot(p, 0) && slices[i] == Shot(p, i);
    DrawOfEqualSlices(slices, p.viewport, last, i, p.imgHeight);
    CanvasHeightAddsUp(p.imgHeight, p.height, p.viewport);
    SlicesCover(p.height, p.viewport);
    assert last < p.viewport || last == p.viewport;
  }

  function CanvasHeight<R>(p: Page<R>): (h: nat)
    requires Capturable(p)
    ensures h == TargetHeight(p.imgHeight, p.height, p.viewport)
  {
    CanvasHeightAddsUp(p.imgHeight, p.height, p.viewport);
    TargetHeight(p.imgHeight, p.height, p.viewport)
  }

  // The captures of a page tile its canvas, whatever rounding does to its height.
  lemma CapturesTile<R>(p: Page<R>)
    requires Capturable(p)
    ensures Tiles(DrawsOf(p), CanvasHeight(p))
  {
    var draws, n := DrawsOf(p), Count(p);
    CanvasHeightAddsUp(p.imgHeight, p.height, p.viewport);
    forall i | 0 <= i < n
      ensures 0 <= draws[i].count <= p.imgHeight == |draws[i].img.rows|
      ensures draws[i].from == p.imgHeight - draws[i].count
      ensures draws[i].at == Rows(i, p.imgHeight)
      ensures i + 1 < n ==> draws[i].at + draws[i].count == Rows(i + 1, p.imgHeight)
    {
      DrawOfSlice(p, i);
      assert Rows(i + 1, p.imgHeight) == Rows(i, p.imgHeight) + p.imgHeight;
    }
    DrawOfSlice(p, n - 1);
  }

  // The page position shown at canvas row y when slice i draws it.
  function Shown<R>(p: Page<R>, i: nat, y: int): real
    requires Capturable(p) && i < Count(p)
  {
    var d := DrawsOf(p)[i];
    CaptureTop(p, i) + (d.from + y - d.at) as real
  }

  function Canvased<R>(p: Page<R>): Canvas<R>
    requires Capturable(p)
  {
    Painted(DrawsOf(p), Count(p), CanvasHeight(p))
  }

  lemma ShotRow<R>(p: Page<R>, i: nat, r: nat)
    requires Capturable(p) && r < p.imgHeight
    ensures |Shot(p, i).rows| == p.imgHeight
    ensures Shot(p, i).rows[r] == p.content(CaptureTop(p, i) + r as real)
  {
  }

  // A canvas row shows the position its one slice captured there.
  lemma CanvasRow<R>(p: Page<R>, i: nat, y: nat)
    requires Capturable(p) && i < Count(p) && OnRow(DrawsOf(p)[i], y)
    ensures y < CanvasHeight(p) && Canvased(p)[y] == Some(p.content(Shown(p, i, y)))
  {
    CapturesTile(p);
    TiledRow(DrawsOf(p), CanvasHeight(p), i, y);
    DrawOfSlice(p, i);
    var r := DrawsOf(p)[i].from + y - DrawsOf(p)[i].at;
    ShotRow(p, i, r);
    assert Shown(p, i, y) == CaptureTop(p, i) + r as real;
  }

  predicate WithinHalf(x: real, y: real) {
    -0.5 <= x - y <= 0.5
  }

  lemma ScrollsFreely<R>(p: Page<R>, i: nat)
    requires Capturable(p) && i + 1 < Count(p)
    ensures ScrolledTo(p, i as real * p.viewport) == i as real * p.viewport
  {
    var x, last := i as real, (Count(p) - 1) as real;
    SlicesCover(p.height, p.viewport);
    RoomBelow(x, last, p.viewport, p.height);
  }

  lemma WholeCaptureTop<R>(p: Page<R>, i: nat)
    requires Capturable(p) && i + 1 < Count(p)
    ensures CaptureTop(p, i) == Rows(i, p.imgHeight) as real
  {
    ScrollsFreely(p, i);
    ScaledWhole(i, p.imgHeight, p.viewport);
  }

  // Every row of the other slices shows the page at its own place.
  lemma FullSliceInPlace<R>(p: Page<R>, i: nat, y: int)
    requires Capturable(p) && i + 1 < Count(p)
    ensures Shown(p, i, y) == y as real
  {
    DrawOfSlice(p, i);
    WholeCaptureTop(p, i);
  }

  lemma ScrollsToBottom<R>(p: Page<R>)
    requires Capturable(p) && p.viewport <= p.height
    ensures ScrolledTo(p, (Count(p) - 1) as real * p.viewport) == p.height - p.viewport
  {
    var last := (Count(p) - 1) as real;
    SlicesCover(p.height, p.viewport);
    assert Count(p) as real == last + 1.0;
    OneMore(last, p.viewport);
  }

  lemma LastCaptureTop<R>(p: Page<R>)
    requires Capturable(p) && p.viewport <= p.height
    ensures CaptureTop(p, Count(p) - 1)
         == Rows(Count(p) - 1, p.imgHeight) as real + Scaled(LastSlice(p.height, p.viewport), p.imgHeight, p.viewport)
            - p.imgHeight as real
  {
    ScrollsToBottom(p);
    ScaledSum(p.height - p.viewport, p.viewport, p.imgHeight, p.viewport);
    ScaledBounds(p.viewport, p.imgHeight, p.viewport);
    CanvasHeightAddsUp(p.imgHeight, p.height, p.viewport);
  }

  // On a page at least a viewport tall every row of the last slice shows the page
  // within half a device row of its own place.
  lemma LastSliceInPlace<R>(p: Page<R>, y: int)
    requires Capturable(p) && p.viewport <= p.height
    ensures WithinHalf(Shown(p, Count(p) - 1, y), y as real)
  {
    DrawOfSlice(p, Count(p) - 1);
    LastCaptureTop(p);
    RoundIsNear(Scaled(LastSlice(p.height, p.viewport), p.imgHeight, p.viewport));
  }

  // The stitched page: every canvas row shows the page within half a device row of
  // its own place, and exactly in place above the last slice.
  lemma FullPageInPlace<R>(p: Page<R>, y: nat) returns (pos: real)
    requires Capturable(p) && p.viewport <= p.height && y < CanvasHeight(p)
    ensures Canvased(p)[y] == Some(p.content(pos))
    ensures WithinHalf(pos, y as real) && (y < Rows(Count(p) - 1, p.imgHeight) ==> pos == y as real)
  {
    CapturesTile(p);
    var i := OneDrawPerRow(DrawsOf(p), CanvasHeight(p), y);
    assert OnRow(DrawsOf(p)[i], y);
    pos := Shown(p, i, y);
    CanvasRow(p, i, y);
    if i + 1 < Count(p) {
      FullSliceInPlace(p, i, y);
    } else {
      LastSliceInPlace(p, y);
      DrawOfSlice(p, i);
    }
  }

  ghost predicate InPlace<R>(p: Page<R>)
    requires Capturable(p)
  {
    forall i, y :: 0 <= i < Count(p) && OnRow(DrawsOf(p)[i], y) ==> WithinHalf(Shown(p, i, y), y as real)
  }

  lemma ShortPage<R>(p: Page<R>, y: int)
    requires Capturable(p) && p.height < p.viewport
    ensures Count(p) == 1 && LastRows(p.imgHeight, p.height, p.viewport) == TargetHeight(p.imgHeight, p.height, p.viewport)
    ensures Shown(p, 0, y) - y as real == (p.imgHeight - TargetHeight(p.imgHeight, p.height, p.viewport)) as real
  {
    SlicesCover(p.height, p.viewport);
    if Count(p) > 1 {
      TimesMonotone(1.0, (Count(p) - 1) as real, p.viewport);
      assert false;
    }
    CanvasHeightAddsUp(p.imgHeight, p.height, p.viewport);
    DrawOfSlice(p, 0);
  }

  lemma TallPageInPlace<R>(p: Page<R>)
    requires Capturable(p) && p.viewport <= p.height
    ensures InPlace(p)
  {
    forall i, y | 0 <= i < Count(p) && OnRow(DrawsOf(p)[i], y)
      ensures WithinHalf(Shown(p, i, y), y as real)
    {
      if i + 1 < Count(p) { FullSliceInPlace(p, i, y); } else { LastSliceInPlace(p, y); }
    }
  }

  lemma ShortPageInPlace<R>(p: Page<R>)
    requires Capturable(p) && p.height < p.viewport
    ensures var target := TargetHeight(p.imgHeight, p.height, p.viewport);
            InPlace(p) <==> target == 0 || target == p.imgHeight
  {
    var target := TargetHeight(p.imgHeight, p.height, p.viewport);
    CanvasHeightAddsUp(p.imgHeight, p.height, p.viewport);
    ShortPage(p, 0);
    DrawOfSlice(p, 0);
    assert target > 0 ==> OnRow(DrawsOf(p)[0], 0);
    if target == 0 || target == p.imgHeight {
      forall i, y | 0 <= i < Count(p) && OnRow(DrawsOf(p)[i], y)
        ensures WithinHalf(Shown(p, i, y), y as real)
      {
        ShortPage(p, y);
      }
    } else {
      assert !WithinHalf(Shown(p, 0, 0), 0.0);
    }
  }

  // A page shorter than the viewport is taken from the bottom of its only capture,
  // so the picture is in place exactly when the page fills a viewport, or rounding
  // takes the whole capture or none of it.
  lemma InPlaceExactly<R>(p: Page<R>)
    requires Capturable(p)
    ensures var target := TargetHeight(p.imgHeight, p.height, p.viewport);
            InPlace(p) <==> p.viewport <= p.height || target == 0 || target == p.imgHeight
  {
    if p.viewport <= p.height {
      TallPageInPlace(p);
    } else {
      ShortPageInPlace(p);
    }
  }

  // Scroll, wait, capture, slice after slice; then stitch.
  method CaptureFullPage<R>(p: Page<R>) returns (refusal: Option<Refusal>, canvas: array?<Option<R>>)
    ensures refusal == Some(NoArea) <==> p.height <= 0.0 || p.viewport <= 0.0
    ensures canvas == null <==> refusal.Some?
    ensures refusal.Some? && Capturable(p) ==>
              refusal == CanvasLimitRefusal(p.width, TargetHeight(p.imgHeight, p.height, p.viewport))
    ensures canvas != null ==> Capturable(p) && canvas[..] == Canvased(p)
  {
    var noArea := NoCaptureAreaRefusal(p.height, p.viewport);
    if noArea.Some? { return noArea, null; }
    var sliceCount := Count(p);
    var slices: seq<Image<R>> := [];
    var i := 0;
    while i < sliceCount
      invariant i <= sliceCount && slices == Shots(p, i)
    {
      slices := slices + [Shot(p, i)];
      i := i + 1;
    }
    assert slices[0] == Shot(p, 0);
    refusal, canvas := StitchSlices(slices, p.viewport, p.height, LastSlice(p.height, p.viewport));
  }
}
