/** Painting the frames of annotated lesion boxes into an image buffer
    (skin3d/visualize.py). The image is an H×W×C array indexed
    `img[row, column, channel]`, changed in place. */
module Visualize {
  import opened Annotate

  /** Rows `[y, y+h)`, columns `[x-p, x)`: the band left of the box. */
  predicate LeftBand(row: int, col: int, x: int, y: int, w: int, h: int, p: int) {
    y <= row < y + h && x - p <= col < x
  }

  /** Rows `[y, y+h)`, columns `[x+w, x+w+p)`: the band right of the box. */
  predicate RightBand(row: int, col: int, x: int, y: int, w: int, h: int, p: int) {
    y <= row < y + h && x + w <= col < x + w + p
  }

  /** Rows `[y-p, y)`, columns `[x-p, x+w+p)`: the band above the box, corners included. */
  predicate TopBand(row: int, col: int, x: int, y: int, w: int, h: int, p: int) {
    y - p <= row < y && x - p <= col < x + w + p
  }

  /** Rows `[y+h, y+h+p)`, columns `[x-p, x+w+p)`: the band below the box, corners included. */
  predicate BottomBand(row: int, col: int, x: int, y: int, w: int, h: int, p: int) {
    y + h <= row < y + h + p && x - p <= col < x + w + p
  }

  /** The pixel lies in the `p`-thick frame around the box at `(x, y)` of size `w`×`h`. */
  predicate InFrame(row: int, col: int, x: int, y: int, w: int, h: int, p: int) {
    LeftBand(row, col, x, y, w, h, p) || RightBand(row, col, x, y, w, h, p) ||
    TopBand(row, col, x, y, w, h, p) || BottomBand(row, col, x, y, w, h, p)
  }

  /** The frame lies inside the image, so no slice bound is negative or clipped. */
  predicate FrameFits(img: array3<int>, x: int, y: int, w: int, h: int, p: int) {
    0 <= p && 0 <= w && 0 <= h && p <= x && p <= y &&
    x + w + p <= img.Length1 && y + h + p <= img.Length0
  }

  /** The frame is the outer rectangle grown by `p` on every side, minus the box
      itself; with `p = 0` it is empty. */
  lemma FrameIsRing(row: int, col: int, x: int, y: int, w: int, h: int, p: int)
    requires 0 <= p && 0 <= w && 0 <= h
    ensures InFrame(row, col, x, y, w, h, p) <==>
      (y - p <= row < y + h + p && x - p <= col < x + w + p) && !(y <= row < y + h && x <= col < x + w)
    ensures p == 0 ==> !InFrame(row, col, x, y, w, h, p)
  {
  }

  /** `img[r0:r1, c0:c1, :] = color` with in-range bounds: every channel of every
      pixel of the block takes the colour's value for that channel. */
  method FillBlock(img: array3<int>, r0: int, r1: int, c0: int, c1: int, color: seq<int>)
    requires 0 <= r0 && r1 <= img.Length0 && 0 <= c0 && c1 <= img.Length1
    requires |color| == img.Length2
    modifies img
    ensures forall i, j, k :: 0 <= i < img.Length0 && 0 <= j < img.Length1 && 0 <= k < img.Length2 ==>
      img[i, j, k] == if r0 <= i < r1 && c0 <= j < c1 then color[k] else old(img[i, j, k])
  {
    forall i, j, k | r0 <= i < r1 && c0 <= j < c1 && 0 <= k < img.Length2 {
      img[i, j, k] := color[k];
    }
  }

  /** `embed_box_borders`: the four bands are painted in turn; every pixel of
      the frame takes `color` and every other pixel, the box interior included,
      keeps its value. */
  method EmbedBoxBorders(img: array3<int>, x: int, y: int, w: int, h: int, color: seq<int>, pad: int)
    requires FrameFits(img, x, y, w, h, pad)
    requires |color| == img.Length2
    modifies img
    ensures forall i, j, k :: 0 <= i < img.Length0 && 0 <= j < img.Length1 && 0 <= k < img.Length2 ==>
      img[i, j, k] == if InFrame(i, j, x, y, w, h, pad) then color[k] else old(img[i, j, k])
  {
    var p := pad;
    FillBlock(img, y, y + h, x - p, x, color);
    FillBlock(img, y, y + h, x + w, x + w + p, color);
    FillBlock(img, y - p, y, x - p, x + w + p, color);
    FillBlock(img, y + h, y + h + p, x - p, x + w + p, color);
  }

  /** Painting the same frame twice leaves the image as painting it once. */
  method EmbedBoxBordersTwice(img: array3<int>, x: int, y: int, w: int, h: int, color: seq<int>, pad: int)
    requires FrameFits(img, x, y, w, h, pad)
    requires |color| == img.Length2
    modifies img
    ensures forall i, j, k :: 0 <= i < img.Length0 && 0 <= j < img.Length1 && 0 <= k < img.Length2 ==>
      img[i, j, k] == if InFrame(i, j, x, y, w, h, pad) then color[k] else old(img[i, j, k])
  {
    EmbedBoxBorders(img, x, y, w, h, color, pad);
    EmbedBoxBorders(img, x, y, w, h, color, pad);
  }

  /** The frame of some record of `rows` contains the pixel. */
  predicate InAnyFrame(rows: seq<Lesion>, row: int, col: int, pad: int)
    decreases |rows|
  {
    if rows == [] then false
    else
      var last := rows[|rows| - 1];
      InAnyFrame(rows[..|rows| - 1], row, col, pad) ||
      InFrame(row, col, last.x, last.y, last.width, last.height, pad)
  }

  /** The union of frames, stated without the order of the records. */
  lemma {:induction false} InAnyFrameExactly(rows: seq<Lesion>, row: int, col: int, pad: int)
    ensures InAnyFrame(rows, row, col, pad) <==>
      exists n :: 0 <= n < |rows| && InFrame(row, col, rows[n].x, rows[n].y, rows[n].width, rows[n].height, pad)
    decreases |rows|
  {
    if rows != [] {
      var init := rows[..|rows| - 1];
      InAnyFrameExactly(init, row, col, pad);
      if InAnyFrame(init, row, col, pad) {
        var n :| 0 <= n < |init| && InFrame(row, col, init[n].x, init[n].y, init[n].width, init[n].height, pad);
        assert rows[n] == init[n];
      }
      if exists n :: 0 <= n < |rows| && InFrame(row, col, rows[n].x, rows[n].y, rows[n].width, rows[n].height, pad) {
        var n :| 0 <= n < |rows| && InFrame(row, col, rows[n].x, rows[n].y, rows[n].width, rows[n].height, pad);
        if n < |init| {
          assert init[n] == rows[n];
        }
      }
    }
  }

  /** `embed_annotatations`: every row's frame is painted in turn. Afterwards the
      pixels of the union of the frames hold `color` and all others keep their
      value. */
  method EmbedAnnotations(img: array3<int>, annotations: seq<Lesion>, color: seq<int>, pad: int)
    requires forall n :: 0 <= n < |annotations| ==>
      FrameFits(img, annotations[n].x, annotations[n].y, annotations[n].width, annotations[n].height, pad)
    requires |color| == img.Length2
    modifies img
    ensures forall i, j, k :: 0 <= i < img.Length0 && 0 <= j < img.Length1 && 0 <= k < img.Length2 ==>
      img[i, j, k] == if InAnyFrame(annotations, i, j, pad) then color[k] else old(img[i, j, k])
  {
    for n := 0 to |annotations|
      invariant forall i, j, k :: 0 <= i < img.Length0 && 0 <= j < img.Length1 && 0 <= k < img.Length2 ==>
        img[i, j, k] == if InAnyFrame(annotations[..n], i, j, pad) then color[k] else old(img[i, j, k])
    {
      var row := annotations[n];
      EmbedBoxBorders(img, row.x, row.y, row.width, row.height, color, pad);
      assert annotations[..n + 1][..n] == annotations[..n];
    }
    assert annotations[..|annotations|] == annotations;
  }
}
