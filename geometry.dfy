// Rectangle arithmetic of multinav/src/main.ts: the split of the window into the control
// panel and a grid of 3 or 4 panes, and Math.round as used by the mirror relay.
module Geometry {
  import opened Common

  /** An Electron `Rectangle` in window coordinates. */
  datatype Rect = Rect(x: int, y: int, width: int, height: int)

  /** Width of the control panel on the left (CONTROL_WIDTH). */
  const ControlWidth: int := 380

  /** Number of content panes that are ever created. */
  const PaneCount: nat := 4

  /** The point (px, py) lies in the half-open rectangle. */
  predicate InRect(r: Rect, px: int, py: int)
  {
    r.x <= px < r.x + r.width && r.y <= py < r.y + r.height
  }

  /** The region right of the control panel that the panes share. */
  function Grid(width: int, height: int): Rect
  {
    Rect(ControlWidth, 0, Max(0, width - ControlWidth), height)
  }

  /** The rectangles `rs` have non-negative sizes, lie within `g`, do not overlap and
      together cover every point of `g`. */
  ghost predicate Tiles(g: Rect, rs: seq<Rect>)
  {
    && (forall i :: 0 <= i < |rs| ==> rs[i].width >= 0 && rs[i].height >= 0)
    && (forall i, px, py :: 0 <= i < |rs| && InRect(rs[i], px, py) ==> InRect(g, px, py))
    && (forall i, j, px, py :: 0 <= i < j < |rs| && InRect(rs[i], px, py) ==> !InRect(rs[j], px, py))
    && (forall px, py :: InRect(g, px, py) ==> exists i :: 0 <= i < |rs| && InRect(rs[i], px, py))
  }

  /** The control panel's bounds for a window of the given height: the strip of the window
      left of the grid, ending where the grid begins. */
  function ControlRect(height: int): (r: Rect)
    ensures forall px, py :: InRect(r, px, py) <==> 0 <= px < ControlWidth && 0 <= py < height
    ensures forall width, px, py :: InRect(r, px, py) ==> !InRect(Grid(width, height), px, py)
    ensures forall width, px, py :: width >= ControlWidth && 0 <= px < width && 0 <= py < height ==>
      InRect(r, px, py) || InRect(Grid(width, height), px, py)
  {
    Rect(0, 0, ControlWidth, height)
  }

  /** The bounds `layout()` gives panes 0..3 for a window of `width` x `height`: a 2x2 grid
      when `viewCount` is 4, otherwise three full-width rows and a 1x1 rectangle for pane 3. */
  function LayoutRects(width: int, height: int, viewCount: int): (r: seq<Rect>)
    ensures |r| == PaneCount
  {
    var gx := ControlWidth;
    var gw := Max(0, width - ControlWidth);
    var gh := height;
    if viewCount == 4 then
      var cw := gw / 2;
      var ch := gh / 2;
      [ Rect(gx, 0, cw, ch), Rect(gx + cw, 0, gw - cw, ch),
        Rect(gx, ch, cw, gh - ch), Rect(gx + cw, ch, gw - cw, gh - ch) ]
    else
      var ch := gh / 3;
      [ Rect(gx, 0, gw, ch), Rect(gx, ch, gw, ch),
        Rect(gx, ch * 2, gw, gh - ch * 2), Rect(gx + gw, 0, 1, 1) ]
  }

  /** Four panes tile the grid exactly; the right column and the bottom row are the ones
      that take the odd pixel. */
  lemma FourPaneLayoutTiles(width: int, height: nat)
    ensures Tiles(Grid(width, height), LayoutRects(width, height, 4))
    ensures var r := LayoutRects(width, height, 4);
      && r[0].width <= r[1].width <= r[0].width + 1
      && r[0].height <= r[2].height <= r[0].height + 1
      && r[0].width == r[2].width && r[1].width == r[3].width
      && r[0].height == r[1].height && r[2].height == r[3].height
  {
    var g := Grid(width, height);
    var r := LayoutRects(width, height, 4);
    var cw := g.width / 2;
    var ch := height / 2;
    forall px, py | InRect(g, px, py)
      ensures exists i :: 0 <= i < |r| && InRect(r[i], px, py)
    {
      var i := (if px < ControlWidth + cw then 0 else 1) + (if py < ch then 0 else 2);
      assert InRect(r[i], px, py);
    }
  }

  /** Three panes tile the grid as full-width rows, the last one taking the remainder, and
      pane 3 is parked as a 1x1 rectangle just right of the grid, outside it. */
  lemma ThreePaneLayoutTiles(width: int, height: nat, viewCount: int)
    requires viewCount != 4
    ensures Tiles(Grid(width, height), LayoutRects(width, height, viewCount)[..3])
    ensures var r := LayoutRects(width, height, viewCount);
      && r[3] == Rect(ControlWidth + Grid(width, height).width, 0, 1, 1)
      && (forall px, py :: InRect(r[3], px, py) ==> !InRect(Grid(width, height), px, py))
      && r[0].height == r[1].height <= r[2].height < r[0].height + 3
      && r[0].width == r[1].width == r[2].width == Grid(width, height).width
  {
    var g := Grid(width, height);
    var r := LayoutRects(width, height, viewCount)[..3];
    var ch := height / 3;
    forall px, py | InRect(g, px, py)
      ensures exists i :: 0 <= i < |r| && InRect(r[i], px, py)
    {
      var i := if py < ch then 0 else if py < 2 * ch then 1 else 2;
      assert InRect(r[i], px, py);
    }
  }

  /** `Math.round`: the nearest integer, halves rounded up. */
  function Round(v: real): (r: int)
    ensures r as real - 0.5 <= v < r as real + 0.5
  {
    (v + 0.5).Floor
  }

  /** The scale factor `tw / sw` between a target and a source extent. */
  function Ratio(tw: int, sw: int): real
    requires sw > 0
  {
    tw as real / sw as real
  }

  /** A source coordinate `v` in a pane `sw` wide (or high) mapped into one `tw` wide:
      `Math.max(0, Math.min(tw - 1, Math.round(v * (tw / sw))))`, in exact arithmetic. */
  function ScaleCoord(v: real, tw: int, sw: int): (r: int)
    requires sw > 0
    ensures 0 <= r <= Max(0, tw - 1)
    ensures 0 <= Round(v * Ratio(tw, sw)) <= tw - 1 ==> r == Round(v * Ratio(tw, sw))
    ensures Round(v * Ratio(tw, sw)) < 0 ==> r == 0
    ensures Round(v * Ratio(tw, sw)) > tw - 1 ==> r == Max(0, tw - 1)
  {
    Max(0, Min(tw - 1, Round(v * Ratio(tw, sw))))
  }

  /** A click at the far corner of an 800x600 source lands on the last pixel of a 400x300
      target. */
  lemma CornerMapsToLastPixel()
    ensures ScaleCoord(800.0, 400, 800) == 399 && ScaleCoord(600.0, 300, 600) == 299
  {
  }
}
