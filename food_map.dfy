/** The food map: a width x height texture of colours, stored as Unity's
    `GetPixels` lays it out (row after row, left to right), cleared to black
    when the simulation starts and painted by the brush. */
module FoodGrid {
  import opened Settings

  /** Position of cell (x, y) in the flattened pixel array. */
  function Index(x: int, y: int, width: int): int {
    y * width + x
  }

  predicate InGrid(x: int, y: int, width: int, height: int) {
    0 <= x < width && 0 <= y < height
  }

  /** The brush square around (cx, cy): columns and rows from
      `centre - brushSize + 1` up to, but not including, `centre + brushSize`. */
  predicate InBrush(x: int, y: int, cx: int, cy: int, brushSize: int) {
    cx - brushSize + 1 <= x < cx + brushSize &&
    cy - brushSize + 1 <= y < cy + brushSize
  }

  lemma IndexInRange(x: int, y: int, width: int, height: int)
    requires InGrid(x, y, width, height)
    ensures 0 <= Index(x, y, width) < width * height
  {
    assert y * width <= (height - 1) * width;
  }

  lemma MulMonotone(a: int, b: int, k: int)
    requires a <= b && k >= 0
    ensures a * k <= b * k
  {
  }

  /** Distinct cells have distinct positions in the pixel array. */
  lemma IndexInjective(x1: int, y1: int, x2: int, y2: int, width: int)
    requires 0 <= x1 < width && 0 <= x2 < width
    requires Index(x1, y1, width) == Index(x2, y2, width)
    ensures x1 == x2 && y1 == y2
  {
    if y1 < y2 {
      MulMonotone(y1 + 1, y2, width);
      assert false;
    } else if y2 < y1 {
      MulMonotone(y2 + 1, y1, width);
      assert false;
    }
  }

  /** Every position of the pixel array is the position of exactly the cell
      that `%` and `/` recover from it. */
  lemma CellOfIndex(i: int, width: int, height: int)
    requires width > 0 && 0 <= i < width * height
    ensures InGrid(i % width, i / width, width, height)
    ensures Index(i % width, i / width, width) == i
  {
    if i / width >= height {
      assert false;
    }
  }

  /** The pixels after one brush stroke: the cells of the brush square that
      lie in the grid take the colour, every other pixel is kept. */
  ghost function Painted(pixels: seq<Colour>, width: nat, cx: int, cy: int, brushSize: int, c: Colour): (r: seq<Colour>)
    requires width > 0
    ensures |r| == |pixels|
  {
    seq(|pixels|, i requires 0 <= i < |pixels| =>
      if InBrush(i % width, i / width, cx, cy, brushSize) then c else pixels[i])
  }

  /** Reading one cell of a painted map. */
  lemma {:induction false} PaintedAt(pixels: seq<Colour>, width: nat, height: nat, cx: int, cy: int, brushSize: int, c: Colour, x: int, y: int)
    requires width > 0 && |pixels| == width * height
    requires InGrid(x, y, width, height)
    ensures 0 <= Index(x, y, width) < |pixels|
    ensures Painted(pixels, width, cx, cy, brushSize, c)[Index(x, y, width)] ==
            if InBrush(x, y, cx, cy, brushSize) then c else pixels[Index(x, y, width)]
  {
    IndexInRange(x, y, width, height);
    var i := Index(x, y, width);
    CellOfIndex(i, width, height);
    IndexInjective(i % width, i / width, x, y, width);
  }

  /** Painting the same stroke twice is painting it once. */
  lemma PaintIdempotent(pixels: seq<Colour>, width: nat, cx: int, cy: int, brushSize: int, c: Colour)
    requires width > 0
    ensures Painted(Painted(pixels, width, cx, cy, brushSize, c), width, cx, cy, brushSize, c) ==
            Painted(pixels, width, cx, cy, brushSize, c)
  {
  }

  /** A brush of size 1 covers exactly its centre cell. */
  lemma UnitBrush(x: int, y: int, cx: int, cy: int)
    ensures InBrush(x, y, cx, cy, 1) <==> x == cx && y == cy
  {
  }

  /** A brush of size 0 or less covers nothing. */
  lemma EmptyBrush(x: int, y: int, cx: int, cy: int, brushSize: int)
    requires brushSize <= 0
    ensures !InBrush(x, y, cx, cy, brushSize)
  {
  }

  /** The cells of the brush square, whether or not they lie in the grid. */
  ghost function Square(cx: int, cy: int, brushSize: int): set<(int, int)> {
    set x, y | cx - brushSize + 1 <= x < cx + brushSize && cy - brushSize + 1 <= y < cy + brushSize :: (x, y)
  }

  /** The square holds exactly the cells the brush covers. */
  lemma SquareIsBrush(x: int, y: int, cx: int, cy: int, brushSize: int)
    ensures (x, y) in Square(cx, cy, brushSize) <==> InBrush(x, y, cx, cy, brushSize)
  {
    if InBrush(x, y, cx, cy, brushSize) {
      assert (x, y) in Square(cx, cy, brushSize);
    }
  }

  /** The cells of columns [xlo, xhi) in rows [ylo, yhi). */
  ghost function Rect(xlo: int, xhi: int, ylo: int, yhi: int): set<(int, int)> {
    set x, y | xlo <= x < xhi && ylo <= y < yhi :: (x, y)
  }

  lemma {:induction false} RowSize(xlo: int, xhi: int, y: int)
    ensures |Rect(xlo, xhi, y, y + 1)| == if xlo < xhi then xhi - xlo else 0
    decreases xhi - xlo
  {
    if xlo < xhi {
      RowSize(xlo, xhi - 1, y);
      assert Rect(xlo, xhi, y, y + 1) == Rect(xlo, xhi - 1, y, y + 1) + {(xhi - 1, y)};
    } else {
      assert Rect(xlo, xhi, y, y + 1) == {};
    }
  }

  lemma {:induction false} RectSize(xlo: int, xhi: int, ylo: int, yhi: int)
    requires xlo <= xhi
    ensures |Rect(xlo, xhi, ylo, yhi)| == if ylo < yhi then (xhi - xlo) * (yhi - ylo) else 0
    decreases yhi - ylo
  {
    if ylo < yhi {
      RectSize(xlo, xhi, ylo, yhi - 1);
      RowSize(xlo, xhi, yhi - 1);
      var top := Rect(xlo, xhi, ylo, yhi - 1);
      var row := Rect(xlo, xhi, yhi - 1, yhi);
      assert Rect(xlo, xhi, ylo, yhi) == top + row;
      assert top !! row;
      assert (xhi - xlo) * (yhi - ylo) == (xhi - xlo) * (yhi - 1 - ylo) + (xhi - xlo);
    } else {
      assert Rect(xlo, xhi, ylo, yhi) == {};
    }
  }

  /** A brush of size b covers a (2b-1) x (2b-1) square, and nothing when b <= 0. */
  lemma BrushCellCount(cx: int, cy: int, brushSize: int)
    ensures |Square(cx, cy, brushSize)| == if brushSize >= 1 then (2 * brushSize - 1) * (2 * brushSize - 1) else 0
  {
    if brushSize >= 1 {
      assert Square(cx, cy, brushSize) == Rect(cx - brushSize + 1, cx + brushSize, cy - brushSize + 1, cy + brushSize);
      RectSize(cx - brushSize + 1, cx + brushSize, cy - brushSize + 1, cy + brushSize);
    } else {
      assert Square(cx, cy, brushSize) == {};
    }
  }

  /** The food texture. Its size is fixed when it is created; its pixels
      change in place. */
  class FoodMap {
    const width: nat
    const height: nat
    const pixels: array<Colour>

    ghost predicate Valid()
      reads this
    {
      width > 0 && height > 0 && pixels.Length == width * height
    }

    /** The colour of cell (x, y). */
    function Pixel(x: int, y: int): Colour
      reads this, pixels
      requires Valid() && InGrid(x, y, width, height)
    {
      IndexInRange(x, y, width, height);
      pixels[Index(x, y, width)]
    }

    /** Creates the texture and clears every pixel to black. */
    constructor (width: nat, height: nat)
      requires width > 0 && height > 0
      ensures this.width == width && this.height == height
      ensures Valid() && fresh(pixels)
      ensures forall i :: 0 <= i < pixels.Length ==> pixels[i] == Black
      ensures forall x, y :: InGrid(x, y, width, height) ==> Pixel(x, y) == Black
    {
      this.width := width;
      this.height := height;
      var start := new Colour[width * height];
      for i := 0 to start.Length
        invariant forall j :: 0 <= j < i ==> start[j] == Black
      {
        start[i] := Black;
      }
      pixels := start;
      new;
      forall x, y | InGrid(x, y, width, height)
        ensures Pixel(x, y) == Black
      {
        IndexInRange(x, y, width, height);
      }
    }

    /** Writes one cell; a cell outside the grid is not written. */
    method SetPixel(x: int, y: int, c: Colour)
      requires Valid()
      modifies pixels
      ensures forall px, py :: InGrid(px, py, width, height) ==>
        Pixel(px, py) == if px == x && py == y then c else old(Pixel(px, py))
    {
      if InGrid(x, y, width, height) {
        IndexInRange(x, y, width, height);
        pixels[Index(x, y, width)] := c;
        forall px, py | InGrid(px, py, width, height)
          ensures Pixel(px, py) == if px == x && py == y then c else old(Pixel(px, py))
        {
          IndexInRange(px, py, width, height);
          if Index(px, py, width) == Index(x, y, width) {
            IndexInjective(px, py, x, y, width);
          }
        }
      }
    }

    /** One brush stroke: every cell of the brush square around (cx, cy)
        that lies in the grid takes colour `c`; every other cell keeps its
        colour. */
    method Paint(cx: int, cy: int, brushSize: int, c: Colour)
      requires Valid()
      modifies pixels
      ensures forall x, y :: InGrid(x, y, width, height) ==>
        Pixel(x, y) == if InBrush(x, y, cx, cy, brushSize) then c else old(Pixel(x, y))
      ensures pixels[..] == Painted(old(pixels[..]), width, cx, cy, brushSize, c)
    {
      var xlo, xhi := cx - brushSize + 1, cx + brushSize;
      var ylo, yhi := cy - brushSize + 1, cy + brushSize;
      var col := xlo;
      while col < xhi
        invariant xlo <= col && (col <= xhi || col == xlo)
        invariant forall x, y :: InGrid(x, y, width, height) ==>
          Pixel(x, y) == if xlo <= x < col && ylo <= y < yhi then c else old(Pixel(x, y))
      {
        var row := ylo;
        while row < yhi
          invariant ylo <= row && (row <= yhi || row == ylo)
          invariant forall x, y :: InGrid(x, y, width, height) ==>
            Pixel(x, y) == if (xlo <= x < col && ylo <= y < yhi) || (x == col && ylo <= y < row) then c else old(Pixel(x, y))
        {
          SetPixel(col, row, c);
          row := row + 1;
        }
        col := col + 1;
      }
      forall i | 0 <= i < pixels.Length
        ensures pixels[i] == Painted(old(pixels[..]), width, cx, cy, brushSize, c)[i]
      {
        CellOfIndex(i, width, height);
        assert pixels[i] == Pixel(i % width, i / width);
        assert old(pixels[i]) == old(Pixel(i % width, i / width));
      }
    }
  }
}
