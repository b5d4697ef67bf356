/** The coin flip pictures and their rows, over exact reals (go/chat/flipmanager.go:1589-1637). */
module FlipVisualizer {
  import opened Wrappers

  /** math.Round: to the nearest integer, halves away from zero. */
  function Round(x: real): (r: int)
    ensures x >= 0.0 ==> x - 0.5 < r as real <= x + 0.5
    ensures x < 0.0 ==> x - 0.5 <= r as real < x + 0.5
  {
    if x >= 0.0 then (x + 0.5).Floor else -((0.5 - x).Floor)
  }

  function RowHeight(height: nat, n: nat): real
    requires n > 0
  {
    height as real / n as real
  }

  /** How far into the picture k rows of the exact height reach. */
  function Mark(height: nat, n: nat, k: nat): real
    requires n > 0
  {
    k as real * RowHeight(height, n)
  }

  /** Where row k begins: its mark, rounded once. */
  function Top(height: nat, n: nat, k: nat): int
    requires n > 0
  {
    Round(Mark(height, n, k))
  }

  lemma RawIs(height: nat, n: nat)
    requires n > 0
    ensures height as real / n as real == RowHeight(height, n)
  {
  }

  lemma MarkEnds(height: nat, n: nat)
    requires n > 0
    ensures Mark(height, n, 0) == 0.0 && Mark(height, n, n) == height as real
  {
  }

  lemma MarkNext(height: nat, n: nat, k: nat)
    requires n > 0
    ensures Mark(height, n, k + 1) == Mark(height, n, k) + RowHeight(height, n)
  {
    var h := RowHeight(height, n);
    hide RowHeight;
    assert (k + 1) as real * h == k as real * h + h;
  }

  lemma MarkSign(height: nat, n: nat, k: nat)
    requires n > 0
    ensures Mark(height, n, k) >= 0.0
    ensures RowHeight(height, n) > 0.0 || Mark(height, n, k) == RowHeight(height, n) == 0.0
  {
  }

  /** Rounding what is left to paint, after painting up to a rounded mark, does not drift. */
  lemma RoundedSteps(a: real, h: real)
    requires a >= 0.0 && (h > 0.0 || a == h == 0.0)
    ensures Round(a) + Round(a + h - Round(a) as real) == Round(a + h)
    ensures Round(a) <= Round(a + h)
    ensures h - 1.0 < (Round(a + h) - Round(a)) as real < h + 1.0
  {
  }

  /** The rows tile the picture from top to bottom, each within one pixel of its exact height. */
  lemma RowsTile(height: nat, n: nat, k: nat)
    requires n > 0 && k < n
    ensures Top(height, n, 0) == 0 && Top(height, n, n) == height
    ensures Top(height, n, k) <= Top(height, n, k + 1)
    ensures RowHeight(height, n) - 1.0 < (Top(height, n, k + 1) - Top(height, n, k)) as real < RowHeight(height, n) + 1.0
  {
    hide Mark, RowHeight, Round;
    MarkEnds(height, n);
    MarkNext(height, n, k);
    MarkSign(height, n, k);
    RoundedSteps(Mark(height, n, k), RowHeight(height, n));
  }

  lemma {:induction false} TopMonotone(height: nat, n: nat, j: nat, k: nat)
    requires n > 0 && j <= k <= n
    ensures Top(height, n, j) <= Top(height, n, k)
    decreases k
  {
    if j < k {
      TopMonotone(height, n, j, k - 1);
      RowsTile(height, n, k - 1);
    }
  }

  /** Every line of the picture belongs to one row, and to no other. */
  lemma {:induction false} LineHasOneRow(height: nat, n: nat, y: nat, bound: nat)
    requires n > 0 && bound <= n && y < Top(height, n, bound)
    ensures exists k: nat :: k < bound && Top(height, n, k) <= y < Top(height, n, k + 1)
    ensures forall j: nat, k: nat :: j < k < bound && Top(height, n, j) <= y < Top(height, n, j + 1) ==> !(Top(height, n, k) <= y)
  {
    hide Top, Round, Mark, RowHeight;
    RowsTile(height, n, 0);
    if y < Top(height, n, bound - 1) {
      LineHasOneRow(height, n, y, bound - 1);
    } else {
      assert Top(height, n, bound - 1) <= y < Top(height, n, bound - 1 + 1);
    }
    forall j: nat, k: nat | j < k < bound && Top(height, n, j) <= y < Top(height, n, j + 1) ensures !(Top(height, n, k) <= y) {
      TopMonotone(height, n, j + 1, k);
    }
  }

  /** One turn of the painting loop. */
  lemma RowTurn(height: nat, n: nat, p: nat)
    requires p < n
    ensures Top(height, n, p) + Round(Mark(height, n, p + 1) - Top(height, n, p) as real) == Top(height, n, p + 1)
    ensures 0 <= Top(height, n, p) <= Top(height, n, p + 1) <= height
  {
    hide Mark, RowHeight, Round;
    RowsTile(height, n, p);
    TopMonotone(height, n, 0, p);
    TopMonotone(height, n, p + 1, n);
    MarkNext(height, n, p);
    MarkSign(height, n, p);
    RoundedSteps(Mark(height, n, p), RowHeight(height, n));
  }

  /******* The two pictures *******/

  datatype Palette = Committed | Matched | Revealed

  datatype Cell = Cell(byte: nat, palette: Palette)

  /** A participant, with the decoded bytes of its commitment and of what it revealed, if it has. */
  datatype Participant = Participant(commitment: seq<nat>, secret: Option<seq<nat>>)

  const CellsPerRow := 32

  function CellWidth(width: nat): nat {
    Round(width as real / CellsPerRow as real)
  }

  /** What a row shows in column x: one cell for each byte, from the left. */
  function CellAt(b: seq<nat>, palette: Palette, cellWidth: nat, x: nat): Option<Cell> {
    if cellWidth > 0 && x / cellWidth < |b| then Some(Cell(b[x / cellWidth], palette)) else None
  }

  /** Setting a point outside the picture does nothing. */
  method FillCell(img: array2<Option<Cell>>, x: nat, y: nat, cellHeight: nat, cellWidth: nat, c: Cell)
    modifies img
    ensures forall i, j :: 0 <= i < img.Length0 && 0 <= j < img.Length1 ==>
      img[i, j] == if x <= i < x + cellWidth && y <= j < y + cellHeight then Some(c) else old(img[i, j])
  {
    for i := x to x + cellWidth
      invariant forall u, v :: 0 <= u < img.Length0 && 0 <= v < img.Length1 ==>
        img[u, v] == if x <= u < i && y <= v < y + cellHeight then Some(c) else old(img[u, v])
    {
      for j := y to y + cellHeight
        invariant forall u, v :: 0 <= u < img.Length0 && 0 <= v < img.Length1 ==>
          img[u, v] == if (x <= u < i && y <= v < y + cellHeight) || (u == i && y <= v < j) then Some(c) else old(img[u, v])
      {
        if i < img.Length0 && j < img.Length1 { img[i, j] := Some(c); }
      }
    }
  }

  function Left(k: nat, w: nat): nat {
    k * w
  }

  lemma LeftNext(k: nat, w: nat)
    ensures Left(0, w) == 0 && Left(k + 1, w) == Left(k, w) + w
  {
  }

  lemma CellBounds(x: nat, w: nat, i: nat)
    requires w > 0
    ensures x / w == i <==> Left(i, w) <= x < Left(i, w) + w
  {
    var q := x / w;
    assert x == Left(q, w) + x % w;
    LeftNext(q, w);
    LeftNext(i, w);
    if q < i { LeftGrows(q + 1, i, w); } else if q > i { LeftGrows(i + 1, q, w); }
  }

  lemma LeftGrows(a: nat, b: nat, w: nat)
    requires a <= b
    ensures Left(a, w) <= Left(b, w)
  {
  }

  method FillRow(img: array2<Option<Cell>>, startY: nat, cellHeight: nat, cellWidth: nat, b: seq<nat>, palette: Palette)
    modifies img
    ensures forall i, j :: 0 <= i < img.Length0 && 0 <= j < img.Length1 ==>
      img[i, j] == if startY <= j < startY + cellHeight && CellAt(b, palette, cellWidth, i).Some?
                   then CellAt(b, palette, cellWidth, i) else old(img[i, j])
  {
    hide CellAt, Left;
    var x := 0;
    LeftNext(0, cellWidth);
    forall i: nat { NoCells(palette, cellWidth, i); }
    for k := 0 to |b|
      invariant x == Left(k, cellWidth)
      invariant forall i, j :: 0 <= i < img.Length0 && 0 <= j < img.Length1 ==>
        img[i, j] == if startY <= j < startY + cellHeight && CellAt(b[..k], palette, cellWidth, i).Some?
                     then CellAt(b[..k], palette, cellWidth, i) else old(img[i, j])
    {
      LeftNext(k, cellWidth);
      label before:
      FillCell(img, x, startY, cellHeight, cellWidth, Cell(b[k], palette));
      forall i, j | 0 <= i < img.Length0 && 0 <= j < img.Length1
        ensures img[i, j] == if startY <= j < startY + cellHeight && CellAt(b[..k + 1], palette, cellWidth, i).Some?
                             then CellAt(b[..k + 1], palette, cellWidth, i) else old(img[i, j])
      {
        CellNext(b, palette, cellWidth, k, i);
        assert old@before(img[i, j]) == if startY <= j < startY + cellHeight && CellAt(b[..k], palette, cellWidth, i).Some?
                                        then CellAt(b[..k], palette, cellWidth, i) else old(img[i, j]);
      }
      x := x + cellWidth;
    }
    assert b[..|b|] == b;
  }

  /** Cell k comes after those before it. */
  lemma CellNext(b: seq<nat>, palette: Palette, w: nat, k: nat, x: nat)
    requires k < |b|
    ensures CellAt(b[..k + 1], palette, w, x) ==
      if Left(k, w) <= x < Left(k, w) + w then Some(Cell(b[k], palette)) else CellAt(b[..k], palette, w, x)
  {
    if w > 0 { CellBounds(x, w, k); }
  }

  lemma NoCells(palette: Palette, w: nat, x: nat)
    ensures CellAt([], palette, w, x) == None
  {
  }

  /** Where row k ends. */
  function Bottom(height: nat, n: nat, k: nat): int
    requires n > 0
  {
    Top(height, n, k + 1)
  }

  /** Row k of the pictures shows participant k. */
  ghost predicate Shows(commitment: array2<Option<Cell>>, secret: array2<Option<Cell>>, w: nat, p: Participant, from: int, to: int)
    requires commitment.Length0 == secret.Length0 && commitment.Length1 == secret.Length1
    reads commitment, secret
  {
    forall x, y :: 0 <= x < commitment.Length0 && 0 <= y < commitment.Length1 && from <= y < to ==>
      if p.secret.Some? then
        commitment[x, y] == CellAt(p.commitment, Matched, w, x) && secret[x, y] == CellAt(p.secret.value, Revealed, w, x)
      else commitment[x, y] == CellAt(p.commitment, Committed, w, x) && secret[x, y] == None
  }

  /** Nothing is painted from here on. */
  ghost predicate Blank(commitment: array2<Option<Cell>>, secret: array2<Option<Cell>>, from: int)
    requires commitment.Length0 == secret.Length0 && commitment.Length1 == secret.Length1
    reads commitment, secret
  {
    forall x, y :: 0 <= x < commitment.Length0 && 0 <= y < commitment.Length1 && from <= y ==> commitment[x, y] == secret[x, y] == None
  }

  /** The commitment and the secret picture: each participant's row shows its commitment, in the colours that say
      whether it has been revealed, and what was revealed; the rows are those that tile the height. */
  method Visualize(width: nat, height: nat, parts: seq<Participant>)
    returns (commitment: array2<Option<Cell>>, secret: array2<Option<Cell>>)
    ensures fresh(commitment) && fresh(secret) && commitment.Length0 == secret.Length0 == CellsPerRow * CellWidth(width)
    ensures commitment.Length1 == secret.Length1 == height
    ensures forall k: nat :: k < |parts| ==>
      Shows(commitment, secret, CellWidth(width), parts[k], Top(height, |parts|, k), Bottom(height, |parts|, k))
    ensures parts == [] ==> Blank(commitment, secret, 0)
  {
    hide Top, Round, Mark, RowHeight, CellWidth, CellAt, Shows, Blank;
    var cellWidth, n := CellWidth(width), |parts|;
    commitment := new Option<Cell>[CellsPerRow * cellWidth, height]((_, _) => None);
    secret := new Option<Cell>[CellsPerRow * cellWidth, height]((_, _) => None);
    NewIsBlank(commitment, secret);
    if n > 0 {
      var startY, heightAccum := 0, 0.0;
      var rawRowHeight := height as real / n as real;
      assert rawRowHeight == RowHeight(height, n) by { RawIs(height, n); }
      MarkEnds(height, n);
      RowsTile(height, n, 0);
      for p := 0 to n
        invariant heightAccum == Mark(height, n, p)
        invariant 0 <= startY == Top(height, n, p) <= height
        invariant forall k: nat :: k < p ==> Shows(commitment, secret, cellWidth, parts[k], Top(height, n, k), Bottom(height, n, k))
        invariant Blank(commitment, secret, startY)
      {
        RowTurn(height, n, p);
        MarkNext(height, n, p);
        forall k: nat | k < p ensures Bottom(height, n, k) <= startY { TopMonotone(height, n, k + 1, p); }
        heightAccum := heightAccum + rawRowHeight;
        var rowHeight := Round(heightAccum - startY as real);
        if rowHeight > 0 {
          PaintRow(commitment, secret, startY, rowHeight, cellWidth, parts[p]);
          startY := startY + rowHeight;
        } else {
          ShowsNothing(commitment, secret, cellWidth, parts[p], startY);
        }
      }
    }
  }

  method PaintRow(commitment: array2<Option<Cell>>, secret: array2<Option<Cell>>, startY: nat, rowHeight: nat, cellWidth: nat, p: Participant)
    requires commitment != secret && commitment.Length0 == secret.Length0 && commitment.Length1 == secret.Length1
    requires Blank(commitment, secret, startY)
    modifies commitment, secret
    ensures Shows(commitment, secret, cellWidth, p, startY, startY + rowHeight) && Blank(commitment, secret, startY + rowHeight)
    ensures forall q, from, to :: to <= startY && old(Shows(commitment, secret, cellWidth, q, from, to)) ==>
      Shows(commitment, secret, cellWidth, q, from, to)
  {
    hide CellAt;
    if p.secret.Some? {
      FillRow(commitment, startY, rowHeight, cellWidth, p.commitment, Matched);
      FillRow(secret, startY, rowHeight, cellWidth, p.secret.value, Revealed);
    } else {
      FillRow(commitment, startY, rowHeight, cellWidth, p.commitment, Committed);
    }
  }

  lemma NewIsBlank(commitment: array2<Option<Cell>>, secret: array2<Option<Cell>>)
    requires commitment.Length0 == secret.Length0 && commitment.Length1 == secret.Length1
    requires forall x, y :: 0 <= x < commitment.Length0 && 0 <= y < commitment.Length1 ==> commitment[x, y] == secret[x, y] == None
    ensures Blank(commitment, secret, 0)
  {
  }

  lemma ShowsNothing(commitment: array2<Option<Cell>>, secret: array2<Option<Cell>>, w: nat, p: Participant, y: int)
    requires commitment.Length0 == secret.Length0 && commitment.Length1 == secret.Length1
    ensures Shows(commitment, secret, w, p, y, y)
  {
  }
}
