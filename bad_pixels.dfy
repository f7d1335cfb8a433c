/**
 * The bad-pixel map shared by Tools/prettify_process.py (Prettify) and
 * Tools/wholenineyards_process.py (WorkerThread): the CSV rows of one-based
 * (column, row) pairs turned into zero-based cells, and the in-place fill
 * that replaces each listed pixel by int() of the mean of its neighbours in
 * the 1024 x 1280 sensor frame, sweeping the whole list several times.
 */
module BadPixels {
  import opened Numerics
  import opened Grids
  import opened CleanEdge

  /** The sensor frame the fill's bounds test is written for. */
  const FrameRows: int := 1024
  const FrameCols: int := 1280

  // ---------------------------------------------------------------------------
  // int() of a CSV field.

  /** The ASCII whitespace Python's int() ignores around a number. */
  predicate IsSpace(c: char)
  {
    c == ' ' || '\t' <= c <= '\r'
  }

  predicate IsDigit(c: char)
  {
    48 <= c as int <= 57
  }

  /** A non-empty run of decimal digits. */
  predicate AllDigits(s: string)
  {
    s != [] && forall i | 0 <= i < |s| :: IsDigit(s[i])
  }

  function TrimStart(s: string): (t: string)
    ensures t == [] || !IsSpace(t[0])
    decreases |s|
  {
    if s != [] && IsSpace(s[0]) then TrimStart(s[1..]) else s
  }

  function TrimEnd(s: string): (t: string)
    ensures t <= s
    ensures t == [] || !IsSpace(t[|t| - 1])
    decreases |s|
  {
    if s != [] && IsSpace(s[|s| - 1]) then TrimEnd(s[..|s| - 1]) else s
  }

  /** The field without the whitespace around it. */
  function Trim(s: string): (t: string)
    ensures t == [] || (!IsSpace(t[0]) && !IsSpace(t[|t| - 1]))
  {
    TrimEnd(TrimStart(s))
  }

  /** The value of a run of decimal digits, most significant first. */
  function DigitsValue(s: string): nat
    requires forall i | 0 <= i < |s| :: IsDigit(s[i])
    decreases |s|
  {
    if s == [] then 0
    else
      var last := s[|s| - 1];
      assert IsDigit(last);
      10 * DigitsValue(s[..|s| - 1]) + (last as int - 48)
  }

  /** int(field): an optional sign and decimal digits, surrounded by optional whitespace; anything else raises ValueError. */
  function ParseInt(field: string): (r: Result<int>)
    ensures r.Err? ==> r.error == ValueError
    ensures r.Ok? ==> AllDigits(Trim(field)) || (|Trim(field)| > 1 && Trim(field)[0] in "+-")
  {
    var t := Trim(field);
    if t != [] && (t[0] == '-' || t[0] == '+') then
      if AllDigits(t[1..]) then
        var v: int := DigitsValue(t[1..]);
        Ok(if t[0] == '-' then -v else v)
      else Err(ValueError)
    else if AllDigits(t) then Ok(DigitsValue(t))
    else Err(ValueError)
  }

  /** The decimal digits of n, without leading zeros (str(n) for n >= 0). */
  function Decimal(n: nat): (s: string)
    ensures AllDigits(s)
    decreases n
  {
    var last := (48 + n % 10) as char;
    if n < 10 then [last] else Decimal(n / 10) + [last]
  }

  /** str(n). */
  function Show(n: int): string
  {
    if n < 0 then "-" + Decimal(-n) else Decimal(n)
  }

  lemma {:induction false} DecimalValue(n: nat)
    ensures DigitsValue(Decimal(n)) == n
    decreases n
  {
    var s := Decimal(n);
    if n >= 10 {
      DecimalValue(n / 10);
      assert s[..|s| - 1] == Decimal(n / 10);
    }
  }

  /** A field without surrounding whitespace is left as it is. */
  lemma TrimKeepsUnpadded(s: string)
    requires s != [] && !IsSpace(s[0]) && !IsSpace(s[|s| - 1])
    ensures Trim(s) == s
  {
    assert TrimStart(s) == s;
  }

  /** int() reads back every integer that str() writes. */
  lemma ParseShow(n: int)
    ensures ParseInt(Show(n)) == Ok(n)
  {
    var s := Show(n);
    var m := if n < 0 then -n else n;
    DecimalValue(m);
    var d := Decimal(m);
    assert IsDigit(d[0]) && IsDigit(d[|d| - 1]);
    TrimKeepsUnpadded(s);
    if n < 0 {
      assert s[1..] == d;
    }
  }

  // ---------------------------------------------------------------------------
  // The bad-pixel list.

  /**
   * One CSV row: row[1] is the one-based image row and row[0] the one-based
   * column, read in that order; a row with fewer than two fields raises
   * IndexError.
   */
  function ParseRow(row: seq<string>): (r: Result<Cell>)
    ensures r.Err? ==> r.error == (if |row| < 2 then IndexError else ValueError)
  {
    if |row| < 2 then Err(IndexError)
    else
      var y :- ParseInt(row[1]);
      var x :- ParseInt(row[0]);
      Ok(Cell(y - 1, x - 1))
  }

  /** The CSV row that lists a cell. */
  function CsvRow(c: Cell): seq<string>
  {
    [Show(c.col + 1), Show(c.row + 1)]
  }

  /** Parsing undoes writing: the column comes first in the file and the row second, both one-based. */
  lemma CsvRowRoundTrip(c: Cell)
    ensures ParseRow(CsvRow(c)) == Ok(c)
  {
    var row := CsvRow(c);
    ParseShow(c.col + 1);
    ParseShow(c.row + 1);
    assert ParseInt(row[1]) == Ok(c.row + 1) && ParseInt(row[0]) == Ok(c.col + 1);
  }

  /** The results of parsing the first n items, or the first error. */
  function ParseAll<A, B>(parse: A -> Result<B>, items: seq<A>, n: nat): (r: Result<seq<B>>)
    requires n <= |items|
    ensures r.Ok? ==> |r.value| == n
  {
    if n == 0 then Ok([])
    else
      var done :- ParseAll(parse, items, n - 1);
      var b :- parse(items[n - 1]);
      Ok(done + [b])
  }

  /**
   * The list holds one result per item, in order, or the list fails with
   * the error of the first item that does not parse.
   */
  lemma {:induction false} ParsedInOrder<A, B>(parse: A -> Result<B>, items: seq<A>, n: nat)
    requires n <= |items|
    ensures var r := ParseAll(parse, items, n);
      r.Ok? ==> forall i | 0 <= i < n :: parse(items[i]) == Ok(r.value[i])
    ensures var r := ParseAll(parse, items, n);
      r.Err? ==> exists i | 0 <= i < n ::
        (parse(items[i]) == Err(r.error) && forall j | 0 <= j < i :: parse(items[j]).Ok?)
  {
    if n > 0 {
      ParsedInOrder(parse, items, n - 1);
      var r := ParseAll(parse, items, n);
      if ParseAll(parse, items, n - 1).Ok? && parse(items[n - 1]).Err? {
        assert parse(items[n - 1]) == Err(r.error);
        assert forall j | 0 <= j < n - 1 :: parse(items[j]).Ok?;
      }
    }
  }

  /** A failure part-way is the failure of the whole list. */
  lemma {:induction false} ParseStops<A, B>(parse: A -> Result<B>, items: seq<A>, n: nat, m: nat)
    requires n <= m <= |items| && ParseAll(parse, items, n).Err?
    ensures ParseAll(parse, items, m) == ParseAll(parse, items, n)
    decreases m
  {
    if m > n {
      ParseStops(parse, items, n, m - 1);
    }
  }

  /** One more item: its parse is appended to the list so far, or its error ends the list. */
  lemma ParseStep<A, B>(parse: A -> Result<B>, items: seq<A>, n: nat, done: seq<B>)
    requires 0 < n <= |items| && ParseAll(parse, items, n - 1) == Ok(done)
    ensures parse(items[n - 1]).Err? ==> ParseAll(parse, items, n) == Err(parse(items[n - 1]).error)
    ensures parse(items[n - 1]).Ok? ==> ParseAll(parse, items, n) == Ok(done + [parse(items[n - 1]).value])
  {
  }

  /** The bad_pixels list: one cell per CSV row, in file order. */
  function BadPixelList(rows: seq<seq<string>>): Result<seq<Cell>>
  {
    ParseAll(ParseRow, rows, |rows|)
  }

  /** The loop of the source: one append per CSV row. */
  method ReadBadPixels(rows: seq<seq<string>>) returns (r: Result<seq<Cell>>)
    ensures r == BadPixelList(rows)
  {
    r := ParseEach(ParseRow, rows);
  }

  /** Parse the items one at a time, appending each result, and stop at the first error. */
  method ParseEach<A, B>(parse: A -> Result<B>, items: seq<A>) returns (r: Result<seq<B>>)
    ensures r == ParseAll(parse, items, |items|)
  {
    var done: seq<B> := [];
    for n := 0 to |items|
      invariant ParseAll(parse, items, n) == Ok(done)
    {
      var b := parse(items[n]);
      ParseStep(parse, items, n + 1, done);
      if b.Err? {
        ParseStops(parse, items, n + 1, |items|);
        return Err(b.error);
      }
      done := done + [b.value];
    }
    return Ok(done);
  }

  // ---------------------------------------------------------------------------
  // The neighbours of a listed pixel.

  /** The frame bounds test of the source, which is also false at the pixel itself. */
  predicate Counts(d: Cell, c: Cell)
  {
    0 <= d.col <= FrameCols - 1 && 0 <= d.row <= FrameRows - 1 && d != c
  }

  /** Cell k of the 3 x 3 block in visiting order: column offset outer, row offset inner. */
  function BlockCell(c: Cell, k: nat): Cell
    requires k < 9
  {
    var (dy, dx) := [(-1, -1), (0, -1), (1, -1), (-1, 0), (0, 0), (1, 0), (-1, 1), (0, 1), (1, 1)][k];
    Cell(c.row + dy, c.col + dx)
  }

  /** The loops' x_delta = a - 1 and y_delta = b - 1 visit block cell 3a + b. */
  lemma BlockCellAt(c: Cell, a: nat, b: nat)
    requires a < 3 && b < 3
    ensures BlockCell(c, 3 * a + b) == Cell(c.row + b - 1, c.col + a - 1)
  {
    assert a == 0 || a == 1 || a == 2;
    assert b == 0 || b == 1 || b == 2;
  }

  /** The neighbours among the first k block cells, in visiting order. */
  function CountedUpTo(c: Cell, k: nat): seq<Cell>
    requires k <= 9
  {
    if k == 0 then []
    else CountedUpTo(c, k - 1) + (if Counts(BlockCell(c, k - 1), c) then [BlockCell(c, k - 1)] else [])
  }

  /** The neighbours the fill reads, in the order it reads them. */
  function FrameNeighbours(c: Cell): seq<Cell>
  {
    CountedUpTo(c, 9)
  }

  lemma {:induction false} CountedUpToGrows(c: Cell, k: nat, m: nat)
    requires k <= m <= 9
    ensures CountedUpTo(c, k) <= CountedUpTo(c, m)
    decreases m
  {
    if k < m {
      CountedUpToGrows(c, k, m - 1);
    }
  }

  lemma {:induction false} CountedUpToMembers(c: Cell, k: nat, d: Cell)
    requires k <= 9
    ensures d in CountedUpTo(c, k) <==> exists i | 0 <= i < k :: d == BlockCell(c, i) && Counts(d, c)
    decreases k
  {
    if k > 0 {
      CountedUpToMembers(c, k - 1, d);
      if d in CountedUpTo(c, k) && d !in CountedUpTo(c, k - 1) {
        assert d == BlockCell(c, k - 1) && Counts(d, c);
      }
      if exists i | 0 <= i < k :: d == BlockCell(c, i) && Counts(d, c) {
        var i :| 0 <= i < k && d == BlockCell(c, i) && Counts(d, c);
        if i == k - 1 {
          assert d in CountedUpTo(c, k);
        }
      }
    }
  }

  /**
   * The neighbours are exactly the pixels around the listed one that lie in
   * the 1024 x 1280 frame, the listed pixel excluded.
   */
  lemma FrameNeighboursAreAdjacent(c: Cell, d: Cell)
    ensures d in FrameNeighbours(c) <==> Adjacent(d, c.row, c.col) && 0 <= d.row < FrameRows && 0 <= d.col < FrameCols
  {
    CountedUpToMembers(c, 9, d);
    if Adjacent(d, c.row, c.col) {
      var a, b := d.col - c.col + 1, d.row - c.row + 1;
      BlockCellAt(c, a, b);
    }
  }

  /** How many rows of the block, and how many of its columns, lie in the frame. */
  function RowSpan(c: Cell): nat
  {
    1 + (if c.row > 0 then 1 else 0) + (if c.row < FrameRows - 1 then 1 else 0)
  }

  predicate ColumnInFrame(c: Cell, a: nat)
  {
    0 <= c.col + a - 1 <= FrameCols - 1
  }

  /** Block column a adds its in-frame rows, less the listed pixel itself in the middle column. */
  lemma ColumnGroup(c: Cell, a: nat)
    requires a < 3 && 0 <= c.row < FrameRows
    ensures |CountedUpTo(c, 3 * a + 3)| == |CountedUpTo(c, 3 * a)| +
      (if ColumnInFrame(c, a) then RowSpan(c) - (if a == 1 then 1 else 0) else 0)
  {
    BlockCellAt(c, a, 0);
    BlockCellAt(c, a, 1);
    BlockCellAt(c, a, 2);
    assert |CountedUpTo(c, 3 * a + 1)| == |CountedUpTo(c, 3 * a)| +
      (if ColumnInFrame(c, a) && c.row > 0 then 1 else 0);
    assert |CountedUpTo(c, 3 * a + 2)| == |CountedUpTo(c, 3 * a + 1)| +
      (if ColumnInFrame(c, a) && a != 1 then 1 else 0);
  }

  /** Inside the frame a pixel has 3 neighbours at a corner, 5 along an edge and 8 elsewhere. */
  lemma NeighbourCount(c: Cell)
    requires 0 <= c.row < FrameRows && 0 <= c.col < FrameCols
    ensures var border := (if c.col == 0 || c.col == FrameCols - 1 then 1 else 0)
      + (if c.row == 0 || c.row == FrameRows - 1 then 1 else 0);
      |FrameNeighbours(c)| == [8, 5, 3][border]
  {
    ColumnGroup(c, 0);
    ColumnGroup(c, 1);
    ColumnGroup(c, 2);
    assert ColumnInFrame(c, 1);
  }

  // ---------------------------------------------------------------------------
  // One visit to a listed pixel.

  /**
   * neighbour_count and neighbour_sum, or IndexError when a frame neighbour
   * lies outside an image smaller than the frame.
   */
  function Totals(g: Grid, h: nat, w: nat, c: Cell): (r: Result<(nat, int)>)
    requires IsGrid(g, h, w)
    ensures r.Ok? <==> AllInGrid(FrameNeighbours(c), h, w)
    ensures r.Ok? ==> r.value.0 == |FrameNeighbours(c)|
  {
    var cells := FrameNeighbours(c);
    if AllInGrid(cells, h, w) then Ok((|cells|, SumAt(g, h, w, cells))) else Err(IndexError)
  }

  /**
   * The visit to a listed pixel: when the neighbours sum to more than 0 the
   * pixel gets int(sum / count), indexed the numpy way (a coordinate -1 is
   * the last row or column, one past the image raises IndexError).
   */
  function FillPixel(g: Grid, h: nat, w: nat, c: Cell): (r: Result<Grid>)
    requires IsGrid(g, h, w)
    ensures r.Ok? ==> IsGrid(r.value, h, w)
  {
    var (count, sum) :- Totals(g, h, w, c);
    if sum > 0 && count > 0 then
      match (PyIndex(c.row, h), PyIndex(c.col, w))
      case (Some(i), Some(j)) => Ok(Set(g, i, j, Trunc(sum as real / count as real)))
      case _ => Err(IndexError)
    else Ok(g)
  }

  /** The pixel of the image a listed cell addresses, if any. */
  predicate Addresses(c: Cell, h: nat, w: nat, i: int, j: int)
  {
    PyIndex(c.row, h) == Some(i) && PyIndex(c.col, w) == Some(j)
  }

  /**
   * A visit changes at most the pixel its cell addresses, and only when the
   * neighbours sum to more than 0; the new value lies between the smallest
   * and the largest neighbour.
   */
  lemma FillPixelWritesBetweenNeighbours(g: Grid, h: nat, w: nat, c: Cell, lo: int, hi: int)
    requires IsGrid(g, h, w) && FillPixel(g, h, w, c).Ok?
    requires forall k | 0 <= k < |FrameNeighbours(c)| :: lo <= Pixel(g, FrameNeighbours(c)[k]) <= hi
    ensures var g' := FillPixel(g, h, w, c).value;
      forall i, j | 0 <= i < h && 0 <= j < w && g'[i][j] != g[i][j] ::
        Addresses(c, h, w, i, j) && 0 < Totals(g, h, w, c).value.1 && lo <= g'[i][j] <= hi
  {
    var (count, sum) := Totals(g, h, w, c).value;
    if sum > 0 && count > 0 {
      var cells := FrameNeighbours(c);
      SumAtBounds(g, h, w, cells, lo, hi);
      TruncOfMean(sum, count, lo, hi);
    }
  }

  /** A uint16 image stays a uint16 image. */
  lemma FillPixelKeepsU16(g: Grid, h: nat, w: nat, c: Cell)
    requires IsGrid(g, h, w) && IsU16(g) && FillPixel(g, h, w, c).Ok?
    ensures IsU16(FillPixel(g, h, w, c).value)
  {
    var cells := FrameNeighbours(c);
    FillPixelWritesBetweenNeighbours(g, h, w, c, 0, 65535);
  }

  // ---------------------------------------------------------------------------
  // Sweeps over the list.

  /** The image after visiting the first n listed pixels, each seeing the writes before it. */
  function Sweep(g: Grid, h: nat, w: nat, bad: seq<Cell>, n: nat): (r: Result<Grid>)
    requires IsGrid(g, h, w) && n <= |bad|
    ensures r.Ok? ==> IsGrid(r.value, h, w)
  {
    if n == 0 then Ok(g)
    else
      var g' :- Sweep(g, h, w, bad, n - 1);
      FillPixel(g', h, w, bad[n - 1])
  }

  /** The image after k sweeps of the whole list. */
  function Sweeps(g: Grid, h: nat, w: nat, bad: seq<Cell>, k: nat): (r: Result<Grid>)
    requires IsGrid(g, h, w)
    ensures r.Ok? ==> IsGrid(r.value, h, w)
  {
    if k == 0 then Ok(g)
    else
      var g' :- Sweeps(g, h, w, bad, k - 1);
      Sweep(g', h, w, bad, |bad|)
  }

  /** Some listed cell addresses pixel (i, j). */
  predicate Listed(bad: seq<Cell>, h: nat, w: nat, i: int, j: int)
  {
    exists n | 0 <= n < |bad| :: Addresses(bad[n], h, w, i, j)
  }

  /** A visit leaves every pixel its cell does not address alone. */
  lemma FillPixelLeavesOthers(g: Grid, h: nat, w: nat, c: Cell)
    requires IsGrid(g, h, w) && FillPixel(g, h, w, c).Ok?
    ensures var g' := FillPixel(g, h, w, c).value;
      forall i, j | 0 <= i < h && 0 <= j < w && !Addresses(c, h, w, i, j) :: g'[i][j] == g[i][j]
  {
  }

  lemma {:induction false} SweepTouchesOnlyListed(g: Grid, h: nat, w: nat, bad: seq<Cell>, n: nat)
    requires IsGrid(g, h, w) && n <= |bad| && Sweep(g, h, w, bad, n).Ok?
    ensures var g' := Sweep(g, h, w, bad, n).value;
      forall i, j | 0 <= i < h && 0 <= j < w && !Listed(bad, h, w, i, j) :: g'[i][j] == g[i][j]
    ensures IsU16(g) ==> IsU16(Sweep(g, h, w, bad, n).value)
  {
    if n > 0 {
      SweepTouchesOnlyListed(g, h, w, bad, n - 1);
      var mid := Sweep(g, h, w, bad, n - 1).value;
      FillPixelLeavesOthers(mid, h, w, bad[n - 1]);
      if IsU16(g) {
        FillPixelKeepsU16(mid, h, w, bad[n - 1]);
      }
    }
  }

  /**
   * Only listed pixels are ever written, however many sweeps run, and a
   * uint16 image stays within 0..65535.
   */
  lemma {:induction false} SweepsTouchOnlyListed(g: Grid, h: nat, w: nat, bad: seq<Cell>, k: nat)
    requires IsGrid(g, h, w) && Sweeps(g, h, w, bad, k).Ok?
    ensures var g' := Sweeps(g, h, w, bad, k).value;
      forall i, j | 0 <= i < h && 0 <= j < w && !Listed(bad, h, w, i, j) :: g'[i][j] == g[i][j]
    ensures IsU16(g) ==> IsU16(Sweeps(g, h, w, bad, k).value)
  {
    if k > 0 {
      SweepsTouchOnlyListed(g, h, w, bad, k - 1);
      SweepTouchesOnlyListed(Sweeps(g, h, w, bad, k - 1).value, h, w, bad, |bad|);
    }
  }

  // ---------------------------------------------------------------------------
  // The fill, in place.

  /** The x_delta / y_delta loops: neighbour_count and neighbour_sum, or false where a read raises IndexError. */
  method NeighbourTotals(img: array2<int>, c: Cell) returns (count: nat, sum: int, ok: bool)
    ensures ok <==> Totals(Contents(img), img.Length0, img.Length1, c).Ok?
    ensures ok ==> Totals(Contents(img), img.Length0, img.Length1, c) == Ok((count, sum))
  {
    ghost var g := Contents(img);
    count, sum := 0, 0;
    ghost var seen: seq<Cell> := [];
    for a := 0 to 3
      invariant seen == CountedUpTo(c, 3 * a) && count == |seen|
      invariant AllInGrid(seen, img.Length0, img.Length1) && sum == SumAt(g, img.Length0, img.Length1, seen)
    {
      for b := 0 to 3
        invariant seen == CountedUpTo(c, 3 * a + b) && count == |seen|
        invariant AllInGrid(seen, img.Length0, img.Length1) && sum == SumAt(g, img.Length0, img.Length1, seen)
      {
        count, sum, ok, seen := Tally(img, g, c, a, b, seen, count, sum);
        if !ok {
          return 0, 0, false;
        }
      }
    }
    ok := true;
  }

  /**
   * One pass of the inner loop: the block cell at x_delta a, y_delta b is
   * added when it counts, or its read raises IndexError.
   */
  method Tally(img: array2<int>, ghost g: Grid, c: Cell, a: nat, b: nat, ghost seen: seq<Cell>, count: nat, sum: int)
    returns (count': nat, sum': int, ok: bool, ghost seen': seq<Cell>)
    requires g == Contents(img) && a < 3 && b < 3
    requires seen == CountedUpTo(c, 3 * a + b) && count == |seen|
    requires AllInGrid(seen, img.Length0, img.Length1) && sum == SumAt(g, img.Length0, img.Length1, seen)
    ensures ok ==> seen' == CountedUpTo(c, 3 * a + b + 1) && count' == |seen'|
    ensures ok ==> AllInGrid(seen', img.Length0, img.Length1) && sum' == SumAt(g, img.Length0, img.Length1, seen')
    ensures !ok ==> Totals(g, img.Length0, img.Length1, c).Err?
  {
    var h, w := img.Length0, img.Length1;
    var k := 3 * a + b;
    var d := Cell(c.row + b - 1, c.col + a - 1);
    BlockCellAt(c, a, b);
    TallyStep(g, h, w, c, k, seen, sum);
    count', sum', ok, seen' := count, sum, true, seen;
    if 0 <= d.col <= FrameCols - 1 && 0 <= d.row <= FrameRows - 1 && d != c {
      if !(d.row < h && d.col < w) {
        OutsideImage(g, h, w, c, k);
        return count, sum, false, seen;
      }
      seen' := seen + [d];
      count', sum' := count + 1, sum + img[d.row, d.col];
    }
  }

  /** Visiting block cell k extends the running count and sum by that cell when it counts. */
  lemma TallyStep(g: Grid, h: nat, w: nat, c: Cell, k: nat, seen: seq<Cell>, sum: int)
    requires IsGrid(g, h, w) && k < 9 && seen == CountedUpTo(c, k)
    requires AllInGrid(seen, h, w) && sum == SumAt(g, h, w, seen)
    ensures var d := BlockCell(c, k);
      Counts(d, c) && InGrid(d, h, w) ==>
        seen + [d] == CountedUpTo(c, k + 1) && AllInGrid(seen + [d], h, w) &&
        SumAt(g, h, w, seen + [d]) == sum + g[d.row][d.col]
    ensures !Counts(BlockCell(c, k), c) ==> seen == CountedUpTo(c, k + 1)
  {
    var d := BlockCell(c, k);
    assert (seen + [d])[..|seen|] == seen;
  }

  /** A counted block cell outside the image makes Totals fail. */
  lemma OutsideImage(g: Grid, h: nat, w: nat, c: Cell, k: nat)
    requires IsGrid(g, h, w) && k < 9 && Counts(BlockCell(c, k), c) && !InGrid(BlockCell(c, k), h, w)
    ensures Totals(g, h, w, c).Err?
  {
    CountedUpToGrows(c, k + 1, 9);
    var seen := CountedUpTo(c, k);
    assert FrameNeighbours(c)[|seen|] == BlockCell(c, k);
  }

  /** One visit in place; false where the source raises IndexError. */
  method FillOne(img: array2<int>, c: Cell) returns (ok: bool)
    modifies img
    ensures ok <==> FillPixel(old(Contents(img)), img.Length0, img.Length1, c).Ok?
    ensures ok ==> Contents(img) == FillPixel(old(Contents(img)), img.Length0, img.Length1, c).value
  {
    var h, w := img.Length0, img.Length1;
    var count, sum;
    count, sum, ok := NeighbourTotals(img, c);
    if !ok || !(sum > 0 && count > 0) {
      return;
    }
    match (PyIndex(c.row, h), PyIndex(c.col, w))
    case (Some(i), Some(j)) =>
      Write(img, i, j, Trunc(sum as real / count as real));
    case _ =>
      return false;
  }

  /** One sweep of the list in place. */
  method SweepInPlace(img: array2<int>, bad: seq<Cell>) returns (ok: bool)
    modifies img
    ensures ok <==> Sweep(old(Contents(img)), img.Length0, img.Length1, bad, |bad|).Ok?
    ensures ok ==> Contents(img) == Sweep(old(Contents(img)), img.Length0, img.Length1, bad, |bad|).value
  {
    ghost var g0 := Contents(img);
    var h, w := img.Length0, img.Length1;
    for n := 0 to |bad|
      invariant Sweep(g0, h, w, bad, n) == Ok(Contents(img))
    {
      ok := FillOne(img, bad[n]);
      if !ok {
        SweepStops(g0, h, w, bad, n + 1, |bad|);
        return;
      }
    }
    return true;
  }

  /** An error part-way through a sweep is the error of the whole sweep. */
  lemma {:induction false} SweepStops(g: Grid, h: nat, w: nat, bad: seq<Cell>, n: nat, m: nat)
    requires IsGrid(g, h, w) && n <= m <= |bad| && Sweep(g, h, w, bad, n).Err?
    ensures Sweep(g, h, w, bad, m).Err?
    decreases m
  {
    if m > n {
      SweepStops(g, h, w, bad, n, m - 1);
    }
  }

  /** The fill of the source: `sweeps` passes over the list, in place. */
  method Fill(img: array2<int>, bad: seq<Cell>, sweeps: nat) returns (ok: bool)
    modifies img
    ensures ok <==> Sweeps(old(Contents(img)), img.Length0, img.Length1, bad, sweeps).Ok?
    ensures ok ==> Contents(img) == Sweeps(old(Contents(img)), img.Length0, img.Length1, bad, sweeps).value
  {
    ghost var g0 := Contents(img);
    var h, w := img.Length0, img.Length1;
    for k := 0 to sweeps
      invariant Sweeps(g0, h, w, bad, k) == Ok(Contents(img))
    {
      ok := SweepInPlace(img, bad);
      if !ok {
        SweepsStop(g0, h, w, bad, k + 1, sweeps);
        return;
      }
    }
    return true;
  }

  lemma {:induction false} SweepsStop(g: Grid, h: nat, w: nat, bad: seq<Cell>, k: nat, m: nat)
    requires IsGrid(g, h, w) && k <= m && Sweeps(g, h, w, bad, k).Err?
    ensures Sweeps(g, h, w, bad, m).Err?
    decreases m
  {
    if m > k {
      SweepsStop(g, h, w, bad, k, m - 1);
    }
  }
}
