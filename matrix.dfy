/** The LED matrix of the panel: how one raw status byte lights cells of the
    4 x 3 grid, the per-window counters, the lit threshold and the decoding of
    a boolean grid into speed, oscillation, mode and timer. */
module Matrix {
  import opened Panel

  const ROWS := 4
  const COLS := 3

  /** Samples per debounce window. */
  const WINDOW := 32

  /** A cell is lit when its count exceeds this many samples of the window. */
  const LIT_THRESHOLD := 2

  /** A 4 x 3 grid, indexed [row][column]. */
  predicate IsGrid<T>(g: seq<seq<T>>) {
    |g| == ROWS && forall r :: 0 <= r < ROWS ==> |g[r]| == COLS
  }

  /** Bit 0 carries the swing input and is masked off before decoding:
      bits 7..1 are kept and bit 0 is clear. */
  function LedStatus(d: bv8): (status: bv8)
    ensures status & 1 == 0 && status >> 1 == d >> 1
  {
    d & 0xFE
  }

  /** Row r of the scan is asserted when status bit 7 - r is 1: row 0 is
      the top bit 0x80, row 3 is 0x10. */
  function RowAsserted(status: bv8, r: int): (asserted: bool)
    requires 0 <= r < ROWS
    ensures asserted <==> status & ((0x80 as bv8) >> r) != 0
  {
    (status >> (7 - r)) & 1 == 1
  }

  /** Column c is lit (active low) when status bit 3 - c is 0: column 0
      is 0x08, column 2 is 0x02. */
  function ColumnLow(status: bv8, c: int): (low: bool)
    requires 0 <= c < COLS
    ensures low <==> status & ((0x08 as bv8) >> c) == 0
  {
    (status >> (3 - c)) & 1 == 0
  }

  /** Whether one raw sample counts towards cell (r, c): in terms of the
      raw byte, row bit 7 - r is set and column bit 3 - c is clear. */
  function CellLit(d: bv8, r: int, c: int): (lit: bool)
    requires 0 <= r < ROWS && 0 <= c < COLS
    ensures lit <==> (d >> (7 - r)) & 1 == 1 && (d >> (3 - c)) & 1 == 0
  {
    StatusKeepsBit(d, 7 - r);
    StatusKeepsBit(d, 3 - c);
    RowAsserted(LedStatus(d), r) && ColumnLow(LedStatus(d), c)
  }

  /** Masking off the swing bit keeps every other bit of the byte. */
  lemma StatusKeepsBit(d: bv8, k: int)
    requires 1 <= k < 8
    ensures (LedStatus(d) >> k) & 1 == (d >> k) & 1
  {
  }

  /** The swing bit 0 never matters to the cell test. */
  lemma SwingBitIgnored(d: bv8, r: int, c: int)
    requires 0 <= r < ROWS && 0 <= c < COLS
    ensures CellLit(d, r, c) <==> CellLit(d ^ 1, r, c)
  {
  }

  /** One sample added to the counters. */
  function Accumulate(counts: seq<seq<int>>, d: bv8): (next: seq<seq<int>>)
    requires IsGrid(counts)
    ensures IsGrid(next)
    ensures forall r, c :: 0 <= r < ROWS && 0 <= c < COLS ==>
      next[r][c] == counts[r][c] + (if CellLit(d, r, c) then 1 else 0)
  {
    seq(ROWS, r requires 0 <= r < ROWS =>
      seq(COLS, c requires 0 <= c < COLS => counts[r][c] + (if CellLit(d, r, c) then 1 else 0)))
  }

  /** One sample raises every counter by at most one. */
  lemma AccumulateBound(counts: seq<seq<int>>, d: bv8, n: int)
    requires IsGrid(counts)
    ensures (forall r, c :: 0 <= r < ROWS && 0 <= c < COLS ==> 0 <= counts[r][c] <= n) ==>
      forall r, c :: 0 <= r < ROWS && 0 <= c < COLS ==> 0 <= Accumulate(counts, d)[r][c] <= n + 1
  {
  }

  /** Grids with equal cells are equal. */
  lemma GridExt<T>(a: seq<seq<T>>, b: seq<seq<T>>)
    requires IsGrid(a) && IsGrid(b)
    requires forall r, c :: 0 <= r < ROWS && 0 <= c < COLS ==> a[r][c] == b[r][c]
    ensures a == b
  {
    forall r | 0 <= r < ROWS
      ensures a[r] == b[r]
    {
    }
  }

  /** Counters that grew exactly by the cells one sample lit are that sample accumulated. */
  lemma AccumulateCells(before: seq<seq<int>>, after: seq<seq<int>>, d: bv8)
    requires IsGrid(before) && IsGrid(after)
    requires forall r, c :: 0 <= r < ROWS && 0 <= c < COLS ==>
      after[r][c] == before[r][c] + (if CellLit(d, r, c) then 1 else 0)
    ensures after == Accumulate(before, d)
  {
    GridExt(after, Accumulate(before, d));
  }

  const ZeroCounts: seq<seq<int>> := [[0, 0, 0], [0, 0, 0], [0, 0, 0], [0, 0, 0]]

  /** A count makes its cell lit when it exceeds the threshold, that is
      when at least 3 samples of the window lit it. */
  function Lit(count: int): (lit: bool)
    ensures lit <==> count >= 3
  {
    count > LIT_THRESHOLD
  }

  function Threshold(counts: seq<seq<int>>): (g: seq<seq<bool>>)
    requires IsGrid(counts)
    ensures IsGrid(g)
    ensures forall r, c :: 0 <= r < ROWS && 0 <= c < COLS ==> (g[r][c] <==> Lit(counts[r][c]))
  {
    seq(ROWS, r requires 0 <= r < ROWS =>
      seq(COLS, c requires 0 <= c < COLS => Lit(counts[r][c])))
  }

  /** Speed: High at (0,1), overridden by Medium at (1,1), overridden by Low at (2,1). */
  function DecodeSpeed(g: seq<seq<bool>>): (s: FanSpeed)
    requires IsGrid(g)
    ensures s == Low <==> g[2][1]
    ensures s == Medium <==> g[1][1] && !g[2][1]
    ensures s == High <==> g[0][1] && !g[1][1] && !g[2][1]
    ensures s == SpeedOff <==> !g[0][1] && !g[1][1] && !g[2][1]
  {
    var s0 := SpeedOff;
    var s1 := if g[0][1] then High else s0;
    var s2 := if g[1][1] then Medium else s1;
    if g[2][1] then Low else s2
  }

  /** Oscillation is on exactly when (0,2) is lit. */
  function DecodeOscillation(g: seq<seq<bool>>): (o: Oscillation)
    requires IsGrid(g)
    ensures o != OscInvalid
    ensures o == OscOn <==> g[0][2]
  {
    if g[0][2] then OscOn else OscOff
  }

  /** Mode: Normal at (3,2), overridden by Nature at (3,1), overridden by Sleep at (2,2). */
  function DecodeMode(g: seq<seq<bool>>): (m: FanMode)
    requires IsGrid(g)
    ensures m == Sleep <==> g[2][2]
    ensures m == Nature <==> g[3][1] && !g[2][2]
    ensures m == Normal <==> g[3][2] && !g[3][1] && !g[2][2]
    ensures m == ModeOff <==> !g[3][2] && !g[3][1] && !g[2][2]
  {
    var m0 := ModeOff;
    var m1 := if g[3][2] then Normal else m0;
    var m2 := if g[3][1] then Nature else m1;
    if g[2][2] then Sleep else m2
  }

  /** Timer: OR of 0.5h at (3,0), 1h at (2,0), 2h at (1,0) and 4h at (0,0);
      bit k is set exactly when cell (3 - k, 0) is lit, so the mask is at most 15. */
  function DecodeTimer(g: seq<seq<bool>>): (t: bv8)
    requires IsGrid(g)
    ensures t & 0xF0 == 0 && t as int < 16
    ensures forall k :: 0 <= k < 4 ==> (t & TimerBits[k] != 0 <==> g[3 - k][0])
  {
    var t0 := TIMER_OFF;
    var t1 := if g[3][0] then t0 | TIMER_0_5H else t0;
    var t2 := if g[2][0] then t1 | TIMER_1H else t1;
    var t3 := if g[1][0] then t2 | TIMER_2H else t2;
    if g[0][0] then t3 | TIMER_4H else t3
  }

  function Decode(g: seq<seq<bool>>): (s: FanState)
    requires IsGrid(g)
    ensures IsReal(s)
  {
    FanState(DecodeSpeed(g), DecodeOscillation(g), DecodeMode(g), DecodeTimer(g))
  }
}
