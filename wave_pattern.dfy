/**
 * The pattern generator of the ASCII wave animator: for every cell of a
 * width-by-height grid, three wave values are combined, scaled to an index
 * into a ten-glyph palette, clamped, and looked up.
 *
 * The library functions the wave formulas call (sine, cosine, square root)
 * are not modelled: they are the fields of a `MathFns` value passed in, and
 * the assumption that sine and cosine stay within [-1, 1] is the predicate
 * `Bounded`, stated only where a property needs it.
 */
module WavePattern {

  /** The glyphs, from the sparsest to the densest. */
  const Palette: string := " .:-=+*#%@"

  /** The three wave formulas the generator knows. */
  datatype WaveKind = Sine | Ripple | Plasma

  /** The generator's dispatch on the wave-type name: anything that is neither
      "sine" nor "ripple" is drawn as plasma. */
  function KindOf(waveType: string): (k: WaveKind)
    ensures k == Sine <==> waveType == "sine"
    ensures k == Ripple <==> waveType == "ripple"
    ensures k == Plasma <==> waveType != "sine" && waveType != "ripple"
  {
    if waveType == "sine" then Sine
    else if waveType == "ripple" then Ripple
    else Plasma
  }

  /** Sine, cosine and square root as the formulas use them. */
  datatype MathFns = MathFns(sin: real -> real, cos: real -> real, sqrt: real -> real)

  /** Sine and cosine never leave [-1, 1]. */
  ghost predicate Bounded(m: MathFns) {
    (forall r: real :: -1.0 <= m.sin(r) <= 1.0) &&
    (forall r: real :: -1.0 <= m.cos(r) <= 1.0)
  }

  predicate InUnit(v: real) {
    -1.0 <= v <= 1.0
  }

  /** The three wave values of one cell. */
  datatype Waves = Waves(v1: real, v2: real, v3: real)

  function Square(r: real): real {
    r * r
  }

  /** Distance from cell (x, y) to the grid centre, which lies at
      (width / 2, height / 2) by true (not integer) division. */
  function Distance(m: MathFns, x: int, y: int, width: int, height: int): real {
    m.sqrt(Square(x as real - width as real / 2.0) + Square(y as real - height as real / 2.0))
  }

  /** The kind-specific formulas for the three wave values of cell (x, y)
      at time offset t; each is a sine or a cosine, so each stays within
      [-1, 1] when the functions do. */
  function WaveValues(kind: WaveKind, m: MathFns, x: int, y: int, width: int, height: int, t: real): (w: Waves)
    ensures Bounded(m) ==> InUnit(w.v1) && InUnit(w.v2) && InUnit(w.v3)
  {
    match kind
    case Sine =>
      Waves(m.sin(x as real * 0.1 + t),
            m.sin(y as real * 0.2 + t * 1.5),
            m.cos(Distance(m, x, y, width, height) * 0.1 - t))
    case Ripple =>
      var dist := Distance(m, x, y, width, height);
      Waves(m.sin(dist * 0.3 - t * 2.0),
            m.cos(dist * 0.2 + t),
            m.sin(x as real * 0.05 + y as real * 0.05))
    case Plasma =>
      Waves(m.sin(x as real * 0.08 + t),
            m.sin(y as real * 0.08 + t * 0.7),
            m.sin((x + y) as real * 0.06 + t * 1.3))
  }

  /** The mean of the three wave values: within [-1, 1] when each of them is. */
  function Combined(w: Waves): (c: real)
    ensures InUnit(w.v1) && InUnit(w.v2) && InUnit(w.v3) ==> InUnit(c)
  {
    (w.v1 + w.v2 + w.v3) / 3.0
  }

  /** Conversion of a real to an integer by truncation toward zero, the
      semantics of the source language's int() on a float. */
  function Trunc(r: real): (i: int)
    ensures 0.0 <= r ==> 0 <= i && i as real <= r < i as real + 1.0
    ensures r < 0.0 ==> i <= 0 && i as real - 1.0 < r <= i as real
  {
    if 0.0 <= r then r.Floor else -((-r).Floor)
  }

  /** The combined value in [-1, 1] stretched over the palette positions
      [0, |Palette| - 1]. */
  function Scaled(c: real): real {
    (c + 1.0) * (|Palette| - 1) as real / 2.0
  }

  /** max(0, min(|Palette| - 1, i)): the nearest palette position. */
  function Clamp(i: int): (r: int)
    ensures 0 <= r < |Palette|
    ensures 0 <= i < |Palette| ==> r == i
    ensures i < 0 ==> r == 0
    ensures |Palette| <= i ==> r == |Palette| - 1
  {
    var upper := if |Palette| - 1 < i then |Palette| - 1 else i;
    if 0 < upper then upper else 0
  }

  /** The palette position a combined value maps to; for every real it is
      a valid index, so the lookup cannot fail. */
  function CellIndex(c: real): (idx: int)
    ensures 0 <= idx < |Palette|
  {
    Clamp(Trunc(Scaled(c)))
  }

  function CellChar(c: real): (ch: char)
    ensures ch in Palette
  {
    Palette[CellIndex(c)]
  }

  /** The glyph drawn at cell (x, y). */
  function Cell(kind: WaveKind, m: MathFns, x: int, y: int, width: int, height: int, t: real): char {
    CellChar(Combined(WaveValues(kind, m, x, y, width, height, t)))
  }

  /** How many values range(n) yields; none for a negative n. */
  function RangeLength(n: int): nat {
    if n < 0 then 0 else n
  }

  /** Row y of the grid: one glyph per column. */
  function GridRow(width: int, height: int, y: int, t: real, kind: WaveKind, m: MathFns): string {
    seq(RangeLength(width), x => Cell(kind, m, x, y, width, height, t))
  }

  /** The whole frame: `height` rows of `width` glyphs, every glyph taken
      from the palette; degenerate sizes give no rows, or empty rows. */
  function Grid(width: int, height: int, t: real, kind: WaveKind, m: MathFns): (g: seq<string>)
    ensures |g| == RangeLength(height)
    ensures height <= 0 ==> g == []
    ensures forall y :: 0 <= y < |g| ==> |g[y]| == RangeLength(width)
    ensures width <= 0 ==> forall y :: 0 <= y < |g| ==> g[y] == ""
    ensures forall y, x :: 0 <= y < |g| && 0 <= x < |g[y]| ==> g[y][x] in Palette
  {
    seq(RangeLength(height), y => GridRow(width, height, y, t, kind, m))
  }

  /** generate_wave_pattern: rows built one at a time by nested loops, each
      cell computed from its wave values, mapped to a palette position,
      clamped and appended. */
  method GenerateWavePattern(m: MathFns, width: int, height: int, timeOffset: real, waveType: string := "sine")
    returns (pattern: seq<string>)
    ensures pattern == Grid(width, height, timeOffset, KindOf(waveType), m)
  {
    var kind := KindOf(waveType);
    pattern := [];
    var y := 0;
    while y < height
      invariant 0 <= y <= RangeLength(height)
      invariant |pattern| == y
      invariant forall j :: 0 <= j < y ==> pattern[j] == GridRow(width, height, j, timeOffset, kind, m)
    {
      var row: string := [];
      var x := 0;
      while x < width
        invariant 0 <= x <= RangeLength(width)
        invariant |row| == x
        invariant forall i :: 0 <= i < x ==> row[i] == Cell(kind, m, i, y, width, height, timeOffset)
      {
        var w := WaveValues(kind, m, x, y, width, height, timeOffset);
        var combined := Combined(w);
        var idx := Trunc(Scaled(combined));
        idx := Clamp(idx);
        row := row + [Palette[idx]];
        x := x + 1;
      }
      assert row == GridRow(width, height, y, timeOffset, kind, m);
      pattern := pattern + [row];
      y := y + 1;
    }
  }

  /** When sine and cosine stay within [-1, 1], every combined value does
      too, and the clamp leaves the truncated index unchanged. */
  lemma ClampInert(kind: WaveKind, m: MathFns, x: int, y: int, width: int, height: int, t: real)
    requires Bounded(m)
    ensures InUnit(Combined(WaveValues(kind, m, x, y, width, height, t)))
    ensures var s := Scaled(Combined(WaveValues(kind, m, x, y, width, height, t)));
            0 <= Trunc(s) < |Palette| && CellIndex(Combined(WaveValues(kind, m, x, y, width, height, t))) == Trunc(s)
  {
    var w := WaveValues(kind, m, x, y, width, height, t);
    assert InUnit(w.v1) && InUnit(w.v2) && InUnit(w.v3);
    UnitIndex(Combined(w));
  }

  /** A combined value in [-1, 1] scales into [0, |Palette| - 1], where the
      index is the integer part of the scaled value and needs no clamping. */
  lemma UnitIndex(c: real)
    requires InUnit(c)
    ensures 0.0 <= Scaled(c) <= (|Palette| - 1) as real
    ensures 0 <= Trunc(Scaled(c)) < |Palette|
    ensures CellIndex(c) == Trunc(Scaled(c)) == Scaled(c).Floor
  {
  }

  /** The index mapping, characterised without truncation or clamping: for c
      in [-1, 1], k is the index of c exactly when k <= (c + 1) * 9 / 2 < k + 1. */
  lemma IndexCharacterised(c: real, k: int)
    requires InUnit(c)
    ensures CellIndex(c) == k <==> k as real <= Scaled(c) < k as real + 1.0
  {
    UnitIndex(c);
  }

  /** The mapping's fixed points: -1 is the sparsest glyph, 1 the densest and
      0 the middle one. */
  lemma IndexEndpoints()
    ensures CellIndex(-1.0) == 0 && CellChar(-1.0) == ' '
    ensures CellIndex(1.0) == |Palette| - 1 && CellChar(1.0) == '@'
    ensures CellIndex(0.0) == (|Palette| - 1) / 2 && CellChar(0.0) == '='
  {
  }

  lemma TruncMonotone(r1: real, r2: real)
    requires r1 <= r2
    ensures Trunc(r1) <= Trunc(r2)
  {
  }

  /** A denser combined value never draws a sparser glyph. */
  lemma IndexMonotone(c1: real, c2: real)
    requires c1 <= c2
    ensures CellIndex(c1) <= CellIndex(c2)
  {
    assert Scaled(c1) <= Scaled(c2);
    TruncMonotone(Scaled(c1), Scaled(c2));
  }

  /** After the clamp, truncation toward zero and floor give the same index
      for every real, so the choice of rounding does not matter. */
  lemma RoundingIrrelevant(r: real)
    ensures Clamp(Trunc(r)) == Clamp(r.Floor)
  {
  }
}
