/** Timestamps, periods and the window grid.

    A timestamp is a whole number of seconds. A period is an amount of some
    unit (seconds, minutes, ...), the unit being given by its length in
    seconds. The grid of windows of one run starts at the first record's
    timestamp truncated to the period's unit and advances by whole periods. */
module Time {

  const SECONDS: int := 1
  const MINUTES: int := 60

  /** `Period.of(amount, unit)`: a window `amount` units wide */
  datatype Period = Period(amount: int, unitSeconds: int) {

    /** A period must be a positive duration */
    predicate Valid() {
      amount > 0 && unitSeconds > 0
    }

    /** The window width in seconds; never narrower than one unit */
    function Length(): (r: int)
      requires Valid()
      ensures r >= unitSeconds > 0
    {
      amount * unitSeconds
    }
  }

  /** Multiplying by a positive number keeps order */
  lemma MulLe(a: int, b: int, c: int)
    requires a <= b && c > 0
    ensures a * c <= b * c
  {
    assert b * c - a * c == (b - a) * c;
  }

  /** Euclidean division is determined by quotient and remainder */
  lemma DivModUnique(a: int, u: int, q: int, m: int)
    requires u > 0 && 0 <= m < u && a == q * u + m
    ensures a / u == q && a % u == m
  {
    var q' := a / u;
    if q' < q {
      MulLe(q' + 1, q, u);
    } else if q' > q {
      MulLe(q + 1, q', u);
    }
  }

  /** Truncation of `t` down to a whole number of units: the latest instant
      at or before `t` that is a multiple of `unit` */
  function Truncate(t: int, unit: int): (r: int)
    requires unit > 0
    ensures r <= t < r + unit
    ensures r % unit == 0
  {
    DivModUnique(t - t % unit, unit, t / unit, 0);
    t - t % unit
  }

  /** The windows of one run: window `k` is `[origin + k*len, origin + (k+1)*len)` */
  datatype Grid = Grid(origin: int, len: int)

  /** The grid a run uses, fixed by its first record's timestamp */
  function GridOf(first: int, p: Period): (g: Grid)
    requires p.Valid()
    ensures g.len == p.Length() > 0
    ensures g.origin == Truncate(first, p.unitSeconds)
    ensures g.origin <= first < g.origin + g.len
  {
    Grid(Truncate(first, p.unitSeconds), p.Length())
  }

  /** The index of the window holding instant `t` */
  function Index(g: Grid, t: int): (k: int)
    requires g.len > 0
    ensures g.origin + k * g.len <= t < g.origin + (k + 1) * g.len
  {
    var k := (t - g.origin) / g.len;
    assert (k + 1) * g.len == k * g.len + g.len;
    k
  }

  /** The start of the window holding instant `t`: a grid point at or before
      `t` and less than one window before it */
  function WindowStart(g: Grid, t: int): (s: int)
    requires g.len > 0
    ensures s <= t < s + g.len
    ensures (s - g.origin) % g.len == 0
  {
    var k := Index(g, t);
    DivModUnique(k * g.len, g.len, k, 0);
    g.origin + k * g.len
  }

  /** The window index is determined by the window bounds: an instant inside
      window `k` has index `k` */
  lemma {:induction false} IndexUnique(g: Grid, t: int, k: int)
    requires g.len > 0
    requires g.origin + k * g.len <= t < g.origin + (k + 1) * g.len
    ensures Index(g, t) == k
  {
    DivModUnique(t - g.origin, g.len, k, t - g.origin - k * g.len);
  }

  /** Later instants never fall in earlier windows */
  lemma {:induction false} IndexMonotone(g: Grid, t1: int, t2: int)
    requires g.len > 0
    requires t1 <= t2
    ensures Index(g, t1) <= Index(g, t2)
  {
    var i, j := Index(g, t1), Index(g, t2);
    if i > j {
      MulLe(j + 1, i, g.len);
      assert false;
    }
  }

  /** Distinct windows have distinct starts, in the order of their indices */
  lemma {:induction false} GridPointsOrdered(g: Grid, j: int, k: int)
    requires g.len > 0
    requires j < k
    ensures g.origin + j * g.len < g.origin + k * g.len
  {
    MulLe(j + 1, k, g.len);
  }
}
