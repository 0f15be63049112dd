/** The fourteen OHLC frequencies and the bucket each one assigns to a point in time.
    Times are integer seconds since 1970-01-01 00:00 UTC. */
module Frequencies {
  import opened Calendar

  /** The pandas offset aliases the tool resamples with. */
  datatype Frequency =
    | Minute1 | Minute3 | Minute5 | Minute15 | Minute30
    | Hour1 | Hour2 | Hour4 | Hour6 | Hour8 | Hour12
    | Day1 | Day3
    | WeekMonday

  const AllFrequencies: seq<Frequency> :=
    [Minute1, Minute3, Minute5, Minute15, Minute30, Hour1, Hour2, Hour4, Hour6, Hour8, Hour12,
     Day1, Day3, WeekMonday]

  /** The pandas frequency string for `f`, as the tool passes it around ("T" is minutes). */
  function Token(f: Frequency): string {
    match f
    case Minute1 => "1T"
    case Minute3 => "3T"
    case Minute5 => "5T"
    case Minute15 => "15T"
    case Minute30 => "30T"
    case Hour1 => "1H"
    case Hour2 => "2H"
    case Hour4 => "4H"
    case Hour6 => "6H"
    case Hour8 => "8H"
    case Hour12 => "12H"
    case Day1 => "1D"
    case Day3 => "3D"
    case WeekMonday => "1W-MON"
  }

  /** Every frequency but the weekly one is a fixed span of time (a pandas `Tick`). */
  predicate IsFixed(f: Frequency) {
    f != WeekMonday
  }

  /** Width of a bucket in seconds. */
  function Period(f: Frequency): (p: int)
    ensures p > 0
  {
    match f
    case Minute1 => 60
    case Minute3 => 180
    case Minute5 => 300
    case Minute15 => 900
    case Minute30 => 1800
    case Hour1 => 3600
    case Hour2 => 7200
    case Hour4 => 14400
    case Hour6 => 21600
    case Hour8 => 28800
    case Hour12 => 43200
    case Day1 => 86400
    case Day3 => 259200
    case WeekMonday => 604800
  }

  /** The time from which buckets are counted: the epoch for fixed frequencies, and
      1970-01-05 00:00, the first Monday after the epoch, for the weekly one. */
  function Anchor(f: Frequency): int {
    if IsFixed(f) then 0 else 4 * 86400
  }

  /** `t` lies on a bucket boundary of `f`. */
  predicate OnBoundary(t: int, f: Frequency) {
    (t - Anchor(f)) % Period(f) == 0
  }

  /** Start of the left-closed bucket of `f` that contains `t`. */
  function BucketStart(t: int, f: Frequency): (b: int)
    ensures b <= t < b + Period(f)
    ensures OnBoundary(b, f)
  {
    var p := Period(f);
    MultipleDivMod((t - Anchor(f)) / p, p);
    t - (t - Anchor(f)) % p
  }

  /** A boundary `b` with `b <= t < b + Period(f)` is the start of `t`'s bucket. */
  lemma BucketStartUnique(t: int, b: int, f: Frequency)
    requires OnBoundary(b, f)
    requires b <= t < b + Period(f)
    ensures BucketStart(t, f) == b
  {
    var p, c := Period(f), BucketStart(t, f);
    assert OnBoundary(c, f);
    AlignedClose(b - Anchor(f), c - Anchor(f), p);
  }

  /** Two multiples of `p` less than `p` apart are equal. */
  lemma AlignedClose(x: int, y: int, p: int)
    requires p > 0 && x % p == 0 && y % p == 0
    requires x - p < y < x + p
    ensures x == y
  {
    var qx, qy := x / p, y / p;
    assert x == qx * p && y == qy * p;
    if qx < qy {
      MulAtLeast(qy - qx, p);
    } else if qy < qx {
      MulAtLeast(qx - qy, p);
    }
  }

  lemma MulAtLeast(a: int, p: int)
    requires p > 0 && a >= 1
    ensures a * p >= p
  {
  }

  /** `q * p` is a multiple of `p` with quotient `q`. */
  lemma MultipleDivMod(q: int, p: int)
    requires p > 0
    ensures (q * p) % p == 0 && (q * p) / p == q
  {
    var m := q * p;
    var d, r := m / p, m % p;
    assert m == d * p + r && 0 <= r < p;
    assert (q - d) * p == r;
    if q - d >= 1 {
      MulAtLeast(q - d, p);
    } else if q - d <= -1 {
      MulAtLeast(d - q, p);
    }
  }

  /** Boundaries are exactly the points that are their own bucket start. */
  lemma BoundaryIsOwnBucketStart(t: int, f: Frequency)
    ensures OnBoundary(t, f) <==> BucketStart(t, f) == t
  {
    if OnBoundary(t, f) {
      BucketStartUnique(t, t, f);
    }
  }

  /** Later times never fall in earlier buckets. */
  lemma BucketStartMonotone(t: int, u: int, f: Frequency)
    requires t <= u
    ensures BucketStart(t, f) <= BucketStart(u, f)
  {
    var bt, bu := BucketStart(t, f), BucketStart(u, f);
    if bu < bt {
      assert OnBoundary(bt, f) && OnBoundary(bu, f);
      AlignedClose(bt - Anchor(f), bu - Anchor(f), Period(f));
    }
  }

  /** Two boundaries that differ are at least one period apart. */
  lemma BoundariesApart(b: int, c: int, f: Frequency)
    requires OnBoundary(b, f) && OnBoundary(c, f) && b < c
    ensures b + Period(f) <= c
  {
    if c < b + Period(f) {
      AlignedClose(b - Anchor(f), c - Anchor(f), Period(f));
    }
  }

  /** The boundary after a boundary is one period later. */
  lemma NextBoundary(b: int, f: Frequency)
    requires OnBoundary(b, f)
    ensures OnBoundary(b + Period(f), f)
  {
    var p := Period(f);
    var q := (b - Anchor(f)) / p;
    assert b - Anchor(f) == q * p;
    assert b + p - Anchor(f) == (q + 1) * p;
    MultipleDivMod(q + 1, p);
  }

  /** A weekly bucket starts at Monday 00:00, on or before the time it contains. */
  lemma WeeklyBucketStartsMondayMidnight(t: int)
    ensures DayOfWeek(BucketStart(t, WeekMonday)) == 0
    ensures BucketStart(t, WeekMonday) % 86400 == 0
  {
    var b := BucketStart(t, WeekMonday);
    var k := (b - 4 * 86400) / 604800;
    assert b == k * 604800 + 4 * 86400;
    assert b / 86400 == 7 * k + 4;
  }
}
