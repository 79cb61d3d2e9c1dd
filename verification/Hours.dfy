/** Instants are integer milliseconds since 1970-01-01T00:00Z; hours are counted from the same origin. */
module Hours {

  // One hour is 3_600_000 ms, one day 86_400_000 ms. The numbers stand written out below:
  // a product with a named constant would leave linear arithmetic.

  /** Index of the hour that contains `t`, also before 1970 (Dafny's division rounds down here). */
  function HourOf(t: int): int {
    t / 3_600_000
  }

  /** `DATE_TRUNC('hour', t)` */
  function HourStart(h: int): int {
    h * 3_600_000
  }

  function Min(a: int, b: int): int {
    if a <= b then a else b
  }

  function Max(a: int, b: int): int {
    if a >= b then a else b
  }

  /** The first hour that starts at or after `t`. */
  function CeilHour(t: int): int {
    HourOf(t + 3_600_000 - 1)
  }

  function DayOf(h: int): int {
    h / 24
  }

  function HourOfDay(h: int): int {
    h % 24
  }

  /** The instant `k` hours after `t`. */
  function HoursLater(t: int, k: int): int {
    t + k * 3_600_000
  }

  /** chrono's `num_hours`: division that rounds toward zero. */
  function NumHours(d: int): int {
    if d >= 0 then d / 3_600_000 else -((-d) / 3_600_000)
  }

  const USIZE_MODULUS: int := 0x1_0000_0000_0000_0000

  /** Rust's `as usize` on an i64: two's complement reinterpretation on a 64-bit machine. */
  function AsUsize(n: int): int {
    if n < 0 then n + USIZE_MODULUS else n
  }

  lemma HourBounds(t: int)
    ensures HourStart(HourOf(t)) <= t < HourStart(HourOf(t) + 1)
  {
  }

  lemma HourOfStart(h: int)
    ensures HourOf(HourStart(h)) == h
    ensures HourOf(HourStart(h) - 1) == h - 1
  {
  }

  lemma CeilHourIs(t: int)
    ensures HourStart(CeilHour(t) - 1) < t <= HourStart(CeilHour(t))
  {
  }

  lemma HourMonotone(a: int, b: int)
    requires a <= b
    ensures HourOf(a) <= HourOf(b)
  {
  }

  lemma HourIs(t: int, h: int)
    requires HourStart(h) <= t < HourStart(h + 1)
    ensures HourOf(t) == h
  {
  }
}
