/** Types shared by every part of the model: bytes, task ids, errors,
    results, and Go's time arithmetic stated on integer nanoseconds. */
module Common {

  /** One octet of a stream or a file. */
  type byte = b: int | 0 <= b < 256

  /** The task identifier: a string (a 36-character UUID in practice). */
  type TaskId = string

  /** A Go `error`, split by what callers test for: `os.IsNotExist`, any
      other error, and a Go panic or runtime fatal error (which ends the
      process rather than returning). */
  datatype Error = NotExist(msg: string) | Other(msg: string) | Panic(msg: string)

  datatype Result<T> = Ok(value: T) | Err(error: Error)

  datatype Option<T> = None | Some(value: T)

  /** `order` lists every key of `m` exactly once: the order in which a
      `range` over the map visits them, which Go leaves unspecified. */
  predicate IsKeyOrder<V>(order: seq<string>, m: map<string, V>) {
    (forall i :: 0 <= i < |order| ==> order[i] in m) &&
    (forall k :: k in m ==> k in order) &&
    (forall i, j :: 0 <= i < j < |order| ==> order[i] != order[j])
  }

  /** A point in time as nanoseconds since Go's zero `time.Time`
      (January 1, year 1, UTC); `IsZero()` holds exactly of 0. */
  type Time = int

  const ZeroTime: Time := 0

  const MaxInt64: int := 0x7fff_ffff_ffff_ffff
  const MinInt64: int := -0x8000_0000_0000_0000

  const Nanosecond: int := 1
  const Microsecond: int := 1000
  const Millisecond: int := 1000_000
  const Second: int := 1000_000_000
  const Minute: int := 60 * Second
  const Hour: int := 60 * Minute

  /** Go's `int64` arithmetic wraps around modulo 2^64. */
  function Wrap64(x: int): (r: int)
    ensures MinInt64 <= r <= MaxInt64
    ensures (r - x) % 0x1_0000_0000_0000_0000 == 0
    ensures MinInt64 <= x <= MaxInt64 ==> r == x
  {
    var m := (x - MinInt64) % 0x1_0000_0000_0000_0000;
    m + MinInt64
  }

  /** `t.Sub(u)`: the duration t - u, saturated to the range of
      `time.Duration` (an int64 of nanoseconds). */
  function Sub(t: Time, u: Time): (d: int)
    ensures MinInt64 <= d <= MaxInt64
    ensures MinInt64 <= t - u <= MaxInt64 ==> d == t - u
    ensures t - u > MaxInt64 ==> d == MaxInt64
    ensures t - u < MinInt64 ==> d == MinInt64
    ensures (d < 0) == (t < u) && (d == 0) == (t == u)
  {
    if t - u > MaxInt64 then MaxInt64
    else if t - u < MinInt64 then MinInt64
    else t - u
  }

  /** Go's integer division, which truncates toward zero (Dafny's `/` is
      Euclidean). */
  function Quo(a: int, b: int): (q: int)
    requires b != 0
    ensures 0 <= a && 0 < b ==> q == a / b
    ensures (0 <= a && 0 < b) || (a <= 0 && b < 0) ==> q >= 0
    ensures (0 <= a && b < 0) || (a <= 0 && 0 < b) ==> q <= 0
  {
    if a >= 0 && b > 0 then NonNegQuo(a, b)
    else if a < 0 && b < 0 then NonNegQuo(-a, -b)
    else if a < 0 then -NonNegQuo(-a, b)
    else -NonNegQuo(a, -b)
  }

  /** Division of a non-negative number by a positive one, where
      truncation and Euclidean division agree. */
  function NonNegQuo(a: int, b: int): (q: int)
    requires 0 <= a && 0 < b
    ensures 0 <= q && q == a / b
  {
    a / b
  }

  /** `int64(d.Seconds())`: whole seconds of a duration, truncated toward
      zero (the float rounding of `Seconds()` is not modelled). */
  function WholeSeconds(d: int): (s: int)
    ensures 0 <= d ==> s == d / Second
    ensures (s == 0) == (-Second < d < Second)
    ensures (s > 0) == (d >= Second)
  {
    Quo(d, Second)
  }
}
