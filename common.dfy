// Shared vocabulary of the model: optional values, results carrying the
// source's error message, bytes, UUIDs, timezone-aware datetimes and dates.

module Common {

  datatype Option<+T> = None | Some(value: T)

  /** A computation that either yields a value or raises with a message. */
  datatype Result<+T> = Ok(value: T) | Err(error: string)
  {
    predicate IsFailure() { this.Err? }

    function PropagateFailure<U>(): Result<U>
      requires this.Err?
    {
      Err(error)
    }

    function Extract(): T
      requires this.Ok?
    {
      value
    }
  }

  /**
   * A list comprehension whose element step may raise: every result in
   * order, or the error of the first element that fails.
   */
  function MapResult<A, B>(f: A -> Result<B>, xs: seq<A>): (r: Result<seq<B>>)
    ensures r.Ok? <==> forall i :: 0 <= i < |xs| ==> f(xs[i]).Ok?
    ensures r.Ok? ==> |r.value| == |xs| && forall i :: 0 <= i < |xs| ==> f(xs[i]) == Ok(r.value[i])
    ensures r.Err? ==> exists i :: 0 <= i < |xs| && f(xs[i]) == Err(r.error)
                                   && forall j :: 0 <= j < i ==> f(xs[j]).Ok?
  {
    if xs == [] then Ok([])
    else
      var y :- f(xs[0]);
      var rest :- MapResult(f, xs[1..]);
      Ok([y] + rest)
  }

  /** Elements that each map to the matching result map, as a list, to all of them. */
  lemma {:induction false} MapResultEach<A, B>(f: A -> Result<B>, xs: seq<A>, ys: seq<B>)
    requires |xs| == |ys|
    requires forall i :: 0 <= i < |xs| ==> f(xs[i]) == Ok(ys[i])
    ensures MapResult(f, xs) == Ok(ys)
  {
    if xs != [] {
      MapResultEach(f, xs[1..], ys[1..]);
      assert [ys[0]] + ys[1..] == ys;
    }
  }

  type Byte = b: int | 0 <= b < 256

  /** The 16 raw bytes of a UUID, most significant first. */
  type Uuid = s: seq<Byte> | |s| == 16 witness [0, 0, 0, 0, 0, 0, 0, 0, 0, 0, 0, 0, 0, 0, 0, 0]

  const SecondsPerDay: int := 86400

  /**
   * A timezone-aware datetime: `wall` is the local wall-clock reading in
   * seconds since 0001-01-01T00:00 and `offset` the UTC offset in seconds.
   * Two datetimes are ordered by the instant they denote.
   */
  datatype DateTime = DateTime(wall: int, offset: int)
  {
    function Instant(): int { wall - offset }

    /** The calendar date of the wall-clock reading, as a day ordinal. */
    function Date(): int { wall / SecondsPerDay + 1 }

    /** Seconds since local midnight. */
    function TimeOfDay(): int { wall % SecondsPerDay }
  }

  predicate Before(a: DateTime, b: DateTime) { a.Instant() < b.Instant() }

  function AddSeconds(t: DateTime, s: int): (r: DateTime)
    ensures r.offset == t.offset && r.Instant() == t.Instant() + s
  {
    DateTime(t.wall + s, t.offset)
  }

  /** Weekday of a day ordinal, Monday = 0 ... Sunday = 6 (day 1 is a Monday). */
  function Weekday(d: int): (w: int)
    ensures 0 <= w < 7
  {
    (d + 6) % 7
  }
}
