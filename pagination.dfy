/** The pagination arithmetic of the user-list endpoint: how the `page` and
    `limit` query parameters are normalised, the int32 offset computed from
    them, and the test that answers with an empty page. */
module Pagination {
  import opened GoInt32

  /** Smallest page number and smallest page size the endpoint serves. */
  const MinPage: int := 1
  const MinLimit: int := 20

  /** What `strconv.ParseInt(s, 10, 32)` reports for a query parameter. */
  datatype ParseOutcome =
    | Parsed(v: Int32)             // s is a decimal int32
    | SyntaxError                  // s is missing, empty or not a number
    | RangeError(negative: bool)   // s is a number outside the int32 range

  /** The value the handler goes on with: it discards ParseInt's error, and
      ParseInt returns 0 on a syntax error and the nearest int32 bound on a
      range error. */
  function ParsedValue(p: ParseOutcome): Int32
  {
    match p
    case Parsed(v) => v
    case SyntaxError => 0
    case RangeError(negative) => if negative then MinInt32 else MaxInt32
  }

  /** `int32(math.Max(float64(x), float64(lo)))`: the float64 round trip is
      exact on int32 values, so this is the integer maximum. */
  function AtLeast(x: Int32, lo: Int32): (r: Int32)
    ensures r >= x && r >= lo
    ensures r == x || r == lo
  {
    if x < lo then lo else x
  }

  /** `page`: never below 1; a missing or unparsable parameter means page 1,
      a parsed page of at least 1 is kept as asked, and one below 1 is raised
      to 1. */
  function NormalizedPage(p: ParseOutcome): (page: Int32)
    ensures page >= MinPage
    ensures p.SyntaxError? ==> page == MinPage
    ensures p.Parsed? && p.v >= MinPage ==> page == p.v
    ensures p.Parsed? && p.v < MinPage ==> page == MinPage
    ensures p.RangeError? ==> page == (if p.negative then MinPage else MaxInt32)
  {
    AtLeast(ParsedValue(p), MinPage)
  }

  /** `limit`: never below 20; a missing or unparsable parameter means 20,
      smaller requests are raised to 20 and larger ones are kept, up to the
      int32 maximum that an oversized number is clamped to. */
  function NormalizedLimit(p: ParseOutcome): (limit: Int32)
    ensures limit >= MinLimit
    ensures p.SyntaxError? ==> limit == MinLimit
    ensures p.Parsed? && p.v >= MinLimit ==> limit == p.v
    ensures p.Parsed? && p.v < MinLimit ==> limit == MinLimit
    ensures p.RangeError? ==> limit == (if p.negative then MinLimit else MaxInt32)
  {
    AtLeast(ParsedValue(p), MinLimit)
  }

  /** `offset := (page * limit) - limit`, evaluated in int32. */
  function Offset(page: Int32, limit: Int32): Int32 {
    Sub(Mul(page, limit), limit)
  }

  /** The offset the endpoint means: the number of users on the pages before
      `page`. */
  function ExactOffset(page: int, limit: int): int {
    (page - 1) * limit
  }

  /** Whatever the operands, the int32 offset is the exact offset wrapped to
      32 bits: an overflow of the product alone cancels out when `limit` is
      subtracted. */
  lemma OffsetWraps(page: Int32, limit: Int32)
    ensures Offset(page, limit) == Wrap(ExactOffset(page, limit))
  {
    WrapSub(page * limit, limit);
    assert page * limit - limit == ExactOffset(page, limit);
  }

  /** For a normalised page and limit, the int32 offset is the exact one
      exactly when the exact one fits in int32; it is then non-negative and a
      multiple of the limit. */
  lemma OffsetExact(page: Int32, limit: Int32)
    requires page >= MinPage && limit >= MinLimit
    ensures Offset(page, limit) == ExactOffset(page, limit)
            <==> ExactOffset(page, limit) <= MaxInt32
    ensures ExactOffset(page, limit) <= MaxInt32 ==>
              Offset(page, limit) >= 0 && Offset(page, limit) % limit == 0
  {
    OffsetWraps(page, limit);
    var e := ExactOffset(page, limit);
    MulNonNegative(page - 1, limit);
    if e <= MaxInt32 {
      assert InRange(e);
      MultipleMod(page - 1, limit);
    }
  }

  lemma MulNonNegative(a: int, b: int)
    requires a >= 0 && b >= 0
    ensures a * b >= 0
  {
  }

  lemma MulAtLeast(d: int, n: int)
    requires d >= 1 && n > 0
    ensures d * n >= n
  {
    MulNonNegative(d - 1, n);
    assert d * n == (d - 1) * n + n;
  }

  /** A product of `n` leaves no remainder modulo `n`. */
  lemma MultipleMod(k: int, n: int)
    requires n > 0
    ensures (k * n) % n == 0
  {
    var q := k * n / n;
    var r := k * n % n;
    assert k * n == q * n + r;
    var d := k - q;
    assert d * n == r by { assert d * n == k * n - q * n; }
    if d >= 1 {
      MulAtLeast(d, n);
    } else if d <= -1 {
      MulAtLeast(-d, n);
    }
  }

  /** `totalUsers < 1 || offset > (totalUsers-1)`: there is nothing to list at
      this offset. `totalUsers - 1` is only evaluated when `totalUsers >= 1`,
      so it cannot wrap. */
  predicate IsEmptyPage(total: Int32, offset: int) {
    total < 1 || offset > total - 1
  }

  /** A non-empty page starts at an offset of at most `total - 1`, and at or
      after 0 when the offset was exact. */
  lemma NonEmptyPageOffset(total: Int32, page: Int32, limit: Int32)
    requires page >= MinPage && limit >= MinLimit
    requires !IsEmptyPage(total, Offset(page, limit))
    ensures total >= 1 && Offset(page, limit) <= total - 1
    ensures ExactOffset(page, limit) <= MaxInt32 ==>
              0 <= Offset(page, limit) && Offset(page, limit) == ExactOffset(page, limit)
  {
    OffsetExact(page, limit);
  }
}
