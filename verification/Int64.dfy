/** Go's int64: two's-complement wrap-around and division that truncates toward zero. */
module Int64 {
  const MAX_INT := 0x7FFF_FFFF_FFFF_FFFF
  const MIN_INT := -0x8000_0000_0000_0000
  const SPAN := 0x1_0000_0000_0000_0000

  type int64 = x: int | MIN_INT <= x <= MAX_INT

  /** The int64 a computation that may overflow yields. */
  function Wrap(x: int): (r: int64)
    ensures MIN_INT <= x <= MAX_INT ==> r == x
  {
    (x - MIN_INT) % SPAN + MIN_INT
  }

  /** a / b in Go. */
  function Quo(a: int, b: int): int
    requires b > 0
  {
    if a >= 0 then a / b else -(-a / b)
  }

  /** a % b in Go. */
  function Rem(a: int, b: int): int
    requires b > 0
  {
    a - Quo(a, b) * b
  }

  /** One wrapping addition lands at most one span away. */
  lemma WrapSum(a: int64, b: int64)
    ensures var x := a as int + b as int;
            Wrap(x) == x || (x > MAX_INT && Wrap(x) == x - SPAN) || (x < MIN_INT && Wrap(x) == x + SPAN)
  {
  }

  datatype Sum = Fits(value: int64) | Overflow

  /** Amount.Add and Quantity.Add: refuse when the sum moved the wrong way. */
  function CheckedAdd(a: int64, b: int64): (r: Sum) {
    var sum := Wrap(a as int + b as int);
    if (b > 0 && sum < a) || (b < 0 && sum > a) then Overflow else Fits(sum)
  }

  /** The direction test is exact: it refuses the sums that do not fit, and only those. */
  lemma CheckedAddExact(a: int64, b: int64)
    ensures var x := a as int + b as int;
            CheckedAdd(a, b) == if MIN_INT <= x <= MAX_INT then Fits(x) else Overflow
  {
    WrapSum(a, b);
  }
}
