/** Vocabulary shared by every module: optional values, instants, and the
    Python slicing and rounding rules the backend relies on. */
module Common {

  datatype Option<+T> = None | Some(value: T)

  /** An instant, in seconds. The backend reads `datetime.now()` and
      `time.time()`; here the current instant is always a parameter. */
  type Instant = real

  function Min(a: int, b: int): int { if a <= b then a else b }

  function Max(a: int, b: int): int { if a <= b then b else a }

  function MaxReal(a: real, b: real): real { if a <= b then b else a }

  function MinReal(a: real, b: real): real { if a <= b then a else b }

  lemma DivMono(x: real, y: real, d: real)
    requires x <= y && 0.0 < d
    ensures x / d <= y / d
  {
  }

  lemma DivStrict(x: real, y: real, d: real)
    requires x < y && 0.0 < d
    ensures x / d < y / d
  {
  }

  /** Python's `s[:n]`: the first `n` elements, and for a negative `n`
      everything but the last `-n`. */
  function PyTake<T>(s: seq<T>, n: int): (r: seq<T>)
    ensures |r| <= |s| && r == s[..|r|]
    ensures 0 <= n ==> |r| == Min(n, |s|)
    ensures n < 0 ==> |r| == Max(0, |s| + n)
  {
    if 0 <= n then s[..Min(n, |s|)] else s[..Max(0, |s| + n)]
  }

  /** Python's `s[-n:]`: the last `n` elements for a positive `n`. For
      `n == 0` it is `s[0:]`, the whole sequence, and for a negative `n` it
      drops the first `-n` elements. */
  function PyTail<T>(s: seq<T>, n: int): (r: seq<T>)
    ensures |r| <= |s| && r == s[|s| - |r|..]
    ensures 0 < n ==> |r| == Min(n, |s|)
    ensures n == 0 ==> r == s
    ensures n < 0 ==> |r| == Max(0, |s| + n)
  {
    if 0 < n then s[|s| - Min(n, |s|)..]
    else if n == 0 then s
    else s[Min(-n, |s|)..]
  }

  /** `round(x, 2)`, rounding half up on exact reals. */
  function Round2(x: real): (r: real)
    ensures x - 0.005 < r <= x + 0.005
    ensures 0.0 <= x <= 1.0 ==> 0.0 <= r <= 1.0
  {
    (x * 100.0 + 0.5).Floor as real / 100.0
  }

  /** `round(x, 1)`, rounding half up on exact reals. */
  function Round1(x: real): (r: real)
    ensures x - 0.05 < r <= x + 0.05
  {
    (x * 10.0 + 0.5).Floor as real / 10.0
  }

  /** The decimal spelling Python's f-strings give an integer. */
  function IntToString(n: int): (s: string)
    ensures s != []
  {
    if n < 0 then "-" + NatToString(-n) else NatToString(n)
  }

  function NatToString(n: nat): (s: string)
    ensures s != []
    ensures forall i :: 0 <= i < |s| ==> '0' <= s[i] <= '9'
    decreases n
  {
    if n < 10 then [Digit(n)] else NatToString(n / 10) + [Digit(n % 10)]
  }

  function Digit(d: nat): (c: char)
    requires d < 10
    ensures '0' <= c <= '9'
  {
    ['0', '1', '2', '3', '4', '5', '6', '7', '8', '9'][d]
  }
}
