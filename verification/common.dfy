/** Small shared vocabulary: an optional value, JavaScript's `Math.round`,
    and the elapsed-seconds formula every mini-game uses in its result. */
module Common {

  datatype Option<+T> = None | Some(value: T)

  function Max(a: int, b: int): int { if a >= b then a else b }

  function Min(a: int, b: int): int { if a <= b then a else b }

  /** `Math.abs` on numbers. */
  function Abs(x: real): real { if x < 0.0 then -x else x }

  /** `Math.round(x)`: the nearest integer, halves rounded up. */
  function Round(x: real): (n: int)
    ensures n as real - 0.5 <= x < n as real + 0.5
  {
    (x + 0.5).Floor
  }

  lemma RoundOfInt(n: int)
    ensures Round(n as real) == n
  {
  }

  /** A value that lies between two integers rounds to a value between them. */
  lemma RoundBetween(x: real, lo: int, hi: int)
    requires lo as real <= x <= hi as real
    ensures lo <= Round(x) <= hi
  {
  }

  /** `Math.round(50 + accuracy * 50)`, the final score of several games:
      an accuracy in [0, 1] gives a score in [50, 100]. */
  function HalfPlusHalf(accuracy: real): (s: int)
    ensures 0.0 <= accuracy <= 1.0 ==> 50 <= s <= 100
    ensures accuracy == 0.0 ==> s == 50
    ensures accuracy == 1.0 ==> s == 100
  {
    if 0.0 <= accuracy <= 1.0 then
      RoundBetween(50.0 + accuracy * 50.0, 50, 100);
      Round(50.0 + accuracy * 50.0)
    else Round(50.0 + accuracy * 50.0)
  }

  /** `startedAt ? Math.max(1, Math.round((now - startedAt) / 1000)) : 1`.
      A missing start time and the (falsy) start time 0 both give one second. */
  function ElapsedSeconds(startedAt: Option<int>, now: int): (s: int)
    ensures s >= 1
    ensures startedAt.None? || startedAt == Some(0) ==> s == 1
    ensures startedAt.Some? && startedAt.value != 0 && now - startedAt.value >= 1500 ==> s >= 2
  {
    match startedAt
    case Some(t) =>
      if t != 0 then Max(1, Round((now - t) as real / 1000.0)) else 1
    case None => 1
  }
}
