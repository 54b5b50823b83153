/** `secs_to_hhmm` of vcuui/tools.py: a number of seconds rounded to the
    nearest minute and split into hours and minutes. The source divides with
    `/` (a float) and truncates with int(); the model divides exactly and
    truncates toward zero, and takes `%` as Python's floored remainder. */
module Tools {
  /** Python's `int(a / b)` for b > 0: the quotient truncated toward zero. */
  function TruncDiv(a: int, b: int): (q: int)
    requires b > 0
    ensures a >= 0 ==> q >= 0 && 0 <= a - q * b < b
    ensures a < 0 ==> q <= 0 && -b < a - q * b <= 0
  {
    if a >= 0 then a / b else -((-a) / b)
  }

  /** The total number of minutes, `int((secs + 30) / 60)`. */
  function Minutes(secs: int): int {
    TruncDiv(secs + 30, 60)
  }

  /** `secs_to_hhmm(secs)` as the pair (h, m). */
  function SecsToHhmm(secs: int): (int, int) {
    var t := Minutes(secs);
    (TruncDiv(t, 60), t % 60)
  }

  /** For a duration that is not negative, t is the nearest minute, half a
      minute rounding up, and (h, m) splits t into hours and minutes. */
  lemma SecsToHhmmSplits(secs: int)
    requires secs >= 0
    ensures var t := Minutes(secs);
      && 60 * t - 30 <= secs < 60 * t + 30
      && 60 * SecsToHhmm(secs).0 + SecsToHhmm(secs).1 == t
      && 0 <= SecsToHhmm(secs).1 < 60 && SecsToHhmm(secs).0 >= 0
  {
  }

  /** The minutes are below 60 for any input, Python's `%` being floored. */
  lemma MinutesBelowSixty(secs: int)
    ensures 0 <= SecsToHhmm(secs).1 < 60
  {
  }

  /** A negative total of minutes is not split into hours and minutes:
      -100 s is (0, 59). */
  lemma NegativeIsNotSplit()
    ensures Minutes(-100) == -1 && SecsToHhmm(-100) == (0, 59)
  {
  }

  /** Lexicographic order on (h, m). */
  predicate LexLe(a: (int, int), b: (int, int)) {
    a.0 < b.0 || (a.0 == b.0 && a.1 <= b.1)
  }

  /** A longer duration never shows an earlier time. */
  lemma SecsToHhmmMonotone(s1: int, s2: int)
    requires 0 <= s1 <= s2
    ensures LexLe(SecsToHhmm(s1), SecsToHhmm(s2))
  {
    var t1, t2 := Minutes(s1), Minutes(s2);
    assert t1 <= t2;
    SecsToHhmmSplits(s1);
    SecsToHhmmSplits(s2);
  }

  /** The module's tests. */
  lemma SecsToHhmmExamples()
    ensures SecsToHhmm(0) == (0, 0)
    ensures SecsToHhmm(60) == (0, 1)
    ensures SecsToHhmm(121) == (0, 2)
    ensures SecsToHhmm(3600) == (1, 0)
    ensures SecsToHhmm(86400 - 31) == (23, 59)
    ensures SecsToHhmm(29) == (0, 0)
    ensures SecsToHhmm(30) == (0, 1)
  {
  }
}
