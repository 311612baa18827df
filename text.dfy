/** String predicates used by the URL and header checks (strings are sequences of characters). */
module Text {

  predicate StartsWith(s: string, prefix: string) {
    prefix <= s
  }

  predicate EndsWith(s: string, suffix: string) {
    |suffix| <= |s| && s[|s| - |suffix|..] == suffix
  }

  /** `sub` occurs in `s` starting at position `i`. */
  predicate OccursAt(s: string, sub: string, i: int) {
    0 <= i && i + |sub| <= |s| && s[i..i + |sub|] == sub
  }

  /** JavaScript's `s.includes(sub)`, or an unanchored regular expression made of literal text. */
  predicate Contains(s: string, sub: string) {
    exists i | 0 <= i <= |s| :: OccursAt(s, sub, i)
  }

  predicate IsDigit(c: char) {
    '0' <= c <= '9'
  }

  predicate AllDigits(s: string) {
    s == [] || (IsDigit(s[0]) && AllDigits(s[1..]))
  }

  /** The decimal value of a string, meaningful when every character is a digit. */
  function DecimalValue(s: string): int {
    if s == [] then 0
    else DecimalValue(s[..|s| - 1]) * 10 + (s[|s| - 1] as int - '0' as int)
  }

  lemma {:induction false} ContainsAt(s: string, sub: string, t: string, u: string)
    requires s == t + sub + u
    ensures Contains(s, sub)
  {
    assert s[|t|..|t| + |sub|] == sub;
    assert OccursAt(s, sub, |t|);
  }
}
