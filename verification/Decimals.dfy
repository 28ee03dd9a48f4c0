/** Decimal numerals as Go prints and parses them. */
module Decimals {
  import opened Options
  import opened Units

  predicate Digit(c: char) { '0' <= c <= '9' }

  function Print(n: nat): (s: string)
    ensures s != [] && forall i :: 0 <= i < |s| ==> Digit(s[i])
  {
    (if n < 10 then [] else Print(n / 10)) + ['0' + (n % 10) as char]
  }

  /** The value of a run of digits, if it is one. */
  function Digits(s: string): Option<nat> {
    if s == [] || !Digit(s[|s|-1]) then None
    else
      var last := (s[|s|-1] - '0') as nat;
      if |s| == 1 then Some(last)
      else match Digits(s[..|s|-1])
        case None => None
        case Some(n) => Some(10 * n + last)
  }

  /** `strconv.ParseInt(s, 10, 64)` for the values that are not negative: an optional sign and digits. */
  function ParseNat64(s: string): Option<nat> {
    if s == [] then None
    else
      var v := Digits(if s[0] == '+' || s[0] == '-' then s[1..] else s);
      if v.None? || v.value > MAX64 || (s[0] == '-' && v.value != 0) then None else v
  }

  lemma {:induction false} PrintThenDigits(n: nat)
    ensures Digits(Print(n)) == Some(n)
  {
    var s := Print(n);
    if n >= 10 {
      PrintThenDigits(n / 10);
      assert s[..|s|-1] == Print(n / 10);
    }
  }

  lemma PrintThenParse(n: nat)
    requires n <= MAX64
    ensures ParseNat64(Print(n)) == Some(n)
  {
    PrintThenDigits(n);
    assert Digit(Print(n)[0]);
  }

  /** A plus sign is accepted, a minus sign only before zero, and nothing past int64. */
  lemma SignedParse(n: nat)
    ensures ParseNat64(Print(n)) == ParseNat64("+" + Print(n)) == if n <= 0x7fff_ffff_ffff_ffff then Some(n) else None
    ensures ParseNat64("-" + Print(n)) == if n == 0 then Some(0) else None
  {
    PrintThenDigits(n);
    assert Digit(Print(n)[0]);
    assert ("+" + Print(n))[1..] == Print(n) && ("-" + Print(n))[1..] == Print(n);
  }

  lemma PrintInjective(m: nat, n: nat)
    requires Print(m) == Print(n)
    ensures m == n
  {
    PrintThenDigits(m);
    PrintThenDigits(n);
  }
}
