/** Whole numbers written in decimal, as Go's strconv writes them. */
module Numerals {
  function Digits(n: nat): (s: string)
    ensures s != ""
  {
    var d := [(n % 10) as char + '0'];
    if n < 10 then d else Digits(n / 10) + d
  }

  function Value(s: string): int {
    if s == "" then 0 else 10 * Value(s[..|s| - 1]) + (s[|s| - 1] as int - '0' as int)
  }

  lemma {:induction false} DigitsRead(n: nat)
    ensures Value(Digits(n)) == n
  {
    var d := [(n % 10) as char + '0'];
    if n >= 10 {
      DigitsRead(n / 10);
      assert Digits(n)[..|Digits(n)| - 1] == Digits(n / 10);
    } else {
      assert d[..0] == "";
    }
  }

  /** No two numbers are written alike. */
  lemma DigitsApart(m: nat, n: nat)
    requires Digits(m) == Digits(n)
    ensures m == n
  {
    DigitsRead(m);
    DigitsRead(n);
  }

  lemma SomeDigits()
    ensures Digits(0) == "0" && Digits(9) == "9" && Digits(10) == "10" && Digits(1907) == "1907" && Digits(28645) == "28645"
  {
    assert Digits(1) == "1" && Digits(19) == "19" && Digits(190) == "190";
    assert Digits(2) == "2" && Digits(28) == "28" && Digits(286) == "286" && Digits(2864) == "2864";
  }
}
