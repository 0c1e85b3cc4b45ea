/** The `%d` and `%04d` verbs of the names in this repository, and their inverse. */
module Decimal {

  predicate IsDigit(c: char) {
    '0' <= c <= '9'
  }

  predicate AllDigits(s: string) {
    forall i :: 0 <= i < |s| ==> IsDigit(s[i])
  }

  function Digit(d: nat): (c: char)
    requires d < 10
    ensures IsDigit(c)
  {
    '0' + d as char
  }

  function Print(n: nat): (s: string)
    ensures s != [] && AllDigits(s)
  {
    if n < 10 then [Digit(n)] else Print(n / 10) + [Digit(n % 10)]
  }

  function Value(s: string): nat
    requires AllDigits(s)
  {
    if s == [] then 0 else 10 * Value(s[..|s| - 1]) + (s[|s| - 1] - '0') as nat
  }

  lemma {:induction false} ValueOfPrint(n: nat)
    ensures Value(Print(n)) == n
  {
    if n >= 10 {
      ValueOfPrint(n / 10);
      assert Print(n)[..|Print(n)| - 1] == Print(n / 10);
    }
  }

  lemma PrintIsInjective(m: nat, n: nat)
    ensures Print(m) == Print(n) ==> m == n
  {
    ValueOfPrint(m);
    ValueOfPrint(n);
  }

  /** Go's `%d`: a minus sign in front of a negative number. */
  function PrintInt(i: int): string {
    if i < 0 then "-" + Print(-i) else Print(i)
  }

  /** Go's `%04d` for a non-negative number: zeros on the left up to width four. */
  function Print4(n: nat): (s: string)
    ensures AllDigits(s) && |s| >= 4
  {
    Zeros(4 - |Print(n)|) + Print(n)
  }

  function Zeros(k: int): (s: string)
    ensures AllDigits(s) && |s| == if k <= 0 then 0 else k
  {
    if k <= 0 then "" else "0" + Zeros(k - 1)
  }

  lemma {:induction false} ValueOfZeros(k: int, s: string)
    requires AllDigits(s)
    ensures Value(Zeros(k) + s) == Value(s)
    decreases k, |s|
  {
    if k <= 0 {
      assert Zeros(k) + s == s;
    } else if s == [] {
      assert Zeros(k) + s == Zeros(k);
      ZerosAreZero(k);
    } else {
      var t := Zeros(k) + s;
      assert t[..|t| - 1] == Zeros(k) + s[..|s| - 1];
      ValueOfZeros(k, s[..|s| - 1]);
    }
  }

  lemma {:induction false} ZerosAreZero(k: int)
    ensures Value(Zeros(k)) == 0
  {
    if k > 0 {
      ZerosAreZero(k - 1);
      var t := Zeros(k);
      assert forall i :: 0 <= i < |t| ==> t[i] == '0' by { ZerosAreAllZero(k); ZerosAreAllZero(k - 1); }
      assert t[..|t| - 1] == Zeros(k - 1) by { ZerosAreAllZero(k - 1); }
    }
  }

  lemma {:induction false} ZerosAreAllZero(k: int)
    ensures forall i :: 0 <= i < |Zeros(k)| ==> Zeros(k)[i] == '0'
  {
    if k > 0 {
      ZerosAreAllZero(k - 1);
    }
  }

  lemma {:induction false} PrintWidth(n: nat)
    ensures n < 10 ==> |Print(n)| == 1
    ensures n < 100 ==> |Print(n)| <= 2
    ensures n < 1000 ==> |Print(n)| <= 3
    ensures n < 10000 ==> |Print(n)| <= 4
  {
    if n >= 10 {
      PrintWidth(n / 10);
    }
  }

  /** Four digits, or more where four do not suffice, with the number as their value. */
  lemma Print4Is(n: nat)
    ensures Value(Print4(n)) == n && (n < 10000 ==> |Print4(n)| == 4)
  {
    ValueOfZeros(4 - |Print(n)|, Print(n));
    ValueOfPrint(n);
    PrintWidth(n);
  }

  /** Two indices never share a padded name, whatever their width. */
  lemma Print4IsInjective(m: nat, n: nat)
    ensures Print4(m) == Print4(n) ==> m == n
  {
    ValueOfZeros(4 - |Print(m)|, Print(m));
    ValueOfZeros(4 - |Print(n)|, Print(n));
    ValueOfPrint(m);
    ValueOfPrint(n);
  }
}
