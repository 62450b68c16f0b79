/**
  Decimal rendering of natural numbers, as a JavaScript template literal
  such as `equip-${index}` or `user-${Date.now()}` turns a non-negative
  integer into text. The record ids of the store are built this way, so
  their distinctness rests on this rendering being injective.
 */
module Decimal {

  /** True iff every character of `s` is one of '0'..'9'. */
  predicate IsDigits(s: string) {
    forall i :: 0 <= i < |s| ==> '0' <= s[i] <= '9'
  }

  function DigitChar(d: nat): (c: char)
    requires d < 10
    ensures '0' <= c <= '9'
  {
    ('0' as int + d) as char
  }

  function DigitValue(c: char): (d: nat)
    requires '0' <= c <= '9'
    ensures d < 10
  {
    c as int - '0' as int
  }

  /** The decimal numeral of `n`: at least one digit, and no leading zero
      unless `n` is zero itself. */
  function Show(n: nat): (s: string)
    ensures |s| >= 1 && IsDigits(s)
    ensures s[0] == '0' ==> n == 0
    decreases n
  {
    if n < 10 then [DigitChar(n)] else Show(n / 10) + [DigitChar(n % 10)]
  }

  /** The value a digit string denotes; the reference reading of `Show`. */
  function Parse(s: string): nat
    requires IsDigits(s)
  {
    if s == [] then 0 else 10 * Parse(s[..|s| - 1]) + DigitValue(s[|s| - 1])
  }

  /** Reading a rendered number back gives the number. */
  lemma {:induction false} ParseShow(n: nat)
    ensures Parse(Show(n)) == n
  {
    var s := Show(n);
    if n < 10 {
      assert s[..|s| - 1] == [];
    } else {
      assert s[..|s| - 1] == Show(n / 10);
      ParseShow(n / 10);
    }
  }

  /** Two numbers render alike exactly when they are equal. */
  lemma ShowInjective(a: nat, b: nat)
    ensures Show(a) == Show(b) <==> a == b
  {
    if Show(a) == Show(b) {
      ParseShow(a);
      ParseShow(b);
    }
  }

  /** A fixed prefix followed by a rendered number identifies the number. */
  lemma PrefixedShowInjective(prefix: string, a: nat, b: nat)
    ensures prefix + Show(a) == prefix + Show(b) <==> a == b
  {
    if prefix + Show(a) == prefix + Show(b) {
      assert Show(a) == (prefix + Show(a))[|prefix|..];
      assert Show(b) == (prefix + Show(b))[|prefix|..];
      ShowInjective(a, b);
    }
  }

  /** A rendered number never equals a digit string with a leading zero
      and more than one digit (such as the "001" of "user-001"). */
  lemma ShowNeverPadded(prefix: string, n: nat, padded: string)
    requires |padded| >= 2 && padded[0] == '0'
    ensures prefix + Show(n) != prefix + padded
  {
    assert Show(0) == "0";
    if |Show(n)| == |padded| {
      assert n != 0;
      assert (prefix + Show(n))[|prefix|] == Show(n)[0] != '0';
      assert (prefix + padded)[|prefix|] == '0';
    }
  }
}
