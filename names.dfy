/**
  The parameter names the components build with `'%i'` formatting
  (`'ilm-%i-%i-%i'`, `'ilm-xy-%i-%i'`, `'ilm-z-%i'`, `'c-%i'`), and the
  fact that distinct indices give distinct names, so that inserting them
  into an ordered dictionary never merges two parameters.
*/
module Names {

  predicate IsDigit(c: char) { '0' <= c <= '9' }

  function DigitChar(d: nat): (c: char)
    requires d < 10
    ensures IsDigit(c)
  {
    ['0', '1', '2', '3', '4', '5', '6', '7', '8', '9'][d]
  }

  function DigitValue(c: char): nat
    requires IsDigit(c)
  {
    (c as int - '0' as int) as nat
  }

  /** `'%i' % n` for a nonnegative `n`. */
  function NatStr(n: nat): (s: string)
    ensures |s| >= 1
    ensures forall i :: 0 <= i < |s| ==> IsDigit(s[i])
  {
    if n < 10 then [DigitChar(n)] else NatStr(n / 10) + [DigitChar(n % 10)]
  }

  /** Reading decimal digits back. */
  function ParseDigits(s: string): nat
    requires forall i :: 0 <= i < |s| ==> IsDigit(s[i])
  {
    if |s| == 0 then 0 else ParseDigits(s[..|s| - 1]) * 10 + DigitValue(s[|s| - 1])
  }

  lemma DigitRoundTrip(d: nat)
    requires d < 10
    ensures DigitValue(DigitChar(d)) == d
  {
  }

  /** Formatting then parsing gives the number back. */
  lemma {:induction false} NatStrRoundTrip(n: nat)
    ensures ParseDigits(NatStr(n)) == n
  {
    var s := NatStr(n);
    if n < 10 {
      DigitRoundTrip(n);
      assert s[..|s| - 1] == [];
    } else {
      NatStrRoundTrip(n / 10);
      DigitRoundTrip(n % 10);
      assert s[..|s| - 1] == NatStr(n / 10);
    }
  }

  lemma NatStrInjective(a: nat, b: nat)
    requires NatStr(a) == NatStr(b)
    ensures a == b
  {
    NatStrRoundTrip(a);
    NatStrRoundTrip(b);
  }

  /** The position of the first `sep` in `s`, or `|s|`. */
  function FindSeparator(s: string, sep: char): nat
  {
    if |s| == 0 then 0 else if s[0] == sep then 0 else 1 + FindSeparator(s[1..], sep)
  }

  lemma {:induction false} FirstSeparator(a: string, b: string, sep: char)
    requires forall i :: 0 <= i < |a| ==> a[i] != sep
    ensures FindSeparator(a + [sep] + b, sep) == |a|
  {
    if |a| > 0 {
      assert (a + [sep] + b)[1..] == a[1..] + [sep] + b;
      FirstSeparator(a[1..], b, sep);
    }
  }

  /** A separator that occurs in neither left part splits a joined string uniquely. */
  lemma SplitAtSeparator(a: string, b: string, c: string, d: string, sep: char)
    requires forall i :: 0 <= i < |a| ==> a[i] != sep
    requires forall i :: 0 <= i < |c| ==> c[i] != sep
    requires a + [sep] + b == c + [sep] + d
    ensures a == c && b == d
  {
    var x := a + [sep] + b;
    FirstSeparator(a, b, sep);
    FirstSeparator(c, d, sep);
    assert a == x[..|a|] == c;
    assert b == x[|a| + 1..] == d;
  }

  lemma NatStrNoDash(n: nat)
    ensures forall i :: 0 <= i < |NatStr(n)| ==> NatStr(n)[i] != '-'
  {
  }

  /** `'ilm-%i-%i-%i' % (i, j, k)`. */
  function Ilm3Name(i: nat, j: nat, k: nat): string
  {
    "ilm-" + (NatStr(i) + "-" + NatStr(j) + "-" + NatStr(k))
  }

  /** `'ilm-xy-%i-%i' % (i, j)`. */
  function IlmXYName(i: nat, j: nat): string
  {
    "ilm-xy-" + (NatStr(i) + "-" + NatStr(j))
  }

  /** `'ilm-z-%i' % k`. */
  function IlmZName(k: nat): string
  {
    "ilm-z-" + NatStr(k)
  }

  /** `'c-%i' % i`. */
  function CoeffName(i: nat): string
  {
    "c-" + NatStr(i)
  }

  /** Joining two decimal numbers with a dash is injective. */
  lemma {:induction false} PairInjective(i: nat, j: nat, i': nat, j': nat)
    requires NatStr(i) + "-" + NatStr(j) == NatStr(i') + "-" + NatStr(j')
    ensures i == i' && j == j'
  {
    NatStrNoDash(i);
    NatStrNoDash(i');
    SplitAtSeparator(NatStr(i), NatStr(j), NatStr(i'), NatStr(j'), '-');
    NatStrInjective(i, i');
    NatStrInjective(j, j');
  }

  /** Equal strings with a common prefix have equal remainders. */
  lemma StripPrefix(p: string, a: string, b: string)
    requires p + a == p + b
    ensures a == b
  {
    assert a == (p + a)[|p|..];
    assert b == (p + b)[|p|..];
  }

  /** Splitting at the first dash, then at the second. */
  lemma {:induction false} PrefixPairSplit(i: nat, j: nat, rest: string, i': nat, j': nat, rest': string)
    requires NatStr(i) + "-" + NatStr(j) + "-" + rest == NatStr(i') + "-" + NatStr(j') + "-" + rest'
    ensures i == i' && j == j' && rest == rest'
  {
    NatStrNoDash(i);
    NatStrNoDash(i');
    NatStrNoDash(j);
    NatStrNoDash(j');
    assert NatStr(i) + "-" + NatStr(j) + "-" + rest == NatStr(i') + ['-'] + (NatStr(j') + "-" + rest');
    assert NatStr(i) + "-" + NatStr(j) + "-" + rest == NatStr(i) + ['-'] + (NatStr(j) + "-" + rest);
    SplitAtSeparator(NatStr(i), NatStr(j) + "-" + rest, NatStr(i'), NatStr(j') + "-" + rest', '-');
    NatStrInjective(i, i');
    assert NatStr(j) + "-" + rest == NatStr(j) + ['-'] + rest;
    assert NatStr(j') + "-" + rest' == NatStr(j') + ['-'] + rest';
    SplitAtSeparator(NatStr(j), rest, NatStr(j'), rest', '-');
    NatStrInjective(j, j');
  }

  lemma {:induction false} Ilm3NameInjective(i: nat, j: nat, k: nat, i': nat, j': nat, k': nat)
    requires Ilm3Name(i, j, k) == Ilm3Name(i', j', k')
    ensures i == i' && j == j' && k == k'
  {
    var t := NatStr(i) + "-" + NatStr(j) + "-" + NatStr(k);
    var t' := NatStr(i') + "-" + NatStr(j') + "-" + NatStr(k');
    StripPrefix("ilm-", t, t');
    PrefixPairSplit(i, j, NatStr(k), i', j', NatStr(k'));
    NatStrInjective(k, k');
  }

  lemma {:induction false} IlmXYNameInjective(i: nat, j: nat, i': nat, j': nat)
    requires IlmXYName(i, j) == IlmXYName(i', j')
    ensures i == i' && j == j'
  {
    StripPrefix("ilm-xy-", NatStr(i) + "-" + NatStr(j), NatStr(i') + "-" + NatStr(j'));
    PairInjective(i, j, i', j');
  }

  lemma {:induction false} IlmZNameInjective(k: nat, k': nat)
    requires IlmZName(k) == IlmZName(k')
    ensures k == k'
  {
    assert NatStr(k) == IlmZName(k)[6..] == IlmZName(k')[6..] == NatStr(k');
    NatStrInjective(k, k');
  }

  /** The `xy` and `z` families never share a name. */
  lemma XYNameIsNotZName(i: nat, j: nat, k: nat)
    ensures IlmXYName(i, j) != IlmZName(k)
  {
    assert IlmXYName(i, j)[4] == 'x';
    assert IlmZName(k)[4] == 'z';
  }

  lemma {:induction false} CoeffNameInjective(i: nat, i': nat)
    requires CoeffName(i) == CoeffName(i')
    ensures i == i'
  {
    assert NatStr(i) == CoeffName(i)[2..] == CoeffName(i')[2..] == NatStr(i');
    NatStrInjective(i, i');
  }

  lemma CoeffNameIsNotSigma(i: nat)
    ensures CoeffName(i) != "sigma"
  {
    assert CoeffName(i)[0] == 'c';
  }
}
