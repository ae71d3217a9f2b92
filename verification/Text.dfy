/** Text as the C++ sources see it: a std::string is a sequence of char, each char one byte. */
module Text {

  datatype Option<+T> = None | Some(value: T)

  /** The sequence s stands in t at position i. */
  predicate At<T(==)>(t: seq<T>, i: nat, s: seq<T>) {
    i + |s| <= |t| && t[i..i + |s|] == s
  }

  lemma AtSplit<T>(t: seq<T>, i: nat, a: seq<T>, b: seq<T>)
    ensures At(t, i, a + b) <==> At(t, i, a) && At(t, i + |a|, b)
  {
    if At(t, i, a + b) {
      assert t[i..i + |a|] == (a + b)[..|a|];
      assert t[i + |a|..i + |a| + |b|] == (a + b)[|a|..];
    }
  }

  lemma AtSplitThree<T>(t: seq<T>, i: nat, a: seq<T>, b: seq<T>, c: seq<T>)
    requires At(t, i, a + b + c)
    ensures At(t, i, a) && At(t, i + |a|, b + c)
  {
    assert a + b + c == a + (b + c);
    AtSplit(t, i, a, b + c);
  }

  lemma MoveFirst<T>(acc: seq<T>, s: seq<T>)
    requires s != []
    ensures acc + [s[0]] + s[1..] == acc + s
  {
  }

  lemma Regroup<T>(a: seq<T>, b: seq<T>, c: seq<T>)
    ensures a + b + c == a + (b + c)
  {
  }

  lemma AtStart<T>(t: seq<T>, s: seq<T>)
    requires s <= t
    ensures At(t, 0, s)
  {
  }

  // ----- decimal numbers: std::to_string of an unsigned integer -----

  predicate IsDigit(c: char) {
    '0' <= c <= '9'
  }

  function Digit(d: nat): (c: char)
    requires d < 10
    ensures IsDigit(c) && DigitValue(c) == d
  {
    ('0' as int + d) as char
  }

  function DigitValue(c: char): (d: nat)
    requires IsDigit(c)
    ensures d < 10
  {
    c as int - '0' as int
  }

  predicate AllDigits(s: string) {
    forall i :: 0 <= i < |s| ==> IsDigit(s[i])
  }

  function Decimal(n: nat): (s: string)
    ensures s != ""
    ensures AllDigits(s)
  {
    if n < 10 then [Digit(n)] else Decimal(n / 10) + [Digit(n % 10)]
  }

  /** The number a run of digits denotes. */
  function NumberOf(s: string): nat
    requires AllDigits(s)
  {
    if s == "" then 0 else 10 * NumberOf(s[..|s| - 1]) + DigitValue(s[|s| - 1])
  }

  lemma {:induction false} NumberOfDecimal(n: nat)
    ensures NumberOf(Decimal(n)) == n
  {
    var s := Decimal(n);
    if n < 10 {
      assert s[..0] == "";
    } else {
      NumberOfDecimal(n / 10);
      assert s[..|s| - 1] == Decimal(n / 10);
    }
  }

  /** Printing numbers never confuses two of them. */
  lemma DecimalIsInjective(m: nat, n: nat)
    requires Decimal(m) == Decimal(n)
    ensures m == n
  {
    NumberOfDecimal(m);
    NumberOfDecimal(n);
  }
}
