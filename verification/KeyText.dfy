/** The text keys that rollup rows are merged by: the fields joined with a NUL character. */
module KeyText {

  const NUL: char := '\0'

  function Join(fields: seq<string>, separator: char): string {
    if fields == [] then ""
    else if |fields| == 1 then fields[0]
    else fields[0] + [separator] + Join(fields[1..], separator)
  }

  predicate NoNul(fields: seq<string>) {
    forall i :: 0 <= i < |fields| ==> NUL !in fields[i]
  }

  lemma CutAtFirstNul(x: string, u: string, y: string, v: string)
    requires NUL !in x && NUL !in y && x + [NUL] + u == y + [NUL] + v
    ensures x == y && u == v
  {
    var s := x + [NUL] + u;
    assert s[|x|] == NUL && s[|y|] == NUL;
    assert s[..|x|] == x && s[..|y|] == y;
    assert |x| == |y|;
    assert u == s[|x| + 1..] == v;
  }

  /** Two field lists of one length with the same joined key are the same list, if no field contains NUL. */
  lemma {:induction false} JoinInjective(a: seq<string>, b: seq<string>)
    requires |a| == |b| && NoNul(a) && NoNul(b) && Join(a, NUL) == Join(b, NUL)
    ensures a == b
  {
    if |a| <= 1 {
    } else {
      CutAtFirstNul(a[0], Join(a[1..], NUL), b[0], Join(b[1..], NUL));
      JoinInjective(a[1..], b[1..]);
      assert a == [a[0]] + a[1..] && b == [b[0]] + b[1..];
    }
  }

  /** With a NUL inside a field the key no longer tells the fields apart. */
  lemma {:induction false} JoinAmbiguousWithNul()
    ensures ["a\0b", "c"] != ["a", "b\0c"] && Join(["a\0b", "c"], NUL) == Join(["a", "b\0c"], NUL)
  {
    assert ["a\0b", "c"][0] != ["a", "b\0c"][0];
    assert ["a\0b", "c"][1..] == ["c"] && ["a", "b\0c"][1..] == ["b\0c"];
    assert Join(["a\0b", "c"], NUL) == "a\0b" + [NUL] + "c" == "a\0b\0c";
    assert Join(["a", "b\0c"], NUL) == "a" + [NUL] + "b\0c" == "a\0b\0c";
  }

  function Digit(n: nat): char
    requires n < 10
  {
    ['0', '1', '2', '3', '4', '5', '6', '7', '8', '9'][n]
  }

  /** The decimal digits of a number, as `String(n)` prints them. */
  function Digits(n: nat): (s: string)
    ensures |s| >= 1 && '-' !in s && NUL !in s
  {
    if n < 10 then [Digit(n)] else Digits(n / 10) + [Digit(n % 10)]
  }

  function IntText(n: int): (s: string)
    ensures NUL !in s
  {
    if n < 0 then "-" + Digits(-n) else Digits(n)
  }

  lemma {:induction false} DigitsInjective(m: nat, n: nat)
    requires Digits(m) == Digits(n)
    ensures m == n
  {
    if m >= 10 && n >= 10 {
      assert Digits(m)[..|Digits(m)| - 1] == Digits(m / 10) && Digits(n)[..|Digits(n)| - 1] == Digits(n / 10);
      DigitsInjective(m / 10, n / 10);
      assert Digits(m)[|Digits(m)| - 1] == Digit(m % 10) && Digits(n)[|Digits(n)| - 1] == Digit(n % 10);
    }
  }

  lemma IntTextInjective(m: int, n: int)
    requires IntText(m) == IntText(n)
    ensures m == n
  {
    assert (IntText(m)[0] == '-') == (m < 0) && (IntText(n)[0] == '-') == (n < 0);
    if m < 0 {
      assert IntText(m)[1..] == Digits(-m) && IntText(n)[1..] == Digits(-n);
      DigitsInjective(-m, -n);
    } else {
      DigitsInjective(m, n);
    }
  }
}
