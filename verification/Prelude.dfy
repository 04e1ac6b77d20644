/** Small types, the trimming of texts and the powers of two that several parts of the model share. */
module Prelude {

  datatype Option<+T> = None | Some(value: T)

  /** What became of one awaited database statement.
      `AckLost` committed, but its caller saw an error. */
  datatype Write = Committed | Refused | AckLost

  function Min(a: int, b: int): int { if a < b then a else b }

  function Max(a: int, b: int): int { if a < b then b else a }

  /** A number that is not taken. */
  lemma {:induction false} UnusedNat(taken: set<nat>) returns (r: nat)
    ensures r !in taken && forall k :: k in taken ==> k < r
    decreases taken
  {
    if taken == {} { r := 0; } else {
      var k :| k in taken;
      var above := UnusedNat(taken - {k});
      r := if above > k then above else k + 1;
      assert forall j :: j in taken ==> j == k || j in taken - {k};
    }
  }

  /** White space, as `trim` sees it. */
  predicate IsSpace(c: char) {
    var u := c as int;
    (0x9 <= u <= 0xD) || u == 0x20 || u == 0xA0 || u == 0x1680 || (0x2000 <= u <= 0x200A)
    || u == 0x2028 || u == 0x2029 || u == 0x202F || u == 0x205F || u == 0x3000 || u == 0xFEFF
  }

  function TrimStart(s: string): string {
    if s != "" && IsSpace(s[0]) then TrimStart(s[1..]) else s
  }

  function TrimEnd(s: string): string {
    if s != "" && IsSpace(s[|s| - 1]) then TrimEnd(s[..|s| - 1]) else s
  }

  function Trim(s: string): string { TrimEnd(TrimStart(s)) }

  function Pow2(n: nat): (p: nat)
    ensures p >= 1
  {
    if n == 0 then 1 else 2 * Pow2(n - 1)
  }

  lemma {:induction false} Pow2Monotone(m: nat, n: nat)
    requires m <= n
    ensures Pow2(m) <= Pow2(n)
    decreases n - m
  {
    if m < n { Pow2Monotone(m, n - 1); }
  }

  lemma {:induction false} Pow2Adds(m: nat, n: nat)
    ensures Pow2(m + n) == Pow2(m) * Pow2(n)
    decreases n
  {
    if n > 0 { Pow2Adds(m, n - 1); }
  }
}
