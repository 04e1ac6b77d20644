/** IPv4 prefix matching for the network allowlist, in JavaScript's 32-bit integer operations, against
    the aligned blocks of section 3.1 of RFC 4632. Which texts it takes for addresses and prefix lengths
    is decided by `Number`. */
module Cidr {
  import opened Prelude
  import opened NumberText
  import opened KeyText

  const TWO32: int := 0x1_0000_0000
  const TWO31: int := 0x8000_0000

  // ------------------------------------------------------------ JavaScript's integers

  function ToUint32(x: int): (u: nat)
    ensures u < TWO32
  {
    x % TWO32
  }

  function ToInt32(x: int): int { if ToUint32(x) < TWO31 then ToUint32(x) else ToUint32(x) - TWO32 }

  /** `x << k`. */
  function ShiftLeft(x: int, k: nat): int { ToInt32(ToInt32(x) * Pow2(k % 32)) }

  /** Bitwise and of two naturals. */
  function And(x: nat, y: nat): nat {
    if x == 0 || y == 0 then 0 else (x % 2) * (y % 2) + 2 * And(x / 2, y / 2)
  }

  /** `x & y`. */
  function BitAnd(x: int, y: int): int { ToInt32(And(ToUint32(x), ToUint32(y))) }

  /** The signed 32-bit integer that agrees with `x` modulo 2^32. */
  lemma {:induction false} ToInt32IsSigned(x: int)
    ensures -0x8000_0000 <= ToInt32(x) < 0x8000_0000 && (ToInt32(x) - x) % 0x1_0000_0000 == 0
  {
    assert x == x / TWO32 * TWO32 + x % TWO32;
    var q := x / TWO32;
    if ToInt32(x) == x % TWO32 { assert ToInt32(x) - x == -q * TWO32; } else { assert ToInt32(x) - x == (-q - 1) * TWO32; }
    Multiple(-q);
    Multiple(-q - 1);
  }

  lemma Multiple(q: int)
    ensures q * TWO32 % TWO32 == 0
  {
  }

  // ------------------------------------------------------------ the source's functions

  /** The pieces between separators; a text without one is a single piece. */
  function Split(text: string, separator: char): (pieces: seq<string>)
    ensures |pieces| >= 1
  {
    if text == "" then [""]
    else if text[0] == separator then [""] + Split(text[1..], separator)
    else
      var pieces := Split(text[1..], separator);
      [[text[0]] + pieces[0]] + pieces[1..]
  }

  predicate Octets(parts: seq<string>) {
    |parts| == 4 && forall i :: 0 <= i < 4 ==> IntegerUpTo(parts[i], 255).Some?
  }

  function ToInt(addr: string): Option<nat> {
    var parts := Split(addr, '.');
    if !Octets(parts) then None
    else
      Some(FromOctets(
        IntegerUpTo(parts[0], 255).value, IntegerUpTo(parts[1], 255).value,
        IntegerUpTo(parts[2], 255).value, IntegerUpTo(parts[3], 255).value))
  }

  /** `reduce((acc, part) => (acc << 8) + part, 0) >>> 0`. */
  function FromOctets(p: int, q: int, r: int, s: int): nat {
    ToUint32(Push(Push(Push(Push(0, p), q), r), s))
  }

  function Push(acc: int, part: int): int { ShiftLeft(acc, 8) + part }

  function Mask(bits: nat): (m: nat)
    requires bits <= 32
    ensures m < TWO32
  {
    ToUint32(ShiftLeft(0xffff_ffff, 32 - bits))
  }

  function BitsOf(pieces: seq<string>): Option<nat> {
    if |pieces| < 2 then Some(32) else IntegerUpTo(pieces[1], 32)
  }

  function IpInCidr(ip: string, cidr: string): bool {
    var pieces := Split(cidr, '/');
    var bits, target, base := BitsOf(pieces), ToInt(ip), ToInt(pieces[0]);
    if target.None? || base.None? then false
    else if bits.None? || bits.value > 32 then false
    else if bits.value == 0 then true
    else BitAnd(target.value, Mask(bits.value)) == BitAnd(base.value, Mask(bits.value))
  }

  // ------------------------------------------------------------ what they mean

  /** The number of four octets. */
  function Address(a: int, b: int, c: int, d: int): int { a * 0x100_0000 + b * 0x1_0000 + c * 0x100 + d }

  predicate Without(pieces: seq<string>, separator: char) { forall i :: 0 <= i < |pieces| ==> separator !in pieces[i] }

  predicate FourOctets(ns: seq<nat>) { |ns| == 4 && forall i :: 0 <= i < 4 ==> ns[i] <= 255 }

  function AddressOf(ns: seq<nat>): int
    requires FourOctets(ns)
  {
    Address(ns[0], ns[1], ns[2], ns[3])
  }

  ghost predicate SpellEach(parts: seq<string>, ns: seq<nat>) {
    |parts| == 4 && FourOctets(ns) && forall i :: 0 <= i < 4 ==> Spells(parts[i], ns[i])
  }

  /** Four texts between points, each of which spells an octet of the address. */
  ghost predicate SpellsAddress(addr: string, address: int) {
    exists parts, ns :: SpellEach(parts, ns) && Without(parts, '.') && addr == Join(parts, '.') && address == AddressOf(ns)
  }

  /** An address, and behind a slash a text that spells the prefix length, 32 without one. What a second
      slash separates is not looked at. */
  ghost predicate SpellsRange(cidr: string, base: int, bits: nat) {
    exists pieces: seq<string> ::
      && |pieces| >= 1 && Without(pieces, '/') && cidr == Join(pieces, '/')
      && SpellsAddress(pieces[0], base)
      && bits <= 32 && (if |pieces| == 1 then bits == 32 else Spells(pieces[1], bits))
  }

  ghost predicate Matches(ip: string, cidr: string) {
    exists target: nat, base: nat, bits: nat ::
      SpellsAddress(ip, target) && SpellsRange(cidr, base, bits) && bits <= 32 && InBlock(target, base, bits)
  }

  // ------------------------------------------------------------ splitting

  lemma {:induction false} SplitJoins(text: string, separator: char)
    ensures Join(Split(text, separator), separator) == text && Without(Split(text, separator), separator)
    decreases |text|
  {
    if text != "" {
      var pieces := Split(text[1..], separator);
      SplitJoins(text[1..], separator);
      assert text == [text[0]] + text[1..];
      if text[0] == separator { JoinAfter("", pieces, separator); }
      else { JoinLonger(text[0], pieces, separator); }
    }
  }

  lemma JoinAfter(first: string, rest: seq<string>, separator: char)
    requires rest != []
    ensures Join([first] + rest, separator) == first + [separator] + Join(rest, separator)
  {
    assert ([first] + rest)[1..] == rest;
  }

  lemma JoinLonger(c: char, pieces: seq<string>, separator: char)
    requires pieces != []
    ensures Join([[c] + pieces[0]] + pieces[1..], separator) == [c] + Join(pieces, separator)
  {
    var more := [[c] + pieces[0]] + pieces[1..];
    assert more[1..] == pieces[1..] && more[0] == [c] + pieces[0];
    if |pieces| > 1 {
      hide Join;
      Regrouped(c, pieces[0], separator, Join(pieces[1..], separator));
    }
  }

  lemma Regrouped(c: char, first: string, separator: char, rest: string)
    ensures ([c] + first) + [separator] + rest == [c] + (first + [separator] + rest)
  {
  }

  lemma {:induction false} SplitOne(piece: string, separator: char)
    requires separator !in piece
    ensures Split(piece, separator) == [piece]
    decreases |piece|
  {
    if piece != "" {
      SplitOne(piece[1..], separator);
      assert [piece[0]] + piece[1..] == piece;
    }
  }

  lemma {:induction false} SplitFirst(piece: string, rest: string, separator: char)
    requires separator !in piece
    ensures Split(piece + [separator] + rest, separator) == [piece] + Split(rest, separator)
    decreases |piece|
  {
    var text := piece + [separator] + rest;
    if piece == "" {
      assert text[1..] == rest;
    } else {
      assert text[1..] == piece[1..] + [separator] + rest && text[0] == piece[0];
      SplitFirst(piece[1..], rest, separator);
      assert [piece[0]] + piece[1..] == piece;
    }
  }

  /** Pieces without the separator are what their joined text is split into. */
  lemma {:induction false} SplitOfJoin(pieces: seq<string>, separator: char)
    requires pieces != [] && Without(pieces, separator)
    ensures Split(Join(pieces, separator), separator) == pieces
    decreases |pieces|
  {
    if |pieces| == 1 {
      SplitOne(pieces[0], separator);
    } else {
      SplitOfJoin(pieces[1..], separator);
      SplitFirst(pieces[0], Join(pieces[1..], separator), separator);
    }
  }


  /** The first address of the block of size 2^(32-bits) that holds `base`. */
  function BlockStart(base: nat, bits: nat): int
    requires bits <= 32
  {
    base - base % Pow2(32 - bits)
  }

  predicate InBlock(target: nat, base: nat, bits: nat)
    requires bits <= 32
  {
    BlockStart(base, bits) <= target < BlockStart(base, bits) + Pow2(32 - bits)
  }

  lemma PowersUpTo32()
    ensures Pow2(8) == 256 && Pow2(31) == TWO31 && Pow2(32) == TWO32
  {
    assert Pow2(4) == 16;
    assert Pow2(8) == 256;
    assert Pow2(12) == 4096;
    assert Pow2(16) == 65536;
    assert Pow2(20) == 0x10_0000;
    assert Pow2(24) == 0x100_0000;
    assert Pow2(28) == 0x1000_0000;
    assert Pow2(31) == TWO31;
  }

  lemma MulAtLeast(e: int, m: int)
    requires m >= 1
    ensures (e >= 1 ==> e * m >= m) && (e <= -1 ==> e * m <= -m)
  {
  }

  lemma DivModUnique(x: int, m: int, q: int, r: int)
    requires m >= 1 && x == q * m + r && 0 <= r < m
    ensures x / m == q && x % m == r
  {
    var e := x / m - q;
    assert x == x / m * m + x % m;
    assert e * m == r - x % m;
    MulAtLeast(e, m);
  }

  /** A shift by a byte, then a byte: exact while the result fits 32 bits, even when it is negative as
      a signed number. */
  lemma ShiftByte(x: nat, acc: int, part: int)
    requires x < 0x100_0000 && ToUint32(acc) == x && 0 <= part <= 255
    ensures ToUint32(Push(acc, part)) == x * 256 + part
  {
    PowersUpTo32();
    assert ToInt32(acc) == x;
    var shifted := ToInt32(x * 256);
    assert shifted == x * 256 || shifted == x * 256 - TWO32;
  }

  /** An address is read exactly from what spells it, above 127.255.255.255 too. */
  lemma {:induction false} ToIntIsAddress(addr: string, address: nat)
    ensures ToInt(addr) == Some(address) <==> SpellsAddress(addr, address)
  {
    var parts := Split(addr, '.');
    SplitJoins(addr, '.');
    hide FromOctets, Split, Join, Without, IntegerUpTo, Spells;
    if Octets(parts) { OctetsSpell(parts, address, addr); }
    if SpellsAddress(addr, address) {
      var pieces, ns :| SpellEach(pieces, ns) && Without(pieces, '.') && addr == Join(pieces, '.') && address == AddressOf(ns);
      SplitOfJoin(pieces, '.');
      SpelledIsRead(pieces, ns);
    }
  }

  lemma SpelledIsRead(parts: seq<string>, ns: seq<nat>)
    requires SpellEach(parts, ns)
    ensures Octets(parts) && forall i :: 0 <= i < 4 ==> IntegerUpTo(parts[i], 255) == Some(ns[i])
    ensures FromOctets(ns[0], ns[1], ns[2], ns[3]) == AddressOf(ns)
  {
    hide IntegerUpTo, Spells;
    forall i | 0 <= i < 4 ensures IntegerUpTo(parts[i], 255) == Some(ns[i]) { IntegerExactly(parts[i], 255, ns[i]); }
    OctetsAreAddress(ns[0], ns[1], ns[2], ns[3]);
  }

  lemma OctetsSpell(parts: seq<string>, address: nat, addr: string)
    requires Octets(parts) && Without(parts, '.') && addr == Join(parts, '.')
    ensures var ns := ReadEach(parts);
      SpellEach(parts, ns) && FromOctets(ns[0], ns[1], ns[2], ns[3]) == AddressOf(ns)
      && (address == AddressOf(ns) ==> SpellsAddress(addr, address))
  {
    hide IntegerUpTo, Spells, Without, Join;
    var ns := ReadEach(parts);
    forall i | 0 <= i < 4 ensures ns[i] <= 255 && Spells(parts[i], ns[i]) { IntegerExactly(parts[i], 255, ns[i]); }
    OctetsAreAddress(ns[0], ns[1], ns[2], ns[3]);
  }

  function ReadEach(parts: seq<string>): (ns: seq<nat>)
    requires Octets(parts)
  {
    seq(4, i requires 0 <= i < 4 => IntegerUpTo(parts[i], 255).value)
  }

  lemma OctetsAreAddress(p: int, q: int, r: int, s: int)
    requires 0 <= p <= 255 && 0 <= q <= 255 && 0 <= r <= 255 && 0 <= s <= 255
    ensures FromOctets(p, q, r, s) == Address(p, q, r, s)
  {
    assert ToUint32(0) == 0;
    hide Push, ToUint32;
    ShiftByte(0, 0, p);
    ShiftByte(p, Push(0, p), q);
    ShiftByte(p * 256 + q, Push(Push(0, p), q), r);
    ShiftByte((p * 256 + q) * 256 + r, Push(Push(Push(0, p), q), r), s);
  }

  /** The mask is all ones above the host bits. */
  lemma {:induction false} MaskIsHighBits(bits: nat)
    requires 1 <= bits <= 32
    ensures Mask(bits) == TWO32 - Pow2(32 - bits)
  {
    PowersUpTo32();
    Pow2Monotone(32 - bits, 31);
    hide Pow2, ToUint32, ToInt32;
    ShiftOnes(32 - bits);
    MinusPower(Pow2(32 - bits));
  }

  lemma ShiftOnes(k: nat)
    requires k < 32
    ensures ShiftLeft(0xffff_ffff, k) == ToInt32(-1 * Pow2(k))
  {
    hide Pow2;
    assert ToInt32(0xffff_ffff) == -1 && k % 32 == k;
  }

  lemma MinusPower(p: int)
    requires 1 <= p <= TWO31
    ensures ToUint32(ToInt32(-1 * p)) == TWO32 - p
  {
  }

  lemma AndUnfolds(x: nat, y: nat)
    ensures And(x, y) == (x % 2) * (y % 2) + 2 * And(x / 2, y / 2)
  {
    if x == 0 {
      assert x % 2 == 0 && x / 2 == 0;
    } else if y == 0 {
      assert y % 2 == 0 && y / 2 == 0;
    }
  }

  lemma HalvesMod(x: nat, m: nat)
    requires m >= 1
    ensures x % (2 * m) == 2 * (x / 2 % m) + x % 2
  {
    var q, r := x / 2 / m, x / 2 % m;
    assert x / 2 == q * m + r;
    assert x == 2 * (x / 2) + x % 2;
    assert q * (2 * m) == 2 * (q * m);
    DivModUnique(x, 2 * m, q, 2 * r + x % 2);
  }

  lemma EvenHalves(h: int)
    ensures 2 * h / 2 == h && 2 * h % 2 == 0
  {
  }

  /** One bit of the induction: what holds of the halves holds of the whole. */
  lemma AndOneBit(x: nat, high: nat, low: nat)
    requires high >= low >= 1 && And(x / 2, high - low) == x / 2 - x / 2 % low
    ensures And(x, 2 * high - 2 * low) == x - x % (2 * low)
  {
    hide And;
    EvenHalves(high - low);
    AndUnfolds(x, 2 * (high - low));
    HalvesMod(x, low);
  }

  lemma AndAllOnes(x: nat, high: nat)
    requires high >= 1 && And(x / 2, high - 1) == x / 2
    ensures And(x, 2 * high - 1) == x
  {
    hide And;
    AndUnfolds(x, 2 * high - 1);
  }

  lemma {:induction false} AndLowOnes(x: nat, n: nat)
    requires x < Pow2(n)
    ensures And(x, Pow2(n) - 1) == x
    decreases n
  {
    hide And;
    if n == 0 {
      AndUnfolds(0, 0);
    } else {
      AndLowOnes(x / 2, n - 1);
      AndAllOnes(x, Pow2(n - 1));
    }
  }

  /** Anding with ones above bit `k` clears the bits below it. */
  lemma {:induction false} AndHighBits(x: nat, k: nat, n: nat)
    requires k <= n && x < Pow2(n)
    ensures Pow2(k) <= Pow2(n) && And(x, Pow2(n) - Pow2(k)) == x - x % Pow2(k)
    decreases n
  {
    Pow2Monotone(k, n);
    hide And;
    if k == n {
      hide Pow2;
      AndNothing(x, Pow2(n));
    } else if k == 0 {
      AndLowOnes(x, n);
      assert x % 1 == 0;
    } else {
      var high, low := Pow2(n - 1), Pow2(k - 1);
      assert Pow2(n) == 2 * high && Pow2(k) == 2 * low;
      hide Pow2;
      AndHighBits(x / 2, k - 1, n - 1);
      AndOneBit(x, high, low);
      assert Pow2(n) - Pow2(k) == 2 * high - 2 * low;
    }
  }

  lemma AndNothing(x: nat, m: nat)
    requires x < m
    ensures And(x, m - m) == x - x % m
  {
    hide Pow2;
    DivModUnique(x, m, 0, x);
  }

  lemma BitAndMask(x: nat, bits: nat)
    requires x < TWO32 && 1 <= bits <= 32
    ensures And(x, Mask(bits)) == BlockStart(x, bits) && 0 <= BlockStart(x, bits) < TWO32
  {
    PowersUpTo32();
    MaskIsHighBits(bits);
    AndHighBits(x, 32 - bits, 32);
    var m := Pow2(32 - bits);
    hide And, Mask, Pow2;
    assert 0 <= x % m <= x by { DivModBounds(x, m); }
  }

  lemma DivModBounds(x: nat, m: int)
    requires m >= 1
    ensures 0 <= x % m <= x && x - x % m == x / m * m
  {
    assert x == x / m * m + x % m;
    if x < m { DivModUnique(x, m, 0, x); }
  }

  /** Two numbers round down to one multiple exactly when the first is within a step above the second's. */
  lemma SameMultiple(t: nat, b: nat, m: int)
    requires m >= 1
    ensures t - t % m == b - b % m <==> b - b % m <= t < b - b % m + m
  {
    DivModBounds(t, m);
    DivModBounds(b, m);
    var q, p := t / m, b / m;
    assert t == q * m + t % m && 0 <= t % m < m;
    assert (q - p) * m == q * m - p * m;
    MulAtLeast(q - p, m);
  }

  /** An address matches exactly when both sides spell addresses, the prefix length spells an integer
      from 0 to 32, and the address lies in the aligned block of that size that holds the range. */
  lemma {:induction false} CidrIsBlock(ip: string, cidr: string)
    ensures IpInCidr(ip, cidr) <==> Matches(ip, cidr)
  {
    hide ToInt, Split, BitsOf, InBlock, BitAnd, Mask, SpellsAddress, SpellsRange;
    forall a: nat ensures ToInt(ip) == Some(a) <==> SpellsAddress(ip, a) { ToIntIsAddress(ip, a); }
    forall b: nat, bits: nat ensures SpellsRange(cidr, b, bits) <==>
        bits <= 32 && ToInt(Split(cidr, '/')[0]) == Some(b) && BitsOf(Split(cidr, '/')) == Some(bits) {
      RangeIsRead(cidr, b, bits);
    }
    ReadIsBlock(ip, cidr);
  }

  lemma RangeIsRead(cidr: string, base: nat, bits: nat)
    ensures var pieces := Split(cidr, '/');
      SpellsRange(cidr, base, bits) <==> bits <= 32 && ToInt(pieces[0]) == Some(base) && BitsOf(pieces) == Some(bits)
  {
    var pieces := Split(cidr, '/');
    SplitJoins(cidr, '/');
    hide ToInt, Split, Join, Without, SpellsAddress, IntegerUpTo, Spells;
    ToIntIsAddress(pieces[0], base);
    if |pieces| >= 2 { IntegerExactly(pieces[1], 32, bits); }
    if SpellsRange(cidr, base, bits) {
      var found: seq<string> :| |found| >= 1 && Without(found, '/') && cidr == Join(found, '/') && SpellsAddress(found[0], base)
        && bits <= 32 && (if |found| == 1 then bits == 32 else Spells(found[1], bits));
      SplitOfJoin(found, '/');
    }
  }

  lemma ReadIsBlock(ip: string, cidr: string)
    ensures var pieces := Split(cidr, '/'); var bits := BitsOf(pieces);
      var target, base := ToInt(ip), ToInt(pieces[0]);
      IpInCidr(ip, cidr) <==>
        target.Some? && base.Some? && bits.Some? && bits.value <= 32 && InBlock(target.value, base.value, bits.value)
  {
    var pieces := Split(cidr, '/');
    var bits, target, base := BitsOf(pieces), ToInt(ip), ToInt(pieces[0]);
    hide Split, BitsOf, InBlock, BitAnd, Mask;
    if target.Some? && base.Some? && bits.Some? && bits.value <= 32 {
      assert target.value < TWO32 && base.value < TWO32;
      hide ToInt;
      MaskedIsBlock(target.value, base.value, bits.value);
    }
  }

  lemma BitAndIs(x: nat, bits: nat)
    requires x < TWO32 && 1 <= bits <= 32
    ensures BitAnd(x, Mask(bits)) == ToInt32(BlockStart(x, bits)) && 0 <= BlockStart(x, bits) < TWO32
  {
    hide And, Mask, BlockStart, ToUint32, ToInt32;
    BitAndMask(x, bits);
    SmallStays(x);
    SmallStays(Mask(bits));
  }

  lemma SmallStays(x: nat)
    requires x < TWO32
    ensures ToUint32(x) == x
  {
  }

  lemma SameSigned(x: int, y: int)
    requires 0 <= x < TWO32 && 0 <= y < TWO32
    ensures ToInt32(x) == ToInt32(y) <==> x == y
  {
  }

  lemma MaskedIsBlock(t: nat, b: nat, bits: nat)
    requires bits <= 32 && t < TWO32 && b < TWO32
    ensures bits == 0 ==> InBlock(t, b, bits)
    ensures bits > 0 ==> (BitAnd(t, Mask(bits)) == BitAnd(b, Mask(bits)) <==> InBlock(t, b, bits))
  {
    if bits > 0 {
      BitAndIs(t, bits);
      BitAndIs(b, bits);
      SameMultiple(t, b, Pow2(32 - bits));
      SameSigned(BlockStart(t, bits), BlockStart(b, bits));
      hide BitAnd, Mask, Pow2, ToInt32;
    } else {
      PowersUpTo32();
      hide Pow2, BitAnd, Mask;
      DivModUnique(b, TWO32, 0, b);
    }
  }

  /** A shorter prefix holds everything a longer one does. */
  lemma {:induction false} ShorterPrefixHoldsMore(t: nat, b: nat, short: nat, long: nat)
    requires short <= long <= 32 && InBlock(t, b, long)
    ensures InBlock(t, b, short)
  {
    var m, k := Pow2(32 - long), Pow2(long - short);
    Pow2Adds(32 - long, long - short);
    hide Pow2;
    NestedBlock(t, b, m, k);
  }

  lemma NestedBlock(t: nat, b: nat, m: int, k: int)
    requires m >= 1 && k >= 1 && b - b % m <= t < b - b % m + m
    ensures m * k >= 1 && b - b % (m * k) <= t < b - b % (m * k) + m * k
  {
    var j, i := b / m / k, b / m % k;
    DivModBounds(b, m);
    assert 0 <= i < k && b / m == j * k + i;
    Distribute(j, k, i, m);
    FitsWithin(i, k, m);
    var low := i * m + b % m;
    assert b == j * (m * k) + low;
    DivModUnique(b, m * k, j, low);
  }

  lemma Distribute(j: int, k: int, i: int, m: int)
    ensures (j * k + i) * m == j * (m * k) + i * m
  {
  }

  lemma FitsWithin(i: int, k: int, m: int)
    requires 0 <= i < k && m >= 1
    ensures 0 <= i * m && i * m + m <= m * k
  {
    MulAtLeast(k - i, m);
    assert (k - i) * m == m * k - i * m;
  }

  // ------------------------------------------------------------ malformed texts

  /** Decimal digits without leading zeros. */
  ghost predicate Plain(s: string, top: nat) { exists n: nat :: n <= top && s == Digits(n) }

  ghost predicate AllPlain(parts: seq<string>) { |parts| == 4 && forall i :: 0 <= i < 4 ==> Plain(parts[i], 255) }

  function Quad(ns: seq<nat>): string
    requires FourOctets(ns)
  {
    Join([Digits(ns[0]), Digits(ns[1]), Digits(ns[2]), Digits(ns[3])], '.')
  }

  ghost predicate IsQuad(addr: string) { exists ns :: FourOctets(ns) && addr == Quad(ns) }

  ghost predicate IsRange(cidr: string) {
    IsQuad(cidr) || exists range, length :: IsQuad(range) && Plain(length, 32) && cidr == range + "/" + length
  }

  /** What the function's comment takes for well formed. */
  ghost predicate WellFormed(ip: string, cidr: string) { IsQuad(ip) && IsRange(cidr) }

  /** Some octet or the length is not plain, or a second slash follows. */
  ghost predicate OddlyWritten(ip: string, cidr: string) {
    var pieces := Split(cidr, '/');
    || !AllPlain(Split(ip, '.')) || !AllPlain(Split(pieces[0], '.'))
    || |pieces| > 2 || (|pieces| == 2 && !Plain(pieces[1], 32))
  }

  lemma PlainIsDigits(s: string, top: nat)
    requires Plain(s, top)
    ensures s != "" && AllDigits(s, 10) && '.' !in s && '/' !in s
  {
    var n: nat :| n <= top && s == Digits(n);
    DigitsAreDigits(n);
    forall i | 0 <= i < |s| ensures s[i] != '.' && s[i] != '/' { assert IsDigit(s[i], 10); }
  }

  lemma QuadIsPlain(addr: string)
    ensures IsQuad(addr) <==> AllPlain(Split(addr, '.'))
    ensures IsQuad(addr) ==> '/' !in addr
  {
    var parts := Split(addr, '.');
    SplitJoins(addr, '.');
    hide Split, Digits;
    if IsQuad(addr) {
      var ns :| FourOctets(ns) && addr == Quad(ns);
      var pieces := [Digits(ns[0]), Digits(ns[1]), Digits(ns[2]), Digits(ns[3])];
      forall i | 0 <= i < 4 ensures Plain(pieces[i], 255) && '.' !in pieces[i] && '/' !in pieces[i] {
        assert pieces[i] == Digits(ns[i]);
        PlainIsDigits(pieces[i], 255);
      }
      SplitOfJoin(pieces, '.');
      JoinHolds(pieces, '.', '/');
    }
    if AllPlain(parts) {
      var ns := NumbersOf(parts);
      assert parts == [Digits(ns[0]), Digits(ns[1]), Digits(ns[2]), Digits(ns[3])];
      assert addr == Quad(ns);
    }
  }

  lemma NumbersOf(parts: seq<string>) returns (ns: seq<nat>)
    requires AllPlain(parts)
    ensures FourOctets(ns) && forall i :: 0 <= i < 4 ==> parts[i] == Digits(ns[i])
  {
    var a: nat :| a <= 255 && parts[0] == Digits(a);
    var b: nat :| b <= 255 && parts[1] == Digits(b);
    var c: nat :| c <= 255 && parts[2] == Digits(c);
    var d: nat :| d <= 255 && parts[3] == Digits(d);
    ns := [a, b, c, d];
  }

  lemma {:induction false} JoinHolds(pieces: seq<string>, separator: char, c: char)
    requires c != separator && forall i :: 0 <= i < |pieces| ==> c !in pieces[i]
    ensures c !in Join(pieces, separator)
    decreases |pieces|
  {
    if |pieces| > 1 { JoinHolds(pieces[1..], separator, c); }
  }

  lemma RangeIsPlain(cidr: string)
    ensures var pieces := Split(cidr, '/');
      IsRange(cidr) <==> AllPlain(Split(pieces[0], '.')) && |pieces| <= 2 && (|pieces| == 2 ==> Plain(pieces[1], 32))
  {
    var pieces := Split(cidr, '/');
    SplitJoins(cidr, '/');
    QuadIsPlain(pieces[0]);
    hide AllPlain, IsQuad;
    if IsRange(cidr) {
      if IsQuad(cidr) {
        QuadIsPlain(cidr);
        SplitOne(cidr, '/');
      } else {
        var range, length :| IsQuad(range) && Plain(length, 32) && cidr == range + "/" + length;
        QuadIsPlain(range);
        PlainIsDigits(length, 32);
        hide Plain;
        SplitTwo(range, length, '/');
      }
    }
    if IsQuad(pieces[0]) && |pieces| <= 2 && (|pieces| == 2 ==> Plain(pieces[1], 32)) {
      hide Plain, Split;
      assert cidr == if |pieces| == 2 then pieces[0] + "/" + pieces[1] else pieces[0];
    }
  }

  lemma SplitTwo(first: string, second: string, separator: char)
    requires separator !in first && separator !in second
    ensures Split(first + [separator] + second, separator) == [first, second]
  {
    SplitFirst(first, second, separator);
    SplitOne(second, separator);
  }

  /** What is not well formed is matched all the same exactly when it spells a match and is written
      oddly: the promise of false for anything malformed fails on those texts and on no others. */
  lemma {:induction false} MalformedMatchesExactlyWhen(ip: string, cidr: string)
    ensures IpInCidr(ip, cidr) && !WellFormed(ip, cidr) <==> Matches(ip, cidr) && OddlyWritten(ip, cidr)
  {
    hide IpInCidr, Matches, AllPlain, Split, Plain, IsQuad, IsRange;
    CidrIsBlock(ip, cidr);
    QuadIsPlain(ip);
    RangeIsPlain(cidr);
  }

  /** Well-formed texts spell what they look like. */
  lemma {:induction false} QuadIsRead(ns: seq<nat>)
    requires FourOctets(ns)
    ensures ToInt(Quad(ns)) == Some(AddressOf(ns))
  {
    hide Digits, IntegerUpTo, Join, ToInt, AddressOf;
    PrintedAreRead([Digits(ns[0]), Digits(ns[1]), Digits(ns[2]), Digits(ns[3])], ns);
  }

  lemma PrintedAreRead(parts: seq<string>, ns: seq<nat>)
    requires |parts| == 4 && FourOctets(ns) && forall i :: 0 <= i < 4 ==> parts[i] == Digits(ns[i])
    ensures ToInt(Join(parts, '.')) == Some(AddressOf(ns))
  {
    hide Digits, IntegerUpTo, Join, ToInt, AddressOf;
    forall i | 0 <= i < 4 ensures '.' !in parts[i] && IntegerUpTo(parts[i], 255) == Some(ns[i]) { PartIsRead(ns[i]); }
    PartsAreRead(parts, ns);
  }

  lemma PartIsRead(n: nat)
    requires n <= 255
    ensures '.' !in Digits(n) && IntegerUpTo(Digits(n), 255) == Some(n)
  {
    hide Digits, IntegerUpTo;
    assert Plain(Digits(n), 255);
    PlainIsDigits(Digits(n), 255);
    DigitsAreRead(n, 255);
  }

  lemma PartsAreRead(parts: seq<string>, ns: seq<nat>)
    requires |parts| == 4 && FourOctets(ns) && Without(parts, '.')
    requires forall i :: 0 <= i < 4 ==> IntegerUpTo(parts[i], 255) == Some(ns[i])
    ensures ToInt(Join(parts, '.')) == Some(AddressOf(ns))
  {
    SplitOfJoin(parts, '.');
    hide IntegerUpTo, Join, Split, FromOctets;
    OctetsAreAddress(ns[0], ns[1], ns[2], ns[3]);
  }

  /** A prefix length of white space, or none behind the slash, is read as 0, and the range then holds
      every address. */
  lemma {:induction false} EmptyPrefixMatchesAll(ip: string, range: string, blank: string)
    requires AllSpace(blank) && '/' !in range && ToInt(ip).Some? && ToInt(range).Some?
    ensures IpInCidr(ip, range + "/" + blank)
  {
    hide ToInt, IntegerUpTo, AllSpace;
    assert '/' !in blank by { NoSlash(blank); }
    SplitTwo(range, blank, '/');
    BlankIsZero(blank);
    IntegerExactly(blank, 32, 0);
  }

  lemma NoSlash(blank: string)
    requires AllSpace(blank)
    ensures '/' !in blank
  {
  }

  // ------------------------------------------------------------ inputs that fail

  /** Each of these texts is read as a number, and none of them is plain. */
  lemma OddNumbers()
    ensures Spells("", 0) && Spells(" ", 0) && Spells("0x0a", 10) && Spells(" 10", 10)
    ensures Spells("1e1", 10) && Spells("0x8", 8) && Spells("8.0", 8)
  {
    BlankIsZero("");
    BlankIsZero(" ");
    CodedTen();
    SpacedTen();
    PoweredTen();
    CodedEight();
    PointEight();
  }

  lemma CodedTen()
    ensures Spells("0x0a", 10)
  {
    assert Whole("", 16) == 0;
    assert "0a"[..1] == "0" && "0"[..0] == "" && Whole("0", 16) == 0;
    assert Whole("0a", 16) == 10;
    SpelledExactly("0x0a", "", Coded('x', "0a"), "", 10);
  }

  lemma CodedEight()
    ensures Spells("0x8", 8)
  {
    assert "8"[..0] == "" && Whole("8", 16) == 8;
    SpelledExactly("0x8", "", Coded('x', "8"), "", 8);
  }

  lemma TenIsTen()
    ensures AllDigits("10", 10) && Whole("10", 10) == 10
  {
    assert "10"[..1] == "1" && "1"[..0] == "" && Whole("1", 10) == 1;
  }

  lemma SpacedTen()
    ensures Spells(" 10", 10)
  {
    TenIsTen();
    WholeNumeral("10");
    hide Print, Value, Grammatical;
    SpelledExactly(" 10", " ", Decimal("", "10", None, None), "", 10);
  }

  lemma PoweredTen()
    ensures Spells("1e1", 10)
  {
    var numeral := Decimal("", "1", None, Some(Exponent('e', "", "1")));
    assert "1"[..0] == "" && Whole("1", 10) == 1;
    assert "1" + "" == "1" && Ten(1) == 10.0;
    assert Print(numeral) == "1e1";
    SpelledExactly("1e1", "", numeral, "", 10);
  }

  lemma PointEight()
    ensures Spells("8.0", 8)
  {
    var numeral := Decimal("", "8", Some("0"), None);
    ValueOfPointEight();
    assert Print(numeral) == "8.0";
    hide Value, Grammatical, Print;
    SpelledExactly("8.0", "", numeral, "", 8);
  }

  lemma ValueOfPointEight()
    ensures Grammatical(Decimal("", "8", Some("0"), None)) && Value(Decimal("", "8", Some("0"), None)) == Some(8.0)
  {
    assert "80"[..1] == "8" && "8"[..0] == "" && Whole("8", 10) == 8 && Whole("80", 10) == 80;
    assert "8" + FractionOf(Some("0")) == "80" && Ten(0) == 1.0 && Ten(-1) == 0.1;
  }

  /** Signs, points, exponents and radixes mean what they should: zero may be negative, one may not, a
      power may be too, and the three radixes are 16, 8 and 2. */
  lemma {:induction false} NumbersInAllShapes()
    ensures Spells("-0", 0) && Spells("+7", 7) && Spells("70e-1", 7) && Spells(".5E+1", 5) && Spells("0b11", 3) && Spells("0O17", 15)
    ensures IntegerUpTo("-1", 255) == None
  {
    OneDigits();
    SignedZero();
    SignedSeven();
    LoweredSeven();
    RaisedFive();
    CodedThree();
    CodedFifteen();
    MinusOne();
  }

  lemma OneDigits()
    ensures Whole("", 10) == 0 && Whole("0", 10) == 0 && Whole("1", 10) == 1 && Whole("5", 10) == 5 && Whole("7", 10) == 7
    ensures Whole("", 2) == 0 && Whole("1", 2) == 1 && Whole("", 8) == 0 && Whole("1", 8) == 1
  {
    assert "0"[..0] == "" && "1"[..0] == "" && "5"[..0] == "" && "7"[..0] == "";
  }

  lemma SignedZero()
    ensures Spells("-0", 0)
  {
    OneDigits();
    var numeral := Decimal("-", "0", None, None);
    assert "0" + "" == "0" && Ten(0) == 1.0;
    assert Print(numeral) == "-0";
    SpelledExactly("-0", "", numeral, "", 0);
  }

  lemma SignedSeven()
    ensures Spells("+7", 7)
  {
    OneDigits();
    var numeral := Decimal("+", "7", None, None);
    assert "7" + "" == "7" && Ten(0) == 1.0;
    assert Print(numeral) == "+7";
    SpelledExactly("+7", "", numeral, "", 7);
  }

  lemma LoweredSeven()
    ensures Spells("70e-1", 7)
  {
    OneDigits();
    var numeral := Decimal("", "70", None, Some(Exponent('e', "-", "1")));
    assert "70"[..1] == "7" && Whole("70", 10) == 70;
    assert "70" + "" == "70" && Ten(0) == 1.0 && Ten(-1) == 0.1;
    assert Print(numeral) == "70e-1";
    SpelledExactly("70e-1", "", numeral, "", 7);
  }

  lemma RaisedFive()
    ensures Spells(".5E+1", 5)
  {
    OneDigits();
    var numeral := Decimal("", "", Some("5"), Some(Exponent('E', "+", "1")));
    assert "" + "5" == "5" && Ten(0) == 1.0;
    assert Print(numeral) == ".5E+1";
    SpelledExactly(".5E+1", "", numeral, "", 5);
  }

  lemma CodedThree()
    ensures Spells("0b11", 3)
  {
    OneDigits();
    assert "11"[..1] == "1" && Whole("11", 2) == 3;
    SpelledExactly("0b11", "", Coded('b', "11"), "", 3);
  }

  lemma CodedFifteen()
    ensures Spells("0O17", 15)
  {
    OneDigits();
    assert "17"[..1] == "1" && Whole("17", 8) == 15;
    SpelledExactly("0O17", "", Coded('O', "17"), "", 15);
  }

  lemma MinusOne()
    ensures IntegerUpTo("-1", 255) == None
  {
    var numeral := Decimal("-", "1", None, None);
    ValueOfMinusOne();
    assert Print(numeral) == "-1";
    WrittenAlone("-1", numeral);
    ReadExactly("-1", numeral);
    assert Number("-1") == Some(-1.0) by { hide Read, Trim, Value; }
    hide Number;
    NotBelow(-1.0);
  }

  lemma WrittenAlone(text: string, numeral: Numeral)
    requires Grammatical(numeral) && text == Print(numeral)
    ensures Written(text, numeral)
  {
    var none := "";
    assert AllSpace(none) && text == none + Print(numeral) + none;
  }

  lemma ValueOfMinusOne()
    ensures Grammatical(Decimal("-", "1", None, None)) && Value(Decimal("-", "1", None, None)) == Some(-1.0)
  {
    OneDigits();
    assert "1" + FractionOf(None) == "1" && Ten(0) == 1.0;
  }

  lemma NotBelow(v: real)
    requires v <= -1.0
    ensures (v + 0.5).Floor < 0
  {
  }

  /** Each of these malformed addresses is taken for 10.0.0.1. */
  lemma {:induction false} MalformedAddresses(addr: string)
    requires addr in {"10..0.1", "0x0a.0.0.1", " 10.0.0.1", "1e1.0.0.1"}
    ensures ToInt(addr) == Some(Address(10, 0, 0, 1)) && !IsQuad(addr)
  {
    OddNumbers();
    PlainNumbers();
    hide Spells;
    if addr == "10..0.1" {
      TakenFor("10", "", 0, addr);
    } else if addr == "0x0a.0.0.1" {
      TakenFor("0x0a", "0", 1, addr);
    } else if addr == " 10.0.0.1" {
      TakenFor(" 10", "0", 0, addr);
    } else {
      TakenFor("1e1", "0", 1, addr);
    }
  }

  lemma PlainNumbers()
    ensures Spells("10", 10) && Spells("0", 0) && Spells("1", 1)
  {
    assert Digits(10) == "10" && Digits(0) == "0" && Digits(1) == "1";
    hide Digits, IntegerUpTo, Spells;
    forall n: nat | n <= 255 ensures Spells(Digits(n), n) { DigitsAreRead(n, 255); IntegerExactly(Digits(n), 255, n); }
  }

  lemma TakenFor(first: string, second: string, odd: nat, addr: string)
    requires Spells(first, 10) && Spells(second, 0) && '.' !in first && '.' !in second
    requires addr == first + "." + second + ".0.1"
    requires second == "" || (odd < |first| && !IsDigit(first[odd], 10))
    ensures ToInt(addr) == Some(Address(10, 0, 0, 1)) && !IsQuad(addr)
  {
    var parts, ns := [first, second, "0", "1"], [10, 0, 0, 1];
    JoinFour(first, second);
    SpellFour(first, second);
    assert parts[0] == first && parts[1] == second && AddressOf(ns) == Address(10, 0, 0, 1);
    hide *;
    OddPart(parts, odd);
    OddQuad(parts, ns, addr);
  }

  lemma SpellFour(first: string, second: string)
    requires Spells(first, 10) && Spells(second, 0) && '.' !in first && '.' !in second
    ensures SpellEach([first, second, "0", "1"], [10, 0, 0, 1]) && Without([first, second, "0", "1"], '.')
  {
    PlainNumbers();
    hide Spells;
  }

  lemma OddQuad(parts: seq<string>, ns: seq<nat>, addr: string)
    requires SpellEach(parts, ns) && Without(parts, '.') && addr == Join(parts, '.') && !AllPlain(parts)
    ensures ToInt(addr) == Some(AddressOf(ns)) && !IsQuad(addr)
  {
    hide Spells, Without, Join, ToInt, AllPlain;
    assert SpellsAddress(addr, AddressOf(ns));
    ToIntIsAddress(addr, AddressOf(ns));
    SplitOfJoin(parts, '.');
    QuadIsPlain(addr);
  }

  lemma OddPart(parts: seq<string>, odd: nat)
    requires |parts| == 4 && (parts[1] == "" || (odd < |parts[0]| && !IsDigit(parts[0][odd], 10)))
    ensures !AllPlain(parts)
  {
    hide Plain;
    if AllPlain(parts) {
      PlainIsDigits(parts[0], 255);
      PlainIsDigits(parts[1], 255);
    }
  }

  lemma JoinFour(first: string, second: string)
    ensures Join([first, second, "0", "1"], '.') == first + "." + second + ".0.1"
  {
    var ends: seq<string> := ["0", "1"];
    assert ends[1..] == ["1"] && Join(["1"], '.') == "1";
    assert Join(ends, '.') == "0.1";
    assert [second, "0", "1"][1..] == ends && [first, second, "0", "1"][1..] == [second, "0", "1"];
    hide Join;
    EndsRegroup(first, second, "0.1");
  }

  lemma EndsRegroup(first: string, second: string, ends: string)
    ensures first + "." + (second + "." + ends) == first + "." + second + ("." + ends)
  {
  }

  /** And these prefix lengths for 0 and 8. */
  lemma {:induction false} MalformedLengths(length: string, bits: nat)
    requires (length == "" && bits == 0) || (length == " " && bits == 0) || (length == "0x8" && bits == 8) || (length == "8.0" && bits == 8)
    ensures BitsOf(["10.0.0.0", length]) == Some(bits) && !Plain(length, 32)
  {
    OddNumbers();
    hide Spells;
    IntegerExactly(length, 32, bits);
    if Plain(length, 32) { PlainIsDigits(length, 32); }
  }

  lemma BlankIsZero(blank: string)
    requires AllSpace(blank)
    ensures Spells(blank, 0)
  {
    assert blank + Print(Blank) + "" == blank;
    SpelledExactly(blank, blank, Blank, "", 0);
  }
}
