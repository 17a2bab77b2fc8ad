/**
  Base 128 varints: the backwards-placed writer, the size formula and the reader of
  the generated SudoError codec.
 */
module Varint {
  import opened Machine

  datatype WireError =
    | IntOverflow
    | UnexpectedEof
    | InvalidLength
    | UnexpectedEndGroup
    | EndGroupForNonGroup
    | IllegalTag
    | WrongWireType
    | IllegalWireType

  // ---------------------------------------------------------------- bits

  /** Bitwise or, bit by bit from the lowest. */
  function Or(a: nat, b: nat): (r: nat)
    decreases a + b
  {
    if a == 0 then b
    else if b == 0 then a
    else 2 * Or(a / 2, b / 2) + (if a % 2 == 1 || b % 2 == 1 then 1 else 0)
  }

  /** Bit `i` of `x`. */
  predicate Bit(x: nat, i: nat) {
    if i == 0 then x % 2 == 1 else Bit(x / 2, i - 1)
  }

  /** A bit of the result is set exactly when it is set in one of the operands. */
  lemma {:induction false} OrBits(a: nat, b: nat, i: nat)
    ensures Bit(Or(a, b), i) <==> Bit(a, i) || Bit(b, i)
    decreases i
  {
    if a == 0 || b == 0 {
      ZeroBits(i);
    } else if i > 0 {
      OrBits(a / 2, b / 2, i - 1);
    }
  }

  lemma {:induction false} ZeroBits(i: nat)
    ensures !Bit(0, i)
    decreases i
  {
    if i > 0 {
      ZeroBits(i - 1);
    }
  }

  function Pow2(j: nat): (r: nat)
    ensures r >= 1
  {
    if j == 0 then 1 else 2 * Pow2(j - 1)
  }

  /** The or of numbers without a common bit is their sum. */
  lemma {:induction false} OrIsSum(a: nat, b: nat, j: nat)
    requires a < Pow2(j) && b % Pow2(j) == 0
    ensures Or(a, b) == a + b
    decreases j
  {
    if j > 0 && a > 0 && b > 0 {
      var p := Pow2(j - 1);
      var q := b / (2 * p);
      assert b == (2 * p) * q;
      assert b == 2 * (p * q) by { MulAssoc(2, p, q); }
      ModUnique(b / 2, q, 0, p) by { assert p * q == q * p; }
      OrIsSum(a / 2, b / 2, j - 1);
    }
  }

  // ---------------------------------------------------------------- writing

  /** The minimal base-128 spelling of `v`, least significant group first. */
  function Spell(v: nat): (r: seq<Byte>)
    ensures |r| >= 1
  {
    if v < 128 then [v] else [v % 128 + 128] + Spell(v / 128)
  }

  /** math/bits.Len64: the number of bits needed for `x`. */
  function Len64(x: nat): (r: nat) {
    if x == 0 then 0 else 1 + Len64(x / 2)
  }

  /** sovCwerrors: the size formula, `(Len64(x|1) + 6) / 7`. */
  function Sov(x: nat): (r: nat) {
    (Len64(Or(x, 1)) + 6) / 7
  }

  lemma Len64SevenBits(x: nat)
    requires x >= 128
    ensures Len64(x) == 7 + Len64(x / 128)
  {
    var a := x / 2;
    var b := a / 2;
    var c := b / 2;
    var d := c / 2;
    var e := d / 2;
    var f := e / 2;
    var g := f / 2;
    assert g == x / 128;
    assert Len64(x) == 1 + Len64(a) && Len64(a) == 1 + Len64(b) && Len64(b) == 1 + Len64(c);
    assert Len64(c) == 1 + Len64(d) && Len64(d) == 1 + Len64(e) && Len64(e) == 1 + Len64(f);
    assert Len64(f) == 1 + Len64(g);
  }

  lemma OrOneKeepsLen(x: nat)
    requires x > 0
    ensures Len64(Or(x, 1)) == Len64(x)
  {
    assert Or(x, 1) == 2 * (x / 2) + 1;
  }

  lemma SmallLen(x: nat)
    requires 0 < x < 128
    ensures 1 <= Len64(x) <= 7
  {
    var a := x / 2;
    var b := a / 2;
    var c := b / 2;
    var d := c / 2;
    var e := d / 2;
    var f := e / 2;
    assert f < 2 && f / 2 == 0;
    assert Len64(f) <= 1;
    assert Len64(e) <= 2 && Len64(d) <= 3 && Len64(c) <= 4;
    assert Len64(b) <= 5 && Len64(a) <= 6;
  }

  /** The closed size formula is exactly the number of bytes the writer needs. */
  lemma {:induction false} SovIsLength(v: nat)
    ensures Sov(v) == |Spell(v)|
  {
    if v < 128 {
      assert Or(v, 1) == 2 * (v / 2) + 1;
      SmallLen(Or(v, 1));
    } else {
      SovIsLength(v / 128);
      OrOneKeepsLen(v);
      OrOneKeepsLen(v / 128);
      Len64SevenBits(v);
    }
  }

  /**
    encodeVarintCwerrors: reserves Sov(v) bytes below `offset`, fills them forwards and
    returns the index of the first. Nothing else in the buffer changes.
   */
  method EncodeVarint(a: array<Byte>, offset: nat, v: nat) returns (base: nat)
    requires Sov(v) <= offset <= a.Length
    modifies a
    ensures base == offset - Sov(v)
    ensures forall k :: 0 <= k < base ==> a[k] == old(a[k])
    ensures a[base..] == Spell(v) + old(a[offset..])
  {
    hide Sov, Spell;
    SovIsLength(v);
    base := offset - Sov(v);
    var i := base;
    var w := v;
    while w >= 128
      invariant base <= i && i + |Spell(w)| == offset
      invariant a[base..i] + Spell(w) == Spell(v)
      invariant a[offset..] == old(a[offset..])
      invariant forall k :: 0 <= k < base ==> a[k] == old(a[k])
      decreases w
    {
      SpellUnfolds(w);
      ghost var done := a[base..i];
      ghost var rest := Spell(w / 128);
      assert done + ([w % 128 + 128] + rest) == (done + [w % 128 + 128]) + rest;
      a[i] := w % 128 + 128;
      assert a[base..i + 1] == done + [w % 128 + 128];
      w := w / 128;
      i := i + 1;
    }
    SpellUnfolds(w);
    ghost var done := a[base..i];
    a[i] := w;
    assert i + 1 == offset && a[base..i] == done;
    assert a[base..offset] == done + [w];
    assert a[base..] == a[base..offset] + a[offset..];
  }

  lemma SpellUnfolds(v: nat)
    ensures Spell(v) == if v < 128 then [v] else [v % 128 + 128] + Spell(v / 128)
  {
  }

  // ---------------------------------------------------------------- reading

  datatype Read = Got(value: nat, next: nat) | Bad(err: WireError)

  /** The ten bytes a 64-bit varint may occupy (shift 0, 7, .., 63). */
  const MAX_BYTES: nat := 10

  /**
    Reads a varint at `i`, giving the untruncated number; the caller truncates it to the
    width of its variable. At most `k` bytes may be used.
   */
  function ReadRaw(s: seq<Byte>, i: nat, k: nat): (r: Read)
    ensures r.Got? ==> i < r.next <= |s|
    decreases k
  {
    if k == 0 then Bad(IntOverflow)
    else if i >= |s| then Bad(UnexpectedEof)
    else if s[i] < 128 then Got(s[i], i + 1)
    else match ReadRaw(s, i + 1, k - 1)
      case Bad(e) => Bad(e)
      case Got(v, n) => Got(s[i] - 128 + 128 * v, n)
  }

  lemma ReadUnfolds(s: seq<Byte>, i: nat, k: nat)
    ensures ReadRaw(s, i, k) ==
            if k == 0 then Bad(IntOverflow)
            else if i >= |s| then Bad(UnexpectedEof)
            else if s[i] < 128 then Got(s[i], i + 1)
            else match ReadRaw(s, i + 1, k - 1)
              case Bad(e) => Bad(e)
              case Got(v, n) => Got(s[i] - 128 + 128 * v, n)
  {
  }

  /** A successful read looks at nothing behind the bytes it consumed. */
  lemma {:induction false} ReadRawLocal(a: seq<Byte>, b: seq<Byte>, i: nat, k: nat)
    requires ReadRaw(a, i, k).Got?
    ensures ReadRaw(a + b, i, k) == ReadRaw(a, i, k)
    decreases k
  {
    if a[i] >= 128 {
      ReadRawLocal(a, b, i + 1, k - 1);
    }
  }

  /** Reading inside a suffix is reading in the whole, with indices shifted. */
  lemma {:induction false} ReadRawShift(s: seq<Byte>, at: nat, i: nat, k: nat)
    requires at <= |s|
    ensures ReadRaw(s, at + i, k) ==
              match ReadRaw(s[at..], i, k)
              case Bad(e) => Bad(e)
              case Got(v, n) => Got(v, at + n)
    decreases k
  {
    if k > 0 && at + i < |s| && s[at + i] >= 128 {
      ReadRawShift(s, at, i + 1, k - 1);
    }
  }

  function Pow128(k: nat): (r: nat)
    ensures r >= 1
  {
    if k == 0 then 1 else 128 * Pow128(k - 1)
  }

  /** The reader inverts the writer: every number below 128^k is read back exactly. */
  lemma {:induction false} ReadInvertsWrite(v: nat, k: nat, pre: seq<Byte>, post: seq<Byte>)
    requires v < Pow128(k) && k >= 1
    ensures ReadRaw(pre + Spell(v) + post, |pre|, k) == Got(v, |pre| + |Spell(v)|)
    decreases v
  {
    if v >= 128 {
      var head := [(v % 128 + 128) as Byte];
      ReadInvertsWrite(v / 128, k - 1, pre + head, post);
      assert pre + Spell(v) + post == (pre + head) + Spell(v / 128) + post;
    }
  }

  lemma Uint64Fits(v: int)
    requires IsUint64(v)
    ensures v < Pow128(MAX_BYTES)
  {
    assert Pow128(4) == 0x1000_0000;
    assert Pow128(7) == 128 * 128 * 128 * Pow128(4);
    assert Pow128(10) == 128 * 128 * 128 * Pow128(7);
  }

  /** Truncating both terms truncates their sum, and the shifted one stays clear of the low bits. */
  lemma SumOfResidues(acc: nat, x: nat, p: nat, m: nat)
    requires p > 0 && m > 0 && acc < p
    requires p % m == 0 || m % p == 0
    ensures acc % m + (x * p) % m == (acc + x * p) % m
    ensures acc % m < p && ((x * p) % m) % p == 0
  {
    if p % m == 0 {
      ShiftedOut(acc, x, p, m);
    } else {
      ShiftedIn(acc, x, p, m);
    }
  }

  /** The shift leaves the word: nothing of the new group remains. */
  lemma ShiftedOut(acc: nat, x: nat, p: nat, m: nat)
    requires p > 0 && m > 0 && acc < p && p % m == 0
    ensures acc % m + (x * p) % m == (acc + x * p) % m
    ensures acc % m < p && ((x * p) % m) % p == 0
  {
    assert x * p == (x * (p / m)) * m by { MulAssoc(x, p / m, m); }
    assert m <= p;
    Multiple(acc, x * (p / m), m);
    ModUnique(0, 0, 0, p);
  }

  lemma Multiple(acc: nat, n: nat, m: nat)
    requires m > 0
    ensures (n * m) % m == 0 && (acc + n * m) % m == acc % m
  {
    ModUnique(n * m, n, 0, m);
    Distribute(acc / m, n, m);
    ModUnique(acc + n * m, acc / m + n, acc % m, m);
  }

  /** The shift stays inside the word: some low bits of the group remain, shifted. */
  lemma ShiftedIn(acc: nat, x: nat, p: nat, m: nat)
    requires p > 0 && m > 0 && acc < p && m % p == 0
    ensures acc % m + (x * p) % m == (acc + x * p) % m
    ensures acc % m < p && ((x * p) % m) % p == 0
  {
    var q := m / p;
    var t := x % q;
    assert x * p == (x / q) * m + t * p by {
      MulAssoc(x / q, q, p);
      Distribute((x / q) * q, t, p);
    }
    assert 0 <= t * p && t * p + p <= m by {
      Distribute(t, 1, p);
      MulMono(t + 1, q, p);
      MulMono(0, t, p);
    }
    ModUnique(x * p, x / q, t * p, m);
    ModUnique(acc + x * p, x / q, acc + t * p, m);
    ModUnique(acc, 0, acc, m);
    ModUnique(t * p, t, 0, p);
  }

  lemma MulAssoc(x: int, y: int, z: int)
    ensures x * (y * z) == (x * y) * z
  {
  }

  lemma Distribute(x: int, y: int, z: int)
    ensures (x + y) * z == x * z + y * z
  {
  }

  lemma MulMono(x: int, y: int, z: nat)
    requires x <= y
    ensures x * z <= y * z
  {
    Distribute(y - x, x, z);
  }

  lemma ModUnique(a: int, q: int, r: int, m: int)
    requires m > 0 && a == q * m + r && 0 <= r < m
    ensures a % m == r && a / m == q
  {
    var d := q - a / m;
    Distribute(d, a / m, m);
    assert d * m == a % m - r;
    if d >= 1 {
      MulMono(1, d, m);
    } else if d <= -1 {
      MulMono(d, -1, m);
    }
  }

  lemma GroupsDivideWords(k: nat)
    requires k < MAX_BYTES
    ensures TWO64 % Pow128(k) == 0
    ensures Pow128(k) % TWO32 == 0 || TWO32 % Pow128(k) == 0
  {
    assert Pow128(1) == 128 && Pow128(2) == 128 * 128 && Pow128(3) == 128 * 128 * 128;
    assert Pow128(4) == 0x1000_0000 && Pow128(5) == 0x8_0000_0000;
    assert Pow128(6) == 128 * Pow128(5) && Pow128(7) == 128 * Pow128(6);
    assert Pow128(8) == 128 * Pow128(7) && Pow128(9) == 128 * Pow128(8);
  }

  /**
    The varint loop that the generated parser repeats for every varint it reads, on a
    word of `m` values (2^64 for tags and lengths, 2^32 for the error code).
   */
  method ReadVarint(s: seq<Byte>, start: nat, m: nat) returns (r: Read)
    requires m == TWO64 || m == TWO32
    ensures ReadRaw(s, start, MAX_BYTES).Bad? ==> r == ReadRaw(s, start, MAX_BYTES)
    ensures ReadRaw(s, start, MAX_BYTES).Got? ==>
              r == Got(Trunc(ReadRaw(s, start, MAX_BYTES).value, m), ReadRaw(s, start, MAX_BYTES).next)
  {
    hide Pow128, Shl, Trunc, ReadRaw, Or;
    ghost var whole := ReadRaw(s, start, MAX_BYTES);
    ghost var acc: nat := 0;
    var word: nat := 0;
    var i: nat, k: nat := start, 0;
    ShlZero(whole, m);
    while true
      invariant k <= MAX_BYTES
      invariant word == Trunc(acc, m) && acc < Pow128(k)
      invariant var rest := ReadRaw(s, i, MAX_BYTES - k);
                if rest.Bad? then whole == rest
                else whole == Got(acc + Shl(rest.value, k), rest.next)
      decreases MAX_BYTES - k
    {
      ReadUnfolds(s, i, MAX_BYTES - k);
      if k >= 10 { return Bad(IntOverflow); }
      if i >= |s| { return Bad(UnexpectedEof); }
      var b := s[i];
      i := i + 1;
      OrIsTruncatedSum(acc, b % 128, k, m);
      word := Or(word, Trunc(Shl(b % 128, k), m));
      if b < 128 {
        return Got(word, i);
      }
      GroupStep(acc, b, k, ReadRaw(s, i, MAX_BYTES - k - 1));
      acc := acc + Shl(b % 128, k);
      k := k + 1;
    }
  }

  /** `x << (7 * k)`, before truncation. */
  function Shl(x: nat, k: nat): (r: nat) {
    x * Pow128(k)
  }

  /** The low bits that a word of `m` values keeps. */
  function Trunc(x: nat, m: nat): (r: nat)
    requires m > 0
  {
    x % m
  }

  lemma ShlZero(whole: Read, m: nat)
    requires m > 0
    ensures Pow128(0) == 1 && Trunc(0, m) == 0
    ensures whole.Got? ==> Shl(whole.value, 0) == whole.value
  {
  }

  /**
    `word |= (b & 0x7f) << shift` on a word of `m` values: what the word holds lies below
    the shift, so the or of the two truncated numbers is their truncated sum.
   */
  lemma OrIsTruncatedSum(acc: nat, x: nat, k: nat, m: nat)
    requires m == TWO64 || m == TWO32
    requires k < MAX_BYTES && acc < Pow128(k)
    ensures Or(Trunc(acc, m), Trunc(Shl(x, k), m)) == Trunc(acc + Shl(x, k), m)
  {
    hide Or, Pow128;
    GroupsDivideWords(k);
    SumOfResidues(acc, x, Pow128(k), m);
    SevenBits(k);
    OrIsSum(Trunc(acc, m), Trunc(Shl(x, k), m), 7 * k);
  }

  lemma {:induction false} SevenBits(k: nat)
    ensures Pow128(k) == Pow2(7 * k)
  {
    if k > 0 {
      SevenBits(k - 1);
      var j := 7 * (k - 1);
      assert Pow2(j + 2) == 4 * Pow2(j) && Pow2(j + 4) == 4 * Pow2(j + 2);
      assert Pow2(j + 6) == 4 * Pow2(j + 4) && Pow2(j + 7) == 2 * Pow2(j + 6);
    }
  }

  lemma GroupStep(acc: nat, b: Byte, k: nat, rest: Read)
    requires b >= 128 && acc < Pow128(k)
    ensures acc + Shl(b % 128, k) < Pow128(k + 1)
    ensures rest.Got? ==>
              acc + Shl(b - 128 + 128 * rest.value, k) == acc + Shl(b % 128, k) + Shl(rest.value, k + 1)
  {
    var p := Pow128(k);
    Distribute(b % 128, 1, p);
    MulMono(b % 128 + 1, 128, p);
    if rest.Got? {
      Distribute(b - 128, 128 * rest.value, p);
      MulAssoc(rest.value, 128, p);
    }
  }
}
