/**
 The word arithmetic under the trie: addresses are held as host-order words, common_bits()
 counts leading equal bits with an exclusive-or and a find-last-set, and choose() picks a bit
 through a byte index and a shift that were prepared when the node was made.  Both are proved
 to be what the trie needs of them on the address read as bits, first bit first.
 */
module AddressBits {

  /** The low w bits of x, most significant first. */
  function Bits(w: nat, x: nat): (r: seq<bool>)
    ensures |r| == w
  {
    if w == 0 then [] else Bits(w - 1, x / 2) + [x % 2 == 1]
  }

  /** The length of the longest common prefix. */
  function Common(a: seq<bool>, b: seq<bool>): (r: nat)
    requires |a| == |b|
    ensures r <= |a| && a[..r] == b[..r] && (r < |a| ==> a[r] != b[r])
  {
    if a == [] || a[0] != b[0] then 0
    else
      var r := Common(a[1..], b[1..]);
      assert a[..r + 1] == [a[0]] + a[1..][..r] && b[..r + 1] == [b[0]] + b[1..][..r];
      1 + r
  }

  /** The properties in the contract of Common determine it. */
  lemma {:induction false} CommonIs(a: seq<bool>, b: seq<bool>, r: nat)
    requires |a| == |b| && r <= |a| && a[..r] == b[..r] && (r < |a| ==> a[r] != b[r])
    ensures Common(a, b) == r
  {
    if r == 0 {
    } else {
      assert a[..r][0] == a[0] && b[..r][0] == b[0];
      assert a[1..][..r - 1] == a[..r][1..] && b[1..][..r - 1] == b[..r][1..];
      CommonIs(a[1..], b[1..], r - 1);
    }
  }

  /** prefix_matches(): enough common bits is the same as an equal prefix. */
  lemma CommonAtLeast(a: seq<bool>, b: seq<bool>, k: nat)
    requires |a| == |b| && k <= |a|
    ensures k <= Common(a, b) <==> a[..k] == b[..k]
  {
    var c := Common(a, b);
    if k <= c {
      assert a[..k] == a[..c][..k] && b[..k] == b[..c][..k];
    } else {
      assert a[..k][c] == a[c] && b[..k][c] == b[c];
    }
  }

  // ---------------------------------------------------------------- common_bits()

  function Xor(x: nat, y: nat): nat {
    if x == 0 && y == 0 then 0
    else 2 * Xor(x / 2, y / 2) + (if x % 2 == y % 2 then 0 else 1)
  }

  /** fls(), fls64(): one more than the index of the highest set bit, 0 for no bit. */
  function Fls(x: nat): nat { if x == 0 then 0 else 1 + Fls(x / 2) }

  function Fls128(a: nat, b: nat): nat { if a != 0 then Fls(a) + 64 else Fls(b) }

  predicate Fit(w: nat, x: nat) { x < Power(w) }

  function Power(w: nat): (p: nat)
    ensures p >= 1
  {
    if w == 0 then 1 else 2 * Power(w - 1)
  }

  lemma {:induction false} XorZero(w: nat, x: nat, y: nat)
    requires Fit(w, x) && Fit(w, y)
    ensures Xor(x, y) == 0 <==> Bits(w, x) == Bits(w, y)
    ensures Xor(x, y) == 0 <==> x == y
  {
    if w == 0 {
    } else {
      XorZero(w - 1, x / 2, y / 2);
      assert Bits(w, x)[..w - 1] == Bits(w - 1, x / 2) && Bits(w, y)[..w - 1] == Bits(w - 1, y / 2);
      assert Bits(w, x)[w - 1] == (x % 2 == 1) && Bits(w, y)[w - 1] == (y % 2 == 1);
    }
  }

  /** Appending a bit to both sides matters only where everything before was equal. */
  lemma CommonAppend(a: seq<bool>, p: bool, b: seq<bool>, q: bool)
    requires |a| == |b|
    ensures Common(a + [p], b + [q]) == if a != b then Common(a, b) else |a| + (if p == q then 1 else 0)
  {
    if a == b {
      HighEqual(a, [p], [q]);
      CommonIs([p], [q], if p == q then 1 else 0);
    } else {
      HighDiffers(a, [p], b, [q]);
    }
  }

  lemma FlsStep(x: nat, y: nat)
    ensures var z := Xor(x / 2, y / 2);
            Fls(Xor(x, y)) == if z != 0 then 1 + Fls(z) else if x % 2 == y % 2 then 0 else 1
  {
    var z := Xor(x / 2, y / 2);
    if x != 0 || y != 0 {
      assert Xor(x, y) / 2 == z;
      if z == 0 { assert Fls(1) == 1; }
    }
  }

  /** A word's width less the find-last-set of the difference counts the leading equal bits. */
  lemma {:induction false} FlsCountsCommon(w: nat, x: nat, y: nat)
    requires Fit(w, x) && Fit(w, y)
    ensures Fls(Xor(x, y)) <= w && Common(Bits(w, x), Bits(w, y)) == w - Fls(Xor(x, y))
  {
    if w == 0 {
    } else {
      FlsCountsCommon(w - 1, x / 2, y / 2);
      FlsStep(x, y);
      XorZero(w - 1, x / 2, y / 2);
      CommonAppend(Bits(w - 1, x / 2), x % 2 == 1, Bits(w - 1, y / 2), y % 2 == 1);
    }
  }

  /** An address as the source holds it: one 32-bit word, or two 64-bit words, high word first. */
  datatype Address = V4(word: nat) | V6(high: nat, low: nat)

  predicate AddressOk(a: Address) {
    match a
    case V4(x) => Fit(32, x)
    case V6(h, l) => Fit(64, h) && Fit(64, l)
  }

  function AddressBitsOf(a: Address): seq<bool> {
    match a
    case V4(x) => Bits(32, x)
    case V6(h, l) => Bits(64, h) + Bits(64, l)
  }

  /** common_bits() */
  function CommonBits(a: Address, b: Address): int
    requires a.V4? == b.V4?
  {
    match a
    case V4(x) => 32 - Fls(Xor(x, b.word))
    case V6(h, l) => 128 - Fls128(Xor(h, b.high), Xor(l, b.low))
  }

  lemma CommonBitsCounts(a: Address, b: Address)
    requires AddressOk(a) && AddressOk(b) && a.V4? == b.V4?
    ensures CommonBits(a, b) == Common(AddressBitsOf(a), AddressBitsOf(b))
  {
    if a.V4? {
      FlsCountsCommon(32, a.word, b.word);
    } else {
      var p, q, r, s := Bits(64, a.high), Bits(64, a.low), Bits(64, b.high), Bits(64, b.low);
      FlsCountsCommon(64, a.high, b.high);
      FlsCountsCommon(64, a.low, b.low);
      XorZero(64, a.high, b.high);
      if Xor(a.high, b.high) == 0 {
        HighEqual(p, q, s);
      } else {
        HighDiffers(p, q, r, s);
        FlsPositive(Xor(a.high, b.high));
      }
    }
  }

  lemma FlsPositive(x: nat)
    requires x != 0
    ensures Fls(x) > 0
  {
  }

  lemma {:induction false} HighEqual(p: seq<bool>, q: seq<bool>, s: seq<bool>)
    requires |q| == |s|
    ensures Common(p + q, p + s) == |p| + Common(q, s)
  {
    if p == [] {
      assert p + q == q && p + s == s;
    } else {
      assert (p + q)[1..] == p[1..] + q && (p + s)[1..] == p[1..] + s;
      HighEqual(p[1..], q, s);
    }
  }

  lemma HighDiffers(p: seq<bool>, q: seq<bool>, r: seq<bool>, s: seq<bool>)
    requires |p| == |r| && |q| == |s| && p != r
    ensures Common(p + q, r + s) == Common(p, r)
  {
    var c := Common(p, r);
    assert c < |p| by { assert p[..|p|] == p && r[..|r|] == r; }
    assert (p + q)[..c] == p[..c] && (r + s)[..c] == r[..c];
    CommonIs(p + q, r + s, c);
  }

  // ---------------------------------------------------------------- choose()

  /** x >> n */
  function Shift(x: nat, n: nat): nat
    decreases n
  {
    if n == 0 then x else Shift(x / 2, n - 1)
  }

  lemma {:induction false} ShiftShift(x: nat, m: nat, n: nat)
    ensures Shift(Shift(x, m), n) == Shift(x, m + n)
    decreases m
  {
    if m == 0 {
    } else {
      ShiftShift(x / 2, m - 1, n);
    }
  }

  lemma {:induction false} BitsAt(w: nat, x: nat, i: nat)
    requires i < w
    ensures Bits(w, x)[i] == (Shift(x, w - 1 - i) % 2 == 1)
  {
    if i < w - 1 { BitsAt(w - 1, x / 2, i); }
  }

  /** A shift of less than a byte sees the same bit in the byte as in the word. */
  lemma {:induction false} ShiftInByte(z: nat, b: nat, m: nat)
    requires b < m
    ensures Shift(z % Power(m), b) % 2 == Shift(z, b) % 2
    decreases b
  {
    HalfMod(z, m);
    if b == 0 {
    } else {
      ShiftInByte(z / 2, b - 1, m - 1);
    }
  }

  lemma HalfMod(z: nat, m: nat)
    requires m > 0
    ensures (z % Power(m)) / 2 == (z / 2) % Power(m - 1) && (z % Power(m)) % 2 == z % 2
  {
    var p := Power(m - 1);
    var h, d := z / 2, z % 2;
    var q, r := h / p, h % p;
    assert h == p * q + r;
    assert z == (2 * p) * q + (2 * r + d) by { assert 2 * (p * q) == (2 * p) * q; }
    ModIs(z, 2 * p, q, 2 * r + d);
  }

  lemma ModIs(z: nat, m: nat, q: nat, r: nat)
    requires m > 0 && z == m * q + r && r < m
    ensures z % m == r
  {
    var d := z / m - q;
    assert m * (z / m) == m * q + m * d;
    AtLeastOne(m, d);
    AtLeastOne(m, -d);
  }

  lemma AtLeastOne(m: nat, d: int)
    ensures d >= 1 ==> m * d >= m
    ensures m * -d == -(m * d)
  {
  }

  /** The index of the byte in little-endian memory, as copy_and_assign_cidr() prepares it. */
  function BitAtA(cidr: nat, width: nat): nat {
    Xor(cidr / 8, (width / 8 - 1) % 8)
  }

  /** The exclusive-or mirrors the byte index inside its word. */
  lemma ByteMirrored(k: nat)
    ensures k < 4 ==> Xor(k, 3) == 3 - k
    ensures k < 8 ==> Xor(k, 7) == 7 - k
    ensures 8 <= k < 16 ==> Xor(k, 7) == 8 + (7 - (k - 8))
  {
    if k < 8 {
      MirrorWithin8(k);
    } else if k < 16 {
      assert 4 <= k / 2 < 8;
      assert Xor(4, 3) == 7 && Xor(5, 3) == 6 && Xor(6, 3) == 5 && Xor(7, 3) == 4;
    }
  }

  lemma MirrorWithin8(k: nat)
    requires k < 8
    ensures Xor(k, 7) == 7 - k && (k < 4 ==> Xor(k, 3) == 3 - k)
  {
    assert Xor(0, 0) == 0 && Xor(1, 0) == 1 && Xor(0, 1) == 1 && Xor(1, 1) == 0;
    assert Xor(0, 3) == 3 && Xor(1, 3) == 2 && Xor(2, 3) == 1 && Xor(3, 3) == 0;
    assert k / 2 < 4 && Xor(7 / 2, 3) == 0;
  }

  function BitAtB(cidr: nat): nat { 7 - cidr % 8 }

  /** Byte k of the address as it lies in memory. */
  function MemoryByte(a: Address, k: nat): nat {
    match a
    case V4(x) => Shift(x, 8 * k) % 256
    case V6(h, l) => Shift(if k < 8 then h else l, 8 * (k % 8)) % 256
  }

  /** choose() */
  function Choose(a: Address, cidr: nat): bool {
    var width := if a.V4? then 32 else 128;
    Shift(MemoryByte(a, BitAtA(cidr, width)), BitAtB(cidr)) % 2 == 1
  }

  /** Bit b of byte k of a word, counted from the front of the word. */
  lemma WordByteBit(w: nat, x: nat, i: nat, k: nat, b: nat)
    requires i < w && b < 8 && 8 * k + b == w - 1 - i
    ensures (Shift(Shift(x, 8 * k) % 256, b) % 2 == 1) == Bits(w, x)[i]
  {
    BitsAt(w, x, i);
    assert Power(8) == 256;
    ShiftInByte(Shift(x, 8 * k), b, 8);
    ShiftShift(x, 8 * k, b);
  }

  /** The byte choose() looks at is the one that holds bit number cidr. */
  lemma ChosenByte(cidr: nat, k: nat)
    requires k == cidr / 8
    ensures k < 4 ==> BitAtA(cidr, 32) == 3 - k
    ensures k < 8 ==> BitAtA(cidr, 128) == 7 - k
    ensures 8 <= k < 16 ==> BitAtA(cidr, 128) == 8 + (7 - (k - 8))
  {
    ByteMirrored(k);
  }

  /** Where byte k of memory lies in the words. */
  lemma MemoryByteIs(a: Address, k: nat)
    ensures a.V4? ==> MemoryByte(a, k) == Shift(a.word, 8 * k) % 256
    ensures a.V6? && k < 8 ==> MemoryByte(a, k) == Shift(a.high, 8 * k) % 256
    ensures a.V6? && 8 <= k < 16 ==> MemoryByte(a, k) == Shift(a.low, 8 * (k - 8)) % 256
  {
    if k < 16 { assert k % 8 == if k < 8 then k else k - 8; }
  }

  lemma ChooseV4(x: nat, cidr: nat)
    requires cidr < 32
    ensures Choose(V4(x), cidr) == Bits(32, x)[cidr]
  {
    var k := 3 - cidr / 8;
    ChosenByte(cidr, cidr / 8);
    MemoryByteIs(V4(x), k);
    WordByteBit(32, x, cidr, k, BitAtB(cidr));
  }

  lemma ChooseHigh(h: nat, l: nat, cidr: nat)
    requires cidr < 64
    ensures Choose(V6(h, l), cidr) == Bits(64, h)[cidr]
  {
    var k := 7 - cidr / 8;
    ChosenByte(cidr, cidr / 8);
    MemoryByteIs(V6(h, l), k);
    WordByteBit(64, h, cidr, k, BitAtB(cidr));
  }

  lemma ChooseLow(h: nat, l: nat, cidr: nat)
    requires 64 <= cidr < 128
    ensures Choose(V6(h, l), cidr) == Bits(64, l)[cidr - 64]
  {
    var k := 7 - (cidr / 8 - 8);
    ChosenByte(cidr, cidr / 8);
    MemoryByteIs(V6(h, l), 8 + k);
    WordByteBit(64, l, cidr - 64, k, BitAtB(cidr));
  }

  /** choose() reads the key's bit number cidr, counted from the front. */
  lemma ChooseReadsBit(a: Address, cidr: nat)
    requires cidr < |AddressBitsOf(a)|
    ensures Choose(a, cidr) == AddressBitsOf(a)[cidr]
  {
    match a
    case V4(x) => ChooseV4(x, cidr);
    case V6(h, l) => if cidr < 64 { ChooseHigh(h, l, cidr); } else { ChooseLow(h, l, cidr); }
  }
}
