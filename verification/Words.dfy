/** 64-bit words with wrap-around, the integer type of every IR value and register. */
module Words {
  const TWO_TO_63: int := 0x8000_0000_0000_0000
  const TWO_TO_64: int := 0x1_0000_0000_0000_0000

  type Word = x: int | 0 <= x < 0x1_0000_0000_0000_0000 witness 0
  type Byte = x: int | 0 <= x < 256 witness 0

  datatype Option<+T> = None | Some(value: T)

  function Lookup<K, V>(m: map<K, V>, k: K): Option<V> {
    if k in m then Some(m[k]) else None
  }

  function Wrap(x: int): (w: Word) {
    x % 0x1_0000_0000_0000_0000
  }

  // The signed (two's complement) reading of a word.
  function Signed(w: Word): int {
    if w < TWO_TO_63 then w else w - TWO_TO_64
  }

  function Pow2(n: nat): (r: nat)
    ensures r > 0
  {
    if n == 0 then 1 else 2 * Pow2(n - 1)
  }

  lemma Pow2Values()
    ensures Pow2(63) == TWO_TO_63 && Pow2(64) == TWO_TO_64
  {
    assert Pow2(8) == 256;
    assert Pow2(16) == 65536;
    assert Pow2(24) == 0x100_0000;
    assert Pow2(32) == 0x1_0000_0000;
    assert Pow2(40) == 0x100_0000_0000;
    assert Pow2(48) == 0x1_0000_0000_0000;
    assert Pow2(56) == 0x100_0000_0000_0000;
  }

  // Bitwise operations, one bit at a time from the least significant end.
  datatype BitOp = BitAnd | BitOr | BitXor

  function Bit(op: BitOp, a: nat, b: nat): (r: nat)
    requires a < 2 && b < 2
    ensures r < 2
  {
    match op
    case BitAnd => if a == 1 && b == 1 then 1 else 0
    case BitOr => if a == 0 && b == 0 then 0 else 1
    case BitXor => if a == b then 0 else 1
  }

  function Bits(op: BitOp, a: nat, b: nat, n: nat): (r: nat)
    ensures r < Pow2(n)
  {
    if n == 0 then 0 else 2 * Bits(op, a / 2, b / 2, n - 1) + Bit(op, a % 2, b % 2)
  }

  // The top bit of the result is the operation applied to the top bits.
  lemma {:induction false} TopBit(op: BitOp, a: nat, b: nat, n: nat)
    requires n > 0 && a < Pow2(n) && b < Pow2(n)
    ensures Bits(op, a, b, n) >= Pow2(n - 1)
       <==> Bit(op, if a >= Pow2(n - 1) then 1 else 0, if b >= Pow2(n - 1) then 1 else 0) == 1
  {
    if n == 1 {
      assert Pow2(0) == 1 && Pow2(1) == 2;
      assert Bits(op, a / 2, b / 2, 0) == 0;
    } else {
      TopBit(op, a / 2, b / 2, n - 1);
    }
  }

  lemma {:induction false} BitsOfZero(op: BitOp, n: nat)
    ensures Bits(op, 0, 0, n) == 0
  {
    if n > 0 {
      BitsOfZero(op, n - 1);
    }
  }

  datatype BinaryOp = Add | And | Or | Shl | Sub | Xor
  datatype ComparePred = Eq | Ne | Slt

  function Bitwise(op: BitOp, a: Word, b: Word): Word {
    Pow2Values();
    Bits(op, a, b, 64)
  }

  // A shift count is reduced modulo 64; the IR semantics only shifts by less than 64.
  function EvalBinary(op: BinaryOp, a: Word, b: Word): Word {
    match op
    case Add => Wrap(a + b)
    case And => Bitwise(BitAnd, a, b)
    case Or => Bitwise(BitOr, a, b)
    case Shl => Wrap(a * Pow2(b % 64))
    case Sub => Wrap(a - b)
    case Xor => Bitwise(BitXor, a, b)
  }

  predicate Holds(pred: ComparePred, a: Word, b: Word) {
    match pred
    case Eq => a == b
    case Ne => a != b
    case Slt => Signed(a) < Signed(b)
  }

  function EvalCompare(pred: ComparePred, a: Word, b: Word): Word {
    if Holds(pred, a, b) then 1 else 0
  }

  // The sign of a bitwise result is the bitwise operation on the signs.
  lemma SignOfBitwise(op: BitOp, a: Word, b: Word)
    ensures Signed(Bitwise(op, a, b)) < 0
       <==> Bit(op, if Signed(a) < 0 then 1 else 0, if Signed(b) < 0 then 1 else 0) == 1
  {
    Pow2Values();
    TopBit(op, a, b, 64);
  }

  // And / Or of two truth values is a truth value.
  lemma BitwiseOfTruthValues(op: BitOp, a: Word, b: Word)
    requires a < 2 && b < 2
    ensures Bitwise(op, a, b) == Bit(op, a, b)
  {
    BitsOfZero(op, 63);
    assert a / 2 == 0 && b / 2 == 0;
  }

  // ---- The operations bit by bit

  function BitAt(x: nat, k: nat): (r: nat)
    ensures r < 2
  {
    x / Pow2(k) % 2
  }

  lemma BitBelow(x: nat, k: nat)
    ensures BitAt(x, 0) == x % 2 && BitAt(x, k + 1) == BitAt(x / 2, k)
  {
    assert Pow2(0) == 1;
    DivTwice(x, Pow2(k));
  }

  lemma DivTwice(x: nat, p: nat)
    requires p > 0
    ensures x / (2 * p) == x / 2 / p
  {
    var q, r := x / 2 / p, x / 2 % p;
    assert x / 2 == q * p + r;
    var rest := 2 * r + x % 2;
    assert x == q * (2 * p) + rest && rest < 2 * p;
    DivIs(x, 2 * p, q, rest);
  }

  lemma DivIs(x: nat, p: nat, q: nat, r: nat)
    requires x == q * p + r && r < p
    ensures x / p == q && x % p == r
  {
    var d, m := x / p, x % p;
    assert d * p + m == q * p + r;
    SameQuotient(p, d, m, q, r);
  }

  lemma SameQuotient(p: nat, d: nat, m: nat, q: nat, r: nat)
    requires d * p + m == q * p + r && m < p && r < p
    ensures d == q && m == r
  {
    var k: int := d - q;
    assert k * p == d * p - q * p;
    if k > 0 {
      Multiple(k, p);
    }
  }

  lemma Multiple(k: nat, p: nat)
    requires k > 0
    ensures k * p >= p
  {
    assert k * p == (k - 1) * p + p;
    assert (k - 1) * p >= 0;
  }

  lemma {:induction false} BitsAt(op: BitOp, a: nat, b: nat, n: nat, k: nat)
    requires k < n
    ensures BitAt(Bits(op, a, b, n), k) == Bit(op, BitAt(a, k), BitAt(b, k))
    decreases k
  {
    var rest := Bits(op, a / 2, b / 2, n - 1);
    var low := Bit(op, a % 2, b % 2);
    assert (2 * rest + low) / 2 == rest && (2 * rest + low) % 2 == low;
    BitBelow(2 * rest + low, if k > 0 then k - 1 else 0);
    BitBelow(a, if k > 0 then k - 1 else 0);
    BitBelow(b, if k > 0 then k - 1 else 0);
    if k > 0 {
      BitsAt(op, a / 2, b / 2, n - 1, k - 1);
    }
  }

  /** And sets the bits that both operands have, or those that one has, and exclusive or those in which they differ. */
  lemma BitwiseByBits(a: Word, b: Word, k: nat)
    requires k < 64
    ensures BitAt(EvalBinary(And, a, b), k) == 1 <==> BitAt(a, k) == 1 && BitAt(b, k) == 1
    ensures BitAt(EvalBinary(Or, a, b), k) == 1 <==> BitAt(a, k) == 1 || BitAt(b, k) == 1
    ensures BitAt(EvalBinary(Xor, a, b), k) == 1 <==> BitAt(a, k) != BitAt(b, k)
  {
    BitsAt(BitAnd, a, b, 64, k);
    BitsAt(BitOr, a, b, 64, k);
    BitsAt(BitXor, a, b, 64, k);
  }

  lemma {:induction false} DoubledBit(x: nat, c: nat, k: nat)
    ensures BitAt(x * Pow2(c), k) == if k < c then 0 else BitAt(x, k - c)
  {
    if c == 0 {
      assert Pow2(0) == 1;
    } else {
      var y := x * Pow2(c - 1);
      assert x * Pow2(c) == 2 * y;
      BitBelow(2 * y, if k > 0 then k - 1 else 0);
      assert 2 * y / 2 == y;
      if k > 0 {
        DoubledBit(x, c - 1, k - 1);
      }
    }
  }

  lemma HalfOfRest(x: nat, p: nat)
    requires p > 0
    ensures x / 2 % p == x % (2 * p) / 2 && x % 2 == x % (2 * p) % 2
  {
    var q, r := x / (2 * p), x % (2 * p);
    assert x == q * (2 * p) + r;
    assert q * (2 * p) == 2 * (q * p);
    assert x / 2 == q * p + r / 2 && x % 2 == r % 2;
    DivIs(x / 2, p, q, r / 2);
  }

  // What is cut off on the left does not change the bits that stay.
  lemma {:induction false} LowBits(x: nat, n: nat, k: nat)
    requires k < n
    ensures BitAt(x % Pow2(n), k) == BitAt(x, k)
    decreases n
  {
    var r := x % Pow2(n);
    HalfOfRest(x, Pow2(n - 1));
    BitBelow(x, if k > 0 then k - 1 else 0);
    BitBelow(r, if k > 0 then k - 1 else 0);
    if k > 0 {
      LowBits(x / 2, n - 1, k - 1);
    }
  }

  /** A shift to the left moves every bit up by the count modulo 64 and brings in zeros. */
  lemma ShiftByBits(a: Word, b: Word, k: nat)
    requires k < 64
    ensures BitAt(EvalBinary(Shl, a, b), k) == if k < b % 64 then 0 else BitAt(a, k - b % 64)
  {
    Pow2Values();
    LowBits(a * Pow2(b % 64), 64, k);
    DoubledBit(a, b % 64, k);
  }

  // Byte-addressed little-endian memory; bytes never written read as zero.
  type Memory = map<int, Byte>

  function Above(a: Word, k: nat): Word
    requires k < 16
  {
    if a + k < TWO_TO_64 then a + k else a + k - TWO_TO_64
  }

  function ByteAt(m: Memory, a: Word): Byte {
    if a in m then m[a] else 0
  }

  function Read16(m: Memory, a: Word): (r: nat)
    ensures r < 0x1_0000
  {
    ByteAt(m, a) + 0x100 * ByteAt(m, Above(a, 1))
  }

  function Read32(m: Memory, a: Word): (r: nat)
    ensures r < 0x1_0000_0000
  {
    Read16(m, a) + 0x1_0000 * Read16(m, Above(a, 2))
  }

  function Read64(m: Memory, a: Word): Word {
    Read32(m, a) + 0x1_0000_0000 * Read32(m, Above(a, 4))
  }

  function Write16(m: Memory, a: Word, v: nat): Memory
    requires v < 0x1_0000
  {
    m[a := v % 0x100][Above(a, 1) := v / 0x100]
  }

  function Write32(m: Memory, a: Word, v: nat): Memory
    requires v < 0x1_0000_0000
  {
    Write16(Write16(m, a, v % 0x1_0000), Above(a, 2), v / 0x1_0000)
  }

  function Write64(m: Memory, a: Word, v: Word): Memory {
    Write32(Write32(m, a, v % 0x1_0000_0000), Above(a, 4), v / 0x1_0000_0000)
  }

  // The n bytes at a and the n bytes at b share no byte.
  predicate Apart(a: Word, b: Word, n: nat) {
    n <= Distance(a, b) <= TWO_TO_64 - n
  }

  // How far b is above a, going round the end of the address space.
  function Distance(a: Word, b: Word): Word {
    if a <= b then b - a else b - a + TWO_TO_64
  }

  lemma Frame16(m: Memory, a: Word, v: nat, b: Word)
    requires v < 0x1_0000
    ensures Read16(Write16(m, a, v), a) == v
    ensures Apart(a, b, 2) ==> Read16(Write16(m, a, v), b) == Read16(m, b)
  {
  }

  lemma Frame32(m: Memory, a: Word, v: nat, b: Word)
    requires v < 0x1_0000_0000
    ensures Read32(Write32(m, a, v), a) == v
    ensures Apart(a, b, 4) ==> Read32(Write32(m, a, v), b) == Read32(m, b)
  {
    var m1 := Write16(m, a, v % 0x1_0000);
    Frame16(m, a, v % 0x1_0000, a);
    Frame16(m1, Above(a, 2), v / 0x1_0000, a);
    if Apart(a, b, 4) {
      Frame16(m, a, v % 0x1_0000, b);
      Frame16(m, a, v % 0x1_0000, Above(b, 2));
      Frame16(m1, Above(a, 2), v / 0x1_0000, b);
      Frame16(m1, Above(a, 2), v / 0x1_0000, Above(b, 2));
    }
  }

  /** Memory laws: a stored word is read back, and no disjoint word changes. */
  lemma ReadOverWrite(m: Memory, a: Word, v: Word, b: Word)
    ensures Read64(Write64(m, a, v), a) == v
    ensures Apart(a, b, 8) ==> Read64(Write64(m, a, v), b) == Read64(m, b)
  {
    var m1 := Write32(m, a, v % 0x1_0000_0000);
    Frame32(m, a, v % 0x1_0000_0000, a);
    Frame32(m1, Above(a, 4), v / 0x1_0000_0000, a);
    if Apart(a, b, 8) {
      Frame32(m, a, v % 0x1_0000_0000, b);
      Frame32(m, a, v % 0x1_0000_0000, Above(b, 4));
      Frame32(m1, Above(a, 4), v / 0x1_0000_0000, b);
      Frame32(m1, Above(a, 4), v / 0x1_0000_0000, Above(b, 4));
    }
  }
}
