/** Reading little-endian numbers off a byte stream. */
module Stream {
  import opened Words

  // The number that bytes spell, least significant byte first.
  function LittleEndian(s: seq<Byte>): (r: nat)
    ensures r < Power256(|s|)
  {
    if s == [] then 0 else s[0] + 256 * LittleEndian(s[1..])
  }

  function Power256(n: nat): (r: nat)
    ensures r > 0
  {
    if n == 0 then 1 else 256 * Power256(n - 1)
  }

  // The n least significant bytes of a number.
  function LowBytes(x: nat, n: nat): (r: seq<Byte>)
    ensures |r| == n
    decreases n
  {
    if n == 0 then [] else [x % 256] + LowBytes(x / 256, n - 1)
  }

  lemma Times256(p: nat, x: nat)
    ensures 256 * (p * x) == (256 * p) * x
  {
  }

  /** Writing out the bytes of a number that was read gives back the bytes, whatever lies above them. */
  lemma {:induction false} WriteRead(s: seq<Byte>, above: nat)
    ensures LowBytes(LittleEndian(s) + Power256(|s|) * above, |s|) == s
  {
    if s != [] {
      var p := Power256(|s[1..]|);
      var rest := LittleEndian(s[1..]) + p * above;
      Times256(p, above);
      WriteRead(s[1..], above);
      hide LittleEndian, Power256, LowBytes;
      DivideByteOff(s[0], rest);
    }
  }

  lemma WriteReadAlone(s: seq<Byte>)
    ensures LowBytes(LittleEndian(s), |s|) == s
  {
    hide LittleEndian, LowBytes, Power256;
    WriteRead(s, 0);
    TimesZero(Power256(|s|));
  }

  lemma TimesZero(p: nat)
    ensures p * 0 == 0
  {
  }

  lemma DivideByteOff(b: Byte, rest: nat)
    ensures (b + 256 * rest) % 256 == b && (b + 256 * rest) / 256 == rest
  {
  }

  lemma {:induction false} SpellJoined(a: seq<Byte>, b: seq<Byte>)
    ensures LittleEndian(a + b) == LittleEndian(a) + Power256(|a|) * LittleEndian(b)
  {
    if a == [] {
      assert a + b == b;
    } else {
      assert (a + b)[1..] == a[1..] + b;
      SpellJoined(a[1..], b);
      var p := Power256(|a[1..]|);
      assert Power256(|a|) == 256 * p;
      assert LittleEndian(a) == a[0] + 256 * LittleEndian(a[1..])
        && LittleEndian(a + b) == a[0] + 256 * LittleEndian(a[1..] + b);
      hide LittleEndian, Power256;
      Times256(p, LittleEndian(b));
    }
  }

  class Stream {
    const data: seq<Byte>
    var bytesRead: nat

    ghost predicate Valid()
      reads this
    {
      bytesRead <= |data|
    }

    // The next n bytes.
    ghost function Next(n: nat): seq<Byte>
      requires bytesRead + n <= |data|
      reads this
    {
      data[bytesRead..bytesRead + n]
    }

    constructor (data: seq<Byte>)
      ensures Valid() && this.data == data && bytesRead == 0
    {
      this.data, bytesRead := data, 0;
    }

    predicate HasMore()
      reads this
    {
      bytesRead < |data|
    }

    // There are n more bytes; reading past the end has no meaning in the source.
    predicate Has(n: nat)
      reads this
    {
      bytesRead + n <= |data|
    }

    method Read8() returns (r: nat)
      requires Has(1)
      modifies this`bytesRead
      ensures Valid() && bytesRead == old(bytesRead) + 1 && r == LittleEndian(old(Next(1))) == data[old(bytesRead)]
    {
      r := data[bytesRead];
      bytesRead := bytesRead + 1;
      assert LittleEndian([r]) == r + 256 * LittleEndian([]);
      assert old(Next(1)) == [r];
    }

    method Read16() returns (r: nat)
      requires Has(2)
      modifies this`bytesRead
      ensures Valid() && bytesRead == old(bytesRead) + 2 && r == LittleEndian(old(Next(2)))
    {
      var low := Read8();
      ghost var first := bytesRead;
      var high := Read8();
      r := low + 0x100 * high;
      assert old(Next(2)) == old(Next(1)) + data[first..bytesRead];
      SpellJoined(old(Next(1)), data[first..bytesRead]);
      assert Power256(1) == 0x100;
    }

    method Read32() returns (r: nat)
      requires Has(4)
      modifies this`bytesRead
      ensures Valid() && bytesRead == old(bytesRead) + 4 && r == LittleEndian(old(Next(4)))
    {
      var low := Read16();
      ghost var first := bytesRead;
      var high := Read16();
      r := low + 0x1_0000 * high;
      assert old(Next(4)) == old(Next(2)) + data[first..bytesRead];
      SpellJoined(old(Next(2)), data[first..bytesRead]);
      assert Power256(2) == 0x1_0000;
    }

    method Read64() returns (r: nat)
      requires Has(8)
      modifies this`bytesRead
      ensures Valid() && bytesRead == old(bytesRead) + 8 && r == LittleEndian(old(Next(8)))
    {
      var low := Read32();
      ghost var first := bytesRead;
      var high := Read32();
      r := low + 0x1_0000_0000 * high;
      assert old(Next(8)) == old(Next(4)) + data[first..bytesRead];
      SpellJoined(old(Next(4)), data[first..bytesRead]);
      assert Power256(4) == 0x1_0000_0000;
    }
  }
}
