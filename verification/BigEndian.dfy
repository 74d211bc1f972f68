/** Numbers and the bytes that carry them in network order. */
module BigEndian {
  import opened Modular

  predicate Byte(x: int) {
    0 <= x < 0x100
  }

  predicate Word32(x: int) {
    0 <= x < 0x1_0000_0000
  }

  /** A 32-bit number as four bytes, most significant first. */
  function ToBytes(x: int): (s: seq<bv8>)
    requires Word32(x)
    ensures |s| == 4
  {
    [(x / 0x100_0000) as bv8, (x / 0x1_0000 % 0x100) as bv8, (x / 0x100 % 0x100) as bv8, (x % 0x100) as bv8]
  }

  function FromBytes(s: seq<bv8>): (x: int)
    requires |s| == 4
    ensures Word32(x)
  {
    ((s[0] as int * 0x100 + s[1] as int) * 0x100 + s[2] as int) * 0x100 + s[3] as int
  }

  lemma NextByte(b: bv8)
    requires b != 255
    ensures (b + 1) as int == b as int + 1
  {
  }

  lemma {:induction false} SomeByte(x: nat) returns (b: bv8)
    requires Byte(x)
    ensures b as int == x
  {
    if x == 0 {
      b := 0;
    } else {
      b := SomeByte(x - 1);
      NextByte(b);
      b := b + 1;
    }
  }

  /** A number that fits a byte survives the cast. */
  lemma ByteCast(x: int)
    requires Byte(x)
    ensures (x as bv8) as int == x
  {
    var b := SomeByte(x);
    CastBack(b);
  }

  /** Base-256 digits. */
  lemma Digits(x: int, a: int, b: int, c: int, d: int)
    requires Byte(a) && Byte(b) && Byte(c) && Byte(d) && x == ((a * 0x100 + b) * 0x100 + c) * 0x100 + d
    ensures x / 0x100_0000 == a && x / 0x1_0000 % 0x100 == b && x / 0x100 % 0x100 == c && x % 0x100 == d
  {
    ModUnique(x, a, (b * 0x100 + c) * 0x100 + d, 0x100_0000);
    ModUnique(x, a * 0x100 + b, c * 0x100 + d, 0x1_0000);
    ModUnique(a * 0x100 + b, a, b, 0x100);
    ModUnique(x, (a * 0x100 + b) * 0x100 + c, d, 0x100);
    ModUnique((a * 0x100 + b) * 0x100 + c, a * 0x100 + b, c, 0x100);
  }

  lemma HasDigits(x: int)
    requires Word32(x)
    ensures x == ((x / 0x100_0000 * 0x100 + x / 0x1_0000 % 0x100) * 0x100 + x / 0x100 % 0x100) * 0x100 + x % 0x100
    ensures Byte(x / 0x100_0000)
  {
    var d, x1 := x % 0x100, x / 0x100;
    var c, x2 := x1 % 0x100, x1 / 0x100;
    var b, a := x2 % 0x100, x2 / 0x100;
    Digits(x, a, b, c, d);
  }

  lemma ToFromBytes(x: int)
    requires Word32(x)
    ensures FromBytes(ToBytes(x)) == x
  {
    HasDigits(x);
    var a, b, c, d := x / 0x100_0000, x / 0x1_0000 % 0x100, x / 0x100 % 0x100, x % 0x100;
    ByteCast(a);
    ByteCast(b);
    ByteCast(c);
    ByteCast(d);
    FromDigits(ToBytes(x), a, b, c, d);
  }

  lemma FromDigits(s: seq<bv8>, a: int, b: int, c: int, d: int)
    requires |s| == 4 && s[0] as int == a && s[1] as int == b && s[2] as int == c && s[3] as int == d
    ensures FromBytes(s) == ((a * 0x100 + b) * 0x100 + c) * 0x100 + d
  {
  }

  lemma CastBack(b: bv8)
    ensures Byte(b as int) && (b as int) as bv8 == b
  {
  }

  lemma FromToBytes(s: seq<bv8>)
    requires |s| == 4
    ensures ToBytes(FromBytes(s)) == s
  {
    Digits(FromBytes(s), s[0] as int, s[1] as int, s[2] as int, s[3] as int);
    CastBack(s[0]);
    CastBack(s[1]);
    CastBack(s[2]);
    CastBack(s[3]);
  }
}
