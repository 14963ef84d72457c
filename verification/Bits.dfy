/** The bit reader of nalu.cpp, against bit strings: fixed-width fields and the Exp-Golomb codes of
    sections 9.1 and 9.1.1 of ITU-T H.264. The C++ reads past the end of its buffer, and shifts by
    more than 30, without noticing; both are undefined there, so here such a read is `Undefined`. */
module Bits {
  import opened Nalu

  type Bit = b: nat | b < 2

  datatype Read<+T> = Undefined | Got(value: T, cursor: nat) {
    predicate IsFailure() {
      Undefined?
    }

    function PropagateFailure<U>(): Read<U>
      requires Undefined?
    {
      Undefined
    }

    function Extract(): (T, nat)
      requires Got?
    {
      (value, cursor)
    }
  }

  function Pow2(n: nat): (p: nat)
    ensures p >= 1
  {
    if n == 0 then 1 else 2 * Pow2(n - 1)
  }

  function ShiftRight(x: nat, k: nat): nat
    decreases k
  {
    if k == 0 then x else ShiftRight(x / 2, k - 1)
  }

  /** The i-th bit of a buffer, most significant bit of each byte first. */
  function BitAt(d: seq<Byte>, i: nat): Bit
    requires i < 8 * |d|
  {
    ShiftRight(d[i / 8], 7 - i % 8) % 2
  }

  function BitsOf(d: seq<Byte>): seq<Bit> {
    seq(8 * |d|, i requires 0 <= i < 8 * |d| => BitAt(d, i))
  }

  /** The number a bit string denotes. */
  function Value(bs: seq<Bit>): nat {
    if bs == [] then 0 else 2 * Value(bs[..|bs|-1]) + bs[|bs|-1]
  }

  // ----- Specification of the reader -----

  function Field(bits: seq<Bit>, n: nat, cur: nat): (r: Read<nat>)
    requires cur <= |bits|
    ensures r.Got? ==> r.cursor == cur + n <= |bits|
  {
    if cur + n <= |bits| then Got(Value(bits[cur..cur + n]), cur + n) else Undefined
  }

  /** How many zero bits precede the next one bit. */
  function Zeros(bits: seq<Bit>, cur: nat): (r: Read<nat>)
    requires cur <= |bits|
    ensures r.Got? ==> r.cursor == cur + r.value + 1 <= |bits|
    decreases |bits| - cur
  {
    if cur == |bits| then Undefined
    else if bits[cur] == 1 then Got(0, cur + 1)
    else
      var (z, c) :- Zeros(bits, cur + 1);
      Got(z + 1, c)
  }

  const MAX_ZEROS := 30

  function UnsignedGolomb(bits: seq<Bit>, cur: nat): (r: Read<nat>)
    requires cur <= |bits|
    ensures r.Got? ==> cur < r.cursor <= |bits|
  {
    var (z, c) :- Zeros(bits, cur);
    if z > MAX_ZEROS then Undefined else
    var (v, c') :- Field(bits, z, c);
    Got(v + Pow2(z) - 1, c')
  }

  /** The mapping of code numbers to signed values of section 9.1.1. */
  function FromCodeNum(k: nat): int {
    if k % 2 == 1 then (k + 1) / 2 else -(k / 2)
  }

  function SignedGolomb(bits: seq<Bit>, cur: nat): (r: Read<int>)
    requires cur <= |bits|
    ensures r.Got? ==> cur < r.cursor <= |bits|
  {
    var (k, c) :- UnsignedGolomb(bits, cur);
    Got(FromCodeNum(k), c)
  }

  // ----- The reader -----

  method ReadBit(data: seq<Byte>, cur: nat) returns (r: Read<nat>)
    ensures r == if cur < 8 * |data| then Got(BitAt(data, cur), cur + 1) else Undefined
  {
    if cur >= 8 * |data| {
      return Undefined;
    }
    var index, offset := cur / 8, cur % 8 + 1;
    return Got(ShiftRight(data[index], 8 - offset) % 2, cur + 1);
  }

  lemma ValueExtend(bits: seq<Bit>, i: nat, j: nat)
    requires i <= j < |bits|
    ensures Value(bits[i..j+1]) == 2 * Value(bits[i..j]) + bits[j]
  {
    assert bits[i..j+1][..j-i] == bits[i..j];
  }

  /** A left shift. */
  function Shifted(v: nat, k: nat): nat {
    v * Pow2(k)
  }

  lemma ShiftIn(v: nat, value: nat, bit: nat, k: nat)
    requires v == Shifted(value, k + 1)
    ensures v + Shifted(bit, k) == Shifted(2 * value + bit, k)
  {
    var p := Pow2(k);
    assert Pow2(k + 1) == 2 * p;
    assert value * (2 * p) + bit * p == (2 * value + bit) * p;
  }

  lemma ShiftNone(v: nat, k: nat)
    ensures Shifted(0, k) == 0 && Shifted(v, 0) == v
  {
  }

  lemma ValueOfNothing(bits: seq<Bit>)
    requires |bits| == 0
    ensures Value(bits) == 0
  {
  }

  /** Each bit is moved to its place and added in. */
  method ReadBits(n: nat, data: seq<Byte>, from: nat) returns (r: Read<nat>)
    requires from <= 8 * |data|
    ensures r == Field(BitsOf(data), n, from)
  {
    hide Value, BitAt, Shifted;
    ghost var bits := BitsOf(data);
    var v, cur := 0, from;
    ValueOfNothing(bits[from..from]);
    ShiftNone(0, n);
    for i := 0 to n
      invariant cur == from + i <= |bits|
      invariant v == Shifted(Value(bits[from..cur]), n - i)
    {
      var b :- ReadBit(data, cur);
      ValueExtend(bits, from, cur);
      ShiftIn(v, Value(bits[from..cur]), b.0, n - i - 1);
      v := v + Shifted(b.0, n - i - 1);
      cur := b.1;
    }
    ShiftNone(Value(bits[from..cur]), 0);
    return Got(v, cur);
  }

  method ReadUnsignedGolomb(data: seq<Byte>, from: nat) returns (r: Read<nat>)
    requires from <= 8 * |data|
    ensures r == UnsignedGolomb(BitsOf(data), from)
  {
    hide Value, BitAt, Pow2, Field;
    ghost var bits := BitsOf(data);
    var i, cur := 0, from;
    while true
      invariant cur == from + i <= |bits| && i <= MAX_ZEROS
      invariant var z := Zeros(bits, cur);
        Zeros(bits, from) == if z.Undefined? then Undefined else Got(i + z.value, z.cursor)
      decreases MAX_ZEROS - i
    {
      var b :- ReadBit(data, cur);
      assert b.0 == bits[cur];
      cur := b.1;
      if b.0 != 0 {
        break;
      }
      i := i + 1;
      if i > MAX_ZEROS {
        return Undefined;
      }
    }
    assert Zeros(bits, from) == Got(i, cur);
    var v :- ReadBits(i, data, cur);
    return Got(v.0 + Pow2(i) - 1, v.1);
  }

  method ReadSignedGolomb(data: seq<Byte>, from: nat) returns (r: Read<int>)
    requires from <= 8 * |data|
    ensures r == SignedGolomb(BitsOf(data), from)
  {
    hide UnsignedGolomb, BitsOf;
    var k :- ReadUnsignedGolomb(data, from);
    var x: int := k.0;
    if x % 2 == 1 {
      x := (x + 1) / 2;
    } else {
      x := -(x / 2);
    }
    return Got(x, k.1);
  }

  // ----- The codes of sections 9.1 and 9.1.1 -----

  /** n in k bits, most significant bit first. */
  function Binary(n: nat, k: nat): (bs: seq<Bit>)
    ensures |bs| == k
  {
    if k == 0 then [] else Binary(n / 2, k - 1) + [n % 2]
  }

  /** The exponent of the largest power of two that is not above n. */
  function Log2(n: nat): (z: nat)
    requires n >= 1
    ensures Pow2(z) <= n < Pow2(z + 1)
  {
    if n == 1 then 0 else Log2(n / 2) + 1
  }

  function ZeroBits(k: nat): (bs: seq<Bit>)
    ensures |bs| == k && forall i | 0 <= i < k :: bs[i] == 0
  {
    seq(k, i => 0)
  }

  /** ue(v): as many zeros as the bits of v + 1 after its leading one, then v + 1 itself. */
  function EncodeUnsigned(v: nat): (bs: seq<Bit>)
    ensures bs != []
  {
    var z := Log2(v + 1);
    ZeroBits(z) + [1] + Binary(v + 1 - Pow2(z), z)
  }

  function ToCodeNum(x: int): nat {
    if x > 0 then 2 * x - 1 else -2 * x
  }

  /** se(v). */
  function EncodeSigned(x: int): (bs: seq<Bit>)
    ensures bs != []
  {
    EncodeUnsigned(ToCodeNum(x))
  }

  /** `code` is what the bit string holds at the cursor. */
  ghost predicate At(bits: seq<Bit>, cur: nat, code: seq<Bit>) {
    cur + |code| <= |bits| && bits[cur..cur + |code|] == code
  }

  lemma AtSplit(bits: seq<Bit>, cur: nat, a: seq<Bit>, b: seq<Bit>)
    requires At(bits, cur, a + b)
    ensures At(bits, cur, a) && At(bits, cur + |a|, b)
  {
    var c := bits[cur..cur + |a| + |b|];
    assert bits[cur..cur + |a|] == c[..|a|] == a;
    assert bits[cur + |a|..cur + |a| + |b|] == c[|a|..] == b;
  }

  lemma {:induction false} BinaryValue(n: nat, k: nat)
    requires n < Pow2(k)
    ensures Value(Binary(n, k)) == n
  {
    if k > 0 {
      BinaryValue(n / 2, k - 1);
      assert Binary(n, k)[..k-1] == Binary(n / 2, k - 1);
    }
  }

  lemma {:induction false} ZerosOfRun(bits: seq<Bit>, cur: nat, z: nat)
    requires cur + z < |bits| && bits[cur + z] == 1
    requires forall i | cur <= i < cur + z :: bits[i] == 0
    ensures Zeros(bits, cur) == Got(z, cur + z + 1)
    decreases z
  {
    if z > 0 {
      ZerosOfRun(bits, cur + 1, z - 1);
    }
  }

  lemma {:induction false} Pow2Monotone(a: nat, b: nat)
    requires a <= b
    ensures Pow2(a) <= Pow2(b)
    decreases b - a
  {
    if a < b {
      Pow2Monotone(a + 1, b);
    }
  }

  lemma {:induction false} Pow2Sum(a: nat, b: nat)
    ensures Pow2(a + b) == Pow2(a) * Pow2(b)
    decreases b
  {
    if b > 0 {
      Pow2Sum(a, b - 1);
      assert Pow2(a + b) == 2 * Pow2(a + (b - 1));
    }
  }

  lemma Pow2Of31()
    ensures Pow2(31) == 0x8000_0000
  {
    assert Pow2(3) == 8;
    hide Pow2;
    Pow2Step(3);
    Pow2Sum(4, 4);
    assert Pow2(8) == 256;
    Pow2Sum(8, 8);
    assert Pow2(16) == 65536;
    Pow2Step(15);
    assert Pow2(15) == 32768;
    Pow2Sum(16, 15);
  }

  /** The codes that fit: those of numbers below 2^31 - 1. */
  predicate Encodable(v: nat) {
    v + 1 < 0x8000_0000
  }

  lemma EncodableZeros(v: nat)
    requires Encodable(v)
    ensures Log2(v + 1) <= MAX_ZEROS
  {
    hide Log2;
    Pow2Of31();
    if Log2(v + 1) > MAX_ZEROS {
      Pow2Monotone(31, Log2(v + 1));
    }
  }

  lemma GolombZeros(bits: seq<Bit>, cur: nat, z: nat, rest: seq<Bit>)
    requires At(bits, cur, ZeroBits(z) + [1] + rest)
    ensures Zeros(bits, cur) == Got(z, cur + z + 1) && At(bits, cur + z + 1, rest)
  {
    AtSplit(bits, cur, ZeroBits(z) + [1], rest);
    AtSplit(bits, cur, ZeroBits(z), [1]);
    assert bits[cur + z] == bits[cur + z..cur + z + 1][0] == 1;
    forall i | cur <= i < cur + z ensures bits[i] == 0 {
      assert bits[i] == bits[cur..cur + z][i - cur];
    }
    ZerosOfRun(bits, cur, z);
  }

  /** Decoding inverts ue(v), wherever the code stands, and moves exactly past it. */
  lemma UnsignedRoundTrip(bits: seq<Bit>, cur: nat, v: nat)
    requires At(bits, cur, EncodeUnsigned(v)) && Encodable(v)
    ensures UnsignedGolomb(bits, cur) == Got(v, cur + |EncodeUnsigned(v)|)
  {
    hide Log2, Pow2, Zeros, Value;
    var z := Log2(v + 1);
    EncodableZeros(v);
    Pow2Step(z);
    GolombZeros(bits, cur, z, Binary(v + 1 - Pow2(z), z));
    BinaryValue(v + 1 - Pow2(z), z);
  }

  lemma Pow2Step(z: nat)
    ensures Pow2(z + 1) == 2 * Pow2(z)
  {
  }

  /** Decoding inverts se(v). */
  lemma SignedRoundTrip(bits: seq<Bit>, cur: nat, x: int)
    requires At(bits, cur, EncodeSigned(x)) && Encodable(ToCodeNum(x))
    ensures SignedGolomb(bits, cur) == Got(x, cur + |EncodeSigned(x)|)
  {
    hide UnsignedGolomb, EncodeUnsigned;
    UnsignedRoundTrip(bits, cur, ToCodeNum(x));
  }

  lemma FieldRoundTrip(bits: seq<Bit>, cur: nat, n: nat, k: nat)
    requires At(bits, cur, Binary(n, k)) && n < Pow2(k)
    ensures Field(bits, k, cur) == Got(n, cur + k)
  {
    BinaryValue(n, k);
  }

  // ----- Only codes are read -----

  lemma {:induction false} ValueBinary(bits: seq<Bit>)
    ensures Value(bits) < Pow2(|bits|) && Binary(Value(bits), |bits|) == bits
  {
    if bits != [] {
      var front := bits[..|bits|-1];
      ValueBinary(front);
      assert front + [bits[|bits|-1]] == bits;
      assert Value(bits) / 2 == Value(front) && Value(bits) % 2 == bits[|bits|-1];
    }
  }

  lemma {:induction false} RunOfZeros(bits: seq<Bit>, cur: nat)
    requires cur <= |bits| && Zeros(bits, cur).Got?
    ensures var z := Zeros(bits, cur).value;
      cur + z < |bits| && bits[cur + z] == 1 && forall i | cur <= i < cur + z :: bits[i] == 0
    decreases |bits| - cur
  {
    if bits[cur] != 1 {
      RunOfZeros(bits, cur + 1);
    }
  }

  lemma Log2IsUnique(n: nat, z: nat)
    requires n >= 1 && Pow2(z) <= n < Pow2(z + 1)
    ensures Log2(n) == z
  {
    hide Pow2, Log2;
    var l := Log2(n);
    if l < z {
      Pow2Monotone(l + 1, z);
    } else if z < l {
      Pow2Monotone(z + 1, l);
    }
  }

  lemma EncodingOf(x: nat, z: nat)
    requires x < Pow2(z)
    ensures EncodeUnsigned(x + Pow2(z) - 1) == ZeroBits(z) + [1] + Binary(x, z)
  {
    hide Pow2, Log2, ZeroBits, Binary;
    Pow2Step(z);
    Log2IsUnique(x + Pow2(z), z);
  }

  lemma GolombCode(bits: seq<Bit>, cur: nat, z: nat)
    requires cur + z + 1 + z <= |bits| && bits[cur + z] == 1
    requires forall i | cur <= i < cur + z :: bits[i] == 0
    ensures bits[cur..cur + z + 1 + z] == ZeroBits(z) + [1] + bits[cur + z + 1..cur + z + 1 + z]
  {
    assert bits[cur..cur + z] == ZeroBits(z);
    assert bits[cur..cur + z + 1 + z] == bits[cur..cur + z] + [bits[cur + z]] + bits[cur + z + 1..cur + z + 1 + z];
  }

  /** Whatever the bits: a number is read exactly where its code stands, and the code is passed over. */
  lemma UnsignedIsReadIff(bits: seq<Bit>, cur: nat, v: nat, next: nat)
    requires cur <= |bits|
    ensures UnsignedGolomb(bits, cur) == Got(v, next)
       <==> Encodable(v) && At(bits, cur, EncodeUnsigned(v)) && next == cur + |EncodeUnsigned(v)|
  {
    hide Pow2, Zeros, Value, EncodeUnsigned;
    if UnsignedGolomb(bits, cur) == Got(v, next) {
      var z := Zeros(bits, cur).value;
      RunOfZeros(bits, cur);
      GolombCode(bits, cur, z);
      ValueBinary(bits[cur + z + 1..cur + z + 1 + z]);
      EncodingOf(Value(bits[cur + z + 1..cur + z + 1 + z]), z);
      Pow2Step(z);
      Pow2Monotone(z + 1, 31);
      Pow2Of31();
    } else if Encodable(v) && At(bits, cur, EncodeUnsigned(v)) {
      UnsignedRoundTrip(bits, cur, v);
    }
  }

  /** The same for signed numbers. */
  lemma SignedIsReadIff(bits: seq<Bit>, cur: nat, x: int, next: nat)
    requires cur <= |bits|
    ensures SignedGolomb(bits, cur) == Got(x, next)
       <==> Encodable(ToCodeNum(x)) && At(bits, cur, EncodeSigned(x)) && next == cur + |EncodeSigned(x)|
  {
    hide UnsignedGolomb, EncodeUnsigned;
    var r := UnsignedGolomb(bits, cur);
    if SignedGolomb(bits, cur) == Got(x, next) {
      CodeNumIsUnique(r.value, x);
      UnsignedIsReadIff(bits, cur, r.value, r.cursor);
    } else if Encodable(ToCodeNum(x)) && At(bits, cur, EncodeSigned(x)) {
      SignedRoundTrip(bits, cur, x);
    }
  }

  lemma CodeNumIsUnique(k: nat, x: int)
    ensures FromCodeNum(k) == x <==> k == ToCodeNum(x)
  {
  }
}
