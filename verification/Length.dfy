/**
 The length field of a frame: base 128, low digit first, at most four bytes.
 The layout is that of Remaining Length, section 2.2.3 of MQTT 3.1.1.
 */
module Length {
  import opened Prelude

  const WORD := 0x1_0000_0000

  function Pow2(k: nat): (r: nat)
    ensures r >= 1
  {
    if k == 0 then 1 else 2 * Pow2(k - 1)
  }

  /** Bitwise OR of two unsigned numbers, bit by bit. */
  function BitOr(a: nat, b: nat): nat
    decreases a + b
  {
    if a == 0 && b == 0 then 0 else Max(a % 2, b % 2) + 2 * BitOr(a / 2, b / 2)
  }

  /** `uint32(x) << k`: the bits that leave the 32-bit word are lost. */
  function ShiftLeft32(x: nat, k: nat): nat { x * Pow2(k) % WORD }

  lemma {:induction false} OrZero(b: nat)
    ensures BitOr(0, b) == b
  {
    if b > 0 { OrZero(b / 2); }
  }

  /** Numbers without a common bit: OR is addition. */
  lemma {:induction false} OrIsAddition(a: nat, c: nat, k: nat)
    requires a < Pow2(k)
    ensures BitOr(a, c * Pow2(k)) == a + c * Pow2(k)
  {
    if k == 0 {
      OrZero(c);
    } else {
      var half := c * Pow2(k - 1);
      OrIsAddition(a / 2, c, k - 1);
      OrDouble(a, half);
      TwiceAsFar(c, Pow2(k - 1));
    }
  }

  /** The lowest bit of an OR with an even number. */
  lemma OrDouble(a: nat, half: nat)
    ensures BitOr(a, 2 * half) == a % 2 + 2 * BitOr(a / 2, half)
  {
    OrZero(0);
  }

  lemma TwiceAsFar(c: nat, p: nat)
    ensures c * (2 * p) == 2 * (c * p)
  {
  }

  lemma PowersOfTheField()
    ensures Pow2(0) == 1 && Pow2(7) == 0x80 && Pow2(14) == 0x4000 && Pow2(21) == 0x20_0000 && Pow2(28) == 0x1000_0000
  {
    assert Pow2(7) == 0x80;
    assert Pow2(14) == 0x80 * Pow2(7);
    assert Pow2(21) == 0x80 * Pow2(14);
    assert Pow2(28) == 0x80 * Pow2(21);
  }

  /** The number a field denotes: its digits, low digit first, without the continuation bits. */
  function Value(field: seq<byte>): nat {
    if field == [] then 0 else field[0] % 128 + 128 * Value(field[1..])
  }

  /** A digit without its continuation bit. */
  function Low(b: byte): nat { b % 128 }

  /** The places of the digits, written out. */
  lemma ValueDigits(field: seq<byte>)
    requires 1 <= |field| <= 4
    ensures Value(field) == Low(field[0]) + (if |field| > 1 then Low(field[1]) * 128 else 0)
                            + (if |field| > 2 then Low(field[2]) * 16384 else 0)
                            + (if |field| > 3 then Low(field[3]) * 2097152 else 0)
  {
    var a := field[1..];
    if |field| > 1 {
      var b := a[1..];
      assert Value(a) == a[0] % 128 + 128 * Value(b);
      if |field| > 2 {
        var c := b[1..];
        assert Value(b) == b[0] % 128 + 128 * Value(c);
        if |field| > 3 {
          var d := c[1..];
          assert Value(c) == c[0] % 128 + 128 * Value(d);
          assert d == [];
        }
      }
    }
  }

  lemma {:induction false} ValueSnoc(field: seq<byte>, d: byte)
    ensures Value(field + [d]) == Value(field) + d % 128 * Pow2(7 * |field|)
  {
    if field == [] {
      assert [d][1..] == [];
    } else {
      var tail := field[1..];
      ValueSnoc(tail, d);
      assert (field + [d])[1..] == tail + [d];
      PowDigit(|tail|);
      var p, digit := Pow2(7 * |tail|), d % 128;
      assert Value(field + [d]) == field[0] % 128 + 128 * Value(tail + [d]);
      hide Pow2, Value;
      MoveDigit(Value(tail), digit, p);
    }
  }

  lemma MoveDigit(v: nat, digit: nat, p: nat)
    ensures 128 * (v + digit * p) == 128 * v + digit * (128 * p)
  {
  }

  /** One digit is seven bits. */
  lemma PowDigit(n: nat)
    ensures Pow2(7 * (n + 1)) == 128 * Pow2(7 * n)
  {
    PowersOfTheField();
    PowAdd(7, 7 * n);
  }

  lemma {:induction false} PowAdd(a: nat, b: nat)
    ensures Pow2(a + b) == Pow2(a) * Pow2(b)
  {
    if a > 0 {
      PowAdd(a - 1, b);
      assert Pow2(a + b) == 2 * Pow2(a - 1 + b);
      assert 2 * (Pow2(a - 1) * Pow2(b)) == 2 * Pow2(a - 1) * Pow2(b);
    }
  }

  lemma {:induction false} ValueBound(field: seq<byte>)
    ensures Value(field) < Pow2(7 * |field|)
  {
    if field != [] {
      ValueBound(field[1..]);
      PowersOfTheField();
      PowAdd(7, 7 * |field[1..]|);
    }
  }

  /**
   What the decoder accepts as a length field: only the last byte may lack the continuation bit,
   and it must lack it unless it is the fourth.
   */
  predicate IsField(f: seq<byte>) {
    && 1 <= |f| <= 4
    && (forall i :: 0 <= i < |f| - 1 ==> f[i] >= 128)
    && (|f| < 4 ==> f[|f| - 1] < 128)
  }

  /** The size of the field at the front of `data`, looked for from byte `i` on. */
  function FieldSize(data: seq<byte>, i: nat := 0): Option<nat>
    requires i <= 4
    decreases 4 - i
  {
    if i == 4 then Some(4)
    else if i >= |data| then None
    else if data[i] < 128 then Some(i + 1)
    else FieldSize(data, i + 1)
  }

  /** The search finds exactly the prefix that is a field. */
  lemma {:induction false} FieldSizeExact(data: seq<byte>, i: nat, k: nat)
    requires i <= 4 && i <= |data| && forall j :: 0 <= j < i ==> data[j] >= 128
    ensures FieldSize(data, i) == Some(k) <==> Max(i, 1) <= k <= |data| && k <= 4 && (i < 4 ==> k > i) && IsField(data[..k])
    decreases 4 - i
  {
    if i < 4 && i < |data| {
      if data[i] >= 128 {
        FieldSizeExact(data, i + 1, k);
      }
    }
  }

  /** A data stream begins with at most one field, and the decoder finds that one. */
  lemma FieldAtFront(data: seq<byte>, k: nat)
    ensures FieldSize(data) == Some(k) <==> k <= |data| && IsField(data[..k])
  {
    FieldSizeExact(data, 0, k);
  }

  /** A positive answer is unchanged by appending bytes: value and size both stay. */
  lemma FieldStable(data: seq<byte>, more: seq<byte>)
    requires FieldSize(data).Some?
    ensures FieldSize(data + more) == FieldSize(data)
    ensures var k := FieldSize(data).value; 1 <= k <= 4 && k <= |data| && (data + more)[..k] == data[..k]
  {
    var k := FieldSize(data).value;
    FieldAtFront(data, k);
    assert (data + more)[..k] == data[..k];
    FieldAtFront(data + more, k);
  }

  /** The minimal encoding of a length below 2^28. */
  function Encode(n: nat): (f: seq<byte>)
    requires n < 0x1000_0000
  {
    if n < 128 then [n] else [128 + n % 128] + Encode(n / 128)
  }

  lemma {:induction false} EncodeShape(n: nat, room: nat)
    requires n < 0x1000_0000 && n < Pow2(7 * room) && room >= 1
    ensures var f := Encode(n);
            && 1 <= |f| <= room && f[|f| - 1] < 128
            && (forall i :: 0 <= i < |f| - 1 ==> f[i] >= 128)
            && Value(f) == n
  {
    if n < 128 {
      assert [n as byte][1..] == [];
    } else {
      PowersOfTheField();
      PowAdd(7, 7 * (room - 1));
      hide Pow2;
      var p := Pow2(7 * (room - 1));
      assert n < 128 * p;
      assert p > 1;
      EncodeShape(n / 128, room - 1);
      var f := Encode(n);
      assert f[1..] == Encode(n / 128);
    }
  }

  /**
   Every length below 2^28 is recovered from its encoding, whatever follows it.
   */
  lemma EncodeDecode(n: nat, tail: seq<byte>)
    requires n < 0x1000_0000
    ensures var f := Encode(n);
            FieldSize(f + tail) == Some(|f|) && Value((f + tail)[..|f|]) == n
  {
    var f := Encode(n);
    PowersOfTheField();
    EncodeShape(n, 4);
    assert (f + tail)[..|f|] == f;
    FieldAtFront(f + tail, |f|);
  }

  /** No accepted field for the same length is shorter than `Encode`'s. */
  lemma EncodeMinimal(f: seq<byte>)
    requires IsField(f)
    ensures Value(f) < 0x1000_0000 && |Encode(Value(f))| <= |f|
  {
    ValueBound(f);
    PowersOfTheField();
    PowAdd(7 * |f|, 28 - 7 * |f|);
    assert Pow2(28) >= Pow2(7 * |f|) by {
      var p, q := Pow2(7 * |f|), Pow2(28 - 7 * |f|);
      assert p * q >= p * 1;
    }
    EncodeShape(Value(f), |f|);
  }

  /** Section 2.2.3 of MQTT 3.1.1 also requires the fourth byte to end the field. */
  predicate IsMqttField(f: seq<byte>) { IsField(f) && f[|f| - 1] < 128 }

  /** The decoder departs from the standard on exactly the inputs with four continuation bytes. */
  lemma DepartsFromMqtt(data: seq<byte>)
    ensures (exists k :: 0 <= k <= |data| && IsField(data[..k]) && !IsMqttField(data[..k]))
       <==> |data| >= 4 && forall i :: 0 <= i < 4 ==> data[i] >= 128
  {
    if |data| >= 4 && forall i :: 0 <= i < 4 ==> data[i] >= 128 {
      assert IsField(data[..4]) && !IsMqttField(data[..4]);
    }
    forall k | 0 <= k <= |data| && IsField(data[..k]) && !IsMqttField(data[..k])
      ensures |data| >= 4 && forall i :: 0 <= i < 4 ==> data[i] >= 128
    {
      var f := data[..k];
      assert k == 4;
      forall i | 0 <= i < 4 ensures data[i] >= 128 {
        assert data[i] == f[i];
      }
    }
  }

  lemma ShiftKeepsDigit(digit: nat, n: nat)
    requires digit < 128 && n <= 3
    ensures ShiftLeft32(digit, 7 * n) == digit * Pow2(7 * n)
  {
    PowersOfTheField();
    var p := Pow2(7 * n);
    assert p <= 0x20_0000;
    hide Pow2;
    assert digit * p <= 127 * 0x20_0000;
  }

  /** One round of the decoding loop: the 32-bit OR and shift add the next digit at its place. */
  lemma DigitByOr(before: seq<byte>, d: byte)
    requires |before| <= 3
    ensures BitOr(Value(before), ShiftLeft32(d % 128, 7 * |before|)) == Value(before + [d])
  {
    var k, digit := 7 * |before|, d % 128;
    assert ShiftLeft32(digit, k) == digit * Pow2(k) by {
      ShiftKeepsDigit(digit, |before|);
    }
    ValueSnoc(before, d);
    ValueBound(before);
    OrIsAddition(Value(before), digit, k);
  }

  lemma ValueOfNothing(data: seq<byte>)
    ensures Value(data[..0]) == 0
  {
  }

  /** The decoding loop, in 32-bit OR and shift. */
  method DecodeLength(data: seq<byte>) returns (length: nat, size: nat, has: bool)
    ensures has == FieldSize(data).Some?
    ensures has ==> 1 <= size <= 4 && size <= |data| && IsField(data[..size])
    ensures has ==> length == Value(data[..size]) < 0x1000_0000
    ensures !has ==> length == 0 && size == 0 && |data| < 4 && forall i :: 0 <= i < |data| ==> data[i] >= 128
    ensures has ==> (forall i :: 0 <= i < size - 1 ==> data[i] >= 128) && (data[size - 1] < 128 || size == 4)
    ensures has ==> length == Low(data[0]) + (if size > 1 then Low(data[1]) * 128 else 0)
                              + (if size > 2 then Low(data[2]) * 16384 else 0)
                              + (if size > 3 then Low(data[3]) * 2097152 else 0)
  {
    hide Value, Pow2, BitOr, ShiftLeft32;
    var rLength, multiplier, offset := 0, 0, 0;
    assert Value(data[..0]) == 0 by { ValueOfNothing(data); }
    while multiplier < 27
      invariant multiplier == 7 * offset && offset <= 4 && offset <= |data|
      invariant forall i :: 0 <= i < offset ==> data[i] >= 128
      invariant FieldSize(data) == FieldSize(data, offset)
      invariant rLength == Value(data[..offset])
      invariant offset == 4 ==> FieldSize(data) == Some(4)
      decreases 27 - multiplier
    {
      if offset >= |data| {
        return 0, 0, false;
      }
      var digit := data[offset];
      DigitByOr(data[..offset], digit);
      assert data[..offset + 1] == data[..offset] + [digit];
      offset := offset + 1;
      rLength := BitOr(rLength, ShiftLeft32(digit % 128, multiplier));
      if digit < 128 {
        break;
      }
      multiplier := multiplier + 7;
    }
    assert FieldSize(data) == Some(offset);
    FieldAtFront(data, offset);
    EncodeMinimal(data[..offset]);
    ValueDigits(data[..offset]);
    return rLength, offset, true;
  }
}
