/** Signed page tokens: a row offset and a keyed rotation of it, both in hexadecimal. */
module PageTokens {
  import opened Outcomes
  import opened Numerals

  const U64_MAX: nat := 0xFFFF_FFFF_FFFF_FFFF

  /** Text after URL-safe base64; decoding undoes encoding and rejects anything else. */
  datatype Base64 = Encoded(text: string) | Malformed

  function Pow2(n: nat): nat {
    if n == 0 then 1 else 2 * Pow2(n - 1)
  }

  /** `x.rotate_left(17)` on 64 bits. */
  function RotateLeft17(x: nat): nat {
    (x % 0x8000_0000_0000) * 0x2_0000 + x / 0x8000_0000_0000
  }

  /** The exclusive or of the low `bits` bits. */
  function Xor(a: nat, b: nat, bits: nat): nat {
    if bits == 0 then 0 else 2 * Xor(a / 2, b / 2, bits - 1) + (if a % 2 == b % 2 then 0 else 1)
  }

  function Sign(offset: nat, secret: nat): nat {
    Xor(RotateLeft17(offset), secret, 64)
  }

  lemma {:induction false} XorFits(a: nat, b: nat, bits: nat)
    ensures Xor(a, b, bits) < Pow2(bits)
  {
    if bits > 0 {
      XorFits(a / 2, b / 2, bits - 1);
    }
  }

  lemma {:induction false} XorSeparates(x: nat, a: nat, b: nat, bits: nat)
    requires a < Pow2(bits) && b < Pow2(bits)
    ensures Xor(x, a, bits) == Xor(x, b, bits) <==> a == b
  {
    if bits > 0 {
      XorSeparates(x / 2, a / 2, b / 2, bits - 1);
    }
  }

  lemma SixtyFourBits()
    ensures Pow2(64) == U64_MAX + 1
  {
    assert Pow2(4) == 16 by {
      assert Pow2(2) == 4;
    }
    Pow2Sum(4, 4);
    assert Pow2(8) == 0x100;
    Pow2Sum(8, 8);
    assert Pow2(16) == 0x1_0000;
    Pow2Sum(16, 16);
    assert Pow2(32) == 0x1_0000_0000;
    Pow2Sum(32, 32);
  }

  lemma {:induction false} Pow2Sum(a: nat, b: nat)
    ensures Pow2(a + b) == Pow2(a) * Pow2(b)
  {
    if a > 0 {
      Pow2Sum(a - 1, b);
    }
  }

  // ---- the signature, bit by bit ----

  /** The low `n` bits of `x`, the lowest first. */
  function Bits(x: nat, n: nat): (bits: seq<bool>)
    ensures |bits| == n
  {
    if n == 0 then [] else [x % 2 == 1] + Bits(x / 2, n - 1)
  }

  lemma {:induction false} XorIsBitwise(a: nat, b: nat, n: nat, i: nat)
    requires i < n
    ensures Bits(Xor(a, b, n), n)[i] == (Bits(a, n)[i] != Bits(b, n)[i])
  {
    if i > 0 {
      XorIsBitwise(a / 2, b / 2, n - 1, i - 1);
    }
  }

  lemma HalfOfSum(low: nat, p: nat)
    ensures (low + 2 * p) / 2 == low / 2 + p && (low + 2 * p) % 2 == low % 2
  {
  }

  /** Bits above a number that fits in `m` bits stand behind that number's bits. */
  lemma {:induction false} BitsConcat(low: nat, high: nat, m: nat, n: nat)
    requires low < Pow2(m)
    ensures Bits(low + high * Pow2(m), m + n) == Bits(low, m) + Bits(high, n)
  {
    if m == 0 {
      assert low + high * Pow2(m) == high;
      assert Bits(low, 0) + Bits(high, n) == Bits(high, n);
    } else {
      var p := high * Pow2(m - 1);
      assert high * Pow2(m) == 2 * p;
      HalfOfSum(low, p);
      BitsConcat(low / 2, high, m - 1, n);
      assert Bits(low + 2 * p, m + n) == [low % 2 == 1] + Bits(low / 2 + p, m + n - 1);
      assert Bits(low, m) == [low % 2 == 1] + Bits(low / 2, m - 1);
    }
  }

  lemma SmallPowers()
    ensures Pow2(17) == 0x2_0000 && Pow2(47) == 0x8000_0000_0000
  {
    assert Pow2(4) == 16 by {
      assert Pow2(2) == 4;
    }
    Pow2Sum(4, 4);
    Pow2Sum(8, 8);
    assert Pow2(16) == 0x1_0000;
    Pow2Sum(16, 16);
    assert Pow2(17) == 2 * Pow2(16);
    assert Pow2(15) * 2 == Pow2(16);
    Pow2Sum(32, 15);
  }

  lemma SwappedParts(low: nat, high: nat, m: nat, n: nat)
    requires low < Pow2(m) && high < Pow2(n)
    ensures
      var bits := Bits(low + high * Pow2(m), m + n);
      Bits(high + low * Pow2(n), n + m) == bits[m..] + bits[..m]
  {
    BitsConcat(low, high, m, n);
    BitsConcat(high, low, n, m);
  }

  /** Rotating moves every bit up by seventeen places, the top seventeen to the bottom. */
  lemma RotationMovesBits(x: nat)
    requires x <= U64_MAX
    ensures Bits(RotateLeft17(x), 64) == Bits(x, 64)[47..] + Bits(x, 64)[..47]
  {
    SmallPowers();
    SwappedParts(x % 0x8000_0000_0000, x / 0x8000_0000_0000, 47, 17);
  }

  /** The signature of an offset, bit by bit: the offset's bit seventeen places below, flipped where the secret has a one. */
  lemma SignatureBits(offset: nat, secret: nat, i: nat)
    requires offset <= U64_MAX && i < 64
    ensures Bits(Sign(offset, secret), 64)[i] == (Bits(offset, 64)[if i < 17 then i + 47 else i - 17] != Bits(secret, 64)[i])
  {
    RotationMovesBits(offset);
    XorIsBitwise(RotateLeft17(offset), secret, 64, i);
  }

  function EncodePageToken(offset: nat, secret: nat): Base64 {
    Encoded(Show(offset, 16) + ":" + Show(Sign(offset, secret), 16))
  }

  function DecodePageToken(token: Base64, secret: nat): Result<nat, string> {
    if token.Malformed? || IndexOf(token.text, ':') == |token.text| then Err("invalid_page_token")
    else
      var colon := IndexOf(token.text, ':');
      var offset := ParseUnsigned(token.text[..colon], 16, U64_MAX);
      var signature := ParseUnsigned(token.text[colon + 1..], 16, U64_MAX);
      if offset.None? || signature.None? || signature.value != Sign(offset.value, secret) then Err("invalid_page_token")
      else Ok(offset.value)
  }

  /** A token issued under one secret decodes, to its own offset, under that secret and no other. */
  lemma PageTokenRoundTrip(offset: nat, issued: nat, secret: nat)
    requires offset <= U64_MAX && issued <= U64_MAX && secret <= U64_MAX
    ensures DecodePageToken(EncodePageToken(offset, issued), secret)
         == if secret == issued then Ok(offset) else Err("invalid_page_token")
  {
    var front, back := Show(offset, 16), Show(Sign(offset, issued), 16);
    var text := front + ":" + back;
    ShowThenRead(offset, 16);
    forall i | 0 <= i < |front| ensures front[i] != ':' {
      OnlyDigits(front, 16, i);
    }
    SixtyFourBits();
    XorFits(RotateLeft17(offset), issued, 64);
    IndexAfter(front, ':', back);
    assert text[..|front|] == front && text[|front| + 1..] == back;
    ParseShown(offset, 16, U64_MAX);
    ParseShown(Sign(offset, issued), 16, U64_MAX);
    XorSeparates(RotateLeft17(offset), issued, secret, 64);
  }
}
