/** UTF-8: the octet sequences of section 4 of RFC 3629, the encoder of the profile parser, and its check
    of raw bytes. */
module Utf8 {

  type Byte = x: int | 0 <= x < 256

  type Bytes = seq<Byte>

  /** What a reading function yields: a value and the position after it. */
  datatype Parsed<T> = Done(value: T, next: nat) | Failed

  // ----- the standard

  /** A Unicode scalar value: any code point except the surrogates. */
  predicate Scalar(cp: nat)
  {
    cp <= 0x10ffff && !(0xd800 <= cp <= 0xdfff)
  }

  predicate Tail(b: Byte)
  {
    0x80 <= b <= 0xbf
  }

  /** UTF8-char of RFC 3629, section 4. */
  predicate Utf8Char(b: Bytes)
  {
    || (|b| == 1 && b[0] <= 0x7f)
    || (|b| == 2 && 0xc2 <= b[0] <= 0xdf && Tail(b[1]))
    || (|b| == 3 && Tail(b[2]) &&
        (|| (b[0] == 0xe0 && 0xa0 <= b[1] <= 0xbf)
         || (0xe1 <= b[0] <= 0xec && Tail(b[1]))
         || (b[0] == 0xed && 0x80 <= b[1] <= 0x9f)
         || (0xee <= b[0] <= 0xef && Tail(b[1]))))
    || (|b| == 4 && Tail(b[2]) && Tail(b[3]) &&
        (|| (b[0] == 0xf0 && 0x90 <= b[1] <= 0xbf)
         || (0xf1 <= b[0] <= 0xf3 && Tail(b[1]))
         || (b[0] == 0xf4 && 0x80 <= b[1] <= 0x8f)))
  }

  /** How many octets a character with this first octet has. */
  function Length(lead: Byte): (n: nat)
    ensures 1 <= n <= 4
  {
    if lead < 0xc0 then 1 else if lead < 0xe0 then 2 else if lead < 0xf0 then 3 else 4
  }

  /** UTF8-octets of RFC 3629, section 4: a sequence of characters. */
  predicate Utf8String(b: Bytes)
  {
    b == [] ||
    var n := Length(b[0]);
    n <= |b| && Utf8Char(b[..n]) && Utf8String(b[n..])
  }

  // ----- the encoder

  /** append_utf8. */
  function Encode(cp: nat): Bytes
    requires cp <= 0x10ffff
  {
    if cp <= 0x7f then [cp]
    else if cp <= 0x7ff then [0xc0 + cp / 64, 0x80 + cp % 64]
    else if cp <= 0xffff then [0xe0 + cp / 4096, 0x80 + cp / 64 % 64, 0x80 + cp % 64]
    else [0xf0 + cp / 262144, 0x80 + cp / 4096 % 64, 0x80 + cp / 64 % 64, 0x80 + cp % 64]
  }

  /** The masks and shifts the encoder is written with, on 32-bit words. */
  lemma EncoderShifts(cp: bv32)
    requires cp <= 0x10ffff
    ensures (0x80 | (cp & 0x3f)) == 0x80 + cp % 64
    ensures (0x80 | ((cp >> 6) & 0x3f)) == 0x80 + cp / 64 % 64
    ensures (0x80 | ((cp >> 12) & 0x3f)) == 0x80 + cp / 4096 % 64
    ensures cp <= 0x7ff ==> (0xc0 | (cp >> 6)) == 0xc0 + cp / 64
    ensures cp <= 0xffff ==> (0xe0 | (cp >> 12)) == 0xe0 + cp / 4096
    ensures (0xf0 | (cp >> 18)) == 0xf0 + cp / 262144
  {
  }

  /** The bits of one more continuation byte. */
  function Push(cp: nat, b: Byte): nat
    requires Tail(b)
  {
    cp * 64 + (b - 0x80)
  }

  /** The value a character stands for. */
  function Decode(b: Bytes): nat
    requires Utf8Char(b)
  {
    if |b| == 1 then b[0]
    else if |b| == 2 then Push(b[0] - 0xc0, b[1])
    else if |b| == 3 then Push(Push(b[0] - 0xe0, b[1]), b[2])
    else Push(Push(Push(b[0] - 0xf0, b[1]), b[2]), b[3])
  }

  lemma SplitDigits(cp: nat)
    ensures cp == cp / 64 * 64 + cp % 64
    ensures cp / 4096 == cp / 64 / 64 && cp / 262144 == cp / 64 / 64 / 64
  {
  }

  /** The encoder yields exactly the characters of the standard, one for each scalar value. */
  lemma EncodeIsUtf8(cp: nat)
    requires Scalar(cp)
    ensures Utf8Char(Encode(cp)) && Decode(Encode(cp)) == cp
  {
    SplitDigits(cp);
    SplitDigits(cp / 64);
    SplitDigits(cp / 64 / 64);
    if cp <= 0x7ff {
    } else if cp <= 0xffff {
      EncodeThree(cp / 64 / 64, cp / 64 % 64, cp % 64);
    } else {
      EncodeFour(cp / 64 / 64 / 64, cp / 64 / 64 % 64, cp / 64 % 64, cp % 64);
    }
  }

  lemma EncodeThree(a: nat, b: nat, c: nat)
    requires b < 64 && c < 64 && 0x7ff < (a * 64 + b) * 64 + c <= 0xffff && Scalar((a * 64 + b) * 64 + c)
    ensures Utf8Char([0xe0 + a, 0x80 + b, 0x80 + c])
  {
  }

  lemma EncodeFour(a: nat, b: nat, c: nat, d: nat)
    requires b < 64 && c < 64 && d < 64
    requires 0xffff < ((a * 64 + b) * 64 + c) * 64 + d <= 0x10ffff
    ensures Utf8Char([0xf0 + a, 0x80 + b, 0x80 + c, 0x80 + d])
  {
  }

  lemma Pushed(cp: nat, b: Byte)
    requires Tail(b)
    ensures Push(cp, b) / 64 == cp && 0x80 + Push(cp, b) % 64 == b
  {
  }

  lemma DecodeIsScalar(b: Bytes)
    requires Utf8Char(b)
    ensures Scalar(Decode(b)) && Encode(Decode(b)) == b
  {
    hide Push;
    if |b| == 1 {
    } else if |b| == 2 {
      DecodeTwo(b[0] - 0xc0, b[1]);
    } else if |b| == 3 {
      DecodeThree(b[0] - 0xe0, b[1], b[2]);
    } else {
      DecodeFour(b[0] - 0xf0, b[1], b[2], b[3]);
    }
  }

  lemma DecodeTwo(a: nat, b: Byte)
    requires a < 32 && Utf8Char([0xc0 + a, b])
    ensures var cp := Push(a, b);
      && 0x7f < cp <= 0x7ff
      && cp / 64 == a && 0x80 + cp % 64 == b
  {
    Pushed(a, b);
  }

  lemma DecodeThree(a: nat, b: Byte, c: Byte)
    requires a < 16 && Utf8Char([0xe0 + a, b, c])
    ensures var cp := Push(Push(a, b), c);
      && 0x7ff < cp <= 0xffff && Scalar(cp)
      && cp / 4096 == a && 0x80 + cp / 64 % 64 == b && 0x80 + cp % 64 == c
  {
    SplitDigits(Push(Push(a, b), c));
    Pushed(a, b);
    Pushed(Push(a, b), c);
  }

  lemma DecodeFour(a: nat, b: Byte, c: Byte, d: Byte)
    requires a < 8 && Utf8Char([0xf0 + a, b, c, d])
    ensures var cp := Push(Push(Push(a, b), c), d);
      && 0xffff < cp <= 0x10ffff
      && cp / 262144 == a && 0x80 + cp / 4096 % 64 == b && 0x80 + cp / 64 % 64 == c && 0x80 + cp % 64 == d
  {
    SplitDigits(Push(Push(Push(a, b), c), d));
    Pushed(a, b);
    Pushed(Push(a, b), c);
    Pushed(Push(Push(a, b), c), d);
  }

  lemma LengthIsRight(b: Bytes)
    requires Utf8Char(b)
    ensures Length(b[0]) == |b|
  {
  }

  lemma {:induction false} Utf8Append(b: Bytes, c: Bytes)
    requires Utf8String(b) && Utf8Char(c)
    ensures Utf8String(b + c)
  {
    if b == [] {
      LengthIsRight(c);
      assert b + c == c && c[..|c|] == c && c[|c|..] == [];
    } else {
      var n := Length(b[0]);
      Utf8Append(b[n..], c);
      assert (b + c)[..n] == b[..n] && (b + c)[n..] == b[n..] + c;
    }
  }

  // ----- the check of raw bytes

  /** The continuation bytes: k more of them, shifted into cp. */
  function Continuation(s: Bytes, p: nat, k: nat, cp: nat): (r: Parsed<nat>)
    ensures r.Done? ==> r.next == p + k && (k > 0 ==> r.next <= |s|)
    ensures r.Done? ==> forall i :: p <= i < p + k ==> Tail(s[i])
    decreases k
  {
    if k == 0 then Done(cp, p)
    else if p >= |s| || !Tail(s[p]) then Failed
    else Continuation(s, p + 1, k - 1, Push(cp, s[p]))
  }

  /** One raw character that starts with a byte above 0x7f. */
  function RawAt(s: Bytes, p: nat): (r: Parsed<Bytes>)
    requires p < |s| && s[p] >= 0x80
    ensures r.Done? ==> p < r.next <= |s| && r.value == s[p..r.next]
  {
    var c := s[p];
    var k := if 0xc0 <= c < 0xe0 then 1 else if 0xe0 <= c < 0xf0 then 2 else if 0xf0 <= c < 0xf8 then 3 else 0;
    var bits := if k == 1 then c - 0xc0 else if k == 2 then c - 0xe0 else if k == 3 then c - 0xf0 else 0;
    if k == 0 || (k == 1 && bits < 2) then Failed
    else
      match Continuation(s, p + 1, k, bits)
      case Failed => Failed
      case Done(cp, next) =>
        if (k == 2 && cp < 0x800) || (k == 3 && cp < 0x10000) || cp > 0x10ffff || 0xd800 <= cp <= 0xdfff then Failed
        else Done(s[p..next], next)
  }

  /** The masks the check is written with, on bytes, and the shift that collects the bits. */
  lemma LeadMasks(c: bv8)
    ensures (c & 0xe0) == 0xc0 <==> 0xc0 <= c < 0xe0
    ensures (c & 0xf0) == 0xe0 <==> 0xe0 <= c < 0xf0
    ensures (c & 0xf8) == 0xf0 <==> 0xf0 <= c < 0xf8
    ensures (c & 0xc0) == 0x80 <==> 0x80 <= c < 0xc0
    ensures 0xc0 <= c < 0xe0 ==> (c & 0x1f) == c - 0xc0
    ensures 0xe0 <= c < 0xf0 ==> (c & 0x0f) == c - 0xe0
    ensures 0xf0 <= c < 0xf8 ==> (c & 0x07) == c - 0xf0
    ensures 0x80 <= c < 0xc0 ==> (c & 0x3f) == c - 0x80
  {
  }

  /** The check accepts exactly the characters of the standard: it accepts what it has read just when that
      is a UTF8-char, and it accepts every UTF8-char that lies there. */
  lemma RawIsUtf8(s: Bytes, p: nat)
    requires p < |s| && s[p] >= 0x80
    ensures RawAt(s, p).Done? <==> p + Length(s[p]) <= |s| && Utf8Char(s[p..p + Length(s[p])])
    ensures RawAt(s, p).Done? ==> RawAt(s, p).next == p + Length(s[p])
  {
    if 0xc0 <= s[p] < 0xf8 {
      ContinuationIs(s, p);
    }
  }

  lemma ContinuationIs(s: Bytes, p: nat)
    requires p < |s| && 0xc0 <= s[p] < 0xf8
    ensures RawAt(s, p).Done? <==> p + Length(s[p]) <= |s| && Utf8Char(s[p..p + Length(s[p])])
    ensures RawAt(s, p).Done? ==> RawAt(s, p).next == p + Length(s[p])
  {
    var n := Length(s[p]);
    if p + n > |s| {
    } else if n == 2 {
      Unroll1(s, p + 1, s[p] - 0xc0);
      CharIs(s, p, 2);
    } else if n == 3 {
      Unroll2(s, p + 1, s[p] - 0xe0);
      CharIs(s, p, 3);
    } else {
      Unroll3(s, p + 1, s[p] - 0xf0);
      CharIs(s, p, 4);
    }
  }

  /** The bytes of the character at p, for the comparison with the standard. */
  lemma CharIs(s: Bytes, p: nat, n: nat)
    requires p + n <= |s| && 2 <= n <= 4
    ensures var b := s[p..p + n]; |b| == n && b[0] == s[p] && b[1] == s[p + 1]
    ensures n >= 3 ==> s[p..p + n][2] == s[p + 2]
    ensures n == 4 ==> s[p..p + n][3] == s[p + 3]
  {
  }

  lemma Unroll1(s: Bytes, p: nat, cp: nat)
    requires p + 1 <= |s|
    ensures Continuation(s, p, 1, cp) == if Tail(s[p]) then Done(Push(cp, s[p]), p + 1) else Failed
  {
  }

  lemma Unroll2(s: Bytes, p: nat, cp: nat)
    requires p + 2 <= |s|
    ensures Continuation(s, p, 2, cp) ==
            if Tail(s[p]) && Tail(s[p + 1]) then Done(Push(Push(cp, s[p]), s[p + 1]), p + 2) else Failed
  {
    if Tail(s[p]) {
      Unroll1(s, p + 1, Push(cp, s[p]));
    }
  }

  lemma Unroll3(s: Bytes, p: nat, cp: nat)
    requires p + 3 <= |s|
    ensures Continuation(s, p, 3, cp) ==
            if Tail(s[p]) && Tail(s[p + 1]) && Tail(s[p + 2])
            then Done(Push(Push(Push(cp, s[p]), s[p + 1]), s[p + 2]), p + 3) else Failed
  {
    if Tail(s[p]) {
      Unroll2(s, p + 1, Push(cp, s[p]));
    }
  }
}
