/**
  The pkt-line framing that every Git smart-HTTP body uses: a four-character
  hexadecimal length that counts itself, followed by the payload.  Lengths are
  printed with at least four lower-case digits and read with the leniency of
  the host language's radix parser, which takes upper-case digits and a leading
  plus sign.
*/
module PktLine {
  import opened Wrappers

  type Byte = b: int | 0 <= b < 256

  type Bytes = seq<Byte>

  /** The four-byte packet that carries no payload. */
  const FLUSH: Bytes := [48, 48, 48, 48]

  /** The largest payload whose length still fits the four header digits. */
  const MAX_PAYLOAD: nat := 65531

  // ---------------------------------------------------------------- reading

  function DigitValue(b: Byte): Option<nat> {
    if 48 <= b <= 57 then Some(b - 48)
    else if 97 <= b <= 102 then Some(b - 87)
    else if 65 <= b <= 70 then Some(b - 55)
    else None
  }

  /** Reads digits left to right; one foreign byte spoils the whole number. */
  function RadixValue(digits: Bytes): (r: Option<nat>)
    ensures r.Some? ==> r.value < Pow16(|digits|)
  {
    if |digits| == 0 then Some(0)
    else
      var n := |digits| - 1;
      match RadixValue(digits[..n])
      case None => None
      case Some(high) =>
        match DigitValue(digits[n])
        case None => None
        case Some(low) => Some(16 * high + low)
  }

  function Pow16(n: nat): nat {
    if n == 0 then 1 else 16 * Pow16(n - 1)
  }

  /** The length announced by a four-byte header, or None when it is not a number. */
  function ParseLength(header: Bytes): (r: Option<nat>)
    requires |header| == 4
    ensures r.Some? ==> r.value <= 0xffff
  {
    assert Pow16(4) == 0x10000 && Pow16(3) == 0x1000 by {
      assert Pow16(1) == 16 && Pow16(2) == 256;
    }
    if header[0] == 43 then RadixValue(header[1..]) else RadixValue(header)
  }

  /** A leading plus sign reads like a leading zero. */
  lemma PlusReadsAsZero(digits: Bytes)
    requires |digits| == 3
    ensures ParseLength([43] + digits) == ParseLength([48] + digits)
    ensures ParseLength([43] + digits).Some? ==> ParseLength([43] + digits).value < 0x1000
  {
    assert ([43] + digits)[1..] == digits;
    assert seq(1, _ => 48) + digits == [48] + digits;
    LeadingZeros(1, digits);
    assert Pow16(3) == 0x1000 by {
      assert Pow16(1) == 16 && Pow16(2) == 256;
    }
  }

  /** Upper-case and lower-case digits read alike. */
  lemma {:induction false} CaseDoesNotMatter(a: Bytes, b: Bytes)
    requires |a| == |b|
    requires forall i | 0 <= i < |a| :: a[i] == b[i] || (65 <= a[i] <= 70 && b[i] == a[i] + 32)
    ensures RadixValue(a) == RadixValue(b)
  {
    if a != [] {
      CaseDoesNotMatter(a[..|a| - 1], b[..|b| - 1]);
    }
  }

  // --------------------------------------------------------------- printing

  function DigitOf(n: nat): Byte
    requires n < 16
  {
    if n < 10 then 48 + n else 87 + n
  }

  /** Lower-case hexadecimal, no padding; zero has no digits. */
  function Digits(n: nat): Bytes {
    if n == 0 then [] else Digits(n / 16) + [DigitOf(n % 16)]
  }

  /** Hexadecimal padded on the left to a width of at least four. */
  function PrintLength(n: nat): (r: Bytes)
    ensures |r| >= 4
  {
    var d := Digits(n);
    if |d| >= 4 then d else seq(4 - |d|, _ => 48) + d
  }

  /** One packet: header, then payload. */
  function Packet(payload: Bytes): Bytes {
    PrintLength(|payload| + 4) + payload
  }

  // ------------------------------------------------------ printing, then reading

  lemma DigitRoundTrip(n: nat)
    requires n < 16
    ensures DigitValue(DigitOf(n)) == Some(n)
  {
  }

  lemma {:induction false} DigitsRoundTrip(n: nat)
    ensures RadixValue(Digits(n)) == Some(n)
  {
    if n != 0 {
      DigitsRoundTrip(n / 16);
      DigitRoundTrip(n % 16);
      assert Digits(n)[..|Digits(n)| - 1] == Digits(n / 16);
    }
  }

  lemma {:induction false} LeadingZeros(k: nat, d: Bytes)
    ensures RadixValue(seq(k, _ => 48) + d) == RadixValue(d)
    decreases k + |d|
  {
    var s := seq(k, _ => 48) + d;
    if |d| > 0 {
      assert s[..|s| - 1] == seq(k, _ => 48) + d[..|d| - 1];
      LeadingZeros(k, d[..|d| - 1]);
    } else if k > 0 {
      assert s[..|s| - 1] == seq(k - 1, _ => 48) + d;
      LeadingZeros(k - 1, d);
    }
  }

  lemma {:induction false} DigitCount(n: nat, w: nat)
    requires n < Pow16(w)
    ensures |Digits(n)| <= w
  {
    if n != 0 {
      assert w > 0;
      DigitCount(n / 16, w - 1);
    }
  }

  lemma DigitsLeadWithDigit(n: nat)
    ensures forall i :: 0 <= i < |Digits(n)| ==> Digits(n)[i] != 43
  {
  }

  /** A printed length occupies exactly four bytes and reads back, for every length that fits. */
  lemma LengthRoundTrip(n: nat)
    requires n <= 0xffff
    ensures |PrintLength(n)| == 4
    ensures ParseLength(PrintLength(n)) == Some(n)
  {
    assert Pow16(4) == 0x10000 by {
      assert Pow16(1) == 16 && Pow16(2) == 256 && Pow16(3) == 4096;
    }
    DigitCount(n, 4);
    DigitsRoundTrip(n);
    DigitsLeadWithDigit(n);
    hide Digits, RadixValue, Pow16;
    var d := Digits(n);
    if |d| < 4 {
      LeadingZeros(4 - |d|, d);
      assert PrintLength(n) == seq(4 - |d|, _ => 48) + d;
      assert PrintLength(n)[0] == 48;
    } else {
      assert PrintLength(n) == d;
    }
  }

  /**
    The header of a printed packet announces the packet's own length exactly
    when the payload fits in MAX_PAYLOAD bytes; a longer one prints a fifth
    digit and the reader sees a different, shorter packet.
  */
  lemma PacketHeader(payload: Bytes, rest: Bytes)
    ensures |Packet(payload) + rest| >= 4
    ensures ParseLength((Packet(payload) + rest)[..4]) == Some(|payload| + 4) <==> |payload| <= MAX_PAYLOAD
  {
    if |payload| <= MAX_PAYLOAD {
      LengthRoundTrip(|payload| + 4);
      assert (Packet(payload) + rest)[..4] == PrintLength(|payload| + 4);
    }
  }

  /** Where the payload and the remainder of a packet that fits are found. */
  lemma PacketParts(payload: Bytes, rest: Bytes)
    requires |payload| <= MAX_PAYLOAD
    ensures |Packet(payload) + rest| >= 4
    ensures ParseLength((Packet(payload) + rest)[..4]) == Some(|payload| + 4)
    ensures |Packet(payload)| == |payload| + 4
    ensures (Packet(payload) + rest)[4..|payload| + 4] == payload
    ensures (Packet(payload) + rest)[|payload| + 4..] == rest
  {
    LengthRoundTrip(|payload| + 4);
    PacketHeader(payload, rest);
  }
}
