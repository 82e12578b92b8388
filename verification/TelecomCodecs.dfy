/** Nibble codecs for PLMN ids and MSISDNs (section 7.3.9 of 3GPP TS 29.272), and the user location built on them. */
module TelecomCodecs {
  import opened Prelude
  import opened Text

  /** Two half-bytes, the first digit in the low half. */
  function Pair(lo: bv8, hi: bv8): bv8
  {
    lo | (hi << 4)
  }

  function Low(b: bv8): bv8
  {
    b & 0xF
  }

  function High(b: bv8): bv8
  {
    b >> 4
  }

  lemma PairSplits(lo: bv8, hi: bv8)
    requires lo < 16 && hi < 16
    ensures Low(Pair(lo, hi)) == lo && High(Pair(lo, hi)) == hi
  {
  }

  lemma FillerSplits(lo: bv8)
    requires lo < 16
    ensures Low(Pair(lo, 0) | 0xF0) == lo && High(Pair(lo, 0) | 0xF0) == 0xF
    ensures Low(lo | 0xF0) == lo && High(lo | 0xF0) == 0xF
  {
  }

  /** The three octets of a PLMN id whose six digit values are `d`. */
  function Octets(d: seq<bv8>, twoDigitMnc: bool): seq<bv8>
    requires |d| == 6
  {
    [Pair(d[0], d[1]), if twoDigitMnc then Pair(d[2], d[5]) | 0xF0 else Pair(d[2], d[5]), Pair(d[3], d[4])]
  }

  /** The octets as both encoders build them, with the second one or-ed in place. */
  method Assemble(raw: seq<bv8>, twoDigitMnc: bool) returns (octets: seq<bv8>)
    requires |raw| == 6
    ensures octets == Octets(raw, twoDigitMnc)
  {
    octets := [Pair(raw[0], raw[1]), Pair(raw[2], raw[5]), Pair(raw[3], raw[4])];
    if twoDigitMnc {
      octets := [octets[0], octets[1] | 0xF0, octets[2]];
    }
  }

  /** The value of a digit, as a byte. */
  function DigitByte(c: char): (b: bv8)
    requires IsDigit(c)
    ensures b < 10
  {
    if c == '0' then 0 else if c == '1' then 1 else if c == '2' then 2 else if c == '3' then 3 else if c == '4' then 4
    else if c == '5' then 5 else if c == '6' then 6 else if c == '7' then 7 else if c == '8' then 8 else 9
  }

  /** strconv.Atoi of one character: what is not a digit is logged and counts as 0. */
  function AtoiByte(c: char): bv8
  {
    if IsDigit(c) then DigitByte(c) else 0
  }

  /** byte(r - '0'), which wraps for what is not a digit. */
  function RuneByte(c: char): bv8
  {
    if IsDigit(c) then DigitByte(c) else ((c as int - '0' as int) % 256) as bv8
  }

  /** A digit's byte is its value, and what is not a digit counts as 0 in one encoder and wraps in the other. */
  lemma BytesAreValues(c: char)
    ensures IsDigit(c) ==> AtoiByte(c) as int == c as int - '0' as int && RuneByte(c) as int == c as int - '0' as int
    ensures !IsDigit(c) ==> AtoiByte(c) == 0 && RuneByte(c) == ((c as int - '0' as int) % 256) as bv8
  {
  }

  lemma DigitBytesAgree(c: char)
    requires IsDigit(c)
    ensures AtoiByte(c) == RuneByte(c)
  {
  }

  function PlmnOfImsi(imsi: string, mncLen: int): seq<bv8>
    requires |imsi| >= 6
  {
    Octets(seq(6, i requires 0 <= i < 6 => AtoiByte(imsi[i])), mncLen < 3)
  }

  /** The source fails at run time on an IMSI of fewer than six characters. */
  method GetPlmnID(imsi: string, mncLen: int) returns (plmnId: seq<bv8>)
    requires |imsi| >= 6
    ensures plmnId == PlmnOfImsi(imsi, mncLen)
  {
    var len := if mncLen < 2 then 2 else if mncLen > 3 then 3 else mncLen;
    var imsiBytes := new bv8[6](_ => 0);
    for i := 0 to 6
      invariant forall j :: 0 <= j < i ==> imsiBytes[j] == AtoiByte(imsi[j])
    {
      imsiBytes[i] := AtoiByte(imsi[i]);
    }
    assert imsiBytes[..] == seq(6, i requires 0 <= i < 6 => AtoiByte(imsi[i]));
    plmnId := Assemble(imsiBytes[..], len < 3);
  }

  function EncodedPlmn(plmn: string): Result<seq<bv8>>
  {
    if |plmn| < 5 || |plmn| > 6 then Err
    else Ok(Octets(PlmnDigits(plmn), |plmn| < 6))
  }

  /** The raw buffer: the characters' values, zero where a sixth digit is missing. */
  function PlmnDigits(plmn: string): seq<bv8>
  {
    seq(6, i requires 0 <= i < 6 => if i < |plmn| then RuneByte(plmn[i]) else 0)
  }

  method EncodePLMNID(plmn: string) returns (r: Result<seq<bv8>>)
    ensures r == EncodedPlmn(plmn)
  {
    if |plmn| < 5 || |plmn| > 6 {
      return Err;
    }
    var rawPLMN := new bv8[6](_ => 0);
    for i := 0 to |plmn|
      invariant forall j :: 0 <= j < 6 ==> rawPLMN[j] == if j < i then RuneByte(plmn[j]) else 0
    {
      rawPLMN[i] := RuneByte(plmn[i]);
    }
    assert rawPLMN[..] == PlmnDigits(plmn);
    var encoded := Assemble(rawPLMN[..], |plmn| < 6);
    return Ok(encoded);
  }

  lemma FillerHidesHigh(lo: bv8, hi: bv8, hi': bv8)
    ensures Pair(lo, hi) | 0xF0 == Pair(lo, hi') | 0xF0
  {
  }

  /**
   The two encoders agree: the PLMN id of a digit IMSI is the encoding of its
   first five digits for an MNC length up to two, of its first six from three on.
   */
  lemma PlmnEncodersAgree(imsi: string, mncLen: int)
    requires |imsi| >= 6 && AllDigits(imsi)
    ensures EncodedPlmn(imsi[..if mncLen <= 2 then 5 else 6]) == Ok(PlmnOfImsi(imsi, mncLen))
  {
    forall i | 0 <= i < 6
      ensures AtoiByte(imsi[i]) == RuneByte(imsi[i])
    {
      assert imsi[i] in imsi;
      DigitBytesAgree(imsi[i]);
    }
    FillerHidesHigh(AtoiByte(imsi[2]), AtoiByte(imsi[5]), 0);
  }

  /** '0' + n for a half-byte n; values above nine give the characters after '9'. */
  function NibbleChar(n: bv8): char
  {
    if n == 0 then '0' else if n == 1 then '1' else if n == 2 then '2' else if n == 3 then '3'
    else if n == 4 then '4' else if n == 5 then '5' else if n == 6 then '6' else if n == 7 then '7'
    else if n == 8 then '8' else if n == 9 then '9' else if n == 10 then ':' else if n == 11 then ';'
    else if n == 12 then '<' else if n == 13 then '=' else if n == 14 then '>' else '?'
  }

  /** The n-th character from '0' on. */
  lemma NibbleCharIs(n: bv8)
    requires n < 16
    ensures NibbleChar(n) as int == '0' as int + n as int
  {
    if n < 8 {
      if n < 4 { assert n == 0 || n == 1 || n == 2 || n == 3; } else { assert n == 4 || n == 5 || n == 6 || n == 7; }
    } else {
      if n < 12 { assert n == 8 || n == 9 || n == 10 || n == 11; } else { assert n == 12 || n == 13 || n == 14 || n == 15; }
    }
  }

  /** Which half of which octet holds which digit of the id. */
  lemma PlmnLayout(plmn: string)
    requires 5 <= |plmn| <= 6 && AllDigits(plmn)
    ensures EncodedPlmn(plmn).Ok? && |EncodedPlmn(plmn).value| == 3
    ensures var o, d := EncodedPlmn(plmn).value, PlmnDigits(plmn);
            && o[0] & 0xF == d[0] && o[0] >> 4 == d[1] && o[1] & 0xF == d[2] && o[2] & 0xF == d[3] && o[2] >> 4 == d[4]
            && o[1] >> 4 == if |plmn| == 5 then 0xF else d[5]
  {
    DigitsSpell(plmn);
    var d := PlmnDigits(plmn);
    PairSplits(d[0], d[1]);
    PairSplits(d[3], d[4]);
    PairSplits(d[2], d[5]);
    FillerSplits(d[2]);
  }

  /** The inverse of the encoding on digit strings. */
  function DecodedPlmn(b: seq<bv8>): string
    requires |b| == 3
  {
    [NibbleChar(Low(b[0])), NibbleChar(High(b[0])), NibbleChar(Low(b[1])), NibbleChar(Low(b[2])), NibbleChar(High(b[2]))]
    + if High(b[1]) == 0xF then [] else [NibbleChar(High(b[1]))]
  }

  lemma DigitReadsBack(c: char)
    requires IsDigit(c)
    ensures RuneByte(c) < 10 && NibbleChar(RuneByte(c)) == c
  {
  }

  predicate DigitBytes(d: seq<bv8>)
  {
    forall i :: 0 <= i < |d| ==> d[i] < 10
  }

  function Spelled(d: seq<bv8>, twoDigitMnc: bool): string
    requires |d| == 6
  {
    [NibbleChar(d[0]), NibbleChar(d[1]), NibbleChar(d[2]), NibbleChar(d[3]), NibbleChar(d[4])]
    + if twoDigitMnc then [] else [NibbleChar(d[5])]
  }

  /** The octets of six digit values give them back. */
  lemma OctetsReadBack(d: seq<bv8>, twoDigitMnc: bool)
    requires |d| == 6 && DigitBytes(d) && (twoDigitMnc ==> d[5] == 0)
    ensures DecodedPlmn(Octets(d, twoDigitMnc)) == Spelled(d, twoDigitMnc)
  {
    PairSplits(d[0], d[1]);
    PairSplits(d[3], d[4]);
    PairSplits(d[2], d[5]);
    FillerSplits(d[2]);
  }

  lemma DigitAt(plmn: string, i: nat)
    requires 5 <= |plmn| <= 6 && AllDigits(plmn) && i < |plmn|
    ensures PlmnDigits(plmn)[i] < 10 && NibbleChar(PlmnDigits(plmn)[i]) == plmn[i]
  {
    assert plmn[i] in plmn;
    DigitReadsBack(plmn[i]);
  }

  lemma DigitsSpell(plmn: string)
    requires 5 <= |plmn| <= 6 && AllDigits(plmn)
    ensures DigitBytes(PlmnDigits(plmn)) && Spelled(PlmnDigits(plmn), |plmn| < 6) == plmn
  {
    forall i: nat | i < |plmn| {
      DigitAt(plmn, i);
    }
    var t := Spelled(PlmnDigits(plmn), |plmn| < 6);
    assert |t| == |plmn| && forall i: nat :: i < |plmn| ==> t[i] == NibbleChar(PlmnDigits(plmn)[i]);
  }

  /** Every five- or six-digit PLMN id is recovered from its three octets. */
  lemma PlmnReadsBack(plmn: string)
    requires 5 <= |plmn| <= 6 && AllDigits(plmn)
    ensures EncodedPlmn(plmn).Ok? && |EncodedPlmn(plmn).value| == 3
    ensures DecodedPlmn(EncodedPlmn(plmn).value) == plmn
  {
    DigitsSpell(plmn);
    OctetsReadBack(PlmnDigits(plmn), |plmn| < 6);
  }

  lemma PlmnEncodingIsInjective(p: string, q: string)
    requires 5 <= |p| <= 6 && AllDigits(p) && 5 <= |q| <= 6 && AllDigits(q)
    requires EncodedPlmn(p) == EncodedPlmn(q)
    ensures p == q
  {
    PlmnReadsBack(p);
    PlmnReadsBack(q);
  }

  // MSISDN

  function DecodedMsisdn(b: seq<bv8>): string
  {
    if b == [] then ""
    else
      var last := b[|b| - 1];
      DecodedMsisdn(b[..|b| - 1])
      + [NibbleChar(Low(last))]
      + if High(last) != 0xF then [NibbleChar(High(last))] else []
  }

  method DecodeMsisdn(encoded: seq<bv8>) returns (res: string)
    ensures res == DecodedMsisdn(encoded)
  {
    res := [];
    for i := 0 to |encoded|
      invariant res == DecodedMsisdn(encoded[..i])
    {
      assert encoded[..i + 1][..i] == encoded[..i];
      var n1, n2 := encoded[i] & 0xF, encoded[i] >> 4;
      res := res + [NibbleChar(n1)];
      if n2 != 0xF {
        res := res + [NibbleChar(n2)];
      }
    }
    assert encoded[..|encoded|] == encoded;
  }

  /** TBCD packing: two digits an octet, an odd last digit with the filler 0xF. */
  function Tbcd(digits: string): seq<bv8>
    requires AllDigits(digits)
  {
    if |digits| == 0 then []
    else if |digits| == 1 then [RuneByte(digits[0]) | 0xF0]
    else [Pair(RuneByte(digits[0]), RuneByte(digits[1]))] + Tbcd(digits[2..])
  }

  lemma {:induction false} DecodedConcat(a: seq<bv8>, b: seq<bv8>)
    ensures DecodedMsisdn(a + b) == DecodedMsisdn(a) + DecodedMsisdn(b)
  {
    if b == [] {
      assert a + b == a;
    } else {
      assert (a + b)[..|a + b| - 1] == a + b[..|b| - 1];
      DecodedConcat(a, b[..|b| - 1]);
    }
  }

  /** One octet gives the character of its low half, then that of its high half unless it is the filler. */
  lemma OctetDecodes(b: bv8)
    ensures DecodedMsisdn([b]) == [NibbleChar(b & 0xF)] + if b >> 4 == 0xF then [] else [NibbleChar(b >> 4)]
  {
    assert DecodedMsisdn([b][..0]) == "";
  }

  /** Decoding inverts TBCD packing for digit strings of every length, odd ones included. */
  lemma {:induction false} MsisdnReadsBack(digits: string)
    requires AllDigits(digits)
    ensures DecodedMsisdn(Tbcd(digits)) == digits
  {
    if |digits| == 1 {
      assert digits[0] in digits;
      LastOctetReadsBack(digits[0]);
    } else if |digits| > 1 {
      assert digits[0] in digits && digits[1] in digits;
      OctetReadsBack(digits[0], digits[1]);
      DecodedConcat([Pair(RuneByte(digits[0]), RuneByte(digits[1]))], Tbcd(digits[2..]));
      MsisdnReadsBack(digits[2..]);
    }
  }

  lemma OctetReadsBack(c: char, d: char)
    requires IsDigit(c) && IsDigit(d)
    ensures DecodedMsisdn([Pair(RuneByte(c), RuneByte(d))]) == [c, d]
  {
    DigitReadsBack(c);
    DigitReadsBack(d);
    PairSplits(RuneByte(c), RuneByte(d));
  }

  lemma LastOctetReadsBack(c: char)
    requires IsDigit(c)
    ensures DecodedMsisdn([RuneByte(c) | 0xF0]) == [c]
  {
    DigitReadsBack(c);
    FillerSplits(RuneByte(c));
  }

  // User location

  function Octet(w: bv32, shift: nat): bv8
    requires shift <= 24
  {
    ((w >> shift) & 0xFF) as bv8
  }

  /** binary.BigEndian.PutUint16 and PutUint32. */
  function BigEndian16(w: bv16): seq<bv8>
  {
    [Octet(w as bv32, 8), Octet(w as bv32, 0)]
  }

  function BigEndian32(w: bv32): seq<bv8>
  {
    [Octet(w, 24), Octet(w, 16), Octet(w, 8), Octet(w, 0)]
  }

  /** Location type 0x82, then TAI and ECGI, each led by the PLMN id. */
  function UserLocation(id: seq<bv8>, tai: seq<bv8>, eci: seq<bv8>): seq<bv8>
  {
    [0x82] + id + tai + id + eci
  }

  method EncodeUserLocation(plmn: string, tai: bv16, eci: bv32) returns (r: Result<seq<bv8>>)
    ensures r == match EncodedPlmn(plmn)
                 case Err => Err
                 case Ok(id) => Ok(UserLocation(id, BigEndian16(tai), BigEndian32(eci)))
  {
    var encoded := EncodePLMNID(plmn);
    if encoded.Err? {
      return Err;
    }
    var bytes := [0x82];
    bytes := bytes + encoded.value;
    bytes := bytes + BigEndian16(tai);
    bytes := bytes + encoded.value;
    bytes := bytes + BigEndian32(eci);
    return Ok(bytes);
  }

  /** Reading a big-endian word. */
  function Word32(b: seq<bv8>): bv32
    requires |b| == 4
  {
    ((b[0] as bv32) << 24) | ((b[1] as bv32) << 16) | ((b[2] as bv32) << 8) | (b[3] as bv32)
  }

  function Word16(b: seq<bv8>): bv32
    requires |b| == 2
  {
    ((b[0] as bv32) << 8) | (b[1] as bv32)
  }

  lemma Octets32(w: bv32)
    ensures (Octet(w, 24) as bv32) << 24 == w & 0xFF00_0000 && (Octet(w, 16) as bv32) << 16 == w & 0xFF_0000
    ensures (Octet(w, 8) as bv32) << 8 == w & 0xFF00 && Octet(w, 0) as bv32 == w & 0xFF
  {
  }

  lemma MasksJoin(w: bv32)
    ensures (w & 0xFF00_0000) | (w & 0xFF_0000) | (w & 0xFF00) | (w & 0xFF) == w
  {
  }

  lemma Words16(w: bv16)
    ensures ((Octet(w as bv32, 8) as bv32) << 8) | (Octet(w as bv32, 0) as bv32) == w as bv32
  {
  }

  /**
   The fields of a user location stand at the places section 16.4.7.2 of 3GPP
   TS 29.061 gives them, the numbers in network byte order.
   */
  lemma UserLocationReadsBack(id: seq<bv8>, tai: bv16, eci: bv32)
    requires |id| == 3
    ensures var u := UserLocation(id, BigEndian16(tai), BigEndian32(eci));
            && |u| == 13 && u[0] == 0x82 && u[1..4] == id && u[6..9] == id
            && Word16(u[4..6]) == tai as bv32 && Word32(u[9..13]) == eci
  {
    var a, b := BigEndian16(tai), BigEndian32(eci);
    var u := UserLocation(id, a, b);
    LocationFields(id, a, b);
    Words16(tai);
    Octets32(eci);
    MasksJoin(eci);
  }

  lemma OctetsAre(w: bv32)
    ensures Octet(w, 24) as bv32 == (w >> 24) & 0xFF && Octet(w, 16) as bv32 == (w >> 16) & 0xFF
    ensures Octet(w, 8) as bv32 == (w >> 8) & 0xFF && Octet(w, 0) as bv32 == w & 0xFF
  {
  }

  /** Numbers stand most significant octet first. */
  lemma BigEndianOctets(w: bv32)
    ensures var b := BigEndian32(w);
            && b[0] as bv32 == (w >> 24) & 0xFF && b[1] as bv32 == (w >> 16) & 0xFF
            && b[2] as bv32 == (w >> 8) & 0xFF && b[3] as bv32 == w & 0xFF
  {
    OctetsAre(w);
  }

  lemma BigEndianOctets16(w: bv16)
    ensures BigEndian16(w)[0] as bv32 == (w as bv32 >> 8) & 0xFF && BigEndian16(w)[1] as bv32 == w as bv32 & 0xFF
  {
    OctetsAre(w as bv32);
  }

  lemma LocationFields(id: seq<bv8>, tai: seq<bv8>, eci: seq<bv8>)
    requires |id| == 3 && |tai| == 2 && |eci| == 4
    ensures var u := UserLocation(id, tai, eci);
            |u| == 13 && u[0] == 0x82 && u[1..4] == id && u[4..6] == tai && u[6..9] == id && u[9..13] == eci
  {
  }
}
