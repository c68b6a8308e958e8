/** Base64 (section 4 of RFC 4648) as the CA bundle travels through it: encoded by getProxyCA,
    decoded by clusterAPITLSConfig with a fall-back to raw PEM text. Texts are byte sequences. */
module CABundle {
  import opened Types

  type byte = b: int | 0 <= b < 256

  type Bytes = seq<byte>

  const PAD: byte := 61
  const DASH: byte := 45
  const CR: byte := 13
  const LF: byte := 10

  type sextet = d: int | 0 <= d < 64

  /** The standard alphabet: A-Z, a-z, 0-9, '+', '/'. */
  function Digit(d: sextet): byte {
    if d < 26 then 65 + d
    else if d < 52 then 97 + (d - 26)
    else if d < 62 then 48 + (d - 52)
    else if d == 62 then 43
    else 47
  }

  function Value(c: byte): Option<sextet> {
    if 65 <= c <= 90 then Some(c - 65)
    else if 97 <= c <= 122 then Some(c - 97 + 26)
    else if 48 <= c <= 57 then Some(c - 48 + 52)
    else if c == 43 then Some(62)
    else if c == 47 then Some(63)
    else None
  }

  lemma ValueOfDigit(d: sextet)
    ensures Value(Digit(d)) == Some(d) && Digit(d) != PAD && Digit(d) != CR && Digit(d) != LF
  {}

  function Encode(data: Bytes): Bytes {
    if data == [] then []
    else if |data| == 1 then
      [Digit(data[0] / 4), Digit(data[0] % 4 * 16), PAD, PAD]
    else if |data| == 2 then
      [Digit(data[0] / 4), Digit(data[0] % 4 * 16 + data[1] / 16), Digit(data[1] % 16 * 4), PAD]
    else
      [Digit(data[0] / 4), Digit(data[0] % 4 * 16 + data[1] / 16),
       Digit(data[1] % 16 * 4 + data[2] / 64), Digit(data[2] % 64)] + Encode(data[3..])
  }

  /** The decoder skips line breaks wherever they are. */
  function StripBreaks(text: Bytes): Bytes {
    if text == [] then []
    else if text[0] == CR || text[0] == LF then StripBreaks(text[1..])
    else [text[0]] + StripBreaks(text[1..])
  }

  /** The bytes that three or four digits stand for. */
  function First(a: int, b: int): byte
    requires 0 <= a < 64 && 0 <= b < 64
  {
    a * 4 + b / 16
  }

  function Second(b: int, c: int): byte
    requires 0 <= b < 64 && 0 <= c < 64
  {
    b % 16 * 16 + c / 4
  }

  function Third(c: int, d: int): byte
    requires 0 <= c < 64 && 0 <= d < 64
  {
    c % 4 * 64 + d
  }

  /** Decoding of groups of four; unused low bits of a padded group are ignored. */
  function DecodeGroups(text: Bytes): Option<Bytes> {
    if text == [] then Some([])
    else if |text| < 4 then None
    else match (Value(text[0]), Value(text[1]), Value(text[2]), Value(text[3]))
         case (Some(a), Some(b), Some(c), Some(d)) =>
           (match DecodeGroups(text[4..])
            case Some(rest) => Some([First(a, b), Second(b, c), Third(c, d)] + rest)
            case None => None)
         case (Some(a), Some(b), Some(c), None) =>
           if text[3] == PAD && |text| == 4 then Some([First(a, b), Second(b, c)]) else None
         case (Some(a), Some(b), None, _) =>
           if text[2] == PAD && text[3] == PAD && |text| == 4 then Some([First(a, b)]) else None
         case _ => None
  }

  function Decode(text: Bytes): Option<Bytes> {
    DecodeGroups(StripBreaks(text))
  }

  lemma {:induction false} EncodeHasNoBreaks(data: Bytes)
    ensures StripBreaks(Encode(data)) == Encode(data)
  {
    var text := Encode(data);
    forall i | 0 <= i < |text| ensures text[i] != CR && text[i] != LF {
      EncodeAlphabet(data, i);
    }
    StripNothing(text);
  }

  lemma {:induction false} EncodeAlphabet(data: Bytes, i: nat)
    requires i < |Encode(data)|
    ensures Encode(data)[i] != CR && Encode(data)[i] != LF
  {
    if |data| >= 3 && i >= 4 {
      EncodeAlphabet(data[3..], i - 4);
    }
  }

  lemma {:induction false} StripNothing(text: Bytes)
    requires forall i :: 0 <= i < |text| ==> text[i] != CR && text[i] != LF
    ensures StripBreaks(text) == text
  {
    if text != [] {
      StripNothing(text[1..]);
    }
  }

  lemma SplitBytes(a: byte, b: byte, c: byte)
    ensures First(a / 4, a % 4 * 16 + b / 16) == a
    ensures Second(a % 4 * 16 + b / 16, b % 16 * 4 + c / 64) == b
    ensures Third(b % 16 * 4 + c / 64, c % 64) == c
  {}

  lemma FullGroup(d0: sextet, d1: sextet, d2: sextet, d3: sextet, rest: Bytes)
    requires DecodeGroups(rest).Some?
    ensures DecodeGroups([Digit(d0), Digit(d1), Digit(d2), Digit(d3)] + rest)
            == Some([First(d0, d1), Second(d1, d2), Third(d2, d3)] + DecodeGroups(rest).value)
  {
    var text := [Digit(d0), Digit(d1), Digit(d2), Digit(d3)] + rest;
    ValueOfDigit(d0);
    ValueOfDigit(d1);
    ValueOfDigit(d2);
    ValueOfDigit(d3);
    assert text[4..] == rest;
  }

  lemma {:induction false} GroupsRoundTrip(data: Bytes)
    ensures DecodeGroups(Encode(data)) == Some(data)
  {
    if |data| >= 3 {
      GroupsRoundTrip(data[3..]);
      FullRoundTrip(data[0], data[1], data[2], data[3..]);
      assert data == [data[0], data[1], data[2]] + data[3..];
    } else if |data| == 2 {
      PairRoundTrip(data[0], data[1]);
      assert data == [data[0], data[1]];
    } else if |data| == 1 {
      SingleRoundTrip(data[0]);
      assert data == [data[0]];
    }
  }

  lemma FullRoundTrip(a: byte, b: byte, c: byte, rest: Bytes)
    requires DecodeGroups(Encode(rest)) == Some(rest)
    ensures DecodeGroups(Encode([a, b, c] + rest)) == Some([a, b, c] + rest)
  {
    var d0, d1, d2, d3 := EncodeFull(a, b, c, rest);
    FullGroup(d0, d1, d2, d3, Encode(rest));
  }

  lemma EncodeFull(a: byte, b: byte, c: byte, rest: Bytes) returns (d0: sextet, d1: sextet, d2: sextet, d3: sextet)
    ensures Encode([a, b, c] + rest) == [Digit(d0), Digit(d1), Digit(d2), Digit(d3)] + Encode(rest)
    ensures First(d0, d1) == a && Second(d1, d2) == b && Third(d2, d3) == c
  {
    SplitBytes(a, b, c);
    d0, d1, d2, d3 := a / 4, a % 4 * 16 + b / 16, b % 16 * 4 + c / 64, c % 64;
    EncodeStep(a, b, c, rest);
  }

  lemma EncodeStep(a: byte, b: byte, c: byte, rest: Bytes)
    ensures Encode([a, b, c] + rest)
            == [Digit(a / 4), Digit(a % 4 * 16 + b / 16), Digit(b % 16 * 4 + c / 64), Digit(c % 64)] + Encode(rest)
  {
    assert ([a, b, c] + rest)[3..] == rest;
  }

  lemma PairRoundTrip(a: byte, b: byte)
    ensures DecodeGroups(Encode([a, b])) == Some([a, b])
  {
    var d0, d1, d2 := EncodePair(a, b);
    PaddedPair(d0, d1, d2);
  }

  lemma EncodePair(a: byte, b: byte) returns (d0: sextet, d1: sextet, d2: sextet)
    ensures Encode([a, b]) == [Digit(d0), Digit(d1), Digit(d2), PAD]
    ensures First(d0, d1) == a && Second(d1, d2) == b
  {
    SplitBytes(a, b, 0);
    d0, d1, d2 := a / 4, a % 4 * 16 + b / 16, b % 16 * 4;
  }

  lemma SingleRoundTrip(a: byte)
    ensures DecodeGroups(Encode([a])) == Some([a])
  {
    var d0, d1 := EncodeSingle(a);
    PaddedSingle(d0, d1);
  }

  lemma EncodeSingle(a: byte) returns (d0: sextet, d1: sextet)
    ensures Encode([a]) == [Digit(d0), Digit(d1), PAD, PAD]
    ensures First(d0, d1) == a
  {
    SplitBytes(a, 0, 0);
    d0, d1 := a / 4, a % 4 * 16;
  }

  lemma PaddedPair(d0: sextet, d1: sextet, d2: sextet)
    ensures DecodeGroups([Digit(d0), Digit(d1), Digit(d2), PAD]) == Some([First(d0, d1), Second(d1, d2)])
  {
    ValueOfDigit(d0);
    ValueOfDigit(d1);
    ValueOfDigit(d2);
  }

  lemma PaddedSingle(d0: sextet, d1: sextet)
    ensures DecodeGroups([Digit(d0), Digit(d1), PAD, PAD]) == Some([First(d0, d1)])
  {
    ValueOfDigit(d0);
    ValueOfDigit(d1);
  }

  lemma RoundTrip(data: Bytes)
    ensures Decode(Encode(data)) == Some(data)
  {
    EncodeHasNoBreaks(data);
    GroupsRoundTrip(data);
  }

  /** Line breaks are skipped wherever they are. */
  lemma BreaksIgnored(a: Bytes, line: Bytes, b: Bytes)
    requires forall i :: 0 <= i < |line| ==> line[i] == 13 || line[i] == 10
    ensures Decode(a + line + b) == Decode(a + b)
  {
    BreaksStripped(a, line, b);
  }

  lemma BreaksStripped(a: Bytes, line: Bytes, b: Bytes)
    requires forall i :: 0 <= i < |line| ==> line[i] == 13 || line[i] == 10
    ensures StripBreaks(a + line + b) == StripBreaks(a + b)
  {
    StripConcat(a, b);
    StripConcat(a + line, b);
    StripConcat(a, line);
    StripOnlyBreaks(line);
  }

  lemma {:induction false} StripConcat(a: Bytes, b: Bytes)
    ensures StripBreaks(a + b) == StripBreaks(a) + StripBreaks(b)
  {
    if a == [] {
      assert a + b == b;
    } else {
      assert (a + b)[1..] == a[1..] + b;
      StripConcat(a[1..], b);
    }
  }

  lemma {:induction false} StripOnlyBreaks(line: Bytes)
    requires forall i :: 0 <= i < |line| ==> line[i] == 13 || line[i] == 10
    ensures StripBreaks(line) == []
  {
    if line != [] {
      StripOnlyBreaks(line[1..]);
    }
  }

  /** The alphabet in full, by its five ranges in ASCII. */
  lemma Alphabet(d: sextet)
    ensures d < 26 ==> Digit(d) == 'A' as int + d
    ensures 26 <= d < 52 ==> Digit(d) == 'a' as int + d - 26
    ensures 52 <= d < 62 ==> Digit(d) == '0' as int + d - 52
    ensures Digit(62) == '+' as int && Digit(63) == '/' as int
  {}

  /** "f", "fo" and "foo" are "Zg==", "Zm8=" and "Zm9v", as in section 10 of RFC 4648. */
  lemma TestVectors()
    ensures Encode([102]) == [90, 103, 61, 61]
    ensures Encode([102, 111]) == [90, 109, 56, 61]
    ensures Encode([102, 111, 111]) == [90, 109, 57, 118]
  {
    assert [102, 111, 111][3..] == [];
  }

  /** Nothing may follow the padding. */
  lemma PaddingEnds(d0: sextet, d1: sextet, d2: sextet, rest: Bytes)
    requires rest != []
    ensures DecodeGroups([Digit(d0), Digit(d1), Digit(d2), PAD] + rest) == None
    ensures DecodeGroups([Digit(d0), Digit(d1), PAD, PAD] + rest) == None
  {
    ValueOfDigit(d0);
    ValueOfDigit(d1);
    ValueOfDigit(d2);
  }

  // ---------- what is not base64 ----------

  predicate InAlphabet(c: byte) {
    Value(c).Some? || c == PAD || c == CR || c == LF
  }

  lemma {:induction false} ForeignByteRejected(text: Bytes, i: nat)
    requires i < |text| && !InAlphabet(text[i])
    ensures Decode(text).None?
  {
    var j := ForeignSurvivesStrip(text, i);
    ForeignGroupRejected(StripBreaks(text), j);
  }

  lemma {:induction false} ForeignSurvivesStrip(text: Bytes, i: nat) returns (j: nat)
    requires i < |text| && !InAlphabet(text[i])
    ensures j < |StripBreaks(text)| && StripBreaks(text)[j] == text[i]
  {
    if i == 0 {
      j := 0;
    } else {
      j := ForeignSurvivesStrip(text[1..], i - 1);
      if text[0] != CR && text[0] != LF {
        j := j + 1;
      }
    }
  }

  lemma {:induction false} ForeignGroupRejected(text: Bytes, j: nat)
    requires j < |text| && !InAlphabet(text[j])
    ensures DecodeGroups(text).None?
  {
    if j >= 4 {
      ForeignGroupRejected(text[4..], j - 4);
    }
  }

  // ---------- the bundle ----------

  /** Which certificates a TLS connection trusts. */
  datatype Roots = System | Explicit(pem: Bytes)

  /** getProxyCA: the ConfigMap value, encoded. */
  function ProxyCA(data: Bytes): Bytes { Encode(data) }

  function RootsOf(caBundle: Bytes): Roots {
    if caBundle == [] then System
    else match Decode(caBundle)
         case Some(data) => Explicit(data)
         case None => Explicit(caBundle)
  }

  /** clusterAPITLSConfig, up to parsing of the certificates themselves. */
  method ClusterAPITLSRoots(caBundle: Bytes) returns (roots: Roots)
    ensures roots == System <==> caBundle == []
    ensures forall data :: data != [] && caBundle == ProxyCA(data) ==> roots == Explicit(data)
    ensures (exists i :: 0 <= i < |caBundle| && !InAlphabet(caBundle[i])) ==> roots == Explicit(caBundle)
    ensures roots == RootsOf(caBundle)
  {
    forall data | data != [] && caBundle == ProxyCA(data) ensures RootsOf(caBundle) == Explicit(data) {
      ProxyCARoundTrip(data);
    }
    if i :| 0 <= i < |caBundle| && !InAlphabet(caBundle[i]) {
      ForeignByteRejected(caBundle, i);
    }
    if caBundle != [] {
      var caPEM: Bytes;
      match Decode(caBundle) {
        case Some(data) => caPEM := data;
        case None => caPEM := caBundle;
      }
      roots := Explicit(caPEM);
    } else {
      roots := System;
    }
  }

  /** The proxy CA arrives as the bytes of the ConfigMap, for every value except the empty one, which
      silently selects the host's roots. */
  lemma ProxyCARoundTrip(data: Bytes)
    ensures RootsOf(ProxyCA(data)) == Explicit(data) <==> data != []
    ensures data == [] ==> RootsOf(ProxyCA(data)) == System
  {
    RoundTrip(data);
  }

  /** PEM text is never mistaken for base64: every PEM block has a '-' in its header. */
  lemma RawPEMKept(text: Bytes, i: nat)
    requires i < |text| && text[i] == DASH
    ensures RootsOf(text) == Explicit(text)
  {
    ForeignByteRejected(text, i);
  }
}
