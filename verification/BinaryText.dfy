/** Bytes as text: hex and base64 (sections 8 and 4 of RFC 4648), truncated encoding, and hex decoding into a buffer. */
module BinaryText {
  import opened Text

  newtype Byte = b: int | 0 <= b < 256

  // ---- Hex.

  /** `toString(16)` of a byte: no leading zero. */
  function ToRadix16(b: Byte): string {
    var n := b as int;
    if n < 16 then [HexDigit(n)] else [HexDigit(n / 16), HexDigit(n % 16)]
  }

  function HexPair(b: Byte): (r: string)
    ensures |r| == 2 && IsHex(r[0]) && IsHex(r[1])
  {
    [HexDigit(b as int / 16), HexDigit(b as int % 16)]
  }

  function PairValue(c: char, d: char): Byte
    requires IsHex(c) && IsHex(d)
  {
    (HexValue(c) * 16 + HexValue(d)) as Byte
  }

  function LowerChar(c: char): char {
    if 'A' <= c <= 'F' then c + 32 as char else c
  }

  lemma PairDecodes(b: Byte)
    ensures PairValue(HexPair(b)[0], HexPair(b)[1]) == b
  {
    HexDigitsInOrder(b as int / 16);
    HexDigitsInOrder(b as int % 16);
  }

  lemma PairEncodes(c: char, d: char)
    requires IsHex(c) && IsHex(d)
    ensures HexPair(PairValue(c, d)) == [LowerChar(c), LowerChar(d)]
  {
    hide HexValue, HexDigit, LowerChar, IsHex;
    DivMod16(HexValue(c), HexValue(d));
    ValueDigit(c);
    ValueDigit(d);
  }

  lemma DivMod16(a: nat, b: nat)
    requires b < 16
    ensures (a * 16 + b) / 16 == a && (a * 16 + b) % 16 == b
  {
  }

  lemma ValueDigit(c: char)
    requires IsHex(c)
    ensures HexDigit(HexValue(c)) == LowerChar(c)
  {
  }

  function HexEncode(bytes: seq<Byte>): (r: string)
    ensures |r| == 2 * |bytes|
    ensures AllHex(r)
  {
    if bytes == [] then "" else HexEncode(bytes[..|bytes| - 1]) + HexPair(bytes[|bytes| - 1])
  }

  ghost predicate AllHex(s: string) {
    forall i :: 0 <= i < |s| ==> IsHex(s[i])
  }

  function HexDecode(s: string): (r: seq<Byte>)
    requires |s| % 2 == 0 && AllHex(s)
    ensures |r| == |s| / 2
  {
    if s == "" then []
    else
      var n := |s| - 2;
      HexDecode(s[..n]) + [PairValue(s[n], s[n + 1])]
  }

  function Lower(s: string): (r: string)
    ensures |r| == |s|
  {
    seq(|s|, i requires 0 <= i < |s| => LowerChar(s[i]))
  }

  lemma AllHexAppend(s: string, c: char, d: char)
    requires AllHex(s) && IsHex(c) && IsHex(d)
    ensures AllHex(s + [c, d])
  {
    hide IsHex;
  }

  lemma HexDecodeAppend(s: string, c: char, d: char)
    requires |s| % 2 == 0 && AllHex(s) && IsHex(c) && IsHex(d)
    ensures AllHex(s + [c, d]) && HexDecode(s + [c, d]) == HexDecode(s) + [PairValue(c, d)]
  {
    AllHexAppend(s, c, d);
    hide IsHex, PairValue, AllHex;
    assert (s + [c, d])[..|s|] == s;
  }

  lemma HexDecodePair(s: string, b: Byte)
    requires |s| % 2 == 0 && AllHex(s)
    ensures AllHex(s + HexPair(b)) && HexDecode(s + HexPair(b)) == HexDecode(s) + [b]
  {
    hide AllHex, HexDecode, PairValue, IsHex;
    var pair := HexPair(b);
    PairDecodes(b);
    HexDecodeAppend(s, pair[0], pair[1]);
    hide HexPair;
    assert pair == [pair[0], pair[1]];
  }

  /** Decoding undoes encoding. */
  lemma {:induction false} HexDecodeEncode(bytes: seq<Byte>)
    ensures HexDecode(HexEncode(bytes)) == bytes
  {
    hide HexPair, PairValue, IsHex;
    if bytes != [] {
      hide HexDecode, AllHex;
      var before, last := bytes[..|bytes| - 1], bytes[|bytes| - 1];
      HexDecodeEncode(before);
      HexDecodePair(HexEncode(before), last);
      assert before + [last] == bytes;
    }
  }

  /** Encoding undoes decoding up to letter case. */
  lemma {:induction false} HexEncodeDecode(s: string)
    requires |s| % 2 == 0 && AllHex(s)
    ensures HexEncode(HexDecode(s)) == Lower(s)
  {
    hide HexPair, PairValue, IsHex, LowerChar;
    if s != "" {
      var n := |s| - 2;
      HexEncodeDecode(s[..n]);
      PairEncodes(s[n], s[n + 1]);
      HexEncodeAppend(HexDecode(s[..n]), PairValue(s[n], s[n + 1]));
      LowerAppend(s[..n], s[n], s[n + 1]);
      assert s[..n] + [s[n], s[n + 1]] == s;
    }
  }

  lemma HexEncodeAppend(bytes: seq<Byte>, b: Byte)
    ensures HexEncode(bytes + [b]) == HexEncode(bytes) + HexPair(b)
  {
    assert (bytes + [b])[..|bytes|] == bytes;
  }

  lemma LowerAppend(s: string, c: char, d: char)
    ensures Lower(s + [c, d]) == Lower(s) + [LowerChar(c), LowerChar(d)]
  {
  }

  method Uint8ArrayToHex(arr: array<Byte>) returns (result: string)
    ensures result == HexEncode(arr[..])
  {
    result := "";
    for i := 0 to arr.Length
      invariant result == HexEncode(arr[..i])
    {
      var hex := ToRadix16(arr[i]);
      result := result + if |hex| == 1 then "0" + hex else hex;
      assert arr[..i + 1][..i] == arr[..i];
    }
    assert arr[..arr.Length] == arr[..];
  }

  datatype HexError = OddLength | NotHex

  function BufferLength(into: array?<Byte>, s: string): nat {
    if into == null || |s| / 2 <= into.Length then |s| / 2 else into.Length
  }

  /** The first k pairs are hex digits, and what they decode to. */
  ghost predicate HexPairs(s: string, k: nat)
    requires k <= |s| / 2
  {
    AllHex(s[..2 * k])
  }

  ghost function DecodedPairs(s: string, k: nat): (r: seq<Byte>)
    requires k <= |s| / 2 && HexPairs(s, k)
    ensures |r| == k
  {
    HexDecode(s[..2 * k])
  }

  lemma NextPair(s: string, k: nat)
    requires k < |s| / 2 && HexPairs(s, k)
    ensures HexPairs(s, k + 1) <==> IsHex(s[2 * k]) && IsHex(s[2 * k + 1])
    ensures HexPairs(s, k + 1) ==> DecodedPairs(s, k + 1) == DecodedPairs(s, k) + [PairValue(s[2 * k], s[2 * k + 1])]
  {
    hide IsHex, PairValue;
    var before, next := s[..2 * k], s[..2 * k + 2];
    assert next == before + [s[2 * k], s[2 * k + 1]];
    assert next[2 * k] == s[2 * k] && next[2 * k + 1] == s[2 * k + 1] && next[..2 * k] == before;
  }

  lemma {:induction false} FewerPairs(s: string, j: nat, k: nat)
    requires j <= k <= |s| / 2 && HexPairs(s, k)
    ensures HexPairs(s, j)
  {
    forall i | 0 <= i < 2 * j
      ensures IsHex(s[..2 * j][i])
    {
      assert s[..2 * j][i] == s[..2 * k][i];
    }
  }

  lemma AllPairs(s: string)
    requires |s| % 2 == 0
    ensures HexPairs(s, |s| / 2) <==> AllHex(s)
    ensures AllHex(s) ==> DecodedPairs(s, |s| / 2) == HexDecode(s)
  {
    assert s[..2 * (|s| / 2)] == s;
  }

  /**
   * Decodes as much of the string as the given buffer takes, or all of it into a new one. After an error the buffer
   * holds the bytes decoded so far. Without a buffer of its own the whole string is decoded, or rejected for an odd
   * length or for any character that is not a hex digit.
   */
  method HexToUint8Array(s: string, into: array?<Byte>) returns (error: Option<HexError>, result: array?<Byte>)
    modifies if into == null then {} else {into}
    ensures error == Some(OddLength) <==> |s| % 2 != 0
    ensures |s| % 2 == 0 ==> (error == None <==> HexPairs(s, BufferLength(into, s)))
    ensures into == null ==> (error != None <==> |s| % 2 != 0 || !AllHex(s))
    ensures into == null && error == None ==> result != null && result[..] == HexDecode(s)
    ensures error == None ==> result != null && (if into == null then fresh(result) && result.Length == |s| / 2 else result == into)
    ensures error == None ==> result[..BufferLength(into, s)] == DecodedPairs(s, BufferLength(into, s))
    ensures into != null && error == Some(OddLength) ==> into[..] == old(into[..])
    ensures into != null && error == None ==> into[BufferLength(into, s)..] == old(into[BufferLength(into, s)..])
    ensures into != null && error == Some(NotHex) ==>
      exists k: nat :: k < BufferLength(into, s) && HexPairs(s, k) && !HexPairs(s, k + 1)
        && into[..k] == DecodedPairs(s, k) && into[k..] == old(into[k..])
  {
    if |s| % 2 != 0 {
      return Some(OddLength), null;
    }
    AllPairs(s);
    hide PairValue, HexPairs, IsHex, DecodedPairs, AllHex, HexDecode;
    var maxLength := BufferLength(into, s);
    var bytes: array<Byte>;
    if into == null {
      bytes := new Byte[maxLength];
    } else {
      bytes := into;
    }
    NoPairs(s);
    var written := 0;
    while written < maxLength
      invariant 0 <= written <= maxLength <= bytes.Length && (into == null ==> fresh(bytes)) && (into != null ==> bytes == into)
      invariant HexPairs(s, written) && bytes[..written] == DecodedPairs(s, written)
      invariant into != null ==> into[written..] == old(into[written..])
    {
      NextPair(s, written);
      var high, low := s[2 * written], s[2 * written + 1];
      if !IsHex(high) || !IsHex(low) {
        if HexPairs(s, maxLength) {
          FewerPairs(s, written + 1, maxLength);
        }
        return Some(NotHex), null;
      }
      ghost var before, after := bytes[..written], bytes[written + 1..];
      bytes[written] := PairValue(high, low);
      assert bytes[..written + 1] == before + [PairValue(high, low)] && bytes[written + 1..] == after;
      written := written + 1;
    }
    return None, bytes;
  }

  lemma NoPairs(s: string)
    ensures HexPairs(s, 0) && DecodedPairs(s, 0) == []
  {
  }

  // ---- Base64.

  function Char64(v: nat): char
    requires v < 64
  {
    if v < 26 then 'A' + v as char
    else if v < 52 then 'a' + (v - 26) as char
    else if v < 62 then '0' + (v - 52) as char
    else if v == 62 then '+' else '/'
  }

  predicate Is64(c: char) {
    'A' <= c <= 'Z' || 'a' <= c <= 'z' || '0' <= c <= '9' || c == '+' || c == '/'
  }

  function Value64(c: char): (v: nat)
    requires Is64(c)
    ensures v < 64
  {
    if 'A' <= c <= 'Z' then c as int - 'A' as int
    else if 'a' <= c <= 'z' then c as int - 'a' as int + 26
    else if '0' <= c <= '9' then c as int - '0' as int + 52
    else if c == '+' then 62 else 63
  }

  /** The four six-bit groups of three bytes. */
  function Sextets(a: Byte, b: Byte, c: Byte): (g: (nat, nat, nat, nat))
    ensures g.0 < 64 && g.1 < 64 && g.2 < 64 && g.3 < 64
  {
    (a as int / 4, a as int % 4 * 16 + b as int / 16, b as int % 16 * 4 + c as int / 64, c as int % 64)
  }

  function GroupText(g: (nat, nat, nat, nat)): (r: string)
    requires g.0 < 64 && g.1 < 64 && g.2 < 64 && g.3 < 64
    ensures |r| == 4
  {
    [Char64(g.0), Char64(g.1), Char64(g.2), Char64(g.3)]
  }

  function LastOne(a: Byte): (r: string)
    ensures |r| == 4
  {
    GroupText(Sextets(a, 0, 0))[..2] + "=="
  }

  function LastTwo(a: Byte, b: Byte): (r: string)
    ensures |r| == 4
  {
    GroupText(Sextets(a, b, 0))[..3] + "="
  }

  /** Three bytes at a time; a last group of one or two is padded. */
  function Base64Encode(bytes: seq<Byte>): (r: string)
    ensures |r| % 4 == 0
  {
    hide Char64, Sextets, GroupText, LastOne, LastTwo;
    if bytes == [] then ""
    else if |bytes| == 1 then LastOne(bytes[0])
    else if |bytes| == 2 then LastTwo(bytes[0], bytes[1])
    else GroupText(Sextets(bytes[0], bytes[1], bytes[2])) + Base64Encode(bytes[3..])
  }

  function Triple(u: nat, v: nat, w: nat, x: nat): (Byte, Byte, Byte)
    requires u < 64 && v < 64 && w < 64 && x < 64
  {
    ((u * 4 + v / 16) as Byte, (v % 16 * 16 + w / 4) as Byte, (w % 4 * 64 + x) as Byte)
  }

  /** Padded base64 text; None is the error thrown for anything else. */
  function Base64Decode(s: string): Option<seq<Byte>> {
    if s == "" then Some([])
    else if |s| < 4 || !Is64(s[0]) || !Is64(s[1]) then None
    else if s[2..] == "==" then Some([Triple(Value64(s[0]), Value64(s[1]), 0, 0).0])
    else if !Is64(s[2]) then None
    else if s[3..] == "=" then
      var t := Triple(Value64(s[0]), Value64(s[1]), Value64(s[2]), 0);
      Some([t.0, t.1])
    else if !Is64(s[3]) then None
    else
      var t := Triple(Value64(s[0]), Value64(s[1]), Value64(s[2]), Value64(s[3]));
      match Base64Decode(s[4..])
      case None => None
      case Some(rest) => Some([t.0, t.1, t.2] + rest)
  }

  /** The alphabet of table 1 of RFC 4648. */
  const CAPITALS := "ABCDEFGHIJKLMNOPQRSTUVWXYZ"

  const SMALLS := "abcdefghijklmnopqrstuvwxyz"

  const DIGITS := "0123456789"

  lemma AlphabetInOrder(v: nat)
    requires v < 64
    ensures v < 26 ==> Char64(v) == CAPITALS[v]
    ensures 26 <= v < 52 ==> Char64(v) == SMALLS[v - 26]
    ensures 52 <= v < 62 ==> Char64(v) == DIGITS[v - 52]
    ensures v == 62 ==> Char64(v) == '+'
    ensures v == 63 ==> Char64(v) == '/'
  {
    if v < 26 {
      hide SMALLS, DIGITS;
    } else if v < 52 {
      hide CAPITALS, DIGITS;
    } else {
      hide CAPITALS, SMALLS;
    }
  }

  /** Only those characters are taken. */
  lemma AlphabetOnly(c: char)
    requires Is64(c)
    ensures Char64(Value64(c)) == c
  {
  }

  lemma Char64Value(v: nat)
    requires v < 64
    ensures Is64(Char64(v)) && Value64(Char64(v)) == v && Char64(v) != '='
  {
  }

  /** Cutting a number at a power of two and putting it together again. */
  lemma CutAndJoin(n: nat, d: nat)
    requires d == 4 || d == 16 || d == 64
    ensures n / d * d + n % d == n
  {
  }

  lemma JoinAndCut(high: nat, low: nat, d: nat)
    requires (d == 4 || d == 16 || d == 64) && low < d
    ensures (high * d + low) / d == high && (high * d + low) % d == low
  {
    if d == 4 {
      assert (high * 4 + low) / 4 == high;
    } else if d == 16 {
      assert (high * 16 + low) / 16 == high;
    } else {
      assert (high * 64 + low) / 64 == high;
    }
  }

  lemma TripleSextets(a: Byte, b: Byte, c: Byte)
    ensures var g := Sextets(a, b, c);
      Triple(g.0, g.1, g.2, g.3) == (a, b, c)
  {
    var x, y, z := a as int, b as int, c as int;
    CutAndJoin(x, 4);
    CutAndJoin(y, 16);
    CutAndJoin(z, 64);
    JoinAndCut(x % 4, y / 16, 16);
    JoinAndCut(y % 16, z / 64, 4);
  }

  lemma GroupDecodes(a: Byte, b: Byte, c: Byte)
    ensures var g := Sextets(a, b, c);
      && Is64(Char64(g.0)) && Is64(Char64(g.1)) && Is64(Char64(g.2)) && Is64(Char64(g.3))
      && Char64(g.2) != '=' && Char64(g.3) != '='
      && Triple(Value64(Char64(g.0)), Value64(Char64(g.1)), Value64(Char64(g.2)), Value64(Char64(g.3))) == (a, b, c)
      && (b == 0 && c == 0 ==> g.2 == 0) && (c == 0 ==> g.3 == 0)
  {
    var g := Sextets(a, b, c);
    TripleSextets(a, b, c);
    Char64Value(g.0);
    Char64Value(g.1);
    Char64Value(g.2);
    Char64Value(g.3);
  }

  lemma OneByteDecodes(a: Byte)
    ensures Base64Decode(Base64Encode([a])) == Some([a])
  {
    hide Char64, Value64, Is64, Sextets, Triple;
    GroupDecodes(a, 0, 0);
    Value64OfA();
    assert Base64Encode([a])[2..] == "==";
  }

  lemma TwoBytesDecode(a: Byte, b: Byte)
    ensures Base64Decode(Base64Encode([a, b])) == Some([a, b])
  {
    hide Char64, Value64, Is64, Sextets, Triple;
    GroupDecodes(a, b, 0);
    Value64OfA();
    var s := Base64Encode([a, b]);
    assert s[2..][0] == Char64(Sextets(a, b, 0).2);
    assert s[3..] == "=";
  }

  lemma GroupRead(a: Byte, b: Byte, c: Byte, rest: string)
    requires Base64Decode(rest).Some?
    ensures var g := Sextets(a, b, c);
      Base64Decode([Char64(g.0), Char64(g.1), Char64(g.2), Char64(g.3)] + rest) == Some([a, b, c] + Base64Decode(rest).value)
  {
    hide Char64, Value64, Is64, Sextets, Triple;
    GroupDecodes(a, b, c);
    var g := Sextets(a, b, c);
    var s := [Char64(g.0), Char64(g.1), Char64(g.2), Char64(g.3)] + rest;
    assert s[2..][0] == s[2] && s[3..][0] == s[3] && s[4..] == rest;
  }

  /** Decoding undoes encoding. */
  lemma {:induction false} Base64DecodeEncode(bytes: seq<Byte>)
    ensures Base64Decode(Base64Encode(bytes)) == Some(bytes)
  {
    hide Char64, Value64, Is64, Sextets, Triple;
    if |bytes| == 1 {
      OneByteDecodes(bytes[0]);
      assert bytes == [bytes[0]];
    } else if |bytes| == 2 {
      TwoBytesDecode(bytes[0], bytes[1]);
      assert bytes == [bytes[0], bytes[1]];
    } else if bytes != [] {
      hide Base64Decode;
      Base64DecodeEncode(bytes[3..]);
      GroupRead(bytes[0], bytes[1], bytes[2], Base64Encode(bytes[3..]));
      assert bytes == [bytes[0], bytes[1], bytes[2]] + bytes[3..];
    }
  }

  lemma Value64OfA()
    ensures Is64(Char64(0)) && Value64(Char64(0)) == 0
  {
  }

  // ---- Truncated encoding.

  datatype Encoding = Hex | Base64

  function Encode(bytes: seq<Byte>, encoding: Encoding): string {
    if encoding == Base64 then Base64Encode(bytes) else HexEncode(bytes)
  }

  /** How many bytes are encoded at most for about `maxChars` characters. */
  function MaxBytes(maxChars: nat, encoding: Encoding): nat {
    if encoding == Base64 then maxChars / 4 * 3 else (maxChars + 1) / 2
  }

  function TypedArrayToString(bytes: seq<Byte>, encoding: Encoding, maxChars: Option<nat>): string {
    if maxChars.Some? && |bytes| > 0 && |bytes| > MaxBytes(maxChars.value, encoding)
    then Encode(bytes[..MaxBytes(maxChars.value, encoding)], encoding)
    else Encode(bytes, encoding)
  }

  function EncodedStringLength(byteLength: nat, encoding: Encoding): nat {
    if encoding == Base64 then (byteLength + 2) / 3 * 4 else byteLength * 2
  }

  lemma {:induction false} Base64Length(bytes: seq<Byte>)
    ensures |Base64Encode(bytes)| == EncodedStringLength(|bytes|, Base64)
  {
    if |bytes| > 2 {
      Base64Length(bytes[3..]);
      OneMoreGroup(|bytes| - 3);
    }
  }

  lemma OneMoreGroup(n: nat)
    ensures EncodedStringLength(n + 3, Base64) == EncodedStringLength(n, Base64) + 4
  {
  }

  lemma WholeGroups(maxChars: nat)
    ensures maxChars - 3 <= EncodedStringLength(maxChars / 4 * 3, Base64) <= maxChars
  {
  }

  lemma {:induction false} LengthMonotone(m: nat, n: nat)
    requires m <= n
    ensures EncodedStringLength(m, Base64) <= EncodedStringLength(n, Base64)
  {
    assert (m + 2) / 3 <= (n + 2) / 3;
  }

  /** The announced length is the length of the full encoding. */
  lemma EncodedLength(bytes: seq<Byte>, encoding: Encoding)
    ensures |TypedArrayToString(bytes, encoding, None)| == EncodedStringLength(|bytes|, encoding)
  {
    Base64Length(bytes);
  }

  lemma {:induction false} Base64Prefix(bytes: seq<Byte>, k: nat)
    requires 3 * k <= |bytes|
    ensures Base64Encode(bytes[..3 * k]) <= Base64Encode(bytes)
    decreases k
  {
    if k > 0 {
      var front := bytes[..3 * k];
      Base64Prefix(bytes[3..], k - 1);
      assert front[3..] == bytes[3..][..3 * (k - 1)];
    } else {
      assert bytes[..0] == [];
    }
  }

  lemma {:induction false} HexPrefix(bytes: seq<Byte>, k: nat)
    requires k <= |bytes|
    ensures HexEncode(bytes[..k]) <= HexEncode(bytes)
    decreases |bytes|
  {
    if k < |bytes| {
      var before := bytes[..|bytes| - 1];
      HexPrefix(before, k);
      assert before[..k] == bytes[..k];
    } else {
      assert bytes[..k] == bytes;
    }
  }

  /**
   * A truncated encoding is a prefix of the full one. It keeps within the wished length for base64 and is at most one
   * over it for hex; and when something was cut off, it is short of that length by less than a group.
   */
  lemma TruncationIsPrefix(bytes: seq<Byte>, encoding: Encoding, maxChars: nat)
    ensures var r, full := TypedArrayToString(bytes, encoding, Some(maxChars)), TypedArrayToString(bytes, encoding, None);
      && r <= full
      && |r| <= maxChars + (if encoding == Hex then 1 else 0)
      && (r != full ==> maxChars <= |r| + (if encoding == Base64 then 3 else 0))
  {
    var n := MaxBytes(maxChars, encoding);
    if encoding == Base64 {
      hide Base64Encode, EncodedStringLength;
      WholeGroups(maxChars);
      Base64Length(bytes);
      if |bytes| > n {
        Base64Length(bytes[..n]);
        Base64Prefix(bytes, maxChars / 4);
        assert n == 3 * (maxChars / 4);
      } else {
        LengthMonotone(|bytes|, n);
      }
    } else if |bytes| > n {
      hide HexEncode;
      HexPrefix(bytes, n);
    }
  }

  /** Decoding what was encoded in full gives the bytes back. */
  lemma StringToTypedArrayInverts(bytes: seq<Byte>, encoding: Encoding)
    ensures var s := TypedArrayToString(bytes, encoding, None);
      if encoding == Base64 then Base64Decode(s) == Some(bytes) else |s| % 2 == 0 && AllHex(s) && HexDecode(s) == bytes
  {
    Base64DecodeEncode(bytes);
    HexDecodeEncode(bytes);
  }

  /** Four-character groups of the alphabet, the last one padded with one or two equals signs or not at all. */
  ghost predicate Padded(s: string) {
    |s| % 4 == 0 && exists n :: |s| - 2 <= n <= |s| && Body64(s, n) && forall i :: n <= i < |s| ==> s[i] == '='
  }

  ghost predicate Body64(s: string, n: int)
    requires n <= |s|
  {
    0 <= n && forall i :: 0 <= i < n ==> Is64(s[i])
  }

  lemma PaddedGroup(s: string)
    requires |s| == 4
    ensures Padded(s) <==> Is64(s[0]) && Is64(s[1]) && (s[2..] == "==" || (Is64(s[2]) && (s[3..] == "=" || Is64(s[3]))))
  {
    assert !Is64('=');
    hide Is64;
    assert s[2..] == "==" <==> s[2] == '=' && s[3] == '=';
    if Is64(s[0]) && Is64(s[1]) {
      assert s[2..] == "==" ==> Body64(s, 2);
      assert Is64(s[2]) && s[3..] == "=" ==> Body64(s, 3) && s[3] == '=';
      assert Is64(s[2]) && Is64(s[3]) ==> Body64(s, 4);
    }
    if Padded(s) {
      var n :| |s| - 2 <= n <= |s| && Body64(s, n) && forall i :: n <= i < |s| ==> s[i] == '=';
      assert n == 2 || n == 3 || n == 4;
    }
  }

  lemma PaddedRest(s: string)
    requires |s| > 4 && Is64(s[0]) && Is64(s[1]) && Is64(s[2]) && Is64(s[3])
    ensures Padded(s) <==> Padded(s[4..])
  {
    hide Is64;
    var t := s[4..];
    if Padded(s) {
      var n :| |s| - 2 <= n <= |s| && Body64(s, n) && forall i :: n <= i < |s| ==> s[i] == '=';
      assert Body64(t, n - 4);
    }
    if Padded(t) {
      var n :| |t| - 2 <= n <= |t| && Body64(t, n) && forall i :: n <= i < |t| ==> t[i] == '=';
      forall i | 0 <= i < n + 4
        ensures Is64(s[i])
      {
        assert i >= 4 ==> s[i] == t[i - 4];
      }
      forall i | n + 4 <= i < |s|
        ensures s[i] == '='
      {
        assert s[i] == t[i - 4];
      }
      assert Body64(s, n + 4);
    }
  }

  lemma NotPadded(s: string)
    requires |s| >= 4 && Padded(s) && |s| > 4
    ensures Is64(s[0]) && Is64(s[1]) && Is64(s[2]) && Is64(s[3])
  {
    hide Is64;
  }

  /** Padded text decodes, and nothing else does. */
  lemma {:induction false} DecodesIffPadded(s: string)
    ensures Base64Decode(s).Some? <==> Padded(s)
  {
    hide Value64, Triple;
    if s == "" {
      assert Body64(s, 0);
    } else if |s| == 4 {
      PaddedGroup(s);
      assert s[4..] == "";
      hide Padded, Is64;
    } else if |s| > 4 {
      if Padded(s) {
        NotPadded(s);
      }
      assert s[2..] != "==" && s[3..] != "=";
      hide Padded;
      if Is64(s[0]) && Is64(s[1]) && Is64(s[2]) && Is64(s[3]) {
        PaddedRest(s);
        DecodesIffPadded(s[4..]);
      }
      hide Is64;
    }
  }

  // ---- The test vectors of section 10 of RFC 4648.

  const FOOBAR: seq<Byte> := [102, 111, 111, 98, 97, 114]

  lemma HexVector()
    ensures HexEncode(FOOBAR) == "666f6f626172"
  {
    HexThree([], 102, 111, 111);
    HexThree(FOOBAR[..3], 98, 97, 114);
    assert [] + [102 as Byte, 111, 111] == FOOBAR[..3] && FOOBAR[..3] + [98 as Byte, 97, 114] == FOOBAR;
    assert HexPair(102) == "66" && HexPair(111) == "6f" && HexPair(98) == "62" && HexPair(97) == "61" && HexPair(114) == "72";
  }

  lemma HexThree(bytes: seq<Byte>, a: Byte, b: Byte, c: Byte)
    ensures HexEncode(bytes + [a, b, c]) == HexEncode(bytes) + HexPair(a) + HexPair(b) + HexPair(c)
  {
    HexEncodeAppend(bytes, a);
    HexEncodeAppend(bytes + [a], b);
    HexEncodeAppend(bytes + [a] + [b], c);
    assert bytes + [a] + [b] + [c] == bytes + [a, b, c];
  }

  lemma Base64Groups()
    ensures GroupText(Sextets(102, 111, 111)) == "Zm9v" && GroupText(Sextets(98, 97, 114)) == "YmFy"
    ensures GroupText(Sextets(102, 0, 0))[..2] == "Zg" && GroupText(Sextets(102, 111, 0))[..3] == "Zm8"
  {
  }

  lemma OneGroup(a: Byte, b: Byte, c: Byte, rest: seq<Byte>)
    ensures Base64Encode([a]) == GroupText(Sextets(a, 0, 0))[..2] + "=="
    ensures Base64Encode([a, b]) == GroupText(Sextets(a, b, 0))[..3] + "="
    ensures Base64Encode([a, b, c] + rest) == GroupText(Sextets(a, b, c)) + Base64Encode(rest)
  {
    hide Sextets, GroupText, Char64;
    assert ([a, b, c] + rest)[3..] == rest;
  }

  lemma Base64Vectors()
    ensures Base64Encode([]) == "" && Base64Encode(FOOBAR[..1]) == "Zg==" && Base64Encode(FOOBAR[..2]) == "Zm8="
    ensures Base64Encode(FOOBAR[..3]) == "Zm9v" && Base64Encode(FOOBAR) == "Zm9vYmFy"
  {
    Base64Groups();
    OneGroup(102, 111, 111, []);
    OneGroup(102, 111, 111, [98, 97, 114]);
    OneGroup(98, 97, 114, []);
    hide Sextets, GroupText;
    assert FOOBAR[..1] == [102] && FOOBAR[..2] == [102, 111] && FOOBAR[..3] == [102, 111, 111] + [];
    assert FOOBAR == [102, 111, 111] + [98, 97, 114] && [98 as Byte, 97, 114] == [98, 97, 114] + [];
    assert Base64Encode([]) == "";
    hide Base64Encode;
  }
}
