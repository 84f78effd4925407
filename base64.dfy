/**
 * Base 64 encoding as in section 4 of RFC 4648 (`Buffer.toString('base64')`):
 * each group of three bytes becomes four characters of the alphabet of
 * Table 1, and a final group of one or two bytes is padded with '='.
 * The decoder is the partner the round-trip law is stated against.
 */
module Base64 {
  import opened Wrappers

  type Byte = x: int | 0 <= x < 256

  const Pad: char := '='

  /** The character of value `i` in Table 1 of RFC 4648: A-Z, a-z, 0-9, '+', '/'. */
  function AlphabetChar(i: int): (c: char)
    requires 0 <= i < 64
    ensures IsAlphabetChar(c)
  {
    if i < 26 then ('A' as int + i) as char
    else if i < 52 then ('a' as int + (i - 26)) as char
    else if i < 62 then ('0' as int + (i - 52)) as char
    else if i == 62 then '+'
    else '/'
  }

  predicate IsAlphabetChar(c: char) {
    'A' <= c <= 'Z' || 'a' <= c <= 'z' || '0' <= c <= '9' || c == '+' || c == '/'
  }

  /** The value of an alphabet character: the inverse of AlphabetChar in both directions. */
  function AlphabetIndex(c: char): (i: int)
    requires IsAlphabetChar(c)
    ensures 0 <= i < 64 && AlphabetChar(i) == c
  {
    if 'A' <= c <= 'Z' then c as int - 'A' as int
    else if 'a' <= c <= 'z' then c as int - 'a' as int + 26
    else if '0' <= c <= '9' then c as int - '0' as int + 52
    else if c == '+' then 62
    else 63
  }

  lemma AlphabetIndexOfChar(i: int)
    requires 0 <= i < 64
    ensures AlphabetIndex(AlphabetChar(i)) == i
  {
  }

  /** Three bytes as four characters (24 bits as four 6-bit groups, most significant first). */
  function EncodeGroup(b0: Byte, b1: Byte, b2: Byte): string {
    [ AlphabetChar(b0 / 4), AlphabetChar((b0 % 4) * 16 + b1 / 16),
      AlphabetChar((b1 % 16) * 4 + b2 / 64), AlphabetChar(b2 % 64) ]
  }

  /** The encoding: length 4 * ceil(n / 3), made of alphabet characters and padding only. */
  function Encode(bytes: seq<Byte>): (r: string)
    ensures |r| == 4 * ((|bytes| + 2) / 3)
    ensures forall k :: 0 <= k < |r| ==> IsAlphabetChar(r[k]) || r[k] == Pad
    ensures bytes == [] <==> r == []
    ensures bytes != [] ==> |r| >= 4
    decreases |bytes|
  {
    if |bytes| == 0 then ""
    else if |bytes| == 1 then
      [AlphabetChar(bytes[0] / 4), AlphabetChar((bytes[0] % 4) * 16), Pad, Pad]
    else if |bytes| == 2 then
      [ AlphabetChar(bytes[0] / 4), AlphabetChar((bytes[0] % 4) * 16 + bytes[1] / 16),
        AlphabetChar((bytes[1] % 16) * 4), Pad ]
    else
      EncodeGroup(bytes[0], bytes[1], bytes[2]) + Encode(bytes[3..])
  }

  /** Four 6-bit values back to three bytes. */
  function DecodeGroup(i0: int, i1: int, i2: int, i3: int): (r: seq<Byte>)
    requires 0 <= i0 < 64 && 0 <= i1 < 64 && 0 <= i2 < 64 && 0 <= i3 < 64
    ensures |r| == 3
  {
    [i0 * 4 + i1 / 16, (i1 % 16) * 16 + i2 / 4, (i2 % 4) * 64 + i3]
  }

  /** The last quantum: two '=' leave one byte, one '=' leaves two, none leaves three. */
  function DecodeLast(c0: char, c1: char, c2: char, c3: char): Option<seq<Byte>> {
    if !IsAlphabetChar(c0) || !IsAlphabetChar(c1) then None
    else if c2 == Pad && c3 == Pad then
      Some([AlphabetIndex(c0) * 4 + AlphabetIndex(c1) / 16])
    else if IsAlphabetChar(c2) && c3 == Pad then
      Some(DecodeGroup(AlphabetIndex(c0), AlphabetIndex(c1), AlphabetIndex(c2), 0)[..2])
    else if IsAlphabetChar(c2) && IsAlphabetChar(c3) then
      Some(DecodeGroup(AlphabetIndex(c0), AlphabetIndex(c1), AlphabetIndex(c2), AlphabetIndex(c3)))
    else None
  }

  /** Decoding: `None` for text that is not a padded encoding. */
  function Decode(s: string): Option<seq<Byte>>
    decreases |s|
  {
    if |s| == 0 then Some([])
    else if |s| < 4 then None
    else if |s| == 4 then DecodeLast(s[0], s[1], s[2], s[3])
    else if IsAlphabetChar(s[0]) && IsAlphabetChar(s[1]) && IsAlphabetChar(s[2]) && IsAlphabetChar(s[3]) then
      match Decode(s[4..])
      case Some(rest) =>
        Some(DecodeGroup(AlphabetIndex(s[0]), AlphabetIndex(s[1]), AlphabetIndex(s[2]), AlphabetIndex(s[3])) + rest)
      case None => None
    else None
  }

  lemma GroupRoundTrip(b0: Byte, b1: Byte, b2: Byte)
    ensures DecodeGroup(b0 / 4, (b0 % 4) * 16 + b1 / 16, (b1 % 16) * 4 + b2 / 64, b2 % 64) == [b0, b1, b2]
  {
    var i1 := (b0 % 4) * 16 + b1 / 16;
    var i2 := (b1 % 16) * 4 + b2 / 64;
    assert i1 / 16 == b0 % 4 && i1 % 16 == b1 / 16;
    assert i2 / 4 == b1 % 16 && i2 % 4 == b2 / 64;
  }

  lemma RoundTripOne(b0: Byte)
    ensures Decode(Encode([b0])) == Some([b0])
  {
    AlphabetIndexOfChar(b0 / 4);
    AlphabetIndexOfChar((b0 % 4) * 16);
  }

  lemma RoundTripTwo(b0: Byte, b1: Byte)
    ensures Decode(Encode([b0, b1])) == Some([b0, b1])
  {
    var s := Encode([b0, b1]);
    var i1 := (b0 % 4) * 16 + b1 / 16;
    var i2 := (b1 % 16) * 4;
    AlphabetIndexOfChar(b0 / 4);
    AlphabetIndexOfChar(i1);
    AlphabetIndexOfChar(i2);
    assert i1 / 16 == b0 % 4 && i1 % 16 == b1 / 16 && i2 / 4 == b1 % 16;
    assert s == [AlphabetChar(b0 / 4), AlphabetChar(i1), AlphabetChar(i2), Pad];
    var g := DecodeGroup(b0 / 4, i1, i2, 0);
    assert g[..2] == [b0, b1];
  }

  /** A full quantum, alone or followed by more quanta, decodes to its three bytes. */
  lemma DecodeFullQuantum(q: string, rest: string)
    requires |q| == 4 && forall k :: 0 <= k < 4 ==> IsAlphabetChar(q[k])
    requires rest == [] || (|rest| >= 4 && Decode(rest).Some?)
    ensures Decode(q + rest) ==
      Some(DecodeGroup(AlphabetIndex(q[0]), AlphabetIndex(q[1]), AlphabetIndex(q[2]), AlphabetIndex(q[3]))
           + (if rest == [] then [] else Decode(rest).value))
  {
    var s := q + rest;
    assert s[..4] == q && s[4..] == rest;
    var g := DecodeGroup(AlphabetIndex(q[0]), AlphabetIndex(q[1]), AlphabetIndex(q[2]), AlphabetIndex(q[3]));
    if rest == [] {
      assert s == q;
      assert q[2] != Pad && q[3] != Pad;
      assert g + [] == g;
    }
  }

  /** A three-byte group encodes to a full quantum that decodes back to the group. */
  lemma GroupQuantum(b0: Byte, b1: Byte, b2: Byte)
    ensures var q := EncodeGroup(b0, b1, b2);
      && |q| == 4 && (forall k :: 0 <= k < 4 ==> IsAlphabetChar(q[k]))
      && DecodeGroup(AlphabetIndex(q[0]), AlphabetIndex(q[1]), AlphabetIndex(q[2]), AlphabetIndex(q[3])) == [b0, b1, b2]
  {
    AlphabetIndexOfChar(b0 / 4);
    AlphabetIndexOfChar((b0 % 4) * 16 + b1 / 16);
    AlphabetIndexOfChar((b1 % 16) * 4 + b2 / 64);
    AlphabetIndexOfChar(b2 % 64);
    GroupRoundTrip(b0, b1, b2);
  }

  /** Three or more bytes encode as their first group followed by the encoding of the rest. */
  lemma EncodeHead(bytes: seq<Byte>)
    requires |bytes| >= 3
    ensures Encode(bytes) == EncodeGroup(bytes[0], bytes[1], bytes[2]) + Encode(bytes[3..])
  {
  }

  /** A quantum that decodes to `group`, in front of text that decodes to `tail`, decodes to both. */
  lemma PrependQuantum(q: string, group: seq<Byte>, rest: string, tail: seq<Byte>)
    requires |q| == 4 && forall k :: 0 <= k < 4 ==> IsAlphabetChar(q[k])
    requires DecodeGroup(AlphabetIndex(q[0]), AlphabetIndex(q[1]), AlphabetIndex(q[2]), AlphabetIndex(q[3])) == group
    requires rest == [] || |rest| >= 4
    requires Decode(rest) == Some(tail)
    ensures Decode(q + rest) == Some(group + tail)
  {
    DecodeFullQuantum(q, rest);
    if rest == [] {
      assert tail == [];
    }
  }

  /** A sequence of three or more elements is its first three followed by the rest. */
  lemma FirstThree<T>(s: seq<T>)
    requires |s| >= 3
    ensures [s[0], s[1], s[2]] + s[3..] == s
  {
  }

  /** One group in front of bytes that round-trip: the whole round-trips. */
  lemma DecodeEncodeStep(bytes: seq<Byte>)
    requires |bytes| >= 3
    requires Decode(Encode(bytes[3..])) == Some(bytes[3..])
    ensures Decode(Encode(bytes)) == Some(bytes)
  {
    FirstThree(bytes);
    EncodeHead(bytes);
    GroupQuantum(bytes[0], bytes[1], bytes[2]);
    PrependQuantum(EncodeGroup(bytes[0], bytes[1], bytes[2]), [bytes[0], bytes[1], bytes[2]],
                   Encode(bytes[3..]), bytes[3..]);
  }

  /** Decoding an encoding gives the bytes back. */
  lemma {:induction false} DecodeEncode(bytes: seq<Byte>)
    ensures Decode(Encode(bytes)) == Some(bytes)
    decreases |bytes|
  {
    if |bytes| == 1 {
      RoundTripOne(bytes[0]);
      assert [bytes[0]] == bytes;
    } else if |bytes| == 2 {
      RoundTripTwo(bytes[0], bytes[1]);
      assert [bytes[0], bytes[1]] == bytes;
    } else if |bytes| >= 3 {
      DecodeEncode(bytes[3..]);
      DecodeEncodeStep(bytes);
    }
  }

  /** Encoding a whole number of groups followed by more bytes is encoding each part. */
  lemma {:induction false} EncodeConcat(a: seq<Byte>, b: seq<Byte>)
    requires |a| % 3 == 0
    ensures Encode(a + b) == Encode(a) + Encode(b)
    decreases |a|
  {
    if a != [] {
      assert (a + b)[3..] == a[3..] + b;
      EncodeConcat(a[3..], b);
    } else {
      assert a + b == b;
    }
  }

  /** The test vectors of section 10 of RFC 4648 for "f", "fo", "foo" and "foobar". */
  lemma EncodeVectors()
    ensures Encode([102]) == "Zg=="
    ensures Encode([102, 111]) == "Zm8="
    ensures Encode([102, 111, 111]) == "Zm9v"
    ensures Encode([102, 111, 111, 98, 97, 114]) == "Zm9vYmFy"
  {
    EncodeOne();
    EncodeTwo();
    EncodeGroupFoo();
    EncodeGroupBar();
    EncodeConcat([102, 111, 111], [98, 97, 114]);
    assert [102, 111, 111] + [98, 97, 114] == [102, 111, 111, 98, 97, 114];
  }

  lemma EncodeOne()
    ensures Encode([102]) == "Zg=="
  {
    assert AlphabetChar(25) == 'Z' && AlphabetChar(32) == 'g';
  }

  lemma EncodeTwo()
    ensures Encode([102, 111]) == "Zm8="
  {
    assert AlphabetChar(25) == 'Z' && AlphabetChar(38) == 'm' && AlphabetChar(60) == '8';
  }

  lemma EncodeGroupFoo()
    ensures Encode([102, 111, 111]) == "Zm9v"
  {
    EncodeThree(102, 111, 111);
    assert 102 / 4 == 25 && (102 % 4) * 16 + 111 / 16 == 38;
    assert (111 % 16) * 4 + 111 / 64 == 61 && 111 % 64 == 47;
    assert AlphabetChar(25) == 'Z' && AlphabetChar(38) == 'm';
    assert AlphabetChar(61) == '9' && AlphabetChar(47) == 'v';
  }

  lemma EncodeGroupBar()
    ensures Encode([98, 97, 114]) == "YmFy"
  {
    EncodeThree(98, 97, 114);
    assert 98 / 4 == 24 && (98 % 4) * 16 + 97 / 16 == 38;
    assert (97 % 16) * 4 + 114 / 64 == 5 && 114 % 64 == 50;
    assert AlphabetChar(24) == 'Y' && AlphabetChar(38) == 'm';
    assert AlphabetChar(5) == 'F' && AlphabetChar(50) == 'y';
  }

  /** Three bytes encode as one group. */
  lemma EncodeThree(b0: Byte, b1: Byte, b2: Byte)
    ensures Encode([b0, b1, b2]) == EncodeGroup(b0, b1, b2)
  {
    EncodeHead([b0, b1, b2]);
    assert [b0, b1, b2][3..] == [];
  }
}
