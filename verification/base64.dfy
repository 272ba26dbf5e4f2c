/** The base64 codec of section 4 of RFC 4648. Shifts and masks on values below
    2^24 are written as division and remainder by powers of two. */
module Base64 {
  import opened Json

  newtype byte = n: int | 0 <= n < 256

  type sextet = n: int | 0 <= n < 64

  function Alphabet(n: sextet): (c: char)
  {
    if n < 26 then 'A' + n as char
    else if n < 52 then 'a' + (n - 26) as char
    else if n < 62 then '0' + (n - 52) as char
    else if n == 62 then '+'
    else '/'
  }

  /** The alphabet written out (table 1 of RFC 4648). */
  function Listed(n: sextet): (c: char)
  {
    ("ABCDEFGHIJKLMNOPQRSTUVWXYZ" + "abcdefghijklmnopqrstuvwxyz" + "0123456789" + "+/")[n]
  }

  lemma {:induction false} AlphabetIsTable(n: sextet)
    ensures Alphabet(n) == Listed(n)
  {
    if n < 26 {
      CapitalLetters(n);
    } else if n < 52 {
      SmallLetters(n - 26);
    } else if n < 62 {
      Digits(n - 52);
    }
  }

  lemma {:induction false} CapitalLetters(n: int)
    requires 0 <= n < 26
    ensures "ABCDEFGHIJKLMNOPQRSTUVWXYZ"[n] == 'A' + n as char
  {
  }

  lemma {:induction false} SmallLetters(n: int)
    requires 0 <= n < 26
    ensures "abcdefghijklmnopqrstuvwxyz"[n] == 'a' + n as char
  {
  }

  lemma {:induction false} Digits(n: int)
    requires 0 <= n < 10
    ensures "0123456789"[n] == '0' + n as char
  {
  }

  /** The position of a character in the alphabet, or -1. */
  function DecodeCharacter(c: char): (n: int)
    ensures -1 <= n < 64
    ensures 0 <= n ==> Alphabet(n) == c && c != '='
    ensures n < 0 ==> forall m: sextet :: Alphabet(m) != c
  {
    if 'A' <= c <= 'Z' then c as int - 'A' as int
    else if 'a' <= c <= 'z' then c as int - 'a' as int + 26
    else if '0' <= c <= '9' then c as int - '0' as int + 52
    else if c == '+' then 62
    else if c == '/' then 63
    else -1
  }

  lemma {:induction false} DecodeAlphabet(n: sextet)
    ensures DecodeCharacter(Alphabet(n)) == n
    ensures Alphabet(n) != '=' && !Whitespace(Alphabet(n))
  {
  }

  // ---- bit fields ----

  function Field0(a: byte): (field: sextet) { a as int / 4 }
  function Field1(a: byte, b: byte): (field: sextet) { a as int % 4 * 16 + b as int / 16 }
  function Field2(b: byte, c: byte): (field: sextet) { b as int % 16 * 4 + c as int / 64 }
  function Field3(c: byte): (field: sextet) { c as int % 64 }

  function Byte0(first: sextet, second: sextet): (b: byte) { (first * 4 + second / 16) as byte }
  function Byte1(second: sextet, third: sextet): (b: byte) { (second % 16 * 16 + third / 4) as byte }
  function Byte2(third: sextet, fourth: sextet): (b: byte) { (third % 4 * 64 + fourth) as byte }

  lemma {:induction false} BytesOfFields(a: byte, b: byte, c: byte)
    ensures Byte0(Field0(a), Field1(a, b)) == a
    ensures Byte1(Field1(a, b), Field2(b, c)) == b
    ensures Byte2(Field2(b, c), Field3(c)) == c
    ensures Field1(a, 0) % 16 == 0 && Field2(b, 0) % 4 == 0
  {
  }

  lemma {:induction false} FieldsOfBytes(first: sextet, second: sextet, third: sextet, fourth: sextet)
    ensures Field0(Byte0(first, second)) == first
    ensures Field1(Byte0(first, second), Byte1(second, third)) == second
    ensures Field2(Byte1(second, third), Byte2(third, fourth)) == third
    ensures Field3(Byte2(third, fourth)) == fourth
    ensures second % 16 == 0 ==> Byte1(second, 0) == 0
    ensures third % 4 == 0 ==> Byte2(third, 0) == 0
  {
  }

  /** Twenty-four bits cut into four fields of six. */
  lemma {:induction false} Cut(a: byte, b: byte, c: byte)
    ensures var value := a as int * 0x10000 + b as int * 0x100 + c as int;
            && value / 0x40000 % 64 == Field0(a)
            && value / 0x1000 % 64 == Field1(a, b)
            && value / 0x40 % 64 == Field2(b, c)
            && value % 64 == Field3(c)
  {
    var value := a as int * 0x10000 + b as int * 0x100 + c as int;
    var w: int, x: int, y: int, z: int := Field0(a), Field1(a, b), Field2(b, c), Field3(c);
    assert value == w * 0x40000 + x * 0x1000 + y * 0x40 + z;
    CutFields(w, x, y, z, value);
  }

  lemma {:induction false} CutFields(w: sextet, x: sextet, y: sextet, z: sextet, value: int)
    requires value == w * 0x40000 + x * 0x1000 + y * 0x40 + z
    ensures value / 0x40000 % 64 == w
    ensures value / 0x1000 % 64 == x
    ensures value / 0x40 % 64 == y
    ensures value % 64 == z
  {
    assert value / 0x40000 == w;
    assert value / 0x1000 == w * 64 + x;
    assert value / 0x40 == (w * 64 + x) * 64 + y;
  }

  // ---- what encoding means ----

  /** The four characters that stand for one, two or three bytes. */
  function Group(bytes: seq<byte>): (chars: string)
    requires 1 <= |bytes| <= 3
    ensures |chars| == 4
  {
    var a := bytes[0];
    var b := if |bytes| > 1 then bytes[1] else 0;
    var c := if |bytes| > 2 then bytes[2] else 0;
    [Alphabet(Field0(a)), Alphabet(Field1(a, b)),
     if |bytes| > 1 then Alphabet(Field2(b, c)) else '=',
     if |bytes| > 2 then Alphabet(Field3(c)) else '=']
  }

  function Encoded(bytes: seq<byte>): (text: string)
  {
    if |bytes| == 0 then []
    else if |bytes| <= 3 then Group(bytes)
    else Group(bytes[..3]) + Encoded(bytes[3..])
  }

  lemma {:induction false} EncodedLength(bytes: seq<byte>)
    ensures |Encoded(bytes)| == (|bytes| + 2) / 3 * 4
  {
    hide Group;
    if |bytes| > 3 { EncodedLength(bytes[3..]); }
  }

  /** The byte at a position, zero behind the last one. */
  function ByteAt(bytes: seq<byte>, i: nat): (n: nat)
  {
    if i < |bytes| then bytes[i] as int else 0
  }

  /** The six bits that character `k` stands for: a quarter of the 24 bits of three bytes. */
  function SixBits(bytes: seq<byte>, k: nat): (bits: nat)
    ensures bits < 64
  {
    var first := k / 4 * 3;
    var all := ByteAt(bytes, first) * 0x10000 + ByteAt(bytes, first + 1) * 0x100 + ByteAt(bytes, first + 2);
    (match k % 4
     case 0 => all / 0x40000
     case 1 => all / 0x1000
     case 2 => all / 0x40
     case _ => all) % 64
  }

  /** Whether the byte is missing that the last bits of character `k` would come from. */
  predicate Padded(bytes: seq<byte>, k: nat)
  {
    k % 4 >= 2 && k / 4 * 3 + k % 4 - 1 >= |bytes|
  }

  /** Each character of an encoding is the one the table lists for its six bits, or padding. */
  lemma {:induction false} EncodedByTable(bytes: seq<byte>, k: nat)
    requires k < |Encoded(bytes)|
    ensures Encoded(bytes)[k] == if Padded(bytes, k) then '=' else Listed(SixBits(bytes, k))
    decreases |bytes|
  {
    hide Group, Alphabet, Listed, SixBits, Padded;
    AlphabetIsTable(SixBits(bytes, k));
    if |bytes| <= 3 {
      GroupBySixBits(bytes, k);
    } else {
      var rest := bytes[3..];
      assert Encoded(bytes) == Group(bytes[..3]) + Encoded(rest);
      if k < 4 {
        GroupBySixBits(bytes[..3], k);
        SameSixBits(bytes, bytes[..3], k);
      } else {
        EncodedByTable(rest, k - 4);
        LaterSixBits(bytes, k);
      }
    }
  }

  ghost predicate ByTable(bytes: seq<byte>, encoded: string)
  {
    forall k | 0 <= k < |encoded| :: encoded[k] == if Padded(bytes, k) then '=' else Listed(SixBits(bytes, k))
  }

  lemma {:induction false} EncodedIsByTable(bytes: seq<byte>)
    ensures |Encoded(bytes)| == (|bytes| + 2) / 3 * 4 && ByTable(bytes, Encoded(bytes))
  {
    EncodedLength(bytes);
    hide Encoded, Padded, Listed, SixBits;
    forall k | 0 <= k < |Encoded(bytes)|
      ensures Encoded(bytes)[k] == if Padded(bytes, k) then '=' else Listed(SixBits(bytes, k))
    {
      EncodedByTable(bytes, k);
    }
  }

  lemma {:induction false} SameSixBits(bytes: seq<byte>, front: seq<byte>, k: nat)
    requires k < 4 && |front| == 3 <= |bytes| && front == bytes[..3]
    ensures SixBits(bytes, k) == SixBits(front, k) && Padded(bytes, k) == Padded(front, k)
  {
  }

  lemma {:induction false} LaterSixBits(bytes: seq<byte>, k: nat)
    requires k >= 4 && |bytes| >= 3
    ensures SixBits(bytes, k) == SixBits(bytes[3..], k - 4) && Padded(bytes, k) == Padded(bytes[3..], k - 4)
  {
    var rest := bytes[3..];
    assert (k - 4) / 4 == k / 4 - 1 && (k - 4) % 4 == k % 4;
    forall i: nat ensures ByteAt(bytes, i + 3) == ByteAt(rest, i) {
    }
  }

  lemma {:induction false} GroupBySixBits(bytes: seq<byte>, k: nat)
    requires 1 <= |bytes| <= 3 && k < 4
    ensures Group(bytes)[k] == if Padded(bytes, k) then '=' else Alphabet(SixBits(bytes, k))
  {
    var a := bytes[0];
    var b := if |bytes| > 1 then bytes[1] else 0;
    var c := if |bytes| > 2 then bytes[2] else 0;
    SixBitsAre(bytes, a, b, c, k);
    hide Alphabet, SixBits, Field0, Field1, Field2, Field3;
    assert k / 4 == 0 && k % 4 == k;
  }

  lemma {:induction false} SixBitsAre(bytes: seq<byte>, a: byte, b: byte, c: byte, k: nat)
    requires 1 <= |bytes| <= 3 && k < 4
    requires a == bytes[0] && b == (if |bytes| > 1 then bytes[1] else 0) && c == (if |bytes| > 2 then bytes[2] else 0)
    ensures SixBits(bytes, k) ==
              if k == 0 then Field0(a) else if k == 1 then Field1(a, b) else if k == 2 then Field2(b, c) else Field3(c)
  {
    Cut(a, b, c);
    hide Field0, Field1, Field2, Field3;
    assert k / 4 * 3 == 0 && k % 4 == k;
  }

  lemma {:induction false} EncodedAppend(front: seq<byte>, back: seq<byte>)
    requires |front| % 3 == 0
    ensures Encoded(front + back) == Encoded(front) + Encoded(back)
  {
    if front == [] {
      assert front + back == back;
    } else if back == [] {
      assert front + back == front;
    } else {
      assert (front + back)[..3] == front[..3];
      assert (front + back)[3..] == front[3..] + back;
      EncodedAppend(front[3..], back);
      if |front| == 3 { assert front[..3] == front; }
    }
  }

  lemma {:induction false} ExtendEncoded(bytes: seq<byte>, index: nat, count: nat)
    requires index % 3 == 0 && 1 <= count <= 3 && index + count <= |bytes|
    ensures Encoded(bytes[..index + count]) == Encoded(bytes[..index]) + Group(bytes[index..index + count])
  {
    assert bytes[..index + count] == bytes[..index] + bytes[index..index + count];
    EncodedAppend(bytes[..index], bytes[index..index + count]);
  }

  /** Four characters for each three bytes begun, each by the table of its six bits. */
  method Encode(bytes: seq<byte>) returns (encoded: string)
    ensures |encoded| == (|bytes| + 2) / 3 * 4
    ensures ByTable(bytes, encoded)
    ensures encoded == Encoded(bytes)
  {
    hide Group, ByTable;
    EncodedIsByTable(bytes);
    encoded := [];
    var index := 0;
    while index + 2 < |bytes|
      invariant 0 <= index <= |bytes| && index % 3 == 0
      invariant encoded == Encoded(bytes[..index])
    {
      ExtendEncoded(bytes, index, 3);
      var group := EncodeWhole(bytes[index], bytes[index + 1], bytes[index + 2]);
      assert bytes[index..index + 3] == [bytes[index], bytes[index + 1], bytes[index + 2]];
      encoded := encoded + group;
      index := index + 3;
    }
    var remaining := |bytes| - index;
    if remaining != 0 {
      ExtendEncoded(bytes, index, remaining);
      var group := EncodeRemainder(bytes[index..]);
      assert bytes[index..index + remaining] == bytes[index..];
      encoded := encoded + group;
    }
    assert bytes[..|bytes|] == bytes;
  }

  method EncodeWhole(a: byte, b: byte, c: byte) returns (chars: string)
    ensures chars == Group([a, b, c])
  {
    var value := a as int * 0x10000 + b as int * 0x100 + c as int;
    Cut(a, b, c);
    chars := [Alphabet(value / 0x40000 % 64), Alphabet(value / 0x1000 % 64),
              Alphabet(value / 0x40 % 64), Alphabet(value % 64)];
  }

  method EncodeRemainder(bytes: seq<byte>) returns (chars: string)
    requires 1 <= |bytes| <= 2
    ensures chars == Group(bytes)
  {
    if |bytes| == 1 {
      var value := bytes[0] as int * 0x10000;
      Cut(bytes[0], 0, 0);
      chars := [Alphabet(value / 0x40000 % 64), Alphabet(value / 0x1000 % 64), '=', '='];
    } else {
      var value := bytes[0] as int * 0x10000 + bytes[1] as int * 0x100;
      Cut(bytes[0], bytes[1], 0);
      chars := [Alphabet(value / 0x40000 % 64), Alphabet(value / 0x1000 % 64),
                Alphabet(value / 0x40 % 64), '='];
    }
  }

  // ---- decoding ----

  predicate Whitespace(c: char)
  {
    c == ' ' || c == '\t' || c == '\r' || c == '\n' || c == 12 as char || c == 11 as char
  }

  lemma {:induction false} WhitespaceIs(c: char)
    ensures Whitespace(c) <==> c as int in {9, 10, 11, 12, 13, 32}
  {
  }

  function Compact(text: string): (compact: string)
  {
    if text == [] then []
    else if Whitespace(text[0]) then Compact(text[1..])
    else [text[0]] + Compact(text[1..])
  }

  lemma {:induction false} CompactHolds(text: string, c: char)
    ensures c in Compact(text) <==> c in text && c as int !in {9, 10, 11, 12, 13, 32}
  {
    WhitespaceIs(c);
    if text != [] {
      hide Whitespace;
      assert c in text <==> c == text[0] || c in text[1..];
      CompactHolds(text[1..], c);
    }
  }

  lemma {:induction false} CompactAppend(front: string, back: string)
    ensures Compact(front + back) == Compact(front) + Compact(back)
  {
    if front == [] {
      assert front + back == back;
    } else {
      assert (front + back)[0] == front[0] && (front + back)[1..] == front[1..] + back;
      CompactAppend(front[1..], back);
    }
  }

  /** One group of four characters: the bytes it stands for, if any. */
  function DecodedGroup(chars: string, last: bool): (bytes: Option<seq<byte>>)
    requires |chars| == 4
    ensures bytes.Some? ==> 1 <= |bytes.value| <= 3 && (!last ==> |bytes.value| == 3)
  {
    var first := DecodeCharacter(chars[0]);
    var second := DecodeCharacter(chars[1]);
    var thirdPadding := chars[2] == '=';
    var fourthPadding := chars[3] == '=';
    var third := if thirdPadding then 0 else DecodeCharacter(chars[2]);
    var fourth := if fourthPadding then 0 else DecodeCharacter(chars[3]);
    if first < 0 || second < 0 || third < 0 || fourth < 0
       || (thirdPadding && !fourthPadding)
       || ((thirdPadding || fourthPadding) && !last)
       || (thirdPadding && second % 16 != 0)
       || (fourthPadding && !thirdPadding && third % 4 != 0)
    then None
    else if thirdPadding then Some([Byte0(first, second)])
    else if fourthPadding then Some([Byte0(first, second), Byte1(second, third)])
    else Some([Byte0(first, second), Byte1(second, third), Byte2(third, fourth)])
  }

  /** A group decodes to exactly the bytes that encode to it. */
  lemma {:induction false} DecodedGroupExact(chars: string, last: bool, bytes: seq<byte>)
    requires |chars| == 4
    requires 1 <= |bytes| <= 3 && (!last ==> |bytes| == 3)
    ensures DecodedGroup(chars, last) == Some(bytes) <==> Group(bytes) == chars
  {
    GroupDecodes(bytes, last);
    if DecodedGroup(chars, last) == Some(bytes) {
      DecodedGroupEncodes(chars, last);
    }
  }

  lemma {:induction false} GroupExact(chars: string, last: bool)
    requires |chars| == 4
    ensures forall b: seq<byte> | 1 <= |b| <= 3 ::
              DecodedGroup(chars, last) == Some(b) <==> Group(b) == chars && (last || |b| == 3)
  {
    hide Group, DecodedGroup;
    forall b: seq<byte> | 1 <= |b| <= 3
      ensures DecodedGroup(chars, last) == Some(b) <==> Group(b) == chars && (last || |b| == 3)
    {
      if last || |b| == 3 { DecodedGroupExact(chars, last, b); }
    }
  }

  lemma {:induction false} GroupDecodes(bytes: seq<byte>, last: bool)
    requires 1 <= |bytes| <= 3 && (!last ==> |bytes| == 3)
    ensures DecodedGroup(Group(bytes), last) == Some(bytes)
  {
    hide Alphabet, DecodeCharacter, Field0, Field1, Field2, Field3, Byte0, Byte1, Byte2;
    var a := bytes[0];
    var b := if |bytes| > 1 then bytes[1] else 0;
    var c := if |bytes| > 2 then bytes[2] else 0;
    DecodeAlphabet(Field0(a));
    DecodeAlphabet(Field1(a, b));
    DecodeAlphabet(Field2(b, c));
    DecodeAlphabet(Field3(c));
    BytesOfFields(a, b, c);
    assert bytes == if |bytes| == 1 then [a] else if |bytes| == 2 then [a, b] else [a, b, c];
  }

  lemma {:induction false} DecodedGroupEncodes(chars: string, last: bool)
    requires |chars| == 4 && DecodedGroup(chars, last).Some?
    ensures Group(DecodedGroup(chars, last).value) == chars
  {
    hide Alphabet, DecodeCharacter, Field0, Field1, Field2, Field3, Byte0, Byte1, Byte2;
    var first := DecodeCharacter(chars[0]);
    var second := DecodeCharacter(chars[1]);
    var third := if chars[2] == '=' then 0 else DecodeCharacter(chars[2]);
    var fourth := if chars[3] == '=' then 0 else DecodeCharacter(chars[3]);
    FieldsOfBytes(first, second, third, fourth);
    var group := Group(DecodedGroup(chars, last).value);
    assert group[0] == chars[0] && group[1] == chars[1];
    assert group[2] == chars[2] && group[3] == chars[3];
  }

  /** What the groups of a text without whitespace stand for. */
  function Decoded(chars: string): (bytes: Option<seq<byte>>)
    requires |chars| % 4 == 0
  {
    if chars == [] then Some([])
    else Prepend(DecodedGroup(chars[..4], |chars| == 4), Decoded(chars[4..]))
  }

  function Prepend(front: Option<seq<byte>>, back: Option<seq<byte>>): (whole: Option<seq<byte>>)
  {
    if front.Some? && back.Some? then Some(front.value + back.value) else None
  }

  /** Decoding a text without whitespace inverts encoding, on both sides. */
  lemma {:induction false} DecodedExact(chars: string, bytes: seq<byte>)
    requires |chars| % 4 == 0
    ensures Decoded(chars) == Some(bytes) <==> Encoded(bytes) == chars
  {
    if Decoded(chars) == Some(bytes) { DecodedEncodes(chars); }
    if Encoded(bytes) == chars { EncodedDecodes(bytes); }
  }

  lemma {:induction false} DecodedEncodes(chars: string)
    requires |chars| % 4 == 0 && Decoded(chars).Some?
    ensures Encoded(Decoded(chars).value) == chars
  {
    hide Group, DecodedGroup;
    if chars != [] {
      var last := |chars| == 4;
      DecodedGroupEncodes(chars[..4], last);
      DecodedEncodes(chars[4..]);
      var front := DecodedGroup(chars[..4], last).value;
      var back := Decoded(chars[4..]).value;
      if last {
        assert chars[4..] == [] && chars[..4] == chars && front + back == front;
      } else {
        assert back != [];
        assert (front + back)[..3] == front && (front + back)[3..] == back;
        assert chars == chars[..4] + chars[4..];
      }
    }
  }

  lemma {:induction false} EncodedDecodes(bytes: seq<byte>)
    ensures |Encoded(bytes)| % 4 == 0 && Decoded(Encoded(bytes)) == Some(bytes)
  {
    hide Group, DecodedGroup;
    EncodedLength(bytes);
    if 1 <= |bytes| <= 3 {
      GroupDecodes(bytes, true);
      assert Group(bytes)[..4] == Group(bytes) && Group(bytes)[4..] == [];
      assert bytes + [] == bytes;
    } else if |bytes| > 3 {
      var rest := bytes[3..];
      GroupDecodes(bytes[..3], false);
      EncodedDecodes(rest);
      EncodedLength(rest);
      assert Encoded(bytes)[..4] == Group(bytes[..3]) && Encoded(bytes)[4..] == Encoded(rest);
      assert bytes == bytes[..3] + rest;
    }
  }

  function DecodedText(encoded: string): (decoded: Option<seq<byte>>)
  {
    var compact := Compact(encoded);
    if compact == [] || |compact| % 4 != 0 then None else Decoded(compact)
  }

  /** Decoding succeeds with `bytes` exactly when the text, whitespace apart, is
      the encoding of those bytes and there is at least one of them. */
  method Decode(encoded: string) returns (decoded: Option<seq<byte>>)
    ensures forall bytes :: decoded == Some(bytes) <==> bytes != [] && Compact(encoded) == Encoded(bytes)
    ensures decoded == DecodedText(encoded)
  {
    hide Encoded, Decoded, Compact;
    var compact := RemoveWhitespace(encoded);
    forall bytes ensures |Encoded(bytes)| % 4 == 0 && (Encoded(bytes) == [] <==> bytes == []) {
      EncodedLength(bytes);
    }
    if compact == [] || |compact| % 4 != 0 {
      return None;
    }
    forall bytes ensures Decoded(compact) == Some(bytes) <==> Encoded(bytes) == compact {
      DecodedExact(compact, bytes);
    }
    decoded := DecodeCompact(compact);
  }

  method RemoveWhitespace(encoded: string) returns (compact: string)
    ensures forall c: char :: c in compact <==> c in encoded && c as int !in {9, 10, 11, 12, 13, 32}
    ensures compact == Compact(encoded)
  {
    forall c: char ensures c in Compact(encoded) <==> c in encoded && c as int !in {9, 10, 11, 12, 13, 32} {
      CompactHolds(encoded, c);
    }
    compact := [];
    for i := 0 to |encoded|
      invariant compact == Compact(encoded[..i])
    {
      assert encoded[..i + 1] == encoded[..i] + [encoded[i]];
      CompactAppend(encoded[..i], [encoded[i]]);
      if !Whitespace(encoded[i]) {
        compact := compact + [encoded[i]];
      }
    }
    assert encoded[..|encoded|] == encoded;
  }

  method DecodeCompact(compact: string) returns (decoded: Option<seq<byte>>)
    requires |compact| % 4 == 0
    ensures decoded == Decoded(compact)
  {
    hide DecodedGroup, Group, Decoded, Prepend;
    var result: seq<byte> := [];
    var index := 0;
    assert compact[0..] == compact;
    PrependNothing(Decoded(compact));
    while index < |compact|
      invariant 0 <= index <= |compact| && index % 4 == 0
      invariant Decoded(compact) == Prepend(Some(result), Decoded(compact[index..]))
    {
      DecodedNext(compact, index);
      var bytes := DecodeGroup(compact[index..index + 4], index + 4 == |compact|);
      PrependTwice(result, bytes, Decoded(compact[index + 4..]));
      if bytes.None? {
        return None;
      }
      result := result + bytes.value;
      index := index + 4;
    }
    DecodedNothing(result, compact[index..]);
    decoded := Some(result);
  }

  lemma {:induction false} DecodedNext(compact: string, index: nat)
    requires |compact| % 4 == 0 && index % 4 == 0 && index + 4 <= |compact|
    ensures Decoded(compact[index..])
            == Prepend(DecodedGroup(compact[index..index + 4], index + 4 == |compact|), Decoded(compact[index + 4..]))
  {
    hide DecodedGroup, Prepend;
    var rest := compact[index..];
    assert rest[..4] == compact[index..index + 4] && rest[4..] == compact[index + 4..];
  }

  lemma {:induction false} PrependNothing(back: Option<seq<byte>>)
    ensures Prepend(Some([]), back) == back
  {
    if back.Some? { assert [] + back.value == back.value; }
  }

  lemma {:induction false} PrependTwice(front: seq<byte>, group: Option<seq<byte>>, back: Option<seq<byte>>)
    ensures Prepend(Some(front), Prepend(group, back))
            == if group.Some? then Prepend(Some(front + group.value), back) else None
  {
    if group.Some? && back.Some? {
      assert front + (group.value + back.value) == (front + group.value) + back.value;
    }
  }

  lemma {:induction false} DecodedNothing(front: seq<byte>, rest: string)
    requires rest == []
    ensures Prepend(Some(front), Decoded(rest)) == Some(front)
  {
    assert front + [] == front;
  }

  /** A group is accepted exactly when it stands for one to three bytes, three unless it is
      the last one, and decodes to just those. */
  method DecodeGroup(chars: string, last: bool) returns (bytes: Option<seq<byte>>)
    requires |chars| == 4
    ensures bytes.Some? ==> 1 <= |bytes.value| <= 3
    ensures forall b: seq<byte> | 1 <= |b| <= 3 ::
              bytes == Some(b) <==> Group(b) == chars && (last || |b| == 3)
    ensures bytes == DecodedGroup(chars, last)
  {
    GroupExact(chars, last);
    hide DecodeCharacter, Byte0, Byte1, Byte2, Group;
    var first := DecodeCharacter(chars[0]);
    var second := DecodeCharacter(chars[1]);
    var thirdPadding := chars[2] == '=';
    var fourthPadding := chars[3] == '=';
    var third := if thirdPadding then 0 else DecodeCharacter(chars[2]);
    var fourth := if fourthPadding then 0 else DecodeCharacter(chars[3]);
    if first < 0 || second < 0 || third < 0 || fourth < 0
       || (thirdPadding && !fourthPadding)
       || ((thirdPadding || fourthPadding) && !last)
       || (thirdPadding && second % 16 != 0)
       || (fourthPadding && !thirdPadding && third % 4 != 0)
    {
      return None;
    }
    var decoded := [Byte0(first, second)];
    if !thirdPadding {
      decoded := decoded + [Byte1(second, third)];
    }
    if !fourthPadding {
      decoded := decoded + [Byte2(third, fourth)];
    }
    assert thirdPadding ==> decoded == [Byte0(first, second)];
    assert !thirdPadding && fourthPadding ==> decoded == [Byte0(first, second), Byte1(second, third)];
    assert !fourthPadding ==> decoded == [Byte0(first, second), Byte1(second, third), Byte2(third, fourth)];
    bytes := Some(decoded);
  }
}
