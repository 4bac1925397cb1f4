/** kr_base64: the encoder with its line breaks, and the decoder that skips everything outside the alphabet. */
module Base64 {
  import opened DBuffers

  type sextet = x: int | 0 <= x < 64

  // ----- the tables -----

  const cb64 := "ABCDEFGHIJKLM" + "NOPQRSTUVWXYZ" + "abcdefghijklm" + "nopqrstuvwxyz" + "0123456789+/"
  const cd64 := "|$$$}rstuvwxyz{" + "$$$$$$$" + ">?@ABCDEFGHIJ" + "KLMNOPQRSTUVW" + "$$$$$$" + "XYZ[\\]^_`abcd"
      + "efghijklmnopq"

  /** How the decoder reads its table: one more than the value of an alphabet character, 0 for any other. */
  function Code(c: byte): int {
    if c < 43 || c > 122 then 0
    else
      var v := cd64[c - 43] as int;
      if v == 0 then 0 else if v == '$' as int then 0 else v - 61
  }

  /** The alphabet of section 4 of RFC 4648, as a rule. */
  function Alphabet(v: sextet): byte {
    if v < 26 then 65 + v else if v < 52 then 97 + (v - 26) else if v < 62 then 48 + (v - 52) else if v == 62 then 43
       else 47
  }

  /** The value of a character of the alphabet, -1 for any other. */
  function ValueOf(c: byte): (v: int)
    ensures -1 <= v < 64 && (v >= 0 ==> Alphabet(v) == c)
  {
    if 65 <= c <= 90 then c - 65 else if 97 <= c <= 122 then c - 97 + 26 else if 48 <= c <= 57 then c - 48 + 52
    else if c == 43 then 62 else if c == 47 then 63 else -1
  }

  /** The encoder's table is the alphabet: capital letters, small letters, digits, plus and slash. */
  lemma EncoderTable(v: sextet)
    ensures |cb64| == 64 && cb64[v] as int == Alphabet(v)
    ensures cb64[v] == if v < 26 then 'A' + v as char else if v < 52 then 'a' + (v - 26) as char
                       else if v < 62 then '0' + (v - 52) as char else if v == 62 then '+' else '/'
  {
    if v < 26 { EncoderUpper(v); } else { EncoderOther(v); }
  }

  lemma EncoderUpper(v: sextet)
    requires v < 26
    ensures cb64[v] as int == Alphabet(v)
  {
    var s, t := "ABCDEFGHIJKLM", "NOPQRSTUVWXYZ";
    assert cb64[..26] == s + t;
    assert cb64[v] == (s + t)[v];
  }

  lemma EncoderOther(v: sextet)
    requires v >= 26
    ensures cb64[v] as int == Alphabet(v)
  {
    var s, t, u := "abcdefghijklm", "nopqrstuvwxyz", "0123456789+/";
    assert cb64[26..] == s + t + u;
    if v < 39 { assert cb64[v] == s[v - 26]; } else if v < 52 { assert cb64[v] == t[v - 39]; }
       else { assert cb64[v] == u[v - 52]; }
  }

  lemma ValueOfAlphabet(v: sextet)
    ensures ValueOf(Alphabet(v)) == v
  {
  }

  /** The decoder's table is its inverse, and rejects every other character. */
  lemma DecoderTable(c: byte)
    ensures Code(c) == ValueOf(c) + 1
  {
    if 43 <= c < 65 { DecoderLow(c); }
    else if 65 <= c <= 90 { DecoderUpper(c); }
    else if 90 < c <= 122 { DecoderLower(c); }
  }

  lemma DecoderLow(c: byte)
    requires 43 <= c < 65
    ensures Code(c) == ValueOf(c) + 1
  {
    var s, t := "|$$$}rstuvwxyz{", "$$$$$$$";
    assert cd64[..22] == s + t;
    assert cd64[c - 43] == (s + t)[c - 43];
  }

  lemma DecoderUpper(c: byte)
    requires 65 <= c <= 90
    ensures Code(c) == ValueOf(c) + 1
  {
    if c < 78 { DecoderUpperFirst(c); } else if c < 84 { DecoderUpperSecond(c); } else { DecoderUpperThird(c); }
  }

  lemma DecoderUpperFirst(c: byte)
    requires 65 <= c < 78
    ensures Code(c) == ValueOf(c) + 1
  {
    assert cd64[22..35] == ">?@ABCDEFGHIJ";
    assert cd64[c - 43] == ">?@ABCDEFGHIJ"[c - 65];
  }

  lemma DecoderUpperSecond(c: byte)
    requires 78 <= c < 84
    ensures Code(c) == ValueOf(c) + 1
  {
    assert cd64[35..41] == "KLMNOP";
    assert cd64[c - 43] == "KLMNOP"[c - 78];
  }

  lemma DecoderUpperThird(c: byte)
    requires 84 <= c <= 90
    ensures Code(c) == ValueOf(c) + 1
  {
    assert cd64[41..48] == "QRSTUVW";
    assert cd64[c - 43] == "QRSTUVW"[c - 84];
  }

  lemma DecoderLower(c: byte)
    requires 90 < c <= 122
    ensures Code(c) == ValueOf(c) + 1
  {
    if c < 97 { DecoderBetween(c); } else if c < 110 { DecoderFirstHalf(c); } else { DecoderSecondHalf(c); }
  }

  lemma DecoderBetween(c: byte)
    requires 90 < c < 97
    ensures Code(c) == ValueOf(c) + 1
  {
    assert cd64[48..54] == "$$$$$$";
    assert cd64[c - 43] == "$$$$$$"[c - 91];
  }

  lemma DecoderFirstHalf(c: byte)
    requires 97 <= c < 110
    ensures Code(c) == ValueOf(c) + 1
  {
    assert cd64[54..67] == "XYZ[\\]^_`abcd";
    assert cd64[c - 43] == "XYZ[\\]^_`abcd"[c - 97];
  }

  lemma DecoderSecondHalf(c: byte)
    requires 110 <= c <= 122
    ensures Code(c) == ValueOf(c) + 1
  {
    assert cd64[67..80] == "efghijklmnopq";
    assert cd64[c - 43] == "efghijklmnopq"[c - 110];
  }

  // ----- shifts and masks on bytes -----

  /** The bits of a byte. */
  function Bits(a: byte): bv8 {
    a as bv8
  }

  function ByteOf(x: bv8): byte {
    x as int
  }

  /** Every byte is the value of some bits. */
  function Counted(a: nat): (x: bv8)
    requires a < 256
    ensures x as int == a
  {
    if a == 0 then 0 else Counted(a - 1) + 1
  }

  lemma BackFromBits(a: nat)
    requires a < 256
    ensures (a as bv8) as nat == a
  {
    ThereAndBack(Counted(a));
  }

  lemma ThereAndBack(x: bv8)
    ensures (x as int) as bv8 == x
  {
  }

  lemma AsBits(a: byte)
    ensures ByteOf(Bits(a)) == a
  {
    BackFromBits(a);
  }

  lemma HighBits(x: bv8)
    ensures (x >> 2) as int == x as int / 4
    ensures ((x & 0xf0) >> 4) as int == x as int / 16
    ensures ((x & 0xc0) >> 6) as int == x as int / 64
  {
  }

  lemma Low2(x: bv8)
    ensures (x & 0x03) as int == x as int % 4
  {
  }

  lemma Low4(x: bv8)
    ensures (x & 0x0f) as int == x as int % 16
  {
  }

  lemma Low6(x: bv8)
    ensures (x & 0x3f) as int == x as int % 64
  {
  }

  /** Bits side by side. */
  lemma Joined(x: bv8, y: bv8)
    ensures x < 64 && y < 4 ==> ((x << 2) | y) as int == x as int * 4 + y as int
    ensures x < 16 && y < 16 ==> ((x << 4) | y) as int == x as int * 16 + y as int
    ensures x < 4 && y < 64 ==> ((x << 6) | y) as int == x as int * 64 + y as int
  {
  }

  /** The four parts of a group that are looked up in the encoder's table. */
  function Part0(x: bv8): bv8 {
    x >> 2
  }

  function Part1(x: bv8, y: bv8): bv8 {
    ((x & 0x03) << 4) | ((y & 0xf0) >> 4)
  }

  function Part2(y: bv8, z: bv8): bv8 {
    ((y & 0x0f) << 2) | ((z & 0xc0) >> 6)
  }

  function Part3(z: bv8): bv8 {
    z & 0x3f
  }

  lemma Part1Is(x: bv8, y: bv8)
    ensures ByteOf(Part1(x, y)) == ByteOf(x) % 4 * 16 + ByteOf(y) / 16
  {
    HighBits(y);
    Low2(x);
    Joined(x & 0x03, (y & 0xf0) >> 4);
  }

  lemma Part2Is(y: bv8, z: bv8)
    ensures ByteOf(Part2(y, z)) == ByteOf(y) % 16 * 4 + ByteOf(z) / 64
  {
    HighBits(z);
    Low4(y);
    Joined(y & 0x0f, (z & 0xc0) >> 6);
  }

  lemma PartsAre(x: bv8, y: bv8)
    ensures ByteOf(Part0(x)) == ByteOf(x) / 4
    ensures ByteOf(Part1(x, y)) == ByteOf(x) % 4 * 16 + ByteOf(y) / 16
    ensures ByteOf(Part2(x, y)) == ByteOf(x) % 16 * 4 + ByteOf(y) / 64
    ensures ByteOf(Part3(y)) == ByteOf(y) % 64
  {
    hide Part1, Part2;
    HighBits(x);
    Part1Is(x, y);
    Part2Is(x, y);
    Low6(y);
  }

  /** The three bytes that the decoder puts together. */
  function Joint0(x: bv8, y: bv8): bv8 {
    (x << 2) | (y >> 4)
  }

  function Joint1(y: bv8, z: bv8): bv8 {
    (y << 4) | (z >> 2)
  }

  function Joint2(z: bv8, w: bv8): bv8 {
    ((z << 6) & 0xc0) | w
  }

  /** On values of alphabet characters no bits fall together, and those that fall out belong to the byte before. */
  lemma JointsOf(x: bv8, y: bv8)
    requires x < 64 && y < 64
    ensures ByteOf(Joint0(x, y)) == ByteOf(x) * 4 + ByteOf(y) / 16
    ensures ByteOf(Joint1(x, y)) == ByteOf(x) % 16 * 16 + ByteOf(y) / 4
    ensures ByteOf(Joint2(x, y)) == ByteOf(x) % 4 * 64 + ByteOf(y)
  {
    SameJoints(x, y);
    HighBits(y);
    Low2(x);
    Low4(x);
    Joined(x, (y & 0xf0) >> 4);
    Joined(x & 0x0f, y >> 2);
    Joined(x & 0x03, y);
  }

  lemma SameJoints(x: bv8, y: bv8)
    requires x < 64 && y < 64
    ensures Joint0(x, y) == (x << 2) | ((y & 0xf0) >> 4) && (y & 0xf0) >> 4 < 4
    ensures Joint1(x, y) == ((x & 0x0f) << 4) | (y >> 2) && x & 0x0f < 16 && y >> 2 < 16
    ensures Joint2(x, y) == ((x & 0x03) << 6) | y && x & 0x03 < 4
  {
  }

  lemma BelowSixtyFour(a: byte)
    requires a < 64
    ensures Bits(a) < 64
  {
  }

  lemma JointsAre(a: byte, b: byte)
    requires a < 64 && b < 64
    ensures ByteOf(Joint0(Bits(a), Bits(b))) == First(a, b) && ByteOf(Joint1(Bits(a), Bits(b))) == Second(a, b)
    ensures ByteOf(Joint2(Bits(a), Bits(b))) == Third(a, b)
  {
    hide Joint0, Joint1, Joint2, Bits, ByteOf;
    AsBits(a);
    AsBits(b);
    BelowSixtyFour(a);
    BelowSixtyFour(b);
    JointsOf(Bits(a), Bits(b));
  }

  // ----- blocks -----

  /** One character of the encoder's table. */
  method Encode6(v: sextet) returns (c: byte)
    ensures c == Alphabet(v)
  {
    EncoderTable(v);
    c := cb64[v] as int;
  }

  /** encodeblock. */
  method EncodeBlock(input: array<byte>, out: array<byte>, len: nat)
    requires input.Length == 3 && out.Length == 4 && input != out && 1 <= len <= 3
    modifies out
    ensures out[..] == BlockText(input[..], len)
  {
    hide Alphabet, Part0, Part1, Part2, Part3, Bits, ByteOf;
    ghost var group := input[..];
    DigitsAreShifts(input[0], input[1], input[2]);
    var x, y, z := Bits(input[0]), Bits(input[1]), Bits(input[2]);
    out[0] := Encode6(ByteOf(Part0(x)));
    out[1] := Encode6(ByteOf(Part1(x, y)));
    if len > 1 { out[2] := Encode6(ByteOf(Part2(y, z))); } else { out[2] := 61; }
    if len > 2 { out[3] := Encode6(ByteOf(Part3(z))); } else { out[3] := 61; }
  }

  /** Three bytes as one 24-bit number, the first one first. */
  function Number(a: int, b: int, c: int): int {
    a * 0x10000 + b * 0x100 + c
  }

  /** Its digits to base 64 are what the shifts and masks take from the bytes. */
  lemma DigitsAreShifts(a: byte, b: byte, c: byte)
    ensures var n := Number(a, b, c);
            && ByteOf(Part0(Bits(a))) == n / 0x40000 < 64 && ByteOf(Part1(Bits(a), Bits(b))) == n / 0x1000 % 64
            && ByteOf(Part2(Bits(b), Bits(c))) == n / 64 % 64 && ByteOf(Part3(Bits(c))) == n % 64
  {
    hide Part0, Part1, Part2, Part3, Bits, ByteOf;
    Digits(a, b, c);
    hide Number;
    AsBits(a);
    AsBits(b);
    AsBits(c);
    PartsAre(Bits(a), Bits(b));
    PartsAre(Bits(b), Bits(c));
  }

  lemma Digits(a: int, b: int, c: int)
    requires 0 <= a < 256 && 0 <= b < 256 && 0 <= c < 256
    ensures var n := Number(a, b, c);
            && n / 0x40000 == a / 4 && n / 0x1000 % 64 == a % 4 * 16 + b / 16
            && n / 64 % 64 == b % 16 * 4 + c / 64 && n % 64 == c % 64
  {
    var n := Number(a, b, c);
    assert n / 64 == a * 1024 + b * 4 + c / 64;
    assert n / 0x1000 == a * 16 + b / 16;
  }

  /** The encoding of a group of `len` bytes, filled up with zero bytes: one character more than bytes, and padding. */
  function BlockText(group: seq<byte>, len: nat): (text: seq<byte>)
    requires |group| == 3 && 1 <= len <= 3
    ensures |text| == 4
  {
    var n := Number(group[0], group[1], group[2]);
    assert 0 <= n / 0x40000 < 64;
    [Alphabet(n / 0x40000), Alphabet(n / 0x1000 % 64), if len > 1 then Alphabet(n / 64 % 64) else 61,
     if len > 2 then Alphabet(n % 64) else 61]
  }

  /** decodeblock.  A byte of the group may still hold what an earlier group has left in it. */
  method DecodeBlock(input: array<byte>, out: array<byte>)
    requires input.Length == 4 && out.Length == 3 && input != out
    modifies out
    ensures out[..] == JointBytes(input[..])
  {
    hide Joint0, Joint1, Joint2, Bits, ByteOf;
    var w, x, y, z := Bits(input[0]), Bits(input[1]), Bits(input[2]), Bits(input[3]);
    out[0] := ByteOf(Joint0(w, x));
    out[1] := ByteOf(Joint1(x, y));
    out[2] := ByteOf(Joint2(y, z));
  }

  function JointBytes(group: seq<byte>): (r: seq<byte>)
    requires |group| == 4
    ensures |r| == 3
  {
    var w, x, y, z := Bits(group[0]), Bits(group[1]), Bits(group[2]), Bits(group[3]);
    [ByteOf(Joint0(w, x)), ByteOf(Joint1(x, y)), ByteOf(Joint2(y, z))]
  }

  function First(a: sextet, b: sextet): byte {
    var x: int := a;
    x * 4 + b / 16
  }

  function Second(b: sextet, c: sextet): byte {
    var x: int := b;
    x % 16 * 16 + c / 4
  }

  function Third(c: sextet, d: sextet): byte {
    var x: int := c;
    x % 4 * 64 + d
  }

  // ----- the encoder -----

  const CRLF: seq<byte> := [13, 10]

  function GroupOf(data: seq<byte>): (group: seq<byte>)
    requires data != []
    ensures |group| == 3
  {
    [data[0], if |data| > 1 then data[1] else 0, if |data| > 2 then data[2] else 0]
  }

  function Least(a: nat, b: nat): nat {
    if a < b then a else b
  }

  /** The text of the data still to come when the line has `blocks` blocks already. */
  function Encoded(data: seq<byte>, linesize: int, blocks: nat): seq<byte>
    decreases |data|
  {
    if data == [] then []
    else
      var len := Least(3, |data|);
      var ends := linesize > 0 && (blocks + 1 >= linesize / 4 || |data| <= 3);
      BlockText(GroupOf(data), len) + (if ends then CRLF else [])
          + Encoded(data[len..], linesize, if ends then 0 else blocks + 1)
  }

  /** The loop that fills the group, with zero bytes behind the end of the data. */
  method ReadGroup(data: seq<byte>, dataPos: nat, input: array<byte>) returns (len: nat)
    requires dataPos < |data| && input.Length == 3
    modifies input
    ensures len == Least(3, |data| - dataPos) && input[..] == GroupOf(data[dataPos..])
  {
    len := 0;
    ghost var rest := data[dataPos..];
    for i := 0 to 3
      invariant len == Least(i, |rest|)
      invariant forall k | 0 <= k < i :: input[k] == if k < |rest| then rest[k] else 0
    {
      if dataPos + len < |data| {
        input[i] := data[dataPos + len];
        len := len + 1;
      } else {
        input[i] := 0;
      }
    }
  }

  /** Appending the first `n` bytes of a scratch array, one at a time. */
  method AppendBytes(dest: DBuffer, out: array<byte>, n: nat)
    requires dest.Valid() && n <= out.Length && dest.data != out
    modifies dest, dest.data
    ensures dest.Valid() && (dest.data == old(dest.data) || fresh(dest.data))
            && dest.Contents() == old(dest.Contents()) + out[..n]
    ensures out[..] == old(out[..]) && (old(dest.Amortised()) ==> dest.Amortised())
  {
    ghost var block, written := out[..], dest.Contents();
    for i := 0 to n
      invariant dest.Valid() && (old(dest.Amortised()) ==> dest.Amortised())
                && (dest.data == old(dest.data) || fresh(dest.data))
      invariant dest.data != out && out[..] == block && dest.Contents() == written + block[..i]
    {
      assert block[..i + 1] == block[..i] + [out[i]];
      var _ := dest.AppendByte(out[i]);
      assert dest.Contents() == written + block[..i] + [block[i]];
    }
    assert block[..n] == out[..n];
  }

  lemma EncodedStep(before: seq<byte>, all: seq<byte>, written: seq<byte>, rest: seq<byte>, linesize: int, blocks: nat,
                    written': seq<byte>)
    requires rest != [] && before + all == written + Encoded(rest, linesize, blocks)
    requires var len := Least(3, |rest|);
             var ends := linesize > 0 && (blocks + 1 >= linesize / 4 || |rest| <= 3);
             written' == written + BlockText(GroupOf(rest), len) + if ends then CRLF else []
    ensures var len := Least(3, |rest|);
            var ends := linesize > 0 && (blocks + 1 >= linesize / 4 || |rest| <= 3);
            before + all == written' + Encoded(rest[len..], linesize, if ends then 0 else blocks + 1)
  {
    hide BlockText;
    var len := Least(3, |rest|);
    var ends := linesize > 0 && (blocks + 1 >= linesize / 4 || |rest| <= 3);
    var a, b := BlockText(GroupOf(rest), len), if ends then CRLF else [];
    var c := Encoded(rest[len..], linesize, if ends then 0 else blocks + 1);
    assert written + (a + b + c) == written + a + b + c;
  }

  /** kr_base64_encode. */
  method Encode(data: seq<byte>, dest: DBuffer, linesize: int) returns (retcode: bool)
    requires dest.Valid()
    modifies dest, dest.data
    ensures retcode && dest.Valid() && dest.Contents() == old(dest.Contents()) + Encoded(data, linesize, 0)
    ensures old(dest.Amortised()) ==> dest.Amortised()
    ensures linesize <= 0 ==> Spells(data, dest.Contents()[|old(dest.Contents())|..])
    ensures linesize > 0 ==>
              exists lines :: InLines(lines, dest.Contents()[|old(dest.Contents())|..])
                              && Spells(data, Concat(lines)) && LinesFilled(lines, linesize)
  {
    hide BlockText, GroupOf, Encoded;
    var input, out := new byte[3](_ => 0), new byte[4](_ => 0);
    var blocksout: nat, dataPos: nat := 0, 0;
    ghost var before := dest.Contents();
    assert data[0..] == data;
    while dataPos < |data|
      invariant dataPos <= |data| && dest.Valid() && (old(dest.Amortised()) ==> dest.Amortised())
      invariant dest.data == old(dest.data) || fresh(dest.data)
      invariant dest.data != input && dest.data != out
      invariant before + Encoded(data, linesize, 0) == dest.Contents() + Encoded(data[dataPos..], linesize, blocksout)
    {
      ghost var rest, written, blocks := data[dataPos..], dest.Contents(), blocksout;
      var len := ReadGroup(data, dataPos, input);
      dataPos := dataPos + len;
      EncodeBlock(input, out, len);
      AppendBytes(dest, out, 4);
      assert out[..4] == out[..];
      blocksout := blocksout + 1;
      if linesize > 0 && (blocksout >= linesize / 4 || dataPos >= |data|) {
        var _ := dest.AppendMem(CRLF);
        blocksout := 0;
      }
      EncodedStep(before, Encoded(data, linesize, 0), written, rest, linesize, blocks, dest.Contents());
      assert rest[len..] == data[dataPos..];
    }
    NothingLeft(data[dataPos..], linesize, blocksout);
    assert dest.Contents() == before + Encoded(data, linesize, 0);
    assert dest.Contents()[|before|..] == Encoded(data, linesize, 0);
    EncodedSpells(data, linesize);
    retcode := true;
  }

  lemma NothingLeft(data: seq<byte>, linesize: int, blocks: nat)
    requires data == []
    ensures Encoded(data, linesize, blocks) == []
  {
  }

  // ----- the decoder -----

  /** The values of the alphabet characters of a text; everything else is noise. */
  function Values(text: seq<byte>): seq<sextet> {
    if text == [] then [] else (if ValueOf(text[0]) >= 0 then [ValueOf(text[0])] else []) + Values(text[1..])
  }

  /** The bytes that a sequence of values stands for: three for each four, and one less than values in a last short
      group. */
  function Bytes(vs: seq<sextet>): seq<byte>
    decreases |vs|
  {
    if |vs| <= 1 then []
    else if |vs| == 2 then [First(vs[0], vs[1])]
    else if |vs| == 3 then [First(vs[0], vs[1]), Second(vs[1], vs[2])]
    else [First(vs[0], vs[1]), Second(vs[1], vs[2]), Third(vs[2], vs[3])] + Bytes(vs[4..])
  }

  /** The loop that skips to the next alphabet character. */
  method NextValue(str: seq<byte>, spos: nat) returns (v: int, spos': nat, endofstr: bool)
    requires spos < |str|
    ensures endofstr ==> v == 0 && spos' == |str| && Values(str[spos..]) == []
    ensures !endofstr ==> spos < spos' <= |str| && 1 <= v <= 64 && Values(str[spos..]) == [v - 1] + Values(str[spos'..])
  {
    v, spos', endofstr := 0, spos, false;
    while v == 0
      invariant !endofstr && spos <= spos' <= |str| && 0 <= v <= 64 && (v > 0 ==> spos < spos')
      invariant Values(str[spos..]) == (if v > 0 then [v - 1] else []) + Values(str[spos'..])
      decreases v == 0, |str| - spos'
    {
      if spos' < |str| {
        DecoderTable(str[spos']);
        assert str[spos'..][1..] == str[spos' + 1..];
        v := Code(str[spos']);
        spos' := spos' + 1;
      } else {
        endofstr := true;
        break;
      }
    }
  }

  /** The loop that fills a group; bytes it does not reach keep what they hold. */
  method ReadValues(str: seq<byte>, spos: nat, input: array<byte>) returns (len: nat, spos': nat)
    requires spos < |str| && input.Length == 4
    modifies input
    ensures spos < spos' <= |str|
    ensures var vs := Values(str[spos..]);
            && len == Least(4, |vs|) && (forall k | 0 <= k < len :: input[k] == vs[k])
                && Values(str[spos'..]) == vs[len..]
  {
    hide Values;
    ghost var vs := Values(str[spos..]);
    len, spos' := 0, spos;
    var i := 0;
    while i < 4 && spos' < |str|
      invariant 0 <= len <= i <= 4 && spos <= spos' <= |str| && len <= |vs| && (i > 0 ==> spos < spos')
      invariant (len < i ==> spos' == |str|) && (forall k | 0 <= k < len :: input[k] == vs[k])
                && Values(str[spos'..]) == vs[len..]
    {
      var v, endofstr;
      v, spos', endofstr := NextValue(str, spos');
      if !endofstr {
        if v != 0 { input[i] := v - 1; }
        HeadAndTail(vs, len, v - 1, Values(str[spos'..]));
        len := len + 1;
      } else {
        input[i] := 0;
        NothingToRead(str[spos'..]);
      }
      i := i + 1;
    }
    if spos' == |str| {
      NothingToRead(str[spos'..]);
    }
  }

  lemma HeadAndTail(vs: seq<sextet>, n: nat, v: sextet, rest: seq<sextet>)
    requires n <= |vs| && vs[n..] == [v] + rest
    ensures n < |vs| && vs[n] == v && vs[n + 1..] == rest
  {
    assert vs[n..][0] == v && vs[n..][1..] == rest;
  }

  lemma NothingToRead(text: seq<byte>)
    requires text == []
    ensures Values(text) == []
  {
  }

  /** One group decoded, whatever the rest of `input` holds. */
  lemma GroupBytes(vs: seq<sextet>, input: seq<byte>, out: seq<byte>, len: nat)
    requires |input| == 4 && |out| == 3 && len == Least(4, |vs|) && forall k | 0 <= k < len :: input[k] == vs[k]
    requires out == JointBytes(input)
    ensures Bytes(vs) == (if len > 0 then out[..len - 1] else []) + Bytes(vs[len..])
  {
    hide First, Second, Third, Joint0, Joint1, Joint2, Bits, ByteOf;
    if len >= 2 { JointsAre(vs[0], vs[1]); }
    if len >= 3 { JointsAre(vs[1], vs[2]); }
    if len == 4 {
      JointsAre(vs[2], vs[3]);
      assert out[..3] == [First(vs[0], vs[1]), Second(vs[1], vs[2]), Third(vs[2], vs[3])];
    } else {
      assert vs[len..] == [] && Bytes([]) == [];
      assert len > 0 ==> out[..len - 1] == Bytes(vs);
    }
  }

  /** kr_base64_decode.  The scratch arrays hold anything at first. */
  method Decode(str: seq<byte>, dest: DBuffer) returns (retcode: bool)
    requires dest.Valid()
    modifies dest, dest.data
    ensures retcode && dest.Valid() && dest.Contents() == old(dest.Contents()) + Bytes(Values(str))
    ensures old(dest.Amortised()) ==> dest.Amortised()
    ensures exists places, vs :: ReadOff(str, places, vs)
                                 && Regrouped(vs, dest.Contents()[|old(dest.Contents())|..])
  {
    hide Values, Bytes, JointBytes;
    var input, out := new byte[4], new byte[3];
    input[0], out[0] := 0, 0;
    var spos: nat := 0;
    ghost var before := dest.Contents();
    assert str[0..] == str;
    while spos < |str|
      invariant spos <= |str| && dest.Valid() && (old(dest.Amortised()) ==> dest.Amortised())
      invariant dest.data == old(dest.data) || fresh(dest.data)
      invariant dest.data != input && dest.data != out
      invariant before + Bytes(Values(str)) == dest.Contents() + Bytes(Values(str[spos..]))
    {
      ghost var vs, written, block := Values(str[spos..]), dest.Contents(), [];
      var len;
      len, spos := ReadValues(str, spos, input);
      if len > 0 {
        DecodeBlock(input, out);
        GroupBytes(vs, input[..], out[..], len);
        assert out[..][..len - 1] == out[..len - 1];
        block := out[..len - 1];
        AppendBytes(dest, out, len - 1);
      } else {
        assert vs[len..] == vs && written + block == written;
      }
      Regroup(before, Bytes(Values(str)), written, Bytes(vs), block, Bytes(vs[len..]));
    }
    NoValues(str[spos..]);
    assert dest.Contents() == before + Bytes(Values(str));
    assert dest.Contents()[|before|..] == Bytes(Values(str));
    ghost var places := ReadValuesOff(str);
    BytesRegrouped(Values(str));
    retcode := true;
  }

  lemma Regroup(before: seq<byte>, all: seq<byte>, written: seq<byte>, rest: seq<byte>, block: seq<byte>,
                rest': seq<byte>)
    requires before + all == written + rest && rest == block + rest'
    ensures before + all == written + block + rest'
  {
    assert written + (block + rest') == written + block + rest';
  }

  lemma NoValues(text: seq<byte>)
    requires text == []
    ensures Bytes(Values(text)) == []
  {
  }

  // ----- decoding what was encoded -----

  lemma {:induction false} ValuesConcat(a: seq<byte>, b: seq<byte>)
    ensures Values(a + b) == Values(a) + Values(b)
    decreases |a|
  {
    if a == [] {
      assert a + b == b;
    } else {
      hide ValueOf;
      assert (a + b)[1..] == a[1..] + b;
      ValuesConcat(a[1..], b);
      var v := if ValueOf(a[0]) >= 0 then [ValueOf(a[0])] else [];
      assert v + (Values(a[1..]) + Values(b)) == v + Values(a[1..]) + Values(b);
    }
  }

  lemma {:induction false} NoiseHasNone(noise: seq<byte>)
    requires forall k | 0 <= k < |noise| :: ValueOf(noise[k]) < 0
    ensures Values(noise) == []
    decreases |noise|
  {
    if noise != [] { NoiseHasNone(noise[1..]); }
  }

  /** Characters outside the alphabet may stand anywhere in a text without changing what is decoded. */
  lemma NoiseIsSkipped(a: seq<byte>, noise: seq<byte>, b: seq<byte>)
    requires forall k | 0 <= k < |noise| :: ValueOf(noise[k]) < 0
    ensures Bytes(Values(a + noise + b)) == Bytes(Values(a + b))
  {
    NoiseHasNone(noise);
    ValuesConcat(a + noise, b);
    ValuesConcat(a, noise);
    ValuesConcat(a, b);
    assert Values(a) + Values(noise) == Values(a);
  }

  /** The decoder's shifts put together what the encoder's have taken apart. */
  lemma ShiftsBack(x: bv8, y: bv8, z: bv8)
    ensures Joint0(Part0(x), Part1(x, y)) == x && Joint1(Part1(x, y), Part2(y, z)) == y
            && Joint2(Part2(y, z), Part3(z)) == z
  {
  }

  lemma DigitsBack(a: byte, b: byte, c: byte)
    ensures var n := Number(a, b, c);
            var d0: sextet, d1: sextet, d2: sextet, d3: sextet := n / 0x40000, n / 0x1000 % 64, n / 64 % 64, n % 64;
            First(d0, d1) == a && Second(d1, d2) == b && Third(d2, d3) == c
  {
    var x: int, y: int, z: int := a, b, c;
    Digits(x, y, z);
    hide Number;
    assert (x % 4 * 16 + y / 16) / 16 == x % 4 && (x % 4 * 16 + y / 16) % 16 == y / 16;
    assert (y % 16 * 4 + z / 64) / 4 == y % 16 && (y % 16 * 4 + z / 64) % 4 == z / 64;
  }

  lemma BlockValues(group: seq<byte>, len: nat)
    requires |group| == 3 && 1 <= len <= 3
    ensures var vs := Values(BlockText(group, len)); |vs| == len + 1 && Bytes(vs) == group[..len]
  {
    DigitsBack(group[0], group[1], group[2]);
    var n := Number(group[0], group[1], group[2]);
    var d: seq<sextet> := [n / 0x40000, n / 0x1000 % 64, n / 64 % 64, n % 64];
    hide BlockText, First, Second, Third, Alphabet, Values, Bytes;
    BlockChars(group, len, d);
    FourValues(BlockText(group, len), d, len);
    BytesOfDigits(group, len, d);
  }

  lemma BytesOfDigits(group: seq<byte>, len: nat, d: seq<sextet>)
    requires |group| == 3 && 1 <= len <= 3 && |d| == 4
    requires First(d[0], d[1]) == group[0] && Second(d[1], d[2]) == group[1] && Third(d[2], d[3]) == group[2]
    ensures Bytes(d[..len + 1]) == group[..len]
  {
    hide First, Second, Third;
    var vs := d[..len + 1];
    assert vs[0] == d[0] && vs[1] == d[1] && (len > 1 ==> vs[2] == d[2]) && (len > 2 ==> vs[3] == d[3]);
    if len == 3 { assert Bytes(vs[4..]) == []; }
  }

  lemma BlockChars(group: seq<byte>, len: nat, d: seq<sextet>)
    requires |group| == 3 && 1 <= len <= 3 && |d| == 4
    requires var n := Number(group[0], group[1], group[2]);
             d[0] == n / 0x40000 && d[1] == n / 0x1000 % 64 && d[2] == n / 64 % 64 && d[3] == n % 64
    ensures forall k | 0 <= k <= len :: ValueOf(BlockText(group, len)[k]) == d[k]
    ensures forall k | len < k < 4 :: ValueOf(BlockText(group, len)[k]) < 0
  {
    ValueOfAlphabet(d[0]);
    ValueOfAlphabet(d[1]);
    ValueOfAlphabet(d[2]);
    ValueOfAlphabet(d[3]);
    var text := BlockText(group, len);
    assert text[0] == Alphabet(d[0]) && text[1] == Alphabet(d[1]);
    assert text[2] == if len > 1 then Alphabet(d[2]) else 61;
    assert text[3] == if len > 2 then Alphabet(d[3]) else 61;
    hide Number, BlockText, Alphabet;
    assert ValueOf(61) < 0;
  }

  lemma FourValues(text: seq<byte>, d: seq<sextet>, len: nat)
    requires |text| == |d| == 4 && 1 <= len <= 3
    requires forall k | 0 <= k <= len :: ValueOf(text[k]) == d[k]
    requires forall k | len < k < 4 :: ValueOf(text[k]) < 0
    ensures Values(text) == d[..len + 1]
  {
    hide ValueOf;
    ValuesConcat(text[..len + 1], text[len + 1..]);
    assert text == text[..len + 1] + text[len + 1..];
    NoiseHasNone(text[len + 1..]);
    AllValues(text[..len + 1], d[..len + 1]);
  }

  lemma {:induction false} AllValues(text: seq<byte>, vs: seq<sextet>)
    requires |text| == |vs| && forall k | 0 <= k < |text| :: ValueOf(text[k]) == vs[k]
    ensures Values(text) == vs
    decreases |text|
  {
    if text != [] {
      AllValues(text[1..], vs[1..]);
    }
  }

  /** The round trip: whatever the line size, decoding the encoded text gives the data back. */
  lemma {:induction false} RoundTrip(data: seq<byte>, linesize: int, blocks: nat)
    ensures Bytes(Values(Encoded(data, linesize, blocks))) == data
    decreases |data|
  {
    if data != [] {
      var len := Least(3, |data|);
      var ends := linesize > 0 && (blocks + 1 >= linesize / 4 || |data| <= 3);
      RoundTrip(data[len..], linesize, if ends then 0 else blocks + 1);
      hide BlockText, Values, Bytes;
      var rest := Encoded(data[len..], linesize, if ends then 0 else blocks + 1);
      OneBlock(data, len, if ends then CRLF else [], rest);
    }
  }

  lemma BreaksAreNoise()
    ensures ValueOf(13) < 0 && ValueOf(10) < 0
  {
  }

  lemma OneBlock(data: seq<byte>, len: nat, b: seq<byte>, rest: seq<byte>)
    requires data != [] && len == Least(3, |data|) && (b == [] || b == CRLF) && Bytes(Values(rest)) == data[len..]
    requires len < 3 ==> rest == []
    ensures Bytes(Values(BlockText(GroupOf(data), len) + b + rest)) == data
  {
    hide BlockText, Bytes, Values, ValueOf;
    BlockValues(GroupOf(data), len);
    var a := BlockText(GroupOf(data), len);
    assert forall k | 0 <= k < |b| :: ValueOf(b[k]) < 0 by { BreaksAreNoise(); }
    NoiseHasNone(b);
    NothingToRead([]);
    ValuesConcat(a + b, rest);
    ValuesConcat(a, b);
    assert Values(a) + Values(b) == Values(a);
    BytesOfGroup(Values(a), Values(rest), len);
    assert data == GroupOf(data)[..len] + data[len..];
  }

  lemma BytesOfGroup(a: seq<sextet>, rest: seq<sextet>, len: nat)
    requires |a| == len + 1 && 1 <= len <= 3 && (len < 3 ==> rest == [])
    ensures Bytes(a + rest) == Bytes(a) + Bytes(rest)
  {
    if len == 3 {
      assert (a + rest)[4..] == rest && a[4..] == [];
    } else {
      assert a + rest == a;
    }
  }

  /** Encoding and then decoding, with any line size: the second buffer holds the data. */
  method EncodeDecode(data: seq<byte>, linesize: int) returns (decoded: seq<byte>)
    ensures decoded == data
  {
    hide Encoded, Values, Bytes;
    var text := new DBuffer();
    var _ := Encode(data, text, linesize);
    assert text.Contents() == [] + Encoded(data, linesize, 0) == Encoded(data, linesize, 0);
    var copy := new DBuffer();
    var _ := Decode(text.data[..text.size], copy);
    RoundTrip(data, linesize, 0);
    decoded := copy.data[..copy.size];
    assert copy.Contents() == [] + data == data;
  }

  // ----- the shape of the encoded text -----

  /** Every line of the text, the first of which has `col` characters already, has at most `max`. */
  ghost predicate LinesWithin(text: seq<byte>, max: nat, col: nat) {
    if text == [] then true
    else if text[0] == 13 || text[0] == 10 then LinesWithin(text[1..], max, 0)
    else col + 1 <= max && LinesWithin(text[1..], max, col + 1)
  }

  lemma NotABreak(v: sextet)
    ensures Alphabet(v) != 13 && Alphabet(v) != 10
  {
  }

  /** With a positive line size no line is longer than its whole blocks of four, or than one block. */
  lemma {:induction false} LinesFit(data: seq<byte>, linesize: int, blocks: nat)
    requires linesize > 0 && (blocks < linesize / 4 || blocks == 0)
    ensures LinesWithin(Encoded(data, linesize, blocks), Larger(4, 4 * (linesize / 4)), 4 * blocks)
    decreases |data|
  {
    if data != [] {
      var len := Least(3, |data|);
      var ends := linesize > 0 && (blocks + 1 >= linesize / 4 || |data| <= 3);
      var blocks' := if ends then 0 else blocks + 1;
      LinesFit(data[len..], linesize, blocks');
      hide LinesWithin, BlockText, GroupOf;
      OneBlockWithin(GroupOf(data), len, if ends then CRLF else [], Encoded(data[len..], linesize, blocks'),
                     Larger(4, 4 * (linesize / 4)), 4 * blocks, 4 * blocks');
    }
  }

  lemma OneBlockWithin(group: seq<byte>, len: nat, b: seq<byte>, rest: seq<byte>, max: nat, col: nat, col': nat)
    requires |group| == 3 && 1 <= len <= 3 && col + 4 <= max
    requires (b == [] && col' == col + 4) || (b == CRLF && col' == 0)
    requires LinesWithin(rest, max, col')
    ensures LinesWithin(BlockText(group, len) + b + rest, max, col)
  {
    hide LinesWithin, BlockText;
    BreakWithin(b, rest, max, col + 4, col');
    BlockWithin(group, len, b + rest, max, col);
    assert BlockText(group, len) + b + rest == BlockText(group, len) + (b + rest);
  }

  function Larger(a: nat, b: nat): nat {
    if a > b then a else b
  }

  lemma BreakWithin(b: seq<byte>, rest: seq<byte>, max: nat, col: nat, col': nat)
    requires (b == [] && col' == col) || (b == CRLF && col' == 0)
    requires LinesWithin(rest, max, col')
    ensures LinesWithin(b + rest, max, col)
  {
    if b == CRLF {
      var t := b + rest;
      assert t[1..][1..] == rest;
    } else {
      assert b + rest == rest;
    }
  }

  lemma BlockWithin(group: seq<byte>, len: nat, tail: seq<byte>, max: nat, col: nat)
    requires |group| == 3 && 1 <= len <= 3 && col + 4 <= max && LinesWithin(tail, max, col + 4)
    ensures LinesWithin(BlockText(group, len) + tail, max, col)
  {
    BlockBreaks(group, len);
    hide BlockText;
    var a := BlockText(group, len);
    var t := a + tail;
    assert t[1..][1..][1..][1..] == tail;
    assert t[1..][1..][1..][0] == a[3] && t[1..][1..][0] == a[2] && t[1..][0] == a[1];
    assert LinesWithin(t[1..][1..][1..], max, col + 3);
    assert LinesWithin(t[1..][1..], max, col + 2);
    assert LinesWithin(t[1..], max, col + 1);
  }

  lemma Rounded(n: nat)
    ensures 1 <= n <= 3 ==> (n + 2) / 3 * 4 == 4
    ensures n > 3 ==> (n + 2) / 3 * 4 == 4 + (n - 3 + 2) / 3 * 4
  {
    if n > 3 { assert n + 2 == (n - 3 + 2) + 3; }
  }

  predicate Unbroken(text: seq<byte>) {
    forall k | 0 <= k < |text| :: text[k] != 13 && text[k] != 10
  }

  lemma UnbrokenConcat(a: seq<byte>, b: seq<byte>)
    ensures Unbroken(a) && Unbroken(b) ==> Unbroken(a + b)
    ensures Unbroken([])
  {
  }

  /** Without a positive line size there are no line breaks at all. */
  lemma {:induction false} NoBreaks(data: seq<byte>, linesize: int, blocks: nat)
    requires linesize <= 0
    ensures Unbroken(Encoded(data, linesize, blocks)) && |Encoded(data, linesize, blocks)| == (|data| + 2) / 3 * 4
    decreases |data|
  {
    hide Unbroken, Alphabet;
    UnbrokenConcat([], []);
    if data != [] {
      var len := Least(3, |data|);
      NoBreaks(data[len..], linesize, blocks + 1);
      BlockBreaks(GroupOf(data), len);
      hide BlockText, GroupOf;
      var a, rest := BlockText(GroupOf(data), len), Encoded(data[len..], linesize, blocks + 1);
      assert Encoded(data, linesize, blocks) == a + [] + rest == a + rest;
      UnbrokenConcat(a, rest);
      Rounded(|data|);
    }
  }

  lemma BlockBreaks(group: seq<byte>, len: nat)
    requires |group| == 3 && 1 <= len <= 3
    ensures Unbroken(BlockText(group, len))
  {
    var n := Number(group[0], group[1], group[2]);
    NotABreak(n / 0x40000);
    NotABreak(n / 0x1000 % 64);
    NotABreak(n / 64 % 64);
    NotABreak(n % 64);
  }

  // ----- the text without its lines -----

  function Or0(data: seq<byte>, k: nat): byte {
    if k < |data| then data[k] else 0
  }

  /** Section 4 of RFC 4648: the text has four characters for each started group of three bytes; character `p` is the
      letter for the bits 6p to 6p + 5 of the data, followed by zero bits, and padding where no bit is left. */
  ghost predicate Spells(data: seq<byte>, text: seq<byte>) {
    && |text| == (|data| + 2) / 3 * 4
    && forall p: nat | p < |text| :: text[p] == if 6 * p < 8 * |data| then Alphabet(SixBits(data, p)) else 61
  }

  function SixBits(data: seq<byte>, p: nat): sextet {
    var k := 6 * p / 8;
    var two := Or0(data, k) * 256 + Or0(data, k + 1);
    (match p % 4 case 0 => two / 0x400 case 1 => two / 0x10 case 2 => two / 0x40 case _ => two / 0x100) % 64
  }

  lemma {:induction false} PlainSpells(data: seq<byte>, blocks: nat)
    ensures Spells(data, Encoded(data, 0, blocks))
    decreases |data|
  {
    hide Alphabet, BlockText, SixBits, GroupOf;
    if data != [] {
      var len := Least(3, |data|);
      var a, rest := BlockText(GroupOf(data), len), Encoded(data[len..], 0, blocks + 1);
      PlainSpells(data[len..], blocks + 1);
      assert Encoded(data, 0, blocks) == a + rest;
      Rounded(|data|);
      forall p: nat | p < 4 + |rest|
        ensures (a + rest)[p] == if 6 * p < 8 * |data| then Alphabet(SixBits(data, p)) else 61
      {
        if p < 4 {
          BlockSpells(data, len, p);
        } else {
          assert len == 3;
          LaterBits(data, p - 4);
        }
      }
    }
  }

  lemma BlockSpells(data: seq<byte>, len: nat, p: nat)
    requires data != [] && len == Least(3, |data|) && p < 4
    ensures BlockText(GroupOf(data), len)[p] == if 6 * p < 8 * |data| then Alphabet(SixBits(data, p)) else 61
  {
    var a: int, b: int, c: int := Or0(data, 0), Or0(data, 1), Or0(data, 2);
    var n := Number(a, b, c);
    assert GroupOf(data) == [a, b, c];
    Digits(a, b, c);
    FirstBits(data);
    hide Alphabet, Number, SixBits, Or0;
    assert BlockText([a, b, c], len)[p] == match p case 0 => Alphabet(n / 0x40000) case 1 => Alphabet(n / 0x1000 % 64)
      case 2 => (if len > 1 then Alphabet(n / 64 % 64) else 61) case _ => if len > 2 then Alphabet(n % 64) else 61;
  }

  lemma FirstBits(data: seq<byte>)
    ensures var a: int, b: int, c: int := Or0(data, 0), Or0(data, 1), Or0(data, 2);
            SixBits(data, 0) == a / 4 && SixBits(data, 1) == a % 4 * 16 + b / 16
            && SixBits(data, 2) == b % 16 * 4 + c / 64 && SixBits(data, 3) == c % 64
  {
    var a: int, b: int, c: int, d: int := Or0(data, 0), Or0(data, 1), Or0(data, 2), Or0(data, 3);
    SixBitsAt(data);
    hide SixBits, Or0;
    TwoBytes(a, b);
    TwoBytes(b, c);
    TwoBytes(c, d);
  }

  lemma SixBitsAt(data: seq<byte>)
    ensures SixBits(data, 0) == (Or0(data, 0) * 256 + Or0(data, 1)) / 0x400 % 64
    ensures SixBits(data, 1) == (Or0(data, 0) * 256 + Or0(data, 1)) / 0x10 % 64
    ensures SixBits(data, 2) == (Or0(data, 1) * 256 + Or0(data, 2)) / 0x40 % 64
    ensures SixBits(data, 3) == (Or0(data, 2) * 256 + Or0(data, 3)) / 0x100 % 64
  {
    hide Or0;
  }

  lemma TwoBytes(a: int, b: int)
    requires 0 <= a < 256 && 0 <= b < 256
    ensures var two := a * 256 + b;
            two / 0x400 % 64 == a / 4 && two / 0x10 % 64 == a % 4 * 16 + b / 16
            && two / 0x40 % 64 == a % 16 * 4 + b / 64 && two / 0x100 % 64 == a % 64
  {
    Quotient(a * 256 + b, 0x400, a / 4, a % 4 * 256 + b);
    Quotient(a * 256 + b, 0x10, a * 16 + b / 16, b % 16);
    Quotient(a * 256 + b, 0x40, a * 4 + b / 64, b % 64);
    Quotient(a * 256 + b, 0x100, a, b);
    Quotient(a * 16 + b / 16, 64, a / 4, a % 4 * 16 + b / 16);
    Quotient(a * 4 + b / 64, 64, a / 16, a % 16 * 4 + b / 64);
  }

  lemma Quotient(n: int, d: int, q: int, r: int)
    requires 0 <= r < d && n == q * d + r
    ensures n / d == q && n % d == r
  {
    var e := n / d - q;
    assert n == d * (n / d) + n % d;
    assert d * e == r - n % d;
    Product(d, e);
  }

  lemma Product(d: int, e: int)
    requires d > 0
    ensures (e >= 1 ==> d * e >= d) && (e <= -1 ==> d * e <= -d)
  {
  }

  lemma LaterBits(data: seq<byte>, p: nat)
    requires |data| >= 3
    ensures SixBits(data, p + 4) == SixBits(data[3..], p)
  {
    assert 6 * (p + 4) / 8 == 6 * p / 8 + 3 && (p + 4) % 4 == p % 4;
  }

  // ----- its lines -----

  function Concat(lines: seq<seq<byte>>): seq<byte> {
    if lines == [] then [] else lines[0] + Concat(lines[1..])
  }

  /** The text is these lines, each followed by carriage return and line feed. */
  ghost predicate InLines(lines: seq<seq<byte>>, text: seq<byte>)
    decreases |lines|
  {
    if lines == [] then text == []
    else
      var n := |lines[0]|;
      n + 2 <= |text| && text[..n] == lines[0] && text[n] == 13 && text[n + 1] == 10
          && InLines(lines[1..], text[n + 2..])
  }

  /** Every line but the last is full, and that has at least one block. */
  ghost predicate LinesFilled(lines: seq<seq<byte>>, linesize: int) {
    var full := 4 * if linesize / 4 > 1 then linesize / 4 else 1;
    && (forall k | 0 <= k < |lines| - 1 :: |lines[k]| == full)
    && (lines != [] ==> 4 <= |lines[|lines| - 1]| <= full)
  }

  /** The same when the first line has `blocks` blocks already, of at most `most`. */
  ghost predicate FilledFrom(lines: seq<seq<byte>>, most: nat, blocks: nat) {
    && (lines != [] ==> 4 <= |lines[0]| <= 4 * (most - blocks) && (|lines| > 1 ==> |lines[0]| == 4 * (most - blocks)))
    && (forall k | 0 < k < |lines| - 1 :: |lines[k]| == 4 * most)
    && (|lines| > 1 ==> 4 <= |lines[|lines| - 1]| <= 4 * most)
  }

  lemma {:induction false} EncodedInLines(data: seq<byte>, linesize: int, blocks: nat, b: nat)
    returns (lines: seq<seq<byte>>)
    requires linesize > 0 && blocks < Larger(1, linesize / 4)
    ensures InLines(lines, Encoded(data, linesize, blocks)) && Concat(lines) == Encoded(data, 0, b)
    ensures FilledFrom(lines, Larger(1, linesize / 4), blocks) && (lines == [] <==> data == [])
    decreases |data|
  {
    hide BlockText, GroupOf, FilledFrom, InLines, Concat;
    var most := Larger(1, linesize / 4);
    if data == [] {
      lines := [];
      NoneFilled(most, blocks);
      return;
    }
    var len := Least(3, |data|);
    var a := BlockText(GroupOf(data), len);
    if blocks + 1 >= linesize / 4 || |data| <= 3 {
      var rest := EncodedInLines(data[len..], linesize, 0, b + 1);
      NextInLines(a, rest, Encoded(data[len..], linesize, 0));
      NextFilled(a, rest, most, blocks);
      lines := [a] + rest;
      assert lines[0] == a && lines[1..] == rest;
      assert Encoded(data, linesize, blocks) == a + [13, 10] + Encoded(data[len..], linesize, 0);
    } else {
      var rest := EncodedInLines(data[len..], linesize, blocks + 1, b + 1);
      LongerLine(a, rest, Encoded(data[len..], linesize, blocks + 1));
      LongerFilled(a, rest, most, blocks);
      lines := [a + rest[0]] + rest[1..];
      assert Encoded(data, linesize, blocks) == a + Encoded(data[len..], linesize, blocks + 1);
    }
    assert Encoded(data, 0, b) == a + Encoded(data[len..], 0, b + 1);
  }

  lemma NoneFilled(most: nat, blocks: nat)
    requires blocks < most
    ensures FilledFrom([], most, blocks) && InLines([], []) && Concat([]) == []
  {
  }

  lemma NextFilled(a: seq<byte>, rest: seq<seq<byte>>, most: nat, blocks: nat)
    requires |a| == 4 && blocks < most && FilledFrom(rest, most, 0) && (rest != [] ==> blocks + 1 == most)
    ensures FilledFrom([a] + rest, most, blocks)
  {
    var lines := [a] + rest;
    assert forall k | 0 < k < |lines| :: lines[k] == rest[k - 1];
  }

  lemma LongerFilled(a: seq<byte>, rest: seq<seq<byte>>, most: nat, blocks: nat)
    requires |a| == 4 && blocks + 1 < most && rest != [] && FilledFrom(rest, most, blocks + 1)
    ensures FilledFrom([a + rest[0]] + rest[1..], most, blocks)
  {
    var lines := [a + rest[0]] + rest[1..];
    assert forall k | 0 < k < |lines| :: lines[k] == rest[k];
  }

  lemma NextInLines(a: seq<byte>, rest: seq<seq<byte>>, text: seq<byte>)
    requires InLines(rest, text)
    ensures InLines([a] + rest, a + [13, 10] + text) && Concat([a] + rest) == a + Concat(rest)
  {
    var lines, n := [a] + rest, |a|;
    var all := a + [13, 10] + text;
    assert lines[0] == a && lines[1..] == rest;
    assert all[..n] == a && all[n + 2..] == text;
  }

  lemma LongerLine(a: seq<byte>, rest: seq<seq<byte>>, text: seq<byte>)
    requires rest != [] && InLines(rest, text)
    ensures InLines([a + rest[0]] + rest[1..], a + text) && Concat([a + rest[0]] + rest[1..]) == a + Concat(rest)
  {
    var lines, n := [a + rest[0]] + rest[1..], |a| + |rest[0]|;
    assert lines[0] == a + rest[0] && lines[1..] == rest[1..];
    assert (a + text)[..n] == a + text[..|rest[0]|];
    assert (a + text)[n + 2..] == text[|rest[0]| + 2..];
    assert a + rest[0] + Concat(rest[1..]) == a + (rest[0] + Concat(rest[1..]));
  }

  /** What the encoder writes: the characters that the data asks for, and with a positive line size in lines of as many
      whole blocks as fit, each with its line break. */
  lemma EncodedSpells(data: seq<byte>, linesize: int)
    ensures linesize <= 0 ==> Spells(data, Encoded(data, linesize, 0))
    ensures linesize > 0 ==> exists lines :: InLines(lines, Encoded(data, linesize, 0)) && Spells(data, Concat(lines))
                                             && LinesFilled(lines, linesize)
  {
    hide Spells, Encoded, InLines, Concat;
    PlainSpells(data, 0);
    if linesize > 0 {
      var lines := EncodedInLines(data, linesize, 0, 0);
      assert LinesFilled(lines, linesize);
    } else {
      NoLines(data, linesize, 0);
    }
  }

  lemma {:induction false} NoLines(data: seq<byte>, linesize: int, blocks: nat)
    requires linesize <= 0
    ensures Encoded(data, linesize, blocks) == Encoded(data, 0, blocks)
    decreases |data|
  {
    if data != [] { NoLines(data[Least(3, |data|)..], linesize, blocks + 1); }
  }

  // ----- the decoder on any text -----

  /** The alphabet characters of the text stand at `places`, and these are their values. */
  ghost predicate ReadOff(text: seq<byte>, places: seq<nat>, vs: seq<sextet>) {
    && |places| == |vs| && (forall m, n | 0 <= m < n < |places| :: places[m] < places[n])
    && (forall m | 0 <= m < |places| :: places[m] < |text| && text[places[m]] == Alphabet(vs[m]))
    && (forall k: nat, v | k < |text| && text[k] == Alphabet(v) :: k in places)
  }

  /** The values are six bits each, and the bytes all the whole bytes that they make: byte `j` is the bits 8j to
      8j + 7. */
  ghost predicate Regrouped(vs: seq<sextet>, bytes: seq<byte>) {
    && |bytes| == 6 * |vs| / 8
    && forall j: nat | j < |bytes| :: bytes[j] == EightBits(vs, j)
  }

  function EightBits(vs: seq<sextet>, j: nat): byte
    requires 8 * j + 8 <= 6 * |vs|
  {
    var k := 8 * j / 6;
    var x: int, y: int := vs[k], vs[k + 1];
    match j % 3 case 0 => x * 4 + y / 16 case 1 => x % 16 * 16 + y / 4 case _ => x % 4 * 64 + y
  }

  lemma {:induction false} BytesRegrouped(vs: seq<sextet>)
    ensures Regrouped(vs, Bytes(vs))
    decreases |vs|
  {
    if |vs| < 4 {
      FewBytes(vs);
    } else {
      var bytes, rest := Bytes(vs), Bytes(vs[4..]);
      BytesRegrouped(vs[4..]);
      FirstBytes(vs);
      hide First, Second, Third, EightBits, Bytes;
      assert |bytes| == 3 + |rest| == 6 * |vs| / 8;
      forall j: nat | 3 <= j < |bytes| ensures bytes[j] == EightBits(vs, j) {
        assert bytes[j] == rest[j - 3];
        LaterBytes(vs, j - 3);
      }
    }
  }

  lemma FewBytes(vs: seq<sextet>)
    requires |vs| < 4
    ensures Regrouped(vs, Bytes(vs))
  {
    if |vs| >= 2 { assert EightBits(vs, 0) == First(vs[0], vs[1]); }
    if |vs| >= 3 { assert EightBits(vs, 1) == Second(vs[1], vs[2]); }
    hide EightBits, First, Second, Third;
  }

  lemma FirstBytes(vs: seq<sextet>)
    requires |vs| >= 4
    ensures Bytes(vs) == [EightBits(vs, 0), EightBits(vs, 1), EightBits(vs, 2)] + Bytes(vs[4..])
  {
  }

  lemma LaterBytes(vs: seq<sextet>, j: nat)
    requires |vs| >= 4 && 8 * j + 8 <= 6 * (|vs| - 4)
    ensures EightBits(vs, j + 3) == EightBits(vs[4..], j)
  {
    assert 8 * (j + 3) / 6 == 8 * j / 6 + 4 && (j + 3) % 3 == j % 3;
  }

  lemma {:induction false} ReadValuesOff(text: seq<byte>) returns (places: seq<nat>)
    ensures ReadOff(text, places, Values(text))
    decreases |text|
  {
    hide Alphabet, ReadOff, ValueOf;
    if text == [] {
      places := [];
      assert ReadOff([], [], []) by { NothingReadOff(); }
    } else {
      var rest := ReadValuesOff(text[1..]);
      var later := seq(|rest|, m requires 0 <= m < |rest| => rest[m] + 1);
      var v := ValueOf(text[0]);
      LetterOrNot(text[0]);
      LaterPlaces(text, rest, later, Values(text[1..]));
      if v >= 0 {
        places := [0] + later;
        LetterFirst(text, later, Values(text[1..]), v);
      } else {
        places := later;
        NoiseFirst(text, later, Values(text[1..]));
        assert Values(text) == [] + Values(text[1..]) == Values(text[1..]);
      }
    }
  }

  lemma NothingReadOff()
    ensures ReadOff([], [], [])
  {
  }

  lemma LetterOrNot(c: byte)
    ensures ValueOf(c) >= 0 ==> Alphabet(ValueOf(c)) == c
    ensures ValueOf(c) < 0 ==> forall v :: Alphabet(v) != c
  {
    forall v ensures ValueOf(Alphabet(v)) == v { ValueOfAlphabet(v); }
  }

  /** What is read off behind the first character, with the places in the whole text. */
  ghost predicate ReadLater(text: seq<byte>, later: seq<nat>, vs: seq<sextet>) {
    && |later| == |vs| && (forall m, n | 0 <= m < n < |later| :: later[m] < later[n])
    && (forall m | 0 <= m < |later| :: 0 < later[m] < |text| && text[later[m]] == Alphabet(vs[m]))
    && (forall k: nat, v | 0 < k < |text| && text[k] == Alphabet(v) :: k in later)
  }

  lemma LaterPlaces(text: seq<byte>, rest: seq<nat>, later: seq<nat>, vs: seq<sextet>)
    requires text != [] && ReadOff(text[1..], rest, vs)
    requires |later| == |rest| && forall m | 0 <= m < |rest| :: later[m] == rest[m] + 1
    ensures ReadLater(text, later, vs)
  {
    hide Alphabet;
    forall k: nat, v | 0 < k < |text| && text[k] == Alphabet(v) ensures k in later {
      assert text[1..][k - 1] == Alphabet(v);
      var m :| 0 <= m < |rest| && rest[m] == k - 1;
      assert later[m] == k;
    }
  }

  lemma LetterFirst(text: seq<byte>, later: seq<nat>, vs: seq<sextet>, v: sextet)
    requires text != [] && ReadLater(text, later, vs) && text[0] == Alphabet(v)
    ensures ReadOff(text, [0] + later, [v] + vs)
  {
    hide Alphabet;
    var places := [0] + later;
    assert forall m | 0 < m < |places| :: places[m] == later[m - 1] && ([v] + vs)[m] == vs[m - 1];
    assert places[0] == 0;
    forall k: nat, w | k < |text| && text[k] == Alphabet(w) ensures k in places {
      if k > 0 { assert k in later; }
    }
  }

  lemma NoiseFirst(text: seq<byte>, later: seq<nat>, vs: seq<sextet>)
    requires text != [] && ReadLater(text, later, vs) && forall v :: Alphabet(v) != text[0]
    ensures ReadOff(text, later, vs)
  {
    hide Alphabet;
    forall k: nat, v | k < |text| && text[k] == Alphabet(v) ensures k in later {
      assert k > 0;
    }
  }

  // ----- the cases in the file's own documentation -----

  function Ascii(s: string): (r: seq<byte>)
    requires forall k | 0 <= k < |s| :: s[k] < 256 as char
    ensures |r| == |s| && forall k | 0 <= k < |s| :: r[k] == s[k] as int
  {
    seq(|s|, k requires 0 <= k < |s| => s[k] as int)
  }

  /** Nothing, one, two, three and four characters. */
  lemma DocumentedCases()
    ensures Encoded(Ascii(""), 0, 0) == Ascii("")
    ensures Encoded(Ascii("A"), 0, 0) == Ascii("QQ==")
    ensures Encoded(Ascii("AB"), 0, 0) == Ascii("QUI=")
    ensures Encoded(Ascii("ABC"), 0, 0) == Ascii("QUJD")
    ensures Encoded(Ascii("ABCD"), 0, 0) == Ascii("QUJDRA==")
  {
    Letters();
    OneGroup([65]);
    OneGroup([65, 66]);
    OneGroup([65, 66, 67]);
    NothingLeft([65, 66, 67, 68][4..], 0, 2);
    assert [65, 66, 67, 68][3..] == [68];
    Groups();
    hide BlockText, Ascii;
  }

  lemma Letters()
    ensures Ascii("") == [] && Ascii("A") == [65] && Ascii("AB") == [65, 66] && Ascii("ABC") == [65, 66, 67]
    ensures Ascii("ABCD") == [65, 66, 67, 68]
    ensures Ascii("QQ==") == [81, 81, 61, 61] && Ascii("QUI=") == [81, 85, 73, 61] && Ascii("QUJD") == [81, 85, 74, 68]
    ensures Ascii("QUJDRA==") == [81, 85, 74, 68] + [82, 65, 61, 61]
  {
  }

  lemma Groups()
    ensures BlockText([65, 0, 0], 1) == [81, 81, 61, 61] && BlockText([65, 66, 0], 2) == [81, 85, 73, 61]
    ensures BlockText([65, 66, 67], 3) == [81, 85, 74, 68] && BlockText([68, 0, 0], 1) == [82, 65, 61, 61]
  {
  }

  lemma OneGroup(data: seq<byte>)
    requires 1 <= |data| <= 3
    ensures Encoded(data, 0, 0) == BlockText(GroupOf(data), |data|)
  {
    hide BlockText, GroupOf;
    var rest := data[Least(3, |data|)..];
    assert rest == [];
    NothingLeft(rest, 0, 1);
    var a := BlockText(GroupOf(data), |data|);
    assert a + [] + [] == a;
  }
}
