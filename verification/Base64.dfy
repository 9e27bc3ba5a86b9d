/** Base64 as in section 4 of RFC 4648. The encoder fills its buffer by whole groups and then
    overwrites the surplus with padding; the decoder sizes its buffer from the padding. */
module Base64 {
  import opened Basics

  const PAD: byte := 61

  /** The alphabet: upper case, lower case, digits, plus and slash. */
  function Letter(v: int): (c: byte)
    requires 0 <= v < 64
    ensures c != PAD && c < 128
  {
    if v < 26 then 65 + v else if v < 52 then 71 + v else if v < 62 then v - 4 else if v == 62 then 43 else 47
  }

  /** The decoding table; a byte outside the alphabet counts as zero. */
  function Sextet(c: byte): (v: int)
    ensures 0 <= v < 64
  {
    if 65 <= c <= 90 then c - 65
    else if 97 <= c <= 122 then c - 71
    else if 48 <= c <= 57 then c + 4
    else if c == 43 then 62
    else if c == 47 then 63
    else 0
  }

  lemma CapitalLetters(v: int)
    requires 0 <= v < 26
    ensures Letter(v) == "ABCDEFGHIJKLMNOPQRSTUVWXYZ"[v] as int
  {}

  lemma SmallLetters(v: int)
    requires 0 <= v < 26
    ensures Letter(26 + v) == "abcdefghijklmnopqrstuvwxyz"[v] as int
  {}

  /** The letters are those of table 1 of RFC 4648 in its order, and the padding is an equals sign. */
  lemma LettersAreStandard(v: int)
    requires 0 <= v < 64
    ensures Letter(v) == (if v < 26 then "ABCDEFGHIJKLMNOPQRSTUVWXYZ"[v]
                          else if v < 52 then "abcdefghijklmnopqrstuvwxyz"[v - 26]
                          else if v < 62 then "0123456789"[v - 52]
                          else "+/"[v - 62]) as int
    ensures PAD == '=' as int
  {
    if v < 26 { CapitalLetters(v); } else if v < 52 { SmallLetters(v - 26); }
  }

  lemma LetterBack(v: int)
    requires 0 <= v < 64
    ensures Sextet(Letter(v)) == v
  {}

  // ----- the encoding -----

  function Group(a: byte, b: byte, c: byte): (g: seq<byte>)
    ensures |g| == 4
  {
    [Letter(a / 4), Letter(a % 4 * 16 + b / 16), Letter(b % 16 * 4 + c / 64), Letter(c % 64)]
  }

  /** Four letters for every group begun. */
  function Letters(n: nat): nat { 4 * ((n + 2) / 3) }

  /** Groups of three bytes as four letters; a last group of one or two bytes is padded. */
  function Encoded(data: seq<byte>): (text: seq<byte>)
    ensures |text| == Letters(|data|)
    decreases |data|
  {
    if data == [] then []
    else if |data| == 1 then Group(data[0], 0, 0)[..2] + [PAD, PAD]
    else if |data| == 2 then Group(data[0], data[1], 0)[..3] + [PAD]
    else Group(data[0], data[1], data[2]) + Encoded(data[3..])
  }

  /** The number of padding bytes at the end. */
  function Padding(n: nat): (p: nat)
    ensures p <= 2
  {
    if n % 3 == 1 then 2 else if n % 3 == 2 then 1 else 0
  }

  /** The same without padding, as if the data went on with zeros. */
  function Unpadded(data: seq<byte>): (text: seq<byte>)
    ensures |text| == Letters(|data|)
    decreases |data|
  {
    if data == [] then []
    else Group(data[0], At(data, 1), At(data, 2)) + Unpadded(data[if |data| < 3 then |data| else 3..])
  }

  function At(data: seq<byte>, i: nat): byte { if i < |data| then data[i] else 0 }

  /** Overwriting the last letters of the unpadded text gives the encoding. */
  lemma {:induction false} PaddingOverwrites(data: seq<byte>)
    ensures var n, p := |Unpadded(data)|, Padding(|data|);
            p <= n && Encoded(data) == Unpadded(data)[..n - p] + seq(p, _ => PAD)
    decreases |data|
  {
    hide Group, Encoded, Unpadded, Padding, Letters;
    UnpaddedStep(data);
    EncodedStep(data);
    FewPadding();
    if |data| == 1 || |data| == 2 {
      SmallOverwrites(data);
    } else if |data| > 2 {
      var rest, g := data[3..], Group(data[0], data[1], data[2]);
      PaddingOverwrites(rest);
      PaddingAlike(|data|);
      var n, p := |Unpadded(rest)|, Padding(|rest|);
      assert (g + Unpadded(rest))[..4 + n - p] == g + Unpadded(rest)[..n - p];
    }
  }

  lemma {:induction false} SmallOverwrites(data: seq<byte>)
    requires |data| == 1 || |data| == 2
    ensures var p := 3 - |data|; |Unpadded(data)| == 4 && Encoded(data) == Unpadded(data)[..4 - p] + seq(p, _ => PAD)
  {
    hide Group, Encoded, Unpadded, Letters;
    UnpaddedStep(data);
    EncodedStep(data);
    assert data[|data|..] == [];
    UnpaddedStep([]);
  }

  lemma {:induction false} EncodedStep(data: seq<byte>)
    ensures data == [] ==> Encoded(data) == []
    ensures |data| == 1 ==> Encoded(data) == Group(data[0], 0, 0)[..2] + [PAD, PAD]
    ensures |data| == 2 ==> Encoded(data) == Group(data[0], data[1], 0)[..3] + [PAD]
    ensures |data| > 2 ==> Encoded(data) == Group(data[0], data[1], data[2]) + Encoded(data[3..])
  {}

  /** The four letters of a group of three bytes. */
  method PutGroup(encoded: array<byte>, j: nat, a: byte, b: byte, c: byte)
    requires j + 4 <= encoded.Length
    modifies encoded
    ensures encoded[..j + 4] == old(encoded[..j]) + Group(a, b, c)
  {
    hide Letter;
    var triple: int := a as int * 65536 + b as int * 256 + c as int;
    TripleSplits(a, b, c);
    encoded[j] := Letter(triple / 262144 % 64);
    encoded[j + 1] := Letter(triple / 4096 % 64);
    encoded[j + 2] := Letter(triple / 64 % 64);
    encoded[j + 3] := Letter(triple % 64);
  }

  /** Overwrites the last `pad` bytes. */
  method PutPadding(encoded: array<byte>, pad: nat)
    requires pad <= encoded.Length
    modifies encoded
    ensures encoded[..] == old(encoded[..])[..encoded.Length - pad] + seq(pad, _ => PAD)
  {
    ghost var n := encoded.Length;
    for k := 0 to pad
      invariant forall m :: 0 <= m < n - k ==> encoded[m] == old(encoded[m])
      invariant forall m :: n - k <= m < n ==> encoded[m] == PAD
    {
      encoded[encoded.Length - 1 - k] := PAD;
    }
  }

  /** The next three bytes, with zeros for those past the end. */
  method NextThree(data: seq<byte>, i: nat) returns (a: byte, b: byte, c: byte, next: nat)
    requires i < |data|
    ensures a == data[i] && b == At(data[i..], 1) && c == At(data[i..], 2) && next == if |data| - i < 3 then |data| else i + 3
  {
    next, a, b, c := i + 1, data[i], 0, 0;
    if next < |data| { b := data[next]; next := next + 1; }
    if next < |data| { c := data[next]; next := next + 1; }
  }

  /** Encodes the next group. */
  method EncodeNext(data: seq<byte>, encoded: array<byte>, i: nat, j: nat) returns (next: nat)
    requires i < |data| && j <= encoded.Length == |Unpadded(data)| && encoded[..j] + Unpadded(data[i..]) == Unpadded(data)
    modifies encoded
    ensures i < next <= |data| && j + 4 <= encoded.Length && encoded[..j + 4] + Unpadded(data[next..]) == Unpadded(data)
  {
    hide Group, Unpadded, At, Letters;
    ghost var rest, done := data[i..], encoded[..j];
    UnpaddedStep(rest);
    var a, b, c;
    a, b, c, next := NextThree(data, i);
    assert data[next..] == rest[if |rest| < 3 then |rest| else 3..];
    Room(done, Group(a, b, c), Unpadded(data[next..]), Unpadded(data));
    PutGroup(encoded, j, a, b, c);
  }

  method Encode(data: seq<byte>) returns (encoded: array<byte>)
    ensures fresh(encoded) && encoded[..] == Encoded(data)
  {
    hide Unpadded, Encoded, Letters, Padding;
    encoded := new byte[Letters(|data|)];
    var i, j := 0, 0;
    assert data[0..] == data && encoded[..0] == [];
    while i < |data|
      invariant i <= |data| && j <= encoded.Length && encoded[..j] + Unpadded(data[i..]) == Unpadded(data)
    {
      i := EncodeNext(data, encoded, i, j);
      j := j + 4;
    }
    UnpaddedStep(data[i..]);
    assert encoded[..j] + [] == encoded[..j] && encoded[..j] == encoded[..];
    PaddingOverwrites(data);
    PutPadding(encoded, Padding(|data|));
  }

  lemma {:induction false} Room(done: seq<byte>, g: seq<byte>, rest: seq<byte>, all: seq<byte>)
    requires done + (g + rest) == all
    ensures (done + g) + rest == all && |done| + |g| <= |all|
  {}

  // ----- the decoding -----

  /** The three bytes of four letters. */
  function Triple(w: seq<byte>): (t: seq<byte>)
    requires |w| == 4
    ensures |t| == 3
  {
    var a, b, c, d := Sextet(w[0]), Sextet(w[1]), Sextet(w[2]), Sextet(w[3]);
    [a * 4 + b / 16, b % 16 * 16 + c / 4, c % 4 * 64 + d]
  }

  function Triples(text: seq<byte>): (t: seq<byte>)
    requires |text| % 4 == 0
    ensures |t| == |text| / 4 * 3
  {
    if text == [] then [] else Triple(text[..4]) + Triples(text[4..])
  }

  /** The length the padding leaves. */
  function Length(text: seq<byte>): (n: nat)
    requires |text| % 4 == 0 && text != []
    ensures n <= |text| / 4 * 3
  {
    var m := |text|;
    m / 4 * 3 - (if text[m - 1] == PAD then 1 else 0) - if text[m - 2] == PAD then 1 else 0
  }

  function Cut(s: seq<byte>, n: nat): seq<byte> { if |s| < n then s else s[..n] }

  lemma {:induction false} CutMore(s: seq<byte>, x: byte, n: nat)
    ensures Cut(s + [x], n) == if |Cut(s, n)| < n then Cut(s, n) + [x] else Cut(s, n)
  {}

  /** Stores three bytes while there is room. */
  method PutTriple(out: seq<byte>, limit: nat, t: seq<byte>, ghost done: seq<byte>) returns (out': seq<byte>)
    requires |t| == 3 && out == Cut(done, limit)
    ensures out' == Cut(done + t, limit)
  {
    hide Cut;
    CutMore(done, t[0], limit);
    CutMore(done + [t[0]], t[1], limit);
    CutMore(done + [t[0]] + [t[1]], t[2], limit);
    assert done + [t[0]] + [t[1]] + [t[2]] == done + t;
    out' := out;
    if |out'| < limit { out' := out' + [t[0]]; }
    if |out'| < limit { out' := out' + [t[1]]; }
    if |out'| < limit { out' := out' + [t[2]]; }
  }

  /** What decoding gives: nothing for a length that is no multiple of four; bytes; or it reads
      outside its memory, before an empty text or, for a character that counts as negative,
      before the table of digits. */
  datatype Decoding = Malformed | Strayed | Decoded(bytes: seq<byte>)

  predicate Ascii(text: seq<byte>) { forall i :: 0 <= i < |text| ==> text[i] < 128 }

  function Reading(text: seq<byte>): Decoding {
    if |text| % 4 != 0 then Malformed
    else if text == [] || !Ascii(text) then Strayed
    else Decoded(Triples(text)[..Length(text)])
  }

  /** The buffer is as long as the padding says; the last group may not fit whole. */
  method Decode(text: seq<byte>) returns (decoded: Decoding)
    ensures decoded == Reading(text)
  {
    hide Sextet, Triple, Triples, Cut, Length, Ascii;
    if |text| % 4 != 0 { return Malformed; }
    if text == [] { return Strayed; }
    var outputLength := OutputLength(text);
    var out: seq<byte> := [];
    var i := 0;
    ghost var done: seq<byte> := [];
    NothingCut(outputLength);
    AsciiPart([], [], text);
    assert text[0..] == text && [] + Triples(text) == Triples(text);
    while i < |text|
      invariant i <= |text| && i % 4 == 0 && done + Triples(text[i..]) == Triples(text) && out == Cut(done, outputLength)
      invariant Ascii(text[..i])
    {
      NextQuarter(i, |text|);
      GroupAt(text, i, done);
      if !Ascii(text[i..i + 4]) { return Strayed; }
      out := PutTriple(out, outputLength, Triple(text[i..i + 4]), done);
      done := done + Triple(text[i..i + 4]);
      i := i + 4;
    }
    TriplesStep(text[i..]);
    assert done + [] == done && text[..i] == text;
    CutAll(done, outputLength);
    decoded := Decoded(out);
  }

  lemma {:induction false} NextQuarter(i: nat, n: nat)
    requires i < n && i % 4 == 0 && n % 4 == 0
    ensures i + 4 <= n && (i + 4) % 4 == 0 && (n - i) % 4 == 0
  {}

  /** The group at `i`, after which `done` has been decoded. */
  lemma {:induction false} GroupAt(text: seq<byte>, i: nat, done: seq<byte>)
    requires i + 4 <= |text| && (|text| - i) % 4 == 0 && (|text| - i - 4) % 4 == 0 && |text| % 4 == 0
    requires done + Triples(text[i..]) == Triples(text) && Ascii(text[..i])
    ensures var g := text[i..i + 4];
            && (done + Triple(g)) + Triples(text[i + 4..]) == Triples(text)
            && (Ascii(g) ==> Ascii(text[..i + 4])) && (!Ascii(g) ==> !Ascii(text))
  {
    hide Triple, Triples, Ascii;
    var rest, g := text[i..], text[i..i + 4];
    TriplesStep(rest);
    assert rest[..4] == g && rest[4..] == text[i + 4..] && text[..i + 4] == text[..i] + g && text == text[..i] + g + rest[4..];
    AsciiPart(text[..i], g, rest[4..]);
    Room(done, Triple(g), Triples(rest[4..]), Triples(text));
  }

  lemma {:induction false} AsciiPart(a: seq<byte>, b: seq<byte>, c: seq<byte>)
    ensures Ascii([]) && (Ascii(a) && Ascii(b) ==> Ascii(a + b)) && (Ascii(a + b + c) ==> Ascii(b))
  {
    assert forall i :: 0 <= i < |b| ==> (a + b + c)[|a| + i] == b[i];
  }

  /** Three bytes for every four letters, less one for each padding byte. */
  method OutputLength(text: seq<byte>) returns (n: nat)
    requires text != [] && |text| % 4 == 0
    ensures n == Length(text) && n <= |text| / 4 * 3
  {
    n := |text| / 4 * 3;
    if text[|text| - 1] == PAD { n := n - 1; }
    if text[|text| - 2] == PAD { n := n - 1; }
  }

  lemma {:induction false} NothingCut(n: nat)
    ensures Cut([], n) == []
  {}

  lemma {:induction false} CutAll(s: seq<byte>, n: nat)
    requires n <= |s|
    ensures Cut(s, n) == s[..n]
  {}

  lemma {:induction false} TriplesStep(text: seq<byte>)
    requires |text| % 4 == 0
    ensures text == [] ==> Triples(text) == []
    ensures text != [] ==> Triples(text) == Triple(text[..4]) + Triples(text[4..])
  {}

  // ----- round trip -----

  lemma {:induction false} GroupBack(a: byte, b: byte, c: byte)
    ensures Triple(Group(a, b, c)) == [a, b, c]
  {
    hide Letter, Sextet;
    LetterBack(a / 4);
    LetterBack(a % 4 * 16 + b / 16);
    LetterBack(b % 16 * 4 + c / 64);
    LetterBack(c % 64);
  }

  /** Padding reads as zero, which is what the missing bytes were taken to be. */
  lemma {:induction false} OneByteBack(a: byte)
    ensures Triple(Group(a, 0, 0)[..2] + [PAD, PAD]) == [a, 0, 0]
  {
    hide Letter, Sextet;
    LetterBack(a / 4);
    LetterBack(a % 4 * 16);
    PadIsZero();
  }

  lemma {:induction false} TwoBytesBack(a: byte, b: byte)
    ensures Triple(Group(a, b, 0)[..3] + [PAD]) == [a, b, 0]
  {
    hide Letter, Sextet;
    LetterBack(a / 4);
    LetterBack(a % 4 * 16 + b / 16);
    LetterBack(b % 16 * 4);
    PadIsZero();
  }

  lemma PadIsZero()
    ensures Sextet(PAD) == 0
  {}

  lemma {:induction false} TriplesBack(data: seq<byte>)
    ensures Triples(Encoded(data)) == data + seq(Padding(|data|), _ => 0)
    decreases |data|
  {
    hide Group, Triple, Triples, Encoded, Letter, Padding, Letters;
    EncodedStep(data);
    FewPadding();
    if data == [] {
      TriplesStep([]);
    } else if |data| < 3 {
      SmallBack(data);
    } else {
      LettersWhole(|data|);
      LettersWhole(|data| - 3);
      PaddingAlike(|data|);
      TriplesStep(Encoded(data));
      var g := Group(data[0], data[1], data[2]);
      GroupBack(data[0], data[1], data[2]);
      assert Encoded(data)[..4] == g && Encoded(data)[4..] == Encoded(data[3..]);
      TriplesBack(data[3..]);
    }
  }

  lemma {:induction false} LettersWhole(n: nat)
    ensures Letters(n) % 4 == 0
  {}

  lemma {:induction false} SmallBack(data: seq<byte>)
    requires |data| == 1 || |data| == 2
    ensures |Encoded(data)| == 4 && Triples(Encoded(data)) == data + seq(3 - |data|, _ => 0)
  {
    hide Group, Triple, Triples, Encoded, Letter;
    EncodedStep(data);
    TriplesStep(Encoded(data));
    OneByteBack(data[0]);
    TwoBytesBack(data[0], At(data, 1));
    assert Encoded(data)[..4] == Encoded(data) && Encoded(data)[4..] == [];
    TriplesStep([]);
  }

  lemma {:induction false} LengthBack(data: seq<byte>)
    requires data != []
    ensures Encoded(data) != [] && Length(Encoded(data)) == |data|
    decreases |data|
  {
    hide Group, Letter, Encoded;
    if |data| > 3 {
      LengthBack(data[3..]);
      EndsAlike(data);
    } else {
      LastLength(data);
    }
  }

  lemma {:induction false} LastLength(data: seq<byte>)
    requires 1 <= |data| <= 3
    ensures |Encoded(data)| == 4 && Length(Encoded(data)) == |data|
  {
    hide Group, Letter, Encoded;
    EncodedStep(data);
    if |data| == 3 {
      assert data[3..] == [];
      EncodedStep([]);
      NoPadding(data[0], data[1], data[2]);
    } else {
      NoPadding(data[0], At(data, 1), 0);
    }
  }

  lemma {:induction false} NoPadding(a: byte, b: byte, c: byte)
    ensures forall i :: 0 <= i < 4 ==> Group(a, b, c)[i] != PAD
  {}

  lemma {:induction false} EndsAlike(data: seq<byte>)
    requires |data| > 3
    ensures var s, t := Encoded(data), Encoded(data[3..]); |s| == |t| + 4 && |t| >= 4 && s[|s| - 1] == t[|t| - 1] && s[|s| - 2] == t[|t| - 2]
  {
    hide Group;
  }

  /** Decoding what was encoded gives it back, unless it was empty; the text has four letters
      for every group of three bytes begun, and two, one or no padding bytes by the length
      modulo three. */
  lemma {:induction false} RoundTrip(data: seq<byte>)
    ensures Reading(Encoded(data)) == if data == [] then Strayed else Decoded(data)
    ensures |Encoded(data)| == 4 * ((|data| + 2) / 3) && Ascii(Encoded(data))
    ensures var n, p := |Encoded(data)|, Padding(|data|); forall i :: 0 <= i < n ==> (Encoded(data)[i] == PAD <==> i >= n - p)
  {
    hide Triples, Length, Encoded;
    EncodedStep(data);
    AllAscii(data);
    TriplesBack(data);
    if data != [] { LengthBack(data); }
    PadsAtEnd(data);
  }

  lemma {:induction false} AllAscii(data: seq<byte>)
    ensures forall i :: 0 <= i < |Encoded(data)| ==> Encoded(data)[i] < 128
    decreases |data|
  {
    hide Letter;
    if |data| > 2 { AllAscii(data[3..]); }
  }

  lemma {:induction false} PadsAtEnd(data: seq<byte>)
    ensures var n, p := |Encoded(data)|, Padding(|data|);
            forall i :: 0 <= i < n ==> (Encoded(data)[i] == PAD <==> i >= n - p)
    decreases |data|
  {
    hide Group, Encoded, Padding, Letters;
    EncodedStep(data);
    FewPadding();
    if data != [] { NoPadding(data[0], At(data, 1), At(data, 2)); }
    if |data| > 2 {
      PadsAtEnd(data[3..]);
      PaddingFits(data[3..]);
      PaddingAlike(|data|);
      PadsShift(Group(data[0], data[1], data[2]), Encoded(data[3..]), Padding(|data|));
    }
  }

  lemma {:induction false} FewPadding()
    ensures Padding(0) == 0 && Padding(1) == 2 && Padding(2) == 1
  {}

  lemma {:induction false} PaddingAlike(n: nat)
    requires n >= 3
    ensures Padding(n - 3) == Padding(n) && Letters(n) == Letters(n - 3) + 4
  {}

  lemma {:induction false} PadsShift(g: seq<byte>, t: seq<byte>, p: nat)
    requires |g| == 4 && p <= |t| && (forall i :: 0 <= i < 4 ==> g[i] != PAD)
    requires forall i :: 0 <= i < |t| ==> (t[i] == PAD <==> i >= |t| - p)
    ensures forall i :: 0 <= i < 4 + |t| ==> ((g + t)[i] == PAD <==> i >= 4 + |t| - p)
  {
    forall i | 0 <= i < 4 + |t| ensures (g + t)[i] == if i < 4 then g[i] else t[i - 4] {}
  }

  lemma {:induction false} PaddingFits(data: seq<byte>)
    ensures Padding(|data|) <= |Encoded(data)|
  {}

  lemma {:induction false} UnpaddedStep(data: seq<byte>)
    ensures data == [] ==> Unpadded(data) == []
    ensures data != [] ==> Unpadded(data) == Group(data[0], At(data, 1), At(data, 2)) + Unpadded(data[if |data| < 3 then |data| else 3..])
  {}

  lemma TopLetter(a: nat, b: nat, c: nat)
    requires a < 256 && b < 256 && c < 256
    ensures (a * 65536 + b * 256 + c) / 262144 == a / 4
  {
    Divided(a * 65536 + b * 256 + c, 262144, a / 4, a % 4 * 65536 + b * 256 + c);
  }

  lemma SecondLetter(a: nat, b: nat, c: nat)
    requires a < 256 && b < 256 && c < 256
    ensures (a * 65536 + b * 256 + c) / 4096 % 64 == a % 4 * 16 + b / 16
  {
    Divided(a * 65536 + b * 256 + c, 4096, a * 16 + b / 16, b % 16 * 256 + c);
    Divided(a * 16 + b / 16, 64, a / 4, a % 4 * 16 + b / 16);
  }

  lemma ThirdLetter(a: nat, b: nat, c: nat)
    requires a < 256 && b < 256 && c < 256
    ensures (a * 65536 + b * 256 + c) / 64 % 64 == b % 16 * 4 + c / 64
  {
    Divided(a * 65536 + b * 256 + c, 64, a * 1024 + b * 4 + c / 64, c % 64);
    Divided(a * 1024 + b * 4 + c / 64, 64, a * 16 + b / 16, b % 16 * 4 + c / 64);
  }

  lemma LastLetter(a: nat, b: nat, c: nat)
    requires c < 256
    ensures (a * 65536 + b * 256 + c) % 64 == c % 64
  {
    Divided(a * 65536 + b * 256 + c, 64, a * 1024 + b * 4 + c / 64, c % 64);
  }

  lemma TripleSplits(a: byte, b: byte, c: byte)
    ensures var t := a as int * 65536 + b as int * 256 + c as int;
            Group(a, b, c) == [Letter(t / 262144 % 64), Letter(t / 4096 % 64), Letter(t / 64 % 64), Letter(t % 64)]
  {
    hide Letter;
    TopLetter(a, b, c);
    SecondLetter(a, b, c);
    ThirdLetter(a, b, c);
    LastLetter(a, b, c);
  }
}
