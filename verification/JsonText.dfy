/** JSON texts by the grammar of RFC 8259, and what the reader makes of them. */
module JsonText {
  import opened Basics
  import opened Json
  import U = Utf8

  // ----- strings -----

  const LOWER: seq<byte> := [48, 49, 50, 51, 52, 53, 54, 55, 56, 57, 97, 98, 99, 100, 101, 102]
  const UPPER: seq<byte> := [48, 49, 50, 51, 52, 53, 54, 55, 56, 57, 65, 66, 67, 68, 69, 70]

  /** What the two-character escapes of section 7 stand for: quote, backslash and slash for
      themselves, and b, f, n, r, t for backspace, form feed, line feed, carriage return, tab. */
  const ESCAPES: map<byte, byte> := map[34 := 34, 92 := 92, 47 := 47, 98 := 8, 102 := 12, 110 := 10, 114 := 13, 116 := 9]

  /** A character of a string as it is written: a byte that stands for itself, a two-character
      escape, a `\u` escape, or two of them for a character beyond the first 65536. */
  datatype Piece = Raw(b: byte) | Escaped(letter: byte) | Point(u: nat, upper: bool) | Pairs(u: nat, upper: bool)

  /** The grammar allows no control characters unescaped; the reader takes all but zero. */
  predicate Legal(p: Piece) {
    match p
    case Raw(b) => b != 0 && b != 34 && b != 92
    case Escaped(letter) => letter in ESCAPES
    case Point(u, _) => u < 0xD800 || 0xE000 <= u < 0x10000
    case Pairs(u, _) => 0x10000 <= u <= 0x10FFFF
  }

  function FourDigits(u: nat, upper: bool): (t: seq<byte>)
    requires u < 0x10000
    ensures |t| == 4
  {
    var d := if upper then UPPER else LOWER;
    [d[u / 4096], d[u / 256 % 16], d[u / 16 % 16], d[u % 16]]
  }

  function High(u: nat): (h: nat)
    requires 0x10000 <= u <= 0x10FFFF
    ensures 0xD800 <= h < 0xDC00
  {
    0xD800 + (u - 0x10000) / 1024
  }

  function Low(u: nat): (l: nat)
    requires 0x10000 <= u <= 0x10FFFF
    ensures 0xDC00 <= l < 0xE000
  {
    0xDC00 + (u - 0x10000) % 1024
  }

  function PieceText(p: Piece): (t: seq<byte>)
    requires Legal(p)
    ensures |t| > 0
  {
    match p
    case Raw(b) => [b]
    case Escaped(letter) => [92, letter]
    case Point(u, upper) => [92, 117] + FourDigits(u, upper)
    case Pairs(u, upper) => [92, 117] + FourDigits(High(u), upper) + [92, 117] + FourDigits(Low(u), upper)
  }

  /** What the grammar means by it. */
  function Means(p: Piece): (w: seq<byte>)
    requires Legal(p)
  {
    match p
    case Raw(b) => [b]
    case Escaped(letter) => [ESCAPES[letter]]
    case Point(u, _) => U.Encoding(u)
    case Pairs(u, _) => U.Encoding(u)
  }

  /** What the reader takes it for: in every other plane it drops a bit of a surrogate pair and
      gets the character 65536 places before. */
  function Taken(p: Piece): (w: seq<byte>)
    requires Legal(p)
  {
    if p.Pairs? && p.u / 65536 % 2 == 0 then U.Encoding(p.u - 65536) else Means(p)
  }

  predicate AllLegal(ps: seq<Piece>) { forall i :: 0 <= i < |ps| ==> Legal(ps[i]) }

  function StringText(ps: seq<Piece>): seq<byte>
    requires AllLegal(ps)
  {
    if ps == [] then [] else PieceText(ps[0]) + StringText(ps[1..])
  }

  function StringMeans(ps: seq<Piece>): seq<byte>
    requires AllLegal(ps)
  {
    if ps == [] then [] else Means(ps[0]) + StringMeans(ps[1..])
  }

  function StringTaken(ps: seq<Piece>): seq<byte>
    requires AllLegal(ps)
  {
    if ps == [] then [] else Taken(ps[0]) + StringTaken(ps[1..])
  }

  /** No surrogate pairs of even planes. */
  predicate Faithful(ps: seq<Piece>) { forall i :: 0 <= i < |ps| ==> !(ps[i].Pairs? && ps[i].u / 65536 % 2 == 0) }

  /** Such strings, and no others, are taken as they are meant. */
  lemma {:induction false} TakenAsMeant(ps: seq<Piece>)
    requires AllLegal(ps)
    ensures StringTaken(ps) == StringMeans(ps) <==> Faithful(ps)
  {
    hide Taken, Means;
    if ps != [] {
      var a, b, x, y := Taken(ps[0]), Means(ps[0]), StringTaken(ps[1..]), StringMeans(ps[1..]);
      TakenAsMeant(ps[1..]);
      TakenOtherwise(ps[0]);
      SameLength(ps[0]);
      assert (a + x)[..|a|] == a && (a + x)[|a|..] == x && (b + y)[..|b|] == b && (b + y)[|b|..] == y;
      assert Faithful(ps) <==> !(ps[0].Pairs? && ps[0].u / 65536 % 2 == 0) && Faithful(ps[1..]) by { FaithfulStep(ps); }
    }
  }

  lemma {:induction false} FaithfulStep(ps: seq<Piece>)
    requires ps != []
    ensures Faithful(ps) <==> !(ps[0].Pairs? && ps[0].u / 65536 % 2 == 0) && Faithful(ps[1..])
  {
    if Faithful(ps[1..]) {
      forall i | 0 < i < |ps| ensures !(ps[i].Pairs? && ps[i].u / 65536 % 2 == 0) { assert ps[1..][i - 1] == ps[i]; }
    }
  }

  lemma {:induction false} SameLength(p: Piece)
    requires Legal(p)
    ensures |Taken(p)| == |Means(p)|
  {}

  /** One piece: only a pair of an even plane is taken for something else. */
  lemma {:induction false} TakenOtherwise(p: Piece)
    requires Legal(p)
    ensures Taken(p) == Means(p) <==> !(p.Pairs? && p.u / 65536 % 2 == 0)
  {
    if p.Pairs? && p.u / 65536 % 2 == 0 {
      U.DecodesBack(p.u, []);
      U.DecodesBack(p.u - 65536, []);
      assert U.Encoding(p.u) + [] == U.Encoding(p.u) && U.Encoding(p.u - 65536) + [] == U.Encoding(p.u - 65536);
    }
  }

  /** U+20000, written as a surrogate pair, is taken for U+10000. */
  lemma {:induction false} WrongPlane()
    ensures var p := Pairs(0x20000, false); Legal(p) && Taken(p) == U.Encoding(0x10000) != Means(p)
  {
    TakenOtherwise(Pairs(0x20000, false));
  }

  /** How to write any bytes at all. */
  function Quote(w: seq<byte>): (ps: seq<Piece>)
    ensures |ps| == |w| && AllLegal(ps) && Faithful(ps)
  {
    if w == [] then [] else
      var b := w[0];
      [if b == 34 || b == 92 then Escaped(b)
       else if b == 8 then Escaped(98)
       else if b == 12 then Escaped(102)
       else if b == 10 then Escaped(110)
       else if b == 13 then Escaped(114)
       else if b == 9 then Escaped(116)
       else if b < 32 then Point(b, false)
       else Raw(b)] + Quote(w[1..])
  }

  lemma {:induction false} QuoteMeans(w: seq<byte>)
    ensures StringTaken(Quote(w)) == w
  {
    if w != [] {
      QuoteMeans(w[1..]);
      assert Quote(w)[1..] == Quote(w[1..]);
      assert Taken(Quote(w)[0]) == [w[0]];
    }
  }

  // ----- reading a string -----

  predicate Sits(s: seq<byte>, p: nat, t: seq<byte>) { p + |t| <= |s| && s[p..p + |t|] == t }

  lemma {:induction false} SitsSplit(s: seq<byte>, p: nat, a: seq<byte>, b: seq<byte>)
    requires Sits(s, p, a + b)
    ensures Sits(s, p, a) && Sits(s, p + |a|, b)
  {
    assert s[p..p + |a|] == s[p..p + |a + b|][..|a|];
    assert s[p + |a|..p + |a| + |b|] == s[p..p + |a + b|][|a|..];
  }

  lemma {:induction false} SitsAt(s: seq<byte>, p: nat, t: seq<byte>, i: nat)
    requires Sits(s, p, t) && i < |t|
    ensures p + i < |s| && s[p + i] == t[i]
  {
    assert s[p..p + |t|][i] == t[i];
  }

  lemma {:induction false} HexDigit(v: nat, upper: bool)
    requires v < 16
    ensures Hex((if upper then UPPER else LOWER)[v]) == v
  {}

  lemma {:induction false} ReadsFour(s: seq<byte>, p: nat, u: nat, upper: bool)
    requires u < 0x10000 && Sits(s, p, FourDigits(u, upper))
    ensures p + 4 <= |s| && Hex4(s, p) == u
  {
    hide Hex;
    var t := FourDigits(u, upper);
    SitsAt(s, p, t, 0);
    SitsAt(s, p, t, 1);
    SitsAt(s, p, t, 2);
    SitsAt(s, p, t, 3);
    HexDigit(u / 4096, upper);
    HexDigit(u / 256 % 16, upper);
    HexDigit(u / 16 % 16, upper);
    HexDigit(u % 16, upper);
    Nibbles(u);
  }

  lemma {:induction false} Nibbles(u: nat)
    requires u < 0x10000
    ensures u / 4096 < 16 && u == u / 4096 * 4096 + u / 256 % 16 * 256 + u / 16 % 16 * 16 + u % 16
  {
    var a, b := u / 16, u / 256;
    assert b == a / 16 && u / 4096 == b / 16;
  }

  lemma {:induction false} SameEncoding(u: nat)
    requires u <= 0x10FFFF
    ensures Json.Utf8(u) == U.Encoding(u)
  {}

  lemma {:induction false} PairIs(u: nat)
    requires 0x10000 <= u <= 0x10FFFF
    ensures Pair(High(u), Low(u)) == if u / 65536 % 2 == 0 then u - 65536 else u
  {
    var v := u - 0x10000;
    var x, y := v / 1024, v % 1024;
    assert High(u) % 1024 == x && Low(u) % 1024 == y;
    assert v / 65536 == x / 64 && u / 65536 == v / 65536 + 1;
  }

  lemma {:induction false} UnicodeOne(s: seq<byte>, p: nat, u: nat)
    requires p + 4 < |s| && Hex4(s, p + 1) == u && u / 2048 != 27
    ensures Unicode(s, p) == Some((p + 5, Json.Utf8(u)))
  {
    hide Hex4, Json.Utf8;
  }

  lemma {:induction false} UnicodeTwo(s: seq<byte>, p: nat, u: nat, v: nat)
    requires p + 10 < |s| && Hex4(s, p + 1) == u && u / 2048 == 27 && s[p + 5] == 92 && s[p + 6] == 117 && Hex4(s, p + 7) == v
    ensures Unicode(s, p) == Some((p + 11, Json.Utf8(Pair(u, v))))
  {
    hide Hex4, Json.Utf8, Pair;
  }

  lemma {:induction false} Surrogates(u: nat)
    ensures u < 0xD800 || 0xE000 <= u < 0x10000 ==> u / 2048 != 27
    ensures 0xD800 <= u < 0xDC00 ==> u / 2048 == 27
  {}

  lemma {:induction false} TakenPoint(p: Piece)
    requires Legal(p)
    ensures p.Point? ==> Taken(p) == Json.Utf8(p.u) && PieceText(p) == [92, 117] + FourDigits(p.u, p.upper) && |PieceText(p)| == 6
  {
    hide FourDigits, Json.Utf8, U.Encoding;
    if p.Point? { SameEncoding(p.u); }
  }

  lemma {:induction false} TakenPairs(p: Piece)
    requires Legal(p) && p.Pairs?
    ensures Taken(p) == Json.Utf8(Pair(High(p.u), Low(p.u)))
  {
    hide Json.Utf8, U.Encoding, High, Low, Pair;
    PairIs(p.u);
    SameEncoding(Pair(High(p.u), Low(p.u)));
  }

  /** A `\u` escape whose `u` is at `p`. */
  lemma {:induction false} ReadsPoint(s: seq<byte>, p: nat, piece: Piece)
    requires Legal(piece) && piece.Point? && p > 0 && Sits(s, p - 1, PieceText(piece))
    ensures p < |s| && s[p] == 117 && Unicode(s, p) == Some((p - 1 + |PieceText(piece)|, Taken(piece)))
  {
    hide Hex4, FourDigits, Json.Utf8, Taken, PieceText, Unicode;
    TakenPoint(piece);
    SitsSplit(s, p - 1, [92, 117], FourDigits(piece.u, piece.upper));
    SitsAt(s, p - 1, [92, 117], 1);
    ReadsFour(s, p + 1, piece.u, piece.upper);
    Surrogates(piece.u);
    UnicodeOne(s, p, piece.u);
  }

  /** Two of them. */
  lemma {:induction false} ReadsPairs(s: seq<byte>, p: nat, piece: Piece)
    requires Legal(piece) && piece.Pairs? && p > 0 && Sits(s, p - 1, PieceText(piece))
    ensures p < |s| && s[p] == 117 && Unicode(s, p) == Some((p - 1 + |PieceText(piece)|, Taken(piece)))
  {
    hide Hex4, FourDigits, Json.Utf8, Taken, Unicode, High, Low, Pair, PieceText, Sits;
    PairsText(piece);
    PairsSit(s, p, FourDigits(High(piece.u), piece.upper), FourDigits(Low(piece.u), piece.upper));
    ReadsFour(s, p + 1, High(piece.u), piece.upper);
    ReadsFour(s, p + 7, Low(piece.u), piece.upper);
    Surrogates(High(piece.u));
    UnicodeTwo(s, p, High(piece.u), Low(piece.u));
    TakenPairs(piece);
  }

  lemma {:induction false} PairsText(piece: Piece)
    requires Legal(piece) && piece.Pairs?
    ensures PieceText(piece) == [92, 117] + (FourDigits(High(piece.u), piece.upper) + ([92, 117] + FourDigits(Low(piece.u), piece.upper)))
    ensures |PieceText(piece)| == 12
  {
    hide FourDigits, High, Low;
  }

  lemma {:induction false} PairsSit(s: seq<byte>, p: nat, high: seq<byte>, low: seq<byte>)
    requires |high| == |low| == 4 && p > 0 && Sits(s, p - 1, [92, 117] + (high + ([92, 117] + low)))
    ensures p + 10 < |s| && s[p] == 117 && s[p + 5] == 92 && s[p + 6] == 117 && Sits(s, p + 1, high) && Sits(s, p + 7, low)
  {
    hide Sits;
    SitsSplit(s, p - 1, [92, 117], high + ([92, 117] + low));
    SitsSplit(s, p + 1, high, [92, 117] + low);
    SitsSplit(s, p + 5, [92, 117], low);
    SitsAt(s, p - 1, [92, 117], 1);
    SitsAt(s, p + 5, [92, 117], 0);
    SitsAt(s, p + 5, [92, 117], 1);
    SitsAt(s, p + 7, low, 3);
  }

  /** The reader inside a string or a name, not in an escape. */
  ghost predicate InString(s: seq<byte>, c: Control) {
    Proper(true, s, c) && c.str && !c.escaped
  }

  lemma {:induction false} StaysInString(s: seq<byte>, c: Control, ptr: nat, escaped: bool, text: seq<byte>)
    requires InString(s, c) && ptr <= |s|
    ensures Proper(true, s, c.(ptr := ptr, escaped := escaped, text := text))
  {}

  /** Over one piece. */
  lemma {:induction false} PieceRuns(comments: bool, s: seq<byte>, c: Control, p: Piece)
    requires Legal(p) && InString(s, c) && Sits(s, c.ptr, PieceText(p)) && |c.text| <= LIMIT
    ensures var d := c.(ptr := c.ptr + |PieceText(p)|, text := c.text + Taken(p));
            InString(s, d) && Run(true, comments, s, c) == Run(true, comments, s, d)
  {
    hide Run, Proper, Taken, PieceText, Escape, Step;
    var d := c.(ptr := c.ptr + |PieceText(p)|, text := c.text + Taken(p));
    StaysInString(s, c, d.ptr, false, d.text);
    if p.Raw? {
      RawStep(comments, s, c, p, d);
      NoEvents(comments, s, c, d);
    } else {
      var e := c.(ptr := c.ptr + 1, escaped := true);
      StaysInString(s, c, c.ptr + 1, true, c.text);
      BackslashStep(comments, s, c, p);
      NoEvents(comments, s, c, e);
      EscapedPiece(s, c.ptr + 1, p);
      EscapeStep(comments, s, e, d, Taken(p));
      NoEvents(comments, s, e, d);
    }
  }

  lemma {:induction false} NoEvents(comments: bool, s: seq<byte>, c: Control, d: Control)
    requires Proper(true, s, c) && !c.line && !c.block && Proper(true, s, d) && !d.line && !d.block
    requires Step(true, comments, s, c) == More(d, [])
    ensures Run(true, comments, s, c) == Run(true, comments, s, d)
  {
    hide Step, Proper;
    RunStep(comments, s, c, d, []);
    var r := Run(true, comments, s, d);
    assert r.Some? ==> [] + r.value == r.value;
  }

  lemma {:induction false} RawStep(comments: bool, s: seq<byte>, c: Control, p: Piece, d: Control)
    requires p.Raw? && Legal(p) && InString(s, c) && Sits(s, c.ptr, PieceText(p)) && |c.text| <= LIMIT
    requires d == c.(ptr := c.ptr + |PieceText(p)|, text := c.text + Taken(p))
    ensures Step(true, comments, s, c) == More(d, [])
  {
    hide Nested, Numbered, Escape, Finish;
    SitsAt(s, c.ptr, PieceText(p), 0);
  }

  lemma {:induction false} BackslashStep(comments: bool, s: seq<byte>, c: Control, p: Piece)
    requires !p.Raw? && Legal(p) && InString(s, c) && Sits(s, c.ptr, PieceText(p)) && |c.text| <= LIMIT
    ensures Step(true, comments, s, c) == More(c.(ptr := c.ptr + 1, escaped := true), [])
  {
    hide Nested, Numbered, Escape, Finish;
    SitsAt(s, c.ptr, PieceText(p), 0);
  }

  /** What an escape gives, its backslash before `p`. */
  lemma {:induction false} EscapedPiece(s: seq<byte>, p: nat, piece: Piece)
    requires Legal(piece) && !piece.Raw? && p > 0 && Sits(s, p - 1, PieceText(piece))
    ensures p < |s| && s[p] != 0 && Escape(s, p) == Some((p - 1 + |PieceText(piece)|, Taken(piece)))
  {
    hide Unicode, Taken, PieceText;
    if piece.Escaped? { ShortEscape(s, p, piece); }
    else if piece.Point? { ReadsPoint(s, p, piece); }
    else { ReadsPairs(s, p, piece); }
  }

  lemma {:induction false} ShortEscape(s: seq<byte>, p: nat, piece: Piece)
    requires Legal(piece) && piece.Escaped? && p > 0 && Sits(s, p - 1, PieceText(piece))
    ensures p < |s| && s[p] != 0 && Escape(s, p) == Some((p + 1, Taken(piece))) && |PieceText(piece)| == 2
  {
    hide Unicode;
    SitsAt(s, p - 1, PieceText(piece), 1);
  }

  lemma {:induction false} EscapeStep(comments: bool, s: seq<byte>, e: Control, d: Control, w: seq<byte>)
    requires Proper(true, s, e) && e.str && e.escaped && |e.text| <= LIMIT && e.ptr < |s| && s[e.ptr] != 0
    requires Escape(s, e.ptr) == Some((d.ptr, w)) && d == e.(ptr := d.ptr, escaped := false, text := e.text + w)
    ensures Step(true, comments, s, e) == More(d, [])
  {
    hide Nested, Numbered, Escape, Finish;
  }

  /** Over all of a string, up to its closing quote; it is refused if it is too long. */
  lemma {:induction false} StringRuns(comments: bool, s: seq<byte>, c: Control, ps: seq<Piece>)
    requires AllLegal(ps) && InString(s, c) && Sits(s, c.ptr, StringText(ps) + [QUOTE])
    ensures var d := c.(ptr := c.ptr + |StringText(ps)|, text := c.text + StringTaken(ps));
            && InString(s, d)
            && Run(true, comments, s, c) == if |d.text| <= LIMIT then Run(true, comments, s, d) else None
    decreases |ps|
  {
    hide Run, Proper, Taken, PieceText, Step;
    var d := c.(ptr := c.ptr + |StringText(ps)|, text := c.text + StringTaken(ps));
    StaysInString(s, c, d.ptr, false, d.text);
    if |c.text| > LIMIT {
      TooLong(comments, s, c);
    } else if ps == [] {
      assert c.text + [] == c.text && d == c;
    } else {
      var p, rest := PieceText(ps[0]), StringText(ps[1..]);
      assert StringText(ps) + [QUOTE] == p + (rest + [QUOTE]);
      SitsSplit(s, c.ptr, p, rest + [QUOTE]);
      PieceRuns(comments, s, c, ps[0]);
      var e := c.(ptr := c.ptr + |p|, text := c.text + Taken(ps[0]));
      StringRuns(comments, s, e, ps[1..]);
      assert e.text + StringTaken(ps[1..]) == d.text;
    }
  }

  lemma {:induction false} TooLong(comments: bool, s: seq<byte>, c: Control)
    requires InString(s, c) && |c.text| > LIMIT
    ensures Run(true, comments, s, c) == None
  {}

  // ----- numbers -----

  /** A number by section 6: digits without leading zeros, then perhaps a fraction, then perhaps an
      exponent. */
  datatype Exponent = Exponent(letter: byte, sign: Option<byte>, digits: seq<byte>)
  datatype Literal = Literal(negative: bool, whole: seq<byte>, fraction: Option<seq<byte>>, exponent: Option<Exponent>)

  predicate Digits(ds: seq<byte>) { ds != [] && forall i :: 0 <= i < |ds| ==> IsDigit(ds[i]) }

  predicate LegalNumber(l: Literal) {
    && Digits(l.whole) && (|l.whole| > 1 ==> l.whole[0] != 48)
    && (l.fraction.Some? ==> Digits(l.fraction.value))
    && (l.exponent.Some? ==> LegalExponent(l.exponent.value))
  }

  function FractionText(f: Option<seq<byte>>): seq<byte> { if f.None? then [] else [DOT] + f.value }

  function ExponentText(x: Option<Exponent>): seq<byte> {
    if x.None? then [] else [x.value.letter] + (if x.value.sign.None? then [] else [x.value.sign.value]) + x.value.digits
  }

  function NumberText(l: Literal): seq<byte> {
    (if l.negative then [MINUS] else []) + (l.whole + (FractionText(l.fraction) + ExponentText(l.exponent)))
  }

  function Value(ds: seq<byte>): nat
    requires forall i :: 0 <= i < |ds| ==> IsDigit(ds[i])
  {
    if ds == [] then 0 else
      assert IsDigit(ds[|ds| - 1]);
      10 * Value(ds[..|ds| - 1]) + (ds[|ds| - 1] - 48)
  }

  /** A number the reader takes: once the whole part has outgrown 64 bits it is already a double,
      and a double takes no point. */
  predicate ReadableNumber(l: Literal)
    requires LegalNumber(l)
  {
    l.fraction.Some? ==> Value(l.whole) <= INT_MAX
  }

  function Ten(n: nat): nat { if n == 0 then 1 else 10 * Ten(n - 1) }

  lemma {:induction false} OneAndZeros(n: nat)
    ensures Value([49] + seq(n, _ => 48)) == Ten(n)
  {
    var ds: seq<byte> := [49] + seq(n, _ => 48);
    if n == 0 {
      assert ds[..0] == [];
    } else {
      OneAndZeros(n - 1);
      assert ds[..|ds| - 1] == [49] + seq(n - 1, _ => 48);
    }
  }

  /** Ten to the power of 19 and a half is a number, and is not taken. */
  lemma {:induction false} LongFraction()
    ensures var l := Literal(false, [49] + seq(19, _ => 48), Some([53]), None); LegalNumber(l) && !ReadableNumber(l)
  {
    OneAndZeros(19);
    assert Ten(3) == 1000 && Ten(6) == 1000000 && Ten(9) == 1000000000 && Ten(12) == 1000000000000;
    assert Ten(15) == 1000000000000000 && Ten(18) == 1000000000000000000 && Ten(19) == 10000000000000000000;
  }

  // ----- reading a number -----

  /** The value on top is complete; what follows from there. */
  ghost predicate Finishing(s: seq<byte>, e: Control) {
    && e.path != [] && e.ptr <= |s| && Nested(e.path) && Numbered(e.path, e.made)
    && !e.str && !e.seek && !e.done && !e.line && !e.block
  }

  ghost function RunFinish(comments: bool, s: seq<byte>, e: Control): Option<seq<Event>>
    requires Finishing(s, e)
  {
    FinishProper(true, s, e);
    match Finish(e)
    case More(f, ev) =>
      var r := Run(true, comments, s, f);
      if r.None? then None else Some(ev + r.value)
    case _ => None
  }

  /** A character that can follow a number in a text. */
  predicate Closes(b: byte) { b == COMMA || b == RBRACKET || b == RBRACE || b == 0 }

  /** The first pass inside the number on top, which is in state `n`. */
  ghost predicate InNumeral(s: seq<byte>, c: Control, n: Num) {
    Proper(true, s, c) && Finishing(s, c) && Top(c).kind == Number(n)
  }

  function With(c: Control, ptr: nat, n: Num): Control
    requires c.path != []
  {
    var m := |c.path| - 1;
    c.(path := c.path[m := c.path[m].(kind := Number(n))], ptr := ptr)
  }

  lemma {:induction false} WithStays(s: seq<byte>, c: Control, n: Num, ptr: nat, n': Num)
    requires InNumeral(s, c, n) && ptr <= |s|
    ensures InNumeral(s, With(c, ptr, n'), n')
  {}

  lemma {:induction false} WithPlace(c: Control, p: nat, n: Num)
    requires c.path != []
    ensures With(c, p, n).ptr == p && With(c, p, n).path != []
  {}

  lemma {:induction false} WithTwice(c: Control, p: nat, n: Num, q: nat, m: Num)
    requires c.path != []
    ensures With(c, p, n).path != [] && With(With(c, p, n), q, m) == With(c, q, m)
  {}

  /** One more character of a number. */
  lemma {:induction false} NumeralGoes(comments: bool, s: seq<byte>, c: Control, n: Num, n': Num, again: bool)
    requires InNumeral(s, c, n) && c.ptr < |s| && s[c.ptr] != SLASH && DigitTurn(s[c.ptr], n) == Goes(n', again)
    ensures var d := With(c, if again then c.ptr else c.ptr + 1, n');
            InNumeral(s, d, n') && Run(true, comments, s, c) == Run(true, comments, s, d)
  {
    hide Run, DigitTurn, Nested, Numbered;
    var d := With(c, if again then c.ptr else c.ptr + 1, n');
    WithStays(s, c, n, d.ptr, n');
    assert Step(true, comments, s, c) == More(d, []);
    NoEvents(comments, s, c, d);
  }

  /** The number ends before a character that is not part of it. */
  lemma {:induction false} NumeralEnds(comments: bool, s: seq<byte>, c: Control, n: Num)
    requires InNumeral(s, c, n) && At(s, c.ptr) != SLASH && DigitTurn(At(s, c.ptr), n) == Ends
    ensures Run(true, comments, s, c) == RunFinish(comments, s, c)
  {
    hide DigitTurn, Nested, Numbered, Finish;
    FinishProper(true, s, c);
    assert Step(true, comments, s, c) == Finish(c);
  }

  /** Digits of a double or of an exponent. */
  lemma {:induction false} FreeDigits(comments: bool, s: seq<byte>, c: Control, n: Num, ds: seq<byte>)
    requires InNumeral(s, c, n) && (n.dbl || n.e) && Sits(s, c.ptr, ds) && forall i :: 0 <= i < |ds| ==> IsDigit(ds[i])
    ensures var n' := n.(digits := n.digits + |ds|, gotSign := n.gotSign || (n.e && ds != []));
            var d := With(c, c.ptr + |ds|, n');
            InNumeral(s, d, n') && Run(true, comments, s, c) == Run(true, comments, s, d)
    decreases |ds|
  {
    hide Run, Nested, Numbered, Proper;
    if ds == [] {
      assert With(c, c.ptr, n) == c;
    } else {
      SitsAt(s, c.ptr, ds, 0);
      assert ds == [ds[0]] + ds[1..];
      SitsSplit(s, c.ptr, [ds[0]], ds[1..]);
      var n1 := n.(digits := n.digits + 1, gotSign := n.gotSign || n.e);
      NumeralGoes(comments, s, c, n, n1, false);
      var d := With(c, c.ptr + 1, n1);
      FreeDigits(comments, s, d, n1, ds[1..]);
      var n2 := n1.(digits := n1.digits + |ds[1..]|);
      WithTwice(c, c.ptr + 1, n1, d.ptr + |ds[1..]|, n2);
    }
  }

  /** The state after reading the whole part `got`, which does not begin with a zero: an
      integer, or a double if it has outgrown 64 bits. */
  ghost predicate Whole(n: Num, got: seq<byte>)
    requires forall i :: 0 <= i < |got| ==> IsDigit(got[i])
  {
    && !n.e && !n.zero && !n.gotSign && n.digits == |got|
    && (if Value(got) > INT_MAX then n.dbl else !n.dbl && n.integer == Value(got))
  }

  lemma {:induction false} ValueMore(got: seq<byte>, b: byte)
    requires IsDigit(b) && forall i :: 0 <= i < |got| ==> IsDigit(got[i])
    ensures Value(got + [b]) == 10 * Value(got) + (b - 48)
  {
    assert (got + [b])[..|got|] == got;
  }

  /** One more digit of the whole part, with the second look at it when it outgrows 64 bits. */
  lemma {:induction false} WholeDigit(comments: bool, s: seq<byte>, c: Control, n: Num, got: seq<byte>) returns (n': Num)
    requires c.ptr < |s| && IsDigit(s[c.ptr]) && (forall i :: 0 <= i < |got| ==> IsDigit(got[i]))
    requires InNumeral(s, c, n) && Whole(n, got) && (got == [] ==> s[c.ptr] != 48)
    ensures var d := With(c, c.ptr + 1, n');
            InNumeral(s, d, n') && Whole(n', got + [s[c.ptr]]) && Run(true, comments, s, c) == Run(true, comments, s, d)
  {
    hide Run, Nested, Numbered, Proper, Value;
    var b := s[c.ptr];
    ValueMore(got, b);
    if n.dbl {
      n' := n.(digits := n.digits + 1);
      NumeralGoes(comments, s, c, n, n', false);
    } else if WouldOverflow(n.integer, b) {
      var n1 := n.(dbl := true);
      NumeralGoes(comments, s, c, n, n1, true);
      n' := n1.(digits := n1.digits + 1);
      var d := With(c, c.ptr, n1);
      NumeralGoes(comments, s, d, n1, n', false);
      WithTwice(c, c.ptr, n1, c.ptr + 1, n');
    } else {
      n' := n.(digits := n.digits + 1, integer := n.integer * 10 + (b - 48));
      NumeralGoes(comments, s, c, n, n', false);
    }
  }

  lemma {:induction false} WholeDigits(comments: bool, s: seq<byte>, c: Control, n: Num, got: seq<byte>, ds: seq<byte>) returns (n': Num)
    requires (forall i :: 0 <= i < |got| ==> IsDigit(got[i])) && (forall i :: 0 <= i < |ds| ==> IsDigit(ds[i]))
    requires InNumeral(s, c, n) && Whole(n, got) && Sits(s, c.ptr, ds) && (got == [] && ds != [] ==> ds[0] != 48)
    ensures var d := With(c, c.ptr + |ds|, n');
            InNumeral(s, d, n') && Whole(n', got + ds) && Run(true, comments, s, c) == Run(true, comments, s, d)
    decreases |ds|
  {
    hide Run, Proper, Whole, InNumeral;
    n' := n;
    WithSame(s, c, n);
    if ds == [] {
      assert got + ds == got;
    } else {
      SitsAt(s, c.ptr, ds, 0);
      assert ds == [ds[0]] + ds[1..] && got + ds == (got + [ds[0]]) + ds[1..];
      SitsSplit(s, c.ptr, [ds[0]], ds[1..]);
      var n1 := WholeDigit(comments, s, c, n, got);
      var d := With(c, c.ptr + 1, n1);
      n' := WholeDigits(comments, s, d, n1, got + [ds[0]], ds[1..]);
      WithTwice(c, c.ptr + 1, n1, d.ptr + |ds[1..]|, n');
    }
  }

  lemma {:induction false} WithSame(s: seq<byte>, c: Control, n: Num)
    requires InNumeral(s, c, n)
    ensures c.path != [] && With(c, c.ptr, n) == c
  {}

  /** The state after the whole part. */
  ghost predicate AfterWhole(n: Num, whole: seq<byte>)
    requires Digits(whole)
  {
    !n.e && !n.gotSign && n.digits > 0 && (n.dbl <==> Value(whole) > INT_MAX)
  }

  lemma {:induction false} WholeRuns(comments: bool, s: seq<byte>, c: Control, whole: seq<byte>) returns (n: Num)
    requires InNumeral(s, c, NEW_NUMBER) && Digits(whole) && (|whole| > 1 ==> whole[0] != 48) && Sits(s, c.ptr, whole)
    ensures var d := With(c, c.ptr + |whole|, n);
            InNumeral(s, d, n) && AfterWhole(n, whole) && Run(true, comments, s, c) == Run(true, comments, s, d)
  {
    hide Run, Proper, Nested, Numbered;
    SitsAt(s, c.ptr, whole, 0);
    if whole[0] == 48 {
      n := NEW_NUMBER.(digits := 1, zero := true);
      NumeralGoes(comments, s, c, NEW_NUMBER, n, false);
      assert whole == [48] && whole[..0] == [];
      ValueMore([], 48);
      assert [] + [48] == whole;
    } else {
      n := WholeDigits(comments, s, c, NEW_NUMBER, [], whole);
      assert [] + whole == whole;
    }
  }

  /** The fraction, which a double does not take. */
  lemma {:induction false} FractionRuns(comments: bool, s: seq<byte>, c: Control, n: Num, whole: seq<byte>, f: Option<seq<byte>>) returns (n': Num)
    requires Digits(whole) && InNumeral(s, c, n) && AfterWhole(n, whole) && Sits(s, c.ptr, FractionText(f)) && (f.Some? ==> Digits(f.value))
    ensures var d := With(c, c.ptr + |FractionText(f)|, n');
            && InNumeral(s, d, n') && !n'.e && !n'.gotSign && n'.digits > 0
            && Run(true, comments, s, c) == if f.Some? && Value(whole) > INT_MAX then None else Run(true, comments, s, d)
  {
    hide Run, InNumeral, With, DigitTurn, Value;
    n' := n;
    WithSame(s, c, n);
    if f.Some? {
      WithStays(s, c, n, c.ptr + |FractionText(f)|, n);
      if n.dbl { NoFraction(comments, s, c, n, f.value); } else { n' := SomeFraction(comments, s, c, n, f.value); }
    }
  }

  lemma {:induction false} PointTurns(n: Num)
    requires !n.e && n.digits > 0
    ensures DigitTurn(DOT, n) == if n.dbl then Ends else Goes(n.(dbl := true, digits := 0), false)
  {}

  lemma {:induction false} NoFraction(comments: bool, s: seq<byte>, c: Control, n: Num, f: seq<byte>)
    requires InNumeral(s, c, n) && n.dbl && !n.e && n.digits > 0 && Sits(s, c.ptr, [DOT] + f)
    ensures Run(true, comments, s, c) == None
  {
    hide Run, DigitTurn, Proper, Nested, Numbered;
    SitsAt(s, c.ptr, [DOT] + f, 0);
    PointTurns(n);
    NumeralEnds(comments, s, c, n);
    PointFollows(comments, s, c);
  }

  lemma {:induction false} SomeFraction(comments: bool, s: seq<byte>, c: Control, n: Num, f: seq<byte>) returns (n': Num)
    requires InNumeral(s, c, n) && !n.dbl && !n.e && !n.gotSign && n.digits > 0 && Digits(f) && Sits(s, c.ptr, [DOT] + f)
    ensures c.path != [] && var d := With(c, c.ptr + 1 + |f|, n');
            InNumeral(s, d, n') && !n'.e && !n'.gotSign && n'.digits > 0 && Run(true, comments, s, c) == Run(true, comments, s, d)
  {
    hide Run, InNumeral, With, DigitTurn;
    WithSame(s, c, n);
    SitsSplit(s, c.ptr, [DOT], f);
    SitsAt(s, c.ptr, [DOT], 0);
    PointTurns(n);
    var n1 := n.(dbl := true, digits := 0);
    NumeralGoes(comments, s, c, n, n1, false);
    var d := With(c, c.ptr + 1, n1);
    WithPlace(c, c.ptr + 1, n1);
    FreeDigits(comments, s, d, n1, f);
    n' := n1.(digits := |f|);
    WithTwice(c, c.ptr + 1, n1, d.ptr + |f|, n');
  }

  lemma {:induction false} PointFollows(comments: bool, s: seq<byte>, c: Control)
    requires Finishing(s, c) && At(s, c.ptr) == DOT
    ensures RunFinish(comments, s, c) == None
  {
    hide Finish;
    FinishProper(true, s, c);
    var t := Finish(c);
    if t.More? { NothingFollows(comments, s, t.c); }
  }

  predicate LegalExponent(x: Exponent) {
    (x.letter == 101 || x.letter == 69) && (x.sign.Some? ==> x.sign.value == PLUS || x.sign.value == MINUS) && Digits(x.digits)
  }

  lemma {:induction false} ExponentRuns(comments: bool, s: seq<byte>, c: Control, n: Num, x: Option<Exponent>) returns (n': Num)
    requires InNumeral(s, c, n) && !n.e && !n.gotSign && n.digits > 0 && Sits(s, c.ptr, ExponentText(x)) && (x.Some? ==> LegalExponent(x.value))
    ensures var d := With(c, c.ptr + |ExponentText(x)|, n');
            InNumeral(s, d, n') && n'.digits > 0 && Run(true, comments, s, c) == Run(true, comments, s, d)
  {
    hide Run, InNumeral, With, LegalExponent;
    n' := n;
    WithSame(s, c, n);
    if x.Some? {
      assert ExponentText(x) == [x.value.letter] + (SignText(x.value) + x.value.digits);
      n' := SomeExponent(comments, s, c, n, x.value);
    }
  }

  function SignText(x: Exponent): seq<byte> { if x.sign.None? then [] else [x.sign.value] }

  lemma {:induction false} SomeExponent(comments: bool, s: seq<byte>, c: Control, n: Num, x: Exponent) returns (n': Num)
    requires InNumeral(s, c, n) && !n.e && !n.gotSign && n.digits > 0 && LegalExponent(x)
    requires Sits(s, c.ptr, [x.letter] + (SignText(x) + x.digits))
    ensures c.path != [] && var d := With(c, c.ptr + 1 + |SignText(x) + x.digits|, n');
            InNumeral(s, d, n') && n'.digits > 0 && Run(true, comments, s, c) == Run(true, comments, s, d)
  {
    hide Run, InNumeral, With, DigitTurn, SignText;
    WithSame(s, c, n);
    SitsSplit(s, c.ptr, [x.letter], SignText(x) + x.digits);
    SitsAt(s, c.ptr, [x.letter], 0);
    var n1 := n.(e := true, dbl := true, digits := 0, zero := false);
    LetterGoes(x.letter, n);
    NumeralGoes(comments, s, c, n, n1, false);
    var d := With(c, c.ptr + 1, n1);
    WithPlace(c, c.ptr + 1, n1);
    n' := SignRuns(comments, s, d, n1, x);
    WithTwice(c, c.ptr + 1, n1, d.ptr + |SignText(x) + x.digits|, n');
  }

  lemma {:induction false} LetterGoes(b: byte, n: Num)
    requires (b == 101 || b == 69) && !n.e && n.digits > 0
    ensures DigitTurn(b, n) == Goes(n.(e := true, dbl := true, digits := 0, zero := false), false)
  {}

  lemma {:induction false} SignRuns(comments: bool, s: seq<byte>, c: Control, n: Num, x: Exponent) returns (n': Num)
    requires InNumeral(s, c, n) && n.e && !n.gotSign && LegalExponent(x) && Sits(s, c.ptr, SignText(x) + x.digits)
    ensures c.path != [] && var d := With(c, c.ptr + |SignText(x) + x.digits|, n');
            InNumeral(s, d, n') && n'.digits > 0 && Run(true, comments, s, c) == Run(true, comments, s, d)
  {
    hide Run, InNumeral, With, DigitTurn;
    WithSame(s, c, n);
    if x.sign.Some? {
      SitsSplit(s, c.ptr, [x.sign.value], x.digits);
      SitsAt(s, c.ptr, [x.sign.value], 0);
      var n1 := n.(gotSign := true);
      SignGoes(x.sign.value, n);
      NumeralGoes(comments, s, c, n, n1, false);
      var d := With(c, c.ptr + 1, n1);
      WithPlace(c, c.ptr + 1, n1);
      FreeDigits(comments, s, d, n1, x.digits);
      n' := n1.(digits := n1.digits + |x.digits|);
      WithTwice(c, c.ptr + 1, n1, d.ptr + |x.digits|, n');
    } else {
      assert [] + x.digits == x.digits;
      FreeDigits(comments, s, c, n, x.digits);
      n' := n.(digits := n.digits + |x.digits|, gotSign := true);
    }
  }

  lemma {:induction false} SignGoes(b: byte, n: Num)
    requires (b == PLUS || b == MINUS) && n.e && !n.gotSign
    ensures DigitTurn(b, n) == Goes(n.(gotSign := true), false)
  {}

  /** All of a number after its sign: it is complete before the character that follows. */
  lemma {:induction false} NumeralRuns(comments: bool, s: seq<byte>, c: Control, l: Literal) returns (n: Num)
    requires LegalNumber(l) && InNumeral(s, c, NEW_NUMBER)
    requires var t := l.whole + (FractionText(l.fraction) + ExponentText(l.exponent)); Sits(s, c.ptr, t) && Closes(At(s, c.ptr + |t|))
    ensures var t := l.whole + (FractionText(l.fraction) + ExponentText(l.exponent));
            var d := With(c, c.ptr + |t|, n);
            && Finishing(s, d)
            && Run(true, comments, s, c) == if ReadableNumber(l) then RunFinish(comments, s, d) else None
  {
    hide Run, InNumeral, With, DigitTurn, Value, RunFinish, FractionText, ExponentText, LegalExponent, Sits, Closes, Finishing;
    var f, x := FractionText(l.fraction), ExponentText(l.exponent);
    SitsSplit(s, c.ptr, l.whole, f + x);
    SitsSplit(s, c.ptr + |l.whole|, f, x);
    WithSame(s, c, NEW_NUMBER);
    var n1 := WholeRuns(comments, s, c, l.whole);
    var d1 := With(c, c.ptr + |l.whole|, n1);
    WithPlace(c, c.ptr + |l.whole|, n1);
    var n2 := FractionRuns(comments, s, d1, n1, l.whole, l.fraction);
    var d2 := With(d1, d1.ptr + |f|, n2);
    WithPlace(d1, d1.ptr + |f|, n2);
    n := ExponentRuns(comments, s, d2, n2, l.exponent);
    var d3 := With(d2, d2.ptr + |x|, n);
    WithTwice(d1, d1.ptr + |f|, n2, d2.ptr + |x|, n);
    WithTwice(c, c.ptr + |l.whole|, n1, d2.ptr + |x|, n);
    WithPlace(d2, d2.ptr + |x|, n);
    ClosesEnds(At(s, d3.ptr), n);
    NumeralMeans(s, d3, n);
    NumeralEnds(comments, s, d3, n);
  }

  lemma {:induction false} ClosesEnds(b: byte, n: Num)
    requires Closes(b) && n.digits > 0
    ensures b != SLASH && DigitTurn(b, n) == Ends
  {}

  lemma {:induction false} NumeralMeans(s: seq<byte>, c: Control, n: Num)
    requires InNumeral(s, c, n)
    ensures Finishing(s, c)
  {}
}
