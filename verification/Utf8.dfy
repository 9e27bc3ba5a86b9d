/** UTF-8 text as in section 3 of RFC 3629: encoding and decoding single characters, and
    counting and slicing by characters. */
module Utf8 {
  import opened Basics

  /** A character other than zero, which ends a text. */
  type Scalar = x: int | 0 < x <= 0x10FFFF witness 1

  function NumberBytes(value: int): int {
    if value < 0 then -1
    else if value <= 0x7F then 1
    else if value <= 0x7FF then 2
    else if value <= 0xFFFF then 3
    else if value <= 0x10FFFF then 4
    else 0
  }

  predicate Continues(b: byte) { 0x80 <= b < 0xC0 }

  /** The encoding of a character: a first byte that tells the length, then six bits a byte. */
  function Encoding(c: int): (bs: seq<byte>)
    requires 0 <= c <= 0x10FFFF
    ensures |bs| == NumberBytes(c) && !Continues(bs[0]) && forall i :: 0 < i < |bs| ==> Continues(bs[i])
    ensures c != 0 ==> forall i :: 0 <= i < |bs| ==> bs[i] != 0
  {
    if c <= 0x7F then [c]
    else if c <= 0x7FF then [0xC0 + c / 64, 0x80 + c % 64]
    else if c <= 0xFFFF then [0xE0 + c / 4096, 0x80 + c / 64 % 64, 0x80 + c % 64]
    else [0xF0 + c / 262144, 0x80 + c / 4096 % 64, 0x80 + c / 64 % 64, 0x80 + c % 64]
  }

  /** Fills in the continuation bytes from the last, shifting the character down six bits each
      time; what is left goes into the first byte. */
  method Encode(code: nat) returns (chars: seq<byte>)
    ensures chars == if code <= 0x10FFFF then Encoding(code) else []
  {
    var count := NumberBytes(code);
    if count <= 0 { return []; }
    chars := seq(count, _ => 0);
    var rest := code;
    if code <= 0x7F {
      chars := chars[0 := code % 128];
    } else if code <= 0x7FF {
      chars := chars[1 := 0x80 + rest % 64];
      rest := rest / 64;
      chars := chars[0 := 0xC0 + rest % 32];
    } else if code <= 0xFFFF {
      chars := chars[2 := 0x80 + rest % 64];
      rest := rest / 64;
      chars := chars[1 := 0x80 + rest % 64];
      rest := rest / 64;
      chars := chars[0 := 0xE0 + rest % 16];
      assert rest == code / 4096;
    } else {
      chars := chars[3 := 0x80 + rest % 64];
      rest := rest / 64;
      chars := chars[2 := 0x80 + rest % 64];
      rest := rest / 64;
      assert rest == code / 4096;
      chars := chars[1 := 0x80 + rest % 64];
      rest := rest / 64;
      assert rest == code / 262144;
      chars := chars[0 := 0xF0 + rest % 8];
    }
  }

  /** How many bytes should follow a first byte above 0x7F, and the bits it carries itself. */
  function Follow(b: byte): nat {
    if 0xC0 <= b < 0xE0 then 1 else if 0xE0 <= b < 0xF0 then 2 else if 0xF0 <= b < 0xF8 then 3 else 0
  }

  function Lead(b: byte): nat {
    if 0xC0 <= b < 0xE0 then b - 0xC0 else if 0xE0 <= b < 0xF0 then b - 0xE0 else if 0xF0 <= b < 0xF8 then b - 0xF0 else 0
  }

  /** `v` extended by six bits from each byte, or -1 if one of them is no continuation. */
  function Extend(v: nat, bs: seq<byte>): int
    decreases |bs|
  {
    if bs == [] then v
    else if !Continues(bs[0]) then -1
    else Extend(v * 64 + (bs[0] as int - 0x80), bs[1..])
  }

  /** The character at the start of `bytes`, or -1 if there is none. */
  function Decoded(bytes: seq<byte>): int
    requires bytes != []
  {
    var b := bytes[0];
    if b <= 0x7F then b
    else if Follow(b) == 0 || Follow(b) > |bytes| - 1 then -1
    else Extend(Lead(b), bytes[1..1 + Follow(b)])
  }

  method Decode(bytes: seq<byte>) returns (value: int)
    requires bytes != []
    ensures value == Decoded(bytes)
  {
    var b := bytes[0];
    if b <= 0x7F { return b; }
    var remaining := 0;
    if 0xC0 <= b < 0xE0 {
      value, remaining := b - 0xC0, 1;
    } else if 0xE0 <= b < 0xF0 {
      value, remaining := b - 0xE0, 2;
    } else if 0xF0 <= b < 0xF8 {
      value, remaining := b - 0xF0, 3;
    } else {
      return -1;
    }
    if remaining > |bytes| - 1 { return -1; }
    var i, end := 1, 1 + remaining;
    while i < end
      invariant 1 <= i <= end && value >= 0 && Decoded(bytes) == Extend(value, bytes[i..end])
    {
      ghost var rest := bytes[i..end];
      assert rest[0] == bytes[i] && rest[1..] == bytes[i + 1..end];
      if !Continues(bytes[i]) { return -1; }
      value := value * 64 + (bytes[i] as int - 0x80);
      i := i + 1;
    }
  }

  lemma {:induction false} Extend1(v: nat, a: int)
    requires 0 <= a < 64
    ensures Extend(v, [0x80 + a]) == v * 64 + a
  {
    assert [0x80 + a][1..] == [];
  }

  lemma {:induction false} ExtendMore(v: nat, a: int, bs: seq<byte>)
    requires 0 <= a < 64
    ensures Extend(v, [0x80 + a] + bs) == Extend(v * 64 + a, bs)
  {
    assert ([0x80 + a] + bs)[1..] == bs;
  }

  /** Decoding gives back the character that was encoded, whatever follows it. */
  lemma {:induction false} DecodesBack(c: int, rest: seq<byte>)
    requires 0 <= c <= 0x10FFFF
    ensures Decoded(Encoding(c) + rest) == c
  {
    hide Extend;
    var s := Encoding(c) + rest;
    if c <= 0x7F {
    } else if c <= 0x7FF {
      assert s[1..2] == [0x80 + c % 64];
      Extend1(c / 64, c % 64);
    } else if c <= 0xFFFF {
      assert s[1..3] == [0x80 + c / 64 % 64] + [0x80 + c % 64];
      ExtendMore(c / 4096, c / 64 % 64, [0x80 + c % 64]);
      Extend1(c / 4096 * 64 + c / 64 % 64, c % 64);
      assert c / 4096 == c / 64 / 64;
    } else {
      assert s[1..4] == [0x80 + c / 4096 % 64] + ([0x80 + c / 64 % 64] + [0x80 + c % 64]);
      ExtendMore(c / 262144, c / 4096 % 64, [0x80 + c / 64 % 64] + [0x80 + c % 64]);
      ExtendMore(c / 262144 * 64 + c / 4096 % 64, c / 64 % 64, [0x80 + c % 64]);
      assert c / 262144 == c / 4096 / 64 && c / 4096 == c / 64 / 64;
      Extend1(c / 4096 * 64 + c / 64 % 64, c % 64);
    }
  }

  // ----- texts -----

  /** The encodings of characters one after another. */
  function Text(cs: seq<Scalar>): (s: seq<byte>)
    ensures forall i :: 0 <= i < |s| ==> s[i] != 0
  {
    if cs == [] then [] else Text(cs[..|cs| - 1]) + Encoding(cs[|cs| - 1])
  }

  /** How many characters begin in `s`. */
  function Starts(s: seq<byte>): (n: nat)
    ensures n <= |s|
  {
    if s == [] then 0 else Starts(s[..|s| - 1]) + if Continues(s[|s| - 1]) then 0 else 1
  }

  /** Counts the bytes that begin a character. */
  method Length(s: seq<byte>) returns (len: nat)
    ensures len == Starts(s)
  {
    len := 0;
    for i := 0 to |s|
      invariant len == Starts(s[..i])
    {
      assert s[..i + 1][..i] == s[..i];
      if !Continues(s[i]) { len := len + 1; }
    }
    assert s[..|s|] == s;
  }

  /** Where the character number `pos` begins, or -1. */
  method Index(s: seq<byte>, pos: nat) returns (at: int)
    ensures -1 <= at < |s|
    ensures at >= 0 ==> Starts(s[..at]) == pos && !Continues(s[at])
    ensures at < 0 ==> Starts(s) <= pos
  {
    var left := pos + 1;
    for i := 0 to |s|
      invariant left == pos + 1 - Starts(s[..i]) && left > 0
    {
      assert s[..i + 1][..i] == s[..i];
      if !Continues(s[i]) { left := left - 1; }
      if left == 0 { return i; }
    }
    assert s[..|s|] == s;
    at := -1;
  }

  /** Turns character positions into byte offsets. */
  method Slice(s: seq<byte>, start: nat, end: nat) returns (from: int, to: int)
    ensures if start < Starts(s) then 0 <= from < |s| && Starts(s[..from]) == start && !Continues(s[from]) else from == -1
    ensures if end < Starts(s) then 0 <= to < |s| && Starts(s[..to]) == end && !Continues(s[to]) else to == |s|
  {
    from := Index(s, start);
    var p := Index(s, end);
    if from >= 0 { StartsBelow(s, from); }
    if p >= 0 { StartsBelow(s, p); }
    to := if p >= 0 then p else |s|;
  }

  lemma {:induction false} StartsBelow(s: seq<byte>, i: nat)
    requires i < |s| && !Continues(s[i])
    ensures Starts(s[..i]) < Starts(s)
    decreases |s|
  {
    var n := |s| - 1;
    if i == n { assert s[..n] == s[..i]; } else { assert s[..n][..i] == s[..i]; StartsBelow(s[..n], i); }
  }

  lemma {:induction false} StartsAppend(a: seq<byte>, b: seq<byte>)
    ensures Starts(a + b) == Starts(a) + Starts(b)
    decreases |b|
  {
    if b == [] {
      assert a + b == a;
    } else {
      assert (a + b)[..|a + b| - 1] == a + b[..|b| - 1];
      StartsAppend(a, b[..|b| - 1]);
    }
  }

  lemma {:induction false} StartsOne(bs: seq<byte>)
    requires bs != [] && !Continues(bs[0]) && forall i :: 0 < i < |bs| ==> Continues(bs[i])
    ensures Starts(bs) == 1
    decreases |bs|
  {
    if |bs| > 1 { StartsOne(bs[..|bs| - 1]); } else { assert bs[..0] == []; }
  }

  /** A text has as many characters as it was made of. */
  lemma {:induction false} TextLength(cs: seq<Scalar>)
    ensures Starts(Text(cs)) == |cs|
  {
    hide Encoding, Starts;
    if cs == [] {
      NoStarts();
    } else {
      TextLength(cs[..|cs| - 1]);
      StartsAppend(Text(cs[..|cs| - 1]), Encoding(cs[|cs| - 1]));
      StartsOne(Encoding(cs[|cs| - 1]));
    }
  }

  lemma {:induction false} NoStarts()
    ensures Starts([]) == 0
  {}

  lemma {:induction false} TextAppend(a: seq<Scalar>, b: seq<Scalar>)
    ensures Text(a + b) == Text(a) + Text(b)
    decreases |b|
  {
    hide Encoding;
    if b == [] {
      assert a + b == a && Text(a) + [] == Text(a);
    } else {
      assert (a + b)[..|a + b| - 1] == a + b[..|b| - 1];
      TextAppend(a, b[..|b| - 1]);
      assert Text(a) + (Text(b[..|b| - 1]) + Encoding(b[|b| - 1])) == Text(a) + Text(b[..|b| - 1]) + Encoding(b[|b| - 1]);
    }
  }

  lemma {:induction false} StartsAtMost(s: seq<byte>, i: nat, j: nat)
    requires i <= j <= |s|
    ensures Starts(s[..i]) <= Starts(s[..j])
  {
    assert s[..j] == s[..i] + s[i..j];
    StartsAppend(s[..i], s[i..j]);
  }

  lemma {:induction false} Later(s: seq<byte>, i: nat, j: nat)
    requires i < |s| && j <= |s|
    ensures i < j && !Continues(s[i]) ==> Starts(s[..i]) < Starts(s[..j])
  {
    if i < j {
      StartsAtMost(s, i + 1, j);
      assert s[..i + 1][..i] == s[..i];
    }
  }

  /** There is only one place where character number `i` begins. */
  lemma {:induction false} OnlyPlace(s: seq<byte>, i: nat, j: nat)
    requires i < |s| && j < |s| && !Continues(s[i]) && !Continues(s[j]) && Starts(s[..i]) == Starts(s[..j])
    ensures i == j
  {
    hide Starts;
    Later(s, i, j);
    Later(s, j, i);
  }

  /** Slicing one character out of a text gives its encoding, and decoding that gives the
      character. */
  method CharacterAt(cs: seq<Scalar>, i: nat) returns (from: int, to: int, value: int)
    requires i < |cs|
    ensures 0 <= from < to <= |Text(cs)| && from == |Text(cs[..i])| && to == |Text(cs[..i + 1])|
    ensures Text(cs)[from..to] == Encoding(cs[i]) && value == cs[i]
  {
    hide Encoding, Starts, Decoded;
    var s := Text(cs);
    TextLength(cs);
    from, to := Slice(s, i, i + 1);
    Placed(cs, i);
    OnlyPlace(s, from, |Text(cs[..i])|);
    if i + 1 < |cs| {
      Placed(cs, i + 1);
      OnlyPlace(s, to, |Text(cs[..i + 1])|);
    } else {
      assert cs[..i + 1] == cs;
    }
    OneCharacter(cs, i);
    DecodesBack(cs[i], []);
    assert Encoding(cs[i]) + [] == Encoding(cs[i]);
    value := Decode(s[from..to]);
  }

  /** Where character `i` of a text begins. */
  lemma {:induction false} Placed(cs: seq<Scalar>, i: nat)
    requires i < |cs|
    ensures var at, s := |Text(cs[..i])|, Text(cs); at < |s| && Starts(s[..at]) == i && !Continues(s[at])
  {
    hide Starts, Text;
    var at, s := |Text(cs[..i])|, Text(cs);
    TextLength(cs[..i]);
    OneCharacter(cs, i);
    TextAppend(cs[..i], cs[i..]);
    assert cs == cs[..i] + cs[i..];
    assert s[..at] == Text(cs[..i]);
  }

  lemma {:induction false} OneCharacter(cs: seq<Scalar>, i: nat)
    requires i < |cs|
    ensures var from, to, s := |Text(cs[..i])|, |Text(cs[..i + 1])|, Text(cs);
            from < to <= |s| && s[from..to] == Encoding(cs[i]) && s[from] == Encoding(cs[i])[0]
  {
    hide Encoding;
    var a, b := cs[..i + 1], cs[i + 1..];
    assert cs == a + b && a[..i] == cs[..i] && a[i] == cs[i];
    TextAppend(a, b);
    assert Text(cs)[|Text(cs[..i])|..|Text(a)|] == Text(a)[|Text(cs[..i])|..];
  }
}
