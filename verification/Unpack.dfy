/** `struct.unpack` on integer codes, and the round trip with `pack`. */
module Unpack {
  import opened Basics
  import opened Pack

  // ----- reading integers -----

  /** The value of bytes, least significant first. */
  function FromLow(bs: seq<byte>): nat {
    if bs == [] then 0 else bs[0] as int + 256 * FromLow(bs[1..])
  }

  function ReverseInt16(x: nat): nat {
    x % 256 * 256 + x / 256 % 256
  }

  function ReverseInt32(x: nat): nat {
    x % 256 * 16777216 + x / 256 % 256 * 65536 + x / 65536 % 256 * 256 + x / 16777216 % 256
  }

  /** The two halves change places and are each reversed. */
  function ReverseInt64(x: nat): nat {
    ReverseInt32(x / 4294967296) + 4294967296 * ReverseInt32(x % 4294967296)
  }

  predicate Integral(code: char) { Width(code) > 0 && !Floating(code) }

  /** Whether the value read can be negative; 64 bits always end up in a long. */
  predicate Signed(code: char) { code in {'c', 's', 'i', 'l', 'q', 'Q', 'J', 'P'} }

  /** 256 to the power of `n`. */
  function Power(n: nat): (p: nat)
    ensures p > 0
  {
    if n == 0 then 1 else 256 * Power(n - 1)
  }

  function ToSigned(x: nat, n: nat): int {
    if 2 * x >= Power(n) then x - Power(n) else x
  }

  /** One integer, from as many bytes as its code takes, on a little-endian machine. */
  function ReadInt(code: char, bs: seq<byte>): int
    requires Integral(code) && |bs| == Width(code)
  {
    var low := FromLow(bs);
    var x := if code == 'n' then ReverseInt16(low) else if code == 'N' then ReverseInt32(low) else if code == 'J' then ReverseInt64(low) else low;
    if Signed(code) then ToSigned(x, |bs|) else x
  }

  /** All the integers that fit into the input. */
  function ReadInts(code: char, input: seq<byte>): (vs: seq<int>)
    requires Integral(code)
  {
    var w := Width(code);
    if |input| < w then [] else [ReadInt(code, input[..w])] + ReadInts(code, input[w..])
  }

  /** Unpacks with the repeat count `*`: one integer after another until the input runs out. It
      gives up where the position could no longer be counted in an int. */
  method UnpackInts(code: char, input: seq<byte>) returns (vs: Option<seq<int>>)
    requires Integral(code)
    ensures var all, w := ReadInts(code, input), Width(code);
            vs == if w * |all| > INT_MAX - w + 1 then None else Some(all)
  {
    hide ReadInt, Width;
    var size, inputpos := Width(code), 0;
    var found: seq<int> := [];
    assert input[0..] == input && [] + ReadInts(code, input) == ReadInts(code, input);
    while true
      invariant inputpos <= |input| && inputpos == size * |found|
      invariant found + ReadInts(code, input[inputpos..]) == ReadInts(code, input)
      decreases |input| - inputpos
    {
      if INT_MAX - size + 1 < inputpos {
        TimesAtLeast(|found|, |ReadInts(code, input)|, size);
        return None;
      }
      if inputpos + size > |input| { break; }
      ghost var rest := input[inputpos..];
      assert rest[..size] == input[inputpos..inputpos + size] && rest[size..] == input[inputpos + size..];
      assert size * (|found| + 1) == size * |found| + size;
      found := found + [ReadInt(code, input[inputpos..inputpos + size])];
      inputpos := inputpos + size;
    }
    assert found + [] == found;
    vs := Some(found);
  }

  lemma TimesAtLeast(k: nat, n: nat, w: nat)
    ensures k <= n ==> w * k <= w * n
  {}

  // ----- round trip -----

  /** The integers a code can carry. */
  predicate InRange(code: char, x: int)
    requires Integral(code)
  {
    if Signed(code) then 0 - Power(Width(code)) <= 2 * x < Power(Width(code)) else 0 <= x < Power(Width(code))
  }

  /** The ranges in numbers. */
  lemma {:induction false} RangeIs(code: char, x: int)
    requires Integral(code)
    ensures InRange(code, x) <==>
            (code == 'c' && -128 <= x < 128) || (code == 'C' && 0 <= x < 256)
            || (code == 's' && -32768 <= x < 32768) || (code in {'S', 'n', 'v'} && 0 <= x < 65536)
            || (code in {'i', 'l'} && -2147483648 <= x < 2147483648) || (code in {'I', 'L', 'N', 'V'} && 0 <= x < 4294967296)
            || (code in {'q', 'Q', 'J', 'P'} && -9223372036854775808 <= x < 9223372036854775808)
  {
    hide Power;
    PowerValues();
  }

  lemma {:induction false} LowBytesBack(x: int, n: nat)
    ensures FromLow(LowBytes(x, n)) == x % Power(n)
    decreases n
  {
    if n > 0 {
      LowBytesBack(x / 256, n - 1);
      assert LowBytes(x, n)[1..] == LowBytes(x / 256, n - 1);
      LowByteOff(x, Power(n - 1));
    }
  }

  lemma {:induction false} LowByteOff(x: int, p: nat)
    requires p > 0
    ensures x % (256 * p) == x % 256 + 256 * (x / 256 % p)
  {
    var y := x / 256;
    var q, r := y / p, y % p;
    assert y == q * p + r;
    assert 256 * (q * p) == q * (256 * p);
    Divided(x, 256 * p, q, x % 256 + 256 * r);
  }

  lemma {:induction false} FromLowStep(b: byte, bs: seq<byte>)
    ensures FromLow([b] + bs) == b as int + 256 * FromLow(bs)
  {
    assert ([b] + bs)[1..] == bs;
  }

  lemma {:induction false} Bytes2(bs: seq<byte>)
    requires |bs| == 2
    ensures FromLow(bs) == bs[0] as int + 256 * (bs[1] as int)
  {
    hide FromLow;
    assert bs == [bs[0]] + ([bs[1]] + []);
    FromLowStep(bs[0], [bs[1]] + []);
    FromLowStep(bs[1], []);
    NoBytes();
  }

  lemma {:induction false} NoBytes()
    ensures FromLow([]) == 0
  {}

  lemma {:induction false} Bytes4(bs: seq<byte>)
    requires |bs| == 4
    ensures FromLow(bs) == bs[0] as int + 256 * (bs[1] as int + 256 * (bs[2] as int + 256 * (bs[3] as int)))
  {
    hide FromLow;
    assert bs == [bs[0]] + ([bs[1]] + bs[2..]);
    FromLowStep(bs[0], [bs[1]] + bs[2..]);
    FromLowStep(bs[1], bs[2..]);
    Bytes2(bs[2..]);
  }

  lemma {:induction false} FromLowAppend(a: seq<byte>, b: seq<byte>)
    ensures FromLow(a + b) == FromLow(a) + Power(|a|) * FromLow(b)
  {
    if a == [] {
      assert a + b == b;
    } else {
      FromLowAppend(a[1..], b);
      FromLowStep(a[0], a[1..] + b);
      assert a + b == [a[0]] + (a[1..] + b);
      assert 256 * (Power(|a| - 1) * FromLow(b)) == Power(|a|) * FromLow(b);
    }
  }

  lemma {:induction false} Bytes8(bs: seq<byte>)
    requires |bs| == 8
    ensures FromLow(bs) == FromLow(bs[..4]) + 4294967296 * FromLow(bs[4..])
  {
    hide FromLow, Power;
    PowerValues();
    FromLowAppend(bs[..4], bs[4..]);
    assert bs == bs[..4] + bs[4..];
  }

  /** Reversing the bytes of an integer is reading them the other way round. */
  lemma {:induction false} Reverse2(bs: seq<byte>)
    requires |bs| == 2
    ensures ReverseInt16(FromLow(Backwards(bs))) == FromLow(bs)
  {
    hide FromLow;
    var r := Backwards(bs);
    Bytes2(bs);
    Bytes2(r);
    Split(r[0] as int, r[1] as int);
    Split(r[1] as int, 0);
    assert ReverseInt16(FromLow(r)) == r[0] as int * 256 + r[1] as int;
  }

  lemma Split(b: int, y: nat)
    requires 0 <= b < 256
    ensures (b + 256 * y) % 256 == b && (b + 256 * y) / 256 == y
  {}

  lemma Shifts(x: nat)
    ensures x / 65536 == x / 256 / 256 && x / 16777216 == x / 256 / 256 / 256
  {}

  lemma {:induction false} Reverse4(bs: seq<byte>)
    requires |bs| == 4
    ensures ReverseInt32(FromLow(Backwards(bs))) == FromLow(bs)
  {
    hide FromLow;
    var r := Backwards(bs);
    Bytes4(bs);
    Bytes4(r);
    var d, c, b, a := r[0] as int, r[1] as int, r[2] as int, r[3] as int;
    var x := FromLow(r);
    Shifts(x);
    Split(d, c + 256 * (b + 256 * a));
    Split(c, b + 256 * a);
    Split(b, a);
    Split(a, 0);
    assert ReverseInt32(x) == d * 16777216 + c * 65536 + b * 256 + a;
  }

  lemma {:induction false} Reverse8(bs: seq<byte>)
    requires |bs| == 8
    ensures ReverseInt64(FromLow(Backwards(bs))) == FromLow(bs)
  {
    hide FromLow, ReverseInt32;
    var r, lo, hi := Backwards(bs), bs[..4], bs[4..];
    Bytes8(bs);
    Bytes8(r);
    assert r[..4] == Backwards(hi) && r[4..] == Backwards(lo);
    Reverse4(lo);
    Reverse4(hi);
    Small4(Backwards(hi));
    var x := FromLow(r);
    assert x % 4294967296 == FromLow(Backwards(hi)) && x / 4294967296 == FromLow(Backwards(lo));
  }

  lemma {:induction false} Small4(bs: seq<byte>)
    requires |bs| == 4
    ensures FromLow(bs) < 4294967296
  {
    Bytes4(bs);
  }

  lemma PowerValues()
    ensures Power(1) == 256 && Power(2) == 65536 && Power(4) == 4294967296 && Power(8) == 18446744073709551616
  {
    assert Power(3) == 16777216 && Power(5) == 1099511627776 && Power(6) == 281474976710656 && Power(7) == 72057594037927936;
  }

  /** One integer, packed and read back: the integer in the range of the code that has the same
      low bytes, and so the integer itself exactly if it is in range. */
  lemma {:induction false} ValueRoundTrip(code: char, a: Arg)
    requires Integral(code) && |a.single| == 4 && |a.double| == 8
    ensures var x, y, p := a.num, ReadInt(code, ValueField(code, a)), Power(Width(code));
            InRange(code, y) && y % p == x % p && (y == x <==> InRange(code, x))
  {
    hide FromLow, LowBytes, Backwards, ReverseInt16, ReverseInt32, ReverseInt64, Power;
    var x, w := a.num, Width(code);
    var low := LowBytes(x, w);
    LowBytesBack(x, w);
    if code == 'n' { Reverse2(low); }
    if code == 'N' { Reverse4(low); }
    if code == 'J' { Reverse8(low); }
    var u, p := x % Power(w), Power(w);
    var y := ReadInt(code, ValueField(code, a));
    assert y == if Signed(code) then ToSigned(u, w) else u;
    Representative(x, p, y);
  }

  lemma {:induction false} Representative(x: int, p: nat, y: int)
    requires p > 0 && (y == x % p || (y == x % p - p && 2 * (x % p) >= p))
    ensures y % p == x % p
    ensures 0 <= x < p ==> x % p == x
    ensures x < 0 <= x + p ==> x % p == x + p
  {
    var q, r := x / p, x % p;
    assert x == q * p + r;
    if y == r { Divided(y, p, 0, r); } else { Divided(y, p, -1, r); }
    if 0 <= x < p { Divided(x, p, 0, x); }
    if x < 0 <= x + p { Divided(x, p, -1, x + p); }
  }

  function Nums(args: seq<Arg>): (xs: seq<int>)
    ensures |xs| == |args|
  {
    seq(|args|, i requires 0 <= i < |args| => args[i].num)
  }

  ghost predicate AllInRange(code: char, args: seq<Arg>)
    requires Integral(code)
  {
    forall i :: 0 <= i < |args| ==> InRange(code, args[i].num)
  }

  /** What is read back of packed integers. */
  function Seen(code: char, args: seq<Arg>): (xs: seq<int>)
    requires Integral(code) && forall i :: 0 <= i < |args| ==> |args[i].single| == 4 && |args[i].double| == 8
    ensures |xs| == |args|
  {
    seq(|args|, i requires 0 <= i < |args| => ReadInt(code, ValueField(code, args[i])))
  }

  lemma {:induction false} SeenIff(code: char, args: seq<Arg>)
    requires Integral(code) && Proper(args)
    ensures Seen(code, args) == Nums(args) <==> AllInRange(code, args)
  {
    hide ReadInt, ValueField, InRange, Power, Width;
    forall i | 0 <= i < |args| ensures Seen(code, args)[i] == Nums(args)[i] <==> InRange(code, args[i].num) {
      ValueRoundTrip(code, args[i]);
    }
  }

  lemma {:induction false} ReadsBack(code: char, args: seq<Arg>, rest: seq<byte>)
    requires Integral(code) && Proper(args)
    ensures ReadInts(code, ValueFields(code, args) + rest) == Seen(code, args) + ReadInts(code, rest)
    decreases |args|
  {
    hide ReadInt, ValueField, Width, InRange, ReadInts, ValueFields;
    FieldsStep(code, args);
    if args == [] {
      assert ValueFields(code, args) + rest == rest;
    } else {
      var front, a := args[..|args| - 1], args[|args| - 1];
      var last := ValueField(code, a);
      ReadsBack(code, front, last + rest);
      assert ValueFields(code, args) + rest == ValueFields(code, front) + (last + rest);
      ReadStep(code, last, rest);
      assert Seen(code, args) == Seen(code, front) + [ReadInt(code, last)];
    }
  }

  lemma {:induction false} FieldsStep(code: char, args: seq<Arg>)
    requires Integral(code) && Proper(args)
    ensures args == [] ==> ValueFields(code, args) == []
    ensures args != [] ==> ValueFields(code, args) == ValueFields(code, args[..|args| - 1]) + ValueField(code, args[|args| - 1])
  {}

  lemma {:induction false} ReadStep(code: char, bs: seq<byte>, rest: seq<byte>)
    requires Integral(code) && |bs| == Width(code)
    ensures ReadInts(code, bs + rest) == [ReadInt(code, bs)] + ReadInts(code, rest)
  {
    hide ReadInt, Width;
    assert (bs + rest)[..|bs|] == bs && (bs + rest)[|bs|..] == rest;
  }

  /** What packing with a code and `*` produces. */
  lemma {:induction false} PacksAll(code: char, args: seq<Arg>)
    requires Integral(code) && Proper(args)
    ensures var ds := [Directive(code, |args|)];
            && Directives([code, '*'], 0, args, 0) == Some(ds) && Enough(ds, args)
            && Sizes(ds) == (if |args| * Width(code) <= INT_MAX then Some((|args| * Width(code), |args| * Width(code))) else None)
            && var o := WriteAll(ds, args); o.buf[..o.pos] == ValueFields(code, args)
  {
    hide Directives, Enough, Sizes, WriteAll, ValueFields;
    var d := Directive(code, |args|);
    ReadsStar(code, args);
    OneEnough(d, args);
    OneDirective(d, args);
    assert args[0..0 + |args|] == args;
    assert Field(d, args, 0) == ValueFields(code, args);
  }

  lemma {:induction false} ReadsStar(code: char, args: seq<Arg>)
    requires Integral(code) && Proper(args)
    ensures Directives([code, '*'], 0, args, 0) == Some([Directive(code, |args|)])
  {
    var format, d := [code, '*'], Directive(code, |args|);
    assert Repeat(format, 1) == (-1, 2);
    assert Settle(code, -1, args, 0) == Some(d);
    assert Directives(format, 2, args, |args|) == Some([]) && Takes(d) == |args| && [d] + [] == [d];
    assert format[0] == code;
  }

  lemma {:induction false} OneEnough(d: Directive, args: seq<Arg>)
    requires Integral(d.code) && Proper(args) && d.arg == |args|
    ensures Enough([d], args)
  {
    var ds := [d];
    assert ds[..0] == [] && ds[..1] == ds && Taken([]) == 0 && Taken(ds) == |args|;
  }

  lemma {:induction false} OneDirective(d: Directive, args: seq<Arg>)
    requires 0 <= d.arg <= INT_MAX && Integral(d.code) && Enough([d], args)
    ensures var n := d.arg * Width(d.code); Sizes([d]) == if n <= INT_MAX then Some((n, n)) else None
    ensures Takes(d) <= |args| && var o := WriteAll([d], args); o.buf[..o.pos] == Field(d, args, 0)
  {
    hide Field;
    var ds := [d];
    assert ds[..0] == [];
    EnoughFront(ds, args);
    assert Sizes([]) == Some((0, 0));
    Divides(INT_MAX, Width(d.code), d.arg);
    assert WriteAll([], args) == Out([], 0, 0);
    var f := Field(d, args, 0);
    assert Overlay([], 0, f) == f;
  }

  /** Packing integers with any integer code and unpacking the result: whatever `pack` does not
      refuse is read back in full, and it is the list exactly if every integer is in range. */
  method ThereAndBack(code: char, args: seq<Arg>) returns (back: Option<seq<int>>)
    requires Integral(code) && Proper(args)
    ensures back == if |args| * Width(code) < INT_MAX then Some(Seen(code, args)) else None
    ensures back == Some(Nums(args)) <==> |args| * Width(code) < INT_MAX && AllInRange(code, args)
  {
    hide Width, Sizes, WriteAll, Directives, InRange, Enough, ValueFields, ReadInts, Power, Seen, AllInRange;
    PacksAll(code, args);
    SeenIff(code, args);
    var packed := Pack.Pack([code, '*'], args);
    if !packed.Packed? { return None; }
    FitsSize(|args|, code);
    ReadsBack(code, args, []);
    assert ValueFields(code, args) + [] == ValueFields(code, args) && Seen(code, args) + [] == Seen(code, args);
    NothingRead(code);
    back := UnpackInts(code, packed.bytes);
  }

  /** Where `unpack` gives up, `pack` has refused before: 2^31 is a multiple of every width. */
  lemma {:induction false} FitsSize(n: nat, code: char)
    requires Integral(code) && n * Width(code) < INT_MAX
    ensures Width(code) * n <= INT_MAX - Width(code) + 1
  {}

  lemma {:induction false} NothingRead(code: char)
    requires Integral(code)
    ensures ReadInts(code, []) == []
  {}
}
