/** What `struct.pack` means, in plain terms: which directives a format stands for, what each does to
    the bytes so far, and the layout of every code. */
module PackLayout {
  import opened Basics
  import opened Pack

  // ----- the layout of values -----

  /** The codes that take an argument for each repetition. */
  const NUMERIC: set<char> := {'c', 'C', 's', 'S', 'n', 'v', 'i', 'I', 'l', 'L', 'N', 'V', 'q', 'Q', 'J', 'P', 'f', 'g', 'G', 'd', 'e', 'E'}

  predicate Two(b: seq<int>, x: int) { |b| == 2 && b[0] + 256 * b[1] == x % 65536 }

  predicate Four(b: seq<int>, x: int) {
    |b| == 4 && b[0] + 256 * b[1] + 65536 * b[2] + 16777216 * b[3] == x % 4294967296
  }

  predicate Eight(b: seq<int>, x: int) {
    |b| == 8
    && b[0] + 256 * b[1] + 65536 * b[2] + 16777216 * b[3] + 4294967296 * b[4] + 1099511627776 * b[5]
       + 281474976710656 * b[6] + 72057594037927936 * b[7] == x % 18446744073709551616
  }

  /** The bytes of one value: integers in two's complement, `s`, `S`, `v`, `i`, `I`, `l`, `L`, `V`, `q`, `Q`, `P` least
      significant byte first and `n`, `N`, `J` most significant first; floats and doubles as they are in
      memory, `G` and `E` the other way round. */
  ghost predicate LaidOut(code: char, a: Arg, b: seq<byte>) {
    match code
    case 'c' => b == [a.num % 256]
    case 'C' => b == [a.num % 256]
    case 's' => Two(b, a.num)
    case 'S' => Two(b, a.num)
    case 'v' => Two(b, a.num)
    case 'n' => |b| == 2 && Two([b[1], b[0]], a.num)
    case 'i' => Four(b, a.num)
    case 'I' => Four(b, a.num)
    case 'l' => Four(b, a.num)
    case 'L' => Four(b, a.num)
    case 'V' => Four(b, a.num)
    case 'N' => |b| == 4 && Four([b[3], b[2], b[1], b[0]], a.num)
    case 'q' => Eight(b, a.num)
    case 'Q' => Eight(b, a.num)
    case 'P' => Eight(b, a.num)
    case 'J' => |b| == 8 && Eight([b[7], b[6], b[5], b[4], b[3], b[2], b[1], b[0]], a.num)
    case 'f' => b == a.single
    case 'g' => b == a.single
    case 'G' => |a.single| == 4 && b == [a.single[3], a.single[2], a.single[1], a.single[0]]
    case 'd' => b == a.double
    case 'e' => b == a.double
    case 'E' => |b| == |a.double| == 8 && forall i :: 0 <= i < 8 ==> b[i] == a.double[7 - i]
    case _ => false
  }

  lemma {:induction false} LowTwo(x: int)
    ensures var b := LowBytes(x, 2); b == [x % 256, x / 256 % 256] && Two(b, x)
  {
    var b := LowBytes(x, 2);
    assert LowBytes(x / 256 / 256, 0) == [] && LowBytes(x / 256, 1) == [x / 256 % 256];
    Shifted(x, 256);
  }

  /** The low byte and the rest of a remainder. */
  lemma {:induction false} Shifted(x: int, p: nat)
    requires p > 0
    ensures x % (256 * p) == x % 256 + 256 * (x / 256 % p)
  {
    var y := x / 256;
    var q, r := y / p, y % p;
    assert y == q * p + r;
    assert 256 * (q * p) == q * (256 * p);
    Divided(x, 256 * p, q, x % 256 + 256 * r);
  }

  lemma {:induction false} LowSplit(x: int, n: nat)
    requires n > 0
    ensures LowBytes(x, n) == [x % 256] + LowBytes(x / 256, n - 1)
  {}

  lemma {:induction false} LowFour(x: int)
    ensures Four(LowBytes(x, 4), x)
  {
    hide LowBytes;
    LowSplit(x, 4);
    LowSplit(x / 256, 3);
    var y := x / 256 / 256;
    LowTwo(y);
    Shifted(x / 256, 65536);
    Shifted(x, 16777216);
  }

  lemma {:induction false} LowEight(x: int)
    ensures Eight(LowBytes(x, 8), x)
  {
    hide LowBytes;
    var x1 := x / 256;
    var x2 := x1 / 256;
    var x3 := x2 / 256;
    var x4 := x3 / 256;
    LowSplit(x, 8);
    LowSplit(x1, 7);
    LowSplit(x2, 6);
    LowSplit(x3, 5);
    LowFour(x4);
    Shifted(x3, 4294967296);
    Shifted(x2, 1099511627776);
    Shifted(x1, 281474976710656);
    Shifted(x, 72057594037927936);
  }

  /** Every code lays out its values as it should, and no other code takes values. */
  lemma {:induction false} ValueLaid(code: char, a: Arg)
    requires |a.single| == 4 && |a.double| == 8
    ensures Width(code) > 0 <==> code in NUMERIC
    ensures code in NUMERIC ==> LaidOut(code, a, ValueField(code, a))
  {
    hide LowBytes, Two, Four, Eight;
    var x := a.num;
    LowOne(x);
    LowTwo(x);
    LowFour(x);
    LowEight(x);
    if code in {'n', 'N', 'J'} { BackTwice(LowBytes(x, Width(code))); }
  }

  lemma {:induction false} LowOne(x: int)
    ensures LowBytes(x, 1) == [x % 256]
  {
    assert LowBytes(x / 256, 0) == [];
  }

  lemma {:induction false} BackTwice(b: seq<byte>)
    ensures |b| == 2 ==> var r := Backwards(b); [r[1], r[0]] == b
    ensures |b| == 4 ==> var r := Backwards(b); [r[3], r[2], r[1], r[0]] == b
    ensures |b| == 8 ==> var r := Backwards(b); [r[7], r[6], r[5], r[4], r[3], r[2], r[1], r[0]] == b
  {}

  function Flatten(fields: seq<seq<byte>>): seq<byte> {
    if fields == [] then [] else Flatten(fields[..|fields| - 1]) + fields[|fields| - 1]
  }

  /** Several values of one code are laid out one after the other. */
  lemma {:induction false} ValuesLaid(code: char, args: seq<Arg>) returns (fields: seq<seq<byte>>)
    requires code in NUMERIC && Proper(args)
    ensures Width(code) > 0 && |fields| == |args| && ValueFields(code, args) == Flatten(fields)
    ensures forall i :: 0 <= i < |args| ==> LaidOut(code, args[i], fields[i])
    decreases |args|
  {
    hide LaidOut, ValueField;
    fields := [];
    assert Width(code) > 0;
    if args != [] {
      var n := |args| - 1;
      var front := ValuesLaid(code, args[..n]);
      ValueLaid(code, args[n]);
      fields := front + [ValueField(code, args[n])];
      assert fields[..n] == front;
      forall i | 0 <= i < |args| ensures LaidOut(code, args[i], fields[i]) {
        if i < n { assert LaidOut(code, args[..n][i], front[i]); }
      }
    }
  }

  // ----- the layout of texts -----

  /** Text in a field of `n` bytes: `a` is filled up with zeros, `A` with spaces, and `Z` with at least one
      zero. */
  lemma {:induction false} TextLaid(code: char, text: seq<byte>, n: nat)
    requires code == 'a' || code == 'A' || code == 'Z'
    ensures var f := TextField(code, text, n);
            && |f| == n
            && (code == 'a' ==> forall i :: 0 <= i < n ==> f[i] == if i < |text| then text[i] else 0)
            && (code == 'A' ==> forall i :: 0 <= i < n ==> f[i] == if i < |text| then text[i] else 32)
            && (code == 'Z' ==> forall i :: 0 <= i < n ==> f[i] == if i < |text| && i < n - 1 then text[i] else 0)
  {}

  const LOWER: string := "0123456789abcdef"
  const UPPER: string := "0123456789ABCDEF"

  /** The value of a hexadecimal digit, zero for anything else. */
  lemma {:induction false} NibbleIs(b: byte)
    ensures forall v :: 0 <= v < 16 && (LOWER[v] as int == b || UPPER[v] as int == b) ==> Nibble(b) == v
    ensures (forall v :: 0 <= v < 16 ==> LOWER[v] as int != b && UPPER[v] as int != b) ==> Nibble(b) == 0
  {
    assert LOWER[0] == '0' && LOWER[9] == '9' && LOWER[10] == 'a' && LOWER[15] == 'f' && UPPER[10] == 'A' && UPPER[15] == 'F';
    if 48 <= b <= 57 { assert LOWER[b - 48] as int == b; }
    if 65 <= b <= 70 { assert UPPER[b - 55] as int == b; }
    if 97 <= b <= 102 { assert LOWER[b - 87] as int == b; }
  }

  /** Two digits to a byte: `H` has the first in the high half and `h` in the low; an odd last digit
      leaves the other half zero. */
  lemma {:induction false} HexLaid(code: char, text: seq<byte>, i: nat)
    requires i < |text| && (code == 'h' || code == 'H')
    ensures var f := HexField(code, text); var b := f[i / 2];
            && i / 2 < |f|
            && Nibble(text[i]) == (if (i % 2 == 0) == (code == 'H') then b / 16 else b % 16)
            && (i % 2 == 0 && i + 1 == |text| ==> (if code == 'H' then b % 16 else b / 16) == 0)
    decreases |text|
  {
    hide Nibble;
    if i >= 2 {
      HexLaid(code, text[2..], i - 2);
      assert HexField(code, text)[i / 2] == HexField(code, text[2..])[(i - 2) / 2];
    }
  }

  // ----- what directives do -----

  /** All that a list of directives makes, by what each does to the bytes so far: `X` takes bytes away,
      `@` cuts or fills up with zeros, and any other adds its field. */
  function Meaning(ds: seq<Directive>, args: seq<Arg>): seq<byte>
    requires Enough(ds, args)
  {
    if ds == [] then [] else
      EnoughFront(ds, args);
      var n := |ds| - 1;
      var before, d := Meaning(ds[..n], args), ds[n];
      if d.code == 'X' then before[..if d.arg < |before| then |before| - d.arg else 0]
      else if d.code == '@' then if d.arg <= |before| then before[..d.arg] else before + Zeros(d.arg - |before|)
      else before + Field(d, args, Taken(ds[..n]))
  }

  /** The buffer and its cursor come to that. */
  lemma {:induction false} ResultMeans(ds: seq<Directive>, args: seq<Arg>)
    requires Enough(ds, args)
    ensures var o := WriteAll(ds, args); o.buf[..o.pos] == Meaning(ds, args)
  {
    hide Field, Takes;
    if ds != [] {
      EnoughFront(ds, args);
      var n := |ds| - 1;
      ResultMeans(ds[..n], args);
      var o := WriteAll(ds[..n], args);
      WriteMeans(o, ds[n], args);
    }
  }

  lemma {:induction false} WriteMeans(o: Out, d: Directive, args: seq<Arg>)
    requires Known(d.code) && d.arg >= 0 && Proper(args) && o.pos <= |o.buf| && o.current + Takes(d) <= |args|
    ensures var r, before := Write(o, d, args), o.buf[..o.pos];
            r.buf[..r.pos] ==
              if d.code == 'X' then before[..if d.arg < |before| then |before| - d.arg else 0]
              else if d.code == '@' then if d.arg <= |before| then before[..d.arg] else before + Zeros(d.arg - |before|)
              else before + Field(d, args, o.current)
  {
    hide Field, Takes;
  }

  // ----- formats -----

  function Decimals(n: nat): (s: string)
    ensures s != [] && forall i :: 0 <= i < |s| ==> IsDigit(s[i])
  {
    if n < 10 then [('0' as int + n) as char] else Decimals(n / 10) + [('0' as int + n % 10) as char]
  }

  lemma {:induction false} DecimalsRead(n: nat)
    ensures Decimal(Decimals(n)) == n
  {
    var s := Decimals(n);
    if n >= 10 {
      DecimalsRead(n / 10);
      assert s[..|s| - 1] == Decimals(n / 10);
    } else {
      assert s[..0] == [];
    }
  }

  /** A list of directives written out, each with its count. */
  function FormatText(ds: seq<Directive>): string
    requires forall i :: 0 <= i < |ds| ==> ds[i].arg >= 0
  {
    if ds == [] then [] else [ds[0].code] + Decimals(ds[0].arg) + FormatText(ds[1..])
  }

  lemma {:induction false} DigitsEndAt(format: string, i: nat, s: string)
    requires i + |s| <= |format| && format[i..i + |s|] == s && (forall k :: 0 <= k < |s| ==> IsDigit(s[k]))
    requires i + |s| < |format| ==> !IsDigit(format[i + |s|])
    ensures DigitsEnd(format, i) == i + |s|
    decreases |s|
  {
    if s != [] {
      assert format[i] == s[0];
      assert format[i + 1..i + 1 + |s[1..]|] == s[1..] by { assert format[i..i + |s|][1..] == format[i + 1..i + |s|]; }
      DigitsEndAt(format, i + 1, s[1..]);
    }
  }

  /** A code at `i` and its count. */
  lemma {:induction false} CountReads(format: string, i: nat, n: nat)
    requires n <= INT_MAX && i + |Decimals(n)| <= |format| && format[i..i + |Decimals(n)|] == Decimals(n)
    requires i + |Decimals(n)| < |format| ==> !IsDigit(format[i + |Decimals(n)|])
    ensures Repeat(format, i) == (n, i + |Decimals(n)|)
  {
    hide Decimals, Decimal;
    var s := Decimals(n);
    DigitsEndAt(format, i, s);
    DecimalsRead(n);
    assert format[i] == s[0];
  }

  /** A format written out is read as those directives, if there are arguments enough for them. */
  lemma {:induction false} FormatReads(format: string, i: nat, ds: seq<Directive>, args: seq<Arg>, current: nat)
    requires i <= |format| && current <= |args| && Settled(ds) && format[i..] == FormatText(ds) && Proper(args)
    ensures Directives(format, i, args, current) == if Fit(ds, |args| - current) then Some(ds) else None
    decreases |ds|
  {
    hide Repeat, Settle, Decimals, FormatText, Takes;
    if ds == [] {
      EmptyFormat();
    } else {
      var d, n := ds[0], Decimals(ds[0].arg);
      FormatStarts(format, i, ds);
      CountReads(format, i + 1, d.arg);
      SettleIs(d, args, current);
      if Takes(d) <= |args| - current { FormatReads(format, i + 1 + |n|, ds[1..], args, current + Takes(d)); }
      assert [d] + ds[1..] == ds;
    }
  }

  lemma {:induction false} EmptyFormat()
    ensures FormatText([]) == []
  {}

  lemma {:induction false} FormatStarts(format: string, i: nat, ds: seq<Directive>)
    requires i <= |format| && ds != [] && Settled(ds) && format[i..] == FormatText(ds)
    ensures var n := Decimals(ds[0].arg);
            && i + 1 + |n| <= |format| && format[i] == ds[0].code && format[i + 1..i + 1 + |n|] == n
            && format[i + 1 + |n|..] == FormatText(ds[1..]) && (i + 1 + |n| < |format| ==> !IsDigit(format[i + 1 + |n|]))
  {
    hide Decimals;
    var n, rest := Decimals(ds[0].arg), FormatText(ds[1..]);
    assert format[i..] == [ds[0].code] + (n + rest);
    assert format[i] == format[i..][0];
    assert format[i + 1..i + 1 + |n|] == format[i..][1..1 + |n|];
    assert format[i + 1 + |n|..] == format[i..][1 + |n|..];
    if ds[1..] != [] { NoDigitFirst(ds[1..]); }
  }

  /** The directives take no more than `n` arguments. */
  predicate Fit(ds: seq<Directive>, n: int) {
    ds == [] || (Takes(ds[0]) <= n && Fit(ds[1..], n - Takes(ds[0])))
  }

  lemma {:induction false} NoDigitFirst(ds: seq<Directive>)
    requires ds != [] && Settled(ds)
    ensures FormatText(ds) != [] && !IsDigit(FormatText(ds)[0])
  {}

  lemma {:induction false} SettleIs(d: Directive, args: seq<Arg>, current: nat)
    requires 0 <= d.arg <= INT_MAX && Known(d.code) && Proper(args) && current <= |args|
    ensures Takes(d) >= 0 && Settle(d.code, d.arg, args, current) == if Takes(d) <= |args| - current then Some(d) else None
  {}

  /** Packing with any directives, written out as a format. */
  method PackWritten(ds: seq<Directive>, args: seq<Arg>) returns (result: Packing)
    requires Settled(ds) && Proper(args)
    ensures if !Fit(ds, |args|) then result == Rejected else
            && Enough(ds, args)
            && result == if Sizes(ds).None? then Rejected else if Sizes(ds).value.1 == INT_MAX then Exhausted else Packed(Meaning(ds, args))
  {
    hide Enough, Sizes, FormatText, Fit, WriteAll, Meaning, Directives;
    var format := FormatText(ds);
    assert format[0..] == format;
    FormatReads(format, 0, ds, args, 0);
    result := Pack.Pack(format, args);
    if Fit(ds, |args|) { ResultMeans(ds, args); }
  }

  /** A star stands for the whole text, with its zero for `Z`. */
  lemma {:induction false} StarReads(code: char, a: Arg)
    requires Textual(code) && Proper([a])
    ensures var n := |a.text| + if code == 'Z' then 1 else 0;
            Directives([code, '*'], 0, [a], 0) == Some([Directive(code, n)])
    ensures code != 'h' && code != 'H' ==>
              TextField(code, a.text, |a.text| + if code == 'Z' then 1 else 0) == a.text + if code == 'Z' then [0] else []
  {
    var format, n := [code, '*'], |a.text| + if code == 'Z' then 1 else 0;
    assert Repeat(format, 1) == (-1, 2);
    assert Settle(code, -1, [a], 0) == Some(Directive(code, n));
    assert Directives(format, 2, [a], 1) == Some([]) && [Directive(code, n)] + [] == [Directive(code, n)];
  }
}
