/** What messages are decoded, and to what: exactly those of a grammar of the codec, written out here byte by byte. */
module CodecGrammar {
  import opened Basics
  import opened Codec
  import opened CodecProofs

  // ----- UTF-8: the octets of each Unicode scalar value (section 3 of RFC 3629) -----

  predicate Scalar(c: nat) { c < 0xD800 || 0xE000 <= c <= 0x10FFFF }

  function Octets(c: nat): (s: Text)
    requires Scalar(c)
    ensures 1 <= |s| <= 4
  {
    if c < 0x80 then [c]
    else if c < 0x800 then [0xC0 + c / 64, 0x80 + c % 64]
    else if c < 0x1_0000 then [0xE0 + c / 4096, 0x80 + c / 64 % 64, 0x80 + c % 64]
    else [0xF0 + c / 26_2144, 0x80 + c / 4096 % 64, 0x80 + c / 64 % 64, 0x80 + c % 64]
  }

  function TextOf(cs: seq<nat>): Text
    requires forall c :: c in cs ==> Scalar(c)
  {
    if cs == [] then [] else Octets(cs[0]) + TextOf(cs[1..])
  }

  /** The octets of some scalar values. */
  ghost predicate IsText(s: Text) {
    exists cs :: (forall c :: c in cs ==> Scalar(c)) && TextOf(cs) == s
  }

  lemma OctetRanges(c: nat)
    requires Scalar(c)
    ensures var o := Octets(c);
            && (|o| == 1 ==> o[0] <= 0x7F)
            && (|o| == 2 ==> 0xC2 <= o[0] <= 0xDF && Tail(o[1]))
            && (|o| == 3 ==> 0xE0 <= o[0] <= 0xEF && Tail(o[1]) && Tail(o[2])
                             && (o[0] == 0xE0 ==> 0xA0 <= o[1]) && (o[0] == 0xED ==> o[1] <= 0x9F))
            && (|o| == 4 ==> 0xF0 <= o[0] <= 0xF4 && Tail(o[1]) && Tail(o[2]) && Tail(o[3])
                             && (o[0] == 0xF0 ==> 0x90 <= o[1]) && (o[0] == 0xF4 ==> o[1] <= 0x8F))
  {
  }

  lemma OctetsRead(c: nat, rest: Text)
    requires Scalar(c)
    ensures CharLength(Octets(c) + rest) == |Octets(c)|
  {
    OctetRanges(c);
    hide Octets, Scalar;
    var s := Octets(c) + rest;
    assert |s| >= |Octets(c)| && forall i :: 0 <= i < |Octets(c)| ==> s[i] == Octets(c)[i];
  }

  /** The scalar value the first octets are of. */
  function ScalarOf(s: Text): (c: int)
    requires s != [] && CharLength(s) > 0
  {
    match CharLength(s)
    case 1 => s[0] as int
    case 2 => Joined(s[0] - 0xC0, s[1])
    case 3 => Joined(Joined(s[0] - 0xE0, s[1]), s[2])
    case _ => Joined(Joined(Joined(s[0] - 0xF0, s[1]), s[2]), s[3])
  }

  function Joined(high: int, tail: int): int { high * 64 + (tail - 0x80) }

  lemma JoinedParts(high: int, tail: int)
    requires 0 <= high && 0x80 <= tail <= 0xBF
    ensures var c := Joined(high, tail);
            64 * high <= c < 64 * high + 64 && c / 64 == high && c % 64 == tail - 0x80 && c / 4096 == high / 64
            && c / 26_2144 == high / 4096
  {
  }

  lemma CharIsScalar(s: Text)
    requires s != [] && CharLength(s) > 0
    ensures 0 <= ScalarOf(s) && Scalar(ScalarOf(s)) && Octets(ScalarOf(s)) == s[..CharLength(s)]
  {
    match CharLength(s)
    case 1 =>
    case 2 => TwoOctets(s);
    case 3 => ThreeOctets(s);
    case _ => FourOctets(s);
  }

  lemma TwoOctets(s: Text)
    requires s != [] && CharLength(s) == 2
    ensures 0 <= ScalarOf(s) && Scalar(ScalarOf(s)) && Octets(ScalarOf(s)) == s[..2]
  {
    JoinedParts(s[0] - 0xC0, s[1]);
    hide Joined;
  }

  lemma ThreeOctets(s: Text)
    requires s != [] && CharLength(s) == 3
    ensures 0 <= ScalarOf(s) && Scalar(ScalarOf(s)) && Octets(ScalarOf(s)) == s[..3]
  {
    JoinedParts(s[0] - 0xE0, s[1]);
    JoinedParts(Joined(s[0] - 0xE0, s[1]), s[2]);
    hide Joined;
  }

  lemma FourTails(s: Text)
    requires s != [] && CharLength(s) == 4
    ensures |s| >= 4 && 0xF0 <= s[0] <= 0xF4 && Tail(s[1]) && Tail(s[2]) && Tail(s[3])
    ensures (s[0] == 0xF0 ==> s[1] >= 0x90) && (s[0] == 0xF4 ==> s[1] <= 0x8F)
  {
  }

  lemma FourParts(s0: int, s1: int, s2: int, s3: int)
    requires 0xF0 <= s0 <= 0xF4 && 0x80 <= s1 <= 0xBF && 0x80 <= s2 <= 0xBF && 0x80 <= s3 <= 0xBF
    requires (s0 == 0xF0 ==> s1 >= 0x90) && (s0 == 0xF4 ==> s1 <= 0x8F)
    ensures var c := Joined(Joined(Joined(s0 - 0xF0, s1), s2), s3);
            && 0x1_0000 <= c <= 0x10FFFF
            && c / 26_2144 == s0 - 0xF0 && c / 4096 % 64 == s1 - 0x80 && c / 64 % 64 == s2 - 0x80 && c % 64 == s3 - 0x80
  {
    var a := Joined(s0 - 0xF0, s1);
    var b := Joined(a, s2);
    JoinedParts(s0 - 0xF0, s1);
    JoinedParts(a, s2);
    JoinedParts(b, s3);
    hide Joined;
  }

  lemma OctetsOfFour(c: nat, s0: Byte, s1: Byte, s2: Byte, s3: Byte)
    requires 0x1_0000 <= c <= 0x10FFFF
    requires c / 26_2144 == s0 - 0xF0 && c / 4096 % 64 == s1 - 0x80 && c / 64 % 64 == s2 - 0x80 && c % 64 == s3 - 0x80
    ensures Scalar(c) && Octets(c) == [s0, s1, s2, s3]
  {
  }

  lemma FourOctets(s: Text)
    requires s != [] && CharLength(s) == 4
    ensures 0 <= ScalarOf(s) && Scalar(ScalarOf(s)) && Octets(ScalarOf(s)) == s[..4]
  {
    FourTails(s);
    FourParts(s[0], s[1], s[2], s[3]);
    var c := Joined(Joined(Joined(s[0] - 0xF0, s[1]), s[2]), s[3]);
    hide CharLength, Joined, Octets, Scalar;
    assert ScalarOf(s) == c;
    hide ScalarOf;
    OctetsOfFour(c, s[0], s[1], s[2], s[3]);
    assert s[..4] == [s[0], s[1], s[2], s[3]];
  }

  /** A text is taken just when it is the octets of some scalar values. */
  lemma Utf8Iff(s: Text)
    ensures Utf8(s) <==> IsText(s)
  {
    if Utf8(s) { ScalarsThere(s); }
    if cs :| (forall c :: c in cs ==> Scalar(c)) && TextOf(cs) == s { TextTakes(cs); }
  }

  lemma {:induction false} ScalarsThere(s: Text)
    requires Utf8(s)
    ensures IsText(s)
    decreases |s|
  {
    hide CharLength, ScalarOf, Octets, Utf8, IsText, Scalar;
    if s == [] {
      NoText();
    } else {
      var n := CharLength(s);
      Utf8Rest(s);
      ScalarsThere(s[n..]);
      CharIsScalar(s);
      OneMore(ScalarOf(s), s[..n], s[n..]);
      assert s[..n] + s[n..] == s;
    }
  }

  lemma NoText()
    ensures IsText([])
  {
    assert TextOf([]) == [];
  }

  lemma Utf8Rest(s: Text)
    requires Utf8(s) && s != []
    ensures CharLength(s) > 0 && Utf8(s[CharLength(s)..])
  {
  }

  lemma OneMore(c: int, first: Text, rest: Text)
    requires 0 <= c && Scalar(c) && Octets(c) == first && IsText(rest)
    ensures IsText(first + rest)
  {
    hide Scalar, Octets;
    var cs: seq<nat> :| (forall d :: d in cs ==> Scalar(d)) && TextOf(cs) == rest;
    var all := [c] + cs;
    assert all[0] == c && all[1..] == cs;
    assert TextOf(all) == first + rest;
  }

  lemma {:induction false} TextTakes(cs: seq<nat>)
    requires forall c :: c in cs ==> Scalar(c)
    ensures Utf8(TextOf(cs))
  {
    if cs != [] {
      TextTakes(cs[1..]);
      OctetsRead(cs[0], TextOf(cs[1..]));
      hide CharLength, Octets;
      assert TextOf(cs)[|Octets(cs[0])|..] == TextOf(cs[1..]);
    }
  }

  // ----- the grammar -----

  /** A size in any of its forms. */
  predicate SizeForm(n: nat, form: seq<Byte>) {
    || (n < 254 && form == [n])
    || (n < 0x1_0000 && form == [254] + ToLe(n, 2))
    || (n < 0x1_0000_0000 && form == [255] + ToLe(n, 4))
  }

  /** The bytes are the value, with its tag at the position. Padding may be anything, and a number or a size need not be
      in its shortest form. */
  ghost predicate Written(pos: nat, v: Value, part: seq<Byte>) {
    Powers();
    match v
    case Null => part == [0]
    case Bool(b) => part == [if b then 1 else 2]
    case Int(i) =>
      || (FitsInt32(i) && part == [3] + ToLe(Unsigned(i, 4), 4))
      || (FitsInt64(i) && part == [4] + ToLe(Unsigned(i, 8), 8))
    case Double(bits) => |bits| == 8 && exists pad :: |pad| == Start(pos + 1) - (pos + 1) && part == [6] + pad + bits
    case Str(text) => IsText(text) && exists form :: SizeForm(|text|, form) && part == [7] + form + text
  }

  lemma {:induction false} FromLeBack(bytes: seq<Byte>)
    ensures FromLe(bytes) < Pow256(|bytes|) && ToLe(FromLe(bytes), |bytes|) == bytes
  {
    if bytes != [] {
      FromLeBack(bytes[1..]);
      assert FromLe(bytes) % 256 == bytes[0] && FromLe(bytes) / 256 == FromLe(bytes[1..]);
    }
  }

  lemma NumberIff(bytes: seq<Byte>, pos: nat, n: nat, v: nat)
    ensures NumberAt(bytes, pos, n) == Got(v, pos + n) <==>
              pos + n <= |bytes| && v < Pow256(n) && bytes[pos..pos + n] == ToLe(v, n)
  {
    if pos + n <= |bytes| { FromLeBack(bytes[pos..pos + n]); }
    if v < Pow256(n) { LeInverse(v, n); }
  }

  lemma TailIs(bytes: seq<Byte>, pos: nat, end: nat, b: Byte, rest: seq<Byte>)
    requires pos <= end <= |bytes|
    ensures bytes[pos..end] == [b] + rest <==> pos < end && bytes[pos] == b && bytes[pos + 1..end] == rest
  {
    if pos < end { assert bytes[pos..end] == [bytes[pos]] + bytes[pos + 1..end]; }
    if bytes[pos..end] == [b] + rest {
      assert |bytes[pos..end]| > 0;
      assert bytes[pos..end][0] == bytes[pos] && ([b] + rest)[1..] == rest;
      assert bytes[pos..end][1..] == bytes[pos + 1..end];
    }
  }

  lemma SizeIff(bytes: seq<Byte>, pos: nat, n: nat, end: nat)
    ensures SizeAt(bytes, pos) == Got(n, end) <==>
              pos <= end <= |bytes| && SizeForm(n, bytes[pos..end])
  {
    SizeCases(bytes, pos, n, end);
    NumberFormIff(bytes, pos, 254, 2, n, end);
    NumberFormIff(bytes, pos, 255, 4, n, end);
    if n < 254 && pos <= end <= |bytes| {
      TailIs(bytes, pos, end, n, []);
      assert [n] + [] == [n];
    }
    hide SizeAt, NumberAt, ToLe;
  }

  lemma SizeCases(bytes: seq<Byte>, pos: nat, n: nat, end: nat)
    ensures SizeAt(bytes, pos) == Got(n, end) <==>
              && pos < |bytes|
              && if bytes[pos] < 254 then n == bytes[pos] && end == pos + 1
                 else NumberAt(bytes, pos + 1, if bytes[pos] == 254 then 2 else 4) == Got(n, end)
  {
    hide NumberAt;
  }

  lemma NumberFormIff(bytes: seq<Byte>, pos: nat, tag: Byte, k: nat, n: nat, end: nat)
    requires k == 2 || k == 4
    ensures (pos < |bytes| && bytes[pos] == tag && NumberAt(bytes, pos + 1, k) == Got(n, end)) <==>
              && pos <= end <= |bytes| && n < (if k == 2 then 0x1_0000 else 0x1_0000_0000)
              && bytes[pos..end] == [tag] + ToLe(n, k)
  {
    Powers();
    NumberIff(bytes, pos + 1, k, n);
    NumberEnds(bytes, pos + 1);
    hide NumberAt, ToLe, Pow256;
    if pos <= end <= |bytes| { TailIs(bytes, pos, end, tag, ToLe(n, k)); }
  }

  lemma NumberEnds(bytes: seq<Byte>, pos: nat)
    ensures NumberAt(bytes, pos, 2).Got? ==> NumberAt(bytes, pos, 2).end == pos + 2 <= |bytes|
    ensures NumberAt(bytes, pos, 4).Got? ==> NumberAt(bytes, pos, 4).end == pos + 4 <= |bytes|
    ensures NumberAt(bytes, pos, 2).Got? ==> NumberAt(bytes, pos, 2).value < 0x1_0000
    ensures NumberAt(bytes, pos, 4).Got? ==> NumberAt(bytes, pos, 4).value < 0x1_0000_0000
  {
    Powers();
    hide Pow256;
    if pos + 2 <= |bytes| { FromLeBack(bytes[pos..pos + 2]); }
    if pos + 4 <= |bytes| { FromLeBack(bytes[pos..pos + 4]); }
    hide FromLe;
  }

  predicate Fits(i: int, n: nat) { if n == 4 then FitsInt32(i) else FitsInt64(i) }

  lemma SignedIff(v: nat, n: nat, i: int)
    requires (n == 4 || n == 8) && v < Pow256(n)
    ensures Fits(i, n) ==> 0 <= i + Pow256(n)
    ensures Signed(v, n) == i <==> Fits(i, n) && v == Unsigned(i, n)
  {
    Powers();
    hide Pow256;
  }

  lemma IntIff(bytes: seq<Byte>, pos: nat, n: nat, i: int)
    requires n == 4 || n == 8
    ensures Fits(i, n) ==> 0 <= i + Pow256(n)
    ensures IntAt(bytes, pos, n) == Got(Int(i), pos + n) <==>
              pos + n <= |bytes| && Fits(i, n) && bytes[pos..pos + n] == ToLe(Unsigned(i, n), n)
  {
    hide FromLe, ToLe, Pow256, Signed, Unsigned, Fits;
    if pos + n <= |bytes| {
      var v := FromLe(bytes[pos..pos + n]);
      FromLeBack(bytes[pos..pos + n]);
      SignedIff(v, n, i);
      if Fits(i, n) {
        UnsignedFits(i, n);
        LeInverse(Unsigned(i, n), n);
      }
    } else if Fits(i, n) {
      UnsignedFits(i, n);
    }
  }

  lemma UnsignedFits(i: int, n: nat)
    requires (n == 4 || n == 8) && Fits(i, n)
    ensures 0 <= i + Pow256(n) && Unsigned(i, n) < Pow256(n)
  {
    Powers();
    hide Pow256;
  }

  /** What is read at a position is what is written there, and whatever is written there is read. */
  lemma ValueIff(bytes: seq<Byte>, pos: nat, v: Value, end: nat)
    ensures ValueAt(bytes, pos) == Got(v, end) <==> pos <= end <= |bytes| && Written(pos, v, bytes[pos..end])
  {
    hide ValueAt, Written;
    match v
    case Null => TagIff(bytes, pos, v, end);
    case Bool(_) => TagIff(bytes, pos, v, end);
    case Int(i) => IntValueIff(bytes, pos, i, end);
    case Double(bits) => DoubleValueIff(bytes, pos, bits, end);
    case Str(text) => StringValueIff(bytes, pos, text, end);
  }

  lemma TagIff(bytes: seq<Byte>, pos: nat, v: Value, end: nat)
    requires v.Null? || v.Bool?
    ensures ValueAt(bytes, pos) == Got(v, end) <==> pos <= end <= |bytes| && Written(pos, v, bytes[pos..end])
  {
    var tag: Byte := if v.Null? then 0 else if v.b then 1 else 2;
    JustTagged(bytes, pos, v, tag, end);
    hide ValueAt, ToLe, Pow256;
    if pos <= end <= |bytes| { TailIs(bytes, pos, end, tag, []); }
    assert [tag] + [] == [tag];
  }

  lemma JustTagged(bytes: seq<Byte>, pos: nat, v: Value, tag: Byte, end: nat)
    requires (v == Null && tag == 0) || (v == Bool(true) && tag == 1) || (v == Bool(false) && tag == 2)
    ensures ValueAt(bytes, pos) == Got(v, end) <==> pos < |bytes| && bytes[pos] == tag && end == pos + 1
  {
    IntEnds(bytes, pos + 1);
    DoubleOrText(bytes, pos + 1);
    hide IntAt, DoubleAt, StringAt;
  }

  lemma IntValueIff(bytes: seq<Byte>, pos: nat, i: int, end: nat)
    ensures ValueAt(bytes, pos) == Got(Int(i), end) <==>
              pos <= end <= |bytes| && Written(pos, Int(i), bytes[pos..end])
  {
    IntTagged(bytes, pos, i, end);
    IntTagIff(bytes, pos, 3, 4, i, end);
    IntTagIff(bytes, pos, 4, 8, i, end);
    hide IntAt, Pow256, Unsigned, ToLe, ValueAt, FitsInt32, FitsInt64;
  }

  lemma IntTagIff(bytes: seq<Byte>, pos: nat, tag: Byte, n: nat, i: int, end: nat)
    requires n == 4 || n == 8
    ensures Fits(i, n) ==> 0 <= i + Pow256(n)
    ensures (pos < |bytes| && bytes[pos] == tag && IntAt(bytes, pos + 1, n) == Got(Int(i), end)) <==>
              pos <= end <= |bytes| && Fits(i, n) && bytes[pos..end] == [tag] + ToLe(Unsigned(i, n), n)
  {
    IntIff(bytes, pos + 1, n, i);
    IntEnds(bytes, pos + 1);
    hide IntAt, Pow256, Unsigned, ToLe, Fits;
    if pos <= end <= |bytes| && Fits(i, n) { TailIs(bytes, pos, end, tag, ToLe(Unsigned(i, n), n)); }
  }

  lemma IntTagged(bytes: seq<Byte>, pos: nat, i: int, end: nat)
    ensures ValueAt(bytes, pos) == Got(Int(i), end) <==>
              || (pos < |bytes| && bytes[pos] == 3 && IntAt(bytes, pos + 1, 4) == Got(Int(i), end))
              || (pos < |bytes| && bytes[pos] == 4 && IntAt(bytes, pos + 1, 8) == Got(Int(i), end))
  {
    DoubleOrText(bytes, pos + 1);
    hide IntAt, DoubleAt, StringAt;
  }

  lemma IntEnds(bytes: seq<Byte>, pos: nat)
    ensures IntAt(bytes, pos, 4).Got? ==> IntAt(bytes, pos, 4).end == pos + 4 && IntAt(bytes, pos, 4).value.Int?
    ensures IntAt(bytes, pos, 8).Got? ==> IntAt(bytes, pos, 8).end == pos + 8 && IntAt(bytes, pos, 8).value.Int?
  {
    hide FromLe, Signed;
  }

  lemma DoubleOrText(bytes: seq<Byte>, pos: nat)
    ensures DoubleAt(bytes, pos).Got? ==> DoubleAt(bytes, pos).value.Double?
    ensures StringAt(bytes, pos).Got? ==> StringAt(bytes, pos).value.Str?
  {
    hide SizeAt, Utf8;
  }

  lemma DoubleValueIff(bytes: seq<Byte>, pos: nat, bits: seq<Byte>, end: nat)
    ensures ValueAt(bytes, pos) == Got(Double(bits), end) <==>
              pos <= end <= |bytes| && Written(pos, Double(bits), bytes[pos..end])
  {
    DoubleTagged(bytes, pos, bits, end);
    hide DoubleAt, ValueAt, Start;
    if pos < |bytes| && bytes[pos] == 6 && DoubleAt(bytes, pos + 1) == Got(Double(bits), end) {
      DoubleThere(bytes, pos, bits, end);
    }
    if pos <= end <= |bytes| && Written(pos, Double(bits), bytes[pos..end]) {
      var pad :| |pad| == Start(pos + 1) - (pos + 1) && bytes[pos..end] == [6] + pad + bits;
      DoubleTaken(bytes, pos, pad, bits);
      assert |bytes[pos..end]| == 1 + |pad| + |bits|;
    }
  }

  lemma DoubleThere(bytes: seq<Byte>, pos: nat, bits: seq<Byte>, end: nat)
    requires pos < |bytes| && bytes[pos] == 6 && DoubleAt(bytes, pos + 1) == Got(Double(bits), end)
    ensures pos <= end <= |bytes| && Written(pos, Double(bits), bytes[pos..end])
  {
    var q := Start(pos + 1);
    DoubleAligned(bytes, pos + 1, q);
    hide DoubleAt, Start;
    var pad := bytes[pos + 1..q];
    Joins(bytes, pos, q, end);
    assert bytes[pos..end] == [6] + pad + bits;
  }

  lemma Joins(bytes: seq<Byte>, pos: nat, q: nat, end: nat)
    requires pos < q <= end <= |bytes|
    ensures bytes[pos..end] == [bytes[pos]] + bytes[pos + 1..q] + bytes[q..end]
  {
  }

  lemma DoubleTaken(bytes: seq<Byte>, pos: nat, pad: seq<Byte>, bits: seq<Byte>)
    requires |pad| == Start(pos + 1) - (pos + 1) && |bits| == 8 && Has(bytes, pos, [6] + pad + bits)
    ensures pos < |bytes| && bytes[pos] == 6
    ensures DoubleAt(bytes, pos + 1) == Got(Double(bits), pos + 1 + |pad| + 8)
  {
    var q := Start(pos + 1);
    DoubleAligned(bytes, pos + 1, q);
    hide DoubleAt, Start, Has;
    assert [6] + pad + bits == [6] + (pad + bits);
    HasParts(bytes, pos, [6], pad + bits);
    HasParts(bytes, pos + 1, pad, bits);
    HasIs(bytes, pos, [6]);
    HasIs(bytes, q, bits);
    assert bytes[pos..pos + 1][0] == bytes[pos];
  }

  lemma DoubleTagged(bytes: seq<Byte>, pos: nat, bits: seq<Byte>, end: nat)
    ensures ValueAt(bytes, pos) == Got(Double(bits), end) <==>
              pos < |bytes| && bytes[pos] == 6 && DoubleAt(bytes, pos + 1) == Got(Double(bits), end)
  {
    IntEnds(bytes, pos + 1);
    DoubleOrText(bytes, pos + 1);
    hide IntAt, DoubleAt, StringAt;
  }

  lemma StringValueIff(bytes: seq<Byte>, pos: nat, text: Text, end: nat)
    ensures ValueAt(bytes, pos) == Got(Str(text), end) <==>
              pos <= end <= |bytes| && Written(pos, Str(text), bytes[pos..end])
  {
    hide IntAt, DoubleAt, SizeAt, Utf8, SizeForm, IsText;
    if ValueAt(bytes, pos) == Got(Str(text), end) {
      StringThere(bytes, pos, text, end);
    }
    if pos <= end <= |bytes| && Written(pos, Str(text), bytes[pos..end]) {
      var form :| SizeForm(|text|, form) && bytes[pos..end] == [7] + form + text;
      StringTaken(bytes, pos, form, text);
      assert |bytes[pos..end]| == 1 + |form| + |text|;
    }
  }

  lemma StringTaken(bytes: seq<Byte>, pos: nat, form: seq<Byte>, text: Text)
    requires SizeForm(|text|, form) && IsText(text) && Has(bytes, pos, [7] + form + text)
    ensures ValueAt(bytes, pos) == Got(Str(text), pos + 1 + |form| + |text|)
  {
    hide IntAt, DoubleAt, SizeAt, Utf8, SizeForm, IsText, Has;
    assert [7] + form + text == [7] + (form + text);
    ByteRead(bytes, pos, 7, form + text);
    HasParts(bytes, pos + 1, form, text);
    HasIs(bytes, pos + 1, form);
    SizeIff(bytes, pos + 1, |text|, pos + 1 + |form|);
    TextTaken(bytes, pos + 1 + |form|, text);
    Utf8Iff(text);
  }

  lemma HasIs(bytes: seq<Byte>, pos: nat, part: seq<Byte>)
    ensures Has(bytes, pos, part) <==> pos + |part| <= |bytes| && bytes[pos..pos + |part|] == part
  {
  }

  lemma StringThere(bytes: seq<Byte>, pos: nat, text: Text, end: nat)
    requires ValueAt(bytes, pos) == Got(Str(text), end)
    ensures pos < end <= |bytes| && Written(pos, Str(text), bytes[pos..end])
  {
    hide IntAt, DoubleAt, SizeAt, Utf8, SizeForm, IsText;
    assert StringAt(bytes, pos + 1) == Got(Str(text), end) && bytes[pos] == 7 by { KindRead(bytes, pos, text); }
    var n, start := SizeAt(bytes, pos + 1).value, SizeAt(bytes, pos + 1).end;
    SizeIff(bytes, pos + 1, n, start);
    Utf8Iff(text);
    var form := bytes[pos + 1..start];
    assert bytes[pos..end] == [7] + form + text;
  }

  lemma KindRead(bytes: seq<Byte>, pos: nat, text: Text)
    requires ValueAt(bytes, pos).Got? && ValueAt(bytes, pos).value == Str(text)
    ensures pos < |bytes| && bytes[pos] == 7 && StringAt(bytes, pos + 1) == ValueAt(bytes, pos)
  {
    IntEnds(bytes, pos + 1);
    DoubleOrText(bytes, pos + 1);
    hide IntAt, DoubleAt, StringAt;
  }

  // ----- messages -----

  /** The bytes from pos to end are the entry: a string, then a value. */
  ghost predicate EntryWritten(bytes: seq<Byte>, pos: nat, e: Entry, end: nat) {
    exists middle: nat :: pos <= middle <= end <= |bytes|
      && Written(pos, Str(e.key), bytes[pos..middle]) && Written(middle, e.value, bytes[middle..end])
  }

  lemma EntryIff(bytes: seq<Byte>, pos: nat, e: Entry, end: nat)
    ensures EntryAt(bytes, pos) == Got(e, end) <==> EntryWritten(bytes, pos, e, end)
  {
    hide ValueAt, Written;
    if EntryAt(bytes, pos) == Got(e, end) {
      var middle := ValueAt(bytes, pos).end;
      ValueIff(bytes, pos, Str(e.key), middle);
      ValueIff(bytes, middle, e.value, end);
    }
    if EntryWritten(bytes, pos, e, end) {
      var middle: nat :| pos <= middle <= end <= |bytes|
                      && Written(pos, Str(e.key), bytes[pos..middle]) && Written(middle, e.value, bytes[middle..end]);
      ValueIff(bytes, pos, Str(e.key), middle);
      ValueIff(bytes, middle, e.value, end);
    }
  }

  /** The bytes from pos to end are the entries, one after the other. */
  ghost predicate EntriesWritten(bytes: seq<Byte>, pos: nat, es: seq<Entry>, end: nat)
    decreases |es|
  {
    if es == [] then pos == end
    else exists next: nat :: EntryWritten(bytes, pos, es[0], next) && EntriesWritten(bytes, next, es[1..], end)
  }

  /** As many entries as are claimed, or as there are up to where no entry is written. */
  ghost predicate AllThere(bytes: seq<Byte>, pos: nat, n: nat, es: seq<Entry>, end: nat) {
    && EntriesWritten(bytes, pos, es, end) && |es| <= n
    && (|es| < n ==> forall e, next: nat :: !EntryWritten(bytes, end, e, next))
  }

  lemma {:induction false} EntriesIff(bytes: seq<Byte>, pos: nat, n: nat, es: seq<Entry>)
    ensures EntriesAt(bytes, pos, n) == es <==> exists end: nat :: AllThere(bytes, pos, n, es, end)
    decreases n
  {
    EntriesThere(bytes, pos, n);
    if end: nat :| AllThere(bytes, pos, n, es, end) { OnlyThose(bytes, pos, n, es, end); }
  }

  lemma {:induction false} EntriesThere(bytes: seq<Byte>, pos: nat, n: nat)
    ensures exists end: nat :: AllThere(bytes, pos, n, EntriesAt(bytes, pos, n), end)
    decreases n
  {
    hide EntryAt, EntryWritten;
    if n == 0 {
      assert EntriesAt(bytes, pos, 0) == [] && AllThere(bytes, pos, 0, [], pos);
    } else if EntryAt(bytes, pos).Stop? {
      forall e, next: nat ensures !EntryWritten(bytes, pos, e, next) { EntryIff(bytes, pos, e, next); }
      assert EntriesAt(bytes, pos, n) == [] && AllThere(bytes, pos, n, [], pos);
    } else {
      var first, next := EntryAt(bytes, pos).value, EntryAt(bytes, pos).end;
      EntryIff(bytes, pos, first, next);
      EntriesThere(bytes, next, n - 1);
      var rest := EntriesAt(bytes, next, n - 1);
      var end: nat :| AllThere(bytes, next, n - 1, rest, end);
      var es := [first] + rest;
      assert es[1..] == rest;
      assert EntriesAt(bytes, pos, n) == es && AllThere(bytes, pos, n, es, end);
    }
  }

  lemma {:induction false} OnlyThose(bytes: seq<Byte>, pos: nat, n: nat, es: seq<Entry>, end: nat)
    requires AllThere(bytes, pos, n, es, end)
    ensures EntriesAt(bytes, pos, n) == es
    decreases n
  {
    hide EntryAt, EntryWritten;
    if es == [] {
      if n > 0 && EntryAt(bytes, pos).Got? { EntryIff(bytes, pos, EntryAt(bytes, pos).value, EntryAt(bytes, pos).end); }
    } else {
      var next: nat :| EntryWritten(bytes, pos, es[0], next) && EntriesWritten(bytes, next, es[1..], end);
      EntryIff(bytes, pos, es[0], next);
      OnlyThose(bytes, next, n - 1, es[1..], end);
      assert es == [es[0]] + es[1..];
    }
  }

  /** A message starts as a map of so many entries. */
  predicate Claims(bytes: seq<Byte>, n: nat, start: nat) {
    1 <= start <= |bytes| && bytes[0] == 13 && SizeForm(n, bytes[1..start])
  }

  /** The i-th entry is the last with its key. */
  ghost predicate LastWith(es: seq<Entry>, i: nat) {
    i < |es| && forall j :: i < j < |es| ==> es[j].key != es[i].key
  }

  /** The map's keys are the entries', each with the value of the last entry for it. */
  ghost predicate LastOf(es: seq<Entry>, m: map<Text, Value>) {
    && (forall k :: k in m ==> exists i: nat :: LastWith(es, i) && es[i].key == k)
    && (forall i: nat :: LastWith(es, i) ==> es[i].key in m && m[es[i].key] == es[i].value)
  }

  lemma {:induction false} KeysInserted(m: map<Text, Value>, es: seq<Entry>, k: Text)
    ensures k in Inserted(m, es) <==> k in m || Keyed(es, k)
    ensures !Keyed(es, k) && k in m ==> Inserted(m, es)[k] == m[k]
    decreases |es|
  {
    if es != [] {
      KeysInserted(m[es[0].key := es[0].value], es[1..], k);
      assert es == [es[0]] + es[1..];
      KeyedMore(es[0], es[1..]);
      hide Keyed;
    }
  }

  lemma {:induction false} LastInserted(m: map<Text, Value>, es: seq<Entry>, i: nat)
    requires LastWith(es, i)
    ensures i < |es| && es[i].key in Inserted(m, es) && Inserted(m, es)[es[i].key] == es[i].value
    decreases |es|
  {
    LastIndex(es, i);
    var first, rest := es[0], es[1..];
    var m1 := m[first.key := first.value];
    assert es == [first] + rest;
    hide Keyed, LastWith;
    if i == 0 {
      LastFirst(first, rest);
      KeysInserted(m1, rest, first.key);
    } else {
      LastLater(first, rest, i);
      LastInserted(m1, rest, i - 1);
    }
  }

  lemma LastIndex(es: seq<Entry>, i: nat)
    requires LastWith(es, i)
    ensures i < |es|
  {
  }

  lemma LastFirst(first: Entry, rest: seq<Entry>)
    ensures LastWith([first] + rest, 0) <==> !Keyed(rest, first.key)
  {
    var es := [first] + rest;
    assert forall j :: 0 <= j < |rest| ==> rest[j] == es[j + 1] && rest[j] in rest;
    if !LastWith(es, 0) {
      var j :| 0 < j < |es| && es[j].key == first.key;
      assert rest[j - 1] in rest && rest[j - 1].key == first.key;
    }
    if e :| e in rest && e.key == first.key {
      var j :| 0 <= j < |rest| && rest[j] == e;
      assert es[j + 1].key == es[0].key;
    }
  }

  lemma LastLater(first: Entry, rest: seq<Entry>, i: nat)
    requires i > 0
    ensures LastWith([first] + rest, i) <==> LastWith(rest, i - 1)
    ensures i <= |rest| ==> ([first] + rest)[i] == rest[i - 1]
  {
    var es := [first] + rest;
    assert forall j :: 0 <= j < |rest| ==> rest[j] == es[j + 1];
    if LastWith(es, i) {
      forall j | i - 1 < j < |rest| ensures rest[j].key != rest[i - 1].key {
        assert es[j + 1].key != es[i].key;
      }
    }
  }

  lemma {:induction false} LastEntry(es: seq<Entry>, k: Text)
    requires Keyed(es, k)
    ensures exists i: nat :: LastWith(es, i) && es[i].key == k
    decreases |es|
  {
    var first, rest := es[0], es[1..];
    assert es == [first] + rest;
    KeyedMore(first, rest);
    hide Keyed, LastWith;
    if Keyed(rest, k) {
      LastEntry(rest, k);
      var i: nat :| LastWith(rest, i) && rest[i].key == k;
      LastLater(first, rest, i + 1);
      LastIndex(rest, i);
    } else {
      LastFirst(first, rest);
    }
  }

  lemma MapIsLast(es: seq<Entry>)
    ensures LastOf(es, MapOf(es))
  {
    hide Inserted, Keyed;
    forall k | k in MapOf(es) ensures exists i: nat :: LastWith(es, i) && es[i].key == k {
      KeysInserted(map[], es, k);
      LastEntry(es, k);
    }
    forall i: nat | LastWith(es, i) ensures es[i].key in MapOf(es) && MapOf(es)[es[i].key] == es[i].value {
      LastInserted(map[], es, i);
    }
  }

  lemma OneLast(es: seq<Entry>, m: map<Text, Value>, m': map<Text, Value>)
    requires LastOf(es, m) && LastOf(es, m')
    ensures m == m'
  {
    forall k | k in m ensures k in m' && m[k] == m'[k] {
      var i: nat :| LastWith(es, i) && es[i].key == k;
    }
    forall k | k in m' ensures k in m {
      var i: nat :| LastWith(es, i) && es[i].key == k;
    }
  }

  /** What a message is decoded to. A message that does not start as a map gives nothing. One that does gives the map of
      the entries written from there on, as many as it claims or up to where none is written, each key with its last
      value -- and no other map. */
  lemma DecodesIff(bytes: seq<Byte>, m: map<Text, Value>)
    ensures Decode(bytes) == None <==> forall n: nat, start: nat :: !Claims(bytes, n, start)
    ensures Decode(bytes) == Some(m) <==>
              exists n: nat, start: nat, es: seq<Entry>, end: nat ::
                Claims(bytes, n, start) && AllThere(bytes, start, n, es, end) && LastOf(es, m)
  {
    hide Claims, AllThere, LastOf, EntriesAt, MapOf;
    HeaderIs(bytes);
    if Decode(bytes).Some? {
      var n, start := HeaderAt(bytes).value, HeaderAt(bytes).end;
      var es := EntriesAt(bytes, start, n);
      EntriesIff(bytes, start, n, es);
      MapIsLast(es);
      var end: nat :| AllThere(bytes, start, n, es, end);
      assert Claims(bytes, n, start) && AllThere(bytes, start, n, es, end) && LastOf(es, MapOf(es));
    }
    if n: nat, start: nat, es: seq<Entry>, end: nat :|
         Claims(bytes, n, start) && AllThere(bytes, start, n, es, end) && LastOf(es, m) {
      EntriesIff(bytes, start, n, es);
      MapIsLast(es);
      OneLast(es, m, MapOf(es));
    }
  }

  lemma HeaderIs(bytes: seq<Byte>)
    ensures forall n: nat, start: nat :: Claims(bytes, n, start) <==> HeaderAt(bytes) == Got(n, start)
  {
    forall n: nat, start: nat ensures Claims(bytes, n, start) <==> HeaderAt(bytes) == Got(n, start) {
      SizeIff(bytes, 1, n, start);
      hide SizeAt, SizeForm;
    }
  }
}
