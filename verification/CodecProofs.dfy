/** Decoding undoes Flutter's StandardMessageCodec encoding, keeps what is whole of a message cut short, and stops at
    what it does not know. */
module CodecProofs {
  import opened Basics
  import opened Codec

  // ----- the encoding -----

  function ToLe(v: nat, n: nat): (bytes: seq<Byte>)
    ensures |bytes| == n
    decreases n
  {
    if n == 0 then [] else [v % 256] + ToLe(v / 256, n - 1)
  }

  /** The codec's variable-length size, in the shortest of its three forms. */
  function EncodeSize(n: nat): seq<Byte> {
    if n < 254 then [n] else if n < 0x1_0000 then [254] + ToLe(n, 2) else [255] + ToLe(n, 4)
  }

  /** Two's complement. */
  function Unsigned(i: int, n: nat): nat
    requires 0 <= i + Pow256(n)
  {
    if i < 0 then i + Pow256(n) else i
  }

  predicate FitsInt32(i: int) { -0x8000_0000 <= i < 0x8000_0000 }

  predicate FitsInt64(i: int) { -0x8000_0000_0000_0000 <= i < 0x8000_0000_0000_0000 }

  predicate Encodable(v: Value) {
    match v
    case Int(i) => FitsInt64(i)
    case Double(bits) => |bits| == 8
    case Str(text) => Utf8(text) && |text| < 0x1_0000_0000
    case _ => true
  }

  predicate EncodableEntry(e: Entry) { Encodable(Str(e.key)) && Encodable(e.value) }

  lemma Powers()
    ensures Pow256(2) == 0x1_0000 && Pow256(4) == 0x1_0000_0000 && Pow256(8) == 0x1_0000_0000_0000_0000
  {
    assert Pow256(1) == 256;
    assert Pow256(2) == 256 * Pow256(1);
    assert Pow256(3) == 256 * Pow256(2);
    assert Pow256(4) == 256 * Pow256(3);
    assert Pow256(5) == 256 * Pow256(4);
    assert Pow256(6) == 256 * Pow256(5);
    assert Pow256(7) == 256 * Pow256(6);
    assert Pow256(8) == 256 * Pow256(7);
  }

  /** Where a double starts that may start at the position: at the first multiple of eight from there on. */
  function Start(pos: nat): (q: nat)
    ensures q % 8 == 0 && pos <= q < pos + 8
  {
    (pos + 7) / 8 * 8
  }

  /** A value whose tag is at the given position of the message. */
  function EncodeValue(pos: nat, v: Value): seq<Byte>
    requires Encodable(v)
  {
    Powers();
    match v
    case Null => [0]
    case Bool(b) => [if b then 1 else 2]
    case Int(i) => if FitsInt32(i) then [3] + ToLe(Unsigned(i, 4), 4) else [4] + ToLe(Unsigned(i, 8), 8)
    case Double(bits) => [6] + seq(Start(pos + 1) - (pos + 1), _ => 0 as Byte) + bits
    case Str(text) => [7] + EncodeSize(|text|) + text
  }

  function EncodeEntry(pos: nat, e: Entry): seq<Byte>
    requires EncodableEntry(e)
  {
    var key := EncodeValue(pos, Str(e.key));
    key + EncodeValue(pos + |key|, e.value)
  }

  function EncodeEntries(pos: nat, es: seq<Entry>): seq<Byte>
    requires forall e :: e in es ==> EncodableEntry(e)
    decreases |es|
  {
    if es == [] then []
    else
      var first := EncodeEntry(pos, es[0]);
      first + EncodeEntries(pos + |first|, es[1..])
  }

  function Header(n: nat): seq<Byte> { [13] + EncodeSize(n) }

  function Encode(es: seq<Entry>): seq<Byte>
    requires forall e :: e in es ==> EncodableEntry(e)
  {
    Header(|es|) + EncodeEntries(|Header(|es|)|, es)
  }

  // ----- reading what was written -----

  /** The message has the bytes at the position. */
  predicate Has(bytes: seq<Byte>, pos: nat, part: seq<Byte>) {
    pos + |part| <= |bytes| && bytes[pos..pos + |part|] == part
  }

  lemma HasParts(bytes: seq<Byte>, pos: nat, a: seq<Byte>, b: seq<Byte>)
    requires Has(bytes, pos, a + b)
    ensures Has(bytes, pos, a) && Has(bytes, pos + |a|, b)
  {
    var whole := bytes[pos..pos + |a + b|];
    assert whole == a + b;
    assert bytes[pos..pos + |a|] == whole[..|a|] == a;
    assert bytes[pos + |a|..pos + |a| + |b|] == whole[|a|..] == b;
  }

  lemma {:induction false} LeInverse(v: nat, n: nat)
    requires v < Pow256(n)
    ensures FromLe(ToLe(v, n)) == v
  {
    if n > 0 {
      assert v / 256 < Pow256(n - 1);
      LeInverse(v / 256, n - 1);
      assert ToLe(v, n)[1..] == ToLe(v / 256, n - 1);
    }
  }

  lemma NumberRead(bytes: seq<Byte>, pos: nat, v: nat, n: nat)
    requires v < Pow256(n) && Has(bytes, pos, ToLe(v, n))
    ensures NumberAt(bytes, pos, n) == Got(v, pos + n)
  {
    LeInverse(v, n);
  }

  lemma ByteRead(bytes: seq<Byte>, pos: nat, b: Byte, rest: seq<Byte>)
    requires Has(bytes, pos, [b] + rest)
    ensures ByteAt(bytes, pos) == Got(b, pos + 1) && Has(bytes, pos + 1, rest)
  {
    HasParts(bytes, pos, [b], rest);
    assert bytes[pos] == bytes[pos..pos + 1][0];
  }

  /** Each of the three size forms is read back. */
  lemma SizeRead(bytes: seq<Byte>, pos: nat, n: nat)
    requires n < 0x1_0000_0000 && Has(bytes, pos, EncodeSize(n))
    ensures SizeAt(bytes, pos) == Got(n, pos + |EncodeSize(n)|)
  {
    Powers();
    if n < 254 {
      assert [n] == [n] + [];
      ByteRead(bytes, pos, n, []);
    } else if n < 0x1_0000 {
      ByteRead(bytes, pos, 254, ToLe(n, 2));
      NumberRead(bytes, pos + 1, n, 2);
    } else {
      ByteRead(bytes, pos, 255, ToLe(n, 4));
      NumberRead(bytes, pos + 1, n, 4);
    }
  }

  lemma IntRead(bytes: seq<Byte>, pos: nat, i: int, n: nat)
    requires n == 4 || n == 8
    requires if n == 4 then FitsInt32(i) else FitsInt64(i)
    requires 0 <= i + Pow256(n) && Has(bytes, pos, ToLe(Unsigned(i, n), n))
    ensures IntAt(bytes, pos, n) == Got(Int(i), pos + n)
  {
    SignedBack(i, n);
    hide Signed, Unsigned, Pow256, NumberAt, ToLe, Has;
    NumberRead(bytes, pos, Unsigned(i, n), n);
  }

  lemma SignedBack(i: int, n: nat)
    requires n == 4 || n == 8
    requires if n == 4 then FitsInt32(i) else FitsInt64(i)
    ensures 0 <= i + Pow256(n) && Unsigned(i, n) < Pow256(n) && Signed(Unsigned(i, n), n) == i
  {
    Powers();
    hide Pow256;
  }

  /** A double is read from the first multiple of eight on, counted over the whole message, and exactly when all its
      bytes are there. */
  lemma DoubleAligned(bytes: seq<Byte>, pos: nat, q: nat)
    requires q % 8 == 0 && pos <= q < pos + 8
    ensures DoubleAt(bytes, pos) == if q + 8 <= |bytes| then Got(Double(bytes[q..q + 8]), q + 8) else Stop
  {
    PadsTo(pos, q);
    hide Padding;
  }

  lemma PadsTo(pos: nat, q: nat)
    requires q % 8 == 0 && pos <= q < pos + 8
    ensures pos + Padding(pos) == q
  {
  }

  lemma DoubleRead(bytes: seq<Byte>, pos: nat, bits: seq<Byte>)
    requires |bits| == 8 && Has(bytes, pos, seq(Start(pos) - pos, _ => 0 as Byte) + bits)
    ensures DoubleAt(bytes, pos) == Got(Double(bits), Start(pos) + 8)
  {
    HasParts(bytes, pos, seq(Start(pos) - pos, _ => 0 as Byte), bits);
    hide DoubleAt;
    DoubleAligned(bytes, pos, Start(pos));
  }

  lemma StringRead(bytes: seq<Byte>, pos: nat, text: Text)
    requires Encodable(Str(text)) && Has(bytes, pos, EncodeSize(|text|) + text)
    ensures StringAt(bytes, pos) == Got(Str(text), pos + |EncodeSize(|text|)| + |text|)
  {
    hide EncodeSize, SizeAt, Utf8, Has;
    HasParts(bytes, pos, EncodeSize(|text|), text);
    SizeRead(bytes, pos, |text|);
    TextTaken(bytes, pos + |EncodeSize(|text|)|, text);
  }

  lemma TextTaken(bytes: seq<Byte>, pos: nat, text: Text)
    requires Has(bytes, pos, text)
    ensures TakeAt(bytes, pos, |text|) == Got(text, pos + |text|)
  {
  }

  lemma ValueRead(bytes: seq<Byte>, pos: nat, v: Value)
    requires Encodable(v) && Has(bytes, pos, EncodeValue(pos, v))
    ensures ValueAt(bytes, pos) == Got(v, pos + |EncodeValue(pos, v)|)
  {
    hide Has, EncodeValue, ValueAt, Encodable;
    match v
    case Null => TagRead(bytes, pos, v);
    case Bool(b) => TagRead(bytes, pos, v);
    case Int(i) => IntValueRead(bytes, pos, i);
    case Double(bits) => DoubleValueRead(bytes, pos, bits);
    case Str(text) => StringValueRead(bytes, pos, text);
  }

  lemma TagRead(bytes: seq<Byte>, pos: nat, v: Value)
    requires (v.Null? || v.Bool?) && Has(bytes, pos, EncodeValue(pos, v))
    ensures ValueAt(bytes, pos) == Got(v, pos + |EncodeValue(pos, v)|)
  {
    hide Has, ByteAt;
    SimpleRead(bytes, pos, if v.Null? then 0 else if v.b then 1 else 2);
  }

  lemma IntValueRead(bytes: seq<Byte>, pos: nat, i: int)
    requires Encodable(Int(i)) && Has(bytes, pos, EncodeValue(pos, Int(i)))
    ensures ValueAt(bytes, pos) == Got(Int(i), pos + |EncodeValue(pos, Int(i))|)
  {
    var n := if FitsInt32(i) then 4 else 8;
    SignedBack(i, n);
    hide Has, ToLe, IntAt, ByteAt, Unsigned, Pow256;
    ByteRead(bytes, pos, if n == 4 then 3 else 4, ToLe(Unsigned(i, n), n));
    IntRead(bytes, pos + 1, i, n);
  }

  lemma DoubleValueRead(bytes: seq<Byte>, pos: nat, bits: seq<Byte>)
    requires Encodable(Double(bits)) && Has(bytes, pos, EncodeValue(pos, Double(bits)))
    ensures ValueAt(bytes, pos) == Got(Double(bits), pos + |EncodeValue(pos, Double(bits))|)
  {
    hide Has, DoubleAt, ByteAt, Start;
    var padded := seq(Start(pos + 1) - (pos + 1), _ => 0 as Byte) + bits;
    assert EncodeValue(pos, Double(bits)) == [6] + padded;
    ByteRead(bytes, pos, 6, padded);
    DoubleRead(bytes, pos + 1, bits);
  }

  lemma StringValueRead(bytes: seq<Byte>, pos: nat, text: Text)
    requires Encodable(Str(text)) && Has(bytes, pos, EncodeValue(pos, Str(text)))
    ensures ValueAt(bytes, pos) == Got(Str(text), pos + |EncodeValue(pos, Str(text))|)
  {
    hide Has, StringAt, ByteAt, EncodeSize, Utf8;
    var sized := EncodeSize(|text|) + text;
    assert EncodeValue(pos, Str(text)) == [7] + sized;
    ByteRead(bytes, pos, 7, sized);
    StringRead(bytes, pos + 1, text);
  }

  lemma SimpleRead(bytes: seq<Byte>, pos: nat, tag: Byte)
    requires Has(bytes, pos, [tag])
    ensures ByteAt(bytes, pos) == Got(tag, pos + 1)
  {
    assert [tag] == [tag] + [];
    ByteRead(bytes, pos, tag, []);
  }

  lemma EntryRead(bytes: seq<Byte>, pos: nat, e: Entry)
    requires EncodableEntry(e) && Has(bytes, pos, EncodeEntry(pos, e))
    ensures EntryAt(bytes, pos) == Got(e, pos + |EncodeEntry(pos, e)|)
  {
    hide Has, ValueAt, EncodeValue, Encodable;
    var key := EncodeValue(pos, Str(e.key));
    HasParts(bytes, pos, key, EncodeValue(pos + |key|, e.value));
    ValueRead(bytes, pos, Str(e.key));
    ValueRead(bytes, pos + |key|, e.value);
  }

  /** Entries written are read back, whatever follows them. */
  lemma {:induction false} EntriesRead(bytes: seq<Byte>, pos: nat, es: seq<Entry>, n: nat)
    requires (forall e :: e in es ==> EncodableEntry(e)) && |es| <= n
    requires Has(bytes, pos, EncodeEntries(pos, es))
    ensures EntriesAt(bytes, pos, n) == es + EntriesAt(bytes, pos + |EncodeEntries(pos, es)|, n - |es|)
    decreases |es|
  {
    hide Has, EntryAt, EncodeEntry, EncodableEntry;
    if es == [] {
      assert [] + EntriesAt(bytes, pos, n) == EntriesAt(bytes, pos, n);
    } else {
      var first := EncodeEntry(pos, es[0]);
      HasParts(bytes, pos, first, EncodeEntries(pos + |first|, es[1..]));
      EntryRead(bytes, pos, es[0]);
      EntriesRead(bytes, pos + |first|, es[1..], n - 1);
      var rest := EntriesAt(bytes, pos + |EncodeEntries(pos, es)|, n - |es|);
      assert [es[0]] + (es[1..] + rest) == es + rest;
    }
  }

  lemma HeaderRead(bytes: seq<Byte>, n: nat)
    requires n < 0x1_0000_0000 && Has(bytes, 0, Header(n))
    ensures HeaderAt(bytes) == Got(n, |Header(n)|)
  {
    ByteRead(bytes, 0, 13, EncodeSize(n));
    SizeRead(bytes, 1, n);
    hide EncodeSize, SizeAt;
  }

  /** A message: the header claiming so many entries, the entries, and anything after. */
  function Message(n: nat, es: seq<Entry>, rest: seq<Byte>): seq<Byte>
    requires forall e :: e in es ==> EncodableEntry(e)
  {
    Header(n) + EncodeEntries(|Header(n)|, es) + rest
  }

  lemma MessageRead(n: nat, es: seq<Entry>, rest: seq<Byte>)
    requires (forall e :: e in es ==> EncodableEntry(e)) && |es| <= n < 0x1_0000_0000
    ensures HeaderAt(Message(n, es, rest)) == Got(n, |Header(n)|)
    ensures Has(Message(n, es, rest), |Header(n)|, EncodeEntries(|Header(n)|, es))
  {
    MessageHas(Header(n), EncodeEntries(|Header(n)|, es), rest);
    hide Header, EncodeEntries, HeaderAt, Has, EncodableEntry;
    HeaderRead(Message(n, es, rest), n);
  }

  lemma MessageHas(header: seq<Byte>, body: seq<Byte>, rest: seq<Byte>)
    ensures Has(header + body + rest, 0, header) && Has(header + body + rest, |header|, body)
  {
  }

  /** A map's entries in some order, each key once. */
  ghost predicate Lists(es: seq<Entry>, m: map<Text, Value>) {
    && (forall i, j :: 0 <= i < j < |es| ==> es[i].key != es[j].key)
    && (forall e :: e in es ==> e.key in m && m[e.key] == e.value)
    && (forall k :: k in m ==> Entry(k, m[k]) in es)
  }

  ghost predicate Keyed(es: seq<Entry>, k: Text) { exists e :: e in es && e.key == k }

  /** What inserting entries with distinct keys comes to. */
  lemma {:induction false} InsertedIs(m: map<Text, Value>, es: seq<Entry>)
    requires forall i, j :: 0 <= i < j < |es| ==> es[i].key != es[j].key
    ensures forall k :: k in Inserted(m, es) <==> k in m || Keyed(es, k)
    ensures forall k :: k in m && !Keyed(es, k) ==> Inserted(m, es)[k] == m[k]
    ensures forall e :: e in es ==> e.key in Inserted(m, es) && Inserted(m, es)[e.key] == e.value
    decreases |es|
  {
    if es != [] {
      var first, rest := es[0], es[1..];
      InsertedIs(m[first.key := first.value], rest);
      hide Inserted;
      KeyedMore(first, rest);
      assert es == [first] + rest;
      forall e | e in rest ensures e.key != first.key {
        var i :| 0 <= i < |rest| && rest[i] == e;
        assert es[i + 1] == e;
      }
    }
  }

  lemma KeyedMore(first: Entry, rest: seq<Entry>)
    ensures forall k :: Keyed([first] + rest, k) <==> k == first.key || Keyed(rest, k)
  {
    forall k ensures Keyed([first] + rest, k) <==> k == first.key || Keyed(rest, k) {
      if k == first.key { assert first in [first] + rest; }
      if Keyed(rest, k) {
        var e :| e in rest && e.key == k;
        assert e in [first] + rest;
      }
    }
  }

  lemma MapOfLists(es: seq<Entry>, m: map<Text, Value>)
    requires Lists(es, m)
    ensures MapOf(es) == m
  {
    InsertedIs(map[], es);
    hide Inserted;
    forall k | k in m ensures k in MapOf(es) && MapOf(es)[k] == m[k] {
      var e := Entry(k, m[k]);
      assert e in es && e.key == k && e.value == m[k];
    }
  }

  /** The round trip: whatever map the widget encodes, in whatever order it goes through it, is decoded again. */
  lemma RoundTrip(m: map<Text, Value>, es: seq<Entry>)
    requires Lists(es, m) && (forall e :: e in es ==> EncodableEntry(e)) && |es| < 0x1_0000_0000
    ensures Decode(Encode(es)) == Some(m)
  {
    hide HeaderAt, EntriesAt, EncodeEntries, Header, MapOf, EncodableEntry;
    assert Message(|es|, es, []) == Encode(es);
    MessageRead(|es|, es, []);
    EntriesRead(Encode(es), |Header(|es|)|, es, |es|);
    var end := |Header(|es|)| + |EncodeEntries(|Header(|es|)|, es)|;
    assert EntriesAt(Encode(es), end, 0) == [] by { NothingClaimed(Encode(es), end); }
    assert es + [] == es;
    MapOfLists(es, m);
  }

  lemma NothingClaimed(bytes: seq<Byte>, pos: nat)
    ensures EntriesAt(bytes, pos, 0) == []
  {
  }

  // ----- messages that end early -----

  /** What reading comes to when the message is cut: the same, if it ended by then. */
  function Cut<T>(read: Read<T>, c: nat): Read<T> {
    if read.Got? && read.end <= c then read else Stop
  }

  lemma TakeCut(bytes: seq<Byte>, pos: nat, n: nat, c: nat)
    requires c <= |bytes|
    ensures TakeAt(bytes[..c], pos, n) == Cut(TakeAt(bytes, pos, n), c)
    ensures ByteAt(bytes[..c], pos) == Cut(ByteAt(bytes, pos), c)
    ensures NumberAt(bytes[..c], pos, n) == Cut(NumberAt(bytes, pos, n), c)
  {
    if pos + n <= c { assert bytes[..c][pos..pos + n] == bytes[pos..pos + n]; }
  }

  lemma SizeCut(bytes: seq<Byte>, pos: nat, c: nat)
    requires c <= |bytes|
    ensures SizeAt(bytes[..c], pos) == Cut(SizeAt(bytes, pos), c)
  {
    hide FromLe;
    TakeCut(bytes, pos, 0, c);
    TakeCut(bytes, pos + 1, 2, c);
    TakeCut(bytes, pos + 1, 4, c);
  }

  lemma StringCut(bytes: seq<Byte>, pos: nat, c: nat)
    requires c <= |bytes|
    ensures StringAt(bytes[..c], pos) == Cut(StringAt(bytes, pos), c)
  {
    SizeCut(bytes, pos, c);
    SizeEnds(bytes, pos);
    hide SizeAt, Utf8;
    match SizeAt(bytes, pos)
    case Stop =>
    case Got(n, start) => TakeCut(bytes, start, n, c);
  }

  lemma DoubleCut(bytes: seq<Byte>, pos: nat, c: nat)
    requires c <= |bytes|
    ensures DoubleAt(bytes[..c], pos) == Cut(DoubleAt(bytes, pos), c)
  {
    TakeCut(bytes, pos, Padding(pos), c);
    TakeCut(bytes, pos + Padding(pos), 8, c);
    hide Padding;
  }

  lemma IntCut(bytes: seq<Byte>, pos: nat, n: nat, c: nat)
    requires c <= |bytes|
    ensures IntAt(bytes[..c], pos, n) == Cut(IntAt(bytes, pos, n), c)
  {
    TakeCut(bytes, pos, n, c);
    hide FromLe, Pow256, Signed, NumberAt;
  }

  lemma TaggedCut(tag: Byte, bytes: seq<Byte>, pos: nat, c: nat)
    requires pos <= c <= |bytes|
    ensures TaggedAt(tag, bytes[..c], pos) == Cut(TaggedAt(tag, bytes, pos), c)
  {
    hide IntAt, DoubleAt, StringAt;
    if tag == T_INT32 {
      IntCut(bytes, pos, 4, c);
    } else if tag == T_INT64 {
      IntCut(bytes, pos, 8, c);
    } else if tag == T_FLOAT64 {
      DoubleCut(bytes, pos, c);
    } else if tag == T_STRING {
      StringCut(bytes, pos, c);
    }
  }

  lemma TaggedEnds(tag: Byte, bytes: seq<Byte>, pos: nat)
    ensures TaggedAt(tag, bytes, pos).Got? ==> pos <= TaggedAt(tag, bytes, pos).end
  {
    SizeEnds(bytes, pos);
    hide FromLe, Utf8, SizeAt;
  }

  lemma ValueCut(bytes: seq<Byte>, pos: nat, c: nat)
    requires c <= |bytes|
    ensures ValueAt(bytes[..c], pos) == Cut(ValueAt(bytes, pos), c)
  {
    TakeCut(bytes, pos, 0, c);
    hide TaggedAt;
    if pos < c {
      TaggedCut(bytes[pos], bytes, pos + 1, c);
    } else if pos < |bytes| {
      TaggedEnds(bytes[pos], bytes, pos + 1);
    }
  }

  lemma EntryCut(bytes: seq<Byte>, pos: nat, c: nat)
    requires c <= |bytes|
    ensures EntryAt(bytes[..c], pos) == Cut(EntryAt(bytes, pos), c)
  {
    ValueCut(bytes, pos, c);
    hide ValueAt;
    match ValueAt(bytes, pos)
    case Stop =>
    case Got(key, middle) =>
      ValueCut(bytes, middle, c);
      ValueEnds(bytes, middle);
  }

  /** How many of the entries written from a position on end by the cut. */
  function WholeBy(pos: nat, es: seq<Entry>, c: nat): (k: nat)
    requires forall e :: e in es ==> EncodableEntry(e)
    ensures k <= |es|
    decreases |es|
  {
    if es == [] || pos + |EncodeEntry(pos, es[0])| > c then 0
    else 1 + WholeBy(pos + |EncodeEntry(pos, es[0])|, es[1..], c)
  }

  lemma {:induction false} EntriesCut(bytes: seq<Byte>, pos: nat, es: seq<Entry>, n: nat, c: nat)
    requires (forall e :: e in es ==> EncodableEntry(e)) && n >= |es|
    requires Has(bytes, pos, EncodeEntries(pos, es)) && c <= pos + |EncodeEntries(pos, es)|
    ensures EntriesAt(bytes[..c], pos, n) == es[..WholeBy(pos, es, c)]
    decreases |es|
  {
    hide Has, EntryAt, EncodeEntry, EncodableEntry;
    Within(bytes, pos, EncodeEntries(pos, es));
    if es == [] {
      assert EncodeEntries(pos, es) == [];
      NothingThere(bytes[..c], pos);
    } else {
      var first := EncodeEntry(pos, es[0]);
      HasParts(bytes, pos, first, EncodeEntries(pos + |first|, es[1..]));
      EntryRead(bytes, pos, es[0]);
      EntryCut(bytes, pos, c);
      if pos + |first| <= c {
        EntriesCut(bytes, pos + |first|, es[1..], n - 1, c);
        assert [es[0]] + es[1..][..WholeBy(pos, es, c) - 1] == es[..WholeBy(pos, es, c)];
      }
    }
  }

  lemma Within(bytes: seq<Byte>, pos: nat, part: seq<Byte>)
    requires Has(bytes, pos, part)
    ensures pos + |part| <= |bytes|
  {
  }

  lemma NothingThere(bytes: seq<Byte>, pos: nat)
    requires |bytes| <= pos
    ensures EntryAt(bytes, pos) == Stop
  {
  }

  /** A message cut anywhere keeps exactly the entries wholly before the cut; cut within its header it is none. */
  lemma CutKeepsWhole(es: seq<Entry>, c: nat)
    requires (forall e :: e in es ==> EncodableEntry(e)) && |es| < 0x1_0000_0000 && c <= |Encode(es)|
    ensures var start := |Header(|es|)|;
            Decode(Encode(es)[..c]) == if c < start then None else Some(MapOf(es[..WholeBy(start, es, c)]))
  {
    hide EntriesAt, MapOf, WholeBy, EncodableEntry, Has, Header, HeaderAt, EncodeEntries;
    var bytes, start := Encode(es), |Header(|es|)|;
    EncodeHas(es);
    HeaderRead(bytes, |es|);
    HeaderCut(bytes, c);
    if start <= c { EntriesCut(bytes, start, es, |es|, c); }
  }

  lemma EncodeHas(es: seq<Entry>)
    requires forall e :: e in es ==> EncodableEntry(e)
    ensures var bytes, start := Encode(es), |Header(|es|)|;
            && Has(bytes, 0, Header(|es|)) && Has(bytes, start, EncodeEntries(start, es))
            && |bytes| == start + |EncodeEntries(start, es)|
  {
    hide Header, EncodeEntries, EncodableEntry, Has;
    var header, body := Header(|es|), EncodeEntries(|Header(|es|)|, es);
    MessageHas(header, body, []);
    assert header + body + [] == Encode(es);
  }

  lemma HeaderCut(bytes: seq<Byte>, c: nat)
    requires c <= |bytes|
    ensures HeaderAt(bytes[..c]) == Cut(HeaderAt(bytes), c)
  {
    TakeCut(bytes, 0, 0, c);
    SizeCut(bytes, 1, c);
    SizeEnds(bytes, 1);
    hide SizeAt;
  }

  predicate KnownTag(tag: Byte) {
    tag <= 4 || tag == 6 || tag == 7
  }

  /** A value of a type that is not read ends the decode, whatever its key and whatever comes after; just the entries
      before it are kept. */
  lemma UnknownEnds(n: nat, es: seq<Entry>, key: Text, tag: Byte, rest: seq<Byte>)
    requires (forall e :: e in es ==> EncodableEntry(e)) && |es| < n < 0x1_0000_0000
    requires Encodable(Str(key)) && !KnownTag(tag)
    ensures var end := |Header(n)| + |EncodeEntries(|Header(n)|, es)|;
            Decode(Message(n, es, EncodeValue(end, Str(key)) + [tag] + rest)) == Some(MapOf(es))
  {
    hide EncodeValue, Header, EncodeEntries, HeaderAt, Encodable, EncodableEntry, MapOf, KnownTag, Has, EntryAt;
    var start := |Header(n)|;
    var body := EncodeEntries(start, es);
    var tail := EncodeValue(start + |body|, Str(key)) + [tag] + rest;
    var bytes := Message(n, es, tail);
    MessageRead(n, es, tail);
    EntriesRead(bytes, start, es, n);
    assert bytes == Header(n) + body + tail;
    hide Message;
    UnknownAt(bytes, Header(n) + body, key, tag, rest);
    assert EntriesAt(bytes, start + |body|, n - |es|) == [];
    hide EntriesAt;
    assert es + [] == es;
  }

  lemma UnknownAt(bytes: seq<Byte>, before: seq<Byte>, key: Text, tag: Byte, rest: seq<Byte>)
    requires Encodable(Str(key)) && !KnownTag(tag)
    requires bytes == before + (EncodeValue(|before|, Str(key)) + [tag] + rest)
    ensures EntryAt(bytes, |before|) == Stop
  {
    var name := EncodeValue(|before|, Str(key));
    hide EncodeValue, Encodable;
    assert bytes[|before|..|before| + |name|] == name;
    ValueRead(bytes, |before|, Str(key));
    hide ValueAt;
    UnknownTag(bytes, |before| + |name|);
  }

  lemma UnknownTag(bytes: seq<Byte>, pos: nat)
    requires pos < |bytes| && !KnownTag(bytes[pos])
    ensures ValueAt(bytes, pos) == Stop
  {
    hide IntAt, DoubleAt, StringAt;
  }
}
