/** The creationParams of a view, as Flutter's StandardMessageCodec encodes them (src/params.rs, Reader and decode_map).

    A message is a map of string keys to null, booleans, integers, doubles and strings. Strings are their UTF-8 bytes
    and doubles the eight bytes of their IEEE form. */
module Codec {
  import opened Basics

  const T_NULL: Byte := 0
  const T_TRUE: Byte := 1
  const T_FALSE: Byte := 2
  const T_INT32: Byte := 3
  const T_INT64: Byte := 4
  const T_FLOAT64: Byte := 6
  const T_STRING: Byte := 7
  const T_MAP: Byte := 13

  type Text = seq<Byte>

  datatype Value = Null | Bool(b: bool) | Int(i: int) | Double(bits: seq<Byte>) | Str(text: Text)

  datatype Entry = Entry(key: Text, value: Value)

  // ----- numbers -----

  function FromLe(bytes: seq<Byte>): nat {
    if bytes == [] then 0 else bytes[0] + 256 * FromLe(bytes[1..])
  }

  function Pow256(n: nat): nat { if n == 0 then 1 else 256 * Pow256(n - 1) }

  /** Two's complement. */
  function Signed(v: nat, n: nat): int {
    if 2 * v >= Pow256(n) then v - Pow256(n) else v
  }

  // ----- UTF-8 (section 4 of RFC 3629) -----

  predicate Tail(b: Byte) { 0x80 <= b <= 0xBF }

  /** How many bytes the first character takes; 0 when it is not well-formed. */
  function CharLength(s: Text): (n: nat)
    requires s != []
    ensures n <= |s|
  {
    if s[0] <= 0x7F then 1
    else if 0xC2 <= s[0] <= 0xDF && |s| >= 2 && Tail(s[1]) then 2
    else if |s| >= 3 && Tail(s[2])
            && ((s[0] == 0xE0 && 0xA0 <= s[1] <= 0xBF) || (0xE1 <= s[0] <= 0xEC && Tail(s[1]))
                || (s[0] == 0xED && 0x80 <= s[1] <= 0x9F) || (0xEE <= s[0] <= 0xEF && Tail(s[1]))) then 3
    else if |s| >= 4 && Tail(s[2]) && Tail(s[3])
            && ((s[0] == 0xF0 && 0x90 <= s[1] <= 0xBF) || (0xF1 <= s[0] <= 0xF3 && Tail(s[1]))
                || (s[0] == 0xF4 && 0x80 <= s[1] <= 0x8F)) then 4
    else 0
  }

  predicate Utf8(s: Text)
    decreases |s|
  {
    s == [] || (CharLength(s) > 0 && Utf8(s[CharLength(s)..]))
  }

  // ----- reading: what is read at a position, and where reading goes on -----

  /** Something read, with the position after it, or nothing. */
  datatype Read<+T> = Stop | Got(value: T, end: nat)

  function TakeAt(bytes: seq<Byte>, pos: nat, n: nat): Read<seq<Byte>> {
    if pos + n <= |bytes| then Got(bytes[pos..pos + n], pos + n) else Stop
  }

  function ByteAt(bytes: seq<Byte>, pos: nat): Read<Byte> {
    if pos < |bytes| then Got(bytes[pos], pos + 1) else Stop
  }

  function NumberAt(bytes: seq<Byte>, pos: nat, n: nat): Read<nat> {
    match TakeAt(bytes, pos, n)
    case Stop => Stop
    case Got(taken, end) => Got(FromLe(taken), end)
  }

  /** The codec's variable-length size. */
  function SizeAt(bytes: seq<Byte>, pos: nat): Read<nat> {
    match ByteAt(bytes, pos)
    case Stop => Stop
    case Got(b, end) =>
      if b < 254 then Got(b, end) else NumberAt(bytes, end, if b == 254 then 2 else 4)
  }

  /** Padding up to a multiple of 8 from the start of the message. */
  function Padding(pos: nat): nat { (8 - pos % 8) % 8 }

  function IntAt(bytes: seq<Byte>, pos: nat, n: nat): Read<Value> {
    match NumberAt(bytes, pos, n)
    case Stop => Stop
    case Got(v, end) => Got(Int(Signed(v, n)), end)
  }

  function DoubleAt(bytes: seq<Byte>, pos: nat): Read<Value> {
    match TakeAt(bytes, pos, Padding(pos))
    case Stop => Stop
    case Got(_, aligned) =>
      match TakeAt(bytes, aligned, 8)
      case Stop => Stop
      case Got(bits, end) => Got(Double(bits), end)
  }

  function StringAt(bytes: seq<Byte>, pos: nat): Read<Value> {
    match SizeAt(bytes, pos)
    case Stop => Stop
    case Got(n, start) =>
      match TakeAt(bytes, start, n)
      case Stop => Stop
      case Got(text, end) => if Utf8(text) then Got(Str(text), end) else Stop
  }

  /** What follows the tag; nothing can be read after a tag that is not one of these. */
  function TaggedAt(tag: Byte, bytes: seq<Byte>, pos: nat): Read<Value> {
    if tag == T_NULL then Got(Null, pos)
    else if tag == T_TRUE then Got(Bool(true), pos)
    else if tag == T_FALSE then Got(Bool(false), pos)
    else if tag == T_INT32 then IntAt(bytes, pos, 4)
    else if tag == T_INT64 then IntAt(bytes, pos, 8)
    else if tag == T_FLOAT64 then DoubleAt(bytes, pos)
    else if tag == T_STRING then StringAt(bytes, pos)
    else Stop
  }

  function ValueAt(bytes: seq<Byte>, pos: nat): Read<Value> {
    match ByteAt(bytes, pos)
    case Stop => Stop
    case Got(tag, start) => TaggedAt(tag, bytes, start)
  }

  /** One entry: a string key, then a value. */
  function EntryAt(bytes: seq<Byte>, pos: nat): Read<Entry> {
    match ValueAt(bytes, pos)
    case Stop => Stop
    case Got(key, middle) =>
      if !key.Str? then Stop
      else
        match ValueAt(bytes, middle)
        case Stop => Stop
        case Got(value, end) => Got(Entry(key.text, value), end)
  }

  /** The entries up to the first that cannot be decoded, as many as claimed at most. */
  function EntriesAt(bytes: seq<Byte>, pos: nat, n: nat): seq<Entry>
    decreases n
  {
    if n == 0 then []
    else
      match EntryAt(bytes, pos)
      case Stop => []
      case Got(entry, end) => [entry] + EntriesAt(bytes, end, n - 1)
  }

  function HeaderAt(bytes: seq<Byte>): Read<nat> {
    match ByteAt(bytes, 0)
    case Stop => Stop
    case Got(tag, start) => if tag == T_MAP then SizeAt(bytes, start) else Stop
  }

  /** The entries put into a map in order: a key given twice has its last value. */
  function Inserted(m: map<Text, Value>, entries: seq<Entry>): map<Text, Value>
    decreases |entries|
  {
    if entries == [] then m else Inserted(m[entries[0].key := entries[0].value], entries[1..])
  }

  function MapOf(entries: seq<Entry>): map<Text, Value> { Inserted(map[], entries) }

  function Decode(bytes: seq<Byte>): Option<map<Text, Value>> {
    match HeaderAt(bytes)
    case Stop => None
    case Got(n, start) => Some(MapOf(EntriesAt(bytes, start, n)))
  }

  // ----- the source's reader -----

  class Reader {
    const bytes: seq<Byte>
    var pos: nat

    constructor (bytes: seq<Byte>)
      ensures this.bytes == bytes && pos == 0
    {
      this.bytes, pos := bytes, 0;
    }

    method Take(n: nat) returns (taken: Option<seq<Byte>>)
      modifies this`pos
      ensures match TakeAt(bytes, old(pos), n)
              case Stop => taken == None && pos == old(pos)
              case Got(t, end) => taken == Some(t) && pos == end
    {
      if pos + n > |bytes| { return None; }
      taken := Some(bytes[pos..pos + n]);
      pos := pos + n;
    }

    method U8() returns (b: Option<Byte>)
      modifies this`pos
      ensures match ByteAt(bytes, old(pos)) case Stop => b == None case Got(v, end) => b == Some(v) && pos == end
    {
      var taken := Take(1);
      b := if taken.Some? then Some(taken.value[0]) else None;
    }

    method Number(n: nat) returns (v: Option<nat>)
      modifies this`pos
      ensures match NumberAt(bytes, old(pos), n) case Stop => v == None case Got(r, end) => v == Some(r) && pos == end
    {
      var taken := Take(n);
      v := if taken.Some? then Some(FromLe(taken.value)) else None;
    }

    method Size() returns (n: Option<nat>)
      modifies this`pos
      ensures match SizeAt(bytes, old(pos)) case Stop => n == None case Got(v, end) => n == Some(v) && pos == end
    {
      var b := U8();
      if b.None? { return None; }
      if b.value < 254 {
        n := b;
      } else if b.value == 254 {
        n := Number(2);
      } else {
        n := Number(4);
      }
    }

    /** Goes on at the next multiple of eight, counted over the whole message; fails past its end. */
    method Align(to: nat) returns (ok: bool)
      requires to == 8
      modifies this`pos
      ensures match TakeAt(bytes, old(pos), Padding(old(pos))) case Stop => !ok case Got(_, end) => ok && pos == end
    {
      var taken := Take((to - pos % to) % to);
      ok := taken.Some?;
    }

    method Value() returns (v: Option<Value>)
      modifies this`pos
      ensures match ValueAt(bytes, old(pos)) case Stop => v == None case Got(r, end) => v == Some(r) && pos == end
    {
      hide FromLe, Pow256, Utf8;
      v := None;
      var tag := U8();
      if tag.None? { return; }
      if tag.value == T_NULL {
        v := Some(Null);
      } else if tag.value == T_TRUE {
        v := Some(Bool(true));
      } else if tag.value == T_FALSE {
        v := Some(Bool(false));
      } else if tag.value == T_INT32 || tag.value == T_INT64 {
        var width := if tag.value == T_INT32 then 4 else 8;
        var n := Number(width);
        if n.Some? { v := Some(Int(Signed(n.value, width))); }
      } else if tag.value == T_FLOAT64 {
        var aligned := Align(8);
        if !aligned { return; }
        var bits := Take(8);
        if bits.Some? { v := Some(Double(bits.value)); }
      } else if tag.value == T_STRING {
        var n := Size();
        if n.None? { return; }
        var text := Take(n.value);
        if text.Some? && Utf8(text.value) { v := Some(Str(text.value)); }
      }
    }

    /** One round of the loop over the entries: a string key and its value. */
    method NextEntry() returns (entry: Option<Entry>)
      modifies this`pos
      ensures match EntryAt(bytes, old(pos))
              case Stop => entry == None
              case Got(e, end) => entry == Some(e) && pos == end
    {
      hide ValueAt;
      var key := Value();
      if key.None? || !key.value.Str? { return None; }
      var value := Value();
      entry := if value.Some? then Some(Entry(key.value.text, value.value)) else None;
    }
  }

  /** One round of the loop over the entries. */
  method DecodeNext(r: Reader, decoded: map<Text, Value>, ghost left: nat, ghost start: nat, ghost n: nat)
    returns (more: bool, decoded': map<Text, Value>)
    requires left > 0 && LeadsTo(decoded, r.bytes, r.pos, left, start, n)
    modifies r`pos
    ensures more ==> LeadsTo(decoded', r.bytes, r.pos, left - 1, start, n) && old(r.pos) + 3 <= r.pos <= |r.bytes|
    ensures !more ==> IsDecoded(decoded', r.bytes, start, n)
  {
    hide EntryAt, EntriesAt, Inserted, LeadsTo, IsDecoded;
    var entry := r.NextEntry();
    if entry.None? {
      NoneTaken(decoded, r.bytes, old(r.pos), left, start, n);
      return false, decoded;
    }
    OneTaken(decoded, r.bytes, old(r.pos), left, start, n, entry.value, r.pos);
    more, decoded' := true, decoded[entry.value.key := entry.value.value];
  }

  /** The loop over the entries. Rounds counts the ones tried: however many are claimed, no more than a third of the
      bytes there are, and one. */
  method DecodeEntries(r: Reader, n: nat) returns (decoded: map<Text, Value>, rounds: nat)
    requires r.pos <= |r.bytes|
    modifies r`pos
    ensures IsDecoded(decoded, r.bytes, old(r.pos), n)
    ensures 3 * rounds <= |r.bytes| + 3 && rounds <= n
  {
    hide LeadsTo, IsDecoded, EntryAt, EntriesAt;
    decoded, rounds := map[], 0;
    ghost var start: nat := r.pos;
    StartsOut(r.bytes, start, n);
    while rounds < n
      invariant rounds <= n && r.pos <= |r.bytes| && start + 3 * rounds <= r.pos
      invariant LeadsTo(decoded, r.bytes, r.pos, n - rounds, start, n)
      decreases n - rounds
    {
      var more;
      more, decoded := DecodeNext(r, decoded, n - rounds, start, n);
      rounds := rounds + 1;
      if !more { return; }
    }
    NoneTaken(decoded, r.bytes, r.pos, 0, start, n);
  }

  /** Nothing when the message does not start as a map; otherwise what Decode gives, in linear time. */
  method DecodeMap(bytes: seq<Byte>) returns (out: Option<map<Text, Value>>, rounds: nat)
    ensures out == Decode(bytes)
    ensures 3 * rounds <= |bytes| + 3
  {
    var r := new Reader(bytes);
    var tag := r.U8();
    if tag != Some(T_MAP) { return None, 0; }
    var n := r.Size();
    if n.None? { return None, 0; }
    SizeEnds(bytes, 1);
    var decoded;
    decoded, rounds := DecodeEntries(r, n.value);
    out := Some(decoded);
  }

  /** The map has just the entries that can be decoded from the start on. */
  ghost predicate IsDecoded(decoded: map<Text, Value>, bytes: seq<Byte>, start: nat, n: nat) {
    decoded == MapOf(EntriesAt(bytes, start, n))
  }

  /** What was decoded and the entries still to come make the whole map. */
  ghost predicate LeadsTo(decoded: map<Text, Value>, bytes: seq<Byte>, pos: nat, left: nat, start: nat, n: nat) {
    Inserted(decoded, EntriesAt(bytes, pos, left)) == MapOf(EntriesAt(bytes, start, n))
  }

  lemma SizeEnds(bytes: seq<Byte>, pos: nat)
    ensures SizeAt(bytes, pos).Got? ==> pos < SizeAt(bytes, pos).end <= |bytes|
  {
  }

  lemma ValueEnds(bytes: seq<Byte>, pos: nat)
    ensures ValueAt(bytes, pos).Got? ==> pos < ValueAt(bytes, pos).end <= |bytes|
    ensures ValueAt(bytes, pos).Got? && ValueAt(bytes, pos).value.Str? ==> pos + 2 <= ValueAt(bytes, pos).end
  {
    hide FromLe, Utf8;
  }

  lemma EntryEnds(bytes: seq<Byte>, pos: nat)
    ensures EntryAt(bytes, pos).Got? ==> pos + 3 <= EntryAt(bytes, pos).end <= |bytes|
  {
    hide ValueAt;
    ValueEnds(bytes, pos);
    if ValueAt(bytes, pos).Got? { ValueEnds(bytes, ValueAt(bytes, pos).end); }
  }

  lemma StartsOut(bytes: seq<Byte>, start: nat, n: nat)
    ensures LeadsTo(map[], bytes, start, n, start, n)
  {
  }

  lemma OneTaken(decoded: map<Text, Value>, bytes: seq<Byte>, pos: nat, left: nat, start: nat, n: nat, entry: Entry,
                 end: nat)
    requires left > 0 && EntryAt(bytes, pos) == Got(entry, end) && LeadsTo(decoded, bytes, pos, left, start, n)
    ensures LeadsTo(decoded[entry.key := entry.value], bytes, end, left - 1, start, n)
    ensures pos + 3 <= end <= |bytes|
  {
    EntryEnds(bytes, pos);
    hide EntryAt;
    var rest := EntriesAt(bytes, end, left - 1);
    assert ([entry] + rest)[0] == entry && ([entry] + rest)[1..] == rest;
  }

  lemma NoneTaken(decoded: map<Text, Value>, bytes: seq<Byte>, pos: nat, left: nat, start: nat, n: nat)
    requires (left == 0 || EntryAt(bytes, pos) == Stop) && LeadsTo(decoded, bytes, pos, left, start, n)
    ensures IsDecoded(decoded, bytes, start, n)
  {
    hide EntryAt;
  }
}
