/**
 Recursive Length Prefix, Appendix B of the Ethereum Yellow Paper, as the reference
 gate reads and writes it.  `Decode` accepts exactly the encodings of values nested
 within the depth limit: `DecodeSound` and `DecodeComplete` are the two halves.
 */
module Rlp {
  import opened Common

  const MAX_RLP_DEPTH: nat := 4

  /** Payload lengths that eight length bytes can announce. */
  const LENGTH_LIMIT: nat := 0x1_0000_0000_0000_0000

  datatype Rlp = Str(bytes: Bytes) | List(items: seq<Rlp>)

  datatype RlpError =
    | InvalidLength
    | TruncatedItem
    | NestingTooDeep
    | TruncatedString
    | NonCanonicalString
    | NonCanonicalLongString
    | NonCanonicalLongList
    | TruncatedList
    | ChildExceedsList

  // ---------- big-endian integers ----------

  function FromBytes(b: Bytes): nat {
    if b == [] then 0 else FromBytes(b[..|b| - 1]) * 256 + b[|b| - 1]
  }

  function ToBytes(n: nat): Bytes {
    if n == 0 then [] else ToBytes(n / 256) + [n % 256]
  }

  function Pow256(k: nat): (r: nat)
    ensures r > 0
  {
    if k == 0 then 1 else 256 * Pow256(k - 1)
  }

  /** No leading zero: the shape `ToBytes` produces and both decoders insist on. */
  predicate Minimal(b: Bytes) {
    b != [] ==> b[0] != 0
  }

  lemma {:induction false} ToBytesValue(n: nat)
    ensures FromBytes(ToBytes(n)) == n
    ensures Minimal(ToBytes(n))
  {
    if n != 0 {
      ToBytesValue(n / 256);
      var b := ToBytes(n);
      assert b[..|b| - 1] == ToBytes(n / 256);
      if n / 256 != 0 {
        assert ToBytes(n / 256) != [];
        assert b[0] == ToBytes(n / 256)[0];
      }
    }
  }

  lemma {:induction false} ToBytesAppend(high: nat, low: Byte)
    requires high > 0 || low > 0
    ensures ToBytes(high * 256 + low) == ToBytes(high) + [low]
  {
    assert (high * 256 + low) / 256 == high && (high * 256 + low) % 256 == low;
  }

  lemma {:induction false} FromBytesMinimal(b: Bytes)
    requires Minimal(b)
    ensures ToBytes(FromBytes(b)) == b
    ensures b != [] ==> FromBytes(b) > 0
  {
    if b != [] {
      var front, last := b[..|b| - 1], b[|b| - 1];
      assert b == front + [last];
      assert Minimal(front) by {
        if front != [] {
          assert front[0] == b[0];
        }
      }
      FromBytesMinimal(front);
      ToBytesAppend(FromBytes(front), last);
    }
  }

  /** The width of `ToBytes` is the least that holds the number. */
  lemma {:induction false} ToBytesWidth(n: nat, k: nat)
    ensures |ToBytes(n)| <= k <==> n < Pow256(k)
  {
    if k > 0 && n > 0 {
      ToBytesWidth(n / 256, k - 1);
    }
  }

  /** The most significant byte comes first. */
  lemma {:induction false} BigEndian(high: Bytes, low: Bytes)
    ensures FromBytes(high + low) == FromBytes(high) * Pow256(|low|) + FromBytes(low)
    ensures forall x: Byte :: FromBytes([x]) == x
  {
    if low == [] {
      assert high + low == high;
    } else {
      var front, last := low[..|low| - 1], low[|low| - 1];
      BigEndian(high, front);
      assert (high + low)[..|high + low| - 1] == high + front;
      assert FromBytes(high) * Pow256(|low|) == FromBytes(high) * Pow256(|front|) * 256;
    }
  }

  // ---------- encoding ----------

  /**
   The prefix of a payload of n bytes.  The format has no prefix for a payload of 2^64
   bytes or more, and every caller rejects one on its size.
   */
  function Header(short: Byte, long: Byte, n: nat): Bytes
    requires short <= 0xC0 && long <= 0xF7
  {
    if n < 56 then [short + n]
    else
      var length := ToBytes(n);
      [if |length| <= 8 then long + |length| else 0xFF] + length
  }

  function EncodeBytes(value: Bytes): Bytes {
    if |value| == 1 && value[0] < 0x80 then value
    else Header(0x80, 0xB7, |value|) + value
  }

  function Join(items: seq<Bytes>): Bytes {
    if items == [] then [] else items[0] + Join(items[1..])
  }

  function EncodeList(items: seq<Bytes>): Bytes {
    var payload := Join(items);
    Header(0xC0, 0xF7, |payload|) + payload
  }

  /** The encoding of a whole value: each list is `EncodeList` of its encoded children. */
  function Encode(v: Rlp): Bytes
    decreases v, 1
  {
    match v
    case Str(bytes) => EncodeBytes(bytes)
    case List(items) => EncodeList(EncodeEach(items))
  }

  function EncodeEach(items: seq<Rlp>): (r: seq<Bytes>)
    decreases items, 0
  {
    if items == [] then [] else [Encode(items[0])] + EncodeEach(items[1..])
  }

  function Payload(items: seq<Rlp>): Bytes {
    Join(EncodeEach(items))
  }

  /** How many lists enclose the deepest item. */
  function Depth(v: Rlp): nat
    decreases v, 1
  {
    match v
    case Str(_) => 0
    case List(items) => DepthBelow(items)
  }

  function DepthBelow(items: seq<Rlp>): nat
    decreases items, 0
  {
    if items == [] then 0
    else
      var first, rest := 1 + Depth(items[0]), DepthBelow(items[1..]);
      if first >= rest then first else rest
  }

  lemma {:induction false} PayloadCons(v: Rlp, rest: seq<Rlp>)
    ensures Payload([v] + rest) == Encode(v) + Payload(rest)
    ensures DepthBelow([v] + rest) >= 1 + Depth(v)
    ensures DepthBelow([v] + rest) >= DepthBelow(rest)
    ensures DepthBelow([v] + rest) == 1 + Depth(v) || DepthBelow([v] + rest) == DepthBelow(rest)
  {
    assert ([v] + rest)[1..] == rest;
    var each := [Encode(v)] + EncodeEach(rest);
    assert EncodeEach([v] + rest) == each;
    assert each[1..] == EncodeEach(rest);
  }

  /** The rules of the format in its own numbers: bytes below 128 are their own encoding; other strings follow 128 plus
      their length, lists follow 192 plus theirs; from 56 bytes on the length itself follows, big-endian without
      leading zeros, after 183 or 247 plus its width. */
  lemma {:induction false} EncodingRules(b: Bytes, items: seq<Rlp>, length: Bytes)
    requires Minimal(length) && |length| <= 8
    ensures |b| == 1 && b[0] < 128 ==> Encode(Str(b)) == b
    ensures |b| < 56 && !(|b| == 1 && b[0] < 128) ==> Encode(Str(b)) == [128 + |b|] + b
    ensures |b| >= 56 && FromBytes(length) == |b| ==> Encode(Str(b)) == [183 + |length|] + length + b
    ensures |Payload(items)| < 56 ==> Encode(List(items)) == [192 + |Payload(items)|] + Payload(items)
    ensures |Payload(items)| >= 56 && FromBytes(length) == |Payload(items)| ==>
              Encode(List(items)) == [247 + |length|] + length + Payload(items)
    ensures Payload([]) == [] && (items != [] ==> Payload(items) == Encode(items[0]) + Payload(items[1..]))
  {
    FromBytesMinimal(length);
    if items != [] {
      PayloadCons(items[0], items[1..]);
      assert [items[0]] + items[1..] == items;
    }
    hide FromBytes, ToBytes, EncodeEach, Join;
  }

  lemma {:induction false} EncodeNonEmpty(v: Rlp)
    ensures |Encode(v)| > 0
  {}

  // ---------- decoding ----------

  function ReadLength(data: Bytes, offset: nat, lengthSize: nat): Result<(nat, nat), RlpError> {
    var end := offset + lengthSize;
    if lengthSize == 0 || end > |data| || data[offset] == 0 then Err(InvalidLength)
    else Ok((FromBytes(data[offset..end]), end))
  }

  /** What a prefix announces: a one-byte item, or a payload of `length` bytes at `start`. */
  datatype Head = OneByte | StrHead(start: nat, length: nat) | ListHead(start: nat, length: nat)

  function ReadHead(data: Bytes, offset: nat): (r: Result<Head, RlpError>)
    requires offset < |data|
  {
    var prefix := data[offset];
    if prefix <= 0x7F then Ok(OneByte)
    else if prefix <= 0xB7 then Ok(StrHead(offset + 1, prefix - 0x80))
    else if prefix <= 0xBF then
      var size :- ReadLength(data, offset + 1, prefix - 0xB7);
      if size.0 < 56 then Err(NonCanonicalLongString) else Ok(StrHead(size.1, size.0))
    else if prefix <= 0xF7 then Ok(ListHead(offset + 1, prefix - 0xC0))
    else
      var size :- ReadLength(data, offset + 1, prefix - 0xF7);
      if size.0 < 56 then Err(NonCanonicalLongList) else Ok(ListHead(size.1, size.0))
  }

  function DecodeString(data: Bytes, start: nat, length: nat): (r: Result<(Rlp, nat), RlpError>) {
    if start + length > |data| then Err(TruncatedString)
    else if length == 1 && data[start] < 0x80 then Err(NonCanonicalString)
    else Ok((Str(data[start..start + length]), start + length))
  }

  function Decode(data: Bytes, offset: nat, depth: nat): (r: Result<(Rlp, nat), RlpError>)
    ensures r.Ok? ==> offset < r.value.1 <= |data|
    decreases MAX_RLP_DEPTH + 1 - depth, |data| + 1
  {
    if offset >= |data| then Err(TruncatedItem)
    else if depth > MAX_RLP_DEPTH then Err(NestingTooDeep)
    else
      var head :- ReadHead(data, offset);
      match head
      case OneByte => Ok((Str([data[offset]]), offset + 1))
      case StrHead(start, length) => DecodeString(data, start, length)
      case ListHead(start, length) =>
        if start + length > |data| then Err(TruncatedList)
        else
          var items :- DecodeItems(data, start, start + length, depth);
          Ok((List(items), start + length))
  }

  /** The children packed in data[cursor..end], the list itself being at `depth`. */
  function DecodeItems(data: Bytes, cursor: nat, end: nat, depth: nat): (r: Result<seq<Rlp>, RlpError>)
    requires cursor <= end <= |data| && depth <= MAX_RLP_DEPTH
    decreases MAX_RLP_DEPTH + 1 - depth, end - cursor
  {
    if cursor == end then Ok([])
    else
      var item :- Decode(data, cursor, depth + 1);
      if item.1 > end then Err(ChildExceedsList)
      else
        var rest :- DecodeItems(data, item.1, end, depth);
        Ok([item.0] + rest)
  }

  // ---------- prefixes ----------

  predicate Prefixes(short: Byte, long: Byte) {
    (short, long) == (0x80, 0xB7) || (short, long) == (0xC0, 0xF7)
  }

  function HeadOf(short: Byte, start: nat, length: nat): Head {
    if short == 0x80 then StrHead(start, length) else ListHead(start, length)
  }

  /** `part` occurs in `data` at `offset`. */
  predicate At(data: Bytes, offset: nat, part: Bytes) {
    offset + |part| <= |data| && forall i | 0 <= i < |part| :: data[offset + i] == part[i]
  }

  lemma {:induction false} AtSlice(data: Bytes, offset: nat, part: Bytes)
    requires At(data, offset, part)
    ensures data[offset..offset + |part|] == part
  {}

  lemma {:induction false} AtParts(data: Bytes, offset: nat, a: Bytes, b: Bytes)
    ensures At(data, offset, a + b) <==> At(data, offset, a) && At(data, offset + |a|, b)
  {
    if At(data, offset, a + b) {
      assert forall i | 0 <= i < |a| :: (a + b)[i] == a[i];
      assert forall i | 0 <= i < |b| :: (a + b)[|a| + i] == b[i];
    }
  }

  lemma {:induction false} LengthIsRead(data: Bytes, offset: nat, n: nat)
    requires 0 < n < LENGTH_LIMIT && At(data, offset, ToBytes(n))
    ensures 0 < |ToBytes(n)| <= 8
    ensures ReadLength(data, offset, |ToBytes(n)|) == Ok((n, offset + |ToBytes(n)|))
  {
    Pow256Eight();
    ToBytesWidth(n, 8);
    ToBytesValue(n);
    AtSlice(data, offset, ToBytes(n));
  }

  lemma {:induction false} HeaderIsRead(data: Bytes, offset: nat, short: Byte, long: Byte, n: nat)
    requires Prefixes(short, long) && n < LENGTH_LIMIT
    requires At(data, offset, Header(short, long, n))
    ensures ReadHead(data, offset) == Ok(HeadOf(short, offset + |Header(short, long, n)|, n))
  {
    var header := Header(short, long, n);
    assert data[offset + 0] == header[0];
    if n >= 56 {
      AtParts(data, offset, [header[0]], ToBytes(n));
      LengthIsRead(data, offset + 1, n);
    }
  }

  lemma {:induction false} ReadIsHeader(data: Bytes, offset: nat, short: Byte, long: Byte, start: nat, n: nat)
    requires Prefixes(short, long) && offset < |data|
    requires ReadHead(data, offset) == Ok(HeadOf(short, start, n))
    ensures At(data, offset, Header(short, long, n)) && start == offset + |Header(short, long, n)|
  {
    if n >= 56 {
      LengthIsHeader(data, offset, long, start, n);
    }
  }

  lemma {:induction false} LengthIsHeader(data: Bytes, offset: nat, long: Byte, start: nat, n: nat)
    requires offset < |data| && long < data[offset] <= long + 8 && long <= 0xF7 && n >= 56
    requires ReadLength(data, offset + 1, data[offset] - long) == Ok((n, start))
    ensures forall short: Byte | short <= 0xC0 ::
              At(data, offset, Header(short, long, n)) && start == offset + |Header(short, long, n)|
  {
    var length := data[offset + 1..start];
    assert length[0] == data[offset + 1];
    FromBytesMinimal(length);
    AtParts(data, offset, [data[offset]], length);
  }

  lemma {:induction false} Pow256Eight()
    ensures Pow256(8) == LENGTH_LIMIT
  {}

  // ---------- soundness: only encodings are accepted ----------

  lemma {:induction false} OneByteIsEncoding(data: Bytes, offset: nat)
    requires offset < |data| && ReadHead(data, offset) == Ok(OneByte)
    ensures At(data, offset, EncodeBytes([data[offset]])) && |EncodeBytes([data[offset]])| == 1
  {}

  lemma {:induction false} StringIsEncoding(data: Bytes, offset: nat, start: nat, length: nat)
    requires offset < |data| && ReadHead(data, offset) == Ok(StrHead(start, length))
    requires DecodeString(data, start, length).Ok?
    ensures var (v, end) := DecodeString(data, start, length).value;
            v.Str? && At(data, offset, EncodeBytes(v.bytes)) && end == offset + |EncodeBytes(v.bytes)|
  {
    ReadIsHeader(data, offset, 0x80, 0xB7, start, length);
    AtParts(data, offset, Header(0x80, 0xB7, length), data[start..start + length]);
  }

  lemma {:induction false} ListIsEncoding(data: Bytes, offset: nat, start: nat, length: nat, items: seq<Rlp>)
    requires offset < |data| && ReadHead(data, offset) == Ok(ListHead(start, length))
    requires At(data, start, Payload(items)) && length == |Payload(items)|
    ensures At(data, offset, Encode(List(items))) && start + length == offset + |Encode(List(items))|
  {
    ReadIsHeader(data, offset, 0xC0, 0xF7, start, length);
    AtParts(data, offset, Header(0xC0, 0xF7, length), Payload(items));
  }

  /** The bytes from `offset` to `end` are the encoding of v, which fits at this depth. */
  predicate Consumed(data: Bytes, offset: nat, depth: nat, v: Rlp, end: nat) {
    At(data, offset, Encode(v)) && end == offset + |Encode(v)| && depth + Depth(v) <= 4
  }

  /** Whatever the decoder returns, the bytes it consumed are that value's encoding. */
  lemma {:induction false} DecodeSound(data: Bytes, offset: nat, depth: nat)
    requires Decode(data, offset, depth).Ok?
    ensures Consumed(data, offset, depth, Decode(data, offset, depth).value.0, Decode(data, offset, depth).value.1)
    decreases MAX_RLP_DEPTH + 1 - depth, |data| + 1
  {
    match ReadHead(data, offset).value
    case OneByte =>
      OneByteIsEncoding(data, offset);
    case StrHead(start, length) =>
      StringIsEncoding(data, offset, start, length);
    case ListHead(start, length) =>
      DecodeItemsSound(data, start, start + length, depth);
      ListIsEncoding(data, offset, start, length, DecodeItems(data, start, start + length, depth).value);
  }

  lemma {:induction false} DecodeItemsSound(data: Bytes, cursor: nat, end: nat, depth: nat)
    requires cursor <= end <= |data| && depth <= MAX_RLP_DEPTH
    requires DecodeItems(data, cursor, end, depth).Ok?
    ensures var items := DecodeItems(data, cursor, end, depth).value;
            At(data, cursor, Payload(items)) && end == cursor + |Payload(items)|
            && depth + DepthBelow(items) <= MAX_RLP_DEPTH
    decreases MAX_RLP_DEPTH + 1 - depth, end - cursor
  {
    if cursor < end {
      var (v, next) := Decode(data, cursor, depth + 1).value;
      var rest := DecodeItems(data, next, end, depth).value;
      DecodeSound(data, cursor, depth + 1);
      DecodeItemsSound(data, next, end, depth);
      PayloadCons(v, rest);
      AtParts(data, cursor, Encode(v), Payload(rest));
    }
  }

  // ---------- completeness: every encoding is accepted, whatever follows it ----------

  lemma {:induction false} HeadedStringComplete(data: Bytes, offset: nat, bytes: Bytes)
    requires !(|bytes| == 1 && bytes[0] < 0x80)
    requires At(data, offset, EncodeBytes(bytes)) && |bytes| < LENGTH_LIMIT
    ensures var start := offset + |EncodeBytes(bytes)| - |bytes|;
            && offset < start && ReadHead(data, offset) == Ok(StrHead(start, |bytes|))
            && DecodeString(data, start, |bytes|) == Ok((Str(bytes), offset + |EncodeBytes(bytes)|))
  {
    var header := Header(0x80, 0xB7, |bytes|);
    AtParts(data, offset, header, bytes);
    HeaderIsRead(data, offset, 0x80, 0xB7, |bytes|);
    AtSlice(data, offset + |header|, bytes);
  }

  lemma {:induction false} StringComplete(data: Bytes, offset: nat, depth: nat, bytes: Bytes)
    requires At(data, offset, EncodeBytes(bytes)) && depth <= MAX_RLP_DEPTH
    requires |EncodeBytes(bytes)| < LENGTH_LIMIT
    ensures Decode(data, offset, depth) == Ok((Str(bytes), offset + |EncodeBytes(bytes)|))
  {
    if |bytes| == 1 && bytes[0] < 0x80 {
      AtSlice(data, offset, bytes);
      assert bytes == [data[offset]];
    } else {
      HeadedStringComplete(data, offset, bytes);
    }
  }

  lemma {:induction false} ListHeadComplete(data: Bytes, offset: nat, items: seq<Rlp>, payload: Bytes, start: nat)
    requires payload == Payload(items) && start == offset + |Encode(List(items))| - |payload|
    requires At(data, offset, Encode(List(items))) && |payload| < LENGTH_LIMIT
    ensures offset < start && At(data, start, payload)
    ensures ReadHead(data, offset) == Ok(ListHead(start, |payload|))
  {
    AtParts(data, offset, Header(0xC0, 0xF7, |payload|), payload);
    HeaderIsRead(data, offset, 0xC0, 0xF7, |payload|);
  }

  lemma {:induction false} ListSizes(data: Bytes, offset: nat, items: seq<Rlp>)
    requires At(data, offset, Encode(List(items)))
    ensures |Payload(items)| < |Encode(List(items))| && offset + |Encode(List(items))| <= |data|
  {}

  lemma {:induction false} DecodeListStep(data: Bytes, offset: nat, depth: nat, start: nat, length: nat, items: seq<Rlp>)
    requires offset < start && start + length <= |data| && depth <= MAX_RLP_DEPTH
    requires ReadHead(data, offset) == Ok(ListHead(start, length))
    requires DecodeItems(data, start, start + length, depth) == Ok(items)
    ensures Decode(data, offset, depth) == Ok((List(items), start + length))
  {}

  lemma {:induction false} DecodeComplete(data: Bytes, offset: nat, depth: nat, v: Rlp)
    requires At(data, offset, Encode(v)) && depth + Depth(v) <= 4
    requires |Encode(v)| < LENGTH_LIMIT
    ensures Decode(data, offset, depth) == Ok((v, offset + |Encode(v)|))
    decreases |Encode(v)|, 0
  {
    match v
    case Str(bytes) =>
      StringComplete(data, offset, depth, bytes);
    case List(items) =>
      hide At, Decode, DecodeItems, ReadHead, Payload, Encode;
      ListSizes(data, offset, items);
      var start := offset + |Encode(v)| - |Payload(items)|;
      ListHeadComplete(data, offset, items, Payload(items), start);
      DecodeItemsComplete(data, start, depth, items);
      DecodeListStep(data, offset, depth, start, |Payload(items)|, items);
  }

  lemma {:induction false} DecodeItemsStep(data: Bytes, cursor: nat, end: nat, depth: nat, v: Rlp, next: nat, rest: seq<Rlp>)
    requires cursor < next <= end <= |data| && depth <= MAX_RLP_DEPTH
    requires Decode(data, cursor, depth + 1) == Ok((v, next)) && DecodeItems(data, next, end, depth) == Ok(rest)
    ensures DecodeItems(data, cursor, end, depth) == Ok([v] + rest)
  {}

  lemma {:induction false} DecodeItemsComplete(data: Bytes, cursor: nat, depth: nat, items: seq<Rlp>)
    requires At(data, cursor, Payload(items)) && depth + DepthBelow(items) <= MAX_RLP_DEPTH
    requires |Payload(items)| < LENGTH_LIMIT
    ensures DecodeItems(data, cursor, cursor + |Payload(items)|, depth) == Ok(items)
    decreases |Payload(items)|, 1
  {
    hide At, Encode, Payload, Depth, DepthBelow, Decode, DecodeItems;
    if items == [] {
      NoItems(data, cursor, depth);
    } else {
      var v, rest := items[0], items[1..];
      ItemsParts(data, cursor, items);
      DecodeComplete(data, cursor, depth + 1, v);
      DecodeItemsComplete(data, cursor + |Encode(v)|, depth, rest);
      DecodeItemsStep(data, cursor, cursor + |Payload(items)|, depth, v, cursor + |Encode(v)|, rest);
      assert items == [v] + rest;
    }
  }

  lemma {:induction false} NoItems(data: Bytes, cursor: nat, depth: nat)
    requires At(data, cursor, Payload([])) && depth <= MAX_RLP_DEPTH
    ensures Payload([]) == [] && DecodeItems(data, cursor, cursor, depth) == Ok([])
  {}

  lemma {:induction false} ItemsParts(data: Bytes, cursor: nat, items: seq<Rlp>)
    requires items != [] && At(data, cursor, Payload(items))
    ensures At(data, cursor, Encode(items[0])) && At(data, cursor + |Encode(items[0])|, Payload(items[1..]))
    ensures 0 < |Encode(items[0])| && cursor + |Payload(items)| <= |data|
    ensures |Payload(items)| == |Encode(items[0])| + |Payload(items[1..])|
    ensures 1 + Depth(items[0]) <= DepthBelow(items) && DepthBelow(items[1..]) <= DepthBelow(items)
  {
    var v, rest := items[0], items[1..];
    assert items == [v] + rest;
    PayloadCons(v, rest);
    AtParts(data, cursor, Encode(v), Payload(rest));
    EncodeNonEmpty(v);
  }

  // ---------- the cursor loop ----------

  /** The decoder as it runs: a cursor over the list's payload, items appended one by one. */
  method DecodeRlp(data: Bytes, offset: nat, depth: nat) returns (r: Result<(Rlp, nat), RlpError>)
    ensures r == Decode(data, offset, depth)
    decreases MAX_RLP_DEPTH + 1 - depth
  {
    if offset >= |data| {
      return Err(TruncatedItem);
    }
    if depth > MAX_RLP_DEPTH {
      return Err(NestingTooDeep);
    }
    var head :- ReadHead(data, offset);
    match head
    case OneByte =>
      return Ok((Str([data[offset]]), offset + 1));
    case StrHead(start, length) =>
      if start + length > |data| {
        return Err(TruncatedString);
      }
      if length == 1 && data[start] < 0x80 {
        return Err(NonCanonicalString);
      }
      return Ok((Str(data[start..start + length]), start + length));
    case ListHead(start, length) =>
      var end := start + length;
      if end > |data| {
        return Err(TruncatedList);
      }
      var items: seq<Rlp> := [];
      var cursor := start;
      PrependNone(DecodeItems(data, start, end, depth));
      while cursor < end
        invariant start <= cursor <= end
        invariant DecodeItems(data, start, end, depth) == Prepend(items, DecodeItems(data, cursor, end, depth))
      {
        var item :- DecodeRlp(data, cursor, depth + 1);
        if item.1 > end {
          return Err(ChildExceedsList);
        }
        PrependOne(items, item.0, DecodeItems(data, item.1, end, depth));
        items := items + [item.0];
        cursor := item.1;
      }
      assert items + [] == items;
      return Ok((List(items), end));
  }

  ghost function Prepend(items: seq<Rlp>, rest: Result<seq<Rlp>, RlpError>): Result<seq<Rlp>, RlpError> {
    if rest.Err? then rest else Ok(items + rest.value)
  }

  lemma {:induction false} PrependNone(rest: Result<seq<Rlp>, RlpError>)
    ensures Prepend([], rest) == rest
  {
    if rest.Ok? {
      assert [] + rest.value == rest.value;
    }
  }

  lemma {:induction false} PrependOne(items: seq<Rlp>, item: Rlp, rest: Result<seq<Rlp>, RlpError>)
    ensures Prepend(items, Prepend([item], rest)) == Prepend(items + [item], rest)
  {
    if rest.Ok? {
      assert items + ([item] + rest.value) == items + [item] + rest.value;
    }
  }
}
