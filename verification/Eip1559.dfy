/**
 The unsigned type-2 payload of the "Specification" section of EIP-1559 inside an
 EIP-2718 envelope, restricted to calls with an empty access list.  Encoding and
 decoding are mutually inverse between valid transactions and accepted payloads.
 */
module Eip1559 {
  import opened Common
  import opened Rlp

  const MAX_TRANSACTION_BYTES: nat := 128 * 1024

  /** Integers are unbounded as in the source; `to` and `calldata` are raw bytes, not hex text. */
  datatype UnsignedTx = UnsignedTx(
    chainId: int,
    nonce: int,
    maxPriorityFeePerGas: int,
    maxFeePerGas: int,
    gasLimit: int,
    to: Bytes,
    value: int,
    calldata: Bytes)

  datatype TxError =
    | NotTypeTwo
    | SizeLimit
    | BadRlp(rlp: RlpError)
    | TrailingBytes
    | WrongFieldCount
    | BadTarget
    | CalldataNotBytes
    | AccessListNotEmpty
    | NotAByteString
    | LeadingZero
    | NotPositive
    | PriorityAboveMaximum
    | Negative

  // ---------- encoding ----------

  function EncodeInteger(n: nat): Bytes {
    EncodeBytes(ToBytes(n))
  }

  function EncodeTx(tx: UnsignedTx): (r: Result<Bytes, TxError>) {
    if |tx.to| != 20 then Err(BadTarget)
    else if tx.chainId <= 0 || tx.gasLimit <= 0 || tx.maxFeePerGas <= 0 then Err(NotPositive)
    else if tx.maxPriorityFeePerGas > tx.maxFeePerGas then Err(PriorityAboveMaximum)
    else if tx.nonce < 0 || tx.maxPriorityFeePerGas < 0 || tx.value < 0 then Err(Negative)
    else
      var encoded := [0x02] + EncodeList(EncodedFields(tx));
      if |encoded| > MAX_TRANSACTION_BYTES then Err(SizeLimit) else Ok(encoded)
  }

  /** What a signable transaction must satisfy apart from its size. */
  predicate Shaped(tx: UnsignedTx) {
    && |tx.to| == 20
    && tx.chainId > 0 && tx.gasLimit > 0 && tx.maxFeePerGas > 0
    && tx.nonce >= 0 && tx.value >= 0
    && 0 <= tx.maxPriorityFeePerGas <= tx.maxFeePerGas
  }

  function EncodedFields(tx: UnsignedTx): (r: seq<Bytes>)
    requires tx.chainId >= 0 && tx.nonce >= 0 && tx.maxPriorityFeePerGas >= 0 && tx.maxFeePerGas >= 0
    requires tx.gasLimit >= 0 && tx.value >= 0
  {
    [ EncodeInteger(tx.chainId), EncodeInteger(tx.nonce), EncodeInteger(tx.maxPriorityFeePerGas),
      EncodeInteger(tx.maxFeePerGas), EncodeInteger(tx.gasLimit), EncodeBytes(tx.to),
      EncodeInteger(tx.value), EncodeBytes(tx.calldata), EncodeList([]) ]
  }

  // ---------- decoding ----------

  function Integer(v: Rlp): (r: Result<nat, TxError>) {
    match v
    case List(_) => Err(NotAByteString)
    case Str(bytes) => if bytes != [] && bytes[0] == 0 then Err(LeadingZero) else Ok(FromBytes(bytes))
  }

  function DecodeTx(encoded: Bytes): (r: Result<UnsignedTx, TxError>) {
    if encoded == [] || encoded[0] != 0x02 then Err(NotTypeTwo)
    else if |encoded| > MAX_TRANSACTION_BYTES then Err(SizeLimit)
    else
      match Decode(encoded, 1, 0)
      case Err(error) => Err(BadRlp(error))
      case Ok((transaction, cursor)) =>
        if cursor != |encoded| then Err(TrailingBytes)
        else if transaction.Str? || |transaction.items| != 9 then Err(WrongFieldCount)
        else FromFields(transaction.items)
  }

  function FromFields(f: seq<Rlp>): (r: Result<UnsignedTx, TxError>)
    requires |f| == 9
  {
    if f[5].List? || |f[5].bytes| != 20 then Err(BadTarget)
    else if f[7].List? then Err(CalldataNotBytes)
    else if f[8].Str? || f[8].items != [] then Err(AccessListNotEmpty)
    else
      var chainId :- Integer(f[0]);
      var nonce :- Integer(f[1]);
      var priorityFee :- Integer(f[2]);
      var maxFee :- Integer(f[3]);
      var gasLimit :- Integer(f[4]);
      var value :- Integer(f[6]);
      if chainId <= 0 || gasLimit <= 0 || maxFee <= 0 then Err(NotPositive)
      else if priorityFee > maxFee then Err(PriorityAboveMaximum)
      else Ok(UnsignedTx(chainId, nonce, priorityFee, maxFee, gasLimit, f[5].bytes, value, f[7].bytes))
  }

  // ---------- fields ----------

  function Fields(tx: UnsignedTx): (r: seq<Rlp>)
    requires Shaped(tx)
  {
    [ Str(ToBytes(tx.chainId)), Str(ToBytes(tx.nonce)), Str(ToBytes(tx.maxPriorityFeePerGas)),
      Str(ToBytes(tx.maxFeePerGas)), Str(ToBytes(tx.gasLimit)), Str(tx.to),
      Str(ToBytes(tx.value)), Str(tx.calldata), List([]) ]
  }

  lemma {:induction false} EachIsEncoded(items: seq<Rlp>)
    ensures |EncodeEach(items)| == |items|
    ensures forall i | 0 <= i < |items| :: EncodeEach(items)[i] == Encode(items[i])
    decreases |items|
  {
    if items != [] {
      EachIsEncoded(items[1..]);
    }
  }

  lemma {:induction false} FlatDepth(items: seq<Rlp>)
    requires forall i | 0 <= i < |items| :: Depth(items[i]) == 0
    ensures DepthBelow(items) <= 1
    decreases |items|
  {
    if items != [] {
      FlatDepth(items[1..]);
    }
  }

  lemma {:induction false} FieldsAreEncoded(tx: UnsignedTx)
    requires Shaped(tx)
    ensures EncodeList(EncodedFields(tx)) == Encode(List(Fields(tx)))
    ensures Depth(List(Fields(tx))) <= 1
  {
    EachIsEncoded(Fields(tx));
    assert EncodeEach(Fields(tx)) == EncodedFields(tx);
    FlatDepth(Fields(tx));
  }

  lemma {:induction false} IntegerUndoes(n: nat)
    ensures Integer(Str(ToBytes(n))) == Ok(n)
  {
    ToBytesValue(n);
  }

  lemma {:induction false} FieldsAreRead(tx: UnsignedTx)
    requires Shaped(tx)
    ensures FromFields(Fields(tx)) == Ok(tx)
  {
    IntegerUndoes(tx.chainId);
    IntegerUndoes(tx.nonce);
    IntegerUndoes(tx.maxPriorityFeePerGas);
    IntegerUndoes(tx.maxFeePerGas);
    IntegerUndoes(tx.gasLimit);
    IntegerUndoes(tx.value);
  }

  lemma {:induction false} ReadIntegerIsCanonical(v: Rlp)
    requires Integer(v).Ok?
    ensures v == Str(ToBytes(Integer(v).value))
  {
    FromBytesMinimal(v.bytes);
  }

  lemma {:induction false} ReadFieldsAreCanonical(f: seq<Rlp>)
    requires |f| == 9 && FromFields(f).Ok?
    ensures Shaped(FromFields(f).value) && Fields(FromFields(f).value) == f
  {
    ReadIntegerIsCanonical(f[0]);
    ReadIntegerIsCanonical(f[1]);
    ReadIntegerIsCanonical(f[2]);
    ReadIntegerIsCanonical(f[3]);
    ReadIntegerIsCanonical(f[4]);
    ReadIntegerIsCanonical(f[6]);
  }

  // ---------- the bijection ----------

  lemma {:induction false} EncodeAcceptsExactly(tx: UnsignedTx)
    ensures EncodeTx(tx).Ok? <==> Shaped(tx) && 1 + |Encode(List(Fields(tx)))| <= 131_072
    ensures EncodeTx(tx).Ok? ==> EncodeTx(tx).value == [0x02] + Encode(List(Fields(tx)))
  {
    if Shaped(tx) {
      FieldsAreEncoded(tx);
    }
  }

  lemma {:induction false} BodyIsDecoded(tx: UnsignedTx, encoded: Bytes)
    requires Shaped(tx) && encoded == [0x02] + Encode(List(Fields(tx))) && |encoded| <= MAX_TRANSACTION_BYTES
    ensures Decode(encoded, 1, 0) == Ok((List(Fields(tx)), |encoded|))
  {
    FieldsAreEncoded(tx);
    var v := List(Fields(tx));
    assert At(encoded, 1, Encode(v)) by {
      AtParts(encoded, 0, [0x02], Encode(v));
    }
    DecodeComplete(encoded, 1, 0, v);
  }

  /** Round trip: decoding undoes encoding. */
  lemma {:induction false} DecodeUndoesEncode(tx: UnsignedTx)
    requires EncodeTx(tx).Ok?
    ensures DecodeTx(EncodeTx(tx).value) == Ok(tx)
  {
    EncodeAcceptsExactly(tx);
    FieldsAreRead(tx);
    BodyIsDecoded(tx, EncodeTx(tx).value);
  }

  lemma {:induction false} AcceptedParts(encoded: Bytes)
    requires DecodeTx(encoded).Ok?
    ensures |encoded| <= MAX_TRANSACTION_BYTES && encoded[0] == 0x02
    ensures Decode(encoded, 1, 0).Ok?
    ensures var (v, end) := Decode(encoded, 1, 0).value;
            && end == |encoded| && v.List? && |v.items| == 9
            && FromFields(v.items) == DecodeTx(encoded)
  {}

  /** Canonicity: an accepted payload is the one encoding of what it decodes to. */
  lemma {:induction false} EncodeUndoesDecode(encoded: Bytes)
    requires DecodeTx(encoded).Ok?
    ensures EncodeTx(DecodeTx(encoded).value) == Ok(encoded)
  {
    AcceptedParts(encoded);
    var tx, v := DecodeTx(encoded).value, Decode(encoded, 1, 0).value.0;
    DecodeSound(encoded, 1, 0);
    ReadFieldsAreCanonical(v.items);
    assert v == List(Fields(tx));
    assert encoded == [0x02] + Encode(v);
    EncodeAcceptsExactly(tx);
  }

  /** The byte string's number, big-endian and without leading zeros. */
  predicate Reads(v: Rlp, n: int) {
    v.Str? && Minimal(v.bytes) && FromBytes(v.bytes) == n
  }

  /** The nine items in the order of the specification: chain id, nonce, priority fee, maximum fee, gas limit,
      destination, value, data and an empty access list. */
  predicate ListsFields(f: seq<Rlp>, tx: UnsignedTx) {
    && |f| == 9 && Reads(f[0], tx.chainId) && Reads(f[1], tx.nonce)
    && Reads(f[2], tx.maxPriorityFeePerGas) && Reads(f[3], tx.maxFeePerGas) && Reads(f[4], tx.gasLimit)
    && f[5] == Str(tx.to) && Reads(f[6], tx.value) && f[7] == Str(tx.calldata) && f[8] == List([])
  }

  lemma {:induction false} FieldsInOrder(tx: UnsignedTx)
    requires Shaped(tx)
    ensures ListsFields(Fields(tx), tx)
  {
    hide FromBytes, ToBytes, Minimal;
    ToBytesValue(tx.chainId);
    ToBytesValue(tx.nonce);
    ToBytesValue(tx.maxPriorityFeePerGas);
    ToBytesValue(tx.maxFeePerGas);
    ToBytesValue(tx.gasLimit);
    ToBytesValue(tx.value);
  }

  /** An accepted payload lists the fields of what it decodes to in that order. */
  lemma {:induction false} FieldOrder(encoded: Bytes)
    requires DecodeTx(encoded).Ok?
    ensures exists f: seq<Rlp> :: encoded == [0x02] + Encode(List(f)) && ListsFields(f, DecodeTx(encoded).value)
  {
    var tx := DecodeTx(encoded).value;
    EncodeUndoesDecode(encoded);
    EncodeAcceptsExactly(tx);
    FieldsInOrder(tx);
    hide DecodeTx, EncodeTx, Encode, ListsFields;
    assert encoded == [0x02] + Encode(List(Fields(tx)));
  }

  /** One payload byte by byte: chain 1, nonce 0, fees 2 and 3, gas 21000, value 1, no data. */
  lemma {:induction false} OnePayload(to: Bytes)
    requires |to| == 20
    ensures EncodeTx(UnsignedTx(1, 0, 2, 3, 21_000, to, 1, []))
         == Ok([0x02, 0xDF, 0x01, 0x80, 0x02, 0x03, 0x82, 0x52, 0x08, 0x94] + to + [0x01, 0x80, 0xC0])
  {
    SmallNumbers();
    var fields := [[0x01], [0x80], [0x02], [0x03], [0x82, 0x52, 0x08], [0x94] + to, [0x01], [0x80], [0xC0]];
    assert EncodeBytes(to) == [0x94] + to;
    assert EncodedFields(UnsignedTx(1, 0, 2, 3, 21_000, to, 1, [])) == fields;
    OneList(to, fields);
    hide EncodeList, EncodeInteger, EncodeBytes;
  }

  lemma {:induction false} OneList(to: Bytes, fields: seq<Bytes>)
    requires |to| == 20
    requires fields == [[0x01], [0x80], [0x02], [0x03], [0x82, 0x52, 0x08], [0x94] + to, [0x01], [0x80], [0xC0]]
    ensures [0x02] + EncodeList(fields)
         == [0x02, 0xDF, 0x01, 0x80, 0x02, 0x03, 0x82, 0x52, 0x08, 0x94] + to + [0x01, 0x80, 0xC0]
  {
    JoinNine(fields);
    var payload := [0x01, 0x80, 0x02, 0x03, 0x82, 0x52, 0x08, 0x94] + to + [0x01, 0x80, 0xC0];
    assert Join(fields) == payload;
    hide Join;
    assert EncodeList(fields) == [0xDF] + payload;
  }

  lemma {:induction false} SmallNumbers()
    ensures EncodeInteger(0) == [0x80] && EncodeInteger(1) == [0x01] && EncodeInteger(2) == [0x02]
    ensures EncodeInteger(3) == [0x03] && EncodeInteger(21_000) == [0x82, 0x52, 0x08]
    ensures EncodeBytes([]) == [0x80] && EncodeList([]) == [0xC0]
  {
    assert ToBytes(82) == [82];
    assert ToBytes(21_000) == [82, 8];
  }

  lemma {:induction false} JoinNine(f: seq<Bytes>)
    requires |f| == 9
    ensures Join(f) == f[0] + f[1] + f[2] + f[3] + f[4] + f[5] + f[6] + f[7] + f[8]
  {
    JoinSplits(f, 3);
    JoinSplits(f[3..], 3);
    JoinThree(f[..3]);
    JoinThree(f[3..6]);
    JoinThree(f[6..]);
    assert f[3..][..3] == f[3..6] && f[3..][3..] == f[6..];
  }

  lemma {:induction false} JoinThree(f: seq<Bytes>)
    requires |f| == 3
    ensures Join(f) == f[0] + f[1] + f[2]
  {
    assert f[1..][1..] == [f[2]] && f[1..][1..][1..] == [];
    assert Join([f[2]]) == f[2] + Join([]);
    assert Join(f[1..]) == f[1] + Join([f[2]]);
  }

  lemma {:induction false} JoinSplits(f: seq<Bytes>, k: nat)
    requires k <= |f|
    ensures Join(f) == Join(f[..k]) + Join(f[k..])
    decreases |f|
  {
    if k == 0 {
      assert f[k..] == f;
    } else {
      JoinSplits(f[1..], k - 1);
      assert f[1..][..k - 1] == f[..k][1..] && f[1..][k - 1..] == f[k..];
    }
  }

  lemma {:induction false} DecodeInjective(p: Bytes, q: Bytes)
    requires DecodeTx(p).Ok? && DecodeTx(p) == DecodeTx(q)
    ensures p == q
  {
    EncodeUndoesDecode(p);
    EncodeUndoesDecode(q);
  }

  /** The accepted payloads are exactly the encoder's outputs. */
  lemma {:induction false} AcceptedAreEncodings(p: Bytes)
    ensures DecodeTx(p).Ok? <==> exists tx :: EncodeTx(tx) == Ok(p)
  {
    if DecodeTx(p).Ok? {
      EncodeUndoesDecode(p);
    }
    if tx :| EncodeTx(tx) == Ok(p) {
      DecodeUndoesEncode(tx);
    }
  }
}
