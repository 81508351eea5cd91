/**
 * The broker's command-response writer: a builder whose setters fill the
 * fields of an ExecuteCommandResponse message, and a serialiser that lays
 * the message out in the Simple Binary Encoding (SBE) message structure:
 *
 *   message header | fixed block | value length | value | reason length | reason
 *
 * The two length prefixes are SBE variable-length data headers of 16 bits.
 * The generated encoders are not part of this model: the encoded message
 * header, the block length, the block encoding, the byte order and the
 * encoders' null values are the parameters gathered in `Schema`.
 */
module CommandResponse {
  import opened Wrappers

  newtype byte = x: int | 0 <= x < 0x100
  newtype int16 = x: int | -0x8000 <= x < 0x8000
  newtype int32 = x: int | -0x8000_0000 <= x < 0x8000_0000
  newtype int64 = x: int | -0x8000_0000_0000_0000 <= x < 0x8000_0000_0000_0000

  datatype ByteOrder = LittleEndian | BigEndian

  /** A value of one of the protocol's SBE enums (RecordType, ValueType, RejectionType). */
  datatype SbeEnum = NullVal | Member(ordinal: nat)

  /** An intent constant; the writer keeps only its `value()`. */
  datatype Intent = Intent(value: int16)

  /** The fields of the ExecuteCommandResponse fixed block. */
  datatype BlockFields = BlockFields(
    recordType: SbeEnum,
    partitionId: int32,
    valueType: SbeEnum,
    intent: int16,
    key: int64,
    rejectionType: SbeEnum)

  /**
   * What the generated encoders fix: the bytes of the message header
   * (block length, template id, schema id, version), the block length and
   * the block encoding, the byte order, and the null values of the
   * partition id, the key and the intent.
   */
  datatype Schema = Schema(
    header: seq<byte>,
    blockLength: nat,
    encodeBlock: BlockFields -> seq<byte>,
    order: ByteOrder,
    partitionIdNull: int32,
    keyNull: int64,
    intentNull: int16)

  /** The block encoding fills exactly the block. */
  ghost predicate ValidSchema(sc: Schema) {
    forall f: BlockFields :: |sc.encodeBlock(f)| == sc.blockLength
  }

  /** `valueHeaderLength()` and `rejectionReasonHeaderLength()`: a 16-bit length. */
  const VarDataHeaderLength: nat := 2

  /** The largest length the encoder's `putRejectionReason` accepts (uint16, less its null value). */
  const MaxVarDataLength: nat := 0xFFFE

  // ---------------------------------------------------------------------------
  // 16-bit length prefixes

  /** Java's `(short) n`: keeps the low 16 bits, read as two's complement. */
  function ToShort(n: int): (s: int16)
    ensures (s as int - n) % 0x10000 == 0
  {
    ((n + 0x8000) % 0x10000 - 0x8000) as int16
  }

  /** `putShort(offset, s, order)`: the two bytes of `s`. */
  function ShortBytes(order: ByteOrder, s: int16): (b: seq<byte>)
    ensures |b| == 2
  {
    var u := (s as int) % 0x10000;
    var lo := (u % 0x100) as byte;
    var hi := (u / 0x100) as byte;
    if order == LittleEndian then [lo, hi] else [hi, lo]
  }

  /** How an SBE decoder reads a 16-bit length: unsigned. */
  function ReadLength(order: ByteOrder, b0: byte, b1: byte): (n: nat)
    ensures n < 0x10000
  {
    if order == LittleEndian then b0 as int + 0x100 * b1 as int else 0x100 * b0 as int + b1 as int
  }

  /** The length prefix the writer puts in front of `n` bytes of variable-length data. */
  function LengthPrefix(order: ByteOrder, n: nat): (b: seq<byte>)
    ensures |b| == VarDataHeaderLength
  {
    ShortBytes(order, ToShort(n))
  }

  /** A length prefix reads back as the length modulo 2^16. */
  lemma PrefixReadsBack(order: ByteOrder, n: nat)
    ensures ReadLength(order, LengthPrefix(order, n)[0], LengthPrefix(order, n)[1]) == n % 0x10000
  {
    var u := (ToShort(n) as int) % 0x10000;
    assert u == n % 0x10000;
    assert (u % 0x100) + 0x100 * (u / 0x100) == u;
  }

  /** Any two bytes are the prefix of the length they read as. */
  lemma PrefixOfReadLength(order: ByteOrder, b0: byte, b1: byte)
    ensures LengthPrefix(order, ReadLength(order, b0, b1)) == [b0, b1]
  {
    var n := ReadLength(order, b0, b1);
    ShortOfSmall(n);
    if order == LittleEndian {
      SplitsIntoBytes(b0, b1);
    } else {
      SplitsIntoBytes(b1, b0);
    }
  }

  /** A length below 2^16 survives the narrowing to `short` and back to 16 unsigned bits. */
  lemma ShortOfSmall(n: nat)
    requires n < 0x10000
    ensures (ToShort(n) as int) % 0x10000 == n
  {
    if n < 0x8000 {
      assert ToShort(n) as int == n;
    } else {
      assert ToShort(n) as int == n - 0x10000;
    }
  }

  /** The low and the high byte of a 16-bit number are the bytes it was made of. */
  lemma SplitsIntoBytes(lo: byte, hi: byte)
    ensures (lo as int + 0x100 * hi as int) % 0x100 == lo as int
    ensures (lo as int + 0x100 * hi as int) / 0x100 == hi as int
  {
  }

  /** A value of 2^16 bytes gets the same prefix as an empty one. */
  lemma PrefixWrapsAt64K(order: ByteOrder)
    ensures LengthPrefix(order, 0x10000) == LengthPrefix(order, 0)
    ensures ReadLength(order, LengthPrefix(order, 0x10000)[0], LengthPrefix(order, 0x10000)[1]) == 0
  {
    PrefixReadsBack(order, 0x10000);
  }

  // ---------------------------------------------------------------------------
  // The message layout

  /** The bytes `write` lays out for the given block, value and rejection reason. */
  function EncodeResponse(sc: Schema, block: BlockFields, value: seq<byte>, reason: seq<byte>): (m: seq<byte>)
  {
    sc.header + sc.encodeBlock(block)
      + LengthPrefix(sc.order, |value|) + value
      + LengthPrefix(sc.order, |reason|) + reason
  }

  /** `getLength`: the sum of the lengths of the message's six parts. */
  function ResponseLength(sc: Schema, valueLength: nat, reasonLength: nat): nat {
    |sc.header| + sc.blockLength + VarDataHeaderLength + valueLength + VarDataHeaderLength + reasonLength
  }

  /** A message read back into its parts. */
  datatype Decoded = Decoded(header: seq<byte>, block: seq<byte>, value: seq<byte>, reason: seq<byte>)

  /** Reads the length-prefixed field of `m` at `at`: its bytes and the index where it ends. */
  function ReadVarData(order: ByteOrder, m: seq<byte>, at: nat): (r: Option<(seq<byte>, nat)>)
    ensures r.Some? ==>
      && r.value.1 == at + VarDataHeaderLength + |r.value.0| <= |m|
      && ReadLength(order, m[at], m[at + 1]) == |r.value.0|
      && m[at + 2 .. r.value.1] == r.value.0
    ensures r.None? <==> |m| < at + 2 || |m| < at + 2 + ReadLength(order, m[at], m[at + 1])
  {
    if |m| < at + 2 then None
    else
      var n := ReadLength(order, m[at], m[at + 1]);
      if |m| < at + 2 + n then None
      else Some((m[at + 2 .. at + 2 + n], at + 2 + n))
  }

  /** A field that fits its 16-bit prefix, sitting at `at` behind that prefix, reads back. */
  lemma ReadVarDataAt(order: ByteOrder, m: seq<byte>, at: nat, data: seq<byte>)
    requires |data| < 0x10000 && at + VarDataHeaderLength + |data| <= |m|
    requires m[at .. at + 2] == LengthPrefix(order, |data|) && m[at + 2 .. at + 2 + |data|] == data
    ensures ReadVarData(order, m, at) == Some((data, at + VarDataHeaderLength + |data|))
  {
    var p := LengthPrefix(order, |data|);
    PrefixReadsBack(order, |data|);
    assert m[at] == p[0] && m[at + 1] == p[1];
  }

  /**
   * Reads a message as an SBE decoder does: the header and the block by
   * their lengths, then each variable-length field by its prefix; None when
   * the prefixes do not account for exactly the bytes given.
   */
  function DecodeResponse(sc: Schema, m: seq<byte>): Option<Decoded> {
    var h, b := |sc.header|, sc.blockLength;
    if |m| < h + b then None
    else
      match ReadVarData(sc.order, m, h + b)
      case None => None
      case Some((value, at)) =>
        match ReadVarData(sc.order, m, at)
        case None => None
        case Some((reason, end)) =>
          if end != |m| then None
          else Some(Decoded(m[..h], m[h .. h + b], value, reason))
  }

  /**
   * Whatever the decoder accepts is header, block, prefixed value and
   * prefixed reason, concatenated in write order.
   */
  lemma DecodeResponseParts(sc: Schema, m: seq<byte>)
    requires DecodeResponse(sc, m).Some?
    ensures var d := DecodeResponse(sc, m).value;
      && |d.header| == |sc.header| && |d.block| == sc.blockLength
      && m == d.header + d.block + LengthPrefix(sc.order, |d.value|) + d.value
           + LengthPrefix(sc.order, |d.reason|) + d.reason
  {
    var h, b := |sc.header|, sc.blockLength;
    var (value, at) := ReadVarData(sc.order, m, h + b).value;
    var (reason, end) := ReadVarData(sc.order, m, at).value;
    assert DecodeResponse(sc, m).value == Decoded(m[..h], m[h .. h + b], value, reason);
    FieldBehindPrefix(sc.order, m, h + b, value, at);
    FieldBehindPrefix(sc.order, m, at, reason, end);
    assert m[at ..] == m[at .. end];
    SplitInFour(m, h, h + b, at);
    Regroup(m[..h], m[h .. h + b], LengthPrefix(sc.order, |value|), value, LengthPrefix(sc.order, |reason|), reason);
  }

  /** Concatenation regrouped: each prefix joined to its field, or all six parts in a row. */
  lemma Regroup<T>(a: seq<T>, b: seq<T>, c: seq<T>, d: seq<T>, e: seq<T>, f: seq<T>)
    ensures a + b + (c + d) + (e + f) == a + b + c + d + e + f
  {
  }

  /** A field read at `at` is its own prefix followed by its bytes. */
  lemma FieldBehindPrefix(order: ByteOrder, m: seq<byte>, at: nat, data: seq<byte>, end: nat)
    requires ReadVarData(order, m, at) == Some((data, end))
    ensures m[at .. end] == LengthPrefix(order, |data|) + data
  {
    PrefixOfReadLength(order, m[at], m[at + 1]);
    assert m[at .. end] == [m[at], m[at + 1]] + m[at + 2 .. end];
  }

  /** A sequence is the concatenation of the four pieces cut at `i`, `j` and `k`. */
  lemma SplitInFour<T>(m: seq<T>, i: nat, j: nat, k: nat)
    requires i <= j <= k <= |m|
    ensures m == m[..i] + m[i .. j] + m[j .. k] + m[k ..]
  {
    assert m[..j] == m[..i] + m[i .. j];
    assert m[..k] == m[..j] + m[j .. k];
  }

  /** The parts of an encoded message sit where `write` puts them, one after the other. */
  lemma ResponseLayout(sc: Schema, block: BlockFields, value: seq<byte>, reason: seq<byte>)
    requires ValidSchema(sc)
    ensures var m, h, b := EncodeResponse(sc, block, value, reason), |sc.header|, sc.blockLength;
      && |m| == ResponseLength(sc, |value|, |reason|)
      && m[..h] == sc.header
      && m[h .. h + b] == sc.encodeBlock(block)
      && m[h + b .. h + b + 2] == LengthPrefix(sc.order, |value|)
      && m[h + b + 2 .. h + b + 2 + |value|] == value
      && m[h + b + 2 + |value| .. h + b + 4 + |value|] == LengthPrefix(sc.order, |reason|)
      && m[h + b + 4 + |value| ..] == reason
  {
    var m, h, b := EncodeResponse(sc, block, value, reason), |sc.header|, sc.blockLength;
    var p0 := sc.header + sc.encodeBlock(block);
    var p1 := p0 + LengthPrefix(sc.order, |value|);
    var p2 := p1 + value;
    var p3 := p2 + LengthPrefix(sc.order, |reason|);
    assert m == p3 + reason;
    assert m[..h] == p0[..h];
    assert m[h .. h + b] == p0[h..];
    assert m[h + b .. h + b + 2] == p1[h + b ..];
    assert m[h + b + 2 .. h + b + 2 + |value|] == p2[h + b + 2 ..];
    assert m[h + b + 2 + |value| .. h + b + 4 + |value|] == p3[h + b + 2 + |value| ..];
  }

  /**
   * A decoder gets back the header, the block, the value and the reason
   * from what `write` lays out, as long as each fits its 16-bit prefix.
   */
  lemma DecodeEncode(sc: Schema, block: BlockFields, value: seq<byte>, reason: seq<byte>)
    requires ValidSchema(sc) && |value| < 0x10000 && |reason| < 0x10000
    ensures DecodeResponse(sc, EncodeResponse(sc, block, value, reason))
         == Some(Decoded(sc.header, sc.encodeBlock(block), value, reason))
  {
    ResponseLayout(sc, block, value, reason);
    DecodeLaidOut(sc, EncodeResponse(sc, block, value, reason), sc.encodeBlock(block), value, reason);
  }

  /** A message whose parts sit where `write` puts them decodes into those parts. */
  lemma DecodeLaidOut(sc: Schema, m: seq<byte>, block: seq<byte>, value: seq<byte>, reason: seq<byte>)
    requires |block| == sc.blockLength && |value| < 0x10000 && |reason| < 0x10000
    requires var h, b := |sc.header|, sc.blockLength;
      && |m| == ResponseLength(sc, |value|, |reason|)
      && m[..h] == sc.header
      && m[h .. h + b] == block
      && m[h + b .. h + b + 2] == LengthPrefix(sc.order, |value|)
      && m[h + b + 2 .. h + b + 2 + |value|] == value
      && m[h + b + 2 + |value| .. h + b + 4 + |value|] == LengthPrefix(sc.order, |reason|)
      && m[h + b + 4 + |value| ..] == reason
    ensures DecodeResponse(sc, m) == Some(Decoded(sc.header, block, value, reason))
  {
    var h, b := |sc.header|, sc.blockLength;
    var at := h + b + 2 + |value|;
    ReadVarDataAt(sc.order, m, h + b, value);
    ReadVarDataAt(sc.order, m, at, reason);
    DecodeFromFields(sc, m, value, at, reason);
  }

  /** When both variable-length fields read back and the second ends the message, the message decodes. */
  lemma DecodeFromFields(sc: Schema, m: seq<byte>, value: seq<byte>, at: nat, reason: seq<byte>)
    requires |sc.header| + sc.blockLength <= |m|
    requires ReadVarData(sc.order, m, |sc.header| + sc.blockLength) == Some((value, at))
    requires ReadVarData(sc.order, m, at) == Some((reason, |m|))
    ensures DecodeResponse(sc, m) == Some(Decoded(m[..|sc.header|], m[|sc.header| .. |sc.header| + sc.blockLength], value, reason))
  {
  }

  /**
   * A value of exactly 2^16 bytes is written with the prefix of an empty
   * value, and the message no longer decodes.
   */
  lemma ValueOf64KUndecodable(sc: Schema, block: BlockFields, value: seq<byte>, reason: seq<byte>)
    requires ValidSchema(sc) && |value| == 0x10000
    ensures DecodeResponse(sc, EncodeResponse(sc, block, value, reason)).None?
  {
    var m, h, b := EncodeResponse(sc, block, value, reason), |sc.header|, sc.blockLength;
    ResponseLayout(sc, block, value, reason);
    PrefixWrapsAt64K(sc.order);
    assert m[h + b] == LengthPrefix(sc.order, 0x10000)[0] && m[h + b + 1] == LengthPrefix(sc.order, 0x10000)[1];
  }

  /** A splice of `piece` right after `p + d` in `p + d + r`. */
  lemma SpliceAfter(p: seq<byte>, d: seq<byte>, r: seq<byte>, piece: seq<byte>)
    requires |piece| <= |r|
    ensures (p + d + r)[..|p| + |d|] + piece + (p + d + r)[|p| + |d| + |piece|..] == p + (d + piece) + r[|piece|..]
  {
    var w := p + d + r;
    assert w[..|p| + |d|] == p + d;
    assert w[|p| + |d| + |piece|..] == r[|piece|..];
  }

  /** Copies `bytes` into `buffer` from index `at` on, as `putBytes` does. */
  method PutBytes(buffer: array<byte>, at: nat, bytes: seq<byte>)
    requires at + |bytes| <= buffer.Length
    modifies buffer
    ensures buffer[..] == old(buffer[..at]) + bytes + old(buffer[at + |bytes|..])
  {
    var k := 0;
    while k < |bytes|
      invariant 0 <= k <= |bytes|
      invariant forall i | 0 <= i < buffer.Length ::
        buffer[i] == if at <= i < at + k then bytes[i - at] else old(buffer[i])
    {
      buffer[at + k] := bytes[k];
      k := k + 1;
    }
    assert buffer[..] == old(buffer[..at]) + bytes + old(buffer[at + |bytes|..]);
  }

  /**
   * Puts `piece` at `cur`, where the bytes `done` written since `offset`
   * end, and advances past it; `orig` is the buffer before the first put.
   */
  method PutNext(buffer: array<byte>, ghost orig: seq<byte>, offset: nat, ghost done: seq<byte>, cur: nat, piece: seq<byte>)
    returns (next: nat, ghost done': seq<byte>)
    requires cur == offset + |done| && cur + |piece| <= |orig| == buffer.Length
    requires buffer[..] == orig[..offset] + done + orig[cur..]
    modifies buffer
    ensures next == cur + |piece| && done' == done + piece
    ensures buffer[..] == orig[..offset] + done' + orig[next..]
  {
    SpliceAfter(orig[..offset], done, orig[cur..], piece);
    PutBytes(buffer, cur, piece);
    next, done' := cur + |piece|, done + piece;
    assert orig[cur..][|piece|..] == orig[next..];
  }

  // ---------------------------------------------------------------------------
  // The writer

  /** The record value's BufferWriter: `getLength` is the number of bytes it writes. */
  datatype ValueWriter = ValueWriter(bytes: seq<byte>)

  /** The fields the setters and `reset` assign; None is a null value writer. */
  datatype WriterFields = WriterFields(
    partitionId: int32,
    key: int64,
    valueWriter: Option<ValueWriter>,
    recordType: SbeEnum,
    valueType: SbeEnum,
    intent: int16,
    rejectionType: SbeEnum,
    rejectionReason: seq<byte>)

  /** Every field at its null value and an empty rejection reason: the writer as constructed. */
  function NullFields(sc: Schema): (f: WriterFields)
    ensures f.valueWriter.None? && f.rejectionReason == []
    ensures f.recordType == f.valueType == f.rejectionType == NullVal
    ensures f.partitionId == sc.partitionIdNull && f.key == sc.keyNull && f.intent == sc.intentNull
  {
    WriterFields(sc.partitionIdNull, sc.keyNull, None, NullVal, NullVal, sc.intentNull, NullVal, [])
  }

  /** The block fields `write` hands to the response encoder. */
  function BlockOf(f: WriterFields): BlockFields {
    BlockFields(f.recordType, f.partitionId, f.valueType, f.intent, f.key, f.rejectionType)
  }

  /** What the transport records of a response it sent. */
  datatype ServerResponse = ServerResponse(remoteStreamId: int32, requestId: int64, message: seq<byte>)

  /** How `sendResponse` ended: it returned whether the response was accepted, or threw. */
  datatype SendOutcome = Returned(accepted: bool) | Threw

  datatype Failure = NullValueWriter | EncodingFailure

  /** How `tryWriteResponse` ended. */
  datatype WriteOutcome = Done(accepted: bool) | Failed(failure: Failure)

  /** The backpressure limiter; the model keeps the responses it is told about. */
  class RequestLimiter {
    var responses: seq<(int32, int64)>

    constructor ()
      ensures responses == []
    {
      responses := [];
    }

    method OnResponse(remoteStreamId: int32, requestId: int64)
      modifies this
      ensures responses == old(responses) + [(remoteStreamId, requestId)]
    {
      responses := responses + [(remoteStreamId, requestId)];
    }
  }

  /**
   * The transport's server output. Whether it has room for a response is
   * decided outside (`accepting`); when it has, it asks the writer for its
   * length, has it write into a buffer of that length, and keeps the bytes.
   */
  class ServerOutput {
    var accepting: bool
    var sent: seq<ServerResponse>

    constructor (accepting: bool)
      ensures this.accepting == accepting && sent == []
    {
      this.accepting := accepting;
      sent := [];
    }

    method SendResponse(remoteStreamId: int32, requestId: int64, writer: CommandResponseWriter) returns (r: SendOutcome)
      requires ValidSchema(writer.schema) && writer.valueWriter.Some?
      modifies this
      ensures accepting == old(accepting)
      ensures !accepting ==> r == Returned(false) && sent == old(sent)
      ensures accepting && |writer.rejectionReason| > MaxVarDataLength ==> r == Threw && sent == old(sent)
      ensures accepting && |writer.rejectionReason| <= MaxVarDataLength ==>
        r == Returned(true) && sent == old(sent) + [ServerResponse(remoteStreamId, requestId, writer.Encoded())]
    {
      if !accepting {
        return Returned(false);
      }
      if |writer.rejectionReason| > MaxVarDataLength {
        // the response encoder refuses a rejection reason its prefix cannot hold
        return Threw;
      }
      var buffer := new byte[writer.GetLength()];
      writer.Write(buffer, 0);
      assert buffer[..] == writer.Encoded();
      sent := sent + [ServerResponse(remoteStreamId, requestId, buffer[..])];
      r := Returned(true);
    }
  }

  class CommandResponseWriter {
    const schema: Schema
    const output: ServerOutput
    const limiter: RequestLimiter
    var partitionId: int32
    var key: int64
    var valueWriter: Option<ValueWriter>
    var recordType: SbeEnum
    var valueType: SbeEnum
    var intent: int16
    var rejectionType: SbeEnum
    var rejectionReason: seq<byte>

    function Fields(): WriterFields
      reads this
    {
      WriterFields(partitionId, key, valueWriter, recordType, valueType, intent, rejectionType, rejectionReason)
    }

    /** The bytes `write` produces for the current fields. */
    function Encoded(): seq<byte>
      reads this
      requires valueWriter.Some?
    {
      EncodeResponse(schema, BlockOf(Fields()), valueWriter.value.bytes, rejectionReason)
    }

    constructor (sc: Schema, output: ServerOutput, limiter: RequestLimiter)
      ensures schema == sc && this.output == output && this.limiter == limiter
      ensures Fields() == NullFields(sc)
    {
      schema, this.output, this.limiter := sc, output, limiter;
      partitionId, key, valueWriter := sc.partitionIdNull, sc.keyNull, None;
      recordType, valueType, intent, rejectionType := NullVal, NullVal, sc.intentNull, NullVal;
      rejectionReason := [];
    }

    method SetRecordType(recordType: SbeEnum) returns (w: CommandResponseWriter)
      modifies this
      ensures w == this && Fields() == old(Fields()).(recordType := recordType)
    {
      this.recordType := recordType;
      w := this;
    }

    method SetIntent(intent: Intent) returns (w: CommandResponseWriter)
      modifies this
      ensures w == this && Fields() == old(Fields()).(intent := intent.value)
    {
      this.intent := intent.value;
      w := this;
    }

    method SetValueType(valueType: SbeEnum) returns (w: CommandResponseWriter)
      modifies this
      ensures w == this && Fields() == old(Fields()).(valueType := valueType)
    {
      this.valueType := valueType;
      w := this;
    }

    method SetPartitionId(partitionId: int32) returns (w: CommandResponseWriter)
      modifies this
      ensures w == this && Fields() == old(Fields()).(partitionId := partitionId)
    {
      this.partitionId := partitionId;
      w := this;
    }

    method SetRejectionType(rejectionType: SbeEnum) returns (w: CommandResponseWriter)
      modifies this
      ensures w == this && Fields() == old(Fields()).(rejectionType := rejectionType)
    {
      this.rejectionType := rejectionType;
      w := this;
    }

    /** The stored reason views the whole of the given buffer. */
    method SetRejectionReason(rejectionReason: seq<byte>) returns (w: CommandResponseWriter)
      modifies this
      ensures w == this && Fields() == old(Fields()).(rejectionReason := rejectionReason)
    {
      this.rejectionReason := rejectionReason;
      w := this;
    }

    method SetKey(key: int64) returns (w: CommandResponseWriter)
      modifies this
      ensures w == this && Fields() == old(Fields()).(key := key)
    {
      this.key := key;
      w := this;
    }

    /** `valueWriter(writer)`; None is a null writer, which `tryWriteResponse` then refuses. */
    method SetValueWriter(writer: Option<ValueWriter>) returns (w: CommandResponseWriter)
      modifies this
      ensures w == this && Fields() == old(Fields()).(valueWriter := writer)
    {
      valueWriter := writer;
      w := this;
    }

    /** Every field back to its null value: the state the constructor leaves. */
    method Reset()
      modifies this
      ensures Fields() == NullFields(schema)
    {
      partitionId := schema.partitionIdNull;
      key := schema.keyNull;
      valueWriter := None;
      recordType := NullVal;
      intent := schema.intentNull;
      valueType := NullVal;
      rejectionType := NullVal;
      rejectionReason := [];
    }

    /** `getLength`: exactly the number of bytes `write` lays out. */
    function GetLength(): (n: nat)
      reads this
      requires valueWriter.Some?
      ensures ValidSchema(schema) ==> n == |Encoded()|
    {
      |schema.header| + schema.blockLength + VarDataHeaderLength + |valueWriter.value.bytes|
        + VarDataHeaderLength + |rejectionReason|
    }

    /**
     * `write`: the header at `offset`, the block right after it, then the
     * value's 16-bit length, the value, and the rejection reason with its
     * length; nothing outside those bytes changes.
     */
    method Write(buffer: array<byte>, offset: nat)
      requires ValidSchema(schema) && valueWriter.Some? && |rejectionReason| <= MaxVarDataLength
      requires offset + GetLength() <= buffer.Length
      modifies buffer
      ensures buffer[..] == old(buffer[..offset]) + Encoded() + old(buffer[offset + GetLength()..])
    {
      ghost var orig := buffer[..];
      ghost var message := Encoded();
      ghost var done: seq<byte> := [];
      var cur := offset;
      var header := schema.header;
      var block := schema.encodeBlock(BlockOf(Fields()));
      var value := valueWriter.value.bytes;
      var reason := rejectionReason;
      var order := schema.order;
      assert |block| == schema.blockLength;
      assert message == header + block + LengthPrefix(order, |value|) + value + LengthPrefix(order, |reason|) + reason;

      // protocol header
      cur, done := PutNext(buffer, orig, offset, done, cur, header);
      assert done == header;
      // protocol message
      cur, done := PutNext(buffer, orig, offset, done, cur, block);
      var eventLength := |value|;
      assert ShortBytes(order, ToShort(eventLength)) == LengthPrefix(order, |value|);
      cur, done := PutNext(buffer, orig, offset, done, cur, ShortBytes(order, ToShort(eventLength)));
      cur, done := PutNext(buffer, orig, offset, done, cur, value);
      // rejection reason, through the response encoder
      cur, done := PutNext(buffer, orig, offset, done, cur, LengthPrefix(order, |reason|));
      cur, done := PutNext(buffer, orig, offset, done, cur, reason);
      assert done == message;
      assert cur == offset + GetLength();
    }

    /**
     * `tryWriteResponse`: without a value writer it fails before anything
     * happens; otherwise it tells the limiter, returns what `sendResponse`
     * returns, and resets the writer however sending ends.
     */
    method TryWriteResponse(remoteStreamId: int32, requestId: int64) returns (r: WriteOutcome)
      requires ValidSchema(schema)
      modifies this, output, limiter
      ensures old(valueWriter).None? ==>
        && r == Failed(NullValueWriter) && Fields() == old(Fields())
        && output.sent == old(output.sent) && limiter.responses == old(limiter.responses)
      ensures old(valueWriter).Some? ==>
        && limiter.responses == old(limiter.responses) + [(remoteStreamId, requestId)]
        && Fields() == NullFields(schema)
        && r == (if !old(output.accepting) then Done(false)
                 else if |old(rejectionReason)| > MaxVarDataLength then Failed(EncodingFailure)
                 else Done(true))
        && output.sent == if r == Done(true)
                          then old(output.sent) + [ServerResponse(remoteStreamId, requestId, old(Encoded()))]
                          else old(output.sent)
      ensures output.accepting == old(output.accepting)
    {
      if valueWriter.None? {
        return Failed(NullValueWriter);
      }
      limiter.OnResponse(remoteStreamId, requestId);
      var sent := output.SendResponse(remoteStreamId, requestId, this);
      r := if sent.Threw? then Failed(EncodingFailure) else Done(sent.accepted);
      Reset();
    }
  }
}
