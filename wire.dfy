/**
 * The body of an OP_QUERY command message (MongoDB Wire Protocol): int32 flags,
 * the collection name as a NUL-terminated string, int32 numberToSkip, int32
 * numberToReturn, then the command document, whose size is checked against the
 * server's maximum document size.
 */
module Wire {
  import opened Wrappers
  import opened Documents

  /** An octet of the wire format. */
  newtype byte = b: int | 0 <= b < 0x100

  /** Java's 32-bit int. */
  type Int32 = x: int | -0x8000_0000 <= x < 0x8000_0000

  /** The OP_QUERY operation code. */
  const OpQuery: Int32 := 2004

  /** An int32 as the buffer writes it: four bytes, little-endian two's complement. */
  function Int32Bytes(v: Int32): (b: seq<byte>)
    ensures |b| == 4
  {
    var u := if v < 0 then v + 0x1_0000_0000 else v;
    var u1 := u / 0x100;
    var u2 := u1 / 0x100;
    [(u % 0x100) as byte, (u1 % 0x100) as byte, (u2 % 0x100) as byte, (u2 / 0x100) as byte]
  }

  /** Reads back four little-endian bytes as an int32. */
  function Int32Of(b: seq<byte>): Int32
    requires |b| == 4
  {
    var u := b[0] as int + 0x100 * (b[1] as int + 0x100 * (b[2] as int + 0x100 * (b[3] as int)));
    if u >= 0x8000_0000 then u - 0x1_0000_0000 else u
  }

  lemma Int32RoundTrip(v: Int32)
    ensures Int32Of(Int32Bytes(v)) == v
  {
    var u := if v < 0 then v + 0x1_0000_0000 else v;
    var u1 := u / 0x100;
    var u2 := u1 / 0x100;
    assert u == u % 0x100 + 0x100 * u1;
    assert u1 == u1 % 0x100 + 0x100 * u2;
    assert u2 == u2 % 0x100 + 0x100 * (u2 / 0x100);
    assert 0 <= u2 / 0x100 < 0x100;
    var b := Int32Bytes(v);
    assert b[0] as int == u % 0x100 && b[1] as int == u1 % 0x100;
    assert b[2] as int == u2 % 0x100 && b[3] as int == u2 / 0x100;
  }

  /** A NUL-terminated string: its bytes, then a zero byte. */
  function CString(s: seq<byte>): seq<byte> {
    s + [0]
  }

  /** The fixed fields of the command body: flags 0, the name, skip 0, numberToReturn -1. */
  function QueryPrefix(collectionName: seq<byte>): seq<byte> {
    Int32Bytes(0) + CString(collectionName) + Int32Bytes(0) + Int32Bytes(-1)
  }

  /** The length of the string up to its first zero byte, if there is one. */
  function CStringLength(b: seq<byte>): (r: Option<nat>)
    ensures r.Some? ==> r.value < |b| && b[r.value] == 0 && 0 !in b[..r.value]
    ensures r.None? ==> 0 !in b
  {
    if b == [] then None
    else if b[0] == 0 then Some(0)
    else match CStringLength(b[1..]) {
      case None => None
      case Some(n) => assert b[..n + 1] == [b[0]] + b[1..][..n]; Some(n + 1)
    }
  }

  /** The fields of an OP_QUERY body as a server reads them. */
  datatype QueryFields = QueryFields(flags: Int32, collectionName: seq<byte>, skip: Int32, numberToReturn: Int32, document: seq<byte>)

  function ParseQueryBody(b: seq<byte>): Option<QueryFields> {
    if |b| < 4 then None
    else match CStringLength(b[4..]) {
      case None => None
      case Some(n) =>
        var rest := b[4 + n + 1..];
        if |rest| < 8 then None
        else Some(QueryFields(Int32Of(b[..4]), b[4..4 + n], Int32Of(rest[..4]), Int32Of(rest[4..8]), rest[8..]))
    }
  }

  lemma {:induction false} CStringLengthOf(s: seq<byte>, rest: seq<byte>)
    requires 0 !in s
    ensures CStringLength(CString(s) + rest) == Some(|s|)
  {
    if s != [] {
      assert (CString(s) + rest)[1..] == CString(s[1..]) + rest;
      CStringLengthOf(s[1..], rest);
    }
  }

  /** Parsing the written body gives back its fields and the document bytes. */
  lemma QueryBodyRoundTrip(collectionName: seq<byte>, document: seq<byte>)
    requires 0 !in collectionName
    ensures ParseQueryBody(QueryPrefix(collectionName) + document)
         == Some(QueryFields(0, collectionName, 0, -1, document))
  {
    var b := QueryPrefix(collectionName) + document;
    var n := |collectionName|;
    assert b[4..] == CString(collectionName) + (Int32Bytes(0) + Int32Bytes(-1) + document);
    CStringLengthOf(collectionName, Int32Bytes(0) + Int32Bytes(-1) + document);
    var rest := b[4 + n + 1..];
    assert rest == Int32Bytes(0) + Int32Bytes(-1) + document;
    assert b[..4] == Int32Bytes(0) && b[4..4 + n] == collectionName;
    assert rest[..4] == Int32Bytes(0) && rest[4..8] == Int32Bytes(-1) && rest[8..] == document;
    Int32RoundTrip(0);
    Int32RoundTrip(-1);
  }

  /**
   * Why a command was not encoded: it was oversized (with its size and the limit),
   * or the command encoder threw.
   */
  datatype EncodeError = InvalidDocument(documentSize: int, maxDocumentSize: int) | EncoderFailed

  /**
   * One run of the command encoder: it completes having written `bytes`, or throws
   * having written `bytes` so far.
   */
  datatype EncoderRun = Completed(bytes: seq<byte>) | Threw(bytes: seq<byte>)

  /** Whether a command of `documentSize` bytes is refused: the comparison is strict. */
  function CheckSize(documentSize: int, maxDocumentSize: int): (r: Outcome<EncodeError>)
    ensures r.Fail? <==> documentSize > maxDocumentSize
    ensures r.Fail? ==> r.error == InvalidDocument(documentSize, maxDocumentSize)
  {
    if documentSize > maxDocumentSize then Fail(InvalidDocument(documentSize, maxDocumentSize)) else Pass
  }

  /** What encodeCommand reports: the encoder's exception, or the size check of what it wrote. */
  function CommandOutcome(run: EncoderRun, maxDocumentSize: int): (r: Outcome<EncodeError>)
    ensures r.Pass? <==> run.Completed? && |run.bytes| <= maxDocumentSize
    ensures run.Threw? ==> r == Fail(EncoderFailed)
    ensures run.Completed? ==> r == CheckSize(|run.bytes|, maxDocumentSize)
  {
    match run
    case Threw(_) => Fail(EncoderFailed)
    case Completed(b) => CheckSize(|b|, maxDocumentSize)
  }

  /**
   * The command bytes left in the buffer: a completed command only if it fits,
   * and whatever a throwing encoder wrote, since the size check and the
   * truncation are then skipped.
   */
  function CommandBytesKept(run: EncoderRun, maxDocumentSize: int): (b: seq<byte>)
    ensures run.Threw? ==> b == run.bytes
    ensures run.Completed? ==> b == (if |run.bytes| <= maxDocumentSize then run.bytes else [])
  {
    match run
    case Threw(written) => written
    case Completed(bytes) => if CheckSize(|bytes|, maxDocumentSize).Pass? then bytes else []
  }

  /** What the body encoding leaves in the buffer after it. */
  function BodyBytes(collectionName: seq<byte>, run: EncoderRun, maxDocumentSize: int): seq<byte> {
    QueryPrefix(collectionName) + CommandBytesKept(run, maxDocumentSize)
  }

  /** A document of exactly the maximum size is kept and follows the fixed fields. */
  lemma MaxSizedDocumentAccepted(collectionName: seq<byte>, commandBytes: seq<byte>)
    requires 0 !in collectionName
    ensures ParseQueryBody(BodyBytes(collectionName, Completed(commandBytes), |commandBytes|))
         == Some(QueryFields(0, collectionName, 0, -1, commandBytes))
  {
    QueryBodyRoundTrip(collectionName, commandBytes);
  }

  /** An oversized document leaves the fixed fields and no document bytes. */
  lemma OversizedDocumentLeavesNoBytes(collectionName: seq<byte>, commandBytes: seq<byte>, maxDocumentSize: int)
    requires 0 !in collectionName && |commandBytes| > maxDocumentSize
    ensures ParseQueryBody(BodyBytes(collectionName, Completed(commandBytes), maxDocumentSize))
         == Some(QueryFields(0, collectionName, 0, -1, []))
  {
    assert BodyBytes(collectionName, Completed(commandBytes), maxDocumentSize) == QueryPrefix(collectionName) + [];
    QueryBodyRoundTrip(collectionName, []);
  }

  /**
   * A throwing encoder leaves its partial bytes after the fixed fields, whatever
   * their size: nothing is truncated on that exit.
   */
  lemma ThrownEncodingLeavesPartialBytes(collectionName: seq<byte>, written: seq<byte>, maxDocumentSize: int)
    requires 0 !in collectionName
    ensures ParseQueryBody(BodyBytes(collectionName, Threw(written), maxDocumentSize))
         == Some(QueryFields(0, collectionName, 0, -1, written))
  {
    QueryBodyRoundTrip(collectionName, written);
  }

  /** A growable output buffer; its position is the number of bytes written. */
  class OutputBuffer {
    var bytes: seq<byte>
    var closed: bool

    constructor ()
      ensures bytes == [] && !closed
    {
      bytes := [];
      closed := false;
    }

    function Position(): (p: nat)
      reads this
      ensures p == |bytes|
    {
      |bytes|
    }

    method WriteInt32(v: Int32)
      modifies this`bytes
      ensures bytes == old(bytes) + Int32Bytes(v)
    {
      bytes := bytes + Int32Bytes(v);
    }

    method WriteCString(s: seq<byte>)
      modifies this`bytes
      ensures bytes == old(bytes) + CString(s)
    {
      bytes := bytes + CString(s);
    }

    method WriteBytes(b: seq<byte>)
      modifies this`bytes
      ensures bytes == old(bytes) + b
    {
      bytes := bytes + b;
    }

    /** Drops every byte at or after `position`. */
    method TruncateToPosition(position: nat)
      requires position <= |bytes|
      modifies this`bytes
      ensures bytes == old(bytes)[..position]
    {
      bytes := bytes[..position];
    }

    method Close()
      modifies this`closed
      ensures closed
    {
      closed := true;
    }
  }

  /**
   * A command message carrying a payload: its collection name (as bytes), the
   * command, and the encoder that writes the command with its payload (the BSON
   * encoding itself is not part of this model, so the encoder is a parameter,
   * and what it writes, or that it throws, is its result).
   */
  class CommandWithPayloadMessage {
    const collectionName: seq<byte>
    const command: Document
    const encoder: Document -> EncoderRun
    const maxDocumentSize: int
    const opCode: Int32
    const id: int

    constructor (collectionName: seq<byte>, command: Document, encoder: Document -> EncoderRun, maxDocumentSize: int, id: int)
      ensures this.collectionName == collectionName && this.command == command && this.encoder == encoder
      ensures this.maxDocumentSize == maxDocumentSize && this.id == id
      ensures opCode == OpQuery
    {
      this.collectionName := collectionName;
      this.command := command;
      this.encoder := encoder;
      this.maxDocumentSize := maxDocumentSize;
      this.id := id;
      opCode := OpQuery;
    }

    /** Writes the body; there is never a follow-on message. */
    method EncodeMessageBody(buffer: OutputBuffer, messageStartPosition: int)
      returns (r: Result<Option<CommandWithPayloadMessage>, EncodeError>)
      modifies buffer`bytes
      ensures buffer.bytes == old(buffer.bytes) + BodyBytes(collectionName, encoder(command), maxDocumentSize)
      ensures r.Success? <==> CommandOutcome(encoder(command), maxDocumentSize).Pass?
      ensures r.Success? ==> r.value == None
      ensures r.Failure? ==> r.error == CommandOutcome(encoder(command), maxDocumentSize).error
    {
      buffer.WriteInt32(0);
      buffer.WriteCString(collectionName);
      buffer.WriteInt32(0);
      buffer.WriteInt32(-1);
      var checked := EncodeCommand(buffer);
      if checked.Fail? {
        return Failure(checked.error);
      }
      return Success(None);
    }

    /**
     * Writes the command, and rolls the buffer back to where it started if it is
     * too large; when the encoder throws, what it wrote stays.
     */
    method EncodeCommand(buffer: OutputBuffer) returns (r: Outcome<EncodeError>)
      modifies buffer`bytes
      ensures r == CommandOutcome(encoder(command), maxDocumentSize)
      ensures r.Pass? ==> buffer.bytes == old(buffer.bytes) + encoder(command).bytes
      ensures r == Fail(EncoderFailed) ==> buffer.bytes == old(buffer.bytes) + encoder(command).bytes
      ensures r.Fail? && r.error.InvalidDocument? ==> buffer.bytes == old(buffer.bytes)
    {
      var startPosition := buffer.Position();
      var run := encoder(command);
      buffer.WriteBytes(run.bytes);
      if run.Threw? {
        return Fail(EncoderFailed);
      }
      var documentSize := buffer.Position() - startPosition;
      if documentSize > maxDocumentSize {
        buffer.TruncateToPosition(startPosition);
        return Fail(InvalidDocument(documentSize, maxDocumentSize));
      }
      return Pass;
    }
  }

  /**
   * A refused command leaves no residue: encoding a fitting command into the same
   * buffer afterwards appends exactly that command's bytes.
   */
  method OversizeThenFit(buffer: OutputBuffer, tooLarge: CommandWithPayloadMessage, fits: CommandWithPayloadMessage)
    returns (first: Outcome<EncodeError>, second: Outcome<EncodeError>)
    requires tooLarge.encoder(tooLarge.command).Completed?
    requires |tooLarge.encoder(tooLarge.command).bytes| > tooLarge.maxDocumentSize
    requires fits.encoder(fits.command).Completed?
    requires |fits.encoder(fits.command).bytes| <= fits.maxDocumentSize
    modifies buffer`bytes
    ensures first.Fail? && second.Pass?
    ensures buffer.bytes == old(buffer.bytes) + fits.encoder(fits.command).bytes
  {
    first := tooLarge.EncodeCommand(buffer);
    second := fits.EncodeCommand(buffer);
  }

  /**
   * A thrown encoding does leave residue: a fitting command encoded next lands
   * after the bytes the failed encoder wrote.
   */
  method ThrowThenFit(buffer: OutputBuffer, failing: CommandWithPayloadMessage, fits: CommandWithPayloadMessage)
    returns (first: Outcome<EncodeError>, second: Outcome<EncodeError>)
    requires failing.encoder(failing.command).Threw?
    requires fits.encoder(fits.command).Completed?
    requires |fits.encoder(fits.command).bytes| <= fits.maxDocumentSize
    modifies buffer`bytes
    ensures first == Fail(EncoderFailed) && second.Pass?
    ensures buffer.bytes == old(buffer.bytes) + failing.encoder(failing.command).bytes + fits.encoder(fits.command).bytes
  {
    first := failing.EncodeCommand(buffer);
    second := fits.EncodeCommand(buffer);
  }
}
