/**
 * Executing a command that carries a payload: encode and send one OP_QUERY
 * message, receive one reply correlated by the message id, turn its first
 * document into a command result, fail when the result is not ok, and close the
 * connection on every way out when the caller asked for it.
 */
module Protocol {
  import opened Wrappers
  import opened Documents
  import opened Wire

  /**
   * A reply as the connection hands it over: the id it answers, and its
   * documents, or None when they cannot be decoded.
   */
  datatype Reply = Reply(responseTo: int, documents: Option<seq<Document>>)

  /** The buffers holding one received reply. */
  class ResponseBuffers {
    const reply: Reply
    var closed: bool

    constructor (reply: Reply)
      ensures this.reply == reply && !closed
    {
      this.reply := reply;
      closed := false;
    }

    method Close()
      modifies this`closed
      ensures closed
    {
      closed := true;
    }
  }

  /**
   * A connection to one server. What the network does is not part of this model:
   * `sendSucceeds` and `reply` fix the outcome of a send and of a receive. The
   * connection records every message sent and every id it was asked to wait for.
   */
  class Connection {
    const serverAddress: string
    const sendSucceeds: bool
    const reply: Option<Reply>
    var closed: bool
    var sent: seq<seq<byte>>
    var awaited: seq<int>

    constructor (serverAddress: string, sendSucceeds: bool, reply: Option<Reply>)
      ensures this.serverAddress == serverAddress && this.sendSucceeds == sendSucceeds && this.reply == reply
      ensures !closed && sent == [] && awaited == []
    {
      this.serverAddress := serverAddress;
      this.sendSucceeds := sendSucceeds;
      this.reply := reply;
      closed := false;
      sent := [];
      awaited := [];
    }

    method SendMessage(bytes: seq<byte>) returns (ok: bool)
      modifies this`sent
      ensures sent == old(sent) + [bytes] && ok == sendSucceeds
    {
      sent := sent + [bytes];
      ok := sendSucceeds;
    }

    /** Waits for the reply to message `responseTo`; None when receiving fails. */
    method ReceiveMessage(responseTo: int) returns (buffers: Option<ResponseBuffers>)
      modifies this`awaited
      ensures awaited == old(awaited) + [responseTo]
      ensures buffers.Some? <==> reply.Some?
      ensures buffers.Some? ==> fresh(buffers.value) && !buffers.value.closed && buffers.value.reply == reply.value
    {
      awaited := awaited + [responseTo];
      if reply.Some? {
        var b := new ResponseBuffers(reply.value);
        buffers := Some(b);
      } else {
        buffers := None;
      }
    }

    method Close()
      modifies this`closed
      ensures closed
    {
      closed := true;
    }
  }

  /** A command result: the command, the server that ran it, and the response document. */
  datatype CommandResult = CommandResult(command: Document, serverAddress: string, response: Document)

  /** Every way `execute` can fail. */
  datatype ExecuteError =
    | EncodingFailed(cause: EncodeError)
    | SendFailed
    | ReceiveFailed
    | UnexpectedResponseTo(expected: int, actual: int)
    | DecodeFailed
    | NoDocuments
    | CommandFailed(result: CommandResult)

  /** The response's `ok` field is true or the number 1. */
  predicate IsOk(response: Document) {
    var ok := Get(response, "ok");
    ok == Some(Bool(true)) || ok == Some(Num(1))
  }

  /** "$cmd" and its dot, in bytes: the command namespace is `<database>.$cmd`. */
  const CommandCollectionSuffix: seq<byte> := [0x2E, 0x24, 0x63, 0x6D, 0x64]

  /**
   * What becomes of a reply to message `expectedId`: parse it against that id,
   * take its first document as the response, and fail when the response is not ok.
   */
  function ReplyOutcome(command: Document, serverAddress: string, expectedId: int, reply: Reply): (r: Result<CommandResult, ExecuteError>)
    ensures reply.responseTo != expectedId ==> r == Failure(UnexpectedResponseTo(expectedId, reply.responseTo))
    ensures r.Success? ==> reply.responseTo == expectedId && reply.documents.Some? && |reply.documents.value| > 0
    ensures r.Success? ==> r.value == CommandResult(command, serverAddress, reply.documents.value[0]) && IsOk(r.value.response)
    ensures r.Failure? && r.error.CommandFailed? ==> !IsOk(r.error.result.response)
  {
    if reply.responseTo != expectedId then Failure(UnexpectedResponseTo(expectedId, reply.responseTo))
    else if reply.documents.None? then Failure(DecodeFailed)
    else if |reply.documents.value| == 0 then Failure(NoDocuments)
    else
      var result := CommandResult(command, serverAddress, reply.documents.value[0]);
      if IsOk(result.response) then Success(result) else Failure(CommandFailed(result))
  }

  /** The outcome of one execution, step by step: encode, send, receive, interpret. */
  function ExecuteOutcome(command: Document, commandRun: EncoderRun, maxDocumentSize: int,
                          serverAddress: string, sendSucceeds: bool, reply: Option<Reply>, requestId: int): (r: Result<CommandResult, ExecuteError>)
    ensures commandRun.Threw? ==> r == Failure(EncodingFailed(EncoderFailed))
    ensures commandRun.Completed? && |commandRun.bytes| > maxDocumentSize ==>
            r == Failure(EncodingFailed(InvalidDocument(|commandRun.bytes|, maxDocumentSize)))
    ensures r.Success? ==> commandRun.Completed? && |commandRun.bytes| <= maxDocumentSize && sendSucceeds && reply.Some?
    ensures r.Failure? && r.error.UnexpectedResponseTo? ==> r.error.expected == requestId && reply.Some? && reply.value.responseTo != requestId
  {
    var encoded := CommandOutcome(commandRun, maxDocumentSize);
    if encoded.Fail? then Failure(EncodingFailed(encoded.error))
    else if !sendSucceeds then Failure(SendFailed)
    else if reply.None? then Failure(ReceiveFailed)
    else ReplyOutcome(command, serverAddress, requestId, reply.value)
  }

  /** A success means every step went through and the first reply document is an ok response. */
  lemma SuccessMeansOkFirstDocument(command: Document, commandRun: EncoderRun, maxDocumentSize: int,
                                    serverAddress: string, sendSucceeds: bool, reply: Option<Reply>, requestId: int)
    requires ExecuteOutcome(command, commandRun, maxDocumentSize, serverAddress, sendSucceeds, reply, requestId).Success?
    ensures commandRun.Completed? && |commandRun.bytes| <= maxDocumentSize && sendSucceeds && reply.Some?
    ensures reply.value.responseTo == requestId && reply.value.documents.Some? && |reply.value.documents.value| > 0
    ensures var r := ExecuteOutcome(command, commandRun, maxDocumentSize, serverAddress, sendSucceeds, reply, requestId).value;
            r == CommandResult(command, serverAddress, reply.value.documents.value[0]) && IsOk(r.response)
  {
  }

  /** A reply whose first document is not ok fails with that very result, response and all. */
  lemma NotOkIsCommandFailure(command: Document, serverAddress: string, requestId: int, docs: seq<Document>)
    requires |docs| > 0 && !IsOk(docs[0])
    ensures ReplyOutcome(command, serverAddress, requestId, Reply(requestId, Some(docs)))
         == Failure(CommandFailed(CommandResult(command, serverAddress, docs[0])))
  {
  }

  /** A reply `{ok: 0, errmsg: "x"}` fails, and the failure exposes `errmsg`. */
  lemma ErrorReplyExposesMessage(command: Document, serverAddress: string, requestId: int)
    ensures var response := [Field("ok", Num(0)), Field("errmsg", Str("x"))];
            var r := ReplyOutcome(command, serverAddress, requestId, Reply(requestId, Some([response])));
            r.Failure? && r.error.CommandFailed? && Get(r.error.result.response, "errmsg") == Some(Str("x"))
  {
    var response := [Field("ok", Num(0)), Field("errmsg", Str("x"))];
    assert Get(response, "ok") == Some(Num(0));
    assert response[1..][0].key == "errmsg";
  }

  /** A reply answering another message is never consumed. */
  lemma MismatchedReplyRejected(command: Document, serverAddress: string, requestId: int, reply: Reply)
    requires reply.responseTo != requestId
    ensures ReplyOutcome(command, serverAddress, requestId, reply).Failure?
    ensures ReplyOutcome(command, serverAddress, requestId, reply).error == UnexpectedResponseTo(requestId, reply.responseTo)
  {
  }

  class CommandWithPayloadProtocol {
    const database: seq<byte>
    const command: Document
    /** Writes the command with its payload; stands for the find-and-modify command encoder. */
    const encoder: Document -> EncoderRun
    /** The server's maximum document size, from its description. */
    const maxDocumentSize: int
    const connection: Connection
    const closeConnection: bool

    constructor (database: seq<byte>, command: Document, encoder: Document -> EncoderRun,
                 maxDocumentSize: int, connection: Connection, closeConnection: bool)
      ensures this.database == database && this.command == command && this.encoder == encoder
      ensures this.maxDocumentSize == maxDocumentSize && this.connection == connection
      ensures this.closeConnection == closeConnection
    {
      this.database := database;
      this.command := command;
      this.encoder := encoder;
      this.maxDocumentSize := maxDocumentSize;
      this.connection := connection;
      this.closeConnection := closeConnection;
    }

    /** The command namespace `<database>.$cmd`; without NUL in the name it is a valid C string body. */
    function Namespace(): (ns: seq<byte>)
      ensures |ns| == |database| + 5 && ns[..|database|] == database
      ensures ns[|database|..] == [0x2E, 0x24, 0x63, 0x6D, 0x64]
      ensures 0 !in database ==> 0 !in ns
    {
      database + CommandCollectionSuffix
    }

    /**
     * execute: one send, one receive, and the connection closed on every exit
     * when `closeConnection` holds. `requestId` is the id the new message gets.
     * The ghost results are the output buffer used and the response buffers, if any.
     */
    method Execute(requestId: int)
      returns (r: Result<CommandResult, ExecuteError>, ghost out: OutputBuffer, ghost responses: Option<ResponseBuffers>)
      modifies connection
      ensures r == ExecuteOutcome(command, encoder(command), maxDocumentSize,
                                  connection.serverAddress, connection.sendSucceeds, connection.reply, requestId)
      ensures connection.closed == (old(connection.closed) || closeConnection)
      ensures var fits := CommandOutcome(encoder(command), maxDocumentSize).Pass?;
              connection.sent == old(connection.sent) +
                (if fits then [BodyBytes(Namespace(), encoder(command), maxDocumentSize)] else [])
      ensures var sentOk := CommandOutcome(encoder(command), maxDocumentSize).Pass? && connection.sendSucceeds;
              connection.awaited == old(connection.awaited) + (if sentOk then [requestId] else [])
      ensures fresh(out) && out.closed && out.bytes == BodyBytes(Namespace(), encoder(command), maxDocumentSize)
      ensures responses.Some? ==> fresh(responses.value) && responses.value.closed
      ensures responses.Some? <==>
              (CommandOutcome(encoder(command), maxDocumentSize).Pass? && connection.sendSucceeds && connection.reply.Some?)
    {
      var sentMessage;
      sentMessage, out := SendMessage(requestId);
      match sentMessage {
        case Failure(e) =>
          r := Failure(e);
          responses := None;
        case Success(message) =>
          r, responses := ReceiveMessage(message);
      }
      if closeConnection {
        connection.Close();
      }
    }

    /** Encodes the message into a fresh buffer and sends it; the buffer is closed either way. */
    method SendMessage(requestId: int) returns (r: Result<CommandWithPayloadMessage, ExecuteError>, ghost out: OutputBuffer)
      modifies connection`sent
      ensures fresh(out) && out.closed && out.bytes == BodyBytes(Namespace(), encoder(command), maxDocumentSize)
      ensures var fits := CommandOutcome(encoder(command), maxDocumentSize).Pass?;
              connection.sent == old(connection.sent) +
                (if fits then [BodyBytes(Namespace(), encoder(command), maxDocumentSize)] else [])
      ensures CommandOutcome(encoder(command), maxDocumentSize).Fail? ==>
              r == Failure(EncodingFailed(CommandOutcome(encoder(command), maxDocumentSize).error))
      ensures CommandOutcome(encoder(command), maxDocumentSize).Pass? && !connection.sendSucceeds ==> r == Failure(SendFailed)
      ensures r.Success? <==> CommandOutcome(encoder(command), maxDocumentSize).Pass? && connection.sendSucceeds
      ensures r.Success? ==> r.value.id == requestId
    {
      var buffer := new OutputBuffer();
      out := buffer;
      var message := new CommandWithPayloadMessage(Namespace(), command, encoder, maxDocumentSize, requestId);
      var encoded := message.EncodeMessageBody(buffer, 0);
      if encoded.Failure? {
        r := Failure(EncodingFailed(encoded.error));
      } else {
        assert buffer.bytes == BodyBytes(Namespace(), encoder(command), maxDocumentSize);
        var ok := connection.SendMessage(buffer.bytes);
        r := if ok then Success(message) else Failure(SendFailed);
      }
      buffer.Close();
    }

    /** Receives the reply to `message` and interprets it; the response buffers are closed either way. */
    method ReceiveMessage(message: CommandWithPayloadMessage)
      returns (r: Result<CommandResult, ExecuteError>, ghost responses: Option<ResponseBuffers>)
      modifies connection`awaited
      ensures connection.awaited == old(connection.awaited) + [message.id]
      ensures connection.reply.None? ==> r == Failure(ReceiveFailed)
      ensures connection.reply.Some? ==>
              r == ReplyOutcome(command, connection.serverAddress, message.id, connection.reply.value)
      ensures responses.Some? <==> connection.reply.Some?
      ensures responses.Some? ==> fresh(responses.value) && responses.value.closed
    {
      var buffers := connection.ReceiveMessage(message.id);
      match buffers {
        case None =>
          r := Failure(ReceiveFailed);
          responses := None;
        case Some(b) =>
          r := CommandResultOf(b.reply, message.id);
          b.Close();
          responses := Some(b);
      }
    }

    /** Parses the reply against `expectedId` and builds the result, failing when it is not ok. */
    function CommandResultOf(reply: Reply, expectedId: int): (r: Result<CommandResult, ExecuteError>)
      ensures r.Success? || (r.Failure? && r.error.CommandFailed?) <==>
              reply.responseTo == expectedId && reply.documents.Some? && |reply.documents.value| > 0
      ensures r.Success? ==> r.value == CommandResult(command, connection.serverAddress, reply.documents.value[0])
      ensures r.Success? ==> IsOk(r.value.response)
      ensures r.Failure? && r.error.CommandFailed? ==>
              r.error.result == CommandResult(command, connection.serverAddress, reply.documents.value[0]) &&
              !IsOk(r.error.result.response)
      ensures r == ReplyOutcome(command, connection.serverAddress, expectedId, reply)
    {
      ReplyOutcome(command, connection.serverAddress, expectedId, reply)
    }
  }
}
