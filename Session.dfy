/** The client's session engine (UserProcessor): it sends the user's
    request, runs the secure DATA exchange, and frames and presents the
    payloads that follow a successful LIST or RETRIEVE. */
module Session {
  import opened Wrappers
  import opened Text
  import opened Protocol
  import opened SecureMail
  import opened Framing

  /** What the user types for one command: the lines at the console, and
      the outcome of resolving the certificate and the private key the
      prompts ask for (the recipient's certificate and the user's key for
      DATA, the sender's certificate and the user's key for RETRIEVE), with
      the random AES key and IV a send generates. */
  datatype Console = Console(
    typed: seq<string>,
    certificate: KeyResult<PublicKey>,
    privateKey: KeyResult<PrivateKey>,
    random: Fresh)

  /** Why a secure send stopped before touching the channel. */
  datatype NotSent = CertificateNotFound | CertificateUnreadable | PrivateKeyNotFound | PrivateKeyUnreadable | SealFailed

  datatype SendOutcome =
    | Withheld(why: NotSent)            // "Email was not sent"
    | Rejected(reply: Option<Response>) // "Server rejected DATA command"
    | Delivered(ack: Option<Response>)  // the final acknowledgement

  /** What a command shows the user. */
  datatype Shown = Nothing | Sent(outcome: SendOutcome) | Listing(text: string) | Mail(presented: Opened) | Interrupted

  /** A command's whole observable effect: its status code, what it shows,
      the requests it writes, and the incoming lines it leaves unread. */
  datatype Effect = Effect(status: int, shown: Shown, requests: seq<Request>, rest: seq<string>)

  /** DATA is recognised whatever its case. */
  predicate IsData(command: string)
  {
    EqualsIgnoreCase(command, DATA)
  }

  /** The server took the DATA command. */
  predicate Accepted(reply: Option<Response>)
  {
    reply.Some? && reply.value.code == Success
  }

  // ---------------------------------------------------------------------
  // The secure DATA exchange, as values

  /** Everything a secure send does before the channel: the body, the
      recipient's certificate, the user's private key, the envelope. */
  function Prepare(c: CryptoUtils, console: Console): (r: Result<Envelope, NotSent>)
    requires END_MAIL in console.typed
    ensures r == Err(CertificateNotFound) <==> console.certificate.NotFound?
    ensures r == Err(CertificateUnreadable) <==> console.certificate.LoadError?
    ensures r == Err(PrivateKeyNotFound) <==> console.certificate.Loaded? && console.privateKey.NotFound?
    ensures r == Err(PrivateKeyUnreadable) <==> console.certificate.Loaded? && console.privateKey.LoadError?
    ensures r.Ok? <==>
      && console.certificate.Loaded? && console.privateKey.Loaded?
      && Seal(c, Body(console.typed), console.random, console.certificate.key, console.privateKey.key).Some?
    ensures r.Ok? ==>
      r.value == Seal(c, Body(console.typed), console.random, console.certificate.key, console.privateKey.key).value
  {
    match console.certificate
    case NotFound => Err(CertificateNotFound)
    case LoadError => Err(CertificateUnreadable)
    case Loaded(recipient) =>
      match console.privateKey
      case NotFound => Err(PrivateKeyNotFound)
      case LoadError => Err(PrivateKeyUnreadable)
      case Loaded(sender) =>
        match Seal(c, Body(console.typed), console.random, recipient, sender)
        case None => Err(SealFailed)
        case Some(env) => Ok(env)
  }

  /** One request per line, carrying the line as it is. */
  function Requests(lines: seq<string>): (r: seq<Request>)
    ensures |r| == |lines|
    ensures forall i :: 0 <= i < |lines| ==> r[i] == Bare(lines[i])
  {
    seq(|lines|, i requires 0 <= i < |lines| => Bare(lines[i]))
  }

  /** A whole DATA exchange on the wire: the command, the envelope lines,
      the terminator. */
  function Transmission(lines: seq<string>): seq<Request>
  {
    [Bare(DATA)] + Requests(lines) + [Bare(END_MAIL)]
  }

  /** DATA first, the terminator last, and every line in between, in order. */
  lemma TransmissionShape(lines: seq<string>)
    ensures var r := Transmission(lines);
      && |r| == |lines| + 2
      && r[0] == Bare(DATA) && r[|r| - 1] == Bare(END_MAIL)
      && forall i :: 0 <= i < |lines| ==> r[i + 1] == Bare(lines[i])
  {
    var r, m := Transmission(lines), Requests(lines);
    assert |r| == |m| + 2;
    forall i | 0 <= i < |lines|
      ensures r[i + 1] == Bare(lines[i])
    {
      assert r[i + 1] == m[i];
    }
  }

  /** The network half of a secure send, for the envelope's lines: DATA,
      and only if the server takes it, the lines and the terminator, then
      the acknowledgement. */
  function Exchange(decode: string -> Option<Response>, lines: seq<string>, q: seq<string>): Effect
  {
    var reply := NextResponse(decode, q);
    if !Accepted(reply) then Effect(0, Sent(Rejected(reply)), [Bare(DATA)], Rest(q))
    else Effect(0, Sent(Delivered(NextResponse(decode, Rest(q)))), Transmission(lines), Rest(Rest(q)))
  }

  /** The order an exchange keeps: DATA always goes first; anything after
      it only once the server accepted DATA; a rejected DATA is all that is
      written; a delivered one writes every line, in order, then the
      terminator, then reads the acknowledgement. */
  lemma ExchangeOrder(decode: string -> Option<Response>, lines: seq<string>, q: seq<string>)
    ensures var e := Exchange(decode, lines, q);
      && e.status == 0 && e.shown.Sent? && !e.shown.outcome.Withheld?
      && e.requests != [] && e.requests[0] == Bare(DATA)
      && (|e.requests| > 1 <==> Accepted(NextResponse(decode, q)))
      && (e.shown.outcome.Rejected? <==> !Accepted(NextResponse(decode, q)))
      && (e.shown.outcome.Rejected? ==>
            e.requests == [Bare(DATA)] && e.rest == Rest(q) && e.shown.outcome.reply == NextResponse(decode, q))
    ensures var e := Exchange(decode, lines, q);
      e.shown.outcome.Delivered? ==>
        && |e.requests| == |lines| + 2
        && e.requests[|e.requests| - 1] == Bare(END_MAIL)
        && (forall i :: 0 <= i < |lines| ==> e.requests[i + 1] == Bare(lines[i]))
        && e.shown.outcome.ack == NextResponse(decode, Rest(q))
        && e.rest == Rest(Rest(q))
  {
    TransmissionShape(lines);
  }

  /** The secure DATA exchange against the lines q the server will send. */
  function SecureSend(c: CryptoUtils, f: MailFormat, decode: string -> Option<Response>, console: Console, q: seq<string>)
    : (e: Effect)
    requires END_MAIL in console.typed
    ensures e.status == 0 && e.shown.Sent?
    // seal fully or send nothing
    ensures e.requests == [] <==> Prepare(c, console).Err?
    ensures Prepare(c, console).Err? ==> e.shown.outcome == Withheld(Prepare(c, console).error) && e.rest == q
    ensures Prepare(c, console).Ok? ==> e == Exchange(decode, SplitNewline(f.toText(Prepare(c, console).value)), q)
  {
    match Prepare(c, console)
    case Err(why) => Effect(0, Sent(Withheld(why)), [], q)
    case Ok(env) => Exchange(decode, SplitNewline(f.toText(env)), q)
  }

  /** A delivered send writes DATA, then lines none of which holds a
      newline (each is one line on the wire), then the terminator. */
  lemma DeliveredLinesAreSingle(c: CryptoUtils, f: MailFormat, decode: string -> Option<Response>,
                                console: Console, q: seq<string>)
    requires END_MAIL in console.typed
    requires SecureSend(c, f, decode, console, q).shown.outcome.Delivered?
    ensures var r := SecureSend(c, f, decode, console, q).requests;
      && |r| >= 2 && r[0] == Bare(DATA) && r[|r| - 1] == Bare(END_MAIL)
      && forall i :: 0 < i < |r| - 1 ==> '\n' !in r[i].command
  {
    var lines := SplitNewline(f.toText(Prepare(c, console).value));
    SplitNewlineSpec(f.toText(Prepare(c, console).value));
    ExchangeOrder(decode, lines, q);
  }

  // ---------------------------------------------------------------------
  // Commands other than DATA, as values

  /** What follows a response to a forwarded command: a LIST listing or a
      RETRIEVE body are read only after SUCCESS. */
  function Followup(c: CryptoUtils, f: MailFormat, command: string, reply: Response, console: Console, q: seq<string>)
    : (r: (Shown, seq<string>))
    // only ever reads lines, from the front
    ensures |r.1| <= |q| && r.1 == q[|q| - |r.1|..]
    ensures r.1 != q ==> reply.code == Success && (EqualsIgnoreCase(command, LIST) || EqualsIgnoreCase(command, RETRIEVE))
    ensures reply.code != Success ==> r == (Nothing, q)
    ensures r.0.Listing? ==> reply.code == Success && EqualsIgnoreCase(command, LIST)
    ensures r.0.Mail? ==> reply.code == Success && EqualsIgnoreCase(command, RETRIEVE)
  {
    if reply.code != Success then (Nothing, q)
    else if EqualsIgnoreCase(command, LIST) then
      match ListFrame(q, reply.notice)
      case (Some(text), rest) => (Listing(text), rest)
      case (None, rest) => (Interrupted, rest)
    else if EqualsIgnoreCase(command, RETRIEVE) then
      match RetrieveFrame(q, reply.notice)
      case (Some(raw), rest) => (Mail(Present(c, f, raw, console.certificate, console.privateKey)), rest)
      case (None, rest) => (Interrupted, rest)
    else (Nothing, q)
  }

  /** What process() does with request against the lines q the server
      will send. */
  function Expected(c: CryptoUtils, f: MailFormat, decode: string -> Option<Response>,
                    request: Request, console: Console, q: seq<string>): (e: Effect)
    requires IsData(request.command) ==> END_MAIL in console.typed
    ensures IsData(request.command) ==> e == SecureSend(c, f, decode, console, q)
    // every other command is sent as it is, and answered by one response
    ensures !IsData(request.command) ==> e.requests == [request]
    ensures !IsData(request.command) ==> (e.status == -1 <==> NextResponse(decode, q).None?)
    ensures !IsData(request.command) ==> e.status == 0 || e.status == -1
    ensures !IsData(request.command) && NextResponse(decode, q).Some? ==>
      (e.shown, e.rest) == Followup(c, f, request.command, NextResponse(decode, q).value, console, Rest(q))
    ensures !IsData(request.command) && !Accepted(NextResponse(decode, q)) ==> e.shown == Nothing && e.rest == Rest(q)
  {
    if IsData(request.command) then SecureSend(c, f, decode, console, q)
    else
      var reply := NextResponse(decode, q);
      if reply.None? then Effect(-1, Nothing, [request], Rest(q))
      else
        var (shown, rest) := Followup(c, f, request.command, reply.value, console, Rest(q));
        Effect(0, shown, [request], rest)
  }

  /** If the certificate or the private key cannot be resolved, a DATA
      command returns 0 and writes nothing to the channel. */
  lemma NoSendOnKeyFailure(c: CryptoUtils, f: MailFormat, decode: string -> Option<Response>,
                           request: Request, console: Console, q: seq<string>)
    requires IsData(request.command) && END_MAIL in console.typed
    requires !console.certificate.Loaded? || !console.privateKey.Loaded?
    ensures Expected(c, f, decode, request, console, q).status == 0
    ensures Expected(c, f, decode, request, console, q).requests == []
    ensures Expected(c, f, decode, request, console, q).rest == q
  {
    assert Prepare(c, console).Err?;
  }

  // ---------------------------------------------------------------------
  // The imperative engine

  /** Reads console lines up to and including the first "." line and
      returns the body typed before it. */
  method CollectBody(typed: seq<string>) returns (content: string, consumed: nat)
    requires END_MAIL in typed
    ensures consumed == TerminatorIndex(typed) + 1
    ensures content == Body(typed)
  {
    content, consumed := "", 0;
    ghost var k := TerminatorIndex(typed);
    while true
      invariant consumed <= k
      invariant content == Concat(Newlined(typed[..consumed]))
      decreases k - consumed
    {
      var line := typed[consumed];
      if line == END_MAIL {
        consumed := consumed + 1;
        break;
      }
      BodyGrows(typed, consumed);
      content := content + line + "\n";
      consumed := consumed + 1;
    }
  }

  class UserProcessor {
    const channel: Channel
    const crypto: CryptoUtils
    const format: MailFormat
    var request: Request
    var response: Option<Response>

    /** A processor over an open channel; the request starts empty and is
        set before each process(). */
    constructor (channel: Channel, crypto: CryptoUtils, format: MailFormat)
      ensures this.channel == channel && this.crypto == crypto && this.format == format
      ensures request == Bare("") && response == None
    {
      this.channel := channel;
      this.crypto := crypto;
      this.format := format;
      request := Bare("");
      response := None;
    }

    method SetRequest(req: Request)
      modifies this`request
      ensures request == req
    {
      request := req;
    }

    method SetResponse(res: Option<Response>)
      modifies this`response
      ensures response == res
    {
      response := res;
    }

    method Process(console: Console) returns (status: int, shown: Shown)
      requires IsData(request.command) ==> END_MAIL in console.typed
      modifies this`response, channel
      ensures
        var e := Expected(crypto, format, channel.decode, request, console, old(channel.incoming));
        && status == e.status && shown == e.shown
        && channel.sent == old(channel.sent) + e.requests && channel.incoming == e.rest
      ensures !IsData(request.command) ==> response == NextResponse(channel.decode, old(channel.incoming))
    {
      var command := request.command;
      if IsData(command) {
        var outcome;
        status, outcome := HandleSecureData(console);
        shown := Sent(outcome);
        return;
      }
      channel.SendRequest(request);
      response := channel.ReceiveResponse();
      if response.Some? {
        shown := HandleResponse(command, console);
        status := 0;
      } else {
        status, shown := -1, Nothing;
      }
    }

    /** The first half of handleSecureDataCommand: collect the body, resolve both keys, build the
        envelope; nothing here touches the channel. */
    method PrepareEnvelope(console: Console) returns (r: Result<Envelope, NotSent>)
      requires END_MAIL in console.typed
      ensures r == Prepare(crypto, console)
    {
      var content, _ := CollectBody(console.typed);
      if console.certificate.NotFound? {
        return Err(CertificateNotFound);
      } else if console.certificate.LoadError? {
        return Err(CertificateUnreadable);
      }
      var recipient := console.certificate.key;
      if console.privateKey.NotFound? {
        return Err(PrivateKeyNotFound);
      } else if console.privateKey.LoadError? {
        return Err(PrivateKeyUnreadable);
      }
      var sender := console.privateKey.key;
      var sealed := Seal(crypto, content, console.random, recipient, sender);
      if sealed.None? {
        return Err(SealFailed);
      }
      return Ok(sealed.value);
    }

    method HandleSecureData(console: Console) returns (status: int, outcome: SendOutcome)
      requires END_MAIL in console.typed
      modifies this`response, channel
      ensures
        var e := SecureSend(crypto, format, channel.decode, console, old(channel.incoming));
        && status == e.status && Sent(outcome) == e.shown
        && channel.sent == old(channel.sent) + e.requests && channel.incoming == e.rest
      ensures outcome.Withheld? ==> response == old(response)
      ensures outcome.Rejected? ==> response == outcome.reply
      ensures outcome.Delivered? ==> response == outcome.ack
    {
      var prepared := PrepareEnvelope(console);
      if prepared.Err? {
        return 0, Withheld(prepared.error);
      }
      // split ahead of DATA: a pure step with nothing observable
      var lines := SplitNewline(format.toText(prepared.value));
      status := 0;
      outcome := Transmit(lines);
    }

    /** The DATA exchange of handleSecureDataCommand: open DATA, and only if the server accepts it send
        the envelope's lines one by one, the terminator, and read the
        acknowledgement. */
    method Transmit(lines: seq<string>) returns (outcome: SendOutcome)
      modifies this`response, channel
      ensures
        var e := Exchange(channel.decode, lines, old(channel.incoming));
        && Sent(outcome) == e.shown
        && channel.sent == old(channel.sent) + e.requests && channel.incoming == e.rest
      ensures outcome.Rejected? ==> response == outcome.reply
      ensures outcome.Delivered? ==> response == outcome.ack
    {
      channel.SendRequest(Bare(DATA));
      response := channel.ReceiveResponse();
      if response.None? || response.value.code != Success {
        return Rejected(response);
      }
      SendLines(lines);
      channel.SendRequest(Bare(END_MAIL));
      response := channel.ReceiveResponse();
      return Delivered(response);
    }

    /** The send loop of handleSecureDataCommand: one request per envelope
        line, in order. */
    method SendLines(lines: seq<string>)
      modifies channel
      ensures channel.sent == old(channel.sent) + Requests(lines)
      ensures channel.incoming == old(channel.incoming)
    {
      for i := 0 to |lines|
        invariant channel.sent == old(channel.sent) + Requests(lines[..i])
        invariant channel.incoming == old(channel.incoming)
      {
        assert Requests(lines[..i + 1]) == Requests(lines[..i]) + [Bare(lines[i])];
        channel.SendRequest(Bare(lines[i]));
      }
      assert lines[..|lines|] == lines;
    }

    method HandleResponse(command: string, console: Console) returns (shown: Shown)
      requires response.Some?
      modifies channel
      ensures (shown, channel.incoming) ==
        Followup(crypto, format, command, response.value, console, old(channel.incoming))
      ensures channel.sent == old(channel.sent)
    {
      if response.value.code == Success {
        if EqualsIgnoreCase(command, LIST) {
          shown := DoListResponse();
        } else if EqualsIgnoreCase(command, RETRIEVE) {
          shown := DoRetrieveResponse(console);
        } else {
          shown := Nothing;
        }
      } else {
        shown := Nothing;
      }
    }

    /** Reads exactly notice lines and shows them joined. */
    method DoListResponse() returns (shown: Shown)
      requires response.Some?
      modifies channel
      ensures
        var (text, rest) := ListFrame(old(channel.incoming), response.value.notice);
        && shown == (if text.Some? then Listing(text.value) else Interrupted)
        && channel.incoming == rest
      ensures channel.sent == old(channel.sent)
    {
      ghost var q0 := channel.incoming;
      var builder := "";
      var numberOfMail := response.value.notice as int;
      var i := 0;
      while i < numberOfMail
        invariant 0 <= i <= |q0|
        invariant if numberOfMail < 0 then i == 0 else i <= numberOfMail
        invariant builder == Concat(q0[..i]) && channel.incoming == q0[i..]
        invariant channel.sent == old(channel.sent)
      {
        var line := channel.ReceiveLine();
        if line.None? {
          return Interrupted;
        }
        assert q0[..i + 1] == q0[..i] + [line.value];
        ConcatSnoc(q0[..i], line.value);
        builder := builder + line.value;
        i := i + 1;
      }
      assert i == if numberOfMail < 0 then 0 else numberOfMail;
      shown := Listing(builder);
    }

    /** Reads lines until notice + 1 characters have arrived, then presents
        the body. */
    method DoRetrieveResponse(console: Console) returns (shown: Shown)
      requires response.Some?
      modifies channel
      ensures
        var (raw, rest) := RetrieveFrame(old(channel.incoming), response.value.notice);
        && shown == (if raw.Some? then Mail(Present(crypto, format, raw.value, console.certificate, console.privateKey))
                     else Interrupted)
        && channel.incoming == rest
      ensures channel.sent == old(channel.sent)
    {
      var rawEmail := ReadCovering(Inc(response.value.notice) as int);
      if rawEmail.None? {
        return Interrupted;
      }
      shown := Mail(Present(crypto, format, rawEmail.value, console.certificate, console.privateKey));
    }

    /** The read loop of a retrieval: lines are appended while fewer than
        need characters have arrived. */
    method ReadCovering(need: int) returns (raw: Option<string>)
      modifies channel
      ensures match MinimalCover(old(channel.incoming), need)
        case Some(k) => raw == Some(Concat(old(channel.incoming)[..k])) && channel.incoming == old(channel.incoming)[k..]
        case None => raw == None && channel.incoming == []
      ensures channel.sent == old(channel.sent)
    {
      ghost var q0 := channel.incoming;
      var emailBuilder := "";
      var leftBytes := need;
      ghost var i := 0;
      while leftBytes > 0
        invariant 0 <= i <= |q0|
        invariant emailBuilder == Concat(q0[..i]) && channel.incoming == q0[i..]
        invariant leftBytes == need - |Concat(q0[..i])|
        invariant forall j :: 0 <= j < i ==> |Concat(q0[..j])| < need
        invariant channel.sent == old(channel.sent)
        decreases |channel.incoming|
      {
        var line := channel.ReceiveLine();
        if line.None? {
          MinimalCoverNone(q0, need);
          return None;
        }
        assert q0[..i + 1] == q0[..i] + [line.value];
        ConcatSnoc(q0[..i], line.value);
        emailBuilder := emailBuilder + line.value;
        leftBytes := leftBytes - |line.value|;
        i := i + 1;
      }
      MinimalCoverUnique(q0, need, i);
      raw := Some(emailBuilder);
    }
  }
}
