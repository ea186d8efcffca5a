# Secured Simple Email: the client session engine

This project is a Dafny model of `UserProcessor`, the client-side engine of
a small mail-transfer protocol with an end-to-end secure envelope. For each
command the user issues, the engine either:

- runs the secure DATA exchange: collect the body typed at the console up
  to a "." line, resolve the recipient's certificate and the sender's
  private key, encrypt and sign the body, and only then open DATA, send
  the envelope line by line, send the terminator and read the
  acknowledgement; or
- forwards the request and reads one response. After a SUCCESS it also
  reads the payload: LIST reads a counted number of lines, and RETRIEVE
  reads lines until a character count is used up. A retrieved body is then
  presented: a plain body is shown as it came. A secure envelope is parsed
  and its signature checked against the sender's certificate. Only if the
  signature holds is the user's private key asked for and the body
  decrypted. Every failure shows the raw body under its own heading. A
  missing or unreadable sender certificate, or a signature check that
  throws, gives "verification failed" (UserProcessor.java lines 243, 255, 271). A signature
  the check rejects gives "invalid signature" (line 335). A missing or
  unreadable own key gives "cannot decrypt" (lines 288, 304), and a
  decryption that throws gives "decryption failed" (line 329).

The modules:

- `Protocol` holds the requests, the responses and the commands. Its
  `Channel` class stands in for the TCP channel: `sent` is the trace of
  requests written, and `incoming` is the queue of lines the server has
  yet to deliver.
- `Text` holds StringBuilder concatenation, case-insensitive comparison
  and `String.split("\n")`.
- `Framing` holds the three ways of cutting a payload out of a stream of
  lines.
- `SecureMail` holds sealing an envelope and presenting a retrieved body.
  The crypto primitives and the envelope's text form are function values
  here, and a thrown exception is `None`.
- `Session` holds the engine. The pure functions (`Prepare`, `SecureSend`,
  `Exchange`, `Followup`, `Expected`) state what each command does with
  the console input and the server's lines, and the methods of the
  `UserProcessor` class are proved to do exactly that to the channel.

The console becomes a value (`Session.Console`). It holds the typed lines
and the result of resolving each key path the prompts ask for: loaded,
file missing, or loading threw. It also holds the random AES key and IV.
The server's responses are a queue of lines plus a `decode` function that
maps a line to a response, or to nothing.

## Model

| member | source | states |
|---|---|---|
| Session.CollectBody | Client/src/org/simple/mail/client/UserProcessor.java:62-71 | reads console lines up to and including the first "." and returns every earlier line, in order, each followed by "\n"; the "." and what follows are not part of it |
| Framing.TerminatorIndex | Client/src/org/simple/mail/client/UserProcessor.java:66-71 | the index of the first "." line: it is a "." and no earlier line is |
| Framing.Body | Client/src/org/simple/mail/client/UserProcessor.java:62-71 | definition with no contract of its own: the typed lines before the first ".", each followed by "\n"; its properties are `BodyStopsAtTerminator`, `BodyGrows` and `BodyFields`, and `CollectBody` is proved equal to it |
| Framing.BodyGrows | Client/src/org/simple/mail/client/UserProcessor.java:68-69 | reading one more non-terminator line appends exactly that line and a newline to the body so far |
| Framing.BodyStopsAtTerminator | Client/src/org/simple/mail/client/UserProcessor.java:62-71 | for lines without ".", then ".", then anything: the body is the lines before the "." newline-terminated, whatever follows |
| Framing.BodyFields | Client/src/org/simple/mail/client/UserProcessor.java:62-71 | splitting the collected body at its newlines gives back the typed lines plus one final empty field |
| Text.NewlinedFields | Client/src/org/simple/mail/client/UserProcessor.java:62-71 | newline-free lines, each followed by a newline and concatenated, split back into exactly those lines and a final empty field |
| Session.Prepare | Client/src/org/simple/mail/client/UserProcessor.java:74-143 | each key-resolution failure gives its own error, in the source's order (certificate missing, certificate unreadable, key missing, key unreadable); success exactly when both keys load and sealing succeeds, the envelope then being the sealed body |
| Session.UserProcessor.PrepareEnvelope | Client/src/org/simple/mail/client/UserProcessor.java:60-143 | the collect, resolve and seal steps compute `Prepare`, without touching the channel |
| SecureMail.Seal | Client/src/org/simple/mail/client/UserProcessor.java:119-143 | fails exactly when AES encryption, RSA key wrapping or signing throws; on success the envelope carries the base64 ciphertext, IV and wrapped key, and a signature over the ciphertext (not the plaintext) |
| Session.NoSendOnKeyFailure | Client/src/org/simple/mail/client/UserProcessor.java:79-117 | a DATA command whose certificate or private key cannot be resolved returns 0, writes no request and reads no line |
| Session.Exchange | Client/src/org/simple/mail/client/UserProcessor.java:145-170 | definition with no contract of its own: DATA, then, only after a SUCCESS reply, the envelope lines, ".", and the acknowledgement; its properties are `ExchangeOrder` and `TransmissionShape`, and `Transmit` is proved equal to it |
| Session.SecureSend | Client/src/org/simple/mail/client/UserProcessor.java:57-177 | status is 0; no request at all is written exactly when the envelope could not be built, and the outcome then says why; otherwise the exchange over the envelope's lines follows |
| Session.ExchangeOrder | Client/src/org/simple/mail/client/UserProcessor.java:145-170 | DATA is always first; anything after DATA only when the reply is SUCCESS; a missing or non-SUCCESS reply writes only DATA; otherwise DATA, every envelope line in order, then ".", and the next response is the acknowledgement |
| Session.TransmissionShape | Client/src/org/simple/mail/client/UserProcessor.java:146-165 | a full transmission is DATA, then one request per envelope line in order, then "." |
| Session.DeliveredLinesAreSingle | Client/src/org/simple/mail/client/UserProcessor.java:158-165 | in a delivered send every request between DATA and "." carries one line with no newline in it |
| Session.UserProcessor.HandleSecureData | Client/src/org/simple/mail/client/UserProcessor.java:57-178 | the channel trace grows by exactly `SecureSend`'s requests and the queue loses exactly the lines it reads; the stored response is the DATA reply when rejected and the acknowledgement when delivered |
| Session.UserProcessor.Transmit | Client/src/org/simple/mail/client/UserProcessor.java:145-170 | sends and reads exactly what `Exchange` says, in that order |
| Session.UserProcessor.SendLines | Client/src/org/simple/mail/client/UserProcessor.java:160-162 | appends one request per line, in order, to the trace and reads nothing |
| Session.Expected | Client/src/org/simple/mail/client/UserProcessor.java:28-46 | DATA (in any case) is the secure send; any other command writes exactly the request, returns -1 exactly when no response arrives and 0 otherwise, and reads a payload only after a SUCCESS response |
| Session.UserProcessor.Process | Client/src/org/simple/mail/client/UserProcessor.java:28-46 | status, what is shown, the requests written and the lines left unread are those of `Expected`; for non-DATA commands the stored response is the one received |
| Session.Followup | Client/src/org/simple/mail/client/UserProcessor.java:188-199 | lines are only ever consumed from the front, and only after SUCCESS to LIST or RETRIEVE; a listing only for LIST, a mail only for RETRIEVE; a non-SUCCESS response reads nothing |
| Session.UserProcessor.HandleResponse | Client/src/org/simple/mail/client/UserProcessor.java:188-199 | dispatches exactly as `Followup` and writes no request |
| Session.UserProcessor.DoListResponse | Client/src/org/simple/mail/client/UserProcessor.java:207-213 | reads exactly notice lines (none for a negative notice) and shows them joined with no separator; the stream ending first interrupts |
| Framing.ListFrame | Client/src/org/simple/mail/client/UserProcessor.java:209-211 | fails exactly when the notice asks for more lines than the stream holds; otherwise it consumes exactly max(notice, 0) lines from the front and the listing is those lines joined |
| Framing.ListFrameReads | Client/src/org/simple/mail/client/UserProcessor.java:209-211 | a listing of n lines reads back exactly those lines, joined, and leaves whatever follows them unread |
| Framing.ListFrameNonPositive | Client/src/org/simple/mail/client/UserProcessor.java:210 | a notice of zero or less reads nothing and gives an empty listing |
| Framing.ListFrameShort | Client/src/org/simple/mail/client/UserProcessor.java:210-211 | a notice larger than the lines available cannot be satisfied |
| Framing.MinimalCover | Client/src/org/simple/mail/client/UserProcessor.java:218-225 | the number of lines a count-driven read consumes: the shortest prefix whose total length reaches the count, every shorter prefix falling short; none when even all lines fall short |
| Framing.MinimalCoverUnique | Client/src/org/simple/mail/client/UserProcessor.java:221-225 | any prefix that reaches the count while every shorter one falls short is the one the read stops at |
| Framing.MinimalCoverNone | Client/src/org/simple/mail/client/UserProcessor.java:221-224 | when no prefix reaches the count, the read runs out of lines |
| Framing.MinimalCoverIgnoresTail | Client/src/org/simple/mail/client/UserProcessor.java:221-225 | lines after the point where the count is used up do not change what is read |
| Session.UserProcessor.ReadCovering | Client/src/org/simple/mail/client/UserProcessor.java:218-226 | appends lines while characters remain, starting from the count and subtracting each line's length; the result is the concatenation of exactly the lines `MinimalCover` names, and those are all it consumes |
| Framing.RetrieveFrame | Client/src/org/simple/mail/client/UserProcessor.java:218-227 | succeeds exactly when the whole stream holds at least notice + 1 characters (32-bit); it then consumes from the front the shortest run of lines reaching that count, and the body is those lines joined |
| Session.UserProcessor.DoRetrieveResponse | Client/src/org/simple/mail/client/UserProcessor.java:215-230 | reads a body of notice + 1 characters (32-bit) as `RetrieveFrame` cuts it, and presents it with `Present` |
| Protocol.Inc | Client/src/org/simple/mail/client/UserProcessor.java:218 | notice + 1 in Java int arithmetic: the result differs from the mathematical x + 1 by a multiple of 2^32, which within the int range fixes it |
| SecureMail.OpenEnvelope | Client/src/org/simple/mail/client/UserProcessor.java:313-321 | definition with no contract of its own: base64-decode the wrapped key, unwrap it with the private key, decode the IV, decrypt, and decode the text, None when any step throws; `Present` states when its result is shown (`Plaintext`) |
| SecureMail.Present | Client/src/org/simple/mail/client/UserProcessor.java:229-350 | anything but a decryption shows the body as received; a body that is not a secure email is shown plain with no prompt; the private key is asked for and decryption tried only after the signature verified, and after the check; each heading holds exactly when its condition does |
| Text.ConcatAppend | Client/src/org/simple/mail/client/UserProcessor.java:208-211 | appending two runs of strings to a builder in turn is appending their concatenations |
| Text.ConcatSnoc | Client/src/org/simple/mail/client/UserProcessor.java:223 | one more append extends the builder's text by exactly that string |
| Text.Fields | Client/src/org/simple/mail/client/UserProcessor.java:159 | a string always has at least one newline-separated piece |
| Text.FieldsJoin | Client/src/org/simple/mail/client/UserProcessor.java:159 | the pieces, joined with newlines, give back the string |
| Text.FieldsHaveNoNewline | Client/src/org/simple/mail/client/UserProcessor.java:159 | no piece holds a newline |
| Text.DropTrailingEmpty | Client/src/org/simple/mail/client/UserProcessor.java:159 | keeps a prefix, drops only empty strings, and the last one kept is not empty |
| Text.SplitNewline | Client/src/org/simple/mail/client/UserProcessor.java:159 | definition with no contract of its own: the string itself when it holds no newline, otherwise its newline-separated pieces less the trailing empty ones; its properties are `SplitNewlineSpec` |
| Text.SplitNewlineSpec | Client/src/org/simple/mail/client/UserProcessor.java:159 | split yields newline-free pieces; a string without newline splits to itself; otherwise to its pieces less the trailing empty ones |
| Protocol.Channel.constructor | Client/src/org/simple/mail/client/UserProcessor.java:22 | a channel with nothing sent yet over the given server lines |
| Protocol.Channel.SendRequest | Client/src/org/simple/mail/client/UserProcessor.java:37 | appends the request to the trace and reads nothing |
| Protocol.Channel.ReceiveResponse | Client/src/org/simple/mail/client/UserProcessor.java:38 | consumes one line and decodes it; nothing once the stream has ended |
| Protocol.Channel.ReceiveLine | Client/src/org/simple/mail/client/UserProcessor.java:222 | consumes and returns one raw line; nothing once the stream has ended |
| Session.UserProcessor.constructor | Client/src/org/simple/mail/client/UserProcessor.java:19-26 | a processor over the given channel, with no response yet |
| Session.UserProcessor.SetRequest | Client/src/org/simple/mail/client/UserProcessor.java:184-186 | stores the request |
| Session.UserProcessor.SetResponse | Client/src/org/simple/mail/client/UserProcessor.java:180-182 | stores the response |

## Left out

- The server side, including `Database.java`, is not part of this model.
- The cryptography is not modelled; `CryptoUtils` enters as uninterpreted functions. So nothing is proved about decryption undoing encryption or about signatures being unforgeable.
- The `SecureEmail` text form (`toString`, `isSecureEmail`, `parseFromString`) enters as uninterpreted functions too. Its format and its parse/print round trip are not modelled.
- Console I/O, prompts and printed messages are left out. What is printed is represented by the `Shown` value and its headings. The prompted paths and the password are folded into `KeyResult`: loaded, file missing (the `File.exists` check) or loading threw.
- The random AES key and IV are inputs (`Console.random`). Turning the decrypted key bytes back into a key (`createSecretKey`) is the identity on bytes.
- Socket internals and I/O exceptions are left out. `TcpChannel` is not part of this model, so what `receiveLine` does at the end of the stream is an assumption here: the channel is taken to raise, and both read loops stop with `Interrupted`. If it returned null instead, the LIST loop at line 211 would append "null" and carry on, and the RETRIEVE loop would fail at line 224; neither is modelled.
- Session.SecureSend: an exception after DATA has been accepted is not modelled, because the channel here does not fail. The source's catch would then report "not sent" although DATA and some lines are already on the wire.
- Session.UserProcessor.Transmit: a missing acknowledgement after "." is kept as `Delivered(None)`. The source dereferences the null response there.
- Session.UserProcessor.HandleSecureData: the envelope's text is split before DATA is sent, where the source splits it after the DATA reply. The split is a pure computation, so nothing observable changes.
- Console input that ends without a "." line is excluded by a precondition, because the source then dereferences null.
- A notice that is not a number is not modelled; the notice is taken as an `Int32` (`Integer.parseInt` would throw).
- `String.length()` counts UTF-16 units; the model counts characters of `seq<char>`. `TcpChannel` is not part of this model: each line the channel returns is taken to come without its newline, so a RETRIEVE count is used up by the line characters alone.
- Case-insensitive comparison folds ASCII letters only.
- The command names are taken as "DATA", "LIST", "RETRIEVE" and ".". `Response.SUCCESS` is the `Success` code. A request built from a single string has the empty argument. The request starts as the empty command, where the source's field starts null.
- `doDataResponse` is never called and prints only; it is left out.
- A count-driven RETRIEVE over empty lines keeps reading for as long as the server sends them. Here each read consumes a line from a finite queue, so the loop terminates.
