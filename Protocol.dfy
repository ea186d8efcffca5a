/** The wire-level vocabulary of the mail protocol and the client's channel:
    requests, responses, the command names, and a TcpChannel reduced to the
    requests it has sent and the lines the server has yet to deliver. */
module Protocol {
  import opened Wrappers

  /** Java's int: Integer.parseInt yields a value in this range. */
  newtype Int32 = x: int | -0x8000_0000 <= x < 0x8000_0000

  /** x + 1 in 32-bit two's complement arithmetic: the int congruent to the
      mathematical successor modulo 2^32. */
  function Inc(x: Int32): (r: Int32)
    ensures (r as int - (x as int + 1)) % 0x1_0000_0000 == 0
  {
    if x == 0x7fff_ffff then -0x8000_0000 else x + 1
  }

  const DATA: string := "DATA"
  const LIST: string := "LIST"
  const RETRIEVE: string := "RETRIEVE"
  /** Mail.END_MAIL: the line that ends a body. */
  const END_MAIL: string := "."

  datatype Request = Request(command: string, argument: string)

  /** new Request(line): a request carrying only its command word (or a raw
      body line). */
  function Bare(line: string): Request
  {
    Request(line, "")
  }

  datatype Code = Success | Failure

  /** A parsed response line; the notice is taken as the number it encodes. */
  datatype Response = Response(code: Code, notice: Int32, message: string)

  /** What receiveResponse yields when the queue is q: null once the stream
      has ended, otherwise the decoding of the first line. */
  function NextResponse(decode: string -> Option<Response>, q: seq<string>): Option<Response>
  {
    if q == [] then None else decode(q[0])
  }

  /** The queue once one line has been read from q (nothing is left to read
      from an ended stream). */
  function Rest(q: seq<string>): seq<string>
  {
    if q == [] then [] else q[1..]
  }

  /** The client's TcpChannel: `sent` is every request written, in order;
      `incoming` is every line the server has sent that is not yet read;
      `decode` turns one line into a response (null on a line that is not
      one). */
  class Channel {
    var sent: seq<Request>
    var incoming: seq<string>
    const decode: string -> Option<Response>

    constructor (lines: seq<string>, decode: string -> Option<Response>)
      ensures sent == [] && incoming == lines && this.decode == decode
    {
      sent := [];
      incoming := lines;
      this.decode := decode;
    }

    method SendRequest(r: Request)
      modifies this
      ensures sent == old(sent) + [r] && incoming == old(incoming)
    {
      sent := sent + [r];
    }

    method ReceiveResponse() returns (r: Option<Response>)
      modifies this
      ensures r == NextResponse(decode, old(incoming))
      ensures incoming == Rest(old(incoming)) && sent == old(sent)
    {
      if incoming == [] {
        r := None;
      } else {
        r := decode(incoming[0]);
        incoming := incoming[1..];
      }
    }

    /** receiveLine: one raw line, or None when the stream has ended (the
        source raises an exception there). */
    method ReceiveLine() returns (line: Option<string>)
      modifies this
      ensures old(incoming) == [] ==> line == None
      ensures old(incoming) != [] ==> line == Some(old(incoming)[0])
      ensures incoming == Rest(old(incoming)) && sent == old(sent)
    {
      if incoming == [] {
        line := None;
      } else {
        line := Some(incoming[0]);
        incoming := incoming[1..];
      }
    }
  }
}
