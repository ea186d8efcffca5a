/** How the client cuts multi-line payloads out of a stream of lines: the
    body typed at the console (up to a "." line), a LIST listing (a counted
    number of lines) and a RETRIEVE body (a character count). */
module Framing {
  import opened Wrappers
  import opened Text
  import opened Protocol

  /** Where the first "." line is; the body is everything before it. */
  function TerminatorIndex(typed: seq<string>): (k: nat)
    requires END_MAIL in typed
    ensures k < |typed| && typed[k] == END_MAIL
    ensures forall j :: 0 <= j < k ==> typed[j] != END_MAIL
  {
    if typed[0] == END_MAIL then 0
    else
      assert typed == [typed[0]] + typed[1..];
      1 + TerminatorIndex(typed[1..])
  }

  /** The composed mail: each typed line before the first "." line, in
      order, each followed by a newline. */
  function Body(typed: seq<string>): string
    requires END_MAIL in typed
  {
    Concat(Newlined(typed[..TerminatorIndex(typed)]))
  }

  /** Reading one more typed line appends it and a newline to the body so
      far. */
  lemma BodyGrows(typed: seq<string>, n: nat)
    requires n < |typed|
    ensures Concat(Newlined(typed[..n + 1])) == Concat(Newlined(typed[..n])) + typed[n] + "\n"
  {
    assert typed[..n + 1] == typed[..n] + [typed[n]];
    NewlinedAppend(typed[..n], [typed[n]]);
    assert Newlined([typed[n]]) == [typed[n] + "\n"];
    ConcatSnoc(Newlined(typed[..n]), typed[n] + "\n");
  }

  /** Only what comes before the first "." counts: the terminator and every
      line after it are left out of the body. */
  lemma BodyStopsAtTerminator(before: seq<string>, after: seq<string>)
    requires END_MAIL !in before
    ensures END_MAIL in before + [END_MAIL] + after
    ensures TerminatorIndex(before + [END_MAIL] + after) == |before|
    ensures Body(before + [END_MAIL] + after) == Concat(Newlined(before))
  {
    var typed := before + [END_MAIL] + after;
    assert typed[|before|] == END_MAIL;
    assert typed[..|before|] == before;
  }

  /** Splitting the body at its newlines gives back the typed lines (console
      lines never hold a newline), followed by one empty field. */
  lemma BodyFields(typed: seq<string>)
    requires END_MAIL in typed
    requires forall i :: 0 <= i < |typed| ==> '\n' !in typed[i]
    ensures Fields(Body(typed)) == typed[..TerminatorIndex(typed)] + [""]
  {
    var lines := typed[..TerminatorIndex(typed)];
    assert forall i :: 0 <= i < |lines| ==> lines[i] == typed[i];
    NewlinedFields(lines);
  }

  /** A non-empty prefix of lines is as long as its first line and the
      rest of it together. */
  lemma PrefixLengths(lines: seq<string>)
    requires lines != []
    ensures forall j :: 1 <= j <= |lines| ==> |Concat(lines[..j])| == |lines[0]| + |Concat(lines[1..][..j - 1])|
  {
    forall j | 1 <= j <= |lines|
      ensures |Concat(lines[..j])| == |lines[0]| + |Concat(lines[1..][..j - 1])|
    {
      assert lines[..j] == [lines[0]] + lines[1..][..j - 1];
      ConcatCons(lines[0], lines[1..][..j - 1]);
    }
  }

  /** The number of lines a read of `need` characters consumes: the
      shortest prefix of lines whose total length reaches need, or None if
      even all of them fall short. */
  function MinimalCover(lines: seq<string>, need: int): (r: Option<nat>)
    ensures r.Some? ==> r.value <= |lines|
    ensures r.Some? ==> |Concat(lines[..r.value])| >= need
    ensures r.Some? ==> forall j :: 0 <= j < r.value ==> |Concat(lines[..j])| < need
    ensures r.None? ==> forall j :: 0 <= j <= |lines| ==> |Concat(lines[..j])| < need
    decreases |lines|
  {
    if need <= 0 then Some(0)
    else if lines == [] then None
    else
      var r := MinimalCover(lines[1..], need - |lines[0]|);
      PrefixLengths(lines);
      assert lines[..0] == [];
      if r.None? then None else Some(r.value + 1)
  }

  /** A prefix that reaches need and is the shortest to do so is the one
      MinimalCover picks. */
  lemma MinimalCoverUnique(lines: seq<string>, need: int, k: nat)
    requires k <= |lines|
    requires |Concat(lines[..k])| >= need
    requires forall j :: 0 <= j < k ==> |Concat(lines[..j])| < need
    ensures MinimalCover(lines, need) == Some(k)
  {
  }

  /** When no prefix reaches need, not even the whole of lines, the read
      runs out of lines. */
  lemma MinimalCoverNone(lines: seq<string>, need: int)
    requires forall j :: 0 <= j <= |lines| ==> |Concat(lines[..j])| < need
    ensures MinimalCover(lines, need).None?
  {
  }

  /** Once a prefix has been read, whatever follows it is not read. */
  lemma MinimalCoverIgnoresTail(lines: seq<string>, extra: seq<string>, need: int)
    requires MinimalCover(lines, need).Some?
    ensures MinimalCover(lines + extra, need) == MinimalCover(lines, need)
  {
    var k := MinimalCover(lines, need).value;
    var all := lines + extra;
    assert forall j :: 0 <= j <= k ==> all[..j] == lines[..j];
    MinimalCoverUnique(all, need, k);
  }

  /** A LIST listing: the notice counts lines (none for a negative count),
      shown joined with no separator; None when the stream ends first. */
  function ListFrame(q: seq<string>, notice: Int32): (r: (Option<string>, seq<string>))
    ensures r.0.None? <==> notice as int > |q|
    ensures r.0.Some? ==>
      && |q| - |r.1| == (if notice < 0 then 0 else notice as int)
      && r.1 == q[|q| - |r.1|..]
      && r.0.value == Concat(q[..|q| - |r.1|])
  {
    var k := if notice < 0 then 0 else notice as int;
    if k <= |q| then (Some(Concat(q[..k])), q[k..]) else (None, [])
  }

  /** A listing of n lines reads back exactly those n lines, joined, and
      leaves whatever follows them unread. */
  lemma ListFrameReads(lines: seq<string>, rest: seq<string>, n: Int32)
    requires n as int == |lines|
    ensures ListFrame(lines + rest, n) == (Some(Concat(lines)), rest)
  {
    assert (lines + rest)[..|lines|] == lines;
    assert (lines + rest)[|lines|..] == rest;
  }

  /** A count of zero or less reads nothing and shows an empty listing. */
  lemma ListFrameNonPositive(q: seq<string>, n: Int32)
    requires n <= 0
    ensures ListFrame(q, n) == (Some(""), q)
  {
    assert q[..0] == [];
  }

  /** A listing longer than the stream is cut short. */
  lemma ListFrameShort(q: seq<string>, n: Int32)
    requires n as int > |q|
    ensures ListFrame(q, n).0.None?
  {
  }

  /** A RETRIEVE body: lines are read until notice + 1 (in 32-bit
      arithmetic) characters have arrived; None when the stream ends first. */
  function RetrieveFrame(q: seq<string>, notice: Int32): (r: (Option<string>, seq<string>))
    ensures r.0.None? <==> |Concat(q)| < Inc(notice) as int
    ensures r.0.Some? ==>
      && |r.1| <= |q| && r.1 == q[|q| - |r.1|..]
      && r.0.value == Concat(q[..|q| - |r.1|])
      && |r.0.value| >= Inc(notice) as int
      && forall j :: 0 <= j < |q| - |r.1| ==> |Concat(q[..j])| < Inc(notice) as int
  {
    assert q[..|q|] == q;
    match MinimalCover(q, Inc(notice) as int)
    case Some(k) =>
      PrefixNoLonger(q, k);
      (Some(Concat(q[..k])), q[k..])
    case None => (None, [])
  }

  /** A prefix of lines is no longer than all of them together. */
  lemma PrefixNoLonger(q: seq<string>, k: nat)
    requires k <= |q|
    ensures |Concat(q[..k])| <= |Concat(q)|
  {
    assert q == q[..k] + q[k..];
    ConcatAppend(q[..k], q[k..]);
  }
}
