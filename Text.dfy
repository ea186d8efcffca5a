/** String helpers the session engine relies on: StringBuilder concatenation,
    Java's case-insensitive comparison (ASCII letters), and Java's
    String.split("\n") with its trailing-empty-string rule. */
module Text {

  /** The text a StringBuilder holds after appending each element of xs in
      turn, with no separator. Defined from the end, as the appends happen. */
  function Concat(xs: seq<string>): string
  {
    if xs == [] then "" else Concat(xs[..|xs| - 1]) + xs[|xs| - 1]
  }

  lemma {:induction false} ConcatAppend(a: seq<string>, b: seq<string>)
    ensures Concat(a + b) == Concat(a) + Concat(b)
  {
    if b == [] {
      assert a + b == a;
    } else {
      var b' := b[..|b| - 1];
      assert (a + b)[..|a + b| - 1] == a + b';
      ConcatAppend(a, b');
    }
  }

  /** Appending one more element extends the concatenation by exactly it. */
  lemma ConcatSnoc(xs: seq<string>, x: string)
    ensures Concat(xs + [x]) == Concat(xs) + x
  {
    assert (xs + [x])[..|xs + [x]| - 1] == xs;
  }

  /** Peeling the first element off the front. */
  lemma ConcatCons(x: string, xs: seq<string>)
    ensures Concat([x] + xs) == x + Concat(xs)
  {
    ConcatAppend([x], xs);
    assert [x][..0] == [];
  }

  /** Every line of xs followed by a newline, as the body collection appends
      `line` and then "\n". */
  function Newlined(xs: seq<string>): (r: seq<string>)
    ensures |r| == |xs|
    ensures forall i :: 0 <= i < |xs| ==> r[i] == xs[i] + "\n"
  {
    seq(|xs|, i requires 0 <= i < |xs| => xs[i] + "\n")
  }

  /** Newlining distributes over joining two runs of lines. */
  lemma NewlinedAppend(a: seq<string>, b: seq<string>)
    ensures Newlined(a + b) == Newlined(a) + Newlined(b)
  {
    var l, r := Newlined(a + b), Newlined(a) + Newlined(b);
    assert |l| == |r|;
    forall i | 0 <= i < |l|
      ensures l[i] == r[i]
    {
      if i < |a| {
        assert (a + b)[i] == a[i];
      } else {
        assert (a + b)[i] == b[i - |a|];
      }
    }
  }

  // ---------------------------------------------------------------------
  // Case-insensitive comparison

  /** Lower-cases an ASCII upper-case letter and leaves every other
      character alone. */
  function Fold(c: char): char
  {
    if 'A' <= c <= 'Z' then (c as int - 'A' as int + 'a' as int) as char else c
  }

  /** compareToIgnoreCase(a, b) == 0, over the ASCII letters. */
  predicate EqualsIgnoreCase(a: string, b: string)
  {
    |a| == |b| && forall i :: 0 <= i < |a| ==> Fold(a[i]) == Fold(b[i])
  }

  // ---------------------------------------------------------------------
  // String.split("\n")

  /** All the pieces between newlines, empty ones included:
      Fields("a\n\nb\n") == ["a", "", "b", ""]. */
  function Fields(s: string): (r: seq<string>)
    ensures |r| >= 1
  {
    if s == [] then [""]
    else
      var rest := Fields(s[1..]);
      if s[0] == '\n' then [""] + rest else [[s[0]] + rest[0]] + rest[1..]
  }

  /** Pieces put back together with a newline between each two. */
  function JoinLines(xs: seq<string>): string
  {
    if xs == [] then "" else if |xs| == 1 then xs[0] else xs[0] + "\n" + JoinLines(xs[1..])
  }

  lemma {:induction false} FieldsJoin(s: string)
    ensures JoinLines(Fields(s)) == s
  {
    if s != [] {
      var rest := Fields(s[1..]);
      FieldsJoin(s[1..]);
      if s[0] == '\n' {
        assert ([""] + rest)[1..] == rest;
      } else {
        var r := [[s[0]] + rest[0]] + rest[1..];
        assert r[1..] == rest[1..];
        if |rest| == 1 {
          assert JoinLines(r) == [s[0]] + rest[0];
        } else {
          assert JoinLines(rest) == rest[0] + "\n" + JoinLines(rest[1..]);
        }
        assert JoinLines(r) == [s[0]] + JoinLines(rest);
        assert s == [s[0]] + s[1..];
      }
    }
  }

  lemma {:induction false} FieldsHaveNoNewline(s: string)
    ensures forall k :: 0 <= k < |Fields(s)| ==> '\n' !in Fields(s)[k]
  {
    if s != [] {
      FieldsHaveNoNewline(s[1..]);
      var rest := Fields(s[1..]);
      if s[0] != '\n' {
        assert '\n' !in rest[0];
        assert '\n' !in [s[0]] + rest[0];
      }
    }
  }

  /** Drops the empty strings at the end of xs. */
  function DropTrailingEmpty(xs: seq<string>): (r: seq<string>)
    ensures r <= xs
    ensures forall k :: |r| <= k < |xs| ==> xs[k] == ""
    ensures r != [] ==> r[|r| - 1] != ""
  {
    if xs != [] && xs[|xs| - 1] == "" then DropTrailingEmpty(xs[..|xs| - 1]) else xs
  }

  /** String.split("\n"): the input itself when it has no newline, otherwise
      its fields less the trailing empty ones. */
  function SplitNewline(s: string): seq<string>
  {
    if '\n' !in s then [s] else DropTrailingEmpty(Fields(s))
  }

  /** What split hands back: pieces free of newlines which, joined with
      newlines, give back s up to the trailing empty pieces it dropped,
      the last kept piece being non-empty. */
  lemma SplitNewlineSpec(s: string)
    ensures forall k :: 0 <= k < |SplitNewline(s)| ==> '\n' !in SplitNewline(s)[k]
    ensures '\n' !in s ==> SplitNewline(s) == [s]
    ensures '\n' in s ==>
      && SplitNewline(s) <= Fields(s)
      && (forall k :: |SplitNewline(s)| <= k < |Fields(s)| ==> Fields(s)[k] == "")
      && (SplitNewline(s) != [] ==> SplitNewline(s)[|SplitNewline(s)| - 1] != "")
    ensures JoinLines(Fields(s)) == s
  {
    FieldsHaveNoNewline(s);
    FieldsJoin(s);
  }

  /** Reading the collected body back with split-without-limit recovers the
      lines: a body of newline-terminated lines has one field per line and a
      final empty field. */
  lemma {:induction false} NewlinedFields(xs: seq<string>)
    requires forall i :: 0 <= i < |xs| ==> '\n' !in xs[i]
    ensures Fields(Concat(Newlined(xs))) == xs + [""]
  {
    if xs != [] {
      var tail := xs[1..];
      NewlinedFields(tail);
      assert xs == [xs[0]] + tail;
      NewlinedAppend([xs[0]], tail);
      assert Newlined([xs[0]]) == [xs[0] + "\n"];
      ConcatCons(xs[0] + "\n", Newlined(tail));
      FieldsAfterLine(xs[0], Concat(Newlined(tail)));
      assert xs + [""] == [xs[0]] + (tail + [""]);
    }
  }

  /** A newline-free line followed by a newline contributes one field. */
  lemma {:induction false} FieldsAfterLine(line: string, rest: string)
    requires '\n' !in line
    ensures Fields(line + "\n" + rest) == [line] + Fields(rest)
  {
    if line == [] {
      assert line + "\n" + rest == ['\n'] + rest;
      assert (['\n'] + rest)[1..] == rest;
    } else {
      var s := line + "\n" + rest;
      assert s[1..] == line[1..] + "\n" + rest;
      FieldsAfterLine(line[1..], rest);
      assert [line[0]] + line[1..] == line;
    }
  }
}
