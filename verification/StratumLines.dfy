/** Line reassembly from arbitrary reads (onRecvSocketDataCompleted). */
module StratumLines {

  // What a stream of characters means, one character at a time

  /** The characters isspace accepts. */
  predicate IsSpace(c: char) {
    c == ' ' || ('\t' <= c <= '\r')
  }

  /** Space, tab, line feed, vertical tab, form feed and carriage return. */
  lemma SpaceTable(c: char)
    ensures IsSpace(c) <==> c as int in {32, 9, 10, 11, 12, 13}
  {
  }

  predicate Blank(s: string) {
    forall i :: 0 <= i < |s| ==> IsSpace(s[i])
  }

  /** The text after the last newline. */
  function Rest(s: string): string {
    if s == "" then ""
    else if s[|s| - 1] == '\n' then ""
    else Rest(s[..|s| - 1]) + [s[|s| - 1]]
  }

  /** The complete lines: every newline ends one. */
  function Lines(s: string): seq<string> {
    if s == "" then []
    else if s[|s| - 1] == '\n' then Lines(s[..|s| - 1]) + [Rest(s[..|s| - 1])]
    else Lines(s[..|s| - 1])
  }

  /** What is left of a line when the space around it is cut off. */
  function Trim(s: string): (t: string)
    ensures Blank(s) <==> t == ""
    ensures t != "" ==> !IsSpace(t[0]) && !IsSpace(t[|t| - 1])
    decreases |s|
  {
    if s == "" then ""
    else if IsSpace(s[0]) then Trim(s[1..])
    else if IsSpace(s[|s| - 1]) then Trim(s[..|s| - 1])
    else s
  }

  /** The lines that reach the parser: trimmed, and the blank ones left out. */
  function Cleaned(lines: seq<string>): seq<string> {
    if lines == [] then []
    else if Blank(lines[0]) then Cleaned(lines[1..])
    else [Trim(lines[0])] + Cleaned(lines[1..])
  }

  // Streams in pieces

  lemma OneCharacter(s: string, c: char)
    ensures Rest(s + [c]) == if c == '\n' then "" else Rest(s) + [c]
    ensures Lines(s + [c]) == if c == '\n' then Lines(s) + [Rest(s)] else Lines(s)
  {
    assert (s + [c])[..|s|] == s;
  }

  lemma {:induction false} RestAppend(s: string, t: string)
    ensures Rest(s + t) == Rest(Rest(s) + t)
    ensures Lines(s + t) == Lines(s) + Lines(Rest(s) + t)
    decreases |t|
  {
    hide Rest, Lines;
    if t == "" {
      RestHasNoLine(s);
      assert s + t == s && Rest(s) + t == Rest(s);
    } else {
      var u, c := t[..|t| - 1], t[|t| - 1];
      RestAppend(s, u);
      OneCharacter(s + u, c);
      OneCharacter(Rest(s) + u, c);
      assert s + t == (s + u) + [c] && Rest(s) + t == (Rest(s) + u) + [c];
    }
  }

  lemma {:induction false} RestHasNoLine(s: string)
    ensures '\n' !in Rest(s) && Rest(Rest(s)) == Rest(s) && Lines(Rest(s)) == []
    decreases |s|
  {
    if s == "" || s[|s| - 1] == '\n' {
    } else {
      RestHasNoLine(s[..|s| - 1]);
      assert Rest(s)[..|Rest(s)| - 1] == Rest(s[..|s| - 1]);
    }
  }

  lemma {:induction false} NoNewline(s: string)
    requires '\n' !in s
    ensures Rest(s) == s && Lines(s) == []
    decreases |s|
  {
    if s == "" {
    } else {
      assert s == s[..|s| - 1] + [s[|s| - 1]];
      NoNewline(s[..|s| - 1]);
    }
  }

  /** The first newline splits off the first line. */
  lemma FirstLine(s: string, offset: nat)
    requires offset < |s| && s[offset] == '\n' && '\n' !in s[..offset]
    ensures Lines(s) == [s[..offset]] + Lines(s[offset + 1..]) && Rest(s) == Rest(s[offset + 1..])
  {
    hide Rest, Lines;
    Around(s, offset);
    NoNewline(s[..offset]);
    FirstOf(s[..offset], s[offset + 1..]);
  }

  lemma Around(s: string, k: nat)
    requires k < |s|
    ensures s == (s[..k] + [s[k]]) + s[k + 1..]
  {
  }

  lemma FirstOf(line: string, tail: string)
    requires Rest(line) == line && Lines(line) == []
    ensures Lines((line + ['\n']) + tail) == [line] + Lines(tail) && Rest((line + ['\n']) + tail) == Rest(tail)
  {
    hide Rest, Lines;
    OneCharacter(line, '\n');
    RestAppend(line + ['\n'], tail);
    assert "" + tail == tail;
  }

  lemma {:induction false} CleanedAppend(a: seq<string>, b: seq<string>)
    ensures Cleaned(a + b) == Cleaned(a) + Cleaned(b)
    decreases |a|
  {
    if a == [] {
      assert a + b == b;
    } else {
      assert (a + b)[1..] == a[1..] + b;
      CleanedAppend(a[1..], b);
    }
  }

  lemma CutFront(s: string, i: nat, j: nat)
    requires s != "" && IsSpace(s[0]) && i <= j < |s| && Blank(s[1..][..i]) && Blank(s[1..][j..])
    ensures s[1..][i..j] == s[i + 1..j + 1] && Blank(s[..i + 1]) && Blank(s[j + 1..])
  {
    assert s[1..][j..] == s[j + 1..];
    assert s[..i + 1] == [s[0]] + s[1..][..i];
  }

  lemma CutBack(s: string, i: nat, j: nat)
    requires s != "" && IsSpace(s[|s| - 1]) && i <= j < |s|
    requires Blank(s[..|s| - 1][..i]) && Blank(s[..|s| - 1][j..])
    ensures s[..|s| - 1][i..j] == s[i..j] && Blank(s[..i]) && Blank(s[j..])
  {
    assert s[..|s| - 1][..i] == s[..i];
    assert s[j..] == s[..|s| - 1][j..] + [s[|s| - 1]];
  }

  function NonBlank(lines: seq<string>): nat {
    if lines == [] then 0 else (if Blank(lines[0]) then 0 else 1) + NonBlank(lines[1..])
  }

  /** As many lines reach the parser as are not blank, and each begins and ends with something. */
  lemma {:induction false} CleanedLines(lines: seq<string>)
    ensures |Cleaned(lines)| == NonBlank(lines)
    ensures forall i :: 0 <= i < |Cleaned(lines)| ==>
              var l := Cleaned(lines)[i]; l != "" && !IsSpace(l[0]) && !IsSpace(l[|l| - 1])
    decreases |lines|
  {
    hide Blank, IsSpace, Trim;
    if lines == [] {
    } else {
      CleanedLines(lines[1..]);
    }
  }

  /** What is cut off a line is space, and only from its ends. */
  lemma {:induction false} TrimCuts(s: string) returns (i: nat, j: nat)
    ensures i <= j <= |s| && Trim(s) == s[i..j] && Blank(s[..i]) && Blank(s[j..])
    decreases |s|
  {
    hide Blank;
    if s == "" {
      i, j := 0, 0;
      Nothing();
      assert s[..0] == "" && s[0..] == "";
    } else if IsSpace(s[0]) {
      i, j := TrimCuts(s[1..]);
      CutFront(s, i, j);
      i, j := i + 1, j + 1;
    } else if IsSpace(s[|s| - 1]) {
      i, j := TrimCuts(s[..|s| - 1]);
      CutBack(s, i, j);
    } else {
      i, j := 0, |s|;
      Nothing();
      assert s[..0] == "" && s[|s|..] == "" && s[0..|s|] == s;
    }
  }

  lemma Nothing()
    ensures Blank("")
  {
  }

  // The reader

  /** The position of the first newline, or the length when there is none. */
  method FindNewline(s: string) returns (offset: nat)
    ensures offset <= |s| && '\n' !in s[..offset]
    ensures offset < |s| ==> s[offset] == '\n'
  {
    offset := 0;
    while offset < |s| && s[offset] != '\n'
      invariant offset <= |s| && '\n' !in s[..offset]
    {
      offset := offset + 1;
    }
  }

  class Reader {
    var message: string

    constructor ()
      ensures message == ""
    {
      message := "";
    }

    /** One read: the lines it completes go to the parser, what follows the last newline stays in the buffer. */
    method Receive(data: string) returns (parsed: seq<string>)
      modifies this
      ensures message == Rest(old(message) + data)
      ensures parsed == Cleaned(Lines(old(message) + data))
    {
      hide Lines, Rest, Cleaned, Trim;
      message := message + data;
      ghost var all := message;
      parsed := [];
      var offset := FindNewline(message);
      while offset < |message|
        invariant 0 <= offset <= |message| && '\n' !in message[..offset]
        invariant offset < |message| ==> message[offset] == '\n'
        invariant Cleaned(Lines(all)) == parsed + Cleaned(Lines(message))
        invariant Rest(all) == Rest(message)
        decreases |message|
      {
        FirstLine(message, offset);
        CleanOne(message[..offset], Lines(message[offset + 1..]));
        if offset > 0 {
          var line := Trim(message[..offset]);
          if line != "" {
            parsed := parsed + [line];
          }
        }
        message := message[offset + 1..];
        offset := FindNewline(message);
      }
      assert message[..offset] == message;
      NoNewline(message);
      NothingCleaned();
    }
  }

  lemma NothingCleaned()
    ensures Cleaned([]) == []
  {
  }

  lemma CleanOne(line: string, rest: seq<string>)
    ensures Cleaned([line] + rest) == (if Trim(line) == "" then [] else [Trim(line)]) + Cleaned(rest)
    ensures line == "" ==> Trim(line) == ""
  {
    assert ([line] + rest)[1..] == rest;
  }

  // However the stream is cut

  function Joined(chunks: seq<string>): string {
    if chunks == [] then "" else Joined(chunks[..|chunks| - 1]) + chunks[|chunks| - 1]
  }

  /** Everything that reads of these chunks hand to the parser, and what they leave in the buffer: each read starts
      from what the one before it left. */
  function Received(chunks: seq<string>): (seq<string>, string) {
    if chunks == [] then ([], "") else
      var before := Received(chunks[..|chunks| - 1]);
      var text := before.1 + chunks[|chunks| - 1];
      (before.0 + Cleaned(Lines(text)), Rest(text))
  }

  /** The cutting does not matter: the parser gets the trimmed non-blank lines of the whole stream, in order, and the
      buffer holds the text after its last newline. */
  lemma {:induction false} CutAnywhere(chunks: seq<string>)
    ensures Received(chunks) == (Cleaned(Lines(Joined(chunks))), Rest(Joined(chunks)))
    decreases |chunks|
  {
    if chunks == [] {
    } else {
      var init, last := chunks[..|chunks| - 1], chunks[|chunks| - 1];
      CutAnywhere(init);
      RestAppend(Joined(init), last);
      CleanedAppend(Lines(Joined(init)), Lines(Rest(Joined(init)) + last));
    }
  }
}
