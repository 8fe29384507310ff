// Splitting fetched pod logs into lines: splitLogLines of pkg/fwdapi/adapters.go.
module LogLines {
  import opened Text

  function Without(s: string, c: char): (r: string)
    ensures c !in r
    ensures forall d :: d in r <==> d in s && d != c
  {
    if s == [] then []
    else if s[0] == c then Without(s[1..], c)
    else [s[0]] + Without(s[1..], c)
  }

  function DropEmptyEnd(pieces: seq<string>): seq<string> {
    if pieces != [] && pieces[|pieces| - 1] == [] then pieces[..|pieces| - 1] else pieces
  }

  /** What the loop below computes: delete carriage returns, split at line feeds, drop a final empty piece. */
  function Pieces(content: string): seq<string> {
    Split(Without(content, '\r'), '\n')
  }

  function Lines(content: string): seq<string> {
    DropEmptyEnd(Pieces(content))
  }

  /** Text already read for the line that the first piece goes on with. */
  function Continue(line: string, pieces: seq<string>): seq<string>
    requires pieces != []
  {
    [line + pieces[0]] + pieces[1..]
  }

  lemma ContinueNothing(pieces: seq<string>)
    requires pieces != []
    ensures Continue([], pieces) == pieces
  {
    assert [] + pieces[0] == pieces[0];
  }

  lemma PiecesFrom(content: string, i: nat, line: string)
    requires i < |content|
    ensures var c, rest := content[i], Pieces(content[i + 1..]);
            Continue(line, Pieces(content[i..])) ==
            if c == '\n' then [line] + Continue([], rest)
            else if c == '\r' then Continue(line, rest)
            else Continue(line + [c], rest)
  {
    var c, rest := content[i], Pieces(content[i + 1..]);
    assert content[i..][1..] == content[i + 1..];
    if c == '\n' {
      assert line + [] == line;
      assert Pieces(content[i..]) == [[]] + rest;
      ContinueNothing(rest);
    } else if c != '\r' {
      assert line + ([c] + rest[0]) == line + [c] + rest[0];
    }
  }

  /** The pieces of the whole text are the lines found, then the current one with what is still to be read. */
  ghost predicate Reading(content: string, i: nat, lines: seq<string>, line: string) {
    i <= |content| && Pieces(content) == lines + Continue(line, Pieces(content[i..]))
  }

  lemma StartReading(content: string)
    ensures Reading(content, 0, [], "")
  {
    assert content[0..] == content;
    ContinueNothing(Pieces(content));
  }

  lemma ReadOne(content: string, i: nat, lines: seq<string>, line: string)
    requires i < |content| && Reading(content, i, lines, line)
    ensures content[i] == '\n' ==> Reading(content, i + 1, lines + [line], "")
    ensures content[i] == '\r' ==> Reading(content, i + 1, lines, line)
    ensures content[i] != '\n' && content[i] != '\r' ==> Reading(content, i + 1, lines, line + [content[i]])
  {
    PiecesFrom(content, i, line);
  }

  lemma EndReading(content: string, lines: seq<string>, line: string)
    requires Reading(content, |content|, lines, line)
    ensures Lines(content) == if line == "" then lines else lines + [line]
  {
    assert content[|content|..] == "";
    assert Pieces("") == [""] && line + [] == line;
    assert Pieces(content) == lines + [line];
  }

  /** A carriage return ends a line only before a line feed; anywhere else it vanishes. */
  method SplitLogLines(content: string) returns (lines: seq<string>)
    ensures lines == Lines(content)
  {
    lines := [];
    StartReading(content);
    if content == "" {
      EndReading(content, [], "");
      return;
    }
    hide Lines, Reading;
    var currentLine := "";
    var i := 0;
    while i < |content|
      invariant i <= |content| && Reading(content, i, lines, currentLine)
    {
      ReadOne(content, i, lines, currentLine);
      if content[i] == '\n' {
        lines := lines + [currentLine];
        currentLine := "";
      } else if content[i] == '\r' {
        if i + 1 < |content| && content[i + 1] == '\n' {
          ReadOne(content, i + 1, lines, currentLine);
          lines := lines + [currentLine];
          currentLine := "";
          i := i + 1;
        }
      } else {
        currentLine := currentLine + [content[i]];
      }
      i := i + 1;
    }
    EndReading(content, lines, currentLine);
    if |currentLine| > 0 {
      lines := lines + [currentLine];
    }
  }

  // ---------- Printing and splitting ----------

  function End(crlf: bool): string {
    if crlf then "\r\n" else "\n"
  }

  function Terminated(lines: seq<string>, crlf: seq<bool>): string
    requires |crlf| == |lines|
  {
    if lines == [] then ""
    else lines[0] + End(crlf[0]) + Terminated(lines[1..], crlf[1..])
  }

  predicate Clean(line: string) {
    '\r' !in line && '\n' !in line
  }

  lemma {:induction false} WithoutAppend(a: string, b: string, c: char)
    ensures Without(a + b, c) == Without(a, c) + Without(b, c)
  {
    if a == [] {
      assert a + b == b;
    } else {
      assert (a + b)[1..] == a[1..] + b;
      WithoutAppend(a[1..], b, c);
    }
  }

  lemma {:induction false} WithoutNone(s: string, c: char)
    requires c !in s
    ensures Without(s, c) == s
  {
    if s != [] {
      WithoutNone(s[1..], c);
    }
  }

  lemma PiecesOfLine(line: string, crlf: bool, rest: string)
    requires Clean(line)
    ensures Pieces(line + End(crlf) + rest) == [line] + Pieces(rest)
  {
    var end := End(crlf);
    WithoutAppend(line + end, rest, '\r');
    WithoutAppend(line, end, '\r');
    WithoutNone(line, '\r');
    assert Without(end, '\r') == "\n" by {
      assert "\r\n"[1..] == "\n" && "\n"[1..] == "";
    }
    SplitFirst(line, '\n', Without(rest, '\r'));
  }

  lemma {:induction false} PiecesOfTerminated(lines: seq<string>, crlf: seq<bool>, last: string)
    requires |crlf| == |lines|
    requires forall i :: 0 <= i < |lines| ==> Clean(lines[i])
    ensures Pieces(Terminated(lines, crlf) + last) == lines + Pieces(last)
  {
    hide Pieces, End, Clean;
    if lines == [] {
      assert Terminated(lines, crlf) + last == last;
    } else {
      var rest := Terminated(lines[1..], crlf[1..]);
      assert Terminated(lines, crlf) + last == lines[0] + End(crlf[0]) + (rest + last);
      PiecesOfLine(lines[0], crlf[0], rest + last);
      PiecesOfTerminated(lines[1..], crlf[1..], last);
    }
  }

  lemma PiecesAreClean(s: string)
    ensures forall i :: 0 <= i < |Pieces(s)| ==> Clean(Pieces(s)[i])
  {
    SplitPieces(Without(s, '\r'), '\n');
    forall i | 0 <= i < |Pieces(s)|
      ensures Clean(Pieces(s)[i])
    {
    }
  }

  lemma {:induction false} SplitPieces(s: string, sep: char)
    ensures forall i :: 0 <= i < |Split(s, sep)| ==> forall c :: c in Split(s, sep)[i] ==> c in s && c != sep
  {
    if s != [] {
      SplitPieces(s[1..], sep);
      var rest := Split(s[1..], sep);
      forall i | 0 <= i < |Split(s, sep)|
        ensures forall c :: c in Split(s, sep)[i] ==> c in s && c != sep
      {
        if s[0] == sep {
          assert i > 0 ==> Split(s, sep)[i] == rest[i - 1];
        } else {
          assert Split(s, sep)[i] == if i == 0 then [s[0]] + rest[0] else rest[i];
        }
      }
    }
  }

  /** Lines printed with either terminator come back, each as it was, exactly when none has a terminator in it. */
  lemma PrintedLinesComeBack(lines: seq<string>, crlf: seq<bool>)
    requires |crlf| == |lines|
    ensures Lines(Terminated(lines, crlf)) == lines <==> forall i :: 0 <= i < |lines| ==> Clean(lines[i])
  {
    var text := Terminated(lines, crlf);
    if forall i :: 0 <= i < |lines| ==> Clean(lines[i]) {
      PiecesOfTerminated(lines, crlf, "");
      assert text + "" == text;
      assert Pieces("") == [""];
      assert DropEmptyEnd(lines + [""]) == lines;
    } else {
      PiecesAreClean(text);
    }
  }

  /** A last line without a terminator is kept too, unless it is empty. */
  lemma UnterminatedEnd(lines: seq<string>, crlf: seq<bool>, last: string)
    requires |crlf| == |lines| && Clean(last)
    requires forall i :: 0 <= i < |lines| ==> Clean(lines[i])
    ensures Lines(Terminated(lines, crlf) + last) == lines + (if last == "" then [] else [last])
  {
    PiecesOfTerminated(lines, crlf, last);
    WithoutNone(last, '\r');
    SplitWhole(last, '\n');
    assert (lines + [last])[..|lines|] == lines;
  }
}
