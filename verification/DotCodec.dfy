// A mail sent as SMTP data and fetched with POP3.

module DotCodec {
  import opened MailText
  import opened Framing
  import opened LineStates

  // ---------------------------------------------------------------- sending

  /** A line as it is sent, without its CRLF: the last byte is left out, and a dot in front is doubled. */
  function Stuff(line: string): string {
    if |line| > 1 then (if line[0] == '.' then "." else "") + line[..|line| - 1] else ""
  }

  function Stuffed(lines: seq<string>): string {
    if lines == [] then "" else Stuff(lines[0]) + "\r\n" + Stuffed(lines[1..])
  }

  /** What is sent for a mail. */
  function Data(m: string): string {
    Stuffed(Lines(m)) + ".\r\n"
  }

  // ---------------------------------------------------------------- fetching

  /** The mail so far; flushing once it has become too big. */
  datatype Intake = Intake(mail: string, flushing: bool)

  const OPENED: Status<Intake> := Going(Intake("", false))

  /** The line state with one line. */
  function TakeLine(s: Intake, line: string, max: nat): Status<Intake> {
    var l := CString(line);
    if l == "." then Complete(s)
    else if s.flushing then Going(s)
    else
      var mail := s.mail + (if l != "" && l[0] == '.' then l[1..] else l) + "\n";
      Going(Intake(mail, |mail| > max))
  }

  function Taking(max: nat): (Intake, string) -> Status<Intake> {
    (s: Intake, line: string) => TakeLine(s, line, max)
  }

  // ---------------------------------------------------------------- there and back

  /** A line as it is stored: without its last byte, and with a newline. */
  function Shown(line: string): string {
    (if line == "" then "" else line[..|line| - 1]) + "\n"
  }

  function AllShown(lines: seq<string>): seq<string> {
    if lines == [] then [] else [Shown(lines[0])] + AllShown(lines[1..])
  }

  predicate Fits(line: string) {
    |Stuff(line)| + 2 <= MAX_LINE
  }

  /** No line is sent as the end of the mail. */
  lemma NotTheEnd(line: string)
    requires NulFree(line)
    ensures Stuff(line) != "." && CString(Stuff(line)) != "."
  {
  }

  function After(s: Intake, line: string, max: nat): Intake {
    if s.flushing then s else Intake(s.mail + Shown(line), |s.mail + Shown(line)| > max)
  }

  /** A line that is sent is taken as the line it was. */
  lemma TakenBack(s: Intake, line: string, rest: string, max: nat)
    requires OneLine(line) && NulFree(line)
    ensures Fits(line) ==>
              TakeAll(Taking(max), Going(s), Stuff(line) + "\r\n" + rest, false)
              == TakeAll(Taking(max), Going(After(s, line, max)), rest, false)
    ensures !Fits(line) ==> !TakeAll(Taking(max), Going(s), Stuff(line) + "\r\n" + rest, false).0.Complete?
  {
    hide NextLine;
    assert forall j :: 0 <= j < |Stuff(line)| ==> Stuff(line)[j] != '\n';
    LineRead(Stuff(line), rest);
    Unstuffed(s, line, max);
  }

  lemma Unstuffed(s: Intake, line: string, max: nat)
    requires OneLine(line) && NulFree(line)
    ensures TakeLine(s, Stuff(line), max) == Going(After(s, line, max))
  {
    NotTheEnd(line);
    var l := Stuff(line);
    assert NulFree(l);
    var body := if line == "" then "" else line[..|line| - 1];
    if |line| > 1 && line[0] == '.' {
      assert l == "." + body;
      assert l[1..] == body;
    } else {
      assert l == body;
    }
    assert CString(l) == l;
    assert s.mail + (body + "\n") == s.mail + body + "\n";
    assert TakeLine(s, l, max) == if s.flushing then Going(s) else Going(Intake(s.mail + body + "\n", |s.mail + body + "\n"| > max));
  }

  lemma {:induction false} LinesTakenBack(s: Intake, lines: seq<string>, tail: string, max: nat)
    requires s.flushing == (|s.mail| > max)
    requires forall l :: l in lines ==> OneLine(l) && NulFree(l) && Fits(l)
    ensures var mail := Kept(s.mail, AllShown(lines), max);
            TakeAll(Taking(max), Going(s), Stuffed(lines) + ".\r\n" + tail, false) == (Complete(Intake(mail, |mail| > max)), tail)
    decreases |lines|
  {
    if lines == [] {
      LineRead(".", tail);
      assert Stuffed(lines) + ".\r\n" + tail == "." + "\r\n" + tail;
    } else {
      var rest := Stuffed(lines[1..]) + ".\r\n" + tail;
      assert Stuffed(lines) + ".\r\n" + tail == Stuff(lines[0]) + "\r\n" + rest;
      assert lines[0] in lines;
      TakenBack(s, lines[0], rest, max);
      var s1 := After(s, lines[0], max);
      assert AllShown(lines)[1..] == AllShown(lines[1..]);
      LinesTakenBack(s1, lines[1..], tail, max);
    }
  }

  /** A line that does not fit stops the fetch. */
  lemma {:induction false} LongLineStops(s: Intake, lines: seq<string>, tail: string, max: nat)
    requires forall l :: l in lines ==> OneLine(l) && NulFree(l)
    requires exists l :: l in lines && !Fits(l)
    ensures !TakeAll(Taking(max), Going(s), Stuffed(lines) + ".\r\n" + tail, false).0.Complete?
    decreases |lines|
  {
    var rest := Stuffed(lines[1..]) + ".\r\n" + tail;
    assert Stuffed(lines) + ".\r\n" + tail == Stuff(lines[0]) + "\r\n" + rest;
    assert lines[0] in lines;
    TakenBack(s, lines[0], rest, max);
    if Fits(lines[0]) {
      assert forall l :: l in lines ==> l == lines[0] || l in lines[1..];
      var s1 := After(s, lines[0], max);
      LongLineStops(s1, lines[1..], tail, max);
    }
  }

  /** What is stored never has a NUL in it. */
  lemma {:induction false} NeverNul(s: Status<Intake>, d: string, max: nat)
    requires NulFree(s.value.mail)
    ensures NulFree(TakeAll(Taking(max), s, d, false).0.value.mail)
    decreases |d|
  {
    if s.Going? {
      var next := NextLine(d, false);
      if next.Line? {
        NeverNul(TakeLine(s.value, next.line, max), next.rest, max);
      }
    }
  }

  /** What is stored of a mail, if it is not too big: the mail, but a last line without newline loses its last byte. */
  lemma {:induction false} ShownMakesMail(m: string)
    ensures Concat(AllShown(Lines(m))) == if EndsInNewline(m) then m else if m == "" then "\n" else m[..|m| - 1] + "\n"
    decreases |m|
  {
    hide FirstNl;
    var k := LineLen(m);
    if k == |m| {
      assert AllShown([m][1..]) == [] && Concat(AllShown([m])[1..]) == "";
    } else {
      ShownMakesMail(m[k..]);
      assert Lines(m)[1..] == Lines(m[k..]);
      assert AllShown(Lines(m))[1..] == AllShown(Lines(m[k..]));
      assert m == m[..k] + m[k..] && Shown(m[..k]) == m[..k];
    }
  }

  lemma {:induction false} KeptEnds(mail: string, lines: seq<string>, max: nat)
    requires EndsInNewline(mail) || (mail == "" && lines != [])
    ensures EndsInNewline(Kept(mail, AllShown(lines), max))
    decreases |lines|
  {
    if lines != [] && |mail| <= max {
      assert AllShown(lines)[1..] == AllShown(lines[1..]);
      KeptEnds(mail + Shown(lines[0]), lines[1..], max);
    }
  }

  /** What a mail must be to come back as it was. */
  predicate Sendable(m: string, max: nat) {
    var lines := Lines(m);
    && EndsInNewline(m)
    && NulFree(m)
    && (forall l :: l in lines ==> Fits(l))
    && |m| - |lines[|lines| - 1]| <= max
  }

  /** A mail that is sent, and comes in any pieces, is fetched as it was exactly if it is sendable; nothing after it is touched. */
  lemma RoundTrip(m: string, tail: string, pieces: seq<string>, max: nat)
    requires Concat(pieces) == Data(m) + tail
    ensures var (s, rest) := TakePieces(Taking(max), OPENED, "", pieces);
            && (s.Complete? && s.value.mail == m <==> Sendable(m, max))
            && (Sendable(m, max) ==> rest == tail)
  {
    hide TakeAll, Kept, AllShown, Stuffed, Lines, Fits, Concat, WellSplit, OneLine, Shown;
    var lines := Lines(m);
    FromNothing(Taking(max), OPENED, pieces);
    LinesMakeMail(m);
    if !NulFree(m) {
      NeverNul(OPENED, Concat(pieces), max);
    } else {
      forall l | l in lines ensures OneLine(l) && NulFree(l) {
        EachOneLine(lines, l);
      }
      if exists l :: l in lines && !Fits(l) {
        LongLineStops(OPENED.value, lines, tail, max);
      } else {
        LinesTakenBack(OPENED.value, lines, tail, max);
        KeptEnds("", lines, max);
        ShownMakesMail(m);
        LastShown(m);
        KeptAll("", AllShown(lines), max);
        assert "" + Concat(AllShown(lines)) == Concat(AllShown(lines));
      }
    }
  }

  lemma {:induction false} LastShown(m: string)
    ensures var shown := AllShown(Lines(m));
            shown != [] && shown[|shown| - 1] != "" && (m != "" ==> |shown[|shown| - 1]| == |Lines(m)[|Lines(m)| - 1]|)
    decreases |m|
  {
    var k := LineLen(m);
    if k < |m| {
      LastShown(m[k..]);
    }
  }

  /** Without a newline at its end a mail is lost: mails of one byte are all sent alike, and none comes back. */
  lemma NoNewlineLost(tail: string, pieces: seq<string>, max: nat)
    requires Concat(pieces) == Data("x") + tail
    ensures Data("x") == Data("y")
    ensures var (s, _) := TakePieces(Taking(max), OPENED, "", pieces); !(s.Complete? && s.value.mail == "x")
  {
    RoundTrip("x", tail, pieces, max);
    OneByte("x");
    OneByte("y");
  }

  lemma OneByte(m: string)
    requires |m| == 1 && m != "\n"
    ensures Data(m) == "\r\n.\r\n"
  {
    assert Lines(m) == [m];
    assert [m][1..] == [] && Stuffed([m]) == "\r\n";
  }
}
