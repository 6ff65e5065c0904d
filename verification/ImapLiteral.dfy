// A mail as an IMAP literal: so many bytes, whatever is in them, and then the rest of the response.

module ImapLiteral {
  import opened Options
  import opened MailText
  import opened Framing
  import opened LineStates
  import opened LineIo

  /** The mail so far, how many lines it was taken from, and how many bytes the literal has. */
  datatype Body = Body(mail: string, lines: nat, size: nat)

  /** The line state with one line. */
  function TakeLine(s: Body, text: string, max: nat): Status<Body> {
    var line := CString(text);
    var used := |s.mail| + s.lines;
    if s.size > max then Going(s)
    else if used + |line| + 2 <= s.size then Going(Body(s.mail + line + "\n", s.lines + 1, s.size))
    else LastLine(s, line)
  }

  /** The line the literal ends on, as a C string: what is left of the literal is its first part. */
  function LastLine(s: Body, line: string): Status<Body> {
    var left := s.size - |s.mail| - s.lines;
    if |line| <= left && (line == "" || line[|line| - 1] != ')') then Failed(s)
    else if 0 < left <= |line| + 1 then Complete(Body(s.mail + (line + "\0")[..left], s.lines + 1, s.size))
    else Complete(s)
  }

  function Taking(max: nat): (Body, string) -> Status<Body> {
    (s: Body, line: string) => TakeLine(s, line, max)
  }

  function Opened(size: nat): Status<Body> {
    Going(Body("", 0, size))
  }

  /** Each CRLF as a newline. */
  function Unix(lit: string): string
    decreases |lit|
  {
    if lit == "" then "" else if EolAt(lit, 0) then "\n" + Unix(lit[2..]) else [lit[0]] + Unix(lit[1..])
  }

  /** What is taken up to the first CRLF. */
  lemma {:induction false} UnixLine(lit: string)
    ensures var k := FirstEol(lit); Unix(lit) == if k == |lit| then lit else lit[..k] + "\n" + Unix(lit[k + 2..])
    decreases |lit|
  {
    if lit != "" && !EolAt(lit, 0) {
      UnixLine(lit[1..]);
      var k := FirstEol(lit);
      if k < |lit| {
        assert lit[1..][k - 1 + 2..] == lit[k + 2..] && [lit[0]] + lit[1..][..k - 1] == lit[..k];
      }
    } else if lit != "" {
      assert FirstEol(lit) == 0 && lit[..0] + "\n" + Unix(lit[2..]) == "\n" + Unix(lit[2..]);
    }
  }

  /** Every line of the data fits: those of the literal, and the last with what comes after the literal. */
  predicate Fits(lit: string, after: string)
    decreases |lit|
  {
    var k := FirstEol(lit);
    if k == |lit| then |lit + after| + 2 <= MAX_LINE else k + 2 <= MAX_LINE && Fits(lit[k + 2..], after)
  }

  /** What follows a literal on its line. */
  predicate Closing(after: string) {
    after != "" && after[0] != '\n' && NoEol(after) && NulFree(after)
  }

  lemma BeforeEol(lit: string)
    ensures NoEol(lit[..FirstEol(lit)])
  {
    assert forall j :: EolAt(lit[..FirstEol(lit)], j) ==> EolAt(lit, j);
  }

  lemma NoEolAcross(lit: string, after: string)
    requires FirstEol(lit) == |lit| && Closing(after)
    ensures NoEol(lit + after)
  {
    forall j | 0 <= j < |lit + after| ensures !EolAt(lit + after, j) {
      if j >= |lit| {
        assert !EolAt(after, j - |lit|);
      } else {
        assert !EolAt(lit, j);
      }
    }
  }

  /** The last line of the literal. */
  lemma EndTaken(s: Body, lit: string, after: string, tail: string, max: nat)
    requires |s.mail| + s.lines + |lit| == s.size <= max && NulFree(lit) && Closing(after) && FirstEol(lit) == |lit|
    ensures var (r, rest) := TakeAll(Taking(max), Going(s), lit + after + "\r\n" + tail, false);
            && (|lit + after| + 2 <= MAX_LINE ==> r.Complete? && r.value.mail == s.mail + lit && rest == tail)
            && (|lit + after| + 2 > MAX_LINE ==> !r.Complete?)
  {
    hide NextLine, FirstEol;
    var line := lit + after;
    NoEolAcross(lit, after);
    LineRead(line, tail);
    assert (line + "\0")[..|lit|] == lit && s.mail + "" == s.mail;
  }

  /** A line before it. */
  lemma LineTaken(s: Body, line: string, rest: string, max: nat)
    requires |s.mail| + s.lines + |line| + 2 <= s.size <= max && NulFree(line) && NoEol(line)
    ensures var (r, d) := (TakeAll(Taking(max), Going(s), line + "\r\n" + rest, false));
            && (|line| + 2 <= MAX_LINE ==> (r, d) == TakeAll(Taking(max), Going(Body(s.mail + line + "\n", s.lines + 1, s.size)), rest, false))
            && (|line| + 2 > MAX_LINE ==> !r.Complete?)
  {
    hide NextLine;
    LineRead(line, rest);
  }

  /** From anywhere in the literal, just the rest of it is taken. */
  lemma {:induction false} RestTaken(s: Body, lit: string, after: string, tail: string, max: nat)
    requires |s.mail| + s.lines + |lit| == s.size <= max && NulFree(lit) && Closing(after)
    ensures var (r, rest) := TakeAll(Taking(max), Going(s), lit + after + "\r\n" + tail, false);
            && (Fits(lit, after) ==> r.Complete? && r.value.mail == s.mail + Unix(lit) && rest == tail)
            && (!Fits(lit, after) ==> !r.Complete?)
    decreases |lit|
  {
    hide TakeAll, FirstEol, Unix;
    var k := FirstEol(lit);
    UnixLine(lit);
    if k == |lit| {
      EndTaken(s, lit, after, tail, max);
    } else {
      var line, lit1 := lit[..k], lit[k + 2..];
      var rest := lit1 + after + "\r\n" + tail;
      assert lit + after + "\r\n" + tail == line + "\r\n" + rest;
      BeforeEol(lit);
      LineTaken(s, line, rest, max);
      if k + 2 <= MAX_LINE {
        RestTaken(Body(s.mail + line + "\n", s.lines + 1, s.size), lit1, after, tail, max);
        assert s.mail + (line + "\n" + Unix(lit1)) == s.mail + line + "\n" + Unix(lit1);
      }
    }
  }

  /** While a mail that is too big is flushed, nothing is stored, and nothing ends it. */
  lemma {:induction false} Flushed(s: Body, d: string, max: nat)
    requires s.size > max
    ensures var (r, rest) := TakeAll(Taking(max), Going(s), d, false); !r.Complete? && r.value == s
    decreases |d|
  {
    var next := NextLine(d, false);
    if next.Line? {
      Flushed(s, next.rest, max);
    }
  }

  /**
   * Whatever pieces it comes in, a literal is stored with each CRLF as a newline, and nothing after its line is read,
   * exactly if it is not too big and all its lines fit.
   */
  lemma LiteralTaken(lit: string, after: string, tail: string, pieces: seq<string>, max: nat)
    requires NulFree(lit) && Closing(after) && Concat(pieces) == lit + after + "\r\n" + tail
    ensures var (r, rest) := TakePieces(Taking(max), Opened(|lit|), "", pieces);
            && (r.Complete? <==> |lit| <= max && Fits(lit, after))
            && (r.Complete? ==> r.value.mail == Unix(lit) && rest == tail)
  {
    hide TakeAll, Fits, Unix, TakePieces;
    FromNothing(Taking(max), Opened(|lit|), pieces);
    if |lit| <= max {
      RestTaken(Opened(|lit|).value, lit, after, tail, max);
      assert "" + Unix(lit) == Unix(lit);
    } else {
      Flushed(Opened(|lit|).value, Concat(pieces), max);
    }
  }

  /** The line state: it takes all lines that have come, and says whether the mail is complete. */
  method StateLine(io: Io, s: Body, max: nat) returns (r: Status<Body>)
    requires io.Valid() && !io.error
    modifies io`error, io.rd
    ensures io.Valid() && io.rd.base == old(io.rd.base) && (r.Going? ==> !io.error)
    ensures (r, io.rd.Contents()) == TakeAll(Taking(max), Going(s), old(io.rd.Contents()), io.closed)
  {
    hide NextLine;
    ghost var take := Taking(max);
    var m, line := s, "";
    while true
      invariant io.Valid() && !io.error && io.rd.base == old(io.rd.base) && m.size == s.size
      invariant TakeAll(take, Going(m), io.rd.Contents(), io.closed) == TakeAll(take, Going(s), old(io.rd.Contents()), io.closed)
      decreases |io.rd.Contents()|
    {
      var next := io.ReadLine();
      if next == None {
        return if io.error then Failed(m) else Going(m);
      }
      if s.size > max {
        continue;
      }
      line := CString(next.value);
      if |m.mail| + m.lines + |line| + 2 > m.size {
        return LastLine(m, line);
      }
      m := Body(m.mail + line + "\n", m.lines + 1, m.size);
    }
  }
}
