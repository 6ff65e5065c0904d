// The two loops of a mail's way through SMTP and POP3, over a connection.

module MailTransfer {
  import opened Sequences
  import opened Options
  import opened MailText
  import opened Framing
  import opened LineStates
  import opened LineIo
  import DotCodec

  method SendLine(io: Io, m: string, ptr: nat, len: nat)
    requires io.Valid() && !io.error && ptr + len <= |m|
    modifies io.wr, io.wr.base
    ensures io.Valid() && io.Written() == old(io.Written()) + DotCodec.Stuff(m[ptr..ptr + len]) + "\r\n"
    ensures io.wr.base == old(io.wr.base) || fresh(io.wr.base)
  {
    hide io.Written;
    ghost var line := m[ptr..ptr + len];
    if len > 1 {
      assert line[..len - 1] == m[ptr..ptr + len - 1];
      if m[ptr] == '.' {
        io.Write(".");
      }
      io.Write(m[ptr..ptr + len - 1]);
      assert io.Written() == old(io.Written()) + DotCodec.Stuff(line);
    }
    io.WriteLine(None);
  }

  lemma StuffedFirst(before: string, lines: seq<string>)
    requires lines != []
    ensures before + DotCodec.Stuffed(lines) == before + DotCodec.Stuff(lines[0]) + "\r\n" + DotCodec.Stuffed(lines[1..])
  {
    hide DotCodec.Stuff;
    Assoc4(before, DotCodec.Stuff(lines[0]), "\r\n", DotCodec.Stuffed(lines[1..]));
  }

  lemma StuffedLast(all: string, before: string, m: string)
    requires all + DotCodec.Stuffed([]) == before + DotCodec.Stuffed(Lines(m))
    ensures all + "." + "\r\n" == before + DotCodec.Data(m)
  {
    assert all + "" == all;
  }

  /** The data of a mail is written line by line; meanwhile the socket takes as much as it likes. */
  method SendData(io: Io, m: string, taken: nat -> nat)
    requires io.Valid() && !io.error
    modifies io`sent, io.wr, io.wr.base
    ensures io.Valid() && io.Written() == old(io.Written()) + DotCodec.Data(m)
  {
    hide Lines, FirstNl, LineLen, io.Written, DotCodec.Stuff, DotCodec.Stuffed;
    var ptr := 0;
    var len := LineLength(m, 0);
    assert m[0..] == m;
    ghost var todo := Lines(m);
    var more := true;
    while more
      invariant io.Valid() && !io.error && ptr <= |m|
      invariant io.wr.base == old(io.wr.base) || fresh(io.wr.base)
      invariant more ==> len == LineLen(m[ptr..]) && todo == Lines(m[ptr..])
      invariant !more ==> todo == []
      invariant io.Written() + DotCodec.Stuffed(todo) == old(io.Written()) + DotCodec.Stuffed(Lines(m))
      decreases more, |m| - ptr
    {
      LinesFrom(m, ptr);
      StuffedFirst(io.Written(), todo);
      SendLine(io, m, ptr, len);
      io.Update(taken(ptr));
      todo := todo[1..];
      ptr := ptr + len;
      if ptr == |m| {
        more := false;
      } else {
        len := LineLength(m, ptr);
      }
    }
    StuffedLast(io.Written(), old(io.Written()), m);
    io.WriteLine(Some("."));
  }

  /** The line state: it takes all lines that have come, and says whether the mail is complete. */
  method StateLine(io: Io, s: DotCodec.Intake, max: nat) returns (r: Status<DotCodec.Intake>)
    requires io.Valid() && !io.error
    modifies io`error, io.rd
    ensures io.Valid() && io.rd.base == old(io.rd.base)
    ensures r.Going? ==> !io.error
    ensures (r, io.rd.Contents()) == TakeAll(DotCodec.Taking(max), Going(s), old(io.rd.Contents()), io.closed)
  {
    hide NextLine;
    ghost var take := DotCodec.Taking(max);
    var m := s;
    while true
      invariant io.Valid() && !io.error && io.rd.base == old(io.rd.base)
      invariant TakeAll(take, Going(m), io.rd.Contents(), io.closed) == TakeAll(take, Going(s), old(io.rd.Contents()), io.closed)
      decreases |io.rd.Contents()|
    {
      var next := io.ReadLine();
      if next == None {
        return if io.error then Failed(m) else Going(m);
      }
      var line := CString(next.value);
      if line != "" && line[0] == '.' {
        if |line| == 1 {
          return Complete(m);
        }
        line := line[1..];
      }
      if !m.flushing {
        m := m.(mail := m.mail + line + "\n");
        if |m.mail| > max {
          m := m.(flushing := true);
        }
      }
    }
  }

  /** A mail fetched while its data comes in pieces; between two pieces the line state is left and entered again. */
  method FetchMail(io: Io, pieces: seq<string>, max: nat) returns (r: Status<DotCodec.Intake>)
    requires io.Valid() && !io.error && !io.closed && io.rd.Contents() == ""
    modifies io`error, io.rd, io.rd.base
    ensures io.Valid() && (r, io.rd.Contents()) == TakePieces(DotCodec.Taking(max), DotCodec.OPENED, "", pieces)
  {
    hide TakeAll;
    r := DotCodec.OPENED;
    ghost var take := DotCodec.Taking(max);
    for i := 0 to |pieces|
      invariant io.Valid() && !io.closed && (r.Going? ==> !io.error)
      invariant io.rd.base == old(io.rd.base) || fresh(io.rd.base)
      invariant TakePieces(take, r, io.rd.Contents(), pieces[i..]) == TakePieces(take, DotCodec.OPENED, "", pieces)
    {
      assert pieces[i..][1..] == pieces[i + 1..];
      io.Fill(pieces[i]);
      ghost var d := io.rd.Contents();
      if r.Going? {
        r := StateLine(io, r.value, max);
      } else {
        TakesNoMore(take, r, d);
      }
    }
  }
}
