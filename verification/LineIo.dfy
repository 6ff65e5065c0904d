// Lines ended by CRLF on a stream that comes in pieces.

module Framing {
  const MAX_LINE := 1048576
  const BLOCK_SIZE := 16384
  const FLUSH_SIZE := 2 * BLOCK_SIZE
  const WATERMARK := 12288

  predicate EolAt(d: string, i: nat) {
    i + 1 < |d| && d[i] == '\r' && d[i + 1] == '\n'
  }

  /** Where the first CRLF starts, or the length if there is none. */
  function FirstEol(d: string): (r: nat)
    ensures r <= |d| && (r < |d| ==> EolAt(d, r)) && forall j :: 0 <= j < r ==> !EolAt(d, j)
  {
    if d == "" then 0
    else if EolAt(d, 0) then 0
    else
      var r := FirstEol(d[1..]);
      assert forall j :: 0 < j < |d| ==> EolAt(d, j) == EolAt(d[1..], j - 1);
      1 + r
  }

  lemma FirstEolIs(d: string, r: nat)
    requires r <= |d| && (r < |d| ==> EolAt(d, r)) && forall j :: 0 <= j < r ==> !EolAt(d, j)
    ensures FirstEol(d) == r
  {
    var k := FirstEol(d);
  }

  datatype Outcome = Line(line: string, rest: string) | NoLine | TooLong

  function Window(d: string): string {
    if |d| > MAX_LINE then d[..MAX_LINE] else d
  }

  /** What reading a line from some data gives; from a closed stream the last line may lack its CRLF. */
  function NextLine(d: string, closed: bool): (r: Outcome)
    ensures r.Line? ==> |r.rest| < |d|
  {
    var w := Window(d);
    var k := FirstEol(w);
    if |d| < 2 then NoLine
    else if k < |w| then Line(d[..k], d[k + 2..])
    else if |w| == MAX_LINE then TooLong
    else if closed then Line(d, "")
    else NoLine
  }

  predicate NoEol(line: string) {
    forall j :: 0 <= j < |line| ==> !EolAt(line, j)
  }

  /** A line that fits is read back; one that does not fit never is. */
  lemma LineRead(line: string, rest: string)
    requires NoEol(line)
    ensures |line| + 2 <= MAX_LINE ==> NextLine(line + "\r\n" + rest, false) == Line(line, rest)
    ensures |line| + 2 > MAX_LINE ==> !NextLine(line + "\r\n" + rest, false).Line?
  {
    var d := line + "\r\n" + rest;
    var w := Window(d);
    assert d[|line|] == '\r' && d[|line| + 1] == '\n';
    forall j | 0 <= j < |line| ensures !EolAt(d, j) {
      if j + 1 < |line| {
        assert !EolAt(line, j);
      }
    }
    assert forall j :: EolAt(w, j) ==> EolAt(d, j);
    if |line| + 2 <= MAX_LINE {
      FirstEolIs(w, |line|);
      assert d[|line| + 2..] == rest && d[..|line|] == line;
    } else {
      FirstEolIs(w, |w|);
    }
  }

  /** What has been read stays read, and is not read otherwise, when more data comes. */
  lemma MoreData(d: string, more: string)
    ensures match NextLine(d, false)
            case Line(line, rest) => NextLine(d + more, false) == Line(line, rest + more)
            case TooLong => NextLine(d + more, false) == TooLong
            case NoLine => true
  {
    var w := Window(d);
    var k := FirstEol(w);
    var w1 := Window(d + more);
    assert forall j :: 0 <= j < |w| ==> w[j] == w1[j];
    if k < |w| {
      forall j | 0 <= j < k ensures !EolAt(w1, j) {
        assert !EolAt(w, j);
      }
      FirstEolIs(w1, k);
      assert (d + more)[..k] == d[..k] && (d + more)[k + 2..] == d[k + 2..] + more;
    } else if |w| == MAX_LINE {
      assert w1 == w;
    }
  }
}

// A state that reads lines until its part of the conversation is over, and may be left and entered again in between.
module LineStates {
  import opened Framing

  datatype Status<+S> = Going(value: S) | Complete(value: S) | Failed(value: S)

  function Concat(parts: seq<string>): string {
    if parts == [] then "" else parts[0] + Concat(parts[1..])
  }

  /** All lines that have come are taken, up to the one that ends it; given are the state after, and the data not read. */
  function TakeAll<S>(take: (S, string) -> Status<S>, s: Status<S>, d: string, closed: bool): (Status<S>, string)
    decreases |d|
  {
    if !s.Going? then (s, d)
    else
      match NextLine(d, closed)
      case NoLine => (s, d)
      case TooLong => (Failed(s.value), d)
      case Line(line, rest) => TakeAll(take, take(s.value, line), rest, closed)
  }

  /** The same for data that comes in pieces. */
  function TakePieces<S>(take: (S, string) -> Status<S>, s: Status<S>, d: string, pieces: seq<string>): (Status<S>, string)
    decreases |pieces|
  {
    if pieces == [] then (s, d)
    else
      var (s1, d1) := TakeAll(take, s, d + pieces[0], false);
      TakePieces(take, s1, d1, pieces[1..])
  }

  /** Taking what has come and then the rest is the same as taking all at once. */
  lemma {:induction false} TakeMore<S>(take: (S, string) -> Status<S>, s: Status<S>, a: string, b: string)
    ensures var (s1, a1) := TakeAll(take, s, a, false); TakeAll(take, s, a + b, false) == TakeAll(take, s1, a1 + b, false)
    decreases |a|
  {
    if s.Going? {
      MoreData(a, b);
      var next := NextLine(a, false);
      if next.Line? {
        TakeMore(take, take(s.value, next.line), next.rest, b);
      }
    }
  }

  /** It does not matter where the data is cut. */
  lemma {:induction false} AnyPieces<S>(take: (S, string) -> Status<S>, s: Status<S>, d: string, pieces: seq<string>)
    requires TakeAll(take, s, d, false) == (s, d)
    ensures TakePieces(take, s, d, pieces) == TakeAll(take, s, d + Concat(pieces), false)
    decreases |pieces|
  {
    hide TakeAll;
    if pieces == [] {
      assert d + "" == d;
    } else {
      var (s1, d1) := TakeAll(take, s, d + pieces[0], false);
      TakeMore(take, s, d + pieces[0], "");
      assert d + pieces[0] + "" == d + pieces[0] && d1 + "" == d1;
      AnyPieces(take, s1, d1, pieces[1..]);
      TakeMore(take, s, d + pieces[0], Concat(pieces[1..]));
      assert d + pieces[0] + Concat(pieces[1..]) == d + Concat(pieces);
    }
  }

  /** Pieces of data that is nothing yet. */
  lemma FromNothing<S>(take: (S, string) -> Status<S>, s: Status<S>, pieces: seq<string>)
    ensures TakePieces(take, s, "", pieces) == TakeAll(take, s, Concat(pieces), false)
  {
    AnyPieces(take, s, "", pieces);
    assert "" + Concat(pieces) == Concat(pieces);
  }

  lemma TakesNoMore<S>(take: (S, string) -> Status<S>, s: Status<S>, d: string)
    requires !s.Going?
    ensures TakeAll(take, s, d, false) == (s, d)
  {
  }
}

module LineIo {
  import opened Options
  import opened Buffers
  import opened Framing

  /** A connection: what has come and not been read, what is to go, and (sent) what the socket has taken. */
  class Io {
    const rd: Buffer
    const wr: Buffer
    var error: bool
    var closed: bool
    ghost var sent: string

    ghost predicate Valid()
      reads this, rd, wr
    {
      rd != wr && rd.Valid() && wr.Valid() && rd.base != wr.base
    }

    constructor ()
      ensures Valid() && fresh(rd) && fresh(wr) && fresh(rd.base) && fresh(wr.base)
      ensures rd.Contents() == "" && Written() == "" && !error && !closed
    {
      rd := new Buffer(BLOCK_SIZE);
      wr := new Buffer(BLOCK_SIZE);
      error, closed, sent := false, false, "";
    }

    /** All that has been written so far, whether the socket has taken it or not. */
    ghost function Written(): string
      reads this, wr, wr.base
      requires wr.Valid()
    {
      sent + wr.Contents()
    }

    /** What has come is read in pieces that fit, each time with room for a watermark of bytes or more. */
    method Fill(data: string)
      requires Valid()
      modifies rd, rd.base
      ensures Valid() && rd.Contents() == old(rd.Contents()) + data && (rd.base == old(rd.base) || fresh(rd.base))
    {
      var k := 0;
      while k < |data|
        invariant k <= |data| && Valid() && rd.Contents() == old(rd.Contents()) + data[..k]
        invariant rd.base == old(rd.base) || fresh(rd.base)
      {
        k := FillSome(data, k);
      }
    }

    method FillSome(data: string, k: nat) returns (n: nat)
      requires Valid() && k < |data|
      modifies rd, rd.base
      ensures k < n <= |data| && Valid() && rd.Contents() == old(rd.Contents()) + data[k..n]
      ensures rd.base == old(rd.base) || fresh(rd.base)
    {
      rd.Ensure(WATERMARK);
      n := if |data| - k <= rd.Free() then |data| else k + rd.Free();
      rd.Receive(data[k..n]);
      rd.Add(n - k);
    }

    /** The first byte c from a position on, or the end. */
    method Find(c: char, from: nat, end: nat) returns (k: nat)
      requires rd.Valid() && from <= end <= rd.size
      ensures from <= k <= end && (k < end ==> rd.Contents()[k] == c) && forall j :: from <= j < k ==> rd.Contents()[j] != c
    {
      k := from;
      while k < end && rd.base[rd.off + k] != c
        invariant from <= k <= end
        invariant forall j :: from <= j < k ==> rd.Contents()[j] != c
      {
        k := k + 1;
      }
    }

    /** Where the first CRLF among some bytes starts, or their number: every CR is a candidate. */
    method FindEol(maxlen: nat) returns (k: nat)
      requires rd.Valid() && 2 <= maxlen <= rd.size
      ensures k == FirstEol(rd.Contents()[..maxlen])
    {
      ghost var w := rd.Contents()[..maxlen];
      k := 0;
      while true
        invariant k <= maxlen && forall j :: 0 <= j < k ==> !EolAt(w, j)
        decreases maxlen - k
      {
        ghost var from := k;
        k := Find('\r', k, maxlen);
        assert forall j :: from <= j < k ==> w[j] == rd.Contents()[j];
        if k + 2 > maxlen {
          FirstEolIs(w, maxlen);
          return maxlen;
        }
        if rd.base[rd.off + k + 1] == '\n' {
          FirstEolIs(w, k);
          return k;
        }
        assert !EolAt(w, k);
        k := k + 1;
      }
    }

    /** Read a line if one has come; a line that is too long makes the connection bad for good. */
    method ReadLine() returns (line: Option<string>)
      requires Valid()
      modifies this`error, rd
      ensures Valid() && rd.base == old(rd.base)
      ensures var next := NextLine(old(rd.Contents()), closed);
              if old(error) then line == None && error && rd.Contents() == old(rd.Contents())
              else if next.Line? then line == Some(next.line) && rd.Contents() == next.rest && !error
              else line == None && rd.Contents() == old(rd.Contents()) && error == next.TooLong?
    {
      if error {
        return None;
      }
      hide FirstEol, EolAt;
      ghost var d := rd.Contents();
      if rd.size < 2 {
        return None;
      }
      var maxlen := if rd.size > MAX_LINE then MAX_LINE else rd.size;
      var size := FindEol(maxlen);
      assert d[..maxlen] == Window(d);
      if size == maxlen {
        if maxlen == MAX_LINE {
          error := true;
          return None;
        }
        if !closed {
          return None;
        }
        var all := rd.Read(rd.size);
        return Some(all);
      }
      var text := TakeLine(size);
      line := Some(text);
    }

    /** Take a line of so many bytes, and drop the CRLF behind it. */
    method TakeLine(size: nat) returns (line: string)
      requires Valid() && size + 2 <= rd.size
      modifies rd
      ensures Valid() && rd.base == old(rd.base)
      ensures line == old(rd.Contents())[..size] && rd.Contents() == old(rd.Contents())[size + 2..]
    {
      line := "";
      if size != 0 {
        line := rd.Read(size);
      }
      rd.Remove(2);
    }

    method Write(data: string)
      requires Valid() && data != ""
      modifies wr, wr.base
      ensures Valid() && Written() == (if error then old(Written()) else old(Written()) + data) && (wr.base == old(wr.base) || fresh(wr.base))
    {
      if error {
        return;
      }
      wr.Write(data);
    }

    /** Write a line: a text that is not empty, or none, and then CRLF. */
    method WriteLine(text: Option<string>)
      requires Valid() && text != Some("")
      modifies wr, wr.base
      ensures Valid() && (wr.base == old(wr.base) || fresh(wr.base))
      ensures Written() == if error then old(Written()) else old(Written()) + (if text == None then "" else text.value) + "\r\n"
    {
      if error {
        return;
      }
      if text.Some? {
        wr.Write(text.value);
      }
      wr.Write("\r\n");
    }

    /** If there is much to send, let the socket take some of it. */
    method Update(taken: nat)
      requires Valid()
      modifies this`sent, wr
      ensures Valid() && Written() == old(Written()) && wr.base == old(wr.base)
    {
      if wr.size < FLUSH_SIZE || taken == 0 {
        return;
      }
      var data := wr.Read(if taken < wr.size then taken else wr.size);
      sent := sent + data;
    }
  }
}
