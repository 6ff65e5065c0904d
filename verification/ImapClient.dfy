// The IMAP client of imap-common.c from its search on, as an object whose state functions update its data, and the
// fetch loop around it, for an account with one folder.

module ImapClient {
  import opened Options
  import opened ImapLog
  import opened ImapAccount
  import opened ImapSteps
  import opened ImapLaws

  class ImapFetch {
    const poll: bool

    var data: Account
    var purge: bool

    constructor (poll: bool)
      ensures data == FRESH && data.Valid() && this.poll == poll && !purge
    {
      FreshValid();
      this.poll := poll;
      data, purge := FRESH, false;
    }

    function View(): Client
      reads this
    {
      Client(data, purge)
    }

    // In the state functions, line is the line that has come, if one has, and lines are all that have.

    method StateSearch1() returns (ret: Return)
      requires data.Valid() && data.state == Search1
      modifies this`data
      ensures data.Valid() && ret == Block && data == old(data).(tag := old(data).tag + 1, state := Search2)
    {
      data := data.(tag := data.tag + 1, state := Search2);
      ret := Block;
    }

    /** The uids found are wanted. */
    method StateSearch2(line: Option<Reply>) returns (ret: Return)
      requires data.Valid() && data.state == Search2
      modifies this`data
      ensures data.Valid()
      ensures line == None ==> ret == Block && data == old(data)
      ensures line.Some? ==> ret == if line.value.Untagged? && line.value.parts then Again else Error
      ensures ret == Again ==> data == old(data).(wanted := line.value.uids, state := Search3)
      ensures ret == Error ==> data == old(data)
    {
      if line == None {
        return Block;
      }
      if !line.value.Untagged? || !line.value.parts {
        return Error;
      }
      data := data.(wanted := data.wanted + line.value.uids, state := Search3);
      ret := Again;
    }

    /** The total is what has been found. */
    method StateSearch3(lines: seq<Reply>) returns (ret: Return)
      requires data.Valid() && data.state == Search3
      modifies this`data
      ensures data.Valid() && ret in {Again, Block, Error} && (ret == Error ==> data == old(data)) && data.fetching == None
      ensures Await(lines, old(data).tag) == None ==> ret == Block && data == old(data)
      ensures Await(lines, old(data).tag) == Some(false) ==> ret == Error
      ensures Await(lines, old(data).tag) == Some(true) ==>
                var n := |old(data).wanted|;
                if n == 0 || poll then ret == Block && data == Purging(old(data).(total := n), Close)
                else ret == Again && data == old(data).(total := n, state := Next)
    {
      hide Account.Logged;
      var okay := Await(lines, data.tag);
      if okay == None {
        return Block;
      }
      if !okay.value {
        return Error;
      }
      FoundKeeps(data);
      data := data.(total := |data.wanted|);
      if data.total == 0 || poll {
        PurgingKeeps(data, Close);
        data := Purging(data, Close);
        return Block;
      }
      data := data.(state := Next);
      ret := Again;
    }

    /**
     * The idle state. Mark dropped mails, then kept ones; purge if that is wanted and no mail is queued; if no more
     * mail is wanted, wait for all to be marked and close; else fetch the next mail.
     */
    method StateNext() returns (ret: Return)
      requires data.Valid() && data.state == Next && data.fetching == None
      modifies this
      ensures data.Valid() && ret == Block && data.fetching == None
      ensures var was := old(data);
              data == if was.dropped != [] then Storing(was, true)
                      else if was.kept != [] then Storing(was, false)
                      else if old(purge) then (if was.inflight == [] then Purging(was, Expunge) else was)
                      else if was.wanted == [] then (if was.committed == was.total then Purging(was, Close) else was)
                      else was.(tag := was.tag + 1, state := Body)
      ensures purge == (old(purge) && data.state != Expunging)
    {
      hide Account.Logged;
      var empty := data.inflight == [];  // the loop's FETCH_EMPTY
      ret := Block;
      if data.dropped != [] {
        StoringKeeps(data, true);
        data := Storing(data, true);
      } else if data.kept != [] {
        StoringKeeps(data, false);
        data := Storing(data, false);
      } else if purge {
        if empty {
          purge := false;
          PurgingKeeps(data, Expunge);
          data := Purging(data, Expunge);
        }
      } else if data.wanted == [] {
        if data.committed == data.total {
          PurgingKeeps(data, Close);
          data := Purging(data, Close);
        }
      } else {
        AskKeeps(data);
        data := data.(tag := data.tag + 1, state := Body);
      }
    }

    /** The response begins: the mail is no longer wanted. */
    method StateBody(line: Option<Reply>) returns (ret: Return)
      requires data.Valid() && data.state == Body
      modifies this`data
      ensures data.Valid()
      ensures line == None ==> ret == Block && data == old(data)
      ensures line.Some? ==> ret == if line.value.Untagged? && line.value.parts then Again else Error
      ensures ret == Again ==> data == Reading(old(data))
      ensures ret == Error ==> data == old(data)
    {
      hide Account.Logged;
      if line == None {
        return Block;
      }
      if !line.value.Untagged? || !line.value.parts {
        return Error;
      }
      ReadingKeeps(data);
      data := Reading(data);
      ret := Again;
    }

    /** The text of the mail is in, is not yet, or is wrong. */
    method StateLine(text: Option<bool>) returns (ret: Return)
      requires data.Valid() && data.state == Line
      modifies this`data
      ensures data.Valid() && ret == if text == None then Block else if text.value then Again else Error
      ensures data == if ret == Again then old(data).(state := Mail) else old(data)
    {
      if text == None {
        return Block;
      }
      if !text.value {
        return Error;
      }
      data := data.(state := Mail);
      ret := Again;
    }

    method StateMail(lines: seq<Reply>) returns (ret: Return)
      requires data.Valid() && data.state == Mail
      modifies this`data
      ensures data.Valid()
      ensures ret == Done(Await(lines, old(data).tag), GotMail)
      ensures data == if ret == GotMail then old(data).(state := Next) else old(data)
    {
      ret := Done(Await(lines, data.tag), GotMail);
      if ret == GotMail {
        data := data.(state := Next);
      }
    }

    /** A flag is acknowledged. */
    method StateCommit(lines: seq<Reply>) returns (ret: Return)
      requires data.Valid() && data.state == Commit
      modifies this`data
      ensures data.Valid()
      ensures ret == Done(Await(lines, old(data).tag), Again)
      ensures data == if ret == Again then Committed(old(data)) else old(data)
    {
      hide Account.Logged;
      ret := Done(Await(lines, data.tag), Again);
      if ret == Again {
        CommittedKeeps(data);
        data := Committed(data);
      }
    }

    method StateExpunge(lines: seq<Reply>) returns (ret: Return)
      requires data.Valid() && data.state == Expunging
      modifies this`data
      ensures data.Valid() && ret == Done(Await(lines, old(data).tag), Again)
      ensures data == if ret == Again then old(data).(state := Next) else old(data)
    {
      ret := Done(Await(lines, data.tag), Again);
      if ret == Again {
        data := data.(state := Next);
      }
    }

    /** The one folder is closed: log out. */
    method StateClose(lines: seq<Reply>) returns (ret: Return)
      requires data.Valid() && data.state == Closing
      modifies this`data
      ensures data.Valid() && ret == Done(Await(lines, old(data).tag), Block)
      ensures data == if Await(lines, old(data).tag) == Some(true) then old(data).(tag := old(data).tag + 1, state := Quitting) else old(data)
    {
      var okay := Await(lines, data.tag);
      ret := Done(okay, Block);
      if okay == Some(true) {
        data := data.(tag := data.tag + 1, state := Quitting);
      }
    }

    method StateQuit(lines: seq<Reply>) returns (ret: Return)
      requires data.Valid() && data.state == Quitting
      ensures ret == Done(Await(lines, data.tag), Exit)
    {
      ret := Done(Await(lines, data.tag), Exit);
    }

    // ---- the fetch loop's side

    /** A mail with its final decision comes back: note what to do with it. */
    method CommitMail(k: nat, drop: bool) returns (ret: Return)
      requires data.Valid() && k < |data.inflight|
      modifies this`data
      ensures data.Valid() && ret == Again && data == Committing(old(data), k, drop)
      // A mail decided DROP is to be marked deleted, and one decided KEEP is not.
      ensures data.dropped == if drop then old(data).dropped + [old(data).inflight[k]] else old(data).dropped
      ensures data.kept == if drop then old(data).kept else old(data).kept + [old(data).inflight[k]]
      ensures data.log == old(data).log + [Decided(old(data).inflight[k], drop)]
    {
      hide Account.Logged;
      CommittingKeeps(data, k, drop);
      CommitMeans(data, k, drop);
      data := Committing(data, k, drop);
      ret := Again;
    }

    /** Queue the mail just read; an empty one ends the fetch. */
    method Enqueue(emptyText: bool) returns (ok: bool)
      requires data.Valid() && data.state == Next && data.fetching.Some?
      modifies this`data
      ensures data.Valid() && ok == !emptyText && data == if ok then Queued(old(data)) else old(data)
    {
      hide Account.Logged;
      if emptyText {
        return false;
      }
      QueuedKeeps(data);
      data := Queued(data);
      ok := true;
    }

    /** Call the current state function. */
    method Step(t: Turn) returns (ret: Return)
      requires data.Valid() && (data.state == Next ==> data.fetching == None)
      modifies this
      ensures Outcome(View(), ret) == StateStep(poll, old(View()), t) && Keeps(old(data), Outcome(View(), ret))
    {
      hide Account.Logged;
      StateStepKeeps(poll, View(), t);
      match data.state
      case Search1 => ret := StateSearch1();
      case Search2 => ret := StateSearch2(t.line);
      case Search3 => ret := StateSearch3(t.lines);
      case Next => ret := StateNext();
      case Body => ret := StateBody(t.line);
      case Line => ret := StateLine(t.text);
      case Mail => ret := StateMail(t.lines);
      case Commit => ret := StateCommit(t.lines);
      case Expunging => ret := StateExpunge(t.lines);
      case Closing => ret := StateClose(t.lines);
      case Quitting => ret := StateQuit(t.lines);
    }

    /** The decisions that come in during one round. */
    method Decide(decisions: seq<(nat, bool)>)
      requires data.Valid()
      modifies this`data
      ensures data == AfterDecisions(old(data), decisions)
    {
      hide Account.Valid;
      ghost var rest := decisions;
      for j := 0 to |decisions|
        invariant data.Valid() && rest == decisions[j..] && AfterDecisions(data, rest) == AfterDecisions(old(data), decisions)
      {
        if decisions[j].0 < |data.inflight| {
          var _ := CommitMail(decisions[j].0, decisions[j].1);
        }
        rest := rest[1..];
      }
    }

    method TakeTurn(t: Turn) returns (ret: Return)
      requires data.Valid() && (data.state == Next ==> data.fetching == None)
      modifies this
      ensures Outcome(View(), ret) == TurnStep(poll, old(View()), t) && Leaves(old(data), Outcome(View(), ret))
    {
      hide Account.Valid, StateStep, AfterDecisions;
      TurnStepKeeps(poll, View(), t);
      AfterDecisionsKeeps(data, t.decisions);
      Decide(t.decisions);
      if t.purge {
        purge := true;
      }
      ret := Step(t);
      if ret == GotMail {
        var ok := Enqueue(t.emptyText);
        ret := if ok then Again else Error;
      }
    }
  }

  /** One folder fetched, with the server answering anything and decisions coming at any time. */
  method FetchFolder(poll: bool, turns: seq<Turn>) returns (f: ImapFetch, ret: Return)
    ensures fresh(f) && Outcome(f.View(), ret) == Ran(poll, turns)
    ensures f.data.Valid() && Safe(f.data.log)
    // Mails are marked as they were decided, and when it is over all mails found are.
    ensures MarksDecided(poll, turns, f.data.log) && Read(f.data.log) <= Found(poll, turns)
    ensures ret == Exit && !poll ==> FolderDone(Found(poll, turns), f.data.log)
  {
    hide Account.Valid, TurnStep, MarksDecided, FolderDone, Found, Read;
    MarksOnlyDecided(poll, turns);
    FolderStory(poll, turns);
    f := new ImapFetch(poll);
    ret := Again;
    assert turns[..0] == [];
    RanKeeps(poll, turns);
    for i := 0 to |turns|
      invariant Outcome(f.View(), ret) == Ran(poll, turns[..i]) && ret !in {Error, Exit} && f.poll == poll
      invariant f.data.Valid() && (f.data.state == Next ==> f.data.fetching == None)
    {
      assert turns[..i + 1][..i] == turns[..i];
      ret := f.TakeTurn(turns[i]);
      if ret == Error || ret == Exit {
        Ended(poll, turns, i + 1);
        return;
      }
    }
    assert turns[..|turns|] == turns;
  }
}
