// What fetching an IMAP folder comes to, in terms of the decisions that come in and of the mails the server has found.

module ImapLaws {
  import opened Sequences
  import opened Options
  import opened ImapLog
  import opened ImapAccount
  import opened ImapSteps

  // ---------------------------------------------------------------- answers

  /** An answer is good if the first line that is not untagged is the OK with the tag of the last command; any other such line is bad. */
  lemma {:induction false} AwaitMeans(lines: seq<Reply>, tag: nat)
    ensures Await(lines, tag) == None <==> forall l :: l in lines ==> l.Untagged?
    ensures Await(lines, tag) == Some(true) <==>
              exists i :: 0 <= i < |lines| && lines[i] == Tagged(tag, true) && forall j :: 0 <= j < i ==> lines[j].Untagged?
    decreases |lines|
  {
    if lines != [] && lines[0].Untagged? {
      var rest := lines[1..];
      AwaitMeans(rest, tag);
      assert forall l :: l in lines <==> l == lines[0] || l in rest;
      if i :| 0 <= i < |rest| && rest[i] == Tagged(tag, true) && forall j :: 0 <= j < i ==> rest[j].Untagged? {
        assert lines[i + 1] == Tagged(tag, true);
        assert forall j :: 0 <= j < i + 1 ==> lines[j] == if j == 0 then lines[0] else rest[j - 1];
      }
      if i :| 0 <= i < |lines| && lines[i] == Tagged(tag, true) && forall j :: 0 <= j < i ==> lines[j].Untagged? {
        assert rest[i - 1] == Tagged(tag, true);
        assert forall j :: 0 <= j < i - 1 ==> rest[j] == lines[j + 1];
      }
    } else if lines != [] {
      assert lines[0] in lines;
    }
  }

  // ---------------------------------------------------------------- decisions

  /** A mail decided DROP is to be marked deleted, and one decided KEEP is not. */
  lemma CommitMeans(a: Account, k: nat, drop: bool)
    requires k < |a.inflight|
    ensures var b, u := Committing(a, k, drop), a.inflight[k];
            && b.inflight == a.inflight[..k] + a.inflight[k + 1..]
            && (drop ==> b.dropped == a.dropped + [u] && b.kept == a.kept)
            && (!drop ==> b.kept == a.kept + [u] && b.dropped == a.dropped)
            && b.log == a.log + [Decided(u, drop)]
            && b.state == a.state && b.wanted == a.wanted && b.fetching == a.fetching && b.tag == a.tag
  {
  }

  /** The decision at some place is about a mail that is queued when it comes. */
  ghost predicate HandedBack(a: Account, decisions: seq<(nat, bool)>, j: nat, uid: nat, drop: bool) {
    && j < |decisions|
    && var b := AfterDecisions(a, decisions[..j]);
       decisions[j].0 < |b.inflight| && b.inflight[decisions[j].0] == uid && decisions[j].1 == drop
  }

  ghost predicate AnyHandedBack(a: Account, decisions: seq<(nat, bool)>, uid: nat, drop: bool) {
    exists j: nat :: HandedBack(a, decisions, j, uid, drop)
  }

  lemma {:induction false} DecideMore(a: Account, decisions: seq<(nat, bool)>, d: (nat, bool))
    ensures var b := AfterDecisions(a, decisions);
            AfterDecisions(a, decisions + [d]) == if d.0 < |b.inflight| then Committing(b, d.0, d.1) else b
    decreases |decisions|
  {
    hide Committing;
    if decisions == [] {
      assert [] + [d] == [d] && [d][1..] == [];
    } else {
      assert (decisions + [d])[1..] == decisions[1..] + [d];
      var (k, drop) := decisions[0];
      DecideMore(if k < |a.inflight| then Committing(a, k, drop) else a, decisions[1..], d);
    }
  }

  lemma OneMoreDecision(a: Account, init: seq<(nat, bool)>, d: (nat, bool), uid: nat, drop: bool)
    ensures AnyHandedBack(a, init + [d], uid, drop) <==>
              || AnyHandedBack(a, init, uid, drop)
              || (d.0 < |AfterDecisions(a, init).inflight| && AfterDecisions(a, init).inflight[d.0] == uid && d.1 == drop)
  {
    hide AfterDecisions;
    var all, n := init + [d], |init|;
    assert all[..n] == init && all[n] == d;
    forall j: nat | j < n ensures HandedBack(a, all, j, uid, drop) <==> HandedBack(a, init, j, uid, drop) {
      assert all[..j] == init[..j] && all[j] == init[j];
    }
    if AnyHandedBack(a, init, uid, drop) {
      var j: nat :| HandedBack(a, init, j, uid, drop);
      assert HandedBack(a, all, j, uid, drop);
    }
    assert HandedBack(a, all, n, uid, drop) <==>
             d.0 < |AfterDecisions(a, init).inflight| && AfterDecisions(a, init).inflight[d.0] == uid && d.1 == drop;
  }

  lemma {:induction false} DecideLogs(a: Account, decisions: seq<(nat, bool)>, uid: nat, drop: bool)
    ensures var b := AfterDecisions(a, decisions);
            && (Decided(uid, drop) in b.log <==> Decided(uid, drop) in a.log || AnyHandedBack(a, decisions, uid, drop))
            && b.state == a.state && b.wanted == a.wanted && b.fetching == a.fetching && b.tag == a.tag && Read(b.log) == Read(a.log)
    decreases |decisions|
  {
    hide AfterDecisions;
    if decisions == [] {
      NoDecision(a);
    } else {
      var n := |decisions| - 1;
      var init, d := decisions[..n], decisions[n];
      assert decisions == init + [d];
      DecideLogs(a, init, uid, drop);
      DecideMore(a, init, d);
      OneMoreDecision(a, init, d, uid, drop);
      var b := AfterDecisions(a, init);
      if d.0 < |b.inflight| {
        CommitMeans(b, d.0, d.1);
        ReadMore(b.log, Decided(b.inflight[d.0], d.1));
      }
    }
  }

  lemma NoDecision(a: Account)
    ensures AfterDecisions(a, []) == a
  {
  }

  // ---------------------------------------------------------------- what has been read

  function Read(log: seq<Event>): seq<nat> {
    if log == [] then []
    else Read(log[..|log| - 1]) + match log[|log| - 1] case Got(u) => [u] case _ => []
  }

  lemma ReadMore(log: seq<Event>, e: Event)
    ensures Read(log + [e]) == Read(log) + if e.Got? then [e.uid] else []
  {
    assert (log + [e])[..|log|] == log;
  }

  /** What has been read and what is wanted is what was found; the client closes with nothing wanted, unless it only polls. */
  ghost predicate Told(poll: bool, found: seq<nat>, a: Account) {
    && (a.state in {Search1, Search2} ==> Read(a.log) == [] && a.wanted == [])
    && (a.state !in {Search1, Search2} ==> Read(a.log) + a.wanted == found)
    && (a.state in {Closing, Quitting} && !poll ==> a.wanted == [])
    && (poll ==> Read(a.log) == [] && a.state in {Search1, Search2, Search3, Closing, Quitting})
  }

  /** The mails the server says it has found. */
  ghost function NowFound(a: Account, t: Turn, found: seq<nat>): seq<nat> {
    if a.state == Search2 && t.line.Some? && t.line.value.Untagged? && t.line.value.parts then t.line.value.uids else found
  }

  lemma StateTells(poll: bool, found: seq<nat>, c: Client, t: Turn, uid: nat, drop: bool)
    requires c.data.Valid() && (c.data.state == Next ==> c.data.fetching == None) && Told(poll, found, c.data)
    ensures var b := StateStep(poll, c, t).client.data;
            && Told(poll, NowFound(c.data, t, found), b)
            && (Decided(uid, drop) in b.log <==> Decided(uid, drop) in c.data.log)
  {
    hide Account.Valid, Told, NowFound, NextStep, Reading, Committed, Purging, OnOkay, Await;
    var a := c.data;
    match a.state {
      case Search1 | Search2 => SearchTells(poll, found, c, t);
      case Search3 => FoundTells(poll, found, c, t, uid, drop);
      case Next =>
        NextTells(poll, found, c, uid, drop);
        OnlySearchFinds(a, t, found);
      case Body => BodyTells(poll, found, c, t, uid, drop);
      case Commit => CommitTells(poll, found, c, t, uid, drop);
      case Line | Mail | Expunging | Closing | Quitting => ElsewhereTells(poll, found, c, t);
    }
  }

  lemma OnlySearchFinds(a: Account, t: Turn, found: seq<nat>)
    requires a.state != Search2
    ensures NowFound(a, t, found) == found
  {
  }

  lemma SearchTells(poll: bool, found: seq<nat>, c: Client, t: Turn)
    requires c.data.state in {Search1, Search2} && Told(poll, found, c.data)
    ensures var b := StateStep(poll, c, t).client.data; Told(poll, NowFound(c.data, t, found), b) && b.log == c.data.log
  {
    hide Read;
  }

  lemma FoundTells(poll: bool, found: seq<nat>, c: Client, t: Turn, uid: nat, drop: bool)
    requires c.data.state == Search3 && Told(poll, found, c.data)
    ensures var b := StateStep(poll, c, t).client.data;
            Told(poll, NowFound(c.data, t, found), b) && (Decided(uid, drop) in b.log <==> Decided(uid, drop) in c.data.log)
  {
    hide Read, Await;
    ReadMore(c.data.log, Close);
    assert Read(c.data.log) + [] == Read(c.data.log);
  }

  lemma BodyTells(poll: bool, found: seq<nat>, c: Client, t: Turn, uid: nat, drop: bool)
    requires c.data.state == Body && Told(poll, found, c.data)
    ensures var b := StateStep(poll, c, t).client.data;
            Told(poll, NowFound(c.data, t, found), b) && (Decided(uid, drop) in b.log <==> Decided(uid, drop) in c.data.log)
  {
    hide Read, Await;
    var a := c.data;
    if a.wanted != [] {
      ReadMore(a.log, Got(a.wanted[0]));
      assert Read(a.log) + [a.wanted[0]] + a.wanted[1..] == Read(a.log) + a.wanted;
    }
  }

  lemma CommitTells(poll: bool, found: seq<nat>, c: Client, t: Turn, uid: nat, drop: bool)
    requires c.data.state == Commit && Told(poll, found, c.data)
    ensures var b := StateStep(poll, c, t).client.data;
            Told(poll, NowFound(c.data, t, found), b) && (Decided(uid, drop) in b.log <==> Decided(uid, drop) in c.data.log)
  {
    hide Read, Await;
    var a := c.data;
    if a.storing.Some? {
      ReadMore(a.log, Acked(a.storing.value));
    }
    assert Read(a.log) + [] == Read(a.log);
  }

  lemma ElsewhereTells(poll: bool, found: seq<nat>, c: Client, t: Turn)
    requires c.data.state in {Line, Mail, Expunging, Closing, Quitting} && Told(poll, found, c.data)
    ensures var b := StateStep(poll, c, t).client.data; Told(poll, NowFound(c.data, t, found), b) && b.log == c.data.log
  {
    hide Read, Await;
  }

  lemma NextTells(poll: bool, found: seq<nat>, c: Client, uid: nat, drop: bool)
    requires c.data.state == Next && Told(poll, found, c.data)
    ensures var b := NextStep(c).client.data;
            Told(poll, found, b) && (Decided(uid, drop) in b.log <==> Decided(uid, drop) in c.data.log)
  {
    hide Read;
    var a := c.data;
    assert Read(a.log) + [] == Read(a.log);
    ReadMore(a.log, Store(if a.dropped != [] then a.dropped[0] else 0, true));
    ReadMore(a.log, Store(if a.kept != [] then a.kept[0] else 0, false));
    ReadMore(a.log, Expunge);
    ReadMore(a.log, Close);
  }

  lemma TurnTells(poll: bool, found: seq<nat>, c: Client, t: Turn, uid: nat, drop: bool)
    requires c.data.Valid() && (c.data.state == Next ==> c.data.fetching == None) && Told(poll, found, c.data)
    ensures var b := TurnStep(poll, c, t).client.data;
            && Told(poll, NowFound(c.data, t, found), b)
            && (Decided(uid, drop) in b.log <==> Decided(uid, drop) in c.data.log || AnyHandedBack(c.data, t.decisions, uid, drop))
  {
    hide Account.Valid, StateStep, AfterDecisions, Read, AnyHandedBack;
    DecideLogs(c.data, t.decisions, uid, drop);
    AfterDecisionsKeeps(c.data, t.decisions);
    StateTells(poll, found, Client(AfterDecisions(c.data, t.decisions), c.purge || t.purge), t, uid, drop);
  }

  // ---------------------------------------------------------------- a run

  /** The mails the server has said it has found. */
  ghost function Found(poll: bool, turns: seq<Turn>): seq<nat>
    decreases |turns|
  {
    if turns == [] then []
    else
      var before := turns[..|turns| - 1];
      var r := Ran(poll, before);
      if r.ret in {Error, Exit} then Found(poll, before) else NowFound(r.client.data, turns[|turns| - 1], Found(poll, before))
  }

  /** In some turn of the run a decision comes about a mail that is queued then. */
  ghost predicate Decides(poll: bool, turns: seq<Turn>, uid: nat, drop: bool) {
    exists i: nat :: DecidesIn(poll, turns, i, uid, drop)
  }

  ghost predicate DecidesIn(poll: bool, turns: seq<Turn>, i: nat, uid: nat, drop: bool) {
    && i < |turns| && Ran(poll, turns[..i]).ret !in {Error, Exit}
    && AnyHandedBack(Ran(poll, turns[..i]).client.data, turns[i].decisions, uid, drop)
  }

  lemma DecidesMore(poll: bool, init: seq<Turn>, t: Turn, uid: nat, drop: bool)
    ensures Decides(poll, init + [t], uid, drop) <==>
              || Decides(poll, init, uid, drop)
              || (Ran(poll, init).ret !in {Error, Exit} && AnyHandedBack(Ran(poll, init).client.data, t.decisions, uid, drop))
  {
    hide Ran, AnyHandedBack;
    var all, n := init + [t], |init|;
    assert all[..n] == init && all[n] == t;
    forall i: nat | i < n ensures DecidesIn(poll, all, i, uid, drop) <==> DecidesIn(poll, init, i, uid, drop) {
      assert all[..i] == init[..i] && all[i] == init[i];
    }
    if Decides(poll, init, uid, drop) {
      var i: nat :| DecidesIn(poll, init, i, uid, drop);
      assert DecidesIn(poll, all, i, uid, drop);
    }
    assert DecidesIn(poll, all, n, uid, drop) <==>
             Ran(poll, init).ret !in {Error, Exit} && AnyHandedBack(Ran(poll, init).client.data, t.decisions, uid, drop);
  }

  lemma {:induction false} RunTells(poll: bool, turns: seq<Turn>, uid: nat, drop: bool)
    ensures var a := Ran(poll, turns).client.data;
            Told(poll, Found(poll, turns), a) && (Decided(uid, drop) in a.log <==> Decides(poll, turns, uid, drop))
    decreases |turns|
  {
    hide Account.Valid, TurnStep, AnyHandedBack, Decides;
    if turns == [] {
      assert !Decides(poll, [], uid, drop) by { NothingDecided(poll, uid, drop); }
    } else {
      var n := |turns| - 1;
      var init, t := turns[..n], turns[n];
      assert turns == init + [t];
      RunTells(poll, init, uid, drop);
      RanKeeps(poll, init);
      DecidesMore(poll, init, t, uid, drop);
      var r := Ran(poll, init);
      if r.ret !in {Error, Exit} {
        TurnTells(poll, Found(poll, init), r.client, t, uid, drop);
      }
    }
  }

  lemma NothingDecided(poll: bool, uid: nat, drop: bool)
    ensures !Decides(poll, [], uid, drop)
  {
  }

  /** Mails are marked as the decisions that came for them say. */
  ghost predicate MarksDecided(poll: bool, turns: seq<Turn>, log: seq<Event>) {
    forall uid, drop :: Store(uid, drop) in log ==> Decides(poll, turns, uid, drop)
  }

  /** In any run: \Deleted is set only on a mail that a decision to DROP has come for, and \Seen only on one to KEEP. */
  lemma MarksOnlyDecided(poll: bool, turns: seq<Turn>)
    ensures MarksDecided(poll, turns, Ran(poll, turns).client.data.log)
    ensures forall uid, drop :: Decided(uid, drop) in Ran(poll, turns).client.data.log <==> Decides(poll, turns, uid, drop)
  {
    hide Ran, Decides, Safe, Told;
    RanKeeps(poll, turns);
    var log := Ran(poll, turns).client.data.log;
    forall uid, drop ensures Decided(uid, drop) in log <==> Decides(poll, turns, uid, drop) {
      RunTells(poll, turns, uid, drop);
    }
    forall uid, drop | Store(uid, drop) in log ensures Decides(poll, turns, uid, drop) {
      var i :| 0 <= i < |log| && log[i] == Store(uid, drop);
      SafeMeans(log, i);
      assert Decided(uid, drop) in log;
    }
  }

  /** The folder is done: all mails found were read, in their order, and each was marked just as often as it was read and decided. */
  ghost predicate FolderDone(found: seq<nat>, log: seq<Event>) {
    && Read(log) == found
    && (forall uid :: Times(log, Acked(uid)) == Times(log, Got(uid)))
    && (forall uid, drop :: Times(log, Store(uid, drop)) == Times(log, Decided(uid, drop)))
  }

  /** Mails are read in the order in which they were found; and when a run that does not only poll is over, all of them are done. */
  lemma FolderStory(poll: bool, turns: seq<Turn>)
    ensures var r := Ran(poll, turns);
            && Read(r.client.data.log) <= Found(poll, turns)
            && (poll ==> Read(r.client.data.log) == [])
            && (r.ret == Exit && !poll ==> FolderDone(Found(poll, turns), r.client.data.log))
  {
    hide Ran, Safe, Decides, Times, Read, Account.Valid;
    RunTells(poll, turns, 0, false);
    RanKeeps(poll, turns);
    var r := Ran(poll, turns);
    var a := r.client.data;
    if a.state in {Search1, Search2} {
      assert Read(a.log) == [];
    }
    if r.ret == Exit {
      ExitsQuitting(poll, turns);
      assert Read(a.log) + [] == Read(a.log);
      NoneLeft(a);
    }
  }

  lemma NoneLeft(a: Account)
    requires a.Valid() && a.state == Quitting
    ensures forall uid :: Times(a.log, Acked(uid)) == Times(a.log, Got(uid))
    ensures forall uid, drop :: Times(a.log, Store(uid, drop)) == Times(a.log, Decided(uid, drop))
  {
    hide Times, Safe;
    forall uid ensures a.Pending(uid) == 0 {
      NonePending(a, uid);
    }
    forall uid, drop ensures Times(a.log, Store(uid, drop)) == Times(a.log, Decided(uid, drop)) {
      assert if drop then a.dropped == [] else a.kept == [];
    }
  }

  lemma {:induction false} ExitsQuitting(poll: bool, turns: seq<Turn>)
    requires Ran(poll, turns).ret == Exit
    ensures Ran(poll, turns).client.data.state == Quitting
    decreases |turns|
  {
    hide AfterDecisions, Await;
    var r := Ran(poll, turns[..|turns| - 1]);
    if r.ret == Exit {
      ExitsQuitting(poll, turns[..|turns| - 1]);
    }
  }

  // ---------------------------------------------------------------- what the idle client does, and why a run fails

  /**
   * The idle state: mark the first mail dropped, else the first one kept; when a purge is due fetch nothing, and expunge once
   * no mail is queued; with nothing wanted close, once no mail is queued; else ask for the next mail.
   */
  lemma IdleMeans(c: Client)
    requires c.data.Valid() && c.data.state == Next && c.data.fetching == None
    ensures var a, r := c.data, NextStep(c);
            var b := r.client.data;
            && r.ret == Block && b.inflight == a.inflight && b.wanted == a.wanted && b.tag == a.tag + (if b.state == Next then 0 else 1)
            && (a.dropped != [] ==> b.state == Commit && b.log == a.log + [Store(a.dropped[0], true)] && b.dropped == a.dropped[1..] && b.kept == a.kept)
            && (a.dropped == [] && a.kept != [] ==> b.state == Commit && b.log == a.log + [Store(a.kept[0], false)] && b.kept == a.kept[1..])
            && (a.dropped == [] && a.kept == [] && c.purge && a.inflight == [] ==> b.state == Expunging && b.log == a.log + [Expunge] && !r.client.purge)
            && (a.dropped == [] && a.kept == [] && !c.purge && a.wanted == [] && a.inflight == [] ==> b.state == Closing && b.log == a.log + [Close])
            && (a.dropped == [] && a.kept == [] && (c.purge || a.wanted == []) && a.inflight != [] ==> r.client == c)
            && (a.dropped == [] && a.kept == [] && !c.purge && a.wanted != [] ==> b.state == Body && b.log == a.log)
  {
    hide Account.Logged;
  }

  /** Each command has a tag of its own, which no answer to an earlier one can have: the tag is counted up as it is sent, and only then. */
  lemma CommandsTagged(poll: bool, c: Client, t: Turn)
    requires c.data.Valid()
    ensures var a, b := c.data, StateStep(poll, c, t).client.data;
            b.tag == a.tag + if b.state != a.state && b.state in {Search2, Body, Commit, Expunging, Closing, Quitting} then 1 else 0
  {
    hide Account.Logged, Await;
  }

  /** A turn fails only if the server's answer is not the one awaited, or the mail is wrong or empty. */
  lemma FailsFor(poll: bool, c: Client, t: Turn)
    requires c.data.Valid() && (c.data.state == Next ==> c.data.fetching == None) && TurnStep(poll, c, t).ret == Error
    ensures || (c.data.state in {Search2, Body} && t.line.Some? && !(t.line.value.Untagged? && t.line.value.parts))
            || (c.data.state == Line && t.text == Some(false))
            || (c.data.state in {Search3, Mail, Commit, Expunging, Closing, Quitting} && Await(t.lines, c.data.tag) == Some(false))
            || (c.data.state == Mail && t.emptyText)
  {
    hide Account.Logged, AfterDecisions, Await;
    AfterDecisionsKeeps(c.data, t.decisions);
    DecideLogs(c.data, t.decisions, 0, false);
  }
}
