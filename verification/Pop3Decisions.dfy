// What a POP3 run does with each mail, in terms of the decisions that come in: a mail is deleted if it was decided DROP,
// or is too big and such mails are to be deleted, and not otherwise.

module Pop3Decisions {
  import opened Sequences
  import opened Options
  import opened Pop3Log
  import opened Pop3
  import opened Pop3Steps

  // ---------------------------------------------------------------- one decision

  /** KEEP leaves the drop queue alone; DROP puts the mail at its end and resolves nothing. */
  lemma DequeueMeans(c: Client, k: nat, decision: FinalDecision, saves: bool)
    requires k < |c.data.inflight|
    ensures var r, a := DequeueStep(c, k, decision, saves), c.data;
            var b, aux := r.client.data, a.inflight[k];
            && b.inflight == a.inflight[..k] + a.inflight[k + 1..] && b.wantq == a.wantq && b.state == a.state && b.wire == a.wire
            && (decision == Drop ==>
                  && r.ret == Again && b.dropq == a.dropq + [aux] && b.log == a.log + [Dropped(aux.uid)]
                  && b.committed == a.committed && b.cacheq == a.cacheq && b.file == a.file)
            && (decision == Keep ==>
                  && b.dropq == a.dropq && b.committed == a.committed + 1
                  && if !a.path || a.only == OnlyOld then r.ret == Again && b.log == a.log + [Kept(aux.uid)] && b.cacheq == a.cacheq + {aux.uid} && b.file == a.file
                     else if saves then r.ret == Again && b.log == a.log + [Kept(aux.uid)] + [Resolved(aux.uid)] && b.cacheq == b.file == a.cacheq + {aux.uid}
                     else r.ret == Error && b.log == a.log + [Kept(aux.uid)] && b.file == a.file)
  {
  }

  /** What a decision adds to the log. */
  lemma DequeueLogs(c: Client, k: nat, decision: FinalDecision, saves: bool, uid: Uid)
    ensures var r, here := DequeueStep(c, k, decision, saves), k < |c.data.inflight| && c.data.inflight[k].uid == uid;
            && (Dropped(uid) in r.client.data.log <==> Dropped(uid) in c.data.log || (here && decision == Drop))
            && (Kept(uid) in r.client.data.log <==> Kept(uid) in c.data.log || (here && decision == Keep))
            && (Got(uid) in r.client.data.log <==> Got(uid) in c.data.log)
            && r.client.data.content == c.data.content && (r.ret == Error || r.ret == Again)
  {
    if k < |c.data.inflight| {
      DequeueMeans(c, k, decision, saves);
    }
  }

  // ---------------------------------------------------------------- the decisions of a turn

  /** The decision at some place is about a mail that is in flight when it comes. */
  ghost predicate HandedBack(c: Client, decisions: seq<(nat, FinalDecision)>, saves: bool, j: nat, uid: Uid, decision: FinalDecision) {
    && j < |decisions|
    && var r := DecideStep(c, decisions[..j], saves);
       r.ret != Error && decisions[j].0 < |r.client.data.inflight| && r.client.data.inflight[decisions[j].0].uid == uid && decisions[j].1 == decision
  }

  ghost predicate AnyHandedBack(c: Client, decisions: seq<(nat, FinalDecision)>, saves: bool, uid: Uid, decision: FinalDecision) {
    exists j: nat :: HandedBack(c, decisions, saves, j, uid, decision)
  }

  lemma {:induction false} DecideMore(c: Client, decisions: seq<(nat, FinalDecision)>, d: (nat, FinalDecision), saves: bool)
    ensures var r := DecideStep(c, decisions, saves);
            DecideStep(c, decisions + [d], saves) == if r.ret == Error then r else DequeueStep(r.client, d.0, d.1, saves)
    ensures DecideStep(c, decisions, saves).ret in {Again, Error}
    decreases |decisions|
  {
    hide DequeueStep;
    if decisions == [] {
      DequeueLogs(c, d.0, d.1, saves, "");
      assert [] + [d] == [d] && [d][1..] == [];
    } else {
      assert (decisions + [d])[1..] == decisions[1..] + [d];
      var r := DequeueStep(c, decisions[0].0, decisions[0].1, saves);
      if r.ret != Error {
        DecideMore(r.client, decisions[1..], d, saves);
      }
    }
  }

  /** What the decisions of a turn add to the log. */
  lemma {:induction false} DecideLogs(c: Client, decisions: seq<(nat, FinalDecision)>, saves: bool, uid: Uid)
    ensures var log, all := c.data.log, DecideStep(c, decisions, saves).client.data.log;
            && (Dropped(uid) in all <==> Dropped(uid) in log || AnyHandedBack(c, decisions, saves, uid, Drop))
            && (Kept(uid) in all <==> Kept(uid) in log || AnyHandedBack(c, decisions, saves, uid, Keep))
            && (Got(uid) in all <==> Got(uid) in log)
            && DecideStep(c, decisions, saves).client.data.content == c.data.content
    decreases |decisions|
  {
    hide DequeueStep, DecideStep;
    if decisions == [] {
      NoDecision(c, saves);
    } else {
      var n := |decisions| - 1;
      var init, d := decisions[..n], decisions[n];
      assert decisions == init + [d];
      DecideLogs(c, init, saves, uid);
      DecideMore(c, init, d, saves);
      var r := DecideStep(c, init, saves);
      DequeueLogs(r.client, d.0, d.1, saves, uid);
      OneMoreDecision(c, init, d, saves, uid, Drop);
      OneMoreDecision(c, init, d, saves, uid, Keep);
    }
  }

  lemma NoDecision(c: Client, saves: bool)
    ensures DecideStep(c, [], saves) == Outcome(c, Again)
  {
  }

  lemma OneMoreDecision(c: Client, init: seq<(nat, FinalDecision)>, d: (nat, FinalDecision), saves: bool, uid: Uid, decision: FinalDecision)
    ensures AnyHandedBack(c, init + [d], saves, uid, decision) <==>
              || AnyHandedBack(c, init, saves, uid, decision)
              || (&& DecideStep(c, init, saves).ret != Error && d.0 < |DecideStep(c, init, saves).client.data.inflight|
                  && DecideStep(c, init, saves).client.data.inflight[d.0].uid == uid && d.1 == decision)
  {
    hide DecideStep;
    var all, n := init + [d], |init|;
    assert all[..n] == init && all[n] == d;
    forall j: nat | j < n ensures HandedBack(c, all, saves, j, uid, decision) <==> HandedBack(c, init, saves, j, uid, decision) {
      assert all[..j] == init[..j] && all[j] == init[j];
    }
    if AnyHandedBack(c, all, saves, uid, decision) {
      var j: nat :| HandedBack(c, all, saves, j, uid, decision);
      assert j == n ==> HandedBack(c, all, saves, n, uid, decision);
    }
    if AnyHandedBack(c, init, saves, uid, decision) {
      var j: nat :| HandedBack(c, init, saves, j, uid, decision);
      assert HandedBack(c, all, saves, j, uid, decision);
    }
    assert HandedBack(c, all, saves, n, uid, decision) <==>
             (&& DecideStep(c, init, saves).ret != Error && d.0 < |DecideStep(c, init, saves).client.data.inflight|
              && DecideStep(c, init, saves).client.data.inflight[d.0].uid == uid && d.1 == decision);
  }

  // ---------------------------------------------------------------- the size of a mail

  /** The bytes of a mail, with the newlines its lines are stored with. */
  function TextSize(lines: seq<string>): nat {
    if lines == [] then 0 else TextSize(lines[..|lines| - 1]) + |lines[|lines| - 1]| + 1
  }

  lemma {:induction false} TextGrows(lines: seq<string>, n: nat)
    requires n <= |lines|
    ensures TextSize(lines[..n]) <= TextSize(lines)
    decreases |lines|
  {
    if n == |lines| {
      assert lines[..n] == lines;
    } else {
      var init := lines[..|lines| - 1];
      TextGrows(init, n);
      assert init[..n] == lines[..n];
    }
  }

  lemma OneLineMore(lines: seq<string>, n: nat)
    requires n < |lines|
    ensures TextSize(lines[..n + 1]) == TextSize(lines[..n]) + |lines[n]| + 1
  {
    assert lines[..n + 1][..n] == lines[..n];
  }

  /** A mail that is dropped for its size alone. */
  ghost predicate Big(k: Config, content: Uid -> seq<string>, uid: Uid) {
    k.delBig && TextSize(content(uid)) > k.maxSize
  }

  /** While a mail is read, its size is that of the lines read, or too big if it is flushed. */
  ghost predicate Sized(maxSize: nat, c: Client) {
    c.data.state == Line && c.data.mail.Some? ==>
      var lines := c.data.content(c.data.mail.value.uid);
      && c.data.read <= |lines|
      && var size := TextSize(lines[..c.data.read]);
         if c.flushing then c.size > maxSize && size > maxSize else c.size == size <= maxSize
  }

  /** The text is read in order, and not counted any more once it is too big: the verdict is that for the whole text. */
  lemma {:induction false} LineSized(maxSize: nat, c: Client, left: nat)
    requires c.data.Valid() && c.data.state == Line && Sized(maxSize, c)
    ensures var r := LineStep(maxSize, c, left);
            && Sized(maxSize, r.client)
            && (r.ret == GotMail ==> c.data.mail.Some? && r.client.data.handed == c.data.mail
                                     && (r.client.size > maxSize <==> TextSize(c.data.content(c.data.mail.value.uid)) > maxSize))
    decreases left
  {
    hide Account.Valid, Sized, HandedOver, TextRead, LineStep;
    var a := c.data;
    LineFacts(a);
    LineStepIs(maxSize, c, left);
    if left > 0 {
      if a.wire[0] == Dot {
        HandedOverKeeps(a);
        WholeText(maxSize, c);
      } else {
        TextLineKeeps(a);
        TextReadSized(maxSize, c);
        LineSized(maxSize, TextRead(maxSize, c), left - 1);
      }
    }
  }

  lemma WholeText(maxSize: nat, c: Client)
    requires Sized(maxSize, c) && c.data.state == Line && c.data.mail.Some? && c.data.wantq != [] && c.data.wire != []
    requires c.data.read == |c.data.content(c.data.mail.value.uid)|
    ensures c.size > maxSize <==> TextSize(c.data.content(c.data.mail.value.uid)) > maxSize
    ensures Sized(maxSize, c.(data := HandedOver(c.data))) && HandedOver(c.data).handed == c.data.mail
  {
    var lines := c.data.content(c.data.mail.value.uid);
    assert lines[..|lines|] == lines;
  }

  lemma TextReadSized(maxSize: nat, c: Client)
    requires c.data.Valid() && c.data.state == Line && Sized(maxSize, c) && c.data.wire != [] && c.data.wire[0] != Dot && c.data.mail.Some?
    ensures Sized(maxSize, TextRead(maxSize, c))
    ensures TextRead(maxSize, c).data == c.data.(wire := c.data.wire[1..], read := c.data.read + 1)
  {
    hide Account.LogSafe, Account.History, Account.Unique, Account.CacheExact, Account.Bound, Account.Counted, Account.ServerKnown;
    var lines := c.data.content(c.data.mail.value.uid);
    assert c.data.WireLine() by { InLine(c.data); }
    TextLine(lines, c.data.read, c.data.wire);
    assert lines[c.data.read..][0] == lines[c.data.read];
    OneLineMore(lines, c.data.read);
  }

  // ---------------------------------------------------------------- a turn

  /** Events about no one mail read or decided. */
  predicate Plain(e: Event) {
    !e.Got? && !e.Dropped? && !e.Kept?
  }

  ghost predicate PlainMore(log: seq<Event>, more: seq<Event>) {
    log <= more && forall i :: |log| <= i < |more| ==> Plain(more[i])
  }

  lemma PlainOne(log: seq<Event>, e: Event)
    requires Plain(e)
    ensures PlainMore(log, log) && PlainMore(log, log + [e])
  {
  }

  lemma PlainThree(log: seq<Event>, e: Event, f: Event, g: Event)
    requires Plain(e) && Plain(f) && Plain(g)
    ensures PlainMore(log, log + [e] + [f]) && PlainMore(log, log + [e] + [f] + [g])
  {
  }

  /** A step that decides nothing, reads no mail to its end, and if it starts to read one has nothing of it yet. */
  ghost predicate DecidesNothing(a: Account, r: Outcome) {
    && r.ret != GotMail && r.client.data.content == a.content && PlainMore(a.log, r.client.data.log)
    && (r.client.data.state == Line ==> r.client.data.read == 0 && r.client.size == 0 && !r.client.flushing)
  }

  lemma ConnectPlain(c: Client, box: seq<Uid>, reachable: bool, refuse: bool)
    requires c.data.state != Line
    ensures DecidesNothing(c.data, ConnectStep(c, box, reachable, refuse))
  {
    hide PlainMore;
    PlainOne(c.data.log, Quit(0));
  }

  lemma LoginPlain(c: Client, arrived: nat, cmd: Command, refuse: bool, next: State)
    requires c.data.state != Line && next != Line
    ensures DecidesNothing(c.data, LoginStep(c, arrived, cmd, refuse, next))
  {
    hide Account.Sent, PlainMore;
    PlainOne(c.data.log, Quit(0));
  }

  lemma FirstPlain(c: Client, arrived: nat, refuse: bool)
    requires c.data.state != Line
    ensures DecidesNothing(c.data, FirstStep(c, arrived, refuse)) && DecidesNothing(c.data, Cache1Step(c, arrived))
  {
    hide Account.Sent, PlainMore;
    PlainOne(c.data.log, Quit(0));
    if c.data.boxes != [] {
      PlainOne(c.data.log, Quit(|c.data.boxes| - 1));
    }
  }

  lemma Cache3Plain(poll: bool, c: Client, arrived: nat, loads: bool, refuse: bool)
    requires c.data.state != Line
    ensures DecidesNothing(c.data, Cache3Step(poll, c, arrived, loads, refuse))
  {
    hide Account.Sent, Wants, Renumber, Uids, PlainMore;
    var a := c.data;
    PlainOne(a.log, Quit(0));
    var cacheq := (if a.path then a.file else {}) * a.serverq.Keys;
    var want := Wants(a.only, cacheq, a.Box(), |a.Box()|);
    PlainThree(a.log, FirstListing(a.serverq.Keys), Wanted(a.serverq.Keys, Uids(want)), Quit(if a.boxes == [] then 0 else |a.boxes| - 1));
  }

  lemma NextPlain(c: Client, refuse: bool)
    requires c.data.state != Line
    ensures DecidesNothing(c.data, NextStep(c, refuse))
  {
    hide Account.Sent, PlainMore;
    PlainOne(c.data.log, Quit(if c.data.boxes == [] then 0 else |c.data.boxes| - 1));
    if c.data.boxes != [] && c.data.dropq != [] {
      PlainOne(c.data.log, Dele(|c.data.boxes| - 1, c.data.dropq[0].idx, c.data.dropq[0].uid));
    }
  }

  lemma DeletePlain(c: Client, arrived: nat, saves: bool)
    requires c.data.state != Line
    ensures DecidesNothing(c.data, DeleteStep(c, arrived, saves))
  {
    hide Account.Sent, PlainMore;
    PlainOne(c.data.log, Quit(0));
    if c.data.dropq != [] {
      var uid := c.data.dropq[0].uid;
      PlainOne(c.data.log, Acked(uid));
      PlainThree(c.data.log, Acked(uid), Resolved(uid), Quit(0));
    }
  }

  lemma LeavingPlain(c: Client, arrived: nat)
    requires c.data.state != Line
    ensures DecidesNothing(c.data, ReconnectStep(c, arrived)) && DecidesNothing(c.data, QuitStep(c, arrived))
  {
    hide PlainMore;
    PlainOne(c.data.log, Quit(0));
  }

  lemma FetchingPlain(c: Client, arrived: nat, refuse: bool)
    requires c.data.state != Line
    ensures DecidesNothing(c.data, ListStep(c, arrived, refuse)) && DecidesNothing(c.data, RetrStep(c, arrived))
  {
    hide Account.Sent, PlainMore;
    PlainOne(c.data.log, Quit(0));
  }

  /** Every state function but the one that reads the text of a mail. */
  lemma StatePlain(k: Config, c: Client, t: Turn)
    requires c.data.state != Line
    ensures DecidesNothing(c.data, StateStep(k, c, t))
  {
    hide DecidesNothing, ConnectStep, LoginStep, FirstStep, Cache1Step, Cache2Step, Cache3Step, NextStep, DeleteStep, ReconnectStep, ListStep,
      RetrStep, LineStep, QuitStep;
    match c.data.state {
      case Connect => ConnectPlain(c, t.box, t.reachable, t.refuse);
      case Connected => LoginPlain(c, t.arrived, Login, t.refuse, if t.apop then Stat else User);
      case User => LoginPlain(c, t.arrived, Login, t.refuse, Stat);
      case Stat => LoginPlain(c, t.arrived, StatCmd, t.refuse, FirstStat);
      case FirstStat | Cache1 => FirstPlain(c, t.arrived, t.refuse);
      case Cache3 => Cache3Plain(k.poll, c, t.arrived, t.loads, t.refuse);
      case Cache2 => Cache2Plain(c, t.arrived);
      case Next => NextPlain(c, t.refuse);
      case Delete => DeletePlain(c, t.arrived, t.saves);
      case Reconnect | Quitting => LeavingPlain(c, t.arrived);
      case List | Retr => FetchingPlain(c, t.arrived, t.refuse);
    }
  }

  lemma {:induction false} Cache2Plain(c: Client, left: nat)
    requires c.data.state == Cache2
    ensures var r := Cache2Step(c, left); DecidesNothing(c.data, r) && r.client.data.log == c.data.log
    decreases left
  {
    var a := c.data;
    if a.cur != a.num && left > 0 && a.wire != [] {
      var line := a.wire[0];
      if line.UidLine? && line.n == a.cur + 1 && ValidUid(line.uid) && line.uid !in a.serverq {
        Cache2Plain(c.(data := ListingRead(a, line.uid, line.n)), left - 1);
      }
    }
  }

  lemma PlainLogs(a: Account, r: Outcome, maxSize: nat, uid: Uid)
    requires DecidesNothing(a, r)
    ensures Sized(maxSize, r.client)
    ensures var log := r.client.data.log;
            && (Dropped(uid) in log <==> Dropped(uid) in a.log) && (Kept(uid) in log <==> Kept(uid) in a.log) && (Got(uid) in log <==> Got(uid) in a.log)
  {
    var d := r.client.data;
    assert d.mail.Some? ==> d.content(d.mail.value.uid)[..0] == [];
    assert forall e :: e in d.log && !Plain(e) ==> e in a.log;
    assert forall e :: e in a.log ==> e in d.log;
  }

  /** No state function decides anything, and only the end of a text adds a mail read. */
  lemma StateLogs(k: Config, c: Client, t: Turn, uid: Uid)
    requires c.data.Valid() && c.data.handed == None && Sized(k.maxSize, c)
    ensures var r := StateStep(k, c, t);
            && Sized(k.maxSize, r.client) && r.client.data.content == c.data.content
            && (Dropped(uid) in r.client.data.log <==> Dropped(uid) in c.data.log)
            && (Kept(uid) in r.client.data.log <==> Kept(uid) in c.data.log)
            && (r.ret != GotMail ==> (Got(uid) in r.client.data.log <==> Got(uid) in c.data.log))
            && (r.ret == GotMail ==>
                  && r.client.data.handed.Some?
                  && (Got(uid) in r.client.data.log <==> Got(uid) in c.data.log || uid == r.client.data.handed.value.uid)
                  && (r.client.size > k.maxSize <==> TextSize(c.data.content(r.client.data.handed.value.uid)) > k.maxSize))
  {
    hide Account.Valid, Sized, ConnectStep, LoginStep, FirstStep, Cache1Step, Cache2Step, Cache3Step, NextStep, DeleteStep, ReconnectStep,
      ListStep, RetrStep, LineStep, QuitStep;
    if c.data.state == Line {
      LineSized(k.maxSize, c, t.arrived);
      LineLogs(k.maxSize, c, t.arrived);
    } else {
      StatePlain(k, c, t);
      PlainLogs(c.data, StateStep(k, c, t), k.maxSize, uid);
    }
  }

  lemma {:induction false} LineLogs(maxSize: nat, c: Client, left: nat)
    requires c.data.state == Line
    ensures var r := LineStep(maxSize, c, left);
            && r.client.data.content == c.data.content && r.ret in {Block, GotMail}
            && (r.ret == Block ==> r.client.data.log == c.data.log)
            && (r.ret == GotMail ==> c.data.mail.Some? && r.client.data.handed == c.data.mail && r.client.data.log == c.data.log + [Got(c.data.mail.value.uid)])
    decreases left
  {
    if left > 0 && c.data.wire != [] && !(c.data.wire[0] == Dot && c.data.mail.Some? && c.data.wantq != []) {
      LineLogs(maxSize, TextRead(maxSize, c), left - 1);
    }
  }

  lemma EnqueueLogs(k: Config, c: Client, emptyText: bool, uid: Uid)
    requires c.data.handed.Some?
    ensures var r := EnqueueStep(k, c, emptyText);
            && (Dropped(uid) in r.client.data.log <==> Dropped(uid) in c.data.log || (k.delBig && c.size > k.maxSize && uid == c.data.handed.value.uid))
            && (Kept(uid) in r.client.data.log <==> Kept(uid) in c.data.log)
            && (Got(uid) in r.client.data.log <==> Got(uid) in c.data.log)
            && r.client.data.content == c.data.content && r.client.data.state == c.data.state
  {
  }

  lemma TurnLogs(k: Config, c: Client, t: Turn, uid: Uid)
    requires c.data.Valid() && c.data.handed == None && Sized(k.maxSize, c)
    requires Big(k, c.data.content, uid) && Got(uid) in c.data.log ==> Dropped(uid) in c.data.log
    ensures var log, all := c.data.log, TurnStep(k, c, t).client.data.log;
            && (Dropped(uid) in all <==>
                  Dropped(uid) in log || AnyHandedBack(c, t.decisions, t.saves, uid, Drop) || (Big(k, c.data.content, uid) && Got(uid) in all))
            && (Kept(uid) in all <==> Kept(uid) in log || AnyHandedBack(c, t.decisions, t.saves, uid, Keep))
            && TurnStep(k, c, t).client.data.content == c.data.content && (Got(uid) in log ==> Got(uid) in all)
            && (TurnStep(k, c, t).ret !in {Error, Exit} ==> Sized(k.maxSize, TurnStep(k, c, t).client))
  {
    hide Account.Valid, Sized, DecideStep, StateStep, EnqueueStep, AnyHandedBack;
    DecideLogs(c, t.decisions, t.saves, uid);
    DecideStepKeeps(c, t.decisions, t.saves);
    var r := DecideStep(c, t.decisions, t.saves);
    if r.ret != Error {
      var d := if t.purge then r.client.(purge := true) else r.client;
      DecideSized(k.maxSize, c, t.decisions, t.saves);
      StateLogs(k, d, t, uid);
      var s := StateStep(k, d, t);
      if s.ret == GotMail {
        EnqueueLogs(k, s.client, t.emptyText, uid);
        EnqueueSized(k, s.client, t.emptyText);
      }
    }
  }

  lemma {:induction false} DecideSized(maxSize: nat, c: Client, decisions: seq<(nat, FinalDecision)>, saves: bool)
    requires Sized(maxSize, c)
    ensures var r := DecideStep(c, decisions, saves); Sized(maxSize, r.client) && Sized(maxSize, r.client.(purge := true))
    decreases |decisions|
  {
    hide DequeueStep, Sized;
    if decisions == [] {
      SizedAlike(maxSize, c, c.(purge := true));
    } else {
      var r := DequeueStep(c, decisions[0].0, decisions[0].1, saves);
      DequeueReads(c, decisions[0].0, decisions[0].1, saves);
      SizedAlike(maxSize, c, r.client);
      if r.ret == Error {
        SizedAlike(maxSize, c, r.client.(purge := true));
      } else {
        DecideSized(maxSize, r.client, decisions[1..], saves);
      }
    }
  }

  /** The same text is being read, as far. */
  ghost predicate SameText(c: Client, d: Client) {
    && c.size == d.size && c.flushing == d.flushing && c.data.state == d.data.state && c.data.mail == d.data.mail && c.data.read == d.data.read
    && c.data.content == d.data.content
  }

  lemma SizedAlike(maxSize: nat, c: Client, d: Client)
    requires Sized(maxSize, c) && SameText(c, d)
    ensures Sized(maxSize, d)
  {
  }

  lemma DequeueReads(c: Client, k: nat, decision: FinalDecision, saves: bool)
    ensures SameText(c, DequeueStep(c, k, decision, saves).client)
  {
  }

  lemma EnqueueSized(k: Config, c: Client, emptyText: bool)
    requires Sized(k.maxSize, c)
    ensures Sized(k.maxSize, EnqueueStep(k, c, emptyText).client)
  {
  }

  // ---------------------------------------------------------------- a run

  /** In some turn of the run a decision comes about a mail that is in flight then. */
  ghost predicate Decides(k: Config, c: Client, turns: seq<Turn>, uid: Uid, decision: FinalDecision) {
    exists i: nat :: DecidesIn(k, c, turns, i, uid, decision)
  }

  ghost predicate DecidesIn(k: Config, c: Client, turns: seq<Turn>, i: nat, uid: Uid, decision: FinalDecision) {
    && i < |turns| && Ran(k, c, turns[..i]).ret !in {Error, Exit}
    && AnyHandedBack(Ran(k, c, turns[..i]).client, turns[i].decisions, turns[i].saves, uid, decision)
  }

  lemma DecidesMore(k: Config, c: Client, init: seq<Turn>, t: Turn, uid: Uid, decision: FinalDecision)
    ensures Decides(k, c, init + [t], uid, decision) <==>
              || Decides(k, c, init, uid, decision)
              || (Ran(k, c, init).ret !in {Error, Exit} && AnyHandedBack(Ran(k, c, init).client, t.decisions, t.saves, uid, decision))
  {
    hide Ran, AnyHandedBack;
    var all, n := init + [t], |init|;
    assert all[..n] == init && all[n] == t;
    forall i: nat | i < n ensures DecidesIn(k, c, all, i, uid, decision) <==> DecidesIn(k, c, init, i, uid, decision) {
      assert all[..i] == init[..i] && all[i] == init[i];
    }
    if Decides(k, c, all, uid, decision) {
      var i: nat :| DecidesIn(k, c, all, i, uid, decision);
    }
    if Decides(k, c, init, uid, decision) {
      var i: nat :| DecidesIn(k, c, init, i, uid, decision);
      assert DecidesIn(k, c, all, i, uid, decision);
    }
    assert DecidesIn(k, c, all, n, uid, decision) <==>
             Ran(k, c, init).ret !in {Error, Exit} && AnyHandedBack(Ran(k, c, init).client, t.decisions, t.saves, uid, decision);
  }

  /** A log in which mails are dropped and kept just as the decisions of the turns say. */
  ghost predicate AsDecided(k: Config, c: Client, turns: seq<Turn>, uid: Uid, log: seq<Event>) {
    && (Dropped(uid) in log <==> Decides(k, c, turns, uid, Drop) || (Big(k, c.data.content, uid) && Got(uid) in log))
    && (Kept(uid) in log <==> Decides(k, c, turns, uid, Keep))
  }

  lemma {:induction false} RunDecided(k: Config, c: Client, turns: seq<Turn>, uid: Uid)
    requires c.data.Valid() && c.data.handed == None && c.data.state != Line
    requires Dropped(uid) !in c.data.log && Kept(uid) !in c.data.log && Got(uid) !in c.data.log
    ensures AsDecided(k, c, turns, uid, Ran(k, c, turns).client.data.log)
    ensures Ran(k, c, turns).client.data.content == c.data.content
    ensures Ran(k, c, turns).ret !in {Error, Exit} ==> Sized(k.maxSize, Ran(k, c, turns).client)
    decreases |turns|
  {
    hide Account.Valid, TurnStep, Sized, AnyHandedBack, Decides;
    if turns == [] {
      NoTurns(k, c, uid);
    } else {
      var n := |turns| - 1;
      var init, t := turns[..n], turns[n];
      assert turns == init + [t];
      RunDecided(k, c, init, uid);
      RanKeeps(k, c, init);
      DecidesMore(k, c, init, t, uid, Drop);
      DecidesMore(k, c, init, t, uid, Keep);
      var r := Ran(k, c, init);
      assert Ran(k, c, turns) == if r.ret in {Error, Exit} then r else TurnStep(k, r.client, t);
      if r.ret !in {Error, Exit} {
        TurnLogs(k, r.client, t, uid);
        assert r.client.data.content == c.data.content;
        var all := TurnStep(k, r.client, t).client.data.log;
        assert Dropped(uid) in all <==> Decides(k, c, turns, uid, Drop) || (Big(k, c.data.content, uid) && Got(uid) in all);
        assert Kept(uid) in all <==> Decides(k, c, turns, uid, Keep);
      }
    }
  }

  lemma NoTurns(k: Config, c: Client, uid: Uid)
    requires c.data.state != Line
    ensures !Decides(k, c, [], uid, Drop) && !Decides(k, c, [], uid, Keep) && Sized(k.maxSize, c)
  {
  }

  /**
   * In any run from the start: a DELE is sent only for a mail that a decision to DROP has come for while it was in flight,
   * or that is too big and to be deleted for that; and each mail is dropped, or kept, exactly if it is so decided.
   */
  lemma DeletesOnlyDecided(k: Config, only: Only, path: bool, content: Uid -> seq<string>, past: seq<Event>, file: set<Uid>, turns: seq<Turn>, uid: Uid)
    requires only == OnlyNew && path ==> FetchedOnce(past) && Steady(past) <= file <= EverResolved(past)
    ensures var c := Start(only, path, content, past, file);
            var log := Ran(k, c, turns).client.data.log;
            && AsDecided(k, c, turns, uid, log)
            && forall session, idx :: Dele(session, idx, uid) in log ==> Decides(k, c, turns, uid, Drop) || Big(k, content, uid)
  {
    hide Account.Valid, Ran, Decides, FetchedOnce, Steady, EverResolved;
    FreshValid(only, path, content, past, file);
    var c := Start(only, path, content, past, file);
    RunDecided(k, c, turns, uid);
    RanKeeps(k, c, turns);
    var a := Ran(k, c, turns).client.data;
    forall session, idx | Dele(session, idx, uid) in a.log ensures Dropped(uid) in a.log {
      var i :| 0 <= i < |a.log| && a.log[i] == Dele(session, idx, uid);
      assert Justified(a.log, i, a.boxes);
    }
  }
}
