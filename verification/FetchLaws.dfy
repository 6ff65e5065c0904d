// The fetch loop in terms of what goes in: when the fetch method is asked, by the numbers of mails that were queued; and
// where each mail ends up, by what its step makes of it.

module FetchLaws {
  import opened Options
  import opened Tokens
  import opened FetchLoop

  // ---------------------------------------------------------------- when the fetch method is asked

  /** Of some numbers of mails queued, one was too high, and none behind it was low enough. */
  ghost predicate Held(lengths: seq<nat>, low: nat, high: nat) {
    exists i :: 0 <= i < |lengths| && lengths[i] >= high && forall j :: i < j < |lengths| ==> lengths[j] > low || lengths[j] >= high
  }

  lemma HeldMore(lengths: seq<nat>, n: nat, low: nat, high: nat)
    ensures Held(lengths + [n], low, high) <==> n >= high || (n > low && Held(lengths, low, high))
  {
    var more := lengths + [n];
    assert more[|lengths|] == n;
    if n >= high {
      assert more[|lengths|] >= high;
    }
    if n > low && Held(lengths, low, high) {
      var i :| 0 <= i < |lengths| && lengths[i] >= high && forall j :: i < j < |lengths| ==> lengths[j] > low || lengths[j] >= high;
      assert more[i] == lengths[i];
      assert forall j :: i < j < |more| ==> more[j] == if j < |lengths| then lengths[j] else n;
    }
    if Held(more, low, high) && n < high {
      var i :| 0 <= i < |more| && more[i] >= high && forall j :: i < j < |more| ==> more[j] > low || more[j] >= high;
      assert lengths[i] == more[i];
      assert forall j :: i < j < |lengths| ==> lengths[j] == more[j];
    }
  }

  /** How many mails are queued when a turn has tried them all. */
  function QueuedIn(s: System, keepAll: bool, e: Event): seq<nat> {
    if !e.ChildTurn? || s.phase != Running then []
    else
      var t := MailsTried(s, e.arrives, e.matching, e.delivering, keepAll);
      if t == None then [] else [t.value.child.queued]
  }

  /** The same for all turns of a run. */
  function Lengths(low: nat, high: nat, keepAll: bool, events: seq<Event>): seq<nat>
    decreases |events|
  {
    if events == [] then []
    else
      var before := events[..|events| - 1];
      Lengths(low, high, keepAll, before) + QueuedIn(Reached(low, high, keepAll, before), keepAll, events[|events| - 1])
  }

  lemma TriedHolds(s: System, arrives: bool, matching: nat -> Choice, delivering: nat -> Choice, keepAll: bool)
    ensures var t := MailsTried(s, arrives, matching, delivering, keepAll);
            t.Some? ==> t.value.holding == s.holding && t.value.complete == s.complete && t.value.phase == s.phase
  {
    hide MatchPass, DeliverPass;
  }

  /** Whether the loop holds back is decided by the numbers queued. */
  lemma {:induction false} HoldsBack(low: nat, high: nat, keepAll: bool, events: seq<Event>)
    ensures Reached(low, high, keepAll, events).phase == Running ==>
              (Reached(low, high, keepAll, events).holding <==> Held(Lengths(low, high, keepAll, events), low, high))
    decreases |events|
  {
    hide MailsTried, Asking, AfterRequest, AfterDelivery, Held;
    if events == [] {
      assert !Held([], low, high) by { NeverHeld(low, high); }
    } else {
      var before, e := events[..|events| - 1], events[|events| - 1];
      HoldsBack(low, high, keepAll, before);
      var s, lengths := Reached(low, high, keepAll, before), Lengths(low, high, keepAll, before);
      assert lengths + [] == lengths;
      match e {
        case ChildTurn(arrives, matching, delivering, handler, sockets) =>
          TriedHolds(s, arrives, matching, delivering, keepAll);
          var t := MailsTried(s, arrives, matching, delivering, keepAll);
          if s.phase == Running && t.Some? {
            AskingDoes(t.value, low, high, handler, sockets);
            HeldMore(lengths, t.value.child.queued, low, high);
          }
        case ParentReads(fails) => assert s.child.outbox != [] ==> AfterRequest(s, fails).holding == s.holding && AfterRequest(s, fails).phase == s.phase by { RequestFlags(s, fails); }
        case DeliverDone(k) => assert k < |s.jobs| ==> AfterDelivery(s, k).holding == s.holding && AfterDelivery(s, k).phase == s.phase by { DeliveryFlags(s, k); }
        case ChildReadsLast =>
      }
    }
  }

  lemma NeverHeld(low: nat, high: nat)
    ensures !Held([], low, high)
  {
  }

  lemma RequestFlags(s: System, fails: bool)
    ensures s.child.outbox != [] ==> AfterRequest(s, fails).holding == s.holding && AfterRequest(s, fails).phase == s.phase
  {
  }

  lemma DeliveryFlags(s: System, k: nat)
    ensures k < |s.jobs| ==> AfterDelivery(s, k).holding == s.holding && AfterDelivery(s, k).phase == s.phase
  {
  }

  /**
   * In any run, when all mails have been tried: the fetch method is asked exactly if it has more to say and the queue is
   * not too full, nor has been since it was last short enough; and its answer has its effect.
   */
  lemma AskedWhen(low: nat, high: nat, keepAll: bool, events: seq<Event>, e: Event)
    requires Reached(low, high, keepAll, events).phase == Running && e.ChildTurn?
    requires MailsTried(Reached(low, high, keepAll, events), e.arrives, e.matching, e.delivering, keepAll).Some?
    ensures var s := Reached(low, high, keepAll, events);
            var t := MailsTried(s, e.arrives, e.matching, e.delivering, keepAll).value;
            var (r, poll) := TurnStep(s, low, high, keepAll, e);
            var n := t.child.queued;
            && (n >= high ==> Unasked(t, r, poll))
            && (n <= low && n < high && !s.complete ==> Obeyed(t, e.handler, r, poll))
            && if s.complete || Held(Lengths(low, high, keepAll, events) + [n], low, high) then Unasked(t, r, poll) else Obeyed(t, e.handler, r, poll)
  {
    hide MailsTried, Asking, Held, Obeyed, Unasked, Reached;
    HoldsBack(low, high, keepAll, events);
    var s := Reached(low, high, keepAll, events);
    TriedHolds(s, e.arrives, e.matching, e.delivering, keepAll);
    var t := MailsTried(s, e.arrives, e.matching, e.delivering, keepAll).value;
    AskingDoes(t, low, high, e.handler, e.sockets);
    HeldMore(Lengths(low, high, keepAll, events), t.child.queued, low, high);
  }

  /** With no mail queued none can fail. */
  lemma NoneTried(s: System, high: nat, arrives: bool, matching: nat -> Choice, delivering: nat -> Choice, keepAll: bool)
    requires s.Valid(high) && s.phase == Running && s.child.queued == 0
    ensures var t := MailsTried(s, arrives, matching, delivering, keepAll);
            t.Some? && t.value.child.queued == 0 && t.value.child.lastIdx == s.child.lastIdx
  {
    hide Pass.Balanced, Pass.Sound, OwnReplies;
    NothingOutstanding(s, high);
    assert s.child.matchq == [] && s.child.deliverq == [];
    var c := s.child.(blocked := 0);
    MatchPassOver(c, c.Start(), None, matching, keepAll);
    var d := AfterMatch(c, c.Start());
    DeliverPassOver(d, Pass([], [], [], d.outbox, d.serial, false), None, delivering);
  }

  /**
   * The loop never gets stuck with nothing queued: if there is more to fetch, the next mail is fetched whenever the fetch
   * method has one, for any queue limit but zero; and if there is not, the fetch is left.
   */
  lemma GoesOn(low: nat, high: nat, keepAll: bool, events: seq<Event>, e: Event)
    requires Reached(low, high, keepAll, events).phase == Running && Reached(low, high, keepAll, events).child.queued == 0
    requires e.ChildTurn? && e.handler == HandlerMail(Normal)
    ensures var s, r := Reached(low, high, keepAll, events), Next(Reached(low, high, keepAll, events), low, high, keepAll, e);
            && (r.phase == Leaving <==> s.complete)
            && (!s.complete ==> (r.child.lastIdx == s.child.lastIdx + 1 && r.child.queued == 1 <==> high > 0))
  {
    hide Reached, Asking, MailsTried;
    ReachedValid(low, high, keepAll, events);
    var s := Reached(low, high, keepAll, events);
    NoneTried(s, high, e.arrives, e.matching, e.delivering, keepAll);
    TriedHolds(s, e.arrives, e.matching, e.delivering, keepAll);
    AskedWhen(low, high, keepAll, events, e);
  }

  // ---------------------------------------------------------------- where each mail ends up

  /** A message for a mail that waits for one. */
  ghost predicate Reaches(msg: Option<ToChild>, m: Mctx) {
    m.msgid != 0 && exists serial: nat :: msg == Some(Reply(Token(m.msgid, serial)))
  }

  /**
   * A mail on the match queue after a pass: waiting if it still waits or asks the parent, on its own queue or the other
   * one, or gone if it is done.
   */
  ghost predicate MatchFate(m: Mctx, msg: Option<ToChild>, choice: Choice, matchq: seq<Mctx>, deliverq: seq<Mctx>, outbox: seq<ToParent>) {
    if m.msgid != 0 && !Reaches(msg, m) then m in matchq
    else if m.msgid != 0 then choice != ChooseError && m.(msgid := 0) in if choice == ChooseMove then deliverq else matchq
    else
      match choice
      case ChooseError => false
      case ChooseRequest => exists serial: nat :: m.(msgid := m.idx, serial := serial) in matchq && Request(Token(m.idx, serial)) in outbox
      case ChooseContinue => m in matchq
      case ChooseMove => m in deliverq
      case ChooseDone(_, commits) => commits && forall x :: x in matchq || x in deliverq ==> x.idx != m.idx
  }

  /** A mail on the delivery queue after a pass; none is done there. */
  ghost predicate DeliverFate(m: Mctx, msg: Option<ToChild>, choice: Choice, matchq: seq<Mctx>, deliverq: seq<Mctx>, outbox: seq<ToParent>) {
    if m.msgid != 0 && !Reaches(msg, m) then m in deliverq
    else if m.msgid != 0 then choice != ChooseError && m.(msgid := 0) in deliverq
    else
      match choice
      case ChooseError => false
      case ChooseRequest => exists serial: nat :: m.(msgid := m.idx, serial := serial) in deliverq && Request(Token(m.idx, serial)) in outbox
      case ChooseMove => m in matchq
      case _ => m in deliverq
  }

  /** The mails of a pass that are done, to be dropped or to be kept. */
  function Finished(q: seq<Mctx>, choices: nat -> Choice, keepAll: bool, dropped: bool): nat {
    if q == [] then 0
    else
      Finished(q[1..], choices, keepAll, dropped) +
      if q[0].msgid == 0 && choices(q[0].idx).ChooseDone? && (choices(q[0].idx).drop && !keepAll) == dropped then 1 else 0
  }

  /** What a pass has put somewhere stays there, and it has no mails but its own. */
  ghost predicate Onwards(p: Pass, q: Pass) {
    && p.seen <= q.seen && p.other <= q.other && p.outbox <= q.outbox
    && forall x :: x in q.seen || x in q.other ==> exists m :: (m in p.seen || m in p.todo || m in p.other) && m.idx == x.idx
  }

  lemma SeeOnwards(p: Pass, n: Mctx, stays: bool, goes: bool, took: bool, q: Pass)
    requires p.todo != [] && n.idx == p.todo[0].idx && Onwards(p.See(n, stays, goes, took), q)
    ensures Onwards(p, q)
  {
    var r := p.See(n, stays, goes, took);
    assert p.todo[0] in p.todo;
    forall x | x in q.seen || x in q.other ensures exists m :: (m in p.seen || m in p.todo || m in p.other) && m.idx == x.idx {
      var m :| (m in r.seen || m in r.todo || m in r.other) && m.idx == x.idx;
      assert m in p.seen || m in p.todo || m in p.other || m == n;
    }
  }

  /** What is put on a queue of a pass, or sent, is there in the end. */
  lemma Stays(p: Pass, n: Mctx, stays: bool, goes: bool, took: bool, q: Pass)
    requires p.todo != [] && Onwards(p.See(n, stays, goes, took), q)
    ensures (stays ==> n in q.seen[|p.seen|..]) && (goes ==> n in q.other)
    ensures n.msgid != 0 && n != p.todo[0] ==> Request(Token(n.idx, n.serial)) in q.outbox
  {
    var r := p.See(n, stays, goes, took);
    assert stays ==> q.seen[|p.seen|..][0] == n;
    assert goes ==> r.other[|r.other| - 1] == n;
    assert n.msgid != 0 && n != p.todo[0] ==> r.outbox[|r.outbox| - 1] == Request(Token(n.idx, n.serial));
  }

  /** A mail that leaves is not there in the end, nor is any other with its number. */
  lemma Leaves(p: Pass, n: Mctx, took: bool, q: Pass)
    requires p.Sound() && p.todo != [] && Onwards(p.See(n, false, false, took), q)
    ensures forall x :: x in q.seen || x in q.other ==> x.idx != p.todo[0].idx
  {
    var i := p.todo[0].idx;
    assert Bearers(p.todo, i) == 1 + Bearers(p.todo[1..], i);
    forall x | x in p.seen || x in p.todo[1..] || x in p.other ensures x.idx != i {
      if x in p.seen {
        BearersIn(p.seen, x);
      } else if x in p.other {
        BearersIn(p.other, x);
      } else {
        BearersIn(p.todo[1..], x);
      }
    }
  }

  lemma {:induction false} MatchFates(c: Child, p: Pass, msg: Option<ToChild>, choices: nat -> Choice, keepAll: bool)
    requires p.Sound() && |p.todo| <= c.queued
    ensures var r := MatchPass(c, p, msg, choices, keepAll);
            r.Some? ==> Onwards(p, r.value.1) && AllMatched(p.todo, msg, choices, r.value.1) && Counts(c, r.value.0, p.todo, choices, keepAll)
    decreases |p.todo|
  {
    hide Onwards, AllMatched, Counts, Pass.Sound, MatchStep, Noted;
    if p.todo == [] {
      MatchPassOver(c, p, msg, choices, keepAll);
      NoneSeen(c, p, msg, choices, keepAll);
    } else {
      var m := p.todo[0];
      var (code, n) := MatchStep(m, msg, choices(m.idx), p.serial);
      MatchPassStep(c, p, msg, choices, keepAll);
      if code != MailError && (code.MailDone? ==> code.commits) {
        var stays, goes, took := !code.MailMoved? && !code.MailDone?, code.MailMoved?, Takes(m, msg);
        var p1, c1 := p.See(n, stays, goes, took), Noted(c, m, msg, code, keepAll);
        SeeSound(p, n, stays, goes, took);
        NotedQueued(c, m, msg, code, keepAll);
        MatchFates(c1, p1, msg, choices, keepAll);
        var r := MatchPass(c1, p1, msg, choices, keepAll);
        if r.Some? {
          SeeOnwards(p, n, stays, goes, took, r.value.1);
          FirstMatched(p, msg, choices(m.idx), r.value.1);
          FirstOfAll(p.todo, msg, choices, r.value.1);
          FirstCounted(c, r.value.0, p.todo, msg, choices, p.serial, keepAll);
        }
      }
    }
  }

  ghost predicate AllMatched(todo: seq<Mctx>, msg: Option<ToChild>, choices: nat -> Choice, q: Pass) {
    forall m :: m in todo ==> MatchFate(m, msg, choices(m.idx), q.seen, q.other, q.outbox)
  }

  ghost predicate Counts(c: Child, d: Child, todo: seq<Mctx>, choices: nat -> Choice, keepAll: bool) {
    d.dropped == c.dropped + Finished(todo, choices, keepAll, true) && d.kept == c.kept + Finished(todo, choices, keepAll, false)
  }

  lemma NoneSeen(c: Child, p: Pass, msg: Option<ToChild>, choices: nat -> Choice, keepAll: bool)
    requires p.todo == []
    ensures Onwards(p, p) && AllMatched(p.todo, msg, choices, p) && Counts(c, c, p.todo, choices, keepAll)
  {
  }

  lemma NotedQueued(c: Child, m: Mctx, msg: Option<ToChild>, code: Code, keepAll: bool)
    ensures c.queued <= Noted(c, m, msg, code, keepAll).queued + 1
  {
  }

  lemma FirstOfAll(todo: seq<Mctx>, msg: Option<ToChild>, choices: nat -> Choice, q: Pass)
    requires todo != [] && MatchFate(todo[0], msg, choices(todo[0].idx), q.seen, q.other, q.outbox) && AllMatched(todo[1..], msg, choices, q)
    ensures AllMatched(todo, msg, choices, q)
  {
    hide MatchFate;
    assert forall x :: x in todo <==> x == todo[0] || x in todo[1..];
  }

  lemma FirstCounted(c: Child, d: Child, todo: seq<Mctx>, msg: Option<ToChild>, choices: nat -> Choice, serial: nat, keepAll: bool)
    requires todo != [] && c.queued > 0 && MatchStep(todo[0], msg, choices(todo[0].idx), serial).0 != MailError
    requires var code := MatchStep(todo[0], msg, choices(todo[0].idx), serial).0;
             Counts(Noted(c, todo[0], msg, code, keepAll), d, todo[1..], choices, keepAll)
    ensures Counts(c, d, todo, choices, keepAll)
  {
  }

  lemma OnwardsSelf(p: Pass)
    ensures Onwards(p, p)
  {
  }

  lemma FirstMatched(p: Pass, msg: Option<ToChild>, choice: Choice, q: Pass)
    requires p.Sound() && p.todo != []
    requires var (code, n) := MatchStep(p.todo[0], msg, choice, p.serial);
             && code != MailError && (code.MailDone? ==> code.commits)
             && Onwards(p.See(n, !code.MailMoved? && !code.MailDone?, code.MailMoved?, Takes(p.todo[0], msg)), q)
    ensures MatchFate(p.todo[0], msg, choice, q.seen, q.other, q.outbox)
  {
    hide Onwards, Pass.Sound;
    var m := p.todo[0];
    var (code, n) := MatchStep(m, msg, choice, p.serial);
    Stays(p, n, !code.MailMoved? && !code.MailDone?, code.MailMoved?, Takes(m, msg), q);
    if code.MailDone? {
      Leaves(p, n, Takes(m, msg), q);
    }
    assert Takes(m, msg) <==> Reaches(msg, m) by { TakesReaches(m, msg); }
  }

  lemma TakesReaches(m: Mctx, msg: Option<ToChild>)
    ensures Takes(m, msg) <==> Reaches(msg, m)
  {
    if Takes(m, msg) {
      assert msg == Some(Reply(Token(m.msgid, msg.value.token.serial)));
    }
  }

  ghost predicate AllDelivered(todo: seq<Mctx>, msg: Option<ToChild>, choices: nat -> Choice, q: Pass, from: nat) {
    from <= |q.seen| && forall m :: m in todo ==> DeliverFate(m, msg, choices(m.idx), q.other, q.seen[from..], q.outbox)
  }

  lemma {:induction false} DeliverFates(c: Child, p: Pass, msg: Option<ToChild>, choices: nat -> Choice, from: nat)
    requires from <= |p.seen|
    ensures var r := DeliverPass(c, p, msg, choices);
            r.Some? ==> Onwards(p, r.value.1) && AllDelivered(p.todo, msg, choices, r.value.1, from)
                        && r.value.0.dropped == c.dropped && r.value.0.kept == c.kept
    decreases |p.todo|
  {
    hide Onwards, AllDelivered, DeliverStep, Noted;
    if p.todo == [] {
      DeliverPassOver(c, p, msg, choices);
      assert Onwards(p, p) by { OnwardsSelf(p); }
      assert AllDelivered(p.todo, msg, choices, p, from) by { NoneDelivered(p, msg, choices, from); }
    } else {
      var m := p.todo[0];
      var (code, n) := DeliverStep(m, msg, choices(m.idx), p.serial);
      DeliverPassStep(c, p, msg, choices);
      if code != MailError {
        var p1, c1 := p.See(n, code != MailMoved, code == MailMoved, Takes(m, msg)), Noted(c, m, msg, code, false);
        NotedDelivery(c, m, msg, code);
        DeliverFates(c1, p1, msg, choices, from);
        var r := DeliverPass(c1, p1, msg, choices);
        if r.Some? {
          SeeOnwards(p, n, code != MailMoved, code == MailMoved, Takes(m, msg), r.value.1);
          FirstDelivered(p, msg, choices(m.idx), r.value.1, from);
          FirstOfDelivered(p.todo, msg, choices, r.value.1, from);
        }
      }
    }
  }

  lemma NoneDelivered(p: Pass, msg: Option<ToChild>, choices: nat -> Choice, from: nat)
    requires p.todo == [] && from <= |p.seen|
    ensures AllDelivered(p.todo, msg, choices, p, from)
  {
  }

  lemma FirstOfDelivered(todo: seq<Mctx>, msg: Option<ToChild>, choices: nat -> Choice, q: Pass, from: nat)
    requires todo != [] && from <= |q.seen| && DeliverFate(todo[0], msg, choices(todo[0].idx), q.other, q.seen[from..], q.outbox)
    requires AllDelivered(todo[1..], msg, choices, q, from)
    ensures AllDelivered(todo, msg, choices, q, from)
  {
    hide DeliverFate;
    assert forall x :: x in todo <==> x == todo[0] || x in todo[1..];
  }

  lemma FirstDelivered(p: Pass, msg: Option<ToChild>, choice: Choice, q: Pass, from: nat)
    requires p.todo != [] && from <= |p.seen|
    requires var (code, n) := DeliverStep(p.todo[0], msg, choice, p.serial);
             code != MailError && Onwards(p.See(n, code != MailMoved, code == MailMoved, Takes(p.todo[0], msg)), q)
    ensures from <= |q.seen| && DeliverFate(p.todo[0], msg, choice, q.other, q.seen[from..], q.outbox)
  {
    var m := p.todo[0];
    var (code, n) := DeliverStep(m, msg, choice, p.serial);
    var stays := code != MailMoved;
    assert p.See(n, stays, !stays, Takes(m, msg)).seen <= q.seen;
    hide Onwards;
    Stays(p, n, stays, !stays, Takes(m, msg), q);
    assert q.seen[from..][|p.seen| - from..] == q.seen[|p.seen|..];
    assert Takes(m, msg) <==> Reaches(msg, m) by { TakesReaches(m, msg); }
  }

  /**
   * A pass over the match queue, mail by mail: each one waits, goes on, asks the parent, moves behind those already being
   * delivered, or is done and counted as dropped or kept.
   */
  lemma MailsMatched(c: Child, msg: Option<ToChild>, choices: nat -> Choice, keepAll: bool)
    requires c.Start().Sound() && c.Counted()
    ensures var r := MatchPass(c, c.Start(), msg, choices, keepAll);
            r.Some? ==>
              var d := AfterMatch(r.value.0, r.value.1);
              && (forall m :: m in c.matchq ==> MatchFate(m, msg, choices(m.idx), d.matchq, d.deliverq, d.outbox))
              && c.deliverq <= d.deliverq
              && d.dropped == c.dropped + Finished(c.matchq, choices, keepAll, true)
              && d.kept == c.kept + Finished(c.matchq, choices, keepAll, false)
  {
    hide Pass.Sound, MatchFate, MatchPass, Finished;
    MatchFates(c, c.Start(), msg, choices, keepAll);
  }

  /** A pass over the delivery queue: each mail waits, goes on, asks the parent, or moves back behind those being matched. */
  lemma MailsDelivered(c: Child, used: bool, msg: Option<ToChild>, choices: nat -> Choice)
    ensures var r := DeliverPass(c, Pass(c.matchq, c.deliverq, [], c.outbox, c.serial, used), msg, choices);
            r.Some? ==>
              && |c.matchq| <= |r.value.1.seen|
              && var d := AfterDeliver(r.value.0.(matchq := c.matchq), r.value.1);
                 && (forall m :: m in c.deliverq ==> DeliverFate(m, msg, choices(m.idx), d.matchq, d.deliverq, d.outbox))
                 && c.matchq <= d.matchq && d.dropped == c.dropped && d.kept == c.kept
  {
    hide DeliverFate, DeliverPass;
    var p := Pass(c.matchq, c.deliverq, [], c.outbox, c.serial, used);
    DeliverFates(c, p, msg, choices, |c.matchq|);
    var r := DeliverPass(c, p, msg, choices);
    if r.Some? {
      var q := r.value.1;
      var d := AfterDeliver(r.value.0.(matchq := c.matchq), q);
      forall m | m in c.deliverq ensures DeliverFate(m, msg, choices(m.idx), d.matchq, d.deliverq, d.outbox) {
        MoreMatched(m, msg, choices(m.idx), q.other, d.matchq, d.deliverq, d.outbox);
      }
    }
  }

  lemma MoreMatched(m: Mctx, msg: Option<ToChild>, choice: Choice, matchq: seq<Mctx>, more: seq<Mctx>, deliverq: seq<Mctx>, outbox: seq<ToParent>)
    requires DeliverFate(m, msg, choice, matchq, deliverq, outbox) && forall x :: x in matchq ==> x in more
    ensures DeliverFate(m, msg, choice, more, deliverq, outbox)
  {
  }
}
