// The fetch child's loop, the parent and the deliver children, and the requests that go round between them.
//
// A request carries only the number of its mail, and a mail uses that number for all its requests. Here every
// request also gets a serial number of its own, which nothing in the system looks at: it is what lets us say
// that a reply reaches the very request it answers.

module Tokens {
  import opened Options

  /** A mail on one of the queues; msgid is 0 or the number its outstanding request went out with. */
  datatype Mctx = Mctx(idx: nat, msgid: nat, serial: nat)

  /** The number of a mail and the serial number of its request. */
  datatype Token = Token(id: nat, serial: nat)

  datatype ToParent = Request(token: Token) | ExitRequest

  datatype ToChild = Reply(token: Token) | ExitReply

  function If(b: bool): nat {
    if b then 1 else 0
  }

  // How often a token occurs: among waiting mails, requests on the way, running children, replies on the way.

  function One(m: Mctx, t: Token): nat {
    If(m.msgid != 0 && Token(m.idx, m.serial) == t)
  }

  function Waits(q: seq<Mctx>, t: Token): nat {
    if q == [] then 0 else One(q[0], t) + Waits(q[1..], t)
  }

  function Asked(out: seq<ToParent>, t: Token): nat {
    if out == [] then 0 else If(out[0] == Request(t)) + Asked(out[1..], t)
  }

  function Working(jobs: seq<Token>, t: Token): nat {
    if jobs == [] then 0 else If(jobs[0] == t) + Working(jobs[1..], t)
  }

  function Answered(inbox: seq<ToChild>, t: Token): nat {
    if inbox == [] then 0 else If(inbox[0] == Reply(t)) + Answered(inbox[1..], t)
  }

  /** The token of the message in hand, until it has been taken. */
  function Hand(msg: Option<ToChild>, used: bool, t: Token): nat {
    If(msg == Some(Reply(t)) && !used)
  }

  /** How many mails have a number. */
  function Bearers(q: seq<Mctx>, i: nat): nat {
    if q == [] then 0 else If(q[0].idx == i) + Bearers(q[1..], i)
  }

  lemma {:induction false} WaitsAppend(a: seq<Mctx>, b: seq<Mctx>, t: Token, i: nat)
    ensures Waits(a + b, t) == Waits(a, t) + Waits(b, t)
    ensures Bearers(a + b, i) == Bearers(a, i) + Bearers(b, i)
  {
    if a == [] {
      assert a + b == b;
    } else {
      assert (a + b)[1..] == a[1..] + b;
      WaitsAppend(a[1..], b, t, i);
    }
  }

  lemma {:induction false} AskedAppend(a: seq<ToParent>, b: seq<ToParent>, t: Token)
    ensures Asked(a + b, t) == Asked(a, t) + Asked(b, t)
  {
    if a == [] {
      assert a + b == b;
    } else {
      assert (a + b)[1..] == a[1..] + b;
      AskedAppend(a[1..], b, t);
    }
  }

  lemma {:induction false} WorkingAppend(a: seq<Token>, b: seq<Token>, t: Token)
    ensures Working(a + b, t) == Working(a, t) + Working(b, t)
  {
    if a == [] {
      assert a + b == b;
    } else {
      assert (a + b)[1..] == a[1..] + b;
      WorkingAppend(a[1..], b, t);
    }
  }

  lemma {:induction false} AnsweredAppend(a: seq<ToChild>, b: seq<ToChild>, t: Token)
    ensures Answered(a + b, t) == Answered(a, t) + Answered(b, t)
  {
    if a == [] {
      assert a + b == b;
    } else {
      assert (a + b)[1..] == a[1..] + b;
      AnsweredAppend(a[1..], b, t);
    }
  }

  lemma PutLast(q: seq<Mctx>, m: Mctx, t: Token, i: nat)
    ensures Waits(q + [m], t) == Waits(q, t) + One(m, t) && Bearers(q + [m], i) == Bearers(q, i) + If(m.idx == i)
  {
    WaitsAppend(q, [m], t, i);
    assert [m][1..] == [];
  }

  lemma {:induction false} WaitsIn(q: seq<Mctx>, t: Token)
    ensures Waits(q, t) > 0 <==> exists m :: m in q && m.msgid != 0 && Token(m.idx, m.serial) == t
  {
    if q != [] {
      WaitsIn(q[1..], t);
      assert forall m :: m in q <==> m == q[0] || m in q[1..];
    }
  }

  lemma {:induction false} BearersIn(q: seq<Mctx>, m: Mctx)
    requires m in q
    ensures Bearers(q, m.idx) > 0
  {
    if m != q[0] {
      BearersIn(q[1..], m);
    }
  }

  ghost predicate OnlyRequests(out: seq<ToParent>) {
    forall r :: r in out ==> r.Request?
  }

  ghost predicate OnlyReplies(inbox: seq<ToChild>) {
    forall r :: r in inbox ==> r.Reply?
  }

  /** Mails wait under their own numbers, with serials given out before. */
  ghost predicate Proper(q: seq<Mctx>, serial: nat) {
    forall m :: m in q ==> m.idx > 0 && (m.msgid != 0 ==> m.msgid == m.idx && m.serial < serial)
  }
}

module FetchLoop {
  import opened Options
  import opened Tokens

  /** What mail_match or mail_deliver does with a mail that is not waiting. */
  datatype Choice = ChooseError | ChooseRequest | ChooseContinue | ChooseMove | ChooseDone(drop: bool, commits: bool)

  datatype Code = MailContinue | MailMoved | MailError | MailBlocked | MailDone(drop: bool, commits: bool)

  // ---------------------------------------------------------------- one step of one mail

  /** A waiting mail takes a message that carries its number. */
  predicate Takes(m: Mctx, msg: Option<ToChild>) {
    m.msgid != 0 && msg.Some? && msg.value.Reply? && msg.value.token.id == m.msgid
  }

  /** mail_match: a mail that has taken its reply goes on, and neither ends nor asks again in the same step. */
  function MatchStep(m: Mctx, msg: Option<ToChild>, choice: Choice, serial: nat): (r: (Code, Mctx))
    ensures r.0 != MailError ==> (r.0 == MailBlocked <==> r.1.msgid != 0)
    ensures Becomes(m, r.1, serial, Takes(m, msg))
  {
    if m.msgid != 0 && !Takes(m, msg) then (MailBlocked, m)
    else if m.msgid != 0 then
      var m1 := m.(msgid := 0);
      match choice
      case ChooseError => (MailError, m1)
      case ChooseMove => (MailMoved, m1)
      case _ => (MailContinue, m1)
    else
      match choice
      case ChooseError => (MailError, m)
      case ChooseRequest => if m.idx == 0 then (MailError, m) else (MailBlocked, m.(msgid := m.idx, serial := serial))
      case ChooseContinue => (MailContinue, m)
      case ChooseMove => (MailMoved, m)
      case ChooseDone(drop, commits) => (MailDone(drop, commits), m)
  }

  /** mail_deliver: the same, but no mail is done there, and a mail goes back to matching only at the start of a step. */
  function DeliverStep(m: Mctx, msg: Option<ToChild>, choice: Choice, serial: nat): (r: (Code, Mctx))
    ensures r.0 != MailError ==> (r.0 == MailBlocked <==> r.1.msgid != 0)
    ensures Becomes(m, r.1, serial, Takes(m, msg)) && !r.0.MailDone?
  {
    if m.msgid != 0 && !Takes(m, msg) then (MailBlocked, m)
    else if m.msgid != 0 then
      var m1 := m.(msgid := 0);
      if choice == ChooseError then (MailError, m1) else (MailContinue, m1)
    else
      match choice
      case ChooseError => (MailError, m)
      case ChooseRequest => if m.idx == 0 then (MailError, m) else (MailBlocked, m.(msgid := m.idx, serial := serial))
      case ChooseMove => (MailMoved, m)
      case _ => (MailContinue, m)
  }

  /** What one step may make of a mail. */
  predicate Becomes(m: Mctx, n: Mctx, serial: nat, took: bool) {
    if took then n == m.(msgid := 0)
    else n == m || (m.msgid == 0 && m.idx > 0 && n == m.(msgid := m.idx, serial := serial))
  }

  // ---------------------------------------------------------------- a pass over a queue

  /** The mails of a pass: those seen and still on the queue, those to come, and those of the other queue. */
  datatype Pass = Pass(seen: seq<Mctx>, todo: seq<Mctx>, other: seq<Mctx>, outbox: seq<ToParent>, serial: nat, used: bool)
  {
    /** Every waiting mail has its token in exactly one place. */
    ghost predicate Balanced(jobs: seq<Token>, inbox: seq<ToChild>, msg: Option<ToChild>) {
      forall t :: Waits(seen, t) + Waits(todo, t) + Waits(other, t) ==
                  Asked(outbox, t) + Working(jobs, t) + Answered(inbox, t) + Hand(msg, used, t)
    }

    /** No two mails have the same number, and nothing but requests has been sent. */
    ghost predicate Sound() {
      && OnlyRequests(outbox)
      && (forall i :: Bearers(seen, i) + Bearers(todo, i) + Bearers(other, i) <= 1)
      && Proper(seen, serial) && Proper(todo, serial) && Proper(other, serial)
    }

    /** The message, until taken, is for a mail not seen yet in this iteration; once taken, for none. */
    ghost predicate Aimed(msg: Option<ToChild>) {
      msg.Some? && msg.value.Reply? ==>
        if used then forall m :: m in todo + other ==> m.msgid != msg.value.token.id
        else Waits(todo, msg.value.token) + Waits(other, msg.value.token) > 0
    }

    ghost predicate Valid(jobs: seq<Token>, inbox: seq<ToChild>, msg: Option<ToChild>) {
      Sound() && Balanced(jobs, inbox, msg) && Aimed(msg)
    }

    /** Seeing the first mail to come: it becomes n, and stays, goes to the other queue, or leaves. */
    function See(n: Mctx, stays: bool, goes: bool, took: bool): Pass
      requires todo != []
    {
      var asked := n.msgid != 0 && n != todo[0];
      Pass(if stays then seen + [n] else seen, todo[1..], if goes then other + [n] else other,
           if asked then outbox + [Request(Token(n.idx, n.serial))] else outbox,
           if asked then serial + 1 else serial, used || took)
    }
  }

  /** The number of the first mail to come is not the number of any other. */
  lemma FirstAlone(p: Pass)
    requires p.Sound() && p.todo != []
    ensures forall x :: x in p.todo[1..] || x in p.other ==> x.idx != p.todo[0].idx
  {
    var i := p.todo[0].idx;
    assert Bearers(p.todo, i) == 1 + Bearers(p.todo[1..], i);
    forall x | x in p.todo[1..] || x in p.other ensures x.idx != i {
      if x in p.todo[1..] {
        BearersIn(p.todo[1..], x);
      } else {
        BearersIn(p.other, x);
      }
    }
  }

  /** Only the mail the message is for takes it, and it takes the reply to its own request. */
  lemma TakesOwn(p: Pass, msg: Option<ToChild>)
    requires p.Sound() && p.Aimed(msg) && p.todo != [] && Takes(p.todo[0], msg)
    ensures !p.used && Token(p.todo[0].idx, p.todo[0].serial) == msg.value.token
  {
    var m, token := p.todo[0], msg.value.token;
    assert m in p.todo && m in p.todo + p.other;
    FirstAlone(p);
    WaitsIn(p.todo, token);
    WaitsIn(p.other, token);
    assert forall x :: x in p.todo ==> x == m || x in p.todo[1..];
  }

  lemma SeeBalanced(p: Pass, n: Mctx, stays: bool, goes: bool, jobs: seq<Token>, inbox: seq<ToChild>, msg: Option<ToChild>)
    requires p.Balanced(jobs, inbox, msg) && p.todo != [] && Becomes(p.todo[0], n, p.serial, Takes(p.todo[0], msg))
    requires Takes(p.todo[0], msg) ==> !p.used && Token(p.todo[0].idx, p.todo[0].serial) == msg.value.token
    requires !(stays && goes) && (!stays ==> n.msgid == 0)
    ensures p.See(n, stays, goes, Takes(p.todo[0], msg)).Balanced(jobs, inbox, msg)
  {
    var m := p.todo[0];
    var q := p.See(n, stays, goes, Takes(m, msg));
    forall t
      ensures Waits(q.seen, t) + Waits(q.todo, t) + Waits(q.other, t) ==
              Asked(q.outbox, t) + Working(jobs, t) + Answered(inbox, t) + Hand(msg, q.used, t)
    {
      PutLast(p.seen, n, t, 0);
      PutLast(p.other, n, t, 0);
      AskedAppend(p.outbox, [Request(Token(n.idx, n.serial))], t);
      assert [Request(Token(n.idx, n.serial))][1..] == [];
      assert Waits(p.todo, t) == One(m, t) + Waits(q.todo, t);
    }
  }

  lemma SeeSound(p: Pass, n: Mctx, stays: bool, goes: bool, took: bool)
    requires p.Sound() && p.todo != [] && Becomes(p.todo[0], n, p.serial, took) && !(stays && goes)
    ensures p.See(n, stays, goes, took).Sound()
  {
    var q := p.See(n, stays, goes, took);
    assert p.todo[0] in p.todo;
    forall i ensures Bearers(q.seen, i) + Bearers(q.todo, i) + Bearers(q.other, i) <= 1 {
      PutLast(p.seen, n, Token(0, 0), i);
      PutLast(p.other, n, Token(0, 0), i);
      assert Bearers(p.todo, i) == If(n.idx == i) + Bearers(q.todo, i);
    }
  }

  lemma SeeAimed(p: Pass, n: Mctx, stays: bool, goes: bool, msg: Option<ToChild>)
    requires p.Sound() && p.Aimed(msg) && p.todo != [] && Becomes(p.todo[0], n, p.serial, Takes(p.todo[0], msg))
    requires !(stays && goes) && (!stays ==> n.msgid == 0)
    ensures p.See(n, stays, goes, Takes(p.todo[0], msg)).Aimed(msg)
  {
    var m := p.todo[0];
    var q := p.See(n, stays, goes, Takes(m, msg));
    if msg.Some? && msg.value.Reply? {
      var token := msg.value.token;
      FirstAlone(p);
      assert m in p.todo;
      if q.used {
        forall x | x in q.todo + q.other ensures x.msgid != token.id {
          assert x in p.todo[1..] || x in p.other || x == n;
          assert x in p.todo[1..] ==> x in p.todo;
          assert p.used && x != n ==> x in p.todo + p.other;
        }
      } else {
        assert Waits(p.todo, token) == One(m, token) + Waits(q.todo, token);
        PutLast(p.other, n, token, 0);
      }
    }
  }

  /** Seeing a mail keeps the pass valid. */
  lemma SeeKeeps(p: Pass, n: Mctx, stays: bool, goes: bool, jobs: seq<Token>, inbox: seq<ToChild>, msg: Option<ToChild>)
    requires p.Valid(jobs, inbox, msg) && p.todo != [] && Becomes(p.todo[0], n, p.serial, Takes(p.todo[0], msg))
    requires !(stays && goes) && (!stays ==> n.msgid == 0)
    ensures p.See(n, stays, goes, Takes(p.todo[0], msg)).Valid(jobs, inbox, msg)
    ensures Takes(p.todo[0], msg) ==> !p.used && p.todo[0].serial == msg.value.token.serial
  {
    if Takes(p.todo[0], msg) {
      TakesOwn(p, msg);
    }
    SeeBalanced(p, n, stays, goes, jobs, inbox, msg);
    SeeSound(p, n, stays, goes, Takes(p.todo[0], msg));
    SeeAimed(p, n, stays, goes, msg);
  }

  // ---------------------------------------------------------------- the fetch child

  function Blocked(q: seq<Mctx>): nat {
    if q == [] then 0 else If(q[0].msgid != 0) + Blocked(q[1..])
  }

  lemma {:induction false} BlockedAppend(a: seq<Mctx>, b: seq<Mctx>)
    ensures Blocked(a + b) == Blocked(a) + Blocked(b)
  {
    if a == [] {
      assert a + b == b;
    } else {
      assert (a + b)[1..] == a[1..] + b;
      BlockedAppend(a[1..], b);
    }
  }

  lemma BlockedLast(q: seq<Mctx>, n: Mctx)
    ensures Blocked(q + [n]) == Blocked(q) + If(n.msgid != 0)
  {
    BlockedAppend(q, [n]);
    assert [n][1..] == [];
  }

  /** All of some mails are waiting exactly if as many are blocked as there are. */
  lemma {:induction false} BlockedAll(q: seq<Mctx>)
    ensures Blocked(q) <= |q|
    ensures Blocked(q) == |q| <==> forall m :: m in q ==> m.msgid != 0
    ensures Blocked(q) == 0 <==> forall m :: m in q ==> m.msgid == 0
  {
    if q != [] {
      BlockedAll(q[1..]);
      assert forall m :: m in q <==> m == q[0] || m in q[1..];
    }
  }

  datatype Child = Child(
    matchq: seq<Mctx>, deliverq: seq<Mctx>,
    queued: nat, blocked: nat, dropped: nat, kept: nat,
    lastIdx: nat,             // the number given to the last mail queued
    outbox: seq<ToParent>,    // sent and not read by the parent yet
    serial: nat,              // the serial number of the next request
    taken: seq<(nat, nat)>)   // for each reply taken: the serials of the request and of the reply
  {
    /** Every mail queued is on a queue, or dropped, or kept, and the numbers given out are the mails queued. */
    ghost predicate Counted() {
      && queued == |matchq| + |deliverq|
      && lastIdx == queued + dropped + kept
      && (forall m :: m in matchq || m in deliverq ==> m.idx <= lastIdx)
    }

    /** The state between iterations, as a pass with nothing seen. */
    function Start(): Pass {
      Pass([], matchq, deliverq, outbox, serial, false)
    }
  }

  /** Every reply was taken by the request it answers. */
  ghost predicate OwnReplies(taken: seq<(nat, nat)>) {
    forall i :: 0 <= i < |taken| ==> taken[i].0 == taken[i].1
  }

  /** A mail whose step fails, or which is done but cannot be committed: it ends the fetch. */
  predicate MatchFails(m: Mctx, msg: Option<ToChild>, choice: Choice) {
    (m.msgid == 0 || Takes(m, msg)) &&
    (choice == ChooseError || (m.msgid == 0 && ((choice == ChooseRequest && m.idx == 0) || (choice.ChooseDone? && !choice.commits))))
  }

  predicate DeliverFails(m: Mctx, msg: Option<ToChild>, choice: Choice) {
    (m.msgid == 0 || Takes(m, msg)) && (choice == ChooseError || (m.msgid == 0 && choice == ChooseRequest && m.idx == 0))
  }

  /** What the child notes of one mail tried: a reply taken, a mail that waits, a mail that is done. */
  function Noted(c: Child, m: Mctx, msg: Option<ToChild>, code: Code, keepAll: bool): Child {
    var d := if Takes(m, msg) then c.(taken := c.taken + [(m.serial, msg.value.token.serial)]) else c;
    match code
    case MailBlocked => d.(blocked := d.blocked + 1)
    case MailDone(drop, _) =>
      if d.queued == 0 then d
      else if drop && !keepAll then d.(dropped := d.dropped + 1, queued := d.queued - 1)
      else d.(kept := d.kept + 1, queued := d.queued - 1)
    case _ => d
  }

  /** The rest of a pass over the match queue; none if a mail fails. */
  function MatchPass(c: Child, p: Pass, msg: Option<ToChild>, choices: nat -> Choice, keepAll: bool): Option<(Child, Pass)>
    decreases |p.todo|
  {
    if p.todo == [] then Some((c, p))
    else
      var m := p.todo[0];
      var (code, n) := MatchStep(m, msg, choices(m.idx), p.serial);
      if code == MailError || (code.MailDone? && !code.commits) then None
      else MatchPass(Noted(c, m, msg, code, keepAll),
                     p.See(n, !code.MailMoved? && !code.MailDone?, code.MailMoved?, Takes(m, msg)), msg, choices, keepAll)
  }

  /** The rest of a pass over the delivery queue. */
  function DeliverPass(c: Child, p: Pass, msg: Option<ToChild>, choices: nat -> Choice): Option<(Child, Pass)>
    decreases |p.todo|
  {
    if p.todo == [] then Some((c, p))
    else
      var m := p.todo[0];
      var (code, n) := DeliverStep(m, msg, choices(m.idx), p.serial);
      if code == MailError then None
      else DeliverPass(Noted(c, m, msg, code, false), p.See(n, code != MailMoved, code == MailMoved, Takes(m, msg)), msg, choices)
  }

  /** A pass over the match queue fails exactly if one of its mails does. */
  lemma {:induction false} MatchPassFails(c: Child, p: Pass, msg: Option<ToChild>, choices: nat -> Choice, keepAll: bool)
    ensures MatchPass(c, p, msg, choices, keepAll) == None <==> exists m :: m in p.todo && MatchFails(m, msg, choices(m.idx))
    decreases |p.todo|
  {
    if p.todo != [] {
      var m := p.todo[0];
      var (code, n) := MatchStep(m, msg, choices(m.idx), p.serial);
      assert MatchFails(m, msg, choices(m.idx)) <==> code == MailError || (code.MailDone? && !code.commits);
      assert forall x :: x in p.todo <==> x == m || x in p.todo[1..];
      if !MatchFails(m, msg, choices(m.idx)) {
        MatchPassFails(Noted(c, m, msg, code, keepAll),
                       p.See(n, !code.MailMoved? && !code.MailDone?, code.MailMoved?, Takes(m, msg)), msg, choices, keepAll);
      }
    }
  }

  lemma {:induction false} DeliverPassFails(c: Child, p: Pass, msg: Option<ToChild>, choices: nat -> Choice)
    ensures DeliverPass(c, p, msg, choices) == None <==> exists m :: m in p.todo && DeliverFails(m, msg, choices(m.idx))
    decreases |p.todo|
  {
    if p.todo != [] {
      var m := p.todo[0];
      var (code, n) := DeliverStep(m, msg, choices(m.idx), p.serial);
      assert DeliverFails(m, msg, choices(m.idx)) <==> code == MailError;
      assert forall x :: x in p.todo <==> x == m || x in p.todo[1..];
      if code != MailError {
        DeliverPassFails(Noted(c, m, msg, code, false), p.See(n, code != MailMoved, code == MailMoved, Takes(m, msg)), msg, choices);
      }
    }
  }

  /** What holds between two mails of a pass: the child's counts are those of the pass, and every reply taken was its own. */
  ghost predicate Tallied(c: Child, p: Pass) {
    && OwnReplies(c.taken) && c.lastIdx == c.queued + c.dropped + c.kept
    && c.queued == |p.seen| + |p.todo| + |p.other| && c.blocked == Blocked(p.seen)
    && forall m :: m in p.seen || m in p.todo || m in p.other ==> m.idx <= c.lastIdx
  }

  /** A later child and pass of the same iteration. */
  ghost predicate Later(c: Child, p: Pass, d: Child, q: Pass, msg: Option<ToChild>) {
    && d.lastIdx == c.lastIdx && d.queued <= c.queued && |d.taken| - If(q.used) == |c.taken| - If(p.used)
    && (q.used ==> p.used || msg.Some?) && p.seen <= q.seen
  }

  lemma {:induction false} MatchPassKeeps(c: Child, p: Pass, msg: Option<ToChild>, choices: nat -> Choice, keepAll: bool,
                                          jobs: seq<Token>, inbox: seq<ToChild>)
    requires p.Valid(jobs, inbox, msg) && Tallied(c, p)
    ensures var r := MatchPass(c, p, msg, choices, keepAll);
            r.Some? ==> r.value.1.todo == [] && r.value.1.Valid(jobs, inbox, msg) && Tallied(r.value.0, r.value.1)
                        && Later(c, p, r.value.0, r.value.1, msg)
    decreases |p.todo|
  {
    hide Pass.Valid, Waits, Bearers, Asked, Working, Answered, Blocked;
    if p.todo != [] {
      var m := p.todo[0];
      var (code, n) := MatchStep(m, msg, choices(m.idx), p.serial);
      if code != MailError && (code.MailDone? ==> code.commits) {
        var stays := !code.MailMoved? && !code.MailDone?;
        SeeKeeps(p, n, stays, code.MailMoved?, jobs, inbox, msg);
        SeeTallied(c, p, msg, code, n, stays, code.MailMoved?, keepAll);
        MatchPassKeeps(Noted(c, m, msg, code, keepAll), p.See(n, stays, code.MailMoved?, Takes(m, msg)), msg, choices, keepAll, jobs, inbox);
      }
    }
  }

  lemma {:induction false} DeliverPassKeeps(c: Child, p: Pass, msg: Option<ToChild>, choices: nat -> Choice,
                                            jobs: seq<Token>, inbox: seq<ToChild>)
    requires p.Valid(jobs, inbox, msg) && Tallied(c, p) && Blocked(p.other) == 0
    ensures var r := DeliverPass(c, p, msg, choices);
            r.Some? ==> r.value.1.todo == [] && r.value.1.Valid(jobs, inbox, msg) && Tallied(r.value.0, r.value.1)
                        && Later(c, p, r.value.0, r.value.1, msg) && Blocked(r.value.1.other) == 0
                        && r.value.0.dropped == c.dropped && r.value.0.kept == c.kept
    decreases |p.todo|
  {
    hide Pass.Valid, Waits, Bearers, Asked, Working, Answered, Blocked;
    if p.todo != [] {
      var m := p.todo[0];
      var (code, n) := DeliverStep(m, msg, choices(m.idx), p.serial);
      if code != MailError {
        SeeKeeps(p, n, code != MailMoved, code == MailMoved, jobs, inbox, msg);
        SeeTallied(c, p, msg, code, n, code != MailMoved, code == MailMoved, false);
        BlockedLast(p.other, n);
        DeliverPassKeeps(Noted(c, m, msg, code, false), p.See(n, code != MailMoved, code == MailMoved, Takes(m, msg)), msg, choices, jobs, inbox);
      }
    }
  }

  /** Noting a mail keeps the counts those of the pass. */
  lemma SeeTallied(c: Child, p: Pass, msg: Option<ToChild>, code: Code, n: Mctx, stays: bool, goes: bool, keepAll: bool)
    requires Tallied(c, p) && p.todo != [] && n.idx == p.todo[0].idx && !(stays && goes)
    requires code != MailError && (code == MailBlocked <==> n.msgid != 0)
    requires (goes <==> code == MailMoved) && (stays <==> code != MailMoved && !code.MailDone?)
    requires Takes(p.todo[0], msg) ==> !p.used && p.todo[0].serial == msg.value.token.serial
    ensures var q := p.See(n, stays, goes, Takes(p.todo[0], msg));
            Tallied(Noted(c, p.todo[0], msg, code, keepAll), q) && Later(c, p, Noted(c, p.todo[0], msg, code, keepAll), q, msg)
  {
    hide Blocked;
    assert p.todo[0] in p.todo;
    BlockedLast(p.seen, n);
  }

  /** The child after a pass over the match queue, and after one over the delivery queue behind it. */
  function AfterMatch(c: Child, p: Pass): Child {
    c.(matchq := p.seen, deliverq := p.other, outbox := p.outbox, serial := p.serial)
  }

  function AfterDeliver(c: Child, p: Pass): Child
    requires |c.matchq| <= |p.seen|
  {
    c.(matchq := c.matchq + p.other, deliverq := p.seen[|c.matchq|..], outbox := p.outbox, serial := p.serial)
  }

  lemma MatchPassStep(c: Child, p: Pass, msg: Option<ToChild>, choices: nat -> Choice, keepAll: bool)
    requires p.todo != []
    ensures var m := p.todo[0];
            var (code, n) := MatchStep(m, msg, choices(m.idx), p.serial);
            MatchPass(c, p, msg, choices, keepAll)
            == if code == MailError || (code.MailDone? && !code.commits) then None
               else MatchPass(Noted(c, m, msg, code, keepAll),
                              p.See(n, !code.MailMoved? && !code.MailDone?, code.MailMoved?, Takes(m, msg)), msg, choices, keepAll)
  {
    hide MatchStep, Noted;
  }

  lemma MatchPassOver(c: Child, p: Pass, msg: Option<ToChild>, choices: nat -> Choice, keepAll: bool)
    requires p.todo == []
    ensures MatchPass(c, p, msg, choices, keepAll) == Some((c, p))
  {
  }

  lemma DeliverPassStep(c: Child, p: Pass, msg: Option<ToChild>, choices: nat -> Choice)
    requires p.todo != []
    ensures var m := p.todo[0];
            var (code, n) := DeliverStep(m, msg, choices(m.idx), p.serial);
            DeliverPass(c, p, msg, choices)
            == if code == MailError then None
               else DeliverPass(Noted(c, m, msg, code, false), p.See(n, code != MailMoved, code == MailMoved, Takes(m, msg)), msg, choices)
  {
    hide DeliverStep, Noted;
  }

  lemma DeliverPassOver(c: Child, p: Pass, msg: Option<ToChild>, choices: nat -> Choice)
    requires p.todo == []
    ensures DeliverPass(c, p, msg, choices) == Some((c, p))
  {
  }

  /** All that holds after a pass over the match queue. */
  lemma MatchPassDone(c: Child, msg: Option<ToChild>, choices: nat -> Choice, keepAll: bool, jobs: seq<Token>, inbox: seq<ToChild>)
    requires c.Start().Valid(jobs, inbox, msg) && c.Counted() && c.blocked == 0 && OwnReplies(c.taken)
    ensures c.queued >= |c.matchq|
    ensures var r := MatchPass(c, c.Start(), msg, choices, keepAll);
            && (r.Some? <==> !exists m :: m in c.matchq && MatchFails(m, msg, choices(m.idx)))
            && (r.Some? ==>
                  && var (d, used) := (AfterMatch(r.value.0, r.value.1), r.value.1.used);
                     && d.Counted() && OwnReplies(d.taken) && d.blocked == Blocked(d.matchq)
                     && Pass(d.matchq, [], d.deliverq, d.outbox, d.serial, used).Valid(jobs, inbox, msg) && (used ==> msg.Some?)
                     && |d.taken| == |c.taken| + If(used) && d.lastIdx == c.lastIdx && d.queued <= c.queued)
  {
    hide Pass.Valid, Blocked, MatchFails, MatchStep, Noted, MatchPass;
    var p := c.Start();
    assert Blocked([]) == 0 by { BlockedAll([]); }
    MatchPassFails(c, p, msg, choices, keepAll);
    MatchPassKeeps(c, p, msg, choices, keepAll, jobs, inbox);
    var r := MatchPass(c, p, msg, choices, keepAll);
    if r.Some? {
      var q := r.value.1;
      assert Pass(q.seen, [], q.other, q.outbox, q.serial, q.used) == q;
    }
  }

  lemma DeliverLater(c: Child, p: Pass, d: Child, q: Pass, msg: Option<ToChild>)
    requires Later(c, p, d, q, msg) && p == Pass(c.matchq, c.deliverq, [], c.outbox, c.serial, p.used)
    requires c.lastIdx == c.queued + c.dropped + c.kept && d.dropped == c.dropped && d.kept == c.kept && Tallied(d, q)
    ensures c.matchq <= q.seen && d.queued == c.queued && d.lastIdx == c.lastIdx
    ensures |d.taken| == |c.taken| + If(q.used) - If(p.used) && (q.used ==> p.used || msg.Some?)
  {
    hide OwnReplies;
  }

  /** The queues after a pass over the delivery queue hold what the pass has seen. */
  lemma DeliverTallied(d: Child, q: Pass)
    requires Tallied(d, q) && q.todo == [] && d.matchq <= q.seen && Blocked(q.other) == 0
    ensures var r := AfterDeliver(d, q);
            r.Counted() && OwnReplies(r.taken) && r.blocked == Blocked(r.matchq) + Blocked(r.deliverq)
  {
    hide OwnReplies, Blocked;
    var seen := q.seen[|d.matchq|..];
    assert q.seen == d.matchq + seen;
    BlockedAppend(d.matchq, seen);
    BlockedAppend(d.matchq, q.other);
  }

  /** All that holds after a pass over the delivery queue. */
  ghost predicate Delivered(c: Child, used0: bool, d: Child, used: bool, msg: Option<ToChild>, jobs: seq<Token>, inbox: seq<ToChild>) {
    && d.Counted() && OwnReplies(d.taken) && d.blocked == Blocked(d.matchq) + Blocked(d.deliverq)
    && d.Start().Sound() && Pass([], d.matchq, d.deliverq, d.outbox, d.serial, used).Balanced(jobs, inbox, msg)
    && |d.taken| == |c.taken| + If(used) - If(used0) && (used ==> used0 || msg.Some?)
    && (msg.Some? && msg.value.Reply? ==> used)
    && d.dropped == c.dropped && d.kept == c.kept && d.queued == c.queued && d.lastIdx == c.lastIdx
  }

  lemma DeliverPassDone(c: Child, msg: Option<ToChild>, used0: bool, choices: nat -> Choice, jobs: seq<Token>, inbox: seq<ToChild>)
    requires Pass(c.matchq, [], c.deliverq, c.outbox, c.serial, used0).Valid(jobs, inbox, msg)
    requires c.Counted() && c.blocked == Blocked(c.matchq) && OwnReplies(c.taken)
    ensures var r := DeliverPass(c, Pass(c.matchq, c.deliverq, [], c.outbox, c.serial, used0), msg, choices);
            r.Some? ==>
              && c.matchq <= r.value.1.seen
              && Delivered(c, used0, AfterDeliver(r.value.0.(matchq := c.matchq), r.value.1), r.value.1.used, msg, jobs, inbox)
  {
    hide Pass.Valid, Pass.Sound, Pass.Balanced, Blocked, DeliverStep, Noted, DeliverPass, Tallied, Later, OwnReplies, Child.Counted;
    var p := Pass(c.matchq, c.deliverq, [], c.outbox, c.serial, used0);
    DeliverStarts(c, used0, jobs, inbox, msg);
    DeliverTally(c, used0);
    DeliverPassKeeps(c, p, msg, choices, jobs, inbox);
    var r := DeliverPass(c, p, msg, choices);
    if r.Some? {
      DeliverLater(c, p, r.value.0, r.value.1, msg);
      DeliverPassOnly(c, used0, r.value.0, r.value.1, msg, jobs, inbox);
    }
  }

  lemma DeliverPassOnly(c: Child, used0: bool, e: Child, q: Pass, msg: Option<ToChild>, jobs: seq<Token>, inbox: seq<ToChild>)
    requires q.todo == [] && q.Valid(jobs, inbox, msg) && Tallied(e, q) && Blocked(q.other) == 0 && c.matchq <= q.seen
    requires e.dropped == c.dropped && e.kept == c.kept && e.queued == c.queued && e.lastIdx == c.lastIdx
    requires |e.taken| == |c.taken| + If(q.used) - If(used0) && (q.used ==> used0 || msg.Some?)
    ensures Delivered(c, used0, AfterDeliver(e.(matchq := c.matchq), q), q.used, msg, jobs, inbox)
  {
    hide Pass.Valid, Pass.Sound, Pass.Balanced, Blocked, Tallied, OwnReplies, Child.Counted;
    var d := e.(matchq := c.matchq);
    TalliedAlike(e, q, c.matchq);
    DeliverTallied(d, q);
    assert q.seen == c.matchq + q.seen[|c.matchq|..];
    DeliverEnds(c.matchq, q.seen[|c.matchq|..], q.other, q, AfterDeliver(d, q), jobs, inbox, msg);
  }

  lemma DeliverTally(c: Child, used: bool)
    requires c.Counted() && c.blocked == Blocked(c.matchq) && OwnReplies(c.taken)
    ensures Tallied(c, Pass(c.matchq, c.deliverq, [], c.outbox, c.serial, used)) && Blocked([]) == 0
    ensures c.lastIdx == c.queued + c.dropped + c.kept
  {
    hide OwnReplies;
    BlockedAll([]);
  }

  lemma TalliedAlike(c: Child, p: Pass, q: seq<Mctx>)
    requires Tallied(c, p)
    ensures Tallied(c.(matchq := q), p)
  {
    hide OwnReplies, Blocked;
  }

  /** A pass over the match queue. Not ok means that the fetch is aborted. */
  method FetchMatch(c: Child, msg: Option<ToChild>, choices: nat -> Choice, keepAll: bool, ghost jobs: seq<Token>, ghost inbox: seq<ToChild>)
    returns (ok: bool, d: Child, used: bool)
    requires c.Start().Valid(jobs, inbox, msg) && c.Counted() && c.blocked == 0 && OwnReplies(c.taken)
    ensures ok <==> !exists m :: m in c.matchq && MatchFails(m, msg, choices(m.idx))
    ensures var r := MatchPass(c, c.Start(), msg, choices, keepAll);
            ok == r.Some? && (ok ==> d == AfterMatch(r.value.0, r.value.1) && used == r.value.1.used)
    ensures ok ==> d.Counted() && OwnReplies(d.taken) && d.blocked == Blocked(d.matchq)
    ensures ok ==> Pass(d.matchq, [], d.deliverq, d.outbox, d.serial, used).Valid(jobs, inbox, msg)
    ensures ok && used ==> msg.Some?
    ensures ok ==> |d.taken| == |c.taken| + If(used) && d.lastIdx == c.lastIdx && d.queued <= c.queued
  {
    hide Pass.Valid, Child.Counted, OwnReplies, Blocked, MatchFails, MatchStep, MatchPass, Noted;
    var p := c.Start();
    MatchPassDone(c, msg, choices, keepAll, jobs, inbox);
    d := c;
    while p.todo != []
      invariant MatchPass(d, p, msg, choices, keepAll) == MatchPass(c, c.Start(), msg, choices, keepAll)
      invariant |p.todo| <= d.queued
      decreases |p.todo|
    {
      MatchPassStep(d, p, msg, choices, keepAll);
      NotedMatch(d, p.todo[0], msg, MatchStep(p.todo[0], msg, choices(p.todo[0].idx), p.serial).0, keepAll);
      var m := p.todo[0];
      var (code, n) := MatchStep(m, msg, choices(m.idx), p.serial);
      if code == MailError {
        return false, d, p.used;
      }
      if Takes(m, msg) {
        d := d.(taken := d.taken + [(m.serial, msg.value.token.serial)]);
      }
      match code {
        case MailDone(drop, commits) =>
          if !commits {
            return false, d, p.used;
          }
          d := if drop && !keepAll then d.(dropped := d.dropped + 1, queued := d.queued - 1)
               else d.(kept := d.kept + 1, queued := d.queued - 1);
        case MailBlocked =>
          d := d.(blocked := d.blocked + 1);
        case _ =>
      }
      p := p.See(n, !code.MailMoved? && !code.MailDone?, code.MailMoved?, Takes(m, msg));
    }
    MatchPassOver(d, p, msg, choices, keepAll);
    ok, used := true, p.used;
    d := d.(matchq := p.seen, deliverq := p.other, outbox := p.outbox, serial := p.serial);
    assert Pass(d.matchq, [], d.deliverq, d.outbox, d.serial, used) == p;
  }

  /** A pass over the delivery queue, with the same message. */
  method FetchDeliver(c: Child, msg: Option<ToChild>, used0: bool, choices: nat -> Choice, ghost jobs: seq<Token>, ghost inbox: seq<ToChild>)
    returns (ok: bool, d: Child, used: bool)
    requires Pass(c.matchq, [], c.deliverq, c.outbox, c.serial, used0).Valid(jobs, inbox, msg)
    requires c.Counted() && c.blocked == Blocked(c.matchq) && OwnReplies(c.taken)
    ensures ok <==> !exists m :: m in c.deliverq && DeliverFails(m, msg, choices(m.idx))
    ensures var r := DeliverPass(c, Pass(c.matchq, c.deliverq, [], c.outbox, c.serial, used0), msg, choices);
            ok == r.Some? && (ok ==> |c.matchq| <= |r.value.1.seen| && used == r.value.1.used
                                     && d == AfterDeliver(r.value.0.(matchq := c.matchq), r.value.1))
    ensures ok ==> d.Counted() && OwnReplies(d.taken) && d.blocked == Blocked(d.matchq) + Blocked(d.deliverq)
    ensures ok ==> d.Start().Sound() && Pass([], d.matchq, d.deliverq, d.outbox, d.serial, used).Balanced(jobs, inbox, msg)
    ensures ok ==> |d.taken| == |c.taken| + If(used) - If(used0) && (used ==> used0 || msg.Some?)
    ensures ok && msg.Some? && msg.value.Reply? ==> used
    ensures ok ==> d.dropped == c.dropped && d.kept == c.kept && d.queued == c.queued
  {
    hide Pass.Valid, Pass.Sound, Pass.Balanced, Child.Counted, OwnReplies, Blocked, DeliverFails, DeliverStep, DeliverPass, Noted;
    var p := Pass(c.matchq, c.deliverq, [], c.outbox, c.serial, used0);
    DeliverPassDone(c, msg, used0, choices, jobs, inbox);
    DeliverPassFails(c, p, msg, choices);
    d := c;
    while p.todo != []
      invariant DeliverPass(d, p, msg, choices) == DeliverPass(c, Pass(c.matchq, c.deliverq, [], c.outbox, c.serial, used0), msg, choices)
      invariant c.matchq <= p.seen && d.matchq == c.matchq
      decreases |p.todo|
    {
      DeliverPassStep(d, p, msg, choices);
      NotedDelivery(d, p.todo[0], msg, DeliverStep(p.todo[0], msg, choices(p.todo[0].idx), p.serial).0);
      var m := p.todo[0];
      var (code, n) := DeliverStep(m, msg, choices(m.idx), p.serial);
      if code == MailError {
        return false, d, p.used;
      }
      if Takes(m, msg) {
        d := d.(taken := d.taken + [(m.serial, msg.value.token.serial)]);
      }
      if code == MailBlocked {
        d := d.(blocked := d.blocked + 1);
      }
      p := p.See(n, code != MailMoved, code == MailMoved, Takes(m, msg));
    }
    DeliverPassOver(d, p, msg, choices);
    ok, used := true, p.used;
    d := d.(matchq := c.matchq + p.other, deliverq := p.seen[|c.matchq|..], outbox := p.outbox, serial := p.serial);
  }

  lemma NotedDelivery(c: Child, m: Mctx, msg: Option<ToChild>, code: Code)
    requires !code.MailDone?
    ensures var d := if Takes(m, msg) then c.(taken := c.taken + [(m.serial, msg.value.token.serial)]) else c;
            Noted(c, m, msg, code, false) == if code == MailBlocked then d.(blocked := d.blocked + 1) else d
  {
  }

  lemma NotedMatch(c: Child, m: Mctx, msg: Option<ToChild>, code: Code, keepAll: bool)
    ensures var d := if Takes(m, msg) then c.(taken := c.taken + [(m.serial, msg.value.token.serial)]) else c;
            Noted(c, m, msg, code, keepAll)
            == if code == MailBlocked then d.(blocked := d.blocked + 1)
               else if !code.MailDone? || d.queued == 0 then d
               else if code.drop && !keepAll then d.(dropped := d.dropped + 1, queued := d.queued - 1)
               else d.(kept := d.kept + 1, queued := d.queued - 1)
  {
  }

  /** The match queue, all seen, and the delivery queue to come. */
  lemma DeliverStarts(c: Child, used: bool, jobs: seq<Token>, inbox: seq<ToChild>, msg: Option<ToChild>)
    requires Pass(c.matchq, [], c.deliverq, c.outbox, c.serial, used).Valid(jobs, inbox, msg)
    ensures Pass(c.matchq, c.deliverq, [], c.outbox, c.serial, used).Valid(jobs, inbox, msg)
  {
    var p, q := Pass(c.matchq, [], c.deliverq, c.outbox, c.serial, used), Pass(c.matchq, c.deliverq, [], c.outbox, c.serial, used);
    forall t ensures Waits(q.seen, t) + Waits(q.todo, t) + Waits(q.other, t) == Waits(p.seen, t) + Waits(p.todo, t) + Waits(p.other, t) {
    }
    assert q.Balanced(jobs, inbox, msg);
    forall i ensures Bearers(q.seen, i) + Bearers(q.todo, i) + Bearers(q.other, i) <= 1 {
      assert Bearers(p.seen, i) + Bearers(p.todo, i) + Bearers(p.other, i) <= 1;
    }
  }

  /** When the delivery pass ends, the message has been taken, and the queues hold what the pass has. */
  lemma DeliverEnds(matchq: seq<Mctx>, seen: seq<Mctx>, other: seq<Mctx>, p: Pass, d: Child,
                    jobs: seq<Token>, inbox: seq<ToChild>, msg: Option<ToChild>)
    requires p.Valid(jobs, inbox, msg) && p.seen == matchq + seen && p.todo == [] && p.other == other
    requires d.matchq == matchq + other && d.deliverq == seen && d.outbox == p.outbox && d.serial == p.serial
    requires Blocked(other) == 0
    ensures d.Start().Sound() && Pass([], d.matchq, d.deliverq, d.outbox, d.serial, p.used).Balanced(jobs, inbox, msg)
    ensures msg.Some? && msg.value.Reply? ==> p.used
  {
    forall t
      ensures Waits([], t) + Waits(d.matchq, t) + Waits(d.deliverq, t) ==
              Asked(d.outbox, t) + Working(jobs, t) + Answered(inbox, t) + Hand(msg, p.used, t)
    {
      WaitsAppend(matchq, seen, t, 0);
      WaitsAppend(matchq, other, t, 0);
      assert Waits(p.todo, t) == 0;
    }
    forall i ensures Bearers([], i) + Bearers(d.matchq, i) + Bearers(d.deliverq, i) <= 1 {
      WaitsAppend(matchq, seen, Token(0, 0), i);
      WaitsAppend(matchq, other, Token(0, 0), i);
      assert Bearers(p.todo, i) == 0;
    }
    BlockedAll(other);
    if msg.Some? && msg.value.Reply? {
      WaitsIn(other, msg.value.token);
    }
  }

  // ---------------------------------------------------------------- the whole system

  /** Leaving: the exit message is sent and its answer not read; Gone: it is read. */
  datatype Phase = Running | Leaving | Gone | Aborted

  /**
   * The fetch child, the deliver children at work (each by the request it was started for), and the messages on
   * their way to the child. Received counts the replies the child has read.
   */
  datatype System = System(child: Child, jobs: seq<Token>, inbox: seq<ToChild>, holding: bool, complete: bool,
                           phase: Phase, received: nat)
  {
    /** What holds until the fetch is aborted: every reply read has been taken by the request it answers. */
    ghost predicate Valid(high: nat) {
      && (phase != Aborted ==> child.Counted() && child.queued <= high && OwnReplies(child.taken) && |child.taken| == received)
      && (phase == Running ==> child.Start().Sound() && OnlyReplies(inbox) && child.Start().Balanced(jobs, inbox, None))
      && (phase == Leaving ==> child.queued == 0 && Drained() && |child.outbox| + |inbox| == 1)
      && (phase == Gone ==> child.queued == 0 && Drained() && child.outbox == [] && inbox == [])
    }

    /** Nothing is under way but the exit message and its answer. */
    ghost predicate Drained() {
      && jobs == []
      && (forall r :: r in child.outbox ==> r == ExitRequest)
      && (forall r :: r in inbox ==> r == ExitReply)
    }
  }

  function NewChild(): Child {
    Child([], [], 0, 0, 0, 0, 0, [], 0, [])
  }

  lemma NewSystemValid(high: nat)
    ensures System(NewChild(), [], [], false, false, Running, 0).Valid(high)
  {
    hide System.Valid, Pass.Balanced, Pass.Sound;
    var c := NewChild();
    EmptyPass(c.Start());
    NewIsValid(high);
  }

  lemma EmptyPass(p: Pass)
    requires p.seen == [] && p.todo == [] && p.other == [] && p.outbox == []
    ensures p.Sound() && p.Balanced([], [], None)
  {
  }

  lemma NewIsValid(high: nat)
    requires NewChild().Start().Sound() && NewChild().Start().Balanced([], [], None)
    ensures System(NewChild(), [], [], false, false, Running, 0).Valid(high)
  {
    hide System.Valid, Child.Counted, OwnReplies, OnlyReplies, Pass.Balanced, Pass.Sound;
    NothingCounted(NewChild());
    NoReplies([], []);
    RunningValid(System(NewChild(), [], [], false, false, Running, 0), high);
  }

  lemma NothingCounted(c: Child)
    requires c.matchq == [] && c.deliverq == [] && c.queued == c.dropped == c.kept == c.lastIdx == 0
    ensures c.Counted()
  {
  }

  lemma NoReplies(taken: seq<(nat, nat)>, inbox: seq<ToChild>)
    requires taken == [] && inbox == []
    ensures OwnReplies(taken) && OnlyReplies(inbox)
  {
  }

  lemma RunningValid(s: System, high: nat)
    requires s.phase == Running && s.child.Counted() && s.child.queued <= high && OwnReplies(s.child.taken) && |s.child.taken| == s.received
    requires s.child.Start().Sound() && OnlyReplies(s.inbox) && s.child.Start().Balanced(s.jobs, s.inbox, None)
    ensures s.Valid(high)
  {
    hide Child.Counted, OwnReplies, OnlyReplies, Pass.Balanced, Pass.Sound;
  }

  /** A waiting mail has exactly one token among requests on the way, children at work and replies on the way. */
  lemma OneToken(s: System, high: nat, m: Mctx)
    requires s.Valid(high) && s.phase == Running && (m in s.child.matchq || m in s.child.deliverq)
    ensures var t := Token(m.idx, m.serial);
            Asked(s.child.outbox, t) + Working(s.jobs, t) + Answered(s.inbox, t) == If(m.msgid != 0)
    ensures forall serial: nat :: serial != m.serial ==>
              var t := Token(m.idx, serial);
              Asked(s.child.outbox, t) + Working(s.jobs, t) + Answered(s.inbox, t) == 0
  {
    var p := s.child.Start();
    var q := s.child.matchq + s.child.deliverq;
    forall serial: nat
      ensures var t := Token(m.idx, serial);
              Asked(s.child.outbox, t) + Working(s.jobs, t) + Answered(s.inbox, t) == If(m.msgid != 0 && serial == m.serial)
    {
      var t := Token(m.idx, serial);
      assert Waits(p.seen, t) + Waits(p.todo, t) + Waits(p.other, t) ==
             Asked(p.outbox, t) + Working(s.jobs, t) + Answered(s.inbox, t) + Hand(None, false, t);
      assert Bearers(p.seen, m.idx) + Bearers(p.todo, m.idx) + Bearers(p.other, m.idx) <= 1;
      WaitsAppend(s.child.matchq, s.child.deliverq, t, m.idx);
      SoleBearer(q, m, t);
    }
  }

  /** The tokens under a number that one mail has alone are that mail's. */
  lemma {:induction false} SoleBearer(q: seq<Mctx>, m: Mctx, t: Token)
    requires m in q && t.id == m.idx && Bearers(q, m.idx) <= 1
    ensures Waits(q, t) == One(m, t)
  {
    if q[0] == m {
      NoBearer(q[1..], t);
    } else {
      BearersIn(q[1..], m);
      SoleBearer(q[1..], m, t);
    }
  }

  lemma {:induction false} NoBearer(q: seq<Mctx>, t: Token)
    requires Bearers(q, t.id) == 0
    ensures Waits(q, t) == 0
  {
    if q != [] {
      NoBearer(q[1..], t);
    }
  }

  /** With no mail queued nothing is outstanding anywhere. */
  lemma NothingOutstanding(s: System, high: nat)
    requires s.Valid(high) && s.phase == Running && s.child.queued == 0
    ensures s.jobs == [] && s.child.outbox == [] && s.inbox == []
  {
    var p := s.child.Start();
    forall t ensures Asked(s.child.outbox, t) == 0 && Working(s.jobs, t) == 0 && Answered(s.inbox, t) == 0 {
      assert Waits(p.seen, t) + Waits(p.todo, t) + Waits(p.other, t) ==
             Asked(p.outbox, t) + Working(s.jobs, t) + Answered(s.inbox, t) + Hand(None, false, t);
    }
    SomeToken(s.child.outbox, s.jobs, s.inbox);
  }

  /** Where there is a request, a child at work or a reply, there is a token. */
  lemma SomeToken(out: seq<ToParent>, jobs: seq<Token>, inbox: seq<ToChild>)
    requires OnlyRequests(out) && OnlyReplies(inbox)
    ensures out != [] ==> exists t :: Asked(out, t) > 0
    ensures jobs != [] ==> exists t :: Working(jobs, t) > 0
    ensures inbox != [] ==> exists t :: Answered(inbox, t) > 0
  {
    if out != [] {
      assert out[0] in out;
      assert Asked(out, out[0].token) > 0;
    }
    if jobs != [] {
      assert Working(jobs, jobs[0]) > 0;
    }
    if inbox != [] {
      assert inbox[0] in inbox;
      assert Answered(inbox, inbox[0].token) > 0;
    }
  }

  /** When all mails wait, something is under way that will answer one of them. */
  lemma SomethingUnderWay(s: System, high: nat, m: Mctx)
    requires s.Valid(high) && s.phase == Running && (m in s.child.matchq || m in s.child.deliverq) && m.msgid != 0
    ensures s.jobs != [] || s.child.outbox != [] || s.inbox != []
  {
    OneToken(s, high, m);
  }

  // ---- what may happen

  datatype Event =
    | ChildTurn(arrives: bool, matching: nat -> Choice, delivering: nat -> Choice, handler: Handler, sockets: bool)
    | ParentReads(fails: bool)
    | DeliverDone(which: nat)
    | ChildReadsLast

  // ---- one turn of the loop of the fetch child

  /** What the fetch method of an account answers; a mail may be too big (and then dropped at once, or not) or empty. */
  datatype Handler = HandlerError | HandlerAgain | HandlerBlock | HandlerExit | HandlerMail(size: Size)

  datatype Size = Normal | Empty | Oversize(dropped: bool)

  /** How a turn ends: without polling, or in a poll that may sleep, or one that only looks. */
  datatype Poll = NoPoll | MaySleep | OnlyLook

  /** The message in hand is what was first in the queue, and it is for one of the mails. */
  lemma ReadsReply(s: System, high: nat)
    requires s.Valid(high) && s.phase == Running && s.inbox != []
    ensures s.child.Start().Valid(s.jobs, s.inbox[1..], Some(s.inbox[0])) && s.inbox[0].Reply? && OnlyReplies(s.inbox[1..])
  {
    hide Bearers, Asked, Working;
    assert s.inbox[0] in s.inbox;
    var p, msg := s.child.Start(), Some(s.inbox[0]);
    forall t
      ensures Waits(p.seen, t) + Waits(p.todo, t) + Waits(p.other, t) ==
              Asked(p.outbox, t) + Working(s.jobs, t) + Answered(s.inbox[1..], t) + Hand(msg, p.used, t)
    {
      assert Waits(p.seen, t) + Waits(p.todo, t) + Waits(p.other, t) ==
             Asked(p.outbox, t) + Working(s.jobs, t) + Answered(s.inbox, t) + Hand(None, p.used, t);
    }
    assert p.Balanced(s.jobs, s.inbox[1..], msg);
    var t := s.inbox[0].token;
    assert Answered(s.inbox, t) > 0 && Waits([], t) == 0;
    assert Waits(p.seen, t) + Waits(p.todo, t) + Waits(p.other, t) ==
           Asked(p.outbox, t) + Working(s.jobs, t) + Answered(s.inbox, t) + Hand(None, p.used, t);
  }

  /** With no message there is nothing to take. */
  lemma ReadsNothing(s: System, high: nat)
    requires s.Valid(high) && s.phase == Running
    ensures s.child.Start().Valid(s.jobs, s.inbox, None)
  {
    hide Pass.Balanced, Pass.Sound;
  }

  /** After both passes the message is spent. */
  lemma PassesDone(d: Child, jobs: seq<Token>, inbox: seq<ToChild>, msg: Option<ToChild>, used: bool)
    requires d.Start().Sound() && Pass([], d.matchq, d.deliverq, d.outbox, d.serial, used).Balanced(jobs, inbox, msg)
    requires msg == None || used
    ensures d.Start().Balanced(jobs, inbox, None)
  {
    hide Waits, Bearers, Asked, Working, Answered;
    var p := Pass([], d.matchq, d.deliverq, d.outbox, d.serial, used);
    forall t
      ensures Waits([], t) + Waits(d.matchq, t) + Waits(d.deliverq, t) ==
              Asked(d.outbox, t) + Working(jobs, t) + Answered(inbox, t) + Hand(None, false, t)
    {
      assert Waits(p.seen, t) + Waits(p.todo, t) + Waits(p.other, t) ==
             Asked(p.outbox, t) + Working(jobs, t) + Answered(inbox, t) + Hand(msg, used, t);
    }
  }

  lemma {:induction false} NoneNumbered(q: seq<Mctx>, i: nat)
    requires forall m :: m in q ==> m.idx < i
    ensures Bearers(q, i) == 0
  {
    if q != [] {
      assert q[0] in q;
      NoneNumbered(q[1..], i);
    }
  }

  /** A new mail gets a number no other has, and waits for nothing. */
  function Enqueued(s: System): System {
    var i := s.child.lastIdx + 1;
    s.(child := s.child.(matchq := s.child.matchq + [Mctx(i, 0, 0)], lastIdx := i, queued := s.child.queued + 1))
  }

  lemma EnqueuedValid(s: System, high: nat)
    requires s.Valid(high) && s.phase == Running && s.child.queued < high
    ensures Enqueued(s).Valid(high)
  {
    hide Waits, Asked, Working, Answered, Bearers;
    var r := Enqueued(s);
    var p, q, m := s.child.Start(), r.child.Start(), Mctx(r.child.lastIdx, 0, 0);
    forall t
      ensures Waits(q.seen, t) + Waits(q.todo, t) + Waits(q.other, t) ==
              Asked(q.outbox, t) + Working(r.jobs, t) + Answered(r.inbox, t) + Hand(None, q.used, t)
    {
      assert Waits(p.seen, t) + Waits(p.todo, t) + Waits(p.other, t) ==
             Asked(p.outbox, t) + Working(s.jobs, t) + Answered(s.inbox, t) + Hand(None, p.used, t);
      PutLast(p.todo, m, t, 0);
    }
    assert q.Balanced(r.jobs, r.inbox, None);
    forall i ensures Bearers(q.seen, i) + Bearers(q.todo, i) + Bearers(q.other, i) <= 1 {
      NoneNumbered(p.seen, m.idx);
      NoneNumbered(p.todo, m.idx);
      NoneNumbered(p.other, m.idx);
      PutLast(p.todo, m, Token(0, 0), i);
    }
  }

  /** The message a turn reads, and the system without it. */
  function Incoming(s: System, arrives: bool): (Option<ToChild>, System) {
    if arrives && s.inbox != [] then (Some(s.inbox[0]), s.(inbox := s.inbox[1..], received := s.received + 1)) else (None, s)
  }

  /** The first half of a turn: all mails are tried with the message that has come; none if one fails. */
  function MailsTried(s: System, arrives: bool, matching: nat -> Choice, delivering: nat -> Choice, keepAll: bool): Option<System> {
    var (msg, r) := Incoming(s, arrives);
    var c := s.child.(blocked := 0);
    var m := MatchPass(c, c.Start(), msg, matching, keepAll);
    if m == None then None
    else
      var d := AfterMatch(m.value.0, m.value.1);
      var p := DeliverPass(d, Pass(d.matchq, d.deliverq, [], d.outbox, d.serial, m.value.1.used), msg, delivering);
      if p == None || |d.matchq| > |p.value.1.seen| then None
      else Some(r.(child := AfterDeliver(p.value.0.(matchq := d.matchq), p.value.1)))
  }

  lemma MailsTriedKeeps(s: System, high: nat, arrives: bool, matching: nat -> Choice, delivering: nat -> Choice, keepAll: bool)
    requires s.Valid(high) && s.phase == Running
    ensures var (msg, _) := Incoming(s, arrives);
            var t := MailsTried(s, arrives, matching, delivering, keepAll);
            var c := s.child.(blocked := 0);
            var m := MatchPass(c, c.Start(), msg, matching, keepAll);
            && (m == None <==> exists x :: x in s.child.matchq && MatchFails(x, msg, matching(x.idx)))
            && (m.Some? ==> (t == None <==> exists x :: x in AfterMatch(m.value.0, m.value.1).deliverq && DeliverFails(x, msg, delivering(x.idx))))
            && (m == None ==> t == None)
            && (t.Some? ==> var r := t.value;
                  && r.Valid(high) && r.phase == Running && r.complete == s.complete && r.holding == s.holding
                  && r.child.lastIdx == s.child.lastIdx
                  && r.received == s.received + If(arrives && s.inbox != [])
                  && r.inbox == (if arrives && s.inbox != [] then s.inbox[1..] else s.inbox)
                  && r.child.blocked == Blocked(r.child.matchq) + Blocked(r.child.deliverq))
  {
    hide Pass.Valid, Pass.Sound, Pass.Balanced, Blocked, OwnReplies, MatchPass, DeliverPass, MatchFails, DeliverFails;
    var (msg, r) := Incoming(s, arrives);
    if arrives && s.inbox != [] {
      ReadsReply(s, high);
    } else {
      ReadsNothing(s, high);
    }
    var c := s.child.(blocked := 0);
    MatchPassDone(c, msg, matching, keepAll, r.jobs, r.inbox);
    var m := MatchPass(c, c.Start(), msg, matching, keepAll);
    if m.Some? {
      var d := AfterMatch(m.value.0, m.value.1);
      var used := m.value.1.used;
      DeliverPassDone(d, msg, used, delivering, r.jobs, r.inbox);
      DeliverPassFails(d, Pass(d.matchq, d.deliverq, [], d.outbox, d.serial, used), msg, delivering);
      var p := DeliverPass(d, Pass(d.matchq, d.deliverq, [], d.outbox, d.serial, used), msg, delivering);
      if p.Some? {
        PassesDone(AfterDeliver(p.value.0.(matchq := d.matchq), p.value.1), r.jobs, r.inbox, msg, p.value.1.used);
      }
    }
  }

  /** The fetch method ends the fetch: by an error, or a mail that is empty or oversize and not to be dropped. */
  predicate HandlerFails(handler: Handler) {
    handler == HandlerError || handler == HandlerMail(Empty) || handler == HandlerMail(Oversize(false))
  }

  /** The second half of a turn: ask the fetch method for more if there is room, leave if all is done, or poll. */
  function Asking(s: System, low: nat, high: nat, handler: Handler, sockets: bool): (System, Poll) {
    var holding := if s.child.queued >= high then true else if s.child.queued <= low then false else s.holding;
    var r := s.(holding := holding);
    if holding || s.complete then Polling(r, sockets)
    else
      match handler
      case HandlerError => (r.(phase := Aborted), NoPoll)
      case HandlerExit => Polling(r.(complete := true), sockets)
      case HandlerAgain => (r, NoPoll)
      case HandlerBlock => Polling(r, sockets)
      case HandlerMail(Normal) => (Enqueued(r), NoPoll)
      case HandlerMail(Empty) => (r.(phase := Aborted), NoPoll)
      case HandlerMail(Oversize(dropped)) => (if dropped then r else r.(phase := Aborted), NoPoll)
  }

  function Polling(s: System, sockets: bool): (System, Poll) {
    if s.complete && s.child.queued == 0
    then (s.(child := s.child.(outbox := s.child.outbox + [ExitRequest]), phase := Leaving), NoPoll)
    else if (s.child.queued == 0 && !sockets) || (s.child.queued != 0 && s.child.blocked != s.child.queued) then (s, OnlyLook)
    else (s, MaySleep)
  }

  /** One turn of the loop of the fetch child. */
  function TurnStep(s: System, low: nat, high: nat, keepAll: bool, e: Event): (System, Poll)
    requires e.ChildTurn?
  {
    var t := MailsTried(s, e.arrives, e.matching, e.delivering, keepAll);
    if t == None then (s.(phase := Aborted), NoPoll) else Asking(t.value, low, high, e.handler, e.sockets)
  }

  /** The first half of a turn: read a message if there is one, and try every mail with it. */
  method TryMails(s: System, ghost high: nat, arrives: bool, matching: nat -> Choice, delivering: nat -> Choice, keepAll: bool)
    returns (ok: bool, r: System)
    requires s.Valid(high) && s.phase == Running
    ensures var t := MailsTried(s, arrives, matching, delivering, keepAll); ok == t.Some? && (ok ==> r == t.value)
    ensures ok ==> r.Valid(high) && r.phase == Running && r.complete == s.complete && r.holding == s.holding && r.child.lastIdx == s.child.lastIdx
    ensures ok ==> r.received == s.received + If(arrives && s.inbox != [])
    ensures ok ==> r.inbox == if arrives && s.inbox != [] then s.inbox[1..] else s.inbox
    ensures ok ==> r.child.blocked == Blocked(r.child.matchq) + Blocked(r.child.deliverq)
  {
    hide Pass.Valid, Pass.Sound, Pass.Balanced, Blocked, OwnReplies, MatchPass, DeliverPass, MatchFails, DeliverFails;
    MailsTriedKeeps(s, high, arrives, matching, delivering, keepAll);
    r := s;
    var msg: Option<ToChild> := None;
    if arrives && s.inbox != [] {
      ReadsReply(s, high);
      msg := Some(s.inbox[0]);
      r := r.(inbox := s.inbox[1..], received := s.received + 1);
    } else {
      ReadsNothing(s, high);
    }
    var d, used;
    ok, d, used := FetchMatch(s.child.(blocked := 0), msg, matching, keepAll, r.jobs, r.inbox);
    if !ok {
      return;
    }
    ok, d, used := FetchDeliver(d, msg, used, delivering, r.jobs, r.inbox);
    if ok {
      r := r.(child := d);
    }
  }

  /** What holds after the second half of a turn. */
  ghost predicate TurnEnds(s: System, high: nat, handler: Handler, sockets: bool, r: System, poll: Poll) {
    && r.Valid(high) && r.phase in {Running, Leaving, Aborted} && r.received == s.received
    && (r.phase != Leaving ==> r.inbox == s.inbox)
    && (r.phase == Running && poll != NoPoll && r.child.queued != 0 ==>
          (poll == MaySleep <==> forall m :: m in r.child.matchq || m in r.child.deliverq ==> m.msgid != 0))
    && (r.phase == Running && poll != NoPoll && r.child.queued == 0 ==> (poll == MaySleep <==> sockets))
    && (r.child.lastIdx > s.child.lastIdx ==> poll == NoPoll && r.child.lastIdx == s.child.lastIdx + 1)
    && (r.phase == Leaving ==> r.child.outbox == [ExitRequest] && r.inbox == [] && r.jobs == [] && r.complete)
    && (r.phase == Aborted <==> !r.holding && !s.complete && HandlerFails(handler))
  }

  /** The fetch method has been asked: what its answer does, after all mails have been tried. */
  ghost predicate Obeyed(s: System, handler: Handler, r: System, poll: Poll) {
    match handler
    case HandlerError => r.phase == Aborted
    case HandlerAgain => r.phase == Running && !r.complete && r.child == s.child && poll == NoPoll
    case HandlerBlock => r.phase == Running && !r.complete && r.child == s.child && poll != NoPoll
    case HandlerExit => r.complete && r.child.queued == s.child.queued && if s.child.queued == 0 then r.phase == Leaving else r.phase == Running && r.child == s.child && poll != NoPoll
    case HandlerMail(Normal) =>
      && r.phase == Running && !r.complete && poll == NoPoll
      && r.child.lastIdx == s.child.lastIdx + 1 && r.child.queued == s.child.queued + 1
      && r.child.matchq == s.child.matchq + [Mctx(s.child.lastIdx + 1, 0, 0)] && r.child.deliverq == s.child.deliverq
    case HandlerMail(Empty) => r.phase == Aborted
    case HandlerMail(Oversize(dropped)) => if dropped then r.phase == Running && !r.complete && r.child == s.child && poll == NoPoll else r.phase == Aborted
  }

  /** It has not been asked: nothing is queued, and the fetch is left exactly if it is complete and no mail is queued. */
  ghost predicate Unasked(s: System, r: System, poll: Poll) {
    && r.complete == s.complete && r.child.lastIdx == s.child.lastIdx
    && if s.complete && s.child.queued == 0 then r.phase == Leaving else r.phase == Running && r.child == s.child && poll != NoPoll
  }

  /** Too many mails queued, or not few enough since there were. */
  lemma AskingDoes(s: System, low: nat, high: nat, handler: Handler, sockets: bool)
    requires s.phase == Running
    ensures var (r, poll) := Asking(s, low, high, handler, sockets);
            && (r.holding <==> s.child.queued >= high || (s.child.queued > low && s.holding))
            && if r.holding || s.complete then Unasked(s, r, poll) else Obeyed(s, handler, r, poll)
  {
  }

  lemma AskingKeeps(s: System, low: nat, high: nat, handler: Handler, sockets: bool)
    requires s.Valid(high) && s.phase == Running && s.child.blocked == Blocked(s.child.matchq) + Blocked(s.child.deliverq)
    ensures var (r, poll) := Asking(s, low, high, handler, sockets); TurnEnds(s, high, handler, sockets, r, poll)
  {
    hide System.Valid, Polling, Blocked, Enqueued;
    var holding := if s.child.queued >= high then true else if s.child.queued <= low then false else s.holding;
    var r := s.(holding := holding);
    FlagsValid(s, high, holding, s.complete);
    FlagsValid(s, high, holding, true);
    AbortedValid(r, high);
    if holding || s.complete || handler == HandlerBlock {
      PollingKeeps(r, high, sockets);
    } else if handler == HandlerExit {
      PollingKeeps(r.(complete := true), high, sockets);
    } else if handler == HandlerMail(Normal) {
      EnqueuedValid(r, high);
      EnqueuedIs(r);
    }
  }

  lemma EnqueuedIs(s: System)
    ensures var r := Enqueued(s);
            && r.phase == s.phase && r.received == s.received && r.inbox == s.inbox && r.holding == s.holding
            && r.child.lastIdx == s.child.lastIdx + 1
  {
  }

  lemma FlagsValid(s: System, high: nat, holding: bool, complete: bool)
    requires s.Valid(high)
    ensures s.(holding := holding, complete := complete).Valid(high)
  {
    hide Pass.Balanced, Pass.Sound, OwnReplies;
  }

  lemma PollingKeeps(s: System, high: nat, sockets: bool)
    requires s.Valid(high) && s.phase == Running && s.child.blocked == Blocked(s.child.matchq) + Blocked(s.child.deliverq)
    ensures var (r, poll) := Polling(s, sockets);
            && r.Valid(high) && r.phase in {Running, Leaving} && r.received == s.received && r.child.lastIdx == s.child.lastIdx
            && r.holding == s.holding && r.complete == s.complete && (r.phase == Running ==> r == s)
            && (r.phase == Running && poll != NoPoll && r.child.queued != 0 ==>
                  (poll == MaySleep <==> forall m :: m in r.child.matchq || m in r.child.deliverq ==> m.msgid != 0))
            && (r.phase == Running && poll != NoPoll && r.child.queued == 0 ==> (poll == MaySleep <==> sockets))
            && (r.phase == Leaving ==> r.child.outbox == [ExitRequest] && r.inbox == [] && r.jobs == [] && r.complete)
  {
    hide Pass.Balanced, Pass.Sound, OnlyRequests, OnlyReplies, Proper, OwnReplies, Blocked;
    BlockedAll(s.child.matchq);
    BlockedAll(s.child.deliverq);
    if s.child.queued == 0 {
      NothingOutstanding(s, high);
    }
  }

  /** Ask the fetch method for more if there is room, leave if all is done, or poll. */
  method AskFetch(s: System, low: nat, high: nat, handler: Handler, sockets: bool) returns (r: System, poll: Poll)
    ensures (r, poll) == Asking(s, low, high, handler, sockets)
  {
    r, poll := s, NoPoll;
    var holding := s.holding;
    if r.child.queued <= low {
      holding := false;
    }
    if r.child.queued >= high {
      holding := true;
    }
    r := r.(holding := holding);
    if !holding && !s.complete {
      match handler {
        case HandlerError =>
          return r.(phase := Aborted), poll;
        case HandlerExit =>
          r := r.(complete := true);
        case HandlerAgain =>
          return;
        case HandlerBlock =>
        case HandlerMail(Normal) =>
          return Enqueued(r), poll;
        case HandlerMail(Empty) =>
          return r.(phase := Aborted), poll;
        case HandlerMail(Oversize(dropped)) =>
          return if dropped then r else r.(phase := Aborted), poll;
      }
    }
    if r.complete && r.child.queued == 0 {
      r := r.(child := r.child.(outbox := r.child.outbox + [ExitRequest]), phase := Leaving);
      return;
    }
    poll := MaySleep;
    if (r.child.queued == 0 && !sockets) || (r.child.queued != 0 && r.child.blocked != r.child.queued) {
      poll := OnlyLook;
    }
  }

  /** One turn: read a message, try all mails, ask the fetch method for more if there is room, and poll. */
  method Round(s: System, low: nat, high: nat, arrives: bool, matching: nat -> Choice, delivering: nat -> Choice,
               keepAll: bool, handler: Handler, sockets: bool)
    returns (r: System, poll: Poll)
    requires s.Valid(high) && s.phase == Running
    ensures (r, poll) == TurnStep(s, low, high, keepAll, ChildTurn(arrives, matching, delivering, handler, sockets))
    ensures r.Valid(high) && r.phase in {Running, Leaving, Aborted}
    // The fetch is aborted exactly if a mail fails, or the fetch method is asked and fails.
    ensures r.phase == Aborted <==>
              || MailsTried(s, arrives, matching, delivering, keepAll) == None
              || (!r.holding && !s.complete && HandlerFails(handler))
    // A reply that has come is read, and then taken by its own request, in the same turn.
    ensures r.phase != Aborted ==> r.received == s.received + If(arrives && s.inbox != [])
    ensures r.phase != Aborted && arrives && s.inbox != [] && r.phase != Leaving ==> r.inbox == s.inbox[1..]
    // A poll may sleep exactly if there is something to wake it: all mails wait, or none is queued and there are sockets.
    ensures r.phase == Running && poll != NoPoll && r.child.queued != 0 ==>
              (poll == MaySleep <==> forall m :: m in r.child.matchq || m in r.child.deliverq ==> m.msgid != 0)
    ensures r.phase == Running && poll != NoPoll && r.child.queued == 0 ==> (poll == MaySleep <==> sockets)
    // The fetch method is asked unless all is fetched, or too many mails are queued, or they have been and not few enough since.
    ensures var t := MailsTried(s, arrives, matching, delivering, keepAll);
            t.Some? ==>
              && (r.holding <==> t.value.child.queued >= high || (t.value.child.queued > low && s.holding))
              && if r.holding || s.complete then Unasked(t.value, r, poll) else Obeyed(t.value, handler, r, poll)
    ensures r.phase == Leaving ==> r.child.outbox == [ExitRequest] && r.inbox == [] && r.jobs == [] && r.complete
  {
    hide System.Valid, MailsTried, Asking, Blocked, HandlerFails, Obeyed, Unasked;
    r, poll := s, NoPoll;
    var ok;
    ok, r := TryMails(s, high, arrives, matching, delivering, keepAll);
    if !ok {
      AbortedValid(s, high);
      return s.(phase := Aborted), poll;
    }
    AskingKeeps(r, low, high, handler, sockets);
    AskingDoes(r, low, high, handler, sockets);
    r, poll := AskFetch(r, low, high, handler, sockets);
  }

  lemma AbortedValid(s: System, high: nat)
    ensures s.(phase := Aborted).Valid(high)
  {
  }

  // ---- the parent and the deliver children

  /** How often a token occurs on its way round. */
  function Going(s: System, t: Token): nat {
    Asked(s.child.outbox, t) + Working(s.jobs, t) + Answered(s.inbox, t)
  }

  /** A system that has the same mails and the same tokens elsewhere stays valid. */
  lemma SameTokens(s: System, r: System, high: nat)
    requires s.Valid(high) && s.phase == Running && r.child == s.child.(outbox := r.child.outbox)
    requires OnlyRequests(r.child.outbox) && OnlyReplies(r.inbox)
    requires r.phase == s.phase && r.received == s.received && forall t :: Going(s, t) == Going(r, t)
    ensures r.Valid(high)
  {
    hide Waits, Asked, Working, Answered, Bearers;
    var p, q := s.child.Start(), r.child.Start();
    forall t
      ensures Waits(q.seen, t) + Waits(q.todo, t) + Waits(q.other, t) ==
              Asked(q.outbox, t) + Working(r.jobs, t) + Answered(r.inbox, t) + Hand(None, q.used, t)
    {
      assert Going(s, t) == Going(r, t);
    }
    assert q.Balanced(r.jobs, r.inbox, None);
    assert q.Sound();
  }

  /** Reading a request moves its token on. */
  lemma RequestHandled(s: System, fails: bool, t: Token)
    requires s.child.outbox != []
    ensures Going(s, t) == Going(AfterRequest(s, fails), t)
  {
    var out := s.child.outbox;
    assert Asked(out, t) == If(out[0] == Request(t)) + Asked(out[1..], t);
    if out[0].Request? {
      WorkingAppend(s.jobs, [out[0].token], t);
      AnsweredAppend(s.inbox, [Reply(out[0].token)], t);
      assert [out[0].token][1..] == [] && [Reply(out[0].token)][1..] == [];
    } else {
      AnsweredAppend(s.inbox, [ExitReply], t);
      assert [ExitReply][1..] == [];
    }
  }

  /** What the parent does with a message of the fetch child. */
  function AfterRequest(s: System, fails: bool): System
    requires s.child.outbox != []
  {
    var r := s.(child := s.child.(outbox := s.child.outbox[1..]));
    match s.child.outbox[0]
    case Request(t) => if fails then r.(inbox := s.inbox + [Reply(t)]) else r.(jobs := s.jobs + [t])
    case ExitRequest => r.(inbox := s.inbox + [ExitReply])
  }

  /** The parent reads a message of the fetch child: it starts a child for a request, or fails and replies itself. */
  method ParentFetch(s: System, fails: bool, ghost high: nat) returns (r: System)
    requires s.Valid(high) && s.child.outbox != []
    ensures r == AfterRequest(s, fails)
    ensures r.Valid(high) && r.child == s.child.(outbox := s.child.outbox[1..])
    ensures match s.child.outbox[0] {
              case Request(t) => if fails then r.inbox == s.inbox + [Reply(t)] && r.jobs == s.jobs
                                 else r.jobs == s.jobs + [t] && r.inbox == s.inbox
              case ExitRequest => r.inbox == s.inbox + [ExitReply] && r.jobs == s.jobs
            }
  {
    var msg := s.child.outbox[0];
    r := s.(child := s.child.(outbox := s.child.outbox[1..]));
    match msg {
      case Request(t) =>
        if fails {
          r := r.(inbox := s.inbox + [Reply(t)]);
        } else {
          r := r.(jobs := s.jobs + [t]);
        }
      case ExitRequest =>
        r := r.(inbox := s.inbox + [ExitReply]);
    }
    RequestKeeps(s, fails, high);
  }

  lemma RequestKeeps(s: System, fails: bool, high: nat)
    requires s.Valid(high) && s.child.outbox != []
    ensures AfterRequest(s, fails).Valid(high)
  {
    hide Asked, Working, Answered, Waits, Bearers, Pass.Balanced;
    var r := AfterRequest(s, fails);
    assert s.child.outbox[0] in s.child.outbox;
    if s.phase == Running {
      forall t ensures Going(s, t) == Going(r, t) {
        RequestHandled(s, fails, t);
      }
      SameTokens(s, r, high);
    }
  }

  /** What the parent does when a deliver child reports that it is done. */
  function AfterDelivery(s: System, k: nat): System
    requires k < |s.jobs|
  {
    s.(jobs := s.jobs[..k] + s.jobs[k + 1..], inbox := s.inbox + [Reply(s.jobs[k])])
  }

  lemma DeliveryKeeps(s: System, k: nat, high: nat)
    requires s.Valid(high) && k < |s.jobs|
    ensures AfterDelivery(s, k).Valid(high)
  {
    hide Asked, Working, Answered, Waits, Bearers, Pass.Balanced;
    if s.phase == Running {
      forall t ensures Going(s, t) == Going(AfterDelivery(s, k), t) {
        JobDone(s, k, t);
      }
      SameTokens(s, AfterDelivery(s, k), high);
    }
  }

  /** A deliver child reports that it is done; the parent sends the reply under the number of the request. */
  method ParentDeliver(s: System, k: nat, ghost high: nat) returns (r: System)
    requires s.Valid(high) && k < |s.jobs|
    ensures r == AfterDelivery(s, k)
    ensures r.Valid(high) && r.child == s.child
    ensures r.jobs == s.jobs[..k] + s.jobs[k + 1..] && r.inbox == s.inbox + [Reply(s.jobs[k])]
  {
    hide System.Valid;
    DeliveryKeeps(s, k, high);
    var t0 := s.jobs[k];
    r := s.(jobs := s.jobs[..k] + s.jobs[k + 1..], inbox := s.inbox + [Reply(t0)]);
  }

  /** A reply carries the token of the child that is done. */
  lemma JobDone(s: System, k: nat, t: Token)
    requires k < |s.jobs|
    ensures Working(s.jobs[..k] + s.jobs[k + 1..], t) + Answered(s.inbox + [Reply(s.jobs[k])], t) ==
            Working(s.jobs, t) + Answered(s.inbox, t)
  {
    var t0 := s.jobs[k];
    assert s.jobs == s.jobs[..k] + ([t0] + s.jobs[k + 1..]);
    WorkingAppend(s.jobs[..k], [t0] + s.jobs[k + 1..], t);
    WorkingAppend(s.jobs[..k], s.jobs[k + 1..], t);
    AnsweredAppend(s.inbox, [Reply(t0)], t);
    assert ([t0] + s.jobs[k + 1..])[1..] == s.jobs[k + 1..] && [Reply(t0)][1..] == [];
  }

  // ---- any run

  /** After the exit message the child reads until the answer comes: it is the first and only message. */
  method ReadLast(s: System, ghost high: nat) returns (r: System)
    requires s.Valid(high) && s.phase == Leaving && s.inbox != []
    ensures r == s.(inbox := s.inbox[1..], phase := Gone)
    ensures r.Valid(high) && r.phase == Gone && s.inbox == [ExitReply] && r.inbox == []
  {
    assert s.inbox[0] in s.inbox;
    r := s.(inbox := s.inbox[1..], phase := Gone);
  }

  /** What an event does; events that cannot happen in a state do nothing. */
  function Next(s: System, low: nat, high: nat, keepAll: bool, e: Event): System {
    match e
    case ChildTurn(_, _, _, _, _) => if s.phase == Running then TurnStep(s, low, high, keepAll, e).0 else s
    case ParentReads(fails) => if s.child.outbox != [] then AfterRequest(s, fails) else s
    case DeliverDone(k) => if k < |s.jobs| then AfterDelivery(s, k) else s
    case ChildReadsLast => if s.phase == Leaving && s.inbox != [] then s.(inbox := s.inbox[1..], phase := Gone) else s
  }

  const FRESH_SYSTEM := System(NewChild(), [], [], false, false, Running, 0)

  /** The state after some events, from the start. */
  function Reached(low: nat, high: nat, keepAll: bool, events: seq<Event>): System
    decreases |events|
  {
    if events == [] then FRESH_SYSTEM
    else Next(Reached(low, high, keepAll, events[..|events| - 1]), low, high, keepAll, events[|events| - 1])
  }

  lemma NextKeeps(s: System, low: nat, high: nat, keepAll: bool, e: Event)
    requires s.Valid(high)
    ensures Next(s, low, high, keepAll, e).Valid(high)
  {
    hide System.Valid, MailsTried, Asking, AfterRequest, Blocked;
    match e {
      case ChildTurn(arrives, matching, delivering, handler, sockets) =>
        if s.phase == Running {
          MailsTriedKeeps(s, high, arrives, matching, delivering, keepAll);
          AbortedValid(s, high);
          var t := MailsTried(s, arrives, matching, delivering, keepAll);
          if t.Some? {
            AskingKeeps(t.value, low, high, handler, sockets);
          }
        }
      case ParentReads(fails) =>
        if s.child.outbox != [] {
          RequestKeeps(s, fails, high);
        }
      case DeliverDone(k) =>
        if k < |s.jobs| {
          DeliveryKeeps(s, k, high);
        }
      case ChildReadsLast =>
        if s.phase == Leaving && s.inbox != [] {
          LastKeeps(s, high);
        }
    }
  }

  lemma LastKeeps(s: System, high: nat)
    requires s.Valid(high) && s.phase == Leaving && s.inbox != []
    ensures s.(inbox := s.inbox[1..], phase := Gone).Valid(high) && s.inbox == [ExitReply]
  {
    assert s.inbox[0] in s.inbox;
  }

  /** Every state that any events lead to is valid. */
  lemma {:induction false} ReachedValid(low: nat, high: nat, keepAll: bool, events: seq<Event>)
    ensures Reached(low, high, keepAll, events).Valid(high)
    decreases |events|
  {
    hide System.Valid, Next;
    if events == [] {
      NewSystemValid(high);
    } else {
      ReachedValid(low, high, keepAll, events[..|events| - 1]);
      NextKeeps(Reached(low, high, keepAll, events[..|events| - 1]), low, high, keepAll, events[|events| - 1]);
    }
  }

  /**
   * In every reachable state: a queued mail's number is set exactly if one token under it is on its way round, and no
   * other mail's; all mails queued so far are queued, dropped or kept, and not too many are queued; every reply read was
   * taken, once, by the request it answers; and when all is over nothing is left anywhere.
   */
  lemma InEveryState(low: nat, high: nat, keepAll: bool, events: seq<Event>)
    ensures var s := Reached(low, high, keepAll, events);
            && (s.phase != Aborted ==>
                  && s.child.queued == |s.child.matchq| + |s.child.deliverq| <= high
                  && s.child.lastIdx == s.child.queued + s.child.dropped + s.child.kept
                  && |s.child.taken| == s.received && OwnReplies(s.child.taken))
            && (s.phase == Running ==>
                  forall m, serial: nat :: m in s.child.matchq || m in s.child.deliverq ==>
                    Going(s, Token(m.idx, serial)) == If(m.msgid != 0 && serial == m.serial))
            && (s.phase == Gone ==> s.jobs == [] && s.child.outbox == [] && s.inbox == [] && s.child.lastIdx == s.child.dropped + s.child.kept)
  {
    hide Reached, Pass.Balanced, Pass.Sound, OwnReplies, Asked, Working, Answered;
    ReachedValid(low, high, keepAll, events);
    var s := Reached(low, high, keepAll, events);
    if s.phase == Running {
      forall m, serial: nat | m in s.child.matchq || m in s.child.deliverq
        ensures Going(s, Token(m.idx, serial)) == If(m.msgid != 0 && serial == m.serial)
      {
        OneToken(s, high, m);
      }
    }
  }

  /** Whatever happens in whatever order, the system is in the state these events lead to. */
  method Run(low: nat, high: nat, keepAll: bool, events: seq<Event>) returns (s: System)
    ensures s == Reached(low, high, keepAll, events) && s.Valid(high)
    ensures s.phase == Gone ==> s.jobs == [] && s.child.outbox == [] && s.inbox == [] && s.child.lastIdx == s.child.dropped + s.child.kept
    ensures s.phase != Aborted ==> |s.child.taken| == s.received && OwnReplies(s.child.taken)
  {
    hide System.Valid, TurnStep, Reached, Next, OwnReplies, AfterRequest;
    s := FRESH_SYSTEM;
    assert events[..0] == [] && Reached(low, high, keepAll, []) == s by { ReachedNothing(low, high, keepAll); }
    for i := 0 to |events|
      invariant s == Reached(low, high, keepAll, events[..i])
    {
      ReachedValid(low, high, keepAll, events[..i]);
      ReachedNext(low, high, keepAll, events, i);
      NextIs(s, low, high, keepAll, events[i]);
      match events[i] {
        case ChildTurn(arrives, matching, delivering, handler, sockets) =>
          if s.phase == Running {
            var poll;
            s, poll := Round(s, low, high, arrives, matching, delivering, keepAll, handler, sockets);
          }
        case ParentReads(fails) =>
          if s.child.outbox != [] {
            s := ParentFetch(s, fails, high);
          }
        case DeliverDone(k) =>
          if k < |s.jobs| {
            s := ParentDeliver(s, k, high);
          }
        case ChildReadsLast =>
          if s.phase == Leaving && s.inbox != [] {
            s := ReadLast(s, high);
          }
      }
    }
    assert events[..|events|] == events;
    ReachedValid(low, high, keepAll, events);
    InEveryState(low, high, keepAll, events);
  }

  lemma ReachedNothing(low: nat, high: nat, keepAll: bool)
    ensures Reached(low, high, keepAll, []) == FRESH_SYSTEM
  {
  }

  lemma ReachedNext(low: nat, high: nat, keepAll: bool, events: seq<Event>, i: nat)
    requires i < |events|
    ensures Reached(low, high, keepAll, events[..i + 1]) == Next(Reached(low, high, keepAll, events[..i]), low, high, keepAll, events[i])
  {
    hide Next;
    assert events[..i + 1][..i] == events[..i];
  }

  lemma NextIs(s: System, low: nat, high: nat, keepAll: bool, e: Event)
    ensures Next(s, low, high, keepAll, e) ==
            if e.ChildTurn? then if s.phase == Running then TurnStep(s, low, high, keepAll, e).0 else s
            else if e.ParentReads? then if s.child.outbox != [] then AfterRequest(s, e.fails) else s
            else if e.DeliverDone? then if e.which < |s.jobs| then AfterDelivery(s, e.which) else s
            else if s.phase == Leaving && s.inbox != [] then s.(inbox := s.inbox[1..], phase := Gone) else s
  {
    hide TurnStep, AfterRequest;
  }
}
