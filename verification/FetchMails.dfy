// The fetch loop over real mails: many mails are matched and delivered at once, their requests answered in any order,
// and each ends as the recursive evaluator says.

module FetchMails {
  import opened Options
  import opened Rules
  import opened MailState

  /** What a mail asks of the parent: everything the answer depends on. */
  datatype Request<S> = AskCondition(id: nat, cond: nat, mail: Mail<S>) | AskDelivery(id: nat, delivery: Delivery, mail: Mail<S>)

  datatype Status<S> = Matching | Delivering | Over(outcome: Final<S>)

  /** The parent answers what it has been asked, under the number it has been asked under. */
  function AnswerTo<S>(env: Env<S>, r: Request<S>): Msg<S> {
    match r
    case AskCondition(id, cond, mail) => Msg(id, ConditionDone(env.answer(cond, mail)))
    case AskDelivery(id, delivery, mail) => Msg(id, DeliveryDone(env.finish(delivery, mail)))
  }

  /** The request a waiting mail has outstanding. */
  function RequestOf<S(!new)>(m: MailCtx<S>): Request<S>
    requires m.Valid() && m.msgid != 0
    reads m
  {
    if m.dqueue != [] then AskDelivery(m.msgid, m.dqueue[0], m.mail) else AskCondition(m.msgid, m.expritem[0].cond, m.mail)
  }

  /** How much of a mail is left; a mail that waits has taken the step of asking. */
  datatype Progress = Ended | Left(m: Measure, awake: nat)

  predicate Lower(a: Progress, b: Progress) {
    b.Left? && (a.Left? ==> a.m.Below(b.m) || (a.m == b.m && a.awake < b.awake))
  }

  predicate NotHigher(a: Progress, b: Progress) {
    a == b || Lower(a, b)
  }

  lemma LowerStill(a: Progress, b: Progress, c: Progress)
    requires NotHigher(a, b) && NotHigher(b, c)
    ensures NotHigher(a, c) && (Lower(a, b) || Lower(b, c) ==> Lower(a, c))
  {
  }

  ghost function ProgressOf<S(!new)>(m: MailCtx<S>, st: Status<S>): Progress
    requires !st.Over? ==> m.Valid()
    reads m
  {
    if st.Over? then Ended else Left(m.Left(st.Delivering?), if m.msgid == 0 then 1 else 0)
  }

  /** A mail on its way, or at its end, still has the outcome it had ahead at first. */
  ghost predicate OnWay<S(!new)>(m: MailCtx<S>, env: Env<S>, end: Final<S>, st: Status<S>)
    reads m
  {
    m.env == env &&
    if st.Over? then st.outcome == end && end.Finished?
    else m.Valid() && m.Meaning() == end && if st.Matching? then m.dqueue == [] else m.expritem == []
  }

  predicate Waits<S(!new)>(m: MailCtx<S>, st: Status<S>)
    reads m
  {
    !st.Over? && m.msgid != 0
  }

  predicate IsFor<S>(msg: Option<Msg<S>>, id: nat) {
    msg.Some? && msg.value.id == id
  }

  /** Try one mail, on the queue it is on, with the message that has come. */
  method TryMail<S(!new)>(m: MailCtx<S>, st0: Status<S>, msg: Option<Msg<S>>, ghost end: Final<S>)
    returns (st: Status<S>, asked: Option<Request<S>>, failed: bool)
    requires OnWay(m, m.env, end, st0) && !st0.Over?
    requires Waits(m, st0) && IsFor(msg, m.msgid) ==> msg.value == AnswerTo(m.env, RequestOf(m))
    modifies m
    ensures failed ==> end.Failed?
    ensures !failed ==> OnWay(m, m.env, end, st)
    ensures old(m.msgid) != 0 && !IsFor(msg, old(m.msgid)) ==> unchanged(m) && st == st0 && asked == None && !failed
    ensures old(m.msgid) != 0 && IsFor(msg, old(m.msgid)) ==> asked == None && (failed || !Waits(m, st))
    ensures !failed && old(m.msgid) == 0 ==> (asked.Some? <==> Waits(m, st))
    ensures !failed && (old(m.msgid) == 0 || IsFor(msg, old(m.msgid))) ==> Lower(ProgressOf(m, st), old(ProgressOf(m, st0)))
    ensures !failed && asked.Some? ==> st == st0 && m.Valid() && m.msgid != 0 && asked.value == RequestOf(m)
  {
    hide MailCtx.Remaining, MailCtx.Meaning, MailCtx.Left;
    st, asked, failed := st0, None, false;
    var was := m.msgid;
    var code;
    if st0.Matching? {
      code := m.MailMatch(msg);
    } else {
      code := m.MailDeliver(msg);
    }
    match code {
      case MailContinue =>
      case MailToDeliver => st := Delivering;
      case MailToMatch => st := Matching;
      case MailError => failed := true;
      case MailDone => st := Over(Finished(m.Now()));
      case MailBlocked =>
        if was == 0 {
          asked := Some(RequestOf(m));
        }
    }
  }

  /** A mail on its way, and what it is waiting for, if it waits. */
  ghost predicate Seen<S(!new)>(m: MailCtx<S>, env: Env<S>, end: Final<S>, st: Status<S>, ask: Option<Request<S>>, left: Progress)
    reads m
  {
    && OnWay(m, env, end, st) && left == ProgressOf(m, st)
    && (Waits(m, st) <==> ask.Some?)
    && (ask.Some? ==> m.Valid() && m.msgid == m.idx && RequestOf(m) == ask.value)
  }

  /** Mails of their own, each with its own number. */
  ghost predicate Apart<S(!new)>(mails: seq<MailCtx<S>>, ids: seq<nat>) {
    && |ids| == |mails| && (forall i :: 0 <= i < |mails| ==> mails[i].idx == ids[i])
    && forall i, j :: 0 <= i < j < |mails| ==> mails[i] != mails[j] && ids[i] != ids[j]
  }

  ghost predicate AllSeen<S(!new)>(mails: seq<MailCtx<S>>, env: Env<S>, ends: seq<Final<S>>, sts: seq<Status<S>>, asks: seq<Option<Request<S>>>,
                                   lefts: seq<Progress>)
    reads mails
  {
    && |mails| == |ends| == |sts| == |asks| == |lefts|
    && forall i :: 0 <= i < |mails| ==> Seen(mails[i], env, ends[i], sts[i], asks[i], lefts[i])
  }

  // ---------------------------------------------------------------- requests and the mails that wait for them

  /** Every mail but the target has its request outstanding, and there are no others; requests go by the numbers of their mails. */
  ghost predicate Paired<S(!new)>(ids: seq<nat>, asks: seq<Option<Request<S>>>, pending: seq<Request<S>>, target: int)
    requires |ids| == |asks|
  {
    && (forall i :: 0 <= i < |asks| && asks[i].Some? ==> asks[i].value.id == ids[i])
    && (forall i :: 0 <= i < |asks| && i != target && asks[i].Some? ==> asks[i].value in pending)
    && (forall r :: r in pending ==> Wanted(asks, r, target))
    && (forall a, b :: 0 <= a < b < |pending| ==> pending[a].id != pending[b].id)
  }

  ghost predicate Wanted<S(!new)>(asks: seq<Option<Request<S>>>, r: Request<S>, target: int) {
    exists i :: 0 <= i < |asks| && i != target && asks[i] == Some(r)
  }

  predicate OnQueue<S>(st: Status<S>, deliver: bool) {
    if deliver then st.Delivering? else st.Matching?
  }

  /**
   * Before the i-th mail of a pass the message is for the target, which is still to come; or there is no target, and no
   * mail to come, and none on the queue of a later pass, waits under the number of the message.
   */
  ghost predicate Aimed<S(!new)>(ids: seq<nat>, asks: seq<Option<Request<S>>>, sts: seq<Status<S>>, env: Env<S>, msg: Option<Msg<S>>,
                                 target: int, deliver: bool, i: nat)
    requires |ids| == |asks| == |sts|
  {
    if target >= 0
    then && target < |asks| && asks[target].Some? && msg == Some(AnswerTo(env, asks[target].value))
         && (OnQueue(sts[target], deliver) ==> i <= target) && (deliver ==> sts[target].Delivering?)
    else forall j :: 0 <= j < |asks| && asks[j].Some? && IsFor(msg, ids[j]) ==>
           (j < i || !OnQueue(sts[j], deliver)) && (!deliver ==> !sts[j].Delivering?)
  }

  /** What trying the i-th mail may do to what it waits for: nothing if it waits in vain; else it takes the message, or goes on and may ask. */
  ghost predicate Tried<S(!new)>(id: nat, ask: Option<Request<S>>, st: Status<S>, ask1: Option<Request<S>>, st1: Status<S>, msg: Option<Msg<S>>) {
    if ask.Some? then if IsFor(msg, id) then ask1 == None else ask1 == ask && st1 == st
    else ask1.Some? ==> ask1.value.id == id && st1 == st
  }

  lemma PairedAfter<S(!new)>(ids: seq<nat>, asks: seq<Option<Request<S>>>, pending: seq<Request<S>>, target: int, i: nat,
                             ask1: Option<Request<S>>, msg: Option<Msg<S>>)
    requires |ids| == |asks| && i < |asks| && Paired(ids, asks, pending, target)
    requires forall j, k :: 0 <= j < k < |ids| ==> ids[j] != ids[k]
    requires if i == target then ask1 == None else ask1 == asks[i] || (asks[i] == None && ask1.Some? && ask1.value.id == ids[i])
    ensures Paired(ids, asks[i := ask1], if ask1.Some? && asks[i] == None then pending + [ask1.value] else pending, if i == target then -1 else target)
  {
    var more := asks[i := ask1];
    var added := if ask1.Some? && asks[i] == None then pending + [ask1.value] else pending;
    var t := if i == target then -1 else target;
    forall r | r in added ensures Wanted(more, r, t) {
      if r in pending {
        var j :| 0 <= j < |asks| && j != target && asks[j] == Some(r);
        assert more[j] == Some(r);
      } else {
        assert more[i] == Some(r);
      }
    }
    forall a, b | 0 <= a < b < |added| ensures added[a].id != added[b].id {
      if b == |pending| {
        assert pending[a] in pending;
        var j :| 0 <= j < |asks| && j != target && asks[j] == Some(pending[a]);
        assert j != i;
      }
    }
    assert forall r :: r in pending ==> r in added;
    assert ask1.Some? && asks[i] == None ==> added[|pending|] == ask1.value;
  }

  lemma AimedAfter<S(!new)>(ids: seq<nat>, asks: seq<Option<Request<S>>>, sts: seq<Status<S>>, env: Env<S>, msg: Option<Msg<S>>,
                            target: int, deliver: bool, i: nat, ask1: Option<Request<S>>, st1: Status<S>)
    requires |ids| == |asks| == |sts| && i < |asks| && Aimed(ids, asks, sts, env, msg, target, deliver, i)
    requires forall j, k :: 0 <= j < k < |ids| ==> ids[j] != ids[k]
    requires target >= 0 ==> msg.Some? && msg.value.id == ids[target]
    requires OnQueue(sts[i], deliver) && Tried(ids[i], asks[i], sts[i], ask1, st1, msg)
    ensures asks[i].Some? && IsFor(msg, ids[i]) ==> i == target
    ensures i == target ==> asks[i].Some? && IsFor(msg, ids[i])
    ensures Aimed(ids, asks[i := ask1], sts[i := st1], env, msg, if i == target then -1 else target, deliver, i + 1)
  {
  }

  /** The mails of a pass are those on its queue; the message, if there is one, has the number of the target. */
  ghost predicate Passing<S(!new)>(ids: seq<nat>, asks: seq<Option<Request<S>>>, sts: seq<Status<S>>, pending: seq<Request<S>>, env: Env<S>,
                                   msg: Option<Msg<S>>, target: int, deliver: bool, i: nat)
  {
    && |ids| == |asks| == |sts| && Paired(ids, asks, pending, target) && Aimed(ids, asks, sts, env, msg, target, deliver, i)
    && (target >= 0 ==> msg.Some? && target < |ids| && msg.value.id == ids[target])
  }

  lemma PassingAfter<S(!new)>(ids: seq<nat>, asks: seq<Option<Request<S>>>, sts: seq<Status<S>>, pending: seq<Request<S>>, env: Env<S>,
                              msg: Option<Msg<S>>, target: int, deliver: bool, i: nat, ask1: Option<Request<S>>, st1: Status<S>)
    requires Passing(ids, asks, sts, pending, env, msg, target, deliver, i) && i < |ids|
    requires forall j, k :: 0 <= j < k < |ids| ==> ids[j] != ids[k]
    requires OnQueue(sts[i], deliver) && Tried(ids[i], asks[i], sts[i], ask1, st1, msg)
    ensures Passing(ids, asks[i := ask1], sts[i := st1], if ask1.Some? && asks[i] == None then pending + [ask1.value] else pending, env, msg,
                    if i == target then -1 else target, deliver, i + 1)
  {
    hide Paired, Aimed;
    AimedAfter(ids, asks, sts, env, msg, target, deliver, i, ask1, st1);
    PairedAfter(ids, asks, pending, target, i, ask1, msg);
  }

  lemma PassingOn<S(!new)>(ids: seq<nat>, asks: seq<Option<Request<S>>>, sts: seq<Status<S>>, pending: seq<Request<S>>, env: Env<S>,
                           msg: Option<Msg<S>>, target: int, deliver: bool, i: nat)
    requires Passing(ids, asks, sts, pending, env, msg, target, deliver, i) && i < |ids| && !OnQueue(sts[i], deliver)
    ensures Passing(ids, asks, sts, pending, env, msg, target, deliver, i + 1)
  {
    hide Paired;
  }

  /** The message a mail may take is the answer to its request. */
  lemma ForTarget<S(!new)>(ids: seq<nat>, asks: seq<Option<Request<S>>>, sts: seq<Status<S>>, pending: seq<Request<S>>, env: Env<S>,
                           msg: Option<Msg<S>>, target: int, deliver: bool, i: nat)
    requires Passing(ids, asks, sts, pending, env, msg, target, deliver, i) && i < |ids| && OnQueue(sts[i], deliver)
    requires forall j, k :: 0 <= j < k < |ids| ==> ids[j] != ids[k]
    ensures asks[i].Some? && IsFor(msg, ids[i]) ==> msg.value == AnswerTo(env, asks[i].value)
    ensures i == target ==> asks[i].Some? && IsFor(msg, ids[i])
  {
    hide Paired;
  }

  /** What a pass does to each mail: one that can go on, or that the message is for, gets on; others stay as they are. */
  ghost predicate Stepped<S(!new)>(sts0: seq<Status<S>>, asks0: seq<Option<Request<S>>>, lefts0: seq<Progress>, target0: int, deliver: bool,
                                   sts: seq<Status<S>>, asks: seq<Option<Request<S>>>, lefts: seq<Progress>, n: nat)
  {
    && |sts0| == |asks0| == |lefts0| == |sts| == |asks| == |lefts| && n <= |sts|
    && (forall j :: 0 <= j < |sts| && (j >= n || !OnQueue(sts0[j], deliver)) ==> sts[j] == sts0[j] && asks[j] == asks0[j] && lefts[j] == lefts0[j])
    && (forall j :: 0 <= j < |sts| ==> NotHigher(lefts[j], lefts0[j]))
    && (forall j :: 0 <= j < n && OnQueue(sts0[j], deliver) && (asks0[j] == None || j == target0) ==> Lower(lefts[j], lefts0[j]))
  }

  lemma SteppedOn<S(!new)>(sts0: seq<Status<S>>, asks0: seq<Option<Request<S>>>, lefts0: seq<Progress>, target0: int, deliver: bool,
                           sts: seq<Status<S>>, asks: seq<Option<Request<S>>>, lefts: seq<Progress>, i: nat,
                           st: Status<S>, ask: Option<Request<S>>, left: Progress)
    requires Stepped(sts0, asks0, lefts0, target0, deliver, sts, asks, lefts, i) && i < |sts|
    requires OnQueue(sts[i], deliver) && NotHigher(left, lefts[i]) && (asks[i] == None || i == target0 ==> Lower(left, lefts[i]))
    ensures Stepped(sts0, asks0, lefts0, target0, deliver, sts[i := st], asks[i := ask], lefts[i := left], i + 1)
  {
    hide Lower;
  }

  /** A pass over one of the queues. */
  method TryQueue<S(!new)>(mails: seq<MailCtx<S>>, sts0: seq<Status<S>>, pending0: seq<Request<S>>, msg: Option<Msg<S>>, deliver: bool,
                           ghost ids: seq<nat>, ghost env: Env<S>, ghost ends: seq<Final<S>>, ghost asks0: seq<Option<Request<S>>>,
                           ghost lefts0: seq<Progress>, ghost target0: int)
    returns (sts: seq<Status<S>>, pending: seq<Request<S>>, failed: bool,
             ghost asks: seq<Option<Request<S>>>, ghost lefts: seq<Progress>, ghost target: int)
    requires Apart(mails, ids) && AllSeen(mails, env, ends, sts0, asks0, lefts0)
    requires Passing(ids, asks0, sts0, pending0, env, msg, target0, deliver, 0)
    modifies mails
    ensures failed ==> exists i :: 0 <= i < |ends| && ends[i].Failed?
    ensures !failed ==> AllSeen(mails, env, ends, sts, asks, lefts) && Passing(ids, asks, sts, pending, env, msg, target, deliver, |mails|)
    ensures !failed ==> Stepped(sts0, asks0, lefts0, target0, deliver, sts, asks, lefts, |mails|)
    ensures !failed && 0 <= target0 < |mails| && !OnQueue(sts0[target0], deliver) ==> target == target0
  {
    hide Passing, Seen, OnQueue, Tried, Lower, Stepped;
    sts, pending, failed, asks, lefts, target := sts0, pending0, false, asks0, lefts0, target0;
    NothingStepped(sts0, asks0, lefts0, target0, deliver);
    for i := 0 to |mails|
      invariant AllSeen(mails, env, ends, sts, asks, lefts) && Passing(ids, asks, sts, pending, env, msg, target, deliver, i) && !failed
      invariant Stepped(sts0, asks0, lefts0, target0, deliver, sts, asks, lefts, i)
      invariant target == if 0 <= target0 < i && OnQueue(sts0[target0], deliver) then -1 else target0
    {
      StillAsBefore(sts0, asks0, lefts0, target0, deliver, sts, asks, lefts, i);
      var onQueue := IsOnQueue(sts[i], deliver);
      if onQueue {
        ForTarget(ids, asks, sts, pending, env, msg, target, deliver, i);
        var st, asked;
        ghost var ask, left;
        st, asked, failed, ask, left := TryOne(mails[i], sts[i], msg, deliver, env, ends[i], asks[i], lefts[i]);
        if failed {
          return;
        }
        SteppedOn(sts0, asks0, lefts0, target0, deliver, sts, asks, lefts, i, st, ask, left);
        PassingAfter(ids, asks, sts, pending, env, msg, target, deliver, i, ask, st);
        sts, asks, lefts := sts[i := st], asks[i := ask], lefts[i := left];
        if asked.Some? {
          pending := pending + [asked.value];
        }
        target := if i == target then -1 else target;
      } else {
        PassingOn(ids, asks, sts, pending, env, msg, target, deliver, i);
        SteppedPast(sts0, asks0, lefts0, target0, deliver, sts, asks, lefts, i);
      }
    }
  }

  lemma NothingStepped<S(!new)>(sts: seq<Status<S>>, asks: seq<Option<Request<S>>>, lefts: seq<Progress>, target: int, deliver: bool)
    requires |sts| == |asks| == |lefts|
    ensures Stepped(sts, asks, lefts, target, deliver, sts, asks, lefts, 0)
  {
  }

  lemma StillAsBefore<S(!new)>(sts0: seq<Status<S>>, asks0: seq<Option<Request<S>>>, lefts0: seq<Progress>, target0: int, deliver: bool,
                               sts: seq<Status<S>>, asks: seq<Option<Request<S>>>, lefts: seq<Progress>, i: nat)
    requires Stepped(sts0, asks0, lefts0, target0, deliver, sts, asks, lefts, i) && i < |sts|
    ensures sts[i] == sts0[i] && asks[i] == asks0[i] && lefts[i] == lefts0[i]
  {
  }

  lemma SteppedPast<S(!new)>(sts0: seq<Status<S>>, asks0: seq<Option<Request<S>>>, lefts0: seq<Progress>, target0: int, deliver: bool,
                             sts: seq<Status<S>>, asks: seq<Option<Request<S>>>, lefts: seq<Progress>, i: nat)
    requires Stepped(sts0, asks0, lefts0, target0, deliver, sts, asks, lefts, i) && i < |sts| && !OnQueue(sts[i], deliver)
    ensures Stepped(sts0, asks0, lefts0, target0, deliver, sts, asks, lefts, i + 1)
  {
  }

  method IsOnQueue<S>(st: Status<S>, deliver: bool) returns (b: bool)
    ensures b == OnQueue(st, deliver)
  {
    b := if deliver then st.Delivering? else st.Matching?;
  }

  /** One mail of a pass. */
  method TryOne<S(!new)>(m: MailCtx<S>, st0: Status<S>, msg: Option<Msg<S>>, ghost deliver: bool, ghost env: Env<S>, ghost end: Final<S>,
                         ghost ask0: Option<Request<S>>, ghost left0: Progress)
    returns (st: Status<S>, asked: Option<Request<S>>, failed: bool, ghost ask: Option<Request<S>>, ghost left: Progress)
    requires Seen(m, env, end, st0, ask0, left0) && OnQueue(st0, deliver)
    requires ask0.Some? && IsFor(msg, m.idx) ==> msg.value == AnswerTo(env, ask0.value)
    modifies m
    ensures failed ==> end.Failed?
    ensures !failed ==> Seen(m, env, end, st, ask, left) && Tried(m.idx, ask0, st0, ask, st, msg)
    ensures !failed ==> NotHigher(left, left0) && (ask0 == None || IsFor(msg, m.idx) ==> Lower(left, left0))
    ensures !failed ==> asked == if ask0 == None then ask else None
  {
    hide MailCtx.Remaining, MailCtx.Meaning, MailCtx.Left, Lower;
    st, asked, failed := TryMail(m, st0, msg, end);
    ask, left := None, Ended;
    if !failed {
      left := ProgressOf(m, st);
      if Waits(m, st) {
        ask := Some(RequestOf(m));
      }
    }
  }

  /** What lies between two turns: no message is in hand. */
  ghost predicate Between<S(!new)>(ids: seq<nat>, asks: seq<Option<Request<S>>>, pending: seq<Request<S>>) {
    |ids| == |asks| && Paired(ids, asks, pending, -1)
  }

  /** Taking one request to be answered makes the mail that waits for it the target. */
  lemma Answering<S(!new)>(ids: seq<nat>, asks: seq<Option<Request<S>>>, sts: seq<Status<S>>, pending: seq<Request<S>>, env: Env<S>, k: nat)
    returns (target: int)
    requires Between(ids, asks, pending) && k < |pending| && |sts| == |asks|
    requires forall j, l :: 0 <= j < l < |ids| ==> ids[j] != ids[l]
    ensures Passing(ids, asks, sts, pending[..k] + pending[k + 1..], env, Some(AnswerTo(env, pending[k])), target, false, 0)
    ensures 0 <= target < |asks| && asks[target] == Some(pending[k])
  {
    assert Wanted(asks, pending[k], -1);
    var i :| 0 <= i < |asks| && asks[i] == Some(pending[k]);
    target := i;
    var less := pending[..k] + pending[k + 1..];
    assert forall a :: 0 <= a < |less| ==> less[a] == if a < k then pending[a] else pending[a + 1];
    forall j | 0 <= j < |asks| && j != i && asks[j].Some? ensures asks[j].value in less {
      var a :| 0 <= a < |pending| && pending[a] == asks[j].value;
      assert a != k;
      assert less[if a < k then a else a - 1] == asks[j].value;
    }
    forall r | r in less ensures Wanted(asks, r, i) {
      var a :| 0 <= a < |less| && less[a] == r;
      assert r in pending && r.id != pending[k].id;
      assert Wanted(asks, r, -1);
      var j :| 0 <= j < |asks| && asks[j] == Some(r);
      assert j != i;
    }
  }

  /** With no message there is no target. */
  lemma NoMessage<S(!new)>(ids: seq<nat>, asks: seq<Option<Request<S>>>, sts: seq<Status<S>>, pending: seq<Request<S>>, env: Env<S>)
    requires Between(ids, asks, pending) && |sts| == |asks|
    ensures Passing(ids, asks, sts, pending, env, None, -1, false, 0)
  {
    hide Paired;
  }

  /** After the match queue comes the delivery queue, with the same message. */
  lemma SecondPass<S(!new)>(ids: seq<nat>, asks: seq<Option<Request<S>>>, sts: seq<Status<S>>, pending: seq<Request<S>>, env: Env<S>,
                            msg: Option<Msg<S>>, target: int)
    requires Passing(ids, asks, sts, pending, env, msg, target, false, |ids|)
    requires forall i :: 0 <= i < |ids| && asks[i].Some? ==> !sts[i].Over?
    ensures Passing(ids, asks, sts, pending, env, msg, target, true, 0)
  {
    hide Paired;
  }

  /** After both no message is in hand: it has been taken. */
  lemma BothPasses<S(!new)>(ids: seq<nat>, asks: seq<Option<Request<S>>>, sts: seq<Status<S>>, pending: seq<Request<S>>, env: Env<S>,
                            msg: Option<Msg<S>>, target: int)
    requires Passing(ids, asks, sts, pending, env, msg, target, true, |ids|)
    ensures target < 0 && Between(ids, asks, pending)
  {
    hide Wanted;
    assert target < 0;
    assert Paired(ids, asks, pending, target);
    assert forall r :: r in pending ==> Wanted(asks, r, -1) by {
      forall r | r in pending ensures Wanted(asks, r, -1) {
        WantedBy(asks, r, target);
      }
    }
  }

  lemma WantedBy<S(!new)>(asks: seq<Option<Request<S>>>, r: Request<S>, target: int)
    requires Wanted(asks, r, target)
    ensures Wanted(asks, r, -1)
  {
  }

  /** A mail that waits is not over, and one that is over has nothing left. */
  lemma WaitingGoesOn<S(!new)>(mails: seq<MailCtx<S>>, env: Env<S>, ends: seq<Final<S>>, sts: seq<Status<S>>, asks: seq<Option<Request<S>>>,
                               lefts: seq<Progress>)
    requires AllSeen(mails, env, ends, sts, asks, lefts)
    ensures forall i :: 0 <= i < |asks| && asks[i].Some? ==> !sts[i].Over?
    ensures forall i :: 0 <= i < |asks| ==> (sts[i].Over? <==> lefts[i] == Ended)
  {
    hide OnWay;
    forall i | 0 <= i < |asks| ensures (asks[i].Some? ==> !sts[i].Over?) && (sts[i].Over? <==> lefts[i] == Ended) {
      assert Seen(mails[i], env, ends[i], sts[i], asks[i], lefts[i]);
    }
  }

  /** Both passes of a turn together. */
  lemma SteppedTwice<S(!new)>(sts0: seq<Status<S>>, asks0: seq<Option<Request<S>>>, lefts0: seq<Progress>, target0: int,
                              sts1: seq<Status<S>>, asks1: seq<Option<Request<S>>>, lefts1: seq<Progress>, target1: int,
                              sts2: seq<Status<S>>, asks2: seq<Option<Request<S>>>, lefts2: seq<Progress>, i: nat)
    requires i < |sts0| && Stepped(sts0, asks0, lefts0, target0, false, sts1, asks1, lefts1, |sts0|)
    requires Stepped(sts1, asks1, lefts1, target1, true, sts2, asks2, lefts2, |sts0|)
    requires i == target0 && !OnQueue(sts0[i], false) ==> target1 == target0
    ensures NotHigher(lefts2[i], lefts0[i])
    ensures !sts0[i].Over? && (asks0[i] == None || i == target0) ==> Lower(lefts2[i], lefts0[i])
  {
    hide Lower;
    LowerStill(lefts2[i], lefts1[i], lefts0[i]);
  }

  /** A mail that does not wait, or whose request is answered. */
  predicate MayGoOn<S(==)>(ask: Option<Request<S>>, pending: seq<Request<S>>, which: Option<nat>) {
    ask == None || (which.Some? && which.value < |pending| && ask == Some(pending[which.value]))
  }

  /** A turn: the answer to one request, if any, comes in; then all mails are tried, those being matched first. */
  method TakeTurn<S(!new)>(mails: seq<MailCtx<S>>, sts0: seq<Status<S>>, pending0: seq<Request<S>>, env: Env<S>, which: Option<nat>,
                           ghost ids: seq<nat>, ghost ends: seq<Final<S>>, ghost asks0: seq<Option<Request<S>>>, ghost lefts0: seq<Progress>)
    returns (sts: seq<Status<S>>, pending: seq<Request<S>>, failed: bool, ghost asks: seq<Option<Request<S>>>, ghost lefts: seq<Progress>)
    requires Apart(mails, ids) && AllSeen(mails, env, ends, sts0, asks0, lefts0) && Between(ids, asks0, pending0)
    modifies mails
    ensures failed ==> exists i :: 0 <= i < |ends| && ends[i].Failed?
    ensures !failed ==> AllSeen(mails, env, ends, sts, asks, lefts) && Between(ids, asks, pending)
    // No mail falls back; one that can go on, or that is answered, gets on.
    ensures !failed ==> forall i :: 0 <= i < |mails| ==> NotHigher(lefts[i], lefts0[i])
    ensures !failed ==> forall i :: 0 <= i < |mails| && !sts0[i].Over? && MayGoOn(asks0[i], pending0, which) ==> Lower(lefts[i], lefts0[i])
  {
    hide Seen, Passing, Between, Stepped, Lower, OnQueue;
    var msg: Option<Msg<S>> := None;
    pending := pending0;
    ghost var target0 := -1;
    NoMessage(ids, asks0, sts0, pending0, env);
    if which.Some? && which.value < |pending0| {
      target0 := Answering(ids, asks0, sts0, pending0, env, which.value);
      OnlyOne(ids, asks0, pending0, target0);
      msg := Some(AnswerTo(env, pending0[which.value]));
      pending := pending0[..which.value] + pending0[which.value + 1..];
    }
    ghost var target1, target2, asks1, lefts1;
    var sts1;
    sts1, pending, failed, asks1, lefts1, target1 := TryQueue(mails, sts0, pending, msg, false, ids, env, ends, asks0, lefts0, target0);
    if failed {
      sts, asks, lefts := sts1, asks1, lefts1;
      return;
    }
    WaitingGoesOn(mails, env, ends, sts1, asks1, lefts1);
    SecondPass(ids, asks1, sts1, pending, env, msg, target1);
    sts, pending, failed, asks, lefts, target2 := TryQueue(mails, sts1, pending, msg, true, ids, env, ends, asks1, lefts1, target1);
    if !failed {
      BothPasses(ids, asks, sts, pending, env, msg, target2);
      forall i | 0 <= i < |mails|
        ensures NotHigher(lefts[i], lefts0[i])
        ensures !sts0[i].Over? && (asks0[i] == None || i == target0) ==> Lower(lefts[i], lefts0[i])
      {
        SteppedTwice(sts0, asks0, lefts0, target0, sts1, asks1, lefts1, target1, sts, asks, lefts, i);
      }
    }
  }

  /** Only one mail has a request. */
  lemma OnlyOne<S(!new)>(ids: seq<nat>, asks: seq<Option<Request<S>>>, pending: seq<Request<S>>, i: nat)
    requires Between(ids, asks, pending) && i < |asks| && forall j, k :: 0 <= j < k < |ids| ==> ids[j] != ids[k]
    ensures forall j :: 0 <= j < |asks| && asks[j].Some? && asks[j] == asks[i] ==> j == i
  {
    hide Wanted;
  }

  /** Where the request of a waiting mail is. */
  method FindRequest<S(!new,==)>(m: MailCtx<S>, pending: seq<Request<S>>, ghost ids: seq<nat>, ghost asks: seq<Option<Request<S>>>, ghost i: nat)
    returns (k: nat)
    requires Between(ids, asks, pending) && i < |asks| && asks[i].Some? && asks[i].value.id == m.idx
    ensures k < |pending| && pending[k] == asks[i].value
  {
    hide Wanted;
    ghost var at :| 0 <= at < |pending| && pending[at] == asks[i].value;
    k := 0;
    while pending[k].id != m.idx
      invariant 0 <= k <= at
      decreases at - k
    {
      k := k + 1;
    }
  }

  /**
   * Any number of mails, their requests answered in any order: while a mail waits, any answers to others may come first.
   * Every mail ends, and with the outcome of the recursive evaluator; the fetch is given up exactly if the evaluator
   * says that some mail fails.
   */
  method FetchMails<S(!new,==)>(env: Env<S>, rules: seq<Rule>, data: seq<Mail<S>>, others: nat -> seq<nat>)
    returns (sts: seq<Status<S>>, failed: bool)
    requires WellFormed(rules)
    ensures failed <==> exists i :: 0 <= i < |data| && EvalMail(env, rules, World(data[i], false, [])).Failed?
    ensures !failed ==> |sts| == |data| && forall i :: 0 <= i < |data| ==> sts[i] == Over(EvalMail(env, rules, World(data[i], false, [])))
  {
    hide EvalMail, Seen, Between, Lower;
    ghost var ends: seq<Final<S>> := seq(|data|, i requires 0 <= i < |data| => EvalMail(env, rules, World(data[i], false, [])));
    var mails;
    ghost var ids, lefts;
    mails, ids, lefts := Queue(env, rules, data, ends);
    sts := seq(|data|, _ => Matching);
    var pending: seq<Request<S>> := [];
    ghost var asks: seq<Option<Request<S>>> := seq(|data|, _ => None);
    NothingAsked(ids, asks);
    failed := false;
    var round := 0;
    for i := 0 to |data|
      invariant AllSeen(mails, env, ends, sts, asks, lefts) && Between(ids, asks, pending) && !failed
      invariant forall j :: 0 <= j < i ==> lefts[j] == Ended
    {
      while !sts[i].Over?
        invariant AllSeen(mails, env, ends, sts, asks, lefts) && Between(ids, asks, pending) && !failed
        invariant forall j :: 0 <= j < i ==> lefts[j] == Ended
        decreases lefts[i].Left?, if lefts[i].Left? then lefts[i].m.rules else 0, if lefts[i].Left? then lefts[i].m.items else 0,
                  if lefts[i].Left? then lefts[i].m.queued else 0, if lefts[i].Left? then lefts[i].m.delivering else 0,
                  if lefts[i].Left? then lefts[i].awake else 0
      {
        ghost var before, lefts1 := lefts[i], lefts;
        WaitingGoesOn(mails, env, ends, sts, asks, lefts);
        sts, pending, failed, asks, lefts := Serve(mails, sts, pending, env, others(round), ids, ends, asks, lefts, i);
        if failed {
          return;
        }
        round := round + 1;
        LowerMeans(lefts[i], before);
        EndedStays(lefts, lefts1);
        WaitingGoesOn(mails, env, ends, sts, asks, lefts);
      }
      WaitingGoesOn(mails, env, ends, sts, asks, lefts);
    }
    WaitingGoesOn(mails, env, ends, sts, asks, lefts);
    forall i | 0 <= i < |data| ensures sts[i] == Over(ends[i]) && !ends[i].Failed? {
      SeenOver(mails[i], env, ends[i], sts[i], asks[i], lefts[i]);
    }
  }

  lemma EndedStays(lefts: seq<Progress>, before: seq<Progress>)
    requires |lefts| == |before| && forall j :: 0 <= j < |lefts| ==> NotHigher(lefts[j], before[j])
    ensures forall j :: 0 <= j < |lefts| && before[j] == Ended ==> lefts[j] == Ended
  {
  }

  lemma LowerMeans(a: Progress, b: Progress)
    requires Lower(a, b)
    ensures b.Left? && (a.Left? ==> a.m.Below(b.m) || (a.m == b.m && a.awake < b.awake))
  {
  }

  /** Some answers to any mails, and then one turn in which a given mail gets on. */
  method Serve<S(!new,==)>(mails: seq<MailCtx<S>>, sts0: seq<Status<S>>, pending0: seq<Request<S>>, env: Env<S>, others: seq<nat>,
                           ghost ids: seq<nat>, ghost ends: seq<Final<S>>, ghost asks0: seq<Option<Request<S>>>, ghost lefts0: seq<Progress>, i: nat)
    returns (sts: seq<Status<S>>, pending: seq<Request<S>>, failed: bool, ghost asks: seq<Option<Request<S>>>, ghost lefts: seq<Progress>)
    requires Apart(mails, ids) && AllSeen(mails, env, ends, sts0, asks0, lefts0) && Between(ids, asks0, pending0)
    requires i < |mails| && lefts0[i] != Ended
    modifies mails
    ensures failed ==> exists j :: 0 <= j < |ends| && ends[j].Failed?
    ensures !failed ==> AllSeen(mails, env, ends, sts, asks, lefts) && Between(ids, asks, pending)
    ensures !failed ==> Lower(lefts[i], lefts0[i]) && forall j :: 0 <= j < |mails| ==> NotHigher(lefts[j], lefts0[j])
  {
    hide Seen, Between, Lower;
    sts, pending, failed, asks, lefts := sts0, pending0, false, asks0, lefts0;
    for t := 0 to |others|
      invariant AllSeen(mails, env, ends, sts, asks, lefts) && Between(ids, asks, pending) && !failed
      invariant forall j :: 0 <= j < |mails| ==> NotHigher(lefts[j], lefts0[j])
    {
      ghost var before := lefts;
      sts, pending, failed, asks, lefts := TakeTurn(mails, sts, pending, env, Some(others[t]), ids, ends, asks, lefts);
      if failed {
        return;
      }
      forall j | 0 <= j < |mails| ensures NotHigher(lefts[j], lefts0[j]) {
        LowerStill(lefts[j], before[j], lefts0[j]);
      }
    }
    WaitingGoesOn(mails, env, ends, sts, asks, lefts);
    if sts[i].Over? {
      EndedIsLower(lefts0[i]);
      return;
    }
    var which: Option<nat> := None;
    SeenAsks(mails[i], env, ends[i], sts[i], asks[i], lefts[i]);
    if mails[i].msgid != 0 {
      var k := FindRequest(mails[i], pending, ids, asks, i);
      which := Some(k);
    }
    ghost var before := lefts;
    sts, pending, failed, asks, lefts := TakeTurn(mails, sts, pending, env, which, ids, ends, asks, lefts);
    if !failed {
      forall j | 0 <= j < |mails| ensures NotHigher(lefts[j], lefts0[j]) && (j == i ==> Lower(lefts[j], lefts0[j])) {
        LowerStill(lefts[j], before[j], lefts0[j]);
      }
    }
  }

  lemma EndedIsLower(b: Progress)
    requires b != Ended
    ensures Lower(Ended, b)
  {
  }

  lemma SeenAsks<S(!new)>(m: MailCtx<S>, env: Env<S>, end: Final<S>, st: Status<S>, ask: Option<Request<S>>, left: Progress)
    requires Seen(m, env, end, st, ask, left) && !st.Over?
    ensures m.msgid != 0 <==> ask.Some?
    ensures ask.Some? ==> ask.value.id == m.idx
  {
  }

  /** All mails are queued, each with a number of its own. */
  method Queue<S(!new)>(env: Env<S>, rules: seq<Rule>, data: seq<Mail<S>>, ghost ends: seq<Final<S>>)
    returns (mails: seq<MailCtx<S>>, ghost ids: seq<nat>, ghost lefts: seq<Progress>)
    requires WellFormed(rules) && |ends| == |data| && forall i :: 0 <= i < |data| ==> ends[i] == EvalMail(env, rules, World(data[i], false, []))
    ensures Apart(mails, ids) && |mails| == |data| == |lefts| && forall j :: 0 <= j < |mails| ==> fresh(mails[j])
    ensures forall j :: 0 <= j < |mails| ==> Seen(mails[j], env, ends[j], Matching, None, lefts[j])
  {
    hide EvalMail, Seen;
    mails, ids, lefts := [], [], [];
    for i := 0 to |data|
      invariant |mails| == i == |lefts| && Apart(mails, ids) && forall j :: 0 <= j < i ==> fresh(mails[j]) && ids[j] <= i
      invariant forall j :: 0 <= j < i ==> Seen(mails[j], env, ends[j], Matching, None, lefts[j])
    {
      var m := new MailCtx<S>(env, i + 1, rules, data[i]);
      ghost var left := ProgressOf(m, Matching);
      assert Seen(m, env, ends[i], Matching, None, left) by { NewSeen(m, env, ends[i]); }
      mails, ids, lefts := mails + [m], ids + [i + 1], lefts + [left];
    }
  }

  lemma NewSeen<S(!new)>(m: MailCtx<S>, env: Env<S>, end: Final<S>)
    requires m.env == env && m.Valid() && m.msgid == 0 && m.dqueue == [] && m.Meaning() == end
    ensures Seen(m, env, end, Matching, None, ProgressOf(m, Matching))
  {
  }

  lemma SeenOver<S(!new)>(m: MailCtx<S>, env: Env<S>, end: Final<S>, st: Status<S>, ask: Option<Request<S>>, left: Progress)
    requires Seen(m, env, end, st, ask, left) && st.Over?
    ensures st == Over(end) && end.Finished?
  {
  }

  lemma NothingAsked<S(!new)>(ids: seq<nat>, asks: seq<Option<Request<S>>>)
    requires |ids| == |asks| && forall i :: 0 <= i < |asks| ==> asks[i] == None
    ensures Between(ids, asks, [])
  {
  }
}
