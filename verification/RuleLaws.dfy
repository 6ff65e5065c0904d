// What rules come to, said without the evaluator of Rules.dfy: the value of an expression in terms of the verdicts of
// its conditions, the deliveries of an action in terms of its users and items, and what a rule leaves behind.

module RuleLaws {
  import opened Options
  import opened Rules

  // ---------------------------------------------------------------- the value of an expression

  /** A condition gives a verdict, at once or through the parent, and leaves the mail as it is. */
  ghost predicate Says<S>(env: Env<S>, w: World<S>, cond: nat, verdict: bool) {
    || env.check(cond, w.mail, w.matched) == CheckVerdict(verdict, w.mail)
    || (env.check(cond, w.mail, w.matched) == CheckParent(w.mail) && env.answer(cond, w.mail) == AnswerVerdict(verdict, w.mail))
  }

  ghost predicate AllSay<S>(env: Env<S>, w: World<S>, items: seq<ExprItem>, verdicts: nat -> bool) {
    forall ei :: ei in items ==> Says(env, w, ei.cond, verdicts(ei.cond))
  }

  predicate Holds(ei: ExprItem, verdicts: nat -> bool) {
    verdicts(ei.cond) != ei.inverted
  }

  /** Some item that does not stand behind an "and" holds, and from there on every "and" is met, up to the end. */
  ghost predicate True(items: seq<ExprItem>, verdicts: nat -> bool) {
    exists k :: 0 <= k < |items| && TrueFrom(items, verdicts, k)
  }

  ghost predicate TrueFrom(items: seq<ExprItem>, verdicts: nat -> bool, k: nat)
    requires k < |items|
  {
    && items[k].op != OpAnd && Holds(items[k], verdicts)
    && forall j :: k < j < |items| ==> items[j].op == OpOr || (items[j].op == OpAnd && Holds(items[j], verdicts))
  }

  /** Only conditions have been tried since. */
  ghost predicate OnlyTried<S>(before: seq<Event<S>>, after: seq<Event<S>>) {
    before <= after && forall i :: |before| <= i < |after| ==> after[i].Tried?
  }

  lemma {:induction false} ExprTruth<S>(env: Env<S>, items: seq<ExprItem>, w: World<S>, verdicts: nat -> bool)
    requires AllSay(env, w, items, verdicts)
    ensures var r := EvalExpr(env, items, w);
            && r.ExprValue? && (r.value <==> True(items, verdicts))
            && r.world.mail == w.mail && r.world.matched == w.matched && OnlyTried(w.trace, r.world.trace)
    decreases |items|
  {
    if items != [] {
      var n := |items| - 1;
      var init, last := items[..n], items[n];
      assert last in items && forall ei :: ei in init ==> ei in items;
      ExprTruth(env, init, w, verdicts);
      TrueMore(init, last, verdicts);
      assert items == init + [last];
      var w1 := EvalExpr(env, init, w).world;
      assert Says(env, w1, last.cond, verdicts(last.cond));
    }
  }

  /** How the truth of an expression depends on its last item. */
  lemma TrueMore(init: seq<ExprItem>, last: ExprItem, verdicts: nat -> bool)
    ensures True(init + [last], verdicts) <==>
              match last.op
              case OpNone => Holds(last, verdicts)
              case OpAnd => True(init, verdicts) && Holds(last, verdicts)
              case OpOr => True(init, verdicts) || Holds(last, verdicts)
  {
    var items, n := init + [last], |init|;
    assert TrueFrom(items, verdicts, n) <==> last.op != OpAnd && Holds(last, verdicts);
    forall k | 0 <= k < n
      ensures TrueFrom(items, verdicts, k) <==>
                TrueFrom(init, verdicts, k) && (last.op == OpOr || (last.op == OpAnd && Holds(last, verdicts)))
    {
      assert items[n] == last;
      assert forall j :: 0 <= j < n ==> items[j] == init[j];
    }
    if True(init, verdicts) {
      var k :| 0 <= k < n && TrueFrom(init, verdicts, k);
      assert TrueFrom(items, verdicts, k) <==> last.op == OpOr || (last.op == OpAnd && Holds(last, verdicts));
    }
    if True(items, verdicts) {
      var k :| 0 <= k <= n && TrueFrom(items, verdicts, k);
      assert k < n ==> True(init, verdicts);
    }
  }

  /** Conditions joined by "and" are true together, and those joined by "or" if one is. */
  lemma JoinedTruth<S>(env: Env<S>, items: seq<ExprItem>, w: World<S>, verdicts: nat -> bool)
    requires AllSay(env, w, items, verdicts) && items != [] && items[0].op == OpNone
    ensures var r := EvalExpr(env, items, w);
            && r.ExprValue?
            && ((forall i :: 1 <= i < |items| ==> items[i].op == OpAnd) ==> (r.value <==> forall ei :: ei in items ==> verdicts(ei.cond) != ei.inverted))
            && ((forall i :: 1 <= i < |items| ==> items[i].op == OpOr) ==> (r.value <==> exists ei :: ei in items && verdicts(ei.cond) != ei.inverted))
  {
    ExprTruth(env, items, w, verdicts);
    if forall i :: 1 <= i < |items| ==> items[i].op == OpAnd {
      assert TrueFrom(items, verdicts, 0) <==> forall i :: 0 <= i < |items| ==> Holds(items[i], verdicts);
      assert forall k :: 1 <= k < |items| ==> !TrueFrom(items, verdicts, k);
    }
    if forall i :: 1 <= i < |items| ==> items[i].op == OpOr {
      assert forall k :: 0 <= k < |items| ==> (TrueFrom(items, verdicts, k) <==> Holds(items[k], verdicts));
    }
  }

  /** Whatever the conditions do: an item that cannot change the value is not tried. */
  lemma Skips<S>(env: Env<S>, items: seq<ExprItem>, ei: ExprItem, w: World<S>)
    requires EvalExpr(env, items, w).ExprValue?
    ensures var before, r := EvalExpr(env, items, w), EvalExpr(env, items + [ei], w);
            (ei.op == OpAnd && !before.value) || (ei.op == OpOr && before.value) ==> r == before
  {
    assert (items + [ei])[..|items|] == items;
  }

  /**
   * Any other item is tried on the mail the items before it have left. An error ends the expression; a verdict, at once or
   * by the parent, is the value, and the mail that comes with it goes on.
   */
  lemma Tries<S>(env: Env<S>, items: seq<ExprItem>, ei: ExprItem, w: World<S>)
    requires EvalExpr(env, items, w).ExprValue?
    requires var value := EvalExpr(env, items, w).value; (ei.op == OpAnd ==> value) && (ei.op == OpOr ==> !value)
    ensures var w1, r := EvalExpr(env, items, w).world, EvalExpr(env, items + [ei], w);
            var trace, check := w1.trace + [Tried(ei.cond, w1.mail)], env.check(ei.cond, w1.mail, w1.matched);
            && (check.CheckError? ==> r == ExprBad(trace))
            && (check.CheckVerdict? ==> r == ExprValue(check.value != ei.inverted, World(check.mail, w1.matched, trace)))
            && (check.CheckParent? ==>
                  var answer := env.answer(ei.cond, check.mail);
                  if answer.AnswerError? then r == ExprBad(trace) else r == ExprValue(answer.value != ei.inverted, World(answer.mail, w1.matched, trace)))
  {
    assert (items + [ei])[..|items|] == items;
  }

  // ---------------------------------------------------------------- what a rule leaves behind

  /** The deliveries started. */
  function StartedIn<S>(trace: seq<Event<S>>): seq<Delivery> {
    if trace == [] then []
    else StartedIn(trace[..|trace| - 1]) + match trace[|trace| - 1] case Started(d, _, _) => [d] case Tried(_, _) => []
  }

  lemma StartedMore<S>(trace: seq<Event<S>>, e: Event<S>)
    ensures StartedIn(trace + [e]) == StartedIn(trace) + if e.Started? then [e.delivery] else []
  {
    assert (trace + [e])[..|trace|] == trace;
  }

  lemma {:induction false} NothingStarted<S>(before: seq<Event<S>>, after: seq<Event<S>>)
    requires OnlyTried(before, after)
    ensures StartedIn(after) == StartedIn(before)
    decreases |after|
  {
    if |before| == |after| {
      assert after == before;
    } else {
      var n := |after| - 1;
      NothingStarted(before, after[..n]);
      assert after == after[..n] + [after[n]];
      StartedMore(after[..n], after[n]);
    }
  }

  function TraceOf<S>(res: Result<S>): seq<Event<S>> {
    match res
    case Bad(trace) => trace
    case Next(w) => w.trace
    case Stop(w) => w.trace
  }

  /** So many deliveries have been started: all if none has failed. */
  ghost predicate RanUpTo<S>(w: World<S>, ds: seq<Delivery>, r: Result<S>, n: nat) {
    n <= |ds| && (r.Next? ==> n == |ds|) && (r.Bad? ==> n > 0) && StartedIn(TraceOf(r)) == StartedIn(w.trace) + ds[..n]
  }

  /** Deliveries are started one after the other, in order; none is started after one that fails. */
  lemma {:induction false} RunInOrder<S>(env: Env<S>, ds: seq<Delivery>, w: World<S>)
    ensures var r := RunAll(env, ds, w);
            !r.Stop? && (r.Next? ==> r.world.matched == w.matched) && exists n: nat :: RanUpTo(w, ds, r, n)
    decreases |ds|
  {
    hide RunOne, StartedIn, RanUpTo;
    if ds == [] {
      assert RanUpTo(w, ds, Next(w), 0) by { RanNone(w); }
    } else {
      var one, rest := RunOne(env, ds[0], w), ds[1..];
      FirstRun(env, ds[0], w);
      if one.Next? {
        RunInOrder(env, rest, one.world);
        var r := RunAll(env, rest, one.world);
        var n: nat :| RanUpTo(one.world, rest, r, n);
        RanMore(w, ds, one.world, r, n);
      } else {
        assert RanUpTo(w, ds, one, 1) by { RanFirst(w, ds, one); }
      }
    }
  }

  lemma FirstRun<S>(env: Env<S>, d: Delivery, w: World<S>)
    ensures var one := RunOne(env, d, w);
            !one.Stop? && (one.Next? ==> one.world.matched == w.matched) && StartedIn(TraceOf(one)) == StartedIn(w.trace) + [d]
  {
    hide StartedIn;
    StartedMore(w.trace, Started(d, d.rule, w.mail));
  }

  lemma RanNone<S>(w: World<S>)
    ensures RanUpTo(w, [], Next(w), 0)
  {
    assert StartedIn(w.trace) + [] == StartedIn(w.trace);
  }

  lemma RanFirst<S>(w: World<S>, ds: seq<Delivery>, one: Result<S>)
    requires ds != [] && one.Bad? && StartedIn(TraceOf(one)) == StartedIn(w.trace) + [ds[0]]
    ensures RanUpTo(w, ds, one, 1)
  {
    assert ds[..1] == [ds[0]];
  }

  lemma RanMore<S>(w: World<S>, ds: seq<Delivery>, w1: World<S>, r: Result<S>, n: nat)
    requires ds != [] && RanUpTo(w1, ds[1..], r, n) && StartedIn(w1.trace) == StartedIn(w.trace) + [ds[0]]
    ensures RanUpTo(w, ds, r, n + 1)
  {
    assert ds[..n + 1] == [ds[0]] + ds[1..][..n];
  }

  /** What a delivery makes of a mail, at once or through the parent. */
  ghost predicate Does<S>(env: Env<S>, d: Delivery, mail: Mail<S>, after: Mail<S>) {
    var run := env.run(d, d.rule, mail);
    run == RunDone(after) || (run.RunParent? && env.finish(d, run.mail) == FinishDone(after))
  }

  /** Each delivery is made of the mail that the one before has left, under the number of its rule. */
  lemma {:induction false} RunOnMails<S>(env: Env<S>, ds: seq<Delivery>, w: World<S>, mails: seq<Mail<S>>)
    requires |mails| == |ds| + 1 && mails[0] == w.mail && forall i :: 0 <= i < |ds| ==> Does(env, ds[i], mails[i], mails[i + 1])
    ensures var r := RunAll(env, ds, w); r.Next? && r.world.mail == mails[|ds|]
    decreases |ds|
  {
    if ds != [] {
      assert Does(env, ds[0], mails[0], mails[1]);
      var one := RunOne(env, ds[0], w);
      forall i | 0 <= i < |ds[1..]| ensures Does(env, ds[1..][i], mails[1..][i], mails[1..][i + 1]) {
        assert Does(env, ds[i + 1], mails[i + 1], mails[i + 2]);
      }
      RunOnMails(env, ds[1..], one.world, mails[1..]);
    }
  }

  /** A rule whose expression is false is passed over: the mail is the same, and no delivery has been started. */
  lemma FalseRule<S>(env: Env<S>, r: Rule, rest: seq<Rule>, w: World<S>, verdicts: nat -> bool)
    requires AllSay(env, w, r.expr, verdicts) && !True(r.expr, verdicts)
    ensures exists w1: World<S> ::
              && EvalRules(env, [r] + rest, w) == EvalRules(env, rest, w1)
              && w1.mail == w.mail && w1.matched == w.matched && OnlyTried(w.trace, w1.trace) && StartedIn(w1.trace) == StartedIn(w.trace)
  {
    hide EvalExpr, EvalMatched, True, AllSay;
    ExprTruth(env, r.expr, w, verdicts);
    var w1 := EvalExpr(env, r.expr, w).world;
    NothingStarted(w.trace, w1.trace);
    assert ([r] + rest)[1..] == rest;
  }

  /** So is a rule whose conditions are joined by "and" if one of them is not met. */
  lemma UnmetRule<S>(env: Env<S>, r: Rule, rest: seq<Rule>, w: World<S>, verdicts: nat -> bool, ei: ExprItem)
    requires AllSay(env, w, r.expr, verdicts) && r.expr != [] && r.expr[0].op == OpNone && forall i :: 1 <= i < |r.expr| ==> r.expr[i].op == OpAnd
    requires ei in r.expr && verdicts(ei.cond) == ei.inverted
    ensures exists w1: World<S> ::
              && EvalRules(env, [r] + rest, w) == EvalRules(env, rest, w1)
              && w1.mail == w.mail && w1.matched == w.matched && OnlyTried(w.trace, w1.trace) && StartedIn(w1.trace) == StartedIn(w.trace)
  {
    hide EvalRules;
    ExprTruth(env, r.expr, w, verdicts);
    JoinedTruth(env, r.expr, w, verdicts);
    FalseRule(env, r, rest, w, verdicts);
  }

  /**
   * A rule with no nested rules whose expression is true: its deliveries are started, all of them unless one fails; the
   * mail counts as matched; and rules behind are tried exactly if it does not stop and nothing has failed.
   */
  lemma TrueRule<S>(env: Env<S>, r: Rule, rest: seq<Rule>, w: World<S>, verdicts: nat -> bool)
    requires AllSay(env, w, r.expr, verdicts) && True(r.expr, verdicts) && r.rules == []
    ensures var one, all, ds := EvalRules(env, [r], w), EvalRules(env, [r] + rest, w), RuleDeliveries(env, r, w.mail);
            && (ds == None ==> one.Bad? && StartedIn(TraceOf(one)) == StartedIn(w.trace))
            && (ds.Some? && !one.Bad? ==> StartedIn(TraceOf(one)) == StartedIn(w.trace) + ds.value && one.world.matched && (one.Stop? <==> r.stop))
            && (ds.Some? && one.Bad? ==> exists n: nat :: 0 < n <= |ds.value| && StartedIn(TraceOf(one)) == StartedIn(w.trace) + ds.value[..n])
            && all == if one.Next? then EvalRules(env, rest, one.world) else one
  {
    hide EvalExpr, True, AllSay, RuleDeliveries, RunAll, StartedIn;
    ExprTruth(env, r.expr, w, verdicts);
    var w1 := EvalExpr(env, r.expr, w).world;
    NothingStarted(w.trace, w1.trace);
    RulesInOrder(env, [r], rest, w);
    OneRule(env, r, w);
    var ds := RuleDeliveries(env, r, w.mail);
    if ds.Some? {
      var w2 := w1.(matched := true);
      RunInOrder(env, ds.value, w2);
      var res := RunAll(env, ds.value, w2);
      var n: nat :| RanUpTo(w2, ds.value, res, n);
      assert ds.value[..|ds.value|] == ds.value;
    }
  }

  lemma OneRule<S>(env: Env<S>, r: Rule, w: World<S>)
    requires EvalExpr(env, r.expr, w).ExprValue? && EvalExpr(env, r.expr, w).value && r.rules == []
    ensures var w1 := EvalExpr(env, r.expr, w).world.(matched := true);
            var ds := RuleDeliveries(env, r, w1.mail);
            EvalRules(env, [r], w) ==
              if ds == None then Bad(w1.trace)
              else
                var res := RunAll(env, ds.value, w1);
                if r.stop && res.Next? then Stop(res.world) else res
  {
    hide EvalExpr, RuleDeliveries, RunAll;
    assert [r][1..] == [];
    assert EvalRules(env, [], w) == Next(w);
  }

  /** A rule with nested rules whose expression is true is its nested rules. */
  lemma NestedRule<S>(env: Env<S>, r: Rule, w: World<S>, verdicts: nat -> bool)
    requires AllSay(env, w, r.expr, verdicts) && True(r.expr, verdicts) && r.rules != [] && !r.stop
    ensures exists w1: World<S> ::
              && EvalRules(env, [r], w) == EvalRules(env, r.rules, w1)
              && w1.mail == w.mail && w1.matched == w.matched && OnlyTried(w.trace, w1.trace)
  {
    hide EvalExpr, True, AllSay;
    ExprTruth(env, r.expr, w, verdicts);
    assert [r][1..] == [];
    var w1 := EvalExpr(env, r.expr, w).world;
    var res := EvalRules(env, r.rules, w1);
    assert EvalMatched(env, r, w1) == res;
    assert res.Next? ==> EvalRules(env, [], res.world) == res;
    assert EvalRules(env, [r], w) == res;
  }

  /** A stop rule with nested rules ends everything before they are tried. */
  lemma StopBeforeNested<S>(env: Env<S>, r: Rule, rest: seq<Rule>, w: World<S>, verdicts: nat -> bool)
    requires AllSay(env, w, r.expr, verdicts) && True(r.expr, verdicts) && r.rules != [] && r.stop
    ensures var res := EvalRules(env, [r] + rest, w);
            res.Stop? && res.world.mail == w.mail && res.world.matched == w.matched && StartedIn(res.world.trace) == StartedIn(w.trace)
  {
    hide EvalExpr, True, AllSay, StartedIn;
    ExprTruth(env, r.expr, w, verdicts);
    NothingStarted(w.trace, EvalExpr(env, r.expr, w).world.trace);
  }

  /** A mail that no stop rule has matched is decided as configured, and kept if nothing is; after a stop its decision stands. */
  lemma Decided<S>(env: Env<S>, rules: seq<Rule>, w: World<S>)
    ensures var r, f := EvalRules(env, rules, w), EvalMail(env, rules, w);
            && (r.Bad? <==> f.Failed?)
            && (r.Stop? ==> f == Finished(r.world))
            && (r.Next? ==> f.Finished? && f.world.mail.data == r.world.mail.data && f.world.trace == r.world.trace
                            && f.world.mail.decision == (if env.implAct == DecisionDrop then DecisionDrop else DecisionKeep))
  {
    hide EvalRules;
  }

  // ---------------------------------------------------------------- the deliveries of an action

  /** The actions found under a pattern are those whose names match, in their order. */
  lemma {:induction false} MatchingActions<S>(env: Env<S>, some: seq<Action>, more: seq<Action>, pattern: string)
    ensures MatchActions(env, some + more, pattern) == MatchActions(env, some, pattern) + MatchActions(env, more, pattern)
    ensures forall t :: t in MatchActions(env, some, pattern) <==> t in some && env.nameMatches(pattern, t.name)
    decreases |some|
  {
    if some == [] {
      assert some + more == more;
    } else {
      assert (some + more)[1..] == some[1..] + more;
      MatchingActions(env, some[1..], more, pattern);
      assert forall t :: t in some <==> t == some[0] || t in some[1..];
    }
  }

  /** Users named by the rule come before those of the action, these before those of the account, and the default user is last. */
  ghost predicate Recipients<S>(env: Env<S>, r: Rule, t: Action, users: seq<string>) {
    && (r.users.Some? ==> users == r.users.value)
    && (r.users == None && t.users.Some? ==> users == t.users.value)
    && (r.users == None && t.users == None && env.accountUsers.Some? ==> users == env.accountUsers.value)
    && (r.users == None && t.users == None && env.accountUsers == None ==> users == [env.defUser])
  }

  /** A user is known if its name, with tags replaced, is not empty and is in the user database. */
  ghost predicate Known<S>(env: Env<S>, mail: Mail<S>, user: string) {
    env.replace(user, mail) != "" && env.lookup(env.replace(user, mail)).Some?
  }

  ghost predicate OnlyDeliveries(items: seq<ActItem>) {
    forall item :: item in items ==> item.Deliver?
  }

  /** The items of an action without lists, for one user. */
  lemma {:induction false} ItemsOnce<S>(env: Env<S>, r: Rule, mail: Mail<S>, t: Action, items: seq<ActItem>, user: User, depth: nat)
    requires OnlyDeliveries(items)
    ensures var e := Expand(env, r, mail, WorkItems(t, items, user), depth);
            && e.Expansion? && e.chains == 0 && |e.deliveries| == |items|
            && forall j :: 0 <= j < |items| ==> e.deliveries[j] == Delivery(t.name, items[j].what, user, r.idx)
    decreases |items|
  {
    if items != [] {
      assert items[0] in items;
      ItemsOnce(env, r, mail, t, items[1..], user, depth);
    }
  }

  /** The delivery of the item behind so many others, for the user behind so many others. */
  ghost predicate DeliversAll<S>(env: Env<S>, r: Rule, mail: Mail<S>, t: Action, users: seq<string>, ds: seq<Delivery>) {
    && |ds| == |users| * |t.list|
    && forall i, j :: 0 <= i < |users| && 0 <= j < |t.list| ==> DeliversOne(env, r, mail, t, users[i], t.list[j], ds, i * |t.list| + j)
  }

  ghost predicate DeliversOne<S>(env: Env<S>, r: Rule, mail: Mail<S>, t: Action, user: string, item: ActItem, ds: seq<Delivery>, k: int) {
    && 0 <= k < |ds| && item.Deliver? && ds[k].action == t.name && ds[k].what == item.what && ds[k].rule == r.idx
    && env.lookup(env.replace(user, mail)) == Some(ds[k].user)
  }

  lemma {:induction false} UsersOutside<S>(env: Env<S>, r: Rule, mail: Mail<S>, t: Action, users: seq<string>, depth: nat)
    requires OnlyDeliveries(t.list)
    ensures var e := Expand(env, r, mail, WorkUsers(t, users), depth);
            && (e.Expansion? <==> forall u :: u in users ==> Known(env, mail, u))
            && (e.Expansion? ==> e.chains == 0 && DeliversAll(env, r, mail, t, users, e.deliveries))
    decreases |users|
  {
    hide DeliversAll, Known, FindUser, OnlyDeliveries;
    if users == [] {
      assert DeliversAll(env, r, mail, t, [], []) by { NoUsers(env, r, mail, t); }
    } else {
      var rest := users[1..];
      UsersOutside(env, r, mail, t, rest, depth);
      assert forall u :: u in users <==> u == users[0] || u in rest;
      var u := FindUser(env, mail, users[0]);
      FoundIsKnown(env, mail, users[0]);
      if u.Some? {
        ItemsOnce(env, r, mail, t, t.list, u.value, depth);
        var first, more := Expand(env, r, mail, WorkItems(t, t.list, u.value), depth), Expand(env, r, mail, WorkUsers(t, rest), depth);
        if more.Expansion? {
          OneUserMore(env, r, mail, t, users, u.value, first.deliveries, more.deliveries);
        }
      }
    }
  }

  lemma NoUsers<S>(env: Env<S>, r: Rule, mail: Mail<S>, t: Action)
    ensures DeliversAll(env, r, mail, t, [], [])
  {
  }

  lemma FoundIsKnown<S>(env: Env<S>, mail: Mail<S>, user: string)
    ensures FindUser(env, mail, user).Some? <==> Known(env, mail, user)
    ensures FindUser(env, mail, user).Some? ==> env.lookup(env.replace(user, mail)) == FindUser(env, mail, user)
  {
  }

  lemma Row(i: nat, j: nat, n: nat, m: nat)
    requires i < m && j < n
    ensures 0 <= i * n + j < m * n && (i > 0 ==> i * n + j == n + ((i - 1) * n + j))
  {
    assert i * n + n <= m * n by { Rows(i + 1, m, n); }
  }

  lemma Rows(i: nat, m: nat, n: nat)
    requires i <= m
    ensures i * n <= m * n
  {
  }

  lemma OneUserMore<S>(env: Env<S>, r: Rule, mail: Mail<S>, t: Action, users: seq<string>, user: User, first: seq<Delivery>, more: seq<Delivery>)
    requires OnlyDeliveries(t.list) && users != [] && env.lookup(env.replace(users[0], mail)) == Some(user)
    requires DeliversAll(env, r, mail, t, users[1..], more) && |first| == |t.list|
    requires forall j :: 0 <= j < |t.list| ==> first[j] == Delivery(t.name, t.list[j].what, user, r.idx)
    ensures DeliversAll(env, r, mail, t, users, first + more)
  {
    hide DeliversOne;
    var n, m, ds := |t.list|, |users|, first + more;
    assert n + (m - 1) * n == m * n;
    forall i, j | 0 <= i < m && 0 <= j < n ensures DeliversOne(env, r, mail, t, users[i], t.list[j], ds, i * n + j) {
      Row(i, j, n, m);
      if i == 0 {
        DeliveredFirst(env, r, mail, t, users[0], user, j, first, more);
      } else {
        assert users[1..][i - 1] == users[i];
        assert DeliversOne(env, r, mail, t, users[i], t.list[j], more, (i - 1) * n + j);
        DeliveredLater(env, r, mail, t, users[i], t.list[j], first, more, (i - 1) * n + j);
      }
    }
  }

  lemma DeliveredFirst<S>(env: Env<S>, r: Rule, mail: Mail<S>, t: Action, name: string, user: User, j: nat, first: seq<Delivery>, more: seq<Delivery>)
    requires j < |t.list| && t.list[j].Deliver? && env.lookup(env.replace(name, mail)) == Some(user)
    requires |first| == |t.list| && first[j] == Delivery(t.name, t.list[j].what, user, r.idx)
    ensures DeliversOne(env, r, mail, t, name, t.list[j], first + more, j)
  {
  }

  lemma DeliveredLater<S>(env: Env<S>, r: Rule, mail: Mail<S>, t: Action, name: string, item: ActItem, first: seq<Delivery>, more: seq<Delivery>, k: int)
    requires DeliversOne(env, r, mail, t, name, item, more, k)
    ensures DeliversOne(env, r, mail, t, name, item, first + more, |first| + k)
  {
  }

  /**
   * An action that is a list of deliveries is carried out for each of its recipients in turn, item by item; it has no
   * expansion exactly if one of them is not known.
   */
  lemma ActionForUsers<S>(env: Env<S>, r: Rule, mail: Mail<S>, t: Action, users: seq<string>, depth: nat)
    requires OnlyDeliveries(t.list) && Recipients(env, r, t, users)
    ensures var e := Expand(env, r, mail, WorkActions([t]), depth);
            && (e.Expansion? <==> forall u :: u in users ==> Known(env, mail, u))
            && (e.Expansion? ==> e.chains == 0 && DeliversAll(env, r, mail, t, users, e.deliveries))
  {
    hide DeliversAll, Known;
    UsersOutside(env, r, mail, t, users, depth);
    var e := Expand(env, r, mail, WorkUsers(t, users), depth);
    assert Expand(env, r, mail, WorkActions([t][1..]), depth) == Expansion([], 0);
    assert e.Expansion? ==> e.deliveries + [] == e.deliveries;
  }

  /** The same work with more of the same behind it. */
  predicate Longer(work: Work, more: Work, both: Work) {
    match work
    case WorkChain(_) => false
    case WorkNames(names) => more.WorkNames? && both == WorkNames(names + more.names)
    case WorkActions(actions) => more.WorkActions? && both == WorkActions(actions + more.actions)
    case WorkUsers(t, users) => more.WorkUsers? && more.action == t && both == WorkUsers(t, users + more.users)
    case WorkItems(t, items, user) => more.WorkItems? && more.action == t && more.user == user && both == WorkItems(t, items + more.items, user)
  }

  /** Deliveries are in the order of the names, actions, users and items they come from, and the lists entered add up. */
  lemma {:induction false} ExpandInOrder<S>(env: Env<S>, r: Rule, mail: Mail<S>, work: Work, more: Work, both: Work, depth: nat)
    requires Longer(work, more, both)
    ensures var a, b, e := Expand(env, r, mail, work, depth), Expand(env, r, mail, more, depth), Expand(env, r, mail, both, depth);
            && (e.Expansion? <==> a.Expansion? && b.Expansion?)
            && (e.Expansion? ==> e.deliveries == a.deliveries + b.deliveries && e.chains == a.chains + b.chains)
    decreases work.Len()
  {
    hide MatchActions, DeliveryUsers, FindUser, Longer, FirstPiece, RestOf, Expand;
    if work.Len() == 0 {
      NoneLonger(env, r, mail, work, more, both, depth);
    } else {
      SameStart(env, r, mail, work, more, both);
      ExpandInOrder(env, r, mail, RestOf(work), more, RestOf(both), depth);
      ExpandFirst(env, r, mail, work, both, depth);
    }
  }

  lemma NoneLonger<S>(env: Env<S>, r: Rule, mail: Mail<S>, work: Work, more: Work, both: Work, depth: nat)
    requires Longer(work, more, both) && work.Len() == 0
    ensures both == more && Expand(env, r, mail, work, depth) == Expansion([], 0)
  {
  }

  /** Two pieces of work that start alike differ in what their rest expands to. */
  lemma ExpandFirst<S>(env: Env<S>, r: Rule, mail: Mail<S>, work: Work, both: Work, depth: nat)
    requires !work.WorkChain? && !both.WorkChain? && work.Len() > 0 && both.Len() > 0
    requires FirstPiece(env, r, mail, both) == FirstPiece(env, r, mail, work)
    ensures exists first: Expansion ::
              && Expand(env, r, mail, work, depth) == Then(first, Expand(env, r, mail, RestOf(work), depth))
              && Expand(env, r, mail, both, depth) == Then(first, Expand(env, r, mail, RestOf(both), depth))
  {
    hide FirstPiece, RestOf, Then;
    var first := match FirstPiece(env, r, mail, work) {
      case Settled(e) => e
      case Further(w) => Expand(env, r, mail, w, depth)
    };
    assert Expand(env, r, mail, work, depth) == Then(first, Expand(env, r, mail, RestOf(work), depth));
  }

  lemma SameStart<S>(env: Env<S>, r: Rule, mail: Mail<S>, work: Work, more: Work, both: Work)
    requires Longer(work, more, both) && work.Len() > 0
    ensures both.Len() > 0 && !both.WorkChain? && !work.WorkChain?
    ensures FirstPiece(env, r, mail, both) == FirstPiece(env, r, mail, work) && Longer(RestOf(work), more, RestOf(both))
  {
    match work
    case WorkNames(names) => assert (names + more.names)[1..] == names[1..] + more.names;
    case WorkActions(actions) => assert (actions + more.actions)[1..] == actions[1..] + more.actions;
    case WorkUsers(_, users) => assert (users + more.users)[1..] == users[1..] + more.users;
    case WorkItems(_, items, _) => assert (items + more.items)[1..] == items[1..] + more.items;
  }

  /** A name stands for all actions found under it, and for nothing if there are none; a list in an action, for its names. */
  lemma NamesAndLists<S>(env: Env<S>, r: Rule, mail: Mail<S>, name: string, t: Action, names: seq<string>, user: User, depth: nat)
    ensures var found := MatchActions(env, env.actions, env.replace(name, mail));
            && (found == [] ==> Expand(env, r, mail, WorkNames([name]), depth) == NoExpansion)
            && (found != [] ==> Expand(env, r, mail, WorkNames([name]), depth) == Expand(env, r, mail, WorkActions(found), depth))
    ensures Expand(env, r, mail, WorkItems(t, [Chain(names)], user), depth) == Expand(env, r, mail, WorkChain(names), depth)
    ensures Expand(env, r, mail, WorkChain(names), 0) == NoExpansion
    ensures var e, d := Expand(env, r, mail, WorkChain(names), depth + 1), Expand(env, r, mail, WorkNames(names), depth);
            && (e.Expansion? <==> d.Expansion?) && (e.Expansion? ==> e.deliveries == d.deliveries && e.chains == d.chains + 1)
  {
    hide MatchActions, DeliveryUsers, FindUser;
    var found := MatchActions(env, env.actions, env.replace(name, mail));
    var named := WorkNames([name]);
    assert RestOf(named) == WorkNames([]);
    assert Expand(env, r, mail, WorkNames([]), depth) == Expansion([], 0);
    ThenNothing(Expand(env, r, mail, WorkActions(found), depth));
    var item := WorkItems(t, [Chain(names)], user);
    assert RestOf(item) == WorkItems(t, [], user) && FirstPiece(env, r, mail, item) == Further(WorkChain(names));
    assert Expand(env, r, mail, WorkItems(t, [], user), depth) == Expansion([], 0);
    ThenNothing(Expand(env, r, mail, WorkChain(names), depth));
  }

  lemma ThenNothing(e: Expansion)
    ensures Then(e, Expansion([], 0)) == e
  {
    assert e.Expansion? ==> e.deliveries + [] == e.deliveries;
  }

  /** For its own action a rule has its own users, those of the account, or the default user. */
  ghost predicate RuleRecipients<S>(env: Env<S>, r: Rule, users: seq<string>) {
    && (r.users.Some? ==> users == r.users.value)
    && (r.users == None && env.accountUsers.Some? ==> users == env.accountUsers.value)
    && (r.users == None && env.accountUsers == None ==> users == [env.defUser])
  }

  /** Some work expands to these deliveries and enters at most four lists. */
  ghost predicate ExpandsTo<S>(env: Env<S>, r: Rule, mail: Mail<S>, work: Work, ds: seq<Delivery>) {
    exists d: nat, n: nat :: n <= 4 && Expand(env, r, mail, work, d) == Expansion(ds, n)
  }

  /** A rule's own action comes first and the named ones after it; each may enter four lists. */
  lemma OwnActionFirst<S>(env: Env<S>, r: Rule, mail: Mail<S>, users: seq<string>, ds: seq<Delivery>)
    requires RuleRecipients(env, r, users)
    ensures RuleDeliveries(env, r, mail) == Some(ds) <==>
              exists own, named: seq<Delivery> ::
                && ds == own + named
                && (if r.lambda == None then own == [] else ExpandsTo(env, r, mail, WorkUsers(r.lambda.value, users), own))
                && (if r.actions == [] then named == [] else ExpandsTo(env, r, mail, WorkChain(r.actions), named))
  {
    hide Expand, Bounded, ExpandsTo;
    forall work: Work, own: seq<Delivery>
      ensures Bounded(env, r, mail, work, MAX_ACTION_CHAIN) == Some(own) <==> ExpandsTo(env, r, mail, work, own)
    {
      FourLists(env, r, mail, work, own);
    }
  }

  lemma FourLists<S>(env: Env<S>, r: Rule, mail: Mail<S>, work: Work, ds: seq<Delivery>)
    ensures Bounded(env, r, mail, work, MAX_ACTION_CHAIN) == Some(ds) <==> ExpandsTo(env, r, mail, work, ds)
  {
    forall d: nat, n: nat | n <= 4 && Expand(env, r, mail, work, d) == Expansion(ds, n)
      ensures Bounded(env, r, mail, work, MAX_ACTION_CHAIN) == Some(ds)
    {
      ExpandStable(env, r, mail, work, d, MAX_ACTION_CHAIN);
    }
    var e := Expand(env, r, mail, work, MAX_ACTION_CHAIN);
    assert Bounded(env, r, mail, work, MAX_ACTION_CHAIN) == Some(ds) ==> e == Expansion(ds, e.chains);
  }

}
