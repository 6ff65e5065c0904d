// The rule language of fdm.conf and what evaluating it means.
//
// The evaluator in this file is structurally recursive: it walks the rule tree, runs each matching rule's
// deliveries to the end before it looks at the next rule, and knows nothing about requests to the parent
// process. MailState.dfy holds the machine that does the same work one resumable step at a time.

module Rules {
  import opened Options

  datatype Decision = DecisionNone | DecisionDrop | DecisionKeep

  datatype Op = OpNone | OpAnd | OpOr

  datatype ExprItem = ExprItem(cond: nat, op: Op, inverted: bool)

  /** One entry of an action: a delivery, or a list of further action names. */
  datatype ActItem = Deliver(what: nat) | Chain(names: seq<string>)

  datatype Action = Action(name: string, users: Option<seq<string>>, list: seq<ActItem>)

  datatype Rule = Rule(idx: nat, expr: seq<ExprItem>, users: Option<seq<string>>, stop: bool,
                       rules: seq<Rule>, lambda: Option<Action>, actions: seq<string>)

  /** A mail: the decision the fetch loop will act on, and everything else (text, tags, regexp matches). */
  datatype Mail<S> = Mail(data: S, decision: Decision)

  datatype User = User(name: string, home: string, uid: nat, gid: nat)

  /** One queued delivery. */
  datatype Delivery = Delivery(action: string, what: nat, user: User, rule: nat)

  /** What a match function says at once: an error, a verdict, or that the parent has been asked. */
  datatype Check<S> = CheckError | CheckVerdict(value: bool, mail: Mail<S>) | CheckParent(mail: Mail<S>)

  /** What the parent's reply to a condition says. */
  datatype Answer<S> = AnswerError(mail: Mail<S>) | AnswerVerdict(value: bool, mail: Mail<S>)

  /** What starting a delivery leads to. */
  datatype Run<S> = RunError | RunDone(mail: Mail<S>) | RunParent(mail: Mail<S>)

  /** What the parent's reply to a delivery says. */
  datatype Finish<S> = FinishError | FinishDone(mail: Mail<S>)

  /**
   * Everything the evaluator does not decide itself: the match functions, the delivery functions, tag
   * replacement, file name matching of action names and the user database are arbitrary functions.
   */
  datatype Env<!S> = Env(
    check: (nat, Mail<S>, bool) -> Check<S>,
    answer: (nat, Mail<S>) -> Answer<S>,
    run: (Delivery, nat, Mail<S>) -> Run<S>,
    finish: (Delivery, Mail<S>) -> Finish<S>,
    replace: (string, Mail<S>) -> string,
    nameMatches: (string, string) -> bool,
    lookup: string -> Option<User>,
    actions: seq<Action>,
    accountUsers: Option<seq<string>>,
    defUser: string,
    implAct: Decision)

  const MAX_ACTION_CHAIN := 5

  // ---------------------------------------------------------------- expanding actions into deliveries

  datatype Work =
    | WorkChain(names: seq<string>)
    | WorkNames(names: seq<string>)
    | WorkActions(actions: seq<Action>)
    | WorkUsers(action: Action, users: seq<string>)
    | WorkItems(action: Action, items: seq<ActItem>, user: User)
  {
    function Rank(): nat {
      match this
      case WorkChain(_) => 0
      case WorkItems(_, _, _) => 1
      case WorkUsers(_, _) => 2
      case WorkActions(_) => 3
      case WorkNames(_) => 4
    }

    function Len(): nat {
      match this
      case WorkChain(names) => |names|
      case WorkNames(names) => |names|
      case WorkActions(actions) => |actions|
      case WorkUsers(_, users) => |users|
      case WorkItems(_, items, _) => |items|
    }
  }

  /** The deliveries some work stands for, and how many lists of action names were entered to find them. */
  datatype Expansion = NoExpansion | Expansion(deliveries: seq<Delivery>, chains: nat)

  function Then(a: Expansion, b: Expansion): Expansion {
    if a.NoExpansion? || b.NoExpansion? then NoExpansion
    else Expansion(a.deliveries + b.deliveries, a.chains + b.chains)
  }

  function MatchActions<S>(env: Env<S>, all: seq<Action>, pattern: string): (found: seq<Action>) {
    if all == [] then []
    else if env.nameMatches(pattern, all[0].name) then [all[0]] + MatchActions(env, all[1..], pattern)
    else MatchActions(env, all[1..], pattern)
  }

  /** Rule users come first, then the action's, then the account's, then the default user. */
  function DeliveryUsers<S>(env: Env<S>, r: Rule, t: Option<Action>): seq<string> {
    if r.users.Some? then r.users.value
    else if t.Some? && t.value.users.Some? then t.value.users.value
    else if env.accountUsers.Some? then env.accountUsers.value
    else [env.defUser]
  }

  function FindUser<S>(env: Env<S>, mail: Mail<S>, user: string): Option<User> {
    var name := env.replace(user, mail);
    if name == "" then None else env.lookup(name)
  }

  /** The first piece of some work: settled at once, or itself more work. */
  datatype Piece = Settled(expansion: Expansion) | Further(work: Work)

  function FirstPiece<S>(env: Env<S>, r: Rule, mail: Mail<S>, work: Work): (piece: Piece)
    requires !work.WorkChain? && work.Len() > 0
    ensures piece.Further? ==> piece.work.Rank() < work.Rank()
  {
    match work
    case WorkNames(names) =>
      var found := MatchActions(env, env.actions, env.replace(names[0], mail));
      if found == [] then Settled(NoExpansion) else Further(WorkActions(found))
    case WorkActions(actions) =>
      Further(WorkUsers(actions[0], DeliveryUsers(env, r, Some(actions[0]))))
    case WorkUsers(action, users) =>
      var u := FindUser(env, mail, users[0]);
      if u == None then Settled(NoExpansion) else Further(WorkItems(action, action.list, u.value))
    case WorkItems(action, items, user) =>
      match items[0]
      case Deliver(what) => Settled(Expansion([Delivery(action.name, what, user, r.idx)], 0))
      case Chain(names) => Further(WorkChain(names))
  }

  function RestOf(work: Work): (rest: Work)
    requires !work.WorkChain? && work.Len() > 0
    ensures rest.Rank() == work.Rank() && rest.Len() == work.Len() - 1
  {
    match work
    case WorkNames(names) => WorkNames(names[1..])
    case WorkActions(actions) => WorkActions(actions[1..])
    case WorkUsers(action, users) => WorkUsers(action, users[1..])
    case WorkItems(action, items, user) => WorkItems(action, items[1..], user)
  }

  /**
   * The depth-first expansion, users outside and items inside, with action lists nested at most depth deep.
   * Nothing is counted down while it goes: how many lists were entered is part of the result.
   */
  function Expand<S>(env: Env<S>, r: Rule, mail: Mail<S>, work: Work, depth: nat): Expansion
    decreases depth, work.Rank(), work.Len()
  {
    if work.WorkChain? then
      if depth == 0 then NoExpansion
      else Then(Expansion([], 1), Expand(env, r, mail, WorkNames(work.names), depth - 1))
    else if work.Len() == 0 then Expansion([], 0)
    else
      Then(match FirstPiece(env, r, mail, work) {
             case Settled(e) => e
             case Further(w) => Expand(env, r, mail, w, depth)
           },
           Expand(env, r, mail, RestOf(work), depth))
  }

  /** An expansion that enters n lists is the same at every depth from n on: depth only cuts off recursion. */
  lemma {:induction false} ExpandStable<S>(env: Env<S>, r: Rule, mail: Mail<S>, work: Work, depth: nat, other: nat)
    requires Expand(env, r, mail, work, depth).Expansion?
    requires Expand(env, r, mail, work, depth).chains <= other
    ensures Expand(env, r, mail, work, other) == Expand(env, r, mail, work, depth)
    decreases depth, work.Rank(), work.Len()
  {
    if work.WorkChain? {
      ExpandStable(env, r, mail, WorkNames(work.names), depth - 1, other - 1);
    } else if work.Len() > 0 {
      var first := FirstPiece(env, r, mail, work);
      if first.Further? {
        ExpandStable(env, r, mail, first.work, depth, other);
      }
      ExpandStable(env, r, mail, RestOf(work), depth, other);
    }
  }

  /** What the counter of chained actions lets through: fewer than limit lists entered. */
  function Bounded<S>(env: Env<S>, r: Rule, mail: Mail<S>, work: Work, limit: nat): Option<seq<Delivery>> {
    var e := Expand(env, r, mail, work, limit);
    if e.Expansion? && e.chains < limit then Some(e.deliveries) else None
  }

  /** The bound is exact: an expansion of any depth is accepted iff it enters fewer than limit lists. */
  lemma BoundedExact<S>(env: Env<S>, r: Rule, mail: Mail<S>, work: Work, limit: nat, ds: seq<Delivery>)
    ensures Bounded(env, r, mail, work, limit) == Some(ds) <==>
            exists depth: nat, n: nat :: n < limit && Expand(env, r, mail, work, depth) == Expansion(ds, n)
  {
    forall depth: nat, n: nat | n < limit && Expand(env, r, mail, work, depth) == Expansion(ds, n)
      ensures Bounded(env, r, mail, work, limit) == Some(ds)
    {
      ExpandStable(env, r, mail, work, depth, limit);
    }
    if Bounded(env, r, mail, work, limit) == Some(ds) {
      var n := Expand(env, r, mail, work, limit).chains;
      assert Expand(env, r, mail, work, limit) == Expansion(ds, n);
    }
  }

  /** Following some work for n steps, by any name, action, user or item and through any lists, leads to a list of names. */
  ghost predicate Leads<S>(env: Env<S>, r: Rule, mail: Mail<S>, work: Work, names: seq<string>, n: nat)
    decreases n, 0
  {
    || work == WorkChain(names)
    || (n > 0 &&
         if work.WorkChain? then Leads(env, r, mail, WorkNames(work.names), names, n - 1)
         else work.Len() > 0 &&
              (|| Leads(env, r, mail, RestOf(work), names, n - 1)
               || LeadsFirst(env, r, mail, FirstPiece(env, r, mail, work), names, n - 1)))
  }

  ghost predicate LeadsFirst<S>(env: Env<S>, r: Rule, mail: Mail<S>, piece: Piece, names: seq<string>, n: nat)
    decreases n, 1
  {
    piece.Further? && Leads(env, r, mail, piece.work, names, n)
  }

  /** Work that expands to some depth expands all lists it leads to. */
  lemma {:induction false} LedToExpands<S>(env: Env<S>, r: Rule, mail: Mail<S>, work: Work, names: seq<string>, n: nat, depth: nat)
    requires Leads(env, r, mail, work, names, n) && Expand(env, r, mail, work, depth).Expansion?
    ensures exists d: nat :: d <= depth && Expand(env, r, mail, WorkChain(names), d).Expansion?
    decreases n
  {
    if work == WorkChain(names) {
    } else if work.WorkChain? {
      LedToExpands(env, r, mail, WorkNames(work.names), names, n - 1, depth - 1);
    } else if Leads(env, r, mail, RestOf(work), names, n - 1) {
      LedToExpands(env, r, mail, RestOf(work), names, n - 1, depth);
    } else {
      LedToExpands(env, r, mail, FirstPiece(env, r, mail, work).work, names, n - 1, depth);
    }
  }

  /**
   * A list of names that leads back to itself has no expansion, however deep: by whatever name, action, user or item, and
   * through however many other lists.
   */
  lemma {:induction false} CycleNeverExpands<S>(env: Env<S>, r: Rule, mail: Mail<S>, names: seq<string>, n: nat, depth: nat)
    requires Leads(env, r, mail, WorkNames(names), names, n)
    ensures Expand(env, r, mail, WorkChain(names), depth) == NoExpansion
    decreases depth
  {
    if depth > 0 && Expand(env, r, mail, WorkNames(names), depth - 1).Expansion? {
      LedToExpands(env, r, mail, WorkNames(names), names, n, depth - 1);
      var d: nat :| d <= depth - 1 && Expand(env, r, mail, WorkChain(names), d).Expansion?;
      CycleNeverExpands(env, r, mail, names, n, d);
    }
  }

  /** Nor does any work that leads to such a list: its deliveries are never queued, with any limit. */
  lemma NothingBeforeCycle<S>(env: Env<S>, r: Rule, mail: Mail<S>, work: Work, names: seq<string>, m: nat, n: nat, limit: nat)
    requires Leads(env, r, mail, work, names, m) && Leads(env, r, mail, WorkNames(names), names, n)
    ensures Bounded(env, r, mail, work, limit) == None
  {
    if Expand(env, r, mail, work, limit).Expansion? {
      LedToExpands(env, r, mail, work, names, m, limit);
      var d: nat :| d <= limit && Expand(env, r, mail, WorkChain(names), d).Expansion?;
      CycleNeverExpands(env, r, mail, names, n, d);
    }
  }

  /** The shortest such cycle: the first item of the first action of the first name is the list itself. */
  lemma SelfReferenceNeverExpands<S>(env: Env<S>, r: Rule, mail: Mail<S>, names: seq<string>, t: Action,
                                     rest: seq<Action>, depth: nat)
    requires names != []
    requires MatchActions(env, env.actions, env.replace(names[0], mail)) == [t] + rest
    requires t.list != [] && t.list[0] == Chain(names)
    requires DeliveryUsers(env, r, Some(t)) != []
    ensures Expand(env, r, mail, WorkChain(names), depth) == NoExpansion
  {
    var users := DeliveryUsers(env, r, Some(t));
    var u := FindUser(env, mail, users[0]);
    if u.Some? {
      var items := WorkItems(t, t.list, u.value);
      assert FirstPiece(env, r, mail, items) == Further(WorkChain(names));
      assert Leads(env, r, mail, items, names, 1);
      assert FirstPiece(env, r, mail, WorkUsers(t, users)) == Further(items);
      assert Leads(env, r, mail, WorkUsers(t, users), names, 2);
      assert FirstPiece(env, r, mail, WorkActions([t] + rest)) == Further(WorkUsers(t, users));
      assert Leads(env, r, mail, WorkActions([t] + rest), names, 3);
      assert Leads(env, r, mail, WorkNames(names), names, 4);
      CycleNeverExpands(env, r, mail, names, 4, depth);
    } else if depth > 0 {
      assert Expand(env, r, mail, WorkUsers(t, users), depth - 1) == NoExpansion;
      assert FirstPiece(env, r, mail, WorkActions([t] + rest)) == Further(WorkUsers(t, users));
      assert Expand(env, r, mail, WorkActions([t] + rest), depth - 1) == NoExpansion;
      assert FirstPiece(env, r, mail, WorkNames(names)) == Further(WorkActions([t] + rest));
    }
  }

  /** All deliveries of a matching rule: its own action first, then the named ones, each with a fresh counter. */
  function RuleDeliveries<S>(env: Env<S>, r: Rule, mail: Mail<S>): Option<seq<Delivery>> {
    var own := if r.lambda == None then Some([])
               else Bounded(env, r, mail, WorkUsers(r.lambda.value, DeliveryUsers(env, r, None)), MAX_ACTION_CHAIN);
    var named := if r.actions == [] then Some([])
                 else Bounded(env, r, mail, WorkChain(r.actions), MAX_ACTION_CHAIN);
    if own == None || named == None then None else Some(own.value + named.value)
  }

  lemma {:induction false} ExpandTagged<S>(env: Env<S>, r: Rule, mail: Mail<S>, work: Work, depth: nat)
    ensures var e := Expand(env, r, mail, work, depth);
            e.Expansion? ==> forall d :: d in e.deliveries ==> d.rule == r.idx
    decreases depth, work.Rank(), work.Len()
  {
    if work.WorkChain? {
      if depth > 0 {
        ExpandTagged(env, r, mail, WorkNames(work.names), depth - 1);
      }
    } else if work.Len() > 0 {
      var first := FirstPiece(env, r, mail, work);
      if first.Further? {
        ExpandTagged(env, r, mail, first.work, depth);
      }
      ExpandTagged(env, r, mail, RestOf(work), depth);
    }
  }

  /** Every delivery of a rule carries that rule's number. */
  lemma DeliveriesTagged<S>(env: Env<S>, r: Rule, mail: Mail<S>)
    ensures var ds := RuleDeliveries(env, r, mail);
            ds.Some? ==> forall d :: d in ds.value ==> d.rule == r.idx
  {
    if r.lambda.Some? {
      ExpandTagged(env, r, mail, WorkUsers(r.lambda.value, DeliveryUsers(env, r, None)), MAX_ACTION_CHAIN);
    }
    ExpandTagged(env, r, mail, WorkChain(r.actions), MAX_ACTION_CHAIN);
  }

  // ---------------------------------------------------------------- evaluating rules

  /** Everything observable: each condition tried and each delivery started, in order, with the mail it saw. */
  datatype Event<S> = Tried(cond: nat, mail: Mail<S>) | Started(delivery: Delivery, ruleidx: nat, mail: Mail<S>)

  datatype World<S> = World(mail: Mail<S>, matched: bool, trace: seq<Event<S>>)

  datatype Result<S> = Bad(trace: seq<Event<S>>) | Next(world: World<S>) | Stop(world: World<S>)

  datatype ExprResult<S> = ExprBad(trace: seq<Event<S>>) | ExprValue(value: bool, world: World<S>)

  datatype Final<S> = Failed(trace: seq<Event<S>>) | Finished(world: World<S>)

  function Combine(op: Op, before: bool, item: bool): bool {
    match op
    case OpNone => item
    case OpAnd => before && item
    case OpOr => before || item
  }

  predicate ShortCircuit(op: Op, before: bool) {
    (op == OpAnd && !before) || (op == OpOr && before)
  }

  /** The parent's answer to a condition, taken up by the item that asked. */
  function ItemAnswered<S>(a: Answer<S>, ei: ExprItem, before: bool, w: World<S>): ExprResult<S> {
    match a
    case AnswerError(_) => ExprBad(w.trace)
    case AnswerVerdict(v, mail) => ExprValue(Combine(ei.op, before, v != ei.inverted), w.(mail := mail))
  }

  /** One expression item, given the value of the expression before it. */
  function EvalItem<S>(env: Env<S>, ei: ExprItem, before: bool, w: World<S>): ExprResult<S> {
    if ShortCircuit(ei.op, before) then ExprValue(before, w)
    else
      var w1 := w.(trace := w.trace + [Tried(ei.cond, w.mail)]);
      match env.check(ei.cond, w.mail, w.matched)
      case CheckError => ExprBad(w1.trace)
      case CheckVerdict(v, mail) => ExprValue(Combine(ei.op, before, v != ei.inverted), w1.(mail := mail))
      case CheckParent(mail) => ItemAnswered(env.answer(ei.cond, mail), ei, before, w1.(mail := mail))
  }

  /** A flat expression associates to the left: its last operator is applied last. */
  function EvalExpr<S>(env: Env<S>, items: seq<ExprItem>, w: World<S>): ExprResult<S> {
    if items == [] then ExprValue(false, w)
    else
      match EvalExpr(env, items[..|items| - 1], w)
      case ExprBad(trace) => ExprBad(trace)
      case ExprValue(before, w1) => EvalItem(env, items[|items| - 1], before, w1)
  }

  /** The parent's answer to a delivery. */
  function DeliveryFinished<S>(f: Finish<S>, w: World<S>): Result<S> {
    match f
    case FinishError => Bad(w.trace)
    case FinishDone(mail) => Next(w.(mail := mail))
  }

  function RunOne<S>(env: Env<S>, d: Delivery, w: World<S>): Result<S> {
    var w1 := w.(trace := w.trace + [Started(d, d.rule, w.mail)]);
    match env.run(d, d.rule, w.mail)
    case RunError => Bad(w1.trace)
    case RunDone(mail) => Next(w1.(mail := mail))
    case RunParent(mail) => DeliveryFinished(env.finish(d, mail), w1.(mail := mail))
  }

  function RunAll<S>(env: Env<S>, ds: seq<Delivery>, w: World<S>): Result<S> {
    if ds == [] then Next(w)
    else
      match RunOne(env, ds[0], w)
      case Next(w1) => RunAll(env, ds[1..], w1)
      case other => other
  }

  function StopIf<S>(stop: bool, res: Result<S>): Result<S> {
    if stop && res.Next? then Stop(res.world) else res
  }

  /**
   * A rule whose expression is true. A rule with nested rules runs them and delivers nothing itself; a stop
   * rule with nested rules (which the configuration grammar cannot produce) ends everything before them.
   */
  function EvalMatched<S>(env: Env<S>, r: Rule, w: World<S>): Result<S>
    decreases r, 0
  {
    if r.rules != [] then if r.stop then Stop(w) else EvalRules(env, r.rules, w)
    else
      var w1 := w.(matched := true);
      match RuleDeliveries(env, r, w1.mail)
      case None => Bad(w1.trace)
      case Some(ds) => StopIf(r.stop, RunAll(env, ds, w1))
  }

  function EvalRules<S>(env: Env<S>, rules: seq<Rule>, w: World<S>): Result<S>
    decreases rules
  {
    if rules == [] then Next(w)
    else
      match EvalExpr(env, rules[0].expr, w)
      case ExprBad(trace) => Bad(trace)
      case ExprValue(false, w1) => EvalRules(env, rules[1..], w1)
      case ExprValue(true, w1) =>
        match EvalMatched(env, rules[0], w1)
        case Next(w2) => EvalRules(env, rules[1..], w2)
        case other => other
  }

  /** Rules are tried in order: what follows is tried with what the rules before leave, and not at all once they stop. */
  lemma {:induction false} RulesInOrder<S>(env: Env<S>, first: seq<Rule>, rest: seq<Rule>, w: World<S>)
    ensures var res := EvalRules(env, first, w);
            EvalRules(env, first + rest, w) == if res.Next? then EvalRules(env, rest, res.world) else res
    decreases |first|
  {
    hide EvalExpr, EvalMatched;
    if first == [] {
      assert first + rest == rest;
    } else {
      assert (first + rest)[1..] == first[1..] + rest;
      var value := EvalExpr(env, first[0].expr, w);
      if value.ExprValue? {
        RulesInOrder(env, first[1..], rest, value.world);
        var matched := EvalMatched(env, first[0], value.world);
        if matched.Next? {
          RulesInOrder(env, first[1..], rest, matched.world);
        }
      }
    }
  }

  /** A matching stop rule, however deeply nested, ends everything: rules after it make no difference. */
  lemma StopEndsAll<S>(env: Env<S>, first: seq<Rule>, rest: seq<Rule>, w: World<S>)
    requires EvalRules(env, first, w).Stop?
    ensures EvalMail(env, first + rest, w) == Finished(EvalRules(env, first, w).world)
  {
    RulesInOrder(env, first, rest, w);
  }

  /** Reaching the end of the ruleset takes the configured decision; with none configured the mail is kept. */
  function Implicit<S>(env: Env<S>, w: World<S>): World<S> {
    w.(mail := w.mail.(decision := if env.implAct == DecisionDrop then DecisionDrop else DecisionKeep))
  }

  function Conclude<S>(env: Env<S>, res: Result<S>): Final<S> {
    match res
    case Bad(trace) => Failed(trace)
    case Stop(w) => Finished(w)
    case Next(w) => Finished(Implicit(env, w))
  }

  /** What a whole ruleset does to a mail. */
  function EvalMail<S>(env: Env<S>, rules: seq<Rule>, w: World<S>): Final<S> {
    Conclude(env, EvalRules(env, rules, w))
  }
}
