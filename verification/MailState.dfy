// The resumable matching machine: one call of MailMatch or MailDeliver does one small step of one mail's
// evaluation, and may leave it waiting for a reply from the parent process.
//
// The machine is proved against the structurally recursive evaluator of Rules.dfy: Meaning() says what the
// evaluator would still make of the mail from here, every step keeps it, and the step that reports the mail
// done or failed reports exactly that.

module MailState {
  import opened Options
  import opened Rules

  datatype Code = MailContinue | MailToDeliver | MailToMatch | MailError | MailBlocked | MailDone

  /** A reply from the parent. Which part is read depends on what the mail was waiting for. */
  datatype Body<S> = ConditionDone(answer: Answer<S>) | DeliveryDone(finish: Finish<S>)

  datatype Msg<S> = Msg(id: nat, body: Body<S>)

  // ---------------------------------------------------------------- the evaluator, seen from the middle

  /** The remaining items of an expression, left to right. */
  function FoldItems<S>(env: Env<S>, items: seq<ExprItem>, before: bool, w: World<S>): ExprResult<S> {
    if items == [] then ExprValue(before, w)
    else
      match EvalItem(env, items[0], before, w)
      case ExprBad(trace) => ExprBad(trace)
      case ExprValue(now, w1) => FoldItems(env, items[1..], now, w1)
  }

  lemma {:induction false} FoldLast<S>(env: Env<S>, items: seq<ExprItem>, ei: ExprItem, before: bool, w: World<S>)
    ensures FoldItems(env, items + [ei], before, w) ==
            match FoldItems(env, items, before, w)
            case ExprBad(trace) => ExprBad(trace)
            case ExprValue(now, w1) => EvalItem(env, ei, now, w1)
  {
    if items == [] {
      assert [ei][1..] == [];
    } else {
      assert (items + [ei])[1..] == items[1..] + [ei];
      match EvalItem(env, items[0], before, w)
      case ExprBad(_) =>
      case ExprValue(now, w1) => FoldLast(env, items[1..], ei, now, w1);
    }
  }

  /** Going left to right with a running result is evaluating the left-associated expression. */
  lemma {:induction false} FoldIsEvalExpr<S>(env: Env<S>, items: seq<ExprItem>, w: World<S>)
    ensures FoldItems(env, items, false, w) == EvalExpr(env, items, w)
  {
    if items != [] {
      var init := items[..|items| - 1];
      FoldIsEvalExpr(env, init, w);
      FoldLast(env, init, items[|items| - 1], false, w);
      assert items == init + [items[|items| - 1]];
    }
  }

  /** Each stack entry starts with the rule whose nested list is open. */
  predicate Opened(stack: seq<seq<Rule>>) {
    forall i :: 0 <= i < |stack| ==> stack[i] != []
  }

  /** The rules from here on, then the rules after each rule whose nested list is open, innermost first. */
  function EvalUp<S>(env: Env<S>, rules: seq<Rule>, stack: seq<seq<Rule>>, w: World<S>): Result<S>
    requires Opened(stack)
    decreases |stack|
  {
    match EvalRules(env, rules, w)
    case Next(w1) => if stack == [] then Next(w1) else EvalUp(env, stack[|stack| - 1][1..], stack[..|stack| - 1], w1)
    case other => other
  }

  /** What follows once the expression of the first rule has a value. */
  function AfterExpr<S>(env: Env<S>, value: ExprResult<S>, rules: seq<Rule>, stack: seq<seq<Rule>>): Result<S>
    requires rules != [] && Opened(stack)
  {
    match value
    case ExprBad(trace) => Bad(trace)
    case ExprValue(false, w) => EvalUp(env, rules[1..], stack, w)
    case ExprValue(true, w) =>
      match EvalMatched(env, rules[0], w)
      case Next(w1) => EvalUp(env, rules[1..], stack, w1)
      case other => other
  }

  lemma EvalUpUnfold<S>(env: Env<S>, rules: seq<Rule>, stack: seq<seq<Rule>>, w: World<S>)
    requires rules != [] && Opened(stack)
    ensures EvalUp(env, rules, stack, w) == AfterExpr(env, FoldItems(env, rules[0].expr, false, w), rules, stack)
  {
    FoldIsEvalExpr(env, rules[0].expr, w);
  }

  /** Entering a nested list with the parent rule stacked is evaluating the parent rule's body. */
  lemma EvalUpNested<S>(env: Env<S>, rules: seq<Rule>, stack: seq<seq<Rule>>, w: World<S>)
    requires rules != [] && rules[0].rules != [] && !rules[0].stop && Opened(stack)
    ensures EvalUp(env, rules[0].rules, stack + [rules], w) == AfterExpr(env, ExprValue(true, w), rules, stack)
  {
    assert (stack + [rules])[..|stack|] == stack;
  }

  /** Every rule has at least one expression item, as the configuration grammar guarantees. */
  predicate WellFormed(rules: seq<Rule>) {
    rules != [] ==> rules[0].expr != [] && WellFormed(rules[0].rules) && WellFormed(rules[1..])
  }

  // ---------------------------------------------------------------- how much is left to visit

  function Size(rules: seq<Rule>): nat {
    if rules == [] then 0 else 1 + Size(rules[0].rules) + Size(rules[1..])
  }

  function StackSize(stack: seq<seq<Rule>>): nat
    requires Opened(stack)
  {
    if stack == [] then 0 else Size(stack[|stack| - 1][1..]) + StackSize(stack[..|stack| - 1])
  }

  /** Rules not visited yet, items left in the current expression, queued deliveries, and whether delivering. */
  datatype Measure = Measure(rules: nat, items: nat, queued: nat, delivering: nat)
  {
    predicate Below(m: Measure) {
      || rules < m.rules
      || (rules == m.rules && items < m.items)
      || (rules == m.rules && items == m.items && queued < m.queued)
      || (rules == m.rules && items == m.items && queued == m.queued && delivering < m.delivering)
    }
  }

  // ---------------------------------------------------------------- expansion with a counter

  /** What some work adds to the queue, and what is left of the counter. */
  datatype Filled = NotFilled | Filled(deliveries: seq<Delivery>, left: nat)

  function Fill<S>(env: Env<S>, r: Rule, mail: Mail<S>, work: Work, counter: nat): Filled {
    var e := Expand(env, r, mail, work, counter);
    if e.Expansion? && e.chains < counter then Filled(e.deliveries, counter - e.chains) else NotFilled
  }

  function Prepend(sum: seq<Delivery>, f: Filled): Filled {
    if f.NotFilled? then NotFilled else Filled(sum + f.deliveries, f.left)
  }

  lemma PrependTwice(sum: seq<Delivery>, more: seq<Delivery>, f: Filled)
    ensures Prepend(sum, Prepend(more, f)) == Prepend(sum + more, f)
  {
    if f.Filled? {
      assert sum + (more + f.deliveries) == sum + more + f.deliveries;
    }
  }

  function FillThen<S>(env: Env<S>, r: Rule, mail: Mail<S>, first: Filled, work: Work): Filled {
    if first.NotFilled? then NotFilled else Prepend(first.deliveries, Fill(env, r, mail, work, first.left))
  }

  /**
   * Running two pieces of work one after the other with one falling counter is the same as expanding both at
   * full depth and comparing the sum of the lists entered with the limit.
   */
  lemma FillSequence<S>(env: Env<S>, r: Rule, mail: Mail<S>, first: Expansion, b: Work, counter: nat)
    ensures (if first.Expansion? && first.chains < counter
             then FillThen(env, r, mail, Filled(first.deliveries, counter - first.chains), b) else NotFilled) ==
            var e := Then(first, Expand(env, r, mail, b, counter));
            if e.Expansion? && e.chains < counter then Filled(e.deliveries, counter - e.chains) else NotFilled
  {
    hide Expand;
    var eb := Expand(env, r, mail, b, counter);
    if first.Expansion? && first.chains < counter {
      var left := counter - first.chains;
      var el := Expand(env, r, mail, b, left);
      if el.Expansion? && el.chains < left {
        ExpandStable(env, r, mail, b, left, counter);
      }
      if eb.Expansion? && eb.chains < left {
        ExpandStable(env, r, mail, b, counter, left);
      }
    }
  }

  /** One piece of work, then the rest of it, with the same falling counter. */
  function FillStep<S>(env: Env<S>, r: Rule, mail: Mail<S>, work: Work, counter: nat): Filled
    requires !work.WorkChain? && work.Len() > 0
  {
    var first := match FirstPiece(env, r, mail, work) {
      case Settled(e) => if e.NoExpansion? || e.chains >= counter then NotFilled else Filled(e.deliveries, counter - e.chains)
      case Further(w) => Fill(env, r, mail, w, counter)
    };
    FillThen(env, r, mail, first, RestOf(work))
  }

  /** Counting down while going through the work is the same as bounding the whole expansion. */
  lemma FillUnfold<S>(env: Env<S>, r: Rule, mail: Mail<S>, work: Work, counter: nat)
    requires !work.WorkChain? && work.Len() > 0
    ensures Fill(env, r, mail, work, counter) == FillStep(env, r, mail, work, counter)
  {
    hide Expand, FirstPiece, RestOf;
    ExpandUnfold(env, r, mail, work, counter);
    FillSequence(env, r, mail, ExpandFirst(env, r, mail, work, counter), RestOf(work), counter);
  }

  function ExpandFirst<S>(env: Env<S>, r: Rule, mail: Mail<S>, work: Work, depth: nat): Expansion
    requires !work.WorkChain? && work.Len() > 0
  {
    match FirstPiece(env, r, mail, work)
    case Settled(e) => e
    case Further(w) => Expand(env, r, mail, w, depth)
  }

  lemma ExpandUnfold<S>(env: Env<S>, r: Rule, mail: Mail<S>, work: Work, depth: nat)
    requires !work.WorkChain? && work.Len() > 0
    ensures Expand(env, r, mail, work, depth) == Then(ExpandFirst(env, r, mail, work, depth), Expand(env, r, mail, RestOf(work), depth))
  {
    hide FirstPiece, RestOf;
  }

  /** Entering a list of names costs one. */
  lemma FillChain<S>(env: Env<S>, r: Rule, mail: Mail<S>, names: seq<string>, counter: nat)
    ensures Fill(env, r, mail, WorkChain(names), counter) ==
            if counter <= 1 then NotFilled else Fill(env, r, mail, WorkNames(names), counter - 1)
  {
  }

  /** No work left adds nothing. */
  lemma FillNothing<S>(env: Env<S>, r: Rule, mail: Mail<S>, work: Work, counter: nat)
    requires !work.WorkChain? && work.Len() == 0 && counter > 0
    ensures Fill(env, r, mail, work, counter) == Filled([], counter)
  {
  }

  /** One mail's progress through the ruleset. A pointer into a list is the rest of the list; null is []. */
  class MailCtx<S(!new)> {
    const env: Env<S>
    const idx: nat

    var done: bool
    var msgid: nat
    var ruleidx: nat
    var rule: seq<Rule>
    var stack: seq<seq<Rule>>
    var expritem: seq<ExprItem>
    var result: bool
    var matched: bool
    var dqueue: seq<Delivery>
    var mail: Mail<S>
    var chained: nat

    var trace: seq<Event<S>>  // what has been tried and started so far
    ghost var entered: nat  // lists of action names entered

    ghost predicate Valid()
      reads this
    {
      && idx > 0
      && (msgid == 0 || msgid == idx)
      && WellFormed(rule)
      && Opened(stack)
      && (forall i :: 0 <= i < |stack| ==> WellFormed(stack[i]))
      && (rule == [] ==> stack == [])
      && (expritem != [] ==> rule != [] && dqueue == [] && !done)
      && (msgid != 0 ==> expritem != [] || dqueue != [])
      && (forall d :: d in dqueue ==> d.rule == ruleidx)
    }

    function Now(): World<S>
      reads this
    {
      World(mail, matched, trace)
    }

    /** What the recursive evaluator makes of this mail from here on. */
    ghost function Remaining(): Result<S>
      requires Valid()
      reads this
    {
      if dqueue != [] then
        match (if msgid != 0 then DeliveryFinished(env.finish(dqueue[0], mail), Now()) else RunOne(env, dqueue[0], Now()))
        case Next(w) =>
          (match RunAll(env, dqueue[1..], w)
           case Next(w1) => if done then Stop(w1) else EvalUp(env, rule, stack, w1)
           case other => other)
        case other => other
      else if msgid != 0 then
        match ItemAnswered(env.answer(expritem[0].cond, mail), expritem[0], result, Now())
        case ExprBad(t) => Bad(t)
        case ExprValue(now, w) => AfterExpr(env, FoldItems(env, expritem[1..], now, w), rule, stack)
      else if done then Stop(Now())
      else if expritem != [] then AfterExpr(env, FoldItems(env, expritem, result, Now()), rule, stack)
      else EvalUp(env, rule, stack, Now())
    }

    ghost function Meaning(): Final<S>
      requires Valid()
      reads this
    {
      Conclude(env, Remaining())
    }

    ghost function Left(delivering: bool): Measure
      requires Valid()
      reads this
    {
      Measure(Size(rule) + StackSize(stack),
              if rule == [] || done then 0 else if expritem == [] then |rule[0].expr| else |expritem|,
              |dqueue|,
              if delivering then 1 else 0)
    }

    /** The reply a mail is waiting for. */
    function Awaited(): Body<S>
      requires Valid() && msgid != 0
      reads this
    {
      if dqueue != [] then DeliveryDone(env.finish(dqueue[0], mail))
      else ConditionDone(env.answer(expritem[0].cond, mail))
    }

    /** A message with this mail's outstanding id answers this mail's outstanding request. */
    ghost predicate Answers(msg: Option<Msg<S>>)
      requires Valid()
      reads this
    {
      msgid != 0 && msg.Some? && msg.value.id == msgid ==> msg.value.body == Awaited()
    }

    constructor (env: Env<S>, idx: nat, rules: seq<Rule>, mail: Mail<S>)
      requires idx > 0 && WellFormed(rules)
      ensures Valid() && this.env == env && this.idx == idx
      ensures msgid == 0 && dqueue == []
      ensures Meaning() == EvalMail(env, rules, World(mail, false, []))
    {
      this.env, this.idx := env, idx;
      done, msgid, ruleidx := false, 0, 0;
      rule, stack, expritem := rules, [], [];
      result, matched, dqueue, this.mail, chained := false, false, [], mail, 0;
      trace, entered := [], 0;
    }

    // ---- expanding actions into the delivery queue

    /** The queue grew by exactly what was filled, or something did not fit. */
    twostate predicate FilledTo(filled: Filled, ok: bool, added: seq<Delivery>)
      reads this
    {
      && chained <= old(chained)
      && entered + chained == old(entered + chained)
      && (ok ==> chained > 0)
      && dqueue == old(dqueue) + added
      && filled == (if ok then Filled(added, chained) else NotFilled)
    }

    method FillFromStrings(r: Rule, names: seq<string>) returns (ok: bool, ghost added: seq<Delivery>)
      requires chained > 0
      modifies this`chained, this`dqueue, this`entered
      ensures FilledTo(Fill(env, r, mail, WorkChain(names), old(chained)), ok, added)
      decreases chained, 0
    {
      hide Expand, Fill, MatchActions;
      FillChain(env, r, mail, names, chained);
      chained, entered := chained - 1, entered + 1;
      added := [];
      if chained == 0 {
        return false, added;
      }
      ghost var start := chained;
      var rest := names;
      while rest != []
        decreases |rest|
        invariant 0 < chained <= start
        invariant entered + chained == old(entered + chained)
        invariant dqueue == old(dqueue) + added
        invariant Fill(env, r, mail, WorkNames(names), start) ==
                  Prepend(added, Fill(env, r, mail, WorkNames(rest), chained))
      {
        ghost var more;
        var found := MatchActions(env, env.actions, env.replace(rest[0], mail));
        FillUnfold(env, r, mail, WorkNames(rest), chained);
        ok, more := FillFromString(r, rest[0]);
        if !ok {
          added := added + more;
          return;
        }
        PrependTwice(added, more, Fill(env, r, mail, WorkNames(rest[1..]), chained));
        added := added + more;
        rest := rest[1..];
      }
      FillNothing(env, r, mail, WorkNames(rest), chained);
      ok := true;
    }

    method FillFromString(r: Rule, name: string) returns (ok: bool, ghost added: seq<Delivery>)
      requires chained > 0
      modifies this`chained, this`dqueue, this`entered
      ensures var found := MatchActions(env, env.actions, env.replace(name, mail));
              FilledTo(if found == [] then NotFilled else Fill(env, r, mail, WorkActions(found), old(chained)), ok, added)
      decreases chained, 2
    {
      var found := MatchActions(env, env.actions, env.replace(name, mail));
      hide Expand, Fill, MatchActions;
      added := [];
      if found == [] {
        return false, added;
      }
      ghost var start := chained;
      var rest := found;
      while rest != []
        decreases |rest|
        invariant 0 < chained <= start
        invariant entered + chained == old(entered + chained)
        invariant dqueue == old(dqueue) + added
        invariant Fill(env, r, mail, WorkActions(found), start) ==
                  Prepend(added, Fill(env, r, mail, WorkActions(rest), chained))
      {
        ghost var more;
        var users := DeliveryUsers(env, r, Some(rest[0]));
        FillUnfold(env, r, mail, WorkActions(rest), chained);
        ok, more := FillFromAction(r, rest[0], users);
        if !ok {
          added := added + more;
          return;
        }
        PrependTwice(added, more, Fill(env, r, mail, WorkActions(rest[1..]), chained));
        added := added + more;
        rest := rest[1..];
      }
      FillNothing(env, r, mail, WorkActions(rest), chained);
      ok := true;
    }

    method FillFromAction(r: Rule, t: Action, users: seq<string>) returns (ok: bool, ghost added: seq<Delivery>)
      requires chained > 0
      modifies this`chained, this`dqueue, this`entered
      ensures FilledTo(Fill(env, r, mail, WorkUsers(t, users), old(chained)), ok, added)
      decreases chained, 1, 1
    {
      hide Expand, Fill, MatchActions;
      added := [];
      ghost var start := chained;
      var rest := users;
      while rest != []
        decreases |rest|
        invariant 0 < chained <= start
        invariant entered + chained == old(entered + chained)
        invariant dqueue == old(dqueue) + added
        invariant Fill(env, r, mail, WorkUsers(t, users), start) ==
                  Prepend(added, Fill(env, r, mail, WorkUsers(t, rest), chained))
      {
        ghost var more;
        FillUnfold(env, r, mail, WorkUsers(t, rest), chained);
        var user := FindUser(env, mail, rest[0]);
        if user == None {
          return false, added;
        }
        ok, more := FillFromItems(r, t, user.value);
        if !ok {
          added := added + more;
          return;
        }
        PrependTwice(added, more, Fill(env, r, mail, WorkUsers(t, rest[1..]), chained));
        added := added + more;
        rest := rest[1..];
      }
      FillNothing(env, r, mail, WorkUsers(t, rest), chained);
      ok := true;
    }

    /** The inner loop of FillFromAction: one user, every item of the action. */
    method FillFromItems(r: Rule, t: Action, user: User) returns (ok: bool, ghost added: seq<Delivery>)
      requires chained > 0
      modifies this`chained, this`dqueue, this`entered
      ensures FilledTo(Fill(env, r, mail, WorkItems(t, t.list, user), old(chained)), ok, added)
      decreases chained, 1, 0
    {
      hide Expand, Fill, MatchActions;
      added := [];
      ghost var start := chained;
      var items := t.list;
      while items != []
        decreases |items|
        invariant 0 < chained <= start
        invariant entered + chained == old(entered + chained)
        invariant dqueue == old(dqueue) + added
        invariant Fill(env, r, mail, WorkItems(t, t.list, user), start) ==
                  Prepend(added, Fill(env, r, mail, WorkItems(t, items, user), chained))
      {
        ghost var more;
        FillUnfold(env, r, mail, WorkItems(t, items, user), chained);
        match items[0] {
          case Chain(names) =>
            ok, more := FillFromStrings(r, names);
            if !ok {
              added := added + more;
              return;
            }
          case Deliver(what) =>
            var dctx := Delivery(t.name, what, user, r.idx);
            dqueue := dqueue + [dctx];
            more := [dctx];
        }
        PrependTwice(added, more, Fill(env, r, mail, WorkItems(t, items[1..], user), chained));
        added := added + more;
        items := items[1..];
      }
      FillNothing(env, r, mail, WorkItems(t, items, user), chained);
      ok := true;
    }

    // ---- one step

    method ApplyResult(ei: ExprItem, item: bool)
      modifies this`result
      ensures result == Combine(ei.op, old(result), item != ei.inverted)
      ensures ei.op == OpNone ==> (result <==> item != ei.inverted)
      ensures ei.op == OpAnd ==> (result <==> old(result) && item != ei.inverted)
      ensures ei.op == OpOr ==> (result <==> old(result) || item != ei.inverted)
    {
      var verdict := if ei.inverted then !item else item;
      match ei.op
      case OpNone => result := verdict;
      case OpOr => result := result || verdict;
      case OpAnd => result := result && verdict;
    }

    /** Past the current rule: the next one in its list, or the next one after the innermost open rule. */
    method NextRule()
      requires rule != [] && WellFormed(rule) && Opened(stack)
      requires forall i :: 0 <= i < |stack| ==> WellFormed(stack[i])
      modifies this`ruleidx, this`rule, this`stack
      ensures ruleidx == old(rule[0].idx)
      ensures WellFormed(rule) && Opened(stack) && (rule == [] ==> stack == [])
      ensures forall i :: 0 <= i < |stack| ==> WellFormed(stack[i])
      ensures forall w: World<S> :: EvalUp(env, rule, stack, w) == EvalUp(env, old(rule)[1..], old(stack), w)
      ensures Size(rule) + StackSize(stack) < old(Size(rule) + StackSize(stack))
    {
      ruleidx := rule[0].idx;
      rule := rule[1..];
      while rule == []
        invariant ruleidx == old(rule[0].idx)
        invariant WellFormed(rule) && Opened(stack)
        invariant forall i :: 0 <= i < |stack| ==> WellFormed(stack[i])
        invariant forall w: World<S> :: EvalUp(env, rule, stack, w) == EvalUp(env, old(rule)[1..], old(stack), w)
        invariant Size(rule) + StackSize(stack) == old(Size(rule[1..]) + StackSize(stack))
        decreases |stack|, |rule|
      {
        if stack == [] {
          break;
        }
        rule := stack[|stack| - 1];
        rule := rule[1..];
        stack := stack[..|stack| - 1];
      }
    }

    /** The deliveries of the current rule, which has matched. */
    method QueueDeliveries() returns (ok: bool)
      requires rule != [] && dqueue == []
      modifies this`chained, this`dqueue, this`entered
      ensures RuleDeliveries(env, rule[0], mail) == (if ok then Some(dqueue) else None)
      ensures ok && rule[0].lambda == None && rule[0].actions == [] ==> dqueue == []
      ensures entered - old(entered) <= 2 * MAX_ACTION_CHAIN
    {
      hide Expand, MatchActions;
      var r := rule[0];
      ghost var own, named;
      ok, own, named := true, [], [];
      if r.lambda.Some? {
        chained := MAX_ACTION_CHAIN;
        ok, own := FillFromAction(r, r.lambda.value, DeliveryUsers(env, r, None));
        if !ok {
          return;
        }
      }
      if r.actions != [] {
        chained := MAX_ACTION_CHAIN;
        ok, named := FillFromStrings(r, r.actions);
      }
      assert ok ==> dqueue == own + named;
    }

    /** What follows once the current item has been settled. */
    ghost function AfterItem(): Final<S>
      requires Valid() && expritem != []
      reads this
    {
      Conclude(env, AfterExpr(env, FoldItems(env, expritem[1..], result, Now()), rule, stack))
    }

    /** An item has been settled: on to the next one, or to what follows from the value of the expression. */
    method NextItem() returns (code: Code)
      requires Valid() && msgid == 0 && expritem != []
      modifies this
      ensures msgid == 0 && code in {MailContinue, MailToDeliver, MailError}
      ensures code == MailError ==> old(AfterItem()) == Failed(trace)
      ensures code != MailError ==> Valid() && Meaning() == old(AfterItem())
      ensures code == MailContinue ==> dqueue == []
      ensures code == MailToDeliver ==> expritem == []
      ensures code != MailError ==> Left(code == MailToDeliver).Below(old(Left(false)))
    {
      hide Expand, MatchActions, EvalRules, EvalExpr, EvalUp, RunOne, RuleDeliveries, WellFormed, Size, StackSize;
      expritem := expritem[1..];
      if expritem != [] {
        return MailContinue;
      }
      code := MailContinue;
      if result {
        if rule[0].stop {
          done := true;
        }
        if rule[0].rules != [] {
          EnterNested();
          return MailContinue;
        }
        code := LeaveMatched();
        return;
      }
      NextRule();
    }

    /** Queue the deliveries of the rule that has matched and move past it. */
    method LeaveMatched() returns (code: Code)
      requires rule != [] && rule[0].rules == [] && dqueue == [] && expritem == [] && msgid == 0 && idx > 0
      requires WellFormed(rule) && Opened(stack) && forall i :: 0 <= i < |stack| ==> WellFormed(stack[i])
      requires done == rule[0].stop
      modifies this
      ensures code in {MailContinue, MailToDeliver, MailError} && msgid == 0
      ensures var was := old(AfterExpr(env, ExprValue(true, Now()), rule, stack));
              if code == MailError then was == Bad(trace) else Valid() && Remaining() == was
      ensures code == MailContinue ==> dqueue == []
      ensures code == MailToDeliver ==> expritem == []
      ensures code != MailError ==> Size(rule) + StackSize(stack) < old(Size(rule) + StackSize(stack))
    {
      hide Expand, MatchActions, EvalRules, EvalExpr, EvalUp, RunOne, RuleDeliveries, WellFormed, Opened, Size, StackSize;
      code := MailContinue;
      matched := true;
      var ok := QueueDeliveries();
      if !ok {
        return MailError;
      }
      DeliveriesTagged(env, rule[0], mail);
      if rule[0].lambda.Some? || rule[0].actions != [] {
        code := MailToDeliver;
      }
      NextRule();
    }

    /** Stack the rule that has matched and go on with its nested list. */
    method EnterNested()
      requires Valid() && msgid == 0 && expritem == [] && dqueue == [] && rule != [] && rule[0].rules != []
      modifies this`stack, this`rule
      ensures Valid()
      ensures !done && !old(rule[0].stop) ==>
              Remaining() == AfterExpr(env, ExprValue(true, Now()), old(rule), old(stack))
      ensures done ==> Remaining() == Stop(Now())
      ensures Size(rule) + StackSize(stack) < old(Size(rule) + StackSize(stack))
    {
      if !rule[0].stop {
        EvalUpNested(env, rule, stack, Now());
      }
      stack := stack + [rule];
      rule := rule[0].rules;
      assert stack[..|stack| - 1] == old(stack);
    }

    method StartExpr()
      requires Valid() && msgid == 0 && !done && rule != [] && dqueue == [] && expritem == []
      modifies this`result, this`expritem
      ensures Valid() && expritem != [] && Left(false) == old(Left(false)) && Meaning() == old(Meaning())
    {
      EvalUpUnfold(env, rule, stack, Now());
      result := false;
      expritem := rule[0].expr;
    }

    /** Try the current item, starting the expression first if need be. */
    method TryItem() returns (code: Code)
      requires Valid() && msgid == 0 && !done && rule != [] && dqueue == []
      modifies this
      ensures code in {MailContinue, MailBlocked, MailError}
      ensures code == MailError ==> old(Meaning()) == Failed(trace) && msgid == 0
      ensures code != MailError ==> Valid() && expritem != [] && Left(false) == old(Left(false))
      ensures code == MailContinue ==> msgid == 0 && AfterItem() == old(Meaning())
      ensures code == MailBlocked ==> msgid != 0 && Meaning() == old(Meaning())
    {
      hide MailCtx.Remaining, MailCtx.Meaning, MailCtx.Left, MailCtx.AfterItem;
      if expritem == [] {
        StartExpr();
      }
      if ShortCircuit(expritem[0].op, result) {
        PastItem();
        return MailContinue;
      }
      code := CheckItem();
    }

    /** An item that is skipped leaves the running result as it is. */
    lemma PastItem()
      requires Valid() && msgid == 0 && !done && expritem != [] && ShortCircuit(expritem[0].op, result)
      ensures AfterItem() == Meaning()
    {
      hide AfterExpr, Conclude, WellFormed;
    }

    /** Ask the condition of the current item. */
    method CheckItem() returns (code: Code)
      requires Valid() && msgid == 0 && !done && expritem != [] && !ShortCircuit(expritem[0].op, result)
      modifies this`trace, this`mail, this`msgid, this`result
      ensures code in {MailContinue, MailBlocked, MailError}
      ensures code == MailError ==> old(Meaning()) == Failed(trace) && msgid == 0
      ensures code != MailError ==> Valid() && Left(false) == old(Left(false))
      ensures code == MailContinue ==> msgid == 0 && AfterItem() == old(Meaning())
      ensures code == MailBlocked ==> msgid != 0 && Meaning() == old(Meaning())
    {
      hide Expand, MatchActions, EvalRules, EvalExpr, EvalMatched, RunOne, RunAll, DeliveryFinished, EvalUp, Size, StackSize,
        WellFormed, Opened;
      var ei := expritem[0];
      trace := trace + [Tried(ei.cond, mail)];
      match env.check(ei.cond, mail, matched) {
        case CheckError =>
          code := MailError;
        case CheckParent(sent) =>
          mail := sent;
          msgid := idx;
          code := MailBlocked;
        case CheckVerdict(value, after) =>
          mail := after;
          ApplyResult(ei, value);
          code := MailContinue;
      }
    }

    /** The answer to the condition of the current item has come. */
    method TakeAnswer(msg: Msg<S>) returns (code: Code)
      requires Valid() && msgid != 0 && dqueue == [] && msg.body == Awaited()
      modifies this`mail, this`msgid, this`result
      ensures code in {MailContinue, MailError} && msgid == 0
      ensures code == MailContinue ==> Valid() && expritem != [] && AfterItem() == old(Meaning()) && Left(false) == old(Left(false))
      ensures code == MailError ==> old(Meaning()) == Failed(trace)
    {
      hide Expand, MatchActions, EvalRules, EvalExpr, EvalItem, EvalMatched, RunOne, RunAll, DeliveryFinished, AfterExpr, Size, StackSize,
        FoldItems, WellFormed, Opened;
      msgid := 0;
      var answer := msg.body.answer;
      mail := answer.mail;
      if answer.AnswerError? {
        return MailError;
      }
      ApplyResult(expritem[0], answer.value);
      code := MailContinue;
    }

    /** Done, or at the end of the rules, only the decision is left. */
    lemma RuleSetOver()
      requires Valid() && msgid == 0 && dqueue == [] && (done || rule == [])
      ensures Meaning() == Finished(if done then Now() else Implicit(env, Now()))
    {
      hide AfterExpr, FoldItems, EvalExpr, EvalMatched, RunOne, RunAll;
    }

    /** Check the mail against the next rule or part of an expression. */
    method MailMatch(msg: Option<Msg<S>>) returns (code: Code)
      requires Valid() && dqueue == []
      requires Answers(msg)
      modifies this
      ensures code != MailToMatch && (code == MailBlocked <==> msgid != 0)
      ensures old(msgid) != 0 ==> (code == MailBlocked <==> msg == None || msg.value.id != old(msgid))
      ensures old(msgid) != 0 && code == MailBlocked ==> unchanged(this)
      ensures old(msgid) != 0 ==> code != MailDone
      ensures code in {MailContinue, MailToDeliver, MailBlocked} ==> Valid() && Meaning() == old(Meaning())
      ensures code in {MailContinue, MailBlocked} ==> dqueue == []
      ensures code == MailToDeliver ==> expritem == []
      ensures code in {MailContinue, MailToDeliver} ==> Left(code == MailToDeliver).Below(old(Left(false)))
      ensures code == MailBlocked ==> Left(false) == old(Left(false))
      ensures code == MailDone ==> old(Meaning()) == Finished(Now())
      ensures code == MailError ==> old(Meaning()) == Failed(trace)
    {
      hide MailCtx.Remaining, MailCtx.Meaning, MailCtx.Left, MailCtx.AfterItem;
      if msgid != 0 {
        if msg == None || msg.value.id != msgid {
          return MailBlocked;
        }
        code := TakeAnswer(msg.value);
        if code == MailError {
          return;
        }
      } else {
        if done || rule == [] {
          RuleSetOver();
          if !done {
            mail := mail.(decision := if env.implAct == DecisionDrop then DecisionDrop else DecisionKeep);
          }
          return MailDone;
        }
        code := TryItem();
        if code != MailContinue {
          return;
        }
      }
      code := NextItem();
    }

    /** What follows once the first queued delivery is over. */
    ghost function AfterDelivery(): Final<S>
      requires Valid() && dqueue != []
      reads this
    {
      match RunAll(env, dqueue[1..], Now())
      case Next(w) => Conclude(env, if done then Stop(w) else EvalUp(env, rule, stack, w))
      case other => Conclude(env, other)
    }

    /** Start the first queued delivery. */
    method StartAction() returns (code: Code)
      requires Valid() && msgid == 0 && dqueue != []
      modifies this`mail, this`trace, this`msgid
      ensures code in {MailContinue, MailBlocked, MailError} && (code == MailBlocked <==> msgid != 0)
      ensures code == MailContinue ==> Valid() && AfterDelivery() == old(Meaning())
      ensures code == MailBlocked ==> Valid() && Meaning() == old(Meaning()) && Left(true) == old(Left(true))
      ensures code == MailContinue ==> Left(true) == old(Left(true))
      ensures code == MailError ==> old(Meaning()) == Failed(trace)
    {
      hide Size, StackSize, WellFormed, Opened;
      hide Expand, MatchActions, EvalRules, EvalExpr, EvalItem, ItemAnswered, EvalUp, EvalMatched, AfterExpr, FoldItems;
      var dctx := dqueue[0];
      trace := trace + [Started(dctx, ruleidx, mail)];
      match env.run(dctx, ruleidx, mail) {
        case RunError =>
          code := MailError;
        case RunParent(sent) =>
          mail := sent;
          msgid := idx;
          code := MailBlocked;
        case RunDone(after) =>
          mail := after;
          code := MailContinue;
      }
    }

    /** The reply to the first queued delivery has come. */
    method FinishAction(msg: Msg<S>) returns (code: Code)
      requires Valid() && msgid != 0 && dqueue != [] && expritem == [] && msg.body == Awaited()
      modifies this`mail, this`msgid
      ensures code in {MailContinue, MailError} && msgid == 0
      ensures code == MailContinue ==> Valid() && AfterDelivery() == old(Meaning()) && Left(true) == old(Left(true))
      ensures code == MailError ==> old(Meaning()) == Failed(trace)
    {
      hide Expand, MatchActions, EvalRules, EvalExpr, EvalItem, ItemAnswered, EvalUp, EvalMatched, AfterExpr, FoldItems, Size,
        StackSize, WellFormed, Opened;
      msgid := 0;
      var finish := msg.body.finish;
      if finish.FinishError? {
        return MailError;
      }
      mail := finish.mail;
      code := MailContinue;
    }

    /** The first queued delivery is over. */
    method DropDelivery()
      requires Valid() && msgid == 0 && dqueue != [] && expritem == []
      modifies this`dqueue
      ensures Valid() && Meaning() == old(AfterDelivery()) && Left(true).Below(old(Left(true)))
    {
      hide Expand, MatchActions, EvalRules, EvalExpr, EvalItem, ItemAnswered, EvalUp, EvalMatched, AfterExpr, FoldItems, Size,
        StackSize, WellFormed, Opened;
      dqueue := dqueue[1..];
    }

    lemma DeliveryOver()
      ensures Valid() && dqueue == [] ==> Left(false).Below(Left(true))
    {
      hide Size, StackSize;
    }

    /** Run the next delivery. */
    method MailDeliver(msg: Option<Msg<S>>) returns (code: Code)
      requires Valid() && expritem == []
      requires Answers(msg)
      modifies this
      ensures code in {MailContinue, MailToMatch, MailBlocked, MailError} && (code == MailBlocked <==> msgid != 0)
      ensures old(msgid) != 0 ==> (code == MailBlocked <==> msg == None || msg.value.id != old(msgid))
      ensures old(msgid) != 0 && code == MailBlocked ==> unchanged(this)
      ensures old(msgid) != 0 ==> code != MailToMatch
      ensures code != MailError ==> Valid() && expritem == [] && Meaning() == old(Meaning())
      ensures code == MailError ==> old(Meaning()) == Failed(trace)
      ensures code == MailToMatch ==> dqueue == []
      ensures code in {MailContinue, MailToMatch} ==> Left(code == MailContinue).Below(old(Left(true)))
      ensures code == MailBlocked ==> Left(true) == old(Left(true))
    {
      hide MailCtx.Remaining, MailCtx.Meaning, MailCtx.Left, MailCtx.AfterDelivery;
      if msgid != 0 {
        if msg == None || msg.value.id != msgid {
          return MailBlocked;
        }
        code := FinishAction(msg.value);
      } else {
        if dqueue == [] {
          DeliveryOver();
          return MailToMatch;
        }
        code := StartAction();
      }
      if code == MailContinue {
        DropDelivery();
      }
    }
  }

  /** Polls that bring nothing for a waiting mail leave it exactly as it is. */
  method PollIdle<S(!new)>(mctx: MailCtx<S>, delivering: bool, polls: nat, other: Option<Msg<S>>)
    requires mctx.Valid() && mctx.msgid != 0 && (other.Some? ==> other.value.id != mctx.msgid)
    requires if delivering then mctx.expritem == [] else mctx.dqueue == []
    modifies mctx
    ensures unchanged(mctx)
  {
    for i := 0 to polls
      invariant unchanged(mctx)
    {
      var code;
      if delivering {
        code := mctx.MailDeliver(other);
      } else {
        code := mctx.MailMatch(other);
      }
    }
  }

  /**
   * One mail from the moment it is queued until it is done or has failed, as the fetch loop drives it: it is
   * stepped by the queue it is on, and polled any number of times while it waits, with nothing or with messages
   * for other mails. Whatever the waits, the outcome is reached and is the recursive evaluator's.
   */
  method RunMail<S(!new)>(env: Env<S>, idx: nat, rules: seq<Rule>, mail: Mail<S>, waits: seq<nat>, other: Option<Msg<S>>)
    returns (outcome: Final<S>)
    requires idx > 0 && WellFormed(rules) && (other.Some? ==> other.value.id != idx)
    ensures outcome == EvalMail(env, rules, World(mail, false, []))
  {
    hide EvalRules, Conclude;
    var mctx := new MailCtx<S>(env, idx, rules, mail);
    var delivering, code, round := false, MailContinue, 0;
    while true
      invariant fresh(mctx) && mctx.Valid() && mctx.env == env && mctx.idx == idx
      invariant if delivering then mctx.expritem == [] else mctx.dqueue == []
      invariant mctx.Meaning() == EvalMail(env, rules, World(mail, false, []))
      decreases mctx.Left(delivering).rules, mctx.Left(delivering).items, mctx.Left(delivering).queued,
                mctx.Left(delivering).delivering, mctx.msgid == 0
    {
      var msg := None;
      if mctx.msgid != 0 {
        PollIdle(mctx, delivering, if round < |waits| then waits[round] else 0, other);
        msg := Some(Msg(mctx.msgid, mctx.Awaited()));
        round := round + 1;
      }
      if delivering {
        code := mctx.MailDeliver(msg);
      } else {
        code := mctx.MailMatch(msg);
      }
      match code
      case MailToDeliver => delivering := true;
      case MailToMatch => delivering := false;
      case MailDone => return Finished(mctx.Now());
      case MailError => return Failed(mctx.trace);
      case _ =>
    }
  }
}
