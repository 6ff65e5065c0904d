// What the IMAP client does with one folder, as functions: one for the state functions, one for a turn of the fetch
// loop, and one for a whole run. Every state reached is valid, and so every log is safe.

module ImapSteps {
  import opened Options
  import opened ImapLog
  import opened ImapAccount

  datatype Client = Client(data: Account, purge: bool)

  datatype Outcome = Outcome(client: Client, ret: Return)

  /** Everything left open about one round of the fetch loop. */
  datatype Turn = Turn(line: Option<Reply>, lines: seq<Reply>, text: Option<bool>, emptyText: bool, purge: bool, decisions: seq<(nat, bool)>)

  /** The first line with a tag among those that have come: whether it is the awaited OK. */
  function Await(lines: seq<Reply>, tag: nat): Option<bool> {
    if lines == [] then None
    else if lines[0].Untagged? then Await(lines[1..], tag)
    else Some(lines[0] == Tagged(tag, true))
  }

  function Done(okay: Option<bool>, next: Return): Return {
    if okay == None then Block else if okay.value then next else Error
  }

  /** What an OK to the last command does; no answer yet changes nothing, and neither does another answer, which is an error. */
  function OnOkay(c: Client, okay: Option<bool>, next: Account, ret: Return): Outcome {
    Outcome(if okay == Some(true) then c.(data := next) else c, Done(okay, ret))
  }

  function NextStep(c: Client): Outcome {
    var a := c.data;
    if a.dropped != [] then Outcome(c.(data := Storing(a, true)), Block)
    else if a.kept != [] then Outcome(c.(data := Storing(a, false)), Block)
    else if c.purge then Outcome(if a.inflight == [] then Client(Purging(a, Expunge), false) else c, Block)
    else if a.wanted == [] then Outcome(if a.committed == a.total then c.(data := Purging(a, Close)) else c, Block)
    else Outcome(c.(data := a.(tag := a.tag + 1, state := Body)), Block)
  }

  /** The state function of the current state. */
  function StateStep(poll: bool, c: Client, t: Turn): Outcome {
    var a := c.data;
    var okay := Await(t.lines, a.tag);
    match a.state
    case Search1 => Outcome(c.(data := a.(tag := a.tag + 1, state := Search2)), Block)
    case Search2 =>
      if t.line == None then Outcome(c, Block)
      else if !t.line.value.Untagged? || !t.line.value.parts then Outcome(c, Error)
      else Outcome(c.(data := a.(wanted := t.line.value.uids, state := Search3)), Again)
    case Search3 =>
      var found := a.(total := |a.wanted|);
      if a.wanted == [] || poll then OnOkay(c, okay, Purging(found, Close), Block)
      else OnOkay(c, okay, found.(state := Next), Again)
    case Next => NextStep(c)
    case Body =>
      if t.line == None then Outcome(c, Block)
      else if !t.line.value.Untagged? || !t.line.value.parts || a.wanted == [] then Outcome(c, Error)
      else Outcome(c.(data := Reading(a)), Again)
    case Line => OnOkay(c, t.text, a.(state := Mail), Again)
    case Mail => OnOkay(c, okay, a.(state := Next), GotMail)
    case Commit => if a.storing == None then Outcome(c, Error) else OnOkay(c, okay, Committed(a), Again)
    case Expunging => OnOkay(c, okay, a.(state := Next), Again)
    case Closing => OnOkay(c, okay, a.(tag := a.tag + 1, state := Quitting), Block)
    case Quitting => OnOkay(c, okay, a, Exit)
  }

  /** A step keeps the invariant and only adds to the log; a mail is handed over exactly if it says so. */
  ghost predicate Keeps(a: Account, r: Outcome) {
    && r.client.data.Valid() && a.log <= r.client.data.log
    && (r.ret != GotMail && r.client.data.state == Next ==> r.client.data.fetching == None)
    && (r.ret == GotMail ==> r.client.data.state == Next && r.client.data.fetching.Some?)
  }

  lemma StateStepKeeps(poll: bool, c: Client, t: Turn)
    requires c.data.Valid() && (c.data.state == Next ==> c.data.fetching == None)
    ensures Keeps(c.data, StateStep(poll, c, t))
  {
    hide Account.Logged, Await;
    match c.data.state {
      case Search1 | Search2 => SearchingKeeps(c.data, t);
      case Search3 =>
        FoundKeeps(c.data);
        PurgingKeeps(c.data.(total := |c.data.wanted|), Close);
      case Next => NextStepKeeps(c);
      case Body => ReadingKeeps(c.data);
      case Commit => CommittedKeeps(c.data);
      case Line | Mail | Expunging | Closing | Quitting => ElsewhereKeeps(c.data);
    }
  }

  lemma NextStepKeeps(c: Client)
    requires c.data.Valid() && c.data.state == Next && c.data.fetching == None
    ensures Keeps(c.data, NextStep(c))
  {
    hide Account.Logged;
    var a := c.data;
    if a.dropped != [] {
      StoringKeeps(a, true);
    } else if a.kept != [] {
      StoringKeeps(a, false);
    } else if c.purge {
      if a.inflight == [] {
        PurgingKeeps(a, Expunge);
      }
    } else if a.wanted == [] {
      if a.committed == a.total {
        PurgingKeeps(a, Close);
      }
    } else {
      AskKeeps(a);
    }
  }

  lemma SearchingKeeps(a: Account, t: Turn)
    requires a.Valid() && a.state in {Search1, Search2}
    ensures a.(tag := a.tag + 1, state := Search2).Valid() || a.state == Search2
    ensures forall uids :: a.state == Search2 ==> a.(wanted := uids, state := Search3).Valid()
  {
    hide Times, Count, Safe;
  }

  lemma ElsewhereKeeps(a: Account)
    requires a.Valid() && a.state in {Line, Mail, Expunging, Closing, Quitting}
    ensures a.state == Line ==> a.(state := Mail).Valid()
    ensures a.state in {Mail, Expunging} ==> a.(state := Next).Valid()
    ensures a.state == Closing ==> a.(tag := a.tag + 1, state := Quitting).Valid()
  {
    hide Times, Count, Safe;
  }

  lemma FoundKeeps(a: Account)
    requires a.Valid() && a.state == Search3
    ensures a.(total := |a.wanted|).Valid() && a.AllPending() == 0 && a.(total := |a.wanted|, state := Next).Valid()
  {
    hide Times, Count, Safe;
  }

  lemma AskKeeps(a: Account)
    requires a.Valid() && a.state == Next && a.fetching == None && a.wanted != []
    ensures a.(tag := a.tag + 1, state := Body).Valid()
  {
    hide Times, Count, Safe;
  }

  /** The decisions that come in during a turn; there are none about mails that are not queued. */
  function AfterDecisions(a: Account, decisions: seq<(nat, bool)>): Account
    decreases |decisions|
  {
    if decisions == [] then a
    else
      var (k, drop) := decisions[0];
      AfterDecisions(if k < |a.inflight| then Committing(a, k, drop) else a, decisions[1..])
  }

  lemma {:induction false} AfterDecisionsKeeps(a: Account, decisions: seq<(nat, bool)>)
    requires a.Valid()
    ensures var d := AfterDecisions(a, decisions); d.Valid() && a.log <= d.log && d.state == a.state && d.fetching == a.fetching
    decreases |decisions|
  {
    hide Account.Valid;
    if decisions != [] {
      var (k, drop) := decisions[0];
      if k < |a.inflight| {
        CommittingKeeps(a, k, drop);
        AfterDecisionsKeeps(Committing(a, k, drop), decisions[1..]);
      } else {
        AfterDecisionsKeeps(a, decisions[1..]);
      }
    }
  }

  /** One turn: decisions, the purge flag, the state function, and a mail that is ready. Error and Exit end the run. */
  function TurnStep(poll: bool, c: Client, t: Turn): Outcome {
    var r := StateStep(poll, Client(AfterDecisions(c.data, t.decisions), c.purge || t.purge), t);
    if r.ret != GotMail then r
    else if t.emptyText || r.client.data.fetching == None then Outcome(r.client, Error)
    else Outcome(r.client.(data := Queued(r.client.data)), Again)
  }

  /** What a turn leaves: all valid, and if the run goes on no mail in between. */
  ghost predicate Leaves(a: Account, r: Outcome) {
    && r.client.data.Valid() && a.log <= r.client.data.log
    && (r.ret !in {Error, Exit} && r.client.data.state == Next ==> r.client.data.fetching == None)
  }

  lemma TurnStepKeeps(poll: bool, c: Client, t: Turn)
    requires c.data.Valid() && (c.data.state == Next ==> c.data.fetching == None)
    ensures Leaves(c.data, TurnStep(poll, c, t))
  {
    hide Account.Valid, StateStep, AfterDecisions;
    AfterDecisionsKeeps(c.data, t.decisions);
    var d := Client(AfterDecisions(c.data, t.decisions), c.purge || t.purge);
    StateStepKeeps(poll, d, t);
    var r := StateStep(poll, d, t);
    if r.ret == GotMail {
      QueuedKeeps(r.client.data);
    }
  }

  /** The run after some turns; ended runs stay as they are. */
  function Ran(poll: bool, turns: seq<Turn>): Outcome
    decreases |turns|
  {
    if turns == [] then Outcome(Client(FRESH, false), Again)
    else
      var r := Ran(poll, turns[..|turns| - 1]);
      if r.ret in {Error, Exit} then r else TurnStep(poll, r.client, turns[|turns| - 1])
  }

  /**
   * After any turns, whatever the server has answered and whenever decisions have come: all mails found are accounted
   * for, and the log is safe: mails are deleted only if decided DROP, and the folder expunged only with all mails marked.
   */
  lemma {:induction false} RanKeeps(poll: bool, turns: seq<Turn>)
    ensures Leaves(FRESH, Ran(poll, turns)) && Safe(Ran(poll, turns).client.data.log)
    ensures var a := Ran(poll, turns).client.data;
            !a.Searching() ==> a.total == |a.wanted| + Size(a.fetching) + |a.inflight| + |a.dropped| + |a.kept| + Size(a.storing) + a.committed
    decreases |turns|
  {
    hide Account.Valid, TurnStep;
    if turns == [] {
      FreshValid();
    } else {
      RanKeeps(poll, turns[..|turns| - 1]);
      var r := Ran(poll, turns[..|turns| - 1]);
      if r.ret !in {Error, Exit} {
        TurnStepKeeps(poll, r.client, turns[|turns| - 1]);
      }
    }
    ValidMeans(Ran(poll, turns).client.data);
  }

  lemma ValidMeans(a: Account)
    requires a.Valid()
    ensures Safe(a.log)
    ensures !a.Searching() ==> a.total == |a.wanted| + Size(a.fetching) + |a.inflight| + |a.dropped| + |a.kept| + Size(a.storing) + a.committed
  {
  }

  /** A run that has ended stays as it is. */
  lemma {:induction false} Ended(poll: bool, turns: seq<Turn>, i: nat)
    requires i <= |turns| && Ran(poll, turns[..i]).ret in {Error, Exit}
    ensures Ran(poll, turns) == Ran(poll, turns[..i])
    decreases |turns|
  {
    hide TurnStep;
    if i == |turns| {
      assert turns[..i] == turns;
    } else {
      var before := turns[..|turns| - 1];
      assert before[..i] == turns[..i];
      Ended(poll, before, i);
    }
  }
}
