// The mails of one IMAP folder: every one is wanted, being fetched, with the fetch loop, to be marked, being marked,
// or marked; and nothing is expunged before all that were fetched are marked.

module ImapLog {
  /** A mail read, its final decision, its flag asked for (\Deleted or \Seen) and acknowledged, and what expunges. */
  datatype Event = Got(uid: nat) | Decided(uid: nat, drop: bool) | Store(uid: nat, deleted: bool) | Acked(uid: nat) | Expunge | Close

  function Times(log: seq<Event>, e: Event): nat {
    if log == [] then 0 else Times(log[..|log| - 1], e) + (if log[|log| - 1] == e then 1 else 0)
  }

  /** A flag is asked for once for each decision for it; the folder is expunged when every mail read has been marked. */
  ghost predicate MayFollow(before: seq<Event>, e: Event) {
    && (e.Store? ==> Times(before, e) < Times(before, Decided(e.uid, e.deleted)))
    && (e.Expunge? || e.Close? ==> forall u :: Times(before, Got(u)) == Times(before, Acked(u)))
  }

  ghost predicate Safe(log: seq<Event>) {
    log == [] || (Safe(log[..|log| - 1]) && MayFollow(log[..|log| - 1], log[|log| - 1]))
  }

  lemma {:induction false} TimesIn(log: seq<Event>, e: Event)
    ensures Times(log, e) > 0 <==> e in log
  {
    if log != [] {
      TimesIn(log[..|log| - 1], e);
      assert log == log[..|log| - 1] + [log[|log| - 1]];
    }
  }

  /** In a safe log, what is deleted was decided DROP before, and what is read before an expunge was marked before it. */
  lemma {:induction false} SafeMeans(log: seq<Event>, i: nat)
    requires Safe(log) && i < |log|
    ensures log[i].Store? ==> Decided(log[i].uid, log[i].deleted) in log[..i]
    ensures log[i].Expunge? || log[i].Close? ==> forall u :: Got(u) in log[..i] ==> Acked(u) in log[..i]
    decreases |log|
  {
    var n := |log| - 1;
    if i < n {
      SafeMeans(log[..n], i);
      assert log[..n][..i] == log[..i];
    } else {
      if log[i].Store? {
        TimesIn(log[..i], Decided(log[i].uid, log[i].deleted));
      }
      if log[i].Expunge? || log[i].Close? {
        forall u | Got(u) in log[..i] ensures Acked(u) in log[..i] {
          TimesIn(log[..i], Got(u));
          TimesIn(log[..i], Acked(u));
        }
      }
    }
  }

  lemma TimesMore(log: seq<Event>, e: Event, x: Event)
    ensures Times(log + [e], x) == Times(log, x) + (if e == x then 1 else 0)
  {
    assert (log + [e])[..|log|] == log;
  }

  lemma SafeMore(log: seq<Event>, e: Event)
    requires Safe(log) && MayFollow(log, e)
    ensures Safe(log + [e])
  {
    assert (log + [e])[..|log|] == log;
  }
}

module ImapAccount {
  import opened Sequences
  import opened Options
  import opened ImapLog

  datatype State = Search1 | Search2 | Search3 | Next | Body | Line | Mail | Commit | Expunging | Closing | Quitting

  datatype Return = Again | Block | Error | GotMail | Exit

  /** A line from the server, as far as the client tells lines apart. */
  datatype Reply = Untagged(parts: bool, uids: seq<nat>) | Tagged(tag: nat, okay: bool) | Other

  function Count(q: seq<nat>, u: nat): nat {
    if q == [] then 0 else Count(q[..|q| - 1], u) + (if q[|q| - 1] == u then 1 else 0)
  }

  lemma CountLast(q: seq<nat>, x: nat, u: nat)
    ensures Count(q + [x], u) == Count(q, u) + (if x == u then 1 else 0)
  {
    assert (q + [x])[..|q|] == q;
  }

  lemma {:induction false} CountAppend(a: seq<nat>, b: seq<nat>, u: nat)
    ensures Count(a + b, u) == Count(a, u) + Count(b, u)
    decreases |b|
  {
    if b == [] {
      assert a + b == a;
    } else {
      assert (a + b)[..|a + b| - 1] == a + b[..|b| - 1];
      CountAppend(a, b[..|b| - 1], u);
    }
  }

  lemma CountWithout(q: seq<nat>, k: nat, u: nat)
    requires k < |q|
    ensures Count(q, u) == Count(Without(q, k), u) + (if q[k] == u then 1 else 0)
  {
    assert q == q[..k] + ([q[k]] + q[k + 1..]);
    CountAppend(q[..k], [q[k]] + q[k + 1..], u);
    CountAppend([q[k]], q[k + 1..], u);
    CountAppend(q[..k], q[k + 1..], u);
    CountLast([], q[k], u);
    assert [] + [q[k]] == [q[k]];
  }

  function One(x: Option<nat>, u: nat): nat {
    if x == Some(u) then 1 else 0
  }

  function Size(x: Option<nat>): nat {
    if x.Some? then 1 else 0
  }

  /** The client's fields, the mails it has handed to the fetch loop, and the log. */
  datatype Account = Account(
    state: State, tag: nat, total: nat, committed: nat,
    wanted: seq<nat>, dropped: seq<nat>, kept: seq<nat>,
    fetching: Option<nat>,   // the mail being read, or just handed over
    storing: Option<nat>,    // the mail whose flag has been asked for
    inflight: seq<nat>, log: seq<Event>)
  {
    /** How often a mail has been read and is not marked yet. */
    function Pending(u: nat): nat {
      One(fetching, u) + Count(inflight, u) + Count(dropped, u) + Count(kept, u) + One(storing, u)
    }

    function AllPending(): nat {
      Size(fetching) + |inflight| + |dropped| + |kept| + Size(storing)
    }

    predicate Searching() {
      state in {Search1, Search2, Search3}
    }

    /** Every mail of the folder that was found is somewhere. */
    ghost predicate Counted() {
      && (if Searching() then AllPending() == 0 && committed == 0 && (state != Search3 ==> wanted == [])
          else total == |wanted| + AllPending() + committed)
      && (fetching.Some? ==> state in {Line, Mail, Next}) && (state in {Line, Mail} ==> fetching.Some?)
      && (storing.Some? <==> state == Commit)
      && (state == Body ==> wanted != [])
      && (state in {Expunging, Closing, Quitting} ==> AllPending() == 0)
    }

    /** The log has every mail read, decided, and marked. */
    ghost predicate Logged() {
      && Safe(log)
      && (forall u :: Times(log, Got(u)) == Times(log, Acked(u)) + Pending(u))
      && (forall u :: Times(log, Decided(u, true)) == Times(log, Store(u, true)) + Count(dropped, u))
      && (forall u :: Times(log, Decided(u, false)) == Times(log, Store(u, false)) + Count(kept, u))
    }

    ghost predicate Valid() {
      Counted() && Logged()
    }
  }

  const FRESH := Account(Search1, 0, 0, 0, [], [], [], None, None, [], [])

  lemma FreshValid()
    ensures FRESH.Valid()
  {
  }

  /** With nothing pending, every mail read is marked. */
  lemma NonePending(a: Account, u: nat)
    requires a.AllPending() == 0
    ensures a.Pending(u) == 0
  {
  }

  // ---------------------------------------------------------------- steps

  /** The first of the wanted mails is being read. */
  function Reading(a: Account): Account
    requires a.wanted != []
  {
    a.(fetching := Some(a.wanted[0]), wanted := a.wanted[1..], log := a.log + [Got(a.wanted[0])], state := Line)
  }

  lemma ReadingKeeps(a: Account)
    requires a.Valid() && a.state == Body
    ensures Reading(a).Valid()
  {
    hide Times, Count, Safe;
    var e := Got(a.wanted[0]);
    SafeMore(a.log, e);
    forall x ensures Times(a.log + [e], x) == Times(a.log, x) + (if e == x then 1 else 0) {
      TimesMore(a.log, e, x);
    }
  }

  /** Asking for the flag of the first mail dropped, or kept. */
  function Storing(a: Account, deleted: bool): Account
    requires if deleted then a.dropped != [] else a.kept != []
  {
    var u := if deleted then a.dropped[0] else a.kept[0];
    a.(storing := Some(u), dropped := if deleted then a.dropped[1..] else a.dropped, kept := if deleted then a.kept else a.kept[1..],
       tag := a.tag + 1, log := a.log + [Store(u, deleted)], state := Commit)
  }

  lemma StoringKeeps(a: Account, deleted: bool)
    requires a.Valid() && a.state == Next && a.fetching == None
    requires if deleted then a.dropped != [] else a.kept != []
    ensures Storing(a, deleted).Valid()
  {
    hide Times, Count, Safe, Account.Logged;
    var q := if deleted then a.dropped else a.kept;
    forall u ensures Count(q, u) == Count(q[1..], u) + (if q[0] == u then 1 else 0) {
      CountWithout(q, 0, u);
      assert Without(q, 0) == q[1..];
    }
    StoringLogged(a, deleted, q);
  }

  lemma StoringLogged(a: Account, deleted: bool, q: seq<nat>)
    requires a.Logged() && a.storing == None && q != [] && q == if deleted then a.dropped else a.kept
    requires forall u :: Count(q, u) == Count(q[1..], u) + (if q[0] == u then 1 else 0)
    ensures Storing(a, deleted).Logged()
  {
    hide Times, Count, Safe;
    var e := Store(q[0], deleted);
    SafeMore(a.log, e);
    forall x ensures Times(a.log + [e], x) == Times(a.log, x) + (if e == x then 1 else 0) {
      TimesMore(a.log, e, x);
    }
  }

  /** The flag is acknowledged. */
  function Committed(a: Account): Account
    requires a.storing.Some?
  {
    a.(storing := None, committed := a.committed + 1, log := a.log + [Acked(a.storing.value)], state := Next)
  }

  lemma CommittedKeeps(a: Account)
    requires a.Valid() && a.state == Commit
    ensures Committed(a).Valid()
  {
    hide Times, Count, Safe;
    var e := Acked(a.storing.value);
    SafeMore(a.log, e);
    forall x ensures Times(a.log + [e], x) == Times(a.log, x) + (if e == x then 1 else 0) {
      TimesMore(a.log, e, x);
    }
  }

  /** EXPUNGE, or CLOSE, which expunges too. */
  function Purging(a: Account, e: Event): Account
    requires e.Expunge? || e.Close?
  {
    a.(tag := a.tag + 1, log := a.log + [e], state := if e.Expunge? then Expunging else Closing)
  }

  lemma PurgingKeeps(a: Account, e: Event)
    requires a.Valid() && (e.Expunge? || e.Close?) && a.AllPending() == 0
    requires !a.Searching() || (a.state == Search3 && a.total == |a.wanted|)
    ensures Purging(a, e).Valid()
  {
    hide Times, Safe;
    forall u ensures a.Pending(u) == 0 {
      NonePending(a, u);
    }
    SafeMore(a.log, e);
    forall x ensures Times(a.log + [e], x) == Times(a.log, x) + (if e == x then 1 else 0) {
      TimesMore(a.log, e, x);
    }
  }

  /** A mail that has been read is queued. */
  function Queued(a: Account): Account
    requires a.fetching.Some?
  {
    a.(inflight := a.inflight + [a.fetching.value], fetching := None)
  }

  lemma QueuedKeeps(a: Account)
    requires a.Valid() && a.state == Next && a.fetching.Some?
    ensures Queued(a).Valid()
  {
    hide Times, Count, Safe;
    forall u ensures Count(a.inflight + [a.fetching.value], u) == Count(a.inflight, u) + One(a.fetching, u) {
      CountLast(a.inflight, a.fetching.value, u);
    }
  }

  /** A queued mail has its final decision. */
  function Committing(a: Account, k: nat, drop: bool): Account
    requires k < |a.inflight|
  {
    var u := a.inflight[k];
    a.(inflight := Without(a.inflight, k), dropped := if drop then a.dropped + [u] else a.dropped,
       kept := if drop then a.kept else a.kept + [u], log := a.log + [Decided(u, drop)])
  }

  lemma CommittingKeeps(a: Account, k: nat, drop: bool)
    requires a.Valid() && k < |a.inflight|
    ensures Committing(a, k, drop).Valid()
  {
    hide Times, Count, Safe;
    var x := a.inflight[k];
    var e := Decided(x, drop);
    var q := if drop then a.dropped else a.kept;
    forall u
      ensures Count(a.inflight, u) == Count(Without(a.inflight, k), u) + (if x == u then 1 else 0)
      ensures Count(q + [x], u) == Count(q, u) + (if x == u then 1 else 0)
    {
      CountWithout(a.inflight, k, u);
      CountLast(q, x, u);
    }
    SafeMore(a.log, e);
    forall y ensures Times(a.log + [e], y) == Times(a.log, y) + (if e == y then 1 else 0) {
      TimesMore(a.log, e, y);
    }
  }
}
