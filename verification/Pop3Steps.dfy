// What the POP3 client does, as functions: one for each state function, one for a turn of the fetch loop, one for a
// whole run, and one for any number of runs. Every state reached is valid, and so every log is safe.

module Pop3Steps {
  import opened Sequences
  import opened Options
  import opened Pop3Log
  import opened Pop3

  datatype Config = Config(poll: bool, delBig: bool, maxSize: nat)

  /** The account, and what the client keeps besides: whether to purge, and the size of the mail being read. */
  datatype Client = Client(data: Account, purge: bool, size: nat, flushing: bool)

  datatype Outcome = Outcome(client: Client, ret: Return)

  /** Everything left open about one round of the fetch loop. */
  datatype Turn = Turn(arrived: nat, refuse: bool, apop: bool, box: seq<Uid>, reachable: bool, loads: bool, saves: bool,
                       emptyText: bool, purge: bool, decisions: seq<(nat, FinalDecision)>)

  function Put(c: Client, a: Account, ret: Return): Outcome {
    Outcome(c.(data := a), ret)
  }

  /** The rules of a state function: it stays in the run, only adds to the log, and leaves things valid unless it ends the run. */
  ghost predicate Keeps(a: Account, r: Outcome) {
    && SameRun(a, r.client.data) && r.client.data.Settled()
    && a.log <= r.client.data.log && a.boxes <= r.client.data.boxes
    && (r.ret !in {Error, Exit} ==> r.client.data.Valid())
  }

  /** And it hands no mail over. */
  ghost predicate Quiet(a: Account, r: Outcome) {
    Keeps(a, r) && r.ret != GotMail && r.client.data.handed == a.handed
  }

  /** A valid state of the same run, with nothing new in the log. */
  lemma Reached(c: Client, b: Account, ret: Return)
    requires b.Valid() && ret != GotMail && SameRun(c.data, b) && b.log == c.data.log && b.boxes == c.data.boxes && b.handed == c.data.handed
    ensures Quiet(c.data, Put(c, b, ret))
  {
    hide Account.Valid, Account.Settled;
    ValidIsSettled(b);
  }

  /** What is quiet from a later state is quiet from an earlier one. */
  lemma Onwards(a: Account, b: Account, r: Outcome)
    requires Quiet(b, r) && SameRun(a, b) && b.log == a.log && b.boxes == a.boxes && b.handed == a.handed
    ensures Quiet(a, r)
  {
    hide Account.Valid, Account.Settled;
  }

  // ---------------------------------------------------------------- logging in

  function ConnectStep(c: Client, box: seq<Uid>, reachable: bool, refuse: bool): Outcome {
    var a := c.data;
    if reachable
    then Put(c, a.(boxes := a.boxes + [box], marked := {}, wire := if refuse then [Failed] else [Okay], state := Connected), Block)
    else Put(c, a, Error)
  }

  lemma ConnectStepKeeps(c: Client, box: seq<Uid>, reachable: bool, refuse: bool)
    requires c.data.Valid() && c.data.state == Connect
    ensures Quiet(c.data, ConnectStep(c, box, reachable, refuse))
  {
    hide Account.Valid, Account.Settled;
    ValidIsSettled(c.data);
    ConnectKeeps(c.data, box, refuse);
    ValidIsSettled(ConnectStep(c, box, true, refuse).client.data);
  }

  /** A command answered with OK is followed by the next one. */
  function LoginStep(c: Client, arrived: nat, cmd: Command, refuse: bool, next: State): Outcome {
    var a := c.data;
    if arrived == 0 || a.wire == [] then Put(c, a, Block)
    else if a.wire[0] == Failed then Put(c, a, Error)
    else Put(c, a.(wire := a.wire[1..] + a.Sent(cmd, refuse), state := next), Block)
  }

  lemma LoginStepKeeps(c: Client, arrived: nat, cmd: Command, refuse: bool, next: State)
    requires c.data.Valid() && c.data.state in {Connected, User, Stat}
    requires (next in {User, Stat} && cmd == Login) || (next == FirstStat && cmd == StatCmd)
    ensures Quiet(c.data, LoginStep(c, arrived, cmd, refuse, next)) && c.data.wire != []
  {
    hide Account.Valid, Account.Settled;
    ValidIsSettled(c.data);
    ReplyComing(c.data);
    if c.data.wire[0] != Failed {
      LoginKeeps(c.data, cmd, refuse, next);
      ValidIsSettled(c.data.(wire := c.data.wire[1..] + c.data.Sent(cmd, refuse), state := next));
    }
  }

  // ---------------------------------------------------------------- the mailbox listing

  function FirstStep(c: Client, arrived: nat, refuse: bool): Outcome {
    var a := c.data;
    if arrived == 0 || a.wire == [] then Put(c, a, Block)
    else if !a.wire[0].OkayNumbers? || a.boxes == [] then Put(c, a, Error)
    else
      var b := a.(num := a.wire[0].first, cur := 0, wire := a.wire[1..]);
      if b.num != 0 then Put(c, b.(wire := b.Sent(UidlCmd, refuse), state := Cache1), Block)
      else if b.total != 0 then Put(c, b.(state := Next), Again)
      else Put(c, QuitSent(b, refuse, Quitting), Block)
  }

  lemma FirstStepKeeps(c: Client, arrived: nat, refuse: bool)
    requires c.data.Valid() && c.data.state == FirstStat
    ensures Quiet(c.data, FirstStep(c, arrived, refuse)) && c.data.wire != [] && c.data.boxes != []
    ensures c.data.wire[0].OkayNumbers? ==> c.data.wire[0].first == |c.data.Box()|
  {
    hide Account.Valid, Account.Settled, FirstStep, ReplyTo;
    ValidIsSettled(c.data);
    ReplyComing(c.data);
    if c.data.wire[0].OkayNumbers? {
      StatReply(c.data);
    }
    FirstStepEnds(c, arrived, refuse);
    FirstStepStays(c.data, refuse);
    var b := FirstStep(c, arrived, refuse).client.data;
    if b != c.data {
      FirstKeeps(c.data, b, refuse);
      ValidIsSettled(b);
    }
  }

  lemma FirstStepEnds(c: Client, arrived: nat, refuse: bool)
    requires c.data.boxes != [] && (c.data.wire != [] && c.data.wire[0].OkayNumbers? ==> c.data.wire[0].first == |c.data.Box()| && c.data.wire[1..] == [])
    ensures var r := FirstStep(c, arrived, refuse);
            && r.client == c.(data := r.client.data) && r.ret != GotMail
            && (r.client.data != c.data ==>
                  && c.data.wire != [] && c.data.wire[0].OkayNumbers?
                  && var e := c.data.(num := |c.data.Box()|, cur := 0, wire := []);
                     if c.data.Box() != [] then r.client.data == e.(wire := c.data.Sent(UidlCmd, refuse), state := Cache1)
                     else if c.data.total != 0 then r.client.data == e.(state := Next)
                     else r.client.data == QuitSent(e, refuse, Quitting))
  {
    hide ReplyTo, QuitSent;
  }

  /** None of the ways on from the size of the mailbox leaves the run. */
  lemma FirstStepStays(a: Account, refuse: bool)
    requires a.boxes != []
    ensures var e := a.(num := |a.Box()|, cur := 0, wire := []);
            forall b :: b in {e.(wire := a.Sent(UidlCmd, refuse), state := Cache1), e.(state := Next), QuitSent(e, refuse, Quitting)} ==>
              SameRun(a, b) && b.handed == a.handed && a.log <= b.log && a.boxes <= b.boxes
  {
    hide ReplyTo;
  }

  function Cache1Step(c: Client, arrived: nat): Outcome {
    var a := c.data;
    if arrived == 0 || a.wire == [] then Put(c, a, Block)
    else if a.wire[0] == Failed then Put(c, a, Error)
    else Put(c, a.(wire := a.wire[1..], serverq := map[], state := Cache2), Again)
  }

  lemma Cache1StepKeeps(c: Client, arrived: nat)
    requires c.data.Valid() && c.data.state == Cache1
    ensures Quiet(c.data, Cache1Step(c, arrived)) && c.data.wire != []
  {
    hide Account.Valid, Account.Settled;
    ValidIsSettled(c.data);
    ReplyComing(c.data);
    if c.data.wire[0] != Failed {
      ListingStartsKeeps(c.data);
      ValidIsSettled(c.data.(wire := c.data.wire[1..], serverq := map[], state := Cache2));
    }
  }

  /** As many lines of the listing as have come. */
  function Cache2Step(c: Client, left: nat): Outcome
    decreases left
  {
    var a := c.data;
    if a.cur == a.num then Put(c, a.(state := Cache3), Again)
    else if left == 0 || a.wire == [] then Put(c, a, Block)
    else
      var line := a.wire[0];
      if !line.UidLine? || line.n != a.cur + 1 || !ValidUid(line.uid) || line.uid in a.serverq then Put(c, a, Error)
      else Cache2Step(c.(data := ListingRead(a, line.uid, line.n)), left - 1)
  }

  function ListingRead(a: Account, uid: Uid, n: nat): Account
    requires a.wire != []
  {
    a.(wire := a.wire[1..], serverq := a.serverq[uid := n], cur := a.cur + 1)
  }

  lemma {:induction false} Cache2StepKeeps(c: Client, left: nat)
    requires c.data.Valid() && c.data.state == Cache2
    ensures var r, d := Cache2Step(c, left), Cache2Step(c, left).client.data;
            && Quiet(c.data, r) && r.ret in {Again, Block, Error} && d.boxes == c.data.boxes
            && (r.ret == Block ==> d.state == Cache2 && d.cur == c.data.cur + left)
            && (r.ret == Again ==> d.state == Cache3 && d.serverq == Numbers(d.Box(), |d.Box()|))
            && (r.ret != Block ==> r.ret == if AllValid(d.Box()) then Again else Error)
    decreases left
  {
    hide Account.Valid, Account.Settled, AllValid, Numbers, ValidUid, Quiet;
    var a := c.data;
    ListingFacts(a);
    if a.cur == a.num {
      ListingEndsKeeps(a);
      Reached(c, a.(state := Cache3), Again);
    } else if left == 0 {
      Reached(c, a, Block);
    } else {
      var line := a.wire[0];
      if !ValidUid(line.uid) || line.uid in a.serverq {
        Reached(c, a, Error);
      } else {
        ListingLineKeeps(a);
        var b := ListingRead(a, line.uid, line.n);
        Cache2StepKeeps(c.(data := b), left - 1);
        Onwards(a, b, Cache2Step(c.(data := b), left - 1));
      }
    }
  }

  /** The selected mails among the first n of a mailbox, in order. */
  function Wants(only: Only, cacheq: set<Uid>, box: seq<Uid>, n: nat): seq<Aux>
    requires n <= |box|
  {
    if n == 0 then []
    else Wants(only, cacheq, box, n - 1) + if Selected(only, cacheq, box[n - 1]) then [Aux(box[n - 1], n)] else []
  }

  /** There is a want list: the selected mails of the mailbox in order. */
  lemma {:induction false} WantsAre(only: Only, cacheq: set<Uid>, box: seq<Uid>, n: nat)
    requires n <= |box| && AllValid(box)
    ensures WantList(only, cacheq, Numbers(box, n), Wants(only, cacheq, box, n))
    ensures forall a :: a in Wants(only, cacheq, box, n) ==> 1 <= a.idx <= n
  {
    hide ValidUid;
    if n > 0 {
      WantsAre(only, cacheq, box, n - 1);
      NumbersMeans(box, n - 1, box[n - 1]);
      OneMore(only, cacheq, Numbers(box, n - 1), Wants(only, cacheq, box, n - 1), box[n - 1], n);
    }
  }

  lemma OneMore(only: Only, cacheq: set<Uid>, serverq: map<Uid, nat>, q: seq<Aux>, uid: Uid, n: nat)
    requires n > 0 && WantList(only, cacheq, serverq, q) && uid !in serverq && forall a :: a in q ==> 1 <= a.idx < n
    ensures var more := q + if Selected(only, cacheq, uid) then [Aux(uid, n)] else [];
            WantList(only, cacheq, serverq[uid := n], more) && forall a :: a in more ==> 1 <= a.idx <= n
  {
    hide Selected, Ascending;
    var more := q + if Selected(only, cacheq, uid) then [Aux(uid, n)] else [];
    assert forall a :: a in more <==> a in q || (Selected(only, cacheq, uid) && a == Aux(uid, n));
    if Selected(only, cacheq, uid) {
      AscendingMore(q, Aux(uid, n));
    } else {
      assert more == q;
    }
  }

  lemma AscendingMore(q: seq<Aux>, a: Aux)
    requires Ascending(q) && forall b :: b in q ==> b.idx < a.idx
    ensures Ascending(q + [a])
  {
    assert forall i :: 0 <= i < |q| ==> q[i] in q;
  }

  /** And there is no other. */
  lemma {:induction false} AscendingSame(p: seq<Aux>, q: seq<Aux>)
    requires Ascending(p) && Ascending(q) && forall a :: a in p <==> a in q
    ensures p == q
    decreases |p|
  {
    assert q != [] ==> q[0] in q;
    if p != [] {
      assert p[0] in p;
      var m, n := |p| - 1, |q| - 1;
      assert p[m] in q && q[n] in p;
      assert p[m] == q[n];
      BeforeLast(p);
      BeforeLast(q);
      forall a ensures a in p[..m] <==> a in q[..n] {
        assert a in p[..m] <==> a in p && a != p[m];
        assert a in q[..n] <==> a in q && a != q[n];
      }
      AscendingSame(p[..m], q[..n]);
    }
  }

  lemma BeforeLast(q: seq<Aux>)
    requires Ascending(q) && q != []
    ensures Ascending(q[..|q| - 1]) && forall a :: a in q[..|q| - 1] <==> a in q && a != q[|q| - 1]
  {
    var n := |q| - 1;
    assert q == q[..n] + [q[n]];
  }

  lemma WantsOnly(a: Account, cacheq: set<Uid>, want: seq<Aux>)
    requires AllValid(a.Box()) && WantList(a.only, cacheq, Numbers(a.Box(), |a.Box()|), want)
    ensures want == Wants(a.only, cacheq, a.Box(), |a.Box()|)
  {
    var q := Wants(a.only, cacheq, a.Box(), |a.Box()|);
    WantsAre(a.only, cacheq, a.Box(), |a.Box()|);
    forall x ensures x in want <==> x in q {
    }
    AscendingSame(want, q);
  }

  /** The first connection builds the want list, a later one renumbers it; with nothing to fetch, or polling, it leaves. */
  function Cache3Step(poll: bool, c: Client, arrived: nat, loads: bool, refuse: bool): Outcome {
    var a := c.data;
    if arrived == 0 || a.wire == [] then Put(c, a, Block)
    else if a.total >= |a.wantq| && a.total != 0 then Put(c, Rewanting(a), Again)
    else if !loads || a.boxes == [] then Put(c, a, Error)
    else
      var cacheq := (if a.path then a.file else {}) * a.serverq.Keys;
      var want := Wants(a.only, cacheq, a.Box(), |a.Box()|);
      if want == [] || poll then Put(c, QuitSent(Wanting(a, want), refuse, Quitting), Block)
      else Put(c, Wanting(a, want), Again)
  }

  lemma Cache3StepKeeps(poll: bool, c: Client, arrived: nat, loads: bool, refuse: bool)
    requires c.data.Valid() && c.data.state == Cache3
    ensures Quiet(c.data, Cache3Step(poll, c, arrived, loads, refuse)) && c.data.wire == [Dot] && c.data.boxes != []
    ensures c.data.total != 0 ==> c.data.total >= |c.data.wantq|
    ensures AllValid(c.data.Box()) && c.data.serverq == Numbers(c.data.Box(), |c.data.Box()|)
  {
    hide Account.Valid, Account.Settled, Renumber, Wants, AllValid, Numbers, ReplyTo;
    var a := c.data;
    ValidIsSettled(a);
    Cache3Facts(a);
    ListingKnown(a);
    if a.total != 0 {
      RewantingKeeps(a);
      ValidIsSettled(Rewanting(a));
    } else {
      FirstWants(poll, a, refuse);
    }
  }

  /** Building the first want list, and perhaps leaving at once. */
  lemma FirstWants(poll: bool, a: Account, refuse: bool)
    requires a.Valid() && a.state == Cache3 && a.total == 0
    ensures var b := Wanting(a, Wants(a.only, (if a.path then a.file else {}) * a.serverq.Keys, a.Box(), |a.Box()|));
            && b.Valid() && b.Settled() && b.boxes != []
            && (b.wantq == [] || poll ==> QuitSent(b, refuse, Quitting).Valid() && QuitSent(b, refuse, Quitting).Settled())
  {
    hide Account.Valid, Account.Settled, WantList, Wants, AllValid, Numbers, ReplyTo;
    var cacheq := (if a.path then a.file else {}) * a.serverq.Keys;
    Cache3Facts(a);
    ListingKnown(a);
    WantsAre(a.only, cacheq, a.Box(), |a.Box()|);
    var b := Wanting(a, Wants(a.only, cacheq, a.Box(), |a.Box()|));
    WantingKeeps(a, b.wantq);
    ValidIsSettled(b);
    NextFacts(b);
    if b.wantq == [] || poll {
      QuitKeeps(b, refuse, Quitting);
      ValidIsSettled(QuitSent(b, refuse, Quitting));
    }
  }

  lemma ListingKnown(a: Account)
    requires a.Valid() && a.state == Cache3
    ensures AllValid(a.Box()) && a.serverq == Numbers(a.Box(), |a.Box()|)
  {
    hide Account.Counted, Account.Bound, Account.Unique, Account.WireFits, Account.CacheExact, Account.LogSafe, Account.History;
  }

  // ---------------------------------------------------------------- deleting, purging, fetching

  function NextStep(c: Client, refuse: bool): Outcome {
    var a := c.data;
    if a.boxes == [] then Put(c, a, Block)
    else if a.dropq != [] then Put(c, DeleSent(a, refuse), Block)
    else if a.wantq == [] then Put(c, if a.committed != a.total then a else QuitSent(a, refuse, Quitting), Block)
    else if !c.purge then Put(c, Listing(a, refuse), Block)
    else if a.inflight != [] then Put(c, a, Block)
    else Put(c.(purge := false), QuitSent(a, refuse, Reconnect), Block)
  }

  lemma NextStepKeeps(c: Client, refuse: bool)
    requires c.data.Valid() && c.data.state == Next && c.data.handed == None
    ensures Quiet(c.data, NextStep(c, refuse)) && c.data.boxes != []
    ensures NextStep(c, refuse).client.purge == (c.purge && NextStep(c, refuse).client.data.state != Reconnect)
  {
    hide Account.Valid, Account.Settled, ReplyTo;
    var a := c.data;
    ValidIsSettled(a);
    NextFacts(a);
    if a.dropq != [] {
      DeleSentKeeps(a, refuse);
      ValidIsSettled(DeleSent(a, refuse));
    } else if a.wantq == [] {
      if a.committed == a.total {
        QuitKeeps(a, refuse, Quitting);
        ValidIsSettled(QuitSent(a, refuse, Quitting));
      }
    } else if !c.purge {
      ListingMailKeeps(a, refuse);
      ValidIsSettled(Listing(a, refuse));
    } else if a.inflight == [] {
      QuitKeeps(a, refuse, Reconnect);
      ValidIsSettled(QuitSent(a, refuse, Reconnect));
    }
  }

  /** A mail is resolved, and the cache saved if there is a file for it; a failure to save ends the run. */
  function CommitStep(c: Client, uid: Uid, saves: bool): Outcome {
    var a := c.data;
    if a.path && a.only != OnlyOld && !saves then Put(c, a, Error) else Put(c, Resolve(a, uid), Again)
  }

  lemma CommitStepKeeps(c: Client, uid: Uid, saves: bool)
    requires c.data.Valid() && c.data.loads == 1
    requires uid !in Uids(c.data.wantq) && uid !in Uids(c.data.Flying()) && uid !in Uids(c.data.dropq)
    ensures Quiet(c.data, CommitStep(c, uid, saves))
  {
    hide Account.Valid, Account.Settled;
    ValidIsSettled(c.data);
    ResolveKeeps(c.data, uid);
    ValidIsSettled(Resolve(c.data, uid));
  }

  function DeleteStep(c: Client, arrived: nat, saves: bool): Outcome {
    var a := c.data;
    if arrived == 0 || a.wire == [] then Put(c, a, Block)
    else if a.wire[0] == Failed || a.dropq == [] then Put(c, a, Error)
    else CommitStep(c.(data := Acknowledged(a)), a.dropq[0].uid, saves)
  }

  lemma DeleteStepKeeps(c: Client, arrived: nat, saves: bool)
    requires c.data.Valid() && c.data.state == Delete
    ensures Quiet(c.data, DeleteStep(c, arrived, saves)) && c.data.wire != [] && c.data.dropq != []
  {
    hide Account.Valid, Account.Settled, Uids;
    ValidIsSettled(c.data);
    DeleteFacts(c.data);
    if c.data.wire[0] != Failed {
      AcknowledgedKeeps(c.data);
      CommitStepKeeps(c.(data := Acknowledged(c.data)), c.data.dropq[0].uid, saves);
    }
  }

  function ReconnectStep(c: Client, arrived: nat): Outcome {
    var a := c.data;
    if arrived == 0 || a.wire == [] then Put(c, a, Block)
    else if a.wire[0] == Failed then Put(c, a, Error)
    else Put(c, a.(wire := [], state := Connect), Again)
  }

  lemma ReconnectStepKeeps(c: Client, arrived: nat)
    requires c.data.Valid() && c.data.state == Reconnect
    ensures Quiet(c.data, ReconnectStep(c, arrived)) && c.data.wire != []
  {
    hide Account.Valid, Account.Settled;
    ValidIsSettled(c.data);
    ReplyComing(c.data);
    ReconnectKeeps(c.data);
    ValidIsSettled(c.data.(wire := [], state := Connect));
  }

  /** The mail wanted is fetched if the listing has the number asked for. */
  function ListStep(c: Client, arrived: nat, refuse: bool): Outcome {
    var a := c.data;
    if arrived == 0 || a.wire == [] then Put(c, a, Block)
    else if a.mail == None || !a.wire[0].OkayNumbers? || a.wire[0].first != a.mail.value.idx then Put(c, a, Error)
    else Put(c, a.(wire := a.wire[1..] + a.Sent(RetrCmd(a.mail.value.idx), refuse), state := Retr), Block)
  }

  lemma ListStepKeeps(c: Client, arrived: nat, refuse: bool)
    requires c.data.Valid() && c.data.state == List
    ensures Quiet(c.data, ListStep(c, arrived, refuse)) && c.data.wire != [] && c.data.mail.Some?
    ensures c.data.wire[0] != Failed ==> Binds(c.data.Box(), c.data.mail.value)
  {
    hide Account.Valid, Account.Settled, Binds, ReplyTo;
    ValidIsSettled(c.data);
    ReplyComing(c.data);
    ListFacts(c.data);
    if c.data.wire[0] != Failed {
      RetrievingKeeps(c.data, refuse);
      ValidIsSettled(c.data.(wire := c.data.wire[1..] + c.data.Sent(RetrCmd(c.data.mail.value.idx), refuse), state := Retr));
    }
  }

  function RetrStep(c: Client, arrived: nat): Outcome {
    var a := c.data;
    if arrived == 0 || a.wire == [] then Put(c, a, Block)
    else if a.wire[0] == Failed then Put(c, a, Error)
    else Outcome(Client(a.(wire := a.wire[1..], read := 0, state := Line), c.purge, 0, false), Again)
  }

  lemma RetrStepKeeps(c: Client, arrived: nat)
    requires c.data.Valid() && c.data.state == Retr
    ensures Quiet(c.data, RetrStep(c, arrived)) && c.data.wire != []
  {
    hide Account.Valid, Account.Settled;
    ValidIsSettled(c.data);
    ReplyComing(c.data);
    if c.data.wire[0] != Failed {
      ReadingKeeps(c.data);
      ValidIsSettled(c.data.(wire := c.data.wire[1..], read := 0, state := Line));
    }
  }

  /** The text of a mail, as far as it has come; its size is counted until it is too big. */
  function LineStep(maxSize: nat, c: Client, left: nat): Outcome
    decreases left
  {
    var a := c.data;
    if left == 0 || a.wire == [] then Put(c, a, Block)
    else if a.wire[0] == Dot && a.mail.Some? && a.wantq != [] then Put(c, HandedOver(a), GotMail)
    else LineStep(maxSize, TextRead(maxSize, c), left - 1)
  }

  function TextRead(maxSize: nat, c: Client): Client
    requires c.data.wire != []
  {
    var a := c.data.(wire := c.data.wire[1..], read := c.data.read + 1);
    if c.flushing || !c.data.wire[0].Text? then c.(data := a)
    else
      var size := c.size + |c.data.wire[0].line| + 1;
      Client(a, c.purge, size, size > maxSize)
  }

  lemma LineStepIs(maxSize: nat, c: Client, left: nat)
    requires c.data.wire != [] && c.data.mail.Some? && c.data.wantq != []
    ensures LineStep(maxSize, c, left)
            == if left == 0 then Put(c, c.data, Block)
               else if c.data.wire[0] == Dot then Put(c, HandedOver(c.data), GotMail)
               else LineStep(maxSize, TextRead(maxSize, c), left - 1)
  {
    hide HandedOver, TextRead;
  }

  lemma {:induction false} LineStepKeeps(maxSize: nat, c: Client, left: nat)
    requires c.data.Valid() && c.data.state == Line
    ensures var r, d := LineStep(maxSize, c, left), LineStep(maxSize, c, left).client.data;
            && Keeps(c.data, r) && r.ret in {Block, GotMail}
            && (r.ret == Block ==> d.state == Line && d.read == c.data.read + left && d.handed == c.data.handed)
            && (r.ret == GotMail ==> d.state == Next && d.handed == c.data.mail && d.handed.Some?
                                     && c.data.wantq != [] && d.wantq == c.data.wantq[1..])
    decreases left
  {
    hide Account.Valid, Account.Settled;
    var a := c.data;
    ValidIsSettled(a);
    LineFacts(a);
    if left > 0 {
      if a.wire[0] == Dot {
        HandedOverKeeps(a);
        ValidIsSettled(HandedOver(a));
      } else {
        TextLineKeeps(a);
        LineStepKeeps(maxSize, TextRead(maxSize, c), left - 1);
      }
    }
  }

  /** Everything is freed; log, mailboxes and cache file stay. */
  function Released(a: Account): Account {
    a.(wantq := [], dropq := [], cacheq := {}, serverq := map[], wire := [])
  }

  function QuitStep(c: Client, arrived: nat): Outcome {
    var a := c.data;
    if arrived == 0 || a.wire == [] then Put(c, a, Block)
    else if a.wire[0] == Failed then Put(c, a, Error)
    else Put(c, Released(a), Exit)
  }

  lemma QuitStepKeeps(c: Client, arrived: nat)
    requires c.data.Valid() && c.data.state == Quitting
    ensures Quiet(c.data, QuitStep(c, arrived)) && c.data.wire != []
  {
    hide Account.Valid;
    ValidIsSettled(c.data);
    ReplyComing(c.data);
  }

  // ---------------------------------------------------------------- the fetch loop

  /** The mail just read is queued; an oversize one is dropped at once or ends the run, an empty one ends it. */
  function EnqueueStep(k: Config, c: Client, emptyText: bool): Outcome {
    var a := c.data;
    if a.handed == None || (if c.size > k.maxSize then !k.delBig else emptyText) then Put(c, a, Error)
    else if c.size > k.maxSize then Put(c, ToDrop(a.(handed := None), a.handed.value), Again)
    else Put(c, a.(inflight := a.inflight + [a.handed.value], handed := None), Again)
  }

  lemma EnqueueStepKeeps(k: Config, c: Client, emptyText: bool)
    requires c.data.Valid() && c.data.handed.Some?
    ensures var r := EnqueueStep(k, c, emptyText);
            && Keeps(c.data, r) && r.ret in {Again, Error} && (r.ret == Again ==> r.client.data.handed == None)
  {
    hide Account.Valid, Account.Settled;
    var a := c.data;
    ValidIsSettled(a);
    if c.size > k.maxSize {
      DropHandedKeeps(a);
      ValidIsSettled(ToDrop(a.(handed := None), a.handed.value));
    } else {
      QueuedKeeps(a);
      ValidIsSettled(a.(inflight := a.inflight + [a.handed.value], handed := None));
    }
  }

  /** A mail in flight is decided; there is nothing to do for a mail that is not in flight. */
  function DequeueStep(c: Client, k: nat, decision: FinalDecision, saves: bool): Outcome {
    var a := c.data;
    if k >= |a.inflight| then Put(c, a, Again)
    else if decision == Drop then Put(c, ToDrop(a.(inflight := Without(a.inflight, k)), a.inflight[k]), Again)
    else CommitStep(c.(data := KeptOut(a, k)), a.inflight[k].uid, saves)
  }

  lemma DequeueStepKeeps(c: Client, k: nat, decision: FinalDecision, saves: bool)
    requires c.data.Valid() && c.data.handed == None
    ensures var r := DequeueStep(c, k, decision, saves);
            Keeps(c.data, r) && r.ret in {Again, Error} && r.client.data.handed == None
  {
    hide Account.Valid, Account.Settled, Uids;
    var a := c.data;
    ValidIsSettled(a);
    if k < |a.inflight| {
      if decision == Drop {
        DropKeeps(a, k);
        ValidIsSettled(ToDrop(a.(inflight := Without(a.inflight, k)), a.inflight[k]));
      } else {
        KeptKeeps(a, k);
        CommitStepKeeps(c.(data := KeptOut(a, k)), a.inflight[k].uid, saves);
      }
    }
  }

  /** The state function of the current state. */
  function StateStep(k: Config, c: Client, t: Turn): Outcome {
    match c.data.state
    case Connect => ConnectStep(c, t.box, t.reachable, t.refuse)
    case Connected => LoginStep(c, t.arrived, Login, t.refuse, if t.apop then Stat else User)
    case User => LoginStep(c, t.arrived, Login, t.refuse, Stat)
    case Stat => LoginStep(c, t.arrived, StatCmd, t.refuse, FirstStat)
    case FirstStat => FirstStep(c, t.arrived, t.refuse)
    case Cache1 => Cache1Step(c, t.arrived)
    case Cache2 => Cache2Step(c, t.arrived)
    case Cache3 => Cache3Step(k.poll, c, t.arrived, t.loads, t.refuse)
    case Next => NextStep(c, t.refuse)
    case Delete => DeleteStep(c, t.arrived, t.saves)
    case Reconnect => ReconnectStep(c, t.arrived)
    case List => ListStep(c, t.arrived, t.refuse)
    case Retr => RetrStep(c, t.arrived)
    case Line => LineStep(k.maxSize, c, t.arrived)
    case Quitting => QuitStep(c, t.arrived)
  }

  lemma StateStepKeeps(k: Config, c: Client, t: Turn)
    requires c.data.Valid() && c.data.handed == None
    ensures var r := StateStep(k, c, t);
            && Keeps(c.data, r)
            && (r.ret in {Again, Block, GotMail} ==> (r.ret == GotMail <==> r.client.data.handed.Some?))
  {
    hide Account.Valid, Account.Settled, Numbers, AllValid, Binds;
    hide ConnectStep, LoginStep, FirstStep, Cache1Step, Cache2Step, Cache3Step, NextStep, DeleteStep, ReconnectStep, ListStep, RetrStep,
      LineStep, QuitStep;
    match c.data.state {
      case Connect => ConnectStepKeeps(c, t.box, t.reachable, t.refuse);
      case Connected => LoginStepKeeps(c, t.arrived, Login, t.refuse, if t.apop then Stat else User);
      case User => LoginStepKeeps(c, t.arrived, Login, t.refuse, Stat);
      case Stat => LoginStepKeeps(c, t.arrived, StatCmd, t.refuse, FirstStat);
      case FirstStat => FirstStepKeeps(c, t.arrived, t.refuse);
      case Cache1 => Cache1StepKeeps(c, t.arrived);
      case Cache2 => Cache2StepKeeps(c, t.arrived);
      case Cache3 => Cache3StepKeeps(k.poll, c, t.arrived, t.loads, t.refuse);
      case Next => NextStepKeeps(c, t.refuse);
      case Delete => DeleteStepKeeps(c, t.arrived, t.saves);
      case Reconnect => ReconnectStepKeeps(c, t.arrived);
      case List => ListStepKeeps(c, t.arrived, t.refuse);
      case Retr => RetrStepKeeps(c, t.arrived);
      case Line => LineStepKeeps(k.maxSize, c, t.arrived);
      case Quitting => QuitStepKeeps(c, t.arrived);
    }
  }

  /** The decisions that come in during a turn. */
  function DecideStep(c: Client, decisions: seq<(nat, FinalDecision)>, saves: bool): Outcome
    decreases |decisions|
  {
    if decisions == [] then Put(c, c.data, Again)
    else
      var r := DequeueStep(c, decisions[0].0, decisions[0].1, saves);
      if r.ret == Error then r else DecideStep(r.client, decisions[1..], saves)
  }

  lemma {:induction false} DecideStepKeeps(c: Client, decisions: seq<(nat, FinalDecision)>, saves: bool)
    requires c.data.Valid() && c.data.handed == None
    ensures var r := DecideStep(c, decisions, saves);
            Keeps(c.data, r) && r.ret in {Again, Error} && r.client.data.handed == None
    decreases |decisions|
  {
    hide Account.Valid, Account.Settled, DequeueStep;
    ValidIsSettled(c.data);
    if decisions != [] {
      DequeueStepKeeps(c, decisions[0].0, decisions[0].1, saves);
      var r := DequeueStep(c, decisions[0].0, decisions[0].1, saves);
      if r.ret != Error {
        DecideStepKeeps(r.client, decisions[1..], saves);
      }
    }
  }

  /** One turn: decisions, the purge flag, the state function, and a mail that is ready. Error and Exit end the run. */
  function TurnStep(k: Config, c: Client, t: Turn): Outcome {
    var r := DecideStep(c, t.decisions, t.saves);
    if r.ret == Error then r
    else
      var s := StateStep(k, if t.purge then r.client.(purge := true) else r.client, t);
      if s.ret == GotMail then EnqueueStep(k, s.client, t.emptyText) else s
  }

  lemma TurnStepKeeps(k: Config, c: Client, t: Turn)
    requires c.data.Valid() && c.data.handed == None
    ensures var r := TurnStep(k, c, t);
            Keeps(c.data, r) && (r.ret !in {Error, Exit} ==> r.client.data.handed == None)
  {
    hide Account.Valid, Account.Settled, DecideStep, StateStep, EnqueueStep;
    DecideStepKeeps(c, t.decisions, t.saves);
    var r := DecideStep(c, t.decisions, t.saves);
    if r.ret != Error {
      var d := if t.purge then r.client.(purge := true) else r.client;
      StateStepKeeps(k, d, t);
      var s := StateStep(k, d, t);
      if s.ret == GotMail {
        EnqueueStepKeeps(k, s.client, t.emptyText);
      }
    }
  }

  /** The run after some turns; ended runs stay as they are. */
  function Ran(k: Config, c: Client, turns: seq<Turn>): Outcome
    decreases |turns|
  {
    if turns == [] then Put(c, c.data, Again)
    else
      var r := Ran(k, c, turns[..|turns| - 1]);
      if r.ret in {Error, Exit} then r else TurnStep(k, r.client, turns[|turns| - 1])
  }

  /** After any turns the run is valid, or has ended and left things settled. */
  lemma {:induction false} RanKeeps(k: Config, c: Client, turns: seq<Turn>)
    requires c.data.Valid() && c.data.handed == None
    ensures var r := Ran(k, c, turns);
            Keeps(c.data, r) && (r.ret !in {Error, Exit} ==> r.client.data.handed == None)
    decreases |turns|
  {
    hide Account.Valid, Account.Settled, TurnStep;
    ValidIsSettled(c.data);
    if turns != [] {
      RanKeeps(k, c, turns[..|turns| - 1]);
      var r := Ran(k, c, turns[..|turns| - 1]);
      if r.ret !in {Error, Exit} {
        TurnStepKeeps(k, r.client, turns[|turns| - 1]);
      }
    }
  }

  function Start(only: Only, path: bool, content: Uid -> seq<string>, past: seq<Event>, file: set<Uid>): Client {
    Client(Fresh(only, path, content, past, file), false, 0, false)
  }

  /**
   * At every moment of a run that goes on: each mail of the want list is still wanted, with the fetch loop, to be
   * deleted or committed; the cache has just the loaded uids that were on the server and those resolved since; and
   * it has been loaded at most once.
   */
  lemma AtAnyMoment(k: Config, c: Client, turns: seq<Turn>)
    requires c.data.Valid() && c.data.handed == None && Ran(k, c, turns).ret !in {Error, Exit}
    ensures var a := Ran(k, c, turns).client.data;
            && a.total == |a.wantq| + |a.inflight| + |a.dropq| + a.committed
            && a.cacheq == a.base + a.resolved && a.loads <= 1
            && DelesSafe(a.log, a.boxes) && QuitsSafe(a.log)
            && Open(a.log) == |a.inflight|
  {
    hide Ran, DelesSafe, QuitsSafe;
    RanKeeps(k, c, turns);
    var a := Ran(k, c, turns).client.data;
    assert a.Valid() && a.handed == None;
  }

  // ---------------------------------------------------------------- any number of runs

  function Flatten(logs: seq<seq<Event>>): seq<Event> {
    if logs == [] then [] else Flatten(logs[..|logs| - 1]) + logs[|logs| - 1]
  }

  function Logs(runs: seq<Account>): seq<seq<Event>> {
    seq(|runs|, i requires 0 <= i < |runs| => runs[i].log)
  }

  function Boxes(runs: seq<Account>): seq<seq<seq<Uid>>> {
    seq(|runs|, i requires 0 <= i < |runs| => runs[i].boxes)
  }

  /** The cache file the runs leave behind; there is none before the first. */
  function FileAfter(runs: seq<Account>): set<Uid> {
    if runs == [] then {} else runs[|runs| - 1].file
  }

  /** How each run ends. Each starts with the cache file and the history of those before. */
  function RanAll(k: Config, only: Only, path: bool, content: Uid -> seq<string>, runs: seq<seq<Turn>>): (ends: seq<Account>)
    ensures |ends| == |runs|
    decreases |runs|
  {
    if runs == [] then []
    else
      var before := RanAll(k, only, path, content, runs[..|runs| - 1]);
      before + [Ran(k, Start(only, path, content, Flatten(Logs(before)), FileAfter(before)), runs[|runs| - 1]).client.data]
  }

  lemma LogsMore(ends: seq<Account>, a: Account)
    ensures Logs(ends + [a]) == Logs(ends) + [a.log] && Boxes(ends + [a]) == Boxes(ends) + [a.boxes]
    ensures FileAfter(ends + [a]) == a.file
  {
  }

  /** The next run starts where those before have ended. */
  lemma NextRun(k: Config, only: Only, path: bool, content: Uid -> seq<string>, runs: seq<seq<Turn>>, i: nat)
    requires i < |runs|
    ensures var before := RanAll(k, only, path, content, runs[..i]);
            RanAll(k, only, path, content, runs[..i + 1])
            == before + [Ran(k, Start(only, path, content, Flatten(Logs(before)), FileAfter(before)), runs[i]).client.data]
  {
    hide Ran, Logs, Flatten, FileAfter;
    assert runs[..i + 1][..i] == runs[..i];
  }

  /** Each run deletes only mails decided DROP, by numbers of the session it does so in, and leaves with nothing open. */
  ghost predicate EndsSafe(ends: seq<Account>) {
    forall i :: 0 <= i < |ends| ==> DelesSafe(ends[i].log, ends[i].boxes) && QuitsSafe(ends[i].log)
  }

  lemma EndsMore(ends: seq<Account>, a: Account)
    requires EndsSafe(ends) && DelesSafe(a.log, a.boxes) && QuitsSafe(a.log)
    ensures EndsSafe(ends + [a])
  {
    hide DelesSafe, QuitsSafe;
  }

  /**
   * Over any number of runs, with anything happening in each: every run deletes only mails decided DROP, by numbers of
   * the session it does so in, and says goodbye only with nothing left open; and a new-only account reads each mail
   * once and leaves out only mails it has resolved.
   */
  lemma {:induction false} RunsSafe(k: Config, only: Only, path: bool, content: Uid -> seq<string>, runs: seq<seq<Turn>>)
    ensures var ends := RanAll(k, only, path, content, runs);
            && EndsSafe(ends)
            && (only == OnlyNew && path ==>
                  && FetchedOnce(Flatten(Logs(ends)))
                  && Steady(Flatten(Logs(ends))) <= FileAfter(ends) <= EverResolved(Flatten(Logs(ends))))
    decreases |runs|
  {
    hide EndsSafe, DelesSafe, QuitsSafe, FetchedOnce, Steady, EverResolved, Account.Valid, Account.Settled, Ran, Flatten, Logs, FileAfter;
    if runs == [] {
      EmptyHistory();
      NothingRan([]);
    } else {
      RunsSafe(k, only, path, content, runs[..|runs| - 1]);
      var before := RanAll(k, only, path, content, runs[..|runs| - 1]);
      var past := Flatten(Logs(before));
      var c := Start(only, path, content, past, FileAfter(before));
      FreshValid(only, path, content, past, FileAfter(before));
      RanKeeps(k, c, runs[|runs| - 1]);
      var a := Ran(k, c, runs[|runs| - 1]).client.data;
      SettledRun(a);
      LogsMore(before, a);
      FlattenMore(Logs(before), a.log);
      var ends := before + [a];
      assert ends == RanAll(k, only, path, content, runs);
      EndsMore(before, a);
    }
  }

  lemma SettledRun(a: Account)
    requires a.Settled()
    ensures DelesSafe(a.log, a.boxes) && QuitsSafe(a.log)
    ensures a.only == OnlyNew && a.path ==>
              FetchedOnce(a.past + a.log) && Steady(a.past + a.log) <= a.file <= EverResolved(a.past + a.log)
  {
  }

  lemma FlattenMore(logs: seq<seq<Event>>, log: seq<Event>)
    ensures Flatten(logs + [log]) == Flatten(logs) + log
  {
    assert (logs + [log])[..|logs|] == logs;
  }

  lemma NothingRan(ends: seq<Account>)
    requires ends == []
    ensures EndsSafe(ends) && Logs(ends) == [] && Boxes(ends) == [] && FileAfter(ends) == {} && Flatten(Logs(ends)) == []
  {
  }

  lemma EmptyHistory()
    ensures FetchedOnce([]) && Steady([]) == {} && EverResolved([]) == {}
  {
  }
}
