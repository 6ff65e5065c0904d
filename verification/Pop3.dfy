// The POP3 client of pop3-common.c run against a server that obeys RFC 1939, with the mails it has handed over
// being decided one by one while it goes on.
//
// A run is any interleaving of calls of the client's state functions with decisions about mails in flight; how
// many reply lines have arrived at each call, when the server refuses a command, what the mailbox looks like
// after each reconnect, and when a purge is wanted are all arbitrary. One object is one account being fetched:
// the client's fields, the server's, and the log of what has been done.

module Pop3 {
  import opened Sequences
  import opened Options
  import opened Pop3Log

  datatype FinalDecision = Drop | Keep

  datatype Only = OnlyNew | OnlyOld | OnlyAll

  datatype State =
    | Connect | Connected | User | Stat | FirstStat | Cache1 | Cache2 | Cache3
    | Next | Delete | Reconnect | List | Retr | Line | Quitting

  /** What a state function returns to the fetch loop. */
  datatype Return = Again | Block | Error | GotMail | Exit

  /** A reply line, as far as the client looks at it. */
  datatype Reply = Okay | OkayNumbers(first: nat, second: nat) | Failed | UidLine(n: nat, uid: Uid) | Text(line: string) | Dot

  datatype Command = Login | StatCmd | UidlCmd | ListCmd(n: nat) | RetrCmd(n: nat) | DeleCmd(n: nat) | QuitCmd

  // ---------------------------------------------------------------- the server

  function UidLines(box: seq<Uid>, from: nat): (lines: seq<Reply>)
    requires from <= |box|
    ensures |lines| == |box| - from
    ensures forall i :: 0 <= i < |lines| ==> lines[i] == UidLine(from + i + 1, box[from + i])
    decreases |box| - from
  {
    if from == |box| then [] else [UidLine(from + 1, box[from])] + UidLines(box, from + 1)
  }

  function Texts(lines: seq<string>): (out: seq<Reply>)
    ensures |out| == |lines| && forall i :: 0 <= i < |out| ==> out[i] == Text(lines[i])
  {
    if lines == [] then [] else [Text(lines[0])] + Texts(lines[1..])
  }

  predicate Present(box: seq<Uid>, marked: set<nat>, n: nat) {
    1 <= n <= |box| && n !in marked
  }

  /** The reply to a command: numbers stand still within a session, and an absent or marked one is an error. */
  function ReplyTo(box: seq<Uid>, marked: set<nat>, content: Uid -> seq<string>, cmd: Command, refuse: bool): seq<Reply> {
    if refuse then [Failed]
    else
      match cmd
      case Login => [Okay]
      case StatCmd => [OkayNumbers(|box|, 0)]
      case UidlCmd => [Okay] + UidLines(box, 0) + [Dot]
      case ListCmd(n) => if Present(box, marked, n) then [OkayNumbers(n, |content(box[n - 1])|)] else [Failed]
      case RetrCmd(n) => if Present(box, marked, n) then [Okay] + Texts(content(box[n - 1])) + [Dot] else [Failed]
      case DeleCmd(n) => if Present(box, marked, n) then [Okay] else [Failed]
      case QuitCmd => [Okay]
  }

  // ---------------------------------------------------------------- queues of mails

  function Uids(q: seq<Aux>): set<Uid> {
    set a | a in q :: a.uid
  }

  ghost predicate DistinctUids(q: seq<Aux>) {
    forall i, j :: 0 <= i < j < |q| ==> q[i].uid != q[j].uid
  }

  ghost predicate Ascending(q: seq<Aux>) {
    forall i, j :: 0 <= i < j < |q| ==> q[i].idx < q[j].idx
  }

  ghost predicate AllBound(q: seq<Aux>, box: seq<Uid>) {
    forall a :: a in q ==> Binds(box, a)
  }

  lemma UidsAppend(q: seq<Aux>, a: Aux)
    ensures Uids(q + [a]) == Uids(q) + {a.uid}
  {
    var more := q + [a];
    assert more[|q|] == a;
    assert forall b :: b in more <==> b in q || b == a;
  }

  lemma UidsRemove(q: seq<Aux>, k: nat)
    requires k < |q| && DistinctUids(q)
    ensures Uids(q[..k] + q[k + 1..]) == Uids(q) - {q[k].uid}
    ensures DistinctUids(q[..k] + q[k + 1..])
    ensures forall a :: a in q[..k] + q[k + 1..] ==> a in q
  {
    var less := q[..k] + q[k + 1..];
    forall a | a in q && a.uid != q[k].uid ensures a in less {
      var i :| 0 <= i < |q| && q[i] == a;
      assert if i < k then less[i] == a else less[i - 1] == a;
    }
    forall i | 0 <= i < |less| ensures less[i] in q && less[i].uid != q[k].uid {
      assert less[i] == if i < k then q[i] else q[i + 1];
    }
  }

  /** A uid that fdm accepts: one to seventy characters from 0x21 to 0x7e. */
  predicate ValidUid(uid: Uid) {
    0 < |uid| <= 70 && forall i :: 0 <= i < |uid| ==> 0x21 as char <= uid[i] <= 0x7e as char
  }

  /** A listing fdm accepts: valid uids, none twice. */
  predicate AllValid(box: seq<Uid>) {
    && (forall i :: 0 <= i < |box| ==> ValidUid(box[i]))
    && (forall i, j :: 0 <= i < j < |box| ==> box[i] != box[j])
  }

  /** The queue of mails left after a reconnect: those still on the server, with their new numbers. */
  function Renumber(q: seq<Aux>, serverq: map<Uid, nat>): (r: seq<Aux>)
    ensures |r| <= |q|
  {
    if q == [] then []
    else if q[0].uid in serverq then [Aux(q[0].uid, serverq[q[0].uid])] + Renumber(q[1..], serverq)
    else Renumber(q[1..], serverq)
  }

  /** The number of a uid among the first n of a mailbox. */
  function Numbers(box: seq<Uid>, n: nat): map<Uid, nat>
    requires n <= |box|
  {
    if n == 0 then map[] else Numbers(box, n - 1)[box[n - 1] := n]
  }

  predicate Selected(only: Only, cacheq: set<Uid>, uid: Uid) {
    match only
    case OnlyAll => true
    case OnlyNew => uid !in cacheq
    case OnlyOld => uid in cacheq
  }

  lemma {:induction false} NumbersMeans(box: seq<Uid>, n: nat, uid: Uid)
    requires n <= |box|
    ensures uid in Numbers(box, n) <==> uid in box[..n]
    ensures uid in Numbers(box, n) ==> 1 <= Numbers(box, n)[uid] <= n && box[Numbers(box, n)[uid] - 1] == uid
  {
    if n > 0 {
      NumbersMeans(box, n - 1, uid);
      assert box[..n] == box[..n - 1] + [box[n - 1]];
    }
  }

  lemma {:induction false} RenumberMeans(q: seq<Aux>, serverq: map<Uid, nat>)
    ensures forall a :: a in Renumber(q, serverq) ==> a.uid in serverq && a.idx == serverq[a.uid]
    ensures Uids(Renumber(q, serverq)) == Uids(q) * serverq.Keys
    ensures DistinctUids(q) ==> DistinctUids(Renumber(q, serverq))
  {
    if q != [] {
      RenumberMeans(q[1..], serverq);
      var head, r := q[0].uid, Renumber(q[1..], serverq);
      UidsFirst(q[0], q[1..]);
      assert q == [q[0]] + q[1..];
      if head in serverq {
        UidsFirst(Aux(head, serverq[head]), r);
      }
    }
  }

  /** Mails that are left stay in their old order. */
  lemma {:induction false} RenumberInOrder(q: seq<Aux>, serverq: map<Uid, nat>, i: nat, j: nat)
    requires i < j < |Renumber(q, serverq)|
    ensures exists k, l :: 0 <= k < l < |q| && q[k].uid == Renumber(q, serverq)[i].uid && q[l].uid == Renumber(q, serverq)[j].uid
    decreases |q|
  {
    var r, rest := Renumber(q, serverq), Renumber(q[1..], serverq);
    if q[0].uid !in serverq {
      RenumberInOrder(q[1..], serverq, i, j);
      Shifted(q, rest[i].uid, rest[j].uid);
    } else if i > 0 {
      RenumberInOrder(q[1..], serverq, i - 1, j - 1);
      Shifted(q, rest[i - 1].uid, rest[j - 1].uid);
    } else {
      assert rest[j - 1].uid in Uids(rest);
      RenumberMeans(q[1..], serverq);
      BehindHead(q, rest[j - 1].uid);
    }
  }

  lemma Shifted(q: seq<Aux>, u: Uid, v: Uid)
    requires q != [] && exists k, l :: 0 <= k < l < |q[1..]| && q[1..][k].uid == u && q[1..][l].uid == v
    ensures exists k, l :: 0 <= k < l < |q| && q[k].uid == u && q[l].uid == v
  {
    var k, l :| 0 <= k < l < |q[1..]| && q[1..][k].uid == u && q[1..][l].uid == v;
    assert q[k + 1].uid == u && q[l + 1].uid == v;
  }

  lemma BehindHead(q: seq<Aux>, v: Uid)
    requires q != [] && v in Uids(q[1..])
    ensures exists k, l :: 0 <= k < l < |q| && q[k].uid == q[0].uid && q[l].uid == v
  {
    var l :| 0 <= l < |q[1..]| && q[1..][l].uid == v;
    assert q[0].uid == q[0].uid && q[l + 1].uid == v;
  }

  lemma UidsFirst(a: Aux, q: seq<Aux>)
    ensures Uids([a] + q) == {a.uid} + Uids(q)
    ensures DistinctUids([a] + q) <==> DistinctUids(q) && a.uid !in Uids(q)
  {
    var all := [a] + q;
    forall i | 0 <= i < |q| ensures q[i].uid == all[i + 1].uid {
    }
    assert forall u :: u in Uids(all) <==> u == a.uid || u in Uids(q);
    if DistinctUids(all) {
      forall i, j | 0 <= i < j < |q| ensures q[i].uid != q[j].uid {
        assert all[i + 1].uid != all[j + 1].uid;
      }
      forall i | 0 <= i < |q| ensures q[i].uid != a.uid {
        assert all[0].uid != all[i + 1].uid;
      }
    }
    if DistinctUids(q) && a.uid !in Uids(q) {
      forall i, j | 0 <= i < j < |all| ensures all[i].uid != all[j].uid {
        assert all[j] == q[j - 1];
        if i > 0 {
          assert all[i] == q[i - 1];
        }
      }
    }
  }

  // ---------------------------------------------------------------- one account being fetched

  /**
   * The state of a run: the client's fields, the mails it has handed over, the cache file, the server, and the
   * log. The last five fields are only for stating invariants.
   */
  datatype Account = Account(
    only: Only, path: bool, content: Uid -> seq<string>, past: seq<Event>,
    state: State, num: nat, cur: nat, total: nat, committed: nat,
    serverq: map<Uid, nat>, cacheq: set<Uid>, wantq: seq<Aux>, dropq: seq<Aux>,
    mail: Option<Aux>, handed: Option<Aux>, inflight: seq<Aux>, file: set<Uid>,
    boxes: seq<seq<Uid>>, marked: set<nat>, wire: seq<Reply>, log: seq<Event>,
    read: nat, loads: nat, awaiting: bool, base: set<Uid>, resolved: set<Uid>)
  {
    predicate InSession() {
      state in {Next, Delete, List, Retr, Line}
    }

    function Box(): seq<Uid> {
      if boxes == [] then [] else boxes[|boxes| - 1]
    }

    /** Mails read and not decided: those in flight, and one the fetch loop is just about to queue. */
    function Flying(): seq<Aux> {
      if handed.Some? then inflight + [handed.value] else inflight
    }

    function Sent(cmd: Command, refuse: bool): seq<Reply> {
      ReplyTo(Box(), marked, content, cmd, refuse)
    }

    /** Every mail of the want list is somewhere; nothing is in flight or waiting to be deleted across a reconnect. */
    ghost predicate Counted() {
      && total == |wantq| + |Flying()| + |dropq| + committed
      && loads <= 1 && (loads == 0 ==> total == 0)
      && (!InSession() ==> inflight == [] && dropq == [] && mail == None && handed == None)
      && (!InSession() && state != Quitting && loads == 1 ==> wantq != [])
    }

    /** Numbers are those of the session; only wants may be stale, and only if the mailbox has become empty. */
    ghost predicate Bound() {
      InSession() ==>
        && boxes != [] && AllBound(Flying(), Box()) && AllBound(dropq, Box())
        && (Box() != [] ==> AllBound(wantq, Box()))
    }

    ghost predicate Unique() {
      && DistinctUids(wantq) && DistinctUids(Flying()) && DistinctUids(dropq)
      && Uids(wantq) !! Uids(Flying()) && Uids(wantq) !! Uids(dropq) && Uids(Flying()) !! Uids(dropq)
      && Uids(wantq) !! resolved && Uids(Flying()) !! resolved && Uids(dropq) !! resolved
    }

    ghost predicate Listed() {
      mail.Some? && wantq != [] && mail.value == wantq[0] && Binds(Box(), mail.value)
    }

    /** The next line refuses what was asked. */
    predicate Refused() {
      wire != [] && wire[0] == Failed
    }

    predicate Numbered() {
      wire != [] && wire[0].OkayNumbers?
    }

    predicate OneReply() {
      wire == [Okay] || wire == [Failed]
    }

    /** What the unread replies are, in each state. */
    ghost predicate WireFits() {
      Flags() && WireIn()
    }

    ghost predicate Flags() {
      (awaiting <==> state == Delete) && (handed.Some? ==> state == Next) && (state != Connect ==> boxes != [])
    }

    ghost predicate WireIn() {
      match state
      case Connect => wire == []
      case FirstStat => wire == [OkayNumbers(|Box()|, 0)] || wire == [Failed]
      case Cache1 => WireCache1()
      case Cache2 => WireCache2()
      case Cache3 => wire == [Dot]
      case Next => wire == [] && mail == None
      case Delete => dropq != [] && OneReply() && mail == None
      case List => WireList()
      case Retr => WireRetr()
      case Line => WireLine()
      case _ => OneReply()
    }

    ghost predicate WireCache1() {
      num == |Box()| && cur == 0 && (wire == [Okay] + UidLines(Box(), 0) + [Dot] || wire == [Failed])
    }

    ghost predicate WireCache2() {
      num == |Box()| && cur <= num && wire == UidLines(Box(), cur) + [Dot]
    }

    ghost predicate WireList() {
      mail.Some? && wantq != [] && mail.value == wantq[0] && |wire| == 1
      && (wire[0] != Failed ==> Listed() && wire[0].OkayNumbers? && wire[0].first == mail.value.idx)
    }

    ghost predicate WireRetr() {
      Listed() && (wire == [Failed] || wire == [Okay] + Texts(content(mail.value.uid)) + [Dot])
    }

    ghost predicate WireLine() {
      Listed() && read <= |content(mail.value.uid)| && wire == Texts(content(mail.value.uid)[read..]) + [Dot]
    }

    /** The server tree holds what has been read of the UIDL listing. */
    ghost predicate ServerKnown() {
      && (state == Cache2 ==> cur <= |Box()| && serverq == Numbers(Box(), cur) && AllValid(Box()[..cur]))
      && (state == Cache3 ==> serverq == Numbers(Box(), |Box()|) && AllValid(Box()))
    }

    /** The cache tree is the loaded uids that were on the server at first, and the uids resolved since. */
    ghost predicate CacheExact() {
      && cacheq == base + resolved
      && (loads == 0 ==> cacheq == {})
      && (only == OnlyNew ==> Uids(wantq) !! cacheq)
    }

    ghost predicate LogSafe() {
      && DelesSafe(log, boxes) && QuitsSafe(log)
      && Open(log) == |Flying()|
      && Unacked(log) == (if awaiting then 1 else 0)
      && Undeleted(log) == |dropq| - (if awaiting then 1 else 0)
      && (forall a :: a in Flying() ==> Got(a.uid) in log)
      && (forall a :: a in dropq ==> Dropped(a.uid) in log)
    }

    /** For a new-only account with a cache file: what the file and the cache know of the whole history. */
    ghost predicate History() {
      only == OnlyNew && path ==>
        && FetchedOnce(past + log)
        && Steady(past + log) <= file <= EverResolved(past + log)
        && (loads == 1 ==> Steady(past + log) <= cacheq <= EverResolved(past + log))
    }

    ghost predicate Valid() {
      Counted() && Bound() && Unique() && WireFits() && ServerKnown() && CacheExact() && LogSafe() && History()
    }

    /** What a run leaves, however it ends: safe logs, and a cache file that fits the history. */
    ghost predicate Settled() {
      && DelesSafe(log, boxes) && QuitsSafe(log)
      && (only == OnlyNew && path ==> FetchedOnce(past + log) && Steady(past + log) <= file <= EverResolved(past + log))
    }
  }

  /** Where a reply is awaited, at least its first line is on the way. */
  lemma ReplyComing(a: Account)
    requires a.Valid() && a.state !in {Connect, Next}
    ensures a.wire != [] && a.boxes != []
  {
  }

  /** The same account in the same run. */
  ghost predicate SameRun(a: Account, b: Account) {
    a.only == b.only && a.path == b.path && a.past == b.past && a.content == b.content
  }

  lemma ValidIsSettled(a: Account)
    requires a.Valid()
    ensures a.Settled()
  {
  }

  /** What noting an event does to everything the invariant says about logs. */
  lemma Noting(a: Account, e: Event)
    requires DelesSafe(a.log, a.boxes) && QuitsSafe(a.log)
    requires e.Dele? ==> e.session < |a.boxes| && Binds(a.boxes[e.session], Aux(e.uid, e.idx)) && Dropped(e.uid) in a.log
    requires e.Dropped? || e.Kept? ==> Got(e.uid) in a.log
    requires e.Quit? ==> Open(a.log) == 0 && Undeleted(a.log) == 0 && Unacked(a.log) == 0
    ensures var log, history := a.log + [e], a.past + a.log;
            && a.past + log == history + [e]
            && DelesSafe(log, a.boxes) && QuitsSafe(log)
            && Open(log) == Open(a.log) + (if e.Got? then 1 else if e.Dropped? || e.Kept? then -1 else 0)
            && Unacked(log) == Unacked(a.log) + (if e.Dele? then 1 else if e.Acked? then -1 else 0)
            && Undeleted(log) == Undeleted(a.log) + (if e.Dropped? then 1 else if e.Dele? then -1 else 0)
            && EverResolved(a.past + log) == EverResolved(history) + (if e.Resolved? then {e.uid} else {})
            && Steady(a.past + log) == (if e.Resolved? then Steady(history) + {e.uid}
                                        else if e.FirstListing? then Steady(history) * e.box else Steady(history))
            && (FetchedOnce(history) && MayFollow(history, e) ==> FetchedOnce(a.past + log))
  {
    hide DelesSafe, QuitsSafe, FetchedOnce, Open, Unacked, Undeleted, Steady, EverResolved;
    DelesGrow(a.log, e, a.boxes);
    QuitsGrow(a.log, e);
    CountsGrow(a.log, e);
    SetsGrow(a.past + a.log, e);
    if FetchedOnce(a.past + a.log) && MayFollow(a.past + a.log, e) {
      OnceGrows(a.past + a.log, e);
    }
    assert a.past + (a.log + [e]) == a.past + a.log + [e];
  }

  // ---------------------------------------------------------------- every step keeps the invariant

  /** The initial state of the client. */
  function Fresh(only: Only, path: bool, content: Uid -> seq<string>, past: seq<Event>, file: set<Uid>): Account {
    Account(only, path, content, past, Connect, 0, 0, 0, 0, map[], {}, [], [], None, None, [], file, [], {}, [], [],
            0, 0, false, {}, {})
  }

  lemma FreshValid(only: Only, path: bool, content: Uid -> seq<string>, past: seq<Event>, file: set<Uid>)
    requires only == OnlyNew && path ==> FetchedOnce(past) && Steady(past) <= file <= EverResolved(past)
    ensures Fresh(only, path, content, past, file).Valid()
  {
    assert past + [] == past;
  }

  lemma ConnectKeeps(a: Account, box: seq<Uid>, refuse: bool)
    requires a.Valid() && a.state == Connect
    ensures a.(boxes := a.boxes + [box], marked := {}, wire := if refuse then [Failed] else [Okay], state := Connected).Valid()
  {
    hide Account.WireCache1, Account.WireCache2, Account.WireList, Account.WireRetr, Account.WireLine;
    hide DelesSafe, QuitsSafe, Open, Unacked, Undeleted, FetchedOnce, Steady, EverResolved;
    DelesNewBox(a.log, a.boxes, box);
  }

  lemma InCache1(a: Account)
    requires a.WireIn() && a.state == Cache1
    ensures a.WireCache1()
  {
    hide Account.WireCache1;
  }

  lemma InCache2(a: Account)
    requires a.WireIn() && a.state == Cache2
    ensures a.WireCache2()
  {
    hide Account.WireCache2;
  }

  lemma InList(a: Account)
    requires a.WireIn() && a.state == List
    ensures a.WireList()
  {
    hide Account.WireList;
  }

  lemma InRetr(a: Account)
    requires a.WireIn() && a.state == Retr
    ensures a.WireRetr()
  {
    hide Account.WireRetr;
  }

  lemma InLine(a: Account)
    requires a.WireIn() && a.state == Line
    ensures a.WireLine()
  {
    hide Account.WireLine;
  }

  lemma NowIn(a: Account)
    requires (a.state == Cache2 && a.WireCache2()) || (a.state == Retr && a.WireRetr()) || (a.state == Line && a.WireLine())
    ensures a.WireIn()
  {
    hide Account.WireCache2, Account.WireRetr, Account.WireLine;
  }

  /** A step that only reads a line or sends a command keeps all that is not about lines. */
  lemma Carry(a: Account, b: Account)
    requires a.Valid()
    requires b == a.(state := b.state, wire := b.wire, read := b.read, mail := b.mail, num := b.num, cur := b.cur, serverq := b.serverq)
    requires a.InSession() == b.InSession()
    requires !b.InSession() ==> b.mail == None && (a.state == Quitting <==> b.state == Quitting)
    ensures b.Counted() && b.Bound() && b.Unique() && b.CacheExact() && b.LogSafe() && b.History()
  {
    hide DelesSafe, QuitsSafe, Open, Unacked, Undeleted, FetchedOnce, Steady, EverResolved;
    hide Account.WireFits, Account.ServerKnown, Uids, AllBound, Numbers, AllValid, DistinctUids;
  }

  lemma InLogin(a: Account)
    requires a.WireIn() && a.state in {Connected, User, Stat}
    ensures a.OneReply()
  {
    hide Account.WireCache1, Account.WireCache2, Account.WireList, Account.WireRetr, Account.WireLine;
  }

  lemma NowLogin(a: Account)
    requires if a.state == FirstStat then a.wire == [OkayNumbers(|a.Box()|, 0)] || a.wire == [Failed] else a.state in {User, Stat} && a.OneReply()
    ensures a.WireIn()
  {
    hide Account.WireCache1, Account.WireCache2, Account.WireList, Account.WireRetr, Account.WireLine;
  }

  lemma LoginReply(box: seq<Uid>, marked: set<nat>, content: Uid -> seq<string>, cmd: Command, refuse: bool)
    requires cmd == Login || cmd == StatCmd
    ensures var reply := ReplyTo(box, marked, content, cmd, refuse);
            reply == [Failed] || reply == if cmd == Login then [Okay] else [OkayNumbers(|box|, 0)]
  {
  }

  lemma LoginKeeps(a: Account, cmd: Command, refuse: bool, next: State)
    requires a.Valid() && a.state in {Connected, User, Stat} && a.wire != [Failed]
    requires (next in {User, Stat} && cmd == Login) || (next == FirstStat && cmd == StatCmd)
    ensures a.(wire := a.wire[1..] + a.Sent(cmd, refuse), state := next).Valid()
  {
    hide Account.Bound, Account.Unique, Account.CacheExact, Account.LogSafe, Account.History, Uids, DistinctUids, Account.WireIn, ReplyTo;
    InLogin(a);
    var b := a.(wire := a.wire[1..] + a.Sent(cmd, refuse), state := next);
    assert a.wire[1..] == [];
    LoginReply(a.Box(), a.marked, a.content, cmd, refuse);
    Carry(a, b);
    NowLogin(b);
  }

  /** An empty mailbox with mails owed: the client goes on without a listing, with numbers of the session before. */
  lemma EmptyMailboxKeeps(a: Account)
    requires a.Valid() && a.state == FirstStat && a.Box() == [] && a.total != 0
    ensures a.(num := 0, cur := 0, wire := [], state := Next).Valid()
  {
    hide Account.WireCache1, Account.WireCache2, Account.WireList, Account.WireRetr, Account.WireLine;
    hide DelesSafe, QuitsSafe, Open, Unacked, Undeleted, FetchedOnce, Steady, EverResolved;
  }

  /** Saying goodbye, for good or to reconnect. */
  function QuitSent(a: Account, refuse: bool, next: State): Account
    requires a.boxes != []
  {
    a.(log := a.log + [Quit(|a.boxes| - 1)], wire := a.Sent(QuitCmd, refuse), state := next)
  }

  /** It is done with nothing in flight, nothing to delete and nothing unacknowledged. */
  lemma QuitKeeps(a: Account, refuse: bool, next: State)
    requires a.Valid() && !a.awaiting && a.inflight == [] && a.dropq == [] && a.handed == None && a.mail == None
    requires next == Quitting || (next == Reconnect && a.wantq != [])
    requires a.boxes != []
    ensures QuitSent(a, refuse, next).Valid()
  {
    hide Account.WireCache1, Account.WireCache2, Account.WireList, Account.WireRetr, Account.WireLine;
    hide DelesSafe, QuitsSafe, Open, Unacked, Undeleted, FetchedOnce, Steady, EverResolved;
    var e := Quit(|a.boxes| - 1);
    Noting(a, e);
    assert forall x :: x in a.log ==> x in a.log + [e];
  }

  lemma ListingKeeps(a: Account, refuse: bool)
    requires a.Valid() && a.state == FirstStat && a.Box() != []
    ensures a.(num := |a.Box()|, cur := 0, wire := a.Sent(UidlCmd, refuse), state := Cache1).Valid()
  {
    hide Account.Bound, Account.Unique, Account.CacheExact, Account.LogSafe, Account.History, Uids, DistinctUids;
    Carry(a, a.(num := |a.Box()|, cur := 0, wire := a.Sent(UidlCmd, refuse), state := Cache1));
  }

  lemma StatReply(a: Account)
    requires a.Valid() && a.state == FirstStat && a.wire != [] && a.wire[0].OkayNumbers?
    ensures a.wire[0].first == |a.Box()| && a.wire[1..] == []
  {
  }

  /** The three ways on from the size of the mailbox. */
  lemma FirstKeeps(a: Account, b: Account, refuse: bool)
    requires a.Valid() && a.state == FirstStat && a.boxes != []
    requires var c := a.(num := |a.Box()|, cur := 0, wire := []);
             if a.Box() != [] then b == c.(wire := a.Sent(UidlCmd, refuse), state := Cache1)
             else if a.total != 0 then b == c.(state := Next)
             else b == QuitSent(c, refuse, Quitting)
    ensures b.Valid()
  {
    hide Account.WireCache1, Account.WireCache2, Account.WireList, Account.WireRetr, Account.WireLine;
    hide DelesSafe, QuitsSafe, Open, Unacked, Undeleted, FetchedOnce, Steady, EverResolved;
    if a.Box() != [] {
      ListingKeeps(a, refuse);
    } else if a.total != 0 {
      EmptyMailboxKeeps(a);
    } else {
      var c := a.(num := |a.Box()|, cur := 0);
      QuitKeeps(c, refuse, Quitting);
      assert QuitSent(c, refuse, Quitting) == b;
    }
  }

  lemma ListingStartsKeeps(a: Account)
    requires a.Valid() && a.state == Cache1 && a.wire != [Failed]
    ensures a.(wire := a.wire[1..], serverq := map[], state := Cache2).Valid()
  {
    hide Account.Bound, Account.Unique, Account.CacheExact, Account.LogSafe, Account.History, Uids, DistinctUids;
    hide Account.WireIn;
    assert a.WireCache1() by { InCache1(a); }
    BehindFirst(Okay, UidLines(a.Box(), 0));
    var b := a.(wire := a.wire[1..], serverq := map[], state := Cache2);
    assert b.WireCache2();
    Carry(a, b);
    assert b.WireIn() by { NowIn(b); }
  }

  lemma ListingLine(box: seq<Uid>, cur: nat, wire: seq<Reply>)
    requires cur < |box| && wire == UidLines(box, cur) + [Dot] && AllValid(box[..cur])
    requires wire[0].UidLine? && ValidUid(wire[0].uid) && wire[0].uid !in Numbers(box, cur)
    ensures wire[0].n == cur + 1 && wire[1..] == UidLines(box, cur + 1) + [Dot] && AllValid(box[..cur + 1])
    ensures Numbers(box, cur)[wire[0].uid := wire[0].n] == Numbers(box, cur + 1)
  {
    NumbersMeans(box, cur, wire[0].uid);
    assert box[..cur + 1] == box[..cur] + [wire[0].uid];
  }

  /** One line of the listing, if the client accepts it. */
  lemma ListingLineKeeps(a: Account)
    requires a.Valid() && a.state == Cache2 && a.cur != a.num
    requires a.wire[0].UidLine? && ValidUid(a.wire[0].uid) && a.wire[0].uid !in a.serverq
    ensures a.wire[0].n == a.cur + 1
    ensures a.(wire := a.wire[1..], serverq := a.serverq[a.wire[0].uid := a.wire[0].n], cur := a.cur + 1).Valid()
  {
    hide Account.Bound, Account.Unique, Account.CacheExact, Account.LogSafe, Account.History, Uids, DistinctUids;
    hide Account.WireIn, Numbers, AllValid, UidLines, ValidUid;
    assert a.WireCache2() by { InCache2(a); }
    var b := a.(wire := a.wire[1..], serverq := a.serverq[a.wire[0].uid := a.wire[0].n], cur := a.cur + 1);
    ListingLine(a.Box(), a.cur, a.wire);
    assert b.WireCache2();
    Carry(a, b);
    assert b.WireIn() by { NowIn(b); }
  }

  /** What is known between two lines of the listing. */
  lemma ListingFacts(a: Account)
    requires a.Valid() && a.state == Cache2
    ensures a.num == |a.Box()| && a.cur <= a.num && AllValid(a.Box()[..a.cur])
    ensures a.cur < a.num ==> a.wire != [] && a.wire[0] == UidLine(a.cur + 1, a.Box()[a.cur])
    ensures a.cur < a.num && (!ValidUid(a.Box()[a.cur]) || a.Box()[a.cur] in a.serverq) ==> !AllValid(a.Box())
  {
    hide Account.LogSafe, Account.History, Account.Unique, Account.CacheExact;
    if a.cur < a.num && a.Box()[a.cur] in a.serverq {
      NumbersMeans(a.Box(), a.cur, a.Box()[a.cur]);
    }
  }

  lemma ListingEndsKeeps(a: Account)
    requires a.Valid() && a.state == Cache2 && a.cur == a.num
    ensures a.(state := Cache3).Valid()
    ensures a.serverq == Numbers(a.Box(), |a.Box()|) && AllValid(a.Box())
  {
    hide Account.Bound, Account.Unique, Account.CacheExact, Account.LogSafe, Account.History, Uids, DistinctUids;
    Carry(a, a.(state := Cache3));
    assert a.Box()[..a.cur] == a.Box();
    assert UidLines(a.Box(), a.cur) + [Dot] == [Dot];
  }

  // ---- building the want list

  /** The listed mails the account asks for, in ascending order of their numbers. */
  ghost predicate WantList(only: Only, cacheq: set<Uid>, serverq: map<Uid, nat>, want: seq<Aux>) {
    && Ascending(want)
    && (forall a :: a in want ==> a.uid in serverq && a.idx == serverq[a.uid] && Selected(only, cacheq, a.uid))
    && (forall uid :: uid in serverq && Selected(only, cacheq, uid) ==> Aux(uid, serverq[uid]) in want)
  }

  /** Reading the cache file and building the want list, on the first connection. */
  function Wanting(a: Account, want: seq<Aux>): Account {
    var loaded := (if a.path then a.file else {}) * a.serverq.Keys;
    a.(cacheq := loaded, base := loaded, resolved := {}, loads := 1, wantq := want, total := |want|, wire := [], state := Next,
       log := a.log + [FirstListing(a.serverq.Keys)] + [Wanted(a.serverq.Keys, Uids(want))])
  }

  lemma WantListFacts(a: Account, cacheq: set<Uid>, want: seq<Aux>)
    requires a.serverq == Numbers(a.Box(), |a.Box()|) && WantList(a.only, cacheq, a.serverq, want)
    ensures AllBound(want, a.Box()) && DistinctUids(want)
    ensures Uids(want) == set uid | uid in a.serverq.Keys && Selected(a.only, cacheq, uid)
  {
    var box := a.Box();
    forall w | w in want ensures Binds(box, w) {
      NumbersMeans(box, |box|, w.uid);
    }
    forall i, j | 0 <= i < j < |want| ensures want[i].uid != want[j].uid {
      assert want[i] in want && want[j] in want;
    }
    forall uid | uid in a.serverq.Keys && Selected(a.only, cacheq, uid) ensures uid in Uids(want) {
      assert Aux(uid, a.serverq[uid]) in want;
    }
  }

  lemma WantingKeeps(a: Account, want: seq<Aux>)
    requires a.Valid() && a.state == Cache3 && a.total == 0
    requires WantList(a.only, (if a.path then a.file else {}) * a.serverq.Keys, a.serverq, want)
    ensures Wanting(a, want).Valid() && a.loads == 0
  {
    hide Account.WireCache1, Account.WireCache2, Account.WireList, Account.WireRetr, Account.WireLine;
    hide DelesSafe, QuitsSafe, Open, Unacked, Undeleted, FetchedOnce, Steady, EverResolved, WantList, AllValid, Numbers;
    var loaded := (if a.path then a.file else {}) * a.serverq.Keys;
    WantListFacts(a, loaded, want);
    var e, f := FirstListing(a.serverq.Keys), Wanted(a.serverq.Keys, Uids(want));
    Noting(a, e);
    var b := a.(log := a.log + [e]);
    Noting(b, f);
    assert forall x :: x in a.log ==> x in b.log + [f];
  }

  /** Going on with the want list after a reconnect. */
  function Rewanting(a: Account): Account
    requires a.total >= |a.wantq|
  {
    var want := Renumber(a.wantq, a.serverq);
    a.(wantq := want, total := a.total - (|a.wantq| - |want|), wire := [], state := Next)
  }

  lemma RewantingKeeps(a: Account)
    requires a.Valid() && a.state == Cache3 && a.total != 0
    ensures a.total >= |a.wantq| && Rewanting(a).Valid()
  {
    hide Account.WireCache1, Account.WireCache2, Account.WireList, Account.WireRetr, Account.WireLine;
    hide DelesSafe, QuitsSafe, Open, Unacked, Undeleted, FetchedOnce, Steady, EverResolved, AllValid, Numbers;
    RenumberMeans(a.wantq, a.serverq);
    var want := Renumber(a.wantq, a.serverq);
    forall w | w in want ensures Binds(a.Box(), w) {
      NumbersMeans(a.Box(), |a.Box()|, w.uid);
    }
  }

  lemma Cache3Facts(a: Account)
    requires a.Valid() && a.state == Cache3
    ensures a.wire == [Dot] && a.wire[1..] == [] && a.boxes != [] && a.handed == None
    ensures forall u, v :: u in a.serverq && v in a.serverq && u != v ==> a.serverq[u] != a.serverq[v]
  {
    hide Account.LogSafe, Account.History, Account.Unique, Account.CacheExact, Numbers;
    forall u, v | u in a.serverq && v in a.serverq && u != v ensures a.serverq[u] != a.serverq[v] {
      NumbersMeans(a.Box(), |a.Box()|, u);
      NumbersMeans(a.Box(), |a.Box()|, v);
    }
  }

  lemma NextFacts(a: Account)
    requires a.Valid() && a.state == Next && a.handed == None
    ensures !a.awaiting && a.mail == None && a.wire == [] && a.boxes != []
    ensures a.total == |a.wantq| + |a.inflight| + |a.dropq| + a.committed
  {
  }

  lemma DeleteFacts(a: Account)
    requires a.Valid() && a.state == Delete
    ensures a.dropq != [] && (a.wire == [Okay] || a.wire == [Failed]) && a.handed == None
  {
  }

  /** In an empty mailbox the answer to LIST is an error. */
  lemma ListFacts(a: Account)
    requires a.Valid() && a.state == List
    ensures a.mail.Some? && (a.wire != [] && a.wire[0] != Failed ==> Binds(a.Box(), a.mail.value))
    ensures a.wire != [] && a.wire[0] != Failed ==> a.wire[0].OkayNumbers? && a.wire[0].first == a.mail.value.idx
  {
  }

  lemma LineFacts(a: Account)
    requires a.Valid() && a.state == Line
    ensures a.mail.Some? && a.wantq != [] && a.wire != []
  {
  }

  lemma ReconnectKeeps(a: Account)
    requires a.Valid() && a.state == Reconnect
    ensures a.(wire := [], state := Connect).Valid()
  {
    hide Account.WireCache1, Account.WireCache2, Account.WireList, Account.WireRetr, Account.WireLine;
    hide DelesSafe, QuitsSafe, Open, Unacked, Undeleted, FetchedOnce, Steady, EverResolved;
  }

  // ---- fetching and deleting

  function DeleSent(a: Account, refuse: bool): Account
    requires a.dropq != [] && a.boxes != []
  {
    var n := a.dropq[0].idx;
    a.(log := a.log + [Dele(|a.boxes| - 1, n, a.dropq[0].uid)], wire := a.Sent(DeleCmd(n), refuse),
       marked := if !refuse && Present(a.Box(), a.marked, n) then a.marked + {n} else a.marked,
       state := Delete, awaiting := true)
  }

  lemma DeleSentKeeps(a: Account, refuse: bool)
    requires a.Valid() && a.state == Next && a.handed == None && a.dropq != []
    ensures DeleSent(a, refuse).Valid()
  {
    hide Account.WireCache1, Account.WireCache2, Account.WireList, Account.WireRetr, Account.WireLine;
    hide DelesSafe, QuitsSafe, Open, Unacked, Undeleted, FetchedOnce, Steady, EverResolved, DistinctUids;
    var b := DeleSent(a, refuse);
    assert a.dropq[0] in a.dropq;
    Noting(a, Dele(|a.boxes| - 1, a.dropq[0].idx, a.dropq[0].uid));
    assert b.Counted() && b.Bound() && b.Unique() && b.WireFits() && b.ServerKnown() && b.CacheExact();
    assert b.LogSafe();
    assert b.History();
  }

  /** A mail is resolved: it goes to the cache tree, and the cache file is written if there is one to write. */
  function Resolve(a: Account, uid: Uid): Account {
    var b := a.(cacheq := a.cacheq + {uid}, resolved := a.resolved + {uid});
    if a.path && a.only != OnlyOld then b.(file := b.cacheq, log := b.log + [Resolved(uid)]) else b
  }

  lemma ResolveKeeps(a: Account, uid: Uid)
    requires a.Valid() && a.loads == 1
    requires uid !in Uids(a.wantq) && uid !in Uids(a.Flying()) && uid !in Uids(a.dropq)
    ensures Resolve(a, uid).Valid()
  {
    if a.path && a.only != OnlyOld {
      ResolveSavedKeeps(a, uid);
    } else {
      ResolveUnsavedKeeps(a, uid);
    }
  }

  lemma ResolveUnsavedKeeps(a: Account, uid: Uid)
    requires a.Valid() && a.loads == 1 && !(a.path && a.only == OnlyNew)
    requires uid !in Uids(a.wantq) && uid !in Uids(a.Flying()) && uid !in Uids(a.dropq)
    ensures a.(cacheq := a.cacheq + {uid}, resolved := a.resolved + {uid}).Valid()
  {
    hide DelesSafe, QuitsSafe, Open, Unacked, Undeleted, FetchedOnce, Steady, EverResolved, DistinctUids, AllBound, Uids;
    var b := a.(cacheq := a.cacheq + {uid}, resolved := a.resolved + {uid});
    assert b.Counted() && b.Bound() && b.WireFits() && b.ServerKnown() && b.LogSafe();
  }

  lemma ResolveSavedKeeps(a: Account, uid: Uid)
    requires a.Valid() && a.loads == 1
    requires uid !in Uids(a.wantq) && uid !in Uids(a.Flying()) && uid !in Uids(a.dropq)
    ensures a.(cacheq := a.cacheq + {uid}, resolved := a.resolved + {uid}, file := a.cacheq + {uid},
               log := a.log + [Resolved(uid)]).Valid()
  {
    hide DelesSafe, QuitsSafe, Open, Unacked, Undeleted, FetchedOnce, Steady, EverResolved, DistinctUids, AllBound, Uids;
    var b := a.(cacheq := a.cacheq + {uid}, resolved := a.resolved + {uid}, file := a.cacheq + {uid},
                log := a.log + [Resolved(uid)]);
    assert b.Counted() && b.Bound() && b.WireFits() && b.ServerKnown() && b.Unique() && b.CacheExact();
    SavedHistory(a, uid);
    Noting(a, Resolved(uid));
    assert b.LogSafe();
  }

  lemma SavedHistory(a: Account, uid: Uid)
    requires a.History() && a.LogSafe() && a.loads == 1
    ensures a.(cacheq := a.cacheq + {uid}, file := a.cacheq + {uid}, log := a.log + [Resolved(uid)]).History()
  {
    hide DelesSafe, QuitsSafe, Open, Unacked, Undeleted, FetchedOnce, Steady, EverResolved, AllBound, Uids;
    Noting(a, Resolved(uid));
  }

  /** The acknowledged DELE is for the head of the drop queue. */
  function Acknowledged(a: Account): Account
    requires a.dropq != [] && a.wire != []
  {
    a.(dropq := a.dropq[1..], committed := a.committed + 1, awaiting := false, log := a.log + [Acked(a.dropq[0].uid)],
       wire := a.wire[1..], state := Next)
  }

  lemma AcknowledgedKeeps(a: Account)
    requires a.Valid() && a.state == Delete && a.wire != [Failed]
    ensures Acknowledged(a).Valid() && a.loads == 1
    ensures var b, uid := Acknowledged(a), a.dropq[0].uid;
            uid !in Uids(b.wantq) && uid !in Uids(b.Flying()) && uid !in Uids(b.dropq)
  {
    hide DelesSafe, QuitsSafe, Open, Unacked, Undeleted, FetchedOnce, Steady, EverResolved, DistinctUids, AllBound, Uids;
    hide Account.LogSafe, Account.History;
    var b := Acknowledged(a);
    UidsRemove(a.dropq, 0);
    assert a.dropq[..0] + a.dropq[1..] == a.dropq[1..];
    assert a.dropq[0].uid in Uids(a.dropq) by { UidIn(a.dropq, 0); }
    assert AllBound(a.dropq, a.Box()) ==> AllBound(b.dropq, b.Box()) by { RestBound(a.dropq, a.Box()); }
    AcknowledgedLogged(a);
  }

  lemma UidIn(q: seq<Aux>, k: nat)
    requires k < |q|
    ensures q[k].uid in Uids(q)
  {
    assert q[k] in q;
  }

  lemma RestBound(q: seq<Aux>, box: seq<Uid>)
    requires q != []
    ensures AllBound(q, box) ==> AllBound(q[1..], box)
  {
  }

  lemma AcknowledgedLogged(a: Account)
    requires a.Valid() && a.state == Delete && a.wire != [Failed]
    ensures a.dropq != [] && a.wire != [] && Acknowledged(a).LogSafe() && Acknowledged(a).History()
  {
    hide DelesSafe, QuitsSafe, Open, Unacked, Undeleted, FetchedOnce, Steady, EverResolved, DistinctUids, Uids, AllBound;
    hide Account.Unique, Account.Bound, Account.CacheExact;
    var b := Acknowledged(a);
    Noting(a, Acked(a.dropq[0].uid));
    assert b.LogSafe();
    assert b.History();
  }

  function Listing(a: Account, refuse: bool): Account
    requires a.wantq != []
  {
    a.(mail := Some(a.wantq[0]), wire := a.Sent(ListCmd(a.wantq[0].idx), refuse), state := List)
  }

  /** A stale number is absent from the empty mailbox, so the server's reply can only be an error. */
  lemma ListingMailKeeps(a: Account, refuse: bool)
    requires a.Valid() && a.state == Next && a.handed == None && a.dropq == [] && a.wantq != []
    ensures Listing(a, refuse).Valid()
  {
    hide Account.Unique, Account.CacheExact, Account.LogSafe, Account.History, Uids, DistinctUids;
    Carry(a, Listing(a, refuse));
    assert a.wantq[0] in a.wantq;
  }

  lemma RetrievingKeeps(a: Account, refuse: bool)
    requires a.Valid() && a.state == List && a.wire[0] != Failed
    ensures a.(wire := a.wire[1..] + a.Sent(RetrCmd(a.mail.value.idx), refuse), state := Retr).Valid()
  {
    hide Account.Bound, Account.Unique, Account.CacheExact, Account.LogSafe, Account.History, Account.Counted, Uids, DistinctUids;
    hide Account.WireIn, ReplyTo, Binds;
    assert a.WireList() by { InList(a); }
    var b := a.(wire := a.wire[1..] + a.Sent(RetrCmd(a.mail.value.idx), refuse), state := Retr);
    RetrReply(a.Box(), a.marked, a.content, a.mail.value, refuse);
    assert a.wire[1..] + a.Sent(RetrCmd(a.mail.value.idx), refuse) == a.Sent(RetrCmd(a.mail.value.idx), refuse);
    assert b.WireRetr();
    Carry(a, b);
    assert b.WireIn() by { NowIn(b); }
  }

  lemma RetrReply(box: seq<Uid>, marked: set<nat>, content: Uid -> seq<string>, a: Aux, refuse: bool)
    requires Binds(box, a)
    ensures var reply := ReplyTo(box, marked, content, RetrCmd(a.idx), refuse);
            reply == [Failed] || reply == [Okay] + Texts(content(a.uid)) + [Dot]
  {
  }

  lemma BehindFirst(first: Reply, middle: seq<Reply>)
    ensures ([first] + middle + [Dot])[1..] == middle + [Dot]
    ensures [first] + middle + [Dot] != [Failed]
  {
    assert |[first] + middle + [Dot]| > 1;
  }

  lemma ReadingKeeps(a: Account)
    requires a.Valid() && a.state == Retr && a.wire != [Failed]
    ensures a.(wire := a.wire[1..], read := 0, state := Line).Valid()
  {
    hide Account.Bound, Account.Unique, Account.CacheExact, Account.LogSafe, Account.History, Account.Counted, Uids, DistinctUids;
    hide Account.WireIn, Texts;
    assert a.WireRetr() by { InRetr(a); }
    var b := a.(wire := a.wire[1..], read := 0, state := Line);
    var lines := a.content(a.mail.value.uid);
    assert lines[0..] == lines;
    BehindFirst(Okay, Texts(lines));
    assert b.WireLine();
    Carry(a, b);
    assert b.WireIn() by { NowIn(b); }
  }

  lemma TextLine(lines: seq<string>, read: nat, wire: seq<Reply>)
    requires read <= |lines| && wire == Texts(lines[read..]) + [Dot] && wire[0] != Dot
    ensures read < |lines| && wire[0].Text? && wire[1..] == Texts(lines[read + 1..]) + [Dot]
  {
    assert lines[read..] != [] ==> lines[read..][1..] == lines[read + 1..];
  }

  lemma TextLineKeeps(a: Account)
    requires a.Valid() && a.state == Line && a.wire[0] != Dot
    ensures a.wire[0].Text? && a.(wire := a.wire[1..], read := a.read + 1).Valid()
  {
    hide Account.Bound, Account.Unique, Account.CacheExact, Account.LogSafe, Account.History, Account.Counted, Uids, DistinctUids;
    hide Account.WireIn;
    assert a.WireLine() by { InLine(a); }
    var b := a.(wire := a.wire[1..], read := a.read + 1);
    var lines := a.content(a.mail.value.uid);
    TextLine(lines, a.read, a.wire);
    assert b.WireLine();
    Carry(a, b);
    assert b.WireIn() by { NowIn(b); }
  }

  /** The mail is complete: it leaves the want queue for the fetch loop. */
  function HandedOver(a: Account): Account
    requires a.mail.Some? && a.wantq != [] && a.wire != []
  {
    a.(wantq := a.wantq[1..], handed := a.mail, mail := None, wire := a.wire[1..], state := Next,
       log := a.log + [Got(a.mail.value.uid)])
  }

  lemma HandedOverKeeps(a: Account)
    requires a.Valid() && a.state == Line && a.wire[0] == Dot
    ensures HandedOver(a).Valid()
    ensures a.read == |a.content(a.mail.value.uid)|
  {
    hide DelesSafe, QuitsSafe, Open, Unacked, Undeleted, FetchedOnce, Steady, EverResolved, DistinctUids;
    var b, aux := HandedOver(a), a.mail.value;
    assert a.wantq[0] in a.wantq && aux.uid in Uids(a.wantq);
    assert a.handed == None && b.Flying() == a.Flying() + [aux];
    HandedOverQueues(a, b, aux);
    Noting(a, Got(aux.uid));
    assert b.WireFits() && b.ServerKnown();
    assert b.LogSafe();
    assert b.History();
  }

  lemma HandedOverQueues(a: Account, b: Account, aux: Aux)
    requires a.Counted() && a.Bound() && a.Unique() && a.CacheExact() && a.InSession() && a.wantq != [] && aux == a.wantq[0]
    requires b.state == Next && b.wantq == a.wantq[1..] && b.Flying() == a.Flying() + [aux] && b.dropq == a.dropq
    requires b.boxes == a.boxes && Binds(a.Box(), aux) && b.resolved == a.resolved && b.base == a.base && b.cacheq == a.cacheq
    requires b.only == a.only && b.loads == a.loads && b.total == a.total && b.committed == a.committed
    ensures b.Counted() && b.Bound() && b.Unique() && b.CacheExact()
  {
    hide DistinctUids;
    UidsRemove(a.wantq, 0);
    assert a.wantq[..0] + a.wantq[1..] == a.wantq[1..];
    assert a.wantq[0] in a.wantq;
    UidsAppend(a.Flying(), aux);
    DistinctUidsAppend(a.Flying(), aux);
  }

  lemma DistinctUidsAppend(q: seq<Aux>, a: Aux)
    requires DistinctUids(q) && a.uid !in Uids(q)
    ensures DistinctUids(q + [a])
  {
    assert forall i :: 0 <= i < |q| ==> q[i] in q;
  }

  // ---- the fetch loop

  lemma QueuedKeeps(a: Account)
    requires a.Valid() && a.handed.Some?
    ensures a.(inflight := a.inflight + [a.handed.value], handed := None).Valid()
  {
    hide DelesSafe, QuitsSafe, Open, Unacked, Undeleted, FetchedOnce, Steady, EverResolved, DistinctUids, AllBound;
  }

  /** A mail decided DROP joins the drop queue. */
  function ToDrop(a: Account, aux: Aux): Account {
    a.(dropq := a.dropq + [aux], log := a.log + [Dropped(aux.uid)])
  }

  lemma DropKeeps(a: Account, k: nat)
    requires a.Valid() && a.handed == None && k < |a.inflight|
    ensures ToDrop(a.(inflight := Without(a.inflight, k)), a.inflight[k]).Valid()
  {
    hide DelesSafe, QuitsSafe, Open, Unacked, Undeleted, FetchedOnce, Steady, EverResolved, DistinctUids;
    var aux := a.inflight[k];
    var b := ToDrop(a.(inflight := Without(a.inflight, k)), aux);
    assert aux in a.Flying();
    Noting(a, Dropped(aux.uid));
    UidsRemove(a.inflight, k);
    UidsAppend(a.dropq, aux);
    DistinctUidsAppend(a.dropq, aux);
    assert b.Counted() && b.Bound() && b.Unique() && b.WireFits() && b.ServerKnown() && b.CacheExact();
    assert b.LogSafe();
    assert b.History();
  }

  /** An oversize mail is dropped without being queued. */
  lemma DropHandedKeeps(a: Account)
    requires a.Valid() && a.handed.Some?
    ensures ToDrop(a.(handed := None), a.handed.value).Valid()
  {
    hide DelesSafe, QuitsSafe, Open, Unacked, Undeleted, FetchedOnce, Steady, EverResolved, DistinctUids;
    var q := a.(inflight := a.inflight + [a.handed.value], handed := None);
    QueuedKeeps(a);
    DropKeeps(q, |a.inflight|);
    assert Without(q.inflight, |a.inflight|) == a.inflight;
  }

  /** A mail decided KEEP. */
  function KeptOut(a: Account, k: nat): Account
    requires k < |a.inflight|
  {
    a.(inflight := Without(a.inflight, k), committed := a.committed + 1, log := a.log + [Kept(a.inflight[k].uid)])
  }

  lemma KeptKeeps(a: Account, k: nat)
    requires a.Valid() && a.handed == None && k < |a.inflight|
    ensures KeptOut(a, k).Valid() && a.loads == 1
    ensures var b, uid := KeptOut(a, k), a.inflight[k].uid;
            uid !in Uids(b.wantq) && uid !in Uids(b.Flying()) && uid !in Uids(b.dropq)
  {
    hide DelesSafe, QuitsSafe, Open, Unacked, Undeleted, FetchedOnce, Steady, EverResolved, DistinctUids;
    var aux, b := a.inflight[k], KeptOut(a, k);
    assert aux in a.Flying();
    Noting(a, Kept(aux.uid));
    UidsRemove(a.inflight, k);
    assert b.Counted() && b.Bound() && b.Unique() && b.WireFits() && b.ServerKnown() && b.CacheExact();
    assert b.LogSafe();
    assert b.History();
  }
}
