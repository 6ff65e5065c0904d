// What a whole POP3 run comes to, in terms of the mailboxes shown and the cache file it began with: which mails are
// wanted, in which order they are read, what is left in the cache file, and that nothing wanted is forgotten.

module Pop3Story {
  import opened Sequences
  import opened Options
  import opened Pop3Log
  import opened Pop3
  import opened Pop3Steps
  import opened Pop3Decisions

  // ---------------------------------------------------------------- what is to be said of a run

  function BoxSet(box: seq<Uid>): set<Uid> {
    set uid | uid in box
  }

  /** The first mailbox shown; none before the first connection. */
  function FirstBox(boxes: seq<seq<Uid>>): seq<Uid> {
    if boxes == [] then [] else boxes[0]
  }

  /** All mails, those not in the cache file, or those in it. */
  ghost predicate Asks(only: Only, path: bool, file: set<Uid>, uid: Uid) {
    && (only == OnlyNew ==> !path || uid !in file)
    && (only == OnlyOld ==> path && uid in file)
  }

  ghost function Selection(only: Only, path: bool, file: set<Uid>, box: seq<Uid>): set<Uid> {
    set uid | uid in box && Asks(only, path, file, uid)
  }

  /** In some later mailbox the mail is not there any more. */
  ghost predicate Vanished(boxes: seq<seq<Uid>>, uid: Uid) {
    exists j :: 0 <= j < |boxes| && uid !in boxes[j]
  }

  /** A mail that is still wanted, with the fetch loop, or to be deleted; or is done with. */
  ghost predicate Has(a: Account, uid: Uid) {
    || uid in Uids(a.wantq) || uid in Uids(a.Flying()) || uid in Uids(a.dropq)
    || DoneWith(a, uid)
  }

  ghost predicate DoneWith(a: Account, uid: Uid) {
    Kept(uid) in a.log || Acked(uid) in a.log || Vanished(a.boxes, uid)
  }

  /** The mails read, in order. */
  function Read(log: seq<Event>): seq<Uid> {
    if log == [] then []
    else Read(log[..|log| - 1]) + match log[|log| - 1] case Got(uid) => [uid] case _ => []
  }

  function UidSeq(q: seq<Aux>): seq<Uid> {
    if q == [] then [] else [q[0].uid] + UidSeq(q[1..])
  }

  ghost predicate Precedes(box: seq<Uid>, u: Uid, v: Uid) {
    exists p, q :: 0 <= p < q < |box| && box[p] == u && box[q] == v
  }

  /** Some mails are in the order of a mailbox. */
  ghost predicate Ordered(box: seq<Uid>, s: seq<Uid>) {
    forall i, j :: 0 <= i < j < |s| ==> Precedes(box, s[i], s[j])
  }

  // ---------------------------------------------------------------- what is kept through a run

  /** The mails wanted were those asked for of the first mailbox; from then on none of them is forgotten. */
  ghost predicate WantsTold(file: set<Uid>, poll: bool, a: Account) {
    && (forall e :: e in a.log && e.Wanted? ==> e.box == BoxSet(FirstBox(a.boxes)) && e.want == Selection(a.only, a.path, file, FirstBox(a.boxes)))
    && (a.loads == 0 ==> forall e :: e in a.log ==> !e.Wanted?) && (poll ==> Read(a.log) == [])
    && (a.loads == 1 && !poll ==> forall uid :: uid in Selection(a.only, a.path, file, FirstBox(a.boxes)) ==> Has(a, uid))
  }

  /** What has been read and what is wanted are in the order of the first mailbox. */
  ghost predicate ReadsTold(a: Account) {
    if a.loads == 0 then Read(a.log) == [] else Ordered(FirstBox(a.boxes), Read(a.log) + UidSeq(a.wantq))
  }

  predicate Saves(a: Account) {
    a.path && a.only != OnlyOld
  }

  /** The cache file is the one the run began with until a mail is resolved: then it has what of it was on the server, and all resolved. */
  ghost predicate FileTold(file: set<Uid>, a: Account) {
    && a.file == FileOf(file, FirstBox(a.boxes), a.log)
    && (if a.loads == 0 then EverResolved(a.log) == {}
        else a.base == (if a.path then file else {}) * BoxSet(FirstBox(a.boxes)) && EverResolved(a.log) == if Saves(a) then a.resolved else {})
  }

  ghost function FileOf(file: set<Uid>, box: seq<Uid>, log: seq<Event>): set<Uid> {
    if EverResolved(log) == {} then file else file * BoxSet(box) + EverResolved(log)
  }

  ghost predicate Deleted(log: seq<Event>, uid: Uid) {
    exists session, idx :: Dele(session, idx, uid) in log
  }

  /** Only what has been asked for is acknowledged. */
  ghost predicate AcksTold(a: Account) {
    && (forall uid :: Acked(uid) in a.log ==> Deleted(a.log, uid))
    && (a.state == Delete && a.dropq != [] ==> Deleted(a.log, a.dropq[0].uid))
  }

  /** The client leaves with nothing wanted, unless it only polls; before it has a want list it has seen at most one mailbox. */
  ghost predicate MovesTold(poll: bool, a: Account) {
    && (a.loads == 0 ==> |a.boxes| <= 1 && !a.InSession() && a.state != Reconnect && (a.state == Connect ==> a.boxes == []))
    && (a.loads == 0 && a.state == Quitting ==> FirstBox(a.boxes) == [])
    && (a.state == Quitting && !poll ==> a.wantq == [])
    && (a.loads != 0 ==> a.boxes != [])
    && (a.loads == 1 && poll ==> a.state == Quitting)
  }

  ghost predicate Content(file: set<Uid>, poll: bool, a: Account) {
    WantsTold(file, poll, a) && ReadsTold(a) && FileTold(file, a) && AcksTold(a)
  }

  ghost predicate Told(file: set<Uid>, poll: bool, a: Account) {
    Content(file, poll, a) && MovesTold(poll, a)
  }

  /** All that is kept or deleted is saved, if anything is. */
  ghost predicate AllSaved(a: Account) {
    Saves(a) ==> forall uid :: Resolved(uid) in a.log <==> Kept(uid) in a.log || Acked(uid) in a.log
  }

  // ---------------------------------------------------------------- logs

  lemma ReadMore(log: seq<Event>, e: Event)
    ensures Read(log + [e]) == Read(log) + if e.Got? then [e.uid] else []
  {
    assert (log + [e])[..|log|] == log;
  }

  /** Events that change nothing of what is told. */
  predicate Silent(e: Event) {
    e.Quit? || e.FirstListing?
  }

  /** What an event more does to all that is told of a log. */
  lemma LogMore(log: seq<Event>, e: Event)
    ensures var more := log + [e];
            && Read(more) == Read(log) + (if e.Got? then [e.uid] else [])
            && EverResolved(more) == EverResolved(log) + (if e.Resolved? then {e.uid} else {})
            && (forall x :: x in more <==> x in log || x == e)
            && (forall uid :: Deleted(log, uid) ==> Deleted(more, uid)) && (e.Dele? ==> Deleted(more, e.uid))
  {
    hide Read, EverResolved, Deleted, Steady;
    ReadMore(log, e);
    SetsGrow(log, e);
    DeletedMore(log, e);
  }

  lemma DeletedMore(log: seq<Event>, e: Event)
    ensures (forall uid :: Deleted(log, uid) ==> Deleted(log + [e], uid)) && (e.Dele? ==> Deleted(log + [e], e.uid))
  {
    var more := log + [e];
    forall uid | Deleted(log, uid) ensures Deleted(more, uid) {
      var session, idx :| Dele(session, idx, uid) in log;
      assert Dele(session, idx, uid) in more;
    }
    if e.Dele? {
      assert Dele(e.session, e.idx, e.uid) in more;
    }
  }

  // ---------------------------------------------------------------- order

  lemma {:induction false} UidSeqIs(q: seq<Aux>)
    ensures |UidSeq(q)| == |q| && forall i :: 0 <= i < |q| ==> UidSeq(q)[i] == q[i].uid
  {
    if q != [] {
      UidSeqIs(q[1..]);
    }
  }

  lemma OrderedWithout(box: seq<Uid>, g: seq<Uid>, x: Uid, rest: seq<Uid>)
    requires Ordered(box, g + [x] + rest)
    ensures Ordered(box, g + rest)
  {
    var s, t := g + [x] + rest, g + rest;
    forall i, j | 0 <= i < j < |t| ensures Precedes(box, t[i], t[j]) {
      var k, l := if i < |g| then i else i + 1, if j < |g| then j else j + 1;
      assert s[k] == t[i] && s[l] == t[j];
    }
  }

  /** Mails that have vanished leave the others in order. */
  lemma {:induction false} OrderKept(box: seq<Uid>, g: seq<Uid>, q: seq<Aux>, serverq: map<Uid, nat>)
    requires Ordered(box, g + UidSeq(q))
    ensures Ordered(box, g + UidSeq(Renumber(q, serverq)))
    decreases |q|
  {
    hide Ordered;
    if q != [] {
      var head, rest := q[0].uid, UidSeq(q[1..]);
      assert g + UidSeq(q) == g + [head] + rest;
      if head in serverq {
        OrderKept(box, g + [head], q[1..], serverq);
        var r := Renumber(q[1..], serverq);
        assert Renumber(q, serverq)[1..] == r;
        assert g + [head] + UidSeq(r) == g + UidSeq(Renumber(q, serverq));
      } else {
        OrderedWithout(box, g, head, rest);
        OrderKept(box, g, q[1..], serverq);
      }
    }
  }

  /** A want list is in the order of the mailbox it was made from. */
  lemma WantsOrdered(box: seq<Uid>, want: seq<Aux>)
    requires Ascending(want) && AllBound(want, box)
    ensures Ordered(box, UidSeq(want))
  {
    UidSeqIs(want);
    var s := UidSeq(want);
    forall i, j | 0 <= i < j < |s| ensures Precedes(box, s[i], s[j]) {
      assert want[i] in want && want[j] in want;
      assert box[want[i].idx - 1] == s[i] && box[want[j].idx - 1] == s[j];
    }
  }

  lemma OrderedStart(box: seq<Uid>, g: seq<Uid>, rest: seq<Uid>)
    requires Ordered(box, g + rest)
    ensures Ordered(box, g)
  {
    forall i, j | 0 <= i < j < |g| ensures Precedes(box, g[i], g[j]) {
      assert (g + rest)[i] == g[i] && (g + rest)[j] == g[j];
    }
  }

  // ---------------------------------------------------------------- the moves of a run

  /** Nothing that is told of has changed but where the client is. */
  ghost predicate SameStory(a: Account, b: Account) {
    && a.only == b.only && a.path == b.path && a.file == b.file && a.loads == b.loads && a.base == b.base && a.resolved == b.resolved
    && a.wantq == b.wantq && a.dropq == b.dropq && a.Flying() == b.Flying() && a.boxes == b.boxes
  }

  lemma StillTold(file: set<Uid>, poll: bool, a: Account, b: Account)
    requires Content(file, poll, a) && SameStory(a, b) && a.log == b.log && (b.state == Delete ==> a.state == Delete)
    ensures Content(file, poll, b)
    ensures AllSaved(a) ==> AllSaved(b)
  {
  }

  /** The same with an event more that tells nothing. */
  lemma SilentTold(file: set<Uid>, poll: bool, a: Account, b: Account, e: Event)
    requires Content(file, poll, a) && SameStory(a, b) && b.log == a.log + [e] && Silent(e) && b.state != Delete
    ensures Content(file, poll, b)
    ensures AllSaved(a) ==> AllSaved(b)
  {
    hide Read, EverResolved, Deleted;
    LogMore(a.log, e);
    assert Read(a.log) + [] == Read(a.log);
  }

  /** Another mailbox is shown. */
  lemma BoxTold(file: set<Uid>, poll: bool, a: Account, b: Account, box: seq<Uid>)
    requires Told(file, poll, a) && a.state == Connect && a.loads <= 1
    requires b == a.(boxes := a.boxes + [box], marked := b.marked, wire := b.wire, state := Connected)
    ensures Told(file, poll, b)
    ensures AllSaved(a) ==> AllSaved(b)
  {
    hide Read, EverResolved, Deleted;
    if a.loads == 1 {
      assert FirstBox(b.boxes) == FirstBox(a.boxes);
      forall uid | Has(a, uid) ensures Has(b, uid) {
        if Vanished(a.boxes, uid) {
          var j :| 0 <= j < |a.boxes| && uid !in a.boxes[j];
          assert uid !in b.boxes[j];
        }
      }
    }
  }

  lemma ListedNow(a: Account)
    requires a.Valid() && a.state == Cache3
    ensures a.serverq.Keys == BoxSet(a.Box())
  {
    ListingKnown(a);
    forall uid ensures uid in a.serverq <==> uid in a.Box() {
      NumbersMeans(a.Box(), |a.Box()|, uid);
      assert a.Box()[..|a.Box()|] == a.Box();
    }
  }

  /** The want list is made. */
  lemma WantingTold(file: set<Uid>, poll: bool, a: Account)
    requires a.Valid() && a.state == Cache3 && a.total == 0 && Told(file, poll, a)
    ensures var b := Wanting(a, Wants(a.only, (if a.path then a.file else {}) * a.serverq.Keys, a.Box(), |a.Box()|));
            Content(file, poll, b) && (AllSaved(a) ==> AllSaved(b)) && b.loads == 1 && b.boxes != []
  {
    hide Account.Valid, WantList, Numbers, AllValid, Wants, Uids, AllBound, Ascending, Ordered, Selection;
    var cacheq := (if a.path then a.file else {}) * a.serverq.Keys;
    var want := Wants(a.only, cacheq, a.Box(), |a.Box()|);
    ListingKnown(a);
    ListedNow(a);
    WantsAre(a.only, cacheq, a.Box(), |a.Box()|);
    WantingKeeps(a, want);
    Loaded(a);
    FirstOnly(file, poll, a);
    WantListFacts(a, cacheq, want);
    SelectedAsked(a.only, a.path, file, a.Box(), cacheq);
    WantsAscend(a.only, cacheq, a.serverq, want);
    WantsOrdered(a.Box(), want);
    WantingContent(file, poll, a, want);
  }

  /** Before there is a want list only one mailbox has been seen, and the cache file is as it was. */
  lemma FirstOnly(file: set<Uid>, poll: bool, a: Account)
    requires Told(file, poll, a) && a.loads == 0 && a.boxes != []
    ensures FirstBox(a.boxes) == a.Box() && a.file == file
  {
  }

  lemma WantingContent(file: set<Uid>, poll: bool, a: Account, want: seq<Aux>)
    requires Told(file, poll, a) && a.loads == 0 && a.boxes != [] && a.file == file && FirstBox(a.boxes) == a.Box()
    requires a.serverq.Keys == BoxSet(a.Box()) && Uids(want) == Selection(a.only, a.path, file, a.Box()) && Ordered(a.Box(), UidSeq(want))
    ensures var b := Wanting(a, want); Content(file, poll, b) && (AllSaved(a) ==> AllSaved(b)) && b.loads == 1 && b.boxes != []
  {
    hide Read, EverResolved, Deleted, Uids, Selection, Ordered, DoneWith;
    var e, f := FirstListing(a.serverq.Keys), Wanted(a.serverq.Keys, Uids(want));
    LogMore(a.log, e);
    LogMore(a.log + [e], f);
    var b := Wanting(a, want);
    assert Read(b.log) + UidSeq(want) == UidSeq(want);
    assert forall uid :: uid in Uids(want) ==> Has(b, uid);
  }

  lemma WantsAscend(only: Only, cacheq: set<Uid>, serverq: map<Uid, nat>, want: seq<Aux>)
    requires WantList(only, cacheq, serverq, want)
    ensures Ascending(want)
  {
  }

  lemma SelectedAsked(only: Only, path: bool, file: set<Uid>, box: seq<Uid>, cacheq: set<Uid>)
    requires cacheq == (if path then file else {}) * BoxSet(box)
    ensures (set uid | uid in BoxSet(box) && Selected(only, cacheq, uid)) == Selection(only, path, file, box)
  {
  }

  /** After a reconnect only mails that have vanished are wanted no more. */
  lemma RewantingTold(file: set<Uid>, poll: bool, a: Account)
    requires a.Valid() && a.state == Cache3 && a.total != 0 && a.total >= |a.wantq| && Told(file, poll, a)
    ensures Content(file, poll, Rewanting(a)) && (AllSaved(a) ==> AllSaved(Rewanting(a)))
  {
    hide Read, EverResolved, Deleted, Account.LogSafe, Account.History, Account.Unique, Account.WireIn, Renumber, Numbers, AllValid, Ordered;
    ListedNow(a);
    var b := Rewanting(a);
    RenumberMeans(a.wantq, a.serverq);
    forall uid | Has(a, uid) ensures Has(b, uid) {
      if uid in Uids(a.wantq) && uid !in a.serverq {
        assert uid !in a.boxes[|a.boxes| - 1];
      }
    }
    if a.loads == 1 {
      OrderKept(FirstBox(a.boxes), Read(a.log), a.wantq, a.serverq);
    }
  }

  /** A DELE is sent. */
  lemma DeleTold(file: set<Uid>, poll: bool, a: Account, refuse: bool)
    requires Content(file, poll, a) && a.dropq != [] && a.boxes != []
    ensures Content(file, poll, DeleSent(a, refuse)) && (AllSaved(a) ==> AllSaved(DeleSent(a, refuse)))
  {
    hide Read, EverResolved, Deleted, ReplyTo;
    LogMore(a.log, Dele(|a.boxes| - 1, a.dropq[0].idx, a.dropq[0].uid));
    assert Read(a.log) + [] == Read(a.log);
  }

  /** It is acknowledged. */
  lemma AckTold(file: set<Uid>, poll: bool, a: Account)
    requires a.Valid() && a.state == Delete && a.dropq != [] && a.wire != [] && Content(file, poll, a)
    ensures Content(file, poll, Acknowledged(a))
  {
    hide Account.Valid, Read, EverResolved, Deleted, Has;
    var b, head := Acknowledged(a), a.dropq[0];
    LogMore(a.log, Acked(head.uid));
    assert Read(a.log) + [] == Read(a.log);
    AckHas(a);
  }

  lemma AckHas(a: Account)
    requires a.dropq != [] && a.wire != []
    ensures forall uid :: Has(a, uid) ==> Has(Acknowledged(a), uid)
  {
    hide Uids, DoneWith;
    var b, head := Acknowledged(a), a.dropq[0];
    assert a.dropq == [head] + a.dropq[1..];
    UidsFirst(head, a.dropq[1..]);
    assert b.Flying() == a.Flying();
    AckDone(a);
  }

  lemma AckDone(a: Account)
    requires a.dropq != [] && a.wire != []
    ensures DoneWith(Acknowledged(a), a.dropq[0].uid) && forall uid :: DoneWith(a, uid) ==> DoneWith(Acknowledged(a), uid)
  {
    var b := Acknowledged(a);
    assert forall e :: e in b.log <==> e in a.log || e == Acked(a.dropq[0].uid);
  }

  /** A mail is resolved, and saved if there is a cache file to save it in. */
  lemma ResolveTold(file: set<Uid>, poll: bool, a: Account, uid: Uid)
    requires Content(file, poll, a) && a.loads == 1 && a.cacheq == a.base + a.resolved
    ensures Content(file, poll, Resolve(a, uid))
    ensures forall x :: x in Resolve(a, uid).log <==> x in a.log || (Saves(a) && x == Resolved(uid))
  {
    hide Read, EverResolved, Deleted;
    if Saves(a) {
      LogMore(a.log, Resolved(uid));
      assert Read(a.log) + [] == Read(a.log);
    }
  }

  /** A mail has been read to its end. */
  lemma HandedOverTold(file: set<Uid>, poll: bool, a: Account)
    requires a.mail.Some? && a.wantq != [] && a.wire != [] && a.mail.value == a.wantq[0] && a.handed == None && a.loads == 1
    requires Content(file, poll, a) && a.state != Delete && !poll
    ensures Content(file, poll, HandedOver(a)) && (AllSaved(a) ==> AllSaved(HandedOver(a)))
  {
    hide Read, EverResolved, Deleted, Ordered, Has;
    var b, head := HandedOver(a), a.wantq[0];
    LogMore(a.log, Got(head.uid));
    HandedOverHas(a);
    assert Read(b.log) + UidSeq(b.wantq) == Read(a.log) + UidSeq(a.wantq);
  }

  lemma HandedOverHas(a: Account)
    requires a.mail.Some? && a.wantq != [] && a.wire != [] && a.mail.value == a.wantq[0] && a.handed == None
    ensures forall uid :: Has(a, uid) ==> Has(HandedOver(a), uid)
  {
    hide Uids;
    var b, head := HandedOver(a), a.wantq[0];
    assert a.wantq == [head] + a.wantq[1..];
    UidsFirst(head, a.wantq[1..]);
    UidsAppend(a.Flying(), head);
    assert b.Flying() == a.Flying() + [head];
    assert forall uid :: DoneWith(a, uid) ==> DoneWith(b, uid) by { assert forall e :: e in a.log ==> e in b.log; }
  }

  /** A mail in flight is decided DROP. */
  lemma DropTold(file: set<Uid>, poll: bool, a: Account, k: nat)
    requires a.Valid() && a.handed == None && k < |a.inflight| && Content(file, poll, a)
    ensures Content(file, poll, ToDrop(a.(inflight := Without(a.inflight, k)), a.inflight[k]))
    ensures AllSaved(a) ==> AllSaved(ToDrop(a.(inflight := Without(a.inflight, k)), a.inflight[k]))
  {
    hide Account.Valid, Read, EverResolved, Deleted, Has;
    var aux := a.inflight[k];
    LogMore(a.log, Dropped(aux.uid));
    assert Read(a.log) + [] == Read(a.log);
    if a.state == Delete {
      DeleteFacts(a);
    }
    DropHas(a, k);
  }

  lemma DropHas(a: Account, k: nat)
    requires a.Valid() && a.handed == None && k < |a.inflight|
    ensures forall uid :: Has(a, uid) ==> Has(ToDrop(a.(inflight := Without(a.inflight, k)), a.inflight[k]), uid)
  {
    hide Uids, DoneWith, Account.LogSafe, Account.History, Account.WireIn, Account.Bound, Account.CacheExact, Account.ServerKnown;
    var b := ToDrop(a.(inflight := Without(a.inflight, k)), a.inflight[k]);
    UidsRemove(a.inflight, k);
    UidsAppend(a.dropq, a.inflight[k]);
    assert b.Flying() == Without(a.inflight, k);
    assert forall uid :: DoneWith(a, uid) ==> DoneWith(b, uid) by { LongerDone(a, b); }
  }

  lemma LongerDone(a: Account, b: Account)
    requires a.log <= b.log && a.boxes == b.boxes
    ensures forall uid :: DoneWith(a, uid) ==> DoneWith(b, uid)
  {
    assert forall e :: e in a.log ==> e in b.log;
  }

  /** One that has just been read is dropped for its size. */
  lemma DropHandedTold(file: set<Uid>, poll: bool, a: Account)
    requires a.handed.Some? && Content(file, poll, a) && a.state != Delete
    ensures Content(file, poll, ToDrop(a.(handed := None), a.handed.value))
    ensures AllSaved(a) ==> AllSaved(ToDrop(a.(handed := None), a.handed.value))
  {
    hide Read, EverResolved, Deleted;
    var aux := a.handed.value;
    var b := ToDrop(a.(handed := None), aux);
    LogMore(a.log, Dropped(aux.uid));
    assert Read(a.log) + [] == Read(a.log);
    UidsAppend(a.inflight, aux);
    UidsAppend(a.dropq, aux);
    assert forall uid :: Has(a, uid) ==> Has(b, uid);
  }

  /** A mail in flight is decided KEEP. */
  lemma KeepTold(file: set<Uid>, poll: bool, a: Account, k: nat)
    requires a.Valid() && a.handed == None && k < |a.inflight| && Content(file, poll, a)
    ensures Content(file, poll, KeptOut(a, k))
  {
    hide Account.Valid, Read, EverResolved, Deleted, Has;
    var aux, b := a.inflight[k], KeptOut(a, k);
    LogMore(a.log, Kept(aux.uid));
    assert Read(a.log) + [] == Read(a.log);
    KeepHas(a, k);
  }

  lemma KeepHas(a: Account, k: nat)
    requires a.Valid() && a.handed == None && k < |a.inflight|
    ensures forall uid :: Has(a, uid) ==> Has(KeptOut(a, k), uid)
  {
    hide Uids, DoneWith, Account.LogSafe, Account.History, Account.WireIn, Account.Bound, Account.CacheExact, Account.ServerKnown;
    UidsRemove(a.inflight, k);
    assert KeptOut(a, k).Flying() == Without(a.inflight, k);
    KeepDone(a, k);
  }

  lemma KeepDone(a: Account, k: nat)
    requires k < |a.inflight|
    ensures DoneWith(KeptOut(a, k), a.inflight[k].uid) && forall uid :: DoneWith(a, uid) ==> DoneWith(KeptOut(a, k), uid)
  {
    var b := KeptOut(a, k);
    assert forall e :: e in b.log <==> e in a.log || e == Kept(a.inflight[k].uid);
  }

  // ---------------------------------------------------------------- every state function

  /** All mails asked for are done with. */
  ghost predicate AllDone(file: set<Uid>, a: Account) {
    forall uid :: uid in Selection(a.only, a.path, file, FirstBox(a.boxes)) ==> DoneWith(a, uid)
  }

  /** What holds after a step: all that is told, and if the run goes on or is over in order, all is saved; when it is over all is done. */
  ghost predicate Tells(file: set<Uid>, poll: bool, r: Outcome) {
    && Told(file, poll, r.client.data)
    && (r.ret != Error ==> AllSaved(r.client.data))
    && (r.ret == Exit && !poll ==> AllDone(file, r.client.data))
  }

  ghost predicate Ready(file: set<Uid>, poll: bool, a: Account) {
    a.Valid() && Told(file, poll, a) && AllSaved(a)
  }

  lemma Moving(file: set<Uid>, poll: bool, a: Account)
    requires Ready(file, poll, a)
    ensures a.Valid() && MovesTold(poll, a) && Content(file, poll, a) && AllSaved(a)
  {
  }

  /** A step that stays in the story. */
  lemma Goes(file: set<Uid>, poll: bool, a: Account, d: Client, ret: Return)
    requires Ready(file, poll, a) && SameStory(a, d.data) && d.data.log == a.log && MovesTold(poll, d.data) && ret != Exit
    requires d.data.state == Delete ==> a.state == Delete
    ensures Tells(file, poll, Outcome(d, ret))
  {
    hide Account.Valid, Content, AllSaved;
    StillTold(file, poll, a, d.data);
  }

  /** A step that says goodbye. */
  lemma Leaves(file: set<Uid>, poll: bool, a: Account, refuse: bool, next: State, d: Client, ret: Return)
    requires Content(file, poll, a) && AllSaved(a) && a.boxes != [] && d.data == QuitSent(a, refuse, next) && MovesTold(poll, d.data) && ret != Exit && next != Delete
    ensures Tells(file, poll, Outcome(d, ret))
  {
    hide Content, AllSaved, Account.Sent;
    SilentTold(file, poll, a, d.data, Quit(|a.boxes| - 1));
  }

  /** A step that has been told of. */
  lemma Moved(file: set<Uid>, poll: bool, d: Client, ret: Return)
    requires Content(file, poll, d.data) && (ret != Error ==> AllSaved(d.data)) && MovesTold(poll, d.data) && ret != Exit
    ensures Tells(file, poll, Outcome(d, ret))
  {
    hide Content, AllSaved;
  }

  lemma Loaded(a: Account)
    requires a.Valid()
    ensures a.loads <= 1 && (a.total != 0 ==> a.loads == 1) && (a.loads == 0 ==> a.total == 0)
    ensures a.total == |a.wantq| + |a.Flying()| + |a.dropq| + a.committed && a.cacheq == a.base + a.resolved
    ensures !a.InSession() ==> a.Flying() == [] && a.dropq == []
    ensures a.state != Connect ==> a.boxes != []
  {
    hide Account.LogSafe, Account.History, Account.Unique, Account.WireIn, Account.Bound, Account.ServerKnown;
  }

  lemma ConnectTells(file: set<Uid>, poll: bool, c: Client, box: seq<Uid>, reachable: bool, refuse: bool)
    requires Ready(file, poll, c.data) && c.data.state == Connect
    ensures Tells(file, poll, ConnectStep(c, box, reachable, refuse))
  {
    hide Account.Valid, Content, AllSaved, AllDone;
    Loaded(c.data);
    if reachable {
      BoxTold(file, poll, c.data, ConnectStep(c, box, true, refuse).client.data, box);
    }
  }

  lemma LoginTells(file: set<Uid>, poll: bool, c: Client, arrived: nat, cmd: Command, refuse: bool, next: State)
    requires Ready(file, poll, c.data) && c.data.state in {Connected, User, Stat} && next in {User, Stat, FirstStat}
    ensures Tells(file, poll, LoginStep(c, arrived, cmd, refuse, next))
  {
    hide Account.Valid, Content, AllSaved, Account.Sent, Ready, Tells;
    var a, r := c.data, LoginStep(c, arrived, cmd, refuse, next);
    Moving(file, poll, a);
    if r.client == c {
      Goes(file, poll, a, c, r.ret);
    } else {
      var b := a.(wire := a.wire[1..] + a.Sent(cmd, refuse), state := next);
      assert SameStory(a, b);
      Goes(file, poll, a, Client(b, c.purge, c.size, c.flushing), r.ret);
    }
  }

  lemma FirstTells(file: set<Uid>, poll: bool, c: Client, arrived: nat, refuse: bool)
    requires Ready(file, poll, c.data) && c.data.state == FirstStat
    ensures Tells(file, poll, FirstStep(c, arrived, refuse))
  {
    hide Account.Valid, Content, AllSaved, Account.Sent, Ready, Tells, QuitSent;
    var a, r := c.data, FirstStep(c, arrived, refuse);
    Moving(file, poll, a);
    Loaded(a);
    if arrived > 0 && a.wire != [] && a.wire[0].OkayNumbers? {
      StatReply(a);
      var b := a.(num := a.wire[0].first, cur := 0, wire := a.wire[1..]);
      assert SameStory(a, b);
      if b.num != 0 {
        var d := b.(wire := b.Sent(UidlCmd, refuse), state := Cache1);
        assert SameStory(a, d);
        Goes(file, poll, a, Client(d, c.purge, c.size, c.flushing), r.ret);
      } else if b.total != 0 {
        var d := b.(state := Next);
        assert SameStory(a, d);
        Goes(file, poll, a, Client(d, c.purge, c.size, c.flushing), r.ret);
      } else {
        StillTold(file, poll, a, b);
        QuitMoves(b, refuse, Quitting);
        Leaves(file, poll, b, refuse, Quitting, r.client, r.ret);
      }
    } else {
      Goes(file, poll, a, c, r.ret);
    }
  }

  lemma QuitMoves(a: Account, refuse: bool, next: State)
    requires a.boxes != []
    ensures var b := QuitSent(a, refuse, next); b.state == next && b.loads == a.loads && b.boxes == a.boxes && b.wantq == a.wantq
  {
    hide Account.Sent;
  }

  lemma Cache1Tells(file: set<Uid>, poll: bool, c: Client, arrived: nat)
    requires Ready(file, poll, c.data) && c.data.state == Cache1
    ensures Tells(file, poll, Cache1Step(c, arrived))
  {
    hide Account.Valid, Content, AllSaved, Ready, Tells;
    Moving(file, poll, c.data);
    var r := Cache1Step(c, arrived);
    Goes(file, poll, c.data, r.client, r.ret);
  }

  lemma {:induction false} Cache2Same(c: Client, left: nat)
    requires c.data.state == Cache2
    ensures var r, b := Cache2Step(c, left), Cache2Step(c, left).client.data;
            SameStory(c.data, b) && b.log == c.data.log && b.state in {Cache2, Cache3} && r.ret in {Again, Block, Error}
    decreases left
  {
    hide ValidUid;
    var a := c.data;
    if a.cur != a.num && left > 0 && a.wire != [] {
      var line := a.wire[0];
      if line.UidLine? && line.n == a.cur + 1 && ValidUid(line.uid) && line.uid !in a.serverq {
        Cache2Same(c.(data := ListingRead(a, line.uid, line.n)), left - 1);
      }
    }
  }

  lemma Cache2Tells(file: set<Uid>, poll: bool, c: Client, arrived: nat)
    requires Ready(file, poll, c.data) && c.data.state == Cache2
    ensures Tells(file, poll, Cache2Step(c, arrived))
  {
    hide Account.Valid, Content, AllSaved, Cache2Step, Ready, Tells;
    Moving(file, poll, c.data);
    Cache2Same(c, arrived);
    var r := Cache2Step(c, arrived);
    Goes(file, poll, c.data, r.client, r.ret);
  }

  lemma Cache3Tells(file: set<Uid>, poll: bool, c: Client, arrived: nat, loads: bool, refuse: bool)
    requires Ready(file, poll, c.data) && c.data.state == Cache3
    ensures Tells(file, poll, Cache3Step(poll, c, arrived, loads, refuse))
  {
    hide Account.Valid, Content, AllSaved, Account.Sent, Wants, Uids, Ready, Tells, QuitSent, Rewanting, Wanting;
    var a, r := c.data, Cache3Step(poll, c, arrived, loads, refuse);
    Moving(file, poll, a);
    Loaded(a);
    if arrived == 0 || a.wire == [] {
      Goes(file, poll, a, c, r.ret);
    } else if a.total >= |a.wantq| && a.total != 0 {
      RewantingTold(file, poll, a);
      RewantingMoves(a);
      Moved(file, poll, r.client, r.ret);
    } else if !loads || a.boxes == [] {
      Goes(file, poll, a, c, r.ret);
    } else {
      WantingTold(file, poll, a);
      var want := Wants(a.only, (if a.path then a.file else {}) * a.serverq.Keys, a.Box(), |a.Box()|);
      var b := Wanting(a, want);
      WantingMoves(a, want);
      if want == [] || poll {
        QuitMoves(b, refuse, Quitting);
        Leaves(file, poll, b, refuse, Quitting, r.client, r.ret);
      } else {
        Moved(file, poll, r.client, r.ret);
      }
    }
  }

  lemma RewantingMoves(a: Account)
    requires a.total >= |a.wantq|
    ensures var b := Rewanting(a); b.state == Next && b.loads == a.loads && b.boxes == a.boxes
  {
  }

  lemma WantingMoves(a: Account, want: seq<Aux>)
    ensures var b := Wanting(a, want); b.state == Next && b.loads == 1 && b.boxes == a.boxes && b.wantq == want
  {
  }

  lemma NextTells(file: set<Uid>, poll: bool, c: Client, refuse: bool)
    requires Ready(file, poll, c.data) && c.data.state == Next && c.data.handed == None
    ensures Tells(file, poll, NextStep(c, refuse))
  {
    hide Account.Valid, Content, AllSaved, Account.Sent, Ready, Tells, QuitSent, DeleSent;
    var a, r := c.data, NextStep(c, refuse);
    Moving(file, poll, a);
    Loaded(a);
    if a.dropq != [] {
      DeleTold(file, poll, a, refuse);
      DeleMoves(a, refuse);
      Moved(file, poll, r.client, r.ret);
    } else if a.wantq == [] && a.committed == a.total {
      QuitMoves(a, refuse, Quitting);
      Leaves(file, poll, a, refuse, Quitting, r.client, r.ret);
    } else if a.wantq != [] && c.purge && a.inflight == [] {
      QuitMoves(a, refuse, Reconnect);
      Leaves(file, poll, a, refuse, Reconnect, r.client, r.ret);
    } else {
      Goes(file, poll, a, r.client, r.ret);
    }
  }

  lemma DeleMoves(a: Account, refuse: bool)
    requires a.dropq != [] && a.boxes != []
    ensures var b := DeleSent(a, refuse); b.state == Delete && b.loads == a.loads && b.boxes == a.boxes && b.wantq == a.wantq
  {
    hide Account.Sent;
  }

  lemma DeleteTells(file: set<Uid>, poll: bool, c: Client, arrived: nat, saves: bool)
    requires Ready(file, poll, c.data) && c.data.state == Delete
    ensures Tells(file, poll, DeleteStep(c, arrived, saves))
  {
    hide Account.Valid, Content, AllDone;
    var a := c.data;
    Loaded(a);
    DeleteFacts(a);
    if a.wire[0] != Failed {
      AckTold(file, poll, a);
      AckLog(a);
      ResolveTold(file, poll, Acknowledged(a), a.dropq[0].uid);
    }
  }

  lemma AckLog(a: Account)
    requires a.dropq != [] && a.wire != []
    ensures forall e :: e in Acknowledged(a).log <==> e in a.log || e == Acked(a.dropq[0].uid)
  {
  }

  lemma ReconnectTells(file: set<Uid>, poll: bool, c: Client, arrived: nat)
    requires Ready(file, poll, c.data) && c.data.state == Reconnect
    ensures Tells(file, poll, ReconnectStep(c, arrived))
  {
    hide Account.Valid, Content, AllSaved, Ready, Tells;
    Moving(file, poll, c.data);
    Loaded(c.data);
    var r := ReconnectStep(c, arrived);
    Goes(file, poll, c.data, r.client, r.ret);
  }

  lemma ListTells(file: set<Uid>, poll: bool, c: Client, arrived: nat, refuse: bool)
    requires Ready(file, poll, c.data) && c.data.state == List
    ensures Tells(file, poll, ListStep(c, arrived, refuse))
  {
    hide Account.Valid, Content, AllSaved, Account.Sent, Ready, Tells;
    Moving(file, poll, c.data);
    var r := ListStep(c, arrived, refuse);
    Goes(file, poll, c.data, r.client, r.ret);
  }

  lemma RetrTells(file: set<Uid>, poll: bool, c: Client, arrived: nat)
    requires Ready(file, poll, c.data) && c.data.state == Retr
    ensures Tells(file, poll, RetrStep(c, arrived))
  {
    hide Account.Valid, Content, AllSaved, Ready, Tells;
    Moving(file, poll, c.data);
    var r := RetrStep(c, arrived);
    Goes(file, poll, c.data, r.client, r.ret);
  }

  lemma {:induction false} LineTells(file: set<Uid>, poll: bool, maxSize: nat, c: Client, left: nat)
    requires Ready(file, poll, c.data) && c.data.state == Line && c.data.handed == None
    ensures Tells(file, poll, LineStep(maxSize, c, left))
    decreases left
  {
    hide Account.Valid, Content, AllSaved, AllDone, HandedOver, LineStep;
    var a := c.data;
    Loaded(a);
    LineFacts(a);
    LineStepIs(maxSize, c, left);
    if left > 0 {
      if a.wire[0] == Dot {
        FirstWanted(a);
        HandedOverTold(file, poll, a);
        HandedOverMoves(a);
      } else {
        TextLineKeeps(a);
        TextReadIs(maxSize, c);
        StillTold(file, poll, a, TextRead(maxSize, c).data);
        LineTells(file, poll, maxSize, TextRead(maxSize, c), left - 1);
      }
    }
  }

  lemma FirstWanted(a: Account)
    requires a.Valid() && a.state == Line
    ensures a.mail.Some? && a.wantq != [] && a.mail.value == a.wantq[0]
  {
  }

  lemma HandedOverMoves(a: Account)
    requires a.mail.Some? && a.wantq != [] && a.wire != []
    ensures var b := HandedOver(a); b.state == Next && b.loads == a.loads && b.boxes == a.boxes
  {
  }

  lemma TextReadIs(maxSize: nat, c: Client)
    requires c.data.wire != []
    ensures TextRead(maxSize, c).data == c.data.(wire := c.data.wire[1..], read := c.data.read + 1)
  {
  }

  lemma QuitTells(file: set<Uid>, poll: bool, c: Client, arrived: nat)
    requires Ready(file, poll, c.data) && c.data.state == Quitting
    ensures Tells(file, poll, QuitStep(c, arrived))
  {
    hide Account.Valid, Content, AllSaved, Ready, Tells, Released;
    var a, r := c.data, QuitStep(c, arrived);
    Moving(file, poll, a);
    Loaded(a);
    if r.ret == Exit {
      ReleasedTold(file, poll, a);
      assert Tells(file, poll, Outcome(r.client, Exit)) by { Over(file, poll, r.client); }
    } else {
      Goes(file, poll, a, c, r.ret);
    }
  }

  lemma Over(file: set<Uid>, poll: bool, d: Client)
    requires Told(file, poll, d.data) && AllSaved(d.data) && (!poll ==> AllDone(file, d.data))
    ensures Tells(file, poll, Outcome(d, Exit))
  {
    hide Told, AllSaved, AllDone;
  }

  /** When the client is gone, nothing was wanted any more. */
  lemma ReleasedTold(file: set<Uid>, poll: bool, a: Account)
    requires Content(file, poll, a) && MovesTold(poll, a) && AllSaved(a) && a.state == Quitting && a.Flying() == [] && a.dropq == [] && a.loads <= 1
    ensures var b := Released(a); Told(file, poll, b) && AllSaved(b) && (!poll ==> AllDone(file, b))
  {
    hide Read, EverResolved, Deleted, Ordered, DoneWith;
    var b := Released(a);
    SameDone(a, b);
    if a.loads == 1 {
      OrderedStart(FirstBox(a.boxes), Read(a.log), UidSeq(a.wantq));
      assert Read(b.log) + UidSeq(b.wantq) == Read(a.log);
    }
  }

  lemma SameDone(a: Account, b: Account)
    requires a.log == b.log && a.boxes == b.boxes
    ensures forall uid :: DoneWith(a, uid) <==> DoneWith(b, uid)
  {
  }

  lemma StateTells(file: set<Uid>, k: Config, c: Client, t: Turn)
    requires Ready(file, k.poll, c.data) && c.data.handed == None
    ensures Tells(file, k.poll, StateStep(k, c, t))
  {
    hide Ready, Tells;
    hide ConnectStep, LoginStep, FirstStep, Cache1Step, Cache2Step, Cache3Step, NextStep, DeleteStep, ReconnectStep, ListStep, RetrStep,
      LineStep, QuitStep;
    match c.data.state {
      case Connect => ConnectTells(file, k.poll, c, t.box, t.reachable, t.refuse);
      case Connected => LoginTells(file, k.poll, c, t.arrived, Login, t.refuse, if t.apop then Stat else User);
      case User => LoginTells(file, k.poll, c, t.arrived, Login, t.refuse, Stat);
      case Stat => LoginTells(file, k.poll, c, t.arrived, StatCmd, t.refuse, FirstStat);
      case FirstStat => FirstTells(file, k.poll, c, t.arrived, t.refuse);
      case Cache1 => Cache1Tells(file, k.poll, c, t.arrived);
      case Cache2 => Cache2Tells(file, k.poll, c, t.arrived);
      case Cache3 => Cache3Tells(file, k.poll, c, t.arrived, t.loads, t.refuse);
      case Next => NextTells(file, k.poll, c, t.refuse);
      case Delete => DeleteTells(file, k.poll, c, t.arrived, t.saves);
      case Reconnect => ReconnectTells(file, k.poll, c, t.arrived);
      case List => ListTells(file, k.poll, c, t.arrived, t.refuse);
      case Retr => RetrTells(file, k.poll, c, t.arrived);
      case Line => LineTells(file, k.poll, k.maxSize, c, t.arrived);
      case Quitting => QuitTells(file, k.poll, c, t.arrived);
    }
  }

  // ---------------------------------------------------------------- decisions, turns and runs

  lemma DequeueTells(file: set<Uid>, poll: bool, c: Client, k: nat, decision: FinalDecision, saves: bool)
    requires Ready(file, poll, c.data) && c.data.handed == None
    ensures Tells(file, poll, DequeueStep(c, k, decision, saves)) && DequeueStep(c, k, decision, saves).ret in {Again, Error}
  {
    hide Account.Valid, Content, Ready, Tells, KeptOut, ToDrop, Resolve, AllSaved;
    var a, r := c.data, DequeueStep(c, k, decision, saves);
    Moving(file, poll, a);
    if k >= |a.inflight| {
      Goes(file, poll, a, c, r.ret);
    } else if decision == Drop {
      DropTold(file, poll, a, k);
      DropMoves(a, k);
      Moved(file, poll, r.client, r.ret);
    } else {
      KeptTells(file, poll, a, k);
      Moved(file, poll, r.client, r.ret);
    }
  }

  lemma DropMoves(a: Account, k: nat)
    requires k < |a.inflight|
    ensures var b := ToDrop(a.(inflight := Without(a.inflight, k)), a.inflight[k]);
            b.state == a.state && b.loads == a.loads && b.boxes == a.boxes && b.wantq == a.wantq
  {
  }

  lemma KeptTells(file: set<Uid>, poll: bool, a: Account, k: nat)
    requires a.Valid() && a.handed == None && k < |a.inflight| && Content(file, poll, a) && MovesTold(poll, a) && AllSaved(a)
    ensures var b, uid := KeptOut(a, k), a.inflight[k].uid;
            && Content(file, poll, b) && MovesTold(poll, b) && (!Saves(a) ==> AllSaved(b)) && Saves(b) == Saves(a)
            && b.path == a.path && b.only == a.only
            && Content(file, poll, Resolve(b, uid)) && MovesTold(poll, Resolve(b, uid)) && AllSaved(Resolve(b, uid))
  {
    hide Account.Valid, Content;
    Loaded(a);
    KeepTold(file, poll, a, k);
    KeptLog(a, k);
    KeptKeeps(a, k);
    ResolveTold(file, poll, KeptOut(a, k), a.inflight[k].uid);
  }

  lemma KeptLog(a: Account, k: nat)
    requires k < |a.inflight|
    ensures forall e :: e in KeptOut(a, k).log <==> e in a.log || e == Kept(a.inflight[k].uid)
  {
  }

  lemma {:induction false} DecideTells(file: set<Uid>, poll: bool, c: Client, decisions: seq<(nat, FinalDecision)>, saves: bool)
    requires Ready(file, poll, c.data) && c.data.handed == None
    ensures Tells(file, poll, DecideStep(c, decisions, saves)) && DecideStep(c, decisions, saves).ret in {Again, Error}
    decreases |decisions|
  {
    hide Account.Valid, Told, AllSaved, AllDone, DequeueStep;
    if decisions != [] {
      DequeueTells(file, poll, c, decisions[0].0, decisions[0].1, saves);
      DequeueStepKeeps(c, decisions[0].0, decisions[0].1, saves);
      var r := DequeueStep(c, decisions[0].0, decisions[0].1, saves);
      if r.ret != Error {
        DecideTells(file, poll, r.client, decisions[1..], saves);
      }
    }
  }

  lemma EnqueueTells(file: set<Uid>, k: Config, c: Client, emptyText: bool)
    requires Told(file, k.poll, c.data) && AllSaved(c.data) && c.data.handed.Some? && c.data.state == Next
    ensures Tells(file, k.poll, EnqueueStep(k, c, emptyText))
  {
    hide Account.Valid, Content, AllSaved, AllDone;
    var a := c.data;
    DropHandedTold(file, k.poll, a);
    StillTold(file, k.poll, a, a.(inflight := a.inflight + [a.handed.value], handed := None));
  }

  lemma TurnTells(file: set<Uid>, k: Config, c: Client, t: Turn)
    requires Ready(file, k.poll, c.data) && c.data.handed == None
    ensures Tells(file, k.poll, TurnStep(k, c, t))
  {
    hide Account.Valid, Told, AllSaved, AllDone, DecideStep, StateStep, EnqueueStep;
    DecideTells(file, k.poll, c, t.decisions, t.saves);
    DecideStepKeeps(c, t.decisions, t.saves);
    var r := DecideStep(c, t.decisions, t.saves);
    if r.ret != Error {
      var d := if t.purge then r.client.(purge := true) else r.client;
      StateTells(file, k, d, t);
      StateStepKeeps(k, d, t);
      var s := StateStep(k, d, t);
      if s.ret == GotMail {
        HandedNext(k, d, t);
        EnqueueTells(file, k, s.client, t.emptyText);
      }
    }
  }

  /** A mail is handed over only at the end of its text. */
  lemma HandedNext(k: Config, c: Client, t: Turn)
    requires c.data.Valid() && c.data.handed == None && StateStep(k, c, t).ret == GotMail
    ensures StateStep(k, c, t).client.data.state == Next
  {
    hide Account.Valid, LineStep, Cache2Step, Wants, Renumber, Account.Sent;
    if c.data.state == Line {
      LineStepKeeps(k.maxSize, c, t.arrived);
    } else if c.data.state == Cache2 {
      Cache2Same(c, t.arrived);
    }
  }

  lemma {:induction false} RunTells(file: set<Uid>, k: Config, c: Client, turns: seq<Turn>)
    requires Ready(file, k.poll, c.data) && c.data.handed == None
    ensures Tells(file, k.poll, Ran(k, c, turns))
    decreases |turns|
  {
    hide Account.Valid, Told, AllSaved, AllDone, TurnStep;
    if turns != [] {
      var init := turns[..|turns| - 1];
      RunTells(file, k, c, init);
      RanKeeps(k, c, init);
      var r := Ran(k, c, init);
      if r.ret !in {Error, Exit} {
        TurnTells(file, k, r.client, turns[|turns| - 1]);
      }
    }
  }

  lemma StartTold(only: Only, path: bool, content: Uid -> seq<string>, past: seq<Event>, file: set<Uid>, poll: bool)
    ensures Told(file, poll, Fresh(only, path, content, past, file)) && AllSaved(Fresh(only, path, content, past, file))
  {
    assert Read([]) == [] && EverResolved([]) == {};
  }

  // ---------------------------------------------------------------- the story of a run

  /** The mails wanted are those asked for, and they are read in the order in which they are in the mailbox first listed. */
  ghost predicate ReadsWanted(only: Only, path: bool, file: set<Uid>, boxes: seq<seq<Uid>>, log: seq<Event>) {
    && (forall box, want :: Wanted(box, want) in log ==>
          boxes != [] && box == (set uid | uid in boxes[0]) && want == set uid | uid in boxes[0] && Asks(only, path, file, uid))
    && (forall i, j :: 0 <= i < j < |Read(log)| ==> Precedes(FirstBox(boxes), Read(log)[i], Read(log)[j]))
  }

  /** When a run that does not only poll is over, each mail asked for has been kept, or deleted, or was gone from a later mailbox. */
  ghost predicate NothingForgotten(only: Only, path: bool, file: set<Uid>, boxes: seq<seq<Uid>>, log: seq<Event>) {
    forall uid :: uid in FirstBox(boxes) && Asks(only, path, file, uid) ==>
      Kept(uid) in log || Acked(uid) in log || exists j :: 0 <= j < |boxes| && uid !in boxes[j]
  }

  /**
   * The cache file is left alone until a mail is resolved; then it has the mails of it that were on the server, and all
   * resolved. Those are the mails kept or deleted, but for an account that fetches only old mails or has no cache file.
   */
  ghost predicate FileFollows(only: Only, path: bool, before: set<Uid>, boxes: seq<seq<Uid>>, log: seq<Event>, file: set<Uid>) {
    && ((forall uid :: Resolved(uid) !in log) ==> file == before)
    && ((exists uid :: Resolved(uid) in log) ==> forall uid :: uid in file <==> (uid in before && uid in FirstBox(boxes)) || Resolved(uid) in log)
    && (!path || only == OnlyOld ==> forall uid :: Resolved(uid) !in log)
  }

  ghost predicate SavedAll(only: Only, path: bool, log: seq<Event>) {
    path && only != OnlyOld ==> forall uid :: Resolved(uid) in log <==> Kept(uid) in log || Acked(uid) in log
  }

  /** Any run, from a valid start and with anything happening in it. */
  lemma RunStory(k: Config, only: Only, path: bool, content: Uid -> seq<string>, past: seq<Event>, file: set<Uid>, turns: seq<Turn>)
    requires only == OnlyNew && path ==> FetchedOnce(past) && Steady(past) <= file <= EverResolved(past)
    ensures var r := Ran(k, Start(only, path, content, past, file), turns);
            var a := r.client.data;
            && ReadsWanted(only, path, file, a.boxes, a.log)
            && FileFollows(only, path, file, a.boxes, a.log, a.file)
            && (forall uid :: Acked(uid) in a.log ==> exists session, idx :: Dele(session, idx, uid) in a.log)
            && (r.ret != Error ==> SavedAll(only, path, a.log))
            && (r.ret == Exit && !k.poll ==> NothingForgotten(only, path, file, a.boxes, a.log))
            && (k.poll ==> Read(a.log) == [])
  {
    hide Account.Valid, Ran, Told, AllSaved, AllDone, FetchedOnce, Steady, EverResolved, ReadsWanted, FileFollows, SavedAll, NothingForgotten;
    var c := Start(only, path, content, past, file);
    FreshValid(only, path, content, past, file);
    StartTold(only, path, content, past, file, k.poll);
    RunTells(file, k, c, turns);
    RanKeeps(k, c, turns);
    var a := Ran(k, c, turns).client.data;
    ToldReads(file, k.poll, a);
    OnlyPolls(file, k.poll, a);
    ToldFiles(file, k.poll, a);
    SavedMeans(a);
    DoneMeans(file, a);
  }

  lemma ToldReads(file: set<Uid>, poll: bool, a: Account)
    requires Told(file, poll, a)
    ensures ReadsWanted(a.only, a.path, file, a.boxes, a.log)
    ensures forall uid :: Acked(uid) in a.log ==> exists session, idx :: Dele(session, idx, uid) in a.log
  {
    hide Read, EverResolved;
    if a.loads != 0 {
      OrderedStart(FirstBox(a.boxes), Read(a.log), UidSeq(a.wantq));
    }
    forall box, want | Wanted(box, want) in a.log
      ensures a.boxes != [] && box == (set uid | uid in a.boxes[0]) && want == set uid | uid in a.boxes[0] && Asks(a.only, a.path, file, uid)
    {
      assert a.loads != 0 && FirstBox(a.boxes) == a.boxes[0];
    }
  }

  /** A poll reads no mail. */
  lemma OnlyPolls(file: set<Uid>, poll: bool, a: Account)
    requires Told(file, poll, a)
    ensures poll ==> Read(a.log) == []
  {
    hide Read;
  }

  lemma ToldFiles(file: set<Uid>, poll: bool, a: Account)
    requires Told(file, poll, a)
    ensures FileFollows(a.only, a.path, file, a.boxes, a.log, a.file)
  {
    hide Read, EverResolved, WantsTold, AcksTold, ReadsTold;
    ResolvedIn(a.log);
    if exists uid :: Resolved(uid) in a.log {
      assert EverResolved(a.log) != {};
    } else {
      assert EverResolved(a.log) == {};
    }
  }

  lemma SavedMeans(a: Account)
    ensures AllSaved(a) ==> SavedAll(a.only, a.path, a.log)
  {
  }

  lemma DoneMeans(file: set<Uid>, a: Account)
    ensures AllDone(file, a) ==> NothingForgotten(a.only, a.path, file, a.boxes, a.log)
  {
    if AllDone(file, a) {
      forall uid | uid in FirstBox(a.boxes) && Asks(a.only, a.path, file, uid)
        ensures Kept(uid) in a.log || Acked(uid) in a.log || exists j :: 0 <= j < |a.boxes| && uid !in a.boxes[j]
      {
        assert uid in Selection(a.only, a.path, file, FirstBox(a.boxes));
      }
    }
  }

  lemma {:induction false} ResolvedIn(log: seq<Event>)
    ensures forall uid :: uid in EverResolved(log) <==> Resolved(uid) in log
  {
    if log != [] {
      var n := |log| - 1;
      ResolvedIn(log[..n]);
      assert log == log[..n] + [log[n]];
    }
  }

  // ---------------------------------------------------------------- what the idle client does, and why a run fails

  /**
   * The idle state: a mail to be deleted is deleted first; with nothing wanted it leaves once no mail is in flight; when a
   * purge is due it fetches nothing and reconnects once no mail is in flight; else it asks for the first mail wanted.
   */
  lemma IdleMeans(c: Client, refuse: bool)
    requires c.data.Valid() && c.data.state == Next && c.data.handed == None
    ensures var a, r, session := c.data, NextStep(c, refuse), |c.data.boxes| - 1;
            var b := r.client.data;
            && r.ret == Block && b.wantq == a.wantq && b.dropq == a.dropq && b.inflight == a.inflight
            && (a.dropq != [] ==> b.state == Delete && b.log == a.log + [Dele(session, a.dropq[0].idx, a.dropq[0].uid)])
            && (a.dropq == [] && a.wantq == [] && a.inflight == [] ==> b.state == Quitting && b.log == a.log + [Quit(session)])
            && (a.dropq == [] && a.wantq != [] && c.purge && a.inflight == [] ==>
                  b.state == Reconnect && b.log == a.log + [Quit(session)] && !r.client.purge)
            && (a.dropq == [] && (a.wantq == [] || c.purge) && a.inflight != [] ==> r.client == c)
            && (a.dropq == [] && a.wantq != [] && !c.purge ==> b.state == List && b.mail == Some(a.wantq[0]) && b.log == a.log)
  {
    hide Account.LogSafe, Account.History, Account.Unique, Account.CacheExact, Account.Bound, Account.ServerKnown, Account.Sent;
    NextFacts(c.data);
  }

  /** The whole listing, once it has come, is accepted exactly if all uids are of one to seventy of the characters from ! to ~, and differ. */
  lemma ListingAccepted(c: Client, left: nat)
    requires c.data.Valid() && c.data.state == Cache2 && left >= |c.data.Box()| - c.data.cur
    ensures var box := c.data.Box();
            Cache2Step(c, left).ret ==
              if (forall i :: 0 <= i < |box| ==> 1 <= |box[i]| <= 70 && forall j :: 0 <= j < |box[i]| ==> '!' <= box[i][j] <= '~')
                 && (forall i, j :: 0 <= i < j < |box| ==> box[i] != box[j])
              then Again else Error
  {
    hide Account.Valid, Cache2Step;
    Cache2StepKeeps(c, left);
    ListingFacts(c.data);
    ListingThere(c.data);
    Cache2Ends(c, left);
  }

  lemma ListingThere(a: Account)
    requires a.Valid() && a.state == Cache2
    ensures |a.wire| == |a.Box()| - a.cur + 1
  {
    assert a.WireCache2() by { InCache2(a); }
  }

  /** With all lines there the state function does not wait. */
  lemma {:induction false} Cache2Ends(c: Client, left: nat)
    requires left >= c.data.num - c.data.cur && c.data.cur <= c.data.num && |c.data.wire| > c.data.num - c.data.cur
    ensures Cache2Step(c, left).ret != Block
    decreases left
  {
    hide ValidUid;
    var a := c.data;
    if a.cur != a.num {
      var line := a.wire[0];
      if line.UidLine? && line.n == a.cur + 1 && ValidUid(line.uid) && line.uid !in a.serverq {
        Cache2Ends(c.(data := ListingRead(a, line.uid, line.n)), left - 1);
      }
    }
  }

  /** The line to be read next refuses what was asked, or something outside the client has failed. */
  ghost predicate Cause(k: Config, a: Account, t: Turn) {
    || (Saves(a) && !t.saves)
    || (a.state == Connect && !t.reachable)
    || (a.wire != [] && a.wire[0] == Failed)
    || (a.state == Cache2 && !AllValid(a.Box()))
    || (a.state == Cache3 && !t.loads)
    || (a.state == Line && a.mail.Some? && (t.emptyText || (!k.delBig && TextSize(a.content(a.mail.value.uid)) > k.maxSize)))
  }

  lemma {:induction false} DecideFails(c: Client, decisions: seq<(nat, FinalDecision)>, saves: bool)
    ensures var r := DecideStep(c, decisions, saves);
            && (r.ret == Error ==> Saves(c.data) && !saves)
            && (r.ret != Error ==> SameText(c, r.client) && r.client.data.wire == c.data.wire && r.client.data.boxes == c.data.boxes
                                   && r.client.data.path == c.data.path && r.client.data.only == c.data.only)
    decreases |decisions|
  {
    hide DequeueStep;
    if decisions != [] {
      DequeueFails(c, decisions[0].0, decisions[0].1, saves);
      var r := DequeueStep(c, decisions[0].0, decisions[0].1, saves);
      if r.ret != Error {
        DecideFails(r.client, decisions[1..], saves);
      }
    }
  }

  lemma DequeueFails(c: Client, k: nat, decision: FinalDecision, saves: bool)
    ensures var r := DequeueStep(c, k, decision, saves);
            && (r.ret == Error ==> Saves(c.data) && !saves)
            && SameText(c, r.client) && r.client.data.wire == c.data.wire && r.client.data.boxes == c.data.boxes
            && r.client.data.path == c.data.path && r.client.data.only == c.data.only
  {
    hide SameText;
    DequeueReads(c, k, decision, saves);
  }

  lemma StateFails(k: Config, c: Client, t: Turn)
    requires c.data.Valid() && c.data.handed == None && StateStep(k, c, t).ret == Error
    ensures Cause(k, c.data, t)
  {
    hide Account.Valid, AllValid, Cache2Step, Cache3Step, FirstStep, DeleteStep, ListStep, LineStep, NextStep, QuitStep, RetrStep, LoginStep,
      ReconnectStep, Cache1Step;
    var a := c.data;
    match a.state {
      case Connect =>
      case Cache2 => Cache2StepKeeps(c, t.arrived);
      case Cache3 => Cache3Fails(k.poll, c, t.arrived, t.loads, t.refuse);
      case Next => NextStepKeeps(c, t.refuse);
        NeverFails(c, t.refuse);
      case Delete => DeleteFails(c, t.arrived, t.saves);
      case List => ListFails(c, t.arrived, t.refuse);
      case Line => LineStepKeeps(k.maxSize, c, t.arrived);
      case _ => ReplyFails(c, t);
    }
  }

  lemma NeverFails(c: Client, refuse: bool)
    ensures NextStep(c, refuse).ret == Block
  {
    hide Account.Sent, QuitSent, DeleSent, Listing;
  }

  lemma Cache3Fails(poll: bool, c: Client, arrived: nat, loads: bool, refuse: bool)
    requires c.data.Valid() && c.data.state == Cache3 && Cache3Step(poll, c, arrived, loads, refuse).ret == Error
    ensures !loads
  {
    hide Account.Valid, Wants, Rewanting, Wanting, QuitSent, Numbers, Uids;
    Cache3Facts(c.data);
    Loaded(c.data);
  }

  lemma DeleteFails(c: Client, arrived: nat, saves: bool)
    requires c.data.Valid() && c.data.state == Delete && DeleteStep(c, arrived, saves).ret == Error
    ensures (c.data.wire != [] && c.data.wire[0] == Failed) || (Saves(c.data) && !saves)
  {
    hide Account.Valid, Resolve;
    DeleteFacts(c.data);
  }

  lemma ListFails(c: Client, arrived: nat, refuse: bool)
    requires c.data.Valid() && c.data.state == List && ListStep(c, arrived, refuse).ret == Error
    ensures c.data.wire != [] && c.data.wire[0] == Failed
  {
    hide Account.Valid, Account.Sent, Binds;
    ReplyComing(c.data);
    ListFacts(c.data);
  }

  /** Where only an OK is awaited, only a refusal fails. */
  lemma ReplyFails(c: Client, t: Turn)
    requires c.data.Valid() && c.data.state in {Connected, User, Stat, FirstStat, Cache1, Reconnect, Retr, Quitting}
    requires c.data.state == FirstStat ==> FirstStep(c, t.arrived, t.refuse).ret == Error
    ensures c.data.state == FirstStat ==> c.data.wire != [] && c.data.wire[0] == Failed
    ensures forall cmd, next :: LoginStep(c, t.arrived, cmd, t.refuse, next).ret == Error ==> c.data.wire[0] == Failed
    ensures Cache1Step(c, t.arrived).ret == Error || ReconnectStep(c, t.arrived).ret == Error || RetrStep(c, t.arrived).ret == Error || QuitStep(c, t.arrived).ret == Error ==>
              c.data.wire != [] && c.data.wire[0] == Failed
    ensures c.data.wire != []
  {
    hide Account.Valid, Account.Sent, QuitSent;
    ReplyComing(c.data);
    if c.data.state == FirstStat {
      FirstReply(c.data);
    }
  }

  lemma FirstReply(a: Account)
    requires a.Valid() && a.state == FirstStat
    ensures a.wire != [] && (a.wire[0].OkayNumbers? || a.wire[0] == Failed) && a.boxes != []
  {
  }

  /** A turn fails only for a reason: no other answer or circumstance makes the client give up. */
  lemma FailsFor(k: Config, c: Client, t: Turn)
    requires c.data.Valid() && c.data.handed == None && Sized(k.maxSize, c) && TurnStep(k, c, t).ret == Error
    ensures Cause(k, c.data, t)
  {
    hide Account.Valid, Sized, AllValid, DecideStep, StateStep, EnqueueStep;
    DecideFails(c, t.decisions, t.saves);
    DecideStepKeeps(c, t.decisions, t.saves);
    var r := DecideStep(c, t.decisions, t.saves);
    if r.ret != Error {
      var d := if t.purge then r.client.(purge := true) else r.client;
      DecideSized(k.maxSize, c, t.decisions, t.saves);
      var s := StateStep(k, d, t);
      if s.ret == Error {
        StateFails(k, d, t);
        assert Cause(k, c.data, t) <==> Cause(k, d.data, t);
      } else {
        StateStepKeeps(k, d, t);
        StateLogs(k, d, t, "");
        OnlyLineReads(k, d, t);
        EnqueueFails(k, s.client, t.emptyText);
      }
    }
  }

  lemma OnlyLineReads(k: Config, c: Client, t: Turn)
    requires c.data.Valid() && c.data.handed == None && StateStep(k, c, t).ret == GotMail
    ensures c.data.state == Line && c.data.mail.Some? && StateStep(k, c, t).client.data.handed == c.data.mail
  {
    hide Account.Valid, LineStep, Cache2Step, Wants, Renumber, Account.Sent;
    if c.data.state == Line {
      LineStepKeeps(k.maxSize, c, t.arrived);
    } else if c.data.state == Cache2 {
      Cache2Same(c, t.arrived);
    }
  }

  lemma EnqueueFails(k: Config, c: Client, emptyText: bool)
    requires c.data.handed.Some?
    ensures EnqueueStep(k, c, emptyText).ret == Error <==> if c.size > k.maxSize then !k.delBig else emptyText
  {
  }

  // ---------------------------------------------------------------- any number of runs

  /** How a run starts after those before. */
  function StartAfter(k: Config, only: Only, path: bool, content: Uid -> seq<string>, runs: seq<seq<Turn>>): Client {
    var before := RanAll(k, only, path, content, runs);
    Start(only, path, content, Flatten(Logs(before)), FileAfter(before))
  }

  lemma {:induction false} RanAllStarts(k: Config, only: Only, path: bool, content: Uid -> seq<string>, runs: seq<seq<Turn>>, i: nat)
    requires i < |runs|
    ensures RanAll(k, only, path, content, runs)[i] == Ran(k, StartAfter(k, only, path, content, runs[..i]), runs[i]).client.data
    decreases |runs|
  {
    hide Ran, Logs, Flatten, FileAfter;
    var n := |runs| - 1;
    if i < n {
      RanAllStarts(k, only, path, content, runs[..n], i);
      assert runs[..n][..i] == runs[..i] && runs[..n][i] == runs[i];
    }
  }

  /** A run that does what the decisions say, and reads what is asked for in order. */
  ghost predicate Follows(k: Config, c: Client, turns: seq<Turn>, boxes: seq<seq<Uid>>, log: seq<Event>) {
    && (forall uid :: AsDecided(k, c, turns, uid, log))
    && (forall session, idx, uid :: Dele(session, idx, uid) in log ==> Decides(k, c, turns, uid, Drop) || Big(k, c.data.content, uid))
    && ReadsWanted(c.data.only, c.data.path, c.data.file, boxes, log)
  }

  /** So does each of any number of runs, each from the cache file the one before has left. */
  lemma RunsFollow(k: Config, only: Only, path: bool, content: Uid -> seq<string>, runs: seq<seq<Turn>>, i: nat)
    requires i < |runs|
    ensures var a := RanAll(k, only, path, content, runs)[i];
            Follows(k, StartAfter(k, only, path, content, runs[..i]), runs[i], a.boxes, a.log)
  {
    hide Ran, RanAll, Logs, Flatten, FileAfter, FetchedOnce, Steady, EverResolved, AsDecided, Decides, ReadsWanted, FileFollows, SavedAll, NothingForgotten,
      DelesSafe, QuitsSafe;
    RunsSafe(k, only, path, content, runs[..i]);
    RanAllStarts(k, only, path, content, runs, i);
    var before := RanAll(k, only, path, content, runs[..i]);
    var past, file := Flatten(Logs(before)), FileAfter(before);
    RunStory(k, only, path, content, past, file, runs[i]);
    forall uid
      ensures AsDecided(k, Start(only, path, content, past, file), runs[i], uid, RanAll(k, only, path, content, runs)[i].log)
      ensures forall session, idx :: Dele(session, idx, uid) in RanAll(k, only, path, content, runs)[i].log ==>
                Decides(k, Start(only, path, content, past, file), runs[i], uid, Drop) || Big(k, content, uid)
    {
      DeletesOnlyDecided(k, only, path, content, past, file, runs[i], uid);
    }
  }
}
