// The POP3 client of pop3-common.c as an object whose state functions update its data, one call at a time, and
// the fetch loop around it. Each state function is tied to the steps of Pop3.dfy, which keep the invariant; so
// whatever happens in whatever order, the log of every sequence of runs is safe.

module Pop3Client {
  import opened Sequences
  import opened Options
  import opened Pop3Log
  import opened Pop3
  import opened Pop3Steps
  import opened Pop3Decisions
  import opened Pop3Story

  class Pop3Fetch {
    const poll: bool
    const delBig: bool
    const maxSize: nat

    var data: Account
    var purge: bool
    var size: nat
    var flushing: bool

    constructor (poll: bool, delBig: bool, maxSize: nat, only: Only, path: bool, content: Uid -> seq<string>,
                 past: seq<Event>, file: set<Uid>)
      requires only == OnlyNew && path ==> FetchedOnce(past) && Steady(past) <= file <= EverResolved(past)
      ensures View() == Start(only, path, content, past, file) && Options() == Config(poll, delBig, maxSize) && data.Valid()
    {
      FreshValid(only, path, content, past, file);
      this.poll, this.delBig, this.maxSize := poll, delBig, maxSize;
      data, purge, size, flushing := Fresh(only, path, content, past, file), false, 0, false;
    }

    function View(): Client
      reads this
    {
      Client(data, purge, size, flushing)
    }

    function Options(): Config {
      Config(poll, delBig, maxSize)
    }

    // In the state functions, arrived says how many of the unread reply lines have come in, and refuse whether
    // the server will refuse the command sent.

    // ---- logging in

    method StateConnect(box: seq<Uid>, reachable: bool, refuse: bool) returns (ret: Return)
      requires data.Valid() && data.state == Connect
      modifies this
      ensures Outcome(View(), ret) == ConnectStep(old(View()), box, reachable, refuse)
      ensures SameRun(old(data), data) && data.handed == old(data.handed)
      ensures data.Settled() && (ret != Error ==> data.Valid())
      ensures ret == if reachable then Block else Error
      ensures reachable ==> data.state == Connected && data.Box() == box && data.boxes == old(data.boxes) + [box]
    {
      hide Account.Valid, Account.Settled;
      ConnectStepKeeps(View(), box, reachable, refuse);
      if !reachable {
        return Error;
      }
      data := data.(boxes := data.boxes + [box], marked := {}, wire := if refuse then [Failed] else [Okay], state := Connected);
      ret := Block;
    }

    /** Wait for the greeting, then log in with APOP or with USER and PASS. */
    method StateConnected(arrived: nat, apop: bool, refuse: bool) returns (ret: Return)
      requires data.Valid() && data.state == Connected
      modifies this
      ensures Outcome(View(), ret) == LoginStep(old(View()), arrived, Login, refuse, if apop then Stat else User)
      ensures SameRun(old(data), data) && data.handed == old(data.handed)
      ensures data.Settled() && (ret != Error ==> data.Valid())
      ensures arrived == 0 ==> ret == Block && data == old(data)
      ensures arrived > 0 ==> ret == if old(data).Refused() then Error else Block
      ensures arrived > 0 && ret == Block ==> data.state == if apop then Stat else User
    {
      hide Account.Valid, Account.Settled;
      LoginStepKeeps(View(), arrived, Login, refuse, if apop then Stat else User);
      if arrived == 0 {
        return Block;
      }
      if data.wire[0] == Failed {
        return Error;
      }
      data := data.(wire := data.wire[1..] + data.Sent(Login, refuse), state := if apop then Stat else User);
      ret := Block;
    }

    method StateUser(arrived: nat, refuse: bool) returns (ret: Return)
      requires data.Valid() && data.state == User
      modifies this
      ensures Outcome(View(), ret) == LoginStep(old(View()), arrived, Login, refuse, Stat)
      ensures SameRun(old(data), data) && data.handed == old(data.handed)
      ensures data.Settled() && (ret != Error ==> data.Valid())
      ensures arrived == 0 ==> ret == Block && data == old(data)
      ensures arrived > 0 ==> ret == if old(data).Refused() then Error else Block
      ensures arrived > 0 && ret == Block ==> data.state == Stat
    {
      hide Account.Valid, Account.Settled;
      LoginStepKeeps(View(), arrived, Login, refuse, Stat);
      if arrived == 0 {
        return Block;
      }
      if data.wire[0] == Failed {
        return Error;
      }
      data := data.(wire := data.wire[1..] + data.Sent(Login, refuse), state := Stat);
      ret := Block;
    }

    method StateStat(arrived: nat, refuse: bool) returns (ret: Return)
      requires data.Valid() && data.state == Stat
      modifies this
      ensures Outcome(View(), ret) == LoginStep(old(View()), arrived, StatCmd, refuse, FirstStat)
      ensures SameRun(old(data), data) && data.handed == old(data.handed)
      ensures data.Settled() && (ret != Error ==> data.Valid())
      ensures arrived == 0 ==> ret == Block && data == old(data)
      ensures arrived > 0 ==> ret == if old(data).Refused() then Error else Block
      ensures arrived > 0 && ret == Block ==> data.state == FirstStat
    {
      hide Account.Valid, Account.Settled;
      LoginStepKeeps(View(), arrived, StatCmd, refuse, FirstStat);
      if arrived == 0 {
        return Block;
      }
      if data.wire[0] == Failed {
        return Error;
      }
      data := data.(wire := data.wire[1..] + data.Sent(StatCmd, refuse), state := FirstStat);
      ret := Block;
    }

    // ---- the mailbox listing

    /**
     * The size of the mailbox. An empty one ends the run if nothing is owed; after a reconnect the client goes
     * on without a listing.
     */
    method StateFirst(arrived: nat, refuse: bool) returns (ret: Return)
      requires data.Valid() && data.state == FirstStat
      modifies this
      ensures Outcome(View(), ret) == FirstStep(old(View()), arrived, refuse)
      ensures SameRun(old(data), data) && data.handed == old(data.handed)
      ensures data.Settled() && (ret != Error ==> data.Valid())
      ensures arrived == 0 ==> ret == Block && data == old(data)
      ensures arrived > 0 && !old(data).Numbered() ==> ret == Error
      ensures arrived > 0 && ret != Error ==>
                if old(data).Box() != [] then ret == Block && data.state == Cache1
                else if data.total != 0 then ret == Again && data.state == Next && data.wantq == old(data.wantq)
                else ret == Block && data.state == Quitting
    {
      hide Account.Valid, Account.Settled, ReplyTo;
      FirstStepKeeps(View(), arrived, refuse);
      if arrived == 0 {
        return Block;
      }
      if !data.wire[0].OkayNumbers? {
        return Error;
      }
      data := data.(num := data.wire[0].first, cur := 0, wire := data.wire[1..]);
      if data.num == 0 {
        if data.total != 0 {
          data := data.(state := Next);
          ret := Again;
        } else {
          data := QuitSent(data, refuse, Quitting);
          ret := Block;
        }
      } else {
        data := data.(wire := data.Sent(UidlCmd, refuse), state := Cache1);
        ret := Block;
      }
    }

    method StateCache1(arrived: nat) returns (ret: Return)
      requires data.Valid() && data.state == Cache1
      modifies this
      ensures Outcome(View(), ret) == Cache1Step(old(View()), arrived)
      ensures SameRun(old(data), data) && data.handed == old(data.handed)
      ensures data.Settled() && (ret != Error ==> data.Valid())
      ensures arrived == 0 ==> ret == Block && data == old(data)
      ensures arrived > 0 ==> ret == if old(data).Refused() then Error else Again
      ensures ret == Again ==> data.state == Cache2 && data.serverq == map[]
    {
      hide Account.Valid, Account.Settled;
      Cache1StepKeeps(View(), arrived);
      if arrived == 0 {
        return Block;
      }
      if data.wire[0] == Failed {
        return Error;
      }
      data := data.(wire := data.wire[1..], serverq := map[], state := Cache2);
      ret := Again;
    }

    /** Read the listing into the server tree, as far as it has arrived; a bad or repeated uid is an error. */
    method StateCache2(arrived: nat) returns (ret: Return)
      requires data.Valid() && data.state == Cache2
      modifies this
      ensures Outcome(View(), ret) == Cache2Step(old(View()), arrived)
      ensures SameRun(old(data), data) && data.handed == old(data.handed)
      ensures data.Settled() && (ret != Error ==> data.Valid())
      ensures ret == Block ==> data.state == Cache2 && data.cur == old(data.cur) + arrived
      ensures ret == Again ==> data.state == Cache3 && data.serverq == Numbers(data.Box(), |data.Box()|)
      ensures ret != Block ==> ret == if AllValid(data.Box()) then Again else Error
    {
      hide Account.Valid, Account.Settled, AllValid, Numbers, ValidUid;
      ghost var all := Cache2Step(View(), arrived);
      Cache2StepKeeps(View(), arrived);
      var left := arrived;
      while data.cur != data.num
        invariant data.Valid() && data.state == Cache2 && all == Cache2Step(View(), left)
        decreases left
      {
        ListingFacts(data);
        if left == 0 {
          return Block;
        }
        var line := data.wire[0];
        if !line.UidLine? || line.n != data.cur + 1 || !ValidUid(line.uid) || line.uid in data.serverq {
          return Error;
        }
        ListingLineKeeps(data);
        data := ListingRead(data, line.uid, line.n);
        left := left - 1;
      }
      data := data.(state := Cache3);
      ret := Again;
    }

    /** Put a mail into the want queue before the first one with a higher number. */
    method InsertByNumber(q: seq<Aux>, aux: Aux) returns (r: seq<Aux>)
      requires Ascending(q) && forall a :: a in q ==> a.idx != aux.idx
      ensures Ascending(r) && forall a :: a in r <==> a in q || a == aux
    {
      var i := 0;
      while i < |q| && q[i].idx <= aux.idx
        invariant 0 <= i <= |q| && forall j :: 0 <= j < i ==> q[j].idx < aux.idx
      {
        assert q[i] in q;
        i := i + 1;
      }
      r := q[..i] + [aux] + q[i..];
      assert forall a :: a in q <==> a in q[..i] || a in q[i..];
    }

    /** Copy the mails the account asks for from the server tree to the want queue. */
    method BuildWants(only: Only, cacheq: set<Uid>, serverq: map<Uid, nat>) returns (want: seq<Aux>)
      requires forall u, v :: u in serverq && v in serverq && u != v ==> serverq[u] != serverq[v]
      ensures WantList(only, cacheq, serverq, want)
    {
      want := [];
      var todo := serverq.Keys;
      while todo != {}
        invariant todo <= serverq.Keys
        invariant WantList(only, cacheq, serverq - todo, want)
        decreases todo
      {
        var uid :| uid in todo;
        todo := todo - {uid};
        if Selected(only, cacheq, uid) {
          want := InsertByNumber(want, Aux(uid, serverq[uid]));
        }
      }
      assert serverq - todo == serverq;
    }

    /** Weed out the cached mails that are not on the server. */
    method WeedCache(loaded: set<Uid>, serverq: map<Uid, nat>) returns (cacheq: set<Uid>)
      ensures cacheq == loaded * serverq.Keys
    {
      cacheq := loaded;
      var todo := loaded;
      while todo != {}
        invariant todo <= loaded && loaded * serverq.Keys <= cacheq <= loaded
        invariant forall uid :: uid in cacheq && uid !in todo ==> uid in serverq
        decreases todo
      {
        var uid :| uid in todo;
        todo := todo - {uid};
        if uid !in serverq {
          cacheq := cacheq - {uid};
        }
      }
    }

    /** Update the numbers of the wanted mails; those not on the server any more are removed. */
    method RenumberWants(q: seq<Aux>, serverq: map<Uid, nat>) returns (r: seq<Aux>)
      ensures r == Renumber(q, serverq)
    {
      r := [];
      var rest := q;
      while rest != []
        invariant r + Renumber(rest, serverq) == Renumber(q, serverq)
        decreases |rest|
      {
        if rest[0].uid in serverq {
          r := r + [Aux(rest[0].uid, serverq[rest[0].uid])];
        }
        rest := rest[1..];
      }
    }

    /**
     * Resolve the caches: on the first connection load the cache and build the want list, after a reconnect
     * update the numbers of the mails still wanted. With nothing to fetch, or when polling, say goodbye.
     */
    method StateCache3(arrived: nat, loads: bool, refuse: bool) returns (ret: Return)
      requires data.Valid() && data.state == Cache3
      modifies this
      ensures Outcome(View(), ret) == Cache3Step(poll, old(View()), arrived, loads, refuse)
      ensures SameRun(old(data), data) && data.handed == old(data.handed)
      ensures data.Settled() && (ret != Error ==> data.Valid())
      ensures arrived == 0 ==> ret == Block && data == old(data)
      ensures arrived > 0 && old(data.total) != 0 ==> ret == Again && data == Rewanting(old(data))
      ensures arrived > 0 && old(data.total) == 0 && !loads ==> ret == Error
      ensures arrived > 0 && old(data.total) == 0 && loads ==>
                exists want ::
                  && WantList(data.only, (if data.path then data.file else {}) * data.serverq.Keys, data.serverq, want)
                  && old(data.loads) == 0
                  && if want == [] || poll then ret == Block && data == QuitSent(Wanting(old(data), want), refuse, Quitting)
                     else ret == Again && data == Wanting(old(data), want)
    {
      hide Account.Valid, Account.Settled, Renumber, WantList, Wants, AllValid, Numbers, ReplyTo;
      Cache3StepKeeps(poll, View(), arrived, loads, refuse);
      Cache3Facts(data);
      if arrived == 0 {
        return Block;
      }
      if data.total != 0 {
        var want := RenumberWants(data.wantq, data.serverq);
        data := data.(wantq := want, total := data.total - (|data.wantq| - |want|), wire := data.wire[1..], state := Next);
        return Again;
      }
      if !loads {
        return Error;
      }
      var cacheq := WeedCache(if data.path then data.file else {}, data.serverq);
      var want := BuildWants(data.only, cacheq, data.serverq);
      WantingKeeps(data, want);
      WantsOnly(data, cacheq, want);
      data := Wanting(data, want);
      ret := Again;
      if want == [] || poll {
        data := QuitSent(data, refuse, Quitting);
        ret := Block;
      }
    }

    // ---- deleting, purging, fetching

    /**
     * The idle state. Delete first; if nothing more is wanted, wait for everything to be committed and say
     * goodbye; if a purge is wanted, wait until nothing is in flight and reconnect; else list the next mail.
     */
    method StateNext(refuse: bool) returns (ret: Return)
      requires data.Valid() && data.state == Next && data.handed == None
      modifies this
      ensures Outcome(View(), ret) == NextStep(old(View()), refuse)
      ensures SameRun(old(data), data) && data.handed == old(data.handed)
      ensures data.Settled() && data.Valid() && ret == Block
      ensures var was := old(data);
              if was.dropq != [] then data == DeleSent(was, refuse)
              else if was.wantq == [] then data == if was.committed != was.total then was else QuitSent(was, refuse, Quitting)
              else if old(purge) then data == if was.inflight != [] then was else QuitSent(was, refuse, Reconnect)
              else data == Listing(was, refuse)
      ensures purge == (old(purge) && data.state != Reconnect)
    {
      hide Account.Valid, Account.Settled, ReplyTo;
      NextStepKeeps(View(), refuse);
      var empty := data.inflight == [];  // the loop's FETCH_EMPTY
      if data.dropq != [] {
        data := DeleSent(data, refuse);
      } else if data.wantq == [] {
        if data.committed == data.total {
          data := QuitSent(data, refuse, Quitting);
        }
      } else if purge {
        if empty {
          purge := false;
          data := QuitSent(data, refuse, Reconnect);
        }
      } else {
        data := Listing(data, refuse);
      }
      ret := Block;
    }

    /** Write the cache file, or fail to. A failure ends the run. */
    method StateDelete(arrived: nat, saves: bool) returns (ret: Return)
      requires data.Valid() && data.state == Delete
      modifies this
      ensures Outcome(View(), ret) == DeleteStep(old(View()), arrived, saves)
      ensures SameRun(old(data), data) && data.handed == old(data.handed)
      ensures data.Settled() && (ret != Error ==> data.Valid())
      ensures arrived == 0 ==> ret == Block && data == old(data)
      ensures arrived > 0 ==> (ret == Error <==> old(data).Refused() || (data.path && data.only != OnlyOld && !saves))
      ensures arrived > 0 && ret != Error ==>
                ret == Again && old(data).dropq != [] && data == Resolve(Acknowledged(old(data)), old(data.dropq)[0].uid)
    {
      hide Account.Valid, Account.Settled, Uids;
      DeleteStepKeeps(View(), arrived, saves);
      if arrived == 0 {
        return Block;
      }
      if data.wire[0] == Failed {
        return Error;
      }
      AcknowledgedKeeps(data);
      var aux := data.dropq[0];
      data := Acknowledged(data);
      ret := Commit(aux.uid, saves);
    }

    /** Put a resolved mail into the cache tree and save the cache. */
    method Commit(uid: Uid, saves: bool) returns (ret: Return)
      requires data.Valid() && data.loads == 1
      requires uid !in Uids(data.wantq) && uid !in Uids(data.Flying()) && uid !in Uids(data.dropq)
      modifies this`data
      ensures Outcome(View(), ret) == CommitStep(old(View()), uid, saves)
      ensures SameRun(old(data), data) && data.handed == old(data.handed)
      ensures data.Settled() && (ret != Error ==> data.Valid())
      ensures ret == if data.path && data.only != OnlyOld && !saves then Error else Again
      ensures ret == Again ==> data == Resolve(old(data), uid)
      ensures ret == Error ==> data.file == old(data.file)
    {
      hide Account.Valid, Account.Settled;
      CommitStepKeeps(View(), uid, saves);
      if data.path && data.only != OnlyOld && !saves {
        return Error;
      }
      data := Resolve(data, uid);
      ret := Again;
    }

    method StateReconnect(arrived: nat) returns (ret: Return)
      requires data.Valid() && data.state == Reconnect
      modifies this
      ensures Outcome(View(), ret) == ReconnectStep(old(View()), arrived)
      ensures SameRun(old(data), data) && data.handed == old(data.handed)
      ensures data.Settled() && (ret != Error ==> data.Valid())
      ensures arrived == 0 ==> ret == Block && data == old(data)
      ensures arrived > 0 ==> ret == if old(data).Refused() then Error else Again
      ensures ret == Again ==> data == old(data).(wire := [], state := Connect)
    {
      hide Account.Valid, Account.Settled;
      ReconnectStepKeeps(View(), arrived);
      if arrived == 0 {
        return Block;
      }
      if data.wire[0] == Failed {
        return Error;
      }
      data := data.(wire := [], state := Connect);
      ret := Again;
    }

    method StateList(arrived: nat, refuse: bool) returns (ret: Return)
      requires data.Valid() && data.state == List
      modifies this
      ensures Outcome(View(), ret) == ListStep(old(View()), arrived, refuse)
      ensures SameRun(old(data), data) && data.handed == old(data.handed)
      ensures data.Settled() && (ret != Error ==> data.Valid())
      ensures arrived == 0 ==> ret == Block && data == old(data)
      ensures old(data).Box() == [] && arrived > 0 ==> ret == Error
      ensures arrived > 0 && ret != Error ==> ret == Block && data.state == Retr && data.mail.Some? && Binds(data.Box(), data.mail.value)
    {
      hide Account.Valid, Account.Settled, ReplyTo;
      ListStepKeeps(View(), arrived, refuse);
      if arrived == 0 {
        return Block;
      }
      var line := data.wire[0];
      if !line.OkayNumbers? || line.first != data.mail.value.idx {
        return Error;
      }
      data := data.(wire := data.wire[1..] + data.Sent(RetrCmd(data.mail.value.idx), refuse), state := Retr);
      ret := Block;
    }

    method StateRetr(arrived: nat) returns (ret: Return)
      requires data.Valid() && data.state == Retr
      modifies this
      ensures Outcome(View(), ret) == RetrStep(old(View()), arrived)
      ensures SameRun(old(data), data) && data.handed == old(data.handed)
      ensures data.Settled() && (ret != Error ==> data.Valid())
      ensures arrived == 0 ==> ret == Block && data == old(data)
      ensures arrived > 0 ==> ret == if old(data).Refused() then Error else Again
      ensures ret == Again ==> data.state == Line && size == 0 && !flushing
    {
      hide Account.Valid, Account.Settled;
      RetrStepKeeps(View(), arrived);
      if arrived == 0 {
        return Block;
      }
      if data.wire[0] == Failed {
        return Error;
      }
      data := data.(wire := data.wire[1..], read := 0, state := Line);
      size, flushing := 0, false;
      ret := Again;
    }

    /** Read the mail up to the terminating dot, keeping its text only up to the size limit. */
    method StateLine(arrived: nat) returns (ret: Return)
      requires data.Valid() && data.state == Line
      modifies this
      ensures Outcome(View(), ret) == LineStep(maxSize, old(View()), arrived)
      ensures SameRun(old(data), data)
      ensures data.Settled() && data.Valid() && ret in {Block, GotMail}
      ensures ret == Block ==> data.state == Line && data.read == old(data.read) + arrived && data.handed == old(data.handed)
      ensures ret == GotMail ==> data.state == Next && data.handed == old(data.mail) && data.handed.Some? && old(data).wantq != [] && data.wantq == old(data).wantq[1..]
    {
      hide Account.Valid, Account.Settled, LineStep, HandedOver;
      ghost var all := LineStep(maxSize, View(), arrived);
      LineStepKeeps(maxSize, View(), arrived);
      var left := arrived;
      while true
        invariant data.Valid() && data.state == Line && all == LineStep(maxSize, View(), left)
        decreases left
      {
        LineFacts(data);
        LineStepIs(maxSize, View(), left);
        if left == 0 {
          return Block;
        }
        var line := data.wire[0];
        if line == Dot {
          break;
        }
        TextLineKeeps(data);
        data := data.(wire := data.wire[1..], read := data.read + 1);
        left := left - 1;
        if !flushing {
          size := size + |line.line| + 1;
          flushing := size > maxSize;
        }
      }
      data := HandedOver(data);
      ret := GotMail;
    }

    method StateQuit(arrived: nat) returns (ret: Return)
      requires data.Valid() && data.state == Quitting
      modifies this
      ensures Outcome(View(), ret) == QuitStep(old(View()), arrived)
      ensures SameRun(old(data), data) && data.handed == old(data.handed)
      ensures data.Settled() && (ret in {Block, Error} ==> data == old(data))
      ensures arrived == 0 ==> ret == Block
      ensures arrived > 0 ==> ret == if old(data).Refused() then Error else Exit
    {
      hide Account.Valid, Account.Settled;
      QuitStepKeeps(View(), arrived);
      if arrived == 0 {
        return Block;
      }
      if data.wire[0] == Failed {
        return Error;
      }
      ValidIsSettled(data);
      Release();
      ret := Exit;
    }

    /** Free everything; the connection is closed. The log and the cache file stay. */
    method Release()
      requires data.Settled()
      modifies this`data
      ensures SameRun(old(data), data) && data.handed == old(data.handed)
      ensures data.Settled() && data.log == old(data.log) && data.boxes == old(data.boxes) && data.file == old(data.file)
      ensures data == Released(old(data))
    {
      data := data.(wantq := [], dropq := [], cacheq := {}, serverq := map[], wire := []);
    }

    // ---- the fetch loop's side

    /** Queue the mail just read; an oversize one is dropped at once or ends the run, an empty one ends it. */
    method Enqueue(emptyText: bool) returns (ok: bool)
      requires data.Valid() && data.handed.Some?
      modifies this`data
      ensures SameRun(old(data), data)
      ensures data.Settled() && (ok ==> data.Valid() && data.handed == None)
      ensures ok <==> if size > maxSize then delBig else !emptyText
      ensures Outcome(View(), if ok then Again else Error) == EnqueueStep(Options(), old(View()), emptyText)
    {
      hide Account.Valid, Account.Settled;
      EnqueueStepKeeps(Options(), View(), emptyText);
      if size > maxSize {
        if !delBig {
          return false;
        }
        data := ToDrop(data.(handed := None), data.handed.value);
      } else {
        if emptyText {
          return false;
        }
        data := data.(inflight := data.inflight + [data.handed.value], handed := None);
      }
      ok := true;
    }

    /** A mail in flight has its final decision: hand it back to the client. */
    method Dequeue(k: nat, decision: FinalDecision, saves: bool) returns (ret: Return)
      requires data.Valid() && data.handed == None && k < |data.inflight|
      modifies this`data
      ensures SameRun(old(data), data)
      ensures data.Settled() && (ret != Error ==> data.Valid() && data.handed == None)
      ensures Outcome(View(), ret) == DequeueStep(old(View()), k, decision, saves)
      ensures data.inflight == old(data).inflight[..k] + old(data).inflight[k + 1..] && data.wantq == old(data).wantq
      // DROP puts the mail on the drop queue and resolves nothing; KEEP leaves the drop queue alone and resolves the mail.
      ensures decision == Drop ==> data.dropq == old(data).dropq + [old(data).inflight[k]] && data.cacheq == old(data).cacheq && data.file == old(data).file
      ensures decision == Drop ==> ret == Again && data.log == old(data).log + [Dropped(old(data).inflight[k].uid)]
      ensures decision == Keep ==> data.dropq == old(data).dropq && data.committed == old(data).committed + 1 && Kept(old(data).inflight[k].uid) in data.log
      ensures decision == Keep && ret == Again ==> data.cacheq == old(data).cacheq + {old(data).inflight[k].uid}
    {
      hide Account.Valid, Account.Settled, Uids;
      DequeueStepKeeps(View(), k, decision, saves);
      DequeueMeans(View(), k, decision, saves);
      DequeueLogs(View(), k, decision, saves, data.inflight[k].uid);
      var aux := data.inflight[k];
      if decision == Drop {
        data := ToDrop(data.(inflight := Without(data.inflight, k)), aux);
        ret := Again;
      } else {
        KeptKeeps(data, k);
        data := KeptOut(data, k);
        ret := Commit(aux.uid, saves);
      }
    }

    /** Call the current state function. */
    method Step(t: Turn) returns (ret: Return)
      requires data.Valid() && data.handed == None
      modifies this
      ensures Outcome(View(), ret) == StateStep(Options(), old(View()), t)
    {
      hide Account.Valid, Account.Settled;
      match data.state
      case Connect => ret := StateConnect(t.box, t.reachable, t.refuse);
      case Connected => ret := StateConnected(t.arrived, t.apop, t.refuse);
      case User => ret := StateUser(t.arrived, t.refuse);
      case Stat => ret := StateStat(t.arrived, t.refuse);
      case FirstStat => ret := StateFirst(t.arrived, t.refuse);
      case Cache1 => ret := StateCache1(t.arrived);
      case Cache2 => ret := StateCache2(t.arrived);
      case Cache3 => ret := StateCache3(t.arrived, t.loads, t.refuse);
      case Next => ret := StateNext(t.refuse);
      case Delete => ret := StateDelete(t.arrived, t.saves);
      case Reconnect => ret := StateReconnect(t.arrived);
      case List => ret := StateList(t.arrived, t.refuse);
      case Retr => ret := StateRetr(t.arrived);
      case Line => ret := StateLine(t.arrived);
      case Quitting => ret := StateQuit(t.arrived);
    }

    /** The decisions that come in during one round. There are none about mails that are not in flight. */
    method Decide(t: Turn) returns (ok: bool)
      requires data.Valid() && data.handed == None
      modifies this`data
      ensures Outcome(View(), if ok then Again else Error) == DecideStep(old(View()), t.decisions, t.saves)
    {
      hide Account.Valid, Account.Settled, DequeueStep;
      ghost var all := DecideStep(View(), t.decisions, t.saves);
      ghost var rest := t.decisions;
      for i := 0 to |t.decisions|
        invariant data.Valid() && data.handed == None && rest == t.decisions[i..]
        invariant all == DecideStep(View(), rest, t.saves)
      {
        var (k, decision) := t.decisions[i];
        DequeueStepKeeps(View(), k, decision, t.saves);
        if k < |data.inflight| {
          var ret := Dequeue(k, decision, t.saves);
          if ret == Error {
            return false;
          }
        } else {
          NotInFlight(View(), k, decision, t.saves);
        }
        rest := rest[1..];
      }
      ok := true;
    }

    /** One run of the fetch loop, from connecting until the client exits, something fails, or the turns run out. */
    method FetchAccount(turns: seq<Turn>) returns (ret: Return)
      requires data.Valid() && data.handed == None
      modifies this
      ensures Outcome(View(), ret) == Ran(Options(), old(View()), turns)
      ensures SameRun(old(data), data) && data.Settled()
    {
      hide Account.Valid, Account.Settled, DecideStep, StateStep, EnqueueStep;
      ghost var c := View();
      ret := Again;
      RanKeeps(Options(), c, turns);
      assert turns[..0] == [];
      for i := 0 to |turns|
        invariant Outcome(View(), ret) == Ran(Options(), c, turns[..i])
        invariant data.Valid() && data.handed == None && ret !in {Error, Exit}
      {
        assert turns[..i + 1][..i] == turns[..i];
        TurnStepKeeps(Options(), View(), turns[i]);
        ret := TakeTurn(turns[i]);
        if ret == Error || ret == Exit {
          Ended(Options(), c, turns, i + 1);
          return;
        }
      }
      assert turns[..|turns|] == turns;
    }

    method TakeTurn(t: Turn) returns (ret: Return)
      requires data.Valid() && data.handed == None
      modifies this
      ensures Outcome(View(), ret) == TurnStep(Options(), old(View()), t)
    {
      hide Account.Valid, Account.Settled, DecideStep, StateStep, EnqueueStep;
      DecideStepKeeps(View(), t.decisions, t.saves);
      var ok := Decide(t);
      if !ok {
        return Error;
      }
      if t.purge {
        purge := true;
      }
      StateStepKeeps(Options(), View(), t);
      ret := Step(t);
      if ret == GotMail {
        ok := Enqueue(t.emptyText);
        ret := if ok then Again else Error;
      }
    }
  }

  lemma NotInFlight(c: Client, k: nat, decision: FinalDecision, saves: bool)
    requires k >= |c.data.inflight|
    ensures DequeueStep(c, k, decision, saves) == Outcome(c, Again)
  {
  }

  /** A run that has ended stays as it is. */
  lemma {:induction false} Ended(k: Config, c: Client, turns: seq<Turn>, i: nat)
    requires i <= |turns| && Ran(k, c, turns[..i]).ret in {Error, Exit}
    ensures Ran(k, c, turns) == Ran(k, c, turns[..i])
    decreases |turns|
  {
    hide TurnStep;
    if i == |turns| {
      assert turns[..i] == turns;
    } else {
      var before := turns[..|turns| - 1];
      assert before[..i] == turns[..i];
      Ended(k, c, before, i);
    }
  }

  /** Any number of runs of one account, starting from an empty cache file, with anything happening in each. */
  method FetchRuns(poll: bool, delBig: bool, maxSize: nat, only: Only, path: bool, content: Uid -> seq<string>,
                   runs: seq<seq<Turn>>)
    returns (logs: seq<seq<Event>>, boxes: seq<seq<seq<Uid>>>)
    ensures var ends := RanAll(Config(poll, delBig, maxSize), only, path, content, runs);
            logs == Logs(ends) && boxes == Boxes(ends)
    ensures |logs| == |runs| == |boxes|
    ensures forall i :: 0 <= i < |logs| ==> DelesSafe(logs[i], boxes[i]) && QuitsSafe(logs[i])
    ensures only == OnlyNew && path ==> FetchedOnce(Flatten(logs))
    // Each run deletes just what it is told to, and reads what it is to read.
    ensures var k := Config(poll, delBig, maxSize);
            forall i :: 0 <= i < |logs| ==> Follows(k, StartAfter(k, only, path, content, runs[..i]), runs[i], boxes[i], logs[i])
  {
    hide Follows, StartAfter;
    hide DelesSafe, QuitsSafe, FetchedOnce, Steady, EverResolved, Account.Valid, Account.Settled, Ran, RanAll, Logs, Boxes, Flatten;
    var k := Config(poll, delBig, maxSize);
    var file := {};
    ghost var ends := RanAll(k, only, path, content, runs[..0]);
    logs, boxes := [], [];
    NothingRan(ends);
    for i := 0 to |runs|
      invariant ends == RanAll(k, only, path, content, runs[..i])
      invariant logs == Logs(ends) && boxes == Boxes(ends) && file == FileAfter(ends)
    {
      RunsSafe(k, only, path, content, runs[..i]);
      var f := new Pop3Fetch(poll, delBig, maxSize, only, path, content, Flatten(logs), file);
      var _ := f.FetchAccount(runs[i]);
      NextRun(k, only, path, content, runs, i);
      LogsMore(ends, f.data);
      ends := ends + [f.data];
      logs, boxes, file := logs + [f.data.log], boxes + [f.data.boxes], f.data.file;
    }
    assert runs[..|runs|] == runs;
    RunsSafe(k, only, path, content, runs);
    LogOfEach(ends);
    forall i | 0 <= i < |logs| ensures Follows(k, StartAfter(k, only, path, content, runs[..i]), runs[i], boxes[i], logs[i]) {
      RunsFollow(k, only, path, content, runs, i);
    }
  }

  lemma LogOfEach(ends: seq<Account>)
    ensures |Logs(ends)| == |Boxes(ends)| == |ends|
    ensures forall i :: 0 <= i < |ends| ==> Logs(ends)[i] == ends[i].log && Boxes(ends)[i] == ends[i].boxes
  {
  }
}
