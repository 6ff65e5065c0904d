// What a POP3 run leaves behind: the log of everything fdm did, the mailboxes the server showed it, and what it
// means for such a log to be safe.

module Pop3Log {
  type Uid = string

  datatype Aux = Aux(uid: Uid, idx: nat)

  datatype Event =
    | FirstListing(box: set<Uid>)                // UIDL read on the first connection of a run
    | Wanted(box: set<Uid>, want: set<Uid>)      // the want queue built from it
    | Got(uid: Uid)                              // a mail read to its end; the uid is the server's for that text
    | Dropped(uid: Uid)                          // decided DROP
    | Kept(uid: Uid)                             // decided KEEP
    | Dele(session: nat, idx: nat, uid: Uid)     // DELE sent in a session for a mail fdm knows by this uid
    | Acked(uid: Uid)                            // its +OK read
    | Resolved(uid: Uid)                         // kept or acknowledged, and saved in the cache file
    | Quit(session: nat)

  // ---------------------------------------------------------------- deleting the right mail

  /** The session's mailbox gives the number to the uid. */
  ghost predicate Binds(box: seq<Uid>, a: Aux) {
    1 <= a.idx <= |box| && box[a.idx - 1] == a.uid
  }

  ghost predicate Before(log: seq<Event>, i: nat, e: Event) {
    exists j :: 0 <= j < i && j < |log| && log[j] == e
  }

  /**
   * Every DELE goes out in the session whose UIDL gave its number to the uid of a mail decided DROP, and every
   * decision is about a mail that was read.
   */
  ghost predicate DelesSafe(log: seq<Event>, boxes: seq<seq<Uid>>) {
    forall i :: 0 <= i < |log| ==> Justified(log, i, boxes)
  }

  ghost predicate Justified(log: seq<Event>, i: nat, boxes: seq<seq<Uid>>)
    requires i < |log|
  {
    match log[i]
    case Dele(session, idx, uid) =>
      session < |boxes| && Binds(boxes[session], Aux(uid, idx)) && Before(log, i, Dropped(uid))
    case Dropped(uid) => Before(log, i, Got(uid))
    case Kept(uid) => Before(log, i, Got(uid))
    case _ => true
  }

  // ---------------------------------------------------------------- leaving nothing behind

  /** Mails read and not decided yet, and DELEs sent and not acknowledged yet. */
  ghost function Open(log: seq<Event>): int {
    if log == [] then 0
    else
      Open(log[..|log| - 1]) +
      match log[|log| - 1]
      case Got(_) => 1
      case Dropped(_) => -1
      case Kept(_) => -1
      case _ => 0
  }

  ghost function Unacked(log: seq<Event>): int {
    if log == [] then 0
    else
      Unacked(log[..|log| - 1]) +
      match log[|log| - 1]
      case Dele(_, _, _) => 1
      case Acked(_) => -1
      case _ => 0
  }

  /** Mails decided DROP that no DELE has been sent for. */
  ghost function Undeleted(log: seq<Event>): int {
    if log == [] then 0
    else
      Undeleted(log[..|log| - 1]) +
      match log[|log| - 1]
      case Dropped(_) => 1
      case Dele(_, _, _) => -1
      case _ => 0
  }

  /** At every QUIT of a run no mail is in flight, none waits to be deleted, and every DELE is acknowledged. */
  ghost predicate QuitsSafe(log: seq<Event>) {
    forall i :: 0 <= i < |log| && log[i].Quit? ==>
      Open(log[..i]) == 0 && Undeleted(log[..i]) == 0 && Unacked(log[..i]) == 0
  }

  // ---------------------------------------------------------------- fetching each mail once

  ghost function EverResolved(log: seq<Event>): set<Uid> {
    if log == [] then {}
    else
      EverResolved(log[..|log| - 1]) + match log[|log| - 1] case Resolved(uid) => {uid} case _ => {}
  }

  /** The uids resolved and then seen on the server at the start of every later run. */
  ghost function Steady(log: seq<Event>): set<Uid> {
    if log == [] then {}
    else
      match log[|log| - 1]
      case Resolved(uid) => Steady(log[..|log| - 1]) + {uid}
      case FirstListing(box) => Steady(log[..|log| - 1]) * box
      case _ => Steady(log[..|log| - 1])
  }

  /** A mail left out of a want list was resolved before; a mail read had not been resolved and stayed. */
  ghost predicate FetchedOnce(log: seq<Event>) {
    forall i :: 0 <= i < |log| ==> OnceAt(log, i)
  }

  ghost predicate OnceAt(log: seq<Event>, i: nat)
    requires i < |log|
  {
    match log[i]
    case Wanted(box, want) => box - want <= EverResolved(log[..i])
    case Got(uid) => uid !in Steady(log[..i])
    case _ => true
  }

  lemma {:induction false} SteadyMeans(log: seq<Event>, uid: Uid)
    ensures uid in Steady(log) <==>
            exists i :: 0 <= i < |log| && log[i] == Resolved(uid) &&
                        forall k :: i < k < |log| && log[k].FirstListing? ==> uid in log[k].box
  {
    if log != [] {
      var n := |log| - 1;
      var init := log[..n];
      SteadyMeans(init, uid);
      if uid in Steady(log) {
        if log[n] == Resolved(uid) {
        } else {
          var i :| 0 <= i < |init| && init[i] == Resolved(uid) &&
                   forall k :: i < k < |init| && init[k].FirstListing? ==> uid in init[k].box;
          assert log[i] == Resolved(uid);
          forall k | i < k < |log| && log[k].FirstListing? ensures uid in log[k].box {
            if k < n {
              assert init[k] == log[k];
            }
          }
        }
      }
      if i :| 0 <= i < |log| && log[i] == Resolved(uid) && forall k :: i < k < |log| && log[k].FirstListing? ==> uid in log[k].box {
        if i < n {
          assert init[i] == Resolved(uid);
          assert forall k :: i < k < |init| ==> init[k] == log[k];
        }
      }
    }
  }

  /** In the log's own terms: between resolving a mail and reading it again, the server was once without it. */
  lemma FetchedOnceMeans(log: seq<Event>, i: nat, j: nat, uid: Uid)
    requires FetchedOnce(log) && i < j < |log| && log[i] == Resolved(uid) && log[j] == Got(uid)
    ensures exists k :: i < k < j && log[k].FirstListing? && uid !in log[k].box
  {
    var init := log[..j];
    assert OnceAt(log, j);
    assert init[i] == Resolved(uid);
    SteadyMeans(init, uid);
    var k :| i < k < |init| && init[k].FirstListing? && uid !in init[k].box;
    assert log[k] == init[k];
  }

  // ---------------------------------------------------------------- logs grow

  lemma CountsGrow(log: seq<Event>, e: Event)
    ensures Open(log + [e]) == Open(log) + (if e.Got? then 1 else if e.Dropped? || e.Kept? then -1 else 0)
    ensures Unacked(log + [e]) == Unacked(log) + (if e.Dele? then 1 else if e.Acked? then -1 else 0)
    ensures Undeleted(log + [e]) == Undeleted(log) + (if e.Dropped? then 1 else if e.Dele? then -1 else 0)
  {
    assert (log + [e])[..|log|] == log;
  }

  lemma SetsGrow(log: seq<Event>, e: Event)
    ensures EverResolved(log + [e]) == EverResolved(log) + (if e.Resolved? then {e.uid} else {})
    ensures Steady(log + [e]) == if e.Resolved? then Steady(log) + {e.uid}
                                 else if e.FirstListing? then Steady(log) * e.box else Steady(log)
  {
    assert (log + [e])[..|log|] == log;
  }

  lemma DelesGrow(log: seq<Event>, e: Event, boxes: seq<seq<Uid>>)
    requires DelesSafe(log, boxes)
    requires e.Dele? ==> e.session < |boxes| && Binds(boxes[e.session], Aux(e.uid, e.idx)) && Dropped(e.uid) in log
    requires e.Dropped? || e.Kept? ==> Got(e.uid) in log
    ensures DelesSafe(log + [e], boxes)
  {
    var more := log + [e];
    forall i | 0 <= i < |more| ensures Justified(more, i, boxes) {
      if i < |log| {
        assert Justified(log, i, boxes);
        assert more[i] == log[i];
        assert forall j :: 0 <= j < i ==> more[j] == log[j];
      } else {
        assert forall j :: 0 <= j < |log| ==> more[j] == log[j];
      }
    }
  }

  lemma DelesNewBox(log: seq<Event>, boxes: seq<seq<Uid>>, box: seq<Uid>)
    requires DelesSafe(log, boxes)
    ensures DelesSafe(log, boxes + [box])
  {
    forall i | 0 <= i < |log| ensures Justified(log, i, boxes + [box]) {
      assert Justified(log, i, boxes);
    }
  }

  lemma QuitsGrow(log: seq<Event>, e: Event)
    requires QuitsSafe(log)
    requires e.Quit? ==> Open(log) == 0 && Undeleted(log) == 0 && Unacked(log) == 0
    ensures QuitsSafe(log + [e])
  {
    var more := log + [e];
    forall i | 0 <= i < |more| && more[i].Quit?
      ensures Open(more[..i]) == 0 && Undeleted(more[..i]) == 0 && Unacked(more[..i]) == 0
    {
      assert more[..i] == log[..i];
      assert log[..|log|] == log;
    }
  }

  ghost predicate MayFollow(log: seq<Event>, e: Event) {
    && (e.Wanted? ==> e.box - e.want <= EverResolved(log))
    && (e.Got? ==> e.uid !in Steady(log))
  }

  lemma OnceGrows(log: seq<Event>, e: Event)
    requires FetchedOnce(log) && MayFollow(log, e)
    ensures FetchedOnce(log + [e])
  {
    var more := log + [e];
    forall i | 0 <= i < |more| ensures OnceAt(more, i) {
      assert more[..i] == log[..i];
      if i < |log| {
        assert OnceAt(log, i);
        assert more[i] == log[i];
      } else {
        assert log[..i] == log;
      }
    }
  }
}
