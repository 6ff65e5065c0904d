// A mail's own machine and the fetch loop's view of it: each step of the machine is one the loop allows.

module MailSteps {
  import opened Options
  import MS = MailState
  import Tokens
  import Loop = FetchLoop

  /** The loop sees of a mail only its number, and whether it waits. */
  function View<S(!new)>(mctx: MS.MailCtx<S>, serial: nat): Tokens.Mctx
    reads mctx
  {
    Tokens.Mctx(mctx.idx, mctx.msgid, serial)
  }

  function ViewMsg<S>(msg: Option<MS.Msg<S>>, serial: nat): Option<Tokens.ToChild> {
    if msg == None then None else Some(Tokens.Reply(Tokens.Token(msg.value.id, serial)))
  }

  function ViewCode(code: MS.Code, drop: bool, commits: bool): Loop.Code {
    match code
    case MailContinue => Loop.MailContinue
    case MailToDeliver => Loop.MailMoved
    case MailToMatch => Loop.MailMoved
    case MailError => Loop.MailError
    case MailBlocked => Loop.MailBlocked
    case MailDone => Loop.MailDone(drop, commits)
  }

  function Choose(code: MS.Code, drop: bool, commits: bool): Loop.Choice {
    match code
    case MailContinue => Loop.ChooseContinue
    case MailToDeliver => Loop.ChooseMove
    case MailToMatch => Loop.ChooseMove
    case MailError => Loop.ChooseError
    case MailBlocked => Loop.ChooseRequest
    case MailDone => Loop.ChooseDone(drop, commits)
  }

  /** A mail that now waits with a new request has the serial number of that request. */
  function Serial(before: nat, after: nat, serial: nat, next: nat): nat {
    if before == 0 && after != 0 then next else serial
  }

  /** One step of matching a mail is a step of the loop's mail with the same message. */
  method MatchOne<S(!new)>(mctx: MS.MailCtx<S>, msg: Option<MS.Msg<S>>, drop: bool, commits: bool,
                           ghost serial: nat, ghost next: nat, ghost sent: nat)
    returns (code: MS.Code)
    requires mctx.Valid() && mctx.dqueue == [] && mctx.Answers(msg)
    modifies mctx
    ensures var (loopCode, after) := Loop.MatchStep(old(View(mctx, serial)), ViewMsg(msg, sent), Choose(code, drop, commits), next);
            && loopCode == ViewCode(code, drop, commits)
            && (code != MS.MailError ==> after == View(mctx, Serial(old(mctx.msgid), mctx.msgid, serial, next)))
    ensures code in {MS.MailContinue, MS.MailToDeliver, MS.MailBlocked} ==> mctx.Valid() && mctx.Meaning() == old(mctx.Meaning())
  {
    hide mctx.Remaining, mctx.Meaning, mctx.Left;
    code := mctx.MailMatch(msg);
  }

  /** One step of delivering a mail is a step of the loop's mail with the same message. */
  method DeliverOne<S(!new)>(mctx: MS.MailCtx<S>, msg: Option<MS.Msg<S>>, ghost serial: nat, ghost next: nat, ghost sent: nat)
    returns (code: MS.Code)
    requires mctx.Valid() && mctx.expritem == [] && mctx.Answers(msg)
    modifies mctx
    ensures var (loopCode, after) := Loop.DeliverStep(old(View(mctx, serial)), ViewMsg(msg, sent), Choose(code, false, false), next);
            && loopCode == ViewCode(code, false, false)
            && (code != MS.MailError ==> after == View(mctx, Serial(old(mctx.msgid), mctx.msgid, serial, next)))
    ensures code != MS.MailError ==> mctx.Valid() && mctx.Meaning() == old(mctx.Meaning())
  {
    hide mctx.Remaining, mctx.Meaning, mctx.Left;
    code := mctx.MailDeliver(msg);
  }
}
