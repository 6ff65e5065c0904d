# Verification of fdm's state machines

fdm fetches mail (POP3, IMAP, mbox files), matches each mail against a tree of rules and delivers it (SMTP, mbox
files, rewriting of headers, commands run by other processes). It does so with explicit state machines, whose steps
are taken when data, decisions or replies happen to come. This project models those machines in Dafny and proves what
they keep and what whole runs of them do, for all inputs and all orders of events. Servers, the parent's children and
the socket are environments that may do anything their protocol allows: what is left open about them is a parameter
of each step, and the results hold for all values.

Each part pairs the imperative code with an independent specification:

- `Rules` is the obvious recursive reading of a rule tree; `MailState` is the resumable machine of mail-state.c with
  its explicit stack, delivery queue and counter of chained actions. Every step keeps the meaning of the mail as the
  evaluator gives it, and makes a measure smaller, so every mail reaches exactly the evaluator's outcome. `FetchMails`
  runs many such mails at once, with their requests answered in any order. `MailSteps` shows that the steps of a mail
  are those `FetchLoop` assumes. `RuleLaws` says what the evaluator comes to without naming it: the truth of an
  expression by the verdicts of its conditions, the deliveries of an action by its users and items, and what is left
  behind by a rule that matches or does not.
- `FetchLoop` has the fetch child, the parent, and the deliver children. Requests have only the number of their mail,
  which all requests of that mail share. In the model each also has a serial number that nothing looks at; it is what
  lets one state that a reply reaches its own request. `Next` and `Reached` are the system as functions of the events;
  the loops compute them, and what holds `InEveryState` is proved of them. `FetchLaws` says when the fetch method is
  asked, by the numbers of mails that were queued, and where each mail of a pass ends up.
- `SplayTree` is compat/tree.h on a linked heap. Its value is the sequence of nodes from left to right.
- `Pop3Log` says what makes the log of POP3 runs safe, and `Pop3` has the invariant and one lemma for each kind of step.
  `Pop3Steps` is the client as functions: of a state, a turn, a run, and any number of runs, with the theorems about
  them. `Pop3Client` has the state functions of pop3-common.c and the fetch loop around them, which compute these.
  `Pop3Decisions` ties what is dropped, kept and deleted to the decisions that come in, and `Pop3Story` what is fetched,
  saved and left to the mailboxes shown and the cache file there was.
- `Imap`, `ImapSteps`, `ImapLaws` and `ImapClient` do the same for one IMAP folder. `ImapLiteral` has the text of a mail in a literal.
- `Buffer` and `LineIo` have the growing byte buffer and CRLF framing; `LineStates` (in `LineIo.dfy`) any state that
  reads lines and may be left and entered in between; `DotCodec` and `MailTransfer` SMTP output read back by POP3.
- `Mbox` has the mbox writer and splitter, `CacheFile` and `CacheTrees` the POP3 cache file over the splay tree and the
  weeding of the cache, `Headers` the folding and removing of headers in place, and `Strb` the relocatable block of
  tags, on its bytes.

Where the code does not do what one might expect, the condition under which it does is part of the result, in both
directions:

- A mail sent as SMTP data and fetched again is the same iff it ends in a newline, has no NUL, no line over the limit
  and is not over the size limit before its last line (`DotCodec.RoundTrip`). Without a final newline the last byte is
  lost.
- Mails come back from an mbox iff no first line looks like a From line, because first lines are never quoted
  (`MboxFormat.FileBack`). A comment in fetch-mbox.c says that mails start at their From line; only the first does.
- A cache file loads as it was saved iff no id is empty or starts with a space (`CacheText.SavedLoads`).
- An IMAP literal is stored iff it is not oversize and its lines fit (`ImapLiteral.LiteralTaken`).
- A stop rule with nested rules ends everything before they are tried, because completion is tested first. The
  configuration grammar never makes one; the evaluator follows the code.
- When a mailbox is empty after a reconnect the POP3 client goes on without a listing, so its wants keep the numbers
  of the session before. The LIST that follows is refused and the run ends; no DELE is sent
  (`Pop3.EmptyMailboxKeeps`, `Pop3Client.Pop3Fetch.StateList`).

A byte of text is a `char`; only comparisons of bytes matter, and where a byte is part of a number (the offsets in the
block of tags) its value is used. Sizes and counters are unbounded except where fdm tests a limit itself: the line
length, the maximum size of a mail, the size of the block of tags, and the limits on queued mails and chained actions.

## Model

| member | source | states |
|---|---|---|
| Rules.ExpandStable | mail-state.c:343-363 | once an expansion fits a nesting depth it is the same at every greater depth, so entering lists a bounded number of times loses nothing |
| Rules.BoundedExact | mail-state.c:343-363 | the counter of chained actions accepts an expansion iff, at whatever depth, it enters fewer than the limit of lists, and then gives exactly that expansion |
| Rules.SelfReferenceNeverExpands | mail-state.c:343-363 | the shortest cycle: a list whose first name's first action has the same list as its first item has no expansion at any depth |
| Rules.LedToExpands | mail-state.c:343-468 | work that expands to some depth expands every list of names it leads to, by any name, action, user or item and through any other lists |
| Rules.CycleNeverExpands | mail-state.c:343-468 | a list of names that leads back to itself, directly or through any number of other lists, has no expansion at any depth |
| Rules.NothingBeforeCycle | mail-state.c:343-468 | whatever leads to such a list ends in the error under every limit: nothing of it is delivered, and it never loops |
| Rules.DeliveriesTagged | mail-state.c:411-468 | every delivery of a matching rule, however deeply it was named, carries the number of that rule |
| Rules.RulesInOrder | mail-state.c:231-246 | a list of rules does what its first part does, and then what the rest does to the outcome, and nothing of the rest once the first part has stopped or failed |
| Rules.StopEndsAll | mail-state.c:182-187 | when a stop rule matches, however deeply nested, the rules after it make no difference: the final mail, decision and trace are those at the stop |
| RuleLaws.ExprTruth | mail-state.c:123-166 | for conditions that leave the mail alone, by verdict or by the parent's answer: an expression is true iff some item not behind an and holds, and from it on every item is an or, or an and that holds; the mail is the same and only conditions have been tried |
| RuleLaws.JoinedTruth | mail-state.c:249-265 | items joined by and are true iff all hold, items joined by or iff one does, each inverted where asked |
| RuleLaws.Skips | mail-state.c:130-146 | whatever the conditions do, an and behind a false expression and an or behind a true one are not tried and change nothing |
| RuleLaws.Tries | mail-state.c:148-166 | any other item is tried on the mail the items before it left; an error ends the expression, and the verdict and the mail that come, at once or from the parent, are those it goes on with |
| RuleLaws.FalseRule | mail-state.c:174-180 | a rule whose expression is false is passed over: rules behind it see the same mail, and no delivery has been started |
| RuleLaws.UnmetRule | mail-state.c:130-146 | in particular a rule of conditions joined by and, one of which is not met |
| RuleLaws.TrueRule | mail-state.c:182-246 | a rule whose expression is true starts just its deliveries, in order and up to one that fails; the mail counts as matched, and rules behind are tried iff it does not stop and nothing failed |
| RuleLaws.NestedRule | mail-state.c:189-202 | a rule with nested rules whose expression is true is its nested rules, on the same mail |
| RuleLaws.StopBeforeNested | mail-state.c:182-202 | a stop rule with nested rules ends everything before they are tried |
| RuleLaws.RunInOrder | mail-state.c:269-314 | deliveries are started in order, all of them unless one fails, and none after it |
| RuleLaws.RunOnMails | mail-state.c:471-523 | each delivery is made of the mail the one before has left, under the number of its rule |
| RuleLaws.Decided | mail-state.c:99-121 | a mail no stop rule has matched is decided as configured and kept if nothing is; after a stop its decision stands |
| RuleLaws.MatchingActions | mail-state.c:365-409 | the actions found under a pattern are those whose names match, in their order |
| RuleLaws.ActionForUsers | mail-state.c:316-340 | an action of deliveries is carried out for each of its recipients in turn, item by item; these are the users of the rule, else of the action, else of the account, else the default user; it fails iff one of them is not known |
| RuleLaws.ExpandInOrder | mail-state.c:343-468 | deliveries are in the order of the names, actions, users and items they come from, and lists entered add up |
| RuleLaws.NamesAndLists | mail-state.c:343-409 | a name stands for all actions found under it, and fails if there are none; a list in an action stands for its names, and costs one |
| RuleLaws.OwnActionFirst | mail-state.c:205-229 | a rule's own action comes first and the named ones after it; each may enter four lists and not five |
| MailState.FoldIsEvalExpr | mail-state.c:130-172 | going through the items of an expression one by one with one running result is the left-associated expression with short circuits |
| MailState.EvalUpUnfold | mail-state.c:231-246 | going on with the next rule, or up the stack, is going on with the remaining rules of all lists that are open |
| MailState.EvalUpNested | mail-state.c:189-202 | entering nested rules with the stack means the nested rules first and then the rules after the one entered |
| MailState.FillUnfold | mail-state.c:365-468 | the expansion with a threaded counter, one action, user and item at a time, is the depth-first expansion: users outside, items inside, in order |
| MailState.FillSequence | mail-state.c:343-363 | expanding one part and then the next with the counter that is left is the expansion of both, or fails exactly when their lists together are too many |
| MailState.MailCtx.FillFromStrings | mail-state.c:343-363 | gains exactly the deliveries of the bounded expansion of the names; the counter goes down by one for each list entered, by the limit at most, and is never given back |
| MailState.MailCtx.FillFromString | mail-state.c:365-409 | gains the deliveries of every action that matches one name, with their users |
| MailState.MailCtx.FillFromAction | mail-state.c:411-468 | gains the deliveries of an action for each of its users |
| MailState.MailCtx.FillFromItems | mail-state.c:428-468 | gains the deliveries of each item of an action for one user, entering lists of names where an item is one |
| MailState.MailCtx.ApplyResult | mail-state.c:249-265 | the new running result is the verdict, inverted if asked; with and it is true iff the old one is true too, with or iff one of them is |
| MailState.MailCtx.NextRule | mail-state.c:231-246 | moving on, up the stack where needed, leaves the mail with the same outcome ahead and less to do |
| MailState.MailCtx.QueueDeliveries | mail-state.c:205-229 | the queue gains exactly the deliveries of the matching rule, or the expansion has failed |
| MailState.MailCtx.TryItem | mail-state.c:123-166 | one condition tried, skipped or handed to the parent leaves the outcome ahead unchanged |
| MailState.MailCtx.CheckItem | mail-state.c:149-166 | asking the condition of an item leaves the outcome ahead unchanged: by a verdict, by waiting for the parent, or by the failure the evaluator gives |
| MailState.MailCtx.TakeAnswer | mail-state.c:67-97 | the answer to the condition that was asked leads on with the outcome that was ahead while the mail waited |
| MailState.MailCtx.MailMatch | mail-state.c:56-247 | one step, from any state and with any message, keeps the outcome that the recursive evaluator gives from there; a waiting mail goes on iff the message has its number; each unblocked step makes a lexicographic measure smaller; done and error come with that outcome |
| MailState.MailCtx.StartAction | mail-state.c:471-523 | starting a delivery either runs it or leaves the mail waiting for it, with the same outcome ahead |
| MailState.MailCtx.FinishAction | mail-state.c:278-290 | the reply to the delivery that was asked for leads on with the outcome that was ahead while the mail waited |
| MailState.MailCtx.DropDelivery | mail-state.c:305-313 | a delivery that is over leaves the queue, with what followed it ahead, and the measure is smaller |
| MailState.MailCtx.MailDeliver | mail-state.c:269-314 | one delivery step keeps the outcome ahead; a waiting mail goes on iff the message has its number; each unblocked step makes the measure smaller |
| MailState.PollIdle | child-fetch.c:181-259 | polls that bring nothing for a waiting mail change nothing in it, on either queue |
| MailState.RunMail | mail-state.c:56-314 | stepped to the end with any waits in between, a mail reaches an outcome, and it is the recursive evaluator's, which RuleLaws gives in terms of verdicts: the same conditions tried and deliveries started in the same order with the same mail, the same matched flag and the same decision or failure |
| MailSteps.MatchOne | mail-state.c:56-247 | each step of a mail's own machine is a step that the fetch loop's view of mails allows, with the same message and request number, so what is proved of the loop holds of these mails |
| MailSteps.DeliverOne | mail-state.c:269-314 | the same for delivery steps |
| FetchMails.TryMail | child-fetch.c:181-259 | one real mail tried with a message: it takes the message only under its own number, asks with the request its state gives, and gets on or fails as the evaluator says |
| FetchMails.PairedAfter | mail-state.c:500-522 | whatever one mail does, every waiting mail but the one the message is for has its own request outstanding, and no other request is |
| FetchMails.TryQueue | child-fetch.c:181-259 | a pass over a queue keeps every mail on its way to its outcome; mails that can go on, or are answered, get on |
| FetchMails.TakeTurn | child-fetch.c:383-401 | a turn, with the answer to any one request or none, keeps all that; no mail falls back, and after both passes no answer is left over |
| FetchMails.FetchMails | child-fetch.c:342-516 | any number of mails handled at once, their requests answered from what was asked, in any order and with any others answered first: every mail ends with the outcome of the recursive evaluator, and the fetch is given up iff the evaluator says that some mail fails |
| Keys.CmpSwap | pop3-common.c:100-104 | the order of the keys is antisymmetric, and equal only for equal ids |
| Keys.LessTransitive | pop3-common.c:100-104 | the order of the keys is transitive |
| Keys.LessMeans | pop3-common.c:100-104 | a key is less than another iff its first byte that differs is less, or it ends where the other goes on |
| SplayTree.StopsBetween | compat/tree.h:212-234 | where the splay loop stops, everything set aside and left of the root is below the key and everything right of it above |
| SplayTree.RotationKeepsOrder | compat/tree.h:82-92 | a rotation keeps the nodes in their order from left to right |
| SplayTree.LinkLeftKeepsOrder | compat/tree.h:94-98 | moving the root to the right-hand part keeps all nodes in their order |
| SplayTree.LinkRightKeepsOrder | compat/tree.h:100-104 | moving the root to the left-hand part keeps all nodes in their order |
| SplayTree.AssembledOrder | compat/tree.h:106-111 | reassembling the three parts gives the nodes of all three in order |
| SplayTree.RootHasKey | compat/tree.h:203-236 | after splaying the key is at the root iff it is in the tree |
| SplayTree.Splay.RotateRight | compat/tree.h:82-86 | the links are those of the rotated tree; RotationKeepsOrder says that this keeps the order |
| SplayTree.Splay.RotateLeft | compat/tree.h:88-92 | the links are those of the rotated tree; RotationKeepsOrder says that this keeps the order |
| SplayTree.Splay.LinkLeft | compat/tree.h:94-98 | the root joins the right-hand part and its left child becomes the root; LinkLeftKeepsOrder says that this keeps the order |
| SplayTree.Splay.LinkRight | compat/tree.h:100-104 | the root joins the left-hand part and its right child becomes the root; LinkRightKeepsOrder says that this keeps the order |
| SplayTree.Splay.Assemble | compat/tree.h:106-111 | the parts become one linked tree with all nodes in order |
| SplayTree.Splay.Search | compat/tree.h:212-234 | the loop ends, and then no node set aside or beside the root is on the wrong side of the key |
| SplayTree.Splay.Splay | compat/tree.h:203-236 | keeps the nodes and their order, is a valid tree, and has the key at the root iff the key is in it |
| SplayTree.Splay.Find | compat/tree.h:122-131 | gives the node with the key iff there is one, and keeps the sorted set |
| SplayTree.Splay.Insert | compat/tree.h:158-180 | adds the node iff its key was absent; else gives the node there and keeps the set |
| SplayTree.Splay.Remove | compat/tree.h:182-201 | removes exactly the node with the key, and says whether there was one |
| SplayTree.Splay.DropRoot | compat/tree.h:189-198 | taking the root out by splaying what is left of it loses no other node, because the second splay leaves an empty right subtree |
| SplayTree.Splay.Min | compat/tree.h:241-272 | gives the node with the least key, or none, and keeps the order |
| SplayTree.Splay.NextAfter | compat/tree.h:133-145 | gives the node with the next key, or none, and keeps the order |
| SplayTree.Splay.Foreach | compat/tree.h:286-289 | visits every node exactly once, in ascending order of keys |
| FetchLoop.TakesOwn | mail-state.c:67-71 | the one mail that takes a reply is the mail whose request it answers, although the number on the reply is used for all requests of that mail |
| FetchLoop.SeeKeeps | child-fetch.c:181-259 | whatever one mail does when it is tried, each waiting mail still has exactly one token among requests, children, replies and the message in hand |
| FetchLoop.MatchPassFails | child-fetch.c:192-219 | whether a pass fails does not depend on the order of the queue: it does iff one of its mails does |
| FetchLoop.DeliverPassFails | child-fetch.c:236-256 | the same for the delivery queue |
| FetchLoop.MatchPassKeeps | child-fetch.c:181-222 | by induction over the queue: tokens balanced, numbers unique, counts those of the pass, and each reply taken by its own request |
| FetchLoop.DeliverPassKeeps | child-fetch.c:224-259 | the same for the delivery queue, which no mail leaves by being done |
| FetchLoop.FetchMatch | child-fetch.c:181-222 | a pass over the match queue computes MatchPass; it fails iff some mail on the queue that does not wait in vain errs or cannot be committed; otherwise one token for each waiting mail is kept, counts are exact, and blocked is the number of waiting mails |
| FetchLoop.FetchDeliver | child-fetch.c:224-259 | a pass over the delivery queue computes DeliverPass and fails iff some mail on the queue that does not wait in vain errs; otherwise the same is kept, and after both passes a reply has been taken, once, by its own request |
| FetchLoop.OneToken | mail-state.c:500-522 | in every reachable state a mail's request number is non-zero iff exactly one token with its number is on its way, at a deliver child or on its way back, and there is never a second |
| FetchLoop.NothingOutstanding | child-fetch.c:454-456 | with no mail queued nothing is on its way anywhere |
| FetchLoop.SomethingUnderWay | child-fetch.c:460-473 | when a mail waits there is a request, child or reply under way, so the loop does not sleep for ever |
| FetchLoop.BlockedAll | child-fetch.c:460-473 | as many mails are blocked as are queued iff every one of them waits |
| FetchLoop.EnqueuedValid | child-fetch.c:632-656 | a new mail gets a number no other has and waits for nothing; counts stay exact |
| FetchLoop.TryMails | child-fetch.c:383-401 | computes MailsTried: the message that has come leaves the queue, all mails are tried with it, and if it is a reply it is used up |
| FetchLoop.MailsTriedKeeps | child-fetch.c:383-401 | trying the mails fails iff a mail being matched fails, or after that pass a mail being delivered does; otherwise all is kept |
| FetchLoop.AskingKeeps | child-fetch.c:403-473 | the second half of a turn keeps all, may sleep only if something can wake it, queues one mail at most and only with room, and aborts iff the fetch method is asked and fails |
| FetchLoop.AskingDoes | child-fetch.c:403-475 | the loop holds back iff as many mails as the limit are queued, or it did and not few enough are; if it does not and the fetch is not complete the fetch method is asked and its answer has its effect: a mail more queued under the next number, the end of fetching, another turn, a poll, or an abort; else nothing is queued, and the fetch is left iff it is complete and no mail is queued |
| FetchLoop.AskFetch | child-fetch.c:403-473 | computes the second half of a turn: hysteresis, the fetch method's answer, leaving, and the timeout |
| FetchLoop.Round | child-fetch.c:373-482 | one turn computes TurnStep and keeps all this and queued at most the limit; it aborts iff a mail fails, or the fetch method is asked and fails; it is asked iff the fetch is not complete and, by the number queued when the mails have been tried, the loop does not hold back, and then its answer has its effect; a poll may sleep iff all queued mails wait, or none is queued and there are sockets; a reply that has come is read and used up in the same turn |
| FetchLoop.ParentFetch | parent-fetch.c:38-90 | a request becomes one child, or one reply if it fails at once, under the number of the request; the exit message is answered |
| FetchLoop.JobDone | parent-deliver.c:32-70 | a child that is done becomes one reply, under the number of the request it was started for |
| FetchLoop.ParentDeliver | parent-deliver.c:32-70 | as any child is done its token moves to the replies, and no other token moves |
| FetchLoop.ReadLast | child-fetch.c:125-134 | after a normal end the first message read is the answer to the exit message, and nothing is left behind it |
| FetchLoop.NextKeeps | fdm.c:785-801 | every event of the child, the parent or a deliver child keeps the system valid |
| FetchLoop.ReachedValid | fdm.c:785-801 | every state that any events lead to from the start is valid |
| FetchLoop.InEveryState | child-fetch.c:342-516 | in every reachable state: a mail's number is set iff exactly one token under it is on its way round; queued mails, dropped and kept make up those enqueued, and queued is at most the limit; every reply read was taken once by the request it answers; after a normal end nothing is left anywhere |
| FetchLoop.Run | child-fetch.c:342-516 | the loop over events computes the state Reached by the events, whatever they are and in whatever order |
| FetchLaws.HoldsBack | child-fetch.c:405-409 | in any run the loop holds back iff one of the numbers of mails queued in its turns was too high and none since was low enough |
| FetchLaws.AskedWhen | child-fetch.c:403-448 | in any run, when the mails have been tried: with as many queued as the limit the fetch method is not asked; with few enough it is, unless the fetch is complete; in between as the last number outside decided; and its answer has its effect |
| FetchLaws.GoesOn | child-fetch.c:403-456 | with no mail queued the loop is never stuck: it takes the next mail iff the limit is not zero, which the configuration grammar refuses, and leaves iff the fetch is complete |
| FetchLaws.MailsMatched | child-fetch.c:181-222 | a pass over the match queue, mail by mail: one that waits for another message stays as it is, one that is answered goes on, one that asks has its request sent under its number, one that is to be delivered moves behind those that are, one that is done is gone; and just those done are counted, as dropped if so decided and not all are to be kept, else as kept |
| FetchLaws.MailsDelivered | child-fetch.c:224-259 | the same for the delivery queue, where no mail is done and one that has nothing left to deliver moves behind those being matched |
| Pop3Log.SteadyMeans | pop3-common.c:620-659 | a uid counts as still resolved iff it was resolved at some time and was on the server at the start of every run since |
| Pop3Log.FetchedOnceMeans | pop3-common.c:288-311 | a mail that was resolved and is read again was missing from the server in between |
| Pop3.NumbersMeans | pop3-common.c:530-593 | the server tree binds a uid to a number iff the listing of this session does |
| Pop3.RenumberMeans | pop3-common.c:695-718 | after a reconnect the wants are exactly those still on the server, with the numbers of the new session, and no uid twice |
| Pop3.RenumberInOrder | pop3-common.c:695-718 | and they stay in their old order |
| Pop3.WantListFacts | pop3-common.c:641-683 | the first want list is the selected uids of the mailbox, each with its number |
| Pop3.Noting | pop3-common.c:732-811 | what each logged action does to the counts and sets by which a log is judged safe |
| Pop3.QuitKeeps | pop3-common.c:742-783 | saying goodbye with nothing in flight, nothing to delete and nothing unacknowledged is safe and keeps the invariant |
| Pop3.EmptyMailboxKeeps | pop3-common.c:470-483 | a mailbox found empty after a reconnect keeps the invariant although the wants keep numbers of the session before |
| Pop3.WantingKeeps | pop3-common.c:620-694 | building the first want list keeps the invariant, total included, and leaves out only resolved mails |
| Pop3.RewantingKeeps | pop3-common.c:695-718 | renumbering after a reconnect keeps the invariant and the count of mails |
| Pop3.DeleSentKeeps | pop3-common.c:732-740 | a DELE goes out under the number this session's listing gives to the uid of a mail decided DROP |
| Pop3.AcknowledgedKeeps | pop3-common.c:797-823 | an acknowledged DELE moves one mail from the drop queue to the committed ones |
| Pop3.ResolveKeeps | pop3-common.c:288-311 | a resolved mail joins the cache, and the file afterwards still holds all that must not be fetched again and nothing never resolved |
| Pop3.HandedOverKeeps | pop3-common.c:948-952 | a mail read to its end leaves the want queue and is the fetch loop's, under the uid and number of this session |
| Pop3.DropKeeps | child-fetch.c:669-698 | a DROP decision moves the mail to the drop queue with its number |
| Pop3.KeptKeeps | child-fetch.c:669-698 | a KEEP decision resolves the mail |
| Pop3Client.Pop3Fetch.StateConnect | pop3-common.c:357-367 | a connection opens a new session with its own mailbox; anything else is kept |
| Pop3Client.Pop3Fetch.StateFirst | pop3-common.c:450-505 | decides between the listing, going on with an empty mailbox, and leaving, and keeps the invariant |
| Pop3Client.Pop3Fetch.StateCache2 | pop3-common.c:529-593 | takes listing lines into the server tree, refusing bad, repeated or misnumbered ones, and keeps the invariant |
| Pop3Client.Pop3Fetch.InsertByNumber | pop3-common.c:669-680 | puts a mail in its place in a want queue kept in strictly ascending number |
| Pop3Client.Pop3Fetch.BuildWants | pop3-common.c:641-683 | the first want queue is exactly the selected server mails in strictly ascending message number |
| Pop3Client.Pop3Fetch.WeedCache | pop3-common.c:626-639 | on sets, as the client's data has them: what is left of the cache is exactly the loaded uids that are on the server (CacheTrees.WeedCache does it on the trees) |
| Pop3Client.Pop3Fetch.RenumberWants | pop3-common.c:695-718 | the loop that renumbers in place computes the renumbered queue |
| Pop3Client.Pop3Fetch.StateCache3 | pop3-common.c:596-722 | loads the cache at most once, builds or renumbers the want queue, and keeps the invariant |
| Pop3Client.Pop3Fetch.StateNext | pop3-common.c:725-794 | which of deleting, waiting, leaving, reconnecting and listing is done, with its exact new state; leaving and reconnecting only with nothing open |
| Pop3Client.Pop3Fetch.StateDelete | pop3-common.c:797-829 | an acknowledged DELE resolves exactly the first mail of the drop queue; a refused one ends the run |
| Pop3Client.Pop3Fetch.Commit | pop3-common.c:287-311 | a kept or deleted mail joins the cache, which is saved, or the run ends |
| Pop3Client.Pop3Fetch.StateReconnect | pop3-common.c:832-849 | back to connecting with nothing in flight |
| Pop3Client.Pop3Fetch.StateList | pop3-common.c:852-877 | goes on to RETR only if this session's mailbox binds the number to the uid wanted |
| Pop3Client.Pop3Fetch.StateRetr | pop3-common.c:880-914 | goes on to the text of the mail, or ends |
| Pop3Client.Pop3Fetch.StateLine | pop3-common.c:917-953 | reads the text to its end, however many lines have come, and then hands the mail over |
| Pop3Client.Pop3Fetch.StateQuit | pop3-common.c:956-970 | the end of a run |
| Pop3Client.Pop3Fetch.Enqueue | child-fetch.c:523-580 | a mail read is queued, or dropped at once if oversize and that is allowed; else the run ends |
| Pop3Client.Pop3Fetch.Dequeue | child-fetch.c:669-698 | a mail decided DROP goes to the end of the drop queue and nothing is resolved; one decided KEEP leaves the drop queue alone, is counted committed and joins the cache; nothing else changes |
| Pop3Steps.WantsAre | pop3-common.c:641-683 | the selected mails of the mailbox in order are a want list |
| Pop3Steps.WantsOnly | pop3-common.c:641-683 | there is no other want list: insertion by number from a tree in order of uids gives just the mailbox order |
| Pop3Steps.Cache2StepKeeps | pop3-common.c:529-593 | any number of listing lines keeps the run valid, and ends in acceptance iff all uids are valid and none is repeated |
| Pop3Steps.Cache3StepKeeps | pop3-common.c:596-722 | building or renumbering the want queue, and perhaps leaving at once, keeps the run valid |
| Pop3Steps.NextStepKeeps | pop3-common.c:725-794 | whatever the idle state does keeps the run valid and only adds to the log |
| Pop3Steps.DeleteStepKeeps | pop3-common.c:797-829 | an acknowledged DELE resolved and saved keeps the run valid, and a failure to save leaves it settled |
| Pop3Steps.LineStepKeeps | pop3-common.c:917-953 | any number of text lines keeps the run valid; at the dot the mail just read is handed over |
| Pop3Steps.StateStepKeeps | pop3-common.c:340-970 | whatever state function is called, and whatever has come, the run stays valid or ends settled, and the log only grows |
| Pop3Steps.TurnStepKeeps | child-fetch.c:373-482 | so does a turn of the fetch loop with any decisions, purges and mails |
| Pop3Steps.RanKeeps | child-fetch.c:342-516 | after any turns a run is valid, or has ended and left things settled |
| Pop3Steps.AtAnyMoment | pop3-common.c:641-823 | after any turns of a run that goes on: total = wanted + in flight + to be deleted + committed; the cache is the loaded uids that were on the server and those resolved; it was loaded at most once; as many mails are in flight as the log has open |
| Pop3Steps.RunsSafe | pop3-common.c:287-970 | over any number of runs, each starting with the file and history of those before: every log is safe for DELE and QUIT with respect to the decisions noted in it, which are those that came (Pop3Story.RunsFollow), and with new-only each mail is read once and left out only if resolved |
| Pop3Decisions.DequeueMeans | pop3-common.c:287-311 | a decision to DROP puts the mail at the end of the drop queue and changes neither cache, file nor count; one to KEEP counts it, puts it into the cache and saves that if there is a file for it, or ends the run if it cannot be saved, and leaves the drop queue alone |
| Pop3Decisions.LineSized | pop3-common.c:925-946 | although counting stops at the limit, a mail is found too big iff its whole text, with the newlines it is stored with, is over the limit |
| Pop3Decisions.TurnLogs | child-fetch.c:373-482 | a turn drops and keeps just the mails that a decision of that turn is about while they are in flight, and drops the mail just read iff it is too big and such mails are deleted |
| Pop3Decisions.RunDecided | child-fetch.c:669-698 | so does any run: mails are dropped, and kept, exactly as the decisions of its turns say |
| Pop3Decisions.DeletesOnlyDecided | pop3-common.c:732-740 | in any run from the start, a DELE is sent only for a mail that a decision to DROP came for while it was in flight, or that was too big and to be deleted for that |
| Pop3Story.OrderKept | pop3-common.c:695-718 | what has been read and what is wanted stay in the order of the first mailbox when vanished mails are taken out |
| Pop3Story.IdleMeans | pop3-common.c:725-794 | the idle client deletes the first mail to be deleted; else, with nothing wanted, it leaves iff no mail is in flight; else, when a purge is due, it fetches nothing and reconnects iff no mail is in flight; else it asks for the first mail wanted |
| Pop3Story.ListingAccepted | pop3-common.c:553-589 | a listing is accepted iff all uids have one to seventy of the characters from ! to ~ and no two are equal |
| Pop3Story.FailsFor | pop3-common.c:340-970 | a turn ends a run in error only if a line that is read refuses what was asked, the listing is not valid, the server cannot be reached, the cache cannot be loaded or saved, or the mail just read is empty, or too big and not to be deleted |
| Pop3Story.RunStory | pop3-common.c:596-970 | any run: the mails wanted are all in the mailbox first listed, those not in the cache file, or those in it, as asked; they are read in mailbox order; the file is left alone until a mail is resolved and then has what of it was on the server and all resolved; unless it ends in error all kept and deleted are saved, if anything is; when it is over each mail wanted has been kept or deleted or was gone from a later mailbox; and a poll reads nothing |
| Pop3Story.RunsFollow | pop3-common.c:287-970 | over any number of runs, each from the file the one before left, every run drops, keeps and deletes only as its own decisions say, and reads what is asked for in order |
| Pop3Client.Pop3Fetch.Step | pop3-common.c:340-970 | calling the current state function does just what its specification does |
| Pop3Client.Pop3Fetch.Decide | child-fetch.c:668-698 | decisions are handed back one by one to Dequeue, those about mails not in flight to nobody |
| Pop3Client.Pop3Fetch.TakeTurn | child-fetch.c:373-482 | a turn of the loop does just what its specification does |
| Pop3Client.Pop3Fetch.FetchAccount | child-fetch.c:342-516 | the loop over any turns ends in the state Ran gives for them; its log is safe and its cache file fits the history |
| Pop3Client.FetchRuns | pop3-common.c:287-970 | the logs and mailboxes are those of RanAll for these runs: in each, a DELE is sent only for a mail that a decision to DROP came for while it was in flight, or that is too big and to be deleted for that, in the session whose UIDL bound its number to its uid; each mail is dropped or kept iff so decided; the mails wanted are those asked for and are read in mailbox order; with new-only each mail is read once |
| Buffers.Buffer.Ensure | buffer.c:59-81 | makes room by moving or doubling and keeps the contents byte for byte |
| Buffers.Buffer.Add | buffer.c:83-93 | the contents gain exactly the bytes that were put behind them |
| Buffers.Buffer.Remove | buffer.c:107-117 | the contents lose exactly the first bytes |
| Buffers.Buffer.Write | buffer.c:164-173 | the contents gain the data at their end, through any moving and growing |
| Buffers.Buffer.Read | buffer.c:176-186 | the data read and the contents left are the contents before |
| Framing.LineRead | io.c:520-606 | a line without CRLF in it, sent with CRLF, is read back exactly if it fits the maximum with its CRLF, and never otherwise |
| Framing.MoreData | io.c:520-606 | a line that can be read, or the error of one too long, is the same whatever data comes behind |
| LineStates.TakeMore | io.c:520-606 | reading all lines that have come, and later the rest, is reading all at once |
| LineStates.AnyPieces | io.c:520-606 | what a line-by-line state makes of a stream does not depend on how the stream is cut |
| LineIo.Io.Fill | io.c:310-381 | all data that comes is behind what was there, through any number of reads that fit |
| LineIo.Io.FindEol | io.c:540-560 | the search that jumps from CR to CR finds the first CRLF of the window, or that there is none |
| LineIo.Io.ReadLine | io.c:520-606 | the loop over the buffer gives the first line and leaves the rest, or gives nothing and leaves everything; a line too long makes the connection bad for good; a closed stream gives its last data |
| LineIo.Io.Write | io.c:501-514 | everything written so far gains the data, whatever part the socket has taken |
| LineIo.Io.WriteLine | io.c:642-667 | everything written so far gains the line and CRLF; an empty text, for which the code has a fatal error, is excluded |
| LineIo.Io.Update | io.c:728-735 | what the socket takes stays part of what has been written, in order |
| MailText.LinesMakeMail | mail.c:151-182 | the lines iterated over make up the mail, each but the last ends in the one newline it has |
| MailText.OnlyLines | mail.c:151-182 | there is no other way to cut a text so: the lines of joined lines are those lines |
| MailText.LineLength | mail.c:151-182 | the search for a newline gives the length of the line at a position |
| MailText.KeptAll | pop3-common.c:939-946 | all of a mail is stored iff it is not too big before its last line, and else strictly less |
| DotCodec.NotTheEnd | deliver-smtp.c:161-177 | no line of a mail is sent as the line that ends the data |
| DotCodec.TakenBack | pop3-common.c:925-946 | a line stuffed and sent is stored as the line it was iff it fits, whatever follows it |
| DotCodec.LinesTakenBack | pop3-common.c:925-946 | all lines sent and the final dot are stored as the lines they were, up to the size limit, and nothing after the dot is read |
| DotCodec.LongLineStops | io.c:565-585 | a mail with a line that does not fit is never completed |
| DotCodec.ShownMakesMail | deliver-smtp.c:161-177 | what is stored of a mail is the mail if it ends in a newline; else it lacks the last byte and has a newline instead |
| DotCodec.NeverNul | pop3-common.c:939-942 | no NUL is ever stored |
| DotCodec.RoundTrip | deliver-smtp.c:161-177 | a mail sent as SMTP data and read by the POP3 line state in any pieces is complete and identical iff it ends in a newline, is free of NULs, has only lines that fit and is not too big before its last line; bytes after it are left |
| DotCodec.NoNewlineLost | deliver-smtp.c:161-177 | the failing case: mails of one byte without a newline are all sent alike and none comes back |
| MailTransfer.SendData | deliver-smtp.c:158-177 | the loop over the mail writes exactly the stuffed data, whatever the socket takes meanwhile |
| MailTransfer.StateLine | pop3-common.c:925-953 | the line state takes all lines that have come, and stops just where the specification of it does |
| MailTransfer.FetchMail | pop3-common.c:925-953 | left and entered again between any pieces, it stores what the specification stores |
| ImapLiteral.UnixLine | imap-common.c:840-846 | turning CRLFs to newlines goes line by line |
| ImapLiteral.EndTaken | imap-common.c:849-866 | the line the literal ends on gives just the bytes still missing, and what follows on it is no mail |
| ImapLiteral.RestTaken | imap-common.c:815-869 | from any point inside the literal exactly the rest of it is stored |
| ImapLiteral.LiteralTaken | imap-common.c:761-869 | in any pieces, a literal is stored with each CRLF as a newline, with or without one at its end, and nothing behind its line is read, iff it is not too big and its lines fit |
| ImapLiteral.StateLine | imap-common.c:815-869 | the loop of the line state is its specification, and can be left and entered again between lines |
| MboxFormat.QuoteBack | deliver-mbox.c:166-177 | quoting is undone by unquoting, for lines with any number of marks, and a quoted line is never a From line |
| MboxFormat.FileText | deliver-mbox.c:161-207 | what is written for any list of mails falls into just the lines it was written from |
| MboxFormat.QuotedTaken | fetch-mbox.c:452-491 | quoted lines are stored as the lines they were, up to the next From line |
| MboxFormat.HeadBack | fetch-mbox.c:400-507 | one mail comes back as it should iff its first line is not like a From line and it is not too big |
| MboxFormat.MailsBack | fetch-mbox.c:400-507 | a file of mails is split into exactly the mails written iff all are such mails |
| MboxFormat.FileBack | fetch-mbox.c:400-507 | splitting an mbox written from any non-empty mails gives them back, each without one last newline if it had one and the first behind its envelope line, iff no first line is like a From line and none is too big |
| MboxFormat.FromLost | deliver-mbox.c:163-178 | the failing case: a mail that starts with From x, or with the same behind a mark, does not come back |
| MboxFile.IsQuoted | deliver-mbox.c:166-173 | skipping marks finds out whether a line is like a From line |
| MboxFile.Mbox.Deliver | deliver-mbox.c:154-191 | the loop over the mail writes envelope line, quoted lines and an empty line at the end of the file |
| MboxFile.StoreLine | fetch-mbox.c:472-491 | a line loses the mark it got, and is stored unless the mail is too big |
| MboxFile.Mbox.CollectLines | fetch-mbox.c:432-492 | the loop takes the lines up to the next From line and passes it |
| MboxFile.Mbox.StateMail | fetch-mbox.c:400-507 | gives the next mail, its place in the file and its size, with the blank line removed, and leaves the offset behind the From line |
| MboxFile.Mbox.FetchAll | fetch-mbox.c:400-507 | called until the end of the file it gives all mails of the splitter's specification |
| MboxFile.DeliverAndFetch | deliver-mbox.c:154-191 | mails delivered to a new mbox and fetched from it are as expected iff all are good |
| CacheText.ValueOfDecimal | pop3-common.c:251-255 | a length printed in decimal is read as that length |
| CacheText.ReadNumber | pop3-common.c:191-199 | after the number all space is skipped, and then just so many bytes are the id |
| CacheText.EntryBack | pop3-common.c:191-199 | an entry is read back as it was written, even if the id starts with digits, iff the id is not empty and starts with no space |
| CacheText.SavedLoads | pop3-common.c:191-209 | a saved cache loads completely and as it was iff all ids are of that kind |
| CacheText.CutShort | pop3-common.c:191-209 | a saved file cut short loads just the ids whose entries are whole, and is found bad unless it ends with an entry or lacks only the newline behind one |
| CacheText.SpaceLost | pop3-common.c:191-199 | the failing case: an id that starts with a space does not come back |
| CacheText.UniqueIdsSavable | pop3-common.c:559-568 | every id of the characters 0x21 to 0x7e is of that kind |
| CacheFile.Save | pop3-common.c:250-256 | writes an entry for each id of the tree, in order |
| CacheFile.ScanEntry | pop3-common.c:191-200 | the scan for a number, space and bytes is the specification of an entry |
| CacheFile.Load | pop3-common.c:190-209 | puts into the tree exactly the ids of the entries up to a bad one, and says whether the end was reached |
| CacheFile.SaveAndLoad | pop3-common.c:166-284 | a tree of savable ids, saved and loaded into a new tree, gives the same set |
| CacheTrees.SortedSame | compat/tree.h:286-289 | nodes have one order by key, so a tree's order is known from its nodes |
| CacheTrees.WeedOne | pop3-common.c:626-639 | one turn of the weeding loop on the live trees: the walk has passed the node before it is removed, and goes on with the one behind it |
| CacheTrees.WeedCache | pop3-common.c:626-639 | walking the cache tree with MIN and NEXT while nodes are removed from it, and splaying the server tree for each, leaves in the cache exactly the nodes whose uids are on the server |
| CacheTrees.LoadAndWeed | pop3-common.c:621-639 | loading a file into a new tree and weeding it gives exactly the uids of the file that are on the server |
| CacheTrees.SavedThenWeeded | pop3-common.c:166-284 | a cache saved by one run is for the next the same set, as far as it is on the server |
| HeaderText.FoundBody | mail.c:367-386 | where a body is found, it starts behind an empty line and no line before that is empty |
| HeaderText.BodyIs | mail.c:367-386 | and there is no other such place |
| HeaderText.HeadersAre | mail.c:559-595 | the header area falls into headers, each ended by a newline, with a blank behind every newline inside |
| HeaderText.ScanHeaders | mail.c:559-595 | the newlines followed by a blank are exactly the folds of the headers |
| HeaderText.Refold | mail.c:597-608 | spaces at the folds unfold all headers and newlines there restore every byte |
| HeaderText.FoldsFixed | deliver-remove-header.c:76-88 | after a header is removed the corrected array is exactly the folds of the headers left |
| HeaderText.OnlyHeaders | mail.c:559-595 | there is one way to take a text as headers |
| HeaderText.HitMeans | mail.c:317-325 | a header is taken for a match iff its name does: what is in front of its first colon, folds read as spaces, up to a NUL |
| HeaderText.RemovedMeans | deliver-remove-header.c:66-88 | what is left of a mail is its headers whose names do not match, in their order, and all from the empty line on |
| HeaderText.OneRemoved | deliver-remove-header.c:66-88 | any one header with a name is left iff its name does not match, and one without a colon always, with the others left before and behind it |
| MailHeaders.Mail.FillWrapped | mail.c:559-595 | lists exactly the newlines before the body that a blank follows |
| MailHeaders.Mail.SetWrapped | mail.c:597-608 | changes the bytes at the folds and no other |
| MailHeaders.Mail.MatchHeader | mail.c:311-343 | gives a header whose name matches, with all its folded lines, iff there is one before the body |
| MailHeaders.Mail.FixWrapped | deliver-remove-header.c:76-88 | the loop that edits the array in place drops the positions in the removed piece and moves those behind it |
| MailHeaders.Mail.RemoveOne | deliver-remove-header.c:66-88 | removing one header keeps text, body offset and fold array exact for the headers left |
| MailHeaders.Mail.RemoveHeader | deliver-remove-header.c:36-94 | the result is the original with each whole folded header whose name matches cut out, and a mail without an empty line is left as it is; every other byte is as it was, the fold array exact and the body where find_body finds it |
| StrbBytes.NumberBack | strb.c:127-139 | an offset stored in eight bytes is read back |
| StrbBytes.AllKept | strb.c:94-105 | strings kept in place and a table moved elsewhere hold the same tags |
| StrbBytes.PutThenLookup | strb.c:107-139 | a key has the value put last and all others keep theirs |
| StrbBytes.AddsRefineMap | strb.c:81-140 | after any adds every key has the value last added for it, and there is one entry for each distinct key |
| Strb.Strb.Clear | strb.c:37-50 | an empty block of the first size |
| Strb.Strb.Reserve | strb.c:93-105 | works iff some doubling of the string area holds the strings without doubling a block larger than half the largest size; then the table is moved and all tags are kept |
| Strb.HalfIsEnough | strb.c:93-98 | strings that with the table take up no more than half the largest size can always be made room for |
| Strb.Strb.MoveTable | strb.c:99-105 | the table behind the larger string area, and the area between cleared, hold the same tags |
| Strb.Strb.AddNew | strb.c:122-139 | key and value go behind the strings and an entry behind the table: the tags gain exactly that one |
| Strb.Strb.Change | strb.c:132-139 | the entry of a key points to its new value and no other tag changes |
| Strb.Strb.Add | strb.c:81-140 | works iff the block can hold the strings so; then the tags are those before with the value put for the key, through every doubling |
| Strb.Strb.Address | strb.c:142-154 | comparing byte by byte finds the entry of the key, if there is one |
| Strb.Strb.Find | strb.c:156-167 | gives the value of the key, or none |
| Strb.Strb.Receive | strb.c:37-50 | a byte copy of the block holds the same tags |
| Strb.AddAndSend | strb.c:81-167 | with at most 64 distinct keys and any number of adds that take up less than half the largest size it always works, and every key looked up in a copy of the block has the value last added |
| ImapLog.SafeMeans | imap-common.c:690-757 | in a safe log a flag is asked for only after the decision for it, and before each EXPUNGE or CLOSE every mail read had its flag acknowledged |
| ImapAccount.ReadingKeeps | imap-common.c:785-788 | a mail being read is no longer wanted, and is counted as being read |
| ImapAccount.StoringKeeps | imap-common.c:694-717 | the flag asked for is the one decided, for the first mail of its queue |
| ImapAccount.CommittedKeeps | imap-common.c:890-906 | an acknowledged flag makes the mail a committed one |
| ImapAccount.PurgingKeeps | imap-common.c:720-752 | EXPUNGE and CLOSE go out only with every mail read marked |
| ImapAccount.CommittingKeeps | imap-common.c:248-262 | taking a decision keeps all mails accounted for |
| ImapLaws.CommitMeans | imap-common.c:248-262 | a mail decided DROP joins those to be marked deleted and not the others, and one decided KEEP the other way round |
| ImapLaws.AwaitMeans | imap-common.c:140-175 | an answer is good iff the first line that is not untagged is the OK with the tag of the last command |
| ImapLaws.CommandsTagged | imap-common.c:690-757 | every command is sent with a tag counted up for it |
| ImapLaws.IdleMeans | imap-common.c:689-758 | the idle client marks the first mail dropped, else the first kept; else, when a purge is due, it fetches nothing and expunges iff no mail is queued; else, with nothing wanted, it closes iff no mail is queued; else it asks for the next mail |
| ImapLaws.FailsFor | imap-common.c:588-966 | a turn ends in error only if the answer awaited is a bad one, the line is not the response asked for, or the text is wrong or empty |
| ImapLaws.MarksOnlyDecided | imap-common.c:690-717 | in any run \Deleted is set only on a mail that a decision to DROP came for while it was queued, and \Seen only on one to KEEP |
| ImapLaws.FolderStory | imap-common.c:588-966 | mails are read in the order in which the server found them; when a run is over that does not only poll, all found have been read, each was marked as often as it was read, and as often deleted, or seen, as it was so decided; a poll reads nothing |
| ImapClient.ImapFetch.StateSearch2 | imap-common.c:614-651 | all uids found are wanted |
| ImapClient.ImapFetch.StateSearch3 | imap-common.c:654-683 | the total is the number found; an empty folder or a poll is closed at once |
| ImapClient.ImapFetch.StateNext | imap-common.c:689-758 | which of marking, expunging, waiting, closing and fetching is done, in this order, with its exact new state |
| ImapClient.ImapFetch.StateBody | imap-common.c:760-812 | a response begun takes the first wanted uid for the mail |
| ImapClient.ImapFetch.StateCommit | imap-common.c:889-907 | only the OK with the tag of the STORE commits the mail |
| ImapClient.ImapFetch.StateClose | imap-common.c:926-950 | the one folder closed, the client logs out |
| ImapClient.ImapFetch.CommitMail | imap-common.c:247-262 | the uid joins the mails to be marked deleted iff the decision is DROP, and those to be marked seen iff it is KEEP, and nothing else changes |
| ImapClient.ImapFetch.Step | imap-common.c:588-966 | calling the current state function does just what its specification does, and keeps total = wanted + being fetched + queued + dropped + kept + being stored + committed |
| ImapSteps.StateStepKeeps | imap-common.c:588-966 | whatever state function is called, and whatever lines have come, all mails stay accounted for and the log only grows safely |
| ImapSteps.TurnStepKeeps | child-fetch.c:373-482 | so does a turn of the fetch loop with any decisions, purges and mails |
| ImapSteps.RanKeeps | imap-common.c:588-966 | after any turns, whatever the server answers: total = wanted + being fetched + queued + dropped + kept + being stored + committed; each flag follows a decision noted before, and the folder is expunged only with every mail read marked |
| ImapClient.ImapFetch.Decide | imap-common.c:247-262 | decisions are handed to CommitMail one by one, those about mails not queued to nobody |
| ImapClient.ImapFetch.TakeTurn | child-fetch.c:373-482 | a turn of the loop does just what its specification does |
| ImapClient.FetchFolder | imap-common.c:588-966 | the loop over any turns ends in the state Ran gives for them, with a safe log: mails are marked only as the decisions that came for them say, are read in the order found, and when it is over all are read and marked |

## Left out

- Sockets, SSL, poll, processes, signals, shared memory, file locks, proxies, logging, clocks and user lookup: their
  outcomes are parameters of the steps that use them.
- Regular expressions, fnmatch and the conditions and deliveries themselves: uninterpreted functions of the mail.
- fatal errors that end the process: not modelled, except for the size of the block of tags, where `Add` is not ok.
- Process death, aborted fetches and wrap-around of mail numbers: nothing is claimed of replies after an abort.
- FetchLoop.ParentFetch: a failed request is answered under its number, but the value of the answer is not modelled;
  for a command it has the value of a match.
- FetchLoop.Round: an error of poll itself, which aborts the fetch. The flags for purging and for empty queues are left to the models of the clients; what mails do is
  given by `MailSteps`.
- MailState.MailCtx.MailMatch: replies of unknown kinds, and wrapping and unwrapping the headers at each step, which
  `MailHeaders` has.
- LineIo.Io.Fill: errors of the socket, and its closing during a read, which only ever stop the stream.
- The parsing of POP3 and IMAP reply lines with sscanf: lines come as data of their kinds. The login of both protocols
  beyond its order of commands, IMAP capabilities and IMAP folder selection.
- POP3 accounts without UIDL, whose want queue is built again at each reconnect.
- IMAP accounts with several folders, for which the committed count is not reset, and mails over the size limit while
  they are read, where the line state only goes on.
- ImapLiteral.StateLine: an empty line where the literal should end makes the code look at the byte before the line;
  here that is the error it is for all but one value of that byte.
- CacheText.ReadNumber: signs in front of a length, and lengths that overflow, which no saved file has.
- Strb.Strb.Add: more than 64 distinct keys; growth of the table tests for one entry too many. Values that are given
  as pointers into the block itself.
- MailHeaders.Mail.RemoveHeader: one pattern; with several the folds are listed while the mail is unfolded.
- SPLAY_MAX, the mirror image of the minimum; red-black trees, which nothing uses.
- `fetch_mbox_save`, tags, gzip and locking of mbox files; several mbox files in one account.
- Growth of the mail's own memory in append_line: the text is a sequence.
- Maildir, NNTP, stdin and the other small matches and deliveries, attachments and the configuration parser: little
  state, or foreign formats.
