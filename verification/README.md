# EchoAndAura: verified models

This project models the gate relay of EchoAndAura (ADR-058) and six smaller pieces of its logic in Dafny, and proves
properties of the models for every input, every run or every reachable state. `dafny verify dfyconfig.toml` checks it.

## The gate relay

Door phones at several gates share "ticket X is in" through one room per event. A room keeps one row per ticket (a
phone's claim, a check-in confirmed by the server, or a tombstone) and numbers every change. A phone keeps a cursor: the
room's epoch and the highest number it has heard.

| File | What it holds |
|---|---|
| `RelayTypes.dfy`, `RoomRules.dfy` | rows, messages, and the room's rules as functions from a room to a room and an action |
| `Room.dfy` | the same rules as methods over a store changed in place, each proved equal to its function |
| `Replica.dfy` | what messages mean to a listener: per ticket, the fact with the highest number |
| `RoomProofs.dfy`, `RoomTheorems.dfy` | well-formedness, caps, every change announced once, confirmed check-ins |
| `RoomEffects.dfy` | what each message does, told without the rules: which are taken, which row they make, what is heard |
| `Retry.dfy`, `Orders.dfy` | repeated and reordered deliveries |
| `Backlog.dfy`, `CutBundles.dfy`, `CutPages.dfy` | the paged catch-up, and what a page or a broadcast cut short loses |
| `EventRules.dfy`, `RateLimit.dfy`, `EventRoom.dfy` | sockets, rate windows, the alarm: functions, and the Durable Object as a class |
| `Sockets.dfy`, `Delivery.dfy` | which sockets are open after each operation, and what each socket is given |
| `PhoneRules.dfy`, `PhoneLink.dfy`, `Resend.dfy` | the phone's cursor, its link, and the marks it re-sends |
| `System.dfy` | room, sockets, phones and clock as one transition system |
| `Convergence.dfy`, `CatchingUp.dfy`, `RunSteps.dfy`, `Runs.dfy`, `Safety.dfy`, `Revocation.dfy` | what holds over every run of it |
| `Marks.dfy`, `MarkSteps.dfy`, `MarkRuns.dfy` | the phone's own marks, which go by arrival, against the room's rows: one catch-up, one change, every run |
| `OwnClaims.dfy` | what a phone sends again when its link opens |

In the transition system a step is a phone connecting, a frame over a socket, a server announcement, the alarm, a
rebuild under a newer schema, a socket going away, a bundle arriving, a link lost, or time passing. A bundle (one
backlog page, or one action's broadcast) arrives whole or not at all; links are lost at any moment.

Where the code does less than one would guess, the model keeps the code and states when the stronger claim holds:

* A merged batch, and a backlog page, put rows before undos. A replica that goes by number is not disturbed
  (`Replica.MergeKeepsMeaning`). One cut between its rows and its undos loses a lost undo for good exactly when the undo
  still holds and is older than the last row (`CutPages.CutPageLosesIff`, `CutPages.CutBroadcastLosesIff`; it happens in
  `CutPages.CutPageLoses` and `CutPages.CutBroadcastLoses`).
* The phone's own marks go by arrival, not by number. Over every run, from its joining on, a listening phone's mark is
  nevertheless the room's row, but for a standing ticket whose latest change was a batch that took it back and claimed
  it again: that ticket stays unmarked until it changes once more (`MarkRuns.MarkFollowsIff`). For one catch-up over
  marks of any origin see `Marks.MarkAgreesIff`, for one such batch `Marks.RenewalLosesMarkIff`.
* Repeating a batch changes nothing if no ticket in it is both claimed and undone (`Retry.ClaimsBatchTwice`), as in what
  a phone re-sends (`OwnClaims.RepeatsIgnored`). A batch that undoes a ticket and claims it is not always repeatable: it
  fails exactly when the ticket does not stand and its claim is the one that reaches a cap (`Retry.RenewTwiceIff`, with
  a room where it happens in `Retry.RenewTwiceFailsAtCap`).
* A phone's claim may replace a server's tombstone, caps permitting, even one with an earlier time
  (`Orders.ClaimReplacesTombstone`). A late copy of the announcement then brings the undone check-in back, and one of
  the undo takes the claim back only up to five seconds (`Orders.LateCopyIff`).
* Of the announcements of one check-in and its undo, every order leaves the same tombstone but for the gate stored with
  it, which is the first copy's; phones are told no gate with an undo (`Orders.OrdersAgree`).
* An announced check-in replaces a confirmed one with any other time, newer or older: that, and the server's undo at
  exactly its time, are the only messages that change it (`RoomTheorems.ServerChangesConfirmedIff`).
* The rate limit lets 99 messages through in a stretch as long as one window, not 50, and no more
  (`RateLimit.RateBound`, met by `RateLimit.RateBoundIsTight`).
* A final close (4001, 4003) stops the phone's timers, but a returning signal still opens a new socket
  (`PhoneLink.PhoneLink.OnOnline`).
* A revoked pass stays out exactly as long as its longest-lived token is no later than the alarm set at its revoke: a
  day on, or a day past the time the revoke names, or what it already was. A token that outlives the alarm is let in
  again once a wipe has taken the list of revocations (`Revocation.RevokedStaysOutIff`).

## The smaller models

* `GateFlow.dfy`, `GateFacts.dfy`, `FirstAdmit.dfy`: the two-gate demonstration, with its log as a ledger. The server's
  check-in is the first admit that was shown exactly when, at the act that sets it, no earlier admit waits at the other
  gate (`FirstAdmit.FirstShownIff`). A later sync may win (`FirstAdmit.LaterAdmitMayWin`), and so may an online scan
  while an offline admit waits (`FirstAdmit.OnlineScanMayWin`).
* `Json.dfy`, `JsonText.dfy`, `Rulesets.dfy`, `DriftReport.dfy`: the rulesets drift check, down to the printed text it
  compares, and what it reports.
* `Texts.dfy`, `HexDigits.dfy`, `Ipv6Key.dfy`, `ClientIp.dfy`: the visitor's address in a forwarded-for header. Text put
  in front of a header runs into its first part. Of a header whose first part gives an answer, no text changes the
  answer exactly when a later part stops the walk (`ClientIp.NoTextMattersIff`); digits in front of a lone address spoil
  it (`ClientIp.DigitsSpoil`, `ClientIp.OneDigitSpoils`).
* `ScanRules.dfy`, `ScanFacts.dfy`, `ScanPruning.dfy`, `OneCode.dfy`, `ScanIdentity.dfy`, `Scanner.dfy`: the door
  scanner's read bookkeeping, event by event and over every run. An unanswered code keeps its scan id exactly when its
  scan went unheard already or the desk waits for it alone (`ScanIdentity.IdKeptIff`). The one tap that breaks this is
  Retry for another scan during the code's first wait (`ScanIdentity.RetryTapIff`). A code held in view is sent once
  exactly when no other answer is on its way at the first read (`OneCode.SentOnceIff`).
* `Locales.dfy`: the `/bn` paths, and the proxy's redirect.
* `SponsorFit.dfy`: sponsor logo sizing, in exact arithmetic.

## Model

| member | source | states |
|---|---|---|
| Room.Room.Claim | relay/src/room.ts:177-196 | The store and the answer after a phone's admit: malformed, already standing, room full, pass full, or one new claim with the next number. |
| Room.Room.Unclaim | relay/src/room.ts:199-207 | Only the pass's own standing unconfirmed claim becomes a gate tombstone; anything else changes nothing. |
| Room.Room.FromPhone | relay/src/room.ts:240-287 | Every branch of a phone's message, in the code's order, with its reject reason or its action and the store it leaves. |
| Room.Room.TakeBatch | relay/src/room.ts:253-279 | The loop over a batch's items ends in the room, the merged broadcast and the first warning of taking them one by one. |
| Room.Room.FromServer | relay/src/room.ts:290-361 | Every branch of an announcement; a revoke works on exactly the store's listing of the pass's open claims. |
| Room.Room.Backlog | relay/src/room.ts:215-230 | The page loop with its moving cursor sends the specified catch-up and terminates. |
| Room.RoomStore.After | relay/src/index.ts:147-151 | The store's query gives the rows past a cursor by ascending number, at most the limit. |
| Room.MergeMessages | relay/src/room.ts:159-167 | The merge loop: all rows in one message, the rest after it, each in order. |
| Replica.MergeKeepsMeaning | relay/src/room.ts:159-167 | Merging changes nothing for a listener that goes by the highest number, although it reorders. |
| Replica.ArrivalOrderIrrelevant | relay/src/room.ts:21-23 | To a listener that resolves by number, as the design means it, news with distinct numbers says the same in every order of arrival. |
| RoomTheorems.FromPhoneAnnouncedOnce | relay/src/room.ts:240-287 | Any phone message keeps the room well-formed and within caps, touches only the sender's open claims and free tickets, and its broadcast carries each number in (old top, new top] exactly once, turning knowledge of the old room into knowledge of the new. |
| RoomTheorems.FromServerAnnouncedOnce | relay/src/room.ts:290-361 | Any server message likewise; it opens no claim. |
| RoomTheorems.PhonesKeepConfirmed | relay/src/room.ts:177-207 | No phone message changes a confirmed check-in's row. |
| RoomTheorems.ServerChangesConfirmedIff | relay/src/room.ts:319-359 | A server message changes a confirmed row if and only if it undoes exactly that time, or announces another time for the ticket. |
| RoomEffects.TakenIff | relay/src/room.ts:240-287 | A phone's message is taken if and only if it is a short enough admit at a plausible time, undo or batch; each reason to reject it is given exactly when it applies, and the room stays as it was. |
| RoomEffects.AdmitIff | relay/src/room.ts:177-196 | An admit makes its claim, with the next number, and the others hear it, if and only if the ticket does not stand and neither cap is reached; else nothing changes, and only a full pass is warned of. |
| RoomEffects.PhoneUndoIff | relay/src/room.ts:199-207 | A phone's undo makes the row the gate's tombstone, and the others hear it, if and only if it stands, unconfirmed, and is the pass's own; else nothing changes. |
| RoomEffects.BatchIsItsItems | relay/src/room.ts:253-279 | A batch does what its items do one by one as messages of their own; what they tell is told rows first; the first warning is given. |
| RoomEffects.RefusedIff | relay/src/room.ts:290-318 | A body is refused if and only if it is no revoke of a pass, and no check-in or undo of a ticket at a time. |
| RoomEffects.AnnouncedIff | relay/src/room.ts:319-338 | A check-in announced becomes the ticket's confirmed row, over whatever was there, and all hear it, unless and only unless it stands confirmed at that time or the server has undone one of that time or later. |
| RoomEffects.ServerUndoIff | relay/src/room.ts:339-359 | The server's undo becomes the ticket's tombstone, over whatever was there, and all hear it, unless and only unless another check-in stands: one confirmed at another time, or a claim more than five seconds newer. |
| RoomEffects.RevokedIff | relay/src/room.ts:294-312 | A revoke takes back exactly the pass's open claims, each announced once, closes its sockets, and asks for the room to be kept until the time it names. |
| RoomTheorems.FromServerRevokes | relay/src/room.ts:294-312 | Only a revoke adds to the revoked passes, and it leaves its pass no open claim. |
| Retry.ServerMessageTwice | relay/src/room.ts:290-361 | A server message delivered twice in a row leaves the rows of one delivery, up to numbers; all but an undo then change nothing at all. |
| Retry.ClaimsBatchTwice | relay/src/room.ts:253-279 | Re-sending a batch in which no ticket is both claimed and undone changes nothing and announces nothing, caps included: at the same clock, and at any at which no claim refused for its time has become plausible. |
| Retry.RenewTwiceIff | relay/src/room.ts:253-279 | For every room, ticket and time: a batch of an undo and a claim is repeatable unless, and only unless, the claim is well-formed and plausible, the ticket does not stand, and claiming it is allowed but reaches a cap. |
| Retry.RenewTwiceFailsAtCap | relay/src/room.ts:181-184 | A room of 1,999 claims where, for such a message of any length taken, the second delivery takes back what the first admitted. |
| Orders.AnnouncementsConverge | relay/src/room.ts:319-359 | Copies of a check-in and its undo, in any interleaving with anything but a phone's claim on the ticket, end in the server's tombstone at its time. |
| Orders.OrdersAgree | relay/src/room.ts:319-359 | Any two such orders tell phones the same; the stored rows are equal up to numbers if and only if the first copies' gates are. |
| Orders.ClaimReplacesTombstone | relay/src/room.ts:178-195 | A phone's claim over the server's tombstone, at any plausible time, stands if and only if neither cap is reached. |
| Orders.LateCopyIff | relay/src/room.ts:319-359 | After such a claim a late copy of the undo takes it back if and only if it is at most five seconds after the undone check-in; a late copy of the check-in brings that one back. |
| Backlog.BacklogExact | relay/src/room.ts:215-230 | For any room and cursor: a hello, then every row changed since the effective start exactly once, as a row or an undo, and nothing else. |
| Backlog.CatchUpIff | relay/src/room.ts:215-230 | A cursor of this room, no further than its top, is told of each row numbered past it; any other cursor of every row; each once. |
| Backlog.PagesAreTheLog | relay/src/room.ts:220-228 | The pages, end to end, are the log past the cursor. |
| Backlog.PageSizes | relay/src/room.ts:221-227 | Each page holds between one row and the page size. |
| Backlog.BundlesAreBacklog | relay/src/room.ts:215-230 | What a joining phone is sent, bundle by bundle, is that catch-up. |
| CutPages.CutPageLosesIff | relay/src/room.ts:223-225 | Of a page whose undos are cut after the first k, the next catch-up repeats the lost ones if and only if the page has no standing row or the first lost undo is newer than the last one. |
| CutPages.CutPageLoses | src/app/door/use-relay.ts:78-80 | A room and a page where it is not repeated. |
| CutPages.CutBroadcastLosesIff | relay/src/room.ts:159-167 | Of a phone's message as broadcast, cut likewise, what was lost and still holds is repeated if and only if all of it is newer than the last row. |
| CutPages.CutBroadcastLoses | relay/src/room.ts:159-167 | A room and a batch where it is not. |
| EventRoom.EventRoom.Fetch | relay/src/index.ts:209-239 | A phone joins if and only if its pass names itself and its gate and is not revoked; which sockets make room, what the new socket is sent, and how long the room is kept. |
| EventRoom.EventRoom.WebSocketMessage | relay/src/index.ts:241-252 | An expired, binary or over-rate frame closes its socket; any other reaches the room, and every other open, unexpired socket is given all of what it tells, in order. |
| EventRoom.EventRoom.Announce | relay/src/index.ts:273-285 | A bad body changes nothing; a good one is applied, every open, unexpired socket is given all of what it tells, and the room is kept a day more. |
| EventRoom.EventRoom.Apply | relay/src/index.ts:287-316 | Every open, unexpired socket but the skipped one is given the whole broadcast in order, and no other anything; expired and revoked sockets close; the alarm only moves later. |
| EventRoom.EventRoom.Alarm | relay/src/index.ts:255-271 | With an unexpired socket open the room stays a day more; with none everything goes and a new epoch begins. |
| EventRoom.EventRoom.WithinRate | relay/src/index.ts:318-327 | The pass's window after one more message, and whether it is let through. |
| EventRoom.EventRoom.CloseOldest | relay/src/index.ts:220-223 | The loop over a pass's sockets closes the oldest ones and no other. |
| EventRoom.EventRoom.Restart | relay/src/index.ts:186-207 | A newer schema drops the check-ins and starts a new epoch; revocations stay. |
| EventRules.JoinWithinCap | relay/src/index.ts:219-228 | Joining never leaves a pass more sockets than it may have. |
| Sockets.JoinKeepsNewest | relay/src/index.ts:219-228 | A phone that joins gets the newest socket; other passes' stay; of its own at most four are open, and if one had to go, so had every older one. |
| Sockets.JoinKeepsRoom | relay/src/index.ts:233 | Its joining keeps the room a day past its pass's expiry, or as long as it was kept if longer. |
| Sockets.StillOpenIff | relay/src/index.ts:287-316 | Which sockets an action leaves open, each by its own expiry, pass and name. |
| Sockets.FrameIff | relay/src/index.ts:241-252 | A frame turned away closes its own socket and does nothing but count; any other is the room's to take; no frame moves the alarm. |
| Sockets.AnnounceIff | relay/src/index.ts:273-285 | An announcement taken sets the alarm to the latest of a day from now, a day past what it asks for, and what it was. |
| Sockets.AlarmIff | relay/src/index.ts:255-271 | The alarm leaves exactly the unexpired sockets; with one it is set a day on and nothing else changes; with none the room is a new one. |
| Sockets.RebuildIff | relay/src/index.ts:186-207 | A start over a newer schema forgets every row and every count, under a new epoch; revocations, sockets and the alarm stay. |
| Delivery.ActionGiven | relay/src/index.ts:294-311 | A socket is given the whole broadcast in order if and only if it is open, unexpired and not the one skipped, and nothing otherwise. |
| Delivery.SendQueues | relay/src/index.ts:241-252 | In the transition system a frame puts on the way to a phone exactly what its socket is given. |
| Delivery.SayQueues | relay/src/index.ts:273-285 | So does an announcement. |
| RateLimit.RateBound | relay/src/index.ts:318-327 | After any history, a pass gets at most 99 messages through in any interval as long as the window. |
| RateLimit.RateBoundIsTight | relay/src/index.ts:318-327 | A history in which it gets 99. |
| RateLimit.NeverRefusedEarly | relay/src/index.ts:318-327 | After any history, a message with fewer than fifty of its pass's in the ten seconds before it is let through. |
| RateLimit.PassesApart | relay/src/index.ts:318-327 | A pass's window depends on its own messages only. |
| PhoneRules.HeardNews | src/app/door/use-relay.ts:119-149 | The cursor becomes the highest number heard, and never goes back within an epoch. |
| PhoneRules.HeardIff | src/app/door/use-relay.ts:134-148 | Of any news, good and bad, the cursor and what is known follow what has a ticket id, by number; the rest leaves no trace. |
| PhoneLink.OurRowsIff | src/app/door/use-relay.ts:134-137 | The page is told exactly the rows with a ticket id, each as often. |
| PhoneLink.PhoneLink.OnMessage | src/app/door/use-relay.ts:119-149 | A hello of another room starts over; rows and undos that are ours move the cursor and reach the page; anything else is ignored. |
| PhoneLink.PhoneLink.OnOpen | src/app/door/use-relay.ts:99-107 | The slicing loop sends the specified batches; the wait returns to a second. |
| PhoneLink.PhoneLink.OnClose | src/app/door/use-relay.ts:150-162 | Two codes end the link; any other leaves a timer, after a minute if crowded, within a quarter either way. |
| PhoneLink.PhoneLink.OnOnline | src/app/door/use-relay.ts:174-179 | A returning signal opens a socket at the cursor if there is none, with the wait back at a second, and disturbs no other; a live link never has a timer, a lost one always has one. |
| PhoneLink.BackoffDoubles | src/app/door/use-relay.ts:164-168 | After k failures the wait is a second doubled k times, and at most half a minute. |
| PhoneLink.WaitSpreads | src/app/door/use-relay.ts:164-168 | The wait uses the whole spread, from three quarters to five, the later the more is drawn. |
| PhoneLink.RetryNeverShrinks | src/app/door/use-relay.ts:164-168 | Until the link opens or the signal returns the wait never shrinks or passes a minute, and stays exactly from half a minute on. |
| Resend.BatchesAreAll | src/app/door/use-relay.ts:104-107 | The batches are all the phone's marks in order, none empty, each within the room's limit, as few as possible. |
| Resend.BatchesAreInvisible | src/app/door/use-relay.ts:104-107 | Sent as any such batches, one after another at one clock, the marks leave the room, and tell the others, what they would as one. |
| Resend.ResendTwice | src/app/door/use-relay.ts:104-107 | Batches sent again at a later clock, cut as one likes, change nothing and tell nothing, if no ticket is both claimed and undone and no claim refused for its time has become plausible. |
| Resend.StandsThroughOthers | relay/src/room.ts:177-207 | Between the batches, a mark that stands in the room stands unchanged through any messages of other passes, at any clock. |
| OwnClaims.UnconfirmedOwnClaims | src/app/door/offline/rules.ts:149-160 | The two loops list the phone's unsent admits, then its local undos of tickets it has no mark for. |
| OwnClaims.OwnClaimsIff | src/app/door/offline/rules.ts:149-160 | Exactly what is listed, by the mark's source and what the server has had, and by the outbox. |
| OwnClaims.OwnClaimsNoClash | src/app/door/offline/rules.ts:142-160 | That list never both claims and undoes a ticket. |
| OwnClaims.RepeatsIgnored | src/app/door/offline/rules.ts:142-147 | Sent again in batches at any later clock, it changes nothing in the room and tells nothing, if no mark is ahead of the room's clock by more than five minutes. |
| Marks.MarkAgreesIff | src/app/door/offline/rules.ts:89-139 | After a catch-up, a ticket told of is marked exactly when it stands in the room, if and only if it was marked or listed (standing), or unmarked or marked so that this undo removes it (taken back). |
| Marks.RowMovesIff | src/app/door/offline/rules.ts:89-112 | A row never takes a mark away: which it sets, which it changes and to what, and that it leaves the phone's own and the server's. |
| Marks.UndoRemovesIff | src/app/door/offline/rules.ts:127-139 | An undo takes a mark away exactly in the cases given, by who undoes, whose mark it is, who vouched for it, and the times. |
| Marks.NewPhoneAgrees | src/app/door/offline/use-offline.ts:570-583 | A phone without marks ends with exactly the listed standing tickets, each with the room's time, gate and confirmation. |
| Marks.RenewalLosesMarkIff | src/app/door/offline/rules.ts:127-139 | Of a merged batch that renews a claim, another phone keeps a mark if and only if it had one that is not an unconfirmed claim, though the ticket stands. |
| Marks.PhoneMarks.LearnRelayRows | src/app/door/offline/use-offline.ts:570-583 | The loop over rows sets the marks that the rule gives, of listed tickets only. |
| Marks.PhoneMarks.LearnRelayUndo | src/app/door/offline/use-offline.ts:586-598 | An undo removes the mark it may, and an own admit the server has not had is told again. |
| MarkSteps.MarksHearOf | src/app/door/offline/use-offline.ts:570-598 | What a phone's marks hold for a ticket after some news is that ticket's mark followed alone. |
| MarkRuns.PhoneShows | relay/src/room.ts:240-287 | A phone's message turns another phone's mark of the old row into that of the new row, but into none if it took the ticket back and left it standing. |
| MarkRuns.ServerShows | relay/src/room.ts:290-361 | A server's message always turns it into that of the new row. |
| MarkRuns.StepFollows | src/app/door/use-relay.ts:119-149 | Every step of the system keeps this: with what is on the way heard, a listening phone's mark is the row's, or none for a ticket last changed by such a batch. |
| MarkRuns.MarkFollowsIff | src/app/door/offline/rules.ts:89-139 | Over every run from its joining on: with nothing on the way, a listening phone marks a ticket if and only if it is listed, stands, and was not last changed by such a batch; the mark has the row's time and confirmation. |
| MarkRuns.NewPhonePutRight | src/app/door/offline/use-offline.ts:570-583 | A phone without a mark that is told everything meets what this asks of it at its joining. |
| Runs.StepConsistent | relay/src/index.ts:209-316 | One inductive invariant over every step: rooms well-formed and within caps, and every phone knowing, or about to be told, what it should. |
| Runs.AlwaysWithinCaps | relay/src/room.ts:118-120 | In every reachable state each pass owns at most 2,000 rows, all passes together at most 20,000, and each has at most 4 sockets. |
| Runs.ReplicasConverge | relay/src/room.ts:215-230 | Over every run: a cursor of this room is never past its top, the phone knows every row up to its cursor but its own, and with its catch-up complete on an open link every row, standing or tombstone. |
| Runs.CatchUpCompletes | src/app/door/use-relay.ts:82-149 | From every reachable state a phone that may join has a run to that point. |
| Safety.StepChangesConfirmedIff | relay/src/room.ts:294-359 | A step of the system changes a confirmed row if and only if it is a wipe, a rebuild, or one of the two server messages. |
| Safety.ConfirmedSurvives | relay/src/room.ts:14-17 | Over every run without such a step a confirmed row is unchanged. |
| Safety.NeverWipedEarly | relay/src/index.ts:255-271 | When an alarm wipes a room, every time it was asked to be kept until is past and every open socket's pass expired. |
| Safety.OnlyWipesDrop | relay/src/index.ts:134-146 | No other step but a rebuild drops a row or reuses a number. |
| Revocation.RevokedStaysOutIff | relay/src/room.ts:294-312 | From every reachable state: after its revoke a pass has no open socket and no standing claim, whatever follows, if and only if its longest-lived token ends by the alarm then set. Nothing is asked of other passes. |
| Revocation.RevokeAlarm | relay/src/index.ts:280-283 | That alarm is the latest of a day from now, a day past the time named, and what it was. |
| Revocation.ComesBack | relay/src/index.ts:255-271 | Otherwise a wipe readmits it: from any such state, a run that ends with its socket open. |
| Safety.RateBoundOnRuns | relay/src/index.ts:241-251 | Over any stretch of a run no longer than the window, however sockets reconnect, at most 99 messages of a pass reach the room. |
| GateFlow.ChangeSignal | docs-site/components/gate-flow.tsx:118-154 | The outbox loop replays each offline admit: the first the server has none before becomes its check-in, the others double entries. |
| GateFlow.ScanTicket | docs-site/components/gate-flow.tsx:61-116 | Each branch of a scan, with the world it returns. |
| GateFlow.SpreadNews | docs-site/components/gate-flow.tsx:52-59 | The loop over the gates tells exactly those with signal and no news. |
| GateFlow.ShownIsLogged | docs-site/components/gate-flow.tsx:65-115 | The answer shown is the one logged, and a refusal names the check-in the gate went by. |
| GateFacts.ScanIff | docs-site/components/gate-flow.tsx:61-116 | A scan lets in exactly whoever the gate knows nothing of; what the gate, the server, the outbox and the other gate then hold, and the line logged. |
| GateFacts.BackIff | docs-site/components/gate-flow.tsx:118-154 | With the signal back the outbox is replayed, line by line, and empty; who then knows what. |
| GateFlow.BooksBalance | docs-site/components/gate-flow.tsx:61-154 | Over every run: admits shown are the server's check-in, plus outboxes, plus double entries; each gate admits once at most; no refusal comes before the first admit. |
| GateFlow.DoubleEntryIff | docs-site/components/gate-flow.tsx:131-154 | With both gates back online, a double entry stands if and only if both admitted, and both know the server's check-in. |
| GateFlow.CheckInStays | docs-site/components/gate-flow.tsx:131-144 | Over every run the server's check-in never changes once set, and a double entry is not forgotten. |
| FirstAdmit.FirstShownIff | docs-site/components/gate-flow.tsx:61-154 | Over every run and whatever comes later: the server's check-in is the log's first admit if and only if, when it was set, the other gate's outbox was empty or a sync replayed the earlier of the two. |
| FirstAdmit.LaterAdmitMayWin | docs-site/components/gate-flow.tsx:131-136 | A run where a sync makes the later admit the check-in. |
| FirstAdmit.OnlineScanMayWin | docs-site/components/gate-flow.tsx:79-90 | A run where an online scan does, over an offline admit still waiting. |
| Json.CanonicalIff | scripts/rulesets-check.ts:28-38 | Two values have one canonical form if and only if they are equal up to key order at every depth. |
| JsonText.PrintInjective | scripts/rulesets-check.ts:42 | Two values print the same only if they are the same. |
| Rulesets.DefiningIff | scripts/rulesets-check.ts:41-43 | The compared texts are equal if and only if the six fields are, each missing on both sides or equal up to key order. |
| Rulesets.ChangedIff | scripts/rulesets-check.ts:83-85 | The fields named are exactly those that differ; at least one is named whenever the texts differ. |
| Rulesets.DuplicatesExact | scripts/rulesets-check.ts:46-49 | The duplicates listed are exactly the names held more than once. |
| Rulesets.DriftEmptyIff | scripts/rulesets-check.ts:52-81 | The check is silent if and only if nothing hides its bypass actors, names are unique and the same on both sides, and same-named rulesets agree. |
| Rulesets.DriftSymmetric | scripts/rulesets-check.ts:52-81 | When nothing is hidden it does not matter which side is called the files. |
| DriftReport.HiddenReported | scripts/rulesets-check.ts:53-60 | When something is hidden, exactly the rulesets that hide it are reported. |
| DriftReport.TwiceReported | scripts/rulesets-check.ts:61-65 | When a name is held twice, exactly those names are, by side, the files' first, each once. |
| DriftReport.DriftReported | scripts/rulesets-check.ts:67-80 | Otherwise exactly these are: each file's ruleset that is not live, each that differs, with the differing fields, and each live one without a file. |
| DriftReport.DriftInOrder | scripts/rulesets-check.ts:69-80 | The files' problems come first, in the files' order, then the strays in theirs. |
| DriftReport.ChangedInOrder | scripts/rulesets-check.ts:83-85 | The differing fields are named in the order of the six. |
| ClientIp.FromForwardedFor | src/lib/client-ip.ts:59-73 | The index loop from the right gives the walk's answer; no header, an invalid hop or only proxies give none. |
| ClientIp.WalkRightmost | src/lib/client-ip.ts:65-71 | The answer is that of the rightmost hop that is not a trusted proxy. |
| ClientIp.HopsAre | src/lib/client-ip.ts:61-64 | The addresses of a header are those between its commas, without the spaces around them; blanks are none. |
| ClientIp.LastBeforeProxies | src/lib/client-ip.ts:59-73 | Whatever was sent in front, the answer is the last address before the trusted proxies: itself for IPv4, its /64 for IPv6, none for one that is no address. |
| ClientIp.OnlyProxies | src/lib/client-ip.ts:65-72 | A header of trusted proxies only has no answer. |
| ClientIp.HopsBefore | src/lib/client-ip.ts:61-72 | Hops in front of a header matter if and only if the header holds nothing but trusted proxies. |
| ClientIp.TextBefore | src/lib/client-ip.ts:61-72 | The answer with text in front: the header's own if a later part stops the walk, else that of the text and the first part together. |
| ClientIp.NoTextMattersIff | src/lib/client-ip.ts:61-72 | Of a header whose first part gives an answer, no text in front matters if and only if a later part stops the walk. |
| ClientIp.DigitsSpoil | src/lib/client-ip.ts:61-72 | Digits that make a lone IPv4 address none leave no answer. |
| ClientIp.MappedSame | src/lib/client-ip.ts:76-80 | A dotted address in its IPv6-mapped form, in either case, is judged as the plain one. |
| ClientIp.VisitorsSameIff | src/lib/client-ip.ts:59-95 | Two IPv6 visitors get one key if and only if their first 64 bits are equal, whatever they sent and whichever proxies follow. |
| Ipv6Key.Prefix64Iff | src/lib/client-ip.ts:83-95 | The same of the key alone, over every text form of section 2.2 of RFC 4291. |
| Ipv6Key.KeyIsPrefix | src/lib/client-ip.ts:83-95 | The key is the address of the /64 in its shortest lower-case form, and "/64": the same first four groups, and zeros. |
| Ipv6Key.ReadBack | src/lib/client-ip.ts:84-92 | Splitting a rendered address gives back its groups, the left-out ones as zeros. |
| Scanner.Scanner.OnCamera | src/app/door/scanner.tsx:553-590 | A camera read: ignored behind a panel, held while an answer shows, dropped if seen lately, else sent. |
| Scanner.Scanner.OnTyped | src/app/door/scanner.tsx:571-588 | A handheld, typed or searched code is sent at once, or refused while an answer is on its way. |
| Scanner.Scanner.OnRetry | src/app/door/scanner.tsx:1153-1157 | Retry closes the answer and sends the failed scan itself, id and all. |
| Scanner.Scanner.OnOutcome | src/app/door/scanner.tsx:493-536 | What each way a scan ends does to the bookkeeping. |
| Scanner.Scanner.PruneSeen | src/app/door/scanner.tsx:204-207 | The loop deletes exactly the entries older than the limit, and only from a large map. |
| Scanner.Scanner.OnUndone | src/app/door/scanner.tsx:754-756 | An undone scan's id is not kept for a retry. |
| ScanFacts.CameraIff | src/app/door/scanner.tsx:553-590 | A camera read is sent if and only if no panel covers the picture, no answer holds it back, and it was not seen in the last second and a half; under which id, and what it leaves on screen. |
| ScanFacts.CameraSeen | src/app/door/scanner.tsx:558-569 | Which reads count as seen, and when. |
| ScanFacts.TypedIff | src/app/door/scanner.tsx:571-588 | A typed code is sent if and only if no answer is on its way; refused, it changes nothing. |
| ScanFacts.OutcomeIff | src/app/door/scanner.tsx:493-536 | However a scan ends the desk is free; under which id its code goes next, what Retry sends, and what is shown. |
| ScanFacts.DismissIff | src/app/door/scanner.tsx:556-570 | A dismissed answer's code counts as read then, so one in view is not sent again at once. |
| ScanFacts.RetryIff | src/app/door/scanner.tsx:1153-1157 | Retry sends the scan that went unheard last, itself, and closes the answer. |
| ScanFacts.UndoneIff | src/app/door/scanner.tsx:754-756 | After an undo its id is not used again; every other code's is as it was. |
| ScanPruning.PruneInvisibleFromStart | src/app/door/scanner.tsx:204-207 | Over every run, pruning changes no decision and no scan id. |
| OneCode.SentOnce | src/app/door/scanner.tsx:556-570 | From any desk that is free or shows another code's passing answer: reads of one code, each under the window after the last, cause exactly one scan, however answers, dismissals and retries fall between. |
| OneCode.SentOnceIff | src/app/door/scanner.tsx:556-570 | They do so whatever falls between if and only if no other scan's answer is on its way at the first read. |
| ScanIdentity.IdKeptIff | src/app/door/scanner.tsx:579-588 | Every sending of an unanswered code within two minutes of its first carries the first one's id, whatever follows, if and only if its scan went unheard already or the desk waits for it alone. |
| ScanIdentity.RetryTapIff | src/app/door/scanner.tsx:1153-1157 | A tap on Retry keeps it so if and only if it is not for another scan during the code's first wait. |
| ScanIdentity.FirstSendingIff | src/app/door/scanner.tsx:579-588 | A first sending, earlier attempts too old, fixes the id if and only if no other answer is on its way. |
| ScanIdentity.UnsafeTapForgets | src/app/door/scanner.tsx:1153-1157 | After any such tap for another code, the code typed again goes out under whatever id it is then given. |
| ScanIdentity.RetryWhileBusyForgets | src/app/door/scanner.tsx:1153-1157 | A desk with one failure on screen and one code on its way, where Retry costs that code its id. |
| ScanIdentity.GettingThere | src/app/door/scanner.tsx:446-590 | The run of three events from a new scanner to that desk. |
| Locales.RoundTrip | src/i18n/locales.ts:45-62 | A link's language form parses back to its page, with the same query and fragment. |
| Locales.PathRoundTrip | src/i18n/locales.ts:45-62 | For a bare path the parser undoes the printer. |
| Locales.LocalisedOnce | src/i18n/locales.ts:56-62 | A link already in Bangla stays as it is. |
| Locales.RedirectIff | src/i18n/locales.ts:89-102 | Who is redirected: exactly a visitor who chose Bangla, viewing a page that has a Bangla form, with Bangla on. |
| Locales.RedirectOnce | src/i18n/locales.ts:76-103 | Following a redirect is a rewrite to the page first asked for with the same search, never a second redirect, never off the site. |
| Locales.StepIff | src/i18n/locales.ts:76-103 | A Bangla page is served in Bangla if and only if Bangla is on; what is not rewritten or redirected goes on in English, a Bangla path with Bangla off too. |
| Locales.EnglishOnlyIff | src/i18n/locales.ts:36-42 | A path stays English if and only if its first segment is one of seven names, or it names a file. |
| Locales.BanglaIff | src/i18n/locales.ts:45-50 | A path is Bangla if and only if its first segment is "bn"; the page is what follows. |
| Locales.LinkChangesIff | src/i18n/locales.ts:56-62 | A link changes if and only if Bangla is asked for and it is a page of this site, neither English only nor Bangla already. |
| SponsorFit.FitsBox | src/lib/sponsor-fit.ts:40-47 | For every stored shape, not-a-number included, each side is at least a pixel and within the box. |
| SponsorFit.EverySponsorFits | src/lib/sponsor-fit.ts:54-75 | So for every box in the table. |
| SponsorFit.ClampedNearest | src/lib/sponsor-fit.ts:41-42 | The shape drawn is the nearest to the stored one from 1:20 to 20:1; a bad one is square. |
| SponsorFit.FitNearest | src/lib/sponsor-fit.ts:46 | Each side drawn is the whole number of pixels nearest to the exact one, halves up. |
| SponsorFit.SidesOnce | src/lib/sponsor-fit.ts:43-44 | The sides before scaling are determined by the shape and the area. |
| SponsorFit.FitExact | src/lib/sponsor-fit.ts:43-45 | Before rounding, the shape is kept and the target area never passed. |
| SponsorFit.ScaleIsLargest | src/lib/sponsor-fit.ts:45 | The scale is the largest, up to 1, at which both sides fit. |
| SponsorFit.ScaleFits | src/lib/sponsor-fit.ts:45-46 | Before rounding the box is never passed, and a shrunk logo touches it on a side. |

## Left out

- Signatures and secrets: `verifyRelayPass` is not part of this model. A phone that connects has a verified, unexpired pass; the worker's routing and origin checks are left out.
- Text of messages: JSON is modelled as parsed data with malformed cases, and a frame's length is a number beside it. Of a malformed row sent to a phone, only a ticket id that is no id is modelled.
- Times are whole milliseconds; ISO text and fractional `at` values are left out. Parsing gives a time or none.
- SQLite, hibernation and the runtime: the store is a map and a counter, handlers run one at a time, a closed socket hears nothing more, and close codes matter only to the phone.
- Safety.RateBoundOnRuns: holds while the object stays in memory; its windows are lost when it sleeps.
- Runs.ReplicasConverge: its replica goes by the highest number, as a reference listener; what the phone's own marks do is in `Marks.dfy` and `MarkRuns.dfy`, without the list downloads and status pings that also move them.
- MarkRuns.MarkFollowsIff: the mark is one the relay set, the phone's list does not change on the way, and a bundle is heard at one clock reading.
- Revocation.RevokedStaysOutIff: its other direction needs some phone to come back with.
- A `keepUntil` of zero is treated as none, as the code does; negative times are kept as given.
- PhoneLink.PhoneLink.OnOnline: the relay's address is taken to be known while the link exists; pings, pong deadlines and the page's state are left out.
- GateFlow: clock text and the wording of log lines; a line is kept as what it reports.
- JsonText.PrintInjective: a number is known by how it prints, so numbers that print alike (0 and -0) are one number, and infinities do not occur.
- Resend.BatchesAreInvisible: the batches are taken at one clock with nothing between them; what survives other passes' messages is `Resend.StandsThroughOthers`, and a second sending at a later clock is `Resend.ResendTwice`.
- Json: text is a sequence of Unicode characters, not of UTF-16 code units: keys beyond the basic plane sort by character, and lone surrogates do not occur.
- Rulesets: reading the files, calling GitHub and the wording of problems; a ruleset's name is taken to be text, as its type says.
- ClientIp: which addresses are valid and which proxies are trusted are arbitrary functions, of which ClientIp.NoTextMattersIff asks only that addresses begin with a hexadecimal digit or a colon; lower-casing is that of ASCII letters, and zone suffixes are left out of the address forms.
- Ipv6Key: for text that is no address, a negative number of left-out groups is taken as none, where the code would throw.
- ScanIdentity.IdKeptIff: an early admit, a refusal or a sign-out counts as an answer.
- Scanner: the camera, sound, panels' contents, the offline queue and the disagreement list; a searched admit is a typed one with its own key.
- SponsorFit: floating-point rounding of the square roots and quotients.
- Locales: `publicLocales` and the cookie's settings.
- The rest of the repository: orders, inventory, email, the database and the pages.
