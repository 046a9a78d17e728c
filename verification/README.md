# Fast-clock lighting node: models and proofs

The firmware is an OpenLCB node that drives light strings from a model railroad's fast clock. This
project models the parts that keep state and move time and messages, and proves what they keep over
every run:

- `Dispatch`, `DispatchRules`, `DispatchRuns`, `DispatchProgress`, `DispatchFilter`, `DispatchCalls`,
  `DispatchDelivery`, `DispatchQueue`, `DispatchFull`, `DispatchReentry`, `DispatchStopped`: the main state
  machine, which shows everything it sends to its own sibling nodes and everything it receives to every node,
  one step per call. `Dispatch` gives the step on values with a log of what it did, and a class that performs
  it. `DispatchRules` states the rules as a reference monitor over logs and proves that every step obeys them;
  `DispatchRuns` draws the consequences for whole runs; `DispatchProgress` bounds how long a message is held;
  `DispatchCalls` ties the log to what the receive FIFO, the wire and the handlers did; `DispatchFilter` and
  `DispatchDelivery` say who acts on a message; `DispatchQueue` and `DispatchFull` say when a response is lost;
  `DispatchReentry` and `DispatchStopped` show what happens when a sibling handler asks to be re-entered.
- `Login`, `LoginMachine`, `LoginRules`, `LoginRuns`, `LoginProgress`, `LoginLimits`, `LoginReplies`,
  `LoginCalls`, `LoginLostReply`, `LoginReentry`, `LoginStopped`: the login state machine in the same manner:
  what each node announces, in which order, that it ends, and where it does not; what becomes of sibling
  replies and requests.
- `Calendar`, `CivilDays`, `FastClock`, `ClockTable`, `ClockRuns`, `ClockStory`, `ClockProducer`, `ClockReply`,
  `ClockSync`, `ClockSpacing`: the broadcast fast clock, from calendar stepping to all it tells over a run, query
  replies and what a listener learns from them, sync delays and report spacing.
- `Lights`, `LightEvents`, `Effects`: the group schedule that follows the clock, what events switch, and the
  blink and flicker counters with the brightness they give.
- `GridConnect`, `GridConnectStream`, `GridConnectBuffers`: the streaming parser, the printer and the decoder.
- `BufferStore`, `BufferAccounting`, `BufferFifo`, `BufferList`, `BufferTimeouts`: the reference-counted pool
  and its containers.
- `NodeTable`, `FieldReader`, `Float16`: node enumeration, flat-image reads, half-precision conversion.
- `Words`: fixed-width unsigned arithmetic.

State that the firmware updates in place is a class whose methods are proved equal to functions on
values; the theorems are about those functions, over sequences of calls with arbitrary inputs. Buffer
depths, node counts, queue depths and event counts are parameters with the bounds of their C types. A
call is calm when no sibling handler it enters asks to be re-entered, a request that is dropped at the end
of the round aside; a run is calm when all its calls are. The state machines are meant to be run so:
`DispatchReentry` and `LoginReentry` prove that nothing else keeps their invariants, and what happens then.

What the proofs found, each with the exact condition:

- A sibling handler that asks to be re-entered is served by the next node, if that node's filter lets it
  act; a request of the last sibling is dropped if it has no reply. In every other case, and in no other,
  the dispatcher stops: for good after the last sibling, else for as long as that filter rejects the message
  (`DispatchReentry.RequestStopsTheDispatcher`, a run in `DispatchStopped.ADispatcherStops`).
- Responses to a main message are lost exactly if its round has at least as many as the queue has slots
  (`DispatchQueue.LostExactly`). None is lost in any run exactly if there are at most as many nodes as slots, the
  sender being one of them (`DispatchFull.NeverLostExactly`).
- At login a request stops every node for good exactly if there is a next node that is the announcing node
  or not initialized; the last node's is dropped (`LoginReentry.RequestStopsTheLogin`,
  a run in `LoginStopped.ALoginStops`).
- All sibling replies to announcements are sent exactly if the last visit of the last round loaded none;
  otherwise that last reply never is (`LoginReplies.RepliesAfterLogin`, `LoginLostReply.AReplyIsLost`).
- A login with a list of more than 255 entries never ends (`LoginLimits.TooLongNeverRuns`).
- Report Time messages keep their 600 ticks in all runs, for every producer and every rate, whose polls batch at
  most a given number of ticks exactly if that number is 1 or 0; a slow clock may keep them despite batching
  (`ClockSpacing.SpacingBound`).
- One minute forward and one back can end a day away when the date is none of the calendar's
  (`Calendar.UndoneExactly`).
- The schedule is right for a clock running forward; for one running backward it is right only at the
  trigger minutes (`Lights.ScheduleOverRun`).
- A buffer with 257 references is given back early (`BufferAccounting.FreeKeepsAccounts`).
- An enumeration of more than 255 nodes never ends (`NodeTable.EnumerationEnds`).

## Model

| member | source | states |
|---|---|---|
| DispatchRuns.RulesOverRun | src/openlcb/openlcb_main_statemachine.c:1303-1383 | From power-up, for every number of nodes up to 255, every queue depth up to 255 and every pattern of refusals, replies, re-entry requests of main handlers and incoming messages, every call finds a state it accepts, and its log obeys the rules of a reference monitor whose state is an abstraction of the machine's (calm runs). |
| DispatchRuns.SendsAreShownToAll | src/openlcb/openlcb_main_statemachine.c:280-429 | In every calm run, between the wire accepting a message (or a queued response getting its turn) and the end of its round, every node is shown that very message exactly once, in index order, handled exactly if it is in RUNSTATE_RUN and passes the filter, each time with the sibling slot free. The deferred end after a last sibling's reply is included, and no later push changes a message that is being shown. |
| DispatchRuns.OriginatorIsSkipped | src/openlcb/openlcb_main_statemachine.c:441-482 | In such a round of a calm run no node acts on a message it sent itself, whether a main message or a queued sibling response. |
| DispatchRuns.HeldIsShownToAll | src/openlcb/openlcb_main_statemachine.c:1177-1289 | In every calm run, between the pop of an incoming message and its release, nodes 0 to n-1 are shown it in order, each re-entered exactly as long as it asks and before the next or the release; the message released is the one popped, and it was not marked invalid. |
| DispatchRuns.NothingLostOrRepeated | src/openlcb/openlcb_main_statemachine.c:212-265 | Over every calm run: replies loaded by main handlers = messages accepted by the wire + the one still in the slot; sibling replies loaded = accepted + the one in the slot; responses admitted to the queue = rounds held + those waiting, oldest first; messages popped = messages freed + the one held. All as sequences, so nothing is lost, repeated or reordered. |
| DispatchRuns.HandlersFindTheirSlotFree | src/openlcb/openlcb_main_statemachine.c:1303-1411 | In every calm run a handler is entered only while its context's outgoing slot is empty, so no reply is overwritten. |
| DispatchCalls.TakenAreGivenBack | src/openlcb/openlcb_main_statemachine.c:1177-1205 | In every calm run, of the messages the receive FIFO handed over in the calls whose state has nothing else to do: the valid ones are, in order, those shown and freed and the one held, and the invalid ones are, in order, those discarded. So every message taken is given back but the one held. |
| DispatchCalls.WireTakesWhatIsOffered | src/openlcb/openlcb_main_statemachine.c:1118-1141 | In every run, calm or not, what the wire accepts is, in order, what the calls it accepts in put to it: the response of a sibling during a round, and only without one the main message. |
| DispatchCalls.HandlersAnswer | src/openlcb/openlcb_main_statemachine.c:441-482 | In every run, call by call: a handler is entered for a node as it then is, acts exactly if it is running and the message is for it, what is loaded is its reply, field by field, and a wish to be re-entered is kept. |
| DispatchCalls.CallTells | src/openlcb/openlcb_main_statemachine.c:1303-1383 | The same for any single call from any state: what is taken from the FIFO, what goes on the wire and what is loaded follow from the state and the inputs alone. |
| DispatchDelivery.HeldIsActedOn | src/openlcb/openlcb_main_statemachine.c:441-482 | In every calm run whose nodes keep their names, a message from the wire is acted on by node k, when shown to it, exactly if the node is running and initialized, the message is meant for it (MTI bit 3 clear, or Verify Node ID Global, or its alias or identifier in the destination) and it is not its own coming back; a re-entered node acts only if it is meant for it. |
| DispatchDelivery.AddresseeActs | src/openlcb/openlcb_main_statemachine.c:441-482 | An addressed message from the wire is acted on by the one node its destination names, if that is running and initialized, and by no other, re-entries included. |
| DispatchDelivery.AllAct | src/openlcb/openlcb_main_statemachine.c:441-482 | Any other message from the wire is acted on by every node that is running and initialized, but the sender of one coming back. |
| DispatchDelivery.SentIsActedOn | src/openlcb/openlcb_main_statemachine.c:280-429 | In every round of a calm run node k acts exactly if it is running and initialized, the message is meant for it and it did not send it. |
| DispatchDelivery.SiblingAddresseeActs | src/openlcb/openlcb_main_statemachine.c:280-429 | A message one node addresses to another is acted on by that node alone. |
| DispatchFilter.FilterIs | src/openlcb/openlcb_main_statemachine.c:441-482 | The filter lets a node act exactly if it is initialized, the message is meant for it, the destination bit read as the mask 0x0008, and it is not its own. |
| DispatchQueue.HighWaterIsTheMost | src/openlcb/openlcb_main_statemachine.c:212-248 | In every calm run the high-water mark is the most responses that have ever waited at once. |
| DispatchQueue.LostExactly | src/openlcb/openlcb_main_statemachine.c:212-248 | In every calm run the queue admits all responses of a main message's round if and only if there are fewer of them than slots; the round always starts with an empty queue. |
| DispatchQueue.FewResponses | src/openlcb/openlcb_main_statemachine.c:314-352 | In every calm run such a round has at most one response per node, fewer than nodes when one of them sent the message, and none with a single node. |
| DispatchFull.NeverLostExactly | src/openlcb/openlcb_main_statemachine.c:212-248 | With n nodes and a queue of a given number of slots no response to a main message is lost in any calm run if and only if n is at most that number (at most one less, if the message may come from none of the nodes) or n is at most 1. |
| DispatchFull.FullRound | src/openlcb/openlcb_main_statemachine.c:280-377 | For every n from 2 to 255 a run from power-up with a round in which every node but the sender answers. |
| DispatchRuns.RoundEnds | src/openlcb/openlcb_main_statemachine.c:1321-1346 | While the wire accepts, in a calm run, a round of n nodes is over after at most 2(n - next) + 2 calls. |
| DispatchRuns.RankDrops | src/openlcb/openlcb_main_statemachine.c:1321-1346 | Each call of a round with an accepting wire ends the round or lowers its rank. |
| DispatchRuns.RoundShowsAll | src/openlcb/openlcb_main_statemachine.c:280-429 | The same round property as a consequence of the rules alone, for any log that obeys them. |
| DispatchRuns.HeldShowsAll | src/openlcb/openlcb_main_statemachine.c:1177-1289 | The same incoming-message property as a consequence of the rules alone. |
| DispatchRuns.EachSentOnce | src/openlcb/openlcb_main_statemachine.c:212-333 | For any log that obeys the rules: loads and sends balance, and the response queue is a first-in first-out queue that drops what finds it full. |
| DispatchRuns.EachFreedOnce | src/openlcb/openlcb_main_statemachine.c:192-205 | For any log that obeys the rules: every valid message popped is freed once, in order, but for the one held. |
| DispatchRules.StepKeeps | src/openlcb/openlcb_main_statemachine.c:1303-1383 | One calm call keeps the invariant and obeys the rules, whatever the transport, the handlers and the receive FIFO do. |
| DispatchRules.PushAppends | src/openlcb/openlcb_main_statemachine.c:212-248 | A push appends a loopback copy unless one less than the slots are waiting, and never touches the slot behind the head, which the round in progress is reading. |
| DispatchRules.PopTakes | src/openlcb/openlcb_main_statemachine.c:252-265 | A pop takes the oldest waiting response and leaves the rest in order. |
| DispatchProgress.HeldIsFreed | src/openlcb/openlcb_main_statemachine.c:1303-1411 | A held message is freed within a bound once the wire accepts, handlers stop asking to be re-entered and siblings stop replying, whatever main handlers still reply and whatever waits in the queue. |
| DispatchProgress.StepCloser | src/openlcb/openlcb_main_statemachine.c:1303-1383 | Each such call frees the held message or comes closer to it. |
| DispatchReentry.CalmKeepsInvariant | src/openlcb/openlcb_main_statemachine.c:340-429 | The assumption of the run theorems is exact: a call keeps the invariant if and only if no sibling handler entered in it asks for re-entry, or the last one does and has no reply. |
| DispatchReentry.RequestStopsTheDispatcher | src/openlcb/openlcb_main_statemachine.c:340-429 | Exactly when a request stops the dispatcher: once the reply that came with it is out, no continuation with the nodes as they are changes anything if and only if the asking node was the last and replied, or the filter of the node after it rejects the message. |
| DispatchReentry.RequestIsServedByTheNextNode | src/openlcb/openlcb_main_statemachine.c:1330-1341 | Otherwise the request of a node that is not the last, with or without a reply, is served by the node after it, whose answer it takes. |
| DispatchReentry.LastRequestIsDropped | src/openlcb/openlcb_main_statemachine.c:393-429 | Otherwise the request of the last node is dropped: its round ends in the same call. |
| DispatchReentry.RequestGoes | src/openlcb/openlcb_main_statemachine.c:314-429 | After the reply is out the request stands at the next node with the same message, at no node, or nowhere. |
| DispatchReentry.RequestedCall | src/openlcb/openlcb_main_statemachine.c:340-352 | While a request stands, a call enters the node it stands at exactly if the filter lets it act, and otherwise does nothing. |
| DispatchReentry.StuckWhileRejected | src/openlcb/openlcb_main_statemachine.c:340-352 | For as long as every call's view of that node rejects the message, or there is no node, no sequence of calls changes anything. |
| DispatchReentry.ReplyFirst | src/openlcb/openlcb_main_statemachine.c:314-333 | However often the wire refuses the reply that came with a request, nothing else happens; once it accepts, the request stands where `RequestGoes` says. |
| DispatchStopped.ADispatcherStops | src/openlcb/openlcb_main_statemachine.c:340-429 | For every queue depth a run of five calls from power-up, of two nodes, after which no continuation with these nodes changes anything. |
| Dispatch.MainStatemachine.constructor | src/openlcb/openlcb_main_statemachine.c:137-187 | Both contexts and the response queue start empty. |
| Dispatch.MainStatemachine.QueuePush | src/openlcb/openlcb_main_statemachine.c:212-248 | The circular buffer, its byte indices and the high-water mark after a push; a full queue is unchanged. |
| Dispatch.MainStatemachine.QueuePop | src/openlcb/openlcb_main_statemachine.c:252-265 | The slot popped, if any, and the new head. |
| Dispatch.MainStatemachine.ProcessMainContext | src/openlcb/openlcb_main_statemachine.c:441-482 | A main handler acts only behind the filter; its reply takes the slot and its re-entry request the flag. |
| Dispatch.MainStatemachine.ProcessSiblingContext | src/openlcb/openlcb_main_statemachine.c:441-482 | The same for the sibling context and its own slot. |
| Dispatch.MainStatemachine.HandleIdle | src/openlcb/openlcb_main_statemachine.c:1350-1381 | A waiting response starts its round before any incoming message is looked at. |
| Dispatch.MainStatemachine.HandleOutgoing | src/openlcb/openlcb_main_statemachine.c:1118-1141 | An accepted message starts its round when there are siblings and frees the slot when there are none; a refused one changes nothing. |
| Dispatch.MainStatemachine.SiblingHandleOutgoing | src/openlcb/openlcb_main_statemachine.c:314-333 | An accepted sibling response is queued and its slot freed; a refused one changes nothing. |
| Dispatch.MainStatemachine.DispatchAndAdvance | src/openlcb/openlcb_main_statemachine.c:363-429 | One visit, the advance, and the end of the round only when the last node has nothing to send. |
| Dispatch.MainStatemachine.FinishRound | src/openlcb/openlcb_main_statemachine.c:363-377 | The deferred end of a round clears the main slot. |
| Dispatch.MainStatemachine.TryReenumerate | src/openlcb/openlcb_main_statemachine.c:1152-1164 | Re-entry of the main handler on the current node while its flag is set. |
| Dispatch.MainStatemachine.EnumerateNode | src/openlcb/openlcb_main_statemachine.c:1216-1289 | First and next node of the held message, and its release after the last. |
| Dispatch.MainStatemachine.HandleIncoming | src/openlcb/openlcb_main_statemachine.c:1350-1381 | Re-enumerate, pop, first node, next node, in that priority; an invalid message is discarded. |
| Dispatch.MainStatemachine.Run | src/openlcb/openlcb_main_statemachine.c:1303-1383 | One call performs exactly the step on values, state and log, that the run theorems are about. |
| LoginRuns.LoginSequence | src/openlcb/openlcb_login_statemachine.c:163-207 | In every calm run from power-up, however the nodes interleave and whatever the wire and on_login_complete refuse: what the wire has accepted from a node is exactly the first messages of its announcement, each once and in list order: Initialization Complete with the node's identifier, MTI 0x0101 of a simple node and 0x0100 of any other; producer ranges 0x0524, start and length; producer events 0x0547, 0x0544 or 0x0545; consumer ranges 0x04A4; consumer events 0x04C7, 0x04C4 or 0x04C5; all global, from the node's alias and identifier. All of them once the node has reached LOGIN_COMPLETE, none before LOAD_INITIALIZATION_COMPLETE, after which the node is initialized and its enumerators run only while they announce. |
| LoginRuns.RulesOverRun | src/openlcb/openlcb_login_statemachine.c:514-589 | Every calm run obeys the rules of sending, every call finds a state it accepts, and what each node has loaded is exactly the part of its announcement its enumerators say. |
| LoginRuns.EachSentOnce | src/openlcb/openlcb_login_statemachine.c:380-404 | What a node loads the wire accepts once and in order, but for the last message while it waits. |
| LoginRuns.AnnouncementsAreShownToAll | src/openlcb/openlcb_login_statemachine.c:223-360 | In every calm run each announcement on the wire is shown to every node exactly once, in index order, handled exactly by running nodes that pass the filter, before its slot is given up. |
| LoginRuns.AnnouncementsAreActedOn | src/openlcb/openlcb_main_statemachine.c:441-482 | In every calm run an announcement is acted on by every running and initialized node but the one that sent it. |
| LoginCalls.WireTakesWhatIsOffered | src/openlcb/openlcb_login_statemachine.c:380-404 | In every calm run what the wire accepts is, in order, what the calls it accepts in put to it. |
| LoginCalls.HandlersAnswer | src/openlcb/protocol_event_transport.c:388-459 | In every calm run, call by call: the MTI of each event message tells the state the application gave for the event, unknown, set or clear; each visit shows the node as it is and lets it act exactly if the filter does; and what is loaded is the reply of the handler that acts. |
| LoginProgress.LoginEnds | src/openlcb/openlcb_login_statemachine.c:514-589 | With a bounded number of calm calls that are not refused, interleaved with anything the layer below does, a node that has reached LOAD_INITIALIZATION_COMPLETE is in RUNSTATE_RUN and stays there. |
| LoginProgress.CallComesCloser | src/openlcb/openlcb_login_statemachine.c:415-505 | Each such call makes a handler call that leaves fewer to make, or comes closer to the next one. |
| LoginProgress.NeverBack | src/openlcb/openlcb_login_statemachine.c:163-207 | No step takes a node out of RUNSTATE_RUN or back before its login. |
| LoginLimits.TooLongNeverRuns | src/openlcb/openlcb_login_statemachine_handler.c:154-349 | The bound of 255 entries is exact: a node with 256 or more events or ranges in a list never leaves its event states in any run, because the byte index wraps before the 16-bit count. |
| LoginReplies.RepliesOverRun | src/openlcb/openlcb_login_statemachine.c:259-360 | Over every calm run the sibling replies loaded are the replies the wire accepted and the one that waits, in order; outside a round all have been sent if and only if the last visit of the last round loaded none. |
| LoginReplies.LeftReplyGoesNext | src/openlcb/openlcb_login_statemachine.c:259-360 | In every calm run a reply left by one round is the first that is sent in the next. |
| LoginReplies.WaitingReplyIsSent | src/openlcb/openlcb_login_statemachine.c:259-275 | However many calls of a round the wire refuses, and whatever the layer below does meanwhile, nothing happens until the first call it accepts, which sends the waiting reply. |
| LoginReplies.RepliesAfterLogin | src/openlcb/openlcb_login_statemachine.c:340-360 | When every node runs, all replies loaded are ever sent, under any continuation, if and only if the last visit of the last round loaded none. |
| LoginReplies.LastReplyIsLeft | src/openlcb/openlcb_login_statemachine.c:340-360 | A reply of the last sibling is still unsent when the round ends. |
| LoginReplies.OnlyARoundSends | src/openlcb/openlcb_login_statemachine.c:514-560 | Outside a round no call sends a reply. |
| LoginReplies.NothingAfterwards | src/openlcb/openlcb_login_statemachine.c:514-589 | Once every node runs and no announcement is left, no run does anything. |
| LoginLostReply.AReplyIsLost | src/openlcb/openlcb_login_statemachine.c:340-360 | A run from power-up of two nodes after which every node runs and a given reply waits for ever. |
| LoginReentry.CalmKeepsInvariant | src/openlcb/openlcb_login_statemachine.c:287-360 | The assumption of the run theorems is exact: a call keeps the invariant if and only if no sibling handler entered in it, the last one aside, asks for re-entry. |
| LoginReentry.RequestStopsTheLogin | src/openlcb/openlcb_login_statemachine.c:287-360 | Exactly when a request stops the login of every node: once the reply that came with it is out, no continuation, of calls or of the layer below, changes anything if and only if there is a next node and its filter rejects the announcement. |
| LoginReentry.RejectionIs | src/openlcb/openlcb_main_statemachine.c:441-482 | Such a node is the announcing node itself or one that is not initialized. |
| LoginReentry.RequestIsServedByTheNextNode | src/openlcb/openlcb_login_statemachine.c:287-329 | Otherwise the request of a node that is not the last, with or without a reply, is served by the node after it. |
| LoginReentry.LastRequestIsDropped | src/openlcb/openlcb_login_statemachine.c:340-360 | The request of the last node is dropped: its round ends in the same call and the next starts without it. |
| LoginReentry.RequestGoes | src/openlcb/openlcb_login_statemachine.c:259-360 | After the reply is out the request stands at the next node with the same announcement, or nowhere. |
| LoginReentry.RequestedCall | src/openlcb/openlcb_login_statemachine.c:287-298 | While a request stands, a call enters the node it stands at exactly if the filter lets it act, and otherwise does nothing. |
| LoginReentry.StuckForever | src/openlcb/openlcb_login_statemachine.c:287-298 | At a node that rejects the announcement the request leaves every state as it is, whatever the layer below does. |
| LoginReentry.StuckIsSilent | src/openlcb/openlcb_login_statemachine.c:287-298 | From there on nothing is loaded, sent or shown. |
| LoginStopped.ALoginStops | src/openlcb/openlcb_login_statemachine.c:287-360 | A run from power-up of two nodes, the first in RUNSTATE_RUN, after which no call and no stage change moves the login of any node. |
| LoginRules.StepKeeps | src/openlcb/openlcb_login_statemachine.c:514-589 | One calm call keeps the invariant, obeys the rules of sending, and makes every node load at most one message, the next it owes. |
| LoginRules.HandleAdvances | src/openlcb/openlcb_login_statemachine_handler.c:102-349 | Each handler call loads exactly the next message the node owes or moves the node on, and leaves one call fewer to make. |
| LoginRules.ProducerAdvances | src/openlcb/openlcb_login_statemachine_handler.c:154-252 | The producer handler: ranges before events, each index once, then the consumers start from zero. |
| LoginRules.ConsumerAdvances | src/openlcb/openlcb_login_statemachine_handler.c:261-349 | The consumer handler: the same for consumers, then the login is complete. |
| LoginMachine.LoginStatemachine.constructor | src/openlcb/openlcb_login_statemachine.c:116-149 | Both contexts start empty. |
| LoginMachine.LoginStatemachine.LoadInitializationComplete | src/openlcb/openlcb_login_statemachine_handler.c:102-138 | The message with its MTI by PSI_SIMPLE, both enumerators reset, the node initialized and in LOAD_PRODUCER_EVENTS. |
| LoginMachine.LoginStatemachine.LoadProducerEvent | src/openlcb/openlcb_login_statemachine_handler.c:154-252 | The four branches on the node and the outgoing slot in memory. |
| LoginMachine.LoginStatemachine.LoadConsumerEvent | src/openlcb/openlcb_login_statemachine_handler.c:261-349 | The four branches on the node and the outgoing slot in memory. |
| LoginMachine.LoginStatemachine.Process | src/openlcb/openlcb_login_statemachine.c:163-207 | The handler of the node's run state; the completion callback may refuse. |
| LoginMachine.LoginStatemachine.HandleOutgoing | src/openlcb/openlcb_login_statemachine.c:380-404 | An accepted announcement starts its round when there are siblings and frees the slot when there are none. |
| LoginMachine.LoginStatemachine.SiblingHandleOutgoing | src/openlcb/openlcb_login_statemachine.c:259-275 | An accepted sibling response frees its slot and gets no round of its own. |
| LoginMachine.LoginStatemachine.ProcessSiblingContext | src/openlcb/openlcb_login_statemachine.c:311-329 | The main handlers act on the announcement only behind the filter. |
| LoginMachine.LoginStatemachine.Advance | src/openlcb/openlcb_login_statemachine.c:340-360 | The next sibling, or the end of the round after the last. |
| LoginMachine.LoginStatemachine.HandleIdle | src/openlcb/openlcb_login_statemachine.c:562-587 | Re-entry before the next node. |
| LoginMachine.LoginStatemachine.DispatchAndAdvance | src/openlcb/openlcb_login_statemachine.c:311-360 | One visit and the advance; after the last node the round ends whether or not a reply waits. |
| LoginMachine.LoginStatemachine.EnumerateNode | src/openlcb/openlcb_login_statemachine.c:440-505 | First and next node, processed unless running. |
| LoginMachine.LoginStatemachine.Run | src/openlcb/openlcb_login_statemachine.c:514-589 | One call performs exactly the step on values that the run theorems are about. |
| ClockRuns.MinutesOverRun | src/openlcb/openlcb_application_broadcast_time.c:655-711 | Over any run of tick calls less than 256 ticks apart, however batched and however the tick wraps, a running clock of any non-zero int16 rate, whatever its date fields hold, moves exactly floor((accumulator + 100 * abs(rate) * true ticks) / 240000) minutes, keeps the remainder, announces every minute once and in order, calls back at every midnight, and as a producer running forward sends one Date Rollover per midnight. |
| ClockStory.StoryOverRun | src/openlcb/openlcb_application_broadcast_time.c:446-743 | Over any such run everything a clock tells but its reports and replies, in order and nothing else: for each minute a date-rollover callback at midnight, year and month callbacks exactly when year and month change, the time callback and on_time_changed, each with that minute's calendar time, and a producer's dates. |
| ClockStory.DatesOverRun | src/openlcb/openlcb_application_broadcast_time.c:727-737 | Over any such run a producer with a node that runs forward sends Date Rollover, Report Year and Report Date at exactly the minutes that are 00:00, in order, with the year, month and day that begin; any other running clock sends none. |
| ClockStory.MinuteInFull | src/openlcb/openlcb_application_broadcast_time.c:689-743 | One minute in full: callbacks, on_time_changed, the report of the new time if one is due, the dates at midnight, in this order. |
| ClockStory.StandsStill | src/openlcb/openlcb_application_broadcast_time.c:667-681 | A slot that is unclaimed, stopped, at rate 0 or neither consumer nor producer keeps its time and tells nothing, over any run. |
| ClockStory.SendsForNoOne | src/openlcb/openlcb_application_broadcast_time.c:713-826 | A slot that is no producer, or has no node, sends nothing over any run. |
| ClockRuns.ThereAndBack | src/openlcb/openlcb_application_broadcast_time.c:655-711 | From a calendar date, T ticks at a rate followed by T ticks at the opposite rate end on the start or one minute beside it. |
| ClockRuns.NoOverflow | src/openlcb/openlcb_application_broadcast_time.c:679-689 | The 32-bit accumulator never overflows between ticks. |
| ClockRuns.ElapsedIsTrue | src/openlcb/openlcb_application_broadcast_time.c:657-665 | The 8-bit subtraction recovers the true gap of two calls. |
| ClockRuns.DrainCounts | src/openlcb/openlcb_application_broadcast_time.c:689-711 | The loop takes out exactly the whole minutes, one calendar step each. |
| ClockRuns.DrainAnnounces | src/openlcb/openlcb_application_broadcast_time.c:689-711 | The loop announces every minute once, in order. |
| ClockRuns.DrainMidnights | src/openlcb/openlcb_application_broadcast_time.c:689-737 | The loop meets each midnight once, with its callback and, forward, its Date Rollover. |
| ClockRuns.CountedTransitive | src/openlcb/openlcb_application_broadcast_time.c:655-711 | Two stretches of counting make one: batching does not matter. |
| Calendar.SteppingInverse | src/openlcb/openlcb_application_broadcast_time.c:446-589 | Forward and backward stepping are mutual inverses on every valid date and time, leap years and the year wrap included. |
| Calendar.UndoneExactly | src/openlcb/openlcb_application_broadcast_time.c:446-589 | For every content of the date fields: a step is undone by the opposite step unless it crosses midnight at a date the calendar does not hold, such as 31 April or month and day 0, with the exact condition in each direction. |
| Calendar.NoReturnFromApril31 | src/openlcb/openlcb_application_broadcast_time.c:446-589 | From 31 April, which a date event can carry, forward over midnight and back ends on 30 April. |
| Calendar.ForwardCounts | src/openlcb/openlcb_application_broadcast_time.c:446-513 | A forward step keeps validity and adds one to the absolute minute, modulo the 65536-year cycle. |
| Calendar.BackwardCounts | src/openlcb/openlcb_application_broadcast_time.c:522-589 | A backward step keeps validity and takes one from the absolute minute, modulo the cycle. |
| Calendar.StepsCount | src/openlcb/openlcb_application_broadcast_time.c:446-589 | n steps either way move the absolute minute by n, modulo the cycle. |
| Calendar.AbsMinuteInjective | src/openlcb/openlcb_application_broadcast_time.c:404-430 | The absolute minute determines the date and time, so it is a faithful reference for the stepping. |
| CivilDays.DayIsCivil | src/openlcb/openlcb_application_broadcast_time.c:404-430 | The day count of every date is that of the Gregorian calendar in closed form, by quotients of 4, 100 and 400 and years that begin in March. |
| CivilDays.MinuteIsCivil | src/openlcb/openlcb_application_broadcast_time.c:404-430 | The absolute minute of every date and time in closed form. |
| CivilDays.StrayMonth | src/openlcb/openlcb_application_broadcast_time.c:404-430 | A month the calendar does not hold, such as month 0, is stepped through as one of 30 days. |
| ClockProducer.CompletedRepliesAreWhole | src/openlcb/openlcb_application_broadcast_time.c:787-826 | However polls, refusals and triggers interleave, whenever a poll completes a reply the last six messages the transport accepted are Start-or-Stop, Rate, Year, Date, Time and next minute, in that order (section 6.3 of the Broadcast Time Standard). |
| ClockProducer.ReplyOverRun | src/openlcb/openlcb_application_broadcast_time.c:1096-1188 | An undisturbed reply makes one attempt per poll whose tick has moved; the accepted ones are the six in order, and the pending flag clears exactly with the sixth. |
| ClockProducer.ReplyContent | src/openlcb/openlcb_application_broadcast_time.c:806-816 | Each message is the one its position calls for and carries the clock's own data: running flag, rate, year, month and day, hour and minute, and the calendar's following minute. |
| ClockReply.ListenerLearns | src/openlcb/openlcb_application_broadcast_time.c:1096-1188 | A listener that applies a whole undisturbed reply, whatever it held before, holds the producer's running flag and rate, and its year, its month and day, and its hour and minute as of the poll that sent each, and the following minute as of the last. |
| ClockReply.ListenerKnows | src/openlcb/openlcb_application_broadcast_time.c:1096-1188 | After any part of the reply it holds what the messages sent so far tell. |
| ClockReply.LoginGivesOneReply | src/openlcb/openlcb_application_broadcast_time.c:787-800 | When its node reaches RUNSTATE_RUN a producer gives one reply: none before, if none was asked for; the first message attempted in the poll that sees the login; the six accepted in order, once; a reply in progress is restarted. |
| ClockProducer.ReplyComesLast | src/openlcb/openlcb_application_broadcast_time.c:804-826 | In a poll the reply's message comes after all that its minutes tell and send. |
| ClockSync.BurstGivesOneReply | src/openlcb/openlcb_application_broadcast_time.c:763-785 | Any burst of Set commands, polls between them, is worth one reply. Until 30 ticks after the last command the slot does what it would do without the burst; the poll that reaches them attempts the first message, restarting a reply in progress; from it on the accepted messages are the six of one reply, in order, once, and the pending flag clears with the sixth. |
| ClockSync.BurstWaits | src/openlcb/openlcb_application_broadcast_time.c:1441-1452 | During a burst the slot does exactly what it would do without it, a reply in progress included; only the delay counts down from the last command. |
| ClockSync.BurstIsSilent | src/openlcb/openlcb_application_broadcast_time.c:763-785 | Without a reply in progress nothing is attempted during a burst. |
| ClockSync.QueryErasesBurst | src/openlcb/openlcb_application_broadcast_time.c:1412-1427 | A query during a burst leaves the slot as though no Set command had come. |
| ClockSync.QueryCancelsSync | src/openlcb/openlcb_application_broadcast_time.c:1412-1427 | After a query the sync of any earlier Set command starts nothing: the messages accepted from the query on are the six of its one reply, in order, once. |
| ClockSync.SinceIsTrue | src/openlcb/openlcb_application_broadcast_time.c:657-665 | The ticks counted since the last Set command are true time from the last tick seen before it, for polls less than 256 ticks apart. |
| ClockProducer.ReportsApart | src/openlcb/openlcb_application_broadcast_time.c:713-761 | Two consecutive Report Time polls are at least 600 - e_i + e_j ticks apart, where e is the number of ticks each poll batches: 600 when every tick is polled, however many minutes a tick holds and however many polls in between find the tick unmoved. |
| ClockSpacing.SpacingBound | src/openlcb/openlcb_application_broadcast_time.c:713-761 | The promised 600 ticks hold for every producer at every rate a rate event can carry, in all runs of polls that batch at most a given number of ticks, polls of an unmoved tick included, if and only if that number is at most 1. |
| ClockSpacing.BatchingShortensTheGap | src/openlcb/openlcb_application_broadcast_time.c:713-761 | After a report in a poll of e ticks the next poll with the cooldown spent comes 601 - e ticks later, reports exactly if it completes a minute, and keeps the promised 600 exactly if e is 1. |
| ClockSpacing.WitnessReports | src/openlcb/protocol_broadcast_time_handler.c:608-644 | The failing run uses rate 2047, the largest a twelve-bit rate event carries, and the empty accumulator such an event leaves. |
| ClockProducer.PollReports | src/openlcb/openlcb_application_broadcast_time.c:713-761 | A poll reports at most once, the first minute it completes, exactly with the cooldown run out and a whole minute in, never when the tick has not moved, and leaves a cooldown that has already lost its own ticks. |
| FastClock.BroadcastClock.AdvanceMinuteForward | src/openlcb/openlcb_application_broadcast_time.c:446-513 | The in-place step is the calendar's, with the callbacks of each rollover in order. |
| FastClock.BroadcastClock.AdvanceMinuteBackward | src/openlcb/openlcb_application_broadcast_time.c:522-589 | The in-place step is the calendar's, with the callbacks of each rollover in order. |
| FastClock.BroadcastClock.AdvanceOneMinute | src/openlcb/openlcb_application_broadcast_time.c:689-743 | One pass of the accumulator loop: time, callbacks, report and rollover sends. |
| FastClock.BroadcastClock.AdvanceTime | src/openlcb/openlcb_application_broadcast_time.c:679-745 | The accumulator loop drains every whole minute. |
| FastClock.BroadcastClock.CoolDown | src/openlcb/openlcb_application_broadcast_time.c:747-761 | The report cooldown after the elapsed ticks. |
| FastClock.BroadcastClock.CountDownSync | src/openlcb/openlcb_application_broadcast_time.c:763-785 | The sync delay after the elapsed ticks, and the reply it starts. |
| FastClock.BroadcastClock.WatchLogin | src/openlcb/openlcb_application_broadcast_time.c:787-802 | The start-up reply when the node reaches RUNSTATE_RUN (section 6.1 of the Broadcast Time Standard). |
| FastClock.BroadcastClock.SendQueryReply | src/openlcb/openlcb_application_broadcast_time.c:1096-1188 | One message of the reply by state, and the next state only if it was accepted. |
| FastClock.BroadcastClock.DriveReply | src/openlcb/openlcb_application_broadcast_time.c:804-826 | The reply's step, with the following minute computed for its last message. |
| FastClock.BroadcastClock.TickSlot | src/openlcb/openlcb_application_broadcast_time.c:667-828 | The whole body of the tick loop for one slot. |
| FastClock.BroadcastClock.RequestReply | src/openlcb/openlcb_application_broadcast_time.c:1412-1427 | The reply restarts and a waiting sync is cancelled. |
| FastClock.BroadcastClock.RequestSync | src/openlcb/openlcb_application_broadcast_time.c:1441-1452 | The sync delay starts over. |
| FastClock.BroadcastClock.Zero | src/openlcb/openlcb_application_broadcast_time.c:121-147 | A claimed slot starts from zero. |
| ClockTable.BroadcastTime.TimeTick | src/openlcb/openlcb_application_broadcast_time.c:655-830 | One tick call moves every allocated slot by its own step and no other, and does nothing when the tick has not moved. |
| ClockTable.BroadcastTime.FindClockById | src/openlcb/openlcb_application_broadcast_time.c:78-112 | The lookup prefers a producer with a node, else the first match. |
| ClockTable.BroadcastTime.FindOrAllocate | src/openlcb/openlcb_application_broadcast_time.c:121-147 | An existing slot, else the first free one zeroed and claimed, else none. |
| ClockTable.BroadcastTime.TriggerQueryReply | src/openlcb/openlcb_application_broadcast_time.c:1412-1427 | Restarts the reply and cancels a sync on the slot found, if it is a producer. |
| ClockTable.BroadcastTime.TriggerSyncDelay | src/openlcb/openlcb_application_broadcast_time.c:1441-1452 | Restarts the sync delay on the slot found, if it is a producer. |
| ClockTable.FindMeans | src/openlcb/openlcb_application_broadcast_time.c:78-112 | A lookup fails exactly when no allocated slot has the id, never returns a silent duplicate of a producer, and passes over a slot with the id only for the first producer with a node. |
| ClockTable.AllocationKeepsUnique | src/openlcb/openlcb_application_broadcast_time.c:121-147 | Allocation keeps ids unique, the new slot is the one a lookup finds, and it is blank but for its id. |
| Lights.ScheduleOverRun | callbacks.cpp:125-148 | End to end: with on and off times that differ, once a trigger minute has been announced (1440 minutes always contain one) the group of a clock running forward is on exactly inside the cyclic interval [on, off), for every rate, batching and date content. A clock running backward leaves it right exactly at the two trigger minutes. |
| Lights.FollowIsRight | callbacks.cpp:138-145 | From the first trigger minute on, or from a right start, the flag stays right minute by minute. |
| Lights.ADayTriggers | callbacks.cpp:138-145 | Any 1440 consecutive announced minutes contain a trigger minute. |
| Lights.OnlyItsTimesSwitch | callbacks.cpp:138-145 | A group whose two times are the same minute, or none of whose times is announced, keeps its flag. |
| Lights.BackwardAgreesOnlyAtTriggers | callbacks.cpp:138-145 | Backward time agrees with the schedule exactly at the trigger minutes. |
| Lights.LightControl.OnTimeChanged | callbacks.cpp:125-148 | The loop applies each group's schedule to its own flag and touches no string. |
| Lights.LightControl.constructor | NPlights.cpp:250-268 | All strings on with effects and all groups on. |
| Lights.LightControl.PixelCallback | NPlights.cpp:111-168 | Every event index changes exactly what it decodes to, and nothing else. |
| LightEvents.GroupsOverRun | NPlights.cpp:111-130 | After any sequence of events group g is on exactly if the last of the events 2 + 2g and 3 + 2g was 2 + 2g. |
| LightEvents.StringsOverRun | NPlights.cpp:131-168 | After any sequence of events, for each string s: on, effects and dimmed are what the last event that sets or clears them said, toggled as often as events have toggled them since; by index, on 14 + 7s, off 15 + 7s and so on, the dimmer toggle and every luminance event also turning the string on. |
| Lights.LightControl.StringAction | NPlights.cpp:131-164 | The seven actions on one string. |
| Lights.LightControl.Dimmer | NPlights.cpp:715-787 | Switching the luminance sets it on every configured string, which it also turns on, and on no other. |
| Lights.DecodeEncode | NPlights.cpp:111-134 | The 42 event indices decode to distinct events within the group and string bounds. |
| Effects.BlinkClosedForm | NPlights.cpp:394-440 | From a spent count a blinking lead is periodic, with its configured cycles on and off; a configured 0 lasts 256 cycles. |
| Effects.BlinkFromAnyState | NPlights.cpp:394-440 | The closed form from any state and count. |
| Effects.PhaseHolds | NPlights.cpp:394-440 | A blinking or flickering lead whose count is spent leaves its state and stays in the other for the whole phase, configured or drawn at random, dark or at its intensity. |
| Effects.SteadyLead | NPlights.cpp:394-440 | A lead whose group is off, or that neither blinks nor flickers, keeps its state while its count runs down as a byte; it is dark with the group off or without effect, else at its intensity. |
| Effects.LightString.constructor | NPlights.cpp:250-268 | The starting cycle sets the phase. |
| Effects.LightString.ProcessEffects | NPlights.cpp:370-440 | Every lead moves by its own configuration, group and state: leads never influence each other. |
| Effects.LightString.ProcessLead | NPlights.cpp:382-440 | One lead's count, state and brightness, and no other lead's. |
| GridConnect.StreamRoundTrip | src/openlcb/openlcb_gridconnect.c:121-240 | From any parser state, printed messages separated by any noise without ';' come out exactly, in order, and decode to the messages sent. |
| GridConnectStream.ParserFindsMessages | src/openlcb/openlcb_gridconnect.c:121-240 | On any input whatever a waiting parser hands over exactly the messages in it, in order: an attempt begins at an X, ends with and spends the first character that does not fit (a ninth digit one more), and counts if its text is a complete frame. |
| GridConnectStream.PrintText | src/openlcb/openlcb_gridconnect.c:341-362 | The text of a message character by character: ':X', eight digits from the highest, 'N', two for each byte in order, high one first, ';', in upper case. |
| GridConnect.AcceptsOnlyFrames | src/openlcb/openlcb_gridconnect.c:121-240 | The parser accepts only input that ends in [Xx] 8 hex digits [Nn] an even number of hex digits ';', and hands over exactly that with its ':'. |
| GridConnect.FrameFromAnyState | src/openlcb/openlcb_gridconnect.c:121-240 | A complete message is accepted from every state, and nothing else is with it. |
| GridConnect.BareFrame | src/openlcb/openlcb_gridconnect.c:125-140 | Without its ':' a message is accepted exactly when the parser was waiting for one. |
| GridConnect.FeedKeepsValid | src/openlcb/openlcb_gridconnect.c:121-240 | Whatever byte comes, the collected text keeps its form and stays inside the 29-byte buffer. |
| GridConnect.PrintDecode | src/openlcb/openlcb_gridconnect.c:266-362 | Decoding a printed message gives the message back, for every identifier and payload. |
| GridConnect.DecodePrint | src/openlcb/openlcb_gridconnect.c:266-362 | Printing a decoded message gives the text back in upper case. |
| GridConnectBuffers.StreamParser.CopyOutWhenDone | src/openlcb/openlcb_gridconnect.c:121-240 | The parser in its fixed buffer performs one step of the parser on values and hands over the completed text as a C string, and only then. |
| GridConnectBuffers.StreamParser.Finish | src/openlcb/openlcb_gridconnect.c:183-205 | The text handed over is terminated and whole. |
| GridConnectBuffers.FromCanMsg | src/openlcb/openlcb_gridconnect.c:341-362 | The printed text of a message with at most eight bytes fits the buffer with its terminator. |
| GridConnectBuffers.ToCanMsg | src/openlcb/openlcb_gridconnect.c:266-315 | Decoding from the buffer, and the empty message for a text shorter than a header. |
| GridConnectBuffers.DecodeIdentifier | src/openlcb/openlcb_gridconnect.c:281-292 | The eight digits of the identifier. |
| GridConnectBuffers.DecodeBytes | src/openlcb/openlcb_gridconnect.c:294-313 | Every pair of data digits is one payload byte, in order. |
| GridConnectBuffers.StreamParser.Append | src/openlcb/openlcb_gridconnect.c:140-221 | A stored byte extends the collected text by exactly itself. |
| BufferFifo.PushNeverRefused | src/openlcb/openlcb_buffer_fifo.c:98-118 | Pigeonhole: over any run that pushes pool messages only while they are not queued, for every pool size, no push is refused and no message is queued twice. |
| BufferFifo.Fifo.constructor | src/openlcb/openlcb_buffer_fifo.c:71-86 | The queue starts empty with one slot more than the pool has messages. |
| BufferFifo.Fifo.Push | src/openlcb/openlcb_buffer_fifo.c:98-118 | The circular buffer refines a sequence: a push appends, or is refused exactly when as many are queued as the pool has. |
| BufferFifo.Fifo.Pop | src/openlcb/openlcb_buffer_fifo.c:130-147 | A pop takes the oldest, or nothing from an empty queue. |
| BufferFifo.Fifo.GetAllocatedCount | src/openlcb/openlcb_buffer_fifo.c:208-220 | The count is the number queued, through the wrap. |
| BufferFifo.Fifo.IsEmpty | src/openlcb/openlcb_buffer_fifo.c:153-157 | Empty exactly when nothing is queued. |
| BufferFifo.Fifo.InvalidateBySourceAlias | src/openlcb/openlcb_buffer_fifo.c:175-202 | Exactly the queued messages of the alias are marked, in place and in order; alias 0 marks none. |
| BufferAccounting.AccountsOverRun | src/openlcb/openlcb_buffer_store.c:205-329 | Over any sequence of allocations, references, frees and clears on live buffers without such a premature release, every flag and reference byte agrees with the references held and every counter is the number of slots in use in its segment. |
| BufferAccounting.CountsOverRun | src/openlcb/openlcb_buffer_store.c:126-193 | Over any such run each of the four counters is the number of slots in use in its own segment. |
| BufferAccounting.PeaksOverRun | src/openlcb/openlcb_buffer_store.c:126-193 | A peak is the largest count an allocation of its type has reached since the last clear: none exceeds it and one attains it. |
| BufferAccounting.AllocationFailsWhenFull | src/openlcb/openlcb_buffer_store.c:205-263 | An allocation fails exactly when as many buffers of its type are in use as the type's depth, and otherwise returns an unheld slot of the segment. |
| BufferAccounting.FreeKeepsAccounts | src/openlcb/openlcb_buffer_store.c:277-329 | A free keeps the accounts exactly unless the reference byte reads 1 with more than one reference held; with 257 held the slot is given back early. |
| BufferAccounting.OpKeepsAccounts | src/openlcb/openlcb_buffer_store.c:205-329 | A legal operation keeps the accounts if and only if it is not a release that the reference byte takes for the last one too early. |
| BufferAccounting.InitiallyAccounted | src/openlcb/openlcb_buffer_store.c:83-118 | The pool as initialised is in order. |
| BufferStore.Store.constructor | src/openlcb/openlcb_buffer_store.c:83-118 | All slots free, payload types by segment, counters at zero. |
| BufferStore.Store.UpdateTelemetry | src/openlcb/openlcb_buffer_store.c:126-193 | The counter of one type and its peak. |
| BufferStore.Store.AllocateBuffer | src/openlcb/openlcb_buffer_store.c:205-263 | The first free slot of the segment, blank in every field, with one reference, and its telemetry; null and nothing changed when there is none. |
| BufferStore.Store.SegmentBounds | src/openlcb/openlcb_buffer_store.c:210-244 | The segment of each payload type; none for workers. |
| BufferStore.Store.FindFree | src/openlcb/openlcb_buffer_store.c:246-261 | The first free slot of a segment, or none. |
| BufferStore.Store.Take | src/openlcb/openlcb_buffer_store.c:246-256 | A message with one reference that keeps its payload type and nothing of what was in it before. |
| BufferStore.Store.DropReference | src/openlcb/openlcb_buffer_store.c:277-329 | The slot is given back exactly when the byte reaches zero. |
| BufferStore.Store.CountDownFor | src/openlcb/openlcb_buffer_store.c:277-329 | The counter of the message type that was given back. |
| BufferStore.Store.FreeBuffer | src/openlcb/openlcb_buffer_store.c:277-329 | One reference less, the slot given back with the last; null is ignored. |
| BufferStore.Store.IncReferenceCount | src/openlcb/openlcb_buffer_store.c:388-392 | One reference more, in the byte. |
| BufferStore.Store.ClearMaxAllocated | src/openlcb/openlcb_buffer_store.c:395-402 | Every peak is zero and nothing else changes. |
| BufferList.ReleasedWhenDue | src/openlcb/openlcb_buffer_list.c:205-226 | With sweeps at most 226 ticks apart a message in assembly expires at the first sweep where its true age has reached 30 ticks, and at none before. |
| BufferList.SafeBound | src/openlcb/openlcb_buffer_list.c:47-48 | 226 is exact: every due message is caught for all gaps up to a bound if and only if the bound is at most 226. |
| BufferList.LongerGapMisses | src/openlcb/openlcb_buffer_list.c:205-226 | For every gap from 227 to 255 a due message that the sweep takes for new. |
| BufferTimeouts.LeavesWhenDue | src/openlcb/openlcb_buffer_list.c:205-226 | Over any run of additions, completions and sweeps at most 226 ticks apart, the first sweep at which the true age of a message in assembly has reached 30 ticks takes it off the list. |
| BufferTimeouts.StaysUntilDue | src/openlcb/openlcb_buffer_list.c:205-226 | Until then it stays in its slot, whatever comes, completes or is swept. |
| BufferAccounting.SweepKeepsAccounts | src/openlcb/openlcb_buffer_list.c:205-226 | A sweep keeps the pool's accounts, counters included. |
| BufferList.List.CheckTimeouts | src/openlcb/openlcb_buffer_list.c:205-226 | Exactly the expired messages in assembly leave the list, each giving back one reference, so the pool, counters included, is what these frees make of it; every other entry and pool slot is untouched. |
| BufferList.List.Add | src/openlcb/openlcb_buffer_list.c:82-101 | The first empty slot, or null exactly when there is none. |
| BufferList.List.constructor | src/openlcb/openlcb_buffer_list.c:59-67 | The list starts empty. |
| BufferList.List.Find | src/openlcb/openlcb_buffer_list.c:115-139 | The first message with the source, destination and MTI, or null when none has them. |
| BufferList.List.Release | src/openlcb/openlcb_buffer_list.c:151-173 | A listed message leaves the list unfreed; an unlisted one changes nothing. |
| BufferList.UnlistedFits | src/openlcb/openlcb_buffer_list.c:82-101 | A list as long as the pool always has room for a pool message not yet on it. |
| NodeTable.EnumerationEnds | src/openlcb/openlcb_node.c:179-234 | An enumeration visits nodes 0 to count - 1 in order and ends if and only if count is at most 255; with more the byte index wraps and it never ends. |
| NodeTable.KeysAreIndependent | src/openlcb/openlcb_node.c:179-234 | However calls with other keys interleave, a key's index counts its own Next calls since its own First. |
| NodeTable.Nodes.Allocate | src/openlcb/openlcb_node.c:334-367 | Nodes fill the pool from the front; a full pool is the only failure. |
| NodeTable.Nodes.constructor | src/openlcb/openlcb_node.c:144-160 | The pool starts empty. |
| NodeTable.Nodes.GetFirst | src/openlcb/openlcb_node.c:179-198 | Restarts one key and moves no other. |
| NodeTable.Nodes.GetNext | src/openlcb/openlcb_node.c:213-234 | Moves one key on and no other. |
| NodeTable.Nodes.IsLast | src/openlcb/openlcb_node.c:247-263 | Whether a key stands on the last node or beyond. |
| FieldReader.ReadFieldArray | src/openlcb/openlcb_config.c:409-456 | For every sorted field list, address and count the buffer receives exactly the slice of the flat image, gaps as zero, min(count, end - address) bytes, and keeps the rest. |
| FieldReader.ReadField | src/openlcb/openlcb_config.c:414-452 | One pass of the loop extends the slice through one field, gap and clipping included. |
| FieldReader.ReadInTwoParts | src/openlcb/openlcb_config.c:409-456 | Reading n + m bytes is reading n and then m. |
| FieldReader.ReadIsSlice | src/openlcb/openlcb_config.c:409-456 | Every read is a slice of the one image a full read returns. |
| FieldReader.ImageInField | src/openlcb/openlcb_config.c:431-451 | Inside a field the image is the field's data. |
| FieldReader.ImageInGap | src/openlcb/openlcb_config.c:420-430 | Between fields the image is zero. |
| FieldReader.ReadAcdiUser | src/openlcb/openlcb_config.c:493-585 | The user space is one flat image of version, name and description over configuration memory; a read delivers a prefix of the slice, and all of it unless configuration memory delivers short. |
| FieldReader.UserSpaceIs | src/openlcb/openlcb_config.c:493-585 | The user space is the version byte, then 63 bytes of name and 64 of description that lie one after the other in configuration memory. |
| FieldReader.ReadUserField | src/openlcb/openlcb_config.c:507-573 | One field of the user space: a zero byte without configuration memory, else one read of what is left of the field. |
| Float16.FromFloatRoundsTowardZero | src/openlcb/openlcb_float16.c:83-145 | Every finite single converts to the largest finite half magnitude not above it: rounding toward zero (IEEE 754-2008 section 4.3.2), subnormals included, overflow clamped to the largest finite half (section 7.4). |
| Float16.FromFloatIsNearestBelow | src/openlcb/openlcb_float16.c:83-145 | The same as an order statement: a finite half fits below the single exactly when it fits below the result. |
| Float16.RoundTrip | src/openlcb/openlcb_float16.c:163-213 | from_float(to_float(h)) is h for every half that is not a NaN, subnormals and infinities included. |
| Float16.WideningIsExact | src/openlcb/openlcb_float16.c:163-213 | Every finite half widens to a single of the same magnitude. |
| Float16.FromFloatMonotone | src/openlcb/openlcb_float16.c:83-145 | Conversion never reverses the order of two singles that are not NaNs, across signs. |
| Float16.SpeedReadsBack | src/openlcb/openlcb_float16.c:244-285 | A coded speed reads back its direction and the nearest half magnitude not above it. |
| Float16.SpecialsNarrow | src/openlcb/openlcb_float16.c:83-145 | Every NaN narrows to the one quiet NaN of its sign, and infinities to infinities. |
| Float16.SpecialsWiden | src/openlcb/openlcb_float16.c:163-213 | Every NaN widens to a NaN of its sign with its payload, and infinities to infinities. |
| Float16.OneIsOne | src/openlcb/openlcb_float16.c:83-213 | 1.0 and -1.0 in both formats. |
| Float16.FromFloatBits | src/openlcb/openlcb_float16.c:83-145 | The branches on the bit pattern compute the conversion. |
| Float16.ToFloatBits | src/openlcb/openlcb_float16.c:163-213 | The exponent that runs below zero in 32 bits comes back to the right value. |
| Float16.Normalise | src/openlcb/openlcb_float16.c:177-190 | The loop brings the leading one to bit 10 and counts the shifts. |
| Float16.SpeedWithDirection | src/openlcb/openlcb_float16.c:244-262 | The magnitude of the speed with the direction as sign. |

## Left out

- Dispatch.MainStatemachine.Run: models at most 255 nodes, because an enumeration of more never ends (`NodeTable.EnumerationEnds`), and not the single pending slot for application sends (`send_with_sibling_dispatch`), whose overwriting rules belong to its callers.
- Dispatch.MainStatemachine.HandleIdle: without that pending slot, only the response queue starts rounds at priority 2.5.
- DispatchRuns.RulesOverRun: assumes calm calls; `DispatchReentry` shows that exactly those keep the invariant, and what happens otherwise.
- DispatchProgress.HeldIsFreed: assumes that a main handler that asked to be re-entered is let act again, which a filter that turns against it would prevent.
- ClockRuns.ThereAndBack: keeps the calendar-date assumption; `Calendar.UndoneExactly` says which dates stepping there and back keeps.
- DispatchFull.NeverLostExactly: speaks of responses to main messages; a response to a queued response may find others still waiting, and `DispatchRuns.NothingLostOrRepeated` says which are admitted.
- LoginProgress.LoginEnds: assumes that no alias is reset during login, calm calls, and at most 255 entries per list; `LoginReentry` and `LoginLimits` show what happens otherwise.
- ClockSync.BurstGivesOneReply: the producer's node has logged in; reaching RUNSTATE_RUN starts a reply of its own. The 30 ticks count from the last tick the polls saw before the last Set command, as the code counts them.
- LoginRuns.LoginSequence: the state of an event, which its MTI tells, is an input to the call that loads it.
- FieldReader.ReadAcdiUser: a configuration memory that delivers short ends the read early, so only a prefix of the slice is promised then.
- GridConnectBuffers.ToCanMsg: decodes texts the parser hands over; for other texts `strtoul` would decide.
- Lights.LightControl.PixelCallback: takes the 42 event indices that are configured; a larger index addresses no string.
- Effects.LightString.ProcessEffects: the flicker effect's random count is an input.
- Calendar.AbsMinuteInjective: counts minutes from year 0 of the proleptic Gregorian calendar; the 65536-year wrap is stated as a modulus.
- The MTI switch and the protocol handlers behind it: a step takes what a handler answers (at most one reply, and whether it asks to be re-entered) as an input. Handlers do not change a node's run state.
- ClockReply.ListenerLearns: the producer's node stays logged in and no trigger or sync comes between, as for `ClockProducer.ReplyOverRun`; the event identifiers that carry the data on the network are not part of this model.
- DispatchDelivery.HeldIsActedOn: the nodes' identifiers and aliases stay as they are over the run; their run states may change.
- Message payloads: an event identifier, a node identifier and a range are abstract numbers; the event-identifier constructors and `generate_event_range_id` are not part of this model.
- The receive FIFO and the message pool as seen by the dispatcher: a pop is an input and a release an event of the log; the pool and the FIFO have models of their own.
- The nodes' run state, alias and identifier as the dispatcher sees them: an input to every step.
- Network-driven Set and Report handling of the fast clock, its query and command senders, and the consumer's received-time callbacks.
- The set-up, start and stop calls of the fast clock beyond finding and allocating a slot.
- Pixel colours, strip buffers, luminance values, `Show`, and the head and test routines of the lights: input and output.
- Datagrams, streams, configuration memory operations, trains, traction search, CAN alias negotiation: the handlers are not part of this model.
- The copy of a node's identity, its event identifiers and its parameters at allocation; searches by alias and by identifier.
- Display, touch, serial output, file system, board and pin definitions.
- The timer interrupt: it is the tick value passed to each call.
