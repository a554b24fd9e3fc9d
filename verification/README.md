# Verified models of the Belgian eID middleware

This project models the parts of the eID middleware and viewer where a mistake is hardest to see by reading
one function, and proves what they promise together. To check it, use `dafny verify dfyconfig.toml` with Dafny 4.11.

## What is modelled

**The viewer's state machine** (`StateTable`, `Dispatcher`, `Growth`, `Discipline`, `SilentErrors`, `Soundness`,
`Ends`, `EndsReached`, `RulesKept`, `Confinement`, `Settling`,
`ViewerTable`, `ViewerMachine`, `CardRuns`, `CardReading`, `Journeys`, `Machine`). A forest of states with enter and leave callbacks. Callbacks may fail or raise
further events, which the dispatcher handles at once, inside the handling of the event that ran the callback; the
outer activation notices that the current state changed and stops. Callbacks are oracles: a *script* lists the
answers they will give, so a theorem about all scripts is a theorem about all behaviours. A script may also hold answers
that a callback cannot give, or run out; a log is `Real` as far as every answer in it can be given, and a claim that the
rules *are broken* is a claim about real logs. `Dispatch` is the
dispatcher as a function of table, state and script; the class `Machine` is the program with its loops and its
mutable current state, proved to compute that function. The rules that a log of callbacks has to follow are
stated apart from the dispatcher, in `Discipline`, as a replay that keeps a stack of active states. The general
theorem is about every forest in which states entered as parents do not disturb the entering (`QuietParents`): there
the dispatcher keeps the rules if and only if no handling of a failed leave can end in the state that was to be left
(`Settled`). `RulesKept.TableExactly` turns that into a condition on the table alone: where an event can end is what every
set of ways that is closed under the dispatcher's rules contains (`EndsReached.EndsExactly`), so a table keeps the rules if
and only if some closed set has no way from a failed leave back. Two simpler conditions suffice whatever is answered
(`Steady`): `WellFormed`, where error transitions raise nothing and land elsewhere, which is also necessary where they
raise nothing; and `Confined`, where they may raise events. The shipped table of 20 states is then shown to be
well-formed. What it is for is stated apart from it: `CardReading` says on the log alone that a card is opened, read and
verified in this order, and `Journeys` says where each event takes the user.

**The event queue** in front of it (`EventQueue`): producers and one consumer over a linked list, as steps that
interleave in any order; the heap list refines a sequence.

**Sessions, objects and searches of the PKCS #11 module** (`Attributes`, `ObjectTable`, `Engine`, `Evolution`,
`SessionSafety`, `Logins`, `SearchRuns`, `Listing`, `Answering`, `Results`, `Cryptoki`; OASIS PKCS #11 Base Specification v2.40, sections 5.6 and 5.7). `Engine`
states each call as a function on the session table and the slots; what a reader reports is an input of every call,
so a run is a list of calls with arbitrary reports. The class `Tables` in `Cryptoki` is the program: loops that search,
grow and overwrite the tables, each proved equal to its function. `epoch`, `openedIn`, `addedIn` and `loginEpoch` are
history: they count how often a slot was cleaned, and never influence a call.

**The DER reader and what is extracted with it** (`Asn1`, `DerHeaders`, `DerTree`, `Certificate`; ITU-T X.690 sections 8.1 and 8.6,
RFC 5280 section 4.1) and the number codecs next to it (`NumberCodecs`; X.690 sections 8.19 and 11.2). The reader
works on a memory and a pointer as the original does; trees with an encoder are the independent reference. `DerHeaders` and `DerBounds`
are about arbitrary memory: what the bytes of a header say, and where what is delivered lies.

**Card files and TLV fields of the minidriver** (`CardFile`, `Tlv`), **the reader and card monitor** of the viewer
(`ReaderMonitor`, and `MonitoredRuns` for both together) and **the eID file format** (`XmlFormat`, `XmlFiles`, `XmlTree`).
The conversions of values to text and back are parameters of the format; nothing is assumed about them.

## Where the code differs from what one would expect

* The state diagram lets a removed token lead from TOKEN to NO_TOKEN
  (`plugins_tools/eid-viewer/uml/be-statemach.puml:32`); the code goes to READY (`plugins_tools/eid-viewer/state.c:165`).
  The model follows the code.
* A failing enter callback of TOKEN has no error transition, so TOKEN_ID is entered all the same
  (`CardRuns.OpensEachTime`, `CardRuns.FailedOpen`), and the sessions of the safety theorem are periods between an *attempt*
  to open and the call that closes.
* When the handling of a failed leave comes back to the state that was to be left, the dispatcher does not notice that a
  transition happened and enters the target while the state is still active. `RulesKept.KeepsRulesExactly` says that
  this is the only way in which it breaks its rules, `RulesKept.TableExactly` gives the condition on the table and
  `RulesKept.SilentTableExactly` a simpler one where error transitions raise nothing. `RulesKept.UnsettledBreaks` shows a
  table of two states that breaks them, `RulesKept.ReadsAgainKeeps` one whose error transition leads into the failed state
  again and that keeps them; the shipped table is well-formed.
* Closing a session handle that is no longer in use takes one session from slot 0 all the same.
  `SessionSafety.ClosedTwice` shows the counter wrong afterwards, and `SessionSafety.AccountedThroughout` gives the exact
  condition under which the counters of a run are right.
* A slot stays logged in when its card is changed, and then C_Login succeeds without the new card being asked
  (`Logins.LoginSucceeds`); `Logins.LoginOutlivesCard` shows a run, `Logins.StaleByReports` says by the calls and the
  reader's reports in which runs it happens.
* The DER reader checks that an item starts within the input, not that it ends there: on the four bytes 30 02 30 7F it
  delivers 127 bytes (`DerBounds.Overlong`). What it delivers is part of the input when every header on the way announces
  an end within the item around it (`DerBounds.ItemInside`), which is exactly that each step delivers part of what the step
  before did (`DerBounds.NestedExactly`).
* Not every value survives being written and read back: each is restored if and only if its own conversion inverts there
  (`XmlTree.ShippedRoundTrip`). A card's letter for a woman is restored only if it is that of the viewer's language: "V" comes
  back as "F" in English (`XmlTree.GenderInverts`).
* When the manually selected slot is empty while a card is in use elsewhere, the monitor tells the state machine of a
  removal that names the selected slot: `ReaderMonitor.SelectingAnEmptySlot`, with the exact condition in
  `ReaderMonitor.RemovalsNameTheCard`.
* `write_elements` forgets an error of `write_attributes`: with a required attribute missing, the attributes behind it
  are left out and the file is reported as written (`XmlFormat.AttributesTruncated`; in the shipped tree this happens to the
  element brexit, `XmlTree.BrexitTruncated`). `XmlFormat.WritesEachLabel` gives
  the exact condition under which its success is truthful.
* Of an offset the card sees 16 bits, so that a read beyond them goes on at the start of the file
  (`CardFile.ReadWraps`). Reading a file to its end comes to an end exactly for files below a bound
  (`CardFile.ReadsWhole`): from offset 0, files of at most 65535 bytes; on longer ones the loop never ends.
* `dec_oid` writes two arcs when it has room for one, and only then more than there is room for
  (`NumberCodecs.OidOverflows`). It takes every first value apart by 40, so an identifier under arc 2 comes back wrong
  exactly when its second arc is 40 or more (`NumberCodecs.OidRoundTrip`), which X.690 section 8.19 allows.
* READ BINARY is modelled with 16-bit offsets, as the code uses it; ISO 7816-4 gives plain offsets 15 bits and uses bit 8
  of the first octet to select a file. That the card takes all 16 bits is an assumption on the card.
* A TLV value that is cut off at the end of the file is delivered as far as it goes, with its full length and without
  an error; `Tlv.CutShort` says what is found, and whether it is the value, in every beginning of every list of fields.

## Model

| member | source | states |
|---|---|---|
| `StateTable.ChainPrefix` | plugins_tools/eid-viewer/state.c:325-334 | every beginning of the ancestor chain of a state is the chain of the state it ends with |
| `Discipline.StackIsChain` | plugins_tools/eid-viewer/state.c:252-269 | a stack of active states that respects parents is exactly the ancestor-or-self chain of its top |
| `Discipline.OpenIffActive` | plugins_tools/eid-viewer/state.c:306-391 | in a log that follows the rules, a state's last call was an enter exactly when it is on the stack and not left |
| `Discipline.Nesting` | plugins_tools/eid-viewer/state.c:252-391 | at every enter and leave call all proper ancestors are active; a state entered was closed; at a leave no state below is active; and a state left was active, or the call before was its own leave, which failed, and it has an error transition |
| `Discipline.RetryFollowsFailure` | plugins_tools/eid-viewer/state.c:309-319 | a leave may run again only directly after it failed |
| `Discipline.ObeysPrefix` | plugins_tools/eid-viewer/state.c:273-393 | the rules are kept at every point of a log that keeps them at its end, so also whenever a callback runs |
| `Soundness.EnterSound` | plugins_tools/eid-viewer/state.c:357-374 | an enter callback leaves its state on top of the stack with the UI's state unchanged, or the nested event brought the machine to rest elsewhere, or the rules are broken in a table that is not settled |
| `Soundness.ParentsSound` | plugins_tools/eid-viewer/state.c:252-269 | parents are entered outermost first, each on top of its active parent, and the current state stays the target |
| `Soundness.DescendSound` | plugins_tools/eid-viewer/state.c:376-391 | the descent through first children keeps the stack equal to the current state's chain and ends at rest, unless the table is not settled and the rules are broken |
| `Soundness.LeaveDownReplay` | plugins_tools/eid-viewer/state.c:336-347 | ancestors below the common ancestor are left innermost first, and exactly these |
| `SilentErrors.ErrorLands` | plugins_tools/eid-viewer/state.c:309-324 | an error transition that raises nothing ends exactly in the landing state of its target |
| `Soundness.UnleftBreaks` | plugins_tools/eid-viewer/state.c:321-391 | completing a transition from a current state that is active and not left breaks the rules, for every forest, target and event, and does so with the very next call, whichever of its possible answers that gives |
| `Soundness.TransitionSound` | plugins_tools/eid-viewer/state.c:325-391 | from the current state's leave on, a transition comes to rest within the rules: active states are the chain of the current state, a leaf, which is the one last reported; or the table is not settled and the rules are broken |
| `Soundness.DispatchSound` | plugins_tools/eid-viewer/state.c:273-393 | the same for every event, top-level or nested, any callback answers, and any forest with quiet parents; an event without transition changes nothing; in a settled table the rules are broken only after an answer that a callback cannot give |
| `Soundness.RunSound` | plugins_tools/eid-viewer/state.c:273-393 | in a settled table, after every sequence of events the active states are the chain of the current state, and the state last passed to `be_newstate` is the current one, unless a callback gave an answer that it cannot give before any rule was broken; in a steady table without exception |
| `RulesKept.KeepsRulesExactly` | plugins_tools/eid-viewer/state.c:273-393 | a table with quiet parents keeps the rules, for every event and all answers that callbacks can give, from every aligned configuration and at every point, if and only if no handling of a failed leave can end, by such answers, where it began |
| `RulesKept.TableExactly` | plugins_tools/eid-viewer/state.c:273-393 | the same as a condition on the table alone: some set of ways closed under the table has no way from a failed leave back to its state |
| `EndsReached.EndsExactly` | plugins_tools/eid-viewer/state.c:273-393 | the states in which the handling of an event can end, by answers that callbacks can give, are exactly those that every closed set of ways contains |
| `Ends.DispatchIn` | plugins_tools/eid-viewer/state.c:273-393 | every real handling of an event is a way of every closed set |
| `EndsReached.PossibleClosed` | plugins_tools/eid-viewer/state.c:273-393 | what real handlings reach is closed: for each rule there are answers that compose the handlings of the events it causes |
| `RulesKept.SilentComesBack` | plugins_tools/eid-viewer/state.c:309-324 | an error transition that raises nothing can come back if and only if the landing state of its target is the state itself |
| `RulesKept.FailedLeaveExact` | plugins_tools/eid-viewer/state.c:309-324 | after a failed leave with an error transition that raises nothing, the rules are kept if and only if it lands in another state |
| `RulesKept.SilentTableExactly` | plugins_tools/eid-viewer/state.c:273-393 | where error transitions raise nothing, a table keeps the rules if and only if each of them lands elsewhere |
| `RulesKept.WellFormedSettles` | plugins_tools/eid-viewer/state.c:309-324 | in a well-formed table no handling of a failed leave comes back, whatever is answered |
| `Confinement.ConfinedSettles` | plugins_tools/eid-viewer/state.c:309-374 | error transitions that raise events do not come back, whatever is answered, when some set of states without the state itself holds all that they can lead to |
| `Confinement.DispatchStays` | plugins_tools/eid-viewer/state.c:273-393 | an event that leads into a confined set ends in it, whatever the callbacks answer |
| `Growth.BehindDispatch` | plugins_tools/eid-viewer/state.c:273-393 | an event adds to the log and does not depend on it |
| `RulesKept.UnsettledBreaks` | plugins_tools/eid-viewer/state.c:309-324 | a table of two states, and two answers, on which the dispatcher breaks the rules |
| `RulesKept.ReadsAgainKeeps` | plugins_tools/eid-viewer/state.c:309-374 | a table with a reader whose error state may start it again keeps the rules, though answers that it cannot give would bring the machine back |
| `Settling.DispatchUsed` | plugins_tools/eid-viewer/state.c:273-393 | with a rank that falls along caused events, an event runs at most a fixed number of callbacks and ends in a leaf that may be rested in |
| `Settling.FailedLeaveUsed` | plugins_tools/eid-viewer/state.c:309-319 | the handling of a failed leave runs at most two callbacks per level and moves to another calm leaf |
| `ViewerTable.SmInit` | plugins_tools/eid-viewer/state.c:142-250 | the initialiser fills the table of 20 states as listed; what the table does is stated apart from it by `Journeys.Journey`, `Journeys.CallbacksOf` and `CardReading.ReadsInOrder` |
| `ViewerTable.IsForest` | plugins_tools/eid-viewer/state.c:151-245 | parents are acyclic and every first child has the state as its parent |
| `ViewerTable.IsTarget` | plugins_tools/eid-viewer/state.c:285-305 | where each event leads from each state of the shipped table |
| `ViewerTable.StaysInside` | plugins_tools/eid-viewer/state.c:161-217 | transitions that lead inside TOKEN start inside it, those that lead inside TOKEN_WAIT start at it or inside |
| `ViewerTable.ParentsKeepStill` | plugins_tools/eid-viewer/state.c:151-245 | every state that the shipped table enters as a parent neither fails nor raises an event |
| `ViewerTable.ErrorsSettle` | plugins_tools/eid-viewer/state.c:151-245 | every error transition out of a state whose leave may fail ends in another state without further events |
| `ViewerTable.IsWellFormed` | plugins_tools/eid-viewer/state.c:142-250 | the shipped table meets all conditions of the general theorem |
| `ViewerMachine.ViewerSound` | plugins_tools/eid-viewer/state.c:273-393 | in every run of the viewer only the current leaf and its ancestors are active, and the UI was last told that state |
| `ViewerMachine.GateInvariant` | plugins_tools/eid-viewer/state.c:126-133 | while TOKEN_WAIT is active, the card was verified since TOKEN was entered exactly when its enter callback did not raise DATA_INVALID |
| `ViewerMachine.GateHolds` | plugins_tools/eid-viewer/state.c:188-217 | the states below TOKEN_WAIT are entered only after the card was verified |
| `ViewerMachine.SessionSafety` | plugins_tools/eid-viewer/state.c:161-217 | over every run, opening and closing the card session alternate, everything inside TOKEN happens between them, and PIN, challenge, serialise and photo states only after verification |
| `ViewerMachine.InvalidCard` | plugins_tools/eid-viewer/state.c:126-133 | a callback of TOKEN_WAIT in which the verification failed returns with the machine in CARD_INVALID, outside TOKEN |
| `CardRuns.FailedVerification` | plugins_tools/eid-viewer/state.c:273-393 | in every run, an event in whose handling the verification failed, at any depth, ends in CARD_INVALID with the card session closed |
| `CardRuns.OpensEachTime` | plugins_tools/eid-viewer/state.c:161-180 | in every run TOKEN_ID is entered directly after every entry of TOKEN, whatever that answered, and at no other time |
| `CardRuns.FailedOpen` | plugins_tools/eid-viewer/state.c:161-168 | an inserted card whose session cannot be opened is read all the same |
| `CardReading.ReadsInOrder` | plugins_tools/eid-viewer/state.c:161-192 | in every run in which callbacks do what they can do: the certificates are read only after the data was, and verification starts only after the certificates were read, all since the card session was opened; no event ends in a state that reads |
| `Journeys.Journey` | plugins_tools/eid-viewer/state.c:142-250 | from every state that is rested in, every event leads to the transition it has to, and with all callbacks successful to the state that the user expects; every other event changes nothing |
| `Journeys.InsertionTaken` | plugins_tools/eid-viewer/state.c:151-245 | an inserted card is taken in READY and in the file states, and nowhere else |
| `Journeys.CardInserted` | plugins_tools/eid-viewer/state.c:161-192 | a card inserted in READY, whose callbacks succeed, is opened, read and verified within the one event, which ends in TOKEN_IDLE |
| `Journeys.RequestEnters` | plugins_tools/eid-viewer/state.c:188-217 | each request on a verified card leaves TOKEN_IDLE and enters the request's own state next, whatever is answered |
| `Journeys.CallbacksOf` | plugins_tools/eid-viewer/state.c:142-250 | which states have enter and leave callbacks, and what these can answer |
| `ViewerMachine.IsRanked` | plugins_tools/eid-viewer/state.c:151-245 | the shipped table has ranks that fall along every event a callback can cause |
| `ViewerMachine.ViewerSettles` | plugins_tools/eid-viewer/state.c:273-393 | every event ends after at most 33 callbacks, in a leaf that is neither TOKEN_ID nor TOKEN_CERTS |
| `ViewerMachine.RunSettles` | plugins_tools/eid-viewer/state.c:273-393 | every run of n events ends after at most 33 n callbacks, in such a leaf |
| `StateMachine.Machine.ParentEnter` | plugins_tools/eid-viewer/state.c:255-269 | the recursive method enters exactly the part of the chain below the common ancestor, outermost first |
| `StateMachine.Machine.FindTarget` | plugins_tools/eid-viewer/state.c:285-305 | the upward walk finds the transition of the nearest ancestor-or-self that has one |
| `StateMachine.Machine.CommonAncestor` | plugins_tools/eid-viewer/state.c:325-335 | the nested loops find the deepest state that is a proper ancestor of both |
| `StateMachine.Machine.LeaveAncestors` | plugins_tools/eid-viewer/state.c:336-347 | the loop leaves the ancestors below the common one, innermost first |
| `StateMachine.Machine.DescendChildren` | plugins_tools/eid-viewer/state.c:376-391 | the loop moves into first children until there is none or a callback moved the machine |
| `StateMachine.Machine.Move` | plugins_tools/eid-viewer/state.c:325-391 | the transition proper has the effect of the dispatcher's function |
| `StateMachine.Machine.Handle` | plugins_tools/eid-viewer/state.c:273-393 | the recursive handler with its mutable state computes `Dispatch` |
| `StateMachine.Machine.Enter` | plugins_tools/eid-viewer/state.c:357-367 | an enter callback with everything it causes has the effect of the dispatcher's function |
| `StateMachine.Machine.Leave` | plugins_tools/eid-viewer/state.c:309-311 | a leave callback is run and its answer looked at |
| `QueueProtocol.NextConserves` | plugins_tools/eid-viewer/state-posix.c:67-132 | each step keeps: handled, in-flight and waiting items are the additions in order; items are handled, done and freed once and in this order; nothing after a stop item is handled; a waiting consumer with a non-empty list has a wake-up pending |
| `QueueProtocol.RunConserves` | plugins_tools/eid-viewer/state-posix.c:67-132 | the same in every interleaving of producers, consumer and spurious wake-ups |
| `QueueProtocol.BeforeStopIs` | plugins_tools/eid-viewer/state-posix.c:71-73 | the part that is to be handled is the only beginning without a stop item that ends at one or at the end |
| `QueueProtocol.DrainHandlesAll` | plugins_tools/eid-viewer/state-posix.c:67-117 | once producers are quiet the consumer handles and frees exactly the items before the first stop item, then exits there or sleeps on an empty list |
| `EventQueue.CommandList.AddItem` | plugins_tools/eid-viewer/state-posix.c:120-132 | walking the pointers and linking a node appends to the queue and signals |
| `EventQueue.CommandList.LastNode` | plugins_tools/eid-viewer/state-posix.c:124-127 | the pointer walk ends at the last node of the list |
| `EventQueue.CommandList.Link` | plugins_tools/eid-viewer/state-posix.c:124-128 | the node is linked behind the last one, or becomes the list |
| `EventQueue.CommandList.TestList` | plugins_tools/eid-viewer/state-posix.c:67-79 | the loop test waits, stops, or takes the first node off |
| `EventQueue.CommandList.FreeNode` | plugins_tools/eid-viewer/state-posix.c:101-105 | the node that was handled is freed, and was not free before |
| `Attributes.UlongInjective` | cardcomm/pkcs11/src/p11.c:735-744 | comparing the bytes of two CK_ULONG values compares the values |
| `Attributes.GetAttributeValue` | cardcomm/pkcs11/src/p11.c:338-358 | the loop yields the first attribute of the kind, or type-invalid exactly when there is none |
| `Attributes.SetAttributeValue` | cardcomm/pkcs11/src/p11.c:363-395 | the loop overwrites the first attribute of the kind; too long values and missing kinds are refused |
| `Attributes.CopyObject` | cardcomm/pkcs11/src/p11.c:402-434 | succeeds exactly when count and lengths are within the limits, and then copies the whole template |
| `Attributes.UpdateReads` | cardcomm/pkcs11/src/p11.c:338-395 | a value that was set is read back, every other kind reads as before, a refused set changes nothing |
| `Attributes.UpdateAllReads` | cardcomm/pkcs11/src/p11.c:588-635 | after several successful sets each kind has the value set last |
| `Attributes.UpdateAllSucceeds` | cardcomm/pkcs11/src/p11.c:588-635 | several sets succeed exactly when every kind is in the list and every value short enough |
| `ObjectTable.AddIsFresh` | cardcomm/pkcs11/src/p11.c:278-330 | a new handle is the lowest that was not in use, all other entries are kept, and growth adds unused entries |
| `ObjectTable.AddGrows` | cardcomm/pkcs11/src/p11.c:303-321 | the table grows, by three, exactly when every entry is in use, and the old table is a prefix of the new |
| `ObjectTable.DataAdded` | cardcomm/pkcs11/src/p11.c:539-656 | adding a data object succeeds exactly when the template names the seven kinds and the values are short enough |
| `ObjectTable.DataReads` | cardcomm/pkcs11/src/p11.c:539-656 | it then carries exactly the given class, label, value, length, object id and flags, and empty values for the rest of its template |
| `ObjectTable.ListedIsFound` | cardcomm/pkcs11/src/p11.c:445-531 | a listed key or certificate is found under its class and id and under no other |
| `ObjectTable.ListedReads` | cardcomm/pkcs11/src/p11.c:445-531 | it carries exactly the given class, id and flags, and empty values for the rest of its template |
| `ObjectTable.Find` | cardcomm/pkcs11/src/p11.c:719-756 | the lowest handle with the class and id, 0 exactly when there is none |
| `ObjectTable.CleanEmpties` | cardcomm/pkcs11/src/p11.c:661-691 | cleaning leaves no entry in use exactly when no list in use is over the limit |
| `Evolution.CallEvolves` | cardcomm/pkcs11/src/object.c:91-210 | every call on one session, with any reader reports, keeps all sessions, counters and connections; validity is only lost; a session that stays valid saw no cleaning; only the session called has its search changed; and objects in use stay those of the present card |
| `SessionSafety.EvolvesKeeps` | cardcomm/pkcs11/src/cal.cpp:2447-2512 | what such calls keep includes the counters, the accounts and the epochs |
| `SessionSafety.OpenShape` | cardcomm/pkcs11/src/p11.c:99-143 | an issued handle is the lowest that was not in use, all other entries are kept apart from their card state, and growth by ten adds unused entries |
| `SessionSafety.OpenCounts` | cardcomm/pkcs11/src/session.c:85-112 | only a successful opening counts, once in the sessions and once in the connections of its slot |
| `SessionSafety.OpenAccounted` | cardcomm/pkcs11/src/session.c:69-112 | opening keeps the number of sessions of each slot equal to the entries in use on it |
| `SessionSafety.CloseEntryAccounts` | cardcomm/pkcs11/src/p11.c:172-212 | closing an entry keeps the accounts exactly when it was in use or its slot counted no session |
| `SessionSafety.CloseAccounts` | cardcomm/pkcs11/src/session.c:144-162 | the same for closing a handle, with the check of the card that comes first |
| `SessionSafety.CloseFromShape` | cardcomm/pkcs11/src/p11.c:236-244 | the loop closes exactly the sessions on the slot and touches no other slot |
| `SessionSafety.CloseAllEmpties` | cardcomm/pkcs11/src/p11.c:219-251 | afterwards no session is in use on the slot, nobody is logged in there, and all other sessions are as before |
| `SessionSafety.CallKeeps` | cardcomm/pkcs11/src/cal.cpp:2447-2512 | every call keeps: connections equal sessions; every valid session was opened in the present epoch of its slot; objects in use were added in it |
| `SessionSafety.CallAccounts` | cardcomm/pkcs11/src/session.c:144-162 | a call keeps the accounts if and only if it does not close an unused handle on a slot with sessions |
| `SessionSafety.RunKeeps` | cardcomm/pkcs11/src/cal.cpp:2447-2512 | the same at the end of every run |
| `SessionSafety.AccountedThroughout` | cardcomm/pkcs11/src/session.c:144-162 | all through a run `nsessions` is the number of sessions in use and a logged-in slot has one, if and only if no unused handle on a slot with sessions is closed |
| `SessionSafety.StartedFresh` | cardcomm/pkcs11/src/session.c:31-168 | the three results for every run of a module that was just started |
| `SessionSafety.ClosedTwice` | cardcomm/pkcs11/src/session.c:144-162 | a run in which the counter is 0 while a session is in use |
| `SessionSafety.CleaningKills` | cardcomm/pkcs11/src/cal.cpp:2484-2512 | a report of a changed card ends the epoch, invalidates every session of the slot and empties its object table |
| `SessionSafety.DeadRefused` | cardcomm/pkcs11/src/cal.cpp:2384-2407 | an invalidated session is answered CKR_DEVICE_REMOVED and nothing changes |
| `SessionSafety.DeadStays` | cardcomm/pkcs11/src/cal.cpp:2384-2428 | no call but its own closing makes it valid again or frees it |
| `SessionSafety.RemovedUntilClosed` | cardcomm/pkcs11/src/cal.cpp:2384-2428 | in every run it is refused everything until it is closed |
| `SessionSafety.ReadIsCurrent` | cardcomm/pkcs11/src/object.c:91-210 | attributes are only delivered from an object in use that was added in the epoch in which the session was opened |
| `SessionSafety.PairReads` | cardcomm/pkcs11/src/cal.cpp:1990-2139 | a successful read of a certificate's id gives certificate, private and public key each its own values, marks them as read, and leaves every other object alone |
| `SessionSafety.KeysDiffer` | cardcomm/pkcs11/src/cal.cpp:1979-1983 | the three objects found for one id are different objects |
| `SessionSafety.OfficerExcludesReadOnly` | cardcomm/pkcs11/src/session.c:76-83 | after a login of the security officer no read-only session is opened on the slot, and nothing changes; a logout ends the login whatever the card answers |
| `Logins.LoginChanges` | cardcomm/pkcs11/src/session.c:302-440 | for every call: it logs a slot out if and only if it is a logout on a valid session of it, a closing that takes its last counted session, or a closing of all that reaches the last one; it logs one in if and only if it is a login that the card accepts; and nothing else changes who it is |
| `Logins.LoggedInExactly` | cardcomm/pkcs11/src/p11.c:172-251 | over every run: a slot is logged in if and only if some call logged it in, or it was at the beginning, and no call since has logged it out |
| `Logins.CloseEnds` | cardcomm/pkcs11/src/p11.c:172-212 | closing a handle ends a login if and only if the slot counts no other session |
| `Logins.CallLogins` | cardcomm/pkcs11/src/session.c:302-375 | the only call that logs a slot in is a login that the present card accepted, on a slot that was logged out; no call changes for which card it was |
| `Logins.LoginSucceeds` | cardcomm/pkcs11/src/session.c:348-371 | a login succeeds exactly when the card accepts it or the slot is logged in already, and then the card is not asked; one that the card accepted is for the present card |
| `Logins.StaleExactly` | cardcomm/pkcs11/src/session.c:348-371 | after every run a slot is logged in for a card that is gone if and only if at some time it was logged in for the card it had, has been logged in ever since, and its card has changed |
| `Logins.StaleByReports` | cardcomm/pkcs11/src/session.c:348-371 | the same without history: if and only if some call heard from the reader that the card has changed while the slot was logged in, and no call since, nor that one, has logged it out |
| `Logins.CallCounts` | cardcomm/pkcs11/src/cal.cpp:2448-2535 | which calls clean a slot: exactly those that ask its reader, for a session that is still valid or an opening that is not refused, and hear that the card has changed |
| `Logins.LoginOutlivesCard` | cardcomm/pkcs11/src/session.c:348-371 | a run in which a login outlives its card, and any PIN is accepted for the next one |
| `SearchRuns.WantedExactly` | cardcomm/pkcs11/src/object.c:672-746 | the list that a search has to find is strictly ascending and holds exactly the handles of matching objects that are shown |
| `SearchRuns.ScanTakes` | cardcomm/pkcs11/src/object.c:672-746 | one call takes the next handles of that list, as many as asked for, and the cursor stands before the rest |
| `SearchRuns.FindTakes` | cardcomm/pkcs11/src/object.c:553-754 | the same for a whole call, which takes nothing when it fails |
| `SearchRuns.BatchesFrom` | cardcomm/pkcs11/src/object.c:553-754 | over any interleaving of calls, on the same session too, that starts and ends no search of it and leaves what matches as it is, the results together are the next part of the list |
| `SearchRuns.SearchComplete` | cardcomm/pkcs11/src/object.c:421-449 | a search that was started finds, over all its calls, however they are divided and whatever is called in between, such as C_GetAttributeValue on the objects found, the first matching handles in ascending order, as many as were asked for, without loss or repeat |
| `SearchRuns.HopelessFindsNothing` | cardcomm/pkcs11/src/object.c:618-647 | an unsupported class, or objects that are not on the token, yield nothing and no error |
| `SearchRuns.RunHolds` | cardcomm/pkcs11/src/object.c:424-450 | in every run an active search has a template |
| `SearchRuns.FinalEnds` | cardcomm/pkcs11/src/object.c:762-819 | a search that was ended can be neither continued nor ended again; only then can the session start another, which begins at the first handle |
| `SearchRuns.FoundIsCurrent` | cardcomm/pkcs11/src/object.c:672-746 | every handle found is of an object of the card that the session was opened for |
| `Listing.AllAdded` | cardcomm/pkcs11/src/p11.c:445-656 | of any list of fillings, those up to the first that does not fit have objects of their own afterwards, at ascending handles that were not in use, with exactly their attributes; objects in use before are kept and nothing else is in use, save one object for the filling that does not fit |
| `Listing.FirstSearchLists` | cardcomm/pkcs11/src/object.c:288-330 | the first search on a card that asks for nothing or for a class of keys or certificates lists all that the card reports and keeps what was there, even if the search is then refused; once the slot counts as listed, nothing is listed again |
| `Listing.SearchLoads` | cardcomm/pkcs11/src/object.c:453-548 | a search for data objects loads the files, and succeeds if and only if it could start, the files could be read, and all could be added |
| `Listing.OtherSearchAddsNothing` | cardcomm/pkcs11/src/object.c:288-330 | any other search changes no table |
| `Listing.AddedAreFound` | cardcomm/pkcs11/src/object.c:672-746 | listing and searching together: of the objects that a search added, over all its calls exactly those are delivered that carry what the template asks for |
| `Cryptoki.Tables.NewSlotObject` | cardcomm/pkcs11/src/p11.c:278-330 | the loop takes the first unused entry, growing the table when there is none |
| `Cryptoki.Tables.AddSlotObject` | cardcomm/pkcs11/src/p11.c:539-656 | allocation, copy of the template and the sets with their early exit have the specified effect on one slot's table |
| `Cryptoki.Tables.FindSlotObject` | cardcomm/pkcs11/src/p11.c:719-756 | the loop finds the lowest handle with class and id |
| `Cryptoki.Tables.InvalidateSessions` | cardcomm/pkcs11/src/p11.c:258-272 | the loop gives the status to exactly the sessions in use on the slot |
| `Cryptoki.Tables.CleanObjects` | cardcomm/pkcs11/src/cal.cpp:2486-2493 | the loop cleans every entry of the slot's table and nothing else |
| `Cryptoki.Tables.UpdateToken` | cardcomm/pkcs11/src/cal.cpp:2448-2535 | the method has the specified effect for every report of the reader |
| `Cryptoki.Tables.Connect` | cardcomm/pkcs11/src/cal.cpp:681-710 | connecting counts only when a card is there |
| `Cryptoki.Tables.ValidateSession` | cardcomm/pkcs11/src/cal.cpp:2384-2438 | unused, invalidated and newly removed sessions are told apart |
| `Cryptoki.Tables.GetFreeSession` | cardcomm/pkcs11/src/p11.c:99-143 | the loop reserves the first unused entry, growing the table when there is none |
| `Cryptoki.Tables.GetSession` | cardcomm/pkcs11/src/p11.c:66-80 | handles outside the table are invalid, others are checked |
| `Cryptoki.Tables.OpenSession` | cardcomm/pkcs11/src/session.c:31-120 | refusals in order, reservation, connection, and release on failure |
| `Cryptoki.Tables.CloseEntry` | cardcomm/pkcs11/src/p11.c:172-212 | counters are floored, the last session logs out, the entry is cleared; that it ends a login exactly then is `Logins.CloseEnds` |
| `Cryptoki.Tables.CloseSession` | cardcomm/pkcs11/src/session.c:126-168 | an entry is closed whatever the check of the session said; which login ends is `Logins.LoginChanges` |
| `Cryptoki.Tables.CloseAllSessions` | cardcomm/pkcs11/src/p11.c:219-251 | the loop closes every session in use on the slot |
| `Cryptoki.Tables.Login` | cardcomm/pkcs11/src/session.c:302-379 | who is logged in afterwards, for every answer of the card |
| `Cryptoki.Tables.Logout` | cardcomm/pkcs11/src/session.c:385-433 | the slot is logged out whatever the card answers |
| `Cryptoki.Tables.FindObjectsInit` | cardcomm/pkcs11/src/object.c:229-548 | the order of checks, listing, starting and loading; what is in the table afterwards is `Listing.FirstSearchLists` and `Listing.SearchLoads` |
| `Cryptoki.Tables.AddObjects` | cardcomm/pkcs11/src/cal.cpp:1148-1250 | objects are added one after the other until one fails |
| `Cryptoki.Tables.ListCardObjects` | cardcomm/pkcs11/src/cal.cpp:758-951 | keys and certificates are listed once per card, with the contents that `Listing.AllAdded` states |
| `Cryptoki.Tables.StartSearch` | cardcomm/pkcs11/src/object.c:341-449 | an active search is left alone; a template over the limits leaves the search inactive |
| `Cryptoki.Tables.Match` | cardcomm/pkcs11/src/object.c:684-735 | an object matches when it is in use, shown, and agrees with every attribute of the template |
| `Cryptoki.Tables.Advance` | cardcomm/pkcs11/src/object.c:672-746 | the loop returns the next matching handles and stores the cursor |
| `Cryptoki.Tables.FindObjects` | cardcomm/pkcs11/src/object.c:553-754 | the call with its early exits |
| `Cryptoki.Tables.ReadObject` | cardcomm/pkcs11/src/cal.cpp:1918-2216 | an object is read only while a card is there, together with the other objects of its key pair |
| `Cryptoki.Tables.Store` | cardcomm/pkcs11/src/cal.cpp:2013-2033 | the values of one object are set until one fails, and it counts as read when all were |
| `Cryptoki.Tables.StorePair` | cardcomm/pkcs11/src/cal.cpp:1990-2188 | what was read goes to certificate, private and public key in order, each marked as read when all its values were set |
| `Cryptoki.Tables.GetAttributeValues` | cardcomm/pkcs11/src/object.c:91-210 | uncached objects are read first; then all requests are answered, as `Answering.FirstRead` and `Answering.CachedRead` state |
| `Cryptoki.Tables.AnswerRequests` | cardcomm/pkcs11/src/object.c:171-202 | the loop answers each request by its own value: no buffer gets the length, a large enough one value and length, any other neither; the last error is returned |
| `Cryptoki.AnswersEach` | cardcomm/pkcs11/src/object.c:171-202 | each request is answered by its own value, whatever the others are, and the call succeeds exactly when every kind exists and every buffer suffices |
| `Answering.AnsweredByValue` | cardcomm/pkcs11/src/object.c:171-202 | each request, by the value of its kind alone: without buffer the value's length, with a large enough one the value and its length, with a smaller one or without value neither; the code is the error of the last request that has one, and success exactly if none has |
| `Answering.QueryThenGet` | cardcomm/pkcs11/src/object.c:171-202 | with buffers of just the lengths that a query told, every value is delivered |
| `Answering.FirstRead` | cardcomm/pkcs11/src/cal.cpp:1918-2216 | the first read of a listed certificate or key delivers exactly what the card gave for its class and id, and what it was listed with for kinds that the card gave none for |
| `Answering.CachedRead` | cardcomm/pkcs11/src/object.c:141-150 | an object that was read before is answered without the card |
| `Answering.KeyFileReads` | cardcomm/pkcs11/src/cal.cpp:2141-2190 | without a certificate the key file fills both keys, and no other object |
| `Answering.FailureStoresNothing` | cardcomm/pkcs11/src/cal.cpp:1990-2012 | when the card cannot be read nothing is stored, and its error is returned |
| `Answering.PairStored` | cardcomm/pkcs11/src/cal.cpp:1990-2139 | all values of a pair are stored if and only if the connection holds and each of its objects has room for each of them |
| `Results.OpenTells` | cardcomm/pkcs11/src/session.c:31-120 | an opening succeeds if and only if nothing refuses it and the reader reports a card, old or new; otherwise the first refusal in order is returned |
| `Results.OpenedSession` | cardcomm/pkcs11/src/session.c:85-112 | the handle returned is of a session in use on the slot, with the mode asked for |
| `Results.SessionTells` | cardcomm/pkcs11/src/cal.cpp:2384-2438 | the answer to a handle: invalid, removed, the reader's error, or usable exactly if the same card is still there |
| `Results.CloseTells` | cardcomm/pkcs11/src/session.c:126-168 | every handle in the table is closed whatever the reader says |
| `Results.CloseAllTells` | cardcomm/pkcs11/src/p11.c:219-251 | what closing all sessions answers, and that nothing changes on a slot without sessions |
| `Results.LoginTells` | cardcomm/pkcs11/src/session.c:302-379 | the answer to a login, by refusals in order |
| `Results.LogoutTells` | cardcomm/pkcs11/src/session.c:385-433 | the answer to a logout, by refusals in order |
| `Results.FindInitTells` | cardcomm/pkcs11/src/object.c:229-450 | the answer to the start of a search: refused exactly for an unsupported class, an active search or a template over the limits, in this order |
| `Results.HopelessExactly` | cardcomm/pkcs11/src/object.c:618-647 | a search is cut short exactly for objects off the token, or a class that no listed object has |
| `Results.FindTells` | cardcomm/pkcs11/src/object.c:553-819 | the answers to continuing and to ending a search |
| `Results.GetTells` | cardcomm/pkcs11/src/object.c:91-170 | why no attributes are delivered, by refusals in order |
| `Results.MatchesExactly` | cardcomm/pkcs11/src/object.c:684-735 | what matches: objects in use with every attribute of the template, and hidden ones only if it names a label |
| `Asn1.ReadTag` | cardcomm/pkcs11/src/asn1.c:295-308 | the tag loop computes the number, or the error of a tag that is too long |
| `Asn1.ReadLength` | cardcomm/pkcs11/src/asn1.c:313-331 | the length loop computes the length of at most four octets, or its error |
| `Asn1.PassItem` | cardcomm/pkcs11/src/asn1.c:162-221 | one item is skipped as specified |
| `Asn1.ReadHead` | cardcomm/pkcs11/src/asn1.c:274-334 | one header is read as specified |
| `Asn1.StepInto` | cardcomm/pkcs11/src/asn1.c:253-334 | one step of a path is taken as specified |
| `Asn1.SkipItem` | cardcomm/pkcs11/src/asn1.c:142-229 | the skipping loops compute the specified position, for every memory |
| `Asn1.GetItem` | cardcomm/pkcs11/src/asn1.c:232-345 | the navigation with its cursor computes the specified item, for every memory, path and length |
| `DerBounds.ItemInside` | cardcomm/pkcs11/src/asn1.c:253-342 | for every memory: contents and raw bytes delivered are bytes of the input if every header along the path announces an end within the item around it |
| `DerBounds.NestedExactly` | cardcomm/pkcs11/src/asn1.c:253-342 | every header along the path announces an end within the item around it if and only if what is delivered for each beginning of the path ends within what is delivered for the one before |
| `DerBounds.Overlong` | cardcomm/pkcs11/src/asn1.c:313-339 | four bytes of which 127 are delivered |
| `DerHeaders.TagIs` | cardcomm/pkcs11/src/asn1.c:274-308 | for every memory: which octets belong to a tag, the number they give, and that a tag is refused exactly if four octets after the first do not end it |
| `DerHeaders.LengthIs` | cardcomm/pkcs11/src/asn1.c:313-331 | for every memory: the length that the octets give, and that it is refused exactly if it has more than four octets or they are not all in the input |
| `DerHeaders.HeadTells` | cardcomm/pkcs11/src/asn1.c:274-342 | for every memory: the header that is read where an item is entered, or its error |
| `DerHeaders.SkipTells` | cardcomm/pkcs11/src/asn1.c:171-219 | for every memory: where the item after a skipped one starts, or the error |
| `DerHeaders.MarkTells` | cardcomm/pkcs11/src/asn1.c:162-170 | two zeros are passed with all zeros that follow them, up to the end of the input, and nothing else is |
| `DerHeaders.SkippedIfRead` | cardcomm/pkcs11/src/asn1.c:162-342 | the two readings of a header agree: an item can be skipped if and only if its header can be read and it is not the last thing in the input, and it is skipped to its end |
| `DerHeaders.SkipNext` | cardcomm/pkcs11/src/asn1.c:160-229 | the next item of a list starts where the one before ends |
| `Asn1.NextItem` | cardcomm/pkcs11/src/asn1.c:349-361 | one item is taken and the rest advanced |
| `DerTree.ReadHeader` | cardcomm/pkcs11/src/asn1.c:274-342 | the header of every tree node is read back: tag number, class, constructed bit, length and place of contents |
| `DerTree.SkipTo` | cardcomm/pkcs11/src/asn1.c:142-229 | skipping k items of encoded siblings reaches the next sibling |
| `DerTree.FollowSelects` | cardcomm/pkcs11/src/asn1.c:253-334 | each step of a path goes down to the child it counts |
| `DerTree.PathSelects` | cardcomm/pkcs11/src/asn1.c:232-345 | on the encoding of trees, followed by anything, a path yields the packed tag, contents and raw bytes of the subtree at that path |
| `DerTree.PathPast` | cardcomm/pkcs11/src/asn1.c:217-228 | an index past the last child of a node with children is reported as not found |
| `DerTree.PathToBits` | cardcomm/pkcs11/src/asn1.c:259-272 | an unparsed BIT STRING yields its contents after the octet that counts unused bits |
| `DerTree.CollectsAll` | cardcomm/pkcs11/src/asn1.c:349-361 | repeated calls partition the contents into the children's encodings |
| `Certificate.CertValid` | cardcomm/pkcs11/src/cert.h:51-97 | every certificate of the model has an encoding that the reader's conditions allow |
| `Certificate.KeyReadsFrom` | cardcomm/pkcs11/src/cert.h:89-94 | the paths below a SubjectPublicKeyInfo find modulus and exponent, or curve and point |
| `Certificate.CertReadsAll` | cardcomm/pkcs11/src/cert.h:82-94 | every path used on a certificate finds its part, whatever follows the certificate in memory |
| `Certificate.GetKey` | cardcomm/pkcs11/src/cert.c:100-175 | the key part is filled in by the type of the key |
| `Certificate.CertGetInfo` | cardcomm/pkcs11/src/cert.c:30-176 | on the encoding of any certificate, followed by anything, the result is its true length and exactly its serial number, issuer, subject, validity and key parts; a serial number that is no INTEGER or a key of another type is refused; an input that ends before the certificate is reported as incomplete |
| `Certificate.CutShortIs` | cardcomm/pkcs11/src/cert.c:38-45 | an input with a whole header but too few bytes is found to be longer than it is |
| `Certificate.KeyGetInfo` | cardcomm/pkcs11/src/cert.c:224-276 | on the encoding of an EC SubjectPublicKeyInfo the result is exactly its length, curve and point; any other key is refused; an input that ends early is reported as incomplete |
| `Certificate.ReadBoth` | cardcomm/pkcs11/src/cert.c:224-269 | certificate and key file of one key yield the same curve and the same point |
| `NumberCodecs.DecOid` | cardcomm/pkcs11/src/asn1.c:451-481 | the loop computes the specified arcs for every input and room |
| `NumberCodecs.OidRoundTrip` | cardcomm/pkcs11/src/asn1.c:451-481 | decoding the encoding of any identifier gives its arcs regrouped by 40 and cut to the room; with enough room that is the identifier if and only if its second arc is below 40 |
| `NumberCodecs.OidOverflows` | cardcomm/pkcs11/src/asn1.c:451-481 | on every input, more arcs are written than there is room for if and only if the room is one and some value ends |
| `NumberCodecs.Ui2BitString` | cardcomm/pkcs11/src/asn1.c:484-510 | the buffer holds the bits of the number without trailing zeros, in the fewest octets, and the number is recovered from it |
| `NumberCodecs.NumberOfBits` | cardcomm/pkcs11/src/asn1.c:484-510 | a number below two to the n is recovered from its n lowest bits |
| `NumberCodecs.NumberOfTrim` | cardcomm/pkcs11/src/asn1.c:484-510 | dropping trailing zero bits keeps the number |
| `CardFile.CardReader.ReadBinary` | cardcomm/minidriver/src/SmartCard.c:1449-1519 | one command, or two after 6Cxx, delivers the bytes there are and tells whether to go on |
| `CardFile.CardReader.ReadFile` | cardcomm/minidriver/src/SmartCard.c:1420-1525 | for every file and offset, puts what the pieces yield at its place in the buffer and changes nothing else, or fails with an error of the reader |
| `CardFile.CardReader.SelectAndReadFile` | cardcomm/minidriver/src/SmartCard.c:1535-1617 | on every file on which it ends, delivers all bytes from the addressed offset on; a file that cannot be selected leaves the outputs unset without an error |
| `CardFile.CardReader.ReadAll` | cardcomm/minidriver/src/SmartCard.c:1590-1615 | the loop over pieces of 1024 bytes ends also for exact multiples |
| `CardFile.CardReader.ReadCert` | cardcomm/minidriver/src/SmartCard.c:1626-1739 | the length from the first bytes, exactly so many bytes, and no length when so many cannot be read; of a file of fewer than four bytes a query reports some length and a read none |
| `CardFile.CardReader.ReadSize` | cardcomm/minidriver/src/SmartCard.c:1702-1711 | the announced length, which a file of fewer than four bytes leaves to what the stack held |
| `CardFile.ReadExact` | cardcomm/minidriver/src/SmartCard.c:1445-1522 | a read that stays within the addressable range delivers exactly the bytes there are from the offset up to the count or the end of the file |
| `CardFile.ReadWraps` | cardcomm/minidriver/src/SmartCard.c:1447-1448 | any other delivers the file up to the edge of the range and goes on at the file's start |
| `CardFile.NeverShort` | cardcomm/minidriver/src/SmartCard.c:1445-1522 | on a file over the bound no piece is ever short |
| `CardFile.ReadsWhole` | cardcomm/minidriver/src/SmartCard.c:1590-1615 | for every file and offset: the loop over pieces of 1024 bytes ends if and only if the file is shorter than 65536 bytes and the offset's remainder modulo 128, and then has read all bytes from the offset on, also for multiples of 1024 |
| `CardFile.CertRead` | cardcomm/minidriver/src/SmartCard.c:1730-1739 | when a certificate's length can be read in full, and that it is then the first bytes of the file |
| `CardFile.CertLengthExact` | cardcomm/minidriver/src/SmartCard.c:1703-1739 | for a padded DER value of 256 to 65535 octets of contents, that is exactly the value's encoding |
| `Tlv.GetField` | cardcomm/minidriver/src/tlv.c:33-87 | on every byte string the state machine ends and computes the specified result, buffer contents and error |
| `Tlv.LookCut` | cardcomm/minidriver/src/tlv.c:44-83 | the scan on any beginning of encoded fields, from any field boundary |
| `Tlv.FindsFirst` | cardcomm/minidriver/src/tlv.c:33-87 | tag-like bytes inside values and lengths never match |
| `Tlv.QueryThenGet` | cardcomm/minidriver/src/tlv.c:30-87 | the size of a query without buffer suffices, and exactly the first field's value is delivered |
| `Tlv.CutShort` | cardcomm/minidriver/src/tlv.c:33-87 | in every beginning of every list of fields: nothing is found exactly as long as no header with the tag is whole, then the full length and the part of the first such value that is there, which is the value if and only if the field ends within the beginning |
| `ReaderMonitor.ReportsTakeTurns` | plugins_tools/eid-viewer/p11.c:566-719 | over every run of slot events and selections, insertions and removals alternate, an insertion first, and the current slot is the one inserted last, -1 exactly when none is outstanding |
| `MonitoredRuns.SessionNeedsCard` | plugins_tools/eid-viewer/p11.c:566-719 | over every run of monitor and machine, with the reports handled in order among any other events: the card session is open only while an insertion among the reports handled is outstanding |
| `MonitoredRuns.InsideInserted` | plugins_tools/eid-viewer/state.c:151-217 | in every run the machine is inside TOKEN only if the last event about a card was an insertion: only an insertion leads in, and a removal always leads out |
| `ReaderMonitor.CheckKeeps` | plugins_tools/eid-viewer/p11.c:566-719 | one slot event keeps that agreement, whatever the module answers |
| `ReaderMonitor.ResetKeeps` | plugins_tools/eid-viewer/p11.c:793-854 | a reset of the list removes the outstanding card before it inserts another |
| `ReaderMonitor.RemovalsNameTheCard` | plugins_tools/eid-viewer/p11.c:705-714 | for every slot event, also one for the first slot, a removal names the slot of the outstanding card, except exactly when the selected slot is empty and is not that slot |
| `ReaderMonitor.SelectingAnEmptySlot` | plugins_tools/eid-viewer/p11.c:705-714 | a run in which it does not |
| `ReaderMonitor.SelectedSlotOnly` | plugins_tools/eid-viewer/p11.c:661-664 | once a slot is selected, events of other known slots change nothing and are not reported |
| `ReaderMonitor.EmptySlotIsLeft` | plugins_tools/eid-viewer/p11.c:684-703 | in automatic mode an empty slot stays the current one only if the search for cards finds it again |
| `ReaderMonitor.CardTaken` | plugins_tools/eid-viewer/p11.c:640-682 | after an event about a known slot with a supported token: in automatic mode the current card is the one there was, otherwise this one; on the selected slot it is this one; and it was reported exactly once, after the removal of another |
| `ReaderMonitor.SlotEmptied` | plugins_tools/eid-viewer/p11.c:684-715 | after an event about an empty known slot: its card is reported as removed, and in automatic mode without another current card the first listed token that is supported, by index, becomes the current one and is reported |
| `ReaderMonitor.ListMadeAnew` | plugins_tools/eid-viewer/p11.c:793-854 | an event without list, about an unknown slot, or about a reader that is gone: the current card is removed, and if the new list can be read its reader is reported and the first listed token that is supported |
| `ReaderMonitor.NothingElse` | plugins_tools/eid-viewer/p11.c:610-650 | when the module cannot tell about the slot or the token is not supported nothing happens |
| `ReaderMonitor.CardIsReported` | plugins_tools/eid-viewer/p11.c:566-719 | over every run: when the last event is about a known slot with a supported token, in automatic mode or in the selected slot, then a card is reported and not removed since; in the selected slot it is this one |
| `ReaderMonitor.FailsExactly` | plugins_tools/eid-viewer/p11.c:566-719 | a check fails exactly when it searched for a card and no listed token is supported, or when the module cannot tell about a known slot |
| `ReaderMonitor.Monitor.CheckReaderList` | plugins_tools/eid-viewer/p11.c:566-719 | the method with its search of the list has the specified effect; it fails exactly when a search for a card leaves automatic mode without one, or the module cannot tell about the slot though the reader is there; what has to be reported is stated by `ReaderMonitor.CardTaken`, `ReaderMonitor.SlotEmptied` and `ReaderMonitor.ListMadeAnew` |
| `ReaderMonitor.Monitor.ResetSlotList` | plugins_tools/eid-viewer/p11.c:793-854 | the same for the reset, which fails exactly when there is a new list but no card |
| `ReaderMonitor.Monitor.FindEidCard` | plugins_tools/eid-viewer/p11.c:878-932 | the loop finds the first token that is supported |
| `XmlFormat.WriterSucceeds` | plugins_tools/eid-viewer/eidxmllite.cpp:102-200 | the writer succeeds exactly when no required leaf of a written element is missing |
| `XmlFormat.WritesEachLabel` | plugins_tools/eid-viewer/eidxmllite.cpp:67-200 | the writer succeeds and everything that there is to show is written once and in document order, if and only if no required leaf of a written element is missing and no shown attribute stands behind a missing required one |
| `XmlFormat.AttributesExactly` | plugins_tools/eid-viewer/eidxmllite.cpp:67-99 | of an element's attributes a beginning is written, and all of them if and only if nothing shown stands behind a missing required one |
| `XmlFormat.ElementsExactly` | plugins_tools/eid-viewer/eidxmllite.cpp:102-200 | on success never more is written than there is to show, and as much exactly when nothing is hidden |
| `XmlFormat.LeftOutExactly` | plugins_tools/eid-viewer/eidxmllite.cpp:102-134 | an element without label is left out if and only if it is optional and no label at any depth below it is cached |
| `XmlFormat.AttributesTruncated` | plugins_tools/eid-viewer/eidxmllite.cpp:67-134 | of every element without label that is written, the attributes before the first missing required one are written and the ones behind it are not, and its success is that of its children |
| `XmlTree.BrexitTruncated` | plugins_tools/eid-viewer/xmlmap.cpp:63-82 | with its second mention cached and the first not, the shipped element brexit is written empty and without an error |
| `XmlFormat.MapsFind` | plugins_tools/eid-viewer/xmlmap.cpp:141-161 | with unique names the two flat maps find every descriptor of the tree |
| `XmlFormat.ReadForest` | plugins_tools/eid-viewer/eidxmllite.cpp:456-494 | reading what was written, at any depth and with any conversions, stores exactly the converted data of the tree and restores the position |
| `XmlFormat.AbsorbExactly` | plugins_tools/eid-viewer/eidxmllite.cpp:302-418 | what is stored are the labels that survive, each with what the last field of that label brings back |
| `XmlFormat.RoundTrip` | plugins_tools/eid-viewer/eidxmllite.cpp:102-200 | whenever the writer's success is truthful, writing and reading back brings every cached label back, except exactly the optional attributes without text and the leaves with blank text, each with what its own conversion makes of its value there and back |
| `XmlFormat.OwnValueExactly` | plugins_tools/eid-viewer/eidxmllite.cpp:302-418 | with unique labels, a label that comes back has its own value if and only if its own conversion, base64 or text, inverts there |
| `XmlFiles.Writer.AnyAttributesPresent` | plugins_tools/eid-viewer/eidxmllite.cpp:30-41 | true exactly when an attribute's label is cached |
| `XmlFiles.Writer.AnyElementsPresent` | plugins_tools/eid-viewer/eidxmllite.cpp:43-64 | true exactly when any label at any depth below is cached |
| `XmlFiles.Writer.WriteAttributes` | plugins_tools/eid-viewer/eidxmllite.cpp:67-99 | the loop writes the specified attributes and stops at a missing required one |
| `XmlFiles.Writer.WriteElements` | plugins_tools/eid-viewer/eidxmllite.cpp:102-200 | the recursive loop writes the specified tokens; an optional container is written exactly when its subtree has data |
| `XmlFiles.Loader.InitMap` | plugins_tools/eid-viewer/xmlmap.cpp:141-161 | the walk enters every descriptor in the maps |
| `XmlFiles.Loader.Deserialize` | plugins_tools/eid-viewer/eidxmllite.cpp:421-494 | the loop over the nodes has the specified effect on the cache |
| `XmlFiles.SaveAndLoad` | plugins_tools/eid-viewer/eidxmllite.cpp:421-494 | writer and reader together: the round trip by the methods |
| `XmlTree.ShippedNamesUnique` | plugins_tools/eid-viewer/xmlmap.cpp:31-136 | all element names and all attribute names of the shipped tree are distinct, and it is shallow enough to be read |
| `XmlTree.ShippedLabelsUnique` | plugins_tools/eid-viewer/xmlmap.cpp:31-136 | no label of the shipped tree is there twice |
| `XmlTree.ShippedRoundTrip` | plugins_tools/eid-viewer/xmlmap.cpp:31-136 | with the shipped tree a field that is read back has its own value if and only if its own conversion inverts there, whatever the rest of the cache is |
| `XmlTree.GenderInverts` | plugins_tools/eid-viewer/conversions/genderconv.cpp:33-53 | of the four letters on cards exactly M and that of the viewer's language are restored |
| `XmlTree.GenderComesBack` | plugins_tools/eid-viewer/conversions/convertor.cpp:57-93 | the same for the value of the label gender in a cache, with its conversion |

## Left out

- The state machine's thread start, logging and the user interface's own callbacks; data passed with events.
- Steps of the Windows build of the queue differ only in the primitive used for signalling; one signal is modelled.
- Reader list refreshes (`cal_refresh_readers`) zero all slots under running sessions; runs are between refreshes.
- Signing, digests and random numbers: their session operations are not part of the session model.
- FindObjectsInit: which data files a search loads, and when the cache flags or a `record_` label suppress it, is an input of the call.
- Certificate and key values that `cal_read_object` gets from the card are an input of `C_GetAttributeValue`; that they are the certificate's parts is `Certificate.CertGetInfo`.
- One answer stands for all answers a reader gives to being disconnected while several sessions are closed.
- The Firefox build of the module, which lists objects inside `cal_update_token`, is not modelled; the other build is.
- Allocation failures, and locking inside a PKCS #11 call: each call is one step.
- CertGetInfo: of bytes that encode no certificate of the model, such as one without a subject, only what `asn1_get_item` makes of each path is stated, for every memory.
- `asn1_find_item`, and the encoders of `cert.c` that nothing calls.
- Indefinite lengths: the reader's function covers them for every memory, the trees do not contain them.
- Signature checks of the viewer (`eid_vwr_verify_card`) are an oracle that passes or fails.
- The card commands besides SELECT and READ BINARY, PIN padding, and recovery after communication errors.
- SelectSlot: a change of mode takes effect between slot events; the other thread could make it while one is handled.
- FindEidCard: the manual branch of the search is not modelled, since the search is only called in automatic mode.
- The byte format of XML and the library that parses it: the file is its stream of tokens, blank text is white space.
- The POSIX XML writer, schema checks, and the label `xml_file_version` that the cache raises by itself.
- SmInit: the assignments to one state are one constant, and the early return of an initialised table is not modelled.
- Deserialize: the parser's refusal of files nested deeper than eight elements, and its errors, are not modelled; files of the shipped tree are three deep.
- SelectAndReadFile: on a file on which the loop does not end, failing to enlarge the buffer would end it; that is not modelled.
- RoundTrip: text directly inside an element without label, which the writer never writes, is ignored by the model's reader.
- OCSP, CRL, OpenSSL, certificate store, registry, GUI and property table code.
