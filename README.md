# CyberGuard store and handlers, in Dafny

A model of the core of CyberGuard, a Telegram bot that organises members into three
units (centurions, decurions, privates), hands out missions, and runs a ticket desk
where members report to command. Everything the bot knows lives in one in-memory
structure, `DataManager.data`. Every handler reads and updates it. This project models
that structure, the handlers that change it, the purge that follows a user who has
blocked the bot, and the conversion between the store and its saved JSON form.

How the bot's world is represented:

- **The store** is the datatype `Types.Db`. It has one field per structure of `data`:
  - the three unit sets, `subscribers` and `combat_ready`;
  - the maps under `command`;
  - the recent-mission queue (at most 15 ids) and the mission archive;
  - the username cache.
- **Extra fields.** `Db` adds three fields the bot keeps elsewhere:
  - `admins`, the allow-list `Config.ADMIN_IDS`. The bot's placeholder is an empty dict, but it is used as a set (a set union when a report is filed), so the model takes it as a set;
  - `blocked`, the users who have blocked the bot. A send to them raises `TelegramForbiddenError`;
  - `outbox`, every message the bot sends or answers, and the keyboards the close button strips from other chats, in order.
- **`ticketOrder`** records the insertion order of the `tickets` dict. The sweep, the `/close` search and the commander relay all walk the tickets in that order.
- **`Store.DataManager`** is the object. Its one field `data` is updated in place by its methods. Each method is proved equal to the function over `Db` that specifies the same operation, and keeps `Valid()`.
- **Handlers** are functions from the old store to the new one, in the modules `Units`, `Missions`, `Tickets` and `Cascade`.
  - A send whose `TelegramForbiddenError` the bot answers with `remove_user_from_database` is `Cascade.Notify`.
  - A send whose failures are only logged is `Cascade.NotifyQuiet`.
  - A fan-out is `Cascade.Deliver`; a fan-out that remembers where each prompt went is `Cascade.Prompt`.
- **`Dispatch`** is aiogram's routing. Message handlers and callback handlers are each an ordered list of filters, and an update goes to the first handler whose filter accepts it. `Store.DataManager.OnMessage` and `OnPress` are the entry points.
- **Time** is whole seconds. Clock readings (`datetime.now()`) and the ids built from them are parameters.

Where the bot's behaviour departs from what one would expect, the model follows the code:

- While a callsign is awaited, pressing "Manage Units" sets the callsign to "Manage Units". The callsign filter is registered before that button.
- While a report text is awaited, "Ready for Action!" is filed as the report. The report filter is registered before that button.
- The completion announcement fires when `completed_by` reaches the *sum* of the target units' sizes. A user in two target units is counted twice.
- The close button has no "already closed" branch. It closes a closed ticket again and moves its closing time.
- `handle_mission_type` stores the draft without a permission check. The check happens when the content arrives.

## Model

| member | source | states |
|---|---|---|
| Types.UnitNamed | main.py:60-64 | a name denotes a unit exactly when it is one of the three unit names |
| Types.NamedUnit | main.py:60-64 | each unit's name denotes that unit |
| Types.UnitNameWord | main.py:60-64 | unit names hold no `_` and no `:`, so the callback data built from them splits back into them |
| Types.Targets | main.py:932-946 | "all" targets the three units, "decurions" targets decurions then centurions, any other type targets the privates |
| Types.PushRecent | main.py:995 | appending to the recent queue puts the id last and keeps at most 15 ids, dropping the oldest |
| Store.EmptyDb | main.py:88-107 | the initial store is well formed and every unit, set, ticket map, archive and outbox is empty |
| Store.DataManager.constructor | main.py:87-118 | a store without saved data starts empty and adds every allow-listed id to the centurions and subscribers |
| Store.DataManager.AddDefaultCommanders | main.py:166-169 | each id in turn goes through `add_commander` for the centurions |
| Store.DataManager.AddCommander | main.py:171-178 | an unknown unit name is refused with the store unchanged; otherwise the store is `Units.AddCommander`'s |
| Store.DataManager.Deregister | main.py:1690-1725 | the in-place purge leaves exactly the store `Cascade.Deregister` specifies |
| Store.DataManager.Notify | main.py:1255-1266 | a send is recorded, or the recipient who blocked the bot is purged |
| Store.DataManager.Deliver | main.py:1209-1219 | a fan-out sends to each recipient in turn and purges each refuser before the next send (corrected fan-out, see Findings) |
| Store.DataManager.Sweep | main.py:1351-1388 | one pass of the expiry sweep leaves exactly the store `Tickets.Sweep` specifies (corrected sweep, see Findings) |
| Store.DataManager.MedalLine | main.py:371-387 | the counting loop gives the medal line for the number of Completed missions listing the user |
| Store.DataManager.OnMessage | main.py:302-1682 | a text message is routed and handled as `Dispatch.OnMessage` says, and the store stays well formed |
| Store.DataManager.OnPress | main.py:532-1542 | a button press is routed and handled as `Dispatch.OnPress` says, and the store stays well formed |
| Store.PurgeRouting | main.py:1712-1715 | the loop over routing entries drops the user from each and deletes the emptied ones |
| Store.PurgeTickets | main.py:1717-1720 | the loop over tickets deletes exactly those the user filed or was assigned |
| Store.PurgeCompletions | main.py:1722-1724 | the loop over the archive discards the user from every `completed_by` |
| Store.ExpiredInOrder | main.py:1356-1364 | the first sweep loop collects the expired tickets in filing order |
| Store.CountCompleted | main.py:373-376 | the count is the number of Completed missions whose `completed_by` lists the user |
| Store.CommissionPreservesWf | main.py:166-169 | adding the default commanders keeps the store well formed |
| Units.AddCommander | main.py:171-178 | `None` exactly for an unknown unit; otherwise the user joins that unit and the subscribers and is marked active, and the other units are untouched |
| Units.AddCommanderIdempotent | main.py:171-178 | adding the same commander twice is adding once |
| Units.AddCenturionCommands | main.py:1685-1687 | whoever is added to the centurions is a commander |
| Units.CommissionEffect | main.py:166-169 | each listed id joins the centurions and the subscribers; the other units, the allow-list, the outbox and the tickets are untouched |
| Units.StartEnrols | main.py:303-335 | a newcomer, neither commander nor subscriber, joins the subscribers and the privates, the other units stay, and they are told so |
| Units.StartKeepsMembers | main.py:313-348 | a commander or a known subscriber keeps every unit and is not enrolled again |
| Units.StartIdempotent | main.py:303-348 | a second `/start` changes neither the privates nor the subscribers and never enrols |
| Units.StartNames | main.py:309-311 | after `/start` with a username, the user is displayed by that username |
| Units.MyStatusShows | main.py:391-438 | "My Status" updates only the activity time and the username cache; the card names the user by their current username, or as before when they have none; it shows the indexed ticket when it is active and shows none only when none is |
| Units.MyStatusPreservesWf | main.py:391-438 | "My Status" keeps the store well formed |
| Units.StatusIgnoresActivity | main.py:391-438 | the card does not depend on activity times |
| Units.TicketLineShows | main.py:409-415 | the line shows the indexed ticket whenever it is active, is empty only when no ticket is active, and shows an index entry naming a missing ticket as open |
| Units.StatusCountsDisjoint | main.py:402-408 | no mission counts both as active and as completed for the user |
| Units.HelpForCommanders | main.py:442-465 | the command section of `/help` is shown exactly to commanders |
| Units.CallSignStored | main.py:489-504 | a callsign of at most 20 characters is stored stripped |
| Units.CallSignRetry | main.py:493-495 | an over-long callsign only answers, and the pending action stays for a retry |
| Units.CallSignDialog | main.py:469-504 | button then text: a fitting text becomes the callsign and ends the dialog; a refused one leaves the dialog open and the callsign unchanged |
| Units.CallSignInputFits | main.py:489-504 | every callsign set through the dialog fits the limit |
| Units.UnitActionFields | main.py:572-615 | the data of a unit action splits into at least the parts the handler indexes |
| Units.ListDataStarts | main.py:600-602 | a page button's data is a `list_` press |
| Units.ListDataRoundTrip | main.py:571-579 | a page button's data names its unit and its page |
| Units.ListPressAnswers | main.py:561-612 | a commander's `list_` press only answers with the list reply |
| Units.ListReplyShowsPage | main.py:570-612 | the page button for page `n` of a unit shows page `n` of that unit's sorted members |
| Units.MemberOnSomePage | main.py:570-612 | every member of a unit is shown on one of the pages the page buttons reach |
| Units.AddAction | main.py:614-619 | the add button leaves a pending action that names the unit and contains "add" |
| Units.RemoveAction | main.py:614-619 | the remove button leaves a pending action that names the unit and does not contain "add" |
| Units.ThirdField | main.py:615 | `split("_")[2]` of `add_to_<unit>` or `remove_from_<unit>` is the unit |
| Units.RemoveDoesNotAdd | main.py:644 | the test `"add" in action` is false for every remove action |
| Units.MemberIdRetry | main.py:637-641 | a text that is not an integer only answers, and the pending action stays |
| Units.MemberIdInputChanges | main.py:631-662 | a parsed id goes to the add-or-remove step for the unit the action names |
| Units.SettledChange | main.py:661-662 | after a unit change, that unit holds the new set, the others are untouched, and the action is dropped |
| Units.MemberAdd | main.py:646-650 | adding puts the id in the unit, leaves the other units alone and ends the dialog |
| Units.MemberRemove | main.py:651-659 | removing a member takes the id out of the unit, leaves the other units alone and ends the dialog |
| Units.MemberRemoveRefused | main.py:652-654 | removing a non-member only answers, and the action stays for a retry |
| Units.AddThenRemove | main.py:646-659 | adding a newcomer and then removing them leaves the unit as it was |
| Units.ActiveTicketsListed | main.py:666-696 | the list names every open or in-progress ticket once and no closed one; it is empty only when none is open |
| Units.CommanderOnly | main.py:507-513 | "Manage Units", the unit buttons, "Active Tickets" and "Operation Summary" refuse non-commanders without touching the store |
| Units.CombatReadyAgain | main.py:1423-1428 | pressing "Ready for Action!" when already ready only updates the activity time and answers |
| Units.CombatReadyJoins | main.py:1429-1448 | a reachable member becomes combat ready and gets the confirmation before the answer |
| Units.CombatReadyPurges | main.py:1439-1441 | a member who has blocked the bot is purged instead |
| Units.CombatReadyTwice | main.py:1418-1448 | pressing twice is pressing once, apart from the second answer |
| Units.UnitActionFrame | main.py:561-625 | a unit button changes at most the presser's activity time and pending action |
| Units.StartPreservesWf | main.py:303-348 | `/start` keeps the store well formed |
| Units.UnitMenuPreservesWf | main.py:533-554 | a unit menu press keeps the store well formed |
| Units.CallSignButtonPreservesWf | main.py:469-482 | the callsign button keeps the store well formed |
| Units.CallSignInputPreservesWf | main.py:489-504 | a callsign input keeps the store well formed |
| Units.UnitActionPreservesWf | main.py:561-625 | a unit action press keeps the store well formed |
| Units.MemberIdPreservesWf | main.py:631-662 | a typed user id keeps the store well formed |
| Units.ChangeMemberPreservesWf | main.py:644-662 | the add-or-remove step keeps the store well formed |
| Units.CombatReadyPreservesWf | main.py:1418-1448 | "Ready for Action!" keeps the store well formed |
| Views.DisplayNameReads | main.py:364-369 | a cached name is shown with exactly one leading `@`; otherwise `ID: <id>`, from which the id reads back |
| Views.DisplayNameShape | main.py:364-369 | a displayed name starts with `@` or with `ID: ` |
| Views.DisplayNameDistinguishes | main.py:364-369 | two users without a cached name are never displayed alike |
| Views.RefreshName | main.py:351-362 | the refresh leaves the user's key cached and every other key as it was |
| Views.RefreshShows | main.py:351-369 | after the refresh, a non-empty username is what the user is displayed by; without one the display is unchanged |
| Views.Rank | main.py:377-386 | the medal rank for thresholds 10, 25, 50 and 100 |
| Views.RankMonotone | main.py:377-386 | more completed missions never earn a lower medal |
| Views.MedalAndCount | main.py:371-387 | `"0"` exactly for no completed mission; otherwise the medal and the count |
| Views.SliceBound | main.py:589 | Python's clamping of a slice bound |
| Views.Slice | main.py:589 | `members[start:end]` never holds more than the list |
| Views.PageWordRead | main.py:572-579 | a `list_<unit>_page_<n>` press whose last field reads as the integer `n` asks for page `n` |
| Views.PageOf | main.py:580-607 | a page reports the list length, its 1-based number and the page count, and shows at most 10 members, all from the list |
| Views.ListPage | main.py:580-607 | an empty unit has no page; otherwise the page of its sorted members |
| Views.PageInRange | main.py:587-607 | a page in range shows the 10 members from `10 * page`, its number and the page count |
| Views.EntryOnItsPage | main.py:587-589 | every entry of the list is shown on the page its position falls on |
| Views.MemberListed | main.py:570-607 | every member of a unit appears on some page of its list |
| Cascade.DropFromRouting | main.py:1712-1715 | each routing entry loses the user, and exactly the emptied entries are deleted |
| Cascade.DropTickets | main.py:1717-1720 | exactly the tickets the user neither filed nor was assigned survive, unchanged |
| Cascade.KeepOrder | main.py:1717-1720 | the filing order keeps exactly the surviving ids, still without repeats |
| Cascade.DropCompletion | main.py:1722-1724 | every mission is kept with the user discarded from its `completed_by` |
| Cascade.DeregisterForgets | main.py:1690-1724 | after the purge the user is in no unit, set, map, routing table, ticket or completion list, and no routing entry is empty |
| Cascade.DeregisterSpares | main.py:1693-1710 | other users keep their memberships and their map entries; the configuration, queue and outbox are untouched |
| Cascade.DeregisterSparesRecords | main.py:1711-1724 | other users keep their routing entries, their uninvolved tickets and their completions |
| Cascade.DeregisterIdempotent | main.py:1690-1724 | purging twice is purging once |
| Cascade.DeregisterNoop | main.py:1690-1724 | purging a user already forgotten changes nothing |
| Cascade.DeregisterPreservesWf | main.py:1690-1724 | the purge keeps the store well formed |
| Cascade.ForgottenStable | main.py:1690-1724 | a forgotten user stays forgotten when someone else is purged |
| Cascade.DeregisterKeepsMissions | main.py:1721-1724 | the purge keeps every mission and touches only `completed_by` |
| Cascade.DeliverEffect | main.py:1209-1219 | a fan-out appends the notes to the reachable recipients in order and keeps configuration, queue and approvals (corrected fan-out, see Findings) |
| Cascade.NotifyStep | main.py:1210-1217 | one send purges a refusing recipient from every unit and completion list and never changes who refuses |
| Cascade.DeliverPurges | main.py:1209-1219 | after a fan-out, the refusers are gone from every unit and nobody else is (corrected fan-out, see Findings) |
| Cascade.DeliverForgets | main.py:1209-1219 | after a fan-out, every refuser is forgotten everywhere (corrected fan-out, see Findings) |
| Cascade.DeliverKeepsForgotten | main.py:1209-1219 | a fan-out never brings back a forgotten user |
| Cascade.DeliverKeepsMissions | main.py:1209-1219 | a fan-out keeps every mission |
| Cascade.DeliverCons | main.py:1209-1219 | delivering to the first recipient and then to the rest is delivering to the list |
| Cascade.NotifyTicketFrame | main.py:1255-1266 | a send never creates or alters a ticket or an index entry, and a refused one only drops them |
| Cascade.SendsPreserveWf | main.py:1255-1266 | a send keeps the store well formed |
| Cascade.AnswersPreserveWf | main.py:1509-1510 | answering the sender, and ending their pending action, keeps the store well formed |
| Cascade.DeliverPreservesWf | main.py:1209-1219 | a fan-out keeps the store well formed |
| Cascade.PromptFrame | main.py:1141-1156 | prompting commanders changes only the outbox and the routing table, and the outbox gains the reachable sends |
| Cascade.PromptKeepsOtherKeys | main.py:1141-1156 | routing entries under other keys are untouched |
| Cascade.PromptRoutes | main.py:1141-1156 | every reachable recipient gets a routing entry pointing at the message it was sent, and nobody else gains one |
| Cascade.PromptPreservesWf | main.py:1141-1156 | prompting keeps the store well formed |
| Cascade.LiveDeliverAgrees | main.py:1209-1219 | when nobody refuses, the fan-out over the live set agrees with `Deliver` |
| Cascade.LiveDeliverLosesLaterRecipients | main.py:1209-1219 | when the first recipient refuses, the fan-out over the live set dies and later recipients get nothing (see Findings) |
| Missions.DistributeFrame | main.py:819-843 | a distribution only appends to the outbox, only removes members and keeps every mission |
| Missions.DistributeReaches | main.py:830-838 | every reachable member of a target unit receives the order (corrected fan-out, see Findings) |
| Missions.DistributeForgets | main.py:839-841 | every member of a target unit who blocked the bot is purged (corrected fan-out, see Findings) |
| Missions.DistributeKeepsForgotten | main.py:830-843 | a distribution never brings back a forgotten user |
| Missions.DistributePreservesWf | main.py:819-843 | a distribution keeps the store well formed |
| Missions.CreateMissionRefused | main.py:847-856 | "Create Mission" refuses whoever is neither commander, centurion nor decurion |
| Missions.CreateMissionOffers | main.py:847-871 | everyone else gets the type menu, with every type exactly when they may create missions for all units |
| Missions.MissionTypeDrafts | main.py:873-890 | a type press stores a draft of that scope awaiting its name for the user, keeps every other user's draft, prompts for the name, and changes nothing else |
| Missions.MissionTypeCarriesScope | main.py:873-915 | the scope picked by the press is the scope of the draft a fitting name moves on to its content |
| Missions.MissionNameSteps | main.py:896-915 | a stripped name of at most 50 characters moves the draft to its content; a longer one only answers and keeps the draft |
| Missions.ContentRefusedKeepsDraft | main.py:932-946 | content for a type the creator may not use only answers, and the draft stays |
| Missions.ContentCreates | main.py:921-997 | a created mission is archived under its id, Pending exactly when it needs approval, last in the recent queue, and the draft is dropped (corrected fan-out, see Findings) |
| Missions.LaunchKeepsQueue | main.py:959-993 | sending a mission out leaves the recent queue alone |
| Missions.LaunchNotifies | main.py:960-993 | a mission held for approval reaches every reachable centurion; any other reaches every reachable member of its target units (corrected fan-out, see Findings) |
| Missions.DecidedMissionUntouched | main.py:1006-1012 | approving or rejecting a non-Pending mission only answers "already processed" |
| Missions.ApproveSettles | main.py:1002-1040 | approving a Pending mission makes it Active with approver and time, distributes it, tells the creator, and later presses only answer (corrected fan-out, see Findings) |
| Missions.RejectSettles | main.py:1043-1078 | rejecting a Pending mission makes it Rejected with rejecter and time, and it is never distributed |
| Missions.RejectIsFinal | main.py:1043-1061 | a rejected mission stays rejected |
| Missions.CompleteRefusals | main.py:1177-1187 | a missing mission, an inactive mission or a repeated report only answers |
| Missions.CompleteAccepted | main.py:1173-1221 | an accepted report adds exactly the reporter to `completed_by`; the announcement goes out exactly when the count equals the sum of the target units' sizes, and refusers are then dropped; the mission stays Active (corrected fan-out, see Findings) |
| Missions.DeliverCompletions | main.py:1209-1219 | the announcement removes exactly the refusers from the mission's `completed_by` (corrected fan-out, see Findings) |
| Missions.QuorumCountsOverlapTwice | main.py:1194-1203 | a user in both decurions and centurions counts twice, so their report does not trigger the announcement |
| Missions.FinishEffect | main.py:1515-1542 | only commanders may finish a mission; a Completed one only answers; any other becomes Completed with its time, and its reporters are told (corrected fan-out, see Findings) |
| Missions.FinishCommandAgrees | main.py:1545-1574 | `/finish_mission <id>` does what the finish button does for the stripped id |
| Missions.LaunchPreservesWf | main.py:959-993 | sending a mission out keeps the store well formed |
| Missions.ContentPreservesWf | main.py:921-997 | mission creation keeps the store well formed |
| Missions.ApprovePreservesWf | main.py:1002-1040 | approval keeps the store well formed |
| Missions.RejectPreservesWf | main.py:1043-1078 | rejection keeps the store well formed |
| Missions.CompletePreservesWf | main.py:1173-1221 | a completion report keeps the store well formed |
| Missions.FinishPreservesWf | main.py:1515-1542 | the finish button keeps the store well formed |
| Missions.FinishMissionPreservesWf | main.py:1529-1541 | marking a mission Completed and telling its reporters keeps the store well formed |
| Missions.FinishCommandPreservesWf | main.py:1545-1574 | `/finish_mission` keeps the store well formed |
| Missions.DraftingPreservesWf | main.py:847-890 | the create button and the type press keep the store well formed |
| Missions.NamePreservesWf | main.py:896-915 | a mission name keeps the store well formed |
| Tickets.ActiveTicket | main.py:1088-1091 | the indexed ticket is active exactly when it exists and is not closed |
| Tickets.ReportRefusedWhileActive | main.py:1082-1098 | while the indexed ticket is active, the report button only updates the activity time and answers with that ticket, and no report is awaited anew |
| Tickets.ReportFiles | main.py:1116-1169 | a filed report is an open, unassigned ticket with exactly the report text and no responses; it is indexed as active, the dialog ends, and every reachable centurion and allow-listed id is told |
| Tickets.FileKeepsTicketsWf | main.py:1135-1136 | filing a ticket under its own id keeps the filing order listing every ticket once |
| Tickets.ReportButtonPreservesWf | main.py:1082-1109 | the report button keeps the store well formed |
| Tickets.ReportTextPreservesWf | main.py:1116-1169 | filing a report keeps the store well formed |
| Tickets.TicketCommandReadOnly | main.py:751-816 | `/ticket` changes nothing but the outbox |
| Tickets.TicketCommandShows | main.py:753-768 | the details are shown exactly to a commander, the owner or the assignee; anyone else is refused |
| Tickets.TakeOnlyOpen | main.py:1231-1239 | a ticket that is not open is not taken again |
| Tickets.TakeAssigns | main.py:1225-1282 | taking an open ticket makes it in progress and assigned to the taker, changes only the times besides, tells the owner, and leaves the routing table alone |
| Tickets.TakePreservesWf | main.py:1225-1282 | taking keeps the store well formed |
| Tickets.Removals | main.py:1326-1335 | keyboard removals go only to reachable prompt recipients |
| Tickets.RemovalsCover | main.py:1326-1335 | every reachable prompt recipient loses the keyboard |
| Tickets.CloseRefused | main.py:1300-1303 | anyone but a commander, the owner or the assignee only gets the refusal |
| Tickets.CloseCloses | main.py:1289-1342 | an allowed close marks the ticket closed with its time, drops the owner's index entry, tells the owner and strips every reachable prompt |
| Tickets.CloseRecloses | main.py:1305-1308 | the button closes an already closed ticket again, moving its closing time |
| Tickets.ClosePreservesWf | main.py:1289-1342 | closing keeps the store well formed |
| Tickets.RemoveAll | main.py:1483 | `replace(part, "")` never lengthens the text |
| Tickets.RemoveAllAbsent | main.py:1483 | nothing is removed from a text that does not contain the part |
| Tickets.ResponseActionRoundTrip | main.py:1466-1483 | the id recovered from a `respond_ticket_<id>` action is the id, unless the id contains the prefix |
| Tickets.TicketIdsRoundTrip | main.py:1482-1483 | the round trip holds for every ticket id the bot makes |
| Tickets.TicketIdLetters | main.py:1122 | the prefix occurs nowhere in a ticket id the bot makes |
| Tickets.RespondThenAnswer | main.py:1452-1511 | reply button then text: exactly one stripped response is appended, the owner receives it, and the dialog ends |
| Tickets.RespondPressPreservesWf | main.py:1452-1472 | the reply button keeps the store well formed |
| Tickets.ResponseInputPreservesWf | main.py:1479-1511 | a response keeps the store well formed |
| Tickets.FirstAssigned | main.py:1629 | the ticket found is assigned to the user and in progress; none is found only when no ticket is |
| Tickets.FirstAssignedIsFirst | main.py:1629 | no ticket filed before the one found qualifies |
| Tickets.MemberRelayAppends | main.py:1598-1616 | a relayed member message is appended with its time, only the ticket and the outbox change, and only the assignee is sent anything |
| Tickets.CommanderRelayAppends | main.py:1625-1642 | a commander's message is recorded on their first in-progress ticket and goes to its owner |
| Tickets.MemberRelayPreservesWf | main.py:1598-1616 | a member relay keeps the store well formed |
| Tickets.CommanderRelayPreservesWf | main.py:1625-1642 | a commander relay keeps the store well formed |
| Tickets.CloseCommandRefuses | main.py:1646-1664 | `/close` only answers exactly when there is no target ticket or it is already closed |
| Tickets.CloseDialogEffect | main.py:1665-1682 | `/close` closes the ticket with its time, drops the owner's index entry and tells the reachable owner and assignee |
| Tickets.CloseCommandPreservesWf | main.py:1646-1682 | `/close` keeps the store well formed |
| Tickets.CloseDialogPreservesWf | main.py:1665-1682 | closing a dialog keeps the store well formed |
| Tickets.ExpiredIds | main.py:1356-1364 | exactly the listed tickets that are not closed and silent for more than 72 hours |
| Tickets.ExpiredIdsSnoc | main.py:1358-1364 | scanning one more ticket extends the list by it exactly when it is expired |
| Tickets.CloseIfPresent | main.py:1384 | closing marks only that ticket closed and changes nothing else |
| Tickets.SweepStepTickets | main.py:1366-1384 | one step only drops tickets of purged users, and closes the swept one |
| Tickets.SweepStepFrame | main.py:1366-1384 | one step creates no index entry, keeps the blocked set and only appends to the outbox |
| Tickets.SweepStepReached | main.py:1366-1384 | a step with a reachable owner sends the notice and closes the ticket, nothing else |
| Tickets.SweepFromEffect | main.py:1366-1384 | a run closes exactly the listed tickets that survive it and leaves the others as they were (corrected sweep, see Findings) |
| Tickets.SweepFromKeeps | main.py:1366-1384 | when no listed owner refuses, every listed ticket survives and its owner is told |
| Tickets.SweepFromOutbox | main.py:1366-1384 | a sweep only appends to the outbox |
| Tickets.SweepIdempotent | main.py:1351-1388 | after a sweep no ticket is expired, so a second sweep at the same time changes nothing (corrected sweep, see Findings) |
| Tickets.SweepClosesExactlyExpired | main.py:1355-1384 | with every affected owner reachable, the sweep closes exactly the expired tickets, keeps the rest and leaves the index alone |
| Tickets.SweepAsWrittenFails | main.py:1366-1384 | two expired tickets of a refusing owner make the sweep as written fail at the second (see Findings) |
| Tickets.SweepAsWrittenAgrees | main.py:1366-1384 | when no listed ticket vanishes, the sweep as written agrees with the corrected one |
| Tickets.SweepFromPreservesWf | main.py:1366-1384 | the sweep keeps the store well formed |
| Dispatch.FirstMatchIs | main.py:55-57 | the first match is a route exactly when its guard accepts it and no earlier route's does |
| Dispatch.NoMatch | main.py:55-57 | nothing matches exactly when every guard rejects |
| Dispatch.MessageRanks | main.py:302-1646 | there are 21 message handlers, each registered once, at its own position |
| Dispatch.ButtonOf | main.py:73-84 | the button whose label is exactly the text, if any |
| Dispatch.ButtonOfLabel | main.py:73-84 | every button is recognised by its own label |
| Dispatch.LabelsRead | main.py:73-84 | what the filters see of each pressed reply-keyboard button |
| Dispatch.LabelCommand | main.py:73-84 | no label but `/help` reads as a command, and `/help` is the command `help` |
| Dispatch.RouteMessage | main.py:302-1682 | a message is only ever routed to a handler whose filter accepts it |
| Dispatch.RouteIsFirstMatch | main.py:302-1682 | a message goes to a handler exactly when its filter accepts it and no earlier filter does |
| Dispatch.DroppedIffNoFilter | main.py:302-1682 | a message is dropped exactly when no filter accepts it |
| Dispatch.EarlierHandlerWins | main.py:302-1682 | an earlier filter that accepts the message shadows every later handler |
| Dispatch.Process | main.py:302-1682 | an unmatched message changes nothing |
| Dispatch.ProcessRunsRoute | main.py:302-1682 | a routed message runs the handler it was routed to |
| Dispatch.ButtonsBeatPendingInput | main.py:390-489 | "My Status", "/help" and "Set Callsign" reach their handlers whatever input is pending, unless the message is `/start` |
| Dispatch.EarlyButtonsAlwaysAnswer | main.py:390-482 | pressing one of those three is answered by its own handler in any state |
| Dispatch.PendingCallSignCaptures | main.py:484-489 | while a callsign is awaited, every message but `/start` and those three buttons goes to the callsign input |
| Dispatch.CapturedCallSignStored | main.py:484-504 | a captured message that fits becomes the callsign, stripped |
| Dispatch.UnitsLabelFits | main.py:80 | "Manage Units" has no surrounding blanks and fits the callsign limit |
| Dispatch.ManageUnitsBecomesCallSign | main.py:484-508 | pressing "Manage Units" while a callsign is awaited sets the callsign "Manage Units" |
| Dispatch.PendingReportCaptures | main.py:1111-1116 | while a report is awaited and no mission is drafted, every message but `/start`, `/ticket` and the buttons other than "Ready for Action!" goes to the report input |
| Dispatch.ReportActionIsOwn | main.py:1101-1104 | the report's pending action is neither the callsign's nor a unit dialog's |
| Dispatch.ReportCapturesReadyButton | main.py:1111-1119 | "Ready for Action!" pressed while a report is awaited is filed as the report |
| Dispatch.CloseRead | main.py:1645-1646 | `/close` reads as the command `close`, no button, and starts with `/close` once stripped |
| Dispatch.CloseLikeNeverRelayed | main.py:1589-1623 | a message starting with `/close` once stripped is never relayed into a ticket dialog |
| Dispatch.CloseCommandRouted | main.py:1645-1646 | with nothing pending, the command `close` reaches the close handler |
| Dispatch.MemberMessageRelayed | main.py:1589-1598 | a plain message from a member whose ticket dialog is open, with nothing pending, goes to the member relay |
| Dispatch.CommanderMessageRelayed | main.py:1619-1625 | a plain message from a commander in a dialog, with none of their own and nothing pending, goes to the commander relay |
| Dispatch.PressRanks | main.py:532-1515 | there are 10 callback handlers, each registered once, at its own position |
| Dispatch.DataWordsFree | main.py:873-1515 | no callback word holds a colon |
| Dispatch.RoutePress | main.py:532-1515 | a press is only ever routed to a handler whose filter accepts its data |
| Dispatch.PressFiltersExclusive | main.py:532-1515 | no press data is accepted by two filters |
| Dispatch.PressRoutedIffAccepted | main.py:532-1515 | a press goes to a handler exactly when that handler's filter accepts its data |
| Dispatch.ArgRoundTrip | main.py:1004 | `split(":")[1]` of `word:arg` is `arg` when neither holds a colon |
| Dispatch.OnPress | main.py:532-1542 | an unmatched press changes nothing |
| Dispatch.ProcessPreservesWf | main.py:302-1682 | whatever message arrives, the store stays well formed |
| Dispatch.OnMessagePreservesWf | main.py:302-1682 | a raw text message keeps the store well formed |
| Dispatch.OnPressPreservesWf | main.py:532-1542 | whatever button is pressed, the store stays well formed |
| Persistence.Keyed | main.py:207-221 | writing an id-keyed map keeps its values under `str(id)` |
| Persistence.KeyedIds | main.py:207-221 | every key written for an id-keyed map reads back as an id |
| Persistence.Unkeyed | main.py:142-145 | reading keys through `int()` keeps the values under the ids |
| Persistence.UnkeyedKeyed | main.py:142-145 | reading the written ids back gives the original map |
| Persistence.KeyedUnkeyed | main.py:152-157 | writing the read ids out again gives the document that was read |
| Persistence.ListSet | main.py:123 | `set(l)` holds exactly the elements of the list |
| Persistence.SetList | main.py:196 | `list(s)` lists each element once |
| Persistence.Capped | main.py:128-131 | `deque(l, maxlen=15)` keeps the last `min(|l|, 15)` ids of the list, in order, so a list that already fits is kept whole |
| Persistence.MissionListed | main.py:199-204 | a saved mission lists its `completed_by` |
| Persistence.MissionSet | main.py:134-136 | a reloaded mission has its `completed_by` back as a set |
| Persistence.MissionRoundTrip | main.py:133-137 | a mission comes back as it was saved |
| Persistence.ArchiveListed | main.py:199-204 | the saved archive has the same mission ids |
| Persistence.ArchiveSet | main.py:133-137 | the reloaded archive has the same mission ids |
| Persistence.ArchiveRoundTrip | main.py:133-137 | the archive comes back as it was saved |
| Persistence.RoutingKeyed | main.py:216-221 | the saved routing table has the same tickets, each with its commander keys as `str(id)` |
| Persistence.RoutingUnkeyed | main.py:151-157 | the reloaded routing table has the same tickets |
| Persistence.RoutingRoundTrip | main.py:151-157 | the routing table comes back as it was saved |
| Persistence.UnitsRoundTrip | main.py:122-125 | every unit comes back as it was saved |
| Persistence.PrepareReadable | main.py:193-226 | every key a reload passes through `int()` in a saved document is an id |
| Persistence.Convert | main.py:120-164 | the corrected reload succeeds exactly when every id key in the document is an id |
| Persistence.Reloaded | main.py:120-164 | a reload keeps the running bot's allow-list, blocked set and outbox |
| Persistence.RereadRoundTrip | main.py:120-164 | the sections the reload rebuilds come back as they were saved |
| Persistence.RoundTrip | main.py:120-226 | saving and then loading with the corrected reload gives back every structure of the store |
| Persistence.ReloadPreservesWf | main.py:120-164 | a reloaded store is as well formed as the saved one |
| Persistence.ConvertAsWritten | main.py:120-164 | the reload as written succeeds exactly when every key it passes through `int()` is an id |
| Persistence.ReloadAsWrittenLoses | main.py:139-148 | after a save and a reload as written, tickets and approvals are the pre-load ones and no id finds its call sign, pending action, draft or ticket index |
| Persistence.ReloadAsWrittenExample | main.py:120-164 | a store with one ticket and one callsign loses both through a save and a reload as written (see Findings) |
| Sorting.SortedSeq | main.py:580-581 | `sorted(s)` lists every element once, in increasing order |
| Text.Strip | main.py:492 | `strip()` is a slice of the text that neither starts nor ends with white space, and every character outside that slice is white space |
| Text.StripIdempotent | main.py:492 | stripping twice is stripping once |
| Text.StripKeepsTrimmed | main.py:492 | a text without surrounding white space is its own strip |
| Text.SplitFourWords | main.py:572 | four separator-free words joined by the separator split back into them |
| Text.ParseInt | main.py:638 | `int(text)` succeeds only on a text that is not blank once stripped; `None` is the `ValueError` |
| Text.Decimal | main.py:310 | `str(n)` is a nonempty run of digits, led by `-` for a negative number |
| Text.DecimalRoundTrip | main.py:142-145 | `int(str(n)) == n` |
| Text.DecimalInjective | main.py:310 | distinct ids have distinct decimal forms |
| Text.ParseCommand | main.py:750-757 | aiogram never reads an empty argument text: a bare command has `None` for its arguments |
| Text.CommandStartsStripped | main.py:1595 | a text read as the command `/name` starts with `/name` once stripped |
| Text.NotACommand | main.py:750 | a text starting with anything but white space or `/` is no command |
| Text.BareCommand | main.py:1550-1551 | a bare `/name` is that command without arguments |
| Text.CommandWithArgs | main.py:1553 | `/name args` is that command with the argument text |

## Left out

- Telegram transport is left out: sending, editing markup and answering callbacks. Sends are outbox events, `TelegramForbiddenError` is membership in `blocked`, and every other send failure is only logged, so it leaves no trace.
- Edits of the message whose button was pressed are left out, for example the take button's new keyboard (main.py:1270-1272). They change no state. The close button's keyboard removals in the other commanders' chats are recorded, as `MarkupRemoved` events.
- The take handler's update of the routing table (main.py:1274) is left out. It names the undefined `supervisor_id`, and the `NameError` is swallowed right there, so the table never changes. The model leaves it unchanged.
- Keyboards and all HTML and Markdown text are left out as presentation. Replies are `Reply` values that carry what the text reports.
- The ticket-history sort in `/ticket` is left out, because it only orders the display.
- The member list's call of `update_username_cache` for each shown member (main.py:593) is left out. Without a username it only writes an explicit `None` for an uncached id, which displays as before (Views.RefreshShows). The refresh in "My Status" is modelled.
- The counting in "Operation Summary" is left out, because it is display only. The handler is modelled as a commander-only answer.
- File and JSON I/O are left out, along with backups and `_load_initial_data`'s choice between the saved file and the defaults. The JSON round trip is modelled by the `Saved` document.
- The asyncio tasks, sleeps, startup, shutdown, `main` and logging are left out. One sweep pass takes `now` as an argument.
- Interleaving across `await`s is left out. Each handler runs atomically.
- Microseconds and ISO timestamp strings are left out, because times are whole seconds. Timestamps that fail to parse are not modelled.
- Non-text messages and callback data the bot never produces are left out. Forged data only reaches the error branches that are modelled.
- Set iteration order is modelled as ascending ids. CPython walks a set of ints in hash order.
- Store.PurgeRouting, Store.PurgeTickets and Store.PurgeCompletions: the loops run on value copies and return the new map. Mutating a dict being iterated is not modelled.
- Persistence.Convert: a key written as a non-canonical number (for example "07") is treated as unreadable. Python's `int()` would accept it.
- Persistence.ConvertAsWritten: like Persistence.Convert, it treats a non-canonical number key (for example "07") as unreadable, where Python's `int()` reads it.
- Persistence.ConvertAsWritten: the structures `_convert_data` assigns before an `int()` raises `ValueError` are not modelled. On a bad document the model returns `None` as a whole.
- Text.ParseInt: only ASCII digits are read. Python's `int()` also accepts other Unicode decimal digits, such as the fullwidth "３", so a typed id written that way is answered as a bad format where the bot would take user 3.
- Missions.DistributeReaches, Missions.DistributeForgets, Missions.LaunchNotifies, Missions.ContentCreates and Missions.ApproveSettles state the corrected fan-out. As written (main.py:830-843), the first member who has blocked the bot is purged from the unit set being walked, and the walk raises `RuntimeError`, even when that member comes last. The members after them and the later units get nothing, and the calling handler stops there. `handle_mission_content` then never archives the mission, queues its id or drops the draft (main.py:994-997). `approve_mission` leaves the mission Active without telling its creator (main.py:1026-1040).
- Missions.CompleteAccepted and Missions.DeliverCompletions state the corrected fan-out. As written (main.py:1209-1219), a refuser among those who completed the mission raises `RuntimeError` in the announcement loop, so later reporters get nothing, and the report gets no callback answer.
- Missions.FinishEffect states the corrected fan-out. As written (main.py:1533-1540), a refuser among the reporters raises `RuntimeError`, so later reporters are not told and the press gets no answer. The mission is already marked Completed by then.
- Store.DataManager.Sweep, Tickets.SweepFromEffect and Tickets.SweepIdempotent state the corrected sweep, which skips a ticket already deleted. As written (main.py:1366-1384), a ticket deleted by an earlier purge in the same pass is looked up again, the `KeyError` ends the sweeping task, and the remaining expired tickets stay open. Tickets.SweepAsWritten models that behaviour.
- Persistence.RoundTrip: it requires at most 15 recent missions, because the reload caps the queue at that length. Every handler keeps that bound.

## Findings

| source | as written | input that shows it | evidently intended | confidence | as-written member | corrected member |
|---|---|---|---|---|---|---|
| main.py:1209-1219 | the completion fan-out iterates over the live `completed_by` set, and a refused send calls `remove_user_from_database`, which discards that user from the same set; the next step of the loop raises `RuntimeError: Set changed size during iteration`, even after the last element. `distribute_mission` does the same over a unit set (main.py:830-843), and so does `handle_finish_mission` (main.py:1533-1540). The calling handler stops: a created mission is never archived (main.py:994-997), an approved mission's creator is never told, and reports and finish presses get no answer. The handler-level effects are listed under Left out | a mission whose quorum is met with `completed_by == {a, b}`, where `a` has blocked the bot and comes first | every recipient is tried once, and each refuser is purged | high, not executed | Cascade.LiveDeliverLosesLaterRecipients | Cascade.DeliverPurges |
| main.py:120-164 | `_convert_data` never restores `command.tickets` (nor `missions.approvals`), although `_prepare_data_for_saving` writes both | a store holding ticket "t" filed by user 7, saved and loaded by a fresh bot | every saved ticket comes back after a restart | high, not executed | Persistence.ReloadAsWrittenExample | Persistence.RoundTrip |
| main.py:139-148 | `call_signs`, `temp_actions`, `temp_missions` and `user_active_tickets` are read back with the string keys JSON gave them, while every lookup uses the int id | user 7 with call sign "Hawk", saved and reloaded: `call_signs.get(7)` finds nothing | the keys are converted back through `int()`, as for `activity` | high, not executed | Persistence.ReloadAsWrittenLoses | Persistence.RoundTrip |
| main.py:1366-1384 | the second loop of `cleanup_tickets` indexes `tickets[ticket_id]` for every id collected; when the notice to an owner who blocked the bot purges that owner, their later expired ticket is deleted, the next lookup raises `KeyError`, and the hourly task dies | two expired tickets of one owner who has blocked the bot | tickets deleted during the sweep are skipped | high, not executed | Tickets.SweepAsWrittenFails | Tickets.SweepClosesExactlyExpired |
