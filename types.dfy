/**
 * The CyberGuard store as a value: the unit rosters, the mission archive, the
 * ticket desk, the pending-input maps and the caches, plus an outbox of what
 * the bot has sent. Telegram ids are integers; instants are whole seconds.
 */
module Types {
  import opened Optional
  import opened Text

  type UserId = int
  type MissionId = string
  type TicketId = string
  /** An instant, in whole seconds. */
  type Time = int

  const MaxLastMissions := 15
  const MaxCallSignLength := 20
  const MaxMissionNameLength := 50
  /** Hours of silence after which a ticket is closed by the sweep. */
  const TicketTimeout := 72
  const PageSize := 10

  // ---------------------------------------------------------------------------
  // Units and missions
  // ---------------------------------------------------------------------------

  datatype UnitType = Centurions | Decurions | Privates

  const AllTypes: seq<UnitType> := [Centurions, Decurions, Privates]

  function UnitName(t: UnitType): string {
    match t
    case Centurions => "centurions"
    case Decurions => "decurions"
    case Privates => "privates"
  }

  /** The unit a name denotes; `None` for any other text (a `KeyError`/`ValueError` in the bot). */
  function UnitNamed(name: string): (r: Option<UnitType>)
    ensures r.None? ==> forall t :: UnitName(t) != name
    ensures r.Some? ==> UnitName(r.value) == name
  {
    if name == "centurions" then Some(Centurions)
    else if name == "decurions" then Some(Decurions)
    else if name == "privates" then Some(Privates)
    else None
  }

  /** A unit's name is one word: no `_` and no `:` in it. */
  lemma UnitNameWord(t: UnitType)
    ensures Free(UnitName(t), '_') && Free(UnitName(t), ':')
  {
    match t
    case Centurions =>
    case Decurions =>
    case Privates =>
  }

  /** Each unit's name denotes that unit. */
  lemma NamedUnit(t: UnitType)
    ensures UnitNamed(UnitName(t)) == Some(t)
  {
  }

  datatype MissionStatus = Pending | Active | Completed | Approved | Rejected

  /**
   * A mission record. `scope` is the mission type chosen at creation ("all",
   * "decurions", anything else meaning privates). The members-set type is a
   * parameter so that the saved form (a list) shares the declaration.
   */
  datatype MissionRecord<Members> = MissionRecord(
    id: MissionId,
    creator: UserId,
    scope: string,
    name: string,
    content: string,
    status: MissionStatus,
    createdAt: Time,
    completedBy: Members,
    approvedBy: Option<UserId>,
    approvedAt: Option<Time>,
    rejectedBy: Option<UserId>,
    rejectedAt: Option<Time>,
    completedAt: Option<Time>)

  type Mission = MissionRecord<set<UserId>>

  /** The units a mission of the given scope is sent to, in sending order. */
  function Targets(scope: string): (ts: seq<UnitType>)
    ensures |ts| >= 1
    ensures scope == "all" ==> ts == AllTypes
    ensures scope == "decurions" ==> ts == [Decurions, Centurions]
    ensures scope != "all" && scope != "decurions" ==> ts == [Privates]
  {
    if scope == "all" then AllTypes
    else if scope == "decurions" then [Decurions, Centurions]
    else [Privates]
  }

  // ---------------------------------------------------------------------------
  // Tickets
  // ---------------------------------------------------------------------------

  datatype TicketStatus = Open | InProgress | Closed

  /** An entry of a ticket's `messages`: the report text itself, or a later relayed message. */
  datatype MemberMessage = ReportText(text: string) | FromMember(text: string, at: Time)

  /** An entry of a ticket's `responses`. */
  datatype Response = Response(moderator: UserId, text: string, at: Time)

  datatype Ticket = Ticket(
    id: TicketId,
    owner: UserId,
    text: string,
    status: TicketStatus,
    createdAt: Time,
    updatedAt: Time,
    assignedTo: Option<UserId>,
    assignedAt: Option<Time>,
    closedAt: Option<Time>,
    messages: seq<MemberMessage>,
    responses: seq<Response>)

  /** Python truthiness of `ticket.get("assigned_to")`: present and not 0. */
  predicate Assigned(t: Ticket) {
    t.assignedTo.Some? && t.assignedTo.value != 0
  }

  // ---------------------------------------------------------------------------
  // Pending input
  // ---------------------------------------------------------------------------

  /** A `temp_actions` entry: `{"action": ..., "step": ...}`. */
  datatype PendingAction = PendingAction(action: string, step: string)

  /** A `temp_missions` entry: the chosen type, then also the name. */
  datatype Draft = AwaitingName(scope: string) | AwaitingContent(scope: string, name: string)

  // ---------------------------------------------------------------------------
  // What the bot sends
  // ---------------------------------------------------------------------------

  /** Where a sent prompt lives: chat and message id (here, the outbox position of the send). */
  datatype Handle = Handle(chatId: UserId, messageId: int)

  /** Messages sent with `bot.send_message`, each kind named after its purpose. */
  datatype Note =
    | MissionOrder(mission: MissionId)
    | ApprovalRequest(mission: MissionId)
    | MissionApproved(mission: MissionId)
    | MissionRejected(mission: MissionId)
    | MissionAccomplished(mission: MissionId)
    | MissionClosed(mission: MissionId)
    | NewReport(ticket: TicketId)
    | TicketTaken(ticket: TicketId, callSign: string)
    | TicketAnswer(ticket: TicketId, text: string)
    | RelayFromMember(ticket: TicketId, text: string)
    | RelayFromCommander(ticket: TicketId, text: string)
    | TicketClosedNotice(ticket: TicketId)
    | DialogClosed(ticket: TicketId)
    | DialogEnded(ticket: TicketId)
    | ClosedForInactivity(ticket: TicketId)
    | ReadyConfirmed

  /** One page of a unit's member list. */
  datatype Page = Page(members: seq<UserId>, total: nat, number: int, count: int, previous: bool, next: bool)

  /** Answers to the sender of a message or the presser of a button. */
  datatype Reply =
    | CommandCenter | Enlisted | AlreadyActive | WelcomeBack
    | StatusCard(name: string, callSign: string, ready: bool, shownTicket: Option<(TicketId, TicketStatus)>, active: nat, completed: nat)
    | HelpText(forCommand: bool) | Forbidden
    | CallSignPrompt | CallSignTooLong | CallSignSet(callSign: string)
    | UnitMenu | UnitActions(unit: string) | MemberIdPrompt(action: string)
    | NoMembers(unit: string) | MemberPage(unit: string, page: Page)
    | BadIdFormat | MemberAdded(member: UserId, into: UnitType) | NotInUnit | MemberRemoved(member: UserId, from: UnitType)
    | TicketList(ids: seq<TicketId>) | NoActiveTickets | Summary
    | TicketIdMissing | TicketNotFound | TicketDetails(ticket: TicketId)
    | MissionTypeMenu(allScopes: bool) | MissionNamePrompt(scope: string) | MissionNameTooLong
    | MissionContentPrompt(name: string) | ScopeForbidden | SentForApproval | Launched(name: string, reach: nat)
    | MissionNotFound | AlreadyProcessed | ApprovedAck | RejectedAck
    | ActiveTicketExists(ticket: TicketId) | ReportPrompt | ReportRegistered(ticket: TicketId)
    | MissionInactive | AlreadyMarked | CompletionAccepted
    | TicketBusy | TakenAck
    | CloseForbidden | ClosedAck
    | AlreadyOnDuty | ReadyAck
    | ResponsePrompt(ticket: TicketId) | ResponseSent
    | FinishUsage | AlreadyCompleted | MissionFinished
    | AwaitingModerator | NothingToClose

  datatype Event =
    | Sent(to: UserId, note: Note)
    | Answered(to: UserId, reply: Reply)
    | MarkupRemoved(chat: UserId, messageId: int)

  // ---------------------------------------------------------------------------
  // The store
  // ---------------------------------------------------------------------------

  /**
   * `DataManager.data`, with the admin allow-list, the set of users who have
   * blocked the bot (sends to them raise `TelegramForbiddenError`) and the
   * outbox. `ticketOrder` is the insertion order of `tickets`; `usernames` is
   * keyed by the decimal form of the id, as in the bot.
   */
  datatype Db = Db(
    admins: set<UserId>,
    blocked: set<UserId>,
    centurions: set<UserId>,
    decurions: set<UserId>,
    privates: set<UserId>,
    recent: seq<MissionId>,
    archive: map<MissionId, Mission>,
    approvals: map<MissionId, UserId>,
    callSigns: map<UserId, string>,
    tickets: map<TicketId, Ticket>,
    ticketOrder: seq<TicketId>,
    activity: map<UserId, Time>,
    tempActions: map<UserId, PendingAction>,
    tempMissions: map<UserId, Draft>,
    userActiveTickets: map<UserId, TicketId>,
    ticketResponses: map<string, map<UserId, Handle>>,
    subscribers: set<UserId>,
    combatReady: set<UserId>,
    usernames: map<string, Option<string>>,
    outbox: seq<Event>)

  function Members(db: Db, t: UnitType): set<UserId> {
    match t
    case Centurions => db.centurions
    case Decurions => db.decurions
    case Privates => db.privates
  }

  function WithMembers(db: Db, t: UnitType, s: set<UserId>): (r: Db)
    ensures Members(r, t) == s
    ensures forall o :: o != t ==> Members(r, o) == Members(db, o)
  {
    match t
    case Centurions => db.(centurions := s)
    case Decurions => db.(decurions := s)
    case Privates => db.(privates := s)
  }

  lemma WithMembersPreservesWf(db: Db, t: UnitType, s: set<UserId>)
    requires Wf(db)
    ensures Wf(WithMembers(db, t, s))
  {
    match t
    case Centurions =>
    case Decurions =>
    case Privates =>
  }

  /** `is_commander`: on the admin allow-list or a centurion. */
  predicate IsCommander(db: Db, u: UserId) {
    u in db.admins || u in db.centurions
  }

  function Touch(db: Db, u: UserId, now: Time): Db {
    db.(activity := db.activity[u := now])
  }

  predicate Distinct<T(==)>(s: seq<T>) {
    forall i, j :: 0 <= i < j < |s| ==> s[i] != s[j]
  }

  /** What every handler keeps true of the store. */
  ghost predicate Wf(db: Db) {
    && |db.recent| <= MaxLastMissions
    && TicketsWf(db.tickets, db.ticketOrder)
    && ArchiveWf(db.archive)
    && RoutingWf(db.ticketResponses)
  }

  /** Well-formedness depends only on the recent list, the tickets, the archive and the routing table. */
  lemma WfFrame(a: Db, b: Db)
    requires Wf(a)
    requires b.recent == a.recent && b.tickets == a.tickets && b.ticketOrder == a.ticketOrder
    requires b.archive == a.archive && b.ticketResponses == a.ticketResponses
    ensures Wf(b)
  {
  }

  /** `ticketOrder` lists every ticket id exactly once; each ticket is filed under its own id. */
  ghost predicate TicketsWf(tickets: map<TicketId, Ticket>, order: seq<TicketId>) {
    && Distinct(order)
    && (forall id :: id in order <==> id in tickets)
    && (forall id :: id in tickets ==> tickets[id].id == id)
  }

  ghost predicate ArchiveWf(archive: map<MissionId, Mission>) {
    forall id :: id in archive ==> archive[id].id == id
  }

  /** No routing entry is left empty (the purge deletes emptied ones). */
  ghost predicate RoutingWf(routing: map<string, map<UserId, Handle>>) {
    forall k :: k in routing ==> routing[k] != map[]
  }

  /** `deque(maxlen=15).append(id)`: the new id last, the oldest dropped once full. */
  function PushRecent(recent: seq<MissionId>, id: MissionId): (r: seq<MissionId>)
    ensures |r| == if |recent| < MaxLastMissions then |recent| + 1 else MaxLastMissions
    ensures r == (recent + [id])[|recent| + 1 - |r|..]
    ensures r[|r| - 1] == id
  {
    var s := recent + [id];
    if |s| > MaxLastMissions then s[|s| - MaxLastMissions..] else s
  }

  /** A ticket id in the bot's format, `ticket_<user>_<seconds>`. */
  function TicketIdFor(u: UserId, now: Time): TicketId {
    "ticket_" + Decimal(u) + "_" + Decimal(now)
  }

  /** A mission id in the bot's format, `mission_<user>_<seconds>`. */
  function MissionIdFor(u: UserId, now: Time): MissionId {
    "mission_" + Decimal(u) + "_" + Decimal(now)
  }
}
