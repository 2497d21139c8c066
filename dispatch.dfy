/**
 * aiogram's routing of updates to the bot's handlers: each handler is
 * registered with a filter, and an update goes to the first handler, in
 * registration order, whose filter accepts it. Messages and button presses
 * (callback queries) are routed separately. An update no filter accepts is
 * dropped and changes nothing.
 */
module Dispatch {
  import opened Optional
  import opened Text
  import opened Types
  import opened Cascade
  import opened Units
  import opened Tickets
  import opened Missions

  // ---------------------------------------------------------------------------
  // First match in a list of guards
  // ---------------------------------------------------------------------------

  /**
   * The position of the first route from `k` on that the guard accepts,
   * where route `j` is `at(j)` for `j < n`; `n` when there is none.
   */
  function FirstFrom<R>(at: nat -> R, n: nat, guard: R -> bool, k: nat): nat
    decreases n - k
  {
    if k >= n then n
    else if guard(at(k)) then k
    else FirstFrom(at, n, guard, k + 1)
  }

  lemma {:induction false} FirstFromSpec<R>(at: nat -> R, n: nat, guard: R -> bool, k: nat)
    requires k <= n
    ensures k <= FirstFrom(at, n, guard, k) <= n
    ensures FirstFrom(at, n, guard, k) < n ==> guard(at(FirstFrom(at, n, guard, k)))
    ensures forall j :: k <= j < FirstFrom(at, n, guard, k) ==> !guard(at(j))
    decreases n - k
  {
    if k < n && !guard(at(k)) {
      FirstFromSpec(at, n, guard, k + 1);
    }
  }

  /** The first match over all `n` routes. */
  function FirstMatch<R>(at: nat -> R, n: nat, guard: R -> bool): (i: nat)
    ensures i <= n
    ensures i < n ==> guard(at(i))
  {
    FirstFromSpec(at, n, guard, 0);
    FirstFrom(at, n, guard, 0)
  }

  /** Every route listed once, at position `rank`. */
  ghost predicate Ranked<R(!new)>(at: nat -> R, n: nat, rank: R -> nat) {
    && (forall y :: rank(y) < n && at(rank(y)) == y)
    && (forall k: nat :: k < n ==> rank(at(k)) == k)
  }

  /** When nothing matches, the guard rejects every route, and only then. */
  lemma NoMatch<R(!new)>(at: nat -> R, n: nat, guard: R -> bool, rank: R -> nat)
    requires Ranked(at, n, rank)
    ensures FirstMatch(at, n, guard) == n <==> forall y :: !guard(y)
  {
    FirstFromSpec(at, n, guard, 0);
    if FirstMatch(at, n, guard) == n {
      forall y
        ensures !guard(y)
      {
        assert at(rank(y)) == y;
      }
    }
  }

  /** The first match is `x` exactly when the guard accepts `x` and no route ranked before it. */
  lemma FirstMatchIs<R(!new)>(at: nat -> R, n: nat, guard: R -> bool, rank: R -> nat, x: R)
    requires Ranked(at, n, rank)
    ensures FirstMatch(at, n, guard) == rank(x) <==>
      guard(x) && forall y :: rank(y) < rank(x) ==> !guard(y)
  {
    FirstFromSpec(at, n, guard, 0);
    var i := FirstMatch(at, n, guard);
    if i == rank(x) {
      forall y | rank(y) < rank(x)
        ensures !guard(y)
      {
        assert at(rank(y)) == y;
      }
    }
    if guard(x) && forall y :: rank(y) < rank(x) ==> !guard(y) {
      assert at(rank(x)) == x;
      assert i <= rank(x) < n;
      assert guard(at(i)) && rank(at(i)) == i;
    }
  }

  // ---------------------------------------------------------------------------
  // Messages
  // ---------------------------------------------------------------------------

  /** The message handlers, named after the bot's functions. */
  datatype MessageHandler =
    | HandleStart | HandleMyStatus | HandleHelp | HandleSetCallSign | HandleCallSignInput
    | HandleManageUnits | HandleUserIdInput | HandleActiveTickets | HandleStats | HandleTicketCommand
    | HandleCreateMission | HandleMissionName | HandleMissionContent | HandleReportStart | HandleReportText
    | HandleCombatReady | HandleRespondTicketText | HandleFinishMissionCommand
    | HandleTicketDialogUser | HandleTicketDialogAdmin | HandleCloseTicketCommand

  /** The message handlers in registration order. */
  const MessageOrder: seq<MessageHandler> := [
    HandleStart, HandleMyStatus, HandleHelp, HandleSetCallSign, HandleCallSignInput,
    HandleManageUnits, HandleUserIdInput, HandleActiveTickets, HandleStats, HandleTicketCommand,
    HandleCreateMission, HandleMissionName, HandleMissionContent, HandleReportStart, HandleReportText,
    HandleCombatReady, HandleRespondTicketText, HandleFinishMissionCommand,
    HandleTicketDialogUser, HandleTicketDialogAdmin, HandleCloseTicketCommand]

  /** Where a handler stands in `MessageOrder`. */
  function MessageRank(h: MessageHandler): nat {
    match h
    case HandleStart => 0
    case HandleMyStatus => 1
    case HandleHelp => 2
    case HandleSetCallSign => 3
    case HandleCallSignInput => 4
    case HandleManageUnits => 5
    case HandleUserIdInput => 6
    case HandleActiveTickets => 7
    case HandleStats => 8
    case HandleTicketCommand => 9
    case HandleCreateMission => 10
    case HandleMissionName => 11
    case HandleMissionContent => 12
    case HandleReportStart => 13
    case HandleReportText => 14
    case HandleCombatReady => 15
    case HandleRespondTicketText => 16
    case HandleFinishMissionCommand => 17
    case HandleTicketDialogUser => 18
    case HandleTicketDialogAdmin => 19
    case HandleCloseTicketCommand => 20
  }

  /** The handler registered at position `k`. */
  function MessageAt(k: nat): MessageHandler {
    if k < |MessageOrder| then MessageOrder[k] else HandleStart
  }

  /** Every handler is registered once, at its rank. */
  lemma MessageRanks()
    ensures |MessageOrder| == 21
    ensures Ranked(MessageAt, |MessageOrder|, MessageRank)
  {
    assert forall h :: MessageOrder[MessageRank(h)] == h;
  }

  /** The reply-keyboard buttons; pressing one sends its label as a text message. */
  datatype Button =
    | StatusKey | HelpKey | CallSignKey | UnitsKey | TicketsKey | SummaryKey | CreateMissionKey | ReportKey | ReadyKey

  function Label(b: Button): string {
    match b
    case StatusKey => "My Status"
    case HelpKey => "/help"
    case CallSignKey => "Set Callsign"
    case UnitsKey => "Manage Units"
    case TicketsKey => "Active Tickets"
    case SummaryKey => "Operation Summary"
    case CreateMissionKey => "Create Mission"
    case ReportKey => "Report to Command"
    case ReadyKey => "Ready for Action!"
  }

  /** The button whose label is exactly the text (an `F.text == ...` filter), if any. */
  function ButtonOf(text: string): (r: Option<Button>)
    ensures r.Some? ==> Label(r.value) == text
    ensures r.None? ==> forall b :: Label(b) != text
  {
    if text == "My Status" then Some(StatusKey)
    else if text == "/help" then Some(HelpKey)
    else if text == "Set Callsign" then Some(CallSignKey)
    else if text == "Manage Units" then Some(UnitsKey)
    else if text == "Active Tickets" then Some(TicketsKey)
    else if text == "Operation Summary" then Some(SummaryKey)
    else if text == "Create Mission" then Some(CreateMissionKey)
    else if text == "Report to Command" then Some(ReportKey)
    else if text == "Ready for Action!" then Some(ReadyKey)
    else None
  }

  /** Every button is recognised by its own label: no two labels are alike. */
  lemma ButtonOfLabel(b: Button)
    ensures ButtonOf(Label(b)) == Some(b)
  {
    match b
    case StatusKey =>
    case HelpKey =>
    case CallSignKey =>
    case UnitsKey =>
    case TicketsKey =>
    case SummaryKey =>
    case CreateMissionKey =>
    case ReportKey =>
    case ReadyKey =>
  }

  /**
   * A text message as the filters and handlers read it: the text, the button
   * it is the label of, the command the `Command` filters see, the command's
   * arguments, and whether it starts, stripped, with `/close`.
   */
  datatype Message = Message(text: string, button: Option<Button>, command: Option<string>, args: Option<string>, closeLike: bool)

  function Receive(text: string): Message {
    Message(text, ButtonOf(text), CommandName(text), CommandArgs(text), StartsWith(Strip(text), "/close"))
  }

  /** Some ticket in progress is assigned to `u` (the admin relay's filter). */
  predicate AssignedInProgress(db: Db, u: UserId) {
    exists id :: id in db.tickets && db.tickets[id].assignedTo == Some(u) && db.tickets[id].status == InProgress
  }

  /** `u`'s indexed ticket exists and is in progress (the user relay's filter). */
  predicate DialogOpen(db: Db, u: UserId) {
    u in db.userActiveTickets && db.userActiveTickets[u] in db.tickets
    && db.tickets[db.userActiveTickets[u]].status == InProgress
  }

  predicate AwaitingReport(db: Db, u: UserId) {
    u in db.tempActions && db.tempActions[u] == ReportAction
  }

  predicate AwaitingResponse(db: Db, u: UserId) {
    u in db.tempActions && StartsWith(db.tempActions[u].action, RespondPrefix)
    && db.tempActions[u].step == "awaiting_text"
  }

  /** The filter each message handler is registered with. */
  predicate MessageGuard(db: Db, u: UserId, m: Message, h: MessageHandler) {
    match h
    case HandleStart => m.command == Some("start")
    case HandleMyStatus => m.button == Some(StatusKey)
    case HandleHelp => m.button == Some(HelpKey)
    case HandleSetCallSign => m.button == Some(CallSignKey)
    case HandleCallSignInput => AwaitingCallSign(db, u)
    case HandleManageUnits => m.button == Some(UnitsKey)
    case HandleUserIdInput => AwaitingMemberId(db, u)
    case HandleActiveTickets => m.button == Some(TicketsKey)
    case HandleStats => m.button == Some(SummaryKey)
    case HandleTicketCommand => m.command == Some("ticket")
    case HandleCreateMission => m.button == Some(CreateMissionKey)
    case HandleMissionName => u in db.tempMissions && db.tempMissions[u].AwaitingName?
    case HandleMissionContent => u in db.tempMissions && db.tempMissions[u].AwaitingContent?
    case HandleReportStart => m.button == Some(ReportKey)
    case HandleReportText => AwaitingReport(db, u)
    case HandleCombatReady => m.button == Some(ReadyKey)
    case HandleRespondTicketText => AwaitingResponse(db, u)
    case HandleFinishMissionCommand => m.command == Some("finish_mission")
    case HandleTicketDialogUser => DialogOpen(db, u) && !m.closeLike
    case HandleTicketDialogAdmin => AssignedInProgress(db, u) && !m.closeLike
    case HandleCloseTicketCommand => m.command == Some("close")
  }

  /** The filters as one function value, for `FirstMatch`. */
  function MessageFilters(db: Db, u: UserId, m: Message): MessageHandler -> bool {
    h => MessageGuard(db, u, m, h)
  }

  /** The handler a text message from `u` goes to: the first registered one whose filter accepts it. */
  function RouteMessage(db: Db, u: UserId, m: Message): (r: Option<MessageHandler>)
    ensures r.Some? ==> MessageGuard(db, u, m, r.value)
  {
    var i := FirstMatch(MessageAt, |MessageOrder|, MessageFilters(db, u, m));
    if i < |MessageOrder| then Some(MessageAt(i)) else None
  }

  /** A message is dropped exactly when no filter accepts it. */
  lemma DroppedIffNoFilter(db: Db, u: UserId, m: Message)
    ensures RouteMessage(db, u, m) == None <==> forall h :: !MessageGuard(db, u, m, h)
  {
    var guard := MessageFilters(db, u, m);
    MessageRanks();
    NoMatch(MessageAt, |MessageOrder|, guard, MessageRank);
    if RouteMessage(db, u, m) == None {
      forall h
        ensures !MessageGuard(db, u, m, h)
      {
        assert !guard(h);
      }
    } else {
      var h := RouteMessage(db, u, m).value;
      assert MessageGuard(db, u, m, h);
    }
  }

  /** The part of the bot a message handler belongs to. */
  datatype Area = RosterArea | MenuArea | TicketArea | MissionArea

  function AreaOf(h: MessageHandler): Area {
    match h
    case HandleStart | HandleMyStatus | HandleHelp | HandleSetCallSign | HandleCallSignInput
      | HandleCombatReady => RosterArea
    case HandleManageUnits | HandleUserIdInput | HandleActiveTickets | HandleStats => MenuArea
    case HandleTicketCommand | HandleReportStart | HandleReportText | HandleRespondTicketText
      | HandleTicketDialogUser | HandleTicketDialogAdmin | HandleCloseTicketCommand => TicketArea
    case HandleCreateMission | HandleMissionName | HandleMissionContent | HandleFinishMissionCommand => MissionArea
  }

  /** The handlers of the roster: registration, status, help, callsigns and readiness. */
  function RunRosterHandler(db: Db, u: UserId, m: Message, username: Option<string>, now: Time, h: MessageHandler): Db
    requires MessageGuard(db, u, m, h) && AreaOf(h) == RosterArea
  {
    var text := m.text;
    match h
    case HandleStart => Start(db, u, username, now)
    case HandleMyStatus => MyStatus(db, u, username, now)
    case HandleHelp => Help(db, u, now)
    case HandleSetCallSign => SetCallSignButton(db, u, now)
    case HandleCallSignInput => CallSignInput(db, u, text)
    case HandleCombatReady => CombatReady(db, u, now)
    case _ => assert false; db
  }

  /** The handlers of the commander menus: units, the ticket list and the summary. */
  function RunMenuHandler(db: Db, u: UserId, m: Message, username: Option<string>, now: Time, h: MessageHandler): Db
    requires MessageGuard(db, u, m, h) && AreaOf(h) == MenuArea
  {
    var text := m.text;
    match h
    case HandleManageUnits => ManageUnits(db, u, now)
    case HandleUserIdInput => MemberIdInput(db, u, text)
    case HandleActiveTickets => ActiveTickets(db, u, now)
    case HandleStats => Stats(db, u, now)
    case _ => assert false; db
  }

  /** The handlers of reports, answers and ticket dialogs. */
  function RunTicketHandler(db: Db, u: UserId, m: Message, username: Option<string>, now: Time, h: MessageHandler): Db
    requires MessageGuard(db, u, m, h) && AreaOf(h) == TicketArea
  {
    var text := m.text;
    match h
    case HandleTicketCommand => TicketCommand(db, u, m.args)
    case HandleReportStart => ReportButton(db, u, now)
    case HandleReportText => ReportTextInput(db, u, text, now)
    case HandleRespondTicketText => ResponseInput(db, u, text, now)
    case HandleTicketDialogUser => MemberRelay(db, u, text, now)
    case HandleTicketDialogAdmin => CommanderRelay(db, u, text, now)
    case HandleCloseTicketCommand => CloseCommand(db, u, now)
    case _ => assert false; db
  }

  /** The handlers of mission drafting and completion. */
  function RunMissionHandler(db: Db, u: UserId, m: Message, username: Option<string>, now: Time, h: MessageHandler): Db
    requires MessageGuard(db, u, m, h) && AreaOf(h) == MissionArea
  {
    var text := m.text;
    match h
    case HandleCreateMission => CreateMissionButton(db, u, now)
    case HandleMissionName => MissionNameInput(db, u, text)
    case HandleMissionContent => MissionContentInput(db, u, text, now)
    case HandleFinishMissionCommand => FinishCommand(db, u, m.args, now)
    case _ => assert false; db
  }

  /** The handler's effect; its filter guarantees what the handler reads without checking. */
  function RunMessageHandler(db: Db, u: UserId, m: Message, username: Option<string>, now: Time, h: MessageHandler): Db
    requires MessageGuard(db, u, m, h)
  {
    match AreaOf(h)
    case RosterArea => RunRosterHandler(db, u, m, username, now, h)
    case MenuArea => RunMenuHandler(db, u, m, username, now, h)
    case TicketArea => RunTicketHandler(db, u, m, username, now, h)
    case MissionArea => RunMissionHandler(db, u, m, username, now, h)
  }

  /** A message as it arrives: routed, then handled; unmatched, nothing happens. */
  function Process(db: Db, u: UserId, m: Message, username: Option<string>, now: Time): (r: Db)
    ensures (forall h :: !MessageGuard(db, u, m, h)) ==> r == db
  {
    match RouteMessage(db, u, m)
    case None => db
    case Some(h) => RunMessageHandler(db, u, m, username, now, h)
  }

  /** A routed message runs the handler it was routed to. */
  lemma ProcessRunsRoute(db: Db, u: UserId, m: Message, username: Option<string>, now: Time, h: MessageHandler)
    requires RouteMessage(db, u, m) == Some(h)
    ensures Process(db, u, m, username, now) == RunMessageHandler(db, u, m, username, now, h)
  {
  }

  lemma RunsRoster(db: Db, u: UserId, m: Message, username: Option<string>, now: Time, h: MessageHandler)
    requires MessageGuard(db, u, m, h) && AreaOf(h) == RosterArea
    ensures RunMessageHandler(db, u, m, username, now, h) == RunRosterHandler(db, u, m, username, now, h)
  {
  }

  lemma RunsMenu(db: Db, u: UserId, m: Message, username: Option<string>, now: Time, h: MessageHandler)
    requires MessageGuard(db, u, m, h) && AreaOf(h) == MenuArea
    ensures RunMessageHandler(db, u, m, username, now, h) == RunMenuHandler(db, u, m, username, now, h)
  {
  }

  lemma RunsMission(db: Db, u: UserId, m: Message, username: Option<string>, now: Time, h: MessageHandler)
    requires MessageGuard(db, u, m, h) && AreaOf(h) == MissionArea
    ensures RunMessageHandler(db, u, m, username, now, h) == RunMissionHandler(db, u, m, username, now, h)
  {
  }

  lemma RunsTicket(db: Db, u: UserId, m: Message, username: Option<string>, now: Time, h: MessageHandler)
    requires MessageGuard(db, u, m, h) && AreaOf(h) == TicketArea
    ensures RunMessageHandler(db, u, m, username, now, h) == RunTicketHandler(db, u, m, username, now, h)
  {
  }

  /** A text message from `u` (with their Telegram username). */
  function OnMessage(db: Db, u: UserId, text: string, username: Option<string>, now: Time): Db {
    Process(db, u, Receive(text), username, now)
  }

  /**
   * First match, stated without positions: a message goes to `h` exactly
   * when `h`'s filter accepts it and no filter registered before `h` does.
   */
  lemma RouteIsFirstMatch(db: Db, u: UserId, m: Message, h: MessageHandler)
    ensures RouteMessage(db, u, m) == Some(h) <==>
      MessageGuard(db, u, m, h) && forall g :: MessageRank(g) < MessageRank(h) ==> !MessageGuard(db, u, m, g)
  {
    MessageRanks();
    FirstMatchIs(MessageAt, |MessageOrder|, MessageFilters(db, u, m), MessageRank, h);
  }

  lemma RoutedToFirst(db: Db, u: UserId, m: Message, h: MessageHandler)
    requires MessageGuard(db, u, m, h)
    requires forall g :: MessageRank(g) < MessageRank(h) ==> !MessageGuard(db, u, m, g)
    ensures RouteMessage(db, u, m) == Some(h)
  {
    RouteIsFirstMatch(db, u, m, h);
  }

  /** A filter registered earlier that accepts the message shadows every later handler. */
  lemma EarlierHandlerWins(db: Db, u: UserId, m: Message, g: MessageHandler, h: MessageHandler)
    requires MessageGuard(db, u, m, g) && MessageRank(g) < MessageRank(h)
    ensures RouteMessage(db, u, m) != Some(h)
  {
    RouteIsFirstMatch(db, u, m, h);
  }

  // ---------------------------------------------------------------------------
  // What the order means for particular messages
  // ---------------------------------------------------------------------------

  /** "My Status", "/help" and "Set Callsign" reach their handlers whatever input is pending. */
  lemma ButtonsBeatPendingInput(db: Db, u: UserId, m: Message)
    requires m.button in {Some(StatusKey), Some(HelpKey), Some(CallSignKey)} && m.command != Some("start")
    ensures m.button == Some(StatusKey) ==> RouteMessage(db, u, m) == Some(HandleMyStatus)
    ensures m.button == Some(HelpKey) ==> RouteMessage(db, u, m) == Some(HandleHelp)
    ensures m.button == Some(CallSignKey) ==> RouteMessage(db, u, m) == Some(HandleSetCallSign)
  {
    if m.button == Some(StatusKey) {
      RoutedToFirst(db, u, m, HandleMyStatus);
    } else if m.button == Some(HelpKey) {
      RoutedToFirst(db, u, m, HandleHelp);
    } else {
      RoutedToFirst(db, u, m, HandleSetCallSign);
    }
  }

  /** No label but `/help` reads as a command; `/help` is the command `help`. */
  lemma LabelCommand(b: Button)
    ensures CommandName(Label(b)) == if b == HelpKey then Some("help") else None
  {
    match b
    case StatusKey => NotACommand("My Status");
    case HelpKey => BareCommand("help");
    case CallSignKey => NotACommand("Set Callsign");
    case UnitsKey => NotACommand("Manage Units");
    case TicketsKey => NotACommand("Active Tickets");
    case SummaryKey => NotACommand("Operation Summary");
    case CreateMissionKey => NotACommand("Create Mission");
    case ReportKey => NotACommand("Report to Command");
    case ReadyKey => NotACommand("Ready for Action!");
  }

  /** What the filters see of a pressed reply-keyboard button. */
  lemma LabelsRead(b: Button)
    ensures Receive(Label(b)).button == Some(b)
    ensures Receive(Label(b)).command == if b == HelpKey then Some("help") else None
  {
    ButtonOfLabel(b);
    LabelCommand(b);
  }

  /** Pressing "My Status", "/help" or "Set Callsign" is answered by its handler in any state. */
  lemma EarlyButtonsAlwaysAnswer(db: Db, u: UserId, b: Button)
    requires b in {StatusKey, HelpKey, CallSignKey}
    ensures RouteMessage(db, u, Receive(Label(b))) ==
      Some(if b == StatusKey then HandleMyStatus else if b == HelpKey then HandleHelp else HandleSetCallSign)
  {
    LabelsRead(b);
    ButtonsBeatPendingInput(db, u, Receive(Label(b)));
  }

  /**
   * While a callsign is awaited, every message except `/start` and the three
   * buttons registered before the callsign filter is taken as the callsign.
   */
  lemma PendingCallSignCaptures(db: Db, u: UserId, m: Message)
    requires AwaitingCallSign(db, u)
    requires m.command != Some("start") && m.button !in {Some(StatusKey), Some(HelpKey), Some(CallSignKey)}
    ensures RouteMessage(db, u, m) == Some(HandleCallSignInput)
  {
    RoutedToFirst(db, u, m, HandleCallSignInput);
  }

  /** A captured message that fits becomes the callsign, stripped. */
  lemma CapturedCallSignStored(db: Db, u: UserId, m: Message, username: Option<string>, now: Time)
    requires AwaitingCallSign(db, u) && |Strip(m.text)| <= MaxCallSignLength
    requires m.command != Some("start") && m.button !in {Some(StatusKey), Some(HelpKey), Some(CallSignKey)}
    ensures Process(db, u, m, username, now).callSigns == db.callSigns[u := Strip(m.text)]
  {
    PendingCallSignCaptures(db, u, m);
    ProcessRunsRoute(db, u, m, username, now, HandleCallSignInput);
    RunsRoster(db, u, m, username, now, HandleCallSignInput);
    assert RunRosterHandler(db, u, m, username, now, HandleCallSignInput) == CallSignInput(db, u, m.text);
    CallSignStored(db, u, m.text);
  }

  /** "Manage Units" has no surrounding blanks and is a callsign short enough. */
  lemma UnitsLabelFits()
    ensures Strip(Label(UnitsKey)) == Label(UnitsKey) && |Label(UnitsKey)| <= MaxCallSignLength
  {
    StripKeepsTrimmed(Label(UnitsKey));
  }

  /** So pressing "Manage Units" while a callsign is awaited sets the callsign "Manage Units". */
  lemma ManageUnitsBecomesCallSign(db: Db, u: UserId, username: Option<string>, now: Time)
    requires AwaitingCallSign(db, u)
    ensures OnMessage(db, u, Label(UnitsKey), username, now).callSigns == db.callSigns[u := Label(UnitsKey)]
  {
    LabelsRead(UnitsKey);
    UnitsLabelFits();
    CapturedCallSignStored(db, u, Receive(Label(UnitsKey)), username, now);
  }

  /** While a report is awaited and no mission is drafted, only the early buttons and commands escape it. */
  lemma PendingReportCaptures(db: Db, u: UserId, m: Message)
    requires AwaitingReport(db, u) && u !in db.tempMissions
    requires m.command !in {Some("start"), Some("ticket")}
    requires m.button in {None, Some(ReadyKey)}
    ensures RouteMessage(db, u, m) == Some(HandleReportText)
  {
    ReportActionIsOwn();
    RoutedToFirst(db, u, m, HandleReportText);
  }

  /** A text differing from a prefix in its first character does not start with it. */
  lemma HeadDiffers(s: string, p: string)
    requires s != [] && p != [] && s[0] != p[0]
    ensures !StartsWith(s, p)
  {
    if |p| <= |s| {
      assert s[..|p|][0] == s[0];
    }
  }

  /** The report dialog's pending action is neither the callsign's nor a member dialog's. */
  lemma ReportActionIsOwn()
    ensures ReportAction != CallSignAction && !MemberAction(ReportAction.action)
  {
    HeadDiffers(ReportAction.action, "add_to_");
    HeadDiffers(ReportAction.action, "remove_from_");
  }

  /** So "Ready for Action!" pressed while a report is awaited is filed as the report's text. */
  lemma ReportCapturesReadyButton(db: Db, u: UserId)
    requires AwaitingReport(db, u) && u !in db.tempMissions
    ensures RouteMessage(db, u, Receive(Label(ReadyKey))) == Some(HandleReportText)
  {
    LabelsRead(ReadyKey);
    PendingReportCaptures(db, u, Receive(Label(ReadyKey)));
  }

  lemma SlashClose()
    ensures "/" + "close" == "/close"
  {
  }

  /** `/close`, read: the command `close`, no button, and it starts, stripped, with `/close`. */
  lemma CloseRead(text: string)
    requires IsCommand(text, "close")
    ensures Receive(text).command == Some("close") && Receive(text).button == None && Receive(text).closeLike
  {
    CommandStartsStripped(text, "close");
    SlashClose();
    var b := ButtonOf(text);
    if b.Some? {
      LabelsRead(b.value);
    }
  }

  /** A message that starts, stripped, with `/close` is never relayed into a ticket dialog. */
  lemma CloseLikeNeverRelayed(db: Db, u: UserId, m: Message)
    requires m.closeLike
    ensures RouteMessage(db, u, m) != Some(HandleTicketDialogUser)
    ensures RouteMessage(db, u, m) != Some(HandleTicketDialogAdmin)
  {
    assert !MessageGuard(db, u, m, HandleTicketDialogUser) && !MessageGuard(db, u, m, HandleTicketDialogAdmin);
  }

  lemma CloseNeverRelayed(db: Db, u: UserId, text: string)
    requires IsCommand(text, "close")
    ensures RouteMessage(db, u, Receive(text)) != Some(HandleTicketDialogUser)
    ensures RouteMessage(db, u, Receive(text)) != Some(HandleTicketDialogAdmin)
  {
    CloseRead(text);
    CloseLikeNeverRelayed(db, u, Receive(text));
  }

  /** With no input pending, the command `close` (not a button) reaches the close handler. */
  lemma CloseCommandRouted(db: Db, u: UserId, m: Message)
    requires m.command == Some("close") && m.button == None && m.closeLike
    requires u !in db.tempActions && u !in db.tempMissions
    ensures RouteMessage(db, u, m) == Some(HandleCloseTicketCommand)
  {
    RoutedToFirst(db, u, m, HandleCloseTicketCommand);
  }

  lemma CloseReachesCommand(db: Db, u: UserId, text: string)
    requires IsCommand(text, "close") && u !in db.tempActions && u !in db.tempMissions
    ensures RouteMessage(db, u, Receive(text)) == Some(HandleCloseTicketCommand)
  {
    CloseRead(text);
    CloseCommandRouted(db, u, Receive(text));
  }

  /** Text that is neither blank-led, nor a command, nor a button label. */
  predicate PlainText(text: string) {
    text != [] && !IsSpace(text[0]) && text[0] != '/' && ButtonOf(text) == None
  }

  lemma PlainTextRead(text: string)
    requires PlainText(text)
    ensures Receive(text).button == None && Receive(text).command == None && !Receive(text).closeLike
  {
    StripKeepsHead(text);
    HeadDiffers(Strip(text), "/close");
    NotACommand(text);
  }

  /** A plain message from a member with a dialog in progress and nothing pending goes to the assignee. */
  lemma MemberMessageRelayed(db: Db, u: UserId, m: Message, username: Option<string>, now: Time)
    requires DialogOpen(db, u) && u !in db.tempActions && u !in db.tempMissions
    requires m.button == None && m.command == None && !m.closeLike
    ensures Process(db, u, m, username, now) == MemberRelay(db, u, m.text, now)
  {
    RoutedToFirst(db, u, m, HandleTicketDialogUser);
    ProcessRunsRoute(db, u, m, username, now, HandleTicketDialogUser);
    RunsTicket(db, u, m, username, now, HandleTicketDialogUser);
  }

  lemma MemberTextRelayed(db: Db, u: UserId, text: string, username: Option<string>, now: Time)
    requires DialogOpen(db, u) && u !in db.tempActions && u !in db.tempMissions && PlainText(text)
    ensures OnMessage(db, u, text, username, now) == MemberRelay(db, u, text, now)
  {
    PlainTextRead(text);
    MemberMessageRelayed(db, u, Receive(text), username, now);
  }

  /** A plain message from a commander in a dialog, with no dialog of their own and nothing pending, goes to the owner. */
  lemma CommanderMessageRelayed(db: Db, u: UserId, m: Message, username: Option<string>, now: Time)
    requires AssignedInProgress(db, u) && !DialogOpen(db, u)
    requires u !in db.tempActions && u !in db.tempMissions
    requires m.button == None && m.command == None && !m.closeLike
    ensures Process(db, u, m, username, now) == CommanderRelay(db, u, m.text, now)
  {
    RoutedToFirst(db, u, m, HandleTicketDialogAdmin);
    ProcessRunsRoute(db, u, m, username, now, HandleTicketDialogAdmin);
    RunsTicket(db, u, m, username, now, HandleTicketDialogAdmin);
  }

  lemma CommanderTextRelayed(db: Db, u: UserId, text: string, username: Option<string>, now: Time)
    requires AssignedInProgress(db, u) && !DialogOpen(db, u)
    requires u !in db.tempActions && u !in db.tempMissions && PlainText(text)
    ensures OnMessage(db, u, text, username, now) == CommanderRelay(db, u, text, now)
  {
    PlainTextRead(text);
    CommanderMessageRelayed(db, u, Receive(text), username, now);
  }

  // ---------------------------------------------------------------------------
  // Button presses
  // ---------------------------------------------------------------------------

  /** The callback-query handlers, named after the bot's functions. */
  datatype PressHandler =
    | HandleUnitManagement | HandleUnitActions | HandleMissionType | HandleApproveMission
    | HandleRejectMission | HandleMissionComplete | HandleTakeTicket | HandleCloseTicket
    | HandleRespondTicket | HandleFinishMission

  /** The callback-query handlers in registration order. */
  const PressOrder: seq<PressHandler> := [
    HandleUnitManagement, HandleUnitActions, HandleMissionType, HandleApproveMission,
    HandleRejectMission, HandleMissionComplete, HandleTakeTicket, HandleCloseTicket,
    HandleRespondTicket, HandleFinishMission]

  function PressRank(h: PressHandler): nat {
    match h
    case HandleUnitManagement => 0
    case HandleUnitActions => 1
    case HandleMissionType => 2
    case HandleApproveMission => 3
    case HandleRejectMission => 4
    case HandleMissionComplete => 5
    case HandleTakeTicket => 6
    case HandleCloseTicket => 7
    case HandleRespondTicket => 8
    case HandleFinishMission => 9
  }

  function PressAt(k: nat): PressHandler {
    if k < |PressOrder| then PressOrder[k] else HandleUnitManagement
  }

  lemma PressRanks()
    ensures |PressOrder| == 10
    ensures Ranked(PressAt, |PressOrder|, PressRank)
  {
    assert forall h :: PressOrder[PressRank(h)] == h;
  }

  /** The word before `:` in the data of each kind of inline button. */
  const MissionTypeData := "mission_type"
  const ApproveData := "approve_mission"
  const RejectData := "reject_mission"
  const CompleteData := "complete_mission"
  const TakeData := "take_ticket"
  const CloseData := "close_ticket"
  const RespondData := "respond_ticket"
  const FinishData := "finish_mission"

  /** None of the words holds a colon, so `split(":")[1]` is what follows the word's colon. */
  lemma DataWordsFree()
    ensures Free(MissionTypeData, ':') && Free(ApproveData, ':') && Free(RejectData, ':')
    ensures Free(CompleteData, ':') && Free(TakeData, ':') && Free(CloseData, ':')
    ensures Free(RespondData, ':') && Free(FinishData, ':')
  {
  }

  /** The filter each callback-query handler is registered with. */
  predicate PressGuard(data: string, h: PressHandler) {
    match h
    case HandleUnitManagement => StartsWith(data, "manage_units:")
    case HandleUnitActions => UnitActionData(data)
    case HandleMissionType => StartsWith(data, MissionTypeData + ":")
    case HandleApproveMission => StartsWith(data, ApproveData + ":")
    case HandleRejectMission => StartsWith(data, RejectData + ":")
    case HandleMissionComplete => StartsWith(data, CompleteData + ":")
    case HandleTakeTicket => StartsWith(data, TakeData + ":")
    case HandleCloseTicket => StartsWith(data, CloseData + ":")
    case HandleRespondTicket => StartsWith(data, RespondData + ":")
    case HandleFinishMission => StartsWith(data, FinishData + ":")
  }

  function PressFilters(data: string): PressHandler -> bool {
    h => PressGuard(data, h)
  }

  /** The handler a button press goes to: the first registered one whose filter accepts its data. */
  function RoutePress(data: string): (r: Option<PressHandler>)
    ensures r.Some? ==> PressGuard(data, r.value)
  {
    var i := FirstMatch(PressAt, |PressOrder|, PressFilters(data));
    if i < |PressOrder| then Some(PressAt(i)) else None
  }

  /** `data.split(":")[1]`: the argument after the word and its colon. */
  function Arg(data: string, word: string): string
    requires Free(word, ':') && StartsWith(data, word + ":")
  {
    SplitPrefix(data, word, ':');
    Split(data, ':')[1]
  }

  /** A button made as `word:arg`, with no colon in either part, hands `arg` back to its handler. */
  lemma ArgRoundTrip(word: string, arg: string)
    requires Free(word, ':') && Free(arg, ':')
    ensures Arg(word + ":" + arg, word) == arg
  {
    var data := word + ":" + arg;
    assert data[|word| + 1..] == arg;
    SplitPrefix(data, word, ':');
    SplitWord(arg, ':');
  }

  /** The part of the bot a callback-query handler belongs to. */
  function PressAreaOf(h: PressHandler): Area {
    match h
    case HandleUnitManagement | HandleUnitActions => MenuArea
    case HandleMissionType | HandleApproveMission | HandleRejectMission | HandleMissionComplete | HandleFinishMission => MissionArea
    case HandleTakeTicket | HandleCloseTicket | HandleRespondTicket => TicketArea
  }

  /** The handlers of the unit menus. */
  function RunUnitPress(db: Db, u: UserId, data: string, now: Time, h: PressHandler): Db
    requires PressGuard(data, h) && PressAreaOf(h) == MenuArea
  {
    match h
    case HandleUnitManagement => UnitMenuPress(db, u, data, now)
    case HandleUnitActions => UnitActionPress(db, u, data, now)
    case _ => assert false; db
  }

  /** The handlers of the mission buttons. */
  function RunMissionPress(db: Db, u: UserId, data: string, now: Time, h: PressHandler): Db
    requires PressGuard(data, h) && PressAreaOf(h) == MissionArea
  {
    match h
    case HandleMissionType => MissionTypePress(db, u, Arg(data, MissionTypeData))
    case HandleApproveMission => ApprovePress(db, u, Arg(data, ApproveData), now)
    case HandleRejectMission => RejectPress(db, u, Arg(data, RejectData), now)
    case HandleMissionComplete => CompletePress(db, u, Arg(data, CompleteData))
    case HandleFinishMission => FinishPress(db, u, Arg(data, FinishData), now)
    case _ => assert false; db
  }

  /** The handlers of the ticket buttons. */
  function RunTicketPress(db: Db, u: UserId, data: string, now: Time, h: PressHandler): Db
    requires PressGuard(data, h) && PressAreaOf(h) == TicketArea
  {
    match h
    case HandleTakeTicket => TakePress(db, u, Arg(data, TakeData), now)
    case HandleCloseTicket => ClosePress(db, u, Arg(data, CloseData), now)
    case HandleRespondTicket => RespondPress(db, u, Arg(data, RespondData))
    case _ => assert false; db
  }

  function RunPressHandler(db: Db, u: UserId, data: string, now: Time, h: PressHandler): Db
    requires PressGuard(data, h)
  {
    match PressAreaOf(h)
    case MenuArea => RunUnitPress(db, u, data, now, h)
    case MissionArea => RunMissionPress(db, u, data, now, h)
    case _ => RunTicketPress(db, u, data, now, h)
  }

  /** A press of an inline button carrying `data`: routed, then handled; unmatched, nothing happens. */
  function OnPress(db: Db, u: UserId, data: string, now: Time): (r: Db)
    ensures (forall h :: !PressGuard(data, h)) ==> r == db
  {
    match RoutePress(data)
    case None => db
    case Some(h) => RunPressHandler(db, u, data, now, h)
  }

  /** The first, third and last of a few characters an accepted press's data must start with. */
  predicate PressMarks(h: PressHandler, a: char, c: char) {
    match h
    case HandleUnitManagement => a == 'm' && c == 'n'
    case HandleUnitActions => (a == 'a' && c == 'd') || (a == 'r' && c == 'm') || (a == 'l' && c == 's')
    case HandleMissionType => a == 'm' && c == 's'
    case HandleApproveMission => a == 'a' && c == 'p'
    case HandleRejectMission => a == 'r' && c == 'j'
    case HandleMissionComplete => a == 'c' && c == 'm'
    case HandleTakeTicket => a == 't' && c == 'k'
    case HandleCloseTicket => a == 'c' && c == 'o'
    case HandleRespondTicket => a == 'r' && c == 's'
    case HandleFinishMission => a == 'f' && c == 'n'
  }

  lemma HeadMarks(data: string, p: string)
    requires StartsWith(data, p) && |p| >= 3
    ensures |data| >= 3 && data[0] == p[0] && data[2] == p[2]
  {
    assert data[..|p|][0] == data[0] && data[..|p|][2] == data[2];
  }

  lemma PressGuardMarks(data: string, h: PressHandler)
    requires PressGuard(data, h)
    ensures |data| >= 3 && PressMarks(h, data[0], data[2])
  {
    match h
    case HandleUnitManagement => HeadMarks(data, "manage_units:");
    case HandleUnitActions =>
      if StartsWith(data, "add_to_") {
        HeadMarks(data, "add_to_");
      } else if StartsWith(data, "remove_from_") {
        HeadMarks(data, "remove_from_");
      } else {
        HeadMarks(data, "list_");
      }
    case HandleMissionType => HeadMarks(data, MissionTypeData + ":");
    case HandleApproveMission => HeadMarks(data, ApproveData + ":");
    case HandleRejectMission => HeadMarks(data, RejectData + ":");
    case HandleMissionComplete => HeadMarks(data, CompleteData + ":");
    case HandleTakeTicket => HeadMarks(data, TakeData + ":");
    case HandleCloseTicket => HeadMarks(data, CloseData + ":");
    case HandleRespondTicket => HeadMarks(data, RespondData + ":");
    case HandleFinishMission => HeadMarks(data, FinishData + ":");
  }

  /** No press data is accepted by two filters, so the registration order of callbacks never matters. */
  lemma PressFiltersExclusive(data: string, g: PressHandler, h: PressHandler)
    requires PressGuard(data, g) && PressGuard(data, h)
    ensures g == h
  {
    PressGuardMarks(data, g);
    PressGuardMarks(data, h);
  }

  /** A press goes to `h` exactly when `h`'s filter accepts its data. */
  lemma PressRoutedIffAccepted(data: string, h: PressHandler)
    ensures RoutePress(data) == Some(h) <==> PressGuard(data, h)
  {
    if PressGuard(data, h) {
      PressRanks();
      forall g | PressGuard(data, g)
        ensures g == h
      {
        PressFiltersExclusive(data, g, h);
      }
      FirstMatchIs(PressAt, |PressOrder|, PressFilters(data), PressRank, h);
    }
  }

  // ---------------------------------------------------------------------------
  // Every update keeps the store well formed
  // ---------------------------------------------------------------------------

  lemma RosterHandlerPreservesWf(db: Db, u: UserId, m: Message, username: Option<string>, now: Time, h: MessageHandler)
    requires Wf(db) && MessageGuard(db, u, m, h) && AreaOf(h) == RosterArea
    ensures Wf(RunRosterHandler(db, u, m, username, now, h))
  {
    var text := m.text;
    AnswersPreserveWf(db);
    AnswersPreserveWf(Touch(db, u, now));
    match h
    case HandleStart => StartPreservesWf(db, u, username, now);
    case HandleMyStatus => MyStatusPreservesWf(db, u, username, now);
    case HandleHelp =>
    case HandleSetCallSign => CallSignButtonPreservesWf(db, u, now);
    case HandleCallSignInput => CallSignInputPreservesWf(db, u, text);
    case HandleCombatReady => CombatReadyPreservesWf(db, u, now);
    case _ => assert false;
  }

  lemma MenuHandlerPreservesWf(db: Db, u: UserId, m: Message, username: Option<string>, now: Time, h: MessageHandler)
    requires Wf(db) && MessageGuard(db, u, m, h) && AreaOf(h) == MenuArea
    ensures Wf(RunMenuHandler(db, u, m, username, now, h))
  {
    var text := m.text;
    AnswersPreserveWf(db);
    AnswersPreserveWf(Touch(db, u, now));
    match h
    case HandleManageUnits =>
    case HandleUserIdInput => MemberIdPreservesWf(db, u, text);
    case HandleActiveTickets =>
    case HandleStats =>
    case _ => assert false;
  }

  lemma TicketHandlerPreservesWf(db: Db, u: UserId, m: Message, username: Option<string>, now: Time, h: MessageHandler)
    requires Wf(db) && MessageGuard(db, u, m, h) && AreaOf(h) == TicketArea
    ensures Wf(RunTicketHandler(db, u, m, username, now, h))
  {
    var text := m.text;
    match h
    case HandleTicketCommand => TicketCommandReadOnly(db, u, m.args);
    case HandleReportStart => ReportButtonPreservesWf(db, u, now);
    case HandleReportText => ReportTextPreservesWf(db, u, text, now);
    case HandleRespondTicketText => ResponseInputPreservesWf(db, u, text, now);
    case HandleTicketDialogUser => MemberRelayPreservesWf(db, u, text, now);
    case HandleTicketDialogAdmin => CommanderRelayPreservesWf(db, u, text, now);
    case HandleCloseTicketCommand => CloseCommandPreservesWf(db, u, now);
    case _ => assert false;
  }

  lemma MissionHandlerPreservesWf(db: Db, u: UserId, m: Message, username: Option<string>, now: Time, h: MessageHandler)
    requires Wf(db) && MessageGuard(db, u, m, h) && AreaOf(h) == MissionArea
    ensures Wf(RunMissionHandler(db, u, m, username, now, h))
  {
    var text := m.text;
    match h
    case HandleCreateMission => DraftingPreservesWf(db, u, text, now);
    case HandleMissionName => NamePreservesWf(db, u, text);
    case HandleMissionContent => ContentPreservesWf(db, u, text, now);
    case HandleFinishMissionCommand => FinishCommandPreservesWf(db, u, m.args, now);
    case _ => assert false;
  }

  lemma MessageHandlerPreservesWf(db: Db, u: UserId, m: Message, username: Option<string>, now: Time, h: MessageHandler)
    requires Wf(db) && MessageGuard(db, u, m, h)
    ensures Wf(RunMessageHandler(db, u, m, username, now, h))
  {
    match AreaOf(h)
    case RosterArea =>
      RunsRoster(db, u, m, username, now, h);
      RosterHandlerPreservesWf(db, u, m, username, now, h);
    case MenuArea =>
      RunsMenu(db, u, m, username, now, h);
      MenuHandlerPreservesWf(db, u, m, username, now, h);
    case TicketArea =>
      RunsTicket(db, u, m, username, now, h);
      TicketHandlerPreservesWf(db, u, m, username, now, h);
    case MissionArea =>
      RunsMission(db, u, m, username, now, h);
      MissionHandlerPreservesWf(db, u, m, username, now, h);
  }

  /** Whatever message arrives, the store stays well formed. */
  lemma ProcessPreservesWf(db: Db, u: UserId, m: Message, username: Option<string>, now: Time)
    requires Wf(db)
    ensures Wf(Process(db, u, m, username, now))
  {
    var r := RouteMessage(db, u, m);
    if r.Some? {
      ProcessRunsRoute(db, u, m, username, now, r.value);
      MessageHandlerPreservesWf(db, u, m, username, now, r.value);
    }
  }

  lemma OnMessagePreservesWf(db: Db, u: UserId, text: string, username: Option<string>, now: Time)
    requires Wf(db)
    ensures Wf(OnMessage(db, u, text, username, now))
  {
    ProcessPreservesWf(db, u, Receive(text), username, now);
  }

  lemma UnitPressPreservesWf(db: Db, u: UserId, data: string, now: Time, h: PressHandler)
    requires Wf(db) && PressGuard(data, h) && PressAreaOf(h) == MenuArea
    ensures Wf(RunUnitPress(db, u, data, now, h))
  {
    match h
    case HandleUnitManagement => UnitMenuPreservesWf(db, u, data, now);
    case HandleUnitActions => UnitActionPreservesWf(db, u, data, now);
    case _ => assert false;
  }

  lemma MissionPressPreservesWf(db: Db, u: UserId, data: string, now: Time, h: PressHandler)
    requires Wf(db) && PressGuard(data, h) && PressAreaOf(h) == MissionArea
    ensures Wf(RunMissionPress(db, u, data, now, h))
  {
    DataWordsFree();
    match h
    case HandleMissionType => DraftingPreservesWf(db, u, Arg(data, MissionTypeData), now);
    case HandleApproveMission => ApprovePreservesWf(db, u, Arg(data, ApproveData), now);
    case HandleRejectMission => RejectPreservesWf(db, u, Arg(data, RejectData), now);
    case HandleMissionComplete => CompletePreservesWf(db, u, Arg(data, CompleteData));
    case HandleFinishMission => FinishPreservesWf(db, u, Arg(data, FinishData), now);
    case _ => assert false;
  }

  lemma TicketPressPreservesWf(db: Db, u: UserId, data: string, now: Time, h: PressHandler)
    requires Wf(db) && PressGuard(data, h) && PressAreaOf(h) == TicketArea
    ensures Wf(RunTicketPress(db, u, data, now, h))
  {
    DataWordsFree();
    match h
    case HandleTakeTicket => TakePreservesWf(db, u, Arg(data, TakeData), now);
    case HandleCloseTicket => ClosePreservesWf(db, u, Arg(data, CloseData), now);
    case HandleRespondTicket => RespondPressPreservesWf(db, u, Arg(data, RespondData));
    case _ => assert false;
  }

  lemma PressHandlerPreservesWf(db: Db, u: UserId, data: string, now: Time, h: PressHandler)
    requires Wf(db) && PressGuard(data, h)
    ensures Wf(RunPressHandler(db, u, data, now, h))
  {
    match PressAreaOf(h)
    case MenuArea => UnitPressPreservesWf(db, u, data, now, h);
    case MissionArea => MissionPressPreservesWf(db, u, data, now, h);
    case _ => TicketPressPreservesWf(db, u, data, now, h);
  }

  /** Whatever button is pressed, the store stays well formed. */
  lemma OnPressPreservesWf(db: Db, u: UserId, data: string, now: Time)
    requires Wf(db)
    ensures Wf(OnPress(db, u, data, now))
  {
    var r := RoutePress(data);
    if r.Some? {
      PressHandlerPreservesWf(db, u, data, now, r.value);
    }
  }
}
