/**
 * Roles and units: who is a commander, how members are enrolled into the
 * three units, the unit-management dialog (menu, member list, add and
 * remove through a pending input), the callsign dialog, and the small
 * member-facing handlers (/start, "My Status", /help, "Ready for Action!",
 * "Active Tickets", "Operation Summary").
 */
module Units {
  import opened Optional
  import opened Text
  import opened Sorting
  import opened Types
  import opened Cascade
  import opened Views
  import opened Tickets

  // ---------------------------------------------------------------------------
  // add_commander and the default command structure
  // ---------------------------------------------------------------------------

  /** `add_commander`: `None` (a `ValueError`) for an unknown unit, otherwise enrolled, active and subscribed. */
  function AddCommander(db: Db, u: UserId, unit: string, now: Time): (r: Option<Db>)
    ensures r.None? <==> UnitNamed(unit).None?
    ensures r.Some? ==>
      var t := UnitNamed(unit).value;
      && Members(r.value, t) == Members(db, t) + {u}
      && (forall o :: o != t ==> Members(r.value, o) == Members(db, o))
      && r.value.subscribers == db.subscribers + {u}
      && r.value.activity == db.activity[u := now]
  {
    var t := UnitNamed(unit);
    if t.None? then None
    else Some(WithMembers(db, t.value, Members(db, t.value) + {u}).(activity := db.activity[u := now], subscribers := db.subscribers + {u}))
  }

  /** Adding the same commander twice is adding once. */
  lemma AddCommanderIdempotent(db: Db, u: UserId, unit: string, now: Time)
    requires UnitNamed(unit).Some?
    ensures AddCommander(AddCommander(db, u, unit, now).value, u, unit, now) == AddCommander(db, u, unit, now)
  {
    var t := UnitNamed(unit).value;
    var once := AddCommander(db, u, unit, now).value;
    assert Members(once, t) + {u} == Members(once, t);
    WithOwnMembers(once, t);
    assert once.activity[u := now] == once.activity;
    assert once.subscribers + {u} == once.subscribers;
  }

  lemma WithOwnMembers(db: Db, t: UnitType)
    ensures WithMembers(db, t, Members(db, t)) == db
  {
    match t
    case Centurions =>
    case Decurions =>
    case Privates =>
  }

  /** Whoever is added to the centurions is a commander from then on. */
  lemma AddCenturionCommands(db: Db, u: UserId, now: Time)
    ensures AddCommander(db, u, "centurions", now).Some?
    ensures IsCommander(AddCommander(db, u, "centurions", now).value, u)
  {
  }

  /** `_add_default_commanders`: every id of the allow-list, in turn, added to the centurions. */
  function Commission(db: Db, ids: seq<UserId>, now: Time): Db
    decreases |ids|
  {
    if ids == [] then db
    else Commission(AddCommander(db, ids[0], "centurions", now).value, ids[1..], now)
  }

  /** After the default commanders are added, each is a centurion and a subscriber; nothing else changes. */
  lemma {:induction false} CommissionEffect(db: Db, ids: seq<UserId>, now: Time)
    ensures var r := Commission(db, ids, now);
      && r.centurions == db.centurions + (set x | x in ids)
      && r.subscribers == db.subscribers + (set x | x in ids)
      && r.decurions == db.decurions && r.privates == db.privates
      && r.admins == db.admins && r.outbox == db.outbox && r.tickets == db.tickets
    decreases |ids|
  {
    if ids != [] {
      var d := AddCommander(db, ids[0], "centurions", now).value;
      CommissionEffect(d, ids[1..], now);
      assert (set x | x in ids) == {ids[0]} + (set x | x in ids[1..]);
    }
  }

  // ---------------------------------------------------------------------------
  // /start
  // ---------------------------------------------------------------------------

  /** The answer to /start, given the store after the activity and username updates. */
  function Greeting(db: Db, u: UserId): Reply {
    if IsCommander(db, u) then CommandCenter
    else if u !in db.subscribers then Enlisted
    else if u in db.combatReady then AlreadyActive
    else WelcomeBack
  }

  /** Records the sender's non-empty username under the decimal form of their id. */
  function CacheName(usernames: map<string, Option<string>>, u: UserId, username: Option<string>): map<string, Option<string>> {
    if username.Some? && username.value != "" then usernames[Decimal(u) := username] else usernames
  }

  /** Neither a commander nor a subscriber yet. */
  predicate Newcomer(db: Db, u: UserId) {
    !IsCommander(db, u) && u !in db.subscribers
  }

  /** `/start`: a newcomer who is not a commander is enrolled as a subscriber and a private. */
  function Start(db: Db, u: UserId, username: Option<string>, now: Time): Db {
    var joins := Newcomer(db, u);
    Answer(db.(activity := db.activity[u := now],
               usernames := CacheName(db.usernames, u, username),
               subscribers := if joins then db.subscribers + {u} else db.subscribers,
               privates := if joins then db.privates + {u} else db.privates),
           u, Greeting(db, u))
  }

  /** A newcomer becomes a subscriber and a private and is told so; no other unit changes. */
  lemma StartEnrols(db: Db, u: UserId, username: Option<string>, now: Time)
    requires Newcomer(db, u)
    ensures var r := Start(db, u, username, now);
      && r.privates == db.privates + {u} && r.subscribers == db.subscribers + {u}
      && r.centurions == db.centurions && r.decurions == db.decurions
      && r.outbox == db.outbox + [Answered(u, Enlisted)]
  {
  }

  /** A commander or a known member keeps every unit and the subscription, and is not told they enlisted. */
  lemma StartKeepsMembers(db: Db, u: UserId, username: Option<string>, now: Time)
    requires !Newcomer(db, u)
    ensures var r := Start(db, u, username, now);
      && r.privates == db.privates && r.subscribers == db.subscribers
      && r.centurions == db.centurions && r.decurions == db.decurions
      && r.outbox == db.outbox + [Answered(u, Greeting(db, u))]
      && Greeting(db, u) != Enlisted
  {
  }

  /** A second /start changes no unit and no subscription, and never enrols again. */
  lemma StartIdempotent(db: Db, u: UserId, username: Option<string>, now: Time, later: Time)
    ensures var once := Start(db, u, username, now);
      var twice := Start(once, u, username, later);
      && twice.privates == once.privates && twice.subscribers == once.subscribers
      && twice.outbox[|twice.outbox| - 1] != Answered(u, Enlisted)
  {
    var once := Start(db, u, username, now);
    assert !Newcomer(once, u);
    StartKeepsMembers(once, u, username, later);
  }

  /** After /start with a username, the member list names the user by it. */
  lemma StartNames(db: Db, u: UserId, name: string, now: Time)
    requires name != ""
    ensures var r := Start(db, u, Some(name), now);
      DisplayName(r.usernames, u) == if StartsWith(name, "@") then name else "@" + name
  {
    assert CachedName(CacheName(db.usernames, u, Some(name)), u) == Some(name);
    DisplayNameReads(Start(db, u, Some(name), now).usernames, u);
  }

  // ---------------------------------------------------------------------------
  // "My Status"
  // ---------------------------------------------------------------------------

  /** Active missions the user is listed under. */
  function ActiveFor(archive: map<MissionId, Mission>, u: UserId): set<MissionId> {
    set id | id in archive && archive[id].status == Active && u in archive[id].completedBy
  }

  /**
   * The ticket line of the card: the indexed ticket unless it is closed; an
   * index entry naming a deleted ticket still shows, as "open".
   */
  function TicketLine(db: Db, u: UserId): Option<(TicketId, TicketStatus)> {
    if u !in db.userActiveTickets then None
    else
      var id := db.userActiveTickets[u];
      if id !in db.tickets then Some((id, Open))
      else if db.tickets[id].status == Closed then None
      else Some((id, db.tickets[id].status))
  }

  function StatusOf(db: Db, u: UserId): Reply {
    StatusCard(
      DisplayName(db.usernames, u),
      if u in db.callSigns then db.callSigns[u] else "Not set",
      u in db.combatReady,
      TicketLine(db, u),
      |ActiveFor(db.archive, u)|,
      |CompletedBy(db.archive, u)|)
  }

  /** "My Status": the activity time and the cached username refreshed, then the card. */
  function MyStatus(db: Db, u: UserId, username: Option<string>, now: Time): Db {
    var d := Touch(db, u, now).(usernames := RefreshName(db.usernames, u, username));
    Answer(d, u, StatusOf(d, u))
  }

  /**
   * The card changes nothing but the activity time and the username cache;
   * it names the user by the username they have now (or as before, when they
   * have none), and shows the indexed ticket whenever a new report would be
   * refused.
   */
  lemma MyStatusShows(db: Db, u: UserId, username: Option<string>, now: Time)
    ensures var cache := RefreshName(db.usernames, u, username);
      var card := StatusOf(db.(usernames := cache), u);
      var r := MyStatus(db, u, username, now);
      && r == db.(activity := db.activity[u := now], usernames := cache, outbox := db.outbox + [Answered(u, card)])
      && (username.Some? && username.value != "" ==>
            card.name == if StartsWith(username.value, "@") then username.value else "@" + username.value)
      && (username.None? ==> card.name == DisplayName(db.usernames, u))
      && (ActiveTicket(db, u).Some? ==> card.shownTicket == Some((ActiveTicket(db, u).value, db.tickets[ActiveTicket(db, u).value].status)))
      && (card.shownTicket.None? ==> ActiveTicket(db, u).None?)
  {
    var cache := RefreshName(db.usernames, u, username);
    var e := db.(usernames := cache);
    var d := Touch(e, u, now);
    assert d == Touch(db, u, now).(usernames := cache);
    StatusIgnoresActivity(e, u, d.activity);
    TouchedAnswerFrame(e, u, now, StatusOf(e, u));
    RefreshShows(db.usernames, u, username);
    assert StatusOf(e, u).shownTicket == TicketLine(db, u);
    TicketLineShows(db, u);
  }

  /** "My Status" keeps the store well formed. */
  lemma MyStatusPreservesWf(db: Db, u: UserId, username: Option<string>, now: Time)
    requires Wf(db)
    ensures Wf(MyStatus(db, u, username, now))
  {
    var d := Touch(db, u, now).(usernames := RefreshName(db.usernames, u, username));
    WfFrame(db, d);
    AnswersPreserveWf(d);
  }

  /** The card does not read activity times. */
  lemma StatusIgnoresActivity(db: Db, u: UserId, activity: map<UserId, Time>)
    ensures StatusOf(db.(activity := activity), u) == StatusOf(db, u)
  {
    var d := db.(activity := activity);
    assert d.archive == db.archive;
    assert CompletedBy(d.archive, u) == CompletedBy(db.archive, u);
    assert ActiveFor(d.archive, u) == ActiveFor(db.archive, u);
  }

  /**
   * The ticket line shows the ticket a new report would be refused for, and is
   * empty only when there is none; an index entry naming a deleted ticket shows as open.
   */
  lemma TicketLineShows(db: Db, u: UserId)
    ensures ActiveTicket(db, u).Some? ==> TicketLine(db, u) == Some((ActiveTicket(db, u).value, db.tickets[ActiveTicket(db, u).value].status))
    ensures TicketLine(db, u).None? ==> ActiveTicket(db, u).None?
    ensures u in db.userActiveTickets && db.userActiveTickets[u] !in db.tickets ==>
      TicketLine(db, u) == Some((db.userActiveTickets[u], Open))
  {
  }

  /** No mission counts both as active and as completed for the user. */
  lemma StatusCountsDisjoint(db: Db, u: UserId)
    ensures ActiveFor(db.archive, u) * CompletedBy(db.archive, u) == {}
  {
  }

  // ---------------------------------------------------------------------------
  // /help
  // ---------------------------------------------------------------------------

  function Help(db: Db, u: UserId, now: Time): Db {
    Answer(Touch(db, u, now), u, HelpText(IsCommander(db, u) || u in db.centurions))
  }

  /** The command section is shown exactly to commanders (the extra centurion test adds nobody). */
  lemma HelpForCommanders(db: Db, u: UserId, now: Time)
    ensures Help(db, u, now).outbox == db.outbox + [Answered(u, HelpText(IsCommander(db, u)))]
  {
  }

  // ---------------------------------------------------------------------------
  // Callsign dialog
  // ---------------------------------------------------------------------------

  const CallSignAction := PendingAction("set_call_sign", "awaiting_input")

  /** The guard of the callsign input handler. */
  predicate AwaitingCallSign(db: Db, u: UserId) {
    u in db.tempActions && db.tempActions[u] == CallSignAction
  }

  /** "Set Callsign": the next text of the user is their new callsign. */
  function SetCallSignButton(db: Db, u: UserId, now: Time): Db {
    Answer(Touch(db, u, now).(tempActions := db.tempActions[u := CallSignAction]), u, CallSignPrompt)
  }

  /** The new callsign, stripped: over 20 characters it is refused and the dialog stays open. */
  function CallSignInput(db: Db, u: UserId, text: string): Db
    requires u in db.tempActions
  {
    var name := Strip(text);
    if |name| > MaxCallSignLength then Answer(db, u, CallSignTooLong)
    else
      Settle(db.(callSigns := db.callSigns[u := name]), u, CallSignSet(name))
  }

  /** A callsign that fits is stored stripped. */
  lemma CallSignStored(db: Db, u: UserId, text: string)
    requires u in db.tempActions && |Strip(text)| <= MaxCallSignLength
    ensures CallSignInput(db, u, text).callSigns == db.callSigns[u := Strip(text)]
  {
  }

  /** Every stored callsign fits the limit. */
  ghost predicate CallSignsFit(db: Db) {
    forall v :: v in db.callSigns ==> |db.callSigns[v]| <= MaxCallSignLength
  }

  /** An over-long callsign only answers: the old callsign and the pending dialog are kept for a retry. */
  lemma CallSignRetry(db: Db, u: UserId, text: string)
    requires u in db.tempActions && |Strip(text)| > MaxCallSignLength
    ensures CallSignInput(db, u, text) == Answer(db, u, CallSignTooLong)
  {
  }

  /**
   * The button followed by an acceptable text stores the stripped text as the
   * callsign and closes the dialog; a refused text leaves the dialog awaiting.
   */
  lemma CallSignDialog(db: Db, u: UserId, text: string, now: Time)
    ensures var r := CallSignInput(SetCallSignButton(db, u, now), u, text);
      && (|Strip(text)| <= MaxCallSignLength ==>
            r.callSigns == db.callSigns[u := Strip(text)] && u !in r.tempActions
            && r.tempActions == db.tempActions - {u})
      && (|Strip(text)| > MaxCallSignLength ==> AwaitingCallSign(r, u) && r.callSigns == db.callSigns)
  {
    if |Strip(text)| <= MaxCallSignLength {
    } else {
    }
  }

  /** Callsigns set through the dialog always fit the limit. */
  lemma CallSignInputFits(db: Db, u: UserId, text: string)
    requires u in db.tempActions && CallSignsFit(db)
    ensures CallSignsFit(CallSignInput(db, u, text))
  {
    if |Strip(text)| > MaxCallSignLength {
    } else {
    }
  }

  // ---------------------------------------------------------------------------
  // Unit management
  // ---------------------------------------------------------------------------

  /** "Manage Units": the unit menu, for commanders only. */
  function ManageUnits(db: Db, u: UserId, now: Time): Db {
    if !IsCommander(db, u) then Answer(db, u, Forbidden)
    else Answer(Touch(db, u, now), u, UnitMenu)
  }

  /** A `manage_units:<unit>` press: the unit's action menu, for commanders only. */
  function UnitMenuPress(db: Db, u: UserId, data: string, now: Time): Db
    requires StartsWith(data, "manage_units:")
  {
    SplitPrefix(data, "manage_units", ':');
    var unit := Split(data, ':')[1];
    if !IsCommander(db, u) then Answer(db, u, Forbidden)
    else Answer(Touch(db, u, now), u, UnitActions(unit))
  }

  /** Callback data the unit buttons carry. */
  predicate UnitActionData(data: string) {
    StartsWith(data, "list_") || StartsWith(data, "add_to_") || StartsWith(data, "remove_from_")
  }

  /** `data.split("_")` has at least three parts after `add_to_`/`remove_from_`, two after `list_`. */
  lemma UnitActionFields(data: string)
    requires UnitActionData(data)
    ensures |Split(data, '_')| >= 2
    ensures !StartsWith(data, "list_") ==> |Split(data, '_')| >= 3
  {
    if StartsWith(data, "list_") {
      assert "list" + ['_'] == "list_";
      SplitPrefix(data, "list", '_');
    } else if StartsWith(data, "add_to_") {
      TwoWordFields(data, "add", "to");
    } else {
      TwoWordFields(data, "remove", "from");
    }
  }

  /** A text starting `w1_w2_` splits into at least three parts. */
  lemma TwoWordFields(data: string, w1: string, w2: string)
    requires Free(w1, '_') && Free(w2, '_') && StartsWith(data, w1 + "_" + w2 + "_")
    ensures |Split(data, '_')| >= 3
  {
    assert w1 + "_" + w2 + "_" == (w1 + ['_']) + (w2 + ['_']);
    StartsWithSplit(data, w1 + ['_'], w2 + ['_']);
    SplitPrefix(data, w1, '_');
    SplitPrefix(data[|w1| + 1..], w2, '_');
  }

  /** The members of the unit a name denotes; none for an unknown name (`units.get(name, set())`). */
  function NamedMembers(db: Db, unit: string): set<UserId> {
    var t := UnitNamed(unit);
    if t.Some? then Members(db, t.value) else {}
  }

  /**
   * A unit button: `list_<unit>[_page_<n>]` shows a page of the sorted member
   * list; `add_to_<unit>` and `remove_from_<unit>` ask for a user id and
   * remember the action. Commanders only.
   */
  function UnitActionPress(db: Db, u: UserId, data: string, now: Time): Db
    requires UnitActionData(data)
  {
    if !IsCommander(db, u) then Answer(db, u, Forbidden)
    else
      var d := Touch(db, u, now);
      if StartsWith(data, "list_") then Answer(d, u, ListReply(db, data))
      else
        Answer(d.(tempActions := d.tempActions[u := PendingAction(data, "awaiting_input")]), u, MemberIdPrompt(data))
  }

  /** The answer to `list_<unit>[_page_<n>]`: that page of the unit's sorted members, or "no members". */
  function ListReply(db: Db, data: string): Reply
    requires StartsWith(data, "list_")
  {
    UnitActionFields(data);
    var parts := Split(data, '_');
    var unit := parts[1];
    var page := ListPage(NamedMembers(db, unit), RequestedPage(parts));
    if page.None? then NoMembers(unit) else MemberPage(unit, page.value)
  }

  /** The data of the list button for page `n` of a unit, as the pagination buttons build it. */
  function ListData(t: UnitType, n: int): string {
    "list" + "_" + (UnitName(t) + "_" + ("page" + "_" + Decimal(n)))
  }

  /** A page button's data is a `list_` press. */
  lemma ListDataStarts(t: UnitType, n: int)
    ensures StartsWith(ListData(t, n), "list_") && UnitActionData(ListData(t, n))
  {
    var head := "list" + "_";
    assert head == "list_";
    StartsWithConcat(head, UnitName(t) + "_" + ("page" + "_" + Decimal(n)));
  }

  /** A page button's data names its unit and its page. */
  lemma ListDataRoundTrip(t: UnitType, n: int)
    ensures StartsWith(ListData(t, n), "list_") && UnitActionData(ListData(t, n))
    ensures var parts := Split(ListData(t, n), '_');
      |parts| >= 2 && parts[1] == UnitName(t) && RequestedPage(parts) == n
  {
    ListDataStarts(t, n);
    ListDataSplits(t, n);
    DecimalRoundTrip(n);
    PageWordRead("list", UnitName(t), Decimal(n), n);
  }

  lemma ListDataSplits(t: UnitType, n: int)
    ensures Split(ListData(t, n), '_') == ["list", UnitName(t), "page", Decimal(n)]
  {
    UnitNameWord(t);
    assert Free(Decimal(n), '_') && Free("list", '_') && Free("page", '_');
    SplitFourWords("list", UnitName(t), "page", Decimal(n), '_');
  }

  /** A commander's `list_` press answers with the list reply and changes nothing else the sender sees. */
  lemma ListPressAnswers(db: Db, u: UserId, data: string, now: Time)
    requires IsCommander(db, u) && StartsWith(data, "list_")
    ensures UnitActionData(data)
    ensures UnitActionPress(db, u, data, now).outbox == db.outbox + [Answered(u, ListReply(db, data))]
  {
    assert Touch(db, u, now).outbox == db.outbox;
  }

  /** The list button for page `n` of a unit shows that page of the unit's members. */
  lemma ListReplyShowsPage(db: Db, t: UnitType, n: int)
    requires ListPage(Members(db, t), n).Some?
    ensures StartsWith(ListData(t, n), "list_")
    ensures ListReply(db, ListData(t, n)) == MemberPage(UnitName(t), ListPage(Members(db, t), n).value)
  {
    ListDataRoundTrip(t, n);
    assert NamedMembers(db, UnitName(t)) == Members(db, t);
  }

  /** Every member of a unit is listed on one of the pages the list buttons reach. */
  lemma MemberOnSomePage(db: Db, u: UserId, t: UnitType, x: UserId, now: Time)
    requires IsCommander(db, u) && x in Members(db, t)
    ensures exists n, p ::
      && 0 <= n < PageCount(|Members(db, t)|)
      && UnitActionPress(db, u, ListData(t, n), now).outbox == db.outbox + [Answered(u, MemberPage(UnitName(t), p))]
      && x in p.members
  {
    MemberListed(Members(db, t), x);
    var n :| 0 <= n < PageCount(|Members(db, t)|) && x in ListPage(Members(db, t), n).value.members;
    ListReplyShowsPage(db, t, n);
    ListPressAnswers(db, u, ListData(t, n), now);
  }

  /** The guard of the user-id input handler: a pending `add_to_`/`remove_from_` action. */
  predicate AwaitingMemberId(db: Db, u: UserId) {
    u in db.tempActions && MemberAction(db.tempActions[u].action)
  }

  predicate MemberAction(action: string) {
    StartsWith(action, "add_to_") || StartsWith(action, "remove_from_")
  }

  /** `action.split("_")[2]`: the unit an add or remove action names. */
  function ActionUnit(action: string): string
    requires MemberAction(action)
  {
    UnitActionFields(action);
    Split(action, '_')[2]
  }


  /**
   * The user id typed after an add or remove button. A text that is not an
   * integer is refused with the action kept for a retry; an unknown unit
   * raises `KeyError` and nothing happens; otherwise the unit changes.
   */
  function MemberIdInput(db: Db, u: UserId, text: string): Db
    requires AwaitingMemberId(db, u)
  {
    var action := db.tempActions[u].action;
    var id := ParseInt(Strip(text));
    var t := UnitNamed(ActionUnit(action));
    if id.None? then Answer(db, u, BadIdFormat)
    else if t.None? then db
    else ChangeMember(db, u, action, id.value, t.value)
  }

  /** Adds or removes (as the action says) the member; removing a non-member is refused with the action kept. */
  function ChangeMember(db: Db, u: UserId, action: string, x: UserId, t: UnitType): Db {
    if Contains(action, "add") then Settle(WithMembers(db, t, Members(db, t) + {x}), u, MemberAdded(x, t))
    else if x !in Members(db, t) then Answer(db, u, NotInUnit)
    else Settle(WithMembers(db, t, Members(db, t) - {x}), u, MemberRemoved(x, t))
  }

  /** The pending action the add button of a unit leaves: it names the unit and adds. */
  function AddAction(t: UnitType): (a: PendingAction)
    ensures MemberAction(a.action) && ActionUnit(a.action) == UnitName(t) && Contains(a.action, "add")
  {
    var name := UnitName(t);
    var action := "add_to_" + name;
    assert MemberAction(action) by {
      StartsWithConcat("add_to_", name);
    }
    assert ActionUnit(action) == name by {
      UnitNameWord(t);
      assert "add" + "_" + "to" + "_" == "add_to_";
      ThirdField("add", "to", name);
    }
    assert Contains(action, "add") by {
      assert "add_to_" == "add" + "_to_";
      assert OccursAt(action, "add", 0) by {
        StartsWithConcat("add", "_to_" + name);
        assert action == "add" + ("_to_" + name);
      }
    }
    PendingAction(action, "awaiting_input")
  }

  /** The pending action the remove button of a unit leaves: it names the unit and does not add. */
  function RemoveAction(t: UnitType): (a: PendingAction)
    ensures MemberAction(a.action) && ActionUnit(a.action) == UnitName(t) && !Contains(a.action, "add")
  {
    var name := UnitName(t);
    var action := "remove_from_" + name;
    assert MemberAction(action) by {
      StartsWithConcat("remove_from_", name);
    }
    assert ActionUnit(action) == name by {
      UnitNameWord(t);
      assert "remove" + "_" + "from" + "_" == "remove_from_";
      ThirdField("remove", "from", name);
    }
    RemoveDoesNotAdd(t);
    PendingAction(action, "awaiting_input")
  }

  /** `(w1 + "_" + w2 + "_" + name).split("_")[2]` is the name, for three words without `_`. */
  lemma ThirdField(w1: string, w2: string, name: string)
    requires Free(w1, '_') && Free(w2, '_') && Free(name, '_')
    ensures var s := w1 + "_" + w2 + "_" + name;
      |Split(s, '_')| >= 3 && Split(s, '_')[2] == name
  {
    SplitWord(name, '_');
    SplitAfterWord(w2, '_', name);
    assert w1 + "_" + w2 + "_" + name == w1 + ['_'] + (w2 + ['_'] + name);
    SplitAfterWord(w1, '_', w2 + ['_'] + name);
  }

  /** `"add" in "remove_from_<unit>"` is false for every unit. */
  lemma RemoveDoesNotAdd(t: UnitType)
    ensures !Contains("remove_from_" + UnitName(t), "add")
  {
    var remove := "remove_from_" + UnitName(t);
    if t == Decurions {
      FreeConcat("remove_from_", UnitName(t), 'a');
      MissingLetter(remove, "add", 0);
    } else {
      FreeConcat("remove_from_", UnitName(t), 'd');
      MissingLetter(remove, "add", 1);
    }
  }

  /** A text that is not an integer only answers: the pending action stays for a retry. */
  lemma MemberIdRetry(db: Db, u: UserId, text: string)
    requires AwaitingMemberId(db, u) && ParseInt(Strip(text)).None?
    ensures MemberIdInput(db, u, text) == Answer(db, u, BadIdFormat)
  {
  }

  /** A parsed id for an action naming a known unit goes to the add-or-remove step. */
  lemma MemberIdInputChanges(db: Db, u: UserId, text: string, x: UserId, t: UnitType)
    requires AwaitingMemberId(db, u) && ParseInt(Strip(text)) == Some(x)
    requires ActionUnit(db.tempActions[u].action) == UnitName(t)
    ensures MemberIdInput(db, u, text) == ChangeMember(db, u, db.tempActions[u].action, x, t)
  {
    NamedUnit(t);
  }

  /** Settling after a unit change: the unit holds `s`, the others are untouched, the action is dropped. */
  lemma SettledChange(db: Db, u: UserId, t: UnitType, s: set<UserId>, reply: Reply)
    ensures var r := Settle(WithMembers(db, t, s), u, reply);
      && Members(r, t) == s
      && (forall o :: o != t ==> Members(r, o) == Members(db, o))
      && r.tempActions == db.tempActions - {u}
      && r.outbox == db.outbox + [Answered(u, reply)]
  {
    var w := WithMembers(db, t, s);
    assert w.tempActions == db.tempActions && w.outbox == db.outbox by {
      match t
      case Centurions =>
      case Decurions =>
      case Privates =>
    }
    SettleKeepsUnits(w, u, reply);
  }

  lemma SettleKeepsUnits(db: Db, u: UserId, reply: Reply)
    ensures forall o :: Members(Settle(db, u, reply), o) == Members(db, o)
  {
    var r := Settle(db, u, reply);
    assert r.centurions == db.centurions && r.decurions == db.decurions && r.privates == db.privates;
  }

  /** Adding: the id joins the unit, the other units are untouched, the action is dropped. */
  lemma MemberAdd(db: Db, u: UserId, t: UnitType, text: string, x: UserId)
    requires u in db.tempActions && db.tempActions[u] == AddAction(t) && ParseInt(Strip(text)) == Some(x)
    ensures var r := MemberIdInput(db, u, text);
      && Members(r, t) == Members(db, t) + {x}
      && (forall o :: o != t ==> Members(r, o) == Members(db, o))
      && r.tempActions == db.tempActions - {u}
      && r.outbox == db.outbox + [Answered(u, MemberAdded(x, t))]
  {
    var a := AddAction(t);
    MemberIdInputChanges(db, u, text, x, t);
    assert ChangeMember(db, u, a.action, x, t) == Settle(WithMembers(db, t, Members(db, t) + {x}), u, MemberAdded(x, t));
    SettledChange(db, u, t, Members(db, t) + {x}, MemberAdded(x, t));
  }

  /** Removing a member: the id leaves the unit, the other units are untouched, the action is dropped. */
  lemma MemberRemove(db: Db, u: UserId, t: UnitType, text: string, x: UserId)
    requires u in db.tempActions && db.tempActions[u] == RemoveAction(t) && ParseInt(Strip(text)) == Some(x)
    requires x in Members(db, t)
    ensures var r := MemberIdInput(db, u, text);
      && Members(r, t) == Members(db, t) - {x}
      && (forall o :: o != t ==> Members(r, o) == Members(db, o))
      && r.tempActions == db.tempActions - {u}
      && r.outbox == db.outbox + [Answered(u, MemberRemoved(x, t))]
  {
    var a := RemoveAction(t);
    MemberIdInputChanges(db, u, text, x, t);
    assert ChangeMember(db, u, a.action, x, t) == Settle(WithMembers(db, t, Members(db, t) - {x}), u, MemberRemoved(x, t));
    SettledChange(db, u, t, Members(db, t) - {x}, MemberRemoved(x, t));
  }

  /** Removing a non-member only answers: the pending action stays for a retry. */
  lemma MemberRemoveRefused(db: Db, u: UserId, t: UnitType, text: string, x: UserId)
    requires u in db.tempActions && db.tempActions[u] == RemoveAction(t) && ParseInt(Strip(text)) == Some(x)
    requires x !in Members(db, t)
    ensures MemberIdInput(db, u, text) == Answer(db, u, NotInUnit)
  {
    var a := RemoveAction(t);
    MemberIdInputChanges(db, u, text, x, t);
  }

  /** Adding a newcomer and then removing them again leaves the unit as it was. */
  lemma AddThenRemove(db: Db, u: UserId, t: UnitType, text: string, x: UserId)
    requires u in db.tempActions && db.tempActions[u] == AddAction(t) && ParseInt(Strip(text)) == Some(x)
    requires x !in Members(db, t)
    ensures var added := MemberIdInput(db, u, text);
      var asked := added.(tempActions := added.tempActions[u := RemoveAction(t)]);
      Members(MemberIdInput(asked, u, text), t) == Members(db, t)
  {
    var added := MemberIdInput(db, u, text);
    var asked := added.(tempActions := added.tempActions[u := RemoveAction(t)]);
    assert Members(asked, t) == Members(db, t) + {x} by {
      MemberAdd(db, u, t, text, x);
      assert Members(asked, t) == Members(added, t);
    }
    assert Members(MemberIdInput(asked, u, text), t) == Members(db, t) + {x} - {x} by {
      MemberRemove(asked, u, t, text, x);
    }
    AddRemoveFresh(Members(db, t), x);
  }

  lemma AddRemoveFresh(s: set<UserId>, x: UserId)
    requires x !in s
    ensures s + {x} - {x} == s
  {
  }

  // ---------------------------------------------------------------------------
  // "Active Tickets", "Operation Summary"
  // ---------------------------------------------------------------------------

  function NotClosed(tickets: map<TicketId, Ticket>): map<TicketId, Ticket> {
    map id | id in tickets && tickets[id].status != Closed :: tickets[id]
  }

  /** "Active Tickets": the tickets that are not closed, in filing order. Commanders only. */
  function ActiveTickets(db: Db, u: UserId, now: Time): Db {
    if !IsCommander(db, u) then Answer(db, u, Forbidden)
    else
      var ids := KeepOrder(db.ticketOrder, NotClosed(db.tickets));
      Answer(Touch(db, u, now), u, if ids == [] then NoActiveTickets else TicketList(ids))
  }

  /** The list names every open and in-progress ticket once, and no closed one; it is empty only when all are closed. */
  lemma ActiveTicketsListed(db: Db, u: UserId, now: Time)
    requires Wf(db) && IsCommander(db, u)
    ensures var r := ActiveTickets(db, u, now);
      exists ids ::
        && Distinct(ids)
        && (forall id :: id in ids <==> id in db.tickets && db.tickets[id].status != Closed)
        && r.outbox == db.outbox + [Answered(u, if ids == [] then NoActiveTickets else TicketList(ids))]
  {
    var ids := KeepOrder(db.ticketOrder, NotClosed(db.tickets));
    assert forall id :: id in ids <==> id in db.tickets && db.tickets[id].status != Closed;
  }

  /** "Operation Summary" (its counts are not modelled). Commanders only. */
  function Stats(db: Db, u: UserId, now: Time): Db {
    if !IsCommander(db, u) then Answer(db, u, Forbidden)
    else Answer(Touch(db, u, now), u, Summary)
  }

  /** The commander-only handlers refuse everybody else without touching the store, not even the activity time. */
  lemma CommanderOnly(db: Db, u: UserId, data: string, now: Time)
    requires !IsCommander(db, u)
    ensures ManageUnits(db, u, now) == Answer(db, u, Forbidden)
    ensures StartsWith(data, "manage_units:") ==> UnitMenuPress(db, u, data, now) == Answer(db, u, Forbidden)
    ensures UnitActionData(data) ==> UnitActionPress(db, u, data, now) == Answer(db, u, Forbidden)
    ensures ActiveTickets(db, u, now) == Answer(db, u, Forbidden)
    ensures Stats(db, u, now) == Answer(db, u, Forbidden)
  {
  }

  // ---------------------------------------------------------------------------
  // "Ready for Action!"
  // ---------------------------------------------------------------------------

  /** Marks the sender combat ready and confirms by a direct message (refused: the sender is purged). */
  function CombatReady(db: Db, u: UserId, now: Time): Db {
    var d := Touch(db, u, now);
    if u in d.combatReady then Answer(d, u, AlreadyOnDuty)
    else Answer(Notify(d.(combatReady := d.combatReady + {u}), u, ReadyConfirmed), u, ReadyAck)
  }

  /** Pressing again only answers. */
  lemma CombatReadyAgain(db: Db, u: UserId, now: Time)
    requires u in db.combatReady
    ensures CombatReady(db, u, now) == Answer(Touch(db, u, now), u, AlreadyOnDuty)
  {
  }

  /** A reachable member becomes combat ready and gets the confirmation before the answer. */
  lemma CombatReadyJoins(db: Db, u: UserId, now: Time)
    requires u !in db.combatReady && u !in db.blocked
    ensures CombatReady(db, u, now) == db.(activity := db.activity[u := now], combatReady := db.combatReady + {u},
                                           outbox := db.outbox + [Sent(u, ReadyConfirmed), Answered(u, ReadyAck)])
  {
  }

  /** A member who has blocked the bot is purged instead. */
  lemma CombatReadyPurges(db: Db, u: UserId, now: Time)
    requires u !in db.combatReady && u in db.blocked
    ensures Forgotten(CombatReady(db, u, now), u)
  {
    var d := Touch(db, u, now).(combatReady := db.combatReady + {u});
    DeregisterForgets(d, u);
  }

  /** Pressing twice is pressing once, apart from the second answer. */
  lemma CombatReadyTwice(db: Db, u: UserId, now: Time, later: Time)
    requires u !in db.blocked
    ensures var once := CombatReady(db, u, now);
      var twice := CombatReady(once, u, later);
      twice.combatReady == once.combatReady && twice.outbox == once.outbox + [Answered(u, AlreadyOnDuty)]
  {
    if u in db.combatReady {
      CombatReadyAgain(db, u, now);
      CombatReadyAgain(CombatReady(db, u, now), u, later);
    } else {
      CombatReadyJoins(db, u, now);
      CombatReadyAgain(CombatReady(db, u, now), u, later);
    }
  }

  // ---------------------------------------------------------------------------
  // The store invariant
  // ---------------------------------------------------------------------------

  lemma StartPreservesWf(db: Db, u: UserId, username: Option<string>, now: Time)
    requires Wf(db)
    ensures Wf(Start(db, u, username, now))
  {
  }

  lemma UnitMenuPreservesWf(db: Db, u: UserId, data: string, now: Time)
    requires Wf(db) && StartsWith(data, "manage_units:")
    ensures Wf(UnitMenuPress(db, u, data, now))
  {
    if IsCommander(db, u) {
      AnswersPreserveWf(Touch(db, u, now));
    } else {
      AnswersPreserveWf(db);
    }
  }

  lemma CallSignButtonPreservesWf(db: Db, u: UserId, now: Time)
    requires Wf(db)
    ensures Wf(SetCallSignButton(db, u, now))
  {
  }

  lemma CallSignInputPreservesWf(db: Db, u: UserId, text: string)
    requires Wf(db) && u in db.tempActions
    ensures Wf(CallSignInput(db, u, text))
  {
    if |Strip(text)| > MaxCallSignLength {
    } else {
    }
  }

  /** A unit button changes at most the presser's activity time and pending action. */
  lemma UnitActionFrame(db: Db, u: UserId, data: string, now: Time)
    requires UnitActionData(data)
    ensures var r := UnitActionPress(db, u, data, now);
      r == db.(activity := r.activity, tempActions := r.tempActions, outbox := r.outbox)
  {
    if !IsCommander(db, u) {
    } else if StartsWith(data, "list_") {
      TouchedAnswerFrame(db, u, now, ListReply(db, data));
    } else {
      var d := Touch(db, u, now);
      TouchedAnswerFrame(db, u, now, MemberIdPrompt(data));
      var r := Answer(d.(tempActions := d.tempActions[u := PendingAction(data, "awaiting_input")]), u, MemberIdPrompt(data));
      assert r == Answer(d, u, MemberIdPrompt(data)).(tempActions := r.tempActions);
    }
  }

  /** Touching and answering changes only the activity time and the outbox, whatever the reply. */
  lemma TouchedAnswerFrame(db: Db, u: UserId, now: Time, reply: Reply)
    ensures var r := Answer(Touch(db, u, now), u, reply);
      r == db.(activity := r.activity, outbox := r.outbox)
  {
  }

  lemma UnitActionPreservesWf(db: Db, u: UserId, data: string, now: Time)
    requires Wf(db) && UnitActionData(data)
    ensures Wf(UnitActionPress(db, u, data, now))
  {
    UnitActionFrame(db, u, data, now);
  }

  /** A typed user id changes at most the units and the pending action. */
  lemma MemberIdPreservesWf(db: Db, u: UserId, text: string)
    requires Wf(db) && AwaitingMemberId(db, u)
    ensures Wf(MemberIdInput(db, u, text))
  {
    AnswersPreserveWf(db);
    var action := db.tempActions[u].action;
    var id := ParseInt(Strip(text));
    var t := UnitNamed(ActionUnit(action));
    if id.Some? && t.Some? {
      ChangeMemberPreservesWf(db, u, action, id.value, t.value);
    }
  }

  lemma ChangeMemberPreservesWf(db: Db, u: UserId, action: string, x: UserId, t: UnitType)
    requires Wf(db)
    ensures Wf(ChangeMember(db, u, action, x, t))
  {
    AnswersPreserveWf(db);
    var added := WithMembers(db, t, Members(db, t) + {x});
    var removed := WithMembers(db, t, Members(db, t) - {x});
    WithMembersPreservesWf(db, t, Members(db, t) + {x});
    WithMembersPreservesWf(db, t, Members(db, t) - {x});
    AnswersPreserveWf(added);
    AnswersPreserveWf(removed);
  }

  lemma CombatReadyPreservesWf(db: Db, u: UserId, now: Time)
    requires Wf(db)
    ensures Wf(CombatReady(db, u, now))
  {
    var d := Touch(db, u, now).(combatReady := db.combatReady + {u});
    if u in db.combatReady {
    } else {
      SendsPreserveWf(d, u, ReadyConfirmed, ReadyAck);
    }
  }
}
