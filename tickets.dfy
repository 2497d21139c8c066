/**
 * The ticket desk: a member files a report, a commander takes it, the two
 * talk through the bot, and the ticket is closed by a button, by `/close`,
 * or by the hourly sweep after 72 hours of silence.
 */
module Tickets {
  import opened Optional
  import opened Text
  import opened Sorting
  import opened Types
  import opened Cascade

  /** The user's indexed ticket, when it exists and is not closed. */
  function ActiveTicket(db: Db, u: UserId): (r: Option<TicketId>)
    ensures r.Some? <==>
      u in db.userActiveTickets && db.userActiveTickets[u] in db.tickets
      && db.tickets[db.userActiveTickets[u]].status != Closed
    ensures r.Some? ==> r.value == db.userActiveTickets[u]
  {
    if u in db.userActiveTickets && db.userActiveTickets[u] in db.tickets
       && db.tickets[db.userActiveTickets[u]].status != Closed
    then Some(db.userActiveTickets[u])
    else None
  }

  /** May `u` see or close the ticket: a commander, its owner or its assignee. */
  predicate MayHandle(db: Db, u: UserId, t: Ticket) {
    IsCommander(db, u) || u == t.owner || t.assignedTo == Some(u)
  }

  // ---------------------------------------------------------------------------
  // Filing a report
  // ---------------------------------------------------------------------------

  /** The pending entry of a report awaiting its text. */
  const ReportAction := PendingAction("create_ticket", "awaiting_text")

  /** The "Report" button: refused while the user's indexed ticket is still open or in progress. */
  function ReportButton(db: Db, u: UserId, now: Time): Db {
    var d := Touch(db, u, now);
    var active := ActiveTicket(db, u);
    if active.Some? then Answer(d, u, ActiveTicketExists(active.value))
    else Answer(d.(tempActions := d.tempActions[u := ReportAction]), u, ReportPrompt)
  }

  /** The ticket a report text opens. */
  function NewTicket(u: UserId, text: string, now: Time): Ticket {
    Ticket(TicketIdFor(u, now), u, text, Open, now, now, None, None, None, [ReportText(text)], [])
  }

  /**
   * The text of a report: an open ticket is filed and indexed for the user,
   * every commander is alerted (and the alert remembered for routing), and
   * the pending entry is dropped.
   */
  function ReportTextInput(db: Db, u: UserId, text: string, now: Time): Db {
    var t := NewTicket(u, text, now);
    var d := db.(tickets := db.tickets[t.id := t],
                 ticketOrder := if t.id in db.tickets then db.ticketOrder else db.ticketOrder + [t.id],
                 userActiveTickets := db.userActiveTickets[u := t.id]);
    Settle(Prompt(d, SortedSeq(db.centurions + db.admins), t.id, NewReport(t.id)), u, ReportRegistered(t.id))
  }

  /** While the indexed ticket is active, the button only answers, and no report text is awaited. */
  lemma ReportRefusedWhileActive(db: Db, u: UserId, now: Time)
    requires ActiveTicket(db, u).Some?
    ensures ReportButton(db, u, now) == Answer(Touch(db, u, now), u, ActiveTicketExists(db.userActiveTickets[u]))
    ensures var r := ReportButton(db, u, now);
      u in db.tempActions <==> u in r.tempActions
  {
  }

  /**
   * A filed report is an open, unassigned ticket holding exactly the report
   * text and no responses, indexed as the user's active ticket; every
   * commander who can be reached is alerted.
   */
  lemma ReportFiles(db: Db, u: UserId, text: string, now: Time)
    ensures var id := TicketIdFor(u, now);
      var r := ReportTextInput(db, u, text, now);
      && id in r.tickets
      && r.tickets[id].owner == u && r.tickets[id].status == Open && r.tickets[id].assignedTo == None
      && r.tickets[id].messages == [ReportText(text)] && r.tickets[id].responses == []
      && u in r.userActiveTickets && r.userActiveTickets[u] == id
      && ActiveTicket(r, u) == Some(id)
      && u !in r.tempActions
      && (forall c :: c in db.centurions + db.admins && c !in db.blocked ==> Sent(c, NewReport(id)) in r.outbox)
  {
    var t := NewTicket(u, text, now);
    var d := db.(tickets := db.tickets[t.id := t],
                 ticketOrder := if t.id in db.tickets then db.ticketOrder else db.ticketOrder + [t.id],
                 userActiveTickets := db.userActiveTickets[u := t.id]);
    var cs := SortedSeq(db.centurions + db.admins);
    PromptFrame(d, cs, t.id, NewReport(t.id));
    forall c | c in db.centurions + db.admins && c !in db.blocked
      ensures Sent(c, NewReport(t.id)) in Prompt(d, cs, t.id, NewReport(t.id)).outbox
    {
      ReachedContains(cs, db.blocked, NewReport(t.id), c);
    }
  }

  /** Filing a ticket under its own id keeps the order listing every ticket once. */
  lemma FileKeepsTicketsWf(tickets: map<TicketId, Ticket>, order: seq<TicketId>, t: Ticket)
    requires TicketsWf(tickets, order)
    ensures TicketsWf(tickets[t.id := t], if t.id in tickets then order else order + [t.id])
  {
    if t.id !in tickets {
      var o := order + [t.id];
      forall i, j | 0 <= i < j < |o|
        ensures o[i] != o[j]
      {
        if j == |o| - 1 {
          assert o[i] in order;
        }
      }
    }
  }

  lemma ReportButtonPreservesWf(db: Db, u: UserId, now: Time)
    requires Wf(db)
    ensures Wf(ReportButton(db, u, now))
  {
    var d0 := Touch(db, u, now);
    AnswersPreserveWf(d0);
    AnswersPreserveWf(d0.(tempActions := d0.tempActions[u := ReportAction]));
  }

  lemma ReportTextPreservesWf(db: Db, u: UserId, text: string, now: Time)
    requires Wf(db)
    ensures Wf(ReportTextInput(db, u, text, now))
  {
    var t := NewTicket(u, text, now);
    var order := if t.id in db.tickets then db.ticketOrder else db.ticketOrder + [t.id];
    FileKeepsTicketsWf(db.tickets, db.ticketOrder, t);
    var d := db.(tickets := db.tickets[t.id := t], ticketOrder := order,
                 userActiveTickets := db.userActiveTickets[u := t.id]);
    assert Wf(d);
    var cs := SortedSeq(db.centurions + db.admins);
    PromptPreservesWf(d, cs, t.id, NewReport(t.id));
    var p := Prompt(d, cs, t.id, NewReport(t.id));
    AnswersPreserveWf(p);
  }

  // ---------------------------------------------------------------------------
  // `/ticket <id>`
  // ---------------------------------------------------------------------------

  /** `/ticket <id>`: the ticket's details for a commander, its owner or its assignee; nothing changes. */
  function TicketCommand(db: Db, u: UserId, args: Option<string>): Db {
    if args.None? || args.value == "" then Answer(db, u, TicketIdMissing)
    else
      var id := Strip(args.value);
      if id !in db.tickets then Answer(db, u, TicketNotFound)
      else if !MayHandle(db, u, db.tickets[id]) then Answer(db, u, Forbidden)
      else Answer(db, u, TicketDetails(id))
  }

  /** `/ticket` never changes the store: only the answer is added. */
  lemma TicketCommandReadOnly(db: Db, u: UserId, args: Option<string>)
    ensures var r := TicketCommand(db, u, args);
      r == db.(outbox := r.outbox)
  {
    // one case per answer, so the verifier need not split the nested conditional itself
    if args.None? || args.value == "" {
    } else if Strip(args.value) !in db.tickets {
    } else if !MayHandle(db, u, db.tickets[Strip(args.value)]) {
    } else {
    }
  }

  /** The details are shown exactly to those allowed to handle the ticket; anyone else is refused. */
  lemma TicketCommandShows(db: Db, u: UserId, arg: string)
    requires arg != "" && Strip(arg) in db.tickets
    ensures var r := TicketCommand(db, u, Some(arg));
      var id := Strip(arg);
      r == Answer(db, u, if MayHandle(db, u, db.tickets[id]) then TicketDetails(id) else Forbidden)
  {
  }

  // ---------------------------------------------------------------------------
  // Taking a ticket
  // ---------------------------------------------------------------------------

  /** How the owner is told who took the ticket: the call sign, or `Командир-<id>`. */
  function CallSignOrDefault(db: Db, u: UserId): string {
    if u in db.callSigns then db.callSigns[u] else "Командир-" + Decimal(u)
  }

  /** A `take_ticket:<id>` press (no role check in the bot). */
  function TakePress(db: Db, u: UserId, id: TicketId, now: Time): Db {
    if id !in db.tickets then Answer(db, u, TicketNotFound)
    else
      var t := db.tickets[id];
      if t.status != Open then Answer(db, u, TicketBusy)
      else
        var taken := t.(status := InProgress, assignedTo := Some(u), assignedAt := Some(now), updatedAt := now);
        var d := db.(tickets := db.tickets[id := taken]);
        Answer(Notify(d, t.owner, TicketTaken(id, CallSignOrDefault(db, u))), u, TakenAck)
  }

  /** A ticket that is not open is not taken again: only the answer "busy". */
  lemma TakeOnlyOpen(db: Db, u: UserId, id: TicketId, now: Time)
    requires id in db.tickets && db.tickets[id].status != Open
    ensures TakePress(db, u, id, now) == Answer(db, u, TicketBusy)
  {
  }

  /**
   * Taking an open ticket makes it in progress and assigned to the taker,
   * with nothing else in the ticket changed but the times, tells the owner
   * who took it, and leaves the routing table alone.
   */
  lemma TakeAssigns(db: Db, u: UserId, id: TicketId, now: Time)
    requires id in db.tickets && db.tickets[id].status == Open && db.tickets[id].owner !in db.blocked
    ensures var t := db.tickets[id];
      var r := TakePress(db, u, id, now);
      && id in r.tickets
      && r.tickets[id] == t.(status := InProgress, assignedTo := Some(u), assignedAt := Some(now), updatedAt := now)
      && Assigned(r.tickets[id]) == (u != 0)
      && r.ticketResponses == db.ticketResponses
      && r.ticketOrder == db.ticketOrder
      && r.outbox == db.outbox + [Sent(t.owner, TicketTaken(id, CallSignOrDefault(db, u))), Answered(u, TakenAck)]
  {
  }

  lemma TakePreservesWf(db: Db, u: UserId, id: TicketId, now: Time)
    requires Wf(db)
    ensures Wf(TakePress(db, u, id, now))
  {
    AnswersPreserveWf(db);
    if id in db.tickets && db.tickets[id].status == Open {
      var t := db.tickets[id];
      var d := db.(tickets := db.tickets[id := t.(status := InProgress, assignedTo := Some(u), assignedAt := Some(now), updatedAt := now)]);
      assert Wf(d);
      SendsPreserveWf(d, t.owner, TicketTaken(id, CallSignOrDefault(db, u)), TakenAck);
      AnswersPreserveWf(Notify(d, t.owner, TicketTaken(id, CallSignOrDefault(db, u))));
    }
  }

  // ---------------------------------------------------------------------------
  // Closing by button
  // ---------------------------------------------------------------------------

  /** The keyboard removals for the remembered prompts of a ticket; failures are only logged. */
  function Removals(routes: map<UserId, Handle>, rs: seq<UserId>, blocked: set<UserId>): (es: seq<Event>)
    requires forall r :: r in rs ==> r in routes
    ensures |es| <= |rs|
    ensures forall e :: e in es ==> e.MarkupRemoved? && e.chat in rs && e.chat !in blocked
    decreases |rs|
  {
    if rs == [] then []
    else
      var r0 := rs[0];
      assert r0 in rs;
      (if r0 in blocked then [] else [MarkupRemoved(r0, routes[r0].messageId)])
      + Removals(routes, rs[1..], blocked)
  }

  /** Every remembered prompt whose recipient can be reached loses its keyboard. */
  lemma {:induction false} RemovalsCover(routes: map<UserId, Handle>, rs: seq<UserId>, blocked: set<UserId>, c: UserId)
    requires forall r :: r in rs ==> r in routes
    requires c in rs && c !in blocked
    ensures MarkupRemoved(c, routes[c].messageId) in Removals(routes, rs, blocked)
    decreases |rs|
  {
    if rs[0] != c {
      RemovalsCover(routes, rs[1..], blocked, c);
    }
  }

  function Unmark(db: Db, id: TicketId): Db {
    var routes := RoutesOf(db, id);
    var rs := SortedSeq(routes.Keys);
    db.(outbox := db.outbox + Removals(routes, rs, db.blocked))
  }

  /**
   * A `close_ticket:<id>` press by a commander, the owner or the assignee.
   * There is no check that the ticket is still open.
   */
  function ClosePress(db: Db, u: UserId, id: TicketId, now: Time): Db {
    if id !in db.tickets then Answer(db, u, TicketNotFound)
    else
      var t := db.tickets[id];
      if !MayHandle(db, u, t) then Answer(db, u, CloseForbidden)
      else
        var closed := t.(status := Closed, closedAt := Some(now), updatedAt := now);
        var d := Unmark(Notify(db.(tickets := db.tickets[id := closed]), t.owner, TicketClosedNotice(id)), id);
        Answer(d.(userActiveTickets := d.userActiveTickets - {t.owner}), u, ClosedAck)
  }

  /** Anybody else only gets the refusal. */
  lemma CloseRefused(db: Db, u: UserId, id: TicketId, now: Time)
    requires id in db.tickets && !MayHandle(db, u, db.tickets[id])
    ensures ClosePress(db, u, id, now) == Answer(db, u, CloseForbidden)
  {
  }

  /**
   * An allowed close marks the ticket closed with its closing time, drops
   * the owner's index entry, tells the owner and strips the keyboard from
   * every remembered prompt of the ticket.
   */
  lemma CloseCloses(db: Db, u: UserId, id: TicketId, now: Time)
    requires id in db.tickets && MayHandle(db, u, db.tickets[id]) && db.tickets[id].owner !in db.blocked
    ensures var t := db.tickets[id];
      var r := ClosePress(db, u, id, now);
      && id in r.tickets
      && r.tickets[id] == t.(status := Closed, closedAt := Some(now), updatedAt := now)
      && t.owner !in r.userActiveTickets
      && ActiveTicket(r, t.owner).None?
      && Sent(t.owner, TicketClosedNotice(id)) in r.outbox
      && (forall c :: c in RoutesOf(db, id) && c !in db.blocked ==>
            MarkupRemoved(c, RoutesOf(db, id)[c].messageId) in r.outbox)
  {
    var t := db.tickets[id];
    var routes := RoutesOf(db, id);
    var es := Removals(routes, SortedSeq(routes.Keys), db.blocked);
    var r := ClosePress(db, u, id, now);
    NotifyTicketFrame(db.(tickets := db.tickets[id := t.(status := Closed, closedAt := Some(now), updatedAt := now)]), t.owner, TicketClosedNotice(id));
    assert r == db.(tickets := db.tickets[id := t.(status := Closed, closedAt := Some(now), updatedAt := now)],
                    userActiveTickets := db.userActiveTickets - {t.owner},
                    outbox := db.outbox + [Sent(t.owner, TicketClosedNotice(id))] + es + [Answered(u, ClosedAck)]);
    forall c | c in routes && c !in db.blocked
      ensures MarkupRemoved(c, routes[c].messageId) in r.outbox
    {
      RemovalsCover(routes, SortedSeq(routes.Keys), db.blocked, c);
      assert MarkupRemoved(c, routes[c].messageId) in es;
    }
  }

  /**
   * The button has no "already closed" branch: pressing it on a closed
   * ticket closes it again, moving its closing time.
   */
  lemma CloseRecloses(db: Db, u: UserId, id: TicketId, now: Time)
    requires id in db.tickets && db.tickets[id].status == Closed && db.tickets[id].closedAt != Some(now)
    requires MayHandle(db, u, db.tickets[id]) && db.tickets[id].owner !in db.blocked
    ensures var r := ClosePress(db, u, id, now);
      id in r.tickets && r.tickets[id].closedAt == Some(now) && r.tickets[id] != db.tickets[id]
  {
    CloseCloses(db, u, id, now);
  }

  lemma ClosePreservesWf(db: Db, u: UserId, id: TicketId, now: Time)
    requires Wf(db)
    ensures Wf(ClosePress(db, u, id, now))
  {
    AnswersPreserveWf(db);
    if id in db.tickets {
      var t := db.tickets[id];
      var d0 := db.(tickets := db.tickets[id := t.(status := Closed, closedAt := Some(now), updatedAt := now)]);
      assert Wf(d0);
      SendsPreserveWf(d0, t.owner, TicketClosedNotice(id), ClosedAck);
      var d := Unmark(Notify(d0, t.owner, TicketClosedNotice(id)), id);
      assert Wf(d.(userActiveTickets := d.userActiveTickets - {t.owner}));
      AnswersPreserveWf(d.(userActiveTickets := d.userActiveTickets - {t.owner}));
    }
  }

  // ---------------------------------------------------------------------------
  // Structured responses
  // ---------------------------------------------------------------------------

  const RespondPrefix := "respond_ticket_"

  /** A `respond_ticket:<id>` press: a commander is asked for the response text. */
  function RespondPress(db: Db, u: UserId, id: TicketId): Db {
    if id !in db.tickets then Answer(db, u, TicketNotFound)
    else if !IsCommander(db, u) then Answer(db, u, Forbidden)
    else Answer(db.(tempActions := db.tempActions[u := PendingAction(RespondPrefix + id, "awaiting_text")]), u, ResponsePrompt(id))
  }

  /** Python's `s.replace(part, "")`: every non-overlapping occurrence removed, left to right. */
  function RemoveAll(s: string, part: string): (r: string)
    requires part != []
    ensures |r| <= |s|
    decreases |s|
  {
    if |s| < |part| then s
    else if s[..|part|] == part then RemoveAll(s[|part|..], part)
    else [s[0]] + RemoveAll(s[1..], part)
  }

  /** Nothing is removed from a text that does not contain the part. */
  lemma {:induction false} RemoveAllAbsent(s: string, part: string)
    requires part != [] && !Contains(s, part)
    ensures RemoveAll(s, part) == s
    decreases |s|
  {
    if |s| >= |part| {
      assert !OccursAt(s, part, 0);
      assert !Contains(s[1..], part) by {
        forall i | 0 <= i <= |s[1..]| - |part|
          ensures !OccursAt(s[1..], part, i)
        {
          assert !OccursAt(s, part, i + 1);
          assert s[i + 1..i + 1 + |part|] == s[1..][i..i + |part|];
        }
      }
      RemoveAllAbsent(s[1..], part);
      assert s == [s[0]] + s[1..];
    }
  }

  /** The ticket id recovered from a `respond_ticket_<id>` action is the id, unless the id itself contains the prefix. */
  lemma ResponseActionRoundTrip(id: TicketId)
    requires !Contains(id, RespondPrefix)
    ensures RemoveAll(RespondPrefix + id, RespondPrefix) == id
  {
    var s := RespondPrefix + id;
    assert s[..|RespondPrefix|] == RespondPrefix;
    assert s[|RespondPrefix|..] == id;
    RemoveAllAbsent(id, RespondPrefix);
  }

  /** Ticket ids never contain the prefix, so the round trip holds for every id the bot makes. */
  lemma TicketIdsRoundTrip(u: UserId, now: Time)
    ensures RemoveAll(RespondPrefix + TicketIdFor(u, now), RespondPrefix) == TicketIdFor(u, now)
  {
    var id := TicketIdFor(u, now);
    assert !Contains(id, RespondPrefix) by {
      forall i | 0 <= i <= |id| - |RespondPrefix|
        ensures !OccursAt(id, RespondPrefix, i)
      {
        TicketIdLetters(u, now, i);
      }
    }
    ResponseActionRoundTrip(id);
  }

  /** A ticket id has no `r` at all, so the prefix, which starts with one, occurs nowhere in it. */
  lemma TicketIdLetters(u: UserId, now: Time, i: nat)
    requires i + |RespondPrefix| <= |TicketIdFor(u, now)|
    ensures !OccursAt(TicketIdFor(u, now), RespondPrefix, i)
  {
    var id := TicketIdFor(u, now);
    assert Free(id, 'r') by {
      DecimalFree(u, 'r');
      DecimalFree(now, 'r');
      assert Free("ticket_", 'r') && Free("_", 'r');
      FreeConcat("ticket_", Decimal(u), 'r');
      FreeConcat("ticket_" + Decimal(u), "_", 'r');
      FreeConcat("ticket_" + Decimal(u) + "_", Decimal(now), 'r');
    }
    assert id[i..i + |RespondPrefix|][0] == id[i];
  }

  /** The text of a response: recorded on the ticket, sent to its owner, and the pending entry dropped. */
  function ResponseInput(db: Db, u: UserId, text: string, now: Time): Db
    requires u in db.tempActions
  {
    var id := RemoveAll(db.tempActions[u].action, RespondPrefix);
    if id !in db.tickets then Settle(db, u, TicketNotFound)
    else
      var t := db.tickets[id];
      var reply := Strip(text);
      var d := db.(tickets := db.tickets[id := t.(responses := t.responses + [Response(u, reply, now)], updatedAt := now)]);
      Settle(Notify(d, t.owner, TicketAnswer(id, reply)), u, ResponseSent)
  }

  /**
   * A response to a ticket the bot made: exactly one response is appended,
   * the owner receives the stripped text, and the commander is no longer
   * awaited.
   */
  lemma RespondThenAnswer(db: Db, u: UserId, owner: UserId, at: Time, text: string, now: Time)
    requires IsCommander(db, u)
    requires TicketIdFor(owner, at) in db.tickets
    requires db.tickets[TicketIdFor(owner, at)].owner !in db.blocked
    ensures var id := TicketIdFor(owner, at);
      var t := db.tickets[id];
      var p := RespondPress(db, u, id);
      var r := ResponseInput(p, u, text, now);
      && p.tempActions[u] == PendingAction(RespondPrefix + id, "awaiting_text")
      && id in r.tickets
      && r.tickets[id] == t.(responses := t.responses + [Response(u, Strip(text), now)], updatedAt := now)
      && Sent(t.owner, TicketAnswer(id, Strip(text))) in r.outbox
      && u !in r.tempActions
  {
    TicketIdsRoundTrip(owner, at);
  }

  lemma RespondPressPreservesWf(db: Db, u: UserId, id: TicketId)
    requires Wf(db)
    ensures Wf(RespondPress(db, u, id))
  {
    AnswersPreserveWf(db);
    AnswersPreserveWf(db.(tempActions := db.tempActions[u := PendingAction(RespondPrefix + id, "awaiting_text")]));
  }

  lemma ResponseInputPreservesWf(db: Db, u: UserId, text: string, now: Time)
    requires Wf(db) && u in db.tempActions
    ensures Wf(ResponseInput(db, u, text, now))
  {
    var tid := RemoveAll(db.tempActions[u].action, RespondPrefix);
    if tid !in db.tickets {
      AnswersPreserveWf(db);
    } else {
      var t := db.tickets[tid];
      var d := db.(tickets := db.tickets[tid := t.(responses := t.responses + [Response(u, Strip(text), now)], updatedAt := now)]);
      assert Wf(d);
      SendsPreserveWf(d, t.owner, TicketAnswer(tid, Strip(text)), ResponseSent);
      AnswersPreserveWf(Notify(d, t.owner, TicketAnswer(tid, Strip(text))));
    }
  }

  // ---------------------------------------------------------------------------
  // The dialog relays
  // ---------------------------------------------------------------------------

  /** The first ticket, in filing order, assigned to `u` and in progress. */
  function FirstAssigned(tickets: map<TicketId, Ticket>, order: seq<TicketId>, u: UserId): (r: Option<TicketId>)
    ensures r.Some? ==>
      && r.value in order && r.value in tickets
      && tickets[r.value].assignedTo == Some(u) && tickets[r.value].status == InProgress
    ensures r.None? ==>
      forall id :: id in order && id in tickets ==> !(tickets[id].assignedTo == Some(u) && tickets[id].status == InProgress)
    decreases |order|
  {
    if order == [] then None
    else if order[0] in tickets && tickets[order[0]].assignedTo == Some(u) && tickets[order[0]].status == InProgress
    then Some(order[0])
    else FirstAssigned(tickets, order[1..], u)
  }

  /** No ticket filed before the one found qualifies. */
  lemma {:induction false} FirstAssignedIsFirst(tickets: map<TicketId, Ticket>, order: seq<TicketId>, u: UserId, i: nat)
    requires FirstAssigned(tickets, order, u).Some?
    requires i < |order| && order[i] == FirstAssigned(tickets, order, u).value
    requires Distinct(order)
    ensures forall j :: 0 <= j < i && order[j] in tickets ==> !(tickets[order[j]].assignedTo == Some(u) && tickets[order[j]].status == InProgress)
    decreases |order|
  {
    if i > 0 {
      assert order[0] != order[i];
      assert Distinct(order[1..]) by {
        forall a, b | 0 <= a < b < |order[1..]|
          ensures order[1..][a] != order[1..][b]
        {
          assert order[1..][a] == order[a + 1] && order[1..][b] == order[b + 1];
        }
      }
      FirstAssignedIsFirst(tickets, order[1..], u, i - 1);
      forall j | 0 < j < i && order[j] in tickets
        ensures !(tickets[order[j]].assignedTo == Some(u) && tickets[order[j]].status == InProgress)
      {
        assert order[j] == order[1..][j - 1];
      }
    }
  }

  /** A member writing while their indexed ticket is in progress: relayed to the assignee. */
  function MemberRelay(db: Db, u: UserId, text: string, now: Time): Db
    requires u in db.userActiveTickets && db.userActiveTickets[u] in db.tickets
  {
    var id := db.userActiveTickets[u];
    var t := db.tickets[id];
    if !Assigned(t) then Answer(db, u, AwaitingModerator)
    else
      var d := db.(tickets := db.tickets[id := t.(messages := t.messages + [FromMember(text, now)], updatedAt := now)]);
      NotifyQuiet(d, t.assignedTo.value, RelayFromMember(id, text))
  }

  /** A commander writing while assigned to an in-progress ticket: relayed to its owner. */
  function CommanderRelay(db: Db, u: UserId, text: string, now: Time): Db {
    var found := FirstAssigned(db.tickets, db.ticketOrder, u);
    if found.None? then db
    else
      var id := found.value;
      var t := db.tickets[id];
      var d := db.(tickets := db.tickets[id := t.(responses := t.responses + [Response(u, text, now)], updatedAt := now)]);
      NotifyQuiet(d, t.owner, RelayFromCommander(t.id, text))
  }

  /**
   * A relayed member message is appended to the ticket and bumps its time;
   * nothing else of the ticket or the store changes, and the member gets no
   * answer.
   */
  lemma MemberRelayAppends(db: Db, u: UserId, text: string, now: Time)
    requires u in db.userActiveTickets && db.userActiveTickets[u] in db.tickets
    requires Assigned(db.tickets[db.userActiveTickets[u]])
    ensures var id := db.userActiveTickets[u];
      var t := db.tickets[id];
      var r := MemberRelay(db, u, text, now);
      && r.tickets == db.tickets[id := t.(messages := t.messages + [FromMember(text, now)], updatedAt := now)]
      && r == db.(tickets := r.tickets, outbox := r.outbox)
      && (forall e :: e in r.outbox[|db.outbox|..] ==> e == Sent(t.assignedTo.value, RelayFromMember(id, text)))
  {
  }

  /** A commander's relay goes to the owner of the first in-progress ticket assigned to them, and is recorded there. */
  lemma CommanderRelayAppends(db: Db, u: UserId, text: string, now: Time)
    requires FirstAssigned(db.tickets, db.ticketOrder, u).Some?
    ensures var id := FirstAssigned(db.tickets, db.ticketOrder, u).value;
      var t := db.tickets[id];
      var r := CommanderRelay(db, u, text, now);
      && r.tickets == db.tickets[id := t.(responses := t.responses + [Response(u, text, now)], updatedAt := now)]
      && r == db.(tickets := r.tickets, outbox := r.outbox)
      && (t.owner !in db.blocked ==> r.outbox == db.outbox + [Sent(t.owner, RelayFromCommander(t.id, text))])
  {
  }

  lemma MemberRelayPreservesWf(db: Db, u: UserId, text: string, now: Time)
    requires Wf(db) && u in db.userActiveTickets && db.userActiveTickets[u] in db.tickets
    ensures Wf(MemberRelay(db, u, text, now))
  {
    var t := db.tickets[db.userActiveTickets[u]];
    if !Assigned(t) {
      AnswersPreserveWf(db);
    }
  }

  lemma CommanderRelayPreservesWf(db: Db, u: UserId, text: string, now: Time)
    requires Wf(db)
    ensures Wf(CommanderRelay(db, u, text, now))
  {
    // one case per branch of the relay, for the verifier
    if FirstAssigned(db.tickets, db.ticketOrder, u).None? {
    } else {
    }
  }

  // ---------------------------------------------------------------------------
  // `/close`
  // ---------------------------------------------------------------------------

  /** The ticket `/close` acts on: the user's indexed ticket if it exists, else the first one assigned to them. */
  function CloseTarget(db: Db, u: UserId): Option<TicketId> {
    if u in db.userActiveTickets && db.userActiveTickets[u] in db.tickets then Some(db.userActiveTickets[u])
    else FirstAssigned(db.tickets, db.ticketOrder, u)
  }

  /** `/close`: closes the dialog for both sides; a user with nothing open is told so. */
  function CloseCommand(db: Db, u: UserId, now: Time): Db {
    var target := CloseTarget(db, u);
    if target.None? || db.tickets[target.value].status == Closed then Answer(db, u, NothingToClose)
    else CloseDialog(db, target.value, now)
  }

  /**
   * `/close` acting on ticket `id`: the ticket is closed, the owner and then
   * the assignee (if any) are told, failures only logged, and the owner's
   * index entry is dropped. The user who wrote gets no answer.
   */
  function CloseDialog(db: Db, id: TicketId, now: Time): Db
    requires id in db.tickets
  {
    var t := db.tickets[id];
    var toOwner := if t.owner in db.blocked then [] else [Sent(t.owner, DialogClosed(id))];
    var toAssignee := if Assigned(t) && t.assignedTo.value !in db.blocked then [Sent(t.assignedTo.value, DialogEnded(id))] else [];
    db.(tickets := db.tickets[id := t.(status := Closed, closedAt := Some(now), updatedAt := now)],
        userActiveTickets := db.userActiveTickets - {t.owner},
        outbox := db.outbox + toOwner + toAssignee)
  }

  /** Refused exactly when there is no target or it is already closed; then only the answer. */
  lemma CloseCommandRefuses(db: Db, u: UserId, now: Time)
    ensures var target := CloseTarget(db, u);
      (target.None? || db.tickets[target.value].status == Closed)
      <==> CloseCommand(db, u, now) == Answer(db, u, NothingToClose)
  {
    var target := CloseTarget(db, u);
    if !(target.None? || db.tickets[target.value].status == Closed) {
      CloseDialogEffect(db, target.value, now);
    }
  }

  /**
   * Acting on a ticket closes it with its closing time, drops the owner's
   * index entry and tells the owner and the assignee, if any, unless they
   * blocked the bot; nothing else changes.
   */
  lemma CloseDialogEffect(db: Db, id: TicketId, now: Time)
    requires id in db.tickets
    ensures var t := db.tickets[id];
      var r := CloseDialog(db, id, now);
      && id in r.tickets && r.tickets[id] == t.(status := Closed, closedAt := Some(now), updatedAt := now)
      && r.tickets.Keys == db.tickets.Keys
      && t.owner !in r.userActiveTickets
      && r == db.(tickets := r.tickets, userActiveTickets := r.userActiveTickets, outbox := r.outbox)
      && (t.owner !in db.blocked ==> Sent(t.owner, DialogClosed(id)) in r.outbox)
      && (Assigned(t) && t.assignedTo.value !in db.blocked ==> Sent(t.assignedTo.value, DialogEnded(id)) in r.outbox)
  {
  }

  lemma CloseCommandPreservesWf(db: Db, u: UserId, now: Time)
    requires Wf(db)
    ensures Wf(CloseCommand(db, u, now))
  {
    var target := CloseTarget(db, u);
    if target.None? || db.tickets[target.value].status == Closed {
      AnswersPreserveWf(db);
    } else {
      CloseDialogPreservesWf(db, target.value, now);
    }
  }

  lemma CloseDialogPreservesWf(db: Db, id: TicketId, now: Time)
    requires Wf(db) && id in db.tickets
    ensures Wf(CloseDialog(db, id, now))
  {
  }

  // ---------------------------------------------------------------------------
  // The hourly sweep
  // ---------------------------------------------------------------------------

  /** Not closed and silent for more than 72 hours. */
  predicate Expired(t: Ticket, now: Time) {
    t.status != Closed && now - t.updatedAt > TicketTimeout * 3600
  }

  /** The ids of the expired tickets, in filing order. */
  function ExpiredIds(tickets: map<TicketId, Ticket>, order: seq<TicketId>, now: Time): (ids: seq<TicketId>)
    ensures forall id :: id in ids <==> id in order && id in tickets && Expired(tickets[id], now)
    decreases |order|
  {
    if order == [] then []
    else
      (if order[0] in tickets && Expired(tickets[order[0]], now) then [order[0]] else [])
      + ExpiredIds(tickets, order[1..], now)
  }

  /** Scanning one more id extends the expired list by that id when it is expired. */
  lemma {:induction false} ExpiredIdsSnoc(tickets: map<TicketId, Ticket>, order: seq<TicketId>, now: Time)
    requires order != []
    ensures var last := order[|order| - 1];
      ExpiredIds(tickets, order, now) ==
        ExpiredIds(tickets, order[..|order| - 1], now) + if last in tickets && Expired(tickets[last], now) then [last] else []
    decreases |order|
  {
    if |order| > 1 {
      ExpiredIdsSnoc(tickets, order[1..], now);
      assert order[1..][..|order| - 2] == order[..|order| - 1][1..];
    }
  }

  /** Marks the ticket closed if it is (still) there; no closing time is recorded. */
  function CloseIfPresent(db: Db, id: TicketId): (r: Db)
    ensures r.tickets.Keys == db.tickets.Keys
    ensures forall k :: k in r.tickets ==> r.tickets[k] == if k == id then db.tickets[k].(status := Closed) else db.tickets[k]
    ensures r == db.(tickets := r.tickets)
  {
    if id in db.tickets then db.(tickets := db.tickets[id := db.tickets[id].(status := Closed)]) else db
  }

  /** Closing a ticket keeps the store well formed. */
  lemma CloseIfPresentPreservesWf(db: Db, id: TicketId)
    requires Wf(db)
    ensures Wf(CloseIfPresent(db, id))
  {
  }

  /** One step of the corrected sweep: tell the owner, then close the ticket if it is still there. */
  function SweepStep(db: Db, id: TicketId): Db {
    if id !in db.tickets then db
    else CloseIfPresent(Notify(db, db.tickets[id].owner, ClosedForInactivity(id)), id)
  }

  function SweepFrom(db: Db, ids: seq<TicketId>): Db
    decreases |ids|
  {
    if ids == [] then db else SweepFrom(SweepStep(db, ids[0]), ids[1..])
  }

  /** One pass of `cleanup_tickets` at time `now`. */
  function Sweep(db: Db, now: Time): Db {
    SweepFrom(db, ExpiredIds(db.tickets, db.ticketOrder, now))
  }

  /**
   * The sweep as written: a ticket that an earlier purge in the same pass
   * deleted is looked up again, and the `KeyError` ends the sweeping task
   * (`None`).
   */
  function SweepAsWritten(db: Db, ids: seq<TicketId>): Option<Db>
    decreases |ids|
  {
    if ids == [] then Some(db)
    else if ids[0] !in db.tickets then None
    else SweepAsWritten(SweepStep(db, ids[0]), ids[1..])
  }

  /** One step: only tickets of purged users disappear, the swept one is closed, the rest are as they were. */
  lemma SweepStepTickets(db: Db, id: TicketId)
    ensures var r := SweepStep(db, id);
      && r.tickets.Keys <= db.tickets.Keys
      && (forall k :: k in r.tickets ==> r.tickets[k] == if k == id then db.tickets[k].(status := Closed) else db.tickets[k])
  {
    if id in db.tickets {
      NotifyTicketFrame(db, db.tickets[id].owner, ClosedForInactivity(id));
    }
  }

  /** One step creates no index entry, keeps the blocked set and only appends to the outbox. */
  lemma SweepStepFrame(db: Db, id: TicketId)
    ensures var r := SweepStep(db, id);
      && (forall k :: k in r.userActiveTickets ==> k in db.userActiveTickets && r.userActiveTickets[k] == db.userActiveTickets[k])
      && r.blocked == db.blocked
      && |db.outbox| <= |r.outbox| && r.outbox[..|db.outbox|] == db.outbox
  {
    if id in db.tickets {
      NotifyTicketFrame(db, db.tickets[id].owner, ClosedForInactivity(id));
    }
  }

  /** A step whose owner can be reached: the notice is sent and the ticket closed, nothing else. */
  lemma SweepStepReached(db: Db, id: TicketId)
    requires id in db.tickets && db.tickets[id].owner !in db.blocked
    ensures SweepStep(db, id) == db.(outbox := db.outbox + [Sent(db.tickets[id].owner, ClosedForInactivity(id))],
                                     tickets := db.tickets[id := db.tickets[id].(status := Closed)])
  {
  }

  /**
   * A run over `ids` closes exactly the listed tickets that survive it and
   * leaves every other surviving ticket as it was; no ticket and no index
   * entry is created.
   */
  lemma {:induction false} SweepFromEffect(db: Db, ids: seq<TicketId>)
    ensures var r := SweepFrom(db, ids);
      && r.tickets.Keys <= db.tickets.Keys
      && (forall k :: k in r.tickets ==> r.tickets[k] == if k in ids then db.tickets[k].(status := Closed) else db.tickets[k])
      && (forall k :: k in r.userActiveTickets ==> k in db.userActiveTickets && r.userActiveTickets[k] == db.userActiveTickets[k])
    decreases |ids|
  {
    if ids != [] {
      var d := SweepStep(db, ids[0]);
      SweepStepTickets(db, ids[0]);
      SweepStepFrame(db, ids[0]);
      SweepFromEffect(d, ids[1..]);
      var r := SweepFrom(d, ids[1..]);
      forall k | k in r.tickets
        ensures r.tickets[k] == if k in ids then db.tickets[k].(status := Closed) else db.tickets[k]
      {
        if k == ids[0] {
          assert k in ids;
        } else if k in ids[1..] {
          assert k in ids;
        } else {
          assert ids == [ids[0]] + ids[1..];
          assert k !in ids;
        }
      }
    }
  }

  /** When no owner of a listed ticket has blocked the bot, every listed ticket survives and its owner is told. */
  lemma {:induction false} SweepFromKeeps(db: Db, ids: seq<TicketId>)
    requires forall k :: k in ids && k in db.tickets ==> db.tickets[k].owner !in db.blocked
    ensures var r := SweepFrom(db, ids);
      && r.tickets.Keys == db.tickets.Keys
      && r.userActiveTickets == db.userActiveTickets
      && r.ticketOrder == db.ticketOrder
      && (forall k :: k in ids && k in db.tickets ==> Sent(db.tickets[k].owner, ClosedForInactivity(k)) in r.outbox)
    decreases |ids|
  {
    if ids != [] {
      var d := SweepStep(db, ids[0]);
      if ids[0] in db.tickets {
        SweepStepReached(db, ids[0]);
      }
      assert d.tickets.Keys == db.tickets.Keys;
      assert forall k :: k in d.tickets ==> d.tickets[k].owner == db.tickets[k].owner;
      SweepFromKeeps(d, ids[1..]);
      var r := SweepFrom(d, ids[1..]);
      SweepFromOutbox(d, ids[1..]);
      forall k | k in ids && k in db.tickets
        ensures Sent(db.tickets[k].owner, ClosedForInactivity(k)) in r.outbox
      {
        if k == ids[0] {
          assert d.outbox[|d.outbox| - 1] == Sent(db.tickets[k].owner, ClosedForInactivity(k));
          assert r.outbox[|d.outbox| - 1] == d.outbox[|d.outbox| - 1];
        } else {
          assert k in ids[1..];
        }
      }
    }
  }

  /** A sweep only appends to the outbox. */
  lemma {:induction false} SweepFromOutbox(db: Db, ids: seq<TicketId>)
    ensures |db.outbox| <= |SweepFrom(db, ids).outbox|
    ensures SweepFrom(db, ids).outbox[..|db.outbox|] == db.outbox
    decreases |ids|
  {
    if ids != [] {
      SweepStepFrame(db, ids[0]);
      SweepFromOutbox(SweepStep(db, ids[0]), ids[1..]);
    }
  }

  /** After a sweep no ticket is expired, so a second sweep at the same time changes nothing. */
  lemma SweepIdempotent(db: Db, now: Time)
    requires Wf(db)
    ensures var r := Sweep(db, now);
      && (forall k :: k in r.tickets ==> !Expired(r.tickets[k], now))
      && Sweep(r, now) == r
  {
    var ids := ExpiredIds(db.tickets, db.ticketOrder, now);
    SweepFromEffect(db, ids);
    var r := Sweep(db, now);
  }

  /**
   * With every affected owner reachable, the sweep closes exactly the
   * non-closed tickets silent for more than 72 hours and nothing else,
   * leaving the index of active tickets alone.
   */
  lemma SweepClosesExactlyExpired(db: Db, now: Time)
    requires Wf(db)
    requires forall k :: k in db.tickets && Expired(db.tickets[k], now) ==> db.tickets[k].owner !in db.blocked
    ensures var r := Sweep(db, now);
      && r.tickets.Keys == db.tickets.Keys
      && (forall k :: k in r.tickets ==>
            r.tickets[k] == if Expired(db.tickets[k], now) then db.tickets[k].(status := Closed) else db.tickets[k])
      && r.userActiveTickets == db.userActiveTickets
  {
    var ids := ExpiredIds(db.tickets, db.ticketOrder, now);
    SweepFromEffect(db, ids);
    SweepFromKeeps(db, ids);
  }

  /**
   * Two expired tickets of one owner who has blocked the bot: the first
   * notice purges the owner with both tickets, and the sweep as written
   * fails on the second; the corrected sweep skips it and forgets the owner.
   */
  lemma SweepAsWrittenFails(db: Db, a: TicketId, b: TicketId)
    requires a != b && a in db.tickets && b in db.tickets
    requires db.tickets[a].owner == db.tickets[b].owner && db.tickets[a].owner in db.blocked
    ensures SweepAsWritten(db, [a, b]).None?
    ensures Forgotten(SweepFrom(db, [a, b]), db.tickets[a].owner)
  {
    var o := db.tickets[a].owner;
    var d := SweepStep(db, a);
    assert d == Deregister(db, o);
    assert b !in d.tickets;
    assert [a, b][1..] == [b];
    DeregisterForgets(db, o);
    assert SweepFrom(d, [b]) == SweepFrom(d, []);
  }

  /** Where no listed ticket has vanished by its turn, the sweep as written agrees with the corrected one. */
  lemma {:induction false} SweepAsWrittenAgrees(db: Db, ids: seq<TicketId>)
    requires forall k :: k in ids && k in db.tickets ==> db.tickets[k].owner !in db.blocked
    requires forall k :: k in ids ==> k in db.tickets
    ensures SweepAsWritten(db, ids) == Some(SweepFrom(db, ids))
    decreases |ids|
  {
    if ids != [] {
      var d := SweepStep(db, ids[0]);
      if ids[0] in db.tickets {
        SweepStepReached(db, ids[0]);
      }
      assert d.tickets.Keys == db.tickets.Keys;
      assert forall k :: k in d.tickets ==> d.tickets[k].owner == db.tickets[k].owner;
      SweepAsWrittenAgrees(d, ids[1..]);
    }
  }

  lemma {:induction false} SweepFromPreservesWf(db: Db, ids: seq<TicketId>)
    requires Wf(db)
    ensures Wf(SweepFrom(db, ids))
    decreases |ids|
  {
    if ids != [] {
      var id := ids[0];
      if id in db.tickets {
        SendsPreserveWf(db, db.tickets[id].owner, ClosedForInactivity(id), NothingToClose);
      }
      SweepFromPreservesWf(SweepStep(db, id), ids[1..]);
    }
  }
}
