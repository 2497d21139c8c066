/**
 * Sending, and what a refused send does. A send to a user who has blocked the
 * bot raises `TelegramForbiddenError`; most call sites answer that by purging
 * the user from every structure (`remove_user_from_database`), the others
 * only log it. Replies to the sender of a message are always delivered.
 */
module Cascade {
  import opened Optional
  import opened Text
  import opened Types

  /** A ticket that names the user as its owner or its assignee. */
  predicate Involves(t: Ticket, u: UserId) {
    t.owner == u || t.assignedTo == Some(u)
  }

  function DropFromRouting(routing: map<string, map<UserId, Handle>>, u: UserId): (r: map<string, map<UserId, Handle>>)
    ensures forall k :: k in r <==> k in routing && routing[k] - {u} != map[]
    ensures forall k :: k in r ==> r[k] == routing[k] - {u}
  {
    map k | k in routing && routing[k] - {u} != map[] :: routing[k] - {u}
  }

  function DropTickets(tickets: map<TicketId, Ticket>, u: UserId): (r: map<TicketId, Ticket>)
    ensures forall id :: id in r <==> id in tickets && !Involves(tickets[id], u)
    ensures forall id :: id in r ==> r[id] == tickets[id]
  {
    map id | id in tickets && !Involves(tickets[id], u) :: tickets[id]
  }

  /** `order` without the ids `keep` lacks, in the same order. */
  function KeepOrder(order: seq<TicketId>, keep: map<TicketId, Ticket>): (r: seq<TicketId>)
    ensures forall id :: id in r <==> id in order && id in keep
    ensures Distinct(order) ==> Distinct(r)
    decreases |order|
  {
    if order == [] then []
    else (if order[0] in keep then [order[0]] else []) + KeepOrder(order[1..], keep)
  }

  function DropCompletion(archive: map<MissionId, Mission>, u: UserId): (r: map<MissionId, Mission>)
    ensures r.Keys == archive.Keys
    ensures forall id :: id in r ==> r[id] == archive[id].(completedBy := archive[id].completedBy - {u})
  {
    map id | id in archive :: archive[id].(completedBy := archive[id].completedBy - {u})
  }

  /** `remove_user_from_database(u)`. */
  function Deregister(db: Db, u: UserId): Db {
    var tickets := DropTickets(db.tickets, u);
    db.(
      centurions := db.centurions - {u},
      decurions := db.decurions - {u},
      privates := db.privates - {u},
      combatReady := db.combatReady - {u},
      subscribers := db.subscribers - {u},
      callSigns := db.callSigns - {u},
      activity := db.activity - {u},
      tempActions := db.tempActions - {u},
      tempMissions := db.tempMissions - {u},
      userActiveTickets := db.userActiveTickets - {u},
      usernames := db.usernames - {Decimal(u)},
      ticketResponses := DropFromRouting(db.ticketResponses, u),
      tickets := tickets,
      ticketOrder := KeepOrder(db.ticketOrder, tickets),
      archive := DropCompletion(db.archive, u))
  }

  /** No trace of `u` is left anywhere in the store. */
  ghost predicate Forgotten(db: Db, u: UserId) {
    && u !in db.centurions && u !in db.decurions && u !in db.privates
    && u !in db.combatReady && u !in db.subscribers
    && u !in db.callSigns && u !in db.activity && u !in db.tempActions
    && u !in db.tempMissions && u !in db.userActiveTickets
    && Decimal(u) !in db.usernames
    && (forall k :: k in db.ticketResponses ==> u !in db.ticketResponses[k])
    && (forall id :: id in db.tickets ==> !Involves(db.tickets[id], u))
    && (forall id :: id in db.archive ==> u !in db.archive[id].completedBy)
  }

  /** After the purge the user is in no unit, set, map, routing table, ticket or completion list. */
  lemma DeregisterForgets(db: Db, u: UserId)
    ensures Forgotten(Deregister(db, u), u)
    ensures forall k :: k in Deregister(db, u).ticketResponses ==> Deregister(db, u).ticketResponses[k] != map[]
  {
  }

  /** The purge touches nobody else: other users keep their memberships and their entries. */
  lemma DeregisterSpares(db: Db, u: UserId, v: UserId)
    requires v != u
    ensures var r := Deregister(db, u);
      && (v in r.centurions <==> v in db.centurions)
      && (v in r.decurions <==> v in db.decurions)
      && (v in r.privates <==> v in db.privates)
      && (v in r.combatReady <==> v in db.combatReady)
      && (v in r.subscribers <==> v in db.subscribers)
      && (v in db.callSigns ==> v in r.callSigns && r.callSigns[v] == db.callSigns[v])
      && (v in db.activity ==> v in r.activity && r.activity[v] == db.activity[v])
      && (v in db.tempActions ==> v in r.tempActions && r.tempActions[v] == db.tempActions[v])
      && (v in db.tempMissions ==> v in r.tempMissions && r.tempMissions[v] == db.tempMissions[v])
      && (v in db.userActiveTickets ==> v in r.userActiveTickets && r.userActiveTickets[v] == db.userActiveTickets[v])
      && (Decimal(v) in db.usernames ==> Decimal(v) in r.usernames && r.usernames[Decimal(v)] == db.usernames[Decimal(v)])
      && r.admins == db.admins && r.blocked == db.blocked && r.recent == db.recent
      && r.approvals == db.approvals && r.outbox == db.outbox
  {
    DecimalInjective(u, v);
  }

  /** Nor anybody else's routing entries, tickets or completions. */
  lemma DeregisterSparesRecords(db: Db, u: UserId, v: UserId)
    requires v != u
    ensures var r := Deregister(db, u);
      && (forall k :: k in db.ticketResponses && v in db.ticketResponses[k] ==>
            k in r.ticketResponses && v in r.ticketResponses[k] && r.ticketResponses[k][v] == db.ticketResponses[k][v])
      && (forall id :: id in db.tickets && !Involves(db.tickets[id], u) ==> id in r.tickets && r.tickets[id] == db.tickets[id])
      && (forall id :: id in db.archive ==> id in r.archive && (v in r.archive[id].completedBy <==> v in db.archive[id].completedBy))
  {
    var r := Deregister(db, u);
    forall k | k in db.ticketResponses && v in db.ticketResponses[k]
      ensures k in r.ticketResponses && v in r.ticketResponses[k]
    {
      assert v in db.ticketResponses[k] - {u};
    }
  }

  /** Purging twice is purging once. */
  lemma DeregisterIdempotent(db: Db, u: UserId)
    ensures Deregister(Deregister(db, u), u) == Deregister(db, u)
  {
    var r := Deregister(db, u);
    DeregisterForgets(db, u);
    assert forall id :: id in r.ticketOrder ==> id in r.tickets;
    DeregisterNoop(r, u);
  }

  /** Purging a user already gone, from a store with no empty routing entry and no stale ticket id, changes nothing. */
  lemma DeregisterNoop(db: Db, u: UserId)
    requires Forgotten(db, u)
    requires forall k :: k in db.ticketResponses ==> db.ticketResponses[k] != map[]
    requires forall id :: id in db.ticketOrder ==> id in db.tickets
    ensures Deregister(db, u) == db
  {
    EntriesNoop(db, u);
    RoutingNoop(db.ticketResponses, u);
    TicketsNoop(db.tickets, u);
    KeepOrderAll(db.ticketOrder, db.tickets);
    CompletionNoop(db.archive, u);
  }

  lemma EntriesNoop(db: Db, u: UserId)
    requires Forgotten(db, u)
    ensures db.centurions - {u} == db.centurions && db.decurions - {u} == db.decurions
    ensures db.privates - {u} == db.privates && db.combatReady - {u} == db.combatReady
    ensures db.subscribers - {u} == db.subscribers && db.callSigns - {u} == db.callSigns
    ensures db.activity - {u} == db.activity && db.tempActions - {u} == db.tempActions
    ensures db.tempMissions - {u} == db.tempMissions && db.userActiveTickets - {u} == db.userActiveTickets
    ensures db.usernames - {Decimal(u)} == db.usernames
  {
  }

  lemma RoutingNoop(routing: map<string, map<UserId, Handle>>, u: UserId)
    requires forall k :: k in routing ==> u !in routing[k] && routing[k] != map[]
    ensures DropFromRouting(routing, u) == routing
  {
    forall k | k in routing
      ensures routing[k] - {u} == routing[k]
    {
    }
  }

  lemma TicketsNoop(tickets: map<TicketId, Ticket>, u: UserId)
    requires forall id :: id in tickets ==> !Involves(tickets[id], u)
    ensures DropTickets(tickets, u) == tickets
  {
  }

  lemma CompletionNoop(archive: map<MissionId, Mission>, u: UserId)
    requires forall id :: id in archive ==> u !in archive[id].completedBy
    ensures DropCompletion(archive, u) == archive
  {
    forall id | id in archive
      ensures archive[id].(completedBy := archive[id].completedBy - {u}) == archive[id]
    {
      assert archive[id].completedBy - {u} == archive[id].completedBy;
    }
  }

  lemma {:induction false} KeepOrderAll(order: seq<TicketId>, keep: map<TicketId, Ticket>)
    requires forall id :: id in order ==> id in keep
    ensures KeepOrder(order, keep) == order
    decreases |order|
  {
    if order != [] {
      KeepOrderAll(order[1..], keep);
      assert [order[0]] + order[1..] == order;
    }
  }

  lemma DeregisterPreservesWf(db: Db, u: UserId)
    requires Wf(db)
    ensures Wf(Deregister(db, u))
  {
  }

  /** Being forgotten survives purging someone else. */
  lemma ForgottenStable(db: Db, u: UserId, v: UserId)
    requires Forgotten(db, u)
    ensures Forgotten(Deregister(db, v), u)
  {
  }

  // ---------------------------------------------------------------------------
  // Sends
  // ---------------------------------------------------------------------------

  /** A send whose `TelegramForbiddenError` is answered with the purge. */
  function Notify(db: Db, to: UserId, note: Note): Db {
    if to in db.blocked then Deregister(db, to) else db.(outbox := db.outbox + [Sent(to, note)])
  }

  /** A send whose failures are only logged. */
  function NotifyQuiet(db: Db, to: UserId, note: Note): Db {
    db.(outbox := db.outbox + (if to in db.blocked then [] else [Sent(to, note)]))
  }

  /** `message.answer` / `callback.answer` to the user who wrote or pressed. */
  function Answer(db: Db, to: UserId, reply: Reply): Db {
    db.(outbox := db.outbox + [Answered(to, reply)])
  }

  /** The end of a dialog: the answer, and the user's pending action dropped. */
  function Settle(db: Db, u: UserId, reply: Reply): Db {
    db.(tempActions := db.tempActions - {u}, outbox := db.outbox + [Answered(u, reply)])
  }

  /** The same note sent to each recipient in turn, purging those who blocked the bot. */
  function Deliver(db: Db, rs: seq<UserId>, note: Note): Db
    decreases |rs|
  {
    if rs == [] then db else Notify(Deliver(db, rs[..|rs| - 1], note), rs[|rs| - 1], note)
  }

  /** The sends of `Deliver` that go through: one per recipient who has not blocked the bot. */
  function Reached(rs: seq<UserId>, blocked: set<UserId>, note: Note): seq<Event>
    decreases |rs|
  {
    if rs == [] then []
    else Reached(rs[..|rs| - 1], blocked, note) + (if rs[|rs| - 1] in blocked then [] else [Sent(rs[|rs| - 1], note)])
  }

  function Refusers(rs: seq<UserId>, blocked: set<UserId>): set<UserId> {
    set r | r in rs && r in blocked
  }

  /**
   * What a fan-out does to the store: the reachable recipients get the note
   * in order, and the configuration and mission queue are untouched.
   */
  lemma {:induction false} DeliverEffect(db: Db, rs: seq<UserId>, note: Note)
    ensures var r := Deliver(db, rs, note);
      && r.outbox == db.outbox + Reached(rs, db.blocked, note)
      && r.admins == db.admins && r.blocked == db.blocked && r.recent == db.recent
      && r.approvals == db.approvals
    decreases |rs|
  {
    if rs != [] {
      var init := rs[..|rs| - 1];
      var last := rs[|rs| - 1];
      DeliverEffect(db, init, note);
    }
  }

  /** The refusers of a list are those of all but its last recipient, and the last one if it refuses. */
  lemma RefusersSnoc(rs: seq<UserId>, blocked: set<UserId>)
    requires rs != []
    ensures var last := rs[|rs| - 1];
      Refusers(rs, blocked) == Refusers(rs[..|rs| - 1], blocked) + (if last in blocked then {last} else {})
  {
    assert rs == rs[..|rs| - 1] + [rs[|rs| - 1]];
  }

  /** One send: a refusing recipient leaves every unit and every completion list; a send never changes who refuses. */
  lemma NotifyStep(db: Db, to: UserId, note: Note)
    ensures var r := Notify(db, to, note);
      var gone := if to in db.blocked then {to} else {};
      && r.blocked == db.blocked
      && r.outbox == db.outbox + (if to in db.blocked then [] else [Sent(to, note)])
      && (forall t :: Members(r, t) == Members(db, t) - gone)
      && r.archive.Keys == db.archive.Keys
      && (forall id :: id in db.archive ==> r.archive[id] == db.archive[id].(completedBy := db.archive[id].completedBy - gone))
  {
    if to in db.blocked {
      var r := Deregister(db, to);
      assert r.archive == DropCompletion(db.archive, to);
      assert forall t :: Members(r, t) == Members(db, t) - {to};
    } else {
      assert forall id :: id in db.archive ==> db.archive[id].completedBy - {} == db.archive[id].completedBy;
    }
  }

  /** Those who blocked the bot are dropped from every unit; nobody else is. */
  lemma {:induction false} DeliverPurges(db: Db, rs: seq<UserId>, note: Note)
    ensures var r := Deliver(db, rs, note);
      forall t :: Members(r, t) == Members(db, t) - Refusers(rs, db.blocked)
    decreases |rs|
  {
    if rs != [] {
      var init := rs[..|rs| - 1];
      DeliverPurges(db, init, note);
      DeliverEffect(db, init, note);
      NotifyStep(Deliver(db, init, note), rs[|rs| - 1], note);
      RefusersSnoc(rs, db.blocked);
    }
  }

  /** Those who blocked the bot are forgotten everywhere. */
  lemma {:induction false} DeliverForgets(db: Db, rs: seq<UserId>, note: Note)
    ensures var r := Deliver(db, rs, note);
      forall u :: u in Refusers(rs, db.blocked) ==> Forgotten(r, u)
    decreases |rs|
  {
    if rs != [] {
      var init := rs[..|rs| - 1];
      var last := rs[|rs| - 1];
      DeliverForgets(db, init, note);
      DeliverEffect(db, init, note);
      RefusersSnoc(rs, db.blocked);
      var d := Deliver(db, init, note);
      forall u | u in Refusers(rs, db.blocked)
        ensures Forgotten(Notify(d, last, note), u)
      {
        if u == last {
          DeregisterForgets(d, last);
        } else {
          NotifyKeepsForgotten(d, last, note, u);
        }
      }
    }
  }

  lemma NotifyKeepsForgotten(db: Db, to: UserId, note: Note, u: UserId)
    requires Forgotten(db, u)
    ensures Forgotten(Notify(db, to, note), u)
  {
    if to in db.blocked {
      ForgottenStable(db, u, to);
    }
  }

  /** Every mission is still there, with only members dropped from its completion list. */
  ghost predicate MissionsKept(a: Db, b: Db) {
    && b.archive.Keys == a.archive.Keys
    && (forall id :: id in a.archive ==>
          && b.archive[id].(completedBy := a.archive[id].completedBy) == a.archive[id]
          && b.archive[id].completedBy <= a.archive[id].completedBy)
  }

  lemma MissionsKeptTrans(a: Db, b: Db, c: Db)
    requires MissionsKept(a, b) && MissionsKept(b, c)
    ensures MissionsKept(a, c)
  {
    forall id | id in a.archive
      ensures c.archive[id].(completedBy := a.archive[id].completedBy) == a.archive[id]
    {
      assert c.archive[id].(completedBy := b.archive[id].completedBy) == b.archive[id];
    }
  }

  lemma DeregisterKeepsMissions(db: Db, u: UserId)
    ensures MissionsKept(db, Deregister(db, u))
  {
  }

  lemma {:induction false} DeliverKeepsMissions(db: Db, rs: seq<UserId>, note: Note)
    ensures MissionsKept(db, Deliver(db, rs, note))
    decreases |rs|
  {
    if rs != [] {
      var d := Deliver(db, rs[..|rs| - 1], note);
      DeliverKeepsMissions(db, rs[..|rs| - 1], note);
      NotifyKeepsMissions(d, rs[|rs| - 1], note);
      MissionsKeptTrans(db, d, Deliver(db, rs, note));
    }
  }

  lemma NotifyKeepsMissions(db: Db, to: UserId, note: Note)
    ensures MissionsKept(db, Notify(db, to, note))
  {
    NotifyStep(db, to, note);
  }

  lemma {:induction false} DeliverKeepsForgotten(db: Db, rs: seq<UserId>, note: Note, u: UserId)
    requires Forgotten(db, u)
    ensures Forgotten(Deliver(db, rs, note), u)
    decreases |rs|
  {
    if rs != [] {
      DeliverKeepsForgotten(db, rs[..|rs| - 1], note, u);
      NotifyKeepsForgotten(Deliver(db, rs[..|rs| - 1], note), rs[|rs| - 1], note, u);
    }
  }

  lemma {:induction false} ReachedContains(rs: seq<UserId>, blocked: set<UserId>, note: Note, x: UserId)
    requires x in rs && x !in blocked
    ensures Sent(x, note) in Reached(rs, blocked, note)
    decreases |rs|
  {
    if rs[|rs| - 1] != x {
      assert rs == rs[..|rs| - 1] + [rs[|rs| - 1]];
      ReachedContains(rs[..|rs| - 1], blocked, note, x);
    }
  }

  lemma {:induction false} DeliverPreservesWf(db: Db, rs: seq<UserId>, note: Note)
    requires Wf(db)
    ensures Wf(Deliver(db, rs, note))
    decreases |rs|
  {
    if rs != [] {
      DeliverPreservesWf(db, rs[..|rs| - 1], note);
    }
  }

  /** A send never creates or alters a ticket or an index entry; a refused one only drops them. */
  lemma NotifyTicketFrame(db: Db, to: UserId, note: Note)
    ensures var r := Notify(db, to, note);
      && r.tickets.Keys <= db.tickets.Keys
      && (forall k :: k in r.tickets ==> r.tickets[k] == db.tickets[k])
      && (forall k :: k in db.tickets && !Involves(db.tickets[k], to) ==> k in r.tickets)
      && r.userActiveTickets.Keys <= db.userActiveTickets.Keys
      && (forall k :: k in r.userActiveTickets ==> r.userActiveTickets[k] == db.userActiveTickets[k])
      && r.blocked == db.blocked
      && |db.outbox| <= |r.outbox| && r.outbox[..|db.outbox|] == db.outbox
      && (to !in db.blocked ==> r == db.(outbox := db.outbox + [Sent(to, note)]))
  {
    // the refused send and the delivered one, as separate cases for the verifier
    if to in db.blocked {
    } else {
    }
  }

  lemma SendsPreserveWf(db: Db, to: UserId, note: Note, reply: Reply)
    requires Wf(db)
    ensures Wf(Notify(db, to, note)) && Wf(NotifyQuiet(db, to, note)) && Wf(Answer(db, to, reply))
  {
    if to in db.blocked {
      DeregisterPreservesWf(db, to);
    }
  }

  lemma AnswersPreserveWf(db: Db)
    requires Wf(db)
    ensures forall to, reply :: Wf(Answer(db, to, reply)) && Wf(Settle(db, to, reply))
  {
    forall to, reply
      ensures Wf(Answer(db, to, reply)) && Wf(Settle(db, to, reply))
    {
      WfFrame(db, Answer(db, to, reply));
      WfFrame(db, Settle(db, to, reply));
    }
  }

  /** Delivering to `x` first and then to the rest is delivering to the whole list. */
  lemma {:induction false} DeliverCons(db: Db, x: UserId, rest: seq<UserId>, note: Note)
    ensures Deliver(db, [x] + rest, note) == Deliver(Notify(db, x, note), rest, note)
    decreases |rest|
  {
    if rest == [] {
      assert ([x] + rest)[..0] == [];
    } else {
      var s := [x] + rest;
      assert s[..|s| - 1] == [x] + rest[..|rest| - 1];
      DeliverCons(db, x, rest[..|rest| - 1], note);
    }
  }

  // ---------------------------------------------------------------------------
  // Prompts that are remembered in the routing table
  // ---------------------------------------------------------------------------

  function RoutesOf(db: Db, key: string): map<UserId, Handle> {
    if key in db.ticketResponses then db.ticketResponses[key] else map[]
  }

  /**
   * Approval requests and new-report alerts: each recipient is sent the note
   * (failures only logged) and, on success, `ticket_responses[key][r]`
   * records where the message went.
   */
  function Prompt(db: Db, rs: seq<UserId>, key: string, note: Note): Db
    decreases |rs|
  {
    if rs == [] then db
    else
      var d := Prompt(db, rs[..|rs| - 1], key, note);
      var r := rs[|rs| - 1];
      if r in d.blocked then d
      else d.(outbox := d.outbox + [Sent(r, note)],
              ticketResponses := d.ticketResponses[key := RoutesOf(d, key)[r := Handle(r, |d.outbox|)]])
  }

  /** Prompting changes only the outbox and the routing table; the outbox gains the reachable sends. */
  lemma {:induction false} PromptFrame(db: Db, rs: seq<UserId>, key: string, note: Note)
    ensures var r := Prompt(db, rs, key, note);
      && r == db.(outbox := r.outbox, ticketResponses := r.ticketResponses)
      && r.outbox == db.outbox + Reached(rs, db.blocked, note)
    decreases |rs|
  {
    if rs != [] {
      PromptFrame(db, rs[..|rs| - 1], key, note);
      var d := Prompt(db, rs[..|rs| - 1], key, note);
      var last := rs[|rs| - 1];
      assert Reached(rs, db.blocked, note) == Reached(rs[..|rs| - 1], db.blocked, note) + (if last in db.blocked then [] else [Sent(last, note)]);
    }
  }

  /** Routing entries under keys other than `key` are untouched. */
  lemma {:induction false} PromptKeepsOtherKeys(db: Db, rs: seq<UserId>, key: string, note: Note)
    ensures var r := Prompt(db, rs, key, note);
      && (forall k :: k != key ==> (k in r.ticketResponses <==> k in db.ticketResponses))
      && (forall k :: k != key && k in db.ticketResponses ==> r.ticketResponses[k] == db.ticketResponses[k])
    decreases |rs|
  {
    if rs != [] {
      PromptKeepsOtherKeys(db, rs[..|rs| - 1], key, note);
    }
  }

  /**
   * After prompting, every reachable recipient has a routing entry under `key`
   * that points at the very message it was sent, and nobody else gained one.
   */
  lemma {:induction false} PromptRoutes(db: Db, rs: seq<UserId>, key: string, note: Note)
    ensures var r := Prompt(db, rs, key, note);
      && (forall c :: c in rs && c !in db.blocked ==>
            && c in RoutesOf(r, key)
            && var h := RoutesOf(r, key)[c];
               h.chatId == c && |db.outbox| <= h.messageId < |r.outbox| && r.outbox[h.messageId] == Sent(c, note))
      && (forall c :: c in RoutesOf(r, key) ==> c in RoutesOf(db, key) || (c in rs && c !in db.blocked))
    decreases |rs|
  {
    if rs != [] {
      var init := rs[..|rs| - 1];
      var last := rs[|rs| - 1];
      PromptRoutes(db, init, key, note);
      PromptFrame(db, init, key, note);
      assert rs == init + [last];
      var d := Prompt(db, init, key, note);
      assert d.blocked == db.blocked;
      var r := Prompt(db, rs, key, note);
      if last !in db.blocked {
        assert RoutesOf(r, key) == RoutesOf(d, key)[last := Handle(last, |d.outbox|)];
        forall c | c in rs && c !in db.blocked
          ensures c in RoutesOf(r, key)
          ensures var h := RoutesOf(r, key)[c];
            h.chatId == c && |db.outbox| <= h.messageId < |r.outbox| && r.outbox[h.messageId] == Sent(c, note)
        {
          if c != last {
            assert c in init;
          }
        }
      }
    }
  }

  lemma {:induction false} PromptPreservesWf(db: Db, rs: seq<UserId>, key: string, note: Note)
    requires Wf(db)
    ensures Wf(Prompt(db, rs, key, note))
    decreases |rs|
  {
    if rs != [] {
      PromptPreservesWf(db, rs[..|rs| - 1], key, note);
      var d := Prompt(db, rs[..|rs| - 1], key, note);
      var last := rs[|rs| - 1];
      assert last in RoutesOf(d, key)[last := Handle(last, |d.outbox|)];
    }
  }

  // ---------------------------------------------------------------------------
  // The fan-out as written: walking a live set
  // ---------------------------------------------------------------------------

  /**
   * The fan-outs in the bot walk the live set (`units[unit]`, `completed_by`)
   * while the purge discards the refusing recipient from that very set; the
   * next step of the walk raises `RuntimeError: Set changed size during
   * iteration`. The result says whether the walk was cut short.
   */
  function LiveDeliver(db: Db, rs: seq<UserId>, note: Note): (Db, bool)
    decreases |rs|
  {
    if rs == [] then (db, false)
    else if rs[0] in db.blocked then (Deregister(db, rs[0]), true)
    else LiveDeliver(db.(outbox := db.outbox + [Sent(rs[0], note)]), rs[1..], note)
  }

  /** When nobody has blocked the bot, the live walk and the corrected fan-out agree. */
  lemma {:induction false} LiveDeliverAgrees(db: Db, rs: seq<UserId>, note: Note)
    requires forall r :: r in rs ==> r !in db.blocked
    ensures LiveDeliver(db, rs, note) == (Deliver(db, rs, note), false)
    decreases |rs|
  {
    if rs != [] {
      var d := db.(outbox := db.outbox + [Sent(rs[0], note)]);
      LiveDeliverAgrees(d, rs[1..], note);
      DeliverCons(db, rs[0], rs[1..], note);
      assert [rs[0]] + rs[1..] == rs;
    }
  }

  /**
   * The discrepancy: with a refusing first recipient `a` and a reachable
   * second one `b`, the live walk dies and `b` never gets the note, while the
   * corrected fan-out reaches `b`.
   */
  lemma LiveDeliverLosesLaterRecipients(db: Db, a: UserId, b: UserId, note: Note)
    requires a in db.blocked && b !in db.blocked
    ensures LiveDeliver(db, [a, b], note).1
    ensures LiveDeliver(db, [a, b], note).0.outbox == db.outbox
    ensures Deliver(db, [a, b], note).outbox == db.outbox + [Sent(b, note)]
  {
    DeliverEffect(db, [a, b], note);
    assert [a, b][..1] == [a];
    assert [a][..0] == [];
    assert Reached([a], db.blocked, note) == [];
    assert Reached([a, b], db.blocked, note) == [Sent(b, note)];
  }
}
