/**
 * `DataManager` as an object: its one field `data` holds every structure of
 * the store, and the methods update it in place. Each method is proved
 * against the function over `Db` that specifies the same operation.
 */
module Store {
  import opened Optional
  import opened Text
  import opened Sorting
  import opened Types
  import opened Cascade
  import opened Views
  import opened Units
  import opened Tickets
  import opened Dispatch

  /** The structures `DataManager.__init__` starts from: everything empty. */
  function EmptyDb(admins: set<UserId>, blocked: set<UserId>): (db: Db)
    ensures Wf(db)
    ensures db.centurions == db.decurions == db.privates == db.subscribers == db.combatReady == {}
    ensures db.tickets == map[] && db.archive == map[] && db.outbox == []
  {
    Db(admins, blocked, {}, {}, {}, [], map[], map[], map[], map[], [], map[], map[], map[], map[], map[], {}, {}, map[], [])
  }

  class DataManager {
    /** `DataManager.data`: every structure of the store, held in one field as in the source. */
    var data: Db

    /** The store invariant every handler keeps. */
    ghost predicate Valid()
      reads this
    {
      Wf(data)
    }

    /**
     * A new store with no saved data: empty structures, then every id of the
     * allow-list added to the centurions in ascending order.
     */
    constructor (admins: set<UserId>, blocked: set<UserId>, now: Time)
      ensures data == Commission(EmptyDb(admins, blocked), SortedSeq(admins), now)
      ensures Valid()
      ensures data.centurions == admins == data.subscribers
    {
      var db := EmptyDb(admins, blocked);
      data := db;
      new;
      var ids := SortedSeq(admins);
      AddDefaultCommanders(ids, now);
      CommissionEffect(db, ids, now);
      assert (set x | x in ids) == admins;
      CommissionPreservesWf(db, ids, now);
    }

    /** `_add_default_commanders`: each id in turn added to the centurions. */
    method AddDefaultCommanders(ids: seq<UserId>, now: Time)
      requires Valid()
      modifies this
      ensures data == Commission(old(data), ids, now)
      ensures Valid()
    {
      ghost var db := data;
      for i := 0 to |ids|
        invariant Commission(data, ids[i..], now) == Commission(db, ids, now)
        invariant Valid()
      {
        var ok := AddCommander(ids[i], "centurions", now);
        assert ids[i..][1..] == ids[i + 1..];
      }
    }

    /** `add_commander`: `false` (the `ValueError`) for an unknown unit, otherwise enrolled, active and subscribed. */
    method AddCommander(u: UserId, unit: string, now: Time) returns (ok: bool)
      requires Valid()
      modifies this
      ensures ok <==> UnitNamed(unit).Some?
      ensures ok ==> data == Units.AddCommander(old(data), u, unit, now).value
      ensures !ok ==> data == old(data)
      ensures Valid()
    {
      ghost var db := data;
      var t := UnitNamed(unit);
      if t.None? {
        return false;
      }
      match t.value {
        case Centurions => data := data.(centurions := data.centurions + {u});
        case Decurions => data := data.(decurions := data.decurions + {u});
        case Privates => data := data.(privates := data.privates + {u});
      }
      data := data.(activity := data.activity[u := now]);
      data := data.(subscribers := data.subscribers + {u});
      WfFrame(db, data);
      ok := true;
    }

    /** `remove_user_from_database(u)`: the purge, structure by structure. */
    method Deregister(u: UserId)
      requires Valid()
      modifies this
      ensures data == Cascade.Deregister(old(data), u)
      ensures Valid()
    {
      ghost var db := data;
      DeregisterPreservesWf(db, u);
      data := data.(centurions := data.centurions - {u});
      data := data.(decurions := data.decurions - {u});
      data := data.(privates := data.privates - {u});
      data := data.(combatReady := data.combatReady - {u});
      data := data.(subscribers := data.subscribers - {u});
      data := data.(callSigns := data.callSigns - {u});
      data := data.(activity := data.activity - {u});
      data := data.(tempActions := data.tempActions - {u});
      data := data.(tempMissions := data.tempMissions - {u});
      data := data.(userActiveTickets := data.userActiveTickets - {u});
      data := data.(usernames := data.usernames - {Decimal(u)});
      var routing := PurgeRouting(data.ticketResponses, u);
      data := data.(ticketResponses := routing);
      var tickets := PurgeTickets(data.tickets, u);
      data := data.(tickets := tickets, ticketOrder := KeepOrder(data.ticketOrder, tickets));
      var archive := PurgeCompletions(data.archive, u);
      data := data.(archive := archive);
    }

    /** A send: recorded, or, to a user who blocked the bot, the purge. */
    method Notify(to: UserId, note: Note)
      requires Valid()
      modifies this
      ensures data == Cascade.Notify(old(data), to, note)
      ensures Valid()
    {
      SendsPreserveWf(data, to, note, NothingToClose);
      if to in data.blocked {
        Deregister(to);
      } else {
        data := data.(outbox := data.outbox + [Sent(to, note)]);
      }
    }

    /** The same note to each recipient in turn; each refusal purges its recipient before the next send. */
    method Deliver(rs: seq<UserId>, note: Note)
      requires Valid()
      modifies this
      ensures data == Cascade.Deliver(old(data), rs, note)
      ensures Valid()
    {
      ghost var db := data;
      for i := 0 to |rs|
        invariant data == Cascade.Deliver(db, rs[..i], note)
        invariant Valid()
      {
        assert rs[..i + 1][..i] == rs[..i];
        Notify(rs[i], note);
      }
      assert rs[..|rs|] == rs;
    }

    /**
     * One pass of `cleanup_tickets`: collect the expired tickets in filing
     * order, then tell each owner and close the ticket, skipping tickets an
     * earlier purge of the pass already deleted.
     */
    method Sweep(now: Time)
      requires Valid()
      modifies this
      ensures data == Tickets.Sweep(old(data), now)
      ensures Valid()
    {
      ghost var db := data;
      var expired := ExpiredInOrder(data.tickets, data.ticketOrder, now);
      for j := 0 to |expired|
        invariant SweepFrom(data, expired[j..]) == Tickets.Sweep(db, now)
        invariant Valid()
      {
        var id := expired[j];
        assert expired[j..][1..] == expired[j + 1..];
        if id in data.tickets {
          Notify(data.tickets[id].owner, ClosedForInactivity(id));
          CloseIfPresentPreservesWf(data, id);
          if id in data.tickets {
            data := data.(tickets := data.tickets[id := data.tickets[id].(status := Closed)]);
          }
        }
      }
    }

    /** Counts the Completed missions listing `u`, then turns the count into the medal line. */
    method MedalLine(u: UserId) returns (r: string)
      ensures r == MedalAndCount(|CompletedBy(data.archive, u)|)
    {
      var completed := CountCompleted(data.archive, u);
      r := MedalAndCount(completed);
    }

    /** A text message from `u`: routed to the first handler whose filter accepts it, which updates the store. */
    method OnMessage(u: UserId, text: string, username: Option<string>, now: Time)
      requires Valid()
      modifies this
      ensures data == Dispatch.OnMessage(old(data), u, text, username, now)
      ensures Valid()
    {
      OnMessagePreservesWf(data, u, text, username, now);
      data := Dispatch.OnMessage(data, u, text, username, now);
    }

    /** A press of an inline button carrying `data`. */
    method OnPress(u: UserId, payload: string, now: Time)
      requires Valid()
      modifies this
      ensures data == Dispatch.OnPress(old(data), u, payload, now)
      ensures Valid()
    {
      OnPressPreservesWf(data, u, payload, now);
      data := Dispatch.OnPress(data, u, payload, now);
    }
  }

  /** The loop over the routing entries: each loses `u`, and an entry left empty is deleted. */
  method PurgeRouting(routing: map<string, map<UserId, Handle>>, u: UserId) returns (r: map<string, map<UserId, Handle>>)
    ensures r == DropFromRouting(routing, u)
  {
    r := routing;
    var todo := routing.Keys;
    while todo != {}
      invariant todo <= routing.Keys
      invariant forall k :: k in r <==> k in routing && (k in todo || routing[k] - {u} != map[])
      invariant forall k :: k in r ==> r[k] == if k in todo then routing[k] else routing[k] - {u}
      decreases |todo|
    {
      var k :| k in todo;
      var rest := r[k] - {u};
      if rest == map[] {
        r := r - {k};
      } else {
        r := r[k := rest];
      }
      todo := todo - {k};
    }
    assert r == DropFromRouting(routing, u);
  }

  /** The loop over the tickets: every ticket `u` filed or was assigned is deleted. */
  method PurgeTickets(tickets: map<TicketId, Ticket>, u: UserId) returns (r: map<TicketId, Ticket>)
    ensures r == DropTickets(tickets, u)
  {
    r := tickets;
    var todo := tickets.Keys;
    while todo != {}
      invariant todo <= tickets.Keys
      invariant forall id :: id in r <==> id in tickets && (id in todo || !Involves(tickets[id], u))
      invariant forall id :: id in r ==> r[id] == tickets[id]
      decreases |todo|
    {
      var id :| id in todo;
      var t := r[id];
      if t.owner == u || t.assignedTo == Some(u) {
        r := r - {id};
      }
      todo := todo - {id};
    }
    assert r == DropTickets(tickets, u);
  }

  /** The loop over the archive: `u` is discarded from every mission's `completed_by`. */
  method PurgeCompletions(archive: map<MissionId, Mission>, u: UserId) returns (r: map<MissionId, Mission>)
    ensures r == DropCompletion(archive, u)
  {
    r := archive;
    var todo := archive.Keys;
    while todo != {}
      invariant todo <= archive.Keys == r.Keys
      invariant forall id :: id in r ==>
        r[id] == if id in todo then archive[id] else archive[id].(completedBy := archive[id].completedBy - {u})
      decreases |todo|
    {
      var id :| id in todo;
      var m := r[id];
      r := r[id := m.(completedBy := m.completedBy - {u})];
      todo := todo - {id};
    }
    assert r == DropCompletion(archive, u);
  }

  /** The first loop of `cleanup_tickets`: the expired tickets, in filing order. */
  method ExpiredInOrder(tickets: map<TicketId, Ticket>, order: seq<TicketId>, now: Time) returns (expired: seq<TicketId>)
    ensures expired == ExpiredIds(tickets, order, now)
  {
    expired := [];
    for i := 0 to |order|
      invariant expired == ExpiredIds(tickets, order[..i], now)
    {
      ExpiredIdsSnoc(tickets, order[..i + 1], now);
      assert order[..i + 1][..i] == order[..i];
      var id := order[i];
      if id in tickets && Expired(tickets[id], now) {
        expired := expired + [id];
      }
    }
    assert order[..|order|] == order;
  }

  /** The count behind the medal line: the Completed missions that list `u`. */
  method CountCompleted(archive: map<MissionId, Mission>, u: UserId) returns (n: nat)
    ensures n == |CompletedBy(archive, u)|
  {
    n := 0;
    var todo := archive.Keys;
    ghost var counted: set<MissionId> := {};
    while todo != {}
      invariant todo <= archive.Keys
      invariant forall x :: x in counted <==> x in archive && x !in todo && archive[x].status == Completed && u in archive[x].completedBy
      invariant n == |counted|
      decreases |todo|
    {
      var id :| id in todo;
      var m := archive[id];
      if m.status == Completed && u in m.completedBy {
        counted := counted + {id};
        n := n + 1;
      }
      todo := todo - {id};
    }
    assert counted == CompletedBy(archive, u);
  }

  /** Adding the allow-list keeps an empty store well formed. */
  lemma {:induction false} CommissionPreservesWf(db: Db, ids: seq<UserId>, now: Time)
    requires Wf(db)
    ensures Wf(Commission(db, ids, now))
    decreases |ids|
  {
    if ids != [] {
      CommissionPreservesWf(Units.AddCommander(db, ids[0], "centurions", now).value, ids[1..], now);
    }
  }
}
