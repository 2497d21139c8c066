/**
 * Saving and reloading the store: `_prepare_data_for_saving` turns the sets
 * into lists and the id-keyed maps into string-keyed JSON objects, and
 * `_convert_data` rebuilds the working structures from the document
 * `json.load` returns. `Saved` is that document, after the JSON round trip
 * (every object key a string, every set a list).
 */
module Persistence {
  import opened Optional
  import opened Text
  import opened Sorting
  import opened Types

  /** The JSON document of `data.json`, as `json.load` returns it. */
  datatype Saved = Saved(
    units: map<string, seq<UserId>>,
    active: seq<MissionId>,
    archive: map<MissionId, MissionRecord<seq<UserId>>>,
    approvals: map<MissionId, UserId>,
    callSigns: map<string, string>,
    tickets: map<TicketId, Ticket>,
    ticketOrder: seq<TicketId>,
    activity: map<string, Time>,
    tempActions: map<string, PendingAction>,
    tempMissions: map<string, Draft>,
    userActiveTickets: map<string, TicketId>,
    ticketResponses: map<string, map<string, Handle>>,
    subscribers: seq<UserId>,
    combatReady: seq<UserId>,
    usernames: map<string, Option<string>>)

  // ---------------------------------------------------------------------------
  // Keys and lists
  // ---------------------------------------------------------------------------

  /** A key `int()` reads as an id and that `str()` of that id gives back. */
  predicate IsIdKey(k: string) {
    var p := ParseInt(k);
    p.Some? && Decimal(p.value) == k
  }

  predicate IdKeyed<V>(m: map<string, V>) {
    forall k :: k in m ==> IsIdKey(k)
  }

  lemma DecimalsDistinct()
    ensures forall a, b :: Decimal(a) == Decimal(b) ==> a == b
  {
    forall a, b | Decimal(a) == Decimal(b)
      ensures a == b
    {
      DecimalInjective(a, b);
    }
  }

  /** The decimal form of an id is an id key. */
  lemma DecimalIds()
    ensures forall u :: IsIdKey(Decimal(u))
  {
    forall u
      ensures IsIdKey(Decimal(u))
    {
      DecimalRoundTrip(u);
    }
  }

  /** An id key is the decimal form of exactly one id. */
  lemma DecimalKeys()
    ensures forall u :: IsIdKey(Decimal(u)) && ParseInt(Decimal(u)).value == u
  {
    forall u
      ensures IsIdKey(Decimal(u)) && ParseInt(Decimal(u)).value == u
    {
      DecimalRoundTrip(u);
    }
  }

  /** JSON's treatment of an int-keyed dict: every key written as `str(k)`. */
  function Keyed<V>(m: map<UserId, V>): (r: map<string, V>)
    ensures forall u :: u in m <==> Decimal(u) in r
    ensures forall u :: u in m ==> r[Decimal(u)] == m[u]
  {
    DecimalsDistinct();
    map u | u in m :: Decimal(u) := m[u]
  }

  /** Every key JSON writes for an int-keyed dict reads back as an id. */
  lemma KeyedIds<V>(m: map<UserId, V>)
    ensures IdKeyed(Keyed(m))
  {
    DecimalIds();
    var r := Keyed(m);
    forall k | k in r
      ensures IsIdKey(k)
    {
      var u :| u in m && k == Decimal(u);
    }
  }

  /**
   * `{int(k): v for k, v in m.items()}`, over the keys that are ids (the
   * reload refuses a document with any other key before it gets here).
   */
  function Unkeyed<V>(m: map<string, V>): (r: map<UserId, V>)
    ensures forall u :: u in r <==> Decimal(u) in m
    ensures forall u :: u in r ==> r[u] == m[Decimal(u)]
  {
    DecimalKeys();
    map k | k in m && IsIdKey(k) :: ParseInt(k).value := m[k]
  }

  /** Two maps with the same keys and the same value at each key are equal. */
  lemma SameEntries<K, V>(a: map<K, V>, b: map<K, V>)
    requires forall k :: k in a <==> k in b
    requires forall k :: k in b ==> a[k] == b[k]
    ensures a == b
  {
  }

  /** Reading the ids back gives the map that was written. */
  lemma UnkeyedKeyed<V>(m: map<UserId, V>)
    ensures Unkeyed(Keyed(m)) == m
  {
    var k := Keyed(m);
    var r := Unkeyed(k);
    forall u | u in m
      ensures u in r && r[u] == m[u]
    {
      assert Decimal(u) in k && k[Decimal(u)] == m[u];
    }
    SameEntries(r, m);
  }

  /** Writing the ids out again gives the document that was read. */
  lemma KeyedUnkeyed<V>(m: map<string, V>)
    requires IdKeyed(m)
    ensures Keyed(Unkeyed(m)) == m
  {
    var u := Unkeyed(m);
    var r := Keyed(u);
    forall k | k in m
      ensures k in r && r[k] == m[k]
    {
      assert Decimal(ParseInt(k).value) == k;
    }
    forall k | k in r
      ensures k in m
    {
      assert Decimal(ParseInt(k).value) == k;
    }
    SameEntries(r, m);
  }

  /** `set(l)`. */
  function ListSet(l: seq<UserId>): (s: set<UserId>)
    ensures forall x :: x in s <==> x in l
  {
    set x | x in l
  }

  /** `list(s)`, in ascending order. */
  function SetList(s: set<UserId>): (l: seq<UserId>)
    ensures ListSet(l) == s
    ensures Increasing(l)
  {
    SortedSeq(s)
  }

  /** `deque(l, maxlen=15)`: only the last fifteen entries are kept. */
  function Capped(l: seq<MissionId>): (r: seq<MissionId>)
    ensures |r| <= MaxLastMissions
    ensures |l| <= MaxLastMissions ==> r == l
    ensures |r| == if |l| <= MaxLastMissions then |l| else MaxLastMissions
    ensures r == l[|l| - |r|..]
  {
    if |l| > MaxLastMissions then l[|l| - MaxLastMissions..] else l
  }

  /** A mission as written: `completed_by` as a list. */
  function MissionListed(m: Mission): (r: MissionRecord<seq<UserId>>)
    ensures ListSet(r.completedBy) == m.completedBy
  {
    MissionRecord(m.id, m.creator, m.scope, m.name, m.content, m.status, m.createdAt,
      SetList(m.completedBy), m.approvedBy, m.approvedAt, m.rejectedBy, m.rejectedAt, m.completedAt)
  }

  /** A mission as read back: `completed_by` as a set. */
  function MissionSet(m: MissionRecord<seq<UserId>>): (r: Mission)
    ensures r.completedBy == ListSet(m.completedBy)
  {
    MissionRecord(m.id, m.creator, m.scope, m.name, m.content, m.status, m.createdAt,
      ListSet(m.completedBy), m.approvedBy, m.approvedAt, m.rejectedBy, m.rejectedAt, m.completedAt)
  }

  lemma MissionRoundTrip(m: Mission)
    ensures MissionSet(MissionListed(m)) == m
  {
  }

  /** The archive as written: every mission's `completed_by` as a list. */
  function ArchiveListed(archive: map<MissionId, Mission>): (r: map<MissionId, MissionRecord<seq<UserId>>>)
    ensures r.Keys == archive.Keys
  {
    map id | id in archive :: MissionListed(archive[id])
  }

  /** The archive as read back: every `completed_by` turned into a set. */
  function ArchiveSet(archive: map<MissionId, MissionRecord<seq<UserId>>>): (r: map<MissionId, Mission>)
    ensures r.Keys == archive.Keys
  {
    map id | id in archive :: MissionSet(archive[id])
  }

  lemma ArchiveRoundTrip(archive: map<MissionId, Mission>)
    ensures ArchiveSet(ArchiveListed(archive)) == archive
  {
    var r := ArchiveSet(ArchiveListed(archive));
    forall id | id in archive
      ensures r[id] == archive[id]
    {
      MissionRoundTrip(archive[id]);
    }
    SameEntries(r, archive);
  }

  /** The routing table as written: every commander key as `str(id)`. */
  function RoutingKeyed(routing: map<string, map<UserId, Handle>>): (r: map<string, map<string, Handle>>)
    ensures r.Keys == routing.Keys
    ensures forall t :: t in r ==> r[t] == Keyed(routing[t])
  {
    map t | t in routing :: Keyed(routing[t])
  }

  /** The routing table as read back: every commander key through `int()`. */
  function RoutingUnkeyed(routing: map<string, map<string, Handle>>): (r: map<string, map<UserId, Handle>>)
    ensures r.Keys == routing.Keys
  {
    map t | t in routing :: Unkeyed(routing[t])
  }

  lemma RoutingRoundTrip(routing: map<string, map<UserId, Handle>>)
    ensures RoutingUnkeyed(RoutingKeyed(routing)) == routing
  {
    var r := RoutingUnkeyed(RoutingKeyed(routing));
    forall t | t in routing
      ensures r[t] == routing[t]
    {
      UnkeyedKeyed(routing[t]);
    }
    SameEntries(r, routing);
  }

  /** `units.get(name, [])`. */
  function UnitList(units: map<string, seq<UserId>>, t: UnitType): seq<UserId> {
    if UnitName(t) in units then units[UnitName(t)] else []
  }

  /** The `units` section as written: each unit's list under its name. */
  function UnitsListed(db: Db): map<string, seq<UserId>> {
    map[UnitName(Centurions) := SetList(db.centurions),
        UnitName(Decurions) := SetList(db.decurions),
        UnitName(Privates) := SetList(db.privates)]
  }

  lemma UnitsRoundTrip(db: Db)
    ensures ListSet(UnitList(UnitsListed(db), Centurions)) == db.centurions
    ensures ListSet(UnitList(UnitsListed(db), Decurions)) == db.decurions
    ensures ListSet(UnitList(UnitsListed(db), Privates)) == db.privates
  {
    var u := UnitsListed(db);
    assert UnitList(u, Centurions) == SetList(db.centurions);
    assert UnitList(u, Decurions) == SetList(db.decurions);
    assert UnitList(u, Privates) == SetList(db.privates);
  }

  // ---------------------------------------------------------------------------
  // Saving
  // ---------------------------------------------------------------------------

  /** `_prepare_data_for_saving`, then the JSON round trip of its keys. */
  function Prepare(db: Db): Saved {
    Saved(
      UnitsListed(db),
      db.recent,
      ArchiveListed(db.archive),
      db.approvals,
      Keyed(db.callSigns),
      db.tickets,
      db.ticketOrder,
      Keyed(db.activity),
      Keyed(db.tempActions),
      Keyed(db.tempMissions),
      Keyed(db.userActiveTickets),
      RoutingKeyed(db.ticketResponses),
      SetList(db.subscribers),
      SetList(db.combatReady),
      db.usernames)
  }

  // ---------------------------------------------------------------------------
  // Loading
  // ---------------------------------------------------------------------------

  /** The keys `_convert_data` passes through `int()` are all ids; otherwise it raises `ValueError`. */
  predicate Readable(doc: Saved) {
    && IdKeyed(doc.activity)
    && forall t :: t in doc.ticketResponses ==> IdKeyed(doc.ticketResponses[t])
  }

  /** The maps the corrected reload also reads back by id have id keys. */
  predicate IdsReadable(doc: Saved) {
    && IdKeyed(doc.callSigns) && IdKeyed(doc.tempActions)
    && IdKeyed(doc.tempMissions) && IdKeyed(doc.userActiveTickets)
  }

  /** Every key a reload passes through `int()` in a saved document is an id. */
  lemma PrepareReadable(db: Db)
    ensures Readable(Prepare(db)) && IdsReadable(Prepare(db))
  {
    KeyedIds(db.activity);
    KeyedIds(db.callSigns);
    KeyedIds(db.tempActions);
    KeyedIds(db.tempMissions);
    KeyedIds(db.userActiveTickets);
    forall t | t in db.ticketResponses
      ensures IdKeyed(Keyed(db.ticketResponses[t]))
    {
      KeyedIds(db.ticketResponses[t]);
    }

  }

  /**
   * What `_convert_data` rebuilds from the document: the units, the recent
   * list, the archive, the activity times, the routing table, the two sets
   * and the username cache. Every other structure is left as it was before
   * the load; the allow-list, the blocked set and the outbox are never part
   * of the document.
   */
  function Reread(doc: Saved, before: Db): Db {
    before.(
      centurions := ListSet(UnitList(doc.units, Centurions)),
      decurions := ListSet(UnitList(doc.units, Decurions)),
      privates := ListSet(UnitList(doc.units, Privates)),
      recent := Capped(doc.active),
      archive := ArchiveSet(doc.archive),
      activity := Unkeyed(doc.activity),
      ticketResponses := RoutingUnkeyed(doc.ticketResponses),
      subscribers := ListSet(doc.subscribers),
      combatReady := ListSet(doc.combatReady),
      usernames := doc.usernames)
  }

  /**
   * `_convert_data` with every int-keyed structure read back: besides what
   * `Reread` restores, the call signs, pending actions, drafts and ticket
   * index with their keys through `int()`, and the tickets and approvals.
   */
  function Convert(doc: Saved, before: Db): (r: Option<Db>)
    ensures r.Some? <==> Readable(doc) && IdsReadable(doc)
  {
    if !(Readable(doc) && IdsReadable(doc)) then None
    else
      Some(Reread(doc, before).(
        approvals := doc.approvals,
        callSigns := Unkeyed(doc.callSigns),
        tickets := doc.tickets,
        ticketOrder := doc.ticketOrder,
        tempActions := Unkeyed(doc.tempActions),
        tempMissions := Unkeyed(doc.tempMissions),
        userActiveTickets := Unkeyed(doc.userActiveTickets)))
  }

  /** What a reload keeps of `db`: everything but the allow-list, the blocked set and the outbox. */
  function Reloaded(db: Db, before: Db): (r: Db)
    ensures r.admins == before.admins && r.blocked == before.blocked && r.outbox == before.outbox
  {
    db.(admins := before.admins, blocked := before.blocked, outbox := before.outbox)
  }

  /** The sections `Reread` restores come back as they were saved. */
  lemma RereadRoundTrip(db: Db, before: Db)
    requires |db.recent| <= MaxLastMissions
    ensures Readable(Prepare(db))
    ensures var r := Reread(Prepare(db), before);
      && r.centurions == db.centurions && r.decurions == db.decurions && r.privates == db.privates
      && r.recent == db.recent && r.archive == db.archive && r.activity == db.activity
      && r.ticketResponses == db.ticketResponses
      && r.subscribers == db.subscribers && r.combatReady == db.combatReady && r.usernames == db.usernames
  {
    PrepareReadable(db);
    UnitsRoundTrip(db);
    ArchiveRoundTrip(db.archive);
    UnkeyedKeyed(db.activity);
    RoutingRoundTrip(db.ticketResponses);
  }

  /** Saving, then loading, gives back every structure of the store. */
  lemma RoundTrip(db: Db, before: Db)
    requires |db.recent| <= MaxLastMissions
    ensures Convert(Prepare(db), before) == Some(Reloaded(db, before))
  {
    var doc := Prepare(db);
    RereadRoundTrip(db, before);
    PrepareReadable(db);
    UnkeyedKeyed(db.callSigns);
    UnkeyedKeyed(db.tempActions);
    UnkeyedKeyed(db.tempMissions);
    UnkeyedKeyed(db.userActiveTickets);
    var r := Convert(doc, before).value;
    assert r.approvals == db.approvals && r.tickets == db.tickets && r.ticketOrder == db.ticketOrder;
  }

  /** A reloaded store is as well formed as the saved one. */
  lemma ReloadPreservesWf(db: Db, before: Db)
    requires Wf(db)
    ensures Convert(Prepare(db), before).Some?
    ensures Wf(Convert(Prepare(db), before).value)
  {
    RoundTrip(db, before);
    WfFrame(db, Reloaded(db, before));
  }

  // ---------------------------------------------------------------------------
  // Loading as written
  // ---------------------------------------------------------------------------

  /**
   * The store `_convert_data` leaves behind, as written. `db` is what the
   * handlers see through their lookups by id. `_convert_data` never assigns
   * `tickets` or `approvals`, so those keep the values the store had before
   * the load (empty, at start-up); and it copies `call_signs`, `temp_actions`,
   * `temp_missions` and `user_active_tickets` without `int()`, so their
   * entries stay under string keys (the `stray` maps), where no lookup by an
   * int id finds them.
   */
  datatype LoadedAsWritten = LoadedAsWritten(
    db: Db,
    strayCallSigns: map<string, string>,
    strayTempActions: map<string, PendingAction>,
    strayTempMissions: map<string, Draft>,
    strayUserActiveTickets: map<string, TicketId>)

  function ConvertAsWritten(doc: Saved, before: Db): (r: Option<LoadedAsWritten>)
    ensures r.Some? <==> Readable(doc)
  {
    if !Readable(doc) then None
    else
      Some(LoadedAsWritten(
        Reread(doc, before).(callSigns := map[], tempActions := map[], tempMissions := map[], userActiveTickets := map[]),
        doc.callSigns,
        doc.tempActions,
        doc.tempMissions,
        doc.userActiveTickets))
  }

  /**
   * After a save and a reload as written, the tickets and approvals are the
   * ones the store held before the load, and no id finds its call sign,
   * pending action, draft or indexed ticket, although each is still in the
   * loaded data under the id's decimal form.
   */
  lemma ReloadAsWrittenLoses(db: Db, before: Db)
    ensures ConvertAsWritten(Prepare(db), before).Some?
    ensures var r := ConvertAsWritten(Prepare(db), before).value;
      && r.db.tickets == before.tickets
      && r.db.approvals == before.approvals
      && r.db.callSigns == map[] && r.db.tempActions == map[]
      && r.db.tempMissions == map[] && r.db.userActiveTickets == map[]
      && (forall u :: Decimal(u) in r.strayCallSigns <==> u in db.callSigns)
      && (forall u :: Decimal(u) in r.strayUserActiveTickets <==> u in db.userActiveTickets)
  {
    PrepareReadable(db);
  }

  /** A store in which user 7 has filed ticket "t" and chosen the call sign "Hawk". */
  function ExampleStore(): (db: Db)
    ensures Wf(db)
  {
    var t := Ticket("t", 7, "help", Open, 0, 0, None, None, None, [ReportText("help")], []);
    assert ["t"][0] == "t";
    Db({}, {}, {}, {}, {7}, [], map[], map[], map[7 := "Hawk"], map["t" := t], ["t"],
      map[7 := 0], map[], map[], map[7 := "t"], map[], {7}, {}, map[], [])
  }

  /** A store just built, before anything is loaded into it. */
  function FreshStore(): Db {
    Db({}, {}, {}, {}, {}, [], map[], map[], map[], map[], [], map[], map[], map[], map[], map[], {}, {}, map[], [])
  }

  /**
   * The example store saved and reloaded into a fresh store as written: the
   * ticket is gone, and user 7 has neither a call sign nor an indexed ticket.
   */
  lemma ReloadAsWrittenExample()
    ensures ExampleStore().tickets != map[] && 7 in ExampleStore().callSigns && 7 in ExampleStore().userActiveTickets
    ensures var r := ConvertAsWritten(Prepare(ExampleStore()), FreshStore());
      r.Some? && r.value.db.tickets == map[] && 7 !in r.value.db.callSigns && 7 !in r.value.db.userActiveTickets
  {
    var db := ExampleStore();
    assert "t" in db.tickets;
    ReloadAsWrittenLoses(db, FreshStore());
  }
}
