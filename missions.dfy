/**
 * The mission lifecycle: a commander, centurion or decurion drafts a mission
 * (type, then name, then content); it goes out at once, or to the centurions
 * for approval when a decurion targets the privates; members report
 * completion; a commander closes it.
 */
module Missions {
  import opened Optional
  import opened Text
  import opened Sorting
  import opened Types
  import opened Cascade

  /** Commanders and centurions may create any mission; decurions only missions for the privates. */
  predicate MayCreate(db: Db, u: UserId, scope: string) {
    var privileged := IsCommander(db, u) || u in db.centurions;
    if scope == "all" || scope == "decurions" then privileged else privileged || u in db.decurions
  }

  /** A mission is held for approval exactly when it targets the privates and its creator is neither commander nor centurion. */
  predicate NeedsApproval(db: Db, u: UserId, scope: string) {
    scope == "privates" && !(IsCommander(db, u) || u in db.centurions)
  }

  /** `distribute_mission`: each target unit in turn, every member of it at that moment. */
  function Distribute(db: Db, id: MissionId, ts: seq<UnitType>): Db
    decreases |ts|
  {
    if ts == [] then db
    else Distribute(Deliver(db, SortedSeq(Members(db, ts[0])), MissionOrder(id)), id, ts[1..])
  }

  /** A distribution only appends to the outbox, only purges members, and keeps every mission. */
  lemma {:induction false} DistributeFrame(db: Db, id: MissionId, ts: seq<UnitType>)
    ensures var r := Distribute(db, id, ts);
      && r.admins == db.admins && r.blocked == db.blocked && r.recent == db.recent
      && |db.outbox| <= |r.outbox| && r.outbox[..|db.outbox|] == db.outbox
      && (forall t :: Members(r, t) <= Members(db, t))
      && MissionsKept(db, r)
    decreases |ts|
  {
    if ts != [] {
      var rs := SortedSeq(Members(db, ts[0]));
      var d := Deliver(db, rs, MissionOrder(id));
      DeliverEffect(db, rs, MissionOrder(id));
      DeliverPurges(db, rs, MissionOrder(id));
      DeliverKeepsMissions(db, rs, MissionOrder(id));
      DistributeFrame(d, id, ts[1..]);
      var r := Distribute(d, id, ts[1..]);
      MissionsKeptTrans(db, d, r);
      assert r.outbox[..|d.outbox|] == d.outbox;
      assert d.outbox[..|db.outbox|] == db.outbox;
    }
  }

  /** Every member of a target unit who has not blocked the bot receives the order. */
  lemma {:induction false} DistributeReaches(db: Db, id: MissionId, ts: seq<UnitType>, t: UnitType, x: UserId)
    requires t in ts && x in Members(db, t) && x !in db.blocked
    ensures Sent(x, MissionOrder(id)) in Distribute(db, id, ts).outbox
    decreases |ts|
  {
    var rs := SortedSeq(Members(db, ts[0]));
    var d := Deliver(db, rs, MissionOrder(id));
    DeliverEffect(db, rs, MissionOrder(id));
    DeliverPurges(db, rs, MissionOrder(id));
    var r := Distribute(d, id, ts[1..]);
    if t == ts[0] {
      ReachedContains(rs, db.blocked, MissionOrder(id), x);
      assert Sent(x, MissionOrder(id)) in d.outbox;
      DistributeFrame(d, id, ts[1..]);
      assert Sent(x, MissionOrder(id)) in r.outbox[..|d.outbox|];
    } else {
      assert t in ts[1..];
      assert x !in Refusers(rs, db.blocked);
      DistributeReaches(d, id, ts[1..], t, x);
    }
  }

  /** Every member of a target unit who has blocked the bot is purged from the store. */
  lemma {:induction false} DistributeForgets(db: Db, id: MissionId, ts: seq<UnitType>, t: UnitType, x: UserId)
    requires t in ts && x in Members(db, t) && x in db.blocked
    ensures Forgotten(Distribute(db, id, ts), x)
    decreases |ts|
  {
    var rs := SortedSeq(Members(db, ts[0]));
    var d := Deliver(db, rs, MissionOrder(id));
    DeliverEffect(db, rs, MissionOrder(id));
    DeliverPurges(db, rs, MissionOrder(id));
    DeliverForgets(db, rs, MissionOrder(id));
    if t == ts[0] || x !in Members(d, t) {
      assert x in Refusers(rs, db.blocked);
      DistributeKeepsForgotten(d, id, ts[1..], x);
    } else {
      assert t in ts[1..];
      DistributeForgets(d, id, ts[1..], t, x);
    }
  }

  lemma {:induction false} DistributeKeepsForgotten(db: Db, id: MissionId, ts: seq<UnitType>, u: UserId)
    requires Forgotten(db, u)
    ensures Forgotten(Distribute(db, id, ts), u)
    decreases |ts|
  {
    if ts != [] {
      DeliverKeepsForgotten(db, SortedSeq(Members(db, ts[0])), MissionOrder(id), u);
      DistributeKeepsForgotten(Deliver(db, SortedSeq(Members(db, ts[0])), MissionOrder(id)), id, ts[1..], u);
    }
  }

  lemma {:induction false} DistributePreservesWf(db: Db, id: MissionId, ts: seq<UnitType>)
    requires Wf(db)
    ensures Wf(Distribute(db, id, ts))
    decreases |ts|
  {
    if ts != [] {
      DeliverPreservesWf(db, SortedSeq(Members(db, ts[0])), MissionOrder(id));
      DistributePreservesWf(Deliver(db, SortedSeq(Members(db, ts[0])), MissionOrder(id)), id, ts[1..]);
    }
  }

  // ---------------------------------------------------------------------------
  // Drafting
  // ---------------------------------------------------------------------------

  /** The "Create Mission" button: the type menu for those allowed to create missions. */
  function CreateMissionButton(db: Db, u: UserId, now: Time): Db {
    var privileged := IsCommander(db, u) || u in db.centurions;
    if !(privileged || u in db.decurions) then Answer(db, u, Forbidden)
    else Answer(Touch(db, u, now), u, MissionTypeMenu(privileged))
  }

  /** A `mission_type:<scope>` press: a draft awaiting its name (no permission check here). */
  function MissionTypePress(db: Db, u: UserId, scope: string): Db {
    Answer(db.(tempMissions := db.tempMissions[u := AwaitingName(scope)]), u, MissionNamePrompt(scope))
  }

  /** The name of a draft: stripped, at most 50 characters, else the draft waits for another try. */
  function MissionNameInput(db: Db, u: UserId, text: string): Db
    requires u in db.tempMissions && db.tempMissions[u].AwaitingName?
  {
    var name := Strip(text);
    if |name| > MaxMissionNameLength then Answer(db, u, MissionNameTooLong)
    else
      var scope := db.tempMissions[u].scope;
      Answer(db.(tempMissions := db.tempMissions[u := AwaitingContent(scope, name)]), u, MissionContentPrompt(name))
  }

  /** The record `handle_mission_content` stores. */
  function NewMission(db: Db, u: UserId, scope: string, name: string, content: string, now: Time): Mission {
    MissionRecord(MissionIdFor(u, now), u, scope, name, content,
      if NeedsApproval(db, u, scope) then Pending else Active,
      now, {}, None, None, None, None, None)
  }

  /** Sends a new mission on its way: to the centurions for approval, or to its target units. */
  function Launch(db: Db, u: UserId, m: Mission): Db {
    if NeedsApproval(db, u, m.scope) then
      Answer(Prompt(db, SortedSeq(db.centurions), m.id, ApprovalRequest(m.id)), u, SentForApproval)
    else
      var ts := Targets(m.scope);
      Answer(Distribute(db, m.id, ts), u, Launched(m.name, |ts|))
  }

  /**
   * The content of a draft. Without permission for the scope the draft stays
   * for another try. Otherwise the mission is sent to the centurions for
   * approval or distributed at once, then queued among the recent missions,
   * archived, and the draft dropped.
   */
  function MissionContentInput(db: Db, u: UserId, text: string, now: Time): Db
    requires u in db.tempMissions && db.tempMissions[u].AwaitingContent?
  {
    var draft := db.tempMissions[u];
    if !MayCreate(db, u, draft.scope) then Answer(db, u, ScopeForbidden)
    else
      var m := NewMission(db, u, draft.scope, draft.name, text, now);
      var sent := Launch(db, u, m);
      sent.(recent := PushRecent(sent.recent, m.id),
            archive := sent.archive[m.id := m],
            tempMissions := sent.tempMissions - {u})
  }

  /** A refused scope changes nothing but the answer: the draft is kept for another try. */
  lemma ContentRefusedKeepsDraft(db: Db, u: UserId, text: string, now: Time)
    requires u in db.tempMissions && db.tempMissions[u].AwaitingContent?
    requires !MayCreate(db, u, db.tempMissions[u].scope)
    ensures MissionContentInput(db, u, text, now) == Answer(db, u, ScopeForbidden)
    ensures u in MissionContentInput(db, u, text, now).tempMissions
  {
  }

  /**
   * A created mission: archived under its id, Pending exactly when it needs
   * approval, last in the recent queue (at most 15 kept), the draft gone.
   */
  lemma ContentCreates(db: Db, u: UserId, text: string, now: Time)
    requires u in db.tempMissions && db.tempMissions[u].AwaitingContent?
    requires MayCreate(db, u, db.tempMissions[u].scope)
    ensures var draft := db.tempMissions[u];
      var id := MissionIdFor(u, now);
      var r := MissionContentInput(db, u, text, now);
      && id in r.archive
      && r.archive[id].creator == u && r.archive[id].scope == draft.scope
      && r.archive[id].name == draft.name && r.archive[id].content == text
      && r.archive[id].completedBy == {}
      && (r.archive[id].status == Pending <==> NeedsApproval(db, u, draft.scope))
      && (r.archive[id].status == Active <==> !NeedsApproval(db, u, draft.scope))
      && r.recent == PushRecent(db.recent, id)
      && u !in r.tempMissions
  {
    var draft := db.tempMissions[u];
    var m := NewMission(db, u, draft.scope, draft.name, text, now);
    LaunchKeepsQueue(db, u, m);
  }

  lemma LaunchKeepsQueue(db: Db, u: UserId, m: Mission)
    ensures Launch(db, u, m).recent == db.recent
  {
    if NeedsApproval(db, u, m.scope) {
      PromptFrame(db, SortedSeq(db.centurions), m.id, ApprovalRequest(m.id));
    } else {
      DistributeFrame(db, m.id, Targets(m.scope));
    }
  }

  /**
   * A mission held for approval is put before every centurion who can be
   * reached; any other goes to every reachable member of its target units.
   */
  lemma LaunchNotifies(db: Db, u: UserId, m: Mission)
    ensures NeedsApproval(db, u, m.scope) ==>
      forall c :: c in db.centurions && c !in db.blocked ==> Sent(c, ApprovalRequest(m.id)) in Launch(db, u, m).outbox
    ensures !NeedsApproval(db, u, m.scope) ==>
      forall t, x :: t in Targets(m.scope) && x in Members(db, t) && x !in db.blocked ==>
        Sent(x, MissionOrder(m.id)) in Launch(db, u, m).outbox
  {
    if NeedsApproval(db, u, m.scope) {
      var cs := SortedSeq(db.centurions);
      PromptFrame(db, cs, m.id, ApprovalRequest(m.id));
      forall c | c in db.centurions && c !in db.blocked
        ensures Sent(c, ApprovalRequest(m.id)) in Prompt(db, cs, m.id, ApprovalRequest(m.id)).outbox
      {
        ReachedContains(cs, db.blocked, ApprovalRequest(m.id), c);
      }
    } else {
      forall t, x | t in Targets(m.scope) && x in Members(db, t) && x !in db.blocked
        ensures Sent(x, MissionOrder(m.id)) in Distribute(db, m.id, Targets(m.scope)).outbox
      {
        DistributeReaches(db, m.id, Targets(m.scope), t, x);
      }
    }
  }

  // ---------------------------------------------------------------------------
  // Approval
  // ---------------------------------------------------------------------------

  /** An `approve_mission:<id>` press (no role check in the bot). */
  function ApprovePress(db: Db, u: UserId, id: MissionId, now: Time): Db {
    if id !in db.archive then Answer(db, u, MissionNotFound)
    else
      var m := db.archive[id];
      if m.status != Pending then Answer(db, u, AlreadyProcessed)
      else
        var approved := m.(status := Active, approvedBy := Some(u), approvedAt := Some(now));
        var d := Distribute(db.(archive := db.archive[id := approved]), id, Targets(m.scope));
        Answer(Notify(d, m.creator, MissionApproved(id)), u, ApprovedAck)
  }

  /** A `reject_mission:<id>` press (no role check in the bot). */
  function RejectPress(db: Db, u: UserId, id: MissionId, now: Time): Db {
    if id !in db.archive then Answer(db, u, MissionNotFound)
    else
      var m := db.archive[id];
      if m.status != Pending then Answer(db, u, AlreadyProcessed)
      else
        var rejected := m.(status := Rejected, rejectedBy := Some(u), rejectedAt := Some(now));
        Answer(Notify(db.(archive := db.archive[id := rejected]), m.creator, MissionRejected(id)), u, RejectedAck)
  }

  /** Approving or rejecting a mission that is not Pending only answers "already processed". */
  lemma DecidedMissionUntouched(db: Db, u: UserId, id: MissionId, now: Time)
    requires id in db.archive && db.archive[id].status != Pending
    ensures ApprovePress(db, u, id, now) == Answer(db, u, AlreadyProcessed)
    ensures RejectPress(db, u, id, now) == Answer(db, u, AlreadyProcessed)
  {
  }

  /**
   * Approving a Pending mission makes it Active with approver and time, sends
   * it to its target units and tells the creator; any later approve or reject
   * is "already processed".
   */
  lemma ApproveSettles(db: Db, u: UserId, v: UserId, id: MissionId, now: Time, later: Time)
    requires id in db.archive && db.archive[id].status == Pending
    ensures var m := db.archive[id];
      var r := ApprovePress(db, u, id, now);
      && id in r.archive
      && r.archive[id].(completedBy := m.completedBy) == m.(status := Active, approvedBy := Some(u), approvedAt := Some(now))
      && (forall t, x :: t in Targets(m.scope) && x in Members(db, t) && x !in db.blocked ==>
            Sent(x, MissionOrder(id)) in r.outbox)
      && (m.creator !in db.blocked ==> Sent(m.creator, MissionApproved(id)) in r.outbox)
      && ApprovePress(r, v, id, later) == Answer(r, v, AlreadyProcessed)
      && RejectPress(r, v, id, later) == Answer(r, v, AlreadyProcessed)
  {
    var m := db.archive[id];
    var approved := m.(status := Active, approvedBy := Some(u), approvedAt := Some(now));
    var db1 := db.(archive := db.archive[id := approved]);
    assert forall t :: Members(db1, t) == Members(db, t);
    DistributeFrame(db1, id, Targets(m.scope));
    var d := Distribute(db1, id, Targets(m.scope));
    forall t, x | t in Targets(m.scope) && x in Members(db, t) && x !in db.blocked
      ensures Sent(x, MissionOrder(id)) in d.outbox
    {
      DistributeReaches(db1, id, Targets(m.scope), t, x);
    }
    var n := Notify(d, m.creator, MissionApproved(id));
    if m.creator in d.blocked {
      DeregisterKeepsMissions(d, m.creator);
      MissionsKeptTrans(db1, d, n);
    }
  }

  /** Rejecting a Pending mission makes it Rejected with rejecter and time and tells the creator; it is never distributed. */
  lemma RejectSettles(db: Db, u: UserId, id: MissionId, now: Time)
    requires id in db.archive && db.archive[id].status == Pending
    ensures var m := db.archive[id];
      var r := RejectPress(db, u, id, now);
      && id in r.archive
      && r.archive[id].(completedBy := m.completedBy) == m.(status := Rejected, rejectedBy := Some(u), rejectedAt := Some(now))
      && (forall x :: Sent(x, MissionOrder(id)) in r.outbox ==> Sent(x, MissionOrder(id)) in db.outbox)
      && r.archive[id].status == Rejected
  {
    var m := db.archive[id];
    var db1 := db.(archive := db.archive[id := m.(status := Rejected, rejectedBy := Some(u), rejectedAt := Some(now))]);
    NotifyStep(db1, m.creator, MissionRejected(id));
  }

  /** A rejected mission stays rejected: later presses of either button only answer "already processed". */
  lemma RejectIsFinal(db: Db, u: UserId, v: UserId, id: MissionId, now: Time, later: Time)
    requires id in db.archive && db.archive[id].status == Pending
    ensures var r := RejectPress(db, u, id, now);
      && ApprovePress(r, v, id, later) == Answer(r, v, AlreadyProcessed)
      && RejectPress(r, v, id, later) == Answer(r, v, AlreadyProcessed)
  {
    RejectSettles(db, u, id, now);
    DecidedMissionUntouched(RejectPress(db, u, id, now), v, id, later);
  }

  // ---------------------------------------------------------------------------
  // Completion
  // ---------------------------------------------------------------------------

  /** The number of completions that triggers the announcement: the sum of the target units' sizes. */
  function QuorumTotal(db: Db, scope: string): nat {
    SizeSum(db, Targets(scope))
  }

  function SizeSum(db: Db, ts: seq<UnitType>): nat
    decreases |ts|
  {
    if ts == [] then 0 else |Members(db, ts[0])| + SizeSum(db, ts[1..])
  }

  /**
   * A `complete_mission:<id>` press: refused for a missing or inactive
   * mission or a repeated report; otherwise the member is added to
   * `completed_by`, and when the count reaches the quorum total everybody
   * listed is told the mission is accomplished.
   */
  function CompletePress(db: Db, u: UserId, id: MissionId): Db {
    if id !in db.archive then Answer(db, u, MissionNotFound)
    else
      var m := db.archive[id];
      if m.status != Active then Answer(db, u, MissionInactive)
      else if u in m.completedBy then Answer(db, u, AlreadyMarked)
      else
        var marked := m.(completedBy := m.completedBy + {u});
        var d := db.(archive := db.archive[id := marked]);
        var announced :=
          if |marked.completedBy| == QuorumTotal(d, m.scope)
          then Deliver(d, SortedSeq(marked.completedBy), MissionAccomplished(id))
          else d;
        Answer(announced, u, CompletionAccepted)
  }

  /** Refused reports change nothing but the answer. */
  lemma CompleteRefusals(db: Db, u: UserId, id: MissionId)
    ensures id !in db.archive ==> CompletePress(db, u, id) == Answer(db, u, MissionNotFound)
    ensures id in db.archive && db.archive[id].status != Active ==> CompletePress(db, u, id) == Answer(db, u, MissionInactive)
    ensures id in db.archive && db.archive[id].status == Active && u in db.archive[id].completedBy ==>
      CompletePress(db, u, id) == Answer(db, u, AlreadyMarked)
  {
  }

  /**
   * An accepted report adds exactly the reporter to `completed_by` (less any
   * recipients of the announcement who have blocked the bot), leaves the
   * mission Active, and announces exactly when the new count equals the sum
   * of the target units' sizes.
   */
  lemma CompleteAccepted(db: Db, u: UserId, id: MissionId)
    requires id in db.archive && db.archive[id].status == Active && u !in db.archive[id].completedBy
    ensures var m := db.archive[id];
      var marked := m.completedBy + {u};
      var quorum := |marked| == QuorumTotal(db, m.scope);
      var r := CompletePress(db, u, id);
      && id in r.archive && r.archive[id].status == Active
      && r.archive[id].completedBy == (if quorum then marked - Refusers(SortedSeq(marked), db.blocked) else marked)
      && (quorum ==> forall x :: x in marked && x !in db.blocked ==> Sent(x, MissionAccomplished(id)) in r.outbox)
      && (!quorum ==> r.outbox == db.outbox + [Answered(u, CompletionAccepted)])
  {
    var m := db.archive[id];
    var marked := m.completedBy + {u};
    var d := db.(archive := db.archive[id := m.(completedBy := marked)]);
    assert QuorumTotal(d, m.scope) == QuorumTotal(db, m.scope) by {
      assert forall t :: Members(d, t) == Members(db, t);
      SizeSumSame(db, d, Targets(m.scope));
    }
    if |marked| == QuorumTotal(db, m.scope) {
      var rs := SortedSeq(marked);
      DeliverEffect(d, rs, MissionAccomplished(id));
      DeliverPurges(d, rs, MissionAccomplished(id));
      DeliverKeepsMissions(d, rs, MissionAccomplished(id));
      DeliverCompletions(d, rs, MissionAccomplished(id), id);
      forall x | x in marked && x !in db.blocked
        ensures Sent(x, MissionAccomplished(id)) in Deliver(d, rs, MissionAccomplished(id)).outbox
      {
        ReachedContains(rs, db.blocked, MissionAccomplished(id), x);
      }
    }
  }

  /** What a fan-out does to one mission's completion list: the refusers leave it. */
  lemma {:induction false} DeliverCompletions(db: Db, rs: seq<UserId>, note: Note, id: MissionId)
    requires id in db.archive
    ensures var r := Deliver(db, rs, note);
      id in r.archive && r.archive[id].completedBy == db.archive[id].completedBy - Refusers(rs, db.blocked)
    decreases |rs|
  {
    if rs != [] {
      var init := rs[..|rs| - 1];
      DeliverCompletions(db, init, note, id);
      DeliverEffect(db, init, note);
      NotifyStep(Deliver(db, init, note), rs[|rs| - 1], note);
      RefusersSnoc(rs, db.blocked);
    }
  }

  lemma {:induction false} SizeSumSame(a: Db, b: Db, ts: seq<UnitType>)
    requires forall t :: Members(a, t) == Members(b, t)
    ensures SizeSum(a, ts) == SizeSum(b, ts)
    decreases |ts|
  {
    if ts != [] {
      SizeSumSame(a, b, ts[1..]);
    }
  }

  /**
   * The quorum counts a member of two target units twice: with one user who
   * is both decurion and centurion, a "decurions" mission that user completed
   * has one completion but a quorum total of two, so it is never announced.
   */
  lemma QuorumCountsOverlapTwice(db: Db, x: UserId, id: MissionId)
    requires db.decurions == {x} && db.centurions == {x}
    requires id in db.archive && db.archive[id].status == Active
    requires db.archive[id].scope == "decurions" && db.archive[id].completedBy == {}
    ensures QuorumTotal(db, "decurions") == 2
    ensures var r := CompletePress(db, x, id);
      r.outbox == db.outbox + [Answered(x, CompletionAccepted)]
  {
    assert Targets("decurions") == [Decurions, Centurions];
    assert SizeSum(db, [Decurions, Centurions]) == 1 + SizeSum(db, [Centurions]);
    assert SizeSum(db, [Centurions]) == 1 + SizeSum(db, []);
    CompleteAccepted(db, x, id);
  }

  // ---------------------------------------------------------------------------
  // Closing by a commander
  // ---------------------------------------------------------------------------

  /** Marks the mission Completed and tells everybody who reported completion. */
  function FinishMission(db: Db, id: MissionId, now: Time): Db
    requires id in db.archive
  {
    var m := db.archive[id];
    var d := db.(archive := db.archive[id := m.(status := Completed, completedAt := Some(now))]);
    Deliver(d, SortedSeq(m.completedBy), MissionClosed(id))
  }

  /** A `finish_mission:<id>` press. */
  function FinishPress(db: Db, u: UserId, id: MissionId, now: Time): Db {
    if !IsCommander(db, u) then Answer(db, u, Forbidden)
    else if id !in db.archive then Answer(db, u, MissionNotFound)
    else if db.archive[id].status == Completed then Answer(db, u, AlreadyCompleted)
    else Answer(FinishMission(db, id, now), u, MissionFinished)
  }

  /** `/finish_mission <id>`: the same, after asking for the id when it is missing. */
  function FinishCommand(db: Db, u: UserId, args: Option<string>, now: Time): Db {
    if !IsCommander(db, u) then Answer(db, u, Forbidden)
    else if args.None? || args.value == "" then Answer(db, u, FinishUsage)
    else
      var id := Strip(args.value);
      if id !in db.archive then Answer(db, u, MissionNotFound)
      else if db.archive[id].status == Completed then Answer(db, u, AlreadyCompleted)
      else Answer(FinishMission(db, id, now), u, MissionFinished)
  }

  /**
   * Only commanders may close a mission; closing a Completed one only
   * answers; from any other status (Pending and Rejected included) it
   * becomes Completed with its completion time.
   */
  lemma FinishEffect(db: Db, u: UserId, id: MissionId, now: Time)
    ensures !IsCommander(db, u) ==> FinishPress(db, u, id, now) == Answer(db, u, Forbidden)
    ensures IsCommander(db, u) && id in db.archive && db.archive[id].status == Completed ==>
      FinishPress(db, u, id, now) == Answer(db, u, AlreadyCompleted)
    ensures IsCommander(db, u) && id in db.archive && db.archive[id].status != Completed ==>
      var r := FinishPress(db, u, id, now);
      && id in r.archive && r.archive[id].status == Completed && r.archive[id].completedAt == Some(now)
      && (forall x :: x in db.archive[id].completedBy && x !in db.blocked ==> Sent(x, MissionClosed(id)) in r.outbox)
  {
    if IsCommander(db, u) && id in db.archive && db.archive[id].status != Completed {
      var m := db.archive[id];
      var d := db.(archive := db.archive[id := m.(status := Completed, completedAt := Some(now))]);
      var rs := SortedSeq(m.completedBy);
      DeliverKeepsMissions(d, rs, MissionClosed(id));
      DeliverEffect(d, rs, MissionClosed(id));
      DeliverPurges(d, rs, MissionClosed(id));
      forall x | x in m.completedBy && x !in db.blocked
        ensures Sent(x, MissionClosed(id)) in Deliver(d, rs, MissionClosed(id)).outbox
      {
        ReachedContains(rs, db.blocked, MissionClosed(id), x);
      }
    }
  }

  /** `/finish_mission <id>` does what the button does for the stripped id. */
  lemma FinishCommandAgrees(db: Db, u: UserId, arg: string, now: Time)
    requires arg != ""
    ensures FinishCommand(db, u, Some(arg), now) == FinishPress(db, u, Strip(arg), now)
  {
  }

  /** The "Create Mission" button refuses whoever may not create even a mission for the privates. */
  lemma CreateMissionRefused(db: Db, u: UserId, now: Time)
    requires !MayCreate(db, u, "privates")
    ensures CreateMissionButton(db, u, now).outbox == db.outbox + [Answered(u, Forbidden)]
  {
  }

  /** Anybody else gets the type menu, with every scope exactly when they may create missions for all units. */
  lemma CreateMissionOffers(db: Db, u: UserId, now: Time)
    requires MayCreate(db, u, "privates")
    ensures var r := CreateMissionButton(db, u, now);
      && r.outbox == db.outbox + [Answered(u, MissionTypeMenu(MayCreate(db, u, "all")))]
      && u in r.activity && r.activity[u] == now
  {
  }

  /**
   * A type press starts a draft of that scope awaiting its name, replacing any
   * earlier draft of the user, and prompts for the name; nothing else changes.
   */
  lemma MissionTypeDrafts(db: Db, u: UserId, scope: string)
    ensures var r := MissionTypePress(db, u, scope);
      && u in r.tempMissions && r.tempMissions[u] == AwaitingName(scope)
      && r.outbox == db.outbox + [Answered(u, MissionNamePrompt(scope))]
      && r == db.(tempMissions := r.tempMissions, outbox := r.outbox)
    ensures var r := MissionTypePress(db, u, scope);
      forall v :: v != u ==> (v in r.tempMissions <==> v in db.tempMissions)
    ensures var r := MissionTypePress(db, u, scope);
      forall v :: v != u && v in db.tempMissions ==> r.tempMissions[v] == db.tempMissions[v]
  {
  }

  /** The scope chosen by the press is the scope of the draft a fitting name moves on to its content. */
  lemma MissionTypeCarriesScope(db: Db, u: UserId, scope: string, text: string)
    requires |Strip(text)| <= MaxMissionNameLength
    ensures var r := MissionNameInput(MissionTypePress(db, u, scope), u, text);
      u in r.tempMissions && r.tempMissions[u] == AwaitingContent(scope, Strip(text))
  {
  }

  /**
   * A name that fits moves the draft on to its content, stripped; a longer
   * one only answers, and the draft waits for another try.
   */
  lemma MissionNameSteps(db: Db, u: UserId, text: string)
    requires u in db.tempMissions && db.tempMissions[u].AwaitingName?
    ensures |Strip(text)| > MaxMissionNameLength ==> MissionNameInput(db, u, text) == Answer(db, u, MissionNameTooLong)
    ensures |Strip(text)| <= MaxMissionNameLength ==>
      var r := MissionNameInput(db, u, text);
      && r.tempMissions == db.tempMissions[u := AwaitingContent(db.tempMissions[u].scope, Strip(text))]
      && r.outbox == db.outbox + [Answered(u, MissionContentPrompt(Strip(text)))]
      && |r.tempMissions[u].name| <= MaxMissionNameLength
  {
  }

  // ---------------------------------------------------------------------------
  // The store stays well formed
  // ---------------------------------------------------------------------------

  lemma LaunchPreservesWf(db: Db, u: UserId, m: Mission)
    requires Wf(db)
    ensures Wf(Launch(db, u, m))
  {
    if NeedsApproval(db, u, m.scope) {
      PromptPreservesWf(db, SortedSeq(db.centurions), m.id, ApprovalRequest(m.id));
    } else {
      DistributePreservesWf(db, m.id, Targets(m.scope));
    }
  }

  lemma ContentPreservesWf(db: Db, u: UserId, text: string, now: Time)
    requires Wf(db) && u in db.tempMissions && db.tempMissions[u].AwaitingContent?
    ensures Wf(MissionContentInput(db, u, text, now))
  {
    var draft := db.tempMissions[u];
    if MayCreate(db, u, draft.scope) {
      var m := NewMission(db, u, draft.scope, draft.name, text, now);
      LaunchPreservesWf(db, u, m);
    }
  }

  lemma ApprovePreservesWf(db: Db, u: UserId, id: MissionId, now: Time)
    requires Wf(db)
    ensures Wf(ApprovePress(db, u, id, now))
  {
    if id in db.archive && db.archive[id].status == Pending {
      var m := db.archive[id];
      var db1 := db.(archive := db.archive[id := m.(status := Active, approvedBy := Some(u), approvedAt := Some(now))]);
      DistributePreservesWf(db1, id, Targets(m.scope));
      var d := Distribute(db1, id, Targets(m.scope));
      SendsPreserveWf(d, m.creator, MissionApproved(id), ApprovedAck);
      SendsPreserveWf(Notify(d, m.creator, MissionApproved(id)), u, MissionApproved(id), ApprovedAck);
    }
  }

  lemma RejectPreservesWf(db: Db, u: UserId, id: MissionId, now: Time)
    requires Wf(db)
    ensures Wf(RejectPress(db, u, id, now))
  {
    if id in db.archive && db.archive[id].status == Pending {
      var m := db.archive[id];
      var d := db.(archive := db.archive[id := m.(status := Rejected, rejectedBy := Some(u), rejectedAt := Some(now))]);
      SendsPreserveWf(d, m.creator, MissionRejected(id), RejectedAck);
      SendsPreserveWf(Notify(d, m.creator, MissionRejected(id)), u, MissionRejected(id), RejectedAck);
    }
  }

  lemma CompletePreservesWf(db: Db, u: UserId, id: MissionId)
    requires Wf(db)
    ensures Wf(CompletePress(db, u, id))
  {
    AnswersPreserveWf(db);
    if id in db.archive && db.archive[id].status == Active && u !in db.archive[id].completedBy {
      var m := db.archive[id];
      var marked := m.(completedBy := m.completedBy + {u});
      var d := db.(archive := db.archive[id := marked]);
      assert Wf(d);
      var rs := SortedSeq(marked.completedBy);
      DeliverPreservesWf(d, rs, MissionAccomplished(id));
      AnswersPreserveWf(d);
      AnswersPreserveWf(Deliver(d, rs, MissionAccomplished(id)));
    }
  }

  lemma FinishPreservesWf(db: Db, u: UserId, id: MissionId, now: Time)
    requires Wf(db)
    ensures Wf(FinishPress(db, u, id, now))
  {
    AnswersPreserveWf(db);
    if id in db.archive {
      FinishMissionPreservesWf(db, id, now);
      AnswersPreserveWf(FinishMission(db, id, now));
    }
  }

  lemma FinishCommandPreservesWf(db: Db, u: UserId, args: Option<string>, now: Time)
    requires Wf(db)
    ensures Wf(FinishCommand(db, u, args, now))
  {
    AnswersPreserveWf(db);
    if args.Some? && Strip(args.value) in db.archive {
      FinishMissionPreservesWf(db, Strip(args.value), now);
      AnswersPreserveWf(FinishMission(db, Strip(args.value), now));
    }
  }

  lemma FinishMissionPreservesWf(db: Db, id: MissionId, now: Time)
    requires Wf(db) && id in db.archive
    ensures Wf(FinishMission(db, id, now))
  {
    var m := db.archive[id];
    var d := db.(archive := db.archive[id := m.(status := Completed, completedAt := Some(now))]);
    DeliverPreservesWf(d, SortedSeq(m.completedBy), MissionClosed(id));
  }

  lemma DraftingPreservesWf(db: Db, u: UserId, text: string, now: Time)
    requires Wf(db)
    ensures Wf(CreateMissionButton(db, u, now))
    ensures Wf(MissionTypePress(db, u, text))
  {
    AnswersPreserveWf(db);
    AnswersPreserveWf(Touch(db, u, now));
    AnswersPreserveWf(db.(tempMissions := db.tempMissions[u := AwaitingName(text)]));
  }

  lemma NamePreservesWf(db: Db, u: UserId, text: string)
    requires Wf(db) && u in db.tempMissions && db.tempMissions[u].AwaitingName?
    ensures Wf(MissionNameInput(db, u, text))
  {
    AnswersPreserveWf(db);
    AnswersPreserveWf(db.(tempMissions := db.tempMissions[u := AwaitingContent(db.tempMissions[u].scope, Strip(text))]));
  }
}
