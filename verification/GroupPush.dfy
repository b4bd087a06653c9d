/**
 * Pushing group operations: idempotent creation of expenses and settlements, pushed
 * changes with receipts, and the change feed.
 *
 * A create is committed before its feed entry is, so a crash between the two commits
 * leaves a resource without an entry until the client retries.  Each commit is one step;
 * any number of requests may be in progress and any of them may crash, before or after the
 * first commit (a failed cache invalidation ends a request like a crash does).  Every request
 * needs an active membership of its author, which may end between two attempts.  Request
 * hashes are injective, so a stored hash stands for the request body itself.
 */
module GroupPush {
  import opened Basics

  type GroupId = nat
  type RecordId = nat
  type Body = nat
  type RequestId = nat
  type ResourceId = nat

  datatype Kind = ExpenseCreate | SettlementCreate | ExpenseUpdate | ExpenseDelete {
    predicate Creates() {
      ExpenseCreate? || SettlementCreate?
    }
  }

  /** `record` is the client's record id, which the push also requires as idempotency key. */
  datatype Request = Request(kind: Kind, group: GroupId, actor: UserId, record: RecordId, body: Body)

  /** The scope of an idempotency record. */
  datatype Key = Key(kind: Kind, group: GroupId, actor: UserId, record: RecordId)

  function KeyOf(q: Request): Key {
    Key(q.kind, q.group, q.actor, q.record)
  }

  datatype IdempotencyRecord = IdempotencyRecord(body: Body, resource: ResourceId)

  /** An expense or a settlement, with the request that made it. */
  datatype Resource = Resource(key: Key, body: Body, deleted: bool)

  datatype Receipt = Receipt(group: GroupId, kind: Kind, body: Body)

  datatype FeedEntry =
    FeedEntry(group: GroupId, actor: UserId, record: RecordId, kind: Kind, resource: Option<ResourceId>)

  /** `members` holds the active memberships, `applied` the history of pushed changes that took effect. */
  datatype Database = Database(
    members: set<(GroupId, UserId)>,
    resources: seq<Resource>,
    records: map<Key, IdempotencyRecord>,
    receipts: map<(UserId, RecordId), Receipt>,
    feed: seq<FeedEntry>,
    applied: seq<Request>)

  // ---------- the commits ----------

  datatype CreateResult =
    | Made(resource: ResourceId, replayed: bool)
    | NotMember | IdempotencyConflict | Unavailable | Rejected

  /** Every route asks for an active membership first, even to replay.  `valid` tells whether the service
      accepts the body; a rejected request rolls back its reservation. */
  function CreateOutcome(db: Database, q: Request, valid: bool): CreateResult {
    if (q.group, q.actor) !in db.members then NotMember
    else if KeyOf(q) in db.records then
      var record := db.records[KeyOf(q)];
      if record.body != q.body then IdempotencyConflict
      else if record.resource < |db.resources| && !db.resources[record.resource].deleted
          then Made(record.resource, true)
      else Unavailable
    else if !valid then Rejected
    else Made(|db.resources|, false)
  }

  function AfterCreate(db: Database, q: Request, valid: bool): Database {
    if CreateOutcome(db, q, valid) == Made(|db.resources|, false) then
      db.(resources := db.resources + [Resource(KeyOf(q), q.body, false)],
          records := db.records[KeyOf(q) := IdempotencyRecord(q.body, |db.resources|)])
    else db
  }

  predicate HasEntry(feed: seq<FeedEntry>, actor: UserId, record: RecordId) {
    exists i :: 0 <= i < |feed| && feed[i].actor == actor && feed[i].record == record
  }

  function AfterAppend(db: Database, q: Request, resource: Option<ResourceId>): Database {
    if HasEntry(db.feed, q.actor, q.record) then db
    else db.(feed := db.feed + [FeedEntry(q.group, q.actor, q.record, q.kind, resource)])
  }

  datatype MutationResult = Applied | Replayed | Outsider | ReceiptConflict | NotApplied

  function MutationOutcome(db: Database, q: Request, valid: bool): MutationResult {
    if (q.group, q.actor) !in db.members then Outsider
    else if (q.actor, q.record) in db.receipts then
      if db.receipts[(q.actor, q.record)] == Receipt(q.group, q.kind, q.body) then Replayed else ReceiptConflict
    else if valid then Applied
    else NotApplied
  }

  /** The change, its receipt and its feed entry are one commit. */
  function AfterMutation(db: Database, q: Request, valid: bool): Database {
    if MutationOutcome(db, q, valid) == Applied then
      AfterAppend(db.(applied := db.applied + [q],
                      receipts := db.receipts[(q.actor, q.record) := Receipt(q.group, q.kind, q.body)]),
                  q, None)
    else db
  }

  // ---------- requests in progress ----------

  datatype Progress =
    | Received(request: Request)
    | Created(request: Request, resource: ResourceId, replayed: bool)
    | Answered(request: Request, duplicate: bool)
    | Refused(request: Request)
    | Crashed(request: Request)

  /** `arrived` is the history of all requests. */
  datatype State = State(db: Database, progress: map<RequestId, Progress>, arrived: set<Request>)

  datatype Event =
    | Arrive(id: RequestId, request: Request)
    | Create(id: RequestId, valid: bool)
    | Append(id: RequestId)
    | Mutate(id: RequestId, valid: bool)
    | Crash(id: RequestId)
    // Some accepted delete soft-deletes an expense.
    | SoftDelete(resource: ResourceId)
    | Join(group: GroupId, user: UserId)
    | Leave(group: GroupId, user: UserId)
  {
    predicate HandlesRequest() {
      !SoftDelete? && !Join? && !Leave?
    }
  }

  predicate Enabled(s: State, event: Event) {
    match event
    case Arrive(id, _) => id !in s.progress
    case Create(id, _) => id in s.progress && s.progress[id].Received? && s.progress[id].request.kind.Creates()
    case Append(id) => id in s.progress && s.progress[id].Created?
    case Mutate(id, _) => id in s.progress && s.progress[id].Received? && !s.progress[id].request.kind.Creates()
    case Crash(id) => id in s.progress && (s.progress[id].Received? || s.progress[id].Created?)
    case SoftDelete(i) => i < |s.db.resources| && s.db.resources[i].key.kind.ExpenseCreate?
    case Join(_, _) => true
    case Leave(_, _) => true
  }

  function Step(s: State, event: Event): State
    requires Enabled(s, event)
  {
    match event
    case Arrive(id, q) =>
      s.(progress := s.progress[id := Received(q)], arrived := s.arrived + {q})
    case Create(id, valid) =>
      var q := s.progress[id].request;
      s.(db := AfterCreate(s.db, q, valid),
         progress := s.progress[id := match CreateOutcome(s.db, q, valid)
                                      case Made(i, replayed) => Created(q, i, replayed)
                                      case _ => Refused(q)])
    case Append(id) =>
      var p := s.progress[id];
      s.(db := AfterAppend(s.db, p.request, Some(p.resource)),
         progress := s.progress[id := Answered(p.request, p.replayed)])
    case Mutate(id, valid) =>
      var q := s.progress[id].request;
      s.(db := AfterMutation(s.db, q, valid),
         progress := s.progress[id := match MutationOutcome(s.db, q, valid)
                                      case Applied => Answered(q, false)
                                      case Replayed => Answered(q, true)
                                      case _ => Refused(q)])
    case Crash(id) =>
      s.(progress := s.progress[id := Crashed(s.progress[id].request)])
    case SoftDelete(i) =>
      s.(db := s.db.(resources := s.db.resources[i := s.db.resources[i].(deleted := true)]))
    case Join(group, user) => s.(db := s.db.(members := s.db.members + {(group, user)}))
    case Leave(group, user) => s.(db := s.db.(members := s.db.members - {(group, user)}))
  }

  const INITIAL := State(Database({}, [], map[], map[], [], []), map[], {})

  ghost predicate IsRun(states: seq<State>, events: seq<Event>) {
    && |states| == |events| + 1
    && states[0] == INITIAL
    && forall i | 0 <= i < |events| :: Enabled(states[i], events[i]) && states[i + 1] == Step(states[i], events[i])
  }

  // ---------- the invariant ----------

  /** Idempotency records and resources are in one-to-one correspondence. */
  ghost predicate RecordsMatch(db: Database) {
    && (forall k | k in db.records ::
          && db.records[k].resource < |db.resources|
          && db.resources[db.records[k].resource].key == k
          && db.resources[db.records[k].resource].body == db.records[k].body)
    && forall i | 0 <= i < |db.resources| ::
       db.resources[i].key in db.records && db.records[db.resources[i].key].resource == i
  }

  ghost predicate FeedOk(db: Database, arrived: set<Request>) {
    && OneEntryEach(db.feed)
    && (forall i | 0 <= i < |db.feed| :: EntryOk(db, db.feed[i], arrived))
  }

  ghost predicate EntryOk(db: Database, e: FeedEntry, arrived: set<Request>) {
    && (exists q ::
        q in arrived && q.kind == e.kind && q.group == e.group && q.actor == e.actor && q.record == e.record)
    && (e.kind.Creates() ==>
          && e.resource.Some? && e.resource.value < |db.resources|
          && db.resources[e.resource.value].key == Key(e.kind, e.group, e.actor, e.record))
  }

  ghost predicate ReceiptsMatch(db: Database) {
    AppliedOnce(db.applied) && AppliedHasReceipts(db.applied, db.receipts)
        && ReceiptsShown(db.applied, db.receipts, db.feed)
  }

  ghost predicate ProgressOk(db: Database, p: Progress, arrived: set<Request>) {
    && p.request in arrived
    && match p
       case Created(q, i, _) => q.kind.Creates() && HasResource(db, q, i)
       case Answered(q, _) =>
         && HasEntry(db.feed, q.actor, q.record)
         && (if q.kind.Creates() then exists i :: HasResource(db, q, i)
             else
               && (q.actor, q.record) in db.receipts
               && db.receipts[(q.actor, q.record)] == Receipt(q.group, q.kind, q.body))
       case _ => true
  }

  ghost predicate HasResource(db: Database, q: Request, i: nat) {
    i < |db.resources| && db.resources[i].key == KeyOf(q) && db.resources[i].body == q.body
  }

  ghost predicate TablesOk(db: Database, arrived: set<Request>) {
    RecordsMatch(db) && FeedOk(db, arrived) && ReceiptsMatch(db)
  }

  ghost predicate Inv(s: State) {
    && TablesOk(s.db, s.arrived)
    && forall id | id in s.progress :: ProgressOk(s.db, s.progress[id], s.arrived)
  }

  /** What every commit leaves in place. */
  ghost predicate Extends(a: Database, b: Database) {
    && |a.resources| <= |b.resources|
    && (forall i | 0 <= i < |a.resources| ::
        b.resources[i].key == a.resources[i].key && b.resources[i].body == a.resources[i].body)
    && a.feed <= b.feed
    && (forall k | k in a.receipts :: k in b.receipts && b.receipts[k] == a.receipts[k])
  }

  lemma ExtendsKeepsProgress(a: Database, b: Database, p: Progress, arrived: set<Request>, more: set<Request>)
    requires Extends(a, b) && ProgressOk(a, p, arrived) && arrived <= more
    ensures ProgressOk(b, p, more)
  {
    if p.Answered? {
      FeedKeepsEntry(a.feed, b.feed, p.request.actor, p.request.record);
      if p.request.kind.Creates() {
        var i: nat :| HasResource(a, p.request, i);
        assert HasResource(b, p.request, i);
      }
    }
  }

  lemma FeedKeepsEntry(before: seq<FeedEntry>, after: seq<FeedEntry>, actor: UserId, record: RecordId)
    requires before <= after && HasEntry(before, actor, record)
    ensures HasEntry(after, actor, record)
  {
    var i :| 0 <= i < |before| && before[i].actor == actor && before[i].record == record;
    assert after[i] == before[i];
  }

  lemma AppendKeeps(db: Database, q: Request, resource: Option<ResourceId>, arrived: set<Request>)
    requires FeedOk(db, arrived) && q in arrived
    requires q.kind.Creates() ==> resource.Some? && HasResource(db, q, resource.value)
    ensures var after := AfterAppend(db, q, resource);
            FeedOk(after, arrived) && Extends(db, after) && HasEntry(after.feed, q.actor, q.record)
  {
    var after := AfterAppend(db, q, resource);
    if !HasEntry(db.feed, q.actor, q.record) {
      assert after.feed[|db.feed|] == FeedEntry(q.group, q.actor, q.record, q.kind, resource);
      assert EntryOk(after, after.feed[|db.feed|], arrived);
      forall i | 0 <= i < |db.feed| ensures EntryOk(after, after.feed[i], arrived) {
        assert EntryOk(db, db.feed[i], arrived);
      }
    }
  }

  lemma CreateKeeps(db: Database, q: Request, valid: bool, arrived: set<Request>)
    requires TablesOk(db, arrived)
    ensures var after := AfterCreate(db, q, valid);
            TablesOk(after, arrived) && Extends(db, after)
    ensures match CreateOutcome(db, q, valid)
            case Made(i, _) => HasResource(AfterCreate(db, q, valid), q, i)
            case _ => AfterCreate(db, q, valid) == db
  {
    CreateKeepsRecords(db, q, valid);
    var after := AfterCreate(db, q, valid);
    forall i | 0 <= i < |after.feed| ensures EntryOk(after, after.feed[i], arrived) {
      assert EntryOk(db, db.feed[i], arrived);
    }
  }

  lemma CreateKeepsRecords(db: Database, q: Request, valid: bool)
    requires RecordsMatch(db)
    ensures RecordsMatch(AfterCreate(db, q, valid))
  {
  }

  ghost predicate AppliedOnce(applied: seq<Request>) {
    forall i, j | 0 <= i < j < |applied| ::
        (applied[i].actor, applied[i].record) != (applied[j].actor, applied[j].record)
  }

  ghost predicate AppliedHasReceipts(applied: seq<Request>, receipts: map<(UserId, RecordId), Receipt>) {
    forall i | 0 <= i < |applied| ::
      var q := applied[i];
      (q.actor, q.record) in receipts && receipts[(q.actor, q.record)] == Receipt(q.group, q.kind, q.body)
  }

  ghost predicate WasApplied(applied: seq<Request>, actor: UserId, record: RecordId) {
    exists i :: 0 <= i < |applied| && applied[i].actor == actor && applied[i].record == record
  }

  ghost predicate ReceiptsShown(applied: seq<Request>,
      receipts: map<(UserId, RecordId), Receipt>, feed: seq<FeedEntry>) {
    forall k | k in receipts :: HasEntry(feed, k.0, k.1) && WasApplied(applied, k.0, k.1)
  }

  lemma NewAppliedOnce(applied: seq<Request>, receipts: map<(UserId, RecordId), Receipt>, q: Request)
    requires AppliedOnce(applied) && AppliedHasReceipts(applied, receipts) && (q.actor, q.record) !in receipts
    ensures AppliedOnce(applied + [q])
  {
  }

  lemma NewHasReceipt(applied: seq<Request>, receipts: map<(UserId, RecordId), Receipt>, q: Request)
    requires AppliedHasReceipts(applied, receipts) && (q.actor, q.record) !in receipts
    ensures AppliedHasReceipts(applied + [q], receipts[(q.actor, q.record) := Receipt(q.group, q.kind, q.body)])
  {
  }

  lemma NewReceiptShown(applied: seq<Request>, receipts: map<(UserId, RecordId), Receipt>,
      before: seq<FeedEntry>, feed: seq<FeedEntry>, q: Request)
    requires ReceiptsShown(applied, receipts, before) && before <= feed && HasEntry(feed, q.actor, q.record)
    ensures ReceiptsShown(applied + [q], receipts[(q.actor, q.record) := Receipt(q.group, q.kind, q.body)], feed)
  {
    var after := applied + [q];
    assert after[|applied|] == q;
    forall k | k in receipts ensures HasEntry(feed, k.0, k.1) && WasApplied(after, k.0, k.1) {
      FeedKeepsEntry(before, feed, k.0, k.1);
      var i :| 0 <= i < |applied| && applied[i].actor == k.0 && applied[i].record == k.1;
      assert after[i] == applied[i];
    }
  }

  lemma MutationKeeps(db: Database, q: Request, valid: bool, arrived: set<Request>)
    requires TablesOk(db, arrived) && q in arrived && !q.kind.Creates()
    ensures var after := AfterMutation(db, q, valid);
            TablesOk(after, arrived) && Extends(db, after)
    ensures var outcome, after := MutationOutcome(db, q, valid), AfterMutation(db, q, valid);
            if outcome.Applied? || outcome.Replayed? then
              && HasEntry(after.feed, q.actor, q.record)
              && (q.actor, q.record) in after.receipts
                  && after.receipts[(q.actor, q.record)] == Receipt(q.group, q.kind, q.body)
            else after == db
  {
    if MutationOutcome(db, q, valid).Applied? {
      var middle := db.(applied := db.applied + [q],
                        receipts := db.receipts[(q.actor, q.record) := Receipt(q.group, q.kind, q.body)]);
      forall i | 0 <= i < |middle.feed| ensures EntryOk(middle, middle.feed[i], arrived) {
        assert EntryOk(db, db.feed[i], arrived);
      }
      AppendKeeps(middle, q, None, arrived);
      var after := AfterMutation(db, q, valid);
      NewAppliedOnce(db.applied, db.receipts, q);
      NewHasReceipt(db.applied, db.receipts, q);
      NewReceiptShown(db.applied, db.receipts, db.feed, after.feed, q);
      assert after == db.(applied := middle.applied, feed := after.feed, receipts := middle.receipts);
    }
  }

  lemma SoftDeleteKeeps(db: Database, i: ResourceId, arrived: set<Request>)
    requires TablesOk(db, arrived) && i < |db.resources|
    ensures var after := db.(resources := db.resources[i := db.resources[i].(deleted := true)]);
            TablesOk(after, arrived) && Extends(db, after)
  {
    var after := db.(resources := db.resources[i := db.resources[i].(deleted := true)]);
    forall j | 0 <= j < |after.feed| ensures EntryOk(after, after.feed[j], arrived) {
      assert EntryOk(db, db.feed[j], arrived);
    }
  }

  lemma MembersMayChange(db: Database, members: set<(GroupId, UserId)>, arrived: set<Request>)
    requires TablesOk(db, arrived)
    ensures TablesOk(db.(members := members), arrived) && Extends(db, db.(members := members))
  {
    forall i | 0 <= i < |db.feed| ensures EntryOk(db.(members := members), db.feed[i], arrived) {
      assert EntryOk(db, db.feed[i], arrived);
    }
  }

  lemma ArriveKeeps(db: Database, arrived: set<Request>, more: set<Request>)
    requires FeedOk(db, arrived) && arrived <= more
    ensures FeedOk(db, more)
  {
    forall i | 0 <= i < |db.feed| ensures EntryOk(db, db.feed[i], more) {
      assert EntryOk(db, db.feed[i], arrived);
    }
  }

  lemma AppendStepKeeps(db: Database, q: Request, i: ResourceId, replayed: bool, arrived: set<Request>)
    requires TablesOk(db, arrived) && q in arrived && q.kind.Creates() && HasResource(db, q, i)
    ensures var after := AfterAppend(db, q, Some(i));
            TablesOk(after, arrived) && Extends(db, after) && ProgressOk(after, Answered(q, replayed), arrived)
  {
    AppendKeeps(db, q, Some(i), arrived);
    assert HasResource(AfterAppend(db, q, Some(i)), q, i);
  }

  lemma StepKeepsTables(s: State, event: Event)
    requires TablesOk(s.db, s.arrived) && Enabled(s, event)
    requires forall id | id in s.progress :: ProgressOk(s.db, s.progress[id], s.arrived)
    ensures var t := Step(s, event); TablesOk(t.db, t.arrived) && Extends(s.db, t.db) && s.arrived <= t.arrived
    ensures event.HandlesRequest() ==>
        ProgressOk(Step(s, event).db, Step(s, event).progress[event.id], Step(s, event).arrived)
  {
    match event {
      case Arrive(id, q) => ArriveKeeps(s.db, s.arrived, s.arrived + {q});
      case Create(id, valid) => CreateKeeps(s.db, s.progress[id].request, valid, s.arrived);
      case Append(id) =>
        var p := s.progress[id];
        AppendStepKeeps(s.db, p.request, p.resource, p.replayed, s.arrived);
      case Mutate(id, valid) => MutationKeeps(s.db, s.progress[id].request, valid, s.arrived);
      case Crash(id) =>
      case SoftDelete(i) => SoftDeleteKeeps(s.db, i, s.arrived);
      case Join(group, user) => MembersMayChange(s.db, s.db.members + {(group, user)}, s.arrived);
      case Leave(group, user) => MembersMayChange(s.db, s.db.members - {(group, user)}, s.arrived);
    }
  }

  lemma StepKeepsInv(s: State, event: Event)
    requires Inv(s) && Enabled(s, event)
    ensures Inv(Step(s, event))
  {
    StepKeepsTables(s, event);
    var t := Step(s, event);
    forall id | id in t.progress ensures ProgressOk(t.db, t.progress[id], t.arrived) {
      if !event.HandlesRequest() || id != event.id {
        ExtendsKeepsProgress(s.db, t.db, s.progress[id], s.arrived, t.arrived);
      }
    }
  }

  lemma {:induction false} RunKeepsInv(states: seq<State>, events: seq<Event>, i: nat)
    requires IsRun(states, events) && i < |states|
    ensures Inv(states[i])
  {
    if i > 0 {
      RunKeepsInv(states, events, i - 1);
      StepKeepsInv(states[i - 1], events[i - 1]);
      assert states[i - 1 + 1] == Step(states[i - 1], events[i - 1]);
    }
  }

  // ---------- theorems ----------

  /** The client uses a record id for one operation only; retries may differ in nothing but the body. */
  ghost predicate RecordsNotReused(arrived: set<Request>) {
    forall p, q | p in arrived && q in arrived && p.actor == q.actor && p.record == q.record ::
        p.kind == q.kind && p.group == q.group
  }

  /** Over every run with crashes and retries, a key makes at most one expense or settlement. */
  lemma AtMostOneResource(states: seq<State>, events: seq<Event>, n: nat, i: ResourceId, j: ResourceId)
    requires IsRun(states, events) && n < |states|
    requires i < |states[n].db.resources| && j < |states[n].db.resources|
    requires states[n].db.resources[i].key == states[n].db.resources[j].key
    ensures i == j
  {
    RunKeepsInv(states, events, n);
  }

  /** Over every run, a pushed change takes effect at most once. */
  lemma AtMostOneEffect(states: seq<State>, events: seq<Event>, n: nat, i: nat, j: nat)
    requires IsRun(states, events) && n < |states|
    requires i < |states[n].db.applied| && j < |states[n].db.applied|
    requires states[n].db.applied[i].actor == states[n].db.applied[j].actor
    requires states[n].db.applied[i].record == states[n].db.applied[j].record
    ensures i == j
  {
    RunKeepsInv(states, events, n);
  }

  ghost predicate IsEntryFor(db: Database, k: nat, q: Request) {
    && k < |db.feed| && db.feed[k].actor == q.actor && db.feed[k].record == q.record
  }

  /** Once a create is answered with success, the feed holds exactly one entry for it, showing the resource it made. */
  lemma AnsweredCreateHasOneEntry(states: seq<State>, events: seq<Event>, n: nat, id: RequestId) returns (k: nat)
    requires IsRun(states, events) && n < |states| && RecordsNotReused(states[n].arrived)
    requires id in states[n].progress && states[n].progress[id].Answered?
        && states[n].progress[id].request.kind.Creates()
    ensures var db, q := states[n].db, states[n].progress[id].request;
            && IsEntryFor(db, k, q) && (forall other: nat | IsEntryFor(db, other, q) :: other == k)
            && db.feed[k].kind == q.kind && db.feed[k].group == q.group
            && db.feed[k].resource.Some? && HasResource(db, q, db.feed[k].resource.value)
  {
    RunKeepsInv(states, events, n);
    var db, p := states[n].db, states[n].progress[id];
    var q := p.request;
    assert ProgressOk(db, p, states[n].arrived);
    k :| 0 <= k < |db.feed| && db.feed[k].actor == q.actor && db.feed[k].record == q.record;
    var e := db.feed[k];
    assert EntryOk(db, e, states[n].arrived);
    var source :| source in states[n].arrived && source.kind == e.kind && source.group == e.group
        && source.actor == e.actor && source.record == e.record;
    assert e.kind == q.kind && e.group == q.group;
    var i: nat :| HasResource(db, q, i);
    assert db.records[KeyOf(q)].resource == i;
  }

  lemma RunExtends(states: seq<State>, events: seq<Event>, n: nat)
    requires IsRun(states, events) && n < |events|
    ensures Extends(states[n].db, states[n + 1].db)
  {
    RunKeepsInv(states, events, n);
    assert states[n + 1] == Step(states[n], events[n]);
    StepKeepsTables(states[n], events[n]);
  }

  lemma {:induction false} ResourcesStay(states: seq<State>,
      events: seq<Event>, m: nat, n: nat, q: Request, i: ResourceId)
    requires IsRun(states, events) && m <= n < |states| && HasResource(states[m].db, q, i)
    ensures HasResource(states[n].db, q, i)
    decreases n
  {
    if m < n {
      ResourcesStay(states, events, m, n - 1, q, i);
      RunExtends(states, events, n - 1);
    }
  }

  /** The request that step m committed as resource i, or replayed as it. */
  ghost predicate Makes(states: seq<State>, events: seq<Event>, m: nat, p: Request, i: ResourceId) {
    && IsRun(states, events) && m < |events| && events[m].Create? && states[m].progress[events[m].id].request == p
    && CreateOutcome(states[m].db, p, events[m].valid).Made?
       && CreateOutcome(states[m].db, p, events[m].valid).resource == i
  }

  lemma MadeStays(states: seq<State>, events: seq<Event>, m: nat, n: nat, p: Request, i: ResourceId)
    requires Makes(states, events, m, p, i) && m < n < |states|
    ensures HasResource(states[n].db, p, i) && RecordsMatch(states[n].db)
  {
    RunKeepsInv(states, events, m);
    assert states[m + 1] == Step(states[m], events[m]);
    CreateKeeps(states[m].db, p, events[m].valid, states[m].arrived);
    ResourcesStay(states, events, m + 1, n, p, i);
    RunKeepsInv(states, events, n);
  }

  /**
   * A create that got at least as far as its first commit is retried with the same key at any
   * later state of the run: it makes no second resource, and it succeeds exactly when its
   * author is an active member, it sends the same body and the resource is not deleted.
   */
  lemma RetrySucceedsExactlyWhen(states: seq<State>, events: seq<Event>,
      m: nat, n: nat, p: Request, i: ResourceId, q: Request, valid: bool)
    requires Makes(states, events, m, p, i) && m < n < |states| && KeyOf(q) == KeyOf(p)
    ensures var db := states[n].db;
            && i < |db.resources| && AfterCreate(db, q, valid) == db
            && (CreateOutcome(db, q, valid) == Made(i, true) <==>
                (q.group, q.actor) in db.members && q.body == p.body && !db.resources[i].deleted)
            && (CreateOutcome(db, q, valid).Made? ==> CreateOutcome(db, q, valid) == Made(i, true))
  {
    MadeStays(states, events, m, n, p, i);
    assert states[n].db.records[KeyOf(p)].resource == i;
  }

  /** Over every run, answered creates with one key sent the same body. */
  lemma AnsweredCreatesAgree(states: seq<State>, events: seq<Event>, n: nat, id: RequestId, other: RequestId)
    requires IsRun(states, events) && n < |states| && id in states[n].progress && other in states[n].progress
    requires var p, q := states[n].progress[id], states[n].progress[other];
             p.Answered? && q.Answered? && p.request.kind.Creates() && KeyOf(p.request) == KeyOf(q.request)
    ensures states[n].progress[id].request.body == states[n].progress[other].request.body
  {
    RunKeepsInv(states, events, n);
    var db, p, q := states[n].db, states[n].progress[id], states[n].progress[other];
    assert ProgressOk(db, p, states[n].arrived) && ProgressOk(db, q, states[n].arrived);
    var i: nat :| HasResource(db, p.request, i);
    var j: nat :| HasResource(db, q.request, j);
    assert db.records[KeyOf(p.request)].resource == i && db.records[KeyOf(q.request)].resource == j;
  }

  /** A create with a key that made something else is refused for good and leaves every table alone. */
  lemma DifferentBodyChangesNothing(states: seq<State>, events: seq<Event>,
      m: nat, n: nat, l: nat, p: Request, i: ResourceId)
    requires Makes(states, events, m, p, i) && m < n < |events| && events[n].Create? && n < l < |states|
    requires var q := states[n].progress[events[n].id].request; KeyOf(q) == KeyOf(p) && q.body != p.body
    ensures var id := events[n].id;
            && states[n + 1].db == states[n].db
            && id in states[l].progress && states[l].progress[id] == Refused(states[n].progress[id].request)
  {
    MadeStays(states, events, m, n, p, i);
    assert states[n + 1] == Step(states[n], events[n]);
    RefusedStays(states, events, n + 1, l, events[n].id);
  }

  lemma {:induction false} RefusedStays(states: seq<State>, events: seq<Event>, m: nat, n: nat, id: RequestId)
    requires IsRun(states, events) && m <= n < |states| && id in states[m].progress && states[m].progress[id].Refused?
    ensures id in states[n].progress && states[n].progress[id] == states[m].progress[id]
    decreases n
  {
    if m < n {
      RefusedStays(states, events, m, n - 1, id);
      assert states[n - 1 + 1] == Step(states[n - 1], events[n - 1]);
    }
  }

  /** The run continued by one more event. */
  lemma Continue(states: seq<State>, events: seq<Event>, event: Event) returns (longer: seq<State>)
    requires IsRun(states, events) && Enabled(states[|events|], event)
    ensures IsRun(longer, events + [event]) && longer == states + [Step(states[|events|], event)]
  {
    longer := states + [Step(states[|events|], event)];
    var after := events + [event];
    forall i | 0 <= i < |after| ensures Enabled(longer[i], after[i]) && longer[i + 1] == Step(longer[i], after[i]) {
      if i < |events| {
        assert after[i] == events[i] && longer[i] == states[i] && longer[i + 1] == states[i + 1];
      }
    }
  }

  /** A push that is not interrupted, event by event. */
  function Retry(id: RequestId, q: Request): seq<Event> {
    [Arrive(id, q), Create(id, true), Append(id)]
  }

  /** The resource is live, and its author is an active member who used the record id for nothing else. */
  ghost predicate CanRecover(s: State, q: Request, i: ResourceId) {
    && q.kind.Creates() && (q.group, q.actor) in s.db.members
    && HasResource(s.db, q, i) && !s.db.resources[i].deleted && RecordsNotReused(s.arrived + {q})
  }

  /**
   * Recovery: whatever happened before, if the key's resource is live and its author is an
   * active member, one more uninterrupted push is answered, makes no second resource and
   * leaves exactly one feed entry.
   */
  lemma RetryRecovers(states: seq<State>, events: seq<Event>, id: RequestId, q: Request, i: ResourceId)
      returns (after: seq<State>, k: nat)
    requires IsRun(states, events) && id !in states[|events|].progress && CanRecover(states[|events|], q, i)
    ensures IsRun(after, events + Retry(id, q)) && after[..|states|] == states
    ensures var s, t := states[|events|], after[|after| - 1];
            && id in t.progress && t.progress[id] == Answered(q, true) && t.db.resources == s.db.resources
            && IsEntryFor(t.db, k, q) && (forall other: nat | IsEntryFor(t.db, other, q) :: other == k)
            && t.db.feed[k].kind == q.kind && t.db.feed[k].resource == Some(i)
  {
    var s := states[|events|];
    RunKeepsInv(states, events, |events|);
    assert s.db.records[KeyOf(q)].resource == i;
    after := Continue(states, events, Arrive(id, q));
    var arrived := events + [Arrive(id, q)];
    after := Continue(after, arrived, Create(id, true));
    after := Continue(after, arrived + [Create(id, true)], Append(id));
    var all := events + Retry(id, q);
    assert arrived + [Create(id, true)] + [Append(id)] == all;
    k := AnsweredCreateHasOneEntry(after, all, |all|, id);
    RunKeepsInv(after, all, |all|);
    var t := after[|all|];
    assert HasResource(t.db, q, t.db.feed[k].resource.value);
    assert t.db.records[KeyOf(q)].resource == i;
  }

  // ---------- runs in which a retry fails ----------

  function Payment(): Request {
    Request(SettlementCreate, 1, 10, 7, 500)
  }

  function Meal(): Request {
    Request(ExpenseCreate, 1, 10, 8, 600)
  }

  /** The first commit of a create by its group's only member. */
  function Committed(q: Request): Database {
    Database({(q.group, q.actor)}, [Resource(KeyOf(q), q.body, false)],
        map[KeyOf(q) := IdempotencyRecord(q.body, 0)], map[], [], [])
  }

  function Waiting(q: Request): State {
    State(Database({(q.group, q.actor)}, [], map[], map[], [], []), map[0 := Received(q)], {q})
  }

  lemma FirstRequestArrives(q: Request)
    ensures Step(Step(INITIAL, Join(q.group, q.actor)), Arrive(0, q)) == Waiting(q)
  {
  }

  lemma FirstRequestCommits(q: Request)
    requires q.kind.Creates()
    ensures CreateOutcome(Waiting(q).db, q, true) == Made(0, false)
    ensures Step(Waiting(q), Create(0, true)) == State(Committed(q), map[0 := Created(q, 0, false)], {q})
  {
  }

  lemma FirstRequestCrashes(q: Request)
    ensures Step(State(Committed(q), map[0 := Created(q, 0, false)], {q}), Crash(0))
        == State(Committed(q), map[0 := Crashed(q)], {q})
  {
  }

  /** What a run does up to a crash between the two commits of a create. */
  lemma CrashAfterCommit(q: Request) returns (states: seq<State>, events: seq<Event>)
    requires q.kind.Creates()
    ensures events == [Join(q.group, q.actor), Arrive(0, q), Create(0, true), Crash(0)]
    ensures IsRun(states, events) && Makes(states, events, 2, q, 0)
    ensures states[4] == State(Committed(q), map[0 := Crashed(q)], {q})
  {
    FirstRequestArrives(q);
    FirstRequestCommits(q);
    FirstRequestCrashes(q);
    events := [Join(q.group, q.actor), Arrive(0, q), Create(0, true), Crash(0)];
    states := [INITIAL, Step(INITIAL, events[0]), Waiting(q), State(Committed(q), map[0 := Created(q, 0, false)], {q}),
               State(Committed(q), map[0 := Crashed(q)], {q})];
  }

  /** The author left the group before the retry: the payment stays without a feed entry. */
  lemma DepartedAuthorCannotRetry() returns (states: seq<State>, events: seq<Event>)
    ensures IsRun(states, events) && Makes(states, events, 2, Payment(), 0)
    ensures var s := states[|events|];
            && 1 in s.progress && s.progress[1] == Refused(Payment())
               && CreateOutcome(s.db, Payment(), true) == NotMember
            && HasResource(s.db, Payment(), 0) && !s.db.resources[0].deleted && s.db.feed == []
  {
    states, events := CrashAfterCommit(Payment());
    states := Continue(states, events, Leave(1, 10));
    events := events + [Leave(1, 10)];
    states := Continue(states, events, Arrive(1, Payment()));
    events := events + [Arrive(1, Payment())];
    states := Continue(states, events, Create(1, true));
    events := events + [Create(1, true)];
  }

  /** The retry sends another body. */
  lemma OtherBodyCannotRetry() returns (states: seq<State>, events: seq<Event>)
    ensures IsRun(states, events) && Makes(states, events, 2, Payment(), 0)
    ensures var s, other := states[|events|], Payment().(body := 501);
            && KeyOf(other) == KeyOf(Payment()) && 1 in s.progress && s.progress[1] == Refused(other)
            && CreateOutcome(s.db, other, true) == IdempotencyConflict && |states| > 4 && s.db == states[4].db
  {
    var other := Payment().(body := 501);
    states, events := CrashAfterCommit(Payment());
    states := Continue(states, events, Arrive(1, other));
    events := events + [Arrive(1, other)];
    states := Continue(states, events, Create(1, true));
    events := events + [Create(1, true)];
  }

  /** The expense was deleted before the retry. */
  lemma DeletedExpenseCannotRetry() returns (states: seq<State>, events: seq<Event>)
    ensures IsRun(states, events) && Makes(states, events, 2, Meal(), 0)
    ensures var s := states[|events|];
            && 1 in s.progress && s.progress[1] == Refused(Meal()) && CreateOutcome(s.db, Meal(), true) == Unavailable
            && HasResource(s.db, Meal(), 0) && s.db.resources[0].deleted
  {
    states, events := CrashAfterCommit(Meal());
    states := Continue(states, events, SoftDelete(0));
    events := events + [SoftDelete(0)];
    states := Continue(states, events, Arrive(1, Meal()));
    events := events + [Arrive(1, Meal())];
    states := Continue(states, events, Create(1, true));
    events := events + [Create(1, true)];
  }

  // ---------- record ids that are used again ----------

  ghost predicate HasOwnEntry(feed: seq<FeedEntry>, q: Request) {
    exists k :: 0 <= k < |feed| && IsOwn(feed[k], q)
  }

  predicate IsOwn(e: FeedEntry, q: Request) {
    e.actor == q.actor && e.record == q.record && e.kind == q.kind && e.group == q.group
  }

  /** The record id already has an entry, for another operation or in another group. */
  ghost predicate TakenByAnother(feed: seq<FeedEntry>, q: Request) {
    exists k :: 0 <= k < |feed| && feed[k].actor == q.actor && feed[k].record == q.record && !IsOwn(feed[k], q)
  }

  ghost predicate OneEntryEach(feed: seq<FeedEntry>) {
    forall i, j | 0 <= i < j < |feed| :: (feed[i].actor, feed[i].record) != (feed[j].actor, feed[j].record)
  }

  /**
   * The feed is keyed by actor and record id alone.  So an operation gets an entry of its own
   * exactly when its record id has no entry for anything else yet.
   */
  lemma AppendGivesOwnEntry(db: Database, q: Request, resource: Option<ResourceId>)
    requires OneEntryEach(db.feed)
    ensures HasOwnEntry(AfterAppend(db, q, resource).feed, q) <==> !TakenByAnother(db.feed, q)
  {
    var after := AfterAppend(db, q, resource).feed;
    if k :| 0 <= k < |db.feed| && db.feed[k].actor == q.actor && db.feed[k].record == q.record {
      assert after == db.feed;
      assert forall i | 0 <= i < |db.feed| && db.feed[i].actor == q.actor && db.feed[i].record == q.record :: i == k;
    } else {
      assert IsOwn(after[|db.feed|], q);
    }
  }

  lemma {:induction false} FeedStays(states: seq<State>, events: seq<Event>, m: nat, n: nat)
    requires IsRun(states, events) && m <= n < |states|
    ensures states[m].db.feed <= states[n].db.feed
    decreases n
  {
    if m < n {
      FeedStays(states, events, m, n - 1);
      RunExtends(states, events, n - 1);
    }
  }

  lemma OwnEntryStays(before: seq<FeedEntry>, after: seq<FeedEntry>, q: Request)
    requires before <= after && OneEntryEach(after) && HasEntry(before, q.actor, q.record)
    ensures HasOwnEntry(after, q) <==> HasOwnEntry(before, q)
  {
    var k :| 0 <= k < |before| && before[k].actor == q.actor && before[k].record == q.record;
    assert after[k] == before[k];
    assert forall i | 0 <= i < |after| && after[i].actor == q.actor && after[i].record == q.record :: i == k;
  }

  /**
   * Over every run: once a create is answered, the feed has an entry of its own for it, then
   * and ever after, exactly when its record id had no entry for anything else before.
   */
  lemma OwnEntryExactlyWhen(states: seq<State>, events: seq<Event>, m: nat, n: nat)
    requires IsRun(states, events) && m < n < |states| && events[m].Append?
    ensures var q := states[m].progress[events[m].id].request;
            HasOwnEntry(states[n].db.feed, q) <==> !TakenByAnother(states[m].db.feed, q)
  {
    var p := states[m].progress[events[m].id];
    RunKeepsInv(states, events, m);
    RunKeepsInv(states, events, n);
    assert states[m + 1] == Step(states[m], events[m]);
    AppendGivesOwnEntry(states[m].db, p.request, Some(p.resource));
    AppendKeeps(states[m].db, p.request, Some(p.resource), states[m].arrived);
    FeedStays(states, events, m + 1, n);
    OwnEntryStays(states[m + 1].db.feed, states[n].db.feed, p.request);
  }

  function MealEntry(): FeedEntry {
    FeedEntry(1, 10, 8, ExpenseCreate, Some(0))
  }

  /** A meal that was answered on its second attempt. */
  lemma AnsweredMeal() returns (states: seq<State>, events: seq<Event>)
    ensures IsRun(states, events)
    ensures states[|events|] ==
        State(Committed(Meal()).(feed := [MealEntry()]),
              map[0 := Crashed(Meal()), 1 := Answered(Meal(), true)], {Meal()})
  {
    states, events := CrashAfterCommit(Meal());
    states := Continue(states, events, Arrive(1, Meal()));
    events := events + [Arrive(1, Meal())];
    states := Continue(states, events, Create(1, true));
    events := events + [Create(1, true)];
    states := Continue(states, events, Append(1));
    events := events + [Append(1)];
  }

  /** A run in which the author uses the record id again in another group: answered, but without an entry. */
  lemma ReusedRecordHasNoEntry() returns (states: seq<State>, events: seq<Event>)
    ensures IsRun(states, events)
    ensures var s, again := states[|events|], Meal().(group := 2);
            && 2 in s.progress && s.progress[2] == Answered(again, false) && HasResource(s.db, again, 1)
            && s.db.feed == [MealEntry()] && !HasOwnEntry(s.db.feed, again)
  {
    var again := Meal().(group := 2);
    states, events := AnsweredMeal();
    states := Continue(states, events, Join(2, 10));
    events := events + [Join(2, 10)];
    states := Continue(states, events, Arrive(2, again));
    events := events + [Arrive(2, again)];
    states := Continue(states, events, Create(2, true));
    events := events + [Create(2, true)];
    var feed := states[|events|].db.feed;
    assert feed == [MealEntry()] && feed[0].actor == again.actor && feed[0].record == again.record;
    assert HasEntry(feed, again.actor, again.record);
    states := Continue(states, events, Append(2));
    events := events + [Append(2)];
  }

  // ---------- the service ----------

  datatype Answer = Accepted | Duplicate | Conflict | Failed | TrackingIdMismatch | OwnerScopeMismatch | Forbidden

  class GroupSyncServer {
    var members: set<(GroupId, UserId)>
    var resources: seq<Resource>
    var records: map<Key, IdempotencyRecord>
    var receipts: map<(UserId, RecordId), Receipt>
    var feed: seq<FeedEntry>
    ghost var applied: seq<Request>

    ghost function Db(): Database
      reads this
    {
      Database(members, resources, records, receipts, feed, applied)
    }

    constructor ()
      ensures Db() == INITIAL.db
    {
      members, resources, records, receipts, feed, applied := {}, [], map[], map[], [], [];
    }

    /** Asks for the membership, reserves the key, creates the resource, fills in its id and commits. */
    method CreateResource(q: Request, valid: bool) returns (r: CreateResult)
      modifies this`resources, this`records
      ensures Db() == AfterCreate(old(Db()), q, valid)
      ensures r == CreateOutcome(old(Db()), q, valid)
    {
      if (q.group, q.actor) !in members {
        return NotMember;
      }
      var key := KeyOf(q);
      if key in records {
        var record := records[key];
        if record.body != q.body {
          return IdempotencyConflict;
        }
        if record.resource >= |resources| || resources[record.resource].deleted {
          return Unavailable;
        }
        return Made(record.resource, true);
      }
      if !valid {
        return Rejected;
      }
      var id := |resources|;
      resources := resources + [Resource(key, q.body, false)];
      records := records[key := IdempotencyRecord(q.body, id)];
      return Made(id, false);
    }

    method AppendGroupChange(q: Request, resource: Option<ResourceId>) returns (added: bool)
      modifies this`feed
      ensures Db() == AfterAppend(old(Db()), q, resource)
      ensures added <==> !HasEntry(old(feed), q.actor, q.record)
    {
      for i := 0 to |feed|
        invariant forall j | 0 <= j < i :: !(feed[j].actor == q.actor && feed[j].record == q.record)
      {
        if feed[i].actor == q.actor && feed[i].record == q.record {
          return false;
        }
      }
      feed := feed + [FeedEntry(q.group, q.actor, q.record, q.kind, resource)];
      return true;
    }

    method PushExpenseMutation(q: Request, valid: bool) returns (r: Answer)
      requires !q.kind.Creates() && (q.group, q.actor) in members
      modifies this`applied, this`receipts, this`feed
      ensures Db() == AfterMutation(old(Db()), q, valid)
      ensures r == AnswerTo(MutationOutcome(old(Db()), q, valid))
      ensures r == Accepted <==> (q.actor, q.record) !in old(receipts) && valid
      ensures r == Duplicate <==>
                (q.actor, q.record) in old(receipts)
                && old(receipts)[(q.actor, q.record)] == Receipt(q.group, q.kind, q.body)
    {
      if (q.actor, q.record) in receipts {
        return if receipts[(q.actor, q.record)] == Receipt(q.group, q.kind, q.body) then Duplicate else Conflict;
      }
      if !valid {
        return Failed;
      }
      applied := applied + [q];
      receipts := receipts[(q.actor, q.record) := Receipt(q.group, q.kind, q.body)];
      var _ := AppendGroupChange(q, None);
      return Accepted;
    }

    /**
     * A push that is not interrupted: the checks of the route, then both commits in a row.
     * `key` is the idempotency key sent along, `owner` the user the record belongs to.
     */
    method PushGroupOperation(q: Request, key: RecordId, owner: UserId, valid: bool) returns (r: Answer)
      modifies this`applied, this`resources, this`records, this`receipts, this`feed
      ensures key != q.record ==> Db() == old(Db()) && r == TrackingIdMismatch
      ensures key == q.record && owner != q.actor ==> Db() == old(Db()) && r == OwnerScopeMismatch
      ensures key == q.record && owner == q.actor && !q.kind.Creates() ==>
                Db() == AfterMutation(old(Db()), q, valid) && r == AnswerTo(MutationOutcome(old(Db()), q, valid))
      ensures key == q.record && owner == q.actor && q.kind.Creates() ==>
                match CreateOutcome(old(Db()), q, valid)
                case Made(i, replayed) =>
                  && Db() == AfterAppend(AfterCreate(old(Db()), q, valid), q, Some(i))
                  && r == (if replayed then Duplicate else Accepted)
                  && HasEntry(feed, q.actor, q.record)
                case NotMember => Db() == old(Db()) && r == Forbidden
                case IdempotencyConflict => Db() == old(Db()) && r == Conflict
                case _ => Db() == old(Db()) && r == Failed
    {
      if key != q.record {
        return TrackingIdMismatch;
      }
      if owner != q.actor {
        return OwnerScopeMismatch;
      }
      if (q.group, q.actor) !in members {
        return Forbidden;
      }
      if !q.kind.Creates() {
        r := PushExpenseMutation(q, valid);
        return;
      }
      var created := CreateResource(q, valid);
      match created {
        case Made(i, replayed) =>
          var added := AppendGroupChange(q, Some(i));
          assert added ==> feed[|feed| - 1].actor == q.actor && feed[|feed| - 1].record == q.record;
          r := if replayed then Duplicate else Accepted;
        case IdempotencyConflict =>
          r := Conflict;
        case _ =>
          r := Failed;
      }
    }
  }

  function AnswerTo(outcome: MutationResult): Answer {
    match outcome
    case Applied => Accepted
    case Replayed => Duplicate
    case Outsider => Forbidden
    case ReceiptConflict => Conflict
    case NotApplied => Failed
  }
}
