/**
 * Group push on the ledger.  A request asks for a financial operation; idempotency records
 * and receipts decide whether the ledger is touched at all, and the ledger decides whether
 * there is a record or a receipt.  Over every run with crashes and retries the ledger is
 * what the effective operations make of it, and every request takes effect at most once.
 */
module PushedChanges {
  import opened Basics
  import opened Ledger
  import opened LedgerServices
  import GroupPush

  type Request = GroupPush.Request

  // ---------- what a request asks for ----------

  /** Kind, group and author of a request and of the operation its body describes agree. */
  ghost predicate Asks(q: Request, op: Operation) {
    && op.WellFormed()
    && match q.kind
       case ExpenseCreate =>
         || (op.FastCreate? && op.fast.group == q.group && op.fast.actor == q.actor)
         || (op.ItemizedCreate? && op.itemized.group == q.group && op.itemized.actor == q.actor)
       case SettlementCreate => op.Settle? && op.settlement.group == q.group && op.settlement.actor == q.actor
       case ExpenseUpdate => op.PushUpdate? && op.update.group == q.group && op.update.user == q.actor
       case ExpenseDelete => op.PushDelete? && op.delete.group == q.group && op.delete.user == q.actor
  }

  /** Reading a request: none if the body is malformed. */
  type Reading = Request -> Option<Operation>

  ghost predicate Reads(reading: Reading) {
    forall q: Request :: reading(q).Some? ==> Asks(q, reading(q).value)
  }

  /** Whether the ledger accepts the operation. */
  ghost predicate Accepts(s: Store, op: Operation, now: Time) {
    match op
    case FastCreate(q) => FastResult(s, q, now).Success?
    case ItemizedCreate(q) => ItemizedAccepted(s, q)
    case Settle(q) => SettlementResult(s, q, now).Success?
    case PushUpdate(q) => UpdateResult(s, q, now).Success?
    case PushDelete(q) => DeleteResult(s, q, now).Success?
    case ChangeGroup(_, _, _, _) => false
  }

  ghost predicate IsValid(s: Store, op: Option<Operation>, now: Time) {
    op.Some? && Accepts(s, op.value, now)
  }

  // ---------- sync tables and ledger together ----------

  /** `rowOf` gives the ledger row of every resource. */
  datatype Tables = Tables(db: GroupPush.Database, rows: Store, rowOf: seq<nat>)

  /** Where the row of a created expense or settlement goes. */
  function NextRow(s: Store, op: Operation): nat {
    if op.Settle? then |s.settlements| else |s.expenses|
  }

  predicate IsRowOf(resource: GroupPush.Resource, row: nat, op: Operation) {
    op.PushDelete? && resource.key.kind.ExpenseCreate? && row == op.delete.id
  }

  /** A deleted expense is no longer available to replays. */
  function Marked(db: GroupPush.Database, rowOf: seq<nat>, op: Operation): GroupPush.Database
    requires |rowOf| == |db.resources|
  {
    db.(resources := seq(|db.resources|, r requires 0 <= r < |db.resources| =>
      if IsRowOf(db.resources[r], rowOf[r], op) then db.resources[r].(deleted := true) else db.resources[r]))
  }

  /** The first commit of a create: idempotency record and ledger row, or neither. */
  ghost function AfterCreate(t: Tables, q: Request, op: Option<Operation>, now: Time): Tables {
    var valid := IsValid(t.rows, op, now);
    if GroupPush.CreateOutcome(t.db, q, valid) == GroupPush.Made(|t.db.resources|, false) && valid then
      Tables(GroupPush.AfterCreate(t.db, q, valid), Step(t.rows, op.value, now), t.rowOf + [NextRow(t.rows, op.value)])
    else t
  }

  /** The commit of a change: ledger row, receipt and feed entry, or nothing. */
  ghost function AfterChange(t: Tables, q: Request, op: Option<Operation>, now: Time): Tables
    requires |t.rowOf| == |t.db.resources|
  {
    var valid := IsValid(t.rows, op, now);
    if GroupPush.MutationOutcome(t.db, q, valid).Applied? && valid then
      Tables(Marked(GroupPush.AfterMutation(t.db, q, valid), t.rowOf, op.value), Step(t.rows, op.value, now), t.rowOf)
    else t
  }

  // ---------- runs ----------

  /** An operation that took effect, with the request that asked for it unless another route did. */
  datatype Effect = Effect(origin: Option<Request>, op: Operation, now: Time)

  datatype Joint = Joint(sync: GroupPush.State, rows: Store, rowOf: seq<nat>, done: seq<Effect>)

  datatype Event =
    | Sync(event: GroupPush.Event, now: Time)
    // Another route: creates and settlements without push, and changes of memberships.
    | Other(op: Operation, now: Time)

  function TablesOf(j: Joint): Tables {
    Tables(j.sync.db, j.rows, j.rowOf)
  }

  function RequestOf(j: Joint, event: GroupPush.Event): Request
    requires (event.Create? || event.Mutate?) && event.id in j.sync.progress
  {
    j.sync.progress[event.id].request
  }

  ghost predicate Enabled(reading: Reading, j: Joint, e: Event) {
    match e
    case Other(op, _) => op.WellFormed() && !op.PushUpdate? && !op.PushDelete?
    case Sync(event, now) =>
      && GroupPush.Enabled(j.sync, event) && !event.SoftDelete? && |j.rowOf| == |j.sync.db.resources|
      && (event.Create? || event.Mutate? ==> event.valid == IsValid(j.rows, reading(RequestOf(j, event)), now))
  }

  ghost function Next(reading: Reading, j: Joint, e: Event): Joint
    requires Enabled(reading, j, e)
  {
    match e
    case Other(op, now) => j.(rows := Step(j.rows, op, now), done := j.done + [Effect(None, op, now)])
    case Sync(event, now) =>
      var after := GroupPush.Step(j.sync, event);
      if event.Create? || event.Mutate? then
        var q := RequestOf(j, event);
        var op := reading(q);
        var t := if event.Create? then AfterCreate(TablesOf(j), q, op, now) else AfterChange(TablesOf(j), q, op, now);
        Joint(after.(db := t.db), t.rows, t.rowOf,
              if TakesEffect(j, event) then j.done + [Effect(Some(q), op.value, now)] else j.done)
      else j.(sync := after)
  }

  /** The request is neither refused nor a replay. */
  ghost predicate TakesEffect(j: Joint, event: GroupPush.Event)
    requires (event.Create? || event.Mutate?) && event.id in j.sync.progress
  {
    var q := RequestOf(j, event);
    && event.valid
    && (if event.Create?
        then GroupPush.CreateOutcome(j.sync.db, q, true) == GroupPush.Made(|j.sync.db.resources|, false)
        else GroupPush.MutationOutcome(j.sync.db, q, true).Applied?)
  }

  ghost predicate IsRun(reading: Reading, start: Store, states: seq<Joint>, events: seq<Event>) {
    && |states| == |events| + 1
    && states[0] == Joint(GroupPush.INITIAL, start, [], [])
    && forall i | 0 <= i < |events| ::
         Enabled(reading, states[i], events[i]) && states[i + 1] == Next(reading, states[i], events[i])
  }

  // ---------- the invariant ----------

  ghost function TraceOf(done: seq<Effect>): Trace {
    seq(|done|, i requires 0 <= i < |done| => (done[i].op, done[i].now))
  }

  /** Every request that took effect left an idempotency record or a receipt. */
  ghost predicate Recorded(db: GroupPush.Database, q: Request) {
    if q.kind.Creates() then GroupPush.KeyOf(q) in db.records else (q.actor, q.record) in db.receipts
  }

  ghost predicate AllRecorded(db: GroupPush.Database, done: seq<Effect>) {
    forall i | 0 <= i < |done| && done[i].origin.Some? :: Recorded(db, done[i].origin.value)
  }

  /** Requests that an idempotency record or a receipt takes for the same. */
  ghost predicate SameRequest(p: Request, q: Request) {
    && (p.kind.Creates() <==> q.kind.Creates())
    && (if p.kind.Creates()
        then GroupPush.KeyOf(p) == GroupPush.KeyOf(q)
        else p.actor == q.actor && p.record == q.record)
  }

  ghost predicate OnceEach(done: seq<Effect>) {
    forall i, j | 0 <= i < j < |done| && done[i].origin.Some? && done[j].origin.Some? ::
      !SameRequest(done[i].origin.value, done[j].origin.value)
  }

  /** The resource has the ledger row of its kind, group and author, deleted or not. */
  ghost predicate HasRow(resource: GroupPush.Resource, row: nat, s: Store) {
    match resource.key.kind
    case ExpenseCreate =>
      && row < |s.expenses| && s.expenses[row].group == resource.key.group
         && s.expenses[row].createdBy == resource.key.actor
      && s.expenses[row].deleted == resource.deleted
    case SettlementCreate =>
      row < |s.settlements| && s.settlements[row].group == resource.key.group
          && s.settlements[row].payer == resource.key.actor
    case _ => false
  }

  ghost predicate RowsMatch(t: Tables) {
    && |t.rowOf| == |t.db.resources|
    && forall r | 0 <= r < |t.rowOf| :: HasRow(t.db.resources[r], t.rowOf[r], t.rows)
  }

  /** Two resources of one kind never share a row. */
  ghost predicate RowsDiffer(t: Tables)
    requires |t.rowOf| == |t.db.resources|
  {
    forall r, k | 0 <= r < k < |t.rowOf| && t.db.resources[r].key.kind == t.db.resources[k].key.kind ::
        t.rowOf[r] != t.rowOf[k]
  }

  ghost predicate Inv(start: Store, j: Joint) {
    && GroupPush.Inv(j.sync)
    && j.rows == Run(start, TraceOf(j.done))
    && WellFormedTrace(TraceOf(j.done))
    && AllRecorded(j.sync.db, j.done) && OnceEach(j.done)
    && RowsMatch(TablesOf(j)) && RowsDiffer(TablesOf(j))
  }

  // ---------- sync tables ----------

  lemma MarkedKeepsTables(db: GroupPush.Database, rowOf: seq<nat>, op: Operation, arrived: set<Request>)
    requires GroupPush.TablesOk(db, arrived) && |rowOf| == |db.resources|
    ensures GroupPush.TablesOk(Marked(db, rowOf, op), arrived) && GroupPush.Extends(db, Marked(db, rowOf, op))
  {
    var after := Marked(db, rowOf, op);
    forall i | 0 <= i < |after.feed| ensures GroupPush.EntryOk(after, after.feed[i], arrived) {
      assert GroupPush.EntryOk(db, db.feed[i], arrived);
    }
  }

  lemma MarkedKeepsInv(s: GroupPush.State, rowOf: seq<nat>, op: Operation)
    requires GroupPush.Inv(s) && |rowOf| == |s.db.resources|
    ensures GroupPush.Inv(s.(db := Marked(s.db, rowOf, op)))
  {
    MarkedKeepsTables(s.db, rowOf, op, s.arrived);
    forall id | id in s.progress ensures GroupPush.ProgressOk(Marked(s.db, rowOf, op), s.progress[id], s.arrived) {
      GroupPush.ExtendsKeepsProgress(s.db, Marked(s.db, rowOf, op), s.progress[id], s.arrived, s.arrived);
    }
  }

  lemma NextKeepsSync(reading: Reading, j: Joint, event: GroupPush.Event, now: Time)
    requires GroupPush.Inv(j.sync) && Enabled(reading, j, Sync(event, now))
    ensures GroupPush.Inv(Next(reading, j, Sync(event, now)).sync)
  {
    GroupPush.StepKeepsInv(j.sync, event);
    if event.Mutate? && TakesEffect(j, event) {
      MarkedKeepsInv(GroupPush.Step(j.sync, event), j.rowOf, reading(RequestOf(j, event)).value);
    }
  }

  // ---------- effects ----------

  lemma OneMoreEffect(start: Store, done: seq<Effect>, effect: Effect)
    requires WellFormedTrace(TraceOf(done)) && effect.op.WellFormed()
    ensures WellFormedTrace(TraceOf(done + [effect]))
    ensures Run(start, TraceOf(done + [effect])) == Step(Run(start, TraceOf(done)), effect.op, effect.now)
  {
    var trace := TraceOf(done + [effect]);
    assert trace[..|trace| - 1] == TraceOf(done);
    forall i | 0 <= i < |trace| ensures trace[i].0.WellFormed() {
      if i < |done| { assert trace[i] == TraceOf(done)[i]; }
    }
  }

  lemma RecordsStay(s: GroupPush.State, event: GroupPush.Event)
    requires GroupPush.Enabled(s, event)
    ensures s.db.records.Keys <= GroupPush.Step(s, event).db.records.Keys
    ensures s.db.receipts.Keys <= GroupPush.Step(s, event).db.receipts.Keys
  {
  }

  lemma RecordedStay(before: GroupPush.Database, after: GroupPush.Database, done: seq<Effect>)
    requires AllRecorded(before, done)
    requires before.records.Keys <= after.records.Keys && before.receipts.Keys <= after.receipts.Keys
    ensures AllRecorded(after, done)
  {
    forall i | 0 <= i < |done| && done[i].origin.Some? ensures Recorded(after, done[i].origin.value) {
      assert Recorded(before, done[i].origin.value);
    }
  }

  /** What takes effect was not recorded before, and is recorded afterwards. */
  lemma EffectIsNew(j: Joint, event: GroupPush.Event)
    requires GroupPush.Enabled(j.sync, event) && (event.Create? || event.Mutate?) && TakesEffect(j, event)
    ensures var q := RequestOf(j, event);
            !Recorded(j.sync.db, q) && Recorded(GroupPush.Step(j.sync, event).db, q)
  {
  }

  lemma NewEffectIsOnce(db: GroupPush.Database, done: seq<Effect>, effect: Effect)
    requires AllRecorded(db, done) && OnceEach(done)
    requires effect.origin.Some? ==> !Recorded(db, effect.origin.value)
    ensures OnceEach(done + [effect])
  {
    if effect.origin.Some? {
      forall i | 0 <= i < |done| && done[i].origin.Some?
        ensures !SameRequest(done[i].origin.value, effect.origin.value) {
        assert Recorded(db, done[i].origin.value);
      }
    }
  }

  // ---------- rows ----------

  lemma RowsOnlyGrow(s: Store, op: Operation, now: Time)
    requires !op.PushUpdate? && !op.PushDelete?
    ensures s.expenses <= Step(s, op, now).expenses && s.settlements <= Step(s, op, now).settlements
  {
  }

  lemma OtherKeepsRows(t: Tables, op: Operation, now: Time)
    requires RowsMatch(t) && !op.PushUpdate? && !op.PushDelete?
    ensures RowsMatch(t.(rows := Step(t.rows, op, now)))
  {
    RowsOnlyGrow(t.rows, op, now);
    var after := t.(rows := Step(t.rows, op, now));
    forall r | 0 <= r < |t.rowOf| ensures HasRow(after.db.resources[r], after.rowOf[r], after.rows) {
      assert HasRow(t.db.resources[r], t.rowOf[r], t.rows);
    }
  }

  lemma CreatedRow(s: Store, q: Request, op: Operation, now: Time)
    requires Asks(q, op) && q.kind.Creates() && Accepts(s, op, now)
    ensures HasRow(GroupPush.Resource(GroupPush.KeyOf(q), q.body, false), NextRow(s, op), Step(s, op, now))
  {
  }

  lemma CreateKeepsRows(t: Tables, q: Request, op: Option<Operation>, now: Time)
    requires RowsMatch(t) && RowsDiffer(t) && q.kind.Creates() && (op.Some? ==> Asks(q, op.value))
    ensures RowsMatch(AfterCreate(t, q, op, now)) && RowsDiffer(AfterCreate(t, q, op, now))
  {
    var after := AfterCreate(t, q, op, now);
    if after != t {
      OtherKeepsRows(t, op.value, now);
      CreatedRow(t.rows, q, op.value, now);
      var n := |t.rowOf|;
      forall r | 0 <= r < |after.rowOf| ensures HasRow(after.db.resources[r], after.rowOf[r], after.rows) {
        if r < n {
          assert after.db.resources[r] == t.db.resources[r] && after.rowOf[r] == t.rowOf[r];
        }
      }
      forall r | 0 <= r < n && t.db.resources[r].key.kind == q.kind ensures after.rowOf[r] != after.rowOf[n] {
        assert HasRow(t.db.resources[r], t.rowOf[r], t.rows);
      }
    }
  }

  /** An accepted change keeps the identity of every row and deletes exactly the row it names. */
  lemma ChangedRow(s: Store, op: Operation, now: Time, i: nat)
    requires (op.PushUpdate? || op.PushDelete?) && Accepts(s, op, now) && i < |s.expenses|
    ensures i < |Step(s, op, now).expenses|
    ensures var e, after := s.expenses[i], Step(s, op, now).expenses[i];
            && after.group == e.group && after.createdBy == e.createdBy
            && after.deleted == (e.deleted || (op.PushDelete? && op.delete.id == i))
  {
  }

  lemma ChangeKeepsRows(t: Tables, q: Request, op: Option<Operation>, now: Time)
    requires RowsMatch(t) && RowsDiffer(t) && !q.kind.Creates() && (op.Some? ==> Asks(q, op.value))
    ensures RowsMatch(AfterChange(t, q, op, now)) && RowsDiffer(AfterChange(t, q, op, now))
  {
    var after := AfterChange(t, q, op, now);
    if after != t {
      forall r | 0 <= r < |after.rowOf| ensures HasRow(after.db.resources[r], after.rowOf[r], after.rows) {
        assert HasRow(t.db.resources[r], t.rowOf[r], t.rows);
        if t.db.resources[r].key.kind.ExpenseCreate? {
          ChangedRow(t.rows, op.value, now, t.rowOf[r]);
        }
      }
    }
  }

  // ---------- every step keeps it ----------

  lemma OtherKeepsInv(reading: Reading, start: Store, j: Joint, op: Operation, now: Time)
    requires Inv(start, j) && Enabled(reading, j, Other(op, now))
    ensures Inv(start, Next(reading, j, Other(op, now)))
  {
    var effect := Effect(None, op, now);
    OneMoreEffect(start, j.done, effect);
    NewEffectIsOnce(j.sync.db, j.done, effect);
    OtherKeepsRows(TablesOf(j), op, now);
  }

  /** Requests that arrive, are answered, crash or change memberships touch neither ledger nor resources. */
  lemma QuietEventKeepsInv(reading: Reading, start: Store, j: Joint, event: GroupPush.Event, now: Time)
    requires Inv(start, j) && Enabled(reading, j, Sync(event, now)) && !event.Create? && !event.Mutate?
    ensures Inv(start, Next(reading, j, Sync(event, now)))
  {
    NextKeepsSync(reading, j, event, now);
    RecordsStay(j.sync, event);
    var after := GroupPush.Step(j.sync, event);
    RecordedStay(j.sync.db, after.db, j.done);
    assert after.db.resources == j.sync.db.resources;
  }

  lemma EffectsStayInOrder(reading: Reading, start: Store, j: Joint, event: GroupPush.Event, now: Time)
    requires Reads(reading) && Inv(start, j) && Enabled(reading, j, Sync(event, now))
        && (event.Create? || event.Mutate?)
    ensures var after := Next(reading, j, Sync(event, now));
            && after.rows == Run(start, TraceOf(after.done)) && WellFormedTrace(TraceOf(after.done))
            && AllRecorded(after.sync.db, after.done) && OnceEach(after.done)
  {
    var after, q := Next(reading, j, Sync(event, now)), RequestOf(j, event);
    RecordsStay(j.sync, event);
    RecordedStay(j.sync.db, after.sync.db, j.done);
    if TakesEffect(j, event) {
      var effect := Effect(Some(q), reading(q).value, now);
      EffectIsNew(j, event);
      OneMoreEffect(start, j.done, effect);
      NewEffectIsOnce(j.sync.db, j.done, effect);
      assert after.done == j.done + [effect];
      forall i | 0 <= i < |after.done| && after.done[i].origin.Some?
        ensures Recorded(after.sync.db, after.done[i].origin.value) {
        if i < |j.done| { assert after.done[i] == j.done[i]; }
      }
    }
  }

  lemma CommitKeepsInv(reading: Reading, start: Store, j: Joint, event: GroupPush.Event, now: Time)
    requires Reads(reading) && Inv(start, j) && Enabled(reading, j, Sync(event, now))
        && (event.Create? || event.Mutate?)
    ensures Inv(start, Next(reading, j, Sync(event, now)))
  {
    var q := RequestOf(j, event);
    NextKeepsSync(reading, j, event, now);
    EffectsStayInOrder(reading, start, j, event, now);
    if event.Create? {
      CreateKeepsRows(TablesOf(j), q, reading(q), now);
    } else {
      ChangeKeepsRows(TablesOf(j), q, reading(q), now);
    }
  }

  lemma {:induction false} RunKeepsInv(reading: Reading, start: Store, states: seq<Joint>, events: seq<Event>, n: nat)
    requires Reads(reading) && IsRun(reading, start, states, events) && n < |states|
    ensures Inv(start, states[n])
  {
    if n > 0 {
      RunKeepsInv(reading, start, states, events, n - 1);
      var j, e := states[n - 1], events[n - 1];
      assert Enabled(reading, j, e) && states[n - 1 + 1] == Next(reading, j, e);
      match e {
        case Other(op, now) => OtherKeepsInv(reading, start, j, op, now);
        case Sync(event, now) =>
          if event.Create? || event.Mutate? {
            CommitKeepsInv(reading, start, j, event, now);
          } else {
            QuietEventKeepsInv(reading, start, j, event, now);
          }
      }
    }
  }

  // ---------- theorems ----------

  /**
   * Exactly once on the ledger: over every run with crashes and retries the ledger is what
   * the operations that took effect make of it, one after the other; no idempotency key and
   * no record id of a change has taken effect twice; and every expense stays conserved.
   */
  lemma LedgerIsRunOfEffects(reading: Reading, start: Store, states: seq<Joint>, events: seq<Event>, n: nat)
    requires Reads(reading) && Sound(start) && IsRun(reading, start, states, events) && n < |states|
    ensures var j := states[n];
            && j.rows == Run(start, TraceOf(j.done)) && OnceEach(j.done) && Sound(j.rows)
            && forall i | 0 <= i < |j.done| && j.done[i].origin.Some? :: Asks(j.done[i].origin.value, j.done[i].op)
  {
    RunKeepsInv(reading, start, states, events, n);
    RunKeepsSound(start, TraceOf(states[n].done));
    EffectsAreAskedFor(reading, start, states, events, n);
  }

  lemma {:induction false} EffectsAreAskedFor(reading: Reading,
      start: Store, states: seq<Joint>, events: seq<Event>, n: nat)
    requires Reads(reading) && IsRun(reading, start, states, events) && n < |states|
    ensures forall i | 0 <= i < |states[n].done| && states[n].done[i].origin.Some? ::
              Asks(states[n].done[i].origin.value, states[n].done[i].op)
  {
    if n > 0 {
      EffectsAreAskedFor(reading, start, states, events, n - 1);
      assert Enabled(reading, states[n - 1], events[n - 1])
          && states[n - 1 + 1] == Next(reading, states[n - 1], events[n - 1]);
    }
  }

  /** Over every run an answered create has a resource, and the resource a ledger row of its kind, group and author. */
  lemma AnsweredCreateIsInLedger(reading: Reading, start: Store,
      states: seq<Joint>, events: seq<Event>, n: nat, id: GroupPush.RequestId)
    returns (i: nat)
    requires Reads(reading) && IsRun(reading, start, states, events) && n < |states|
    requires var p := states[n].sync.progress; id in p && p[id].Answered? && p[id].request.kind.Creates()
    ensures var j := states[n];
            && GroupPush.HasResource(j.sync.db, j.sync.progress[id].request, i)
            && i < |j.rowOf| && HasRow(j.sync.db.resources[i], j.rowOf[i], j.rows)
  {
    RunKeepsInv(reading, start, states, events, n);
    var s := states[n].sync;
    assert GroupPush.ProgressOk(s.db, s.progress[id], s.arrived);
    var k: nat :| GroupPush.HasResource(s.db, s.progress[id].request, k);
    i := k;
  }

  // ---------- whatever was answered took effect ----------

  ghost predicate TookEffect(done: seq<Effect>, q: Request) {
    exists i :: 0 <= i < |done| && done[i].origin == Some(q)
  }

  /** Some request with this key and body took effect. */
  ghost predicate MadeEffect(done: seq<Effect>, resource: GroupPush.Resource) {
    exists i :: 0 <= i < |done| && done[i].origin.Some? && done[i].origin.value.kind.Creates()
                && GroupPush.KeyOf(done[i].origin.value) == resource.key && done[i].origin.value.body == resource.body
  }

  ghost predicate AllTookEffect(db: GroupPush.Database, done: seq<Effect>) {
    && (forall k | 0 <= k < |db.applied| :: TookEffect(done, db.applied[k]))
    && (forall r | 0 <= r < |db.resources| :: MadeEffect(done, db.resources[r]))
  }

  lemma EffectsStay(done: seq<Effect>, more: seq<Effect>)
    requires done <= more
    ensures forall q | TookEffect(done, q) :: TookEffect(more, q)
    ensures forall r | MadeEffect(done, r) :: MadeEffect(more, r)
  {
    forall q | TookEffect(done, q) ensures TookEffect(more, q) {
      var i :| 0 <= i < |done| && done[i].origin == Some(q);
      assert more[i] == done[i];
    }
    forall r | MadeEffect(done, r) ensures MadeEffect(more, r) {
      var i :| 0 <= i < |done| && done[i].origin.Some? && done[i].origin.value.kind.Creates()
               && GroupPush.KeyOf(done[i].origin.value) == r.key && done[i].origin.value.body == r.body;
      assert more[i] == done[i];
    }
  }

  lemma NextKeepsEffects(reading: Reading, j: Joint, e: Event)
    requires Enabled(reading, j, e) && AllTookEffect(j.sync.db, j.done)
    ensures AllTookEffect(Next(reading, j, e).sync.db, Next(reading, j, e).done)
  {
    var after := Next(reading, j, e);
    EffectsStay(j.done, after.done);
    if e.Sync? && (e.event.Create? || e.event.Mutate?) && TakesEffect(j, e.event) {
      assert after.done[|j.done|].origin == Some(RequestOf(j, e.event));
      NewEffect(reading, j, e.event, e.now);
    } else {
      assert after.sync.db.applied == j.sync.db.applied && after.sync.db.resources == j.sync.db.resources;
    }
  }

  lemma NewEffect(reading: Reading, j: Joint, event: GroupPush.Event, now: Time)
    requires Enabled(reading, j, Sync(event, now)) && (event.Create? || event.Mutate?) && TakesEffect(j, event)
    ensures event.Create? ==>
              var q, after := RequestOf(j, event), Next(reading, j, Sync(event, now)).sync.db;
              && after.applied == j.sync.db.applied
              && after.resources == j.sync.db.resources + [GroupPush.Resource(GroupPush.KeyOf(q), q.body, false)]
    ensures event.Mutate? ==>
              var q, after := RequestOf(j, event), Next(reading, j, Sync(event, now)).sync.db;
              && after.applied == j.sync.db.applied + [q] && |after.resources| == |j.sync.db.resources|
              && forall r | 0 <= r < |after.resources| ::
                   && after.resources[r].key == j.sync.db.resources[r].key
                   && after.resources[r].body == j.sync.db.resources[r].body
  {
  }

  lemma {:induction false} RunKeepsEffects(reading: Reading, start: Store,
      states: seq<Joint>, events: seq<Event>, n: nat)
    requires IsRun(reading, start, states, events) && n < |states|
    ensures AllTookEffect(states[n].sync.db, states[n].done)
  {
    if n > 0 {
      RunKeepsEffects(reading, start, states, events, n - 1);
      assert Enabled(reading, states[n - 1], events[n - 1])
          && states[n - 1 + 1] == Next(reading, states[n - 1], events[n - 1]);
      NextKeepsEffects(reading, states[n - 1], events[n - 1]);
    }
  }

  /**
   * Nothing is answered with success that the ledger has not done: over every run an answered
   * request, or one with the same key and body, is among those that took effect.
   */
  lemma AnsweredTookEffect(reading: Reading, start: Store, states: seq<Joint>, events: seq<Event>, n: nat,
      id: GroupPush.RequestId)
    requires Reads(reading) && IsRun(reading, start, states, events) && n < |states|
    requires id in states[n].sync.progress && states[n].sync.progress[id].Answered?
    ensures var q, done := states[n].sync.progress[id].request, states[n].done;
            exists i :: 0 <= i < |done| && done[i].origin.Some? && SameRequest(done[i].origin.value, q)
                        && done[i].origin.value.kind == q.kind && done[i].origin.value.group == q.group
                        && done[i].origin.value.body == q.body
  {
    RunKeepsInv(reading, start, states, events, n);
    RunKeepsEffects(reading, start, states, events, n);
    var s := states[n].sync;
    var q := s.progress[id].request;
    assert GroupPush.ProgressOk(s.db, s.progress[id], s.arrived);
    if q.kind.Creates() {
      var r: nat :| GroupPush.HasResource(s.db, q, r);
      assert MadeEffect(states[n].done, s.db.resources[r]);
    } else {
      var k := AppliedBefore(s.db, q);
      assert TookEffect(states[n].done, s.db.applied[k]);
    }
  }

  lemma AppliedBefore(db: GroupPush.Database, q: Request) returns (k: nat)
    requires GroupPush.ReceiptsMatch(db) && (q.actor, q.record) in db.receipts
    requires db.receipts[(q.actor, q.record)] == GroupPush.Receipt(q.group, q.kind, q.body)
    ensures k < |db.applied| && db.applied[k] == q
  {
    assert GroupPush.WasApplied(db.applied, q.actor, q.record);
    k :| 0 <= k < |db.applied| && db.applied[k].actor == q.actor && db.applied[k].record == q.record;
  }

  // ---------- the service ----------

  class PushService {
    const server: GroupPush.GroupSyncServer
    const ledger: LedgerService
    var rowOf: seq<nat>

    ghost function Now(): Tables
      reads this, server, ledger
    {
      Tables(server.Db(), ledger.Rows(), rowOf)
    }

    constructor (server: GroupPush.GroupSyncServer, ledger: LedgerService)
      requires server.resources == []
      ensures this.server == server && this.ledger == ledger && rowOf == []
    {
      this.server := server;
      this.ledger := ledger;
      rowOf := [];
    }

    /** Asks the ledger to perform the operation. */
    method Perform(op: Option<Operation>, now: Time) returns (done: bool)
      requires op.Some? ==> !op.value.ChangeGroup?
      modifies ledger`expenses, ledger`settlements, ledger`itemizedLines
      ensures done == IsValid(old(ledger.Rows()), op, now)
      ensures ledger.Rows() == if done then Step(old(ledger.Rows()), op.value, now) else old(ledger.Rows())
    {
      if op.None? {
        return false;
      }
      match op.value {
        case FastCreate(q) =>
          var r := ledger.CreateFastSplit(q, now);
          done := r.Success?;
        case ItemizedCreate(q) =>
          var r := ledger.CreateItemized(q, now);
          done := r.Success?;
        case Settle(q) =>
          var r := ledger.CreateSettlement(q, now);
          done := r.Success?;
        case PushUpdate(q) =>
          var r := ledger.PushExpenseUpdate(q, now);
          done := r.Success?;
        case PushDelete(q) =>
          var r := ledger.PushExpenseDelete(q, now);
          done := r.Success?;
      }
    }

    /** The first commit of a create: a known key is replayed or refused without asking the ledger. */
    method PushCreate(q: Request, op: Option<Operation>, now: Time) returns (r: GroupPush.CreateResult)
      requires q.kind.Creates() && (op.Some? ==> Asks(q, op.value)) && |rowOf| == |server.resources|
      modifies server`resources, server`records, ledger`expenses, ledger`settlements, ledger`itemizedLines, this`rowOf
      ensures Now() == AfterCreate(old(Now()), q, op, now)
      ensures r == GroupPush.CreateOutcome(old(server.Db()), q, IsValid(old(ledger.Rows()), op, now))
    {
      if (q.group, q.actor) !in server.members || GroupPush.KeyOf(q) in server.records {
        r := server.CreateResource(q, false);
        return;
      }
      var row := |ledger.expenses|;
      if q.kind.SettlementCreate? {
        row := |ledger.settlements|;
      }
      var done := Perform(op, now);
      r := server.CreateResource(q, done);
      if done {
        rowOf := rowOf + [row];
      }
    }

    /** A deleted expense is no longer available to replays. */
    method MarkDeleted(op: Operation)
      requires |rowOf| == |server.resources|
      modifies server`resources
      ensures server.Db() == Marked(old(server.Db()), rowOf, op)
    {
      for r := 0 to |server.resources|
        invariant |server.resources| == |old(server.resources)|
        invariant forall k | 0 <= k < r :: server.resources[k] == Marked(old(server.Db()), rowOf, op).resources[k]
        invariant forall k | r <= k < |server.resources| :: server.resources[k] == old(server.resources)[k]
      {
        if IsRowOf(server.resources[r], rowOf[r], op) {
          server.resources := server.resources[r := server.resources[r].(deleted := true)];
        }
      }
    }

    /** The commit of a change: a known record id is replayed or refused without asking the ledger. */
    method PushChange(q: Request, op: Option<Operation>, now: Time) returns (r: GroupPush.Answer)
      requires !q.kind.Creates() && (op.Some? ==> Asks(q, op.value)) && |rowOf| == |server.resources|
      requires (q.group, q.actor) in server.members
      modifies server, ledger`expenses, ledger`settlements, ledger`itemizedLines
      ensures Now() == AfterChange(old(Now()), q, op, now)
      ensures r == GroupPush.AnswerTo(
          GroupPush.MutationOutcome(old(server.Db()), q, IsValid(old(ledger.Rows()), op, now)))
    {
      if (q.actor, q.record) in server.receipts {
        r := server.PushExpenseMutation(q, false);
        return;
      }
      var done := Perform(op, now);
      r := server.PushExpenseMutation(q, done);
      if done {
        MarkDeleted(op.value);
      }
    }
  }
}
