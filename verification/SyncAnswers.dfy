/**
 * What the answers to personal push and claim tell a client about the stored record, and
 * what an operation may change of it.
 */
module SyncAnswers {
  import opened Basics
  import opened PersonalSync
  import opened SyncServices

  // ---------- one operation ----------

  /** What the status of an operation means, in terms of what was visible of the record before. */
  ghost predicate Tells(status: Status, before: Option<View>, op: Operation) {
    match status
    case Created => op.Upsert? && before == None
    case Updated => op.Upsert? && before != None && before.value.stamp < op.stamp
    case Deleted => op.Delete? && before != None && before.value.stamp < op.stamp
    // The record already is as the operation wants it; a delete of an unknown record counts as that.
    case Unchanged => before == Some(ViewOf(op)) || (op.Delete? && before == None)
    // Something else is stored that is not older.
    case Conflict => before != None && before.value.stamp >= op.stamp && before.value != ViewOf(op)
  }

  /**
   * Each status is answered exactly when it tells the truth.  After success the record is
   * visible as the operation says; with any other answer no row has changed.
   */
  lemma StatusTellsOutcome(rows: Rows, op: Operation, c: Context)
    ensures forall status :: StatusOf(rows, op) == status <==> Tells(status, Visible(rows, op.record), op)
    ensures StatusOf(rows, op) in {Created, Updated, Deleted} ==>
              Visible(Applied(rows, op, c), op.record) == Some(ViewOf(op))
    ensures StatusOf(rows, op) in {Unchanged, Conflict} ==> Applied(rows, op, c) == rows
  {
  }

  /** An operation sent again is answered unchanged if it succeeded, and as before if it did not. */
  lemma RepeatedOperation(rows: Rows, op: Operation, c: Context)
    ensures StatusOf(Applied(rows, op, c), op) ==
            if StatusOf(rows, op) in {Created, Updated, Deleted} then Unchanged else StatusOf(rows, op)
  {
    StatusTellsOutcome(rows, op, c);
  }

  /**
   * What an operation leaves of a row: the primary key always stays, and a tombstone keeps
   * payload and installation.  Every change is stamped with the server's clock, and no other
   * record is touched.
   */
  lemma RowAfter(rows: Rows, op: Operation, c: Context)
    ensures forall r | r in rows :: r in Applied(rows, op, c) && Applied(rows, op, c)[r].id == rows[r].id
    ensures forall r | r != op.record :: r in Applied(rows, op, c) <==> r in rows
    ensures forall r | r != op.record && r in rows :: Applied(rows, op, c)[r] == rows[r]
    ensures Applied(rows, op, c) != rows ==>
              var after := Applied(rows, op, c)[op.record];
              && after.updatedAt == c.now && after.clientUpdatedAt == op.stamp
              && (op.Upsert? ==> after.installation == c.installation && after.deletedAt == None)
              && (op.Upsert? && op.record !in rows ==> after.id == c.newId)
              && (op.Delete? ==> op.record in rows && after.deletedAt == Some(c.now)
                                 && after.payload == rows[op.record].payload
                                 && after.installation == rows[op.record].installation)
  {
  }

  // ---------- a push ----------

  lemma {:induction false} OutcomesInOrder(rows: Rows, ops: seq<Operation>, cs: seq<Context>, i: nat)
    requires |ops| == |cs| && i < |ops|
    ensures |StatusesOf(rows, ops, cs)| == |ops|
    ensures StatusesOf(rows, ops, cs)[i] ==
            Outcome(ops[i].record, StatusOf(AppliedAll(rows, ops[..i], cs[..i]), ops[i]))
    decreases |ops|
  {
    var n := |ops| - 1;
    if i < n {
      OutcomesInOrder(rows, ops[..n], cs[..n], i);
      assert ops[..n][..i] == ops[..i] && cs[..n][..i] == cs[..i];
    } else if n > 0 {
      OutcomesInOrder(rows, ops[..n], cs[..n], 0);
    }
  }

  /**
   * Every operation of a batch is answered for its own record, and the answer tells the truth
   * about the record as the operations before it leave it.
   */
  lemma PushTellsOutcomes(rows: Rows, ops: seq<Operation>, cs: seq<Context>, i: nat)
    requires |ops| == |cs| && i < |ops|
    ensures |StatusesOf(rows, ops, cs)| == |ops|
    ensures var outcome, r := StatusesOf(rows, ops, cs)[i], ops[i].record;
            && outcome.record == r
            && Tells(outcome.status, SeenAll(Visible(rows, r), ops[..i], r), ops[i])
  {
    OutcomesInOrder(rows, ops, cs, i);
    VisibleAfter(rows, ops[..i], cs[..i], ops[i].record);
    StatusTellsOutcome(AppliedAll(rows, ops[..i], cs[..i]), ops[i], cs[i]);
  }

  /** Pushing a batch again that is safe to repeat reports no change for any of its operations. */
  lemma RepeatedPushReportsNoChange(rows: Rows, ops: seq<Operation>, first: seq<Context>, second: seq<Context>, i: nat)
    requires |ops| == |first| == |second| && i < |ops| && SafeToRepeat(rows.Keys, ops)
    ensures |StatusesOf(AppliedAll(rows, ops, first), ops, second)| == |ops|
    ensures StatusesOf(AppliedAll(rows, ops, first), ops, second)[i].status in {Unchanged, Conflict}
  {
    var once := AppliedAll(rows, ops, first);
    RepeatedBatchChangesNothingExactlyWhen(rows, ops, first, second);
    OutcomesInOrder(once, ops, second, i);
    forall op | op in ops ensures Stale(once, op) {
      var k :| 0 <= k < |ops| && ops[k] == op;
      UnchangedBatchIsStale(once, ops, second, k);
    }
    StaleBatchChangesNothing(once, ops[..i], second[..i]);
    assert ops[i] in ops;
    StaleReportsNoChange(once, ops[i]);
  }

  lemma StaleReportsNoChange(rows: Rows, op: Operation)
    requires Stale(rows, op)
    ensures StatusOf(rows, op) in {Unchanged, Conflict}
  {
  }

  // ---------- a claim ----------

  lemma {:induction false} ClaimOutcomesInOrder(rows: Rows, raw: seq<RawTransaction>, cs: seq<Context>, i: nat)
    requires |raw| == |cs| && i < |raw|
    ensures |ClaimOutcomes(rows, raw, cs)| == |raw|
    ensures var before := AppliedAll(rows, ClaimedOps(raw[..i]), ClaimedContexts(raw[..i], cs[..i]));
            ClaimOutcomes(rows, raw, cs)[i] ==
              match raw[i]
              case Invalid(record) => ClaimOutcome(record, Rejected)
              case Valid(record, stamp, payload) =>
                ClaimOutcome(Some(record), ClaimStatusOf(StatusOf(before, Upsert(record, stamp, payload))))
    decreases |raw|
  {
    var n := |raw| - 1;
    if i < n {
      ClaimOutcomesInOrder(rows, raw[..n], cs[..n], i);
      assert raw[..n][..i] == raw[..i] && cs[..n][..i] == cs[..i];
    } else if n > 0 {
      ClaimOutcomesInOrder(rows, raw[..n], cs[..n], 0);
    }
  }

  /** What is visible of the record when the claim comes to its transaction `i`. */
  ghost function SeenByClaim(rows: Rows, raw: seq<RawTransaction>, i: nat): Option<View>
    requires i < |raw| && raw[i].Valid?
  {
    SeenAll(Visible(rows, raw[i].record), ClaimedOps(raw[..i]), raw[i].record)
  }

  /**
   * A claimed transaction is accepted exactly when it is valid and newer than what is stored,
   * reported as a duplicate exactly when the record is visible just as claimed, and rejected
   * otherwise: when it is invalid, or something else is stored that is not older.
   */
  lemma ClaimTellsOutcomes(rows: Rows, raw: seq<RawTransaction>, cs: seq<Context>, i: nat)
    requires |raw| == |cs| && i < |raw|
    ensures |ClaimOutcomes(rows, raw, cs)| == |raw|
    ensures var outcome := ClaimOutcomes(rows, raw, cs)[i];
            match raw[i]
            case Invalid(shown) => outcome.record == shown && outcome.status == Rejected
            case Valid(record, stamp, payload) =>
              var before := SeenByClaim(rows, raw, i);
              && outcome.record == Some(record)
              && (outcome.status == Accepted <==> before == None || before.value.stamp < stamp)
              && (outcome.status == Duplicate <==> before == Some(View(stamp, Some(payload))))
  {
    ClaimOutcomesInOrder(rows, raw, cs, i);
    if raw[i].Valid? {
      var ops, contexts := ClaimedOps(raw[..i]), ClaimedContexts(raw[..i], cs[..i]);
      VisibleAfter(rows, ops, contexts, raw[i].record);
      StatusTellsOutcome(AppliedAll(rows, ops, contexts), Upsert(raw[i].record, raw[i].stamp, raw[i].payload), cs[i]);
    }
  }
}
