/**
 * Personal transaction sync: last writer wins by client timestamp, deletes leave
 * tombstones.  Every query is filtered by user, so one user's rows are one table.
 */
module PersonalSync {
  import opened Basics

  type RecordId = nat
  type RowId = nat
  type Time = int

  /** All payload fields apart from the record id and the client timestamp. */
  type Payload = nat

  datatype Row = Row(
    id: RowId,
    installation: nat,
    payload: Payload,
    clientUpdatedAt: Time,
    updatedAt: Time,
    deletedAt: Option<Time>)

  type Rows = map<RecordId, Row>

  datatype Operation =
    | Upsert(record: RecordId, stamp: Time, payload: Payload)
    | Delete(record: RecordId, stamp: Time)

  datatype Status = Created | Updated | Unchanged | Deleted | Conflict

  /** What the server adds to an operation: its clock, a new primary key and the sending installation. */
  datatype Context = Context(now: Time, newId: RowId, installation: nat)

  // ---------- one operation ----------

  function InsertedRow(op: Operation, c: Context): Row
    requires op.Upsert?
  {
    Row(c.newId, c.installation, op.payload, op.stamp, c.now, None)
  }

  function Applied(rows: Rows, op: Operation, c: Context): Rows {
    match op
    case Upsert(r, stamp, payload) =>
      if r !in rows then rows[r := InsertedRow(op, c)]
      else if rows[r].clientUpdatedAt < stamp then
        rows[r := rows[r].(payload := payload, clientUpdatedAt := stamp, installation := c.installation,
                           deletedAt := None, updatedAt := c.now)]
      else rows
    case Delete(r, stamp) =>
      if r in rows && rows[r].clientUpdatedAt < stamp then
        rows[r := rows[r].(clientUpdatedAt := stamp, deletedAt := Some(c.now), updatedAt := c.now)]
      else rows
  }

  function StatusOf(rows: Rows, op: Operation): Status {
    match op
    case Upsert(r, stamp, payload) =>
      if r !in rows then Created
      else if rows[r].clientUpdatedAt < stamp then Updated
      else if rows[r].clientUpdatedAt == stamp && rows[r].payload == payload && rows[r].deletedAt.None? then Unchanged
      else Conflict
    case Delete(r, stamp) =>
      if r !in rows then Unchanged
      else if rows[r].clientUpdatedAt < stamp then Deleted
      else if rows[r].clientUpdatedAt == stamp && rows[r].deletedAt.Some? then Unchanged
      else Conflict
  }

  ghost function AppliedAll(rows: Rows, ops: seq<Operation>, cs: seq<Context>): Rows
    requires |ops| == |cs|
  {
    if ops == [] then rows else
      Applied(AppliedAll(rows, ops[..|ops| - 1], cs[..|cs| - 1]), ops[|ops| - 1], cs[|cs| - 1])
  }

  /** The stored client timestamp of a record strictly grows at every applied change, and rows never disappear. */
  lemma AppliedChangesGrow(rows: Rows, op: Operation, c: Context)
    ensures rows.Keys <= Applied(rows, op, c).Keys
    ensures StatusOf(rows, op) in {Created, Updated, Deleted} <==> Applied(rows, op, c) != rows
    ensures forall r | r in rows ::
        Applied(rows, op, c)[r] == rows[r] || Applied(rows, op, c)[r].clientUpdatedAt > rows[r].clientUpdatedAt
  {
    var next := Applied(rows, op, c);
    if op.record in rows && next != rows {
      assert next[op.record].clientUpdatedAt == op.stamp > rows[op.record].clientUpdatedAt;
    }
  }

  // ---------- visible state ----------

  /** What clients can see of a record: a tombstone hides the payload it still stores. */
  datatype View = View(stamp: Time, live: Option<Payload>)

  ghost function Visible(rows: Rows, r: RecordId): Option<View> {
    if r !in rows then None
    else Some(View(rows[r].clientUpdatedAt, if rows[r].deletedAt.None? then Some(rows[r].payload) else None))
  }

  ghost function ViewOf(op: Operation): View {
    View(op.stamp, if op.Upsert? then Some(op.payload) else None)
  }

  /** The effect of an operation on the visible state of one record. */
  ghost function Seen(v: Option<View>, op: Operation, r: RecordId): Option<View> {
    if op.record != r then v
    else if v.None? then (if op.Upsert? then Some(ViewOf(op)) else None)
    else if v.value.stamp < op.stamp then Some(ViewOf(op))
    else v
  }

  ghost function SeenAll(v: Option<View>, ops: seq<Operation>, r: RecordId): Option<View> {
    if ops == [] then v else Seen(SeenAll(v, ops[..|ops| - 1], r), ops[|ops| - 1], r)
  }

  lemma {:induction false} VisibleAfter(rows: Rows, ops: seq<Operation>, cs: seq<Context>, r: RecordId)
    requires |ops| == |cs|
    ensures Visible(AppliedAll(rows, ops, cs), r) == SeenAll(Visible(rows, r), ops, r)
  {
    if ops != [] {
      VisibleAfter(rows, ops[..|ops| - 1], cs[..|cs| - 1], r);
    }
  }

  // ---------- last writer wins ----------

  ghost predicate DistinctStamps(ops: seq<Operation>, r: RecordId) {
    forall i, j | 0 <= i < j < |ops| && ops[i].record == r && ops[j].record == r :: ops[i].stamp != ops[j].stamp
  }

  /** The state after any operations is that of the newest operation, if it is newer than what was stored. */
  lemma {:induction false} NewestWins(v: View, ops: seq<Operation>, r: RecordId)
    ensures SeenAll(Some(v), ops, r).Some?
    ensures var w := SeenAll(Some(v), ops, r).value;
            && w.stamp >= v.stamp
            && (forall i | 0 <= i < |ops| && ops[i].record == r :: ops[i].stamp <= w.stamp)
            && (w == v
                || exists i :: 0 <= i < |ops| && ops[i].record == r && ops[i].stamp > v.stamp && w == ViewOf(ops[i]))
  {
    if ops != [] {
      var rest := ops[..|ops| - 1];
      NewestWins(v, rest, r);
      var before := SeenAll(Some(v), rest, r).value;
      if before != v {
        var i :| 0 <= i < |rest| && rest[i].record == r && rest[i].stamp > v.stamp && before == ViewOf(rest[i]);
        assert ops[i] == rest[i];
      }
    }
  }

  /** For an unknown record whose newest operation is an upsert, that upsert wins in any position. */
  lemma {:induction false} NewestUpsertWins(ops: seq<Operation>, r: RecordId, k: nat)
    requires IsNewest(ops, r, k) && ops[k].Upsert?
    ensures SeenAll(None, ops, r) == Some(ViewOf(ops[k]))
  {
    var rest := ops[..|ops| - 1];
    if k == |ops| - 1 {
      StampsComeFromOperations(rest, r);
    } else {
      NewestUpsertWins(rest, r, k);
    }
  }

  lemma {:induction false} StampsComeFromOperations(ops: seq<Operation>, r: RecordId)
    ensures var w := SeenAll(None, ops, r);
            w.Some? ==> exists i :: 0 <= i < |ops| && ops[i].record == r && w == Some(ViewOf(ops[i]))
    ensures SeenAll(None, ops, r).None? <==> forall i | 0 <= i < |ops| && ops[i].record == r :: ops[i].Delete?
  {
    if ops != [] {
      var rest := ops[..|ops| - 1];
      StampsComeFromOperations(rest, r);
      var w := SeenAll(None, rest, r);
      if w.Some? {
        var i :| 0 <= i < |rest| && rest[i].record == r && w == Some(ViewOf(rest[i]));
        assert ops[i] == rest[i];
      }
    }
  }

  ghost predicate OrderIrrelevant(v: Option<View>, ops: seq<Operation>, r: RecordId) {
    forall other: seq<Operation> | multiset(other) == multiset(ops) :: SeenAll(v, other, r) == SeenAll(v, ops, r)
  }

  ghost predicate IsNewest(ops: seq<Operation>, r: RecordId, k: nat) {
    && k < |ops| && ops[k].record == r
    && forall i | 0 <= i < |ops| && i != k && ops[i].record == r :: ops[i].stamp < ops[k].stamp
  }

  /** The guard a caller can check: some delete of the record is newer than every upsert of it. */
  ghost predicate DeleteIsNewest(ops: seq<Operation>, r: RecordId) {
    exists k: nat :: IsNewest(ops, r, k) && ops[k].Delete?
  }

  ghost predicate NoUpsert(ops: seq<Operation>, r: RecordId) {
    forall i | 0 <= i < |ops| && ops[i].record == r :: ops[i].Delete?
  }

  lemma InBoth(a: seq<Operation>, b: seq<Operation>, i: nat) returns (j: nat)
    requires multiset(a) == multiset(b) && i < |a|
    ensures j < |b| && b[j] == a[i]
  {
    assert a[i] in multiset(b);
    j :| 0 <= j < |b| && b[j] == a[i];
  }

  lemma {:induction false} NewestExists(ops: seq<Operation>, r: RecordId, m: nat)
    requires m < |ops| && ops[m].record == r
    requires DistinctStamps(ops, r)
    ensures exists k: nat :: IsNewest(ops, r, k)
    decreases |ops|
  {
    var n := |ops| - 1;
    var rest := ops[..n];
    if i :| 0 <= i < n && ops[i].record == r {
      assert rest[i].record == r;
      forall x, y | 0 <= x < y < |rest| && rest[x].record == r && rest[y].record == r
        ensures rest[x].stamp != rest[y].stamp {
        assert ops[x].stamp != ops[y].stamp;
      }
      NewestExists(rest, r, i);
      var k: nat :| IsNewest(rest, r, k);
      NewestOfMore(ops, r, k);
    } else {
      assert IsNewest(ops, r, m);
    }
  }

  lemma NewestOfMore(ops: seq<Operation>, r: RecordId, k: nat)
    requires ops != [] && DistinctStamps(ops, r) && IsNewest(ops[..|ops| - 1], r, k)
    ensures exists k': nat :: IsNewest(ops, r, k')
  {
    var n := |ops| - 1;
    assert forall i | 0 <= i < n :: ops[i] == ops[..n][i];
    if ops[n].record == r && ops[n].stamp > ops[k].stamp {
      assert IsNewest(ops, r, n);
    } else {
      assert IsNewest(ops, r, k);
    }
  }

  lemma CountOne(ops: seq<Operation>, k: nat)
    requires k < |ops| && forall i | 0 <= i < |ops| && i != k :: ops[i] != ops[k]
    ensures multiset(ops)[ops[k]] == 1
  {
    var before, after := ops[..k], ops[k + 1..];
    assert ops == before + [ops[k]] + after;
    assert ops[k] !in before && ops[k] !in after;
    assert ops[k] !in multiset(before) && ops[k] !in multiset(after);
  }

  lemma CountTwo(ops: seq<Operation>, i: nat, j: nat)
    requires i < j < |ops| && ops[i] == ops[j]
    ensures multiset(ops)[ops[i]] >= 2
  {
    var before, after := ops[..j], ops[j + 1..];
    assert ops == before + [ops[j]] + after;
    assert before[i] in multiset(before);
  }

  /** The newest operation is the newest wherever it stands. */
  lemma NewestInAnyOrder(ops: seq<Operation>, other: seq<Operation>, r: RecordId, k: nat, j: nat)
    requires multiset(ops) == multiset(other) && IsNewest(ops, r, k) && j < |other| && other[j] == ops[k]
    ensures IsNewest(other, r, j)
  {
    forall i | 0 <= i < |other| && i != j && other[i].record == r
      ensures other[i].stamp < other[j].stamp
    {
      var m := InBoth(other, ops, i);
      if other[i] == other[j] {
        CountOne(ops, k);
        CountTwo(other, if i < j then i else j, if i < j then j else i);
        assert false;
      }
    }
  }

  /** On a known record the order in which distinctly stamped operations arrive is irrelevant. */
  lemma KnownRecordIgnoresOrder(v: View, ops: seq<Operation>, r: RecordId)
    requires DistinctStamps(ops, r)
    ensures OrderIrrelevant(Some(v), ops, r)
  {
    forall other: seq<Operation> | multiset(other) == multiset(ops)
      ensures SeenAll(Some(v), other, r) == SeenAll(Some(v), ops, r)
    {
      NewestWins(v, ops, r);
      NewestWins(v, other, r);
      var a, b := SeenAll(Some(v), ops, r).value, SeenAll(Some(v), other, r).value;
      if a != v {
        var i :| 0 <= i < |ops| && ops[i].record == r && ops[i].stamp > v.stamp && a == ViewOf(ops[i]);
        var j := InBoth(ops, other, i);
        assert b.stamp >= a.stamp;
      }
      if b != v {
        var j :| 0 <= j < |other| && other[j].record == r && other[j].stamp > v.stamp && b == ViewOf(other[j]);
        var m := InBoth(other, ops, j);
        assert a.stamp >= b.stamp;
        var i :| 0 <= i < |ops| && ops[i].record == r && ops[i].stamp > v.stamp && a == ViewOf(ops[i]);
        assert ops[i].stamp == ops[m].stamp;
      }
    }
  }

  /**
   * A delete for an unknown record leaves no tombstone.  So the order of distinctly
   * stamped operations is irrelevant exactly when the record is known, or no upsert
   * creates it, or its newest operation is not a delete.
   */
  lemma OrderIrrelevantExactlyWhen(v: Option<View>, ops: seq<Operation>, r: RecordId)
    requires DistinctStamps(ops, r)
    ensures OrderIrrelevant(v, ops, r) <==> v.Some? || NoUpsert(ops, r) || !DeleteIsNewest(ops, r)
  {
    if v.Some? {
      KnownRecordIgnoresOrder(v.value, ops, r);
    } else if NoUpsert(ops, r) {
      forall other: seq<Operation> | multiset(other) == multiset(ops)
        ensures SeenAll(None, other, r) == SeenAll(None, ops, r)
      {
        forall i | 0 <= i < |other| && other[i].record == r ensures other[i].Delete? {
          var j := InBoth(other, ops, i);
        }
        StampsComeFromOperations(other, r);
        StampsComeFromOperations(ops, r);
      }
    } else if DeleteIsNewest(ops, r) {
      EarlyDeleteIsLost(ops, r);
    } else {
      var m :| 0 <= m < |ops| && ops[m].record == r && ops[m].Upsert?;
      NewestExists(ops, r, m);
      var k: nat :| IsNewest(ops, r, k);
      NewestUpsertWins(ops, r, k);
      forall other: seq<Operation> | multiset(other) == multiset(ops)
        ensures SeenAll(None, other, r) == SeenAll(None, ops, r)
      {
        var j := InBoth(ops, other, k);
        NewestInAnyOrder(ops, other, r, k, j);
        NewestUpsertWins(other, r, j);
      }
    }
  }

  lemma MoveOut(ops: seq<Operation>, k: nat) returns (others: seq<Operation>)
    requires k < |ops|
    ensures multiset(others + [ops[k]]) == multiset(ops) && multiset([ops[k]] + others) == multiset(ops)
    ensures |others| == |ops| - 1 && forall i | 0 <= i < |others| :: others[i] == ops[if i < k then i else i + 1]
  {
    others := ops[..k] + ops[k + 1..];
    assert ops == ops[..k] + [ops[k]] + ops[k + 1..];
  }

  lemma EarlyDeleteIsLost(ops: seq<Operation>, r: RecordId)
    requires DeleteIsNewest(ops, r) && !NoUpsert(ops, r)
    ensures !OrderIrrelevant(None, ops, r)
  {
    var k: nat :| IsNewest(ops, r, k) && ops[k].Delete?;
    var d := ops[k];
    var others := MoveOut(ops, k);
    var u :| 0 <= u < |ops| && ops[u].record == r && ops[u].Upsert?;
    assert others[if u < k then u else u - 1] == ops[u];
    StampsComeFromOperations(others, r);
    var i :| 0 <= i < |others| && others[i].record == r && SeenAll(None, others, r) == Some(ViewOf(others[i]));
    assert others[i].stamp < d.stamp;
    assert (others + [d])[..|others|] == others;
    assert SeenAll(None, others + [d], r) == Some(ViewOf(d));
    DroppedDelete(d, others, r);
    assert SeenAll(None, [d] + others, r) != SeenAll(None, others + [d], r);
  }

  lemma {:induction false} DroppedDelete(d: Operation, ops: seq<Operation>, r: RecordId)
    requires d.Delete?
    ensures SeenAll(None, [d] + ops, r) == SeenAll(None, ops, r)
    decreases |ops|
  {
    if ops == [] {
      assert [d][..0] == [];
    } else {
      DroppedDelete(d, ops[..|ops| - 1], r);
      assert ([d] + ops)[..|ops|] == [d] + ops[..|ops| - 1];
    }
  }

  // ---------- pushing a batch again ----------

  ghost predicate Stale(rows: Rows, op: Operation) {
    if op.record in rows then op.stamp <= rows[op.record].clientUpdatedAt else op.Delete?
  }

  lemma {:induction false} StaleBatchChangesNothing(rows: Rows, ops: seq<Operation>, cs: seq<Context>)
    requires |ops| == |cs| && forall op | op in ops :: Stale(rows, op)
    ensures AppliedAll(rows, ops, cs) == rows
  {
    if ops != [] {
      assert ops[|ops| - 1] in ops;
      StaleBatchChangesNothing(rows, ops[..|ops| - 1], cs[..|cs| - 1]);
    }
  }

  lemma {:induction false} UnchangedBatchIsStale(rows: Rows, ops: seq<Operation>, cs: seq<Context>, k: nat)
    requires |ops| == |cs| && AppliedAll(rows, ops, cs) == rows && k < |ops|
    ensures Stale(rows, ops[k])
  {
    var r := ops[k].record;
    VisibleAfter(rows, ops, cs, r);
    if r in rows {
      NewestWins(Visible(rows, r).value, ops, r);
    } else {
      StampsComeFromOperations(ops, r);
    }
  }

  /** A delete of an unknown record that comes before any upsert of it: the server drops it. */
  ghost predicate Dropped(ops: seq<Operation>, i: nat)
    requires i < |ops|
  {
    ops[i].Delete? && forall j | 0 <= j < i && ops[j].record == ops[i].record :: ops[j].Delete?
  }

  /** Some kept operation on the same record is at least as new. */
  ghost predicate Outdone(ops: seq<Operation>, i: nat)
    requires i < |ops|
  {
    exists j :: 0 <= j < |ops| && ops[j].record == ops[i].record && !Dropped(ops, j) && ops[j].stamp >= ops[i].stamp
  }

  /** What a caller checks before retrying a batch. */
  ghost predicate SafeToRepeat(known: set<RecordId>, ops: seq<Operation>) {
    forall i | 0 <= i < |ops| && Dropped(ops, i) ::
      ops[i].record in known || NoUpsert(ops, ops[i].record) || Outdone(ops, i)
  }

  /** An unknown record ends with the newest of the operations that were kept. */
  lemma {:induction false} KeptOperationsCount(ops: seq<Operation>, r: RecordId)
    ensures var w := SeenAll(None, ops, r);
            w.Some? ==>
              && (forall i | 0 <= i < |ops| && ops[i].record == r && !Dropped(ops, i) :: ops[i].stamp <= w.value.stamp)
              && exists i :: 0 <= i < |ops| && ops[i].record == r && !Dropped(ops, i) && w == Some(ViewOf(ops[i]))
    ensures SeenAll(None, ops, r).None? <==> forall i | 0 <= i < |ops| && ops[i].record == r :: Dropped(ops, i)
  {
    if ops != [] {
      var n := |ops| - 1;
      var rest := ops[..n];
      KeptOperationsCount(rest, r);
      forall i | 0 <= i < n ensures Dropped(ops, i) <==> Dropped(rest, i) {
        assert forall j | 0 <= j < i :: ops[j] == rest[j];
      }
      var w := SeenAll(None, rest, r);
      if w.Some? {
        var i :| 0 <= i < |rest| && rest[i].record == r && !Dropped(rest, i) && w == Some(ViewOf(rest[i]));
        assert ops[i] == rest[i];
        assert !Dropped(ops, i);
        if ops[n].record == r { NotDroppedAfter(ops, i, n); }
      } else if ops[n].record == r {
        forall j | 0 <= j < n && ops[j].record == r ensures ops[j].Delete? {
          assert Dropped(rest, j);
        }
      }
    }
  }

  lemma NotDroppedAfter(ops: seq<Operation>, i: nat, n: nat)
    requires i < n < |ops| && ops[i].record == ops[n].record && !Dropped(ops, i)
    ensures !Dropped(ops, n)
  {
  }

  /** Pushing a batch a second time changes no row exactly when the batch is safe to repeat. */
  lemma RepeatedBatchChangesNothingExactlyWhen(rows: Rows,
      ops: seq<Operation>, first: seq<Context>, second: seq<Context>)
    requires |ops| == |first| == |second|
    ensures AppliedAll(AppliedAll(rows, ops, first), ops, second) == AppliedAll(rows, ops, first)
       <==> SafeToRepeat(rows.Keys, ops)
  {
    var after := AppliedAll(rows, ops, first);
    if SafeToRepeat(rows.Keys, ops) {
      forall op | op in ops ensures Stale(after, op) {
        var i :| 0 <= i < |ops| && ops[i] == op;
        SafeOperationIsStale(rows, ops, first, i);
      }
      StaleBatchChangesNothing(after, ops, second);
    }
    if AppliedAll(after, ops, second) == after {
      forall i | 0 <= i < |ops| && Dropped(ops, i)
        ensures ops[i].record in rows || NoUpsert(ops, ops[i].record) || Outdone(ops, i)
      {
        var r := ops[i].record;
        UnchangedBatchIsStale(after, ops, second, i);
        VisibleAfter(rows, ops, first, r);
        if r !in rows {
          KeptOperationsCount(ops, r);
          StampsComeFromOperations(ops, r);
        }
      }
    }
  }

  lemma SafeOperationIsStale(rows: Rows, ops: seq<Operation>, cs: seq<Context>, i: nat)
    requires |ops| == |cs| && i < |ops| && SafeToRepeat(rows.Keys, ops)
    ensures Stale(AppliedAll(rows, ops, cs), ops[i])
  {
    var r := ops[i].record;
    VisibleAfter(rows, ops, cs, r);
    if r in rows {
      NewestWins(Visible(rows, r).value, ops, r);
    } else {
      KeptOperationsCount(ops, r);
      StampsComeFromOperations(ops, r);
    }
  }

  /** In particular: a batch whose first operation on every unknown record is an upsert. */
  lemma UpsertFirstIsSafeToRepeat(known: set<RecordId>, ops: seq<Operation>)
    requires forall i | 0 <= i < |ops| && ops[i].record !in known && ops[i].Delete? ::
               exists j :: 0 <= j < i && ops[j].record == ops[i].record && ops[j].Upsert?
    ensures SafeToRepeat(known, ops)
  {
  }

  /** Without that, a retry deletes what the first push left alive. */
  lemma UnsafeBatchExample()
    ensures var ops := [Delete(1, 20), Upsert(1, 10, 7)];
            var once := AppliedAll(map[], ops, [Context(30, 1, 0), Context(31, 1, 0)]);
            var twice := AppliedAll(once, ops, [Context(32, 2, 0), Context(33, 2, 0)]);
            && !SafeToRepeat({}, ops)
            && Visible(once, 1) == Some(View(10, Some(7))) && Visible(twice, 1) == Some(View(20, None)) && once != twice
  {
    var ops := [Delete(1, 20), Upsert(1, 10, 7)];
    var first, second := [Context(30, 1, 0), Context(31, 1, 0)], [Context(32, 2, 0), Context(33, 2, 0)];
    assert ops[0].record !in {} && ops[0].Delete?;
    assert ops[..1] == [Delete(1, 20)] && ops[..1][..0] == [];
    assert first[..1] == [Context(30, 1, 0)] && second[..1] == [Context(32, 2, 0)];
    var once := AppliedAll(map[], ops, first);
    assert AppliedAll(map[], ops[..1], first[..1]) == map[];
    assert AppliedAll(once, ops[..1][..0], second[..1][..0]) == once;
  }

  lemma OneSeen(op: Operation, r: RecordId)
    ensures SeenAll(None, [op], r) == Seen(None, op, r)
  {
    assert [op][..0] == [];
  }

  /** A delete that arrives before the older upsert is lost; in the other order it wins. */
  lemma OrderMattersExample()
    ensures var ops, other := [Upsert(1, 10, 7), Delete(1, 20)], [Delete(1, 20), Upsert(1, 10, 7)];
            && multiset(ops) == multiset(other) && DistinctStamps(ops, 1)
            && SeenAll(None, ops, 1) == Some(View(20, None)) && SeenAll(None, other, 1) == Some(View(10, Some(7)))
            && !OrderIrrelevant(None, ops, 1)
  {
    var ops, other := [Upsert(1, 10, 7), Delete(1, 20)], [Delete(1, 20), Upsert(1, 10, 7)];
    assert ops[..1] == [Upsert(1, 10, 7)] && other[..1] == [Delete(1, 20)];
    OneSeen(ops[0], 1);
    OneSeen(other[0], 1);
  }
}
