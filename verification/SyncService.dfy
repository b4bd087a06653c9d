/** The sync service over its guarded writes: push, and claim with its idempotency record. */
module SyncServices {
  import opened Basics
  import opened PersonalSync

  datatype Outcome = Outcome(record: RecordId, status: Status)

  datatype ClaimStatus = Accepted | Duplicate | Rejected

  datatype ClaimOutcome = ClaimOutcome(record: Option<RecordId>, status: ClaimStatus)

  /** A claimed transaction either passes validation or at most shows its record id. */
  datatype RawTransaction =
    | Valid(record: RecordId, stamp: Time, payload: Payload)
    | Invalid(recordShown: Option<RecordId>)

  type ClaimKey = nat
  type RequestHash = nat

  /** The stored outcome of a claim; hashes are injective, so equal hashes mean equal requests. */
  datatype ClaimRecord = ClaimRecord(hash: RequestHash, response: seq<ClaimOutcome>)

  class CloudTransactionRepository {
    var rows: Rows

    constructor ()
      ensures rows == map[]
    {
      rows := map[];
    }

    /** `INSERT ... ON CONFLICT DO NOTHING`. */
    method TryInsert(record: RecordId, row: Row) returns (created: bool)
      modifies this
      ensures created <==> record !in old(rows)
      ensures rows == if created then old(rows)[record := row] else old(rows)
    {
      created := record !in rows;
      if created {
        rows := rows[record := row];
      }
    }

    /** `UPDATE ... WHERE client_updated_at < :client_updated_at`. */
    method UpdateIfNewer(record: RecordId, stamp: Time, payload: Payload, installation: nat, now: Time)
        returns (updated: bool)
      modifies this
      ensures updated <==> record in old(rows) && old(rows)[record].clientUpdatedAt < stamp
      ensures rows ==
          if updated then
            old(rows)[record := old(rows)[record].(payload := payload, clientUpdatedAt := stamp,
                                                   installation := installation, deletedAt := None,
                                                   updatedAt := now)]
          else old(rows)
    {
      updated := record in rows && rows[record].clientUpdatedAt < stamp;
      if updated {
        rows := rows[record := rows[record].(payload := payload, clientUpdatedAt := stamp,
                                             installation := installation, deletedAt := None, updatedAt := now)];
      }
    }

    method DeleteIfNewer(record: RecordId, stamp: Time, deletedAt: Time) returns (deleted: bool)
      modifies this
      ensures deleted <==> record in old(rows) && old(rows)[record].clientUpdatedAt < stamp
      ensures rows ==
          if deleted then
            old(rows)[record := old(rows)[record].(clientUpdatedAt := stamp, deletedAt := Some(deletedAt),
                                                   updatedAt := deletedAt)]
          else old(rows)
    {
      deleted := record in rows && rows[record].clientUpdatedAt < stamp;
      if deleted {
        rows :=
          rows[record := rows[record].(clientUpdatedAt := stamp, deletedAt := Some(deletedAt), updatedAt := deletedAt)];
      }
    }
  }

  function CompareTimestamps(left: Time, right: Time): int {
    (if left > right then 1 else 0) - (if left < right then 1 else 0)
  }

  ghost function StatusesOf(rows: Rows, ops: seq<Operation>, cs: seq<Context>): seq<Outcome>
    requires |ops| == |cs|
  {
    if ops == [] then [] else
      var n := |ops| - 1;
      StatusesOf(rows, ops[..n], cs[..n])
      + [Outcome(ops[n].record, StatusOf(AppliedAll(rows, ops[..n], cs[..n]), ops[n]))]
  }

  class SyncService {
    const transactions: CloudTransactionRepository
    var claims: map<ClaimKey, ClaimRecord>

    constructor (repository: CloudTransactionRepository)
      ensures transactions == repository && claims == map[]
    {
      transactions := repository;
      claims := map[];
    }

    method UpsertRecord(op: Operation, c: Context) returns (status: Status)
      requires op.Upsert?
      modifies transactions
      ensures transactions.rows == Applied(old(transactions.rows), op, c)
      ensures status == StatusOf(old(transactions.rows), op)
    {
      var created := transactions.TryInsert(op.record, InsertedRow(op, c));
      if created {
        return Created;
      }
      var updated := transactions.UpdateIfNewer(op.record, op.stamp, op.payload, c.installation, c.now);
      if updated {
        return Updated;
      }
      var existing := transactions.rows[op.record];
      var freshness := CompareTimestamps(op.stamp, existing.clientUpdatedAt);
      if freshness < 0 {
        return Conflict;
      }
      if freshness == 0 {
        if existing.payload == op.payload && existing.deletedAt.None? {
          return Unchanged;
        }
        return Conflict;
      }
      return Conflict;
    }

    method DeleteRecord(op: Operation, c: Context) returns (status: Status)
      requires op.Delete?
      modifies transactions
      ensures transactions.rows == Applied(old(transactions.rows), op, c)
      ensures status == StatusOf(old(transactions.rows), op)
    {
      var deleted := transactions.DeleteIfNewer(op.record, op.stamp, c.now);
      if deleted {
        return Deleted;
      }
      if op.record !in transactions.rows {
        return Unchanged;
      }
      var existing := transactions.rows[op.record];
      var freshness := CompareTimestamps(op.stamp, existing.clientUpdatedAt);
      if freshness < 0 {
        return Conflict;
      }
      if freshness == 0 && existing.deletedAt.Some? {
        return Unchanged;
      }
      return Conflict;
    }

    method Push(ops: seq<Operation>, cs: seq<Context>) returns (results: seq<Outcome>)
      requires |ops| == |cs|
      modifies transactions
      ensures transactions.rows == AppliedAll(old(transactions.rows), ops, cs)
      ensures results == StatusesOf(old(transactions.rows), ops, cs)
    {
      results := [];
      for i := 0 to |ops|
        invariant transactions.rows == AppliedAll(old(transactions.rows), ops[..i], cs[..i])
        invariant results == StatusesOf(old(transactions.rows), ops[..i], cs[..i])
      {
        var status;
        assert ops[..i + 1][..i] == ops[..i] && cs[..i + 1][..i] == cs[..i];
        match ops[i] {
          case Upsert(_, _, _) => status := UpsertRecord(ops[i], cs[i]);
          case Delete(_, _) => status := DeleteRecord(ops[i], cs[i]);
        }
        assert StatusesOf(old(transactions.rows), ops[..i + 1], cs[..i + 1])
          == StatusesOf(old(transactions.rows), ops[..i], cs[..i]) + [Outcome(ops[i].record, status)];
        results := results + [Outcome(ops[i].record, status)];
      }
      assert ops[..|ops|] == ops && cs[..|cs|] == cs;
    }

    /**
     * Takes over the transactions of an installation.  The key makes it repeatable: the
     * same request is answered from the record without touching a row, a different
     * request under the same key is refused.
     */
    method Claim(key: ClaimKey, hash: RequestHash, raw: seq<RawTransaction>, cs: seq<Context>)
      returns (r: Result<seq<ClaimOutcome>, ()>)
      requires |raw| == |cs|
      modifies this, transactions
      ensures key in old(claims) ==>
                && transactions.rows == old(transactions.rows) && claims == old(claims)
                && r == if old(claims)[key].hash == hash then Success(old(claims)[key].response) else Failure(())
      ensures key !in old(claims) ==>
                && transactions.rows == AppliedAll(old(transactions.rows), ClaimedOps(raw), ClaimedContexts(raw, cs))
                && r == Success(ClaimOutcomes(old(transactions.rows), raw, cs))
                && claims == old(claims)[key := ClaimRecord(hash, r.value)]
    {
      if key in claims {
        return if claims[key].hash == hash then Success(claims[key].response) else Failure(());
      }
      var results: seq<ClaimOutcome> := [];
      for i := 0 to |raw|
        invariant transactions.rows
            == AppliedAll(old(transactions.rows), ClaimedOps(raw[..i]), ClaimedContexts(raw[..i], cs[..i]))
        invariant results == ClaimOutcomes(old(transactions.rows), raw[..i], cs[..i])
        invariant claims == old(claims)
      {
        assert raw[..i + 1][..i] == raw[..i] && cs[..i + 1][..i] == cs[..i];
        ClaimStep(old(transactions.rows), raw[..i + 1], cs[..i + 1]);
        match raw[i]
        case Invalid(record) =>
          results := results + [ClaimOutcome(record, Rejected)];
        case Valid(record, stamp, payload) =>
          var status := UpsertRecord(Upsert(record, stamp, payload), cs[i]);
          results := results + [ClaimOutcome(Some(record), ClaimStatusOf(status))];
      }
      assert raw[..|raw|] == raw && cs[..|cs|] == cs;
      claims := claims[key := ClaimRecord(hash, results)];
      r := Success(results);
    }
  }

  function ClaimStatusOf(status: Status): ClaimStatus {
    if status.Created? || status.Updated? then Accepted
    else if status.Unchanged? then Duplicate
    else Rejected
  }

  function ClaimedOps(raw: seq<RawTransaction>): seq<Operation> {
    if raw == [] then [] else
      var last := raw[|raw| - 1];
      ClaimedOps(raw[..|raw| - 1]) + if last.Valid? then [Upsert(last.record, last.stamp, last.payload)] else []
  }

  function ClaimedContexts(raw: seq<RawTransaction>, cs: seq<Context>): (r: seq<Context>)
    requires |raw| == |cs|
    ensures |r| == |ClaimedOps(raw)|
  {
    if raw == [] then [] else
      var n := |raw| - 1;
      ClaimedContexts(raw[..n], cs[..n]) + if raw[n].Valid? then [cs[n]] else []
  }

  /** Every transaction fares as an upsert against the rows its predecessors left; invalid ones are rejected. */
  ghost function ClaimOutcomes(rows: Rows, raw: seq<RawTransaction>, cs: seq<Context>): seq<ClaimOutcome>
    requires |raw| == |cs|
  {
    if raw == [] then [] else
      var n := |raw| - 1;
      var before := AppliedAll(rows, ClaimedOps(raw[..n]), ClaimedContexts(raw[..n], cs[..n]));
      ClaimOutcomes(rows, raw[..n], cs[..n])
      + [match raw[n]
         case Invalid(record) => ClaimOutcome(record, Rejected)
         case Valid(record, stamp, payload) =>
             ClaimOutcome(Some(record), ClaimStatusOf(StatusOf(before, Upsert(record, stamp, payload))))]
  }

  lemma ClaimStep(rows: Rows, raw: seq<RawTransaction>, cs: seq<Context>)
    requires |raw| == |cs| && raw != []
    ensures var n := |raw| - 1;
            var before := AppliedAll(rows, ClaimedOps(raw[..n]), ClaimedContexts(raw[..n], cs[..n]));
            AppliedAll(rows, ClaimedOps(raw), ClaimedContexts(raw, cs)) ==
              if raw[n].Valid?
                  then Applied(before, Upsert(raw[n].record, raw[n].stamp, raw[n].payload), cs[n]) else before
  {
    var n := |raw| - 1;
    var ops, contexts := ClaimedOps(raw[..n]), ClaimedContexts(raw[..n], cs[..n]);
    if raw[n].Valid? {
      var op := Upsert(raw[n].record, raw[n].stamp, raw[n].payload);
      assert ClaimedOps(raw)[..|ops|] == ops && ClaimedContexts(raw, cs)[..|ops|] == contexts;
    } else {
      assert ClaimedOps(raw) == ops && ClaimedContexts(raw, cs) == contexts;
    }
  }
}
