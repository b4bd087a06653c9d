/**
 * Itemized expenses created together with their receipt.  The request names receipt
 * lines by their position in the draft; storing the receipt gives every line an id and
 * the request is then handled in id form.  The theorems say that the detour through
 * freshly generated ids is invisible.
 */
module ReceiptDrafts {
  import opened Basics
  import opened Sums
  import opened Itemized

  type Position = nat

  datatype DraftLine = DraftLine(position: Position, line: Line)

  datatype DraftError = Rejected(error: ItemizedError) | UnassignedPositions(positions: set<Position>)

  ghost predicate Injective(ids: map<Position, LineId>) {
    forall p, p' | p in ids && p' in ids && ids[p] == ids[p'] :: p == p'
  }

  /** The request with every draft position replaced by the id its line was stored under. */
  ghost predicate IsStored(stored: Request, q: Request, ids: map<Position, LineId>) {
    && Provided(q.assignments) <= q.lines.Keys <= ids.Keys
    && Injective(ids)
    && stored.total == q.total && stored.payer == q.payer && stored.active == q.active && stored.extras == q.extras
    && |stored.assignments| == |q.assignments|
    && (forall i | 0 <= i < |q.assignments| ::
          && q.assignments[i].line in ids
          && stored.assignments[i] == q.assignments[i].(line := ids[q.assignments[i].line]))
    && (forall p | p in q.lines :: ids[p] in stored.lines && stored.lines[ids[p]] == q.lines[p])
    && (forall l | l in stored.lines :: exists p :: p in q.lines && ids[p] == l)
    && q.taken == {} && forall p | p in ids :: ids[p] !in stored.taken
  }

  lemma {:induction false} RenamedAmounts(rows: seq<(Position, int)>,
      renamed: seq<(LineId, int)>, ids: map<Position, LineId>, p: Position)
    requires Injective(ids) && p in ids && |rows| == |renamed|
    requires forall i | 0 <= i < |rows| :: rows[i].0 in ids && renamed[i] == (ids[rows[i].0], rows[i].1)
    ensures AmountsOf(renamed, ids[p]) == AmountsOf(rows, p)
  {
    if rows != [] {
      RenamedAmounts(rows[..|rows| - 1], renamed[..|rows| - 1], ids, p);
    }
  }

  lemma StoredLines(stored: Request, q: Request, ids: map<Position, LineId>, p: Position)
    requires IsStored(stored, q, ids) && p in q.lines
    ensures PriceMet(stored, ids[p]) <==> PriceMet(q, p)
    ensures QuantityMet(stored, ids[p]) <==> QuantityMet(q, p)
  {
    RenamedAmounts(LineRows(q.assignments), LineRows(stored.assignments), ids, p);
    RenamedAmounts(QuantityRows(q.assignments), QuantityRows(stored.assignments), ids, p);
  }

  lemma StoredProvided(stored: Request, q: Request, ids: map<Position, LineId>)
    requires IsStored(stored, q, ids)
    ensures forall p | p in ids :: ids[p] in Provided(stored.assignments) <==> p in Provided(q.assignments)
    ensures Provided(stored.assignments) <= stored.lines.Keys
    ensures Provided(stored.assignments) * stored.taken == {}
  {
    forall p | p in ids
      ensures ids[p] in Provided(stored.assignments) <==> p in Provided(q.assignments)
    {
      if ids[p] in Provided(stored.assignments) {
        var i :| 0 <= i < |stored.assignments| && stored.assignments[i].line == ids[p];
        assert q.assignments[i] in q.assignments;
      }
      if p in Provided(q.assignments) {
        var i :| 0 <= i < |q.assignments| && q.assignments[i].line == p;
        assert stored.assignments[i] in stored.assignments;
      }
    }
    forall l | l in Provided(stored.assignments)
      ensures l in stored.lines && l !in stored.taken
    {
      var i :| 0 <= i < |stored.assignments| && stored.assignments[i].line == l;
      assert q.assignments[i] in q.assignments;
      assert q.assignments[i].line in Provided(q.assignments);
    }
  }

  lemma StoredAssignmentsOk(stored: Request, q: Request, ids: map<Position, LineId>)
    requires IsStored(stored, q, ids)
    ensures AssignmentsOk(stored.assignments) <==> AssignmentsOk(q.assignments)
  {
    if AssignmentsOk(stored.assignments) {
      forall i | 0 <= i < |q.assignments| ensures AmountsOk(q.assignments[i]) {
        assert stored.assignments[i] in stored.assignments;
      }
      forall i, j | 0 <= i < j < |q.assignments|
        ensures (q.assignments[i].line, q.assignments[i].user) != (q.assignments[j].line, q.assignments[j].user)
      {
        assert (stored.assignments[i].line, stored.assignments[i].user)
            != (stored.assignments[j].line, stored.assignments[j].user);
      }
    }
    if AssignmentsOk(q.assignments) {
      forall i | 0 <= i < |q.assignments| ensures AmountsOk(stored.assignments[i]) {
        assert q.assignments[i] in q.assignments;
      }
      forall i, j | 0 <= i < j < |q.assignments|
        ensures (stored.assignments[i].line, stored.assignments[i].user)
            != (stored.assignments[j].line, stored.assignments[j].user)
      {
        assert (q.assignments[i].line, q.assignments[i].user) != (q.assignments[j].line, q.assignments[j].user);
      }
    }
  }

  lemma StoredPeople(stored: Request, q: Request, ids: map<Position, LineId>)
    requires IsStored(stored, q, ids)
    ensures Participants(stored) == Participants(q) && SharesOf(stored) == SharesOf(q)
  {
    assert UserRows(stored.assignments) == UserRows(q.assignments);
    var there, here := set a | a in stored.assignments :: a.user, set a | a in q.assignments :: a.user;
    forall u | u in there ensures u in here {
      var i :| 0 <= i < |stored.assignments| && stored.assignments[i].user == u;
      assert q.assignments[i] in q.assignments;
    }
    forall u | u in here ensures u in there {
      var i :| 0 <= i < |q.assignments| && q.assignments[i].user == u;
      assert stored.assignments[i] in stored.assignments;
    }
  }

  /** The same refusal, where a set of unassigned lines is the image of the positions. */
  ghost predicate SameRefusal(here: Option<ItemizedError>, there: Option<ItemizedError>, ids: map<Position, LineId>) {
    if here.Some? && here.value.UnassignedLines? then
      && there.Some? && there.value.UnassignedLines?
      && here.value.lines <= ids.Keys
      && forall p | p in ids :: p in here.value.lines <==> ids[p] in there.value.lines
    else there == here
  }

  lemma StoredUnassigned(stored: Request, q: Request, ids: map<Position, LineId>)
    requires IsStored(stored, q, ids)
    ensures var here, there := q.lines.Keys - Provided(q.assignments), stored.lines.Keys - Provided(stored.assignments);
            && (forall p | p in ids :: p in here <==> ids[p] in there)
            && (here == {} <==> there == {})
    ensures q.lines == map[] <==> stored.lines == map[]
  {
    StoredProvided(stored, q, ids);
    var here, there := q.lines.Keys - Provided(q.assignments), stored.lines.Keys - Provided(stored.assignments);
    forall p | p in ids && ids[p] in there ensures p in here {
      var p' :| p' in q.lines && ids[p'] == ids[p];
    }
    if p :| p in here { assert ids[p] in there; }
    if l :| l in there {
      var p :| p in q.lines && ids[p] == l;
      assert p in here;
    }
    if p :| p in q.lines { assert ids[p] in stored.lines; }
    if l :| l in stored.lines { assert exists p :: p in q.lines && ids[p] == l; }
  }

  lemma RefusalFromParts(here: Request, there: Request, ids: map<Position, LineId>)
    requires here.lines == map[] <==> there.lines == map[]
    requires Provided(here.assignments) <= here.lines.Keys && Provided(there.assignments) <= there.lines.Keys
    requires Provided(here.assignments) * here.taken == {} && Provided(there.assignments) * there.taken == {}
    requires AssignmentsOk(here.assignments) <==> AssignmentsOk(there.assignments)
    requires here.extras == there.extras && here.active == there.active && Participants(here) == Participants(there)
    requires here.lines.Keys <= ids.Keys
    requires var h, t := here.lines.Keys - Provided(here.assignments), there.lines.Keys - Provided(there.assignments);
             (forall p | p in ids :: p in h <==> ids[p] in t) && (h == {} <==> t == {})
    ensures SameRefusal(EarlyRefusal(here), EarlyRefusal(there), ids)
  {
    if ExtrasRefusal(here.extras).Some? {
      ExtrasRefusalKind(here.extras);
    }
  }

  lemma {:induction false} ExtrasRefusalKind(extras: seq<Extra>)
    requires ExtrasRefusal(extras).Some?
    ensures !ExtrasRefusal(extras).value.UnassignedLines?
  {
    if ExtraRefusal(extras[0]).None? {
      ExtrasRefusalKind(extras[1..]);
    }
  }

  /** Stored request and draft are refused early for the same reason. */
  lemma StoredRefusal(stored: Request, q: Request, ids: map<Position, LineId>)
    requires IsStored(stored, q, ids)
    ensures SameRefusal(EarlyRefusal(q), EarlyRefusal(stored), ids)
  {
    StoredProvided(stored, q, ids);
    StoredAssignmentsOk(stored, q, ids);
    StoredPeople(stored, q, ids);
    StoredUnassigned(stored, q, ids);
    RefusalFromParts(q, stored, ids);
  }

  /** The positions whose stored lines are in the given set. */
  function PositionsOf(ids: map<Position, LineId>, lines: set<LineId>): set<Position> {
    set p | p in ids && ids[p] in lines
  }

  lemma UnassignedBack(stored: Request, q: Request, ids: map<Position, LineId>, lines: set<LineId>)
    requires SameRefusal(EarlyRefusal(q), EarlyRefusal(stored), ids)
    requires Refused(stored, UnassignedLines(lines))
    ensures EarlyRefusal(q) == Some(UnassignedLines(PositionsOf(ids, lines)))
  {
    assert EarlyRefusal(stored) == Some(UnassignedLines(lines));
    var here := EarlyRefusal(q);
    var back := PositionsOf(ids, lines);
    assert here.Some? && here.value.UnassignedLines?;
    forall p | p in here.value.lines ensures p in back {
      assert p in ids;
    }
    assert here.value.lines == back;
  }

  /** A draft is accepted exactly when its stored form is, with the same shares for everybody. */
  lemma DraftFormEqualsIdForm(stored: Request, q: Request, ids: map<Position, LineId>)
    requires IsStored(stored, q, ids)
    ensures Accepted(stored) <==> Accepted(q)
    ensures SharesOf(stored) == SharesOf(q)
  {
    StoredRefusal(stored, q, ids);
    StoredPeople(stored, q, ids);
    forall p | p in q.lines
      ensures PriceMet(stored, ids[p]) <==> PriceMet(q, p)
      ensures QuantityMet(stored, ids[p]) <==> QuantityMet(q, p)
    {
      StoredLines(stored, q, ids, p);
    }
    forall l | l in stored.lines
      ensures exists p ::
                && p in q.lines && ids[p] == l
                && (PriceMet(stored, l) <==> PriceMet(q, p))
                && (QuantityMet(stored, l) <==> QuantityMet(q, p))
    {
      var p :| p in q.lines && ids[p] == l;
    }
    assert (forall l | l in stored.lines :: PriceMet(stored, l) && QuantityMet(stored, l))
      <==> (forall p | p in q.lines :: PriceMet(q, p) && QuantityMet(q, p));
  }

  /** Apart from naming lines by id, the stored form is refused with a reason that holds of the draft. */
  lemma StoredRefused(stored: Request, q: Request, ids: map<Position, LineId>, error: ItemizedError)
    requires IsStored(stored, q, ids) && Refused(stored, error) && !error.UnassignedLines?
    ensures Refused(q, error)
  {
    StoredRefusal(stored, q, ids);
    StoredPeople(stored, q, ids);
    forall p | p in q.lines
      ensures PriceMet(stored, ids[p]) <==> PriceMet(q, p)
      ensures QuantityMet(stored, ids[p]) <==> QuantityMet(q, p)
    {
      StoredLines(stored, q, ids, p);
    }
    if EarlyRefusal(q).None? {
      if l :| l in stored.lines && !(PriceMet(stored, l) && QuantityMet(stored, l)) {
        var l' :| l' in stored.lines
            && (if error == InvalidSplitTotal then !PriceMet(stored, l')
                else PriceMet(stored, l') && !QuantityMet(stored, l'));
        var p :| p in q.lines && ids[p] == l';
      } else {
        forall p | p in q.lines ensures PriceMet(q, p) && QuantityMet(q, p) {
          assert ids[p] in stored.lines;
        }
      }
    }
  }

  // ---------- the service ----------

  ghost predicate UniquePositions(draft: seq<DraftLine>) {
    forall i, j | 0 <= i < j < |draft| :: draft[i].position != draft[j].position
  }

  ghost predicate IsByPosition(lines: map<Position, Line>, draft: seq<DraftLine>) {
    && (forall p :: p in lines <==> exists i :: 0 <= i < |draft| && draft[i].position == p)
    && forall i | 0 <= i < |draft| :: draft[i].position in lines && lines[draft[i].position] == draft[i].line
  }

  /** Stores the receipt: every line gets one of the newly generated primary keys. */
  method StoreLines(draft: seq<DraftLine>, ids: seq<LineId>)
    returns (r: Option<(map<Position, Line>, map<Position, LineId>)>)
    requires |ids| == |draft|
    requires forall i, j | 0 <= i < j < |ids| :: ids[i] != ids[j]
    ensures r.Some? <==> UniquePositions(draft)
    ensures r.Some? ==>
              && IsByPosition(r.value.0, draft)
              && r.value.0.Keys == r.value.1.Keys && Injective(r.value.1)
              && forall p | p in r.value.1 :: r.value.1[p] in ids
  {
    var lines: map<Position, Line>, stored: map<Position, LineId> := map[], map[];
    for i := 0 to |draft|
      invariant lines.Keys == stored.Keys
      invariant UniquePositions(draft[..i])
      invariant IsByPosition(lines, draft[..i])
      invariant forall p | p in stored :: stored[p] in ids[..i]
      invariant Injective(stored)
    {
      var line := draft[i];
      NextPosition(lines, draft, i);
      if line.position in lines {
        return None;
      }
      lines := lines[line.position := line.line];
      stored := stored[line.position := ids[i]];
    }
    assert draft[..|draft|] == draft;
    r := Some((lines, stored));
  }

  lemma NextPosition(lines: map<Position, Line>, draft: seq<DraftLine>, i: nat)
    requires i < |draft| && UniquePositions(draft[..i]) && IsByPosition(lines, draft[..i])
    ensures draft[i].position in lines ==> !UniquePositions(draft)
    ensures draft[i].position !in lines ==>
              UniquePositions(draft[..i + 1]) && IsByPosition(lines[draft[i].position := draft[i].line], draft[..i + 1])
  {
    if draft[i].position in lines {
      var j :| 0 <= j < i && draft[..i][j].position == draft[i].position;
      assert draft[j].position == draft[i].position;
    } else {
      var before, after := draft[..i], draft[..i + 1];
      assert forall j | 0 <= j < i :: after[j] == before[j];
      assert after[i] == draft[i];
      var next: map<Position, Line> := lines[draft[i].position := draft[i].line];
      forall p: Position ensures p in next <==> exists j :: 0 <= j < |after| && after[j].position == p {
        if p in lines {
          var j :| 0 <= j < i && before[j].position == p;
          assert after[j].position == p;
        }
        if j :| 0 <= j < |after| && after[j].position == p && j < i {
          assert before[j].position == p;
        }
      }
    }
  }

  lemma NamedById(cloud: Request, here: Request, stored: map<Position, LineId>)
    requires stored.Keys == here.lines.Keys && Injective(stored) && Provided(here.assignments) <= here.lines.Keys
        && here.taken == {}
    requires cloud == here.(lines := cloud.lines, assignments := cloud.assignments, taken := cloud.taken)
    requires |cloud.assignments| == |here.assignments|
    requires forall i | 0 <= i < |here.assignments| ::
               here.assignments[i].line in stored ==>
                   cloud.assignments[i] == here.assignments[i].(line := stored[here.assignments[i].line])
    requires forall p | p in stored ::
        stored[p] in cloud.lines && cloud.lines[stored[p]] == here.lines[p] && stored[p] !in cloud.taken
    requires forall l | l in cloud.lines :: exists p :: p in stored && stored[p] == l
    ensures IsStored(cloud, here, stored)
  {
    forall i | 0 <= i < |here.assignments| ensures here.assignments[i].line in stored {
      assert here.assignments[i].line in Provided(here.assignments);
    }
  }

  /** `ids` are the primary keys the store generates for the lines: all new and all different. */
  method ItemizedFromDraft(q: Request, draft: seq<DraftLine>, ids: seq<LineId>, taken: set<LineId>)
    returns (r: Result<map<UserId, int>, DraftError>, byPosition: map<Position, Line>)
    requires q.lines == map[] && q.taken == {}
    requires |ids| == |draft|
    requires forall i, j | 0 <= i < j < |ids| :: ids[i] != ids[j]
    requires forall i | 0 <= i < |ids| :: ids[i] !in taken
    ensures UniquePositions(draft) ==> IsByPosition(byPosition, draft)
    ensures r.Success? <==> UniquePositions(draft) && Accepted(q.(lines := byPosition))
    ensures r.Success? ==> r.value == SharesOf(q)
    ensures r.Failure? && r.error.UnassignedPositions? ==>
              EarlyRefusal(q.(lines := byPosition)) == Some(UnassignedLines(r.error.positions))
    ensures (&& r.Failure? && r.error.Rejected? && UniquePositions(draft) && draft != []
             && Provided(q.assignments) <= byPosition.Keys) ==>
              Refused(q.(lines := byPosition), r.error.error)
    ensures !UniquePositions(draft) || draft == [] || !(Provided(q.assignments) <= byPosition.Keys) ==>
              r == Failure(Rejected(InvalidRequest))
  {
    byPosition := map[];
    var tables := StoreLines(draft, ids);
    if tables.None? {
      return Failure(Rejected(InvalidRequest)), byPosition;
    }
    var stored := tables.value.1;
    byPosition := tables.value.0;
    if draft == [] || !(Provided(q.assignments) <= byPosition.Keys) {
      return Failure(Rejected(InvalidRequest)), byPosition;
    }
    assert forall a | a in q.assignments :: a.line in Provided(q.assignments);
    var cloudLines := map p | p in byPosition :: stored[p] := byPosition[p];
    var cloudAssignments := seq(|q.assignments|, i requires 0 <= i < |q.assignments| =>
      q.assignments[i].(line := stored[q.assignments[i].line]));
    var cloud := q.(lines := cloudLines, assignments := cloudAssignments, taken := taken);
    ghost var here := q.(lines := byPosition);
    NamedById(cloud, here, stored);
    r := InIdForm(cloud, here, stored);
  }

  method InIdForm(cloud: Request, ghost here: Request, stored: map<Position, LineId>)
      returns (r: Result<map<UserId, int>, DraftError>)
    requires IsStored(cloud, here, stored)
    ensures r.Success? <==> Accepted(here)
    ensures r.Success? ==> r.value == SharesOf(here)
    ensures r.Failure? && r.error.UnassignedPositions? ==>
        EarlyRefusal(here) == Some(UnassignedLines(r.error.positions))
    ensures r.Failure? && r.error.Rejected? ==> Refused(here, r.error.error)
  {
    DraftFormEqualsIdForm(cloud, here, stored);
    StoredRefusal(cloud, here, stored);
    var result := ItemizedSplit(cloud);
    match result
    case Success(shares) => r := Success(shares);
    case Failure(UnassignedLines(lines)) =>
      UnassignedBack(cloud, here, stored, lines);
      r := Failure(UnassignedPositions(PositionsOf(stored, lines)));
    case Failure(error) =>
      StoredRefused(cloud, here, stored, error);
      r := Failure(Rejected(error));
  }
}
