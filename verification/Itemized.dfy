/**
 * Itemized expenses: every receipt line is assigned to members, extras (tax, tip, ...)
 * are shared on top, and the members' shares are what each of them was assigned.
 */
module Itemized {
  import opened Basics
  import opened Sums

  type LineId = nat

  datatype Line = Line(price: int, quantityMilli: Option<int>)

  datatype Assignment = Assignment(line: LineId, user: UserId, amount: int, quantityMilli: Option<int>)

  datatype ExtraKind = Tax | Tip | ServiceFee | Other

  /** `labelled` tells whether the label has any characters left after stripping. */
  datatype Extra = Extra(kind: ExtraKind, labelled: bool, amount: int, shares: seq<(UserId, int)>)

  datatype ItemizedError =
    | InvalidRequest
    | ReceiptNotSynced
    | InvalidSplitTotal
    | MemberNotFound
    | UnassignedLines(lines: set<LineId>)

  /** `taken` holds the receipt lines that some earlier expense already assigned. */
  datatype Request = Request(
    total: int,
    payer: UserId,
    active: set<UserId>,
    lines: map<LineId, Line>,
    taken: set<LineId>,
    assignments: seq<Assignment>,
    extras: seq<Extra>)

  // ---------- what is accepted ----------

  function Provided(assignments: seq<Assignment>): set<LineId> {
    set a | a in assignments :: a.line
  }

  ghost predicate AssignmentsOk(assignments: seq<Assignment>) {
    && (forall i, j | 0 <= i < j < |assignments| ::
          (assignments[i].line, assignments[i].user) != (assignments[j].line, assignments[j].user))
    && forall a | a in assignments :: AmountsOk(a)
  }

  ghost predicate SharesOk(shares: seq<(UserId, int)>) {
    && (forall i, j | 0 <= i < j < |shares| :: shares[i].0 != shares[j].0)
    && forall r | r in shares :: r.1 >= 0
  }

  ghost function ExtraRefusal(extra: Extra): Option<ItemizedError> {
    if extra.amount <= 0 || (extra.kind.Other? && !extra.labelled) then Some(InvalidRequest)
    else if !SharesOk(extra.shares) then Some(InvalidRequest)
    else if Amounts(extra.shares) != extra.amount then Some(InvalidSplitTotal)
    else None
  }

  /** The first refusal in request order. */
  ghost function ExtrasRefusal(extras: seq<Extra>): Option<ItemizedError> {
    if extras == [] then None
    else if ExtraRefusal(extras[0]).Some? then ExtraRefusal(extras[0])
    else ExtrasRefusal(extras[1..])
  }

  ghost function ExtraRows(extras: seq<Extra>): seq<(UserId, int)> {
    if extras == [] then [] else ExtraRows(extras[..|extras| - 1]) + extras[|extras| - 1].shares
  }

  ghost function ExtraTotal(extras: seq<Extra>): int {
    if extras == [] then 0 else ExtraTotal(extras[..|extras| - 1]) + extras[|extras| - 1].amount
  }

  ghost function UserRows(assignments: seq<Assignment>): seq<(UserId, int)> {
    seq(|assignments|, i requires 0 <= i < |assignments| => (assignments[i].user, assignments[i].amount))
  }

  ghost function LineRows(assignments: seq<Assignment>): seq<(LineId, int)> {
    seq(|assignments|, i requires 0 <= i < |assignments| => (assignments[i].line, assignments[i].amount))
  }

  ghost function Quantity(a: Assignment): int {
    if a.quantityMilli.Some? then a.quantityMilli.value else 0
  }

  ghost function QuantityRows(assignments: seq<Assignment>): seq<(LineId, int)> {
    seq(|assignments|, i requires 0 <= i < |assignments| => (assignments[i].line, Quantity(assignments[i])))
  }

  /** The members' shares: everything assigned to them plus their part of the extras. */
  ghost function SharesOf(q: Request): map<UserId, int> {
    Tally(Tally(map[], UserRows(q.assignments)), ExtraRows(q.extras))
  }

  ghost function Participants(q: Request): set<UserId> {
    {q.payer} + (set a | a in q.assignments :: a.user) + (set r | r in ExtraRows(q.extras) :: r.0)
  }

  ghost predicate PriceMet(q: Request, l: LineId)
    requires l in q.lines
  {
    AmountsOf(LineRows(q.assignments), l) == q.lines[l].price
  }

  ghost predicate QuantityMet(q: Request, l: LineId)
    requires l in q.lines
  {
    var quantity := AmountsOf(QuantityRows(q.assignments), l);
    quantity > 0 && q.lines[l].quantityMilli.Some? ==> quantity <= q.lines[l].quantityMilli.value
  }

  /** Everything that is checked before the lines are compared one by one. */
  ghost function EarlyRefusal(q: Request): Option<ItemizedError> {
    var provided := Provided(q.assignments);
    if q.lines == map[] then Some(InvalidRequest)
    else if !(provided <= q.lines.Keys) then Some(ReceiptNotSynced)
    else if provided * q.taken != {} then Some(InvalidRequest)
    else if !AssignmentsOk(q.assignments) then Some(InvalidRequest)
    else if ExtrasRefusal(q.extras).Some? then ExtrasRefusal(q.extras)
    else if !(Participants(q) <= q.active) then Some(MemberNotFound)
    else if q.lines.Keys - provided != {} then Some(UnassignedLines(q.lines.Keys - provided))
    else None
  }

  ghost predicate Accepted(q: Request) {
    && EarlyRefusal(q).None?
    && (forall l | l in q.lines :: PriceMet(q, l) && QuantityMet(q, l))
    && Sum(SharesOf(q)) == q.total
  }

  /** Which refusal may be reported; the lines are compared in no particular order. */
  ghost predicate Refused(q: Request, error: ItemizedError) {
    if EarlyRefusal(q).Some? then error == EarlyRefusal(q).value
    else if exists l :: l in q.lines && !(PriceMet(q, l) && QuantityMet(q, l)) then
      || (error == InvalidSplitTotal && exists l :: l in q.lines && !PriceMet(q, l))
      || (error == InvalidRequest && exists l :: l in q.lines && PriceMet(q, l) && !QuantityMet(q, l))
    else error == InvalidSplitTotal && Sum(SharesOf(q)) != q.total
  }

  // ---------- theorems ----------

  ghost function Prices(lines: map<LineId, Line>): map<LineId, int> {
    map l | l in lines :: lines[l].price
  }

  lemma {:induction false} RowTotals(assignments: seq<Assignment>)
    ensures Amounts(UserRows(assignments)) == Amounts(LineRows(assignments))
  {
    if assignments != [] {
      var n := |assignments| - 1;
      RowTotals(assignments[..n]);
      assert UserRows(assignments)[..n] == UserRows(assignments[..n]);
      assert LineRows(assignments)[..n] == LineRows(assignments[..n]);
    }
  }

  lemma {:induction false} ExtraTotals(extras: seq<Extra>)
    requires ExtrasRefusal(extras).None?
    ensures Amounts(ExtraRows(extras)) == ExtraTotal(extras)
    ensures forall r | r in ExtraRows(extras) :: r.1 >= 0
  {
    if extras != [] {
      var n := |extras| - 1;
      assert extras == extras[..n] + [extras[n]];
      ExtrasRefusalAppend(extras[..n], extras[n]);
      ExtraTotals(extras[..n]);
      AmountsAppend(ExtraRows(extras[..n]), extras[n].shares);
    }
  }

  lemma {:induction false} ExtrasRefusalAppend(extras: seq<Extra>, extra: Extra)
    ensures ExtrasRefusal(extras + [extra]) ==
            if ExtrasRefusal(extras).Some? then ExtrasRefusal(extras) else ExtraRefusal(extra)
    decreases |extras|
  {
    if extras != [] {
      assert (extras + [extra])[1..] == extras[1..] + [extra];
      ExtrasRefusalAppend(extras[1..], extra);
    } else {
      assert [extra][1..] == [];
    }
  }

  lemma {:induction false} TallyNonNegative<K>(start: map<K, int>, rows: seq<(K, int)>)
    requires forall k | k in start :: start[k] >= 0
    requires forall r | r in rows :: r.1 >= 0
    ensures forall k | k in Tally(start, rows) :: Tally(start, rows)[k] >= 0
  {
    if rows != [] {
      TallyNonNegative(start, rows[..|rows| - 1]);
      assert rows[|rows| - 1] in rows;
    }
  }

  lemma LinesCovered(q: Request)
    requires EarlyRefusal(q).None? && forall l | l in q.lines :: PriceMet(q, l)
    ensures Provided(q.assignments) == q.lines.Keys
    ensures Tally(map[], LineRows(q.assignments)) == Prices(q.lines)
  {
    forall l | l in q.lines ensures l in Provided(q.assignments) {
      assert l !in q.lines.Keys - Provided(q.assignments);
    }
    var rows := LineRows(q.assignments);
    var byLine: map<LineId, int> := Tally(map[], rows);
    forall l ensures l in byLine <==> l in q.lines
             ensures l in q.lines ==> byLine[l] == q.lines[l].price {
      TallyReads(map[], rows, l);
      if l in q.lines {
        assert l in Provided(q.assignments) && PriceMet(q, l);
        var i :| 0 <= i < |q.assignments| && q.assignments[i].line == l;
        assert rows[i].0 == l;
      }
      if i :| 0 <= i < |rows| && rows[i].0 == l {
        assert q.assignments[i] in q.assignments;
      }
    }
  }

  lemma SharesNonNegative(q: Request)
    requires EarlyRefusal(q).None?
    ensures forall u | u in SharesOf(q) :: SharesOf(q)[u] >= 0
  {
    var byUser: map<UserId, int> := Tally(map[], UserRows(q.assignments));
    ExtraTotals(q.extras);
    forall r | r in UserRows(q.assignments) ensures r.1 >= 0 {
      var i :| 0 <= i < |q.assignments| && r == (q.assignments[i].user, q.assignments[i].amount);
      assert AmountsOk(q.assignments[i]);
    }
    TallyNonNegative(map[], UserRows(q.assignments));
    TallyNonNegative(byUser, ExtraRows(q.extras));
  }

  /**
   * An accepted expense covers every receipt line exactly, and its total is the line
   * prices plus the extras as well as the sum of the members' shares.
   */
  lemma AcceptedExpenseConserves(q: Request)
    requires Accepted(q)
    ensures q.total == Sum(Prices(q.lines)) + ExtraTotal(q.extras)
    ensures Sum(SharesOf(q)) == q.total
    ensures Provided(q.assignments) == q.lines.Keys
    ensures forall u | u in SharesOf(q) :: SharesOf(q)[u] >= 0 && u in q.active
  {
    var rows := UserRows(q.assignments);
    var byUser: map<UserId, int> := Tally(map[], rows);
    TallyTotal(map[], rows);
    TallyTotal(byUser, ExtraRows(q.extras));
    RowTotals(q.assignments);
    ExtraTotals(q.extras);

    LinesCovered(q);
    TallyTotal(map[], LineRows(q.assignments));

    SharesNonNegative(q);
    forall u | u in SharesOf(q) ensures u in q.active {
      ShareHolders(q, u);
    }
  }

  lemma ShareHolders(q: Request, u: UserId)
    requires u in SharesOf(q)
    ensures u in Participants(q)
  {
    var rows := UserRows(q.assignments);
    TallyReads(Tally(map[], rows), ExtraRows(q.extras), u);
    TallyReads(map[], rows, u);
    if i :| 0 <= i < |rows| && rows[i].0 == u {
      assert q.assignments[i] in q.assignments;
    } else {
      var i :| 0 <= i < |ExtraRows(q.extras)| && ExtraRows(q.extras)[i].0 == u;
      assert ExtraRows(q.extras)[i] in ExtraRows(q.extras);
    }
  }

  /** The line prices already determine the total; the final comparison only fails for a wrong total. */
  lemma TotalIsForced(q: Request)
    requires EarlyRefusal(q).None? && forall l | l in q.lines :: PriceMet(q, l) && QuantityMet(q, l)
    ensures Accepted(q) <==> q.total == Sum(Prices(q.lines)) + ExtraTotal(q.extras)
  {
    AcceptedExpenseConserves(q.(total := Sum(SharesOf(q))));
  }

  // ---------- acceptance, condition by condition ----------

  /** What is asked of one assignment. */
  ghost predicate AssignmentFits(q: Request, a: Assignment) {
    && a.line in q.lines && a.line !in q.taken && a.user in q.active
    && a.amount >= 0 && (a.quantityMilli.Some? ==> a.quantityMilli.value > 0)
  }

  /** What is asked of one extra: its shares are of active members, once each, and make up its amount. */
  ghost predicate ExtraFits(q: Request, x: Extra) {
    && x.amount > 0 && (x.kind.Other? ==> x.labelled) && Amounts(x.shares) == x.amount
    && (forall r | r in x.shares :: r.1 >= 0 && r.0 in q.active)
    && forall i, j | 0 <= i < j < |x.shares| :: x.shares[i].0 != x.shares[j].0
  }

  /** A line is handed out completely: exactly its price, and no more pieces than there are. */
  ghost predicate LineFits(q: Request, l: LineId)
    requires l in q.lines
  {
    var pieces := AmountsOf(QuantityRows(q.assignments), l);
    && (exists a :: a in q.assignments && a.line == l)
    && AmountsOf(LineRows(q.assignments), l) == q.lines[l].price
    && (pieces > 0 && q.lines[l].quantityMilli.Some? ==> pieces <= q.lines[l].quantityMilli.value)
  }

  lemma {:induction false} ExtrasRefusedExactlyWhen(extras: seq<Extra>)
    ensures ExtrasRefusal(extras).None? <==> forall x | x in extras :: ExtraRefusal(x).None?
    ensures ExtrasRefusal(extras).Some? ==> exists x :: x in extras && ExtraRefusal(x) == ExtrasRefusal(extras)
    decreases |extras|
  {
    if extras != [] {
      ExtrasRefusedExactlyWhen(extras[1..]);
      assert forall x :: x in extras <==> x == extras[0] || x in extras[1..];
    }
  }

  lemma {:induction false} ExtraRowsAreShares(extras: seq<Extra>)
    ensures forall r :: r in ExtraRows(extras) <==> exists x :: x in extras && r in x.shares
    decreases |extras|
  {
    if extras != [] {
      var n := |extras| - 1;
      ExtraRowsAreShares(extras[..n]);
      assert forall x :: x in extras <==> x in extras[..n] || x == extras[n];
    }
  }

  lemma ParticipantsAreActive(q: Request)
    ensures Participants(q) <= q.active <==>
            && q.payer in q.active && (forall a | a in q.assignments :: a.user in q.active)
            && forall x, r | x in q.extras && r in x.shares :: r.0 in q.active
  {
    ExtraRowsAreShares(q.extras);
    if Participants(q) <= q.active {
      assert q.payer in Participants(q);
      assert forall a | a in q.assignments :: a.user in Participants(q);
      assert forall r | r in ExtraRows(q.extras) :: r.0 in Participants(q);
    }
  }

  lemma ProvidedIn(q: Request)
    ensures Provided(q.assignments) <= q.lines.Keys <==> forall a | a in q.assignments :: a.line in q.lines
    ensures Provided(q.assignments) * q.taken == {} <==> forall a | a in q.assignments :: a.line !in q.taken
    ensures q.lines.Keys - Provided(q.assignments) == {} <==>
              forall l | l in q.lines :: exists a :: a in q.assignments && a.line == l
  {
    assert forall a | a in q.assignments :: a.line in Provided(q.assignments);
    if l :| l in Provided(q.assignments) * q.taken {
      assert exists a :: a in q.assignments && a.line == l;
    }
    if a :| a in q.assignments && a.line in q.taken {
      assert a.line in Provided(q.assignments) * q.taken;
    }
    if q.lines.Keys - Provided(q.assignments) == {} {
      forall l | l in q.lines ensures exists a :: a in q.assignments && a.line == l {
        assert l !in q.lines.Keys - Provided(q.assignments);
        assert l in Provided(q.assignments);
      }
    }
  }

  ghost predicate NoPairTwice(assignments: seq<Assignment>) {
    forall i, j | 0 <= i < j < |assignments| ::
      assignments[i].line == assignments[j].line ==> assignments[i].user != assignments[j].user
  }

  lemma EarlyRefusalExactlyWhen(q: Request)
    ensures EarlyRefusal(q).None? <==>
            && q.lines != map[] && q.payer in q.active && NoPairTwice(q.assignments)
            && (forall a | a in q.assignments :: AssignmentFits(q, a))
            && (forall x | x in q.extras :: ExtraFits(q, x))
            && forall l | l in q.lines :: exists a :: a in q.assignments && a.line == l
  {
    ProvidedIn(q);
    ParticipantsAreActive(q);
    ExtrasRefusedExactlyWhen(q.extras);
  }

  /**
   * An itemized expense is accepted exactly when every assignment, every extra and every line
   * fits, nobody is assigned a line twice, the payer is active, and the total is what the
   * lines cost together with the extras.
   */
  lemma AcceptedExactlyWhen(q: Request)
    ensures Accepted(q) <==>
            && q.lines != map[] && q.payer in q.active && NoPairTwice(q.assignments)
            && (forall a | a in q.assignments :: AssignmentFits(q, a))
            && (forall x | x in q.extras :: ExtraFits(q, x))
            && (forall l | l in q.lines :: LineFits(q, l))
            && q.total == Sum(Prices(q.lines)) + ExtraTotal(q.extras)
  {
    EarlyRefusalExactlyWhen(q);
    if EarlyRefusal(q).None? && forall l | l in q.lines :: PriceMet(q, l) && QuantityMet(q, l) {
      TotalIsForced(q);
    }
  }

  /** Everybody's share is what was assigned to them and their part of every extra. */
  lemma ShareIsWhatWasAssigned(q: Request, u: UserId)
    ensures At(SharesOf(q), u) == AmountsOf(UserRows(q.assignments), u) + AmountsOf(ExtraRows(q.extras), u)
    ensures u in SharesOf(q) <==>
              || (exists a :: a in q.assignments && a.user == u)
              || (exists x, r :: x in q.extras && r in x.shares && r.0 == u)
  {
    var rows := UserRows(q.assignments);
    var byUser: map<UserId, int> := Tally(map[], rows);
    TallyReads(map[], rows, u);
    TallyReads(byUser, ExtraRows(q.extras), u);
    ExtraRowsAreShares(q.extras);
    if a :| a in q.assignments && a.user == u {
      var i :| 0 <= i < |q.assignments| && q.assignments[i] == a;
      assert rows[i].0 == u;
    }
    if i :| 0 <= i < |rows| && rows[i].0 == u {
      assert q.assignments[i] in q.assignments;
    }
    var more := ExtraRows(q.extras);
    if i :| 0 <= i < |more| && more[i].0 == u {
      assert more[i] in more;
    }
    if x, r :| x in q.extras && r in x.shares && r.0 == u {
      assert r in more;
    }
  }

  /** A refusal names a fault the request really has. */
  lemma RefusalNamesAFault(q: Request, error: ItemizedError)
    requires Refused(q, error)
    ensures !Accepted(q)
    ensures error == MemberNotFound ==>
              || q.payer !in q.active || (exists a :: a in q.assignments && a.user !in q.active)
              || (exists x, r :: x in q.extras && r in x.shares && r.0 !in q.active)
    ensures error == ReceiptNotSynced ==> exists a :: a in q.assignments && a.line !in q.lines
    ensures error.UnassignedLines? ==>
              && error.lines != {}
              && forall l :: l in error.lines <==> l in q.lines && !exists a :: a in q.assignments && a.line == l
    ensures error == InvalidSplitTotal ==>
              || (exists x :: x in q.extras && Amounts(x.shares) != x.amount)
              || (exists l :: l in q.lines && AmountsOf(LineRows(q.assignments), l) != q.lines[l].price)
              || q.total != Sum(SharesOf(q))
    ensures error == InvalidRequest ==>
              || q.lines == map[] || !NoPairTwice(q.assignments)
              || (exists a :: a in q.assignments && (a.line in q.taken || !AmountsOk(a)))
              || (exists x :: x in q.extras
                              && (x.amount <= 0 || (x.kind.Other? && !x.labelled) || !SharesOk(x.shares)))
              || (exists l :: l in q.lines && !LineFits(q, l))
  {
    ProvidedIn(q);
    ParticipantsAreActive(q);
    ExtrasRefusedExactlyWhen(q.extras);
    if error.UnassignedLines? {
      NotFromExtras(q.extras);
    }
  }

  lemma {:induction false} NotFromExtras(extras: seq<Extra>)
    ensures ExtrasRefusal(extras).Some? ==> ExtrasRefusal(extras).value in {InvalidRequest, InvalidSplitTotal}
    decreases |extras|
  {
    if extras != [] { NotFromExtras(extras[1..]); }
  }

  // ---------- the service ----------

  datatype Collected = Collected(byLine: map<LineId, int>, byQuantity: map<LineId, int>, byUser: map<UserId, int>)

  /** Quantities are only recorded where given; a line without any reads as zero. */
  ghost predicate QuantitiesOf(table: map<LineId, int>, assignments: seq<Assignment>) {
    forall l :: At(table, l) == AmountsOf(QuantityRows(assignments), l)
  }

  lemma LastRow(assignments: seq<Assignment>, i: nat)
    requires i < |assignments|
    ensures var a, before, after := assignments[i], assignments[..i], assignments[..i + 1];
            && Tally(map[], UserRows(after)) == Plus(Tally(map[], UserRows(before)), a.user, a.amount)
            && Tally(map[], LineRows(after)) == Plus(Tally(map[], LineRows(before)), a.line, a.amount)
            && forall l :: AmountsOf(QuantityRows(after), l)
                           == AmountsOf(QuantityRows(before), l) + if l == a.line then Quantity(a) else 0
  {
    assert UserRows(assignments[..i + 1])[..i] == UserRows(assignments[..i]);
    assert LineRows(assignments[..i + 1])[..i] == LineRows(assignments[..i]);
    assert QuantityRows(assignments[..i + 1])[..i] == QuantityRows(assignments[..i]);
  }

  ghost function KeysOf(assignments: seq<Assignment>): set<(LineId, UserId)> {
    set a | a in assignments :: (a.line, a.user)
  }

  predicate AmountsOk(a: Assignment) {
    a.amount >= 0 && (a.quantityMilli.Some? ==> a.quantityMilli.value > 0)
  }

  lemma OkStep(assignments: seq<Assignment>, i: nat)
    requires i < |assignments|
    ensures var a, before := assignments[i], assignments[..i];
            && (AssignmentsOk(assignments[..i + 1]) <==>
                AssignmentsOk(before) && (a.line, a.user) !in KeysOf(before) && AmountsOk(a))
            && KeysOf(assignments[..i + 1]) == KeysOf(before) + {(a.line, a.user)}
            && (AssignmentsOk(assignments) ==> AssignmentsOk(assignments[..i + 1]))
  {
    var a, before, after := assignments[i], assignments[..i], assignments[..i + 1];
    assert after == before + [a];
    assert forall x :: x in after <==> x in before || x == a;
    if AssignmentsOk(before) && (a.line, a.user) !in KeysOf(before) && AmountsOk(a) {
      forall j, k | 0 <= j < k < |after|
        ensures (after[j].line, after[j].user) != (after[k].line, after[k].user)
      {
        if k == i { assert before[j] in before; }
        else { assert (before[j].line, before[j].user) != (before[k].line, before[k].user); }
      }
    }
    if AssignmentsOk(after) {
      forall j, k | 0 <= j < k < |before|
        ensures (before[j].line, before[j].user) != (before[k].line, before[k].user)
      {
        assert (after[j].line, after[j].user) != (after[k].line, after[k].user);
      }
      forall b | b in before ensures (b.line, b.user) != (a.line, a.user) {
        var j :| 0 <= j < |before| && before[j] == b;
        assert (after[j].line, after[j].user) != (after[i].line, after[i].user);
      }
    }
  }

  method CollectAssignments(assignments: seq<Assignment>) returns (r: Option<Collected>)
    ensures r.Some? <==> AssignmentsOk(assignments)
    ensures r.Some? ==>
              && r.value.byLine == Tally(map[], LineRows(assignments))
              && r.value.byUser == Tally(map[], UserRows(assignments))
              && QuantitiesOf(r.value.byQuantity, assignments)
  {
    var keys: set<(LineId, UserId)> := {};
    var byLine: map<LineId, int>, byQuantity: map<LineId, int>, byUser: map<UserId, int> := map[], map[], map[];
    for i := 0 to |assignments|
      invariant keys == KeysOf(assignments[..i])
      invariant AssignmentsOk(assignments[..i])
      invariant byLine == Tally(map[], LineRows(assignments[..i]))
      invariant byUser == Tally(map[], UserRows(assignments[..i]))
      invariant QuantitiesOf(byQuantity, assignments[..i])
    {
      var a := assignments[i];
      OkStep(assignments, i);
      if (a.line, a.user) in keys || a.amount < 0 || (a.quantityMilli.Some? && a.quantityMilli.value <= 0) {
        return None;
      }
      keys := keys + {(a.line, a.user)};
      LastRow(assignments, i);
      byLine := Plus(byLine, a.line, a.amount);
      byUser := Plus(byUser, a.user, a.amount);
      if a.quantityMilli.Some? {
        byQuantity := Plus(byQuantity, a.line, a.quantityMilli.value);
      }
    }
    assert assignments[..|assignments|] == assignments;
    r := Some(Collected(byLine, byQuantity, byUser));
  }

  lemma NextShare(shares: seq<(UserId, int)>, i: nat)
    requires i < |shares| && SharesOk(shares[..i])
    ensures UsersOf(shares[..i + 1]) == UsersOf(shares[..i]) + {shares[i].0}
    ensures SharesOk(shares[..i + 1]) <==> shares[i].0 !in UsersOf(shares[..i]) && shares[i].1 >= 0
    ensures SharesOk(shares) ==> SharesOk(shares[..i + 1])
  {
    var before, after := shares[..i], shares[..i + 1];
    assert after == before + [shares[i]];
    assert shares[i] in after;
    if shares[i].0 in UsersOf(before) {
      var r :| r in before && r.0 == shares[i].0;
      var k :| 0 <= k < i && before[k] == r;
      assert after[k].0 == after[i].0;
    }
    forall k | 0 <= k < i ensures before[k] in before && after[k] == before[k] {
    }
  }

  method CollectExtra(byUser: map<UserId, int>, extra: Extra) returns (r: Result<map<UserId, int>, ItemizedError>)
    ensures r == match ExtraRefusal(extra)
                 case Some(error) => Failure(error)
                 case None => Success(Tally(byUser, extra.shares))
  {
    if extra.amount <= 0 || (extra.kind.Other? && !extra.labelled) {
      return Failure(InvalidRequest);
    }
    var seen: set<UserId> := {};
    var table := byUser;
    var total := 0;
    for i := 0 to |extra.shares|
      invariant seen == UsersOf(extra.shares[..i])
      invariant SharesOk(extra.shares[..i])
      invariant table == Tally(byUser, extra.shares[..i])
      invariant total == Amounts(extra.shares[..i])
    {
      var share := extra.shares[i];
      NextShare(extra.shares, i);
      if share.0 in seen || share.1 < 0 {
        return Failure(InvalidRequest);
      }
      seen := seen + {share.0};
      assert extra.shares[..i + 1][..i] == extra.shares[..i];
      total := total + share.1;
      table := Plus(table, share.0, share.1);
    }
    assert extra.shares[..|extra.shares|] == extra.shares;
    r := if total != extra.amount then Failure(InvalidSplitTotal) else Success(table);
  }

  method CollectExtras(start: map<UserId, int>, extras: seq<Extra>)
    returns (r: Result<map<UserId, int>, ItemizedError>, users: set<UserId>)
    ensures r == match ExtrasRefusal(extras)
                 case Some(error) => Failure(error)
                 case None => Success(Tally(start, ExtraRows(extras)))
    ensures r.Success? ==> users == set row | row in ExtraRows(extras) :: row.0
  {
    var table := start;
    users := {};
    for i := 0 to |extras|
      invariant ExtrasRefusal(extras) == ExtrasRefusal(extras[i..])
      invariant table == Tally(start, ExtraRows(extras[..i]))
      invariant users == set row | row in ExtraRows(extras[..i]) :: row.0
    {
      var one := CollectExtra(table, extras[i]);
      if one.Failure? {
        return Failure(one.error), {};
      }
      assert extras[..i + 1][..i] == extras[..i];
      TallyAppend(start, ExtraRows(extras[..i]), extras[i].shares);
      table := one.value;
      users := users + set share | share in extras[i].shares :: share.0;
    }
    assert extras[..|extras|] == extras;
    r := Success(table);
  }

  method CompareLines(q: Request, byLine: map<LineId, int>, byQuantity: map<LineId, int>)
      returns (error: Option<ItemizedError>)
    requires byLine == Tally(map[], LineRows(q.assignments)) && QuantitiesOf(byQuantity, q.assignments)
    ensures error.None? <==> forall l | l in q.lines :: PriceMet(q, l) && QuantityMet(q, l)
    ensures error.Some? ==>
              || (error.value == InvalidSplitTotal && exists l :: l in q.lines && !PriceMet(q, l))
              || (error.value == InvalidRequest && exists l :: l in q.lines && PriceMet(q, l) && !QuantityMet(q, l))
  {
    var rest := q.lines.Keys;
    while rest != {}
      invariant rest <= q.lines.Keys
      invariant forall l | l in q.lines && l !in rest :: PriceMet(q, l) && QuantityMet(q, l)
      decreases rest
    {
      var l :| l in rest;
      rest := rest - {l};
      TallyReads(map[], LineRows(q.assignments), l);
      if At(byLine, l) != q.lines[l].price {
        assert !PriceMet(q, l);
        return Some(InvalidSplitTotal);
      }
      var quantity := At(byQuantity, l);
      if quantity > 0 && q.lines[l].quantityMilli.Some? && quantity > q.lines[l].quantityMilli.value {
        assert PriceMet(q, l) && !QuantityMet(q, l);
        return Some(InvalidRequest);
      }
    }
    return None;
  }

  method ItemizedSplit(q: Request) returns (r: Result<map<UserId, int>, ItemizedError>)
    ensures r.Success? <==> Accepted(q)
    ensures r.Success? ==> r.value == SharesOf(q)
    ensures r.Failure? ==> Refused(q, r.error)
  {
    var provided := Provided(q.assignments);
    if q.lines == map[] {
      return Failure(InvalidRequest);
    }
    if !(provided <= q.lines.Keys) {
      return Failure(ReceiptNotSynced);
    }
    if provided * q.taken != {} {
      return Failure(InvalidRequest);
    }
    var collected := CollectAssignments(q.assignments);
    if collected.None? {
      return Failure(InvalidRequest);
    }
    var shares, extraUsers := CollectExtras(collected.value.byUser, q.extras);
    if shares.Failure? {
      return Failure(shares.error);
    }
    var participants := {q.payer} + (set a | a in q.assignments :: a.user) + extraUsers;
    if participants - q.active != {} {
      assert exists u :: u in participants - q.active;
      return Failure(MemberNotFound);
    }
    assert participants <= q.active by {
      forall u | u in participants ensures u in q.active { assert u !in participants - q.active; }
    }
    var unassigned := q.lines.Keys - provided;
    if unassigned != {} {
      return Failure(UnassignedLines(unassigned));
    }
    var mismatch := CompareLines(q, collected.value.byLine, collected.value.byQuantity);
    if mismatch.Some? {
      return Failure(mismatch.value);
    }
    var calculated := Total(shares.value);
    r := if calculated != q.total then Failure(InvalidSplitTotal) else Success(shares.value);
  }
}
