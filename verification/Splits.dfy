/** The three fast split calculators: equal, percentage and exact shares. */
module Splits {
  import opened Basics
  import opened Sums

  type Shares = seq<(UserId, int)>

  datatype SplitError = InvalidAmount | PercentageTotalMustBe100 | ExactTotalMustMatchExpense

  // ---------- equal ----------

  function EqualShares(total: int, users: seq<UserId>): Result<Shares, SplitError> {
    if total <= 0 || users == [] then Failure(InvalidAmount) else
      var quotient, remainder := total / |users|, total % |users|;
      Success(seq(|users|, i requires 0 <= i < |users| => (users[i], quotient + if i < remainder then 1 else 0)))
  }

  lemma {:induction false} LevelAmounts(shares: Shares, quotient: int, extra: nat)
    requires forall i | 0 <= i < |shares| :: shares[i].1 == quotient + if i < extra then 1 else 0
    ensures Amounts(shares) == |shares| * quotient + if extra < |shares| then extra else |shares|
  {
    if shares != [] {
      LevelAmounts(shares[..|shares| - 1], quotient, extra);
      assert |shares| * quotient == (|shares| - 1) * quotient + quotient;
    }
  }

  /** An equal split loses nothing, and no two shares are more than one unit apart. */
  lemma EqualSharesConserve(total: int, users: seq<UserId>)
    requires total > 0 && users != []
    ensures EqualShares(total, users).Success?
    ensures var shares := EqualShares(total, users).value;
            && |shares| == |users| && Amounts(shares) == total
            && (forall i | 0 <= i < |shares| :: shares[i].0 == users[i] && shares[i].1 >= 0)
            && forall i, j | 0 <= i < j < |shares| :: shares[j].1 <= shares[i].1 <= shares[j].1 + 1
  {
    var quotient, remainder := Division(total, |users|);
    LevelAmounts(EqualShares(total, users).value, quotient, remainder);
  }

  lemma Division(total: int, n: int) returns (quotient: int, remainder: nat)
    requires total > 0 && n > 0
    ensures quotient == total / n && remainder == total % n
    ensures quotient >= 0 && remainder < n && n * quotient + remainder == total
  {
    quotient, remainder := total / n, total % n;
  }

  // ---------- percentage ----------

  const WHOLE := 10_000

  /** The percentage share rounded down; both operands of the division keep their sign. */
  function FloorShare(total: int, basisPoints: int): int {
    total * basisPoints / WHOLE
  }

  ghost function Floors(total: int, percentages: seq<(UserId, int)>): Shares {
    seq(|percentages|, i requires 0 <= i < |percentages| => (percentages[i].0, FloorShare(total, percentages[i].1)))
  }

  /** The units that rounding down left over. */
  ghost function Leftover(total: int, percentages: seq<(UserId, int)>): int {
    total - Amounts(Floors(total, percentages))
  }

  ghost function PercentageShareAt(total: int, percentages: seq<(UserId, int)>, i: nat): int
    requires i < |percentages|
  {
    FloorShare(total, percentages[i].1) + if i < Leftover(total, percentages) then 1 else 0
  }

  ghost function PercentageResult(total: int, percentages: seq<(UserId, int)>): Result<Shares, SplitError> {
    if total <= 0 || percentages == [] then Failure(InvalidAmount)
    else if Amounts(percentages) != WHOLE then Failure(PercentageTotalMustBe100)
    else Success(seq(|percentages|, i requires 0 <= i < |percentages| =>
                   (percentages[i].0, PercentageShareAt(total, percentages, i))))
  }

  lemma {:induction false} FloorsLoseLessThanOneEach(total: int, percentages: seq<(UserId, int)>)
    ensures var lost := total * Amounts(percentages) - WHOLE * Amounts(Floors(total, percentages));
            0 <= lost <= (WHOLE - 1) * |percentages|
  {
    if percentages != [] {
      var n := |percentages| - 1;
      var rest: seq<(UserId, int)> := percentages[..n];
      FloorsLoseLessThanOneEach(total, rest);
      assert Floors(total, percentages)[..n] == Floors(total, rest);
      var points := percentages[n].1;
      assert total * Amounts(percentages) == total * Amounts(rest) + total * points;
      assert 0 <= total * points - WHOLE * FloorShare(total, points) <= WHOLE - 1;
    }
  }

  /** Fewer units are left over than there are participants, so handing them out is safe. */
  lemma LeftoverIsSmall(total: int, percentages: seq<(UserId, int)>)
    requires Amounts(percentages) == WHOLE && percentages != []
    ensures 0 <= Leftover(total, percentages) < |percentages|
  {
    FloorsLoseLessThanOneEach(total, percentages);
  }

  lemma {:induction false} BumpedAmounts(floors: Shares, shares: Shares, extra: nat)
    requires |shares| == |floors|
    requires forall i | 0 <= i < |shares| :: shares[i].1 == floors[i].1 + if i < extra then 1 else 0
    ensures Amounts(shares) == Amounts(floors) + if extra < |shares| then extra else |shares|
  {
    if shares != [] {
      BumpedAmounts(floors[..|shares| - 1], shares[..|shares| - 1], extra);
    }
  }

  /** Every share is its floor or one more, in request order, and nothing is lost. */
  lemma PercentageSharesConserve(total: int, percentages: seq<(UserId, int)>)
    requires PercentageResult(total, percentages).Success?
    ensures var shares := PercentageResult(total, percentages).value;
            && |shares| == |percentages| && Amounts(shares) == total
            && forall i | 0 <= i < |shares| ::
                 && shares[i].0 == percentages[i].0
                 && FloorShare(total, percentages[i].1) <= shares[i].1 <= FloorShare(total, percentages[i].1) + 1
                 && (percentages[i].1 >= 0 ==> shares[i].1 >= 0)
  {
    LeftoverIsSmall(total, percentages);
    BumpedAmounts(Floors(total, percentages), PercentageResult(total, percentages).value, Leftover(total, percentages));
    forall i | 0 <= i < |percentages| && percentages[i].1 >= 0
      ensures FloorShare(total, percentages[i].1) >= 0
    {
      assert total * percentages[i].1 >= 0;
    }
  }

  method PercentageShares(total: int, percentages: seq<(UserId, int)>) returns (r: Result<Shares, SplitError>)
    ensures r == PercentageResult(total, percentages)
  {
    if total <= 0 || percentages == [] {
      return Failure(InvalidAmount);
    }
    var sum := ListTotal(percentages);
    if sum != WHOLE {
      return Failure(PercentageTotalMustBe100);
    }
    var n := |percentages|;
    var amounts := new int[n](i requires 0 <= i < n => FloorShare(total, percentages[i].1));
    var used := 0;
    ghost var floors: Shares := Floors(total, percentages);
    for i := 0 to n
      invariant used == Amounts(floors[..i])
    {
      used := used + amounts[i];
      assert floors[..i + 1][..i] == floors[..i];
    }
    assert floors[..n] == floors;
    var remainder := total - used;
    LeftoverIsSmall(total, percentages);
    for index := 0 to remainder
      invariant forall i | 0 <= i < n :: amounts[i] == floors[i].1 + if i < index then 1 else 0
    {
      amounts[index] := amounts[index] + 1;
    }
    var shares := seq(n, i requires 0 <= i < n reads amounts => (percentages[i].0, amounts[i]));
    assert shares == PercentageResult(total, percentages).value;
    r := Success(shares);
  }

  method ListTotal(rows: seq<(UserId, int)>) returns (total: int)
    ensures total == Amounts(rows)
  {
    total := 0;
    for i := 0 to |rows|
      invariant total == Amounts(rows[..i])
    {
      total := total + rows[i].1;
      assert rows[..i + 1][..i] == rows[..i];
    }
    assert rows[..|rows|] == rows;
  }

  // ---------- the penny rule ----------

  /** Whoever asks for which percentage gets the same amount, however the request lists them. */
  ghost predicate OrderIrrelevant(total: int, percentages: seq<(UserId, int)>) {
    forall other: seq<(UserId, int)>, i, j |
      multiset(other) == multiset(percentages) && 0 <= i < |percentages| && 0 <= j < |other|
          && percentages[i] == other[j]
      :: PercentageShareAt(total, percentages, i) == PercentageShareAt(total, other, j)
  }

  lemma FloorsAppend(total: int, ps: seq<(UserId, int)>, qs: seq<(UserId, int)>)
    ensures Amounts(Floors(total, ps + qs)) == Amounts(Floors(total, ps)) + Amounts(Floors(total, qs))
  {
    AmountsAppend(Floors(total, ps), Floors(total, qs));
    assert Floors(total, ps + qs) == Floors(total, ps) + Floors(total, qs);
  }

  lemma {:induction false} LeftoverIgnoresOrder(total: int, ps: seq<(UserId, int)>, qs: seq<(UserId, int)>)
    requires multiset(ps) == multiset(qs)
    ensures Leftover(total, ps) == Leftover(total, qs)
    decreases |ps|
  {
    assert |ps| == |multiset(ps)| == |multiset(qs)| == |qs|;
    if ps != [] {
      var n := |ps| - 1;
      var last := ps[n];
      assert last in multiset(qs);
      var k :| 0 <= k < |qs| && qs[k] == last;
      var before: seq<(UserId, int)>, after: seq<(UserId, int)> := qs[..k], qs[k + 1..];
      assert qs == before + [last] + after;
      assert ps == ps[..n] + [last];
      assert multiset(before + after) == multiset(qs) - multiset{last} == multiset(ps[..n]);
      LeftoverIgnoresOrder(total, ps[..n], before + after);
      FloorsAppend(total, ps[..n], [last]);
      FloorsAppend(total, before + [last], after);
      FloorsAppend(total, before, [last]);
      FloorsAppend(total, before, after);
    }
  }

  /**
   * The comment in the source promises an order-independent penny rule.  In fact the
   * leftover units follow request order: the split is independent of the order exactly
   * when the percentages leave nothing over.
   */
  lemma PenniesFollowRequestOrder(total: int, percentages: seq<(UserId, int)>)
    requires Amounts(percentages) == WHOLE && percentages != []
    ensures OrderIrrelevant(total, percentages) <==> Leftover(total, percentages) == 0
  {
    LeftoverIsSmall(total, percentages);
    if Leftover(total, percentages) == 0 {
      forall other: seq<(UserId, int)>, i, j |
        multiset(other) == multiset(percentages) && 0 <= i < |percentages| && 0 <= j < |other|
            && percentages[i] == other[j]
        ensures PercentageShareAt(total, percentages, i) == PercentageShareAt(total, other, j)
      {
        LeftoverIgnoresOrder(total, percentages, other);
      }
    } else {
      SwapMovesUnit(total, percentages);
    }
  }

  /** With units left over, the first participant loses one by changing places with the last. */
  lemma SwapMovesUnit(total: int, percentages: seq<(UserId, int)>)
    requires percentages != [] && 0 < Leftover(total, percentages) < |percentages|
    ensures !OrderIrrelevant(total, percentages)
  {
    var n := |percentages| - 1;
    var other: seq<(UserId, int)> := percentages[0 := percentages[n]][n := percentages[0]];
    assert multiset(other) == multiset(percentages);
    LeftoverIgnoresOrder(total, percentages, other);
    assert percentages[0] == other[n];
    assert PercentageShareAt(total, percentages, 0) != PercentageShareAt(total, other, n);
  }

  /** A participant with a percentage of zero pays a unit exactly when listed early enough. */
  lemma ZeroPercentPays(total: int, percentages: seq<(UserId, int)>, i: nat)
    requires PercentageResult(total, percentages).Success? && i < |percentages| && percentages[i].1 == 0
    ensures var share := PercentageResult(total, percentages).value[i].1;
            && (share == 1 <==> i < Leftover(total, percentages))
            && (share == 0 <==> i >= Leftover(total, percentages))
  {
    assert total * percentages[i].1 == 0;
  }

  /** The participant with 0 % is listed first and pays one of the hundred units. */
  lemma ZeroPercentExample()
    ensures var request := [(1, 0), (2, 3_333), (3, 6_667)];
            PercentageResult(100, request) == Success([(1, 1), (2, 33), (3, 66)])
  {
    var request: seq<(UserId, int)> := [(1, 0), (2, 3_333), (3, 6_667)];
    ThreeAmounts(request);
    ThreeAmounts(Floors(100, request));
    assert Floors(100, request) == [(1, 0), (2, 33), (3, 66)];
    assert PercentageResult(100, request).value == [(1, 1), (2, 33), (3, 66)];
  }

  /** The same percentages in another order: the odd unit moves to another participant. */
  lemma PennyMovesExample()
    ensures var request := [(2, 3_333), (1, 0), (3, 6_667)];
            PercentageResult(100, request) == Success([(2, 34), (1, 0), (3, 66)])
  {
    var request: seq<(UserId, int)> := [(2, 3_333), (1, 0), (3, 6_667)];
    ThreeAmounts(request);
    ThreeAmounts(Floors(100, request));
    assert Floors(100, request) == [(2, 33), (1, 0), (3, 66)];
    assert PercentageResult(100, request).value == [(2, 34), (1, 0), (3, 66)];
  }

  lemma ThreeAmounts(rows: seq<(UserId, int)>)
    requires |rows| == 3
    ensures Amounts(rows) == rows[0].1 + rows[1].1 + rows[2].1
  {
    assert rows[..2][..1][..0] == [];
    assert rows[..2][..1] == rows[..1] && rows[..1][..0] == [];
    assert Amounts(rows[..1]) == rows[0].1;
  }

  // ---------- exact ----------

  predicate AnyNegative(shares: Shares) {
    exists i :: 0 <= i < |shares| && shares[i].1 < 0
  }

  ghost function ExactResult(total: int, shares: Shares): Result<Shares, SplitError> {
    if total <= 0 || shares == [] || AnyNegative(shares) then Failure(InvalidAmount)
    else if Amounts(shares) != total then Failure(ExactTotalMustMatchExpense)
    else Success(SortedByUser(shares))
  }

  /** Inserts behind every row whose user does not come later, as a stable sort does. */
  function Inserted(rows: Shares, row: (UserId, int)): Shares {
    if rows == [] || rows[|rows| - 1].0 <= row.0 then rows + [row]
    else Inserted(rows[..|rows| - 1], row) + [rows[|rows| - 1]]
  }

  function SortedByUser(rows: Shares): Shares {
    if rows == [] then [] else Inserted(SortedByUser(rows[..|rows| - 1]), rows[|rows| - 1])
  }

  ghost predicate Ascending(rows: Shares) {
    forall i, j | 0 <= i < j < |rows| :: rows[i].0 <= rows[j].0
  }

  lemma LastRow(rows: Shares)
    requires rows != []
    ensures multiset(rows) == multiset(rows[..|rows| - 1]) + multiset{rows[|rows| - 1]}
  {
    assert rows == rows[..|rows| - 1] + [rows[|rows| - 1]];
  }

  lemma {:induction false} InsertedRows(rows: Shares, row: (UserId, int))
    ensures multiset(Inserted(rows, row)) == multiset(rows) + multiset{row}
  {
    if rows != [] && rows[|rows| - 1].0 > row.0 {
      var n := |rows| - 1;
      InsertedRows(rows[..n], row);
      assert rows == rows[..n] + [rows[n]];
    }
  }

  lemma {:induction false} InsertedAmount(rows: Shares, row: (UserId, int))
    ensures Amounts(Inserted(rows, row)) == Amounts(rows) + row.1
  {
    var after := Inserted(rows, row);
    if rows == [] || rows[|rows| - 1].0 <= row.0 {
      assert after[..|rows|] == rows;
    } else {
      InsertedAmount(rows[..|rows| - 1], row);
      assert after[..|after| - 1] == Inserted(rows[..|rows| - 1], row);
    }
  }

  lemma {:induction false} InsertedAscends(rows: Shares, row: (UserId, int))
    requires Ascending(rows)
    ensures Ascending(Inserted(rows, row))
  {
    if rows != [] && rows[|rows| - 1].0 > row.0 {
      var rest, last := rows[..|rows| - 1], rows[|rows| - 1];
      InsertedAscends(rest, row);
      var before := Inserted(rest, row);
      InsertedRows(rest, row);
      forall i | 0 <= i < |before| ensures before[i].0 <= last.0 {
        assert before[i] in multiset(before);
        assert before[i] == row || before[i] in rest;
      }
    }
  }

  /** Sorting by user keeps the rows and orders them. */
  lemma {:induction false} SortedKeepsShares(rows: Shares)
    ensures var after := SortedByUser(rows);
            && Ascending(after) && multiset(after) == multiset(rows) && Amounts(after) == Amounts(rows)
            && forall i, j | 0 <= i < j < |after| :: after[i].0 <= after[j].0
  {
    if rows != [] {
      var rest: Shares, last := rows[..|rows| - 1], rows[|rows| - 1];
      var before := SortedByUser(rest);
      SortedKeepsShares(rest);
      InsertedRows(before, last);
      InsertedAmount(before, last);
      InsertedAscends(before, last);
      LastRow(rows);
    }
  }

  /** Accepted exact shares are the requested ones in user order, and they are what was paid. */
  lemma ExactSharesConserve(total: int, shares: Shares)
    requires ExactResult(total, shares).Success?
    ensures var after := ExactResult(total, shares).value;
            && multiset(after) == multiset(shares) && Ascending(after) && Amounts(after) == total
            && forall i | 0 <= i < |after| :: after[i].1 >= 0
  {
    SortedKeepsShares(shares);
    var after := SortedByUser(shares);
    forall i | 0 <= i < |after| ensures after[i].1 >= 0 {
      assert after[i] in multiset(shares);
    }
  }

  method ExactShares(total: int, shares: Shares) returns (r: Result<Shares, SplitError>)
    ensures r == ExactResult(total, shares)
  {
    if total <= 0 || shares == [] || AnyNegative(shares) {
      return Failure(InvalidAmount);
    }
    var sum := ListTotal(shares);
    r := if sum != total then Failure(ExactTotalMustMatchExpense) else Success(SortedByUser(shares));
  }
}
