/**
 * Pulling changes page by page, and the replica a client builds from the pages.
 *
 * The server lists a user's rows in order of (updated_at, id) strictly after the client's
 * cursor.  If every write is stamped later than every cursor already handed out, a client
 * that applies pages until there are no more holds exactly the server's rows.
 */
module Replica {
  import opened Basics
  import opened PersonalSync

  /** A cursor is the position of the last row delivered. */
  datatype Stamp = Stamp(at: Time, id: RowId)

  type Cursor = Option<Stamp>

  predicate Less(a: Stamp, b: Stamp) {
    a.at < b.at || (a.at == b.at && a.id < b.id)
  }

  function StampOf(row: Row): Stamp {
    Stamp(row.updatedAt, row.id)
  }

  predicate IsAfter(row: Row, after: Cursor) {
    after.None? || Less(after.value, StampOf(row))
  }

  function Pending(rows: Rows, after: Cursor): set<RecordId> {
    set r | r in rows && IsAfter(rows[r], after)
  }

  /** Primary keys are unique. */
  ghost predicate UniqueIds(rows: Rows) {
    forall r, r' | r in rows && r' in rows && rows[r].id == rows[r'].id :: r == r'
  }

  ghost predicate IsFirst(rows: Rows, among: set<RecordId>, r: RecordId)
    requires among <= rows.Keys
  {
    r in among && forall x | x in among :: x == r || Less(StampOf(rows[r]), StampOf(rows[x]))
  }

  lemma {:induction false} FirstExists(rows: Rows, among: set<RecordId>)
    requires UniqueIds(rows) && among <= rows.Keys && among != {}
    ensures exists r :: IsFirst(rows, among, r)
    decreases among
  {
    var x :| x in among;
    if among == {x} {
      assert IsFirst(rows, among, x);
    } else {
      FirstExists(rows, among - {x});
      var r :| IsFirst(rows, among - {x}, r);
      if Less(StampOf(rows[x]), StampOf(rows[r])) {
        forall y | y in among && y != x ensures Less(StampOf(rows[x]), StampOf(rows[y])) {
          assert y in among - {x};
        }
        assert IsFirst(rows, among, x);
      } else {
        assert IsFirst(rows, among, r);
      }
    }
  }

  /** All pending records in delivery order. */
  ghost function Changes(rows: Rows, after: Cursor): (list: seq<RecordId>)
    requires UniqueIds(rows)
    ensures forall r :: r in list <==> r in Pending(rows, after)
    decreases Pending(rows, after)
  {
    if Pending(rows, after) == {} then [] else
      FirstExists(rows, Pending(rows, after));
      var r :| IsFirst(rows, Pending(rows, after), r);
      NextCursor(rows, after, r);
      [r] + Changes(rows, Some(StampOf(rows[r])))
  }

  lemma NextCursor(rows: Rows, after: Cursor, r: RecordId)
    requires UniqueIds(rows) && IsFirst(rows, Pending(rows, after), r)
    ensures Pending(rows, Some(StampOf(rows[r]))) == Pending(rows, after) - {r}
    ensures Pending(rows, Some(StampOf(rows[r]))) < Pending(rows, after)
  {
  }

  /** Resuming after a delivered row yields exactly what came behind it. */
  lemma {:induction false} ChangesResume(rows: Rows, after: Cursor, k: nat)
    requires UniqueIds(rows) && k < |Changes(rows, after)|
    ensures Changes(rows, after)[k] in rows
    ensures Changes(rows, Some(StampOf(rows[Changes(rows, after)[k]]))) == Changes(rows, after)[k + 1..]
    decreases k
  {
    var list := Changes(rows, after);
    assert list[k] in list;
    if k > 0 {
      assert list[1..] == Changes(rows, Some(StampOf(rows[list[0]])));
      ChangesResume(rows, Some(StampOf(rows[list[0]])), k - 1);
    }
  }

  /** Delivery order is strictly increasing, so no row is listed twice. */
  lemma {:induction false} ChangesAscend(rows: Rows, after: Cursor, i: nat, j: nat)
    requires UniqueIds(rows) && i < j < |Changes(rows, after)|
    ensures Changes(rows, after)[i] in rows && Changes(rows, after)[j] in rows
    ensures var x, y := rows[Changes(rows, after)[i]], rows[Changes(rows, after)[j]];
            x.updatedAt < y.updatedAt || (x.updatedAt == y.updatedAt && x.id < y.id)
  {
    ChangesResume(rows, after, i);
    var rest := Changes(rows, after)[i + 1..];
    assert rest[j - i - 1] in rest;
  }

  // ---------- pages ----------

  datatype Page = Page(items: seq<(RecordId, Row)>, next: Cursor, hasMore: bool)

  ghost function PageSize(rows: Rows, after: Cursor, limit: nat): nat
    requires UniqueIds(rows)
  {
    if |Changes(rows, after)| <= limit then |Changes(rows, after)| else limit
  }

  ghost predicate IsPage(page: Page, rows: Rows, after: Cursor, limit: nat)
    requires UniqueIds(rows)
  {
    var list, n := Changes(rows, after), PageSize(rows, after, limit);
    && |page.items| == n
    && (forall i | 0 <= i < n :: list[i] in rows && page.items[i] == (list[i], rows[list[i]]))
    && page.next == (if n == 0 then after else Some(StampOf(rows[list[n - 1]])))
    && page.hasMore == (|list| > limit)
  }

  /** What remains after a page is the rest of the list: pages concatenate to the list, each row once. */
  lemma PagesContinue(page: Page, rows: Rows, after: Cursor, limit: nat)
    requires UniqueIds(rows) && IsPage(page, rows, after, limit)
    ensures Changes(rows, page.next) == Changes(rows, after)[PageSize(rows, after, limit)..]
    ensures !page.hasMore ==> Pending(rows, page.next) == {}
  {
    var n := PageSize(rows, after, limit);
    if n > 0 {
      ChangesResume(rows, after, n - 1);
    }
    NothingPending(rows, page.next);
  }

  lemma NothingPending(rows: Rows, after: Cursor)
    requires UniqueIds(rows)
    ensures Changes(rows, after) == [] <==> Pending(rows, after) == {}
  {
    if r :| r in Pending(rows, after) { assert r in Changes(rows, after); }
  }

  // ---------- the client ----------

  datatype Client = Client(replica: Rows, cursor: Cursor)

  ghost function Received(replica: Rows, items: seq<(RecordId, Row)>): Rows {
    if items == [] then replica else
      Received(replica, items[..|items| - 1])[items[|items| - 1].0 := items[|items| - 1].1]
  }

  /** Everything the cursor has passed is in the replica as it is on the server. */
  ghost predicate InSync(rows: Rows, client: Client) {
    && UniqueIds(rows)
    && client.replica.Keys <= rows.Keys
    && forall r | r in rows && !IsAfter(rows[r], client.cursor) :: r in client.replica && client.replica[r] == rows[r]
  }

  ghost function RecordsOf(items: seq<(RecordId, Row)>): set<RecordId> {
    set item | item in items :: item.0
  }

  lemma {:induction false} ReceivedRows(replica: Rows, items: seq<(RecordId, Row)>, rows: Rows)
    requires forall item | item in items :: item.0 in rows && item.1 == rows[item.0]
    ensures Received(replica, items).Keys == replica.Keys + RecordsOf(items)
    ensures forall r | r in RecordsOf(items) :: r in rows && Received(replica, items)[r] == rows[r]
    ensures forall r | r in replica && r !in RecordsOf(items) :: Received(replica, items)[r] == replica[r]
  {
    if items != [] {
      var rest, last := items[..|items| - 1], items[|items| - 1];
      assert items == rest + [last];
      assert forall item :: item in items <==> item in rest || item == last;
      ReceivedRows(replica, rest, rows);
      assert RecordsOf(items) == RecordsOf(rest) + {last.0};
    }
  }

  lemma PageRecords(page: Page, rows: Rows, after: Cursor, limit: nat)
    requires UniqueIds(rows) && IsPage(page, rows, after, limit)
    ensures forall item | item in page.items :: item.0 in rows && item.1 == rows[item.0]
    ensures forall r | r in Pending(rows, after) && r !in Pending(rows, page.next) :: r in RecordsOf(page.items)
    ensures RecordsOf(page.items) <= Pending(rows, after)
  {
    var list, n := Changes(rows, after), PageSize(rows, after, limit);
    PagesContinue(page, rows, after, limit);
    forall k | n <= k < |list| ensures list[k] in Pending(rows, page.next) {
      assert list[k] == list[n..][k - n];
      assert list[n..][k - n] in Changes(rows, page.next);
    }
    forall r | r in Pending(rows, after) && r !in Pending(rows, page.next)
      ensures r in RecordsOf(page.items)
    {
      var i :| 0 <= i < |list| && list[i] == r;
      assert i < n;
      assert page.items[i] in page.items && page.items[i].0 == r;
    }
    forall r | r in RecordsOf(page.items) ensures r in Pending(rows, after) {
      var i :| 0 <= i < n && page.items[i].0 == r;
      assert list[i] in list;
    }
  }

  /** Applying a page keeps the client in sync; after the last page it holds exactly the server's rows. */
  lemma PullKeepsInSync(rows: Rows, client: Client, page: Page, limit: nat)
    requires InSync(rows, client) && IsPage(page, rows, client.cursor, limit)
    ensures var after := Client(Received(client.replica, page.items), page.next);
            InSync(rows, after) && (!page.hasMore ==> after.replica == rows)
  {
    var after := Client(Received(client.replica, page.items), page.next);
    PageRecords(page, rows, client.cursor, limit);
    ReceivedRows(client.replica, page.items, rows);
    ReceivedInSync(rows, client, page);
    if !page.hasMore {
      PagesContinue(page, rows, client.cursor, limit);
      NothingPendingMeansExact(rows, after);
    }
  }

  lemma ReceivedInSync(rows: Rows, client: Client, page: Page)
    requires InSync(rows, client)
    requires RecordsOf(page.items) <= Pending(rows, client.cursor)
    requires forall r | r in Pending(rows, client.cursor) && r !in Pending(rows, page.next) ::
        r in RecordsOf(page.items)
    requires forall item | item in page.items :: item.0 in rows && item.1 == rows[item.0]
    ensures InSync(rows, Client(Received(client.replica, page.items), page.next))
  {
    var after := Client(Received(client.replica, page.items), page.next);
    ReceivedRows(client.replica, page.items, rows);
    forall r | r in rows && !IsAfter(rows[r], after.cursor)
      ensures r in after.replica && after.replica[r] == rows[r]
    {
      assert r !in Pending(rows, page.next);
      assert IsAfter(rows[r], client.cursor) ==> r in RecordsOf(page.items);
    }
  }

  lemma NothingPendingMeansExact(rows: Rows, client: Client)
    requires InSync(rows, client) && Pending(rows, client.cursor) == {}
    ensures client.replica == rows
  {
    forall r | r in rows ensures r in client.replica && client.replica[r] == rows[r] {
      assert r !in Pending(rows, client.cursor);
    }
  }

  /** A push is stamped later than every cursor handed out, and new rows get new ids. */
  ghost predicate StampedLater(rows: Rows, c: Context, cursor: Cursor) {
    && (cursor.Some? ==> c.now > cursor.value.at)
    && forall r | r in rows :: rows[r].id != c.newId
  }

  lemma PushKeepsInSync(rows: Rows, client: Client, op: Operation, c: Context)
    requires InSync(rows, client) && StampedLater(rows, c, client.cursor)
    ensures InSync(Applied(rows, op, c), client)
  {
  }

  // ---------- runs of pushes and pulls ----------

  datatype Event =
    | Push(op: Operation, context: Context)
    | Pull(limit: nat, page: Page)

  datatype State = State(rows: Rows, client: Client)

  ghost predicate Next(a: State, event: Event, b: State) {
    match event
    case Push(op, c) =>
      StampedLater(a.rows, c, a.client.cursor) && b == State(Applied(a.rows, op, c), a.client)
    case Pull(limit, page) =>
      && UniqueIds(a.rows) && limit > 0
      && IsPage(page, a.rows, a.client.cursor, limit)
      && b == State(a.rows, Client(Received(a.client.replica, page.items), page.next))
  }

  ghost predicate IsRun(states: seq<State>, events: seq<Event>) {
    && |states| == |events| + 1
    && states[0] == State(map[], Client(map[], None))
    && forall i | 0 <= i < |events| :: Next(states[i], events[i], states[i + 1])
  }

  lemma NextKeepsInSync(a: State, event: Event, b: State)
    requires InSync(a.rows, a.client) && Next(a, event, b)
    ensures InSync(b.rows, b.client)
    ensures event.Pull? && !event.page.hasMore ==> b.client.replica == b.rows
  {
    match event {
      case Push(op, c) => PushKeepsInSync(a.rows, a.client, op, c);
      case Pull(limit, page) => PullKeepsInSync(a.rows, a.client, page, limit);
    }
  }

  lemma {:induction false} RunKeepsInSync(states: seq<State>, events: seq<Event>, i: nat)
    requires IsRun(states, events) && i < |states|
    ensures InSync(states[i].rows, states[i].client)
  {
    if i > 0 {
      RunKeepsInSync(states, events, i - 1);
      var a, event, b := states[i - 1], events[i - 1], states[i - 1 + 1];
      assert Next(a, event, b);
      NextKeepsInSync(a, event, b);
    }
  }

  /** However pushes and pulls interleave, a pull that reports no more leaves an exact replica. */
  lemma CompletePullGivesExactReplica(states: seq<State>, events: seq<Event>, i: nat)
    requires IsRun(states, events) && i < |events| && events[i].Pull? && !events[i].page.hasMore
    ensures states[i + 1].client.replica == states[i + 1].rows
  {
    RunKeepsInSync(states, events, i);
    var a, event, b := states[i], events[i], states[i + 1];
    assert Next(a, event, b);
    NextKeepsInSync(a, event, b);
  }

  /**
   * The stamping condition is needed: a row that changes without moving past the cursor is
   * not delivered, so exactly the rows stamped after the cursor reach an in-sync client.
   */
  lemma WriteReachesClientExactlyWhen(rows: Rows, client: Client, r: RecordId, row: Row, page: Page, limit: nat)
    requires InSync(rows, client) && UniqueIds(rows[r := row])
    requires r !in client.replica || client.replica[r] != row
    requires IsPage(page, rows[r := row], client.cursor, limit) && !page.hasMore
    ensures Received(client.replica, page.items) == rows[r := row] <==>
              || client.cursor == None || client.cursor.value.at < row.updatedAt
              || (client.cursor.value.at == row.updatedAt && client.cursor.value.id < row.id)
  {
    var next: Rows := rows[r := row];
    if IsAfter(row, client.cursor) {
      assert InSync(next, client);
      PullKeepsInSync(next, client, page, limit);
    } else {
      PageRecords(page, next, client.cursor, limit);
      ReceivedRows(client.replica, page.items, next);
      assert r !in Pending(next, client.cursor);
    }
  }

  /** A row written with an earlier time than the client's cursor: a complete pull does not deliver it. */
  lemma MissedWriteExample()
    ensures var rows: Rows := map[1 := Row(1, 0, 100, 10, 20, None)];
            var client := Client(rows, Some(Stamp(20, 1)));
            var next := rows[2 := Row(2, 0, 200, 11, 19, None)];
            var page := Page([], client.cursor, false);
            && InSync(rows, client) && UniqueIds(next) && IsPage(page, next, client.cursor, 100)
            && Received(client.replica, page.items) == rows && rows != next
  {
    var rows: Rows := map[1 := Row(1, 0, 100, 10, 20, None)];
    var next: Rows := rows[2 := Row(2, 0, 200, 11, 19, None)];
    assert Pending(next, Some(Stamp(20, 1))) == {};
    NothingPending(next, Some(Stamp(20, 1)));
    assert 2 in next && 2 !in rows;
  }

  // ---------- the services ----------

  /** `list_changes`: the first `limit` pending rows in delivery order. */
  method ListChanges(rows: Rows, after: Cursor, limit: nat) returns (list: seq<RecordId>)
    requires UniqueIds(rows)
    ensures list == Changes(rows, after)[..if |Changes(rows, after)| <= limit then |Changes(rows, after)| else limit]
  {
    list := [];
    var cursor := after;
    while |list| < limit && Pending(rows, cursor) != {}
      invariant |list| <= limit
      invariant list + Changes(rows, cursor) == Changes(rows, after)
      decreases limit - |list|
    {
      var first := Earliest(rows, Pending(rows, cursor));
      FirstChange(rows, cursor, first);
      Regroup(list, first, Changes(rows, Some(StampOf(rows[first]))));
      list := list + [first];
      cursor := Some(StampOf(rows[first]));
    }
    NothingPending(rows, cursor);
  }

  lemma FirstChange(rows: Rows, after: Cursor, first: RecordId)
    requires UniqueIds(rows) && IsFirst(rows, Pending(rows, after), first)
    ensures Changes(rows, after) == [first] + Changes(rows, Some(StampOf(rows[first])))
  {
    var r := Changes(rows, after)[0];
    assert r in Changes(rows, after);
    assert IsFirst(rows, Pending(rows, after), r) && r == first;
  }

  method Earliest(rows: Rows, among: set<RecordId>) returns (first: RecordId)
    requires UniqueIds(rows) && among <= rows.Keys && among != {}
    ensures IsFirst(rows, among, first)
  {
    first :| first in among;
    var rest := among - {first};
    while rest != {}
      invariant first in among && rest <= among
      invariant forall x | x in among && x !in rest :: x == first || Less(StampOf(rows[first]), StampOf(rows[x]))
      decreases rest
    {
      var x :| x in rest;
      rest := rest - {x};
      if Less(StampOf(rows[x]), StampOf(rows[first])) { first := x; }
    }
  }

  lemma ShownRows(rows: Rows, after: Cursor, shown: seq<RecordId>)
    requires UniqueIds(rows) && shown <= Changes(rows, after)
    ensures forall i | 0 <= i < |shown| :: shown[i] == Changes(rows, after)[i] && shown[i] in rows
  {
    forall i | 0 <= i < |shown| ensures shown[i] in rows {
      assert Changes(rows, after)[i] in Changes(rows, after);
    }
  }

  /** Asks for one row more than the page holds to learn whether there is a next page. */
  method PullPage(rows: Rows, after: Cursor, limit: nat) returns (page: Page)
    requires UniqueIds(rows)
    ensures IsPage(page, rows, after, limit)
  {
    var records := ListChanges(rows, after, limit + 1);
    var hasMore := |records| > limit;
    var shown := if hasMore then records[..limit] else records;
    ShownRows(rows, after, shown);
    var items := seq(|shown|, i requires 0 <= i < |shown| => (shown[i], rows[shown[i]]));
    var next := if shown == [] then after else Some(StampOf(rows[shown[|shown| - 1]]));
    page := Page(items, next, hasMore);
  }

  /** A client that pulls until there is no more, on rows nobody changes meanwhile. */
  method PullAll(rows: Rows, client: Client, limit: nat) returns (done: Client, ghost delivered: seq<RecordId>)
    requires limit > 0 && InSync(rows, client)
    ensures done.replica == rows
    ensures delivered == Changes(rows, client.cursor)
  {
    done := client;
    delivered := [];
    var more := true;
    while more
      invariant InSync(rows, done)
      invariant delivered + Changes(rows, done.cursor) == Changes(rows, client.cursor)
      invariant !more ==> done.replica == rows && Changes(rows, done.cursor) == []
      decreases more, |Changes(rows, done.cursor)|
    {
      ghost var list, n := Changes(rows, done.cursor), PageSize(rows, done.cursor, limit);
      var page;
      page, done := PullOnce(rows, done, limit);
      Rejoin(delivered, list, n);
      delivered := delivered + list[..n];
      more := page.hasMore;
    }
  }

  lemma Rejoin(before: seq<RecordId>, list: seq<RecordId>, n: nat)
    requires n <= |list|
    ensures before + list == before + list[..n] + list[n..]
  {
  }

  method PullOnce(rows: Rows, client: Client, limit: nat) returns (page: Page, after: Client)
    requires limit > 0 && InSync(rows, client)
    ensures IsPage(page, rows, client.cursor, limit) && InSync(rows, after)
    ensures Changes(rows, after.cursor) == Changes(rows, client.cursor)[PageSize(rows, client.cursor, limit)..]
    ensures page.hasMore ==> |Changes(rows, after.cursor)| < |Changes(rows, client.cursor)|
    ensures !page.hasMore ==> after.replica == rows && Changes(rows, after.cursor) == []
  {
    page := PullPage(rows, client.cursor, limit);
    PagesContinue(page, rows, client.cursor, limit);
    PullKeepsInSync(rows, client, page, limit);
    var replica := ApplyPage(client.replica, page.items);
    after := Client(replica, page.next);
  }

  method ApplyPage(replica: Rows, items: seq<(RecordId, Row)>) returns (r: Rows)
    ensures r == Received(replica, items)
  {
    r := replica;
    for i := 0 to |items|
      invariant r == Received(replica, items[..i])
    {
      assert items[..i + 1][..i] == items[..i];
      r := r[items[i].0 := items[i].1];
    }
    assert items[..|items|] == items;
  }
}
