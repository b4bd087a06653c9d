/**
 * What a client learns from the answers of group push: which pushes take effect, and how
 * a change that was answered once is answered ever after.
 */
module GroupAnswers {
  import opened Basics
  import opened GroupPush

  /** The answer to a pushed change. */
  function ChangeAnswer(db: Database, q: Request, valid: bool): Answer {
    AnswerTo(MutationOutcome(db, q, valid))
  }

  /** The receipt of a change that took effect. */
  ghost predicate HasReceipt(db: Database, q: Request) {
    (q.actor, q.record) in db.receipts && db.receipts[(q.actor, q.record)] == Receipt(q.group, q.kind, q.body)
  }

  // ---------- changes ----------

  /** Accepted means applied now; any other answer means that no table changed. */
  lemma AcceptedExactlyWhen(db: Database, q: Request, valid: bool)
    ensures ChangeAnswer(db, q, valid) == Accepted <==>
              (q.group, q.actor) in db.members && (q.actor, q.record) !in db.receipts && valid
    ensures ChangeAnswer(db, q, valid) == Accepted <==> AfterMutation(db, q, valid).applied == db.applied + [q]
    ensures ChangeAnswer(db, q, valid) != Accepted ==> AfterMutation(db, q, valid) == db
    ensures ChangeAnswer(db, q, valid) == Forbidden <==> (q.group, q.actor) !in db.members
  {
    assert AfterMutation(db, q, valid) == db ==> |AfterMutation(db, q, valid).applied| != |db.applied + [q]|;
  }

  lemma {:induction false} ReceiptStays(states: seq<State>, events: seq<Event>, m: nat, n: nat, q: Request)
    requires IsRun(states, events) && m <= n < |states| && HasReceipt(states[m].db, q)
    ensures HasReceipt(states[n].db, q)
    decreases n
  {
    if m < n {
      ReceiptStays(states, events, m, n - 1, q);
      RunExtends(states, events, n - 1);
    }
  }

  /** A change that was answered with success at some step of the run. */
  ghost predicate Succeeds(states: seq<State>, events: seq<Event>, m: nat, p: Request) {
    && IsRun(states, events) && m < |events| && events[m].Mutate? && states[m].progress[events[m].id].request == p
    && ChangeAnswer(states[m].db, p, events[m].valid) in {Accepted, Duplicate}
  }

  lemma SuccessLeavesReceipt(states: seq<State>, events: seq<Event>, m: nat, n: nat, p: Request)
    requires Succeeds(states, events, m, p) && m < n < |states|
    ensures HasReceipt(states[n].db, p)
  {
    RunKeepsInv(states, events, m);
    assert states[m + 1] == Step(states[m], events[m]);
    assert ProgressOk(states[m].db, states[m].progress[events[m].id], states[m].arrived);
    MutationKeeps(states[m].db, p, events[m].valid, states[m].arrived);
    ReceiptStays(states, events, m + 1, n, p);
  }

  /**
   * Over every run: once a change was answered with success, every later push of its record id
   * by a still active member changes no table.  The same change is answered as a duplicate,
   * anything else in its place as a conflict, whether the ledger would accept it or not.
   */
  lemma SuccessIsRemembered(states: seq<State>, events: seq<Event>, m: nat, n: nat, p: Request, q: Request, valid: bool)
    requires Succeeds(states, events, m, p) && m < n < |states|
    requires !q.kind.Creates() && q.actor == p.actor && q.record == p.record
    requires (q.group, q.actor) in states[n].db.members
    ensures AfterMutation(states[n].db, q, valid) == states[n].db
    ensures ChangeAnswer(states[n].db, q, valid) ==
            if q.group == p.group && q.kind == p.kind && q.body == p.body then Duplicate else Conflict
  {
    SuccessLeavesReceipt(states, events, m, n, p);
  }

  /** A duplicate or a conflict is answered only where some change of the record id took effect before. */
  lemma DuplicateWasApplied(states: seq<State>, events: seq<Event>, n: nat, q: Request, valid: bool) returns (i: nat)
    requires IsRun(states, events) && n < |states|
    requires ChangeAnswer(states[n].db, q, valid) in {Duplicate, Conflict}
    ensures i < |states[n].db.applied|
    ensures var p := states[n].db.applied[i];
            && p.actor == q.actor && p.record == q.record
            && (ChangeAnswer(states[n].db, q, valid) == Duplicate <==>
                p.group == q.group && p.kind == q.kind && p.body == q.body)
  {
    RunKeepsInv(states, events, n);
    var db := states[n].db;
    assert WasApplied(db.applied, q.actor, q.record);
    i :| 0 <= i < |db.applied| && db.applied[i].actor == q.actor && db.applied[i].record == q.record;
  }

  /** A change that only repeats its record id: the answers to three pushes in a row. */
  lemma ThreeAnswersExample(db: Database)
    requires (1, 10) in db.members && (10, 7) !in db.receipts
    ensures var first, other := Request(ExpenseUpdate, 1, 10, 7, 500), Request(ExpenseUpdate, 1, 10, 7, 501);
            var after := AfterMutation(db, first, true);
            && ChangeAnswer(db, first, true) == Accepted
            && ChangeAnswer(after, first, true) == Duplicate
            && ChangeAnswer(after, other, true) == Conflict
  {
    var first := Request(ExpenseUpdate, 1, 10, 7, 500);
    var after := AfterMutation(db, first, true);
    assert after.receipts == db.receipts[(10, 7) := Receipt(1, ExpenseUpdate, 500)] && after.members == db.members;
  }

  // ---------- creates ----------

  /** The request of a create that is being handled. */
  function Creating(s: State, event: Event): Request
    requires event.Create? && event.id in s.progress
  {
    s.progress[event.id].request
  }

  /**
   * A resource appears in a step exactly when it is a create with a new key by an active member
   * that the service accepts; it is the one that was asked for.
   */
  lemma ResourceAppearsExactlyWhen(s: State, event: Event)
    requires Enabled(s, event)
    ensures |Step(s, event).db.resources| != |s.db.resources| <==>
            && event.Create? && event.valid
            && (Creating(s, event).group, Creating(s, event).actor) in s.db.members
            && KeyOf(Creating(s, event)) !in s.db.records
    ensures |Step(s, event).db.resources| != |s.db.resources| ==>
            && Step(s, event).db.resources == s.db.resources + [Resource(KeyOf(Creating(s, event)),
                                                                         Creating(s, event).body, false)]
            && Step(s, event).progress[event.id] == Created(Creating(s, event), |s.db.resources|, false)
  {
  }

  /** An outsider is refused, whatever the tables hold, and changes none of them. */
  lemma OutsidersAreRefused(db: Database, q: Request, valid: bool)
    requires (q.group, q.actor) !in db.members
    ensures q.kind.Creates() ==> CreateOutcome(db, q, valid) == NotMember && AfterCreate(db, q, valid) == db
    ensures !q.kind.Creates() ==> ChangeAnswer(db, q, valid) == Forbidden && AfterMutation(db, q, valid) == db
  {
  }
}
