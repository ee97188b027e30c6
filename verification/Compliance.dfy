/**
 The in-memory compliance store of `internal/compliance/memory.go`: the barrier between block changes and
 deliveries, and the log of case reviews.
 */
module BlockBarrier {
  import opened Common

  type User = nat
  type Thread = nat

  /** Where a DeliverIfAllowed call is while it holds the read lock. */
  datatype Phase = Checking | Sending | Finished

  datatype Delivery = Delivery(a: User, b: User, phase: Phase)

  /** A SetBlock call that holds the write lock. */
  datatype Change = Change(a: User, b: User, block: bool, written: bool)

  datatype State = State(blocks: set<(User, User)>, deliveries: map<Thread, Delivery>, change: Option<Change>)

  datatype Step =
    | ReadLock(t: Thread, a: User, b: User)
    | Check(t: Thread)
    | Finish(t: Thread)      // send returned
    | ReadUnlock(t: Thread)
    | Lock(a: User, b: User, block: bool)
    | Write
    | Unlock                 // SetBlock returns

  /** User 0 is uuid.Nil. */
  predicate Enabled(s: State, step: Step) {
    match step
    case ReadLock(t, a, b) => s.change.None? && t !in s.deliveries
    case Check(t) => t in s.deliveries && s.deliveries[t].phase.Checking?
    case Finish(t) => t in s.deliveries && s.deliveries[t].phase.Sending?
    case ReadUnlock(t) => t in s.deliveries && s.deliveries[t].phase.Finished?
    case Lock(a, b, block) => a != 0 && b != 0 && a != b && s.change.None? && s.deliveries == map[]
    case Write => s.change.Some? && !s.change.value.written
    case Unlock => s.change.Some? && s.change.value.written
  }

  predicate Blocked(blocks: set<(User, User)>, a: User, b: User) {
    (a, b) in blocks || (b, a) in blocks
  }

  function Apply(s: State, step: Step): State
    requires Enabled(s, step)
  {
    match step
    case ReadLock(t, a, b) => s.(deliveries := s.deliveries[t := Delivery(a, b, Checking)])
    case Check(t) =>
      var d := s.deliveries[t];
      s.(deliveries := s.deliveries[t := d.(phase := if Blocked(s.blocks, d.a, d.b) then Finished else Sending)])
    case Finish(t) => s.(deliveries := s.deliveries[t := s.deliveries[t].(phase := Finished)])
    case ReadUnlock(t) => s.(deliveries := s.deliveries - {t})
    case Lock(a, b, block) => s.(change := Some(Change(a, b, block, false)))
    case Write =>
      var c := s.change.value;
      s.(change := Some(c.(written := true)), blocks := if c.block then s.blocks + {(c.a, c.b)} else s.blocks - {(c.a, c.b)})
    case Unlock => s.(change := None)
  }

  ghost predicate Run(trace: seq<State>, steps: seq<Step>) {
    && |trace| == |steps| + 1 && trace[0] == State({}, map[], None)
    && forall i :: 0 <= i < |steps| ==> Enabled(trace[i], steps[i]) && trace[i + 1] == Apply(trace[i], steps[i])
  }

  predicate SendBetween(d: Delivery, a: User, b: User) {
    d.phase.Sending? && ((d.a == a && d.b == b) || (d.a == b && d.b == a))
  }

  /** No send between blocked users is in progress, deliveries exclude changes, and a written change shows. */
  predicate Inv(s: State) {
    && (forall t :: t in s.deliveries && s.deliveries[t].phase.Sending? ==> !Blocked(s.blocks, s.deliveries[t].a, s.deliveries[t].b))
    && (s.change.Some? ==> s.deliveries == map[])
    && (s.change.Some? && s.change.value.written ==> ((s.change.value.a, s.change.value.b) in s.blocks <==> s.change.value.block))
  }

  lemma StepKeepsInvariant(s: State, step: Step)
    requires Inv(s) && Enabled(s, step)
    ensures Inv(Apply(s, step))
  {
  }

  lemma {:induction false} RunKeepsInvariant(trace: seq<State>, steps: seq<Step>, i: nat)
    requires Run(trace, steps) && i < |trace|
    ensures Inv(trace[i])
  {
    if i > 0 {
      RunKeepsInvariant(trace, steps, i - 1);
      StepKeepsInvariant(trace[i - 1], steps[i - 1]);
    }
  }

  /** The step at which SetBlock(a, b, true) returns. */
  predicate BlockReturns(trace: seq<State>, steps: seq<Step>, a: User, b: User, i: nat)
    requires |trace| == |steps| + 1
  {
    i < |steps| && steps[i].Unlock? && trace[i].change.Some? && trace[i].change.value == Change(a, b, true, true)
  }

  /** From its return on, the block stands until an unblock of the same pair takes the lock. */
  lemma {:induction false} BlockStands(trace: seq<State>, steps: seq<Step>, a: User, b: User, i: nat, j: nat)
    requires Run(trace, steps) && BlockReturns(trace, steps, a, b, i) && i < j < |trace|
    requires forall k :: i < k < j ==> steps[k] != Lock(a, b, false)
    ensures (a, b) in trace[j].blocks
    ensures trace[j].change.Some? ==> trace[j].change.value != Change(a, b, false, true) && trace[j].change.value != Change(a, b, false, false)
  {
    if j == i + 1 {
      RunKeepsInvariant(trace, steps, i);
    } else {
      BlockStands(trace, steps, a, b, i, j - 1);
    }
  }

  /** The barrier: between the return of SetBlock(a, b, true) and the start of the matching unblock, no send
      between the two users, in either direction, is in progress or starts. */
  lemma BlockBarrierHolds(trace: seq<State>, steps: seq<Step>, a: User, b: User, i: nat, j: nat, t: Thread)
    requires Run(trace, steps) && BlockReturns(trace, steps, a, b, i) && i < j < |trace|
    requires forall k :: i < k < j ==> steps[k] != Lock(a, b, false)
    requires t in trace[j].deliveries
    ensures !SendBetween(trace[j].deliveries[t], a, b)
  {
    RunKeepsInvariant(trace, steps, j);
    BlockStands(trace, steps, a, b, i, j);
  }

  /** The change that the write at step `i` makes. */
  ghost predicate Writes(trace: seq<State>, steps: seq<Step>, i: int, a: User, b: User, block: bool) {
    && 0 <= i < |steps| && i < |trace| && steps[i].Write? && trace[i].change.Some?
    && trace[i].change.value.a == a && trace[i].change.value.b == b && trace[i].change.value.block == block
  }

  /** A user blocks another exactly when the last change of that pair was a block. */
  lemma {:induction false} BlocksAreLastChanges(trace: seq<State>, steps: seq<Step>, j: nat, a: User, b: User)
    requires Run(trace, steps) && j < |trace|
    ensures (a, b) in trace[j].blocks <==>
      exists i :: i < j && Writes(trace, steps, i, a, b, true) && forall k :: i < k < j ==> !Writes(trace, steps, k, a, b, false)
  {
    if j > 0 {
      BlocksAreLastChanges(trace, steps, j - 1, a, b);
      var s := trace[j - 1];
      if Writes(trace, steps, j - 1, a, b, true) {
        assert (a, b) in trace[j].blocks;
      } else if Writes(trace, steps, j - 1, a, b, false) {
        assert (a, b) !in trace[j].blocks;
      } else {
        assert (a, b) in trace[j].blocks <==> (a, b) in s.blocks;
        if (a, b) in s.blocks {
          var i :| i < j - 1 && Writes(trace, steps, i, a, b, true) && forall k :: i < k < j - 1 ==> !Writes(trace, steps, k, a, b, false);
          assert forall k :: i < k < j ==> !Writes(trace, steps, k, a, b, false);
        }
      }
    }
  }

  /** A delivery's decision stands until it returns: no block changes meanwhile, so it was let through if and
      only if neither user blocks the other at any moment until then. */
  lemma {:induction false} DecisionStands(trace: seq<State>, steps: seq<Step>, i: nat, j: nat, t: Thread)
    requires Run(trace, steps) && i < j < |trace| && steps[i] == Check(t)
    requires forall k :: i < k < j ==> steps[k] != ReadUnlock(t)
    ensures trace[j].blocks == trace[i].blocks && trace[j].change.None?
    ensures t in trace[j].deliveries && !trace[j].deliveries[t].phase.Checking?
    ensures
      var d := trace[i].deliveries[t];
      SendBetween(trace[i + 1].deliveries[t], d.a, d.b) <==> !Blocked(trace[j].blocks, d.a, d.b)
  {
    RunKeepsInvariant(trace, steps, i);
    if j > i + 1 {
      DecisionStands(trace, steps, i, j - 1, t);
      RunKeepsInvariant(trace, steps, j - 1);
    }
  }

  // ---------------------------------------------------------------- a change can always complete

  function Execute(s: State, steps: seq<Step>): Option<State>
    decreases |steps|
  {
    if steps == [] then Some(s)
    else if Enabled(s, steps[0]) then Execute(Apply(s, steps[0]), steps[1..])
    else None
  }

  lemma {:induction false} ExecuteAppend(s: State, a: seq<Step>, s': State, b: seq<Step>)
    requires Execute(s, a) == Some(s')
    ensures Execute(s, a + b) == Execute(s', b)
    decreases |a|
  {
    if a == [] {
      assert a + b == b;
    } else {
      ExecuteAppend(Apply(s, a[0]), a[1..], s', b);
      assert (a + b)[1..] == a[1..] + b;
    }
  }

  /** A delivery runs to its end. */
  lemma DeliveryEnds(s: State, t: Thread) returns (steps: seq<Step>, s': State)
    requires t in s.deliveries
    ensures Execute(s, steps) == Some(s') && s' == s.(deliveries := s.deliveries - {t})
    decreases s.deliveries[t].phase.Checking?, s.deliveries[t].phase.Sending?
  {
    var step := if s.deliveries[t].phase.Checking? then Check(t) else if s.deliveries[t].phase.Sending? then Finish(t) else ReadUnlock(t);
    var s1 := Apply(s, step);
    var rest := [];
    if step.ReadUnlock? {
      s' := s1;
    } else {
      assert s1.deliveries - {t} == s.deliveries - {t};
      rest, s' := DeliveryEnds(s1, t);
    }
    steps := [step] + rest;
    assert steps[1..] == rest;
  }

  lemma {:induction false} DeliveriesEnd(s: State) returns (steps: seq<Step>, s': State)
    ensures Execute(s, steps) == Some(s') && s' == s.(deliveries := map[])
    decreases |s.deliveries|
  {
    if s.deliveries == map[] {
      steps, s' := [], s;
    } else {
      var t :| t in s.deliveries;
      var s1, rest;
      steps, s1 := DeliveryEnds(s, t);
      assert (s.deliveries - {t}).Keys == s.deliveries.Keys - {t};
      rest, s' := DeliveriesEnd(s1);
      ExecuteAppend(s, steps, s1, rest);
      steps := steps + rest;
    }
  }

  /** From every state without a change in progress, once the deliveries have ended, SetBlock for two users completes
      and leaves exactly its own pair changed. */
  lemma ChangeCompletes(s: State, a: User, b: User, block: bool) returns (steps: seq<Step>, s': State)
    requires s.change.None? && a != 0 && b != 0 && a != b
    ensures Execute(s, steps) == Some(s') && s'.change.None? && s'.deliveries == map[]
    ensures (a, b) in s'.blocks <==> block
    ensures forall p :: p != (a, b) ==> (p in s'.blocks <==> p in s.blocks)
  {
    var s1;
    steps, s1 := DeliveriesEnd(s);
    var s2 := Apply(s1, Lock(a, b, block));
    var s3 := Apply(s2, Write);
    s' := Apply(s3, Unlock);
    assert Execute(s3, [Unlock]) == Some(s') by { assert [Unlock][1..] == [] && Execute(s', []) == Some(s'); }
    assert Execute(s2, [Write, Unlock]) == Some(s') by { assert [Write, Unlock][1..] == [Unlock]; }
    assert Execute(s1, [Lock(a, b, block), Write, Unlock]) == Some(s') by { assert [Lock(a, b, block), Write, Unlock][1..] == [Write, Unlock]; }
    ExecuteAppend(s, steps, s1, [Lock(a, b, block), Write, Unlock]);
    steps := steps + [Lock(a, b, block), Write, Unlock];
  }
}

module ReviewLog {
  import opened Common

  type Id = nat
  type Hash = seq<nat>

  datatype Status = Received | Reviewing | AwaitingInformation | Resolved | Declined | Unknown(text: string)

  datatype Case = Case(
    id: Id, submission: string, tokenHash: Hash, requestHash: Hash, status: Status,
    receivedAt: int, reviewDueAt: Option<int>, updatedAt: int, publicUpdate: string)

  datatype CaseStatus = CaseStatus(id: Id, status: Status, receivedAt: int, reviewDueAt: Option<int>, updatedAt: int, publicUpdate: string)

  function Public(c: Case): CaseStatus { CaseStatus(c.id, c.status, c.receivedAt, c.reviewDueAt, c.updatedAt, c.publicUpdate) }

  datatype Review = Review(caseId: Id, expected: Status, status: Status, operator: string, reason: string, publicUpdate: string)

  predicate Space(c: char) { c in {' ', '\t', '\n', '\r'} }

  function TrimLeft(s: string): string { if s != [] && Space(s[0]) then TrimLeft(s[1..]) else s }
  function TrimRight(s: string): string { if s != [] && Space(s[|s| - 1]) then TrimRight(s[..|s| - 1]) else s }

  predicate ValidReview(r: Review) {
    && r.caseId != 0 && |TrimLeft(TrimRight(r.operator))| >= 3 && |r.operator| <= 200
    && |TrimLeft(TrimRight(r.reason))| >= 10 && |r.reason| <= 4000 && |r.publicUpdate| <= 2000
    && !r.status.Unknown? && !r.expected.Unknown? && r.status != r.expected
  }

  /** What NewCase builds. */
  predicate NewCase(c: Case) {
    c.id != 0 && c.status == Received && c.updatedAt == c.receivedAt && c.publicUpdate == ""
  }

  datatype Store = Store(cases: map<Id, Case>, reviews: seq<Review>)

  datatype Outcome = Done(status: CaseStatus) | Reviewed | Invalid | NotFound | Conflict

  datatype Operation = Submit(c: Case) | Record(r: Review, now: int)

  function Perform(s: Store, op: Operation): (Store, Outcome) {
    match op
    case Submit(c) =>
      if c.id in s.cases then
        var stored := s.cases[c.id];
        if stored.tokenHash != c.tokenHash || stored.requestHash != c.requestHash then (s, Conflict) else (s, Done(Public(stored)))
      else (s.(cases := s.cases[c.id := c]), Done(Public(c)))
    case Record(r, now) =>
      if !ValidReview(r) then (s, Invalid)
      else if r.caseId !in s.cases then (s, NotFound)
      else if s.cases[r.caseId].status != r.expected then (s, Conflict)
      else
        var c := s.cases[r.caseId].(status := r.status, publicUpdate := r.publicUpdate, updatedAt := now);
        (Store(s.cases[c.id := c], s.reviews + [r]), Reviewed)
  }

  function RunAll(ops: seq<Operation>): Store {
    if ops == [] then Store(map[], []) else Perform(RunAll(ops[..|ops| - 1]), ops[|ops| - 1]).0
  }

  // ---------------------------------------------------------------- replay

  /** The status that the recorded reviews of a case lead to. */
  function Replay(reviews: seq<Review>, id: Id): Status {
    if reviews == [] then Received
    else
      var r := reviews[|reviews| - 1];
      if r.caseId == id then r.status else Replay(reviews[..|reviews| - 1], id)
  }

  ghost predicate Consistent(s: Store) {
    && (forall id :: id in s.cases ==> s.cases[id].id == id && s.cases[id].status == Replay(s.reviews, id))
    && (forall i :: 0 <= i < |s.reviews| ==> s.reviews[i].caseId in s.cases && ValidReview(s.reviews[i]))
    && (forall i :: 0 <= i < |s.reviews| ==> s.reviews[i].expected == Replay(s.reviews[..i], s.reviews[i].caseId))
  }

  /** A case that no review names is still as received. */
  lemma {:induction false} ReplayUnnamed(reviews: seq<Review>, id: Id)
    requires forall i :: 0 <= i < |reviews| ==> reviews[i].caseId != id
    ensures Replay(reviews, id) == Received
  {
    if reviews != [] {
      ReplayUnnamed(reviews[..|reviews| - 1], id);
    }
  }

  lemma SubmitKeeps(s: Store, c: Case)
    requires Consistent(s) && NewCase(c)
    ensures Consistent(Perform(s, Submit(c)).0)
  {
    if c.id !in s.cases {
      ReplayUnnamed(s.reviews, c.id);
    }
  }

  lemma RecordKeeps(s: Store, r: Review, now: int)
    requires Consistent(s)
    ensures Consistent(Perform(s, Record(r, now)).0)
  {
    var after := Perform(s, Record(r, now)).0;
    if after != s {
      assert after.reviews[..|s.reviews|] == s.reviews;
      forall i | 0 <= i < |s.reviews| ensures after.reviews[..i] == s.reviews[..i] { }
    }
  }

  ghost predicate Sound(ops: seq<Operation>) {
    forall i :: 0 <= i < |ops| && ops[i].Submit? ==> NewCase(ops[i].c)
  }

  /** Over every run, each case's status is the replay of its recorded reviews and the log chains. */
  lemma {:induction false} RunIsConsistent(ops: seq<Operation>)
    requires Sound(ops)
    ensures Consistent(RunAll(ops))
  {
    if ops != [] {
      var op := ops[|ops| - 1];
      RunIsConsistent(ops[..|ops| - 1]);
      if op.Submit? {
        SubmitKeeps(RunAll(ops[..|ops| - 1]), op.c);
      } else {
        RecordKeeps(RunAll(ops[..|ops| - 1]), op.r, op.now);
      }
    }
  }

  /** The last review of a case decides its replay. */
  lemma {:induction false} ReplayLast(reviews: seq<Review>, i: nat, j: nat)
    requires i < j <= |reviews| && forall k :: i < k < j ==> reviews[k].caseId != reviews[i].caseId
    ensures Replay(reviews[..j], reviews[i].caseId) == reviews[i].status
  {
    if j > i + 1 {
      ReplayLast(reviews, i, j - 1);
      assert reviews[..j][..j - 1] == reviews[..j - 1];
    }
  }

  /** Consecutive reviews of a case chain: the later one expects what the earlier one set. */
  lemma ReviewsChain(ops: seq<Operation>, i: nat, j: nat)
    requires Sound(ops) && i < j < |RunAll(ops).reviews|
    requires RunAll(ops).reviews[i].caseId == RunAll(ops).reviews[j].caseId
    requires forall k :: i < k < j ==> RunAll(ops).reviews[k].caseId != RunAll(ops).reviews[i].caseId
    ensures RunAll(ops).reviews[j].expected == RunAll(ops).reviews[i].status
  {
    RunIsConsistent(ops);
    ReplayLast(RunAll(ops).reviews, i, j);
  }

  predicate KeysMatch(s: Store) { forall id :: id in s.cases ==> s.cases[id].id == id }

  lemma {:induction false} RunKeysMatch(ops: seq<Operation>)
    ensures KeysMatch(RunAll(ops))
  {
    if ops != [] {
      RunKeysMatch(ops[..|ops| - 1]);
    }
  }

  /** Everything but status, public text and time of a stored case outlives every later operation, the
      reviews only grow, and while no new review names the case nothing about it changes. */
  lemma {:induction false} CasesPersist(ops: seq<Operation>, more: seq<Operation>, id: Id)
    requires id in RunAll(ops).cases
    ensures
      var before, after := RunAll(ops), RunAll(ops + more);
      && id in after.cases && before.reviews <= after.reviews
      && var c := after.cases[id];
         && c.(status := before.cases[id].status, publicUpdate := before.cases[id].publicUpdate, updatedAt := before.cases[id].updatedAt)
            == before.cases[id]
         && ((forall k :: |before.reviews| <= k < |after.reviews| ==> after.reviews[k].caseId != id) ==> c == before.cases[id])
  {
    if more == [] {
      assert ops + more == ops;
    } else {
      var rest := more[..|more| - 1];
      CasesPersist(ops, rest, id);
      assert (ops + more)[..|ops + more| - 1] == ops + rest;
      RunKeysMatch(ops + rest);
      OneOperationPersists(RunAll(ops + rest), more[|more| - 1], id);
    }
  }

  lemma OneOperationPersists(s: Store, op: Operation, id: Id)
    requires KeysMatch(s) && id in s.cases
    ensures
      var after := Perform(s, op).0;
      && id in after.cases && s.reviews <= after.reviews
      && after.cases[id].(status := s.cases[id].status, publicUpdate := s.cases[id].publicUpdate, updatedAt := s.cases[id].updatedAt) == s.cases[id]
      && (after.cases[id] != s.cases[id] ==> |after.reviews| == |s.reviews| + 1 && after.reviews[|s.reviews|].caseId == id)
  {
  }

  /** A review that the store takes: valid, of a stored case, and expecting the status that its recorded reviews
      lead to. */
  ghost predicate Timely(s: Store, r: Review) {
    ValidReview(r) && r.caseId in s.cases && Replay(s.reviews, r.caseId) == r.expected
  }

  /** Over every run: a timely review is recorded, and nothing but its case changes; any other review is refused and
      changes nothing. */
  lemma ReviewTakesEffect(ops: seq<Operation>, r: Review, now: int)
    requires Sound(ops)
    ensures
      var s := RunAll(ops);
      var (after, answer) := Perform(s, Record(r, now));
      && after == RunAll(ops + [Record(r, now)])
      && (answer == Reviewed <==> Timely(s, r))
      && (answer != Reviewed ==> after == s)
      && (answer == Reviewed ==>
            && after.reviews == s.reviews + [r] && Replay(after.reviews, r.caseId) == r.status
            && after.cases.Keys == s.cases.Keys
            && after.cases[r.caseId].status == r.status && after.cases[r.caseId].publicUpdate == r.publicUpdate
            && after.cases[r.caseId].updatedAt == now
            && forall id :: id in s.cases && id != r.caseId ==> after.cases[id] == s.cases[id])
  {
    RunIsConsistent(ops);
    assert (ops + [Record(r, now)])[..|ops|] == ops;
  }

  /** Over every run: a case with a fresh identifier is stored as submitted, and nothing else changes. */
  lemma SubmissionIsStored(ops: seq<Operation>, c: Case)
    requires c.id !in RunAll(ops).cases
    ensures
      var s, after := RunAll(ops), RunAll(ops + [Submit(c)]);
      && c.id in after.cases && after.cases[c.id] == c && after.reviews == s.reviews
      && after.cases.Keys == s.cases.Keys + {c.id} && (forall id :: id in s.cases ==> after.cases[id] == s.cases[id])
      && Perform(s, Submit(c)).1 == Done(CaseStatus(c.id, c.status, c.receivedAt, c.reviewDueAt, c.updatedAt, c.publicUpdate))
  {
    assert (ops + [Submit(c)])[..|ops|] == ops;
  }

  /** With request hashes that tell submissions apart, a repeated identifier is accepted exactly for the same
      token and the same submission, and then answers with the stored case. */
  lemma Resubmission(s: Store, c: Case, digest: string -> Hash)
    requires c.id in s.cases && s.cases[c.id].requestHash == digest(s.cases[c.id].submission) && c.requestHash == digest(c.submission)
    requires forall x, y :: digest(x) == digest(y) ==> x == y
    ensures Perform(s, Submit(c)).0 == s
    ensures
      var stored := s.cases[c.id];
      Perform(s, Submit(c)).1 ==
        if stored.tokenHash == c.tokenHash && stored.submission == c.submission then Done(Public(stored)) else Conflict
  {
  }

  class Memory {
    var cases: map<Id, Case>
    var reviews: seq<Review>

    ghost function View(): Store reads this { Store(cases, reviews) }

    constructor ()
      ensures View() == RunAll([])
    {
      cases, reviews := map[], [];
    }

    method SubmitCase(c: Case) returns (r: Outcome)
      modifies this
      ensures (View(), r) == Perform(old(View()), Submit(c))
    {
      if c.id in cases {
        if cases[c.id].tokenHash != c.tokenHash || cases[c.id].requestHash != c.requestHash {
          return Conflict;
        }
        return Done(Public(cases[c.id]));
      }
      cases := cases[c.id := c];
      return Done(Public(c));
    }

    method RecordReview(review: Review, now: int) returns (r: Outcome)
      modifies this
      ensures (View(), r) == Perform(old(View()), Record(review, now))
    {
      if !ValidReview(review) {
        return Invalid;
      }
      if review.caseId !in cases {
        return NotFound;
      }
      var c := cases[review.caseId];
      if c.status != review.expected {
        return Conflict;
      }
      c := c.(status := review.status, publicUpdate := review.publicUpdate, updatedAt := now);
      cases := cases[c.id := c];
      reviews := reviews + [review];
      return Reviewed;
    }
  }
}
