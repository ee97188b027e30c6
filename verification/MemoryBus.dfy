/**
 The in-process session bus of `internal/events/memory.go`.

 Each critical section under the bus mutex is one step; the callbacks that run after the mutex is
 released are steps of their own, so registrations and fences interleave freely around them.  A callback runs
 `sessionRevocationCache.Revoke`: it snapshots the matching guards of the user that are in the cache at that
 moment, and then closes them one by one, waiting for each until no action holds its mutex.
 */
module MemoryBus {
  import opened Common

  type UserId = nat
  type SessionId = nat
  type OwnerId = nat
  type TicketId = nat

  const SECOND := 1_000_000_000
  const FENCE_TTL := 120 * SECOND

  datatype OwnerStage = Connected | Registering | Registered

  /** A callback in progress: whom it was made for, and the guards of its snapshot still to be closed. */
  datatype Callback = Callback(of: nat, closing: set<OwnerId>)

  /** An owner together with its guard.  `listed` is membership in the bus's owner map, `cached` that of the
      guard in the revocation cache, `acting` says that an action holds the guard's mutex, `barriers` are the
      fences its registration has snapshotted and not applied yet, `applying` the one it applies now. */
  datatype Owner = Owner(
    user: UserId, session: SessionId, stage: OwnerStage, listed: bool, cached: bool, revoked: bool, acting: bool,
    barriers: set<TicketId>, applying: Option<Callback>)

  /** One `FenceSessions` call.  `present` is membership in the fence map, `pending` the owners it has
      snapshotted and not called yet, `calling` the one it calls now. */
  datatype Ticket = Ticket(
    user: UserId, scope: Option<SessionId>, validUntil: int, present: bool, pending: set<OwnerId>,
    calling: Option<Callback>, returned: bool)

  datatype State = State(now: int, owners: map<OwnerId, Owner>, tickets: map<TicketId, Ticket>)

  datatype Step =
    | Tick(d: nat)
    | Connect(o: OwnerId, user: UserId, session: SessionId)
    | Register(o: OwnerId)
    | ApplyBarrier(o: OwnerId, t: TicketId)
    | BarrierCloses(o: OwnerId, g: OwnerId)
    | BarrierApplied(o: OwnerId)
    | RegisterReturn(o: OwnerId)
    | Begin(o: OwnerId)
    | End(o: OwnerId)
    | CloseOwner(o: OwnerId)
    | Unregister(o: OwnerId)
    | Fence(t: TicketId, user: UserId, scope: Option<SessionId>)
    | CallOwner(t: TicketId, o: OwnerId)
    | FenceCloses(t: TicketId, g: OwnerId)
    | OwnerCalled(t: TicketId)
    | FenceReturn(t: TicketId)
    | Release(t: TicketId)
    | Revoke(o: OwnerId)
    | CloseBus

  predicate Matches(t: Ticket, k: Owner) {
    t.user == k.user && (t.scope == None || t.scope == Some(k.session))
  }

  /** `owner.Valid` and the guard both let an action begin. */
  predicate CanAct(k: Owner) {
    k.stage.Registered? && k.listed && !k.revoked && !k.acting
  }

  predicate Closes(owners: map<OwnerId, Owner>, c: Option<Callback>, g: OwnerId) {
    c.Some? && g in c.value.closing && g in owners && !owners[g].acting
  }

  predicate Enabled(s: State, step: Step) {
    match step
    case Tick(_) => true
    case Connect(o, _, _) => o !in s.owners
    case Register(o) => o in s.owners && s.owners[o].stage.Connected?
    case ApplyBarrier(o, t) => o in s.owners && t in s.owners[o].barriers && t in s.tickets && s.owners[o].applying.None?
    case BarrierCloses(o, g) => o in s.owners && Closes(s.owners, s.owners[o].applying, g)
    case BarrierApplied(o) => o in s.owners && s.owners[o].applying.Some? && s.owners[o].applying.value.closing == {}
    case RegisterReturn(o) => o in s.owners && s.owners[o].stage.Registering? && s.owners[o].barriers == {}
    case Begin(o) => o in s.owners && CanAct(s.owners[o])
    case End(o) => o in s.owners && s.owners[o].acting
    case CloseOwner(o) => o in s.owners && s.owners[o].stage.Registered?
    case Unregister(o) => o in s.owners && s.owners[o].stage.Registered? && !s.owners[o].listed
    case Fence(t, _, _) => t !in s.tickets
    case CallOwner(t, o) => t in s.tickets && o in s.tickets[t].pending && s.tickets[t].calling.None?
    case FenceCloses(t, g) => t in s.tickets && Closes(s.owners, s.tickets[t].calling, g)
    case OwnerCalled(t) => t in s.tickets && s.tickets[t].calling.Some? && s.tickets[t].calling.value.closing == {}
    case FenceReturn(t) => t in s.tickets && s.tickets[t].pending == {}
    case Release(t) => t in s.tickets && s.tickets[t].returned
    case Revoke(o) => o in s.owners && !s.owners[o].acting
    case CloseBus => true
  }

  /** The guards that a callback of this fence snapshots. */
  function Snapshot(owners: map<OwnerId, Owner>, t: Ticket): set<OwnerId> {
    set g | g in owners && owners[g].cached && Matches(t, owners[g])
  }

  function Closed(owners: map<OwnerId, Owner>, g: OwnerId): map<OwnerId, Owner>
    requires g in owners
  {
    owners[g := owners[g].(revoked := true)]
  }

  function Progressed(c: Option<Callback>, g: OwnerId): Option<Callback> {
    if c.Some? then Some(Callback(c.value.of, c.value.closing - {g})) else None
  }

  predicate Unexpired(t: Ticket, now: int) {
    now < t.validUntil
  }

  function Apply(s: State, step: Step): State
    requires Enabled(s, step)
  {
    match step
    case Tick(d) => s.(now := s.now + d)
    case Connect(o, user, session) =>
      s.(owners := s.owners[o := Owner(user, session, Connected, false, true, false, false, {}, None)])
    case Register(o) =>
      var k := s.owners[o];
      var barriers := set t | t in s.tickets && s.tickets[t].present && s.tickets[t].user == k.user && Unexpired(s.tickets[t], s.now);
      s.(owners := s.owners[o := k.(stage := Registering, listed := true, barriers := barriers)],
         tickets := map t | t in s.tickets ::
           if s.tickets[t].user == k.user && !Unexpired(s.tickets[t], s.now) then s.tickets[t].(present := false)
           else s.tickets[t])
    case ApplyBarrier(o, t) =>
      var k := s.owners[o];
      s.(owners := s.owners[o :=
           if Matches(s.tickets[t], k) then k.(applying := Some(Callback(t, Snapshot(s.owners, s.tickets[t]))))
           else k.(barriers := k.barriers - {t})])
    case BarrierCloses(o, g) =>
      var owners := Closed(s.owners, g);
      s.(owners := owners[o := owners[o].(applying := Progressed(owners[o].applying, g))])
    case BarrierApplied(o) =>
      var k := s.owners[o];
      s.(owners := s.owners[o := k.(barriers := k.barriers - {k.applying.value.of}, applying := None)])
    case RegisterReturn(o) => s.(owners := s.owners[o := s.owners[o].(stage := Registered)])
    case Begin(o) => s.(owners := s.owners[o := s.owners[o].(acting := true)])
    case End(o) => s.(owners := s.owners[o := s.owners[o].(acting := false)])
    case CloseOwner(o) => s.(owners := s.owners[o := s.owners[o].(listed := false)])
    case Unregister(o) => s.(owners := s.owners[o := s.owners[o].(cached := false)])
    case Fence(t, user, scope) =>
      var pending := set o | o in s.owners && s.owners[o].listed && s.owners[o].user == user;
      s.(tickets := s.tickets[t := Ticket(user, scope, s.now + FENCE_TTL, true, pending, None, false)])
    case CallOwner(t, o) =>
      s.(tickets := s.tickets[t := s.tickets[t].(calling := Some(Callback(o, Snapshot(s.owners, s.tickets[t]))))])
    case FenceCloses(t, g) =>
      s.(owners := Closed(s.owners, g), tickets := s.tickets[t := s.tickets[t].(calling := Progressed(s.tickets[t].calling, g))])
    case OwnerCalled(t) =>
      var f := s.tickets[t];
      s.(tickets := s.tickets[t := f.(pending := f.pending - {f.calling.value.of}, calling := None)])
    case FenceReturn(t) => s.(tickets := s.tickets[t := s.tickets[t].(returned := true)])
    case Release(t) => s.(tickets := s.tickets[t := s.tickets[t].(present := false)])
    case Revoke(o) => s.(owners := Closed(s.owners, o))
    case CloseBus =>
      s.(owners := map o | o in s.owners :: s.owners[o].(listed := false),
         tickets := map t | t in s.tickets :: s.tickets[t].(present := false))
  }

  ghost predicate Run(trace: seq<State>, steps: seq<Step>) {
    && |trace| == |steps| + 1
    && trace[0].owners == map[] && trace[0].tickets == map[]
    && forall i :: 0 <= i < |steps| ==> Enabled(trace[i], steps[i]) && trace[i + 1] == Apply(trace[i], steps[i])
  }

  // ---------------------------------------------------------------- no lost fence

  /** An owner that the fence still has to close. */
  predicate Open(k: Owner, f: Ticket) {
    Matches(f, k) && k.listed && !k.revoked
  }

  /** A fence that has reached neither side's snapshot cannot coexist with an open matching owner, and a callback
      made for an owner has that owner in its snapshot. */
  ghost predicate Met(o: OwnerId, k: Owner, t: TicketId, f: Ticket, now: int) {
    && (f.present && Unexpired(f, now) && Open(k, f) ==> o in f.pending || t in k.barriers)
    && (f.calling.Some? && f.calling.value.of == o && Open(k, f) ==> o in f.calling.value.closing)
    && (k.applying.Some? && k.applying.value.of == t && Open(k, f) ==> o in k.applying.value.closing)
    && (o in f.pending ==> !k.stage.Connected?)
  }

  /** A closed guard holds no action, and the guard of an owner that is not leaving is in the cache. */
  predicate GuardOk(k: Owner) {
    (k.revoked ==> !k.acting) && (k.listed || !k.stage.Registered? ==> k.cached)
  }

  /** What each stage means for a registration's snapshot. */
  predicate StageOk(k: Owner) {
    && (k.stage.Registered? ==> k.barriers == {})
    && (k.stage.Connected? ==> !k.listed && k.barriers == {})
    && (k.applying.Some? ==> k.applying.value.of in k.barriers)
  }

  predicate TicketOk(f: Ticket) {
    (f.returned ==> f.pending == {}) && (f.calling.Some? ==> f.calling.value.of in f.pending)
  }

  /** Snapshots name what exists. */
  ghost predicate Wired(s: State) {
    && (forall t :: t in s.tickets ==> s.tickets[t].pending <= s.owners.Keys)
    && (forall o :: o in s.owners ==> s.owners[o].barriers <= s.tickets.Keys)
  }

  ghost predicate Inv(s: State) {
    && Wired(s)
    && (forall o, t :: o in s.owners && t in s.tickets ==> Met(o, s.owners[o], t, s.tickets[t], s.now))
    && (forall t :: t in s.tickets ==> TicketOk(s.tickets[t]))
    && (forall o :: o in s.owners ==> StageOk(s.owners[o]) && GuardOk(s.owners[o]))
  }

  /** What is known of an owner and a fence before a step. */
  ghost predicate Known(s: State, o: OwnerId, t: TicketId) {
    && o in s.owners && StageOk(s.owners[o]) && GuardOk(s.owners[o])
    && t in s.tickets && TicketOk(s.tickets[t]) && Met(o, s.owners[o], t, s.tickets[t], s.now)
  }

  lemma KnownMeets(s: State, step: Step, o: OwnerId, t: TicketId)
    requires Known(s, o, t) && Enabled(s, step)
    ensures Met(o, Apply(s, step).owners[o], t, Apply(s, step).tickets[t], Apply(s, step).now)
  {
  }

  lemma NewFenceMeets(s: State, step: Step, o: OwnerId)
    requires step.Fence? && Enabled(s, step) && o in s.owners && StageOk(s.owners[o]) && s.owners[o].barriers <= s.tickets.Keys
    ensures Met(o, Apply(s, step).owners[o], step.t, Apply(s, step).tickets[step.t], Apply(s, step).now)
  {
  }

  lemma NewOwnerMeets(s: State, step: Step, t: TicketId)
    requires step.Connect? && Enabled(s, step) && t in s.tickets && TicketOk(s.tickets[t]) && s.tickets[t].pending <= s.owners.Keys
    ensures Met(step.o, Apply(s, step).owners[step.o], t, Apply(s, step).tickets[t], Apply(s, step).now)
  {
  }

  lemma StepMeets(s: State, step: Step, o: OwnerId, t: TicketId)
    requires Inv(s) && Enabled(s, step) && o in Apply(s, step).owners && t in Apply(s, step).tickets
    ensures Met(o, Apply(s, step).owners[o], t, Apply(s, step).tickets[t], Apply(s, step).now)
  {
    if t !in s.tickets {
      NewFenceMeets(s, step, o);
    } else if o !in s.owners {
      NewOwnerMeets(s, step, t);
    } else {
      KnownMeets(s, step, o, t);
    }
  }

  lemma StepKeepsOwner(s: State, step: Step, o: OwnerId)
    requires Enabled(s, step) && o in Apply(s, step).owners
    requires o in s.owners ==> StageOk(s.owners[o]) && GuardOk(s.owners[o])
    ensures StageOk(Apply(s, step).owners[o]) && GuardOk(Apply(s, step).owners[o])
  {
  }

  lemma StepKeepsTicket(s: State, step: Step, t: TicketId)
    requires Enabled(s, step) && t in Apply(s, step).tickets && (t in s.tickets ==> TicketOk(s.tickets[t]))
    ensures TicketOk(Apply(s, step).tickets[t])
  {
  }

  /** No owner and no ticket ever disappears. */
  lemma NothingDisappears(s: State, step: Step)
    requires Enabled(s, step)
    ensures s.owners.Keys <= Apply(s, step).owners.Keys && s.tickets.Keys <= Apply(s, step).tickets.Keys
  {
  }

  lemma PendingWired(s: State, step: Step, t: TicketId)
    requires Enabled(s, step) && t in Apply(s, step).tickets && (t in s.tickets ==> s.tickets[t].pending <= s.owners.Keys)
    ensures Apply(s, step).tickets[t].pending <= s.owners.Keys
  {
  }

  lemma BarriersWired(s: State, step: Step, o: OwnerId)
    requires Enabled(s, step) && o in Apply(s, step).owners && (o in s.owners ==> s.owners[o].barriers <= s.tickets.Keys)
    ensures Apply(s, step).owners[o].barriers <= s.tickets.Keys
  {
  }

  lemma StepKeepsWired(s: State, step: Step)
    requires Wired(s) && Enabled(s, step)
    ensures Wired(Apply(s, step))
  {
    var s' := Apply(s, step);
    NothingDisappears(s, step);
    forall t | t in s'.tickets ensures s'.tickets[t].pending <= s'.owners.Keys {
      PendingWired(s, step, t);
    }
    forall o | o in s'.owners ensures s'.owners[o].barriers <= s'.tickets.Keys {
      BarriersWired(s, step, o);
    }
  }

  lemma StepKeepsInvariant(s: State, step: Step)
    requires Inv(s) && Enabled(s, step)
    ensures Inv(Apply(s, step))
  {
    var s' := Apply(s, step);
    StepKeepsWired(s, step);
    forall o, t | o in s'.owners && t in s'.tickets ensures Met(o, s'.owners[o], t, s'.tickets[t], s'.now) {
      StepMeets(s, step, o, t);
    }
    forall t | t in s'.tickets ensures TicketOk(s'.tickets[t]) {
      StepKeepsTicket(s, step, t);
    }
    forall o | o in s'.owners ensures StageOk(s'.owners[o]) && GuardOk(s'.owners[o]) {
      StepKeepsOwner(s, step, o);
    }
  }

  lemma {:induction false} RunKeepsInvariant(trace: seq<State>, steps: seq<Step>, i: nat)
    requires Run(trace, steps) && i < |trace|
    ensures Inv(trace[i])
  {
    if i > 0 {
      RunKeepsInvariant(trace, steps, i - 1);
      StepKeepsInvariant(trace[i - 1], steps[i - 1]);
    }
  }

  /** No lost fence: once a registration and a fence have both returned, and until the ticket is released or
      expires, a matching owner that is still on the bus is revoked and no action of it is running, and no
      matching owner at all can begin one. */
  lemma NoLostFence(trace: seq<State>, steps: seq<Step>, i: nat, o: OwnerId, t: TicketId)
    requires Run(trace, steps) && i < |trace|
    requires o in trace[i].owners && t in trace[i].tickets
    requires trace[i].owners[o].stage.Registered? && trace[i].tickets[t].returned
    requires trace[i].tickets[t].present && Unexpired(trace[i].tickets[t], trace[i].now)
    requires trace[i].tickets[t].user == trace[i].owners[o].user
    requires trace[i].tickets[t].scope.None? || trace[i].tickets[t].scope.value == trace[i].owners[o].session
    ensures trace[i].owners[o].listed ==> trace[i].owners[o].revoked && !trace[i].owners[o].acting
    ensures !CanAct(trace[i].owners[o])
  {
    RunKeepsInvariant(trace, steps, i);
    assert Met(o, trace[i].owners[o], t, trace[i].tickets[t], trace[i].now);
  }

  // ---------------------------------------------------------------- precision

  /** A callback's snapshot holds only owners that its fence matches. */
  ghost predicate Aimed(s: State, c: Option<Callback>, t: TicketId) {
    c.Some? ==> t in s.tickets && forall g :: g in c.value.closing ==> g in s.owners && Matches(s.tickets[t], s.owners[g])
  }

  ghost predicate AllAimed(s: State) {
    && (forall t :: t in s.tickets ==> Aimed(s, s.tickets[t].calling, t))
    && (forall o :: o in s.owners && s.owners[o].applying.Some? ==> Aimed(s, s.owners[o].applying, s.owners[o].applying.value.of))
  }

  /** Neither a fence's scope nor an owner's identity ever changes. */
  lemma MatchesStay(s: State, step: Step, t: TicketId, g: OwnerId)
    requires Enabled(s, step) && t in s.tickets && g in s.owners
    ensures t in Apply(s, step).tickets && g in Apply(s, step).owners
    ensures Matches(Apply(s, step).tickets[t], Apply(s, step).owners[g]) <==> Matches(s.tickets[t], s.owners[g])
  {
  }

  lemma AimStays(s: State, step: Step, c: Option<Callback>, c': Option<Callback>, t: TicketId)
    requires Enabled(s, step) && Aimed(s, c, t)
    requires c'.Some? ==> c.Some? && c'.value.closing <= c.value.closing
    ensures Aimed(Apply(s, step), c', t)
  {
    if c'.Some? {
      forall g | g in c'.value.closing
        ensures g in Apply(s, step).owners && Matches(Apply(s, step).tickets[t], Apply(s, step).owners[g])
      {
        MatchesStay(s, step, t, g);
      }
      MatchesStayTicket(s, step, t);
    }
  }

  lemma MatchesStayTicket(s: State, step: Step, t: TicketId)
    requires Enabled(s, step) && t in s.tickets
    ensures t in Apply(s, step).tickets
  {
  }

  lemma SnapshotAimed(s: State, t: TicketId, of: nat)
    requires t in s.tickets
    ensures Aimed(s, Some(Callback(of, Snapshot(s.owners, s.tickets[t]))), t)
  {
  }

  /** Where a fence's callback comes from: it was there, it is a fresh snapshot, or there is none. */
  lemma CallingOrigin(s: State, step: Step, t: TicketId)
    requires Enabled(s, step) && t in Apply(s, step).tickets && Apply(s, step).tickets[t].calling.Some?
    ensures t in s.tickets
    ensures
      || (s.tickets[t].calling.Some? && Apply(s, step).tickets[t].calling.value.closing <= s.tickets[t].calling.value.closing)
      || Apply(s, step).tickets[t].calling.value.closing == Snapshot(s.owners, s.tickets[t])
  {
  }

  lemma ApplyingOrigin(s: State, step: Step, o: OwnerId)
    requires Enabled(s, step) && o in Apply(s, step).owners && Apply(s, step).owners[o].applying.Some?
    ensures o in s.owners
    ensures
      var c := Apply(s, step).owners[o].applying.value;
      || (s.owners[o].applying.Some? && c.of == s.owners[o].applying.value.of && c.closing <= s.owners[o].applying.value.closing)
      || (c.of in s.tickets && c.closing == Snapshot(s.owners, s.tickets[c.of]))
  {
  }

  lemma StepKeepsAim(s: State, step: Step)
    requires AllAimed(s) && Enabled(s, step)
    ensures AllAimed(Apply(s, step))
  {
    var s' := Apply(s, step);
    forall t | t in s'.tickets && s'.tickets[t].calling.Some? ensures Aimed(s', s'.tickets[t].calling, t) {
      CallingOrigin(s, step, t);
      SnapshotAimed(s, t, 0);
      if s.tickets[t].calling.Some? {
        assert Aimed(s, s.tickets[t].calling, t);
      }
      AimStays(s, step, if s.tickets[t].calling.Some? && s'.tickets[t].calling.value.closing <= s.tickets[t].calling.value.closing
                        then s.tickets[t].calling else Some(Callback(0, Snapshot(s.owners, s.tickets[t]))),
               s'.tickets[t].calling, t);
    }
    forall o | o in s'.owners && s'.owners[o].applying.Some?
      ensures Aimed(s', s'.owners[o].applying, s'.owners[o].applying.value.of)
    {
      ApplyingOrigin(s, step, o);
      var c := s'.owners[o].applying;
      var t := c.value.of;
      if s.owners[o].applying.Some? && t == s.owners[o].applying.value.of && c.value.closing <= s.owners[o].applying.value.closing {
        AimStays(s, step, s.owners[o].applying, c, t);
      } else {
        SnapshotAimed(s, t, 0);
        AimStays(s, step, Some(Callback(0, Snapshot(s.owners, s.tickets[t]))), c, t);
      }
    }
  }

  lemma {:induction false} RunKeepsAim(trace: seq<State>, steps: seq<Step>, i: nat)
    requires Run(trace, steps) && i < |trace|
    ensures AllAimed(trace[i])
  {
    if i > 0 {
      RunKeepsAim(trace, steps, i - 1);
      StepKeepsAim(trace[i - 1], steps[i - 1]);
    }
  }

  predicate Names(f: Ticket, k: Owner) {
    f.user == k.user && (f.scope.None? || f.scope.value == k.session)
  }

  /** The bus revokes nobody it was not asked to: over every run a guard is closed only by its own revocation or by
      a callback of a fence of its user that names every session or its own. */
  lemma FenceIsPrecise(trace: seq<State>, steps: seq<Step>, i: nat, o: OwnerId)
    requires Run(trace, steps) && i < |steps| && o in trace[i].owners && o in trace[i + 1].owners
    requires !trace[i].owners[o].revoked && trace[i + 1].owners[o].revoked
    ensures
      var s, step := trace[i], steps[i];
      || step == Revoke(o)
      || (step.FenceCloses? && step.g == o && step.t in s.tickets && Names(s.tickets[step.t], s.owners[o]))
      || (step.BarrierCloses? && step.g == o && s.owners[step.o].applying.Some? && s.owners[step.o].applying.value.of in s.tickets
          && Names(s.tickets[s.owners[step.o].applying.value.of], s.owners[o]))
  {
    RunKeepsAim(trace, steps, i);
    var s, step := trace[i], steps[i];
    if step.BarrierCloses? {
      assert Aimed(s, s.owners[step.o].applying, s.owners[step.o].applying.value.of);
    } else if step.FenceCloses? {
      assert Aimed(s, s.tickets[step.t].calling, step.t);
    }
  }

  // ---------------------------------------------------------------- both calls can always return

  function Execute(s: State, steps: seq<Step>): Option<State>
    decreases |steps|
  {
    if steps == [] then Some(s)
    else if Enabled(s, steps[0]) then Execute(Apply(s, steps[0]), steps[1..])
    else None
  }

  lemma {:induction false} ExecuteAppend(s: State, a: seq<Step>, s': State, b: seq<Step>)
    requires Execute(s, a) == Some(s')
    ensures Execute(s, a + b) == Execute(s', b)
    decreases |a|
  {
    if a == [] {
      assert a + b == b;
    } else {
      ExecuteAppend(Apply(s, a[0]), a[1..], s', b);
      assert (a + b)[1..] == a[1..] + b;
    }
  }

  lemma Then(s: State, steps: seq<Step>, s': State, step: Step)
    requires Execute(s, steps) == Some(s') && Enabled(s', step)
    ensures Execute(s, steps + [step]) == Some(Apply(s', step))
  {
    ExecuteAppend(s, steps, s', [step]);
    assert Execute(Apply(s', step), []) == Some(Apply(s', step)) && [step][1..] == [];
  }

  /** An action ends if one holds the guard. */
  lemma FreeGuard(s: State, g: OwnerId) returns (steps: seq<Step>, s': State)
    requires g in s.owners
    ensures Execute(s, steps) == Some(s') && s' == s.(owners := s.owners[g := s.owners[g].(acting := false)])
  {
    if s.owners[g].acting {
      Then(s, [], s, End(g));
      steps, s' := [] + [End(g)], Apply(s, End(g));
    } else {
      steps, s' := [], s;
      assert s.owners[g := s.owners[g]] == s.owners;
    }
  }

  lemma FenceClosesOne(s: State, t: TicketId, g: OwnerId) returns (steps: seq<Step>, s': State)
    requires t in s.tickets && s.tickets[t].calling.Some? && g in s.tickets[t].calling.value.closing && g in s.owners
    ensures Execute(s, steps) == Some(s') && s'.owners.Keys == s.owners.Keys
    ensures s'.tickets == s.tickets[t := s.tickets[t].(calling := Progressed(s.tickets[t].calling, g))]
  {
    var s1;
    steps, s1 := FreeGuard(s, g);
    Then(s, steps, s1, FenceCloses(t, g));
    steps, s' := steps + [FenceCloses(t, g)], Apply(s1, FenceCloses(t, g));
  }

  /** A fence's callback closes its whole snapshot. */
  lemma {:induction false} CallbackCompletes(s: State, t: TicketId) returns (steps: seq<Step>, s': State)
    requires t in s.tickets && s.tickets[t].calling.Some? && s.tickets[t].calling.value.closing <= s.owners.Keys
    ensures Execute(s, steps) == Some(s') && s'.owners.Keys == s.owners.Keys && t in s'.tickets
    ensures s'.tickets[t] == s.tickets[t].(calling := Some(Callback(s.tickets[t].calling.value.of, {})))
    decreases |s.tickets[t].calling.value.closing|
  {
    if s.tickets[t].calling.value.closing == {} {
      steps, s' := [], s;
    } else {
      var g :| g in s.tickets[t].calling.value.closing;
      var s1, rest;
      steps, s1 := FenceClosesOne(s, t, g);
      rest, s' := CallbackCompletes(s1, t);
      ExecuteAppend(s, steps, s1, rest);
      steps := steps + rest;
    }
  }

  lemma CallOne(s: State, t: TicketId, o: OwnerId) returns (steps: seq<Step>, s': State)
    requires t in s.tickets && o in s.tickets[t].pending && s.tickets[t].calling.None?
    ensures Execute(s, steps) == Some(s') && s'.owners.Keys == s.owners.Keys && t in s'.tickets
    ensures s'.tickets[t] == s.tickets[t].(pending := s.tickets[t].pending - {o})
  {
    Then(s, [], s, CallOwner(t, o));
    var s1 := Apply(s, CallOwner(t, o));
    var rest, s2 := CallbackCompletes(s1, t);
    ExecuteAppend(s, [] + [CallOwner(t, o)], s1, rest);
    steps := [] + [CallOwner(t, o)] + rest;
    Then(s, steps, s2, OwnerCalled(t));
    steps, s' := steps + [OwnerCalled(t)], Apply(s2, OwnerCalled(t));
  }

  lemma {:induction false} CallAll(s: State, t: TicketId) returns (steps: seq<Step>, s': State)
    requires t in s.tickets && s.tickets[t].calling.None?
    ensures Execute(s, steps) == Some(s') && t in s'.tickets && s'.tickets[t] == s.tickets[t].(pending := {})
    decreases |s.tickets[t].pending|
  {
    if s.tickets[t].pending == {} {
      steps, s' := [], s;
    } else {
      var o :| o in s.tickets[t].pending;
      var s1, rest;
      steps, s1 := CallOne(s, t, o);
      rest, s' := CallAll(s1, t);
      ExecuteAppend(s, steps, s1, rest);
      steps := steps + rest;
    }
  }

  /** From every state a new fence can return, with its ticket in place. */
  lemma FenceCompletes(s: State, t: TicketId, user: UserId, scope: Option<SessionId>) returns (steps: seq<Step>, s': State)
    requires t !in s.tickets
    ensures Execute(s, steps) == Some(s') && t in s'.tickets && s'.tickets[t].returned && s'.tickets[t].present
    ensures s'.tickets[t].user == user && s'.tickets[t].scope == scope
  {
    Then(s, [], s, Fence(t, user, scope));
    var s1 := Apply(s, Fence(t, user, scope));
    var rest, s2 := CallAll(s1, t);
    ExecuteAppend(s, [] + [Fence(t, user, scope)], s1, rest);
    steps := [] + [Fence(t, user, scope)] + rest;
    Then(s, steps, s2, FenceReturn(t));
    steps, s' := steps + [FenceReturn(t)], Apply(s2, FenceReturn(t));
  }

  lemma BarrierClosesOne(s: State, o: OwnerId, g: OwnerId) returns (steps: seq<Step>, s': State)
    requires o in s.owners && s.owners[o].applying.Some? && g in s.owners[o].applying.value.closing && g in s.owners
    ensures Execute(s, steps) == Some(s') && s'.owners.Keys == s.owners.Keys && s'.tickets == s.tickets
    ensures s'.owners[o].barriers == s.owners[o].barriers && s'.owners[o].stage == s.owners[o].stage
    ensures s'.owners[o].applying == Progressed(s.owners[o].applying, g)
  {
    var s1;
    steps, s1 := FreeGuard(s, g);
    Then(s, steps, s1, BarrierCloses(o, g));
    steps, s' := steps + [BarrierCloses(o, g)], Apply(s1, BarrierCloses(o, g));
  }

  lemma {:induction false} BarrierCompletes(s: State, o: OwnerId) returns (steps: seq<Step>, s': State)
    requires o in s.owners && s.owners[o].applying.Some? && s.owners[o].applying.value.closing <= s.owners.Keys
    ensures Execute(s, steps) == Some(s') && s'.owners.Keys == s.owners.Keys && s'.tickets == s.tickets
    ensures s'.owners[o].barriers == s.owners[o].barriers && s'.owners[o].stage == s.owners[o].stage
    ensures s'.owners[o].applying == Some(Callback(s.owners[o].applying.value.of, {}))
    decreases |s.owners[o].applying.value.closing|
  {
    if s.owners[o].applying.value.closing == {} {
      steps, s' := [], s;
    } else {
      var g :| g in s.owners[o].applying.value.closing;
      var s1, rest;
      steps, s1 := BarrierClosesOne(s, o, g);
      rest, s' := BarrierCompletes(s1, o);
      ExecuteAppend(s, steps, s1, rest);
      steps := steps + rest;
    }
  }

  lemma ApplyOne(s: State, o: OwnerId, t: TicketId) returns (steps: seq<Step>, s': State)
    requires o in s.owners && t in s.owners[o].barriers && t in s.tickets && s.owners[o].applying.None?
    ensures Execute(s, steps) == Some(s') && o in s'.owners && s'.tickets == s.tickets
    ensures s'.owners[o].barriers == s.owners[o].barriers - {t} && s'.owners[o].applying.None? && s'.owners[o].stage == s.owners[o].stage
  {
    Then(s, [], s, ApplyBarrier(o, t));
    var s1 := Apply(s, ApplyBarrier(o, t));
    steps, s' := [] + [ApplyBarrier(o, t)], s1;
    if Matches(s.tickets[t], s.owners[o]) {
      var rest, s2 := BarrierCompletes(s1, o);
      ExecuteAppend(s, steps, s1, rest);
      steps := steps + rest;
      Then(s, steps, s2, BarrierApplied(o));
      steps, s' := steps + [BarrierApplied(o)], Apply(s2, BarrierApplied(o));
    }
  }

  lemma {:induction false} ApplyAll(s: State, o: OwnerId) returns (steps: seq<Step>, s': State)
    requires o in s.owners && s.owners[o].barriers <= s.tickets.Keys && s.owners[o].applying.None?
    ensures Execute(s, steps) == Some(s') && o in s'.owners && s'.owners[o].barriers == {} && s'.owners[o].stage == s.owners[o].stage
    decreases |s.owners[o].barriers|
  {
    if s.owners[o].barriers == {} {
      steps, s' := [], s;
    } else {
      var t :| t in s.owners[o].barriers;
      var s1, rest;
      steps, s1 := ApplyOne(s, o, t);
      rest, s' := ApplyAll(s1, o);
      ExecuteAppend(s, steps, s1, rest);
      steps := steps + rest;
    }
  }

  /** From every state a registration can return. */
  lemma RegistrationCompletes(s: State, o: OwnerId) returns (steps: seq<Step>, s': State)
    requires o in s.owners && s.owners[o].stage.Connected? && s.owners[o].applying.None?
    ensures Execute(s, steps) == Some(s') && o in s'.owners && s'.owners[o].stage.Registered?
  {
    Then(s, [], s, Register(o));
    var s1 := Apply(s, Register(o));
    var rest, s2 := ApplyAll(s1, o);
    ExecuteAppend(s, [] + [Register(o)], s1, rest);
    steps := [] + [Register(o)] + rest;
    Then(s, steps, s2, RegisterReturn(o));
    steps, s' := steps + [RegisterReturn(o)], Apply(s2, RegisterReturn(o));
  }
}
