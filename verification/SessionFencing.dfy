/**
 Cross-replica session fencing: `internal/events/nats.go` together with the guard of
 `internal/httpapi/session_events.go` and the handler of `internal/httpapi/realtime.go`.

 The protocol is a transition system.  Every critical section, every key-value operation and every
 guard acquisition is one step; all of them interleave freely.  A replica identity stands for one
 (replicaID, generation) pair, and one clock is shared by all parties.
 */
module SessionFencing {
  import opened Common

  type UserId = nat
  type SessionId = nat
  type ReplicaId = nat
  type SocketId = nat
  type TicketId = nat

  const SECOND := 1_000_000_000
  const OWNER_TTL := 15 * SECOND
  const OWNER_ADMISSION := 3 * SECOND
  const FENCE_TTL := 120 * SECOND
  // Every guarded action carries a deadline of at most ten seconds.
  const ACTION_LIMIT := 10 * SECOND

  // ---------------------------------------------------------------- state

  /** How far one socket has come through `RegisterSessionOwner` and the handler around it. */
  datatype Stage =
    | Connected               // guard in the revocation cache, owner not yet in the bus
    | Inserted                // owner is in the local map
    | Verified(created: int)  // lease read, admission deadline not stored yet
    | Stored                  // admission deadline stored, markers not scanned yet
    | MustFence               // the scan met a matching marker that is not applied yet
    | Active                  // registration returned, actions may run under the guard
    | Closing                 // the handler returns: `Close` has cleared the deadline
    | Unlisted                // `Close` has removed the owner from the bus, the guard is still cached
    | Detached                // the guard is unregistered too
    | Failed                  // registration failed

  /** `listed` is membership in the bus's owner map; `action` is the start of the action that holds
      the guard's mutex. */
  datatype Socket = Socket(
    replica: ReplicaId, user: UserId, session: SessionId, stage: Stage,
    listed: bool, validUntil: int, revoked: bool, action: Option<int>)

  /** The owner-bucket entry of a replica.  `present` turns false when the entry expires or is deleted. */
  datatype Lease = NoLease | Lease(created: int, present: bool)

  datatype RefreshStage = Waiting | Written | Marking(created: int) | Draining(pending: set<SocketId>)

  datatype Replica = Replica(lease: Lease, closed: bool, refresh: RefreshStage)

  datatype TicketStage = Marked | Commanding | Returned | Errored

  /** One `FenceSessions` call.  `present` says that its marker is in the fence bucket; `handlers`
      maps a commanded replica to the owners its handler has snapshotted and not fenced yet. */
  datatype Ticket = Ticket(
    user: UserId, scope: Option<SessionId>, created: int, present: bool, stage: TicketStage,
    targets: set<ReplicaId>, acked: set<ReplicaId>, handlers: map<ReplicaId, set<SocketId>>)

  datatype State = State(
    now: int,
    replicas: map<ReplicaId, Replica>,
    sockets: map<SocketId, Socket>,
    tickets: map<TicketId, Ticket>)

  predicate Matches(t: Ticket, k: Socket) {
    t.user == k.user && (t.scope == None || t.scope == Some(k.session))
  }

  /** `parseOwnerLease` accepts the entry at this time. */
  predicate LeaseLive(l: Lease, now: int) {
    l.Lease? && l.present && now < l.created + OWNER_TTL
  }

  /** The checks shared by registration and refresh: a current lease whose admission window is open. */
  predicate Admissible(l: Lease, now: int) {
    LeaseLive(l, now) && now < l.created + OWNER_ADMISSION
  }

  /** The handler has begun to return. */
  predicate Leaving(k: Socket) {
    k.stage.Closing? || k.stage.Unlisted? || k.stage.Detached?
  }

  /** `WhileActive` would run an action of this socket now; a reader goroutine may still call it while
      the handler is leaving. */
  predicate CanBegin(k: Socket, now: int) {
    && (k.stage.Active? || Leaving(k))
    && !k.revoked && k.action == None && now < k.validUntil
  }

  function ListedOn(s: State, r: ReplicaId): (xs: set<SocketId>) {
    set x | x in s.sockets && s.sockets[x].replica == r && s.sockets[x].listed
  }

  // ---------------------------------------------------------------- one socket

  datatype SocketAct =
    | Insert | Verify | Store | Scan | ApplyMarker | RegisterFail   // RegisterSessionOwner
    | Begin | End | Revoke                                          // the guard
    | CloseStore | CloseDelete | Unregister                         // the handler returns

  predicate SocketEnabled(k: Socket, p: Replica, now: int, act: SocketAct) {
    match act
    case Insert => k.stage.Connected?
    case Verify => k.stage.Inserted? && Admissible(p.lease, now)
    case Store => k.stage.Verified?
    case Scan => k.stage.Stored?
    case ApplyMarker => k.stage.MustFence?
    case RegisterFail => k.stage.Inserted? || k.stage.Stored?
    case Begin => CanBegin(k, now)
    case End => k.action.Some?
    // Any of the many causes of a revocation; it waits for the guard's mutex.
    case Revoke => k.action.None?
    // The handler can return while its reader goroutine is still inside a guarded action.  `Close` clears
    // the deadline before it takes the bus mutex to remove the owner.
    case CloseStore => k.stage.Active?
    case CloseDelete => k.stage.Closing?
    case Unregister => k.stage.Unlisted?
  }

  /** `marker` says whether the fence bucket holds a marker matching this socket. */
  function SocketAfter(k: Socket, p: Replica, now: int, marker: bool, act: SocketAct): Socket
    requires SocketEnabled(k, p, now, act)
  {
    match act
    case Insert => k.(stage := Inserted, listed := true)
    case Verify => k.(stage := Verified(p.lease.created))
    case Store => k.(stage := Stored, validUntil := k.stage.created + OWNER_ADMISSION)
    case Scan => k.(stage := if marker then MustFence else Active)
    case ApplyMarker => k.(stage := Active, revoked := true)
    case RegisterFail => k.(stage := Failed, revoked := true, listed := false, validUntil := 0)
    case Begin => k.(action := Some(now))
    case End => k.(action := None)
    case Revoke => k.(revoked := true)
    case CloseStore => k.(stage := Closing, validUntil := 0)
    case CloseDelete => k.(stage := Unlisted, listed := false)
    case Unregister => k.(stage := Detached)
  }

  /** `owner.fence` returns only once the guard's mutex was free, unless the guard has left the cache. */
  predicate Fenceable(k: Socket) {
    k.action.None? || k.stage.Detached?
  }

  function Fenced(k: Socket): Socket
    requires Fenceable(k)
  {
    if k.stage.Detached? then k else k.(revoked := true)
  }

  // ---------------------------------------------------------------- one replica

  datatype ReplicaAct =
    | RefreshPut | RefreshVerify | RefreshMark | RefreshFail | DrainOne(x: SocketId) | DrainDone
    | LeaseExpire | CloseBus | DeleteLease

  predicate ReplicaEnabled(p: Replica, now: int, act: ReplicaAct) {
    match act
    case RefreshPut => p.refresh.Waiting?
    case RefreshVerify => p.refresh.Written? && Admissible(p.lease, now)
    case RefreshMark => p.refresh.Marking?
    case RefreshFail => p.refresh.Waiting? || p.refresh.Written?
    case DrainOne(x) => p.refresh.Draining? && x in p.refresh.pending
    case DrainDone => p.refresh.Draining? && p.refresh.pending == {}
    case LeaseExpire => p.lease.Lease? && p.lease.created + OWNER_TTL <= now
    case CloseBus => !p.closed
    case DeleteLease => p.closed && p.lease.Lease?
  }

  function ReplicaAfter(p: Replica, now: int, listed: set<SocketId>, act: ReplicaAct): Replica
    requires ReplicaEnabled(p, now, act)
  {
    match act
    case RefreshPut => p.(lease := Lease(now, true), refresh := Written)
    case RefreshVerify => p.(refresh := Marking(p.lease.created))
    case RefreshMark => p.(refresh := Waiting)
    case RefreshFail => p.(refresh := Draining(listed))
    case DrainOne(x) => p.(refresh := Draining(p.refresh.pending - {x}))
    case DrainDone => p.(refresh := Waiting)
    case LeaseExpire => p.(lease := p.lease.(present := false))
    case CloseBus => p.(closed := true)
    case DeleteLease => p.(lease := p.lease.(present := false))
  }

  /** A replica's step waits for the guards of the owners it fences. */
  predicate OwnerReady(x: SocketId, k: Socket, act: ReplicaAct) {
    match act
    case DrainOne(y) => x == y ==> Fenceable(k)
    case CloseBus => k.listed ==> k.action.None?
    case _ => true
  }

  /** The effect of a replica's step on one of its sockets. */
  function OwnerAfter(x: SocketId, k: Socket, p: Replica, now: int, act: ReplicaAct): Socket
    requires ReplicaEnabled(p, now, act) && OwnerReady(x, k, act)
  {
    match act
    case RefreshMark => if k.listed then k.(validUntil := p.refresh.created + OWNER_ADMISSION) else k
    case DrainOne(y) => if x == y then Fenced(k.(validUntil := 0)) else k
    case CloseBus => if k.listed then k.(validUntil := 0, revoked := true, listed := false) else k
    case _ => k
  }

  // ---------------------------------------------------------------- one fencing request

  datatype TicketAct =
    | List | Receive(r: ReplicaId) | FenceOwner(r: ReplicaId, x: SocketId) | Ack(r: ReplicaId)
    | Return | Abort | Release | MarkerExpire

  predicate TicketEnabled(t: Ticket, now: int, act: TicketAct) {
    match act
    case List => t.stage.Marked?
    case Receive(r) => t.stage.Commanding? && r in t.targets && r !in t.acked && r !in t.handlers
    case FenceOwner(r, x) => r in t.handlers && x in t.handlers[r]
    case Ack(r) => t.stage.Commanding? && r in t.handlers && t.handlers[r] == {}
    case Return => t.stage.Commanding? && t.targets <= t.acked
    case Abort => t.stage.Marked? || t.stage.Commanding?
    case Release => t.stage.Returned? || t.stage.Errored?
    case MarkerExpire => t.created + FENCE_TTL <= now
  }

  /** `leased` are the replicas with an entry in the owner bucket, `owners` the matching owners of the
      commanded replica. */
  function TicketAfter(t: Ticket, now: int, leased: set<ReplicaId>, owners: set<SocketId>, act: TicketAct): Ticket
    requires TicketEnabled(t, now, act)
  {
    match act
    case List => t.(stage := Commanding, targets := leased)
    case Receive(r) => t.(handlers := t.handlers[r := owners])
    case FenceOwner(r, x) => t.(handlers := t.handlers[r := t.handlers[r] - {x}])
    case Ack(r) => t.(acked := t.acked + {r})
    case Return => t.(stage := Returned)
    case Abort => t.(stage := Errored)
    case Release => t.(present := false)
    case MarkerExpire => t.(present := false)
  }

  // ---------------------------------------------------------------- the whole system

  datatype Step =
    | Tick(d: nat)
    | Boot(r: ReplicaId)
    | Connect(x: SocketId, r: ReplicaId, user: UserId, session: SessionId)
    | Mark(t: TicketId, user: UserId, scope: Option<SessionId>)
    | AtSocket(x: SocketId, socketAct: SocketAct)
    | AtReplica(r: ReplicaId, replicaAct: ReplicaAct)
    | AtTicket(t: TicketId, ticketAct: TicketAct)

  predicate MarkerFor(s: State, k: Socket) {
    exists t :: t in s.tickets && s.tickets[t].present && Matches(s.tickets[t], k)
  }

  function Leased(s: State): set<ReplicaId> {
    set r | r in s.replicas && s.replicas[r].lease.Lease? && s.replicas[r].lease.present
  }

  function MatchingOwners(s: State, t: Ticket, r: ReplicaId): set<SocketId> {
    set x | x in ListedOn(s, r) && Matches(t, s.sockets[x])
  }

  predicate Enabled(s: State, step: Step) {
    match step
    case Tick(d) =>
      // no action outlives its deadline
      forall x :: x in s.sockets && s.sockets[x].action.Some? ==>
        s.now + d <= s.sockets[x].action.value + ACTION_LIMIT
    case Boot(r) => r !in s.replicas
    case Connect(x, r, _, _) => x !in s.sockets && r in s.replicas
    case Mark(t, _, _) => t !in s.tickets
    case AtSocket(x, act) =>
      && x in s.sockets && s.sockets[x].replica in s.replicas
      && SocketEnabled(s.sockets[x], s.replicas[s.sockets[x].replica], s.now, act)
    case AtReplica(r, act) =>
      && r in s.replicas && ReplicaEnabled(s.replicas[r], s.now, act)
      && forall x :: x in s.sockets && s.sockets[x].replica == r ==> OwnerReady(x, s.sockets[x], act)
    case AtTicket(t, act) =>
      && t in s.tickets && TicketEnabled(s.tickets[t], s.now, act)
      // listing an entry that has outlived its lease is an error, so it aborts the call
      && (act.List? ==> forall r :: r in Leased(s) ==> LeaseLive(s.replicas[r].lease, s.now))
      && (act.FenceOwner? ==> act.x in s.sockets && Fenceable(s.sockets[act.x]))
  }

  function Apply(s: State, step: Step): State
    requires Enabled(s, step)
  {
    match step
    case Tick(d) => s.(now := s.now + d)
    case Boot(r) => s.(replicas := s.replicas[r := Replica(Lease(s.now, true), false, Waiting)])
    case Connect(x, r, user, session) =>
      s.(sockets := s.sockets[x := Socket(r, user, session, Connected, false, 0, false, None)])
    case Mark(t, user, scope) =>
      s.(tickets := s.tickets[t := Ticket(user, scope, s.now, true, Marked, {}, {}, map[])])
    case AtSocket(x, act) =>
      var k := s.sockets[x];
      s.(sockets := s.sockets[x := SocketAfter(k, s.replicas[k.replica], s.now, MarkerFor(s, k), act)])
    case AtReplica(r, act) =>
      var p := s.replicas[r];
      s.(replicas := s.replicas[r := ReplicaAfter(p, s.now, ListedOn(s, r), act)],
         sockets := map x | x in s.sockets ::
           if s.sockets[x].replica == r then OwnerAfter(x, s.sockets[x], p, s.now, act) else s.sockets[x])
    case AtTicket(t, act) =>
      var owners := if act.Receive? then MatchingOwners(s, s.tickets[t], act.r) else {};
      s.(tickets := s.tickets[t := TicketAfter(s.tickets[t], s.now, Leased(s), owners, act)],
         sockets := if act.FenceOwner? then s.sockets[act.x := Fenced(s.sockets[act.x])] else s.sockets)
  }

  // ---------------------------------------------------------------- environment

  predicate LeaseExpired(l: Lease, now: int) {
    l.NoLease? || !l.present || l.created + OWNER_TTL <= now
  }

  /** A request whose marker is in place and which has listed the leases. */
  predicate Fencing(t: Ticket) {
    t.present && (t.stage.Commanding? || t.stage.Returned?)
  }

  predicate OpenUnder(k: Socket, t: Ticket) {
    k.stage.Active? && !k.revoked && Fencing(t) && Matches(t, k)
  }

  /** A replica does not renew a lease that has run out over an open socket, if a request that matches the socket
      has already listed the leases without this one.  `refreshOwners` fences the sockets first whenever a
      refresh fails visibly; a silent pause of the whole process would not. */
  predicate RenewalSafe(s: State, r: ReplicaId)
    requires r in s.replicas
  {
    LeaseExpired(s.replicas[r].lease, s.now) ==>
      forall x, t :: x in s.sockets && t in s.tickets && s.sockets[x].replica == r && OpenUnder(s.sockets[x], s.tickets[t]) ==>
        r in s.tickets[t].targets
  }

  /** What the protocol needs from its surroundings: safe renewals, and no open registration that verifies the
      lease of a bus which `Close` has already fenced. */
  predicate Cooperative(s: State, step: Step)
    requires Enabled(s, step)
  {
    match step
    case AtReplica(r, RefreshPut) => RenewalSafe(s, r)
    case AtSocket(x, Verify) => s.replicas[s.sockets[x].replica].closed ==> s.sockets[x].revoked
    case _ => true
  }

  /** A refresh does not admit an owner again whose `Close` has cleared its deadline and not yet removed it. */
  predicate Settled(s: State, step: Step)
    requires Enabled(s, step)
  {
    match step
    case AtReplica(r, RefreshMark) =>
      forall x :: x in s.sockets && s.sockets[x].replica == r && s.sockets[x].stage.Closing? && s.sockets[x].listed ==>
        s.sockets[x].revoked || s.replicas[r].refresh.created + OWNER_ADMISSION <= s.now
    case _ => true
  }

  /** No action begins on a socket whose handler has begun to return. */
  predicate Timely(s: State, step: Step)
    requires Enabled(s, step)
  {
    match step
    case AtSocket(x, Begin) => !Leaving(s.sockets[x])
    case _ => true
  }

  predicate Init(s: State) {
    0 <= s.now && s.replicas == map[] && s.sockets == map[] && s.tickets == map[]
  }

  /** A run: the states passed through and the steps between them. */
  ghost predicate Run(trace: seq<State>, steps: seq<Step>) {
    && |trace| == |steps| + 1
    && Init(trace[0])
    && forall i :: 0 <= i < |steps| ==> Enabled(trace[i], steps[i]) && trace[i + 1] == Apply(trace[i], steps[i])
  }

  ghost predicate CooperativeRun(trace: seq<State>, steps: seq<Step>) {
    && Run(trace, steps)
    && forall i :: 0 <= i < |steps| ==> Cooperative(trace[i], steps[i])
  }

  // ---------------------------------------------------------------- invariant

  predicate Registering(k: Socket) {
    k.stage.Inserted? || k.stage.Verified? || k.stage.Stored? || k.stage.MustFence?
  }

  /** Registering, and past the verification of the lease. */
  predicate Admitted(k: Socket) {
    k.stage.Verified? || k.stage.Stored? || k.stage.MustFence?
  }

  ghost predicate SocketOk(k: Socket, p: Replica, now: int) {
    && (k.action.Some? ==>
          && (k.stage.Active? || Leaving(k)) && !k.revoked
          && k.action.value <= now <= k.action.value + ACTION_LIMIT
          && p.lease.Lease? && k.action.value < p.lease.created + OWNER_ADMISSION)
    && (k.validUntil != 0 ==> p.lease.Lease? && k.validUntil <= p.lease.created + OWNER_ADMISSION)
    && (k.stage.Verified? ==> p.lease.Lease? && k.stage.created <= p.lease.created)
    && ((k.stage.Stored? || k.stage.MustFence? || k.stage.Active? || k.stage.Closing?) ==> p.lease.Lease?)
    && ((Registering(k) || k.stage.Active? || k.stage.Closing?) && !k.revoked ==> k.listed)
    && ((Admitted(k) || k.stage.Active? || k.stage.Closing?) && !k.revoked ==> !p.closed)
    && (k.stage.Unlisted? || k.stage.Detached? || k.stage.Connected? ==> !k.listed)
    && (k.stage.Failed? ==> k.revoked)
  }

  ghost predicate ReplicaOk(p: Replica, now: int) {
    && (p.lease.Lease? ==> p.lease.created <= now)
    && (p.lease.Lease? && !p.lease.present ==> p.closed || p.lease.created + OWNER_TTL <= now)
    && (p.refresh.Marking? ==> p.lease.Lease? && p.refresh.created <= p.lease.created)
  }

  /** A listed socket that may act, or still acts although its handler is leaving. */
  predicate Exposed(k: Socket) {
    !k.revoked && (k.stage.Active? || (k.stage.Closing? && k.action.Some?))
  }

  /** What a request that has listed the leases has secured about one matching socket. */
  ghost predicate Covered(t: Ticket, x: SocketId, k: Socket, p: Replica, now: int) {
    Exposed(k) ==>
      if k.replica in t.targets then
        k.replica !in t.acked && (k.replica in t.handlers ==> x in t.handlers[k.replica])
      else
        p.lease.Lease? && p.lease.created + OWNER_TTL <= now
  }

  ghost predicate TicketOk(t: Ticket) {
    && (t.stage.Returned? ==> t.targets <= t.acked)
    && (t.stage.Marked? ==> t.acked == {} && t.handlers == map[])
  }

  ghost predicate Placed(s: State) {
    forall x :: x in s.sockets ==> s.sockets[x].replica in s.replicas
  }

  /** One socket and its replica. */
  ghost predicate Standing(s: State, x: SocketId) {
    && 0 <= s.now && x in s.sockets && s.sockets[x].replica in s.replicas
    && SocketOk(s.sockets[x], s.replicas[s.sockets[x].replica], s.now)
  }

  /** One request and one socket. */
  ghost predicate Cover(s: State, t: TicketId, x: SocketId)
    requires t in s.tickets && x in s.sockets && s.sockets[x].replica in s.replicas
  {
    Fencing(s.tickets[t]) && Matches(s.tickets[t], s.sockets[x]) ==>
      Covered(s.tickets[t], x, s.sockets[x], s.replicas[s.sockets[x].replica], s.now)
  }

  /** The snapshots of a request's handlers hold owners of the commanded replicas. */
  ghost predicate SnapshotsOk(s: State, t: Ticket) {
    && t.handlers.Keys <= t.targets
    && forall r, y :: r in t.handlers && y in t.handlers[r] ==> y in s.sockets && s.sockets[y].replica == r
  }

  ghost predicate Inv(s: State) {
    && 0 <= s.now
    && (forall x :: x in s.sockets ==> Standing(s, x))
    && (forall r :: r in s.replicas ==> ReplicaOk(s.replicas[r], s.now))
    && (forall t :: t in s.tickets ==> TicketOk(s.tickets[t]) && SnapshotsOk(s, s.tickets[t]))
    && (forall t, x :: t in s.tickets && x in s.sockets ==> Cover(s, t, x))
  }

  // The local effect of each kind of step on one socket and one replica.

  lemma SocketActKeepsSocket(k: Socket, p: Replica, now: int, marker: bool, act: SocketAct)
    requires 0 <= now && SocketOk(k, p, now) && ReplicaOk(p, now)
    requires SocketEnabled(k, p, now, act) && (act.Verify? && p.closed ==> k.revoked)
    ensures SocketOk(SocketAfter(k, p, now, marker, act), p, now)
  {
  }

  lemma ReplicaActKeepsReplica(p: Replica, now: int, listed: set<SocketId>, act: ReplicaAct)
    requires ReplicaOk(p, now) && ReplicaEnabled(p, now, act)
    ensures ReplicaOk(ReplicaAfter(p, now, listed, act), now)
  {
  }

  lemma ReplicaActKeepsSocket(x: SocketId, k: Socket, p: Replica, now: int, listed: set<SocketId>, act: ReplicaAct)
    requires 0 <= now && SocketOk(k, p, now) && ReplicaOk(p, now)
    requires ReplicaEnabled(p, now, act) && OwnerReady(x, k, act)
    ensures SocketOk(OwnerAfter(x, k, p, now, act), ReplicaAfter(p, now, listed, act), now)
  {
  }

  lemma SocketActKeepsCover(t: Ticket, x: SocketId, k: Socket, p: Replica, now: int, marker: bool, act: SocketAct)
    requires SocketEnabled(k, p, now, act) && Covered(t, x, k, p, now)
    requires marker && (act.Begin? ==> !Leaving(k))
    ensures Covered(t, x, SocketAfter(k, p, now, marker, act), p, now)
  {
  }

  lemma ReplicaActKeepsCover(
      t: Ticket, x: SocketId, k: Socket, p: Replica, now: int, listed: set<SocketId>, act: ReplicaAct)
    requires ReplicaEnabled(p, now, act) && OwnerReady(x, k, act) && Covered(t, x, k, p, now) && SocketOk(k, p, now)
    requires act.RefreshPut? && LeaseExpired(p.lease, now) && k.stage.Active? && !k.revoked ==> k.replica in t.targets
    ensures Covered(t, x, OwnerAfter(x, k, p, now, act), ReplicaAfter(p, now, listed, act), now)
  {
  }

  /** Time only strengthens a cover, and so does fencing. */
  lemma LaterCover(t: Ticket, x: SocketId, k: Socket, k': Socket, p: Replica, now: int, d: nat)
    requires Covered(t, x, k, p, now)
    requires k' == k || k' == k.(revoked := true)
    ensures Covered(t, x, k', p, now + d)
  {
  }

  // The same of a whole state, one kind of step at a time.

  /** What is known of a request and a socket before a step. */
  ghost predicate Known(s: State, t: TicketId, x: SocketId) {
    && t in s.tickets && Standing(s, x) && ReplicaOk(s.replicas[s.sockets[x].replica], s.now)
    && TicketOk(s.tickets[t]) && Cover(s, t, x)
  }

  lemma ListKeepsCover(s: State, t: TicketId, x: SocketId)
    requires Known(s, t, x) && Enabled(s, AtTicket(t, List))
    ensures Cover(Apply(s, AtTicket(t, List)), t, x)
  {
    var k, p := s.sockets[x], s.replicas[s.sockets[x].replica];
    assert k.replica in Leased(s) <==> p.lease.Lease? && p.lease.present;
  }

  lemma ReceiveKeepsCover(s: State, t: TicketId, r: ReplicaId, x: SocketId)
    requires Known(s, t, x) && Enabled(s, AtTicket(t, Receive(r)))
    ensures Cover(Apply(s, AtTicket(t, Receive(r))), t, x)
  {
    var k := s.sockets[x];
    assert k.replica == r && k.listed && Matches(s.tickets[t], k) ==> x in MatchingOwners(s, s.tickets[t], r);
  }

  /** Listing leases, receiving a command, fencing owners and acknowledging keep every exposed matching
      socket covered: its replica is commanded and not yet acknowledged, or its lease has run out. */
  lemma TicketActKeepsCover(s: State, t: TicketId, act: TicketAct, x: SocketId)
    requires Known(s, t, x) && Enabled(s, AtTicket(t, act))
    ensures Cover(Apply(s, AtTicket(t, act)), t, x)
  {
    if act.List? {
      ListKeepsCover(s, t, x);
    } else if act.Receive? {
      ReceiveKeepsCover(s, t, act.r, x);
    }
  }

  lemma OtherTicketKeepsCover(s: State, u: TicketId, act: TicketAct, t: TicketId, x: SocketId)
    requires Known(s, t, x) && u != t && Enabled(s, AtTicket(u, act))
    ensures Cover(Apply(s, AtTicket(u, act)), t, x)
  {
    var s' := Apply(s, AtTicket(u, act));
    if Fencing(s.tickets[t]) && Matches(s.tickets[t], s.sockets[x]) {
      LaterCover(s.tickets[t], x, s.sockets[x], s'.sockets[x], s.replicas[s.sockets[x].replica], s.now, 0);
    }
  }

  lemma SocketStepKeepsCover(s: State, y: SocketId, act: SocketAct, t: TicketId, x: SocketId)
    requires Known(s, t, x) && Enabled(s, AtSocket(y, act)) && Timely(s, AtSocket(y, act))
    ensures Cover(Apply(s, AtSocket(y, act)), t, x)
  {
    var k := s.sockets[x];
    if x == y && Fencing(s.tickets[t]) && Matches(s.tickets[t], k) {
      assert MarkerFor(s, k);
      SocketActKeepsCover(s.tickets[t], x, k, s.replicas[k.replica], s.now, true, act);
    }
  }

  lemma ReplicaStepKeepsCover(s: State, r: ReplicaId, act: ReplicaAct, t: TicketId, x: SocketId)
    requires Known(s, t, x) && Enabled(s, AtReplica(r, act)) && Cooperative(s, AtReplica(r, act))
    ensures Cover(Apply(s, AtReplica(r, act)), t, x)
  {
    var k := s.sockets[x];
    if k.replica == r && Fencing(s.tickets[t]) && Matches(s.tickets[t], k) {
      ReplicaActKeepsCover(s.tickets[t], x, k, s.replicas[r], s.now, ListedOn(s, r), act);
    }
  }

  lemma QuietStepKeepsCover(s: State, step: Step, t: TicketId, x: SocketId)
    requires (step.Tick? || step.Boot? || step.Connect? || step.Mark?) && Enabled(s, step)
    requires t in Apply(s, step).tickets && Standing(Apply(s, step), x)
    requires t in s.tickets && x in s.sockets ==> Known(s, t, x)
    ensures Cover(Apply(s, step), t, x)
  {
  }

  lemma StepKeepsCover(s: State, step: Step, t: TicketId, x: SocketId)
    requires t in s.tickets && x in s.sockets ==> Known(s, t, x)
    requires Enabled(s, step) && Cooperative(s, step) && Timely(s, step)
    requires t in Apply(s, step).tickets && Standing(Apply(s, step), x)
    ensures Cover(Apply(s, step), t, x)
  {
    if step.AtTicket? {
      if step.t == t {
        TicketActKeepsCover(s, t, step.ticketAct, x);
      } else {
        OtherTicketKeepsCover(s, step.t, step.ticketAct, t, x);
      }
    } else if step.AtSocket? {
      SocketStepKeepsCover(s, step.x, step.socketAct, t, x);
    } else if step.AtReplica? {
      ReplicaStepKeepsCover(s, step.r, step.replicaAct, t, x);
    } else {
      QuietStepKeepsCover(s, step, t, x);
    }
  }

  lemma StepKeepsReplica(s: State, step: Step, r: ReplicaId)
    requires Inv(s) && Enabled(s, step) && Cooperative(s, step) && r in Apply(s, step).replicas
    ensures ReplicaOk(Apply(s, step).replicas[r], Apply(s, step).now)
  {
    if step.AtReplica? && step.r == r {
      ReplicaActKeepsReplica(s.replicas[r], s.now, ListedOn(s, r), step.replicaAct);
    } else if r in s.replicas {
      assert ReplicaOk(s.replicas[r], s.now);
    }
  }

  lemma SocketStepKeepsStanding(s: State, y: SocketId, act: SocketAct, x: SocketId)
    requires Standing(s, x) && ReplicaOk(s.replicas[s.sockets[x].replica], s.now)
    requires Enabled(s, AtSocket(y, act)) && Cooperative(s, AtSocket(y, act))
    ensures Standing(Apply(s, AtSocket(y, act)), x)
  {
    if x == y {
      var k, p := s.sockets[x], s.replicas[s.sockets[x].replica];
      SocketActKeepsSocket(k, p, s.now, MarkerFor(s, k), act);
    }
  }

  lemma ReplicaStepKeepsStanding(s: State, r: ReplicaId, act: ReplicaAct, x: SocketId)
    requires Standing(s, x) && ReplicaOk(s.replicas[s.sockets[x].replica], s.now) && Enabled(s, AtReplica(r, act))
    ensures Standing(Apply(s, AtReplica(r, act)), x)
  {
    if s.sockets[x].replica == r {
      ReplicaActKeepsSocket(x, s.sockets[x], s.replicas[r], s.now, ListedOn(s, r), act);
    }
  }

  lemma OtherStepKeepsStanding(s: State, step: Step, x: SocketId)
    requires !step.AtSocket? && !step.AtReplica? && Enabled(s, step) && 0 <= s.now
    requires if x in s.sockets then Standing(s, x) else x in Apply(s, step).sockets
    ensures Standing(Apply(s, step), x)
  {
  }

  lemma StepKeepsSocket(s: State, step: Step, x: SocketId)
    requires Inv(s) && Enabled(s, step) && Cooperative(s, step) && x in Apply(s, step).sockets
    ensures Standing(Apply(s, step), x)
  {
    if x in s.sockets {
      assert ReplicaOk(s.replicas[s.sockets[x].replica], s.now);
    }
    if step.AtSocket? {
      SocketStepKeepsStanding(s, step.x, step.socketAct, x);
    } else if step.AtReplica? {
      ReplicaStepKeepsStanding(s, step.r, step.replicaAct, x);
    } else {
      OtherStepKeepsStanding(s, step, x);
    }
  }

  /** No step removes a socket or moves it to another replica. */
  lemma SocketsStay(s: State, step: Step, y: SocketId)
    requires Enabled(s, step) && y in s.sockets
    ensures y in Apply(s, step).sockets && Apply(s, step).sockets[y].replica == s.sockets[y].replica
  {
  }

  lemma StepKeepsTicket(s: State, step: Step, t: TicketId)
    requires Enabled(s, step) && t in Apply(s, step).tickets && (t in s.tickets ==> TicketOk(s.tickets[t]))
    ensures TicketOk(Apply(s, step).tickets[t])
  {
  }

  /** A step gives a handler no owner but those of its own replica. */
  lemma SnapshotOrigin(s: State, step: Step, t: TicketId, r: ReplicaId, y: SocketId)
    requires Enabled(s, step) && t in Apply(s, step).tickets
    requires r in Apply(s, step).tickets[t].handlers && y in Apply(s, step).tickets[t].handlers[r]
    ensures
      || (t in s.tickets && r in s.tickets[t].handlers && y in s.tickets[t].handlers[r])
      || (y in s.sockets && s.sockets[y].replica == r)
  {
  }

  lemma StepKeepsHandlers(s: State, step: Step, t: TicketId)
    requires Enabled(s, step) && t in Apply(s, step).tickets
    requires t in s.tickets ==> TicketOk(s.tickets[t]) && s.tickets[t].handlers.Keys <= s.tickets[t].targets
    ensures Apply(s, step).tickets[t].handlers.Keys <= Apply(s, step).tickets[t].targets
  {
  }

  lemma StepKeepsSnapshots(s: State, step: Step, t: TicketId)
    requires Enabled(s, step) && t in Apply(s, step).tickets
    requires t in s.tickets ==> TicketOk(s.tickets[t]) && SnapshotsOk(s, s.tickets[t])
    ensures SnapshotsOk(Apply(s, step), Apply(s, step).tickets[t])
  {
    var s' := Apply(s, step);
    StepKeepsHandlers(s, step, t);
    forall r, y | r in s'.tickets[t].handlers && y in s'.tickets[t].handlers[r]
      ensures y in s'.sockets && s'.sockets[y].replica == r
    {
      SnapshotOrigin(s, step, t, r, y);
      SocketsStay(s, step, y);
    }
  }

  lemma StepKeepsInvariant(s: State, step: Step)
    requires Inv(s) && Enabled(s, step) && Cooperative(s, step) && Timely(s, step)
    ensures Inv(Apply(s, step))
  {
    var s' := Apply(s, step);
    forall r | r in s'.replicas ensures ReplicaOk(s'.replicas[r], s'.now) {
      StepKeepsReplica(s, step, r);
    }
    forall x | x in s'.sockets ensures Standing(s', x) {
      StepKeepsSocket(s, step, x);
    }
    forall t | t in s'.tickets ensures TicketOk(s'.tickets[t]) && SnapshotsOk(s', s'.tickets[t]) {
      StepKeepsTicket(s, step, t);
      StepKeepsSnapshots(s, step, t);
    }
    forall t, x | t in s'.tickets && x in s'.sockets ensures Cover(s', t, x) {
      StepKeepsCover(s, step, t, x);
    }
  }

  /** A cooperative run on which no action begins on a socket whose handler is leaving. */
  ghost predicate TimelyRun(trace: seq<State>, steps: seq<Step>) {
    CooperativeRun(trace, steps) && forall i :: 0 <= i < |steps| ==> Timely(trace[i], steps[i])
  }

  lemma {:induction false} RunKeepsInvariant(trace: seq<State>, steps: seq<Step>, i: nat)
    requires TimelyRun(trace, steps) && i < |trace|
    ensures Inv(trace[i])
  {
    if i > 0 {
      RunKeepsInvariant(trace, steps, i - 1);
      StepKeepsInvariant(trace[i - 1], steps[i - 1]);
    }
  }

  // ---------------------------------------------------------------- fence safety

  /** A fence is in force from the successful return of `FenceSessions` until its marker is gone. */
  predicate InForce(t: Ticket) {
    t.stage.Returned? && t.present
  }

  /** No matching socket can begin an action, and the only matching actions still running are those
      whose handler has already taken their owner off the bus underneath them. */
  ghost predicate FenceHolds(s: State, t: Ticket) {
    forall x :: x in s.sockets && s.sockets[x].user == t.user && (t.scope.None? || t.scope.value == s.sockets[x].session) ==>
      && !CanBegin(s.sockets[x], s.now)
      && (s.sockets[x].action.Some? ==> s.sockets[x].stage.Unlisted? || s.sockets[x].stage.Detached?)
  }

  /** What the invariant alone gives: nothing is said of beginnings on a socket whose handler is leaving. */
  lemma InvariantGivesFence(s: State, t: TicketId, x: SocketId)
    requires Inv(s) && t in s.tickets && InForce(s.tickets[t])
    requires x in s.sockets && Matches(s.tickets[t], s.sockets[x])
    ensures !Leaving(s.sockets[x]) ==> !CanBegin(s.sockets[x], s.now)
    ensures s.sockets[x].action.Some? ==> s.sockets[x].stage.Unlisted? || s.sockets[x].stage.Detached?
  {
    assert Standing(s, x) && TicketOk(s.tickets[t]) && Cover(s, t, x);
  }

  /** A run on which, besides, no refresh admits an owner again that is being closed. */
  ghost predicate SettledRun(trace: seq<State>, steps: seq<Step>) {
    CooperativeRun(trace, steps) && forall i :: 0 <= i < |steps| ==> Settled(trace[i], steps[i])
  }

  /** A socket whose handler is leaving cannot begin an action. */
  ghost predicate Quiet(k: Socket, now: int) {
    Leaving(k) ==> k.revoked || k.validUntil <= now
  }

  lemma StepKeepsQuiet(s: State, step: Step, x: SocketId)
    requires Enabled(s, step) && Settled(s, step) && 0 <= s.now && x in Apply(s, step).sockets
    requires x in s.sockets ==> Standing(s, x) && Quiet(s.sockets[x], s.now)
    ensures Quiet(Apply(s, step).sockets[x], Apply(s, step).now)
  {
  }

  lemma {:induction false} RunStaysSettled(trace: seq<State>, steps: seq<Step>, i: nat)
    requires SettledRun(trace, steps) && i < |trace|
    ensures Inv(trace[i]) && forall x :: x in trace[i].sockets ==> Quiet(trace[i].sockets[x], trace[i].now)
  {
    if i > 0 {
      var s, step := trace[i - 1], steps[i - 1];
      RunStaysSettled(trace, steps, i - 1);
      assert Timely(s, step);
      StepKeepsInvariant(s, step);
      forall x | x in trace[i].sockets ensures Quiet(trace[i].sockets[x], trace[i].now) {
        assert x in s.sockets ==> Standing(s, x);
        StepKeepsQuiet(s, step, x);
      }
    }
  }

  /** Fence safety over every settled run. */
  lemma FenceSafety(trace: seq<State>, steps: seq<Step>, i: nat, t: TicketId)
    requires SettledRun(trace, steps) && i < |trace|
    requires t in trace[i].tickets && InForce(trace[i].tickets[t])
    ensures FenceHolds(trace[i], trace[i].tickets[t])
  {
    var s := trace[i];
    RunStaysSettled(trace, steps, i);
    forall x | x in s.sockets && Matches(s.tickets[t], s.sockets[x])
      ensures !CanBegin(s.sockets[x], s.now)
      ensures s.sockets[x].action.Some? ==> s.sockets[x].stage.Unlisted? || s.sockets[x].stage.Detached?
    {
      InvariantGivesFence(s, t, x);
    }
  }

  /** Every handler waits for its reader before it closes its owner: no action is running then, and none
      begins afterwards. */
  ghost predicate OrderlyRun(trace: seq<State>, steps: seq<Step>) {
    && TimelyRun(trace, steps)
    && forall i, x :: 0 <= i < |steps| && steps[i] == AtSocket(x, CloseStore) ==> trace[i].sockets[x].action.None?
  }

  /** One step keeps a leaving socket idle, if its handler waits before it leaves. */
  lemma StepKeepsIdle(s: State, step: Step, x: SocketId)
    requires Enabled(s, step) && Timely(s, step)
    requires x in s.sockets ==> (Leaving(s.sockets[x]) || step == AtSocket(x, CloseStore) ==> s.sockets[x].action.None?)
    ensures x in Apply(s, step).sockets && Leaving(Apply(s, step).sockets[x]) ==> Apply(s, step).sockets[x].action.None?
  {
  }

  lemma {:induction false} OrderlySocketsStop(trace: seq<State>, steps: seq<Step>, i: nat, x: SocketId)
    requires OrderlyRun(trace, steps) && i < |trace| && x in trace[i].sockets && Leaving(trace[i].sockets[x])
    ensures trace[i].sockets[x].action.None?
  {
    if i > 0 {
      var s, step := trace[i - 1], steps[i - 1];
      if x in s.sockets && Leaving(s.sockets[x]) {
        OrderlySocketsStop(trace, steps, i - 1, x);
      }
      StepKeepsIdle(s, step, x);
    }
  }

  /** With orderly handlers a fence in force means that nothing matching runs or begins at all, whatever
      the refreshes do. */
  lemma OrderlyFenceSafety(trace: seq<State>, steps: seq<Step>, i: nat, t: TicketId, x: SocketId)
    requires OrderlyRun(trace, steps) && i < |trace|
    requires t in trace[i].tickets && InForce(trace[i].tickets[t])
    requires x in trace[i].sockets && Matches(trace[i].tickets[t], trace[i].sockets[x])
    ensures trace[i].sockets[x].action.None?
    ensures i < |steps| ==> steps[i] != AtSocket(x, Begin)
  {
    RunKeepsInvariant(trace, steps, i);
    InvariantGivesFence(trace[i], t, x);
    if Leaving(trace[i].sockets[x]) {
      OrderlySocketsStop(trace, steps, i, x);
    }
  }

  // ---------------------------------------------------------------- a fence spares whom it does not name

  /** The snapshots of a request's handlers hold only sockets that it matches. */
  ghost predicate Aimed(s: State, t: Ticket) {
    forall r, y :: r in t.handlers && y in t.handlers[r] ==> y in s.sockets && Matches(t, s.sockets[y])
  }

  /** Neither a request's scope nor a socket's identity ever changes. */
  lemma ScopesStay(s: State, step: Step, t: TicketId, y: SocketId)
    requires Enabled(s, step) && t in s.tickets && y in s.sockets
    ensures t in Apply(s, step).tickets && y in Apply(s, step).sockets
    ensures Matches(Apply(s, step).tickets[t], Apply(s, step).sockets[y]) <==> Matches(s.tickets[t], s.sockets[y])
  {
  }

  lemma SnapshotAim(s: State, step: Step, t: TicketId, r: ReplicaId, y: SocketId)
    requires Enabled(s, step) && t in Apply(s, step).tickets
    requires r in Apply(s, step).tickets[t].handlers && y in Apply(s, step).tickets[t].handlers[r]
    ensures t in s.tickets
    ensures (r in s.tickets[t].handlers && y in s.tickets[t].handlers[r]) || (y in s.sockets && Matches(s.tickets[t], s.sockets[y]))
  {
  }

  lemma StepKeepsAim(s: State, step: Step, t: TicketId)
    requires Enabled(s, step) && t in Apply(s, step).tickets && (t in s.tickets ==> Aimed(s, s.tickets[t]))
    ensures Aimed(Apply(s, step), Apply(s, step).tickets[t])
  {
    var s' := Apply(s, step);
    forall r, y | r in s'.tickets[t].handlers && y in s'.tickets[t].handlers[r]
      ensures y in s'.sockets && Matches(s'.tickets[t], s'.sockets[y])
    {
      SnapshotAim(s, step, t, r, y);
      ScopesStay(s, step, t, y);
    }
  }

  lemma {:induction false} RunKeepsAim(trace: seq<State>, steps: seq<Step>, i: nat, t: TicketId)
    requires Run(trace, steps) && i < |trace| && t in trace[i].tickets
    ensures Aimed(trace[i], trace[i].tickets[t])
  {
    if i > 0 {
      if t in trace[i - 1].tickets {
        RunKeepsAim(trace, steps, i - 1, t);
      }
      StepKeepsAim(trace[i - 1], steps[i - 1], t);
    }
  }

  /** A socket comes to wait for a marker's application only by its scan. */
  lemma ScanOrigin(s: State, step: Step, x: SocketId)
    requires Enabled(s, step) && x in Apply(s, step).sockets && Apply(s, step).sockets[x].stage.MustFence?
    ensures x in s.sockets
    ensures s.sockets[x].stage.MustFence? || (step == AtSocket(x, Scan) && MarkerFor(s, s.sockets[x]))
  {
  }

  /** The socket's scan at step `j` met the marker of a request that was in place and matches it. */
  ghost predicate ScanMet(trace: seq<State>, steps: seq<Step>, j: int, x: SocketId, t: TicketId) {
    && 0 <= j < |steps| && j < |trace| && steps[j] == AtSocket(x, Scan)
    && x in trace[j].sockets && t in trace[j].tickets && trace[j].tickets[t].present
    && trace[j].tickets[t].user == trace[j].sockets[x].user
    && (trace[j].tickets[t].scope.None? || trace[j].tickets[t].scope.value == trace[j].sockets[x].session)
  }

  lemma {:induction false} MarkerWasMet(trace: seq<State>, steps: seq<Step>, i: nat, x: SocketId)
    requires Run(trace, steps) && i < |trace| && x in trace[i].sockets && trace[i].sockets[x].stage.MustFence?
    ensures exists j, t :: j < i && ScanMet(trace, steps, j, x, t)
  {
    if i > 0 {
      ScanOrigin(trace[i - 1], steps[i - 1], x);
      if trace[i - 1].sockets[x].stage.MustFence? {
        MarkerWasMet(trace, steps, i - 1, x);
      } else {
        var s := trace[i - 1];
        var t :| t in s.tickets && s.tickets[t].present && Matches(s.tickets[t], s.sockets[x]);
        assert ScanMet(trace, steps, i - 1, x, t);
      }
    }
  }

  /** The step by which a socket's guard is closed: its own, its replica's, or a request's. */
  lemma RevocationStep(s: State, step: Step, x: SocketId)
    requires Enabled(s, step) && x in s.sockets && !s.sockets[x].revoked && Apply(s, step).sockets[x].revoked
    ensures
      || step == AtSocket(x, Revoke) || step == AtSocket(x, RegisterFail)
      || step == AtReplica(s.sockets[x].replica, DrainOne(x)) || step == AtReplica(s.sockets[x].replica, CloseBus)
      || (step == AtSocket(x, ApplyMarker) && s.sockets[x].stage.MustFence?)
      || (step.AtTicket? && step.t in s.tickets && step.ticketAct.FenceOwner? && step.ticketAct.x == x
          && step.ticketAct.r in s.tickets[step.t].handlers && x in s.tickets[step.t].handlers[step.ticketAct.r])
  {
  }

  /** Precision: over every run a guard is closed only by its own revocation or failed registration, by the drain or
      the closing of its replica, by a request that matches it, or after a scan that met a matching marker. */
  lemma FenceIsPrecise(trace: seq<State>, steps: seq<Step>, i: nat, x: SocketId)
    requires Run(trace, steps) && i < |steps| && x in trace[i].sockets && x in trace[i + 1].sockets
    requires !trace[i].sockets[x].revoked && trace[i + 1].sockets[x].revoked
    ensures
      var s, step := trace[i], steps[i];
      || step == AtSocket(x, Revoke) || step == AtSocket(x, RegisterFail)
      || step == AtReplica(s.sockets[x].replica, DrainOne(x)) || step == AtReplica(s.sockets[x].replica, CloseBus)
      || (step.AtTicket? && step.t in s.tickets && step.ticketAct.FenceOwner? && step.ticketAct.x == x
          && s.tickets[step.t].user == s.sockets[x].user
          && (s.tickets[step.t].scope.None? || s.tickets[step.t].scope.value == s.sockets[x].session))
      || (step == AtSocket(x, ApplyMarker) && exists j, t :: j < i && ScanMet(trace, steps, j, x, t))
  {
    RevocationStep(trace[i], steps[i], x);
    if steps[i].AtTicket? {
      RunKeepsAim(trace, steps, i, steps[i].t);
    } else if steps[i] == AtSocket(x, ApplyMarker) {
      MarkerWasMet(trace, steps, i, x);
    }
  }

  // ---------------------------------------------------------------- a fence can always complete

  /** The state reached by executing cooperative steps in order, or None when one of them cannot be taken. */
  function Execute(s: State, steps: seq<Step>): Option<State>
    decreases |steps|
  {
    if steps == [] then Some(s)
    else if Enabled(s, steps[0]) && Cooperative(s, steps[0]) then Execute(Apply(s, steps[0]), steps[1..])
    else None
  }

  lemma {:induction false} ExecuteAppend(s: State, a: seq<Step>, s': State, b: seq<Step>)
    requires Execute(s, a) == Some(s')
    ensures Execute(s, a + b) == Execute(s', b)
    decreases |a|
  {
    if a == [] {
      assert a + b == b;
    } else {
      ExecuteAppend(Apply(s, a[0]), a[1..], s', b);
      assert (a + b)[1..] == a[1..] + b;
    }
  }

  /** One more step. */
  lemma Then(s: State, steps: seq<Step>, s': State, step: Step)
    requires Execute(s, steps) == Some(s') && Enabled(s', step) && Cooperative(s', step)
    ensures Execute(s, steps + [step]) == Some(Apply(s', step))
  {
    ExecuteAppend(s, steps, s', [step]);
    assert Execute(Apply(s', step), []) == Some(Apply(s', step)) && [step][1..] == [];
  }

  /** No time has passed, and the socket is as it was. */
  ghost predicate Spares(s: State, s': State, x: SocketId) {
    s'.now == s.now && Placed(s') && x in s.sockets && x in s'.sockets && s'.sockets[x] == s.sockets[x]
  }

  /** A replica's step that fences nobody leaves the sockets alone. */
  lemma QuietReplicaAct(s: State, r: ReplicaId, act: ReplicaAct)
    requires Enabled(s, AtReplica(r, act))
    requires act.DeleteLease? || act.LeaseExpire? || act.RefreshPut? || act.RefreshVerify? || ListedOn(s, r) == {}
    requires !act.DrainOne?
    ensures Apply(s, AtReplica(r, act)) ==
      s.(replicas := s.replicas[r := ReplicaAfter(s.replicas[r], s.now, ListedOn(s, r), act)])
  {
    assert forall x :: x in s.sockets && s.sockets[x].replica == r ==> s.sockets[x].listed ==> x in ListedOn(s, r);
    assert Apply(s, AtReplica(r, act)).sockets == s.sockets;
  }

  /** The entries that have outlived their lease and still sit in the owner bucket. */
  function Stale(s: State): set<ReplicaId> {
    set r | r in s.replicas && s.replicas[r].lease.Lease? && s.replicas[r].lease.present && s.replicas[r].lease.created + OWNER_TTL <= s.now
  }

  lemma ExpireOne(s: State, r: ReplicaId, x: SocketId)
    requires Placed(s) && x in s.sockets && r in Stale(s)
    ensures Enabled(s, AtReplica(r, LeaseExpire)) && Cooperative(s, AtReplica(r, LeaseExpire))
    ensures var s' := Apply(s, AtReplica(r, LeaseExpire));
      Spares(s, s', x) && s'.tickets == s.tickets && Stale(s') == Stale(s) - {r} && Leased(s') == Leased(s) - {r}
  {
    QuietReplicaAct(s, r, LeaseExpire);
  }

  lemma {:induction false} ExpireStale(s: State, x: SocketId) returns (steps: seq<Step>, s': State)
    requires Placed(s) && x in s.sockets
    ensures Execute(s, steps) == Some(s') && Spares(s, s', x) && s'.tickets == s.tickets
    ensures Stale(s') == {} && Leased(s') <= Leased(s)
    decreases |Stale(s)|
  {
    if Stale(s) == {} {
      steps, s' := [], s;
    } else {
      var r :| r in Stale(s);
      ExpireOne(s, r, x);
      var rest;
      rest, s' := ExpireStale(Apply(s, AtReplica(r, LeaseExpire)), x);
      steps := [AtReplica(r, LeaseExpire)] + rest;
      assert steps[1..] == rest;
    }
  }

  /** The handler of a command has a snapshot of known owners, `x` not among them. */
  ghost predicate Handling(s: State, t: TicketId, r: ReplicaId, x: SocketId) {
    && Placed(s) && x in s.sockets && t in s.tickets && r in s.tickets[t].handlers
    && s.tickets[t].handlers[r] <= s.sockets.Keys - {x}
  }

  /** An action ends, so that its guard is free. */
  lemma FreeGuard(s: State, t: TicketId, r: ReplicaId, x: SocketId, y: SocketId) returns (steps: seq<Step>, s': State)
    requires Handling(s, t, r, x) && y in s.tickets[t].handlers[r]
    ensures Execute(s, steps) == Some(s') && Spares(s, s', x) && s'.tickets == s.tickets && s'.sockets.Keys == s.sockets.Keys
    ensures Fenceable(s'.sockets[y])
  {
    if Fenceable(s.sockets[y]) {
      steps, s' := [], s;
    } else {
      Then(s, [], s, AtSocket(y, End));
      steps, s' := [] + [AtSocket(y, End)], Apply(s, AtSocket(y, End));
    }
  }

  lemma FenceOne(s: State, t: TicketId, r: ReplicaId, x: SocketId, y: SocketId)
    requires Handling(s, t, r, x) && y in s.tickets[t].handlers[r] && Fenceable(s.sockets[y])
    ensures Enabled(s, AtTicket(t, FenceOwner(r, y)))
    ensures var s' := Apply(s, AtTicket(t, FenceOwner(r, y)));
      && Handling(s', t, r, x) && Spares(s, s', x) && s'.sockets.Keys == s.sockets.Keys
      && s'.tickets[t] == s.tickets[t].(handlers := s.tickets[t].handlers[r := s.tickets[t].handlers[r] - {y}])
  {
  }

  /** One more owner is fenced, once its guard is free. */
  lemma FenceNext(s: State, t: TicketId, r: ReplicaId, x: SocketId, y: SocketId) returns (steps: seq<Step>, s': State)
    requires Handling(s, t, r, x) && y in s.tickets[t].handlers[r]
    ensures Execute(s, steps) == Some(s') && Handling(s', t, r, x) && Spares(s, s', x) && s'.sockets.Keys == s.sockets.Keys
    ensures s'.tickets[t] == s.tickets[t].(handlers := s.tickets[t].handlers[r := s.tickets[t].handlers[r] - {y}])
  {
    var s1;
    steps, s1 := FreeGuard(s, t, r, x, y);
    FenceOne(s1, t, r, x, y);
    Then(s, steps, s1, AtTicket(t, FenceOwner(r, y)));
    steps, s' := steps + [AtTicket(t, FenceOwner(r, y))], Apply(s1, AtTicket(t, FenceOwner(r, y)));
  }

  lemma Overwrite(m: map<ReplicaId, set<SocketId>>, r: ReplicaId, a: set<SocketId>, b: set<SocketId>)
    ensures m[r := a][r := b] == m[r := b]
    ensures r in m && m[r] == b ==> m[r := b] == m
  {
  }

  lemma {:induction false} FenceOwners(s: State, t: TicketId, r: ReplicaId, x: SocketId) returns (steps: seq<Step>, s': State)
    requires Handling(s, t, r, x)
    ensures Execute(s, steps) == Some(s') && Spares(s, s', x) && s'.sockets.Keys == s.sockets.Keys
    ensures t in s'.tickets && s'.tickets[t] == s.tickets[t].(handlers := s.tickets[t].handlers[r := {}])
    decreases |s.tickets[t].handlers[r]|
  {
    if s.tickets[t].handlers[r] == {} {
      steps, s' := [], s;
      Overwrite(s.tickets[t].handlers, r, {}, {});
    } else {
      var y :| y in s.tickets[t].handlers[r];
      var s1, rest;
      steps, s1 := FenceNext(s, t, r, x, y);
      rest, s' := FenceOwners(s1, t, r, x);
      ExecuteAppend(s, steps, s1, rest);
      steps := steps + rest;
      Overwrite(s.tickets[t].handlers, r, s.tickets[t].handlers[r] - {y}, {});
    }
  }

  /** A request that has listed the leases and commands the replicas; it will not meet `x`. */
  ghost predicate Underway(s: State, t: TicketId, x: SocketId) {
    && Placed(s) && x in s.sockets && t in s.tickets && s.tickets[t].stage.Commanding? && s.tickets[t].present
    && (forall r :: r in s.tickets[t].handlers ==> s.tickets[t].handlers[r] <= s.sockets.Keys - {x})
    && (s.sockets[x].replica in s.tickets[t].targets ==> !s.sockets[x].listed)
  }

  /** Two versions of a request that differ only in its progress. */
  predicate SameRequest(a: Ticket, b: Ticket) {
    b.user == a.user && b.scope == a.scope && b.targets == a.targets && b.present == a.present
  }

  lemma ReceiveOne(s: State, t: TicketId, r: ReplicaId, x: SocketId)
    requires Underway(s, t, x) && r in s.tickets[t].targets - s.tickets[t].acked && r !in s.tickets[t].handlers
    ensures Enabled(s, AtTicket(t, Receive(r)))
    ensures var s' := Apply(s, AtTicket(t, Receive(r)));
      && Underway(s', t, x) && Spares(s, s', x) && SameRequest(s.tickets[t], s'.tickets[t])
      && s'.tickets[t].acked == s.tickets[t].acked && r in s'.tickets[t].handlers
  {
  }

  /** The command is delivered, unless its handler is already at work. */
  lemma Deliver(s: State, t: TicketId, r: ReplicaId, x: SocketId) returns (steps: seq<Step>, s': State)
    requires Underway(s, t, x) && r in s.tickets[t].targets - s.tickets[t].acked
    ensures Execute(s, steps) == Some(s') && Spares(s, s', x) && Underway(s', t, x)
    ensures SameRequest(s.tickets[t], s'.tickets[t]) && s'.tickets[t].acked == s.tickets[t].acked && r in s'.tickets[t].handlers
  {
    if r in s.tickets[t].handlers {
      steps, s' := [], s;
    } else {
      ReceiveOne(s, t, r, x);
      Then(s, [], s, AtTicket(t, Receive(r)));
      steps, s' := [] + [AtTicket(t, Receive(r))], Apply(s, AtTicket(t, Receive(r)));
    }
  }

  lemma CommandOne(s: State, t: TicketId, r: ReplicaId, x: SocketId) returns (steps: seq<Step>, s': State)
    requires Underway(s, t, x) && r in s.tickets[t].targets - s.tickets[t].acked
    ensures Execute(s, steps) == Some(s') && Spares(s, s', x) && Underway(s', t, x)
    ensures SameRequest(s.tickets[t], s'.tickets[t]) && s'.tickets[t].acked == s.tickets[t].acked + {r}
  {
    var s1, s2, fence;
    steps, s1 := Deliver(s, t, r, x);
    fence, s2 := FenceOwners(s1, t, r, x);
    ExecuteAppend(s, steps, s1, fence);
    steps := steps + fence;
    Then(s, steps, s2, AtTicket(t, Ack(r)));
    steps, s' := steps + [AtTicket(t, Ack(r))], Apply(s2, AtTicket(t, Ack(r)));
  }

  lemma {:induction false} CommandAll(s: State, t: TicketId, x: SocketId) returns (steps: seq<Step>, s': State)
    requires Underway(s, t, x)
    ensures Execute(s, steps) == Some(s') && Spares(s, s', x) && Underway(s', t, x)
    ensures SameRequest(s.tickets[t], s'.tickets[t]) && s'.tickets[t].targets <= s'.tickets[t].acked
    decreases |s.tickets[t].targets - s.tickets[t].acked|
  {
    if s.tickets[t].targets - s.tickets[t].acked == {} {
      steps, s' := [], s;
      forall r | r in s.tickets[t].targets ensures r in s.tickets[t].acked {
        assert r !in s.tickets[t].targets - s.tickets[t].acked;
      }
    } else {
      var r :| r in s.tickets[t].targets - s.tickets[t].acked;
      var s1, rest;
      steps, s1 := CommandOne(s, t, r, x);
      assert s1.tickets[t].targets - s1.tickets[t].acked == s.tickets[t].targets - s.tickets[t].acked - {r};
      rest, s' := CommandAll(s1, t, x);
      ExecuteAppend(s, steps, s1, rest);
      steps := steps + rest;
    }
  }

  /** A request that has listed the leases can complete at once. */
  lemma RequestCompletes(s: State, t: TicketId, x: SocketId) returns (steps: seq<Step>, s': State)
    requires Underway(s, t, x)
    ensures Execute(s, steps) == Some(s') && Spares(s, s', x)
    ensures t in s'.tickets && InForce(s'.tickets[t]) && SameRequest(s.tickets[t], s'.tickets[t])
  {
    var s1;
    steps, s1 := CommandAll(s, t, x);
    Then(s, steps, s1, AtTicket(t, Return));
    steps, s' := steps + [AtTicket(t, Return)], Apply(s1, AtTicket(t, Return));
  }

  lemma MarkAndList(s: State, t: TicketId, user: UserId, scope: Option<SessionId>, x: SocketId) returns (steps: seq<Step>, s': State)
    requires Placed(s) && x in s.sockets && t !in s.tickets && Stale(s) == {}
    requires s.sockets[x].listed ==> s.sockets[x].replica !in Leased(s)
    ensures Execute(s, steps) == Some(s') && Spares(s, s', x) && Underway(s', t, x)
    ensures s'.tickets[t].user == user && s'.tickets[t].scope == scope
  {
    Then(s, [], s, Mark(t, user, scope));
    var s1 := Apply(s, Mark(t, user, scope));
    assert forall r :: r in Leased(s1) ==> r !in Stale(s);
    assert Leased(s1) == Leased(s);
    Then(s, [] + [Mark(t, user, scope)], s1, AtTicket(t, List));
    steps, s' := [] + [Mark(t, user, scope)] + [AtTicket(t, List)], Apply(s1, AtTicket(t, List));
  }

  /** Fence progress: from every state a new fence can complete at once, and it leaves alone any socket that
      is not listed or whose replica has no lease. */
  lemma FenceCompletes(s: State, t: TicketId, user: UserId, scope: Option<SessionId>, x: SocketId) returns (steps: seq<Step>, s': State)
    requires Placed(s) && x in s.sockets && t !in s.tickets
    requires s.sockets[x].listed ==> s.sockets[x].replica !in Leased(s)
    ensures Execute(s, steps) == Some(s') && Spares(s, s', x)
    ensures t in s'.tickets && InForce(s'.tickets[t]) && s'.tickets[t].user == user && s'.tickets[t].scope == scope
  {
    var s1, s2, more;
    steps, s1 := ExpireStale(s, x);
    more, s2 := MarkAndList(s1, t, user, scope, x);
    ExecuteAppend(s, steps, s1, more);
    steps := steps + more;
    more, s' := RequestCompletes(s2, t, x);
    ExecuteAppend(s, steps, s2, more);
    steps := steps + more;
  }

  // ---------------------------------------------------------------- the assumptions are needed

  /** A socket that may act and that no fence will meet defeats the next fence of its user. */
  lemma EscapeBreaksFence(s: State, t: TicketId, x: SocketId) returns (steps: seq<Step>, s': State)
    requires Placed(s) && x in s.sockets && t !in s.tickets && CanBegin(s.sockets[x], s.now)
    requires s.sockets[x].listed ==> s.sockets[x].replica !in Leased(s)
    ensures Execute(s, steps) == Some(s') && t in s'.tickets && InForce(s'.tickets[t]) && !FenceHolds(s', s'.tickets[t])
  {
    steps, s' := FenceCompletes(s, t, s.sockets[x].user, None, x);
    assert Matches(s'.tickets[t], s'.sockets[x]) && CanBegin(s'.sockets[x], s'.now);
  }

  /** What a refresh does to a listed socket: its deadline is the new one. */
  lemma MarkReadmits(s: State, r: ReplicaId, x: SocketId)
    requires Enabled(s, AtReplica(r, RefreshMark)) && Placed(s)
    requires x in s.sockets && s.sockets[x].replica == r && s.sockets[x].listed
    ensures var s' := Apply(s, AtReplica(r, RefreshMark));
      && s'.now == s.now && s'.tickets == s.tickets && Placed(s')
      && x in s'.sockets && s'.sockets[x] == s.sockets[x].(validUntil := s.replicas[r].refresh.created + OWNER_ADMISSION)
  {
  }

  /** An action ends if one is running. */
  lemma Idle(s: State, x: SocketId) returns (steps: seq<Step>, s': State)
    requires Placed(s) && x in s.sockets
    ensures Execute(s, steps) == Some(s')
    ensures s' == s.(sockets := s.sockets[x := s.sockets[x].(action := None)])
  {
    if s.sockets[x].action.Some? {
      Then(s, [], s, AtSocket(x, End));
      steps, s' := [] + [AtSocket(x, End)], Apply(s, AtSocket(x, End));
    } else {
      steps, s' := [], s;
      assert s.sockets[x := s.sockets[x]] == s.sockets;
    }
  }

  /** Every refresh that is not settled defeats the next fence: it admits an owner that `Close` then takes off
      the bus, no fence meets it any more, and its reader may act.  So `Settled` is exactly what is needed. */
  lemma UnsettledRefreshBreaksFence(s: State, r: ReplicaId, t: TicketId) returns (steps: seq<Step>, s': State)
    requires Placed(s) && t !in s.tickets && Enabled(s, AtReplica(r, RefreshMark)) && !Settled(s, AtReplica(r, RefreshMark))
    ensures Execute(s, steps) == Some(s') && t in s'.tickets && InForce(s'.tickets[t]) && !FenceHolds(s', s'.tickets[t])
  {
    var x :| x in s.sockets && s.sockets[x].replica == r && s.sockets[x].stage.Closing? && s.sockets[x].listed
      && !s.sockets[x].revoked && s.now < s.replicas[r].refresh.created + OWNER_ADMISSION;
    MarkReadmits(s, r, x);
    Then(s, [], s, AtReplica(r, RefreshMark));
    var s1 := Apply(s, AtReplica(r, RefreshMark));
    Then(s, [] + [AtReplica(r, RefreshMark)], s1, AtSocket(x, CloseDelete));
    var s2 := Apply(s1, AtSocket(x, CloseDelete));
    steps := [] + [AtReplica(r, RefreshMark)] + [AtSocket(x, CloseDelete)];
    var more, s3 := Idle(s2, x);
    ExecuteAppend(s, steps, s2, more);
    steps := steps + more;
    more, s' := EscapeBreaksFence(s3, t, x);
    ExecuteAppend(s, steps, s3, more);
    steps := steps + more;
  }

  /** An open socket under a request that has listed the leases without its replica: its lease has run out, it is
      listed, and no action of it is running. */
  lemma OpenSocketUnderFence(s: State, t: TicketId, x: SocketId)
    requires Inv(s) && t in s.tickets && x in s.sockets && OpenUnder(s.sockets[x], s.tickets[t])
    requires s.sockets[x].replica !in s.tickets[t].targets
    ensures s.sockets[x].listed && s.sockets[x].action.None?
    ensures s.sockets[x].replica in s.replicas && LeaseExpired(s.replicas[s.sockets[x].replica].lease, s.now)
    ensures forall r :: r in s.tickets[t].handlers ==> s.tickets[t].handlers[r] <= s.sockets.Keys - {x}
  {
    assert Standing(s, x) && TicketOk(s.tickets[t]) && SnapshotsOk(s, s.tickets[t]) && Cover(s, t, x);
  }

  /** A renewal on the spot: the replica writes, verifies and marks, and its listed sockets are admitted again. */
  lemma RenewalReadmits(s: State, r: ReplicaId, x: SocketId) returns (steps: seq<Step>, s': State)
    requires Placed(s) && Enabled(s, AtReplica(r, RefreshPut))
    requires x in s.sockets && s.sockets[x].replica == r && s.sockets[x].listed
    ensures Execute(Apply(s, AtReplica(r, RefreshPut)), steps) == Some(s') && Placed(s')
    ensures s'.now == s.now && s'.tickets == s.tickets && s'.sockets.Keys == s.sockets.Keys
    ensures s'.sockets[x] == s.sockets[x].(validUntil := s.now + OWNER_ADMISSION)
  {
    QuietReplicaAct(s, r, RefreshPut);
    var s1 := Apply(s, AtReplica(r, RefreshPut));
    QuietReplicaAct(s1, r, RefreshVerify);
    Then(s1, [], s1, AtReplica(r, RefreshVerify));
    var s2 := Apply(s1, AtReplica(r, RefreshVerify));
    MarkReadmits(s2, r, x);
    Then(s1, [] + [AtReplica(r, RefreshVerify)], s2, AtReplica(r, RefreshMark));
    steps, s' := [] + [AtReplica(r, RefreshVerify)] + [AtReplica(r, RefreshMark)], Apply(s2, AtReplica(r, RefreshMark));
  }

  /** A matching request that has listed the leases completes, or has completed, over a socket that may act and
      that it does not meet. */
  lemma UnmetSocketBreaksFence(s: State, t: TicketId, x: SocketId) returns (steps: seq<Step>, s': State)
    requires Placed(s) && t in s.tickets && Fencing(s.tickets[t])
    requires x in s.sockets && Matches(s.tickets[t], s.sockets[x]) && CanBegin(s.sockets[x], s.now)
    requires s.sockets[x].replica !in s.tickets[t].targets
    requires forall r :: r in s.tickets[t].handlers ==> s.tickets[t].handlers[r] <= s.sockets.Keys - {x}
    ensures Execute(s, steps) == Some(s') && t in s'.tickets && InForce(s'.tickets[t]) && !FenceHolds(s', s'.tickets[t])
  {
    if s.tickets[t].stage.Returned? {
      steps, s' := [], s;
    } else {
      steps, s' := RequestCompletes(s, t, x);
    }
    assert Matches(s'.tickets[t], s'.sockets[x]) && CanBegin(s'.sockets[x], s'.now);
  }

  /** Every renewal that is not safe defeats a fence: after verification and mark the socket may act, and the
      request that did not list its replica completes over it.  So `RenewalSafe` is exactly what is needed. */
  lemma UnsafeRenewalBreaksFence(s: State, r: ReplicaId) returns (t: TicketId, steps: seq<Step>, s': State)
    requires Inv(s) && Enabled(s, AtReplica(r, RefreshPut)) && !Cooperative(s, AtReplica(r, RefreshPut))
    ensures Execute(Apply(s, AtReplica(r, RefreshPut)), steps) == Some(s')
    ensures t in s'.tickets && InForce(s'.tickets[t]) && !FenceHolds(s', s'.tickets[t])
  {
    var x;
    x, t :| x in s.sockets && t in s.tickets && s.sockets[x].replica == r && OpenUnder(s.sockets[x], s.tickets[t])
      && r !in s.tickets[t].targets;
    OpenSocketUnderFence(s, t, x);
    InvariantPlaces(s);
    var s1, more;
    steps, s1 := RenewalReadmits(s, r, x);
    more, s' := UnmetSocketBreaksFence(s1, t, x);
    ExecuteAppend(Apply(s, AtReplica(r, RefreshPut)), steps, s1, more);
    steps := steps + more;
  }

  lemma InvariantPlaces(s: State)
    requires Inv(s)
    ensures Placed(s)
  {
    forall x | x in s.sockets ensures s.sockets[x].replica in s.replicas {
      assert Standing(s, x);
    }
  }

  /** The requests whose markers are in place. */
  function Markers(s: State): set<TicketId> {
    set t | t in s.tickets && s.tickets[t].present
  }

  /** A revoker gives up, if it still waits, and its marker is released. */
  lemma ReleaseOne(s: State, t: TicketId) returns (steps: seq<Step>, s': State)
    requires t in Markers(s)
    ensures Execute(s, steps) == Some(s') && s'.now == s.now && s'.sockets == s.sockets && s'.replicas == s.replicas
    ensures s'.tickets.Keys == s.tickets.Keys && Markers(s') == Markers(s) - {t}
  {
    if s.tickets[t].stage.Returned? || s.tickets[t].stage.Errored? {
      Then(s, [], s, AtTicket(t, Release));
      steps, s' := [] + [AtTicket(t, Release)], Apply(s, AtTicket(t, Release));
    } else {
      Then(s, [], s, AtTicket(t, Abort));
      var s1 := Apply(s, AtTicket(t, Abort));
      Then(s, [] + [AtTicket(t, Abort)], s1, AtTicket(t, Release));
      steps, s' := [] + [AtTicket(t, Abort)] + [AtTicket(t, Release)], Apply(s1, AtTicket(t, Release));
    }
  }

  lemma {:induction false} ReleaseAll(s: State) returns (steps: seq<Step>, s': State)
    ensures Execute(s, steps) == Some(s') && s'.now == s.now && s'.sockets == s.sockets && s'.replicas == s.replicas
    ensures s'.tickets.Keys == s.tickets.Keys && Markers(s') == {}
    decreases |Markers(s)|
  {
    if Markers(s) == {} {
      steps, s' := [], s;
    } else {
      var t :| t in Markers(s);
      var s1, rest;
      steps, s1 := ReleaseOne(s, t);
      rest, s' := ReleaseAll(s1);
      ExecuteAppend(s, steps, s1, rest);
      steps := steps + rest;
    }
  }

  /** A socket that has verified the lease of a closed bus completes its registration after the lease is gone. */
  lemma RegisterLate(s: State, x: SocketId) returns (steps: seq<Step>, s': State)
    requires Placed(s) && x in s.sockets && s.sockets[x].stage.Verified? && s.sockets[x].action.None? && !s.sockets[x].revoked
    requires s.now < s.sockets[x].stage.created + OWNER_ADMISSION && Markers(s) == {}
    requires s.replicas[s.sockets[x].replica].closed && s.replicas[s.sockets[x].replica].lease.Lease?
    ensures Execute(s, steps) == Some(s') && Placed(s') && s'.tickets == s.tickets
    ensures x in s'.sockets && CanBegin(s'.sockets[x], s'.now) && s'.sockets[x].replica !in Leased(s')
  {
    var r := s.sockets[x].replica;
    QuietReplicaAct(s, r, DeleteLease);
    Then(s, [], s, AtReplica(r, DeleteLease));
    var s1 := Apply(s, AtReplica(r, DeleteLease));
    Then(s, [] + [AtReplica(r, DeleteLease)], s1, AtSocket(x, Store));
    var s2 := Apply(s1, AtSocket(x, Store));
    steps := [] + [AtReplica(r, DeleteLease)] + [AtSocket(x, Store)];
    assert !MarkerFor(s2, s2.sockets[x]) by {
      assert forall t :: t in s2.tickets && s2.tickets[t].present ==> t in Markers(s);
    }
    Then(s, steps, s2, AtSocket(x, Scan));
    steps, s' := steps + [AtSocket(x, Scan)], Apply(s2, AtSocket(x, Scan));
  }

  /** Every open registration that verifies the lease of a bus which `Close` has already fenced defeats the next
      fence: its owner sits in a map nobody will fence again, and the lease is deleted before any revoker lists
      it.  So that assumption, too, is exactly what is needed. */
  lemma LateRegistrationBreaksFence(s: State, x: SocketId, t: TicketId) returns (steps: seq<Step>, s': State)
    requires Inv(s) && t !in s.tickets && Enabled(s, AtSocket(x, Verify)) && !Cooperative(s, AtSocket(x, Verify))
    ensures Execute(Apply(s, AtSocket(x, Verify)), steps) == Some(s')
    ensures t in s'.tickets && InForce(s'.tickets[t]) && !FenceHolds(s', s'.tickets[t])
  {
    assert Standing(s, x);
    InvariantPlaces(s);
    var s0 := Apply(s, AtSocket(x, Verify));
    var s1, s2, more;
    steps, s1 := ReleaseAll(s0);
    more, s2 := RegisterLate(s1, x);
    ExecuteAppend(s0, steps, s1, more);
    steps := steps + more;
    more, s' := EscapeBreaksFence(s2, t, x);
    ExecuteAppend(s0, steps, s2, more);
    steps := steps + more;
  }

  // Cooperative runs that reach the states the lemmas above speak of.

  lemma Extend(trace: seq<State>, steps: seq<Step>, step: Step) returns (trace': seq<State>, steps': seq<Step>)
    requires CooperativeRun(trace, steps) && Enabled(trace[|steps|], step) && Cooperative(trace[|steps|], step)
    ensures CooperativeRun(trace', steps')
    ensures trace'[|steps'|] == Apply(trace[|steps|], step)
    ensures SettledRun(trace, steps) && Settled(trace[|steps|], step) ==> SettledRun(trace', steps')
  {
    trace', steps' := trace + [Apply(trace[|steps|], step)], steps + [step];
  }

  function OpenSocket(): Socket {
    Socket(0, 0, 0, Active, true, OWNER_ADMISSION, false, None)
  }

  /** One replica with one socket at the start of its registration, at time zero. */
  lemma RegisteringRun() returns (trace: seq<State>, steps: seq<Step>)
    ensures SettledRun(trace, steps)
    ensures trace[|steps|] == State(0, map[0 := Replica(Lease(0, true), false, Waiting)],
      map[0 := Socket(0, 0, 0, Inserted, true, 0, false, None)], map[])
  {
    trace, steps := [State(0, map[], map[], map[])], [];
    trace, steps := Extend(trace, steps, Boot(0));
    trace, steps := Extend(trace, steps, Connect(0, 0, 0, 0));
    trace, steps := Extend(trace, steps, AtSocket(0, Insert));
  }

  /** One replica with one open socket, at time zero. */
  lemma OpenRun() returns (trace: seq<State>, steps: seq<Step>)
    ensures SettledRun(trace, steps)
    ensures trace[|steps|] == State(0, map[0 := Replica(Lease(0, true), false, Waiting)], map[0 := OpenSocket()], map[])
  {
    trace, steps := RegisteringRun();
    trace, steps := Extend(trace, steps, AtSocket(0, Verify));
    trace, steps := Extend(trace, steps, AtSocket(0, Store));
    assert trace[|steps|].sockets[0].stage == Stored;
    trace, steps := Extend(trace, steps, AtSocket(0, Scan));
    assert trace[|steps|].sockets[0] == OpenSocket();
  }

  lemma ExpiredRun() returns (trace: seq<State>, steps: seq<Step>)
    ensures SettledRun(trace, steps)
    ensures trace[|steps|] ==
      State(OWNER_TTL, map[0 := Replica(Lease(0, false), false, Waiting)], map[0 := OpenSocket()], map[])
  {
    trace, steps := OpenRun();
    trace, steps := Extend(trace, steps, Tick(OWNER_TTL));
    QuietReplicaAct(trace[|steps|], 0, LeaseExpire);
    trace, steps := Extend(trace, steps, AtReplica(0, LeaseExpire));
  }

  /** A replica that pauses past its lease: the fence returns without commanding it.  Together with
      `UnsafeRenewalBreaksFence` this shows that fence safety fails without the renewal assumption. */
  lemma PausedReplicaRun() returns (trace: seq<State>, steps: seq<Step>)
    ensures SettledRun(trace, steps)
    ensures Enabled(trace[|steps|], AtReplica(0, RefreshPut)) && !Cooperative(trace[|steps|], AtReplica(0, RefreshPut))
  {
    trace, steps := ExpiredRun();
    trace, steps := Extend(trace, steps, Mark(0, 0, None));
    trace, steps := Extend(trace, steps, AtTicket(0, List));
    assert trace[|steps|].tickets[0].targets == {};
    trace, steps := Extend(trace, steps, AtTicket(0, Return));
    var s := trace[|steps|];
    assert s.sockets[0].replica == 0 && OpenUnder(s.sockets[0], s.tickets[0]) && 0 !in s.tickets[0].targets;
  }

  lemma RefreshingRun() returns (trace: seq<State>, steps: seq<Step>)
    ensures SettledRun(trace, steps)
    ensures trace[|steps|] == State(0, map[0 := Replica(Lease(0, true), false, Marking(0))], map[0 := OpenSocket()], map[])
  {
    trace, steps := OpenRun();
    QuietReplicaAct(trace[|steps|], 0, RefreshPut);
    trace, steps := Extend(trace, steps, AtReplica(0, RefreshPut));
    QuietReplicaAct(trace[|steps|], 0, RefreshVerify);
    trace, steps := Extend(trace, steps, AtReplica(0, RefreshVerify));
  }

  /** A handler that has just cleared its owner's deadline while the refresher is about to mark: together with
      `UnsettledRefreshBreaksFence` this shows that fence safety fails without the assumption on refreshes. */
  lemma CloseRaceRun() returns (trace: seq<State>, steps: seq<Step>)
    ensures CooperativeRun(trace, steps) && Placed(trace[|steps|]) && trace[|steps|].tickets == map[]
    ensures Enabled(trace[|steps|], AtReplica(0, RefreshMark)) && !Settled(trace[|steps|], AtReplica(0, RefreshMark))
  {
    trace, steps := RefreshingRun();
    trace, steps := Extend(trace, steps, AtSocket(0, CloseStore));
    assert trace[|steps|].sockets[0].stage.Closing? && trace[|steps|].replicas[0].refresh == Marking(0);
  }

  lemma ClosedRun() returns (trace: seq<State>, steps: seq<Step>)
    ensures SettledRun(trace, steps)
    ensures trace[|steps|] == State(0, map[0 := Replica(Lease(0, true), true, Waiting)], map[], map[])
  {
    trace, steps := [State(0, map[], map[], map[])], [];
    trace, steps := Extend(trace, steps, Boot(0));
    QuietReplicaAct(trace[|steps|], 0, CloseBus);
    trace, steps := Extend(trace, steps, AtReplica(0, CloseBus));
  }

  /** A bus that `Close` has fenced and a handler about to verify its lease: together with
      `LateRegistrationBreaksFence` this shows that fence safety fails without the assumption on closed buses. */
  lemma ClosedBusRun() returns (trace: seq<State>, steps: seq<Step>)
    ensures SettledRun(trace, steps)
    ensures Enabled(trace[|steps|], AtSocket(0, Verify)) && !Cooperative(trace[|steps|], AtSocket(0, Verify))
  {
    trace, steps := ClosedRun();
    trace, steps := Extend(trace, steps, Connect(0, 0, 0, 0));
    trace, steps := Extend(trace, steps, AtSocket(0, Insert));
  }

  lemma ClosingActionRun() returns (trace: seq<State>, steps: seq<Step>)
    ensures SettledRun(trace, steps)
    ensures trace[|steps|] == State(0, map[0 := Replica(Lease(0, true), false, Waiting)],
      map[0 := Socket(0, 0, 0, Closing, true, 0, false, Some(0))], map[])
  {
    trace, steps := OpenRun();
    trace, steps := Extend(trace, steps, AtSocket(0, Begin));
    trace, steps := Extend(trace, steps, AtSocket(0, CloseStore));
  }

  /** A handler that has returned while its reader is inside an action, on a run that is cooperative and
      settled: by `DetachedActionSurvivesFence`, `FenceHolds` cannot promise more about running actions. */
  lemma DetachedActionRun() returns (trace: seq<State>, steps: seq<Step>)
    ensures SettledRun(trace, steps)
    ensures trace[|steps|] == State(0, map[0 := Replica(Lease(0, true), false, Waiting)],
      map[0 := Socket(0, 0, 0, Detached, false, 0, false, Some(0))], map[])
  {
    trace, steps := ClosingActionRun();
    trace, steps := Extend(trace, steps, AtSocket(0, CloseDelete));
    trace, steps := Extend(trace, steps, AtSocket(0, Unregister));
  }

  /** An action whose owner has been taken off the bus outlives the next fence. */
  lemma DetachedActionSurvivesFence(s: State, x: SocketId, t: TicketId) returns (steps: seq<Step>, s': State)
    requires Placed(s) && t !in s.tickets && x in s.sockets && !s.sockets[x].listed && s.sockets[x].action.Some?
    ensures Execute(s, steps) == Some(s') && t in s'.tickets && InForce(s'.tickets[t])
    ensures x in s'.sockets && Matches(s'.tickets[t], s'.sockets[x]) && s'.sockets[x].action == s.sockets[x].action
  {
    steps, s' := FenceCompletes(s, t, s.sockets[x].user, None, x);
  }
}
