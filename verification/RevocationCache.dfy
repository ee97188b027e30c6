/**
 The session guard and the bounded revocation cache of `internal/httpapi/session_events.go`.

 The cache is checked against an unbounded ideal: the ghost map `ideal` gives every revoked session the
 latest expiry of any of its revocations, whatever the order of the calls, and forgets nothing.  Calls run one at a time, as the cache's
 mutex makes them; a guard's `Revoke` runs under the guard's own mutex.  Each call reads its clock
 before it takes the mutex, so a call may carry a time earlier than that of the call before it;
 `clock` is the latest time seen so far.
 */
module RevocationCache {
  import opened Common

  /** A user and one of its sessions; also the key of a revocation record. */
  datatype Identity = Identity(user: nat, session: nat)

  class Guard {
    const identity: Identity
    var revoked: bool
    // The state of `revokedCh`.  Closing a closed channel panics.
    var channelClosed: bool

    ghost predicate Valid()
      reads this
    {
      channelClosed == revoked
    }

    constructor (id: Identity)
      ensures identity == id && !revoked && Valid()
    {
      identity := id;
      revoked := false;
      channelClosed := false;
    }

    method CloseChannel()
      requires !channelClosed
      modifies `channelClosed
      ensures channelClosed
    {
      channelClosed := true;
    }

    method Revoke()
      requires Valid()
      modifies this
      ensures Valid() && revoked
    {
      if revoked {
        return;
      }
      revoked := true;
      CloseChannel();
    }

    /** Whether the action runs; a lapsed lease (`lease == Some(false)`) revokes the guard instead. */
    method WhileActive(lease: Option<bool>) returns (ran: bool)
      requires Valid()
      modifies this
      ensures Valid()
      ensures ran <==> !old(revoked) && lease != Some(false)
      ensures revoked <==> !ran
    {
      if revoked || lease == Some(false) {
        if !revoked {
          revoked := true;
          CloseChannel();
        }
        return false;
      }
      return true;
    }
  }

  /** Go's zero time, before every reading of a clock. */
  const ZERO_TIME := 0
  const DEFAULT_RETENTION := 30_000_000_000

  type Records = map<Identity, int>

  /** The records still in force after a prune. */
  function Unexpired(records: Records, now: int): Records {
    map k | k in records && now < records[k] :: records[k]
  }

  /** The loop of `pruneLocked`. */
  method Prune(records: Records, now: int) returns (r: Records)
    ensures r == Unexpired(records, now) && |r| <= |records|
  {
    r := records;
    var pending := records.Keys;
    while pending != {}
      invariant pending <= records.Keys && r.Keys <= records.Keys && |r| <= |records|
      invariant forall k :: k in r ==> r[k] == records[k]
      invariant forall k :: k in records ==> (k in r <==> k in pending || now < records[k])
      decreases |pending|
    {
      var k :| k in pending;
      if r[k] <= now {
        assert (r - {k}).Keys == r.Keys - {k};
        r := r - {k};
      }
      pending := pending - {k};
    }
  }

  function PrunedEpoch(until: int, now: int): int {
    if now < until then until else ZERO_TIME
  }

  // ---------------------------------------------------------------- recording

  function KeySet(keys: seq<Identity>): set<Identity> {
    set k | k in keys
  }

  /** Records the keys in order until the capacity is exhausted; the flag says that they did not fit. */
  function Record(records: Records, keys: seq<Identity>, capacity: nat, expiresAt: int): (Records, bool)
    decreases |keys|
  {
    if keys == [] then (records, false)
    else if keys[0] !in records && |records| >= capacity then (records, true)
    else Record(records[keys[0] := expiresAt], keys[1..], capacity, expiresAt)
  }

  /** The loop of `Revoke` over the keys. */
  method RecordKeys(records: Records, keys: seq<Identity>, capacity: nat, expiresAt: int)
      returns (r: Records, failClosed: bool)
    ensures (r, failClosed) == Record(records, keys, capacity, expiresAt)
  {
    r, failClosed := records, false;
    for i := 0 to |keys|
      invariant Record(records, keys, capacity, expiresAt) == Record(r, keys[i..], capacity, expiresAt)
    {
      assert keys[i..][1..] == keys[i + 1..];
      if keys[i] !in r && |r| >= capacity {
        return r, true;
      }
      r := r[keys[i] := expiresAt];
    }
  }

  /** The keys recorded before the capacity runs out, beside those already known. */
  function Part(known: set<Identity>, keys: seq<Identity>, capacity: nat): set<Identity>
    decreases |keys|
  {
    if keys == [] || (keys[0] !in known && |known| >= capacity) then {}
    else {keys[0]} + Part(known + {keys[0]}, keys[1..], capacity)
  }

  lemma {:induction false} FitsIn(a: set<Identity>, b: set<Identity>)
    requires a <= b
    ensures |a| <= |b|
  {
    if a != {} {
      var x :| x in a;
      FitsIn(a - {x}, b - {x});
    }
  }

  lemma KeySetCons(keys: seq<Identity>)
    requires keys != []
    ensures KeySet(keys) == {keys[0]} + KeySet(keys[1..])
  {
    assert keys == [keys[0]] + keys[1..];
  }

  lemma InsertedKeys(records: Records, key: Identity, expiresAt: int)
    ensures records[key := expiresAt].Keys == records.Keys + {key}
    ensures |records[key := expiresAt]| == if key in records then |records| else |records| + 1
  {
    assert records[key := expiresAt].Keys == records.Keys + {key};
    assert key in records ==> records.Keys + {key} == records.Keys;
  }

  lemma {:induction false} RecordCapacity(records: Records, keys: seq<Identity>, capacity: nat, expiresAt: int)
    requires |records| <= capacity
    ensures |Record(records, keys, capacity, expiresAt).0| <= capacity
    decreases |keys|
  {
    if keys != [] && (keys[0] in records || |records| < capacity) {
      InsertedKeys(records, keys[0], expiresAt);
      RecordCapacity(records[keys[0] := expiresAt], keys[1..], capacity, expiresAt);
    }
  }

  lemma UnionCons(records: Records, keys: seq<Identity>, expiresAt: int)
    requires keys != []
    ensures records[keys[0] := expiresAt].Keys + KeySet(keys[1..]) == records.Keys + KeySet(keys)
  {
    KeySetCons(keys);
    InsertedKeys(records, keys[0], expiresAt);
  }

  lemma NoRoom(records: Records, keys: seq<Identity>, capacity: nat)
    requires keys != [] && keys[0] !in records && |records| >= capacity
    ensures |records.Keys + KeySet(keys)| > capacity
  {
    KeySetCons(keys);
    FitsIn(records.Keys + {keys[0]}, records.Keys + KeySet(keys));
  }

  /** Recording fails closed exactly when the keys do not fit. */
  lemma {:induction false} RecordFits(records: Records, keys: seq<Identity>, capacity: nat, expiresAt: int)
    requires |records| <= capacity
    ensures Record(records, keys, capacity, expiresAt).1 <==> |records.Keys + KeySet(keys)| > capacity
    decreases |keys|
  {
    if keys == [] {
      assert records.Keys + KeySet(keys) == records.Keys;
    } else if keys[0] !in records && |records| >= capacity {
      NoRoom(records, keys, capacity);
    } else {
      UnionCons(records, keys, expiresAt);
      InsertedKeys(records, keys[0], expiresAt);
      RecordFits(records[keys[0] := expiresAt], keys[1..], capacity, expiresAt);
    }
  }

  /** The records with a new expiry for these keys, and nothing else changed. */
  ghost function Stampings(records: Records, part: set<Identity>, expiresAt: int): iset<Records> {
    iset r: Records |
      && r.Keys == records.Keys + part
      && forall k :: k in r ==> r[k] == if k in part then expiresAt else records[k]
  }

  lemma StampingCons(records: Records, key: Identity, part: set<Identity>, expiresAt: int, r: Records)
    requires r in Stampings(records[key := expiresAt], part, expiresAt)
    ensures r in Stampings(records, {key} + part, expiresAt)
  {
  }

  /** Recording gives the full retention to exactly the keys before the capacity runs out, which are all of them
      unless it fails closed, and changes nothing else. */
  lemma {:induction false} RecordEffect(records: Records, keys: seq<Identity>, capacity: nat, expiresAt: int)
    ensures Record(records, keys, capacity, expiresAt).0 in Stampings(records, Part(records.Keys, keys, capacity), expiresAt)
    ensures Part(records.Keys, keys, capacity) <= KeySet(keys)
    ensures !Record(records, keys, capacity, expiresAt).1 ==> Part(records.Keys, keys, capacity) == KeySet(keys)
    decreases |keys|
  {
    if keys != [] && (keys[0] in records || |records| < capacity) {
      KeySetCons(keys);
      InsertedKeys(records, keys[0], expiresAt);
      RecordEffect(records[keys[0] := expiresAt], keys[1..], capacity, expiresAt);
      StampingCons(records, keys[0], Part(records.Keys + {keys[0]}, keys[1..], capacity), expiresAt,
                   Record(records, keys, capacity, expiresAt).0);
    }
  }

  // ---------------------------------------------------------------- the cache beside its ideal

  /** The cache's bookkeeping, the unbounded ideal, and the latest time a call has seen. */
  datatype Ledger = Ledger(ideal: Records, records: Records, until: int, clock: int)

  function Later(a: int, b: int): int { if a < b then b else a }

  /** The ideal effect of a revocation: a full retention for every named session that has no longer one. */
  function Renewed(ideal: Records, named: set<Identity>, expiresAt: int): Records {
    ideal + map k | k in named :: if k in ideal then Later(ideal[k], expiresAt) else expiresAt
  }

  function Pruned(l: Ledger, now: int): Ledger {
    Ledger(l.ideal, Unexpired(l.records, now), PrunedEpoch(l.until, now), Later(l.clock, now))
  }

  /** The named sessions do not fit beside the records still in force. */
  predicate Overflows(l: Ledger, named: set<Identity>, capacity: nat, now: int) {
    |Unexpired(l.records, now).Keys + named| > capacity
  }

  /** The ledger after a revocation that left the records `r` and perhaps failed closed. */
  function Settled(l: Ledger, named: set<Identity>, expiresAt: int, now: int, r: Records, failClosed: bool): Ledger {
    Ledger(Renewed(l.ideal, named, expiresAt), r, if failClosed then expiresAt else PrunedEpoch(l.until, now), Later(l.clock, now))
  }

  /** A revocation holds for one retention. */
  function Expiry(now: int, retention: nat): int {
    now + retention
  }

  /** A revocation: prune, record the keys, and open a fail-closed epoch if they do not fit. */
  function Revised(l: Ledger, keys: seq<Identity>, capacity: nat, retention: nat, now: int): Ledger {
    var p := Record(Unexpired(l.records, now), keys, capacity, Expiry(now, retention));
    Settled(l, KeySet(keys), Expiry(now, retention), now, p.0, p.1)
  }

  /** What a registration is told. */
  predicate Denies(l: Ledger, id: Identity, now: int) {
    now < l.until || (id in l.records && now < l.records[id])
  }

  /** Every unexpired ideal revocation is held by a record or by a fail-closed epoch that lasts as long. */
  predicate Covers(l: Ledger) {
    forall k :: k in l.ideal ==> Held(l, k)
  }

  predicate Held(l: Ledger, k: Identity)
    requires k in l.ideal
  {
    l.clock < l.ideal[k] ==> (k in l.records && l.ideal[k] <= l.records[k]) || l.ideal[k] <= l.until
  }

  ghost function Covering(): iset<Ledger> { iset l: Ledger | Covers(l) }

  /** No record outlasts the ideal. */
  predicate Within(l: Ledger) {
    forall k :: k in l.records ==> k in l.ideal && l.records[k] <= l.ideal[k]
  }

  ghost function Precise(): iset<Ledger> { iset l: Ledger | Within(l) }

  /** No expiry lies further ahead than one retention. */
  predicate Near(l: Ledger, retention: nat) {
    (forall k :: k in l.ideal ==> l.ideal[k] <= l.clock + retention) && l.until <= l.clock + retention && ZERO_TIME <= l.clock
  }

  ghost function Bounded(retention: nat): iset<Ledger> { iset l: Ledger | Near(l, retention) }

  /** No session that the ideal denies is admitted by a covering cache, whatever time the call carries; and
      outside a fail-closed epoch a precise one denies no other. */
  lemma AdmissionIsSafe(l: Ledger, id: Identity, now: int)
    ensures l in Covering() && id in l.ideal && Later(l.clock, now) < l.ideal[id] ==> Denies(l, id, now)
    ensures l in Precise() && Denies(l, id, now) ==> now < l.until || (id in l.ideal && now < l.ideal[id])
  {
  }

  /** Pruning at any time, early or late, loses nothing. */
  lemma PruneKeeps(l: Ledger, now: int, retention: nat)
    ensures l in Covering() ==> Pruned(l, now) in Covering()
    ensures l in Precise() ==> Pruned(l, now) in Precise()
    ensures l in Bounded(retention) ==> Pruned(l, now) in Bounded(retention)
    ensures |Unexpired(l.records, now)| <= |l.records|
  {
    FitsIn(Unexpired(l.records, now).Keys, l.records.Keys);
  }

  // Exactly when a revocation keeps the cover.  A clock behind another call's can shorten a record that it
  // overwrites, or an epoch that it replaces.

  /** A revocation that fits, expiring at `expiresAt`, does not shorten what holds this named session. */
  predicate FittingSafeAt(l: Ledger, expiresAt: int, now: int, k: Identity)
    requires k in l.ideal
  {
    Later(l.clock, now) < l.ideal[k] ==> l.ideal[k] <= expiresAt || l.ideal[k] <= PrunedEpoch(l.until, now)
  }

  ghost function FittingSafe(named: set<Identity>, expiresAt: int, now: int): iset<Ledger> {
    iset l: Ledger | forall k :: k in l.ideal && k in named ==> FittingSafeAt(l, expiresAt, now, k)
  }

  /** A revocation that fails closed after recording `part` leaves this session a record that is long enough, or
      opens an epoch that is. */
  predicate OverflowSafeAt(l: Ledger, part: set<Identity>, expiresAt: int, now: int, k: Identity)
    requires k in l.ideal
  {
    Later(l.clock, now) < l.ideal[k] ==> (k !in part && k in l.records && l.ideal[k] <= l.records[k]) || l.ideal[k] <= expiresAt
  }

  ghost function OverflowSafe(part: set<Identity>, expiresAt: int, now: int): iset<Ledger> {
    iset l: Ledger | forall k :: k in l.ideal ==> OverflowSafeAt(l, part, expiresAt, now, k)
  }

  /** The condition, on the ledger before the call. */
  ghost predicate KeepsCover(l: Ledger, keys: seq<Identity>, capacity: nat, retention: nat, now: int) {
    if Overflows(l, KeySet(keys), capacity, now)
    then l in OverflowSafe(Part(Unexpired(l.records, now).Keys, keys, capacity), Expiry(now, retention), now)
    else l in FittingSafe(KeySet(keys), Expiry(now, retention), now)
  }

  lemma FittingHeld(l: Ledger, named: set<Identity>, expiresAt: int, now: int, r: Records, k: Identity)
    requires r in Stampings(Unexpired(l.records, now), named, expiresAt)
    requires k in Settled(l, named, expiresAt, now, r, false).ideal && (k in l.ideal ==> Held(l, k))
    ensures Held(Settled(l, named, expiresAt, now, r, false), k) <==> (k in l.ideal && k in named ==> FittingSafeAt(l, expiresAt, now, k))
  {
  }

  lemma OverflowHeld(l: Ledger, named: set<Identity>, part: set<Identity>, expiresAt: int, now: int, r: Records, k: Identity)
    requires part <= named && r in Stampings(Unexpired(l.records, now), part, expiresAt)
    requires k in Settled(l, named, expiresAt, now, r, true).ideal
    ensures Held(Settled(l, named, expiresAt, now, r, true), k) <==> (k in l.ideal ==> OverflowSafeAt(l, part, expiresAt, now, k))
  {
  }

  lemma FittingCovers(l: Ledger, named: set<Identity>, expiresAt: int, now: int, r: Records)
    requires l in Covering() && r in Stampings(Unexpired(l.records, now), named, expiresAt)
    ensures Settled(l, named, expiresAt, now, r, false) in Covering() <==> l in FittingSafe(named, expiresAt, now)
  {
    var l' := Settled(l, named, expiresAt, now, r, false);
    forall k | k in l'.ideal
      ensures Held(l', k) <==> (k in l.ideal && k in named ==> FittingSafeAt(l, expiresAt, now, k))
    {
      FittingHeld(l, named, expiresAt, now, r, k);
    }
    assert forall k :: k in l.ideal ==> k in l'.ideal;
  }

  lemma OverflowCovers(l: Ledger, named: set<Identity>, part: set<Identity>, expiresAt: int, now: int, r: Records)
    requires part <= named && r in Stampings(Unexpired(l.records, now), part, expiresAt)
    ensures Settled(l, named, expiresAt, now, r, true) in Covering() <==> l in OverflowSafe(part, expiresAt, now)
  {
    var l' := Settled(l, named, expiresAt, now, r, true);
    forall k | k in l'.ideal ensures Held(l', k) <==> (k in l.ideal ==> OverflowSafeAt(l, part, expiresAt, now, k)) {
      OverflowHeld(l, named, part, expiresAt, now, r, k);
    }
    assert forall k :: k in l.ideal ==> k in l'.ideal;
  }

  predicate FailsClosed(l: Ledger, keys: seq<Identity>, capacity: nat, retention: nat, now: int) {
    Record(Unexpired(l.records, now), keys, capacity, Expiry(now, retention)).1
  }

  /** A revocation keeps the capacity and fails closed exactly when its keys do not fit. */
  lemma RevocationFits(l: Ledger, keys: seq<Identity>, capacity: nat, retention: nat, now: int)
    requires |l.records| <= capacity
    ensures FailsClosed(l, keys, capacity, retention, now) <==> Overflows(l, KeySet(keys), capacity, now)
    ensures |Revised(l, keys, capacity, retention, now).records| <= capacity
  {
    FitsIn(Unexpired(l.records, now).Keys, l.records.Keys);
    RecordFits(Unexpired(l.records, now), keys, capacity, Expiry(now, retention));
    RecordCapacity(Unexpired(l.records, now), keys, capacity, Expiry(now, retention));
  }

  lemma FittingRecordingCovers(l: Ledger, keys: seq<Identity>, capacity: nat, expiresAt: int, now: int, p: (Records, bool))
    requires l in Covering() && p == Record(Unexpired(l.records, now), keys, capacity, expiresAt) && !p.1
    ensures Settled(l, KeySet(keys), expiresAt, now, p.0, p.1) in Covering() <==> l in FittingSafe(KeySet(keys), expiresAt, now)
  {
    RecordEffect(Unexpired(l.records, now), keys, capacity, expiresAt);
    FittingCovers(l, KeySet(keys), expiresAt, now, p.0);
  }

  lemma OverflowRecordingCovers(l: Ledger, keys: seq<Identity>, capacity: nat, expiresAt: int, now: int, p: (Records, bool))
    requires p == Record(Unexpired(l.records, now), keys, capacity, expiresAt) && p.1
    ensures Settled(l, KeySet(keys), expiresAt, now, p.0, p.1) in Covering() <==>
      l in OverflowSafe(Part(Unexpired(l.records, now).Keys, keys, capacity), expiresAt, now)
  {
    RecordEffect(Unexpired(l.records, now), keys, capacity, expiresAt);
    OverflowCovers(l, KeySet(keys), Part(Unexpired(l.records, now).Keys, keys, capacity), expiresAt, now, p.0);
  }

  lemma FittingKeepsCover(l: Ledger, keys: seq<Identity>, capacity: nat, retention: nat, now: int)
    requires l in Covering() && !FailsClosed(l, keys, capacity, retention, now)
    requires l in FittingSafe(KeySet(keys), Expiry(now, retention), now)
    ensures Revised(l, keys, capacity, retention, now) in Covering()
  {
    FittingRecordingCovers(l, keys, capacity, Expiry(now, retention), now, Record(Unexpired(l.records, now), keys, capacity, Expiry(now, retention)));
  }

  lemma FittingLosesCover(l: Ledger, keys: seq<Identity>, capacity: nat, retention: nat, now: int)
    requires l in Covering() && !FailsClosed(l, keys, capacity, retention, now)
    requires l !in FittingSafe(KeySet(keys), Expiry(now, retention), now)
    ensures Revised(l, keys, capacity, retention, now) !in Covering()
  {
    FittingRecordingCovers(l, keys, capacity, Expiry(now, retention), now, Record(Unexpired(l.records, now), keys, capacity, Expiry(now, retention)));
  }

  lemma OverflowKeepsCover(l: Ledger, keys: seq<Identity>, capacity: nat, retention: nat, now: int)
    requires FailsClosed(l, keys, capacity, retention, now)
    requires l in OverflowSafe(Part(Unexpired(l.records, now).Keys, keys, capacity), Expiry(now, retention), now)
    ensures Revised(l, keys, capacity, retention, now) in Covering()
  {
    OverflowRecordingCovers(l, keys, capacity, Expiry(now, retention), now, Record(Unexpired(l.records, now), keys, capacity, Expiry(now, retention)));
  }

  lemma OverflowLosesCover(l: Ledger, keys: seq<Identity>, capacity: nat, retention: nat, now: int)
    requires FailsClosed(l, keys, capacity, retention, now)
    requires l !in OverflowSafe(Part(Unexpired(l.records, now).Keys, keys, capacity), Expiry(now, retention), now)
    ensures Revised(l, keys, capacity, retention, now) !in Covering()
  {
    OverflowRecordingCovers(l, keys, capacity, Expiry(now, retention), now, Record(Unexpired(l.records, now), keys, capacity, Expiry(now, retention)));
  }

  /** Exactly when a revocation, whatever time it carries, keeps the cover: a fitting one must not shorten what
      holds a session it names; one that fails closed must leave every session a record or epoch long enough. */
  lemma RevocationKeepsCover(l: Ledger, keys: seq<Identity>, capacity: nat, retention: nat, now: int)
    requires l in Covering() && |l.records| <= capacity
    ensures Revised(l, keys, capacity, retention, now) in Covering() <==> KeepsCover(l, keys, capacity, retention, now)
  {
    RevocationFits(l, keys, capacity, retention, now);
    if Overflows(l, KeySet(keys), capacity, now) {
      if KeepsCover(l, keys, capacity, retention, now) {
        OverflowKeepsCover(l, keys, capacity, retention, now);
      } else {
        OverflowLosesCover(l, keys, capacity, retention, now);
      }
    } else if KeepsCover(l, keys, capacity, retention, now) {
      FittingKeepsCover(l, keys, capacity, retention, now);
    } else {
      FittingLosesCover(l, keys, capacity, retention, now);
    }
  }

  /** The epoch and the records of the named sessions end by `expiresAt`. */
  predicate ShortensNothing(l: Ledger, named: set<Identity>, expiresAt: int) {
    l.until <= expiresAt && forall k :: k in named && k in l.records ==> l.records[k] <= expiresAt
  }

  lemma SafeAt(l: Ledger, named: set<Identity>, part: set<Identity>, retention: nat, now: int, k: Identity)
    requires k in l.ideal && Held(l, k) && part <= named
    requires (l.clock <= now && l.ideal[k] <= l.clock + retention) || ShortensNothing(l, named, Expiry(now, retention))
    ensures k in named ==> FittingSafeAt(l, Expiry(now, retention), now, k)
    ensures OverflowSafeAt(l, part, Expiry(now, retention), now, k)
  {
  }

  /** A clock read in order always suffices, and so does any clock that shortens neither the epoch nor a record of
      a session it names. */
  lemma InOrderKeepsCover(l: Ledger, keys: seq<Identity>, capacity: nat, retention: nat, now: int)
    requires l in Covering() && l in Bounded(retention)
    requires l.clock <= now || ShortensNothing(l, KeySet(keys), Expiry(now, retention))
    ensures KeepsCover(l, keys, capacity, retention, now)
  {
    var part := Part(Unexpired(l.records, now).Keys, keys, capacity);
    RecordEffect(Unexpired(l.records, now), keys, capacity, Expiry(now, retention));
    forall k | k in l.ideal
      ensures (k in KeySet(keys) ==> FittingSafeAt(l, Expiry(now, retention), now, k)) && OverflowSafeAt(l, part, Expiry(now, retention), now, k)
    {
      SafeAt(l, KeySet(keys), part, retention, now, k);
    }
  }

  lemma RenewedBounded(ideal: Records, named: set<Identity>, expiresAt: int, bound: int)
    requires expiresAt <= bound && forall k :: k in ideal ==> ideal[k] <= bound
    ensures var ideal' := Renewed(ideal, named, expiresAt); forall k :: k in ideal' ==> ideal'[k] <= bound
  {
  }

  lemma RevocationKeepsBounds(l: Ledger, keys: seq<Identity>, capacity: nat, retention: nat, now: nat)
    requires l in Bounded(retention)
    ensures Revised(l, keys, capacity, retention, now) in Bounded(retention)
  {
    RenewedBounded(l.ideal, KeySet(keys), Expiry(now, retention), Later(l.clock, now) + retention);
  }

  lemma StampedWithin(l: Ledger, named: set<Identity>, part: set<Identity>, expiresAt: int, now: int, r: Records, failClosed: bool)
    requires l in Precise() && part <= named && r in Stampings(Unexpired(l.records, now), part, expiresAt)
    ensures Settled(l, named, expiresAt, now, r, failClosed) in Precise()
  {
  }

  lemma RecordingWithin(l: Ledger, keys: seq<Identity>, capacity: nat, expiresAt: int, now: int, p: (Records, bool))
    requires l in Precise() && p == Record(Unexpired(l.records, now), keys, capacity, expiresAt)
    ensures Settled(l, KeySet(keys), expiresAt, now, p.0, p.1) in Precise()
  {
    var kept := Unexpired(l.records, now);
    RecordEffect(kept, keys, capacity, expiresAt);
    StampedWithin(l, KeySet(keys), Part(kept.Keys, keys, capacity), expiresAt, now, p.0, p.1);
  }

  lemma RevocationKeepsPrecise(l: Ledger, keys: seq<Identity>, capacity: nat, retention: nat, now: nat)
    requires l in Precise()
    ensures Revised(l, keys, capacity, retention, now) in Precise()
  {
    RecordingWithin(l, keys, capacity, Expiry(now, retention), now, Record(Unexpired(l.records, now), keys, capacity, Expiry(now, retention)));
  }

  // ---------------------------------------------------------------- every sequence of calls

  datatype Call = Registration(now: nat) | Revocation(keys: seq<Identity>, now: nat)

  function Called(l: Ledger, call: Call, capacity: nat, retention: nat): Ledger {
    if call.Registration? then Pruned(l, call.now) else Revised(l, call.keys, capacity, retention, call.now)
  }

  /** The ledger after some calls on an empty cache. */
  function After(calls: seq<Call>, capacity: nat, retention: nat): Ledger {
    if calls == [] then Ledger(map[], map[], ZERO_TIME, ZERO_TIME)
    else
      Called(After(calls[..|calls| - 1], capacity, retention), calls[|calls| - 1], capacity, retention)
  }

  /** Over every sequence of calls with any clocks the records never exceed the capacity and none outlasts the
      ideal, so outside a fail-closed epoch nothing is denied that the ideal admits. */
  lemma {:induction false} CapacityHolds(calls: seq<Call>, capacity: nat, retention: nat)
    ensures |After(calls, capacity, retention).records| <= capacity
    ensures After(calls, capacity, retention) in Bounded(retention) && After(calls, capacity, retention) in Precise()
  {
    if calls != [] {
      var before, call := calls[..|calls| - 1], calls[|calls| - 1];
      CapacityHolds(before, capacity, retention);
      var l := After(before, capacity, retention);
      if call.Registration? {
        PruneKeeps(l, call.now, retention);
      } else {
        RevocationFits(l, call.keys, capacity, retention, call.now);
        RevocationKeepsBounds(l, call.keys, capacity, retention, call.now);
        RevocationKeepsPrecise(l, call.keys, capacity, retention, call.now);
      }
    }
  }

  ghost predicate InOrder(calls: seq<Call>) {
    forall i, j :: 0 <= i < j < |calls| ==> calls[i].now <= calls[j].now
  }

  lemma {:induction false} LatestClock(calls: seq<Call>, capacity: nat, retention: nat, now: nat)
    requires forall i :: 0 <= i < |calls| ==> calls[i].now <= now
    ensures After(calls, capacity, retention).clock <= now
  {
    if calls != [] {
      LatestClock(calls[..|calls| - 1], capacity, retention, now);
    }
  }

  /** The call keeps the cover of a covering ledger. */
  ghost predicate Careful(l: Ledger, call: Call, capacity: nat, retention: nat) {
    call.Revocation? ==> KeepsCover(l, call.keys, capacity, retention, call.now)
  }

  lemma OneCallCovers(calls: seq<Call>, i: nat, capacity: nat, retention: nat)
    requires i < |calls| && After(calls[..i], capacity, retention) in Covering()
    ensures After(calls[..i + 1], capacity, retention) in Covering() <==>
      Careful(After(calls[..i], capacity, retention), calls[i], capacity, retention)
  {
    var l := After(calls[..i], capacity, retention);
    assert calls[..i + 1][..i] == calls[..i];
    CapacityHolds(calls[..i], capacity, retention);
    if calls[i].Registration? {
      PruneKeeps(l, calls[i].now, retention);
    } else {
      RevocationKeepsCover(l, calls[i].keys, capacity, retention, calls[i].now);
    }
  }

  lemma {:induction false} CarefulCallsCover(calls: seq<Call>, i: nat, capacity: nat, retention: nat)
    requires i <= |calls|
    requires forall j :: 0 <= j < i ==> Careful(After(calls[..j], capacity, retention), calls[j], capacity, retention)
    ensures After(calls[..i], capacity, retention) in Covering()
  {
    if i > 0 {
      CarefulCallsCover(calls, i - 1, capacity, retention);
      OneCallCovers(calls, i - 1, capacity, retention);
    }
  }

  /** Over every sequence of calls with any clocks: the bounded cache covers the unbounded ideal all along if and
      only if every revocation among them satisfies the condition when it is made. */
  lemma RunCovers(calls: seq<Call>, capacity: nat, retention: nat)
    ensures
      (forall i :: 0 <= i <= |calls| ==> After(calls[..i], capacity, retention) in Covering()) <==>
      (forall j :: 0 <= j < |calls| ==> Careful(After(calls[..j], capacity, retention), calls[j], capacity, retention))
  {
    if forall i :: 0 <= i <= |calls| ==> After(calls[..i], capacity, retention) in Covering() {
      forall j | 0 <= j < |calls| ensures Careful(After(calls[..j], capacity, retention), calls[j], capacity, retention) {
        assert After(calls[..j + 1], capacity, retention) in Covering();
        OneCallCovers(calls, j, capacity, retention);
      }
    }
    if forall j :: 0 <= j < |calls| ==> Careful(After(calls[..j], capacity, retention), calls[j], capacity, retention) {
      forall i | 0 <= i <= |calls| ensures After(calls[..i], capacity, retention) in Covering() {
        CarefulCallsCover(calls, i, capacity, retention);
      }
    }
  }

  /** With clocks in order it always does: the bounded cache refines the unbounded one. */
  lemma {:induction false} InOrderRunCovers(calls: seq<Call>, capacity: nat, retention: nat)
    requires InOrder(calls)
    ensures After(calls, capacity, retention) in Covering()
  {
    if calls != [] {
      var n, call := |calls| - 1, calls[|calls| - 1];
      var l := After(calls[..n], capacity, retention);
      InOrderRunCovers(calls[..n], capacity, retention);
      CapacityHolds(calls[..n], capacity, retention);
      LatestClock(calls[..n], capacity, retention, call.now);
      if call.Revocation? {
        InOrderKeepsCover(l, call.keys, capacity, retention, call.now);
      }
      OneCallCovers(calls, n, capacity, retention);
      assert calls[..n + 1] == calls;
    }
  }

  /** A revocation of the sequence that names the session. */
  predicate Revokes(calls: seq<Call>, i: int, id: Identity) {
    0 <= i < |calls| && calls[i].Revocation? && id in calls[i].keys
  }

  /** The ideal gives a session the latest expiry of its revocations, and no other session has one. */
  ghost predicate LatestExpiry(calls: seq<Call>, ideal: Records, retention: nat, id: Identity) {
    && (forall i :: Revokes(calls, i, id) ==> id in ideal && calls[i].now + retention <= ideal[id])
    && (id in ideal ==> exists i :: Revokes(calls, i, id) && ideal[id] == calls[i].now + retention)
  }

  lemma RenewedAt(ideal: Records, keys: seq<Identity>, expiresAt: int, id: Identity)
    ensures var ideal' := Renewed(ideal, KeySet(keys), expiresAt);
      && (id in ideal' <==> id in ideal || id in keys)
      && (id in ideal' ==> ideal'[id] == if id !in keys then ideal[id] else if id in ideal then Later(ideal[id], expiresAt) else expiresAt)
  {
  }

  lemma CalledIdeal(l: Ledger, call: Call, capacity: nat, retention: nat)
    ensures Called(l, call, capacity, retention).ideal ==
      if call.Registration? then l.ideal else Renewed(l.ideal, KeySet(call.keys), Expiry(call.now, retention))
  {
  }

  lemma LatestSnoc(calls: seq<Call>, call: Call, ideal: Records, ideal': Records, retention: nat, id: Identity)
    requires LatestExpiry(calls, ideal, retention, id)
    requires call.Registration? ==> ideal' == ideal
    requires call.Revocation? ==>
      && (id in ideal' <==> id in ideal || id in call.keys)
      && (id in ideal' ==> ideal'[id] == if id !in call.keys then ideal[id]
                                         else if id in ideal then Later(ideal[id], call.now + retention) else call.now + retention)
    ensures LatestExpiry(calls + [call], ideal', retention, id)
  {
    var more := calls + [call];
    forall i | Revokes(more, i, id) ensures id in ideal' && more[i].now + retention <= ideal'[id] {
      if i < |calls| {
        assert Revokes(calls, i, id);
      }
    }
    if id in ideal' {
      if id in ideal && ideal'[id] == ideal[id] {
        var i :| Revokes(calls, i, id) && ideal[id] == calls[i].now + retention;
        assert Revokes(more, i, id) && more[i] == calls[i];
      } else {
        assert Revokes(more, |calls|, id);
      }
    }
  }

  /** Over every sequence of calls the ideal is what it should be. */
  lemma {:induction false} IdealIsLatest(calls: seq<Call>, capacity: nat, retention: nat, id: Identity)
    ensures LatestExpiry(calls, After(calls, capacity, retention).ideal, retention, id)
  {
    if calls != [] {
      var before, call := calls[..|calls| - 1], calls[|calls| - 1];
      var l := After(before, capacity, retention);
      IdealIsLatest(before, capacity, retention, id);
      CalledIdeal(l, call, capacity, retention);
      if call.Revocation? {
        RenewedAt(l.ideal, call.keys, Expiry(call.now, retention), id);
      }
      LatestSnoc(before, call, l.ideal, After(calls, capacity, retention).ideal, retention, id);
      assert before + [call] == calls;
    }
  }

  /** With clocks in order a revoked session is denied for one full retention, whatever else is called meanwhile. */
  lemma RevokedSessionDenied(calls: seq<Call>, i: nat, id: Identity, now: nat, capacity: nat, retention: nat)
    requires InOrder(calls) && (forall j :: 0 <= j < |calls| ==> calls[j].now <= now)
    requires Revokes(calls, i, id) && now < calls[i].now + retention
    ensures Denies(After(calls, capacity, retention), id, now)
  {
    InOrderRunCovers(calls, capacity, retention);
    LatestClock(calls, capacity, retention, now);
    IdealIsLatest(calls, capacity, retention, id);
    AdmissionIsSafe(After(calls, capacity, retention), id, now);
  }

  /** The effect of revoking one session. */
  lemma ReviseOne(l: Ledger, key: Identity, capacity: nat, retention: nat, now: int, kept: Records)
    requires kept == Unexpired(l.records, now)
    ensures Revised(l, [key], capacity, retention, now) ==
      if key !in kept && |kept| >= capacity then Settled(l, {key}, Expiry(now, retention), now, kept, true)
      else Settled(l, {key}, Expiry(now, retention), now, kept[key := Expiry(now, retention)], false)
  {
    RecordOne(kept, key, capacity, Expiry(now, retention));
    assert KeySet([key]) == {key};
  }

  lemma RecordOne(records: Records, key: Identity, capacity: nat, expiresAt: int)
    ensures Record(records, [key], capacity, expiresAt) ==
      if key !in records && |records| >= capacity then (records, true) else (records[key := expiresAt], false)
  {
    assert [key][1..] == [];
    assert Record(records[key := expiresAt], [], capacity, expiresAt) == (records[key := expiresAt], false);
  }

  /** Out of order it may fail even with room to spare: two revocations of one session, the second with a clock
      read before the first's, shorten its record, and the session is then admitted although the ideal still
      denies it. */
  lemma StaleClockShortens(k: Identity, capacity: nat)
    requires capacity >= 1
    ensures
      var l := After([Revocation([k], 110), Revocation([k], 105)], capacity, 30);
      && l !in Covering() && k in l.ideal && 136 < l.ideal[k] && !Denies(l, k, 136)
  {
    var a, b := Revocation([k], 110), Revocation([k], 105);
    AfterOneMore([], a, capacity, 30);
    AfterOneMore([a], b, capacity, 30);
    assert [] + [a] == [a] && [a] + [b] == [a, b];
    FirstOfTwo(k, capacity);
    var l := Ledger(Renewed(map[], {k}, 140), map[k := 140], ZERO_TIME, 110);
    assert Unexpired(l.records, 105) == map[k := 140];
    ReviseOne(l, k, capacity, 30, 105, map[k := 140]);
    RecordShortened(l, k);
  }

  lemma FirstOfTwo(k: Identity, capacity: nat)
    requires capacity >= 1
    ensures Revised(After([], capacity, 30), [k], capacity, 30, 110) == Ledger(Renewed(map[], {k}, 140), map[k := 140], ZERO_TIME, 110)
  {
    var l := After([], capacity, 30);
    assert Unexpired(l.records, 110) == map[];
    ReviseOne(l, k, capacity, 30, 110, map[]);
  }

  lemma RecordShortened(l: Ledger, k: Identity)
    requires k in l.ideal && l.ideal[k] == 140 && l.until == ZERO_TIME && l.clock == 110
    ensures
      var l' := Settled(l, {k}, 135, 105, map[k := 140][k := 135], false);
      && l' !in Covering() && k in l'.ideal && 136 < l'.ideal[k] && !Denies(l', k, 136)
  {
    var l' := Settled(l, {k}, 135, 105, map[k := 140][k := 135], false);
    assert k in l'.ideal && l'.ideal[k] == 140 && !Held(l', k);
  }

  /** Or it shortens an epoch: three revocations on an empty cache of capacity one, the last with a clock read
      before the second's.  It shortens the epoch on which the second session depends, which is then admitted
      although the ideal still denies it. */
  lemma StaleClockUncovers(first: Identity, second: Identity, third: Identity)
    requires first != second && second != third && third != first
    ensures
      var l := After([Revocation([first], 100), Revocation([second], 110), Revocation([third], 105)], 1, 30);
      && l !in Covering() && second in l.ideal && 136 < l.ideal[second] && !Denies(l, second, 136)
  {
    AfterThree(Revocation([first], 100), Revocation([second], 110), Revocation([third], 105), 1, 30);
    var l1 := Ledger(Renewed(map[], {first}, 130), map[first := 130], ZERO_TIME, 100);
    var l2 := Ledger(Renewed(l1.ideal, {second}, 140), map[first := 130], 140, 110);
    RoomForOne(first);
    EpochOpens(l1, first, second, 110);
    EpochOpens(l2, first, third, 105);
    EpochShortened(l1.ideal, first, second, third);
  }

  lemma EpochShortened(ideal: Records, first: Identity, second: Identity, third: Identity)
    requires first != second && second != third && second !in ideal
    ensures
      var l := Ledger(Renewed(Renewed(ideal, {second}, 140), {third}, 135), map[first := 130], 135, 110);
      && l !in Covering() && second in l.ideal && 136 < l.ideal[second] && !Denies(l, second, 136)
  {
    var l := Ledger(Renewed(Renewed(ideal, {second}, 140), {third}, 135), map[first := 130], 135, 110);
    assert second in l.ideal && l.ideal[second] == 140 && !Held(l, second);
  }

  lemma AfterOneMore(calls: seq<Call>, call: Call, capacity: nat, retention: nat)
    ensures After(calls + [call], capacity, retention) == Called(After(calls, capacity, retention), call, capacity, retention)
  {
    assert (calls + [call])[..|calls|] == calls;
  }

  lemma AfterThree(a: Call, b: Call, c: Call, capacity: nat, retention: nat)
    ensures After([a, b, c], capacity, retention) ==
      Called(Called(Called(After([], capacity, retention), a, capacity, retention), b, capacity, retention), c, capacity, retention)
  {
    AfterOneMore([], a, capacity, retention);
    AfterOneMore([a], b, capacity, retention);
    AfterOneMore([a, b], c, capacity, retention);
    assert [] + [a] == [a] && [a] + [b] == [a, b] && [a, b] + [c] == [a, b, c];
  }

  lemma RoomForOne(first: Identity)
    ensures Revised(After([], 1, 30), [first], 1, 30, 100) == Ledger(Renewed(map[], {first}, 130), map[first := 130], ZERO_TIME, 100)
  {
    var l := After([], 1, 30);
    assert Unexpired(l.records, 100) == map[];
    ReviseOne(l, first, 1, 30, 100, map[]);
  }

  /** A full cache of capacity one opens an epoch for any other session. */
  lemma EpochOpens(l: Ledger, first: Identity, other: Identity, now: int)
    requires l.records == map[first := 130] && other != first && now < 130
    ensures Revised(l, [other], 1, 30, now) == Ledger(Renewed(l.ideal, {other}, now + 30), map[first := 130], now + 30, Later(l.clock, now))
  {
    assert Unexpired(l.records, now) == map[first := 130];
    ReviseOne(l, other, 1, 30, now, map[first := 130]);
  }

  // ---------------------------------------------------------------- the registered guards

  /** The revocation of a session, or of all sessions of a user, applies to this identity. */
  predicate Applies(user: nat, session: Option<nat>, id: Identity) {
    id.user == user && (session == None || session == Some(id.session))
  }

  function Affected(guards: set<Guard>, user: nat, session: Option<nat>, everyone: bool): set<Guard> {
    set g | g in guards && (everyone || Applies(user, session, g.identity))
  }

  /** Collects the keys of a revocation without duplicates, in any order: the one session, or every session of the
      user that is registered now. */
  method NamedKeys(guards: set<Guard>, user: nat, session: Option<nat>) returns (keys: seq<Identity>)
    ensures session.Some? ==> keys == [Identity(user, session.value)]
    ensures session.None? ==> forall id :: id in keys <==> id.user == user && exists g :: g in guards && g.identity == id
  {
    if session.Some? {
      return [Identity(user, session.value)];
    }
    keys := [];
    var seen: set<nat> := {};
    var pending := Affected(guards, user, None, false);
    while pending != {}
      invariant pending <= Affected(guards, user, None, false)
      invariant forall k :: k in keys <==> k.user == user && k.session in seen
      invariant forall g :: g in Affected(guards, user, None, false) - pending ==> g.identity.session in seen
      invariant forall q :: q in seen ==> exists g :: g in guards && g.identity == Identity(user, q)
      decreases |pending|
    {
      var g :| g in pending;
      pending := pending - {g};
      if g.identity.session !in seen {
        seen := seen + {g.identity.session};
        assert g.identity == Identity(user, g.identity.session);
        keys := keys + [Identity(user, g.identity.session)];
      }
    }
    forall id: Identity | id.user == user && exists g :: g in guards && g.identity == id ensures id in keys {
      var g :| g in guards && g.identity == id;
      assert g in Affected(guards, user, None, false);
    }
  }

  /** Revokes every guard of a snapshot, one at a time. */
  method RevokeAll(guards: set<Guard>)
    requires forall g :: g in guards ==> g.Valid()
    modifies guards
    ensures forall g :: g in guards ==> g.Valid() && g.revoked
  {
    var pending := guards;
    while pending != {}
      invariant pending <= guards
      invariant forall g :: g in guards ==> g.Valid() && (g in pending || g.revoked)
      decreases |pending|
    {
      var g :| g in pending;
      pending := pending - {g};
      g.Revoke();
    }
  }

  /** Prune, record the keys, and open a fail-closed epoch if they do not fit; `l` is the ledger before it and
      `l'` the one after it. */
  method Note(ghost l: Ledger, records: Records, until: int, keys: seq<Identity>, capacity: nat, retention: nat, now: int)
      returns (r: Records, u: int, failClosed: bool, ghost l': Ledger)
    requires records == l.records && until == l.until
    ensures l' == Revised(l, keys, capacity, retention, now) && r == l'.records && u == l'.until
    ensures failClosed <==> FailsClosed(l, keys, capacity, retention, now)
  {
    var kept := Prune(records, now);
    u := PrunedEpoch(until, now);
    r, failClosed := RecordKeys(kept, keys, capacity, Expiry(now, retention));
    if failClosed {
      u := Expiry(now, retention);
    }
    l' := Revised(l, keys, capacity, retention, now);
  }

  class Cache {
    const capacity: nat
    const retention: nat
    var records: Records
    // the guards of all users in one set
    var guards: set<Guard>
    var failClosedUntil: int
    // the registrations and revocations so far
    ghost var calls: seq<Call>

    /** The records and the epoch are those that the calls so far lead to. */
    ghost predicate Valid()
      reads this, guards
    {
      && 1 <= capacity && 1 <= retention && records == View().records && failClosedUntil == View().until
      && forall g :: g in guards ==> g.Valid()
    }

    /** The cache beside its ideal. */
    ghost function View(): Ledger
      reads this
    {
      After(calls, capacity, retention)
    }

    constructor (capacity: int, retention: int)
      ensures Valid() && guards == {} && calls == []
      ensures this.capacity == if capacity < 1 then 1 else capacity
      ensures this.retention == if retention <= 0 then DEFAULT_RETENTION else retention
    {
      this.capacity := if capacity < 1 then 1 else capacity;
      this.retention := if retention <= 0 then DEFAULT_RETENTION else retention;
      records := map[];
      guards := {};
      failClosedUntil := ZERO_TIME;
      calls := [];
    }

    method PruneLocked(now: nat)
      requires records == View().records && failClosedUntil == View().until
      modifies `records, `failClosedUntil, `calls
      ensures calls == old(calls) + [Registration(now)]
      ensures records == View().records && failClosedUntil == View().until
    {
      AfterOneMore(calls, Registration(now), capacity, retention);
      records := Prune(records, now);
      failClosedUntil := PrunedEpoch(failClosedUntil, now);
      calls := calls + [Registration(now)];
    }

    method Register(id: Identity, now: nat) returns (guard: Guard)
      requires Valid()
      modifies this
      ensures Valid() && calls == old(calls) + [Registration(now)]
      ensures fresh(guard) && guard.identity == id && guards == old(guards) + {guard}
      ensures guard.revoked <==> Denies(View(), id, now)
    {
      guard := new Guard(id);
      PruneLocked(now);
      guards := guards + {guard};
      if now < failClosedUntil || (id in records && now < records[id]) {
        guard.Revoke();
      }
    }

    method Unregister(guard: Guard)
      requires Valid()
      modifies `guards
      ensures Valid() && guards == old(guards) - {guard}
    {
      guards := guards - {guard};
    }

    /** The bookkeeping of a revocation, under the cache's mutex. */
    method RecordLocked(keys: seq<Identity>, now: nat) returns (failClosed: bool)
      requires records == View().records && failClosedUntil == View().until
      modifies `records, `failClosedUntil, `calls
      ensures calls == old(calls) + [Revocation(keys, now)]
      ensures records == View().records && failClosedUntil == View().until
      ensures failClosed <==> FailsClosed(old(View()), keys, capacity, retention, now)
    {
      ghost var after;
      AfterOneMore(calls, Revocation(keys, now), capacity, retention);
      records, failClosedUntil, failClosed, after := Note(View(), records, failClosedUntil, keys, capacity, retention, now);
      calls := calls + [Revocation(keys, now)];
    }

    method CloseGuards(user: nat, session: Option<nat>, everyone: bool)
      requires forall g :: g in guards ==> g.Valid()
      modifies guards
      ensures forall g :: g in guards ==> g.Valid()
      ensures forall g :: g in guards ==> (g.revoked <==> old(g.revoked) || everyone || Applies(user, session, g.identity))
    {
      RevokeAll(Affected(guards, user, session, everyone));
    }

    /** `keys` are the sessions it names, in the order in which they were met. */
    method Revoke(user: nat, session: Option<nat>, now: nat) returns (ghost keys: seq<Identity>)
      requires Valid()
      modifies this, guards
      ensures Valid() && guards == old(guards) && calls == old(calls) + [Revocation(keys, now)]
      // it names the one session, or every session of the user that is registered now
      ensures session.Some? ==> keys == [Identity(user, session.value)]
      ensures session.None? ==> forall id :: id in keys <==> id.user == user && exists g :: g in guards && g.identity == id
      // every matching socket is closed, and any other one only when the named sessions did not fit
      ensures forall g :: g in guards ==>
        (g.revoked <==>
          || old(g.revoked) || FailsClosed(old(View()), keys, capacity, retention, now)
          || (g.identity.user == user && (session.None? || session.value == g.identity.session)))
    {
      var order := NamedKeys(guards, user, session);
      keys := order;
      ghost var before := View();
      var failClosed := RecordLocked(order, now);
      assert failClosed <==> FailsClosed(before, keys, capacity, retention, now);
      CloseGuards(user, session, failClosed);
    }
  }

  /** A session that a user-wide or its own revocation names cannot come back: registered again in clock order and
      before one retention has passed, its new guard is revoked. */
  method Reconnect(cache: Cache, user: nat, session: Option<nat>, id: Identity, revokedAt: nat, now: nat) returns (guard: Guard)
    requires cache.Valid() && InOrder(cache.calls) && (forall j :: 0 <= j < |cache.calls| ==> cache.calls[j].now <= revokedAt)
    requires revokedAt <= now < revokedAt + cache.retention
    requires id.user == user && if session.Some? then session.value == id.session else exists g :: g in cache.guards && g.identity == id
    modifies cache, cache.guards
    ensures guard.identity == id && guard.revoked
  {
    ghost var before := cache.calls;
    ghost var keys := cache.Revoke(user, session, revokedAt);
    assert id in keys;
    guard := cache.Register(id, now);
    RevokedThenDenied(before, keys, id, revokedAt, now, cache.capacity, cache.retention);
  }

  lemma RevokedThenDenied(before: seq<Call>, keys: seq<Identity>, id: Identity, revokedAt: nat, now: nat, capacity: nat, retention: nat)
    requires InOrder(before) && (forall j :: 0 <= j < |before| ==> before[j].now <= revokedAt)
    requires id in keys && revokedAt <= now < revokedAt + retention
    ensures Denies(After(before + [Revocation(keys, revokedAt)] + [Registration(now)], capacity, retention), id, now)
  {
    var revoked := before + [Revocation(keys, revokedAt)];
    InOrderSnoc(before, Revocation(keys, revokedAt));
    InOrderSnoc(revoked, Registration(now));
    assert Revokes(revoked + [Registration(now)], |before|, id);
    RevokedSessionDenied(revoked + [Registration(now)], |before|, id, now, capacity, retention);
  }

  lemma InOrderSnoc(calls: seq<Call>, call: Call)
    requires InOrder(calls) && forall j :: 0 <= j < |calls| ==> calls[j].now <= call.now
    ensures InOrder(calls + [call])
    ensures forall j :: 0 <= j < |calls + [call]| ==> (calls + [call])[j].now <= call.now
  {
  }
}
