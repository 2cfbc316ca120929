/**
 * The readers/writer protocol of data/warehouse.py: advisory locks around
 * DuckDB connections, over workers that may time out or crash at any point.
 * PostgreSQL grants a lock at once when neither a holder nor an earlier waiter
 * conflicts, and queues the request otherwise.
 */
module WarehouseLocks {
  import opened Options

  // ----- the lock key ------------------------------------------------------------------

  type Byte = b: int | 0 <= b < 256
  /** A workspace id: the sixteen bytes of a UUID. */
  type OrgId = s: seq<Byte> | |s| == 16 witness seq(16, i => 0)

  function BigEndian(bytes: seq<Byte>): (n: nat)
    ensures n < Power256(|bytes|)
  {
    if |bytes| == 0 then 0
    else
      var n := |bytes| - 1;
      256 * BigEndian(bytes[..n]) + bytes[n]
  }

  function Power256(n: nat): (p: nat)
    ensures p > 0
  {
    if n == 0 then 1 else 256 * Power256(n - 1)
  }

  const TWO63 := 0x8000_0000_0000_0000
  const TWO64 := 0x1_0000_0000_0000_0000

  /** `int.from_bytes(org_id.bytes[:8], "big", signed=True)`. */
  function LockKey(org: OrgId): int {
    var n := BigEndian(org[..8]);
    if n < TWO63 then n else n - TWO64
  }

  lemma Power256Of8()
    ensures Power256(8) == TWO64
  {
    assert Power256(4) == 0x1_0000_0000;
    assert Power256(8) == 256 * (256 * (256 * (256 * Power256(4))));
  }

  lemma LastDigit(x: nat, p: Byte, y: nat, q: Byte)
    requires 256 * x + p == 256 * y + q
    ensures x == y && p == q
  {
  }

  lemma {:induction false} BigEndianInjective(a: seq<Byte>, b: seq<Byte>)
    requires |a| == |b| && BigEndian(a) == BigEndian(b)
    ensures a == b
  {
    if |a| != 0 {
      var n := |a| - 1;
      LastDigit(BigEndian(a[..n]), a[n], BigEndian(b[..n]), b[n]);
      BigEndianInjective(a[..n], b[..n]);
      assert a == a[..n] + [a[n]] && b == b[..n] + [b[n]];
    }
  }

  /** The key is a signed 64-bit number, and two workspaces share it exactly when their first eight bytes agree. */
  lemma LockKeysMeetExactlyWhen(a: OrgId, b: OrgId)
    ensures -TWO63 <= LockKey(a) < TWO63
    ensures LockKey(a) == LockKey(b) <==> a[..8] == b[..8]
  {
    Power256Of8();
    if LockKey(a) == LockKey(b) {
      BigEndianInjective(a[..8], b[..8]);
    }
  }

  // ----- workers, locks, files ------------------------------------------------------------

  type Org = nat
  datatype Grant = Grant(key: int, exclusive: bool)
  datatype Waiter = Waiter(w: nat, grant: Grant)

  datatype Phase =
    | Idle
    | Creating(org: Org, write: bool, sandboxed: bool)   // a read-write connection, outside any lock
    | Ready(org: Org, write: bool, sandboxed: bool)      // file seen; about to ask for the lock
    | Waiting(org: Org, write: bool)                     // its request is queued
    | Locked(org: Org, write: bool)                      // lock granted, not connected yet
    | Open(org: Org, write: bool, interrupted: bool)
    | Closed(org: Org, write: bool)                      // connection closed, transaction not ended yet
    | Dead                                               // process gone, its transaction not yet noticed

  /** `phases` has an entry for every worker that is not idle; `queue` holds the waiting requests of all keys. */
  datatype State = State(files: set<Org>, phases: map<nat, Phase>, grants: map<nat, Grant>, queue: seq<Waiter>)

  datatype Event =
    | Begin(w: nat, org: Org, write: bool, sandboxed: bool)
    | Created(w: nat)
    | Acquire(w: nat)
    | Wake(w: nat)           // a queued request comes to its turn
    | Connect(w: nat)
    | TimeOut(w: nat)
    | Close(w: nat)
    | EndTransaction(w: nat)
    | Crash(w: nat)
    | Notice(w: nat)

  function PhaseOf(s: State, w: nat): Phase {
    if w in s.phases then s.phases[w] else Idle
  }

  /** Shared locks go together; an exclusive one goes with nothing on its key. */
  predicate Conflict(a: Grant, b: Grant) {
    a.key == b.key && (a.exclusive || b.exclusive)
  }

  /** No holder conflicts, nor any of the first n waiters. */
  predicate Clear(grants: map<nat, Grant>, queue: seq<Waiter>, n: nat, wanted: Grant)
    requires n <= |queue|
  {
    && (forall v :: v in grants ==> !Conflict(grants[v], wanted))
    && forall i :: 0 <= i < n ==> !Conflict(queue[i].grant, wanted)
  }

  /** Where a worker's request stands in the queue, or the queue's length. */
  function PlaceOf(queue: seq<Waiter>, w: nat): (i: nat)
    ensures i <= |queue| && (i < |queue| ==> queue[i].w == w)
    ensures forall k :: 0 <= k < i ==> queue[k].w != w
  {
    if |queue| == 0 || queue[0].w == w then 0 else 1 + PlaceOf(queue[1..], w)
  }

  function Dropped(queue: seq<Waiter>, i: nat): seq<Waiter>
    requires i <= |queue|
  {
    if i == |queue| then queue else queue[..i] + queue[i + 1..]
  }

  function Apply(key: Org -> int, s: State, e: Event): State {
    match e
    case Begin(w, org, write, sandboxed) =>
      if PhaseOf(s, w) != Idle then s
      else if org in s.files then s.(phases := s.phases[w := Ready(org, write, sandboxed)])
      else s.(files := s.files + {org}, phases := s.phases[w := Creating(org, write, sandboxed)])
    case Created(w) =>
      (match PhaseOf(s, w)
       case Creating(org, write, sandboxed) => s.(phases := s.phases[w := Ready(org, write, sandboxed)])
       case _ => s)
    case Acquire(w) =>
      (match PhaseOf(s, w)
       case Ready(org, write, sandboxed) =>
         if sandboxed && write then s.(phases := s.phases - {w})
         else if Clear(s.grants, s.queue, |s.queue|, Grant(key(org), write)) then
           s.(phases := s.phases[w := Locked(org, write)], grants := s.grants[w := Grant(key(org), write)])
         else
           s.(phases := s.phases[w := Waiting(org, write)], queue := s.queue + [Waiter(w, Grant(key(org), write))])
       case _ => s)
    case Wake(w) =>
      var i := PlaceOf(s.queue, w);
      if i < |s.queue| && Clear(s.grants, s.queue, i, s.queue[i].grant) then
        // A dead worker's session is granted the lock too, until its death is noticed.
        s.(phases := Woken(s.phases, w), grants := s.grants[w := s.queue[i].grant], queue := Dropped(s.queue, i))
      else s
    case Connect(w) =>
      (match PhaseOf(s, w)
       case Locked(org, write) => s.(phases := s.phases[w := Open(org, write, false)])
       case _ => s)
    case TimeOut(w) =>
      // The query is interrupted; the connection stays open until the thread has unwound.
      (match PhaseOf(s, w)
       case Open(org, write, _) => s.(phases := s.phases[w := Open(org, write, true)])
       case _ => s)
    case Close(w) =>
      (match PhaseOf(s, w)
       case Open(org, write, _) => s.(phases := s.phases[w := Closed(org, write)])
       case _ => s)
    case EndTransaction(w) =>
      if PhaseOf(s, w).Closed? || PhaseOf(s, w).Locked? then s.(phases := s.phases - {w}, grants := s.grants - {w})
      else s
    case Crash(w) => s.(phases := s.phases[w := Dead])
    case Notice(w) =>
      if PhaseOf(s, w).Dead? then
        s.(phases := s.phases - {w}, grants := s.grants - {w}, queue := Dropped(s.queue, PlaceOf(s.queue, w)))
      else s
  }

  function Woken(phases: map<nat, Phase>, w: nat): map<nat, Phase> {
    if w in phases && phases[w].Waiting? then phases[w := Locked(phases[w].org, phases[w].write)] else phases
  }

  function After(key: Org -> int, start: State, events: seq<Event>): State {
    if |events| == 0 then start
    else Apply(key, After(key, start, events[..|events| - 1]), events[|events| - 1])
  }

  /** Nobody is doing anything yet. */
  ghost predicate AtRest(s: State) {
    s.phases == map[] && s.grants == map[] && s.queue == []
  }

  // ----- event by event -----------------------------------------------------------------------

  /** Nothing changed but one worker's phase. */
  ghost predicate OnlyPhase(s: State, t: State, w: nat, phase: Phase) {
    && t.files == s.files && t.grants == s.grants && t.queue == s.queue && PhaseOf(t, w) == phase
    && forall v :: v != w ==> PhaseOf(t, v) == PhaseOf(s, v)
  }

  /** Whoever finds the file missing creates it, on a connection of their own; everybody else is ready at once. */
  lemma BeginMeans(key: Org -> int, s: State, e: Event)
    requires e.Begin? && PhaseOf(s, e.w) == Idle
    ensures var t := Apply(key, s, e);
            && t.files == s.files + {e.org}
            && OnlyPhase(s.(files := t.files), t, e.w,
                         if e.org in s.files then Ready(e.org, e.write, e.sandboxed)
                         else Creating(e.org, e.write, e.sandboxed))
  {
  }

  /** A worker goes from creating to ready, from its lock to its connection and out; a deadline only marks it. */
  lemma ProgressMeans(key: Org -> int, s: State, e: Event)
    requires e.Created? || e.Connect? || e.TimeOut? || e.Close?
    ensures var t, p := Apply(key, s, e), PhaseOf(s, e.w);
            && (e.Created? && p.Creating? ==> OnlyPhase(s, t, e.w, Ready(p.org, p.write, p.sandboxed)))
            && (e.Connect? && p.Locked? ==> OnlyPhase(s, t, e.w, Open(p.org, p.write, false)))
            && (e.TimeOut? && p.Open? ==> OnlyPhase(s, t, e.w, Open(p.org, p.write, true)))
            && (e.Close? && p.Open? ==> OnlyPhase(s, t, e.w, Closed(p.org, p.write)))
            && (!(e.Created? && p.Creating?) && !(e.Connect? && p.Locked?) && !((e.TimeOut? || e.Close?) && p.Open?) ==>
                  t == s)
  {
  }

  /** The end of a transaction gives the lock back; so does the database's noticing that a session is gone. */
  lemma ReleaseMeans(key: Org -> int, s: State, e: Event)
    requires Inv(key, s)
    requires (e.EndTransaction? && (PhaseOf(s, e.w).Closed? || PhaseOf(s, e.w).Locked?))
             || (e.Notice? && PhaseOf(s, e.w).Dead?)
    ensures var t := Apply(key, s, e);
            && t.files == s.files && PhaseOf(t, e.w) == Idle && t.grants == s.grants - {e.w}
            && (forall v :: v != e.w ==> PhaseOf(t, v) == PhaseOf(s, v))
            && (forall v :: Queued(t.queue, v) <==> Queued(s.queue, v) && v != e.w)
  {
    var t := Apply(key, s, e);
    assert HoldsItsLock(key, s, e.w);
    if Queued(s.queue, e.w) {
      QueuedPhase(key, s, e.w);
    }
    forall v
      ensures Queued(t.queue, v) <==> Queued(s.queue, v) && v != e.w
    {
      var i := PlaceOf(s.queue, e.w);
      DroppedIsGone(s.queue, i);
      if i < |s.queue| && v != e.w {
        DropKeepsTheRest(s.queue, i, v);
      }
    }
  }

  /** A crash takes the worker out wherever it is; its lock and its place in the queue stay until noticed. */
  lemma CrashMeans(key: Org -> int, s: State, w: nat)
    ensures OnlyPhase(s, Apply(key, s, Crash(w)), w, Dead)
  {
  }

  // ----- what DuckDB needs ------------------------------------------------------------------

  predicate Connected(p: Phase, org: Org) {
    (p.Open? || p.Creating?) && p.org == org
  }

  predicate ReadWrite(p: Phase) {
    p.Creating? || (p.Open? && p.write)
  }

  /** A read-write connection to the workspace excludes every other connection to it. */
  ghost predicate Exclusive(s: State, org: Org) {
    forall v, w :: v != w && Connected(PhaseOf(s, v), org) && Connected(PhaseOf(s, w), org) ==>
      !ReadWrite(PhaseOf(s, v))
  }

  /** Every connection to the workspace lies inside its worker's lock, in the right mode. */
  ghost predicate InsideLock(key: Org -> int, s: State, org: Org) {
    forall w :: Connected(PhaseOf(s, w), org) ==>
      w in s.grants && s.grants[w] == Grant(key(org), ReadWrite(PhaseOf(s, w)))
  }

  // ----- the invariant ------------------------------------------------------------------------

  ghost predicate HoldsItsLock(key: Org -> int, s: State, w: nat) {
    match PhaseOf(s, w)
    case Locked(org, write) => w in s.grants && s.grants[w] == Grant(key(org), write)
    case Open(org, write, _) => w in s.grants && s.grants[w] == Grant(key(org), write)
    case Closed(org, write) => w in s.grants && s.grants[w] == Grant(key(org), write)
    case Dead => true
    case _ => w !in s.grants
  }

  ghost predicate GrantsCompatible(grants: map<nat, Grant>) {
    forall v, w :: v in grants && w in grants && v != w ==> !Conflict(grants[v], grants[w])
  }

  ghost predicate Queued(queue: seq<Waiter>, w: nat) {
    exists i :: 0 <= i < |queue| && queue[i].w == w
  }

  /** The queue holds the waiting workers' requests, and perhaps dead ones', each once. */
  ghost predicate QueueInv(key: Org -> int, s: State) {
    && (forall i, j :: 0 <= i < j < |s.queue| ==> s.queue[i].w != s.queue[j].w)
    && (forall i :: 0 <= i < |s.queue| ==>
          && s.queue[i].w !in s.grants
          && match PhaseOf(s, s.queue[i].w)
             case Waiting(org, write) => s.queue[i].grant == Grant(key(org), write)
             case Dead => true
             case _ => false)
    && forall w :: PhaseOf(s, w).Waiting? ==> Queued(s.queue, w)
  }

  ghost predicate Inv(key: Org -> int, s: State) {
    && GrantsCompatible(s.grants)
    && (forall w :: HoldsItsLock(key, s, w))
    && QueueInv(key, s)
  }

  ghost predicate NobodyCreates(s: State, org: Org) {
    org in s.files && forall w :: PhaseOf(s, w).Creating? ==> PhaseOf(s, w).org != org
  }

  /** A request leaves the queue: the others keep their places. */
  lemma DropKeepsTheRest(queue: seq<Waiter>, i: nat, w: nat)
    requires i < |queue| && queue[i].w != w
    ensures Queued(Dropped(queue, i), w) <==> Queued(queue, w)
  {
    var rest := Dropped(queue, i);
    if k :| 0 <= k < |queue| && queue[k].w == w {
      assert rest[if k < i then k else k - 1].w == w;
    }
  }

  /** A step concerns one worker. */
  ghost predicate OthersSame(s: State, t: State, w: nat) {
    forall v :: v != w ==>
      && PhaseOf(t, v) == PhaseOf(s, v) && (v in t.grants <==> v in s.grants)
      && (v in s.grants ==> t.grants[v] == s.grants[v])
  }

  lemma QueuedPhase(key: Org -> int, s: State, w: nat)
    requires QueueInv(key, s) && Queued(s.queue, w)
    ensures w !in s.grants && (PhaseOf(s, w).Waiting? || PhaseOf(s, w).Dead?)
    ensures PhaseOf(s, w).Waiting? ==>
              s.queue[PlaceOf(s.queue, w)].grant == Grant(key(PhaseOf(s, w).org), PhaseOf(s, w).write)
  {
    assert PlaceOf(s.queue, w) < |s.queue|;
  }

  lemma JoinKeepsQueue(key: Org -> int, s: State, t: State, w: nat, grant: Grant)
    requires QueueInv(key, s) && OthersSame(s, t, w) && !Queued(s.queue, w) && w !in t.grants
    requires t.queue == s.queue + [Waiter(w, grant)]
    requires PhaseOf(t, w).Waiting? && grant == Grant(key(PhaseOf(t, w).org), PhaseOf(t, w).write)
    ensures QueueInv(key, t)
  {
    hide PhaseOf;
    assert t.queue[|s.queue|].w == w;
    forall v | PhaseOf(t, v).Waiting?
      ensures Queued(t.queue, v)
    {
      if v != w {
        var i :| 0 <= i < |s.queue| && s.queue[i].w == v;
        assert t.queue[i].w == v;
      }
    }
  }

  lemma LeaveKeepsQueue(key: Org -> int, s: State, t: State, w: nat)
    requires QueueInv(key, s) && OthersSame(s, t, w)
    requires t.queue == Dropped(s.queue, PlaceOf(s.queue, w)) && !PhaseOf(t, w).Waiting?
    ensures QueueInv(key, t)
  {
    hide PhaseOf;
    var i := PlaceOf(s.queue, w);
    hide PlaceOf;
    forall k | 0 <= k < |t.queue|
      ensures t.queue[k] == s.queue[if k < i then k else k + 1] && t.queue[k].w != w
    {
    }
    forall v | PhaseOf(t, v).Waiting?
      ensures Queued(t.queue, v)
    {
      if i < |s.queue| {
        DropKeepsTheRest(s.queue, i, v);
      }
    }
  }

  lemma StayKeepsQueue(key: Org -> int, s: State, t: State, w: nat)
    requires QueueInv(key, s) && OthersSame(s, t, w) && t.queue == s.queue
    requires Queued(s.queue, w) ==> w !in t.grants && (PhaseOf(t, w) == PhaseOf(s, w) || PhaseOf(t, w).Dead?)
    requires PhaseOf(t, w).Waiting? ==> PhaseOf(s, w).Waiting?
    ensures QueueInv(key, t)
  {
    hide PhaseOf;
  }

  lemma StepConcernsOne(key: Org -> int, s: State, e: Event)
    ensures OthersSame(s, Apply(key, s, e), e.w)
  {
    hide PlaceOf;
    hide Dropped;
    hide Clear;
  }

  ghost predicate Stays(s: State, t: State, w: nat) {
    && t.queue == s.queue
    && (PhaseOf(t, w).Waiting? ==> PhaseOf(s, w).Waiting?)
    && (PhaseOf(s, w).Waiting? || PhaseOf(s, w).Dead? ==>
          (w in t.grants ==> w in s.grants) && PhaseOf(t, w) in {PhaseOf(s, w), Dead})
  }

  ghost predicate Joins(key: Org -> int, s: State, t: State, w: nat) {
    && PhaseOf(s, w).Ready? && PhaseOf(t, w).Waiting? && t.grants == s.grants
    && t.queue == s.queue + [Waiter(w, Grant(key(PhaseOf(t, w).org), PhaseOf(t, w).write))]
  }

  ghost predicate Leaves(s: State, t: State, w: nat) {
    t.queue == Dropped(s.queue, PlaceOf(s.queue, w)) && !PhaseOf(t, w).Waiting?
  }

  lemma StaysJoinsOrLeaves(key: Org -> int, s: State, e: Event)
    ensures var t := Apply(key, s, e);
            Stays(s, t, e.w) || Joins(key, s, t, e.w) || Leaves(s, t, e.w)
  {
    hide Clear;
  }

  lemma StepKeepsQueue(key: Org -> int, s: State, e: Event)
    requires Inv(key, s)
    ensures QueueInv(key, Apply(key, s, e))
  {
    var w, t := e.w, Apply(key, s, e);
    StepConcernsOne(key, s, e);
    StaysJoinsOrLeaves(key, s, e);
    assert HoldsItsLock(key, s, w);
    if Queued(s.queue, w) {
      QueuedPhase(key, s, w);
    }
    hide Apply;
    hide QueueInv;
    hide OthersSame;
    hide Queued;
    hide PhaseOf;
    if Leaves(s, t, w) {
      LeaveKeepsQueue(key, s, t, w);
    } else if Stays(s, t, w) {
      StayKeepsQueue(key, s, t, w);
    } else {
      JoinKeepsQueue(key, s, t, w, Grant(key(PhaseOf(t, w).org), PhaseOf(t, w).write));
    }
  }

  lemma StepKeepsLocks(key: Org -> int, s: State, e: Event)
    requires Inv(key, s)
    ensures var t := Apply(key, s, e);
            GrantsCompatible(t.grants) && forall w :: HoldsItsLock(key, t, w)
  {
    StepConcernsOne(key, s, e);
    StepKeepsOwnLock(key, s, e);
    StepKeepsCompatible(key, s, e);
    var t := Apply(key, s, e);
    forall w
      ensures HoldsItsLock(key, t, w)
    {
      hide Apply;
      hide QueueInv;
      hide PhaseOf;
      assert HoldsItsLock(key, s, w);
    }
  }

  lemma StepKeepsOwnLock(key: Org -> int, s: State, e: Event)
    requires Inv(key, s)
    ensures HoldsItsLock(key, Apply(key, s, e), e.w)
  {
    assert HoldsItsLock(key, s, e.w);
    if Queued(s.queue, e.w) {
      QueuedPhase(key, s, e.w);
    }
    hide QueueInv;
    hide PlaceOf;
    hide Dropped;
    hide Clear;
  }

  lemma StepKeepsCompatible(key: Org -> int, s: State, e: Event)
    requires Inv(key, s)
    ensures GrantsCompatible(Apply(key, s, e).grants)
  {
    hide QueueInv;
    hide HoldsItsLock;
    hide PlaceOf;
    hide Dropped;
    hide PhaseOf;
  }

  lemma StepKeepsInv(key: Org -> int, s: State, e: Event)
    requires Inv(key, s)
    ensures Inv(key, Apply(key, s, e))
  {
    StepKeepsLocks(key, s, e);
    StepKeepsQueue(key, s, e);
    hide *;
    InvFromParts(key, Apply(key, s, e));
  }

  lemma InvFromParts(key: Org -> int, s: State)
    requires GrantsCompatible(s.grants) && (forall w :: HoldsItsLock(key, s, w)) && QueueInv(key, s)
    ensures Inv(key, s)
  {
    hide GrantsCompatible;
    hide HoldsItsLock;
    hide QueueInv;
  }

  lemma StepKeepsFile(key: Org -> int, s: State, e: Event, org: Org)
    requires NobodyCreates(s, org)
    ensures NobodyCreates(Apply(key, s, e), org)
  {
    var t := Apply(key, s, e);
    forall w | PhaseOf(t, w).Creating?
      ensures PhaseOf(t, w).org != org
    {
      assert PhaseOf(s, w).Creating? ==> PhaseOf(s, w).org != org;
    }
  }

  lemma {:induction false} EveryRunKeepsInv(key: Org -> int, start: State, events: seq<Event>)
    requires AtRest(start)
    ensures Inv(key, After(key, start, events))
  {
    if |events| != 0 {
      EveryRunKeepsInv(key, start, events[..|events| - 1]);
      StepKeepsInv(key, After(key, start, events[..|events| - 1]), events[|events| - 1]);
    }
  }

  lemma {:induction false} EveryRunKeepsFile(key: Org -> int, start: State, events: seq<Event>, org: Org)
    requires AtRest(start) && org in start.files
    ensures NobodyCreates(After(key, start, events), org)
  {
    if |events| != 0 {
      EveryRunKeepsFile(key, start, events[..|events| - 1], org);
      StepKeepsFile(key, After(key, start, events[..|events| - 1]), events[|events| - 1], org);
    }
  }

  // ----- safety -----------------------------------------------------------------------------------

  lemma InvGivesSafety(key: Org -> int, s: State, org: Org)
    requires Inv(key, s) && NobodyCreates(s, org)
    ensures InsideLock(key, s, org) && Exclusive(s, org)
  {
    forall w | Connected(PhaseOf(s, w), org)
      ensures w in s.grants && s.grants[w] == Grant(key(org), ReadWrite(PhaseOf(s, w)))
    {
      assert HoldsItsLock(key, s, w);
    }
  }

  /**
   * For a workspace whose file exists, whatever the interleaving, the timeouts,
   * the crashes and the collisions of the key function: every connection lies
   * inside its lock, and a read-write one is alone.
   */
  lemma ConnectionsAreSafe(key: Org -> int, start: State, events: seq<Event>, org: Org)
    requires AtRest(start) && org in start.files
    ensures InsideLock(key, After(key, start, events), org)
    ensures Exclusive(After(key, start, events), org)
  {
    EveryRunKeepsInv(key, start, events);
    EveryRunKeepsFile(key, start, events, org);
    InvGivesSafety(key, After(key, start, events), org);
  }

  /** The first opener creates the file outside the lock; a second worker can connect meanwhile. */
  function CreationRace(org: Org): seq<Event> {
    [Begin(0, org, false, false), Begin(1, org, false, false), Acquire(1), Connect(1)]
  }

  lemma CreationIsNotExclusive(key: Org -> int, start: State, org: Org)
    requires AtRest(start) && org !in start.files
    ensures !Exclusive(After(key, start, CreationRace(org)), org)
  {
    var q := CreationRace(org);
    assert q[..3][..2] == q[..2] && q[..2][..1] == q[..1] && q[..1][..0] == [];
    assert After(key, start, q[..0]) == start;
    var s1 := After(key, start, q[..1]);
    assert q[..1][|q[..1]| - 1] == q[0];
    assert s1 == Apply(key, start, q[0]);
    var s2 := After(key, start, q[..2]);
    assert s2 == Apply(key, s1, q[1]);
    var s3 := After(key, start, q[..3]);
    assert s3 == Apply(key, s2, q[2]);
    var s4 := After(key, start, q);
    assert s4 == Apply(key, s3, q[3]);
    assert PhaseOf(s4, 0) == Creating(org, false, false);
    assert PhaseOf(s4, 1) == Open(org, false, false);
  }

  ghost predicate ExclusiveInEveryRun(key: Org -> int, start: State, org: Org) {
    forall events: seq<Event> :: Exclusive(After(key, start, events), org)
  }

  /** So exclusion holds over all runs exactly for the workspaces whose file is already there. */
  lemma SafeExactlyWhenTheFileExists(key: Org -> int, start: State, org: Org)
    requires AtRest(start)
    ensures ExclusiveInEveryRun(key, start, org) <==> org in start.files
  {
    if org in start.files {
      forall events: seq<Event>
        ensures Exclusive(After(key, start, events), org)
      {
        ConnectionsAreSafe(key, start, events, org);
      }
    } else {
      CreationIsNotExclusive(key, start, org);
    }
  }

  /** A sandboxed write is refused when it comes to the lock: it never holds one. */
  lemma SandboxedWriteIsRefused(key: Org -> int, s: State, w: nat)
    requires Inv(key, s) && PhaseOf(s, w).Ready? && PhaseOf(s, w).sandboxed && PhaseOf(s, w).write
    ensures var t := Apply(key, s, Acquire(w));
            PhaseOf(t, w) == Idle && t.grants == s.grants && w !in t.grants
  {
    assert HoldsItsLock(key, s, w);
  }

  /** On its way to a sandboxed write, refused, or gone. */
  ghost predicate NeverLocking(s: State, w: nat) {
    && w !in s.grants && !Queued(s.queue, w)
    && match PhaseOf(s, w)
       case Creating(_, write, sandboxed) => write && sandboxed
       case Ready(_, write, sandboxed) => write && sandboxed
       case Idle => true
       case Dead => true
       case _ => false
  }

  lemma NeverLockingStays(key: Org -> int, s: State, e: Event, w: nat)
    requires NeverLocking(s, w) && !(e.Begin? && e.w == w)
    ensures NeverLocking(Apply(key, s, e), w)
  {
    var t := Apply(key, s, e);
    if e.w != w {
      StepConcernsOne(key, s, e);
    }
    assert PlaceOf(s.queue, w) == |s.queue|;
    forall j | 0 <= j < |t.queue| && e.w != w
      ensures t.queue[j].w != w
    {
      assert t.queue[j] in s.queue || t.queue[j].w == e.w;
    }
  }

  /** A worker that set out on a sandboxed write holds no lock at any later time, until it begins anew. */
  lemma {:induction false} SandboxedWritesNeverLock(key: Org -> int, s: State, events: seq<Event>, w: nat)
    requires NeverLocking(s, w)
    requires forall k :: 0 <= k < |events| ==> !(events[k].Begin? && events[k].w == w)
    ensures NeverLocking(After(key, s, events), w)
  {
    hide NeverLocking;
    hide Apply;
    if |events| != 0 {
      SandboxedWritesNeverLock(key, s, events[..|events| - 1], w);
      NeverLockingStays(key, After(key, s, events[..|events| - 1]), events[|events| - 1], w);
    }
  }

  // ----- no lock outlives its worker ----------------------------------------------------------------

  /** Every lock is held by a worker between its grant and its transaction's end, or by a dead one. */
  lemma LocksHaveOwners(key: Org -> int, start: State, events: seq<Event>, w: nat)
    requires AtRest(start) && w in After(key, start, events).grants
    ensures var p := PhaseOf(After(key, start, events), w);
            p.Locked? || p.Open? || p.Closed? || p.Dead?
  {
    EveryRunKeepsInv(key, start, events);
    assert HoldsItsLock(key, After(key, start, events), w);
  }

  /** A crash leaves no lock: once its transaction is gone, the worker holds nothing and others proceed. */
  lemma CrashReleases(key: Org -> int, start: State, events: seq<Event>, w: nat)
    requires AtRest(start)
    ensures var crashed := Apply(key, After(key, start, events), Crash(w));
            var s := Apply(key, crashed, Notice(w));
            && (forall org :: !Connected(PhaseOf(crashed, w), org))
            && PhaseOf(s, w) == Idle && w !in s.grants && !Queued(s.queue, w)
            && (forall v :: v != w ==> PhaseOf(s, v) == PhaseOf(After(key, start, events), v))
            && Inv(key, s)
  {
    EveryRunKeepsInv(key, start, events);
    StepKeepsInv(key, After(key, start, events), Crash(w));
    StepKeepsInv(key, Apply(key, After(key, start, events), Crash(w)), Notice(w));
  }

  // ----- who waits for whom -------------------------------------------------------------------------

  /** The holders and the first n waiters that a request conflicts with. */
  ghost function Blockers(s: State, wanted: Grant, n: nat): set<nat>
    requires n <= |s.queue|
  {
    (set v | v in s.grants && Conflict(s.grants[v], wanted))
    + (set i | 0 <= i < n && Conflict(s.queue[i].grant, wanted) :: s.queue[i].w)
  }

  lemma ClearExactlyWithoutBlockers(s: State, wanted: Grant, n: nat)
    requires n <= |s.queue|
    ensures Clear(s.grants, s.queue, n, wanted) <==> Blockers(s, wanted, n) == {}
  {
    if !Clear(s.grants, s.queue, n, wanted) {
      if v :| v in s.grants && Conflict(s.grants[v], wanted) {
        assert v in Blockers(s, wanted, n);
      } else {
        var i :| 0 <= i < n && Conflict(s.queue[i].grant, wanted);
        assert s.queue[i].w in Blockers(s, wanted, n);
      }
    }
  }

  /** Whoever asks gets in at once exactly when no holder and nobody queued conflicts; else it queues last. */
  lemma AskersGetIn(key: Org -> int, s: State, w: nat)
    requires Inv(key, s)
    requires PhaseOf(s, w).Ready? && !(PhaseOf(s, w).sandboxed && PhaseOf(s, w).write)
    ensures var p, t := PhaseOf(s, w), Apply(key, s, Acquire(w));
            if Blockers(s, Grant(key(p.org), p.write), |s.queue|) == {} then PhaseOf(t, w) == Locked(p.org, p.write)
            else PhaseOf(t, w) == Waiting(p.org, p.write) && PlaceOf(t.queue, w) == |s.queue|
  {
    var p, t := PhaseOf(s, w), Apply(key, s, Acquire(w));
    ClearExactlyWithoutBlockers(s, Grant(key(p.org), p.write), |s.queue|);
    if Queued(s.queue, w) {
      QueuedPhase(key, s, w);
    }
    if PhaseOf(t, w).Waiting? {
      PlaceIs(t.queue, w, |s.queue|);
    }
  }

  ghost function BlockersOf(s: State, w: nat): set<nat>
    requires Queued(s.queue, w)
  {
    var i := PlaceOf(s.queue, w);
    Blockers(s, s.queue[i].grant, i)
  }

  /** And whoever waits gets in exactly when no holder conflicts any more, nor a waiter ahead. */
  lemma WaitersGetIn(key: Org -> int, s: State, w: nat)
    requires Inv(key, s) && PhaseOf(s, w).Waiting?
    ensures Queued(s.queue, w)
    ensures var p, t := PhaseOf(s, w), Apply(key, s, Wake(w));
            PhaseOf(t, w) == if BlockersOf(s, w) == {} then Locked(p.org, p.write) else p
  {
    var i := PlaceOf(s.queue, w);
    ClearExactlyWithoutBlockers(s, s.queue[i].grant, i);
  }

  lemma PlaceIs(queue: seq<Waiter>, w: nat, k: nat)
    requires k < |queue| && queue[k].w == w && forall j :: 0 <= j < k ==> queue[j].w != w
    ensures PlaceOf(queue, w) == k && Queued(queue, w)
  {
    hide PlaceOf;
  }

  /** The waiters ahead of one that stays, after another request joined at the end or left. */
  lemma AheadAfterJoin(queue: seq<Waiter>, q: Waiter, w: nat)
    requires Queued(queue, w)
    ensures PlaceOf(queue + [q], w) == PlaceOf(queue, w)
  {
    var k := PlaceOf(queue, w);
    hide PlaceOf;
    PlaceIs(queue + [q], w, k);
  }

  lemma AheadAfterDrop(queue: seq<Waiter>, d: nat, w: nat)
    requires forall i, j :: 0 <= i < j < |queue| ==> queue[i].w != queue[j].w
    requires d <= |queue| && Queued(queue, w) && Queued(Dropped(queue, d), w)
    ensures var rest, k := Dropped(queue, d), PlaceOf(queue, w);
            && rest[PlaceOf(rest, w)] == queue[k]
            && forall j :: 0 <= j < PlaceOf(rest, w) ==> exists m :: 0 <= m < k && queue[m] == rest[j]
  {
    var rest, k := Dropped(queue, d), PlaceOf(queue, w);
    hide PlaceOf;
    forall j | 0 <= j < |rest|
      ensures rest[j] == queue[if j < d then j else j + 1]
    {
    }
    hide Dropped;
    var j :| 0 <= j < |rest| && rest[j].w == w;
    assert k == if j < d then j else j + 1;
    PlaceIs(rest, w, j);
  }

  /** What a new holder was: granted on asking, or on coming to its turn. */
  ghost predicate ComesIn(s: State, t: State, x: nat)
    requires x in t.grants
  {
    || Clear(s.grants, s.queue, |s.queue|, t.grants[x])
    || var i := PlaceOf(s.queue, x);
       && i < |s.queue| && t.grants[x] == s.queue[i].grant
       && Clear(s.grants, s.queue, i, t.grants[x]) && t.queue == Dropped(s.queue, i)
  }

  lemma NewHolderComesIn(key: Org -> int, s: State, e: Event, x: nat)
    requires var t := Apply(key, s, e); x in t.grants && (x !in s.grants || t.grants[x] != s.grants[x])
    ensures ComesIn(s, Apply(key, s, e), x)
  {
    hide PlaceOf;
    hide Dropped;
    hide Clear;
  }

  /** The waiters ahead of w afterwards were ahead of it before, and w wants what it wanted. */
  ghost predicate NobodyPushesIn(s: State, t: State, w: nat)
    requires Queued(s.queue, w) && Queued(t.queue, w)
  {
    var i, k := PlaceOf(s.queue, w), PlaceOf(t.queue, w);
    && t.queue[k] == s.queue[i]
    && forall j :: 0 <= j < k ==> exists m :: 0 <= m < i && s.queue[m] == t.queue[j]
  }

  lemma QueueIsFair(key: Org -> int, s: State, e: Event, w: nat)
    requires QueueInv(key, s) && Queued(s.queue, w) && Queued(Apply(key, s, e).queue, w)
    ensures NobodyPushesIn(s, Apply(key, s, e), w)
  {
    var t := Apply(key, s, e);
    StaysJoinsOrLeaves(key, s, e);
    hide Apply;
    hide PhaseOf;
    if Leaves(s, t, e.w) {
      AheadAfterDrop(s.queue, PlaceOf(s.queue, e.w), w);
    } else if Joins(key, s, t, e.w) {
      AheadAfterJoin(s.queue, t.queue[|s.queue|], w);
    }
  }

  /** While a request waits, nobody new comes to stand in its way. */
  lemma BlockersShrinkAStep(key: Org -> int, s: State, e: Event, w: nat)
    requires Inv(key, s) && Queued(s.queue, w) && Queued(Apply(key, s, e).queue, w)
    ensures BlockersOf(Apply(key, s, e), w) <= BlockersOf(s, w)
  {
    var t := Apply(key, s, e);
    QueueIsFair(key, s, e, w);
    forall x | x in t.grants && Conflict(t.grants[x], t.queue[PlaceOf(t.queue, w)].grant)
      ensures x in BlockersOf(s, w)
    {
      if x !in s.grants || t.grants[x] != s.grants[x] {
        NewHolderComesIn(key, s, e, x);
        NewHolderWasAhead(s, t, w, x);
      }
    }
    hide Apply;
    hide Inv;
    hide PlaceOf;
    hide Conflict;
  }

  lemma NewHolderWasAhead(s: State, t: State, w: nat, x: nat)
    requires forall i, j :: 0 <= i < j < |s.queue| ==> s.queue[i].w != s.queue[j].w
    requires Queued(s.queue, w) && Queued(t.queue, w) && x in t.grants
    requires ComesIn(s, t, x) && Conflict(t.grants[x], s.queue[PlaceOf(s.queue, w)].grant)
    ensures x in BlockersOf(s, w)
  {
    var i, k := PlaceOf(s.queue, x), PlaceOf(s.queue, w);
    hide PlaceOf;
    assert Conflict(s.queue[k].grant, t.grants[x]);
    DroppedIsGone(s.queue, i);
  }

  lemma DroppedIsGone(queue: seq<Waiter>, i: nat)
    requires forall i, j :: 0 <= i < j < |queue| ==> queue[i].w != queue[j].w
    requires i <= |queue|
    ensures i < |queue| ==> !Queued(Dropped(queue, i), queue[i].w)
  {
  }

  /**
   * No starvation: from the moment a request is queued until it leaves the queue,
   * the holders and waiters it has to wait for only ever get fewer.
   */
  lemma {:induction false} BlockersOnlyShrink(key: Org -> int, start: State, events: seq<Event>, w: nat, n: nat)
    requires AtRest(start) && n <= |events|
    requires forall k :: n <= k <= |events| ==> Queued(After(key, start, events[..k]).queue, w)
    ensures Queued(After(key, start, events).queue, w)
    ensures BlockersOf(After(key, start, events), w) <= BlockersOf(After(key, start, events[..n]), w)
  {
    hide *;
    assert events[..|events|] == events;
    if n < |events| {
      var m := |events| - 1;
      var front := events[..m];
      assert forall k :: n <= k <= m ==> front[..k] == events[..k];
      BlockersOnlyShrink(key, start, front, w, n);
      EveryRunKeepsInv(key, start, front);
      LastStep(key, start, events);
      BlockersShrinkAStep(key, After(key, start, front), events[m], w);
    }
  }

  lemma LastStep(key: Org -> int, start: State, events: seq<Event>)
    requires |events| > 0
    ensures After(key, start, events) == Apply(key, After(key, start, events[..|events| - 1]), events[|events| - 1])
  {
  }

  lemma {:induction false} AfterInTurn(key: Org -> int, s: State, a: seq<Event>, b: seq<Event>)
    ensures After(key, s, a + b) == After(key, After(key, s, a), b)
  {
    hide Apply;
    if |b| == 0 {
      assert a + b == a;
    } else {
      AfterInTurn(key, s, a, b[..|b| - 1]);
      assert (a + b)[..|a + b| - 1] == a + b[..|b| - 1];
    }
  }

  /** Finishing, the database noticing a dead session, and a request coming to its turn: what needs nobody's leave. */
  predicate Winding(e: Event) {
    e.Close? || e.EndTransaction? || e.Notice? || e.Wake?
  }

  lemma HolderFinishes(key: Org -> int, s: State, v: nat) returns (events: seq<Event>)
    requires Inv(key, s) && v in s.grants
    ensures forall k :: 0 <= k < |events| ==> Winding(events[k])
    ensures var t := After(key, s, events);
            && t.grants == s.grants - {v} && t.queue == s.queue && Inv(key, t)
            && forall w :: w != v ==> PhaseOf(t, w) == PhaseOf(s, w)
    ensures !Queued(s.queue, v)
  {
    assert HoldsItsLock(key, s, v);
    if PhaseOf(s, v).Open? {
      events := [Close(v), EndTransaction(v)];
      assert events[..1] == [Close(v)] && events[..1][..0] == [];
      StepKeepsInv(key, s, Close(v));
      assert After(key, s, events[..1]) == Apply(key, s, Close(v));
      StepKeepsInv(key, Apply(key, s, Close(v)), EndTransaction(v));
    } else {
      var e := if PhaseOf(s, v).Dead? then Notice(v) else EndTransaction(v);
      events := [e];
      assert events[..0] == [];
      StepKeepsInv(key, s, e);
    }
  }

  lemma {:induction false} HoldersFinish(key: Org -> int, s: State) returns (events: seq<Event>)
    requires Inv(key, s)
    ensures forall k :: 0 <= k < |events| ==> Winding(events[k])
    ensures var t := After(key, s, events);
            && t.grants == map[] && t.queue == s.queue && Inv(key, t)
            && forall w :: Queued(s.queue, w) ==> PhaseOf(t, w) == PhaseOf(s, w)
    decreases |s.grants|
  {
    if s.grants == map[] {
      events := [];
    } else {
      var v :| v in s.grants;
      var first := HolderFinishes(key, s, v);
      var t := After(key, s, first);
      hide After;
      hide Inv;
      assert t.grants.Keys == s.grants.Keys - {v};
      var rest := HoldersFinish(key, t);
      AfterInTurn(key, s, first, rest);
      events := first + rest;
    }
  }

  lemma AndThen(key: Org -> int, s: State, events: seq<Event>, e: Event)
    ensures After(key, s, events + [e]) == Apply(key, After(key, s, events), e)
  {
    assert (events + [e])[..|events|] == events;
  }

  /** With nobody holding anything, the head of the queue is granted. */
  lemma HeadGetsIn(key: Org -> int, s: State, w: nat)
    requires Inv(key, s) && s.grants == map[] && Queued(s.queue, w) && PhaseOf(s, w).Waiting?
    ensures |s.queue| > 0
    ensures var t := Apply(key, s, Wake(s.queue[0].w));
            && Inv(key, t) && t.queue == s.queue[1..]
            && if s.queue[0].w == w then PhaseOf(t, w) == Locked(PhaseOf(s, w).org, PhaseOf(s, w).write)
               else PhaseOf(t, w) == PhaseOf(s, w) && Queued(t.queue, w)
  {
    var h := s.queue[0].w;
    assert PlaceOf(s.queue, h) == 0;
    StepKeepsInv(key, s, Wake(h));
    if h != w {
      DropKeepsTheRest(s.queue, 0, w);
    }
  }

  /** The queue moves up until it is a waiter's turn. */
  lemma {:induction false} QueueMovesUp(key: Org -> int, s: State, w: nat) returns (events: seq<Event>)
    requires Inv(key, s) && Queued(s.queue, w) && PhaseOf(s, w).Waiting?
    ensures forall k :: 0 <= k < |events| ==> Winding(events[k])
    ensures PhaseOf(After(key, s, events), w) == Locked(PhaseOf(s, w).org, PhaseOf(s, w).write)
    decreases |s.queue|
  {
    var ending := HoldersFinish(key, s);
    var t := After(key, s, ending);
    HeadGetsIn(key, t, w);
    var e := Wake(t.queue[0].w);
    var u := Apply(key, t, e);
    AndThen(key, s, ending, e);
    events := ending + [e];
    if t.queue[0].w != w {
      hide *;
      var rest := QueueMovesUp(key, u, w);
      AfterInTurn(key, s, events, rest);
      events := events + rest;
    }
  }

  lemma TurnComes(key: Org -> int, s: State, w: nat) returns (more: seq<Event>)
    requires Inv(key, s)
    requires var p := PhaseOf(s, w); p.Waiting? || (p.Ready? && !(p.sandboxed && p.write))
    ensures forall k :: 0 <= k < |more| ==> Winding(more[k]) || more[k] == Acquire(w)
    ensures PhaseOf(After(key, s, more), w) == Locked(PhaseOf(s, w).org, PhaseOf(s, w).write)
  {
    if PhaseOf(s, w).Waiting? {
      hide Apply;
      more := QueueMovesUp(key, s, w);
    } else {
      var t := Apply(key, s, Acquire(w));
      StepKeepsInv(key, s, Acquire(w));
      AskersGetIn(key, s, w);
      assert [Acquire(w)][..0] == [];
      assert After(key, s, [Acquire(w)]) == t;
      hide Apply;
      more := [Acquire(w)];
      if PhaseOf(t, w).Waiting? {
        var rest := QueueMovesUp(key, t, w);
        AfterInTurn(key, s, [Acquire(w)], rest);
        more := [Acquire(w)] + rest;
      }
    }
  }

  /**
   * No deadlock: from any reachable state the present holders and those queued
   * ahead only have to finish, or be noticed dead, and whoever wants a lock gets it.
   */
  lemma NobodyIsStuck(key: Org -> int, start: State, events: seq<Event>, w: nat) returns (more: seq<Event>)
    requires AtRest(start)
    requires var p := PhaseOf(After(key, start, events), w); p.Waiting? || (p.Ready? && !(p.sandboxed && p.write))
    ensures forall k :: 0 <= k < |more| ==> Winding(more[k]) || more[k] == Acquire(w)
    ensures var p := PhaseOf(After(key, start, events), w);
            PhaseOf(After(key, start, events + more), w) == Locked(p.org, p.write)
  {
    var s := After(key, start, events);
    EveryRunKeepsInv(key, start, events);
    more := TurnComes(key, s, w);
    AfterInTurn(key, start, events, more);
  }

  /**
   * Colliding keys cost throughput only: beside a reader of one workspace a reader
   * of the other gets in at once, unless a writer of either is queued already.
   */
  lemma CollidingReadersShare(key: Org -> int, s: State, v: nat, w: nat)
    requires Inv(key, s) && v != w && PhaseOf(s, v).Open? && !PhaseOf(s, v).write
    requires PhaseOf(s, w).Ready? && !PhaseOf(s, w).write
    requires key(PhaseOf(s, v).org) == key(PhaseOf(s, w).org)
    ensures PhaseOf(Apply(key, s, Acquire(w)), w) == Locked(PhaseOf(s, w).org, false)
       <==> forall i :: 0 <= i < |s.queue| ==> s.queue[i].grant != Grant(key(PhaseOf(s, w).org), true)
  {
    var wanted := Grant(key(PhaseOf(s, w).org), false);
    assert HoldsItsLock(key, s, v) && HoldsItsLock(key, s, w);
    forall u | u in s.grants
      ensures !Conflict(s.grants[u], wanted)
    {
      assert u == v || !Conflict(s.grants[u], s.grants[v]);
    }
    assert forall i :: 0 <= i < |s.queue| ==>
        (Conflict(s.queue[i].grant, wanted) <==> s.queue[i].grant == Grant(wanted.key, true));
  }

  // ----- the context manager --------------------------------------------------------------------------

  /** The shared pieces `warehouse` works on, and its stretches between awaits. */
  class Warehouse {
    var files: set<Org>
    var phases: map<nat, Phase>
    var grants: map<nat, Grant>
    var queue: seq<Waiter>
    const key: Org -> int

    constructor (key: Org -> int, files: set<Org>)
      ensures this.key == key && AtRest(Snapshot()) && this.files == files
    {
      this.key := key;
      this.files := files;
      phases, grants, queue := map[], map[], [];
    }

    function Snapshot(): State
      reads this
    {
      State(files, phases, grants, queue)
    }

    method EnsureExists(w: nat, org: Org, write: bool, sandboxed: bool)
      requires PhaseOf(Snapshot(), w) == Idle
      modifies this
      ensures Snapshot() == Apply(key, old(Snapshot()), Begin(w, org, write, sandboxed))
      ensures org in files
    {
      if org !in files {
        files := files + {org};
        phases := phases[w := Creating(org, write, sandboxed)];
      } else {
        phases := phases[w := Ready(org, write, sandboxed)];
      }
    }

    /** `SELECT pg_advisory_xact_lock[_shared](key)`: granted at once, or queued. */
    method TakeLock(w: nat) returns (granted: bool)
      requires PhaseOf(Snapshot(), w).Ready?
      modifies this
      ensures Snapshot() == Apply(key, old(Snapshot()), Acquire(w))
      ensures granted <==> PhaseOf(Snapshot(), w).Locked?
    {
      var p := phases[w];
      if p.sandboxed && p.write {
        phases := phases - {w};
        return false;
      }
      var wanted := Grant(key(p.org), p.write);
      granted := Clear(grants, queue, |queue|, wanted);
      if granted {
        grants := grants[w := wanted];
        phases := phases[w := Locked(p.org, p.write)];
      } else {
        queue := queue + [Waiter(w, wanted)];
        phases := phases[w := Waiting(p.org, p.write)];
      }
    }

    /** The statement returns, if it is the request's turn. */
    method LockGranted(w: nat) returns (granted: bool)
      requires PhaseOf(Snapshot(), w).Waiting? && Queued(queue, w)
      modifies this
      ensures Snapshot() == Apply(key, old(Snapshot()), Wake(w))
      ensures granted <==> PhaseOf(Snapshot(), w).Locked?
    {
      var i := PlaceOf(queue, w);
      granted := Clear(grants, queue, i, queue[i].grant);
      if granted {
        grants := grants[w := queue[i].grant];
        phases := phases[w := Locked(phases[w].org, phases[w].write)];
        queue := Dropped(queue, i);
      }
    }

    method OpenConnection(w: nat)
      requires PhaseOf(Snapshot(), w).Locked?
      modifies this
      ensures Snapshot() == Apply(key, old(Snapshot()), Connect(w))
    {
      phases := phases[w := Open(phases[w].org, phases[w].write, false)];
    }

    /** The `finally`, then the end of the lock's transaction. */
    method Leave(w: nat)
      requires PhaseOf(Snapshot(), w).Open?
      modifies this
      ensures Snapshot() == Apply(key, Apply(key, old(Snapshot()), Close(w)), EndTransaction(w))
      ensures w !in grants
    {
      phases := phases[w := Closed(phases[w].org, phases[w].write)];
      grants := grants - {w};
      phases := phases - {w};
    }
  }
}
