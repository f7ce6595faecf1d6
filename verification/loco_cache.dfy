/** The locomotives of one bus: cache, command queue, bus lock, and the commands of client sessions. */
module LocoCache {
  import opened Ring
  import opened Srcp
  import opened Speed

  const QUEUELEN: nat := 50

  /** state: 0 dead, 1 living, 2 terminating. */
  datatype Loco = Loco(state: int, protocol: char, version: int, nFunc: int, nFs: int, id: int,
                       speed: int, direction: int, funcs: int)

  const CLEARED := Loco(0, '\0', 0, 0, 0, 0, 0, 0, 0)

  /** The hardware driver: which protocols it supports, and its check of a new locomotive, which
      may change the data (for a driver without one: SRCP_OK and the data as they are). */
  datatype Driver = Driver(supports: char -> int, init: Loco -> (int, Loco))

  /** `locos[0]` is not used; `lockedBy` is the session that holds the bus, 0 if none does. */
  datatype Bus = Bus(locos: seq<Loco>, queue: seq<Loco>, lockedBy: nat, duration: int)

  predicate ValidAddress(b: Bus, addr: int) {
    0 < addr < |b.locos|
  }

  predicate Initialized(b: Bus, addr: int) {
    ValidAddress(b, addr) && b.locos[addr].state == 1
  }

  predicate Full(b: Bus) {
    |b.queue| >= QUEUELEN - 1
  }

  // ----- Commands to the queue, and initialisation -----

  function Entry(l: Loco, addr: int, dir: int, speed: int, maxspeed: int, f: int): Loco {
    Loco(0, l.protocol, l.version, l.nFunc, l.nFs, addr, Scale(speed, maxspeed, l.nFs), dir, f)
  }

  /** A locomotive that is not initialised gets a default initialisation first. */
  function Enqueue(d: Driver, b: Bus, addr: int, dir: int, speed: int, maxspeed: int, f: int): (r: (Bus, int))
    ensures |r.0.locos| == |b.locos| && r.0.lockedBy == b.lockedBy && r.0.duration == b.duration
    ensures forall a :: 0 <= a < |b.locos| && a != addr ==> r.0.locos[a] == b.locos[a]
    ensures forall a :: Initialized(b, a) ==> Initialized(r.0, a)
    ensures Initialized(b, addr) ==> r.0.locos == b.locos
    ensures |b.queue| <= |r.0.queue| <= |b.queue| + (if Initialized(b, addr) then 1 else 2)
    decreases if Initialized(b, addr) then 0 else 2
  {
    if !ValidAddress(b, addr) then (b, SRCP_WRONGVALUE)
    else
      var b := if Initialized(b, addr) then b else Init(d, b, addr, 'P', 1, 14, 1).0;
      if Full(b) then (b, SRCP_TEMPORARILYPROHIBITED)
      else (b.(queue := b.queue + [Entry(b.locos[addr], addr, dir, speed, maxspeed, f)]), SRCP_OK)
  }

  /** A successful initialisation queues a stop command. */
  function Init(d: Driver, b: Bus, addr: int, protocol: char, version: int, nFs: int, nFunc: int): (r: (Bus, int))
    ensures |r.0.locos| == |b.locos| && r.0.lockedBy == b.lockedBy && r.0.duration == b.duration
    ensures forall a :: 0 <= a < |b.locos| && a != addr ==> r.0.locos[a] == b.locos[a]
    ensures forall a :: Initialized(b, a) ==> Initialized(r.0, a)
    ensures r.1 == SRCP_OK <==> Initialized(r.0, addr) && d.supports(protocol) == SRCP_OK
                                && d.init(Loco(0, protocol, version, nFunc, nFs, addr, 0, 0, 0)).0 == SRCP_OK
    ensures r.1 != SRCP_OK ==> r.0 == b
    ensures |b.queue| <= |r.0.queue| <= |b.queue| + 1
    decreases 1
  {
    if !ValidAddress(b, addr) then (b, SRCP_WRONGVALUE)
    else if d.supports(protocol) != SRCP_OK then (b, d.supports(protocol))
    else
      var (rc, l) := d.init(Loco(0, protocol, version, nFunc, nFs, addr, 0, 0, 0));
      if rc != SRCP_OK then (b, rc)
      else (Enqueue(d, b.(locos := b.locos[addr := l.(state := 1)]), addr, 0, 0, 1, 0).0, SRCP_OK)
  }

  /** A driver reports what it has sent. A locomotive that is terminating is cleared. */
  function CacheSet(b: Bus, addr: int, l: Loco): (r: (Bus, int))
    ensures |r.0.locos| == |b.locos|
    ensures forall a :: 0 <= a < |b.locos| && a != addr ==> r.0.locos[a] == b.locos[a]
    ensures forall a :: Initialized(b, a) ==> Initialized(r.0, a)
  {
    if !ValidAddress(b, addr) then (b, SRCP_WRONGVALUE)
    else
      var before := b.locos[addr];
      var after := before.(direction := l.direction, speed := l.speed, funcs := l.funcs, nFs := l.nFs, nFunc := l.nFunc);
      (b.(locos := b.locos[addr := if before.state == 2 then CLEARED else after]), SRCP_OK)
  }

  /** A moving locomotive is stopped first. */
  function Term(d: Driver, b: Bus, addr: int): (r: (Bus, int))
    ensures |r.0.locos| == |b.locos| && r.0.lockedBy == b.lockedBy
    ensures forall a :: 0 <= a < |b.locos| && a != addr ==> r.0.locos[a] == b.locos[a]
  {
    if !Initialized(b, addr) then (b, SRCP_NODATA)
    else
      var l := b.locos[addr];
      var b :=
        if l.speed == 0 then b
        else CacheSet(Enqueue(d, b, addr, 2, 0, l.nFs, l.funcs).0, addr, l.(speed := 0, direction := 2)).0;
      (b.(locos := b.locos[addr := CLEARED]), SRCP_OK)
  }

  // ----- The lock of the bus -----

  function Lock(b: Bus, addr: int, duration: int, session: nat): (Bus, int) {
    if !Initialized(b, addr) then (b, SRCP_WRONGVALUE)
    else if b.lockedBy == session || b.lockedBy == 0 then (b.(lockedBy := session, duration := duration), SRCP_OK)
    else (b, SRCP_DEVICELOCKED)
  }

  function Unlock(b: Bus, addr: int, session: nat): (r: (Bus, int))
    ensures r.0.locos == b.locos
  {
    if !Initialized(b, addr) then (b, SRCP_WRONGVALUE)
    else if b.lockedBy == 0 || b.lockedBy == session then (b.(lockedBy := 0), SRCP_OK)
    else (b, SRCP_DEVICELOCKED)
  }

  /** Trying to unlock with every address from `j` on, as long as the session holds the lock. */
  function UnlockFrom(b: Bus, j: nat, session: nat): (r: Bus)
    ensures r.locos == b.locos
    decreases |b.locos| - j
  {
    if j >= |b.locos| then b
    else UnlockFrom(if b.lockedBy == session then Unlock(b, j, session).0 else b, j + 1, session)
  }

  function EndSession(b: Bus, session: nat): Bus {
    UnlockFrom(b, 1, session)
  }

  // ----- Commands -----

  /** `lockid` in TermGL is what the program's variable holds before the lock is looked up. */
  datatype Command =
    | SetGL(session: nat, addr: int, dir: int, speed: int, maxspeed: int, f: int)
    | InitGL(session: nat, addr: int, protocol: char, version: int, nFs: int, nFunc: int)
    | TermGL(session: nat, addr: int, lockid: nat)
    | SetLock(session: nat, addr: int, duration: int)
    | TermLock(session: nat, addr: int)
    | Ended(session: nat)
    | DriverSet(addr: int, l: Loco)
    | DriverTake

  function LockSeen(b: Bus, addr: int, before: nat): nat {
    if Initialized(b, addr) then b.lockedBy else before
  }

  function Execute(d: Driver, b: Bus, c: Command): (r: (Bus, int))
    ensures |r.0.locos| == |b.locos|
  {
    match c
    case SetGL(session, addr, dir, speed, maxspeed, f) =>
      var lockid := LockSeen(b, addr, 0);
      if lockid == 0 || lockid == session || dir == 2 then Enqueue(d, b, addr, dir, speed, maxspeed, f)
      else (b, SRCP_DEVICELOCKED)
    case InitGL(session, addr, protocol, version, nFs, nFunc) =>
      var lockid := LockSeen(b, addr, 0);
      if lockid == 0 || lockid == session then Init(d, b, addr, protocol, version, nFs, nFunc)
      else (b, SRCP_DEVICELOCKED)
    case TermGL(session, addr, before) =>
      var lockid := LockSeen(b, addr, before);
      if lockid == 0 then Term(d, b, addr)
      else if lockid == session then
        var (b', rc) := Unlock(b, addr, session);
        if rc == SRCP_OK then Term(d, b', addr) else (b', SRCP_UNSUPPORTEDDEVICEGROUP)
      else (b, SRCP_DEVICELOCKED)
    case SetLock(session, addr, duration) => Lock(b, addr, duration, session)
    case TermLock(session, addr) => Unlock(b, addr, session)
    case Ended(session) => (EndSession(b, session), SRCP_OK)
    case DriverSet(addr, l) => CacheSet(b, addr, l)
    case DriverTake => (if b.queue == [] then b else b.(queue := b.queue[1..]), SRCP_OK)
  }

  function Run(d: Driver, b: Bus, cs: seq<Command>): Bus
    decreases |cs|
  {
    if cs == [] then b else Run(d, Execute(d, b, cs[0]).0, cs[1..])
  }

  // ----- Lock safety -----

  /** A locked bus has a locomotive through which it can be unlocked. */
  ghost predicate LockBacked(b: Bus) {
    b.lockedBy != 0 ==> exists a :: Initialized(b, a)
  }

  lemma {:induction false} UnlockFromFrees(b: Bus, j: nat, session: nat, a: int)
    requires session != 0 && b.lockedBy == session && Initialized(b, a) && 1 <= j <= a
    ensures UnlockFrom(b, j, session).lockedBy == 0
    decreases |b.locos| - j
  {
    var (b', rc) := Unlock(b, j, session);
    if b'.lockedBy == 0 {
      UnlockFromIdle(b', j + 1, session);
    } else {
      UnlockFromFrees(b', j + 1, session, a);
    }
  }

  lemma {:induction false} UnlockFromIdle(b: Bus, j: nat, session: nat)
    requires b.lockedBy != session
    ensures UnlockFrom(b, j, session) == b
    decreases |b.locos| - j
  {
    if j < |b.locos| {
      UnlockFromIdle(b, j + 1, session);
    }
  }

  /** The lock of a session that ends is always freed, any other lock stays. */
  lemma EndedSessionHoldsNoLock(b: Bus, session: nat)
    requires LockBacked(b) && session != 0
    ensures EndSession(b, session).lockedBy == if b.lockedBy == session then 0 else b.lockedBy
    ensures EndSession(b, session).locos == b.locos
  {
    if b.lockedBy == session {
      var a :| Initialized(b, a);
      UnlockFromFrees(b, 1, session, a);
    } else {
      UnlockFromIdle(b, 1, session);
    }
  }

  lemma StepLockBacked(d: Driver, b: Bus, c: Command)
    requires LockBacked(b)
    ensures LockBacked(Execute(d, b, c).0)
  {
    match c
    case TermGL(session, addr, before) =>
    case Ended(session) =>
      assert forall a :: Initialized(b, a) ==> Initialized(EndSession(b, session), a);
      if b.lockedBy != session {
        UnlockFromIdle(b, 1, session);
      } else if session != 0 {
        EndedSessionHoldsNoLock(b, session);
      } else {
        ZeroStays(b, 1);
      }
    case _ =>
      assert forall a :: Initialized(b, a) ==> Initialized(Execute(d, b, c).0, a);
  }

  lemma {:induction false} ZeroStays(b: Bus, j: nat)
    requires b.lockedBy == 0
    ensures UnlockFrom(b, j, 0).lockedBy == 0
    decreases |b.locos| - j
  {
    if j < |b.locos| {
      ZeroStays(Unlock(b, j, 0).0, j + 1);
    }
  }

  /** In every run: whatever the sessions and the driver do, a session's end frees its lock. */
  lemma {:induction false} LockNeverOutlivesSession(d: Driver, b: Bus, cs: seq<Command>, session: nat)
    requires LockBacked(b) && session != 0
    ensures LockBacked(Run(d, b, cs))
    ensures EndSession(Run(d, b, cs), session).lockedBy != session
    decreases |cs|
  {
    if cs == [] {
      EndedSessionHoldsNoLock(b, session);
    } else {
      StepLockBacked(d, b, cs[0]);
      LockNeverOutlivesSession(d, Execute(d, b, cs[0]).0, cs[1..], session);
    }
  }

  /** The session that gives the command; the driver's steps have none. */
  function Giver(c: Command): nat {
    if c.DriverSet? || c.DriverTake? then 0 else c.session
  }

  /** Only the holder, or its end, changes the lock. */
  lemma {:induction false} LockStaysWithHolder(d: Driver, b: Bus, cs: seq<Command>, holder: nat)
    requires holder != 0 && b.lockedBy == holder
    requires forall i :: 0 <= i < |cs| ==> Giver(cs[i]) != holder
    ensures Run(d, b, cs).lockedBy == holder
    decreases |cs|
  {
    if cs != [] {
      assert Giver(cs[0]) != holder;
      if cs[0].Ended? {
        UnlockFromIdle(b, 1, cs[0].session);
      }
      assert Execute(d, b, cs[0]).0.lockedBy == holder;
      LockStaysWithHolder(d, Execute(d, b, cs[0]).0, cs[1..], holder);
    }
  }

  /** Locking succeeds exactly for an initialised locomotive on a bus that is free or held already, and
      makes the session the holder. It changes nothing else, and without success nothing at all. */
  lemma LockIsTaken(d: Driver, b: Bus, session: nat, addr: int, duration: int)
    ensures var (r, rc) := Execute(d, b, SetLock(session, addr, duration));
            && (rc == SRCP_OK <==> Initialized(b, addr) && (b.lockedBy == 0 || b.lockedBy == session))
            && (rc == SRCP_OK ==> r.lockedBy == session && r.duration == duration)
            && (rc != SRCP_OK ==> r == b && rc == if Initialized(b, addr) then SRCP_DEVICELOCKED else SRCP_WRONGVALUE)
            && r.locos == b.locos && r.queue == b.queue
  {
  }

  /** Unlocking by the holder makes the bus free. */
  lemma LockIsGivenBack(d: Driver, b: Bus, session: nat, addr: int)
    ensures var (r, rc) := Execute(d, b, TermLock(session, addr));
            && (rc == SRCP_OK <==> Initialized(b, addr) && (b.lockedBy == 0 || b.lockedBy == session))
            && (rc == SRCP_OK ==> r.lockedBy == 0)
            && (rc != SRCP_OK ==> r == b && rc == if Initialized(b, addr) then SRCP_DEVICELOCKED else SRCP_WRONGVALUE)
            && r.locos == b.locos && r.queue == b.queue
  {
  }

  /** A command that would move, replace or terminate a locomotive, or take the lock. */
  predicate Restricted(c: Command) {
    match c
    case SetGL(_, _, dir, _, _, _) => dir != 2
    case InitGL(_, _, _, _, _, _) => true
    case TermGL(_, _, _) => true
    case SetLock(_, _, _) => true
    case TermLock(_, _) => true
    case _ => false
  }

  /** While another session holds the bus, such a command for an initialised locomotive is turned
      down and changes nothing. */
  lemma OthersAreLockedOut(d: Driver, b: Bus, c: Command)
    requires b.lockedBy != 0 && Restricted(c) && c.session != b.lockedBy && Initialized(b, c.addr)
    ensures Execute(d, b, c) == (b, SRCP_DEVICELOCKED)
  {
  }

  /** From any state: once a session has been answered that it has the lock, and as long as it does
      nothing, every such command of another session for an initialised locomotive is turned down. */
  lemma LockKeepsOthersOut(d: Driver, b: Bus, session: nat, addr: int, duration: int, cs: seq<Command>, c: Command)
    requires session != 0 && Execute(d, b, SetLock(session, addr, duration)).1 == SRCP_OK
    requires forall i :: 0 <= i < |cs| ==> Giver(cs[i]) != session
    requires Restricted(c) && c.session != session
    ensures var r := Run(d, Execute(d, b, SetLock(session, addr, duration)).0, cs);
            && r.lockedBy == session
            && (Initialized(r, c.addr) ==> Execute(d, r, c) == (r, SRCP_DEVICELOCKED))
  {
    LockIsTaken(d, b, session, addr, duration);
    hide Execute;
    var locked := Execute(d, b, SetLock(session, addr, duration)).0;
    LockStaysWithHolder(d, locked, cs, session);
    var r := Run(d, locked, cs);
    if Initialized(r, c.addr) {
      OthersAreLockedOut(d, r, c);
    }
  }

  // ----- What gets through takes effect -----

  /** On a free bus, for the holder, and for the emergency stop of anyone. */
  predicate GetsThrough(b: Bus, c: Command)
    requires c.SetGL? || c.InitGL? || c.TermGL?
  {
    b.lockedBy == 0 || b.lockedBy == c.session || (c.SetGL? && c.dir == 2)
  }

  /** A SET for an initialised locomotive that gets through and finds room puts exactly this command
      behind those that wait: the client's direction, functions and scaled speed with the
      locomotive's protocol, version and numbers of steps and functions. Otherwise nothing changes. */
  lemma SetIsQueuedIff(d: Driver, b: Bus, c: Command)
    requires c.SetGL? && Initialized(b, c.addr)
    ensures var (r, rc) := Execute(d, b, c);
            && (rc == SRCP_OK <==> GetsThrough(b, c) && !Full(b))
            && (rc != SRCP_OK ==> r == b && rc == if GetsThrough(b, c) then SRCP_TEMPORARILYPROHIBITED else SRCP_DEVICELOCKED)
            && (rc == SRCP_OK ==>
                  var l := b.locos[c.addr];
                  |r.queue| == |b.queue| + 1
                  && var e := r.queue[|b.queue|];
                  && r == b.(queue := b.queue + [e])
                  && (e.id, e.direction, e.funcs) == (c.addr, c.dir, c.f) && e.speed == Scale(c.speed, c.maxspeed, l.nFs)
                  && (e.protocol, e.version, e.nFs, e.nFunc) == (l.protocol, l.version, l.nFs, l.nFunc))
  {
    hide Scale;
  }

  /** What the driver makes of a new locomotive. */
  function Checked(d: Driver, c: Command): (int, Loco)
    requires c.InitGL?
  {
    d.init(Loco(0, c.protocol, c.version, c.nFunc, c.nFs, c.addr, 0, 0, 0))
  }

  /** An INIT succeeds exactly if the address exists, the lock lets it through and bus and driver accept
      it, with any protocol. Then the locomotive is what the driver made of it, and a stop for it is
      queued if there is room. */
  lemma InitTakesEffect(d: Driver, b: Bus, c: Command)
    requires c.InitGL?
    ensures var (r, rc) := Execute(d, b, c);
            && (rc == SRCP_OK <==> && ValidAddress(b, c.addr) && (GetsThrough(b, c) || !Initialized(b, c.addr))
                                   && d.supports(c.protocol) == SRCP_OK && Checked(d, c).0 == SRCP_OK)
            && (rc != SRCP_OK ==> r == b)
            && (rc == SRCP_OK ==>
                  var l := Checked(d, c).1;
                  && r.locos == b.locos[c.addr := l.(state := 1)] && r.lockedBy == b.lockedBy && r.duration == b.duration
                  && (Full(b) ==> r.queue == b.queue)
                  && (!Full(b) ==>
                        |r.queue| == |b.queue| + 1
                        && var e := r.queue[|b.queue|];
                        && r.queue == b.queue + [e] && (e.id, e.direction, e.funcs) == (c.addr, 0, 0)
                        && (e.protocol, e.version, e.nFs, e.nFunc) == (l.protocol, l.version, l.nFs, l.nFunc)
                        && (l.nFs >= 0 ==> e.speed == 0)))
  {
    var l := Checked(d, c).1;
    if l.nFs >= 0 {
      ScaleRounds(0, 1, l.nFs);
    }
    hide Scale;
    if ValidAddress(b, c.addr) {
      StopQueued(d, b.(locos := b.locos[c.addr := l.(state := 1)]), c.addr);
    }
  }

  lemma StopQueued(d: Driver, b: Bus, addr: int)
    requires Initialized(b, addr)
    ensures Enqueue(d, b, addr, 0, 0, 1, 0).0
            == if Full(b) then b else b.(queue := b.queue + [Entry(b.locos[addr], addr, 0, 0, 1, 0)])
  {
    hide Scale;
  }

  /** A TERM for an initialised locomotive that gets through is always answered with success: the
      locomotive is gone, stopped first if it was moving and there was room, and the bus is free. */
  lemma TermTakesEffect(d: Driver, b: Bus, c: Command)
    requires c.TermGL? && Initialized(b, c.addr) && b.locos[c.addr].nFs >= 0
    ensures var (r, rc) := Execute(d, b, c);
            var l := b.locos[c.addr];
            if !GetsThrough(b, c) then (r, rc) == (b, SRCP_DEVICELOCKED)
            else
              && rc == SRCP_OK && r.locos == b.locos[c.addr := CLEARED] && r.lockedBy == 0
              && (if l.speed == 0 || Full(b) then r.queue == b.queue
                  else |r.queue| == |b.queue| + 1
                       && var e := r.queue[|b.queue|];
                       && r.queue == b.queue + [e] && (e.id, e.direction, e.speed, e.funcs) == (c.addr, 2, 0, l.funcs)
                       && (e.protocol, e.version, e.nFs, e.nFunc) == (l.protocol, l.version, l.nFs, l.nFunc))
  {
    TermStopsFirst(d, b, c.addr);
    TermStopsFirst(d, b.(lockedBy := 0), c.addr);
    hide Scale, Term;
  }

  /** For an address that is not initialised a TERM changes nothing, whatever the lock variable holds. */
  lemma TermOfNoneIsRefused(d: Driver, b: Bus, c: Command)
    requires c.TermGL? && !Initialized(b, c.addr)
    ensures Execute(d, b, c).0 == b && Execute(d, b, c).1 != SRCP_OK
  {
  }

  /** Exactly the initialised addresses are protected: setting any other valid one gets through. */
  lemma SetIsRefusedIffInitialized(d: Driver, b: Bus, c: Command)
    requires b.lockedBy != 0 && c.SetGL? && c.dir != 2 && c.session != b.lockedBy && ValidAddress(b, c.addr)
    ensures Execute(d, b, c).1 == SRCP_DEVICELOCKED <==> Initialized(b, c.addr)
    ensures !Initialized(b, c.addr) && |b.queue| <= QUEUELEN - 3 ==> |Execute(d, b, c).0.queue| > |b.queue|
  {
    if !Initialized(b, c.addr) && |b.queue| <= QUEUELEN - 3 {
      assert !Full(Init(d, b, c.addr, 'P', 1, 14, 1).0);
    }
  }

  /** A command for a fresh locomotive queues a stop, then the command with its speed scaled to
      the steps the driver settled on. With room for one entry only the stop is queued. */
  lemma FreshLocoStopsFirst(d: Driver, b: Bus, addr: int, dir: int, speed: int, maxspeed: int, f: int)
    requires ValidAddress(b, addr) && !Initialized(b, addr) && |b.queue| <= QUEUELEN - 2
    requires d.supports('P') == SRCP_OK && d.init(Loco(0, 'P', 1, 1, 14, addr, 0, 0, 0)).0 == SRCP_OK
    ensures var l := d.init(Loco(0, 'P', 1, 1, 14, addr, 0, 0, 0)).1;
            var (r, rc) := Enqueue(d, b, addr, dir, speed, maxspeed, f);
            var stop := Entry(l, addr, 0, 0, 1, 0);
            && Initialized(r, addr)
            && (l.nFs >= 0 ==> stop.speed == 0)
            && (if |b.queue| == QUEUELEN - 2 then r.queue == b.queue + [stop] && rc == SRCP_TEMPORARILYPROHIBITED
                else r.queue == b.queue + [stop, Entry(l, addr, dir, speed, maxspeed, f)] && rc == SRCP_OK)
  {
    var l := d.init(Loco(0, 'P', 1, 1, 14, addr, 0, 0, 0)).1;
    if l.nFs >= 0 {
      ScaleRounds(0, 1, l.nFs);
    }
    hide Scale;
    var stop, cmd := Entry(l, addr, 0, 0, 1, 0), Entry(l, addr, dir, speed, maxspeed, f);
    var started := b.(locos := b.locos[addr := l.(state := 1)]);
    var stopped := started.(queue := b.queue + [stop]);
    assert Enqueue(d, started, addr, 0, 0, 1, 0).0 == stopped;
    assert Init(d, b, addr, 'P', 1, 14, 1).0 == stopped;
    assert b.queue + [stop, cmd] == b.queue + [stop] + [cmd];
  }

  /** Whether the default initialisation with protocol 'P' succeeds. */
  predicate DefaultWorks(d: Driver, addr: int) {
    d.supports('P') == SRCP_OK && d.init(Loco(0, 'P', 1, 1, 14, addr, 0, 0, 0)).0 == SRCP_OK
  }

  /** A command for a fresh locomotive initialises it and is preceded by a stop if and only if the
      default initialisation works. Otherwise it is answered with success all the same, and what is
      queued has the protocol and the steps of the entry as it is: none for a cleared one. */
  lemma FreshLocoStopsIff(d: Driver, b: Bus, addr: int, dir: int, speed: int, maxspeed: int, f: int)
    requires ValidAddress(b, addr) && !Initialized(b, addr) && |b.queue| <= QUEUELEN - 3
    ensures var (r, rc) := Enqueue(d, b, addr, dir, speed, maxspeed, f);
            && rc == SRCP_OK
            && (Initialized(r, addr) <==> DefaultWorks(d, addr))
            && (|r.queue| == |b.queue| + 2 <==> DefaultWorks(d, addr))
            && (!DefaultWorks(d, addr) ==>
                  r == b.(queue := b.queue + [Entry(b.locos[addr], addr, dir, speed, maxspeed, f)])
                  && (b.locos[addr] == CLEARED ==>
                        r.queue[|b.queue|].protocol == '\0' && r.queue[|b.queue|].nFs == 0))
  {
    if DefaultWorks(d, addr) {
      FreshLocoStopsFirst(d, b, addr, dir, speed, maxspeed, f);
    } else {
      hide Scale;
      assert Init(d, b, addr, 'P', 1, 14, 1).0 == b;
    }
  }

  /** A moving locomotive is stopped before it is forgotten: its stop command is queued if there is
      room. A standing one is just forgotten. No other locomotive is touched. */
  lemma TermStopsFirst(d: Driver, b: Bus, addr: int)
    requires Initialized(b, addr) && b.locos[addr].nFs >= 0
    ensures var l := b.locos[addr];
            var (r, rc) := Term(d, b, addr);
            var stop := Entry(l, addr, 2, 0, l.nFs, l.funcs);
            && rc == SRCP_OK && stop.speed == 0 && stop.direction == 2
            && r.queue == (if l.speed != 0 && !Full(b) then b.queue + [stop] else b.queue)
            && r.locos == b.locos[addr := CLEARED]
  {
    var l := b.locos[addr];
    if l.nFs > 0 {
      ScaleRounds(0, l.nFs, l.nFs);
    }
    hide Scale;
    var queued := Enqueue(d, b, addr, 2, 0, l.nFs, l.funcs).0;
    assert queued.locos == b.locos;
  }

  function Target(c: Command): int {
    match c
    case SetGL(_, addr, _, _, _, _) => addr
    case InitGL(_, addr, _, _, _, _) => addr
    case TermGL(_, addr, _) => addr
    case SetLock(_, addr, _) => addr
    case TermLock(_, addr) => addr
    case DriverSet(addr, _) => addr
    case _ => 0
  }

  /** A command changes at most the data of the locomotive it is for. */
  lemma OnlyTargetChanges(d: Driver, b: Bus, c: Command, a: int)
    requires 0 < a < |b.locos| && a != Target(c)
    ensures Execute(d, b, c).0.locos[a] == b.locos[a]
  {
    hide Enqueue, Init, CacheSet, Term;
  }

  ghost predicate NoneTerminating(b: Bus) {
    forall a :: 0 <= a < |b.locos| ==> b.locos[a].state != 2
  }

  lemma InitStarts(d: Driver, b: Bus, addr: int, protocol: char, version: int, nFs: int, nFunc: int)
    requires NoneTerminating(b)
    ensures NoneTerminating(Init(d, b, addr, protocol, version, nFs, nFunc).0)
  {
    if ValidAddress(b, addr) {
      StopQueued(d, b.(locos := b.locos[addr := d.init(Loco(0, protocol, version, nFunc, nFs, addr, 0, 0, 0)).1.(state := 1)]), addr);
    }
  }

  lemma EnqueueStarts(d: Driver, b: Bus, addr: int, dir: int, speed: int, maxspeed: int, f: int)
    requires NoneTerminating(b)
    ensures NoneTerminating(Enqueue(d, b, addr, dir, speed, maxspeed, f).0)
  {
    hide Scale;
    InitStarts(d, b, addr, 'P', 1, 14, 1);
  }

  lemma StepNoneTerminating(d: Driver, b: Bus, c: Command)
    requires NoneTerminating(b)
    ensures NoneTerminating(Execute(d, b, c).0)
  {
    hide Enqueue, Init;
    match c
    case SetGL(_, addr, dir, speed, maxspeed, f) => EnqueueStarts(d, b, addr, dir, speed, maxspeed, f);
    case InitGL(_, addr, protocol, version, nFs, nFunc) => InitStarts(d, b, addr, protocol, version, nFs, nFunc);
    case TermGL(_, addr, _) =>
      if Initialized(b, addr) {
        var l := b.locos[addr];
        EnqueueStarts(d, b, addr, 2, 0, l.nFs, l.funcs);
        EnqueueStarts(d, b.(lockedBy := 0), addr, 2, 0, l.nFs, l.funcs);
      }
    case _ =>
  }

  /** The branch that clears a locomotive in state 2 on a driver's report is never taken: no run
      stores that state, since the termination marks only its own copy. */
  lemma {:induction false} TerminatingIsDead(d: Driver, b: Bus, cs: seq<Command>)
    requires NoneTerminating(b)
    ensures NoneTerminating(Run(d, b, cs))
    decreases |cs|
  {
    hide Execute;
    if cs != [] {
      StepNoneTerminating(d, b, cs[0]);
      TerminatingIsDead(d, Execute(d, b, cs[0]).0, cs[1..]);
    }
  }

  // ----- The command queue over all runs -----

  /** What a command takes from the queue. */
  function Taken(b: Bus, c: Command): seq<Loco> {
    if c.DriverTake? && b.queue != [] then [b.queue[0]] else []
  }

  function AllTaken(d: Driver, b: Bus, cs: seq<Command>): seq<Loco>
    decreases |cs|
  {
    if cs == [] then [] else Taken(b, cs[0]) + AllTaken(d, Execute(d, b, cs[0]).0, cs[1..])
  }

  /** What a command puts into the queue. */
  function Put(d: Driver, b: Bus, c: Command): seq<Loco> {
    var q := Execute(d, b, c).0.queue;
    if c.DriverTake? || |q| < |b.queue| then [] else q[|b.queue|..]
  }

  function AllPut(d: Driver, b: Bus, cs: seq<Command>): seq<Loco>
    decreases |cs|
  {
    if cs == [] then [] else Put(d, b, cs[0]) + AllPut(d, Execute(d, b, cs[0]).0, cs[1..])
  }

  lemma EnqueueAppends(d: Driver, b: Bus, addr: int, dir: int, speed: int, maxspeed: int, f: int)
    ensures b.queue <= Enqueue(d, b, addr, dir, speed, maxspeed, f).0.queue
    ensures |b.queue| < QUEUELEN ==> |Enqueue(d, b, addr, dir, speed, maxspeed, f).0.queue| < QUEUELEN
    decreases if Initialized(b, addr) then 0 else 2
  {
    if ValidAddress(b, addr) && !Initialized(b, addr) {
      InitAppends(d, b, addr, 'P', 1, 14, 1);
    }
  }

  lemma InitAppends(d: Driver, b: Bus, addr: int, protocol: char, version: int, nFs: int, nFunc: int)
    ensures b.queue <= Init(d, b, addr, protocol, version, nFs, nFunc).0.queue
    ensures |b.queue| < QUEUELEN ==> |Init(d, b, addr, protocol, version, nFs, nFunc).0.queue| < QUEUELEN
    decreases 1
  {
    if ValidAddress(b, addr) {
      var (rc, l) := d.init(Loco(0, protocol, version, nFunc, nFs, addr, 0, 0, 0));
      EnqueueAppends(d, b.(locos := b.locos[addr := l.(state := 1)]), addr, 0, 0, 1, 0);
    }
  }

  lemma {:induction false} UnlockFromKeepsQueue(b: Bus, j: nat, session: nat)
    ensures UnlockFrom(b, j, session).queue == b.queue
    decreases |b.locos| - j
  {
    if j < |b.locos| {
      UnlockFromKeepsQueue(if b.lockedBy == session then Unlock(b, j, session).0 else b, j + 1, session);
    }
  }

  lemma StepQueue(d: Driver, b: Bus, c: Command)
    requires |b.queue| < QUEUELEN
    ensures |Execute(d, b, c).0.queue| < QUEUELEN
    ensures Taken(b, c) + Execute(d, b, c).0.queue == b.queue + Put(d, b, c)
  {
    hide Enqueue, Init;
    match c
    case SetGL(_, addr, dir, speed, maxspeed, f) => EnqueueAppends(d, b, addr, dir, speed, maxspeed, f);
    case InitGL(_, addr, protocol, version, nFs, nFunc) => InitAppends(d, b, addr, protocol, version, nFs, nFunc);
    case TermGL(_, addr, _) =>
      if Initialized(b, addr) {
        var l := b.locos[addr];
        EnqueueAppends(d, b, addr, 2, 0, l.nFs, l.funcs);
        EnqueueAppends(d, b.(lockedBy := 0), addr, 2, 0, l.nFs, l.funcs);
      }
    case Ended(session) => UnlockFromKeepsQueue(b, 1, session);
    case _ =>
  }

  /** Over every run the queue is a FIFO of at most 49 commands: what the driver has taken and what
      still waits is what was put in, in order. */
  lemma {:induction false} QueueIsFifo(d: Driver, b: Bus, cs: seq<Command>)
    requires |b.queue| < QUEUELEN
    ensures |Run(d, b, cs).queue| < QUEUELEN
    ensures AllTaken(d, b, cs) + Run(d, b, cs).queue == b.queue + AllPut(d, b, cs)
    decreases |cs|
  {
    if cs != [] {
      hide Execute, Taken, Put;
      var next := Execute(d, b, cs[0]).0;
      StepQueue(d, b, cs[0]);
      QueueIsFifo(d, next, cs[1..]);
      Chain(Taken(b, cs[0]), AllTaken(d, next, cs[1..]), Run(d, next, cs[1..]).queue, next.queue,
            b.queue, Put(d, b, cs[0]), AllPut(d, next, cs[1..]));
    }
  }

  lemma Chain(taken: seq<Loco>, rest: seq<Loco>, last: seq<Loco>, next: seq<Loco>,
              first: seq<Loco>, put: seq<Loco>, more: seq<Loco>)
    requires taken + next == first + put && rest + last == next + more
    ensures (taken + rest) + last == first + (put + more)
  {
    assert (taken + rest) + last == taken + (rest + last) == (taken + next) + more;
    assert (first + put) + more == first + (put + more);
  }

  // ----- The lock over a whole run -----

  /** The entries of `q` from `n` on are for `addr`. */
  ghost predicate For(q: seq<Loco>, n: nat, addr: int) {
    forall i :: n <= i < |q| ==> q[i].id == addr
  }

  lemma EnqueueIds(d: Driver, b: Bus, addr: int, dir: int, speed: int, maxspeed: int, f: int)
    ensures For(Enqueue(d, b, addr, dir, speed, maxspeed, f).0.queue, |b.queue|, addr)
    ensures Initialized(b, addr) ==>
              var q := Enqueue(d, b, addr, dir, speed, maxspeed, f).0.queue;
              forall i :: |b.queue| <= i < |q| ==> q[i].direction == dir
    decreases if Initialized(b, addr) then 0 else 2
  {
    if ValidAddress(b, addr) {
      var ready := if Initialized(b, addr) then b else Init(d, b, addr, 'P', 1, 14, 1).0;
      if !Initialized(b, addr) {
        InitIds(d, b, addr, 'P', 1, 14, 1);
      }
      hide Init;
      assert For(ready.queue, |b.queue|, addr);
      var r := Enqueue(d, b, addr, dir, speed, maxspeed, f).0;
      assert r.queue == if Full(ready) then ready.queue
                        else ready.queue + [Entry(ready.locos[addr], addr, dir, speed, maxspeed, f)];
    }
  }

  lemma InitIds(d: Driver, b: Bus, addr: int, protocol: char, version: int, nFs: int, nFunc: int)
    ensures For(Init(d, b, addr, protocol, version, nFs, nFunc).0.queue, |b.queue|, addr)
    decreases 1
  {
    if ValidAddress(b, addr) {
      var (rc, l) := d.init(Loco(0, protocol, version, nFunc, nFs, addr, 0, 0, 0));
      EnqueueIds(d, b.(locos := b.locos[addr := l.(state := 1)]), addr, 0, 0, 1, 0);
    }
  }

  /** The data of a living locomotive after what the driver reports about it. */
  function Driven(l: Loco, cs: seq<Command>, a: int): Loco
    decreases |cs|
  {
    if cs == [] then l else Driven(DrivenBy(l, cs[0], a), cs[1..], a)
  }

  function DrivenBy(l: Loco, c: Command, a: int): Loco {
    if c.DriverSet? && c.addr == a then
      l.(direction := c.l.direction, speed := c.l.speed, funcs := c.l.funcs, nFs := c.l.nFs, nFunc := c.l.nFunc)
    else l
  }

  ghost predicate OnlyStops(q: seq<Loco>, a: int) {
    forall i :: 0 <= i < |q| && q[i].id == a ==> q[i].direction == 2
  }

  lemma StepProtects(d: Driver, b: Bus, c: Command, a: int)
    requires b.lockedBy != 0 && Giver(c) != b.lockedBy && Initialized(b, a)
    ensures var r := Execute(d, b, c).0;
            r.lockedBy == b.lockedBy && Initialized(r, a) && r.locos[a] == DrivenBy(b.locos[a], c, a)
    ensures OnlyStops(Put(d, b, c), a)
  {
    hide Enqueue, Init, Term;
    if Restricted(c) && Initialized(b, c.addr) {
      OthersAreLockedOut(d, b, c);
    } else {
      match c
      case SetGL(_, addr, dir, speed, maxspeed, f) =>
        EnqueueIds(d, b, addr, dir, speed, maxspeed, f);
        EnqueueAppends(d, b, addr, dir, speed, maxspeed, f);
      case InitGL(_, addr, protocol, version, nFs, nFunc) =>
        InitIds(d, b, addr, protocol, version, nFs, nFunc);
        InitAppends(d, b, addr, protocol, version, nFs, nFunc);
      case TermGL(_, addr, _) =>
        NoTerm(d, b, addr);
      case Ended(session) =>
        UnlockFromIdle(b, 1, session);
      case _ =>
    }
    var q, put := Execute(d, b, c).0.queue, Put(d, b, c);
    assert forall i :: 0 <= i < |put| ==> put[i] == q[|b.queue| + i];
  }

  lemma NoTerm(d: Driver, b: Bus, addr: int)
    ensures !Initialized(b, addr) ==> Term(d, b, addr) == (b, SRCP_NODATA)
  {
  }

  lemma StopsJoin(x: seq<Loco>, y: seq<Loco>, a: int)
    requires OnlyStops(x, a) && OnlyStops(y, a)
    ensures OnlyStops(x + y, a)
  {
  }

  /** Over every run in which the holder of the lock does nothing: each locomotive that was
      initialised stays so, its data are exactly what the driver reports, and the only commands
      queued for it are stops. */
  lemma {:induction false} HolderIsProtected(d: Driver, b: Bus, cs: seq<Command>, a: int)
    requires b.lockedBy != 0 && Initialized(b, a)
    requires forall i :: 0 <= i < |cs| ==> Giver(cs[i]) != b.lockedBy
    ensures var r := Run(d, b, cs);
            r.lockedBy == b.lockedBy && Initialized(r, a) && r.locos[a] == Driven(b.locos[a], cs, a)
    ensures OnlyStops(AllPut(d, b, cs), a)
    decreases |cs|
  {
    if cs != [] {
      hide Execute, Put, OnlyStops, DrivenBy;
      assert Giver(cs[0]) != b.lockedBy;
      var next := Execute(d, b, cs[0]).0;
      StepProtects(d, b, cs[0], a);
      HolderIsProtected(d, next, cs[1..], a);
      StopsJoin(Put(d, b, cs[0]), AllPut(d, next, cs[1..]), a);
    } else {
      assert OnlyStops([], a);
    }
  }

  // ----- The program's tables -----

  class LocoBus {
    const driver: Driver
    const glstate: array<Loco>
    const queue: array<Loco>
    var queueIn: nat
    var queueOut: nat
    var lockedBy: nat
    var lockDuration: int

    ghost predicate Valid()
      reads this
    {
      queue.Length == QUEUELEN && queueIn < QUEUELEN && queueOut < QUEUELEN
      && glstate.Length >= 1 && glstate != queue
    }

    ghost function Queue(): (r: Ring<Loco>)
      requires Valid()
      reads this, queue
      ensures r.Valid() && |r.slots| == QUEUELEN
    {
      Ring(queue[..], queueIn, queueOut)
    }

    ghost function Abstract(): Bus
      requires Valid()
      reads this, queue, glstate
    {
      Bus(glstate[..], Queue().Contents(), lockedBy, lockDuration)
    }

    constructor (driver: Driver, number: nat)
      ensures Valid() && fresh(glstate) && fresh(queue) && this.driver == driver
      ensures Abstract() == Bus(seq(number + 1, _ => CLEARED), [], 0, 0)
    {
      this.driver := driver;
      glstate := new Loco[number + 1](_ => CLEARED);
      queue := new Loco[QUEUELEN](_ => CLEARED);
      queueIn, queueOut, lockedBy, lockDuration := 0, 0, 0, 0;
      new;
      assert glstate[..] == seq(number + 1, _ => CLEARED);
    }

    predicate IsInitializedGL(addr: int)
      reads this, glstate
    {
      0 < addr < glstate.Length && glstate[addr].state == 1
    }

    function QueueLen(): int
      reads this
    {
      if queueIn >= queueOut then queueIn - queueOut else QUEUELEN + queueIn - queueOut
    }

    method PutQueue(l: Loco)
      requires Valid() && QueueLen() < QUEUELEN - 1
      modifies this`queueIn, queue
      ensures Valid() && Abstract() == old(Abstract()).(queue := old(Abstract()).queue + [l])
    {
      ghost var before := Queue();
      PutContents(before, l);
      queue[queueIn] := l;
      queueIn := queueIn + 1;
      if queueIn == QUEUELEN {
        queueIn := 0;
      }
      assert queue[..] == before.slots[before.tail := l];
      assert Queue() == before.Put(l);
    }

    method EnqueueGL(addr: int, dir: int, speed: int, maxspeed: int, f: int) returns (rc: int)
      requires Valid()
      modifies this`queueIn, queue, glstate
      ensures Valid() && (Abstract(), rc) == Enqueue(driver, old(Abstract()), addr, dir, speed, maxspeed, f)
      decreases if IsInitializedGL(addr) then 0 else 2
    {
      if !(0 < addr < glstate.Length) {
        return SRCP_WRONGVALUE;
      }
      if !IsInitializedGL(addr) {
        var _ := CacheInitGL(addr, 'P', 1, 14, 1);
      }
      if QueueLen() >= QUEUELEN - 1 {
        return SRCP_TEMPORARILYPROHIBITED;
      }
      var l := glstate[addr];
      var steps := CalcSpeed(speed, maxspeed, l.nFs);
      PutQueue(Loco(0, l.protocol, l.version, l.nFunc, l.nFs, addr, steps, dir, f));
      rc := SRCP_OK;
    }

    method CacheInitGL(addr: int, protocol: char, version: int, nFs: int, nFunc: int) returns (rc: int)
      requires Valid()
      modifies this`queueIn, queue, glstate
      ensures Valid() && (Abstract(), rc) == Init(driver, old(Abstract()), addr, protocol, version, nFs, nFunc)
      decreases 1
    {
      if !(0 < addr < glstate.Length) {
        return SRCP_WRONGVALUE;
      }
      rc := driver.supports(protocol);
      if rc != SRCP_OK {
        return rc;
      }
      var (result, l) := driver.init(Loco(0, protocol, version, nFunc, nFs, addr, 0, 0, 0));
      rc := result;
      if rc == SRCP_OK {
        glstate[addr] := l.(state := 1);
        assert glstate[..] == old(glstate[..])[addr := l.(state := 1)];
        var _ := EnqueueGL(addr, 0, 0, 1, 0);
      }
    }

    /** The oldest command, if there is one. */
    method DequeueNextGL() returns (found: bool, l: Loco)
      requires Valid()
      modifies this`queueOut
      ensures Valid() && found == (old(Abstract()).queue != [])
      ensures found ==> old(Abstract()) == Abstract().(queue := [l] + Abstract().queue)
      ensures !found ==> Abstract() == old(Abstract())
    {
      l := queue[queueOut];
      if queueIn == queueOut {
        return false, l;
      }
      DropContents(Queue());
      queueOut := queueOut + 1;
      if queueOut == QUEUELEN {
        queueOut := 0;
      }
      found := true;
      assert Queue() == old(Queue()).Drop();
    }

    method CacheSetGL(addr: int, l: Loco) returns (rc: int)
      requires Valid()
      modifies glstate
      ensures Valid() && (Abstract(), rc) == CacheSet(old(Abstract()), addr, l)
    {
      if !(0 < addr < glstate.Length) {
        return SRCP_WRONGVALUE;
      }
      glstate[addr] := glstate[addr].(direction := l.direction, speed := l.speed, funcs := l.funcs, nFs := l.nFs, nFunc := l.nFunc);
      if glstate[addr].state == 2 {
        glstate[addr] := CLEARED;
      }
      rc := SRCP_OK;
      assert glstate[..] == CacheSet(old(Abstract()), addr, l).0.locos;
    }

    method CacheTermGL(addr: int) returns (rc: int)
      requires Valid()
      modifies this`queueIn, queue, glstate
      ensures Valid() && (Abstract(), rc) == Term(driver, old(Abstract()), addr)
    {
      hide Enqueue, CacheSet;
      if !IsInitializedGL(addr) {
        return SRCP_NODATA;
      }
      var tmp := glstate[addr];
      if tmp.speed != 0 {
        tmp := tmp.(speed := 0, direction := 2);
        var _ := EnqueueGL(addr, tmp.direction, tmp.speed, tmp.nFs, tmp.funcs);
        var _ := CacheSetGL(addr, tmp);
      }
      ghost var before := glstate[..];
      glstate[addr] := CLEARED;
      assert glstate[..] == before[addr := CLEARED];
      rc := SRCP_OK;
    }

    method CacheLockGL(addr: int, duration: int, session: nat) returns (rc: int)
      requires Valid()
      modifies this`lockedBy, this`lockDuration
      ensures Valid() && (Abstract(), rc) == Lock(old(Abstract()), addr, duration, session)
    {
      if !IsInitializedGL(addr) {
        return SRCP_WRONGVALUE;
      }
      if lockedBy == session || lockedBy == 0 {
        lockedBy, lockDuration := session, duration;
        rc := SRCP_OK;
      } else {
        rc := SRCP_DEVICELOCKED;
      }
    }

    method CacheUnlockGL(addr: int, session: nat) returns (rc: int)
      requires Valid()
      modifies this`lockedBy
      ensures Valid() && (Abstract(), rc) == Unlock(old(Abstract()), addr, session)
    {
      if !IsInitializedGL(addr) {
        return SRCP_WRONGVALUE;
      }
      if lockedBy == 0 || lockedBy == session {
        lockedBy := 0;
        rc := SRCP_OK;
      } else {
        rc := SRCP_DEVICELOCKED;
      }
    }

    method CacheGetLockGL(addr: int, before: nat) returns (session: nat)
      requires Valid()
      ensures session == LockSeen(Abstract(), addr, before)
    {
      session := if IsInitializedGL(addr) then lockedBy else before;
    }

    // ----- The commands of the sessions -----

    method HandleSetGL(session: nat, addr: int, dir: int, speed: int, maxspeed: int, f: int) returns (rc: int)
      requires Valid()
      modifies this`queueIn, queue, glstate
      ensures Valid()
      ensures (Abstract(), rc) == Execute(driver, old(Abstract()), SetGL(session, addr, dir, speed, maxspeed, f))
    {
      hide Enqueue;
      var lockid := CacheGetLockGL(addr, 0);
      if lockid == 0 || lockid == session || dir == 2 {
        rc := EnqueueGL(addr, dir, speed, maxspeed, f);
      } else {
        rc := SRCP_DEVICELOCKED;
      }
    }

    method HandleInitGL(session: nat, addr: int, protocol: char, version: int, nFs: int, nFunc: int) returns (rc: int)
      requires Valid()
      modifies this`queueIn, queue, glstate
      ensures Valid()
      ensures (Abstract(), rc) == Execute(driver, old(Abstract()), InitGL(session, addr, protocol, version, nFs, nFunc))
    {
      hide Init;
      var lockid := CacheGetLockGL(addr, 0);
      if lockid == 0 || lockid == session {
        rc := CacheInitGL(addr, protocol, version, nFs, nFunc);
      } else {
        rc := SRCP_DEVICELOCKED;
      }
    }

    /** `before` is what the lock variable holds when nothing has been looked up. */
    method HandleTermGL(session: nat, addr: int, before: nat) returns (rc: int)
      requires Valid()
      modifies this`queueIn, this`lockedBy, queue, glstate
      ensures Valid()
      ensures (Abstract(), rc) == Execute(driver, old(Abstract()), TermGL(session, addr, before))
    {
      hide Term, Unlock;
      rc := SRCP_UNSUPPORTEDDEVICEGROUP;
      var lockid := CacheGetLockGL(addr, before);
      if lockid == 0 {
        rc := CacheTermGL(addr);
      } else if lockid == session {
        var unlocked := CacheUnlockGL(addr, session);
        if unlocked == SRCP_OK {
          rc := CacheTermGL(addr);
        }
      } else {
        rc := SRCP_DEVICELOCKED;
      }
    }

    method UnlockGLBySessionid(session: nat)
      requires Valid()
      modifies this`lockedBy
      ensures Valid() && Abstract() == EndSession(old(Abstract()), session)
    {
      hide Unlock;
      for j := 1 to glstate.Length
        invariant Valid() && glstate[..] == old(glstate[..]) && queueIn == old(queueIn) && queue[..] == old(queue[..])
        invariant UnlockFrom(Abstract(), j, session) == EndSession(old(Abstract()), session)
      {
        if lockedBy == session {
          var _ := CacheUnlockGL(j, session);
        }
      }
    }
  }
}
