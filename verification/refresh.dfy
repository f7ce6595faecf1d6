/** The refresh of locomotives: one packet per call, round-robin over the known addresses and the
    packets of each. */
module Refresh {
  import opened PacketPool

  /** Which locomotive of the list and which of its packets is next; `fx` starts at -1. */
  datatype Cursor = Cursor(loco: nat, fx: int)

  const NMRA_PACKETS: nat := 2
  const MAERKLIN_PACKETS: nat := 5

  /** The cursor after one call, for `p` packets a locomotive and `n` known addresses. */
  function Advance(p: nat, n: nat, c: Cursor): Cursor {
    if c.fx + 1 < p - 1 then Cursor(c.loco, c.fx + 1)
    else if c.loco + 1 >= n then Cursor(0, -1)
    else Cursor(c.loco + 1, -1)
  }

  predicate OnList(p: nat, n: nat, c: Cursor) {
    c.loco < n && -1 <= c.fx < p - 1
  }

  datatype Sent = Nmra(adr: int, second: bool, bytes: seq<bv8>) | Maerklin(adr: int, fx: int, bytes: seq<bv8>)

  function NmraSent(adr: int, fx: int, p: NmraPacket): Sent {
    if fx < 0 then Nmra(adr, false, p.packet) else Nmra(adr, true, p.fxPacket)
  }

  function MaerklinSent(adr: int, fx: int, p: MaerklinPacket): Sent {
    Maerklin(adr, fx,
             if fx < 0 then p.packet else if fx == 0 then p.f1 else if fx == 1 then p.f2 else if fx == 2 then p.f3 else p.f4)
  }

  class Refresher {
    const nmraPool: NmraPool
    const maerklinPool: MaerklinPool
    const bothProtocols: bool
    var maerklinRefresh: bool
    var lastMaerklinLoco: nat
    var lastMaerklinFx: int
    var lastNmraLoco: nat
    var lastNmraFx: int

    constructor (nmra: NmraPool, maerklin: MaerklinPool, both: bool, maerklinFirst: bool)
      ensures nmraPool == nmra && maerklinPool == maerklin && bothProtocols == both && maerklinRefresh == maerklinFirst
      ensures NmraCursor() == MaerklinCursor() == Cursor(0, -1)
    {
      nmraPool, maerklinPool, bothProtocols, maerklinRefresh := nmra, maerklin, both, maerklinFirst;
      lastMaerklinLoco, lastMaerklinFx, lastNmraLoco, lastNmraFx := 0, -1, 0, -1;
    }

    function NmraCursor(): Cursor
      reads this
    {
      Cursor(lastNmraLoco, lastNmraFx)
    }

    function MaerklinCursor(): Cursor
      reads this
    {
      Cursor(lastMaerklinLoco, lastMaerklinFx)
    }

    ghost predicate Valid()
      reads this, nmraPool, nmraPool.packets, nmraPool.knownAddresses
      reads maerklinPool, maerklinPool.packets, maerklinPool.knownAddresses
    {
      && nmraPool.Valid() && maerklinPool.Valid()
      && OnList(NMRA_PACKETS, |Shown(nmraPool.Abstract(), NMRA_IDLE)|, NmraCursor())
      && OnList(MAERKLIN_PACKETS, |Shown(maerklinPool.Abstract(), MAERKLIN_IDLE)|, MaerklinCursor())
    }

    /** Sends the packet under the cursor of the protocol whose turn it is and moves that cursor on. */
    method RefreshLoco() returns (sent: Sent)
      requires Valid()
      modifies this
      ensures Valid()
      ensures maerklinRefresh == (if bothProtocols then !old(maerklinRefresh) else old(maerklinRefresh))
      ensures old(maerklinRefresh) ==>
                var pool, c := maerklinPool.Abstract(), old(MaerklinCursor());
                var list := Shown(pool, MAERKLIN_IDLE);
                && sent == MaerklinSent(list[c.loco], c.fx, pool.store[list[c.loco]])
                && MaerklinCursor() == Advance(MAERKLIN_PACKETS, |list|, c)
                && NmraCursor() == old(NmraCursor())
      ensures !old(maerklinRefresh) ==>
                var pool, c := nmraPool.Abstract(), old(NmraCursor());
                var list := Shown(pool, NMRA_IDLE);
                && sent == NmraSent(list[c.loco], c.fx, pool.store[list[c.loco]])
                && NmraCursor() == Advance(NMRA_PACKETS, |list|, c)
                && MaerklinCursor() == old(MaerklinCursor())
    {
      if maerklinRefresh {
        sent := RefreshMaerklin();
      } else {
        sent := RefreshNmra();
      }
      if bothProtocols {
        maerklinRefresh := !maerklinRefresh;
      }
    }

    method RefreshMaerklin() returns (sent: Sent)
      requires Valid()
      modifies this`lastMaerklinLoco, this`lastMaerklinFx
      ensures Valid()
      ensures var pool, c := maerklinPool.Abstract(), old(MaerklinCursor());
              var list := Shown(pool, MAERKLIN_IDLE);
              && sent == MaerklinSent(list[c.loco], c.fx, pool.store[list[c.loco]])
              && MaerklinCursor() == Advance(MAERKLIN_PACKETS, |list|, c)
    {
      var adr := maerklinPool.knownAddresses[lastMaerklinLoco];
      sent := MaerklinSent(adr, lastMaerklinFx, maerklinPool.packets[adr]);
      lastMaerklinFx := lastMaerklinFx + 1;
      if lastMaerklinFx == 4 {
        lastMaerklinFx := -1;
        lastMaerklinLoco := lastMaerklinLoco + 1;
        if lastMaerklinLoco >= maerklinPool.nrOfKnownAddresses {
          lastMaerklinLoco := 0;
        }
      }
    }

    method RefreshNmra() returns (sent: Sent)
      requires Valid()
      modifies this`lastNmraLoco, this`lastNmraFx
      ensures Valid()
      ensures var pool, c := nmraPool.Abstract(), old(NmraCursor());
              var list := Shown(pool, NMRA_IDLE);
              && sent == NmraSent(list[c.loco], c.fx, pool.store[list[c.loco]])
              && NmraCursor() == Advance(NMRA_PACKETS, |list|, c)
    {
      var adr := nmraPool.knownAddresses[lastNmraLoco];
      var p := nmraPool.packets[adr].value;
      sent := NmraSent(adr, lastNmraFx, p);
      if lastNmraFx < 0 {
        lastNmraFx := 0;
      } else {
        lastNmraFx := 1;
      }
      if lastNmraFx == 1 {
        lastNmraLoco := lastNmraLoco + 1;
        lastNmraFx := -1;
        if lastNmraLoco >= nmraPool.nrOfKnownAddresses {
          lastNmraLoco := 0;
        }
      }
    }
  }

  // ----- Fairness -----

  /** Where the cursor stands in the round of all packets. */
  function Position(p: nat, c: Cursor): int {
    if p == NMRA_PACKETS then 2 * c.loco + c.fx + 1 else 5 * c.loco + c.fx + 1
  }

  /** The cursor after `k` calls without updates. */
  function After(p: nat, n: nat, c: Cursor, k: nat): Cursor {
    if k == 0 then c else Advance(p, n, After(p, n, c, k - 1))
  }

  predicate Protocol(p: nat) {
    p == NMRA_PACKETS || p == MAERKLIN_PACKETS
  }

  lemma {:induction false} AfterPosition(p: nat, n: nat, c: Cursor, k: nat)
    requires Protocol(p) && OnList(p, n, c) && k <= p * n
    ensures var d := After(p, n, c, k);
            OnList(p, n, d)
            && Position(p, d) == if Position(p, c) + k < p * n then Position(p, c) + k else Position(p, c) + k - p * n
    decreases k
  {
    if k > 0 {
      AfterPosition(p, n, c, k - 1);
    }
  }

  /** In one round of calls every packet of every known locomotive is sent exactly once. */
  lemma RoundSendsEachOnce(p: nat, n: nat, c: Cursor, target: Cursor)
    requires Protocol(p) && OnList(p, n, c) && OnList(p, n, target)
    ensures exists k :: 0 <= k < p * n && After(p, n, c, k) == target
                        && forall l :: 0 <= l < p * n && After(p, n, c, l) == target ==> l == k
    ensures After(p, n, c, p * n) == c
  {
    var d := Position(p, target) - Position(p, c);
    var k := if d >= 0 then d else d + p * n;
    forall l: nat | l <= p * n
      ensures After(p, n, c, l) == target && l < p * n ==> l == k
      ensures l == k ==> After(p, n, c, l) == target
      ensures l == p * n ==> After(p, n, c, l) == c
    {
      AfterPosition(p, n, c, l);
    }
    assert After(p, n, c, k) == target;
  }

  // ----- What goes out in a round -----

  /** The packets an address has after these updates of a pool that starts with `p0`. */
  function Latest<P>(changes: seq<Change<P>>, p0: P, a: int): P {
    match LastWrite(changes, a)
    case Some(p) => p
    case None => p0
  }

  lemma ShownAreLatest<P>(idle: int, p0: P, changes: seq<Change<P>>, a: int)
    requires a in Shown(Run(Initial(idle, p0), idle, changes), idle)
    ensures var pool := Run(Initial(idle, p0), idle, changes);
            a in pool.store && pool.store[a] == Latest(changes, p0, a)
  {
    RunShape(idle, p0, changes);
    if changes != [] {
      LastWriteSome(changes, a);
      assert FirstOther(idle, changes) == |changes| ==> changes[0].adr == idle;
      hide Run;
    }
  }

  /** Everything there is to send: the packets of each address one after the other. */
  function MaerklinAll(list: seq<int>, changes: seq<Change<MaerklinPacket>>, p0: MaerklinPacket): (r: seq<Sent>)
    ensures |r| == MAERKLIN_PACKETS * |list|
  {
    if list == [] then []
    else
      var a, p := list[0], Latest(changes, p0, list[0]);
      [Maerklin(a, -1, p.packet), Maerklin(a, 0, p.f1), Maerklin(a, 1, p.f2), Maerklin(a, 2, p.f3), Maerklin(a, 3, p.f4)]
      + MaerklinAll(list[1..], changes, p0)
  }

  function NmraAll(list: seq<int>, changes: seq<Change<NmraPacket>>, p0: NmraPacket): (r: seq<Sent>)
    ensures |r| == NMRA_PACKETS * |list|
  {
    if list == [] then []
    else
      var a, p := list[0], Latest(changes, p0, list[0]);
      [Nmra(a, false, p.packet), Nmra(a, true, p.fxPacket)] + NmraAll(list[1..], changes, p0)
  }

  lemma {:induction false} MaerklinAllAt(list: seq<int>, changes: seq<Change<MaerklinPacket>>, p0: MaerklinPacket, l: nat, j: nat)
    requires l < |list| && j < MAERKLIN_PACKETS
    ensures MaerklinAll(list, changes, p0)[MAERKLIN_PACKETS * l + j] == MaerklinSent(list[l], j - 1, Latest(changes, p0, list[l]))
    decreases l
  {
    hide Latest;
    if l > 0 {
      MaerklinAllAt(list[1..], changes, p0, l - 1, j);
    }
  }

  lemma {:induction false} NmraAllAt(list: seq<int>, changes: seq<Change<NmraPacket>>, p0: NmraPacket, l: nat, j: nat)
    requires l < |list| && j < NMRA_PACKETS
    ensures NmraAll(list, changes, p0)[NMRA_PACKETS * l + j] == NmraSent(list[l], j - 1, Latest(changes, p0, list[l]))
    decreases l
  {
    hide Latest;
    if l > 0 {
      NmraAllAt(list[1..], changes, p0, l - 1, j);
    }
  }

  function Turned<T>(s: seq<T>, k: nat): seq<T>
    requires k <= |s|
  {
    s[k..] + s[..k]
  }

  /** After any updates, one round of calls from any cursor sends all five latest packets of every
      address on the list, in order and from the cursor on. */
  lemma MaerklinRound(p0: MaerklinPacket, changes: seq<Change<MaerklinPacket>>, c: Cursor, k: nat)
    requires var list := Shown(Run(Initial(MAERKLIN_IDLE, p0), MAERKLIN_IDLE, changes), MAERKLIN_IDLE);
             OnList(MAERKLIN_PACKETS, |list|, c) && k < MAERKLIN_PACKETS * |list|
    ensures var pool := Run(Initial(MAERKLIN_IDLE, p0), MAERKLIN_IDLE, changes);
            var list := Shown(pool, MAERKLIN_IDLE);
            var d := After(MAERKLIN_PACKETS, |list|, c, k);
            OnList(MAERKLIN_PACKETS, |list|, d) && list[d.loco] in pool.store
            && MaerklinSent(list[d.loco], d.fx, pool.store[list[d.loco]])
               == Turned(MaerklinAll(list, changes, p0), MAERKLIN_PACKETS * c.loco + c.fx + 1)[k]
  {
    var list := Shown(Run(Initial(MAERKLIN_IDLE, p0), MAERKLIN_IDLE, changes), MAERKLIN_IDLE);
    hide Run, MaerklinSent, Latest, After, Shown;
    AfterPosition(MAERKLIN_PACKETS, |list|, c, k);
    var d := After(MAERKLIN_PACKETS, |list|, c, k);
    ShownAreLatest(MAERKLIN_IDLE, p0, changes, list[d.loco]);
    MaerklinAllAt(list, changes, p0, d.loco, d.fx + 1);
  }

  /** The same for the two packets of every NMRA address. */
  lemma NmraRound(p0: NmraPacket, changes: seq<Change<NmraPacket>>, c: Cursor, k: nat)
    requires var list := Shown(Run(Initial(NMRA_IDLE, p0), NMRA_IDLE, changes), NMRA_IDLE);
             OnList(NMRA_PACKETS, |list|, c) && k < NMRA_PACKETS * |list|
    ensures var pool := Run(Initial(NMRA_IDLE, p0), NMRA_IDLE, changes);
            var list := Shown(pool, NMRA_IDLE);
            var d := After(NMRA_PACKETS, |list|, c, k);
            OnList(NMRA_PACKETS, |list|, d) && list[d.loco] in pool.store
            && NmraSent(list[d.loco], d.fx, pool.store[list[d.loco]])
               == Turned(NmraAll(list, changes, p0), NMRA_PACKETS * c.loco + c.fx + 1)[k]
  {
    var list := Shown(Run(Initial(NMRA_IDLE, p0), NMRA_IDLE, changes), NMRA_IDLE);
    hide Run, NmraSent, Latest, After, Shown;
    AfterPosition(NMRA_PACKETS, |list|, c, k);
    var d := After(NMRA_PACKETS, |list|, c, k);
    ShownAreLatest(NMRA_IDLE, p0, changes, list[d.loco]);
    NmraAllAt(list, changes, p0, d.loco, d.fx + 1);
  }

  // ----- Updates between the calls -----

  datatype Event<P> = Update(adr: int, p: P) | Call

  /** A pool and the cursor that goes round it. */
  datatype World<P> = World(pool: Pool<P>, cursor: Cursor)

  function Happen<P>(p: nat, idle: int, w: World<P>, e: Event<P>): World<P> {
    match e
    case Update(adr, q) => w.(pool := Updated(w.pool, idle, adr, q))
    case Call => w.(cursor := Advance(p, |Shown(w.pool, idle)|, w.cursor))
  }

  function HappenAll<P>(p: nat, idle: int, w: World<P>, events: seq<Event<P>>): World<P>
    decreases |events|
  {
    if events == [] then w else HappenAll(p, idle, Happen(p, idle, w, events[0]), events[1..])
  }

  /** The cursor stands on the list, and the locomotives on the list have packets. */
  ghost predicate Ready<P>(p: nat, idle: int, w: World<P>) {
    OnList(p, |Shown(w.pool, idle)|, w.cursor) && forall a :: a in Shown(w.pool, idle) ==> a in w.pool.store
  }

  /** Another address than the idle one has arrived. */
  predicate Started<P>(idle: int, w: World<P>) {
    w.pool.known != [] && w.pool.known != [idle]
  }

  lemma HappenReady<P>(p: nat, idle: int, w: World<P>, e: Event<P>)
    requires Protocol(p) && Ready(p, idle, w) && idle in w.pool.store
    ensures Ready(p, idle, Happen(p, idle, w, e)) && idle in Happen(p, idle, w, e).pool.store
    ensures Started(idle, w) ==> w.pool.known <= Happen(p, idle, w, e).pool.known && Started(idle, Happen(p, idle, w, e))
  {
    if e.Update? {
      UpdateKeepsPlaces(w.pool, idle, e.adr, e.p);
    }
  }

  lemma {:induction false} HappenAllGrows<P>(p: nat, idle: int, w: World<P>, events: seq<Event<P>>)
    requires Protocol(p) && Ready(p, idle, w) && idle in w.pool.store && Started(idle, w)
    ensures w.pool.known <= HappenAll(p, idle, w, events).pool.known
    decreases |events|
  {
    if events != [] {
      HappenReady(p, idle, w, events[0]);
      HappenAllGrows(p, idle, Happen(p, idle, w, events[0]), events[1..]);
    }
  }

  /** Whatever is updated, no call ever follows an address without packets. */
  lemma {:induction false} AlwaysReady<P>(p: nat, idle: int, w: World<P>, events: seq<Event<P>>)
    requires Protocol(p) && Ready(p, idle, w) && idle in w.pool.store
    ensures Ready(p, idle, HappenAll(p, idle, w, events))
    decreases |events|
  {
    if events != [] {
      HappenReady(p, idle, w, events[0]);
      AlwaysReady(p, idle, Happen(p, idle, w, events[0]), events[1..]);
    }
  }

  function Calls<P>(events: seq<Event<P>>): nat
    decreases |events|
  {
    if events == [] then 0 else (if events[0].Call? then 1 else 0) + Calls(events[1..])
  }

  /** Calls until the target is sent, if the list has `last` addresses in the end. */
  function Distance(p: nat, last: nat, c: Cursor, target: Cursor): int {
    var d := Position(p, target) - Position(p, c);
    if d >= 0 then d else d + p * last
  }

  lemma DistanceShrinks(p: nat, n: nat, last: nat, c: Cursor, target: Cursor)
    requires Protocol(p) && n <= last && OnList(p, n, c) && OnList(p, n, target) && c != target
    ensures Distance(p, last, Advance(p, n, c), target) < Distance(p, last, c, target)
  {
  }

  lemma {:induction false} TargetReached<P>(p: nat, idle: int, w: World<P>, events: seq<Event<P>>, last: nat, target: Cursor)
    returns (k: nat)
    requires Protocol(p) && Ready(p, idle, w) && idle in w.pool.store && Started(idle, w)
    requires OnList(p, |w.pool.known|, target) && |HappenAll(p, idle, w, events).pool.known| <= last
    requires Calls(events) > Distance(p, last, w.cursor, target)
    ensures k < |events| && events[k].Call? && HappenAll(p, idle, w, events[..k]).cursor == target
    decreases |events|
  {
    hide Updated, Distance;
    HappenAllGrows(p, idle, w, events);
    if events == [] {
      DistanceNotNegative(p, |w.pool.known|, last, w.cursor, target);
    } else if events[0].Call? && w.cursor == target {
      k := 0;
    } else {
      var e, v := events[0], Happen(p, idle, w, events[0]);
      HappenReady(p, idle, w, e);
      if e.Call? {
        DistanceShrinks(p, |w.pool.known|, last, w.cursor, target);
      }
      var l := TargetReached(p, idle, v, events[1..], last, target);
      k := l + 1;
      assert events[..k][1..] == events[1..][..l];
    }
  }

  lemma DistanceNotNegative(p: nat, n: nat, last: nat, c: Cursor, target: Cursor)
    requires Protocol(p) && n <= last && OnList(p, n, c) && OnList(p, n, target)
    ensures 0 <= Distance(p, last, c, target) < p * last
  {
  }

  /** New locomotives do not starve known ones: over any updates and calls, within as many calls as
      the final list has packets, every packet of every locomotive known at the start is sent. */
  lemma KnownAreServed<P>(p: nat, idle: int, w: World<P>, events: seq<Event<P>>, target: Cursor) returns (k: nat)
    requires Protocol(p) && Ready(p, idle, w) && idle in w.pool.store && Started(idle, w)
    requires OnList(p, |w.pool.known|, target)
    requires Calls(events) >= p * |HappenAll(p, idle, w, events).pool.known|
    ensures k < |events| && events[k].Call?
    ensures var v := HappenAll(p, idle, w, events[..k]);
            v.cursor == target && w.pool.known <= v.pool.known
  {
    var last := |HappenAll(p, idle, w, events).pool.known|;
    HappenAllGrows(p, idle, w, events);
    DistanceNotNegative(p, |w.pool.known|, last, w.cursor, target);
    k := TargetReached(p, idle, w, events, last, target);
    HappenAllGrows(p, idle, w, events[..k]);
  }

  // ----- Both protocols -----

  /** What one call does to both cursors. */
  datatype Turn = Turn(maerklin: bool, maerklinCursor: Cursor, nmraCursor: Cursor)

  function TakeTurn(t: Turn, m: nat, n: nat): Turn {
    if t.maerklin then Turn(false, Advance(MAERKLIN_PACKETS, m, t.maerklinCursor), t.nmraCursor)
    else Turn(true, t.maerklinCursor, Advance(NMRA_PACKETS, n, t.nmraCursor))
  }

  function TakeTurns(t: Turn, m: nat, n: nat, k: nat): Turn {
    if k == 0 then t else TakeTurn(TakeTurns(t, m, n, k - 1), m, n)
  }

  /** With both protocols enabled the calls alternate, and each protocol goes through its own
      round as if it were alone. */
  lemma {:induction false} ProtocolsAlternate(t: Turn, m: nat, n: nat, k: nat)
    ensures var u := TakeTurns(t, m, n, 2 * k);
            && u.maerklin == t.maerklin
            && TakeTurn(u, m, n).maerklin == !t.maerklin
            && u.maerklinCursor == After(MAERKLIN_PACKETS, m, t.maerklinCursor, k)
            && u.nmraCursor == After(NMRA_PACKETS, n, t.nmraCursor, k)
    decreases k
  {
    if k > 0 {
      ProtocolsAlternate(t, m, n, k - 1);
      var v := TakeTurns(t, m, n, 2 * (k - 1));
      assert TakeTurns(t, m, n, 2 * k - 1) == TakeTurn(v, m, n);
      assert TakeTurns(t, m, n, 2 * k) == TakeTurn(TakeTurn(v, m, n), m, n);
    }
  }
}
