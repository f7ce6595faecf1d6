/** The refresh and the decoders put together: whatever happens to other locomotives, a decoder that
    hears the refresh for long enough ends with its last order. */
module Delivery {
  import opened Decoder
  import opened LocoCommand
  import opened PacketPool
  import opened Refresh
  import opened CommandStation
  import opened Track

  /** Every known address has the packets of some order for it. */
  ghost predicate Ordered(pool: Pool<NmraPacket>) {
    && Distinct(pool.known)
    && (pool.known == [NMRA_IDLE]
        || forall a :: a in pool.known ==> a in pool.store && exists o :: Allowed(o) && KeyOf(o) == a && Carry(pool.store[a], o))
  }

  lemma ObeyedOrdered(before: Pool<NmraPacket>, o: Order, after: Pool<NmraPacket>)
    requires Ordered(before) && Obeyed(before, o, after)
    ensures Ordered(after)
  {
    hide Carry, KeyOf;
    if Allowed(o) {
      KeysFit(o, o);
      forall a | a in after.known
        ensures a in after.store && exists p :: Allowed(p) && KeyOf(p) == a && Carry(after.store[a], p)
      {
        if a != KeyOf(o) {
          assert a in before.known && before.known != [NMRA_IDLE];
        }
      }
    }
  }

  lemma {:induction false} RunsOrdered(idle: NmraPacket, pools: seq<Pool<NmraPacket>>, orders: seq<Order>)
    requires Runs(idle, pools, orders)
    ensures Ordered(pools[|orders|])
    decreases |orders|
  {
    hide Obeyed, Ordered;
    if orders == [] {
      assert Ordered(pools[0]) by { InitialOrdered(idle); }
    } else {
      var n := |orders| - 1;
      RunsOrdered(idle, pools[..n + 1], orders[..n]);
      ObeyedOrdered(pools[n], orders[n], pools[n + 1]);
    }
  }

  lemma InitialOrdered(idle: NmraPacket)
    ensures Ordered(Initial(NMRA_IDLE, idle))
  {
  }

  // ----- What a decoder hears while orders for others arrive -----

  type Station = World<NmraPacket>

  ghost predicate Working(w: Station) {
    Ready(NMRA_PACKETS, NMRA_IDLE, w) && NMRA_IDLE in w.pool.store
  }

  /** The packet under the cursor. */
  ghost function Sending(w: Station): seq<bv8>
    requires Working(w)
  {
    var a := Shown(w.pool, NMRA_IDLE)[w.cursor.loco];
    NmraSent(a, w.cursor.fx, w.pool.store[a]).bytes
  }

  ghost function HearOne(own: Address, m: Mode, d: Loco, w: Station, e: Event<NmraPacket>): Loco
    requires Working(w)
  {
    if e.Call? then ExecuteParsed(own, m, d, Received(Sending(w))) else d
  }

  /** The decoder after all calls of the refresh among the events. */
  ghost function HearAll(own: Address, m: Mode, d: Loco, w: Station, events: seq<Event<NmraPacket>>): Loco
    requires Working(w)
    decreases |events|
  {
    if events == [] then d
    else
      HappenReady(NMRA_PACKETS, NMRA_IDLE, w, events[0]);
      HearAll(own, m, HearOne(own, m, d, w, events[0]), Happen(NMRA_PACKETS, NMRA_IDLE, w, events[0]), events[1..])
  }

  /** A call, or the update that an order for another decoder makes. */
  ghost predicate Elsewhere(e: Event<NmraPacket>, o: Order) {
    e.Update? ==> exists q :: Allowed(q) && KeyOf(q) == e.adr && Carry(e.p, q) && Own(q.address, q.mode) != Own(o.address, o.mode)
  }

  /** The refresh goes over the packets `p` of the order at place `t` of the list. */
  ghost predicate Carried(w: Station, o: Order, p: NmraPacket, t: nat) {
    && Working(w) && Ordered(w.pool) && Allowed(o) && t < |w.pool.known| && w.pool.known[t] == KeyOf(o)
    && KeyOf(o) in w.pool.store && w.pool.store[KeyOf(o)] == p
  }

  lemma NotIdle(w: Station, o: Order, p: NmraPacket, t: nat)
    requires Carried(w, o, p, t)
    ensures w.pool.known != [NMRA_IDLE] && Shown(w.pool, NMRA_IDLE) == w.pool.known && Started(NMRA_IDLE, w)
  {
    hide Ordered;
    KeysFit(o, o);
  }

  lemma OtherUpdate(w: Station, o: Order, p: NmraPacket, t: nat, q: Order, r: NmraPacket)
    requires Carried(w, o, p, t) && Allowed(q) && Carry(r, q) && Own(q.address, q.mode) != Own(o.address, o.mode)
    ensures Carried(Happen(NMRA_PACKETS, NMRA_IDLE, w, Update(KeyOf(q), r)), o, p, t)
  {
    NotIdle(w, o, p, t);
    KeysFit(o, q);
    HappenReady(NMRA_PACKETS, NMRA_IDLE, w, Update(KeyOf(q), r));
    hide Carry, KeyOf, Own, Ordered, Ready, Allowed;
    var after := Updated(w.pool, NMRA_IDLE, KeyOf(q), r);
    assert Obeyed(w.pool, q, after);
    ObeyedOrdered(w.pool, q, after);
  }

  lemma StaysCarried(w: Station, o: Order, p: NmraPacket, t: nat, e: Event<NmraPacket>)
    requires Carried(w, o, p, t) && Elsewhere(e, o)
    ensures Carried(Happen(NMRA_PACKETS, NMRA_IDLE, w, e), o, p, t)
  {
    hide Carry, KeyOf, Own, Ordered, Allowed;
    if e.Update? {
      var q :| Allowed(q) && KeyOf(q) == e.adr && Carry(e.p, q) && Own(q.address, q.mode) != Own(o.address, o.mode);
      OtherUpdate(w, o, p, t, q, e.p);
    } else {
      HappenReady(NMRA_PACKETS, NMRA_IDLE, w, e);
    }
  }

  /** A decoder that has heard one of the packets, both or none since the order. */
  function Toward(o: Order, d: Loco, first: bool, second: bool): Loco {
    var e := if first then First(o, d) else d;
    if second then Second(o, e) else e
  }

  lemma HearPart(o: Order, d: Loco, first: bool, second: bool)
    ensures First(o, Toward(o, d, first, second)) == Toward(o, d, true, second)
    ensures Second(o, Toward(o, d, first, second)) == Toward(o, d, first, true)
    ensures Toward(o, d, true, true) == Commanded(d, o.direction, o.speed, o.func, o.nspeed, o.nfuncs)
  {
    EffectsTogether(d, o.direction, o.speed, o.func, o.nspeed, o.nfuncs);
    EffectsTogether(First(o, d), o.direction, o.speed, o.func, o.nspeed, o.nfuncs);
    hide FirstEffect, SecondEffect, Commanded;
  }

  /** Packets of another address are heard without effect. */
  lemma OtherLoco(pool: Pool<NmraPacket>, a: int, o: Order, m: Mode, d: Loco)
    requires Ordered(pool) && Allowed(o) && a in pool.known && a != KeyOf(o) && pool.known != [NMRA_IDLE]
    ensures a in pool.store
            && ExecuteParsed(Own(o.address, o.mode), m, d, Received(pool.store[a].packet)) == d
            && ExecuteParsed(Own(o.address, o.mode), m, d, Received(pool.store[a].fxPacket)) == d
  {
    hide ExecuteParsed, Received, KeyOf, Answers, PartsAnswer;
    var p :| Allowed(p) && KeyOf(p) == a && Carry(pool.store[a], p);
    KeysFit(o, p);
  }

  /** Each call moves the decoder of the order on if it is its turn and leaves it as it is if not. */
  lemma OneMoreCall(w: Station, o: Order, p: NmraPacket, t: nat, d: Loco, first: bool, second: bool)
    requires Carried(w, o, p, t) && PartsAnswer(p, o)
    ensures HearOne(Own(o.address, o.mode), ModeOf(o.nspeed), Toward(o, d, first, second), w, Call)
            == Toward(o, d, first || w.cursor == Cursor(t, -1), second || w.cursor == Cursor(t, 0))
  {
    NotIdle(w, o, p, t);
    HearPart(o, d, first, second);
    hide ExecuteParsed, Received, KeyOf, First, Second, Own, Toward, Carry, Allowed;
    var a := w.pool.known[w.cursor.loco];
    if w.cursor.loco != t {
      OtherLoco(w.pool, a, o, ModeOf(o.nspeed), Toward(o, d, first, second));
    }
  }

  /** Whether the target is sent. */
  ghost predicate Meets(w: Station, events: seq<Event<NmraPacket>>, target: Cursor)
    decreases |events|
  {
    events != []
    && ((events[0].Call? && w.cursor == target) || Meets(Happen(NMRA_PACKETS, NMRA_IDLE, w, events[0]), events[1..], target))
  }

  lemma {:induction false} MeetsAt(w: Station, events: seq<Event<NmraPacket>>, k: nat, target: Cursor)
    requires k < |events| && events[k].Call? && HappenAll(NMRA_PACKETS, NMRA_IDLE, w, events[..k]).cursor == target
    ensures Meets(w, events, target)
    decreases |events|
  {
    if k > 0 {
      assert events[..k][1..] == events[1..][..k - 1];
      MeetsAt(Happen(NMRA_PACKETS, NMRA_IDLE, w, events[0]), events[1..], k - 1, target);
    }
  }

  lemma {:induction false} HeardSoFar(w: Station, o: Order, p: NmraPacket, t: nat, d: Loco, first: bool, second: bool,
                                      events: seq<Event<NmraPacket>>)
    requires Carried(w, o, p, t) && PartsAnswer(p, o) && forall i :: 0 <= i < |events| ==> Elsewhere(events[i], o)
    ensures HearAll(Own(o.address, o.mode), ModeOf(o.nspeed), Toward(o, d, first, second), w, events)
            == Toward(o, d, first || Meets(w, events, Cursor(t, -1)), second || Meets(w, events, Cursor(t, 0)))
    decreases |events|
  {
    hide HearOne, Toward, Own, PartsAnswer, Elsewhere;
    if events != [] {
      var e, v := events[0], Happen(NMRA_PACKETS, NMRA_IDLE, w, events[0]);
      StaysCarried(w, o, p, t, e);
      assert HearOne(Own(o.address, o.mode), ModeOf(o.nspeed), Toward(o, d, first, second), w, e)
             == Toward(o, d, first || (e.Call? && w.cursor == Cursor(t, -1)), second || (e.Call? && w.cursor == Cursor(t, 0))) by {
        if e.Call? {
          OneMoreCall(w, o, p, t, d, first, second);
        } else {
          NothingHeard(Own(o.address, o.mode), ModeOf(o.nspeed), Toward(o, d, first, second), w, e);
        }
      }
      HeardSoFar(v, o, p, t, d, first || (e.Call? && w.cursor == Cursor(t, -1)),
                 second || (e.Call? && w.cursor == Cursor(t, 0)), events[1..]);
    }
  }

  lemma NothingHeard(own: Address, m: Mode, d: Loco, w: Station, e: Event<NmraPacket>)
    requires Working(w) && e.Update?
    ensures HearOne(own, m, d, w, e) == d
  {
  }

  /** The refresh goes over the last order for every decoder that has one. */
  lemma LastOrderIsCarried(idle: NmraPacket, pools: seq<Pool<NmraPacket>>, orders: seq<Order>, o: Order, w: Station)
    returns (t: nat)
    requires Runs(idle, pools, orders) && Allowed(o) && LastOrder(orders, Own(o.address, o.mode)) == Some(o)
    requires w.pool == pools[|orders|] && OnList(NMRA_PACKETS, |w.pool.known|, w.cursor)
    ensures KeyOf(o) in w.pool.store && Carried(w, o, w.pool.store[KeyOf(o)], t) && Carry(w.pool.store[KeyOf(o)], o)
  {
    RunsOrdered(idle, pools, orders);
    RefreshRepeatsLastOrder(idle, pools, orders, o);
    IdleStaysInStore(idle, pools, orders);
    KeysFit(o, o);
    hide Runs, Carry, Own, KeyOf, Allowed;
    t :| t < |w.pool.known| && w.pool.known[t] == KeyOf(o);
  }

  lemma {:induction false} IdleStaysInStore(idle: NmraPacket, pools: seq<Pool<NmraPacket>>, orders: seq<Order>)
    requires Runs(idle, pools, orders)
    ensures NMRA_IDLE in pools[|orders|].store
    decreases |orders|
  {
    hide Carry, Allowed, KeyOf;
    if orders != [] {
      var n := |orders| - 1;
      IdleStaysInStore(idle, pools[..n + 1], orders[..n]);
      assert Obeyed(pools[n], orders[n], pools[n + 1]);
    }
  }

  /** After any orders, and with any orders for other locomotives between the calls, a decoder that
      hears as many calls as the final list has packets, starting anywhere in the round, ends with the
      last order allowed for it, whatever state it was in. */
  lemma LastOrderIsDelivered(idle: NmraPacket, pools: seq<Pool<NmraPacket>>, orders: seq<Order>, o: Order,
                             w: Station, events: seq<Event<NmraPacket>>, d: Loco)
    requires Runs(idle, pools, orders) && Allowed(o) && Exact(o) && LastOrder(orders, Own(o.address, o.mode)) == Some(o)
    requires w.pool == pools[|orders|] && OnList(NMRA_PACKETS, |w.pool.known|, w.cursor)
    requires forall i :: 0 <= i < |events| ==> Elsewhere(events[i], o)
    requires Calls(events) >= NMRA_PACKETS * |HappenAll(NMRA_PACKETS, NMRA_IDLE, w, events).pool.known|
    ensures Working(w)
            && HearAll(Own(o.address, o.mode), ModeOf(o.nspeed), d, w, events)
               == Commanded(d, o.direction, o.speed, o.func, o.nspeed, o.nfuncs)
  {
    hide Runs, Own, KeyOf, Allowed, Elsewhere, Answers, OthersIgnore, PartsAnswer, HearAll, First, Second, Commanded;
    var t := LastOrderIsCarried(idle, pools, orders, o, w);
    var p := w.pool.store[KeyOf(o)];
    NotIdle(w, o, p, t);
    var k := KnownAreServed(NMRA_PACKETS, NMRA_IDLE, w, events, Cursor(t, -1));
    MeetsAt(w, events, k, Cursor(t, -1));
    var l := KnownAreServed(NMRA_PACKETS, NMRA_IDLE, w, events, Cursor(t, 0));
    MeetsAt(w, events, l, Cursor(t, 0));
    HeardSoFar(w, o, p, t, d, false, false, events);
    HearPart(o, d, false, false);
  }
}
