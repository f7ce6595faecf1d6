/** The packet pools: a list of known addresses and, by address, the packets that refresh a decoder. */
module PacketPool {

  /** The list of known addresses in order of arrival, and the latest packets of each address. */
  datatype Pool<P> = Pool(known: seq<int>, store: map<int, P>)

  /** A pool starts with an idle entry, which makes room for the first locomotive. */
  function Initial<P>(idle: int, p: P): Pool<P> {
    Pool([idle], map[idle := p])
  }

  function Updated<P>(pool: Pool<P>, idle: int, adr: int, p: P): Pool<P> {
    var known := if pool.known == [idle] then [] else pool.known;
    Pool(if adr in pool.known then known else known + [adr], pool.store[adr := p])
  }

  datatype Change<P> = Change(adr: int, p: P)

  function Run<P>(pool: Pool<P>, idle: int, changes: seq<Change<P>>): Pool<P>
    decreases |changes|
  {
    if changes == [] then pool
    else
      var before := Run(pool, idle, changes[..|changes| - 1]);
      var c := changes[|changes| - 1];
      Updated(before, idle, c.adr, c.p)
  }

  ghost predicate Distinct(s: seq<int>) {
    forall i, j :: 0 <= i < j < |s| ==> s[i] != s[j]
  }

  datatype Option<T> = None | Some(value: T)

  /** The packets of the latest update of an address. */
  function LastWrite<P>(changes: seq<Change<P>>, adr: int): Option<P>
    decreases |changes|
  {
    if changes == [] then None
    else if changes[|changes| - 1].adr == adr then Some(changes[|changes| - 1].p)
    else LastWrite(changes[..|changes| - 1], adr)
  }

  /** After any updates of addresses other than the idle one: known are exactly the addresses
      updated, each once, and each has its latest packets. The idle entry leaves with the first
      update and never returns. */
  lemma {:induction false} PoolIsLastWriteMap<P>(idle: int, p0: P, changes: seq<Change<P>>)
    requires forall i :: 0 <= i < |changes| ==> changes[i].adr != idle
    ensures var pool := Run(Initial(idle, p0), idle, changes);
            && Distinct(pool.known)
            && (if changes == [] then pool.known == [idle] else idle !in pool.known && pool.known != [])
            && (changes != [] ==> forall a :: a in pool.known <==> LastWrite(changes, a).Some?)
            && (forall a :: LastWrite(changes, a).Some? ==> a in pool.store && pool.store[a] == LastWrite(changes, a).value)
            && idle in pool.store
    decreases |changes|
  {
    if changes != [] {
      var n := |changes| - 1;
      PoolIsLastWriteMap(idle, p0, changes[..n]);
    }
  }

  /** Known addresses can be looked up: the refresh never follows a missing packet. */
  lemma KnownHavePackets<P>(idle: int, p0: P, changes: seq<Change<P>>)
    requires forall i :: 0 <= i < |changes| ==> changes[i].adr != idle
    ensures var pool := Run(Initial(idle, p0), idle, changes);
            forall a :: a in pool.known ==> a in pool.store
  {
    PoolIsLastWriteMap(idle, p0, changes);
  }

  // ----- The idle address as an address of its own -----

  /** The list the refresh goes through: of an empty list the first place still holds the idle entry. */
  function Shown<P>(pool: Pool<P>, idle: int): (list: seq<int>)
    ensures list != []
  {
    if pool.known == [] then [idle] else pool.known
  }

  /** What the refresh goes through never gets shorter, and once another address than the idle one
      has arrived, addresses keep their places. */
  lemma UpdateKeepsPlaces<P>(pool: Pool<P>, idle: int, adr: int, p: P)
    ensures |Shown(Updated(pool, idle, adr, p), idle)| >= |Shown(pool, idle)|
    ensures pool.known != [] && pool.known != [idle] ==>
              pool.known <= Updated(pool, idle, adr, p).known != [idle]
  {
  }

  lemma {:induction false} LastWriteSome<P>(changes: seq<Change<P>>, adr: int)
    ensures LastWrite(changes, adr).Some? <==> exists i :: 0 <= i < |changes| && changes[i].adr == adr
    decreases |changes|
  {
    if changes != [] {
      var n := |changes| - 1;
      LastWriteSome(changes[..n], adr);
      assert changes[n].adr == adr || forall i :: 0 <= i < |changes| && changes[i].adr == adr ==> changes[..n][i].adr == adr;
    }
  }

  /** The place of the first update of another address; the number of updates if there is none. */
  function FirstOther<P>(idle: int, changes: seq<Change<P>>): (p: nat)
    ensures p <= |changes|
    ensures forall i :: 0 <= i < p ==> changes[i].adr == idle
    ensures p < |changes| ==> changes[p].adr != idle
  {
    if changes == [] || changes[0].adr != idle then 0 else 1 + FirstOther(idle, changes[1..])
  }

  ghost predicate UpdatedAfter<P>(idle: int, changes: seq<Change<P>>, p: nat) {
    exists i :: p < i < |changes| && changes[i].adr == idle
  }

  /** The whole state of the list after any updates. */
  ghost predicate Shape<P>(idle: int, changes: seq<Change<P>>, pool: Pool<P>) {
    var p := FirstOther(idle, changes);
    && Distinct(pool.known)
    && (if p == |changes| then pool.known == (if p % 2 == 0 then [idle] else [])
        else pool.known != [] && pool.known != [idle]
             && (forall a :: a != idle ==> (a in pool.known <==> LastWrite(changes, a).Some?))
             && (idle in pool.known <==> UpdatedAfter(idle, changes, p)))
    && (forall a :: LastWrite(changes, a).Some? ==> a in pool.store && pool.store[a] == LastWrite(changes, a).value)
    && idle in pool.store
  }

  lemma {:induction false} FirstOtherSnoc<P>(idle: int, changes: seq<Change<P>>, c: Change<P>)
    ensures FirstOther(idle, changes + [c])
            == if FirstOther(idle, changes) < |changes| then FirstOther(idle, changes)
               else if c.adr != idle then |changes| else |changes| + 1
    decreases |changes|
  {
    if changes == [] {
      assert changes + [c] == [c] && [c][1..] == [];
    } else if changes[0].adr == idle {
      assert (changes + [c])[1..] == changes[1..] + [c];
      FirstOtherSnoc(idle, changes[1..], c);
    } else {
      assert (changes + [c])[0] == changes[0];
    }
  }

  lemma StoreSnoc<P>(idle: int, changes: seq<Change<P>>, c: Change<P>, pool: Pool<P>)
    requires Shape(idle, changes, pool)
    ensures var store := Updated(pool, idle, c.adr, c.p).store;
            && (forall a :: LastWrite(changes + [c], a) == if c.adr == a then Some(c.p) else LastWrite(changes, a))
            && (forall a :: LastWrite(changes + [c], a).Some? ==> a in store && store[a] == LastWrite(changes + [c], a).value)
            && idle in store
  {
    assert (changes + [c])[..|changes|] == changes;
  }

  lemma ShapeSnoc<P>(idle: int, changes: seq<Change<P>>, c: Change<P>, pool: Pool<P>)
    requires Shape(idle, changes, pool)
    ensures Shape(idle, changes + [c], Updated(pool, idle, c.adr, c.p))
  {
    if FirstOther(idle, changes) == |changes| {
      EarlyShape(idle, changes, c, pool);
    } else {
      LateShape(idle, changes, c, pool);
    }
  }

  lemma EarlyShape<P>(idle: int, changes: seq<Change<P>>, c: Change<P>, pool: Pool<P>)
    requires Shape(idle, changes, pool) && FirstOther(idle, changes) == |changes|
    ensures Shape(idle, changes + [c], Updated(pool, idle, c.adr, c.p))
  {
    hide LastWrite, FirstOther;
    var more, after := changes + [c], Updated(pool, idle, c.adr, c.p);
    FirstOtherSnoc(idle, changes, c);
    StoreSnoc(idle, changes, c, pool);
    OnlyIdle(idle, changes);
    if c.adr == idle {
      assert after.known == if |more| % 2 == 0 then [idle] else [];
    } else {
      assert after.known == [c.adr];
      assert !UpdatedAfter(idle, more, |changes|);
    }
  }

  lemma LateShape<P>(idle: int, changes: seq<Change<P>>, c: Change<P>, pool: Pool<P>)
    requires Shape(idle, changes, pool) && FirstOther(idle, changes) < |changes|
    ensures Shape(idle, changes + [c], Updated(pool, idle, c.adr, c.p))
  {
    hide LastWrite, FirstOther, UpdatedAfter;
    FirstOtherSnoc(idle, changes, c);
    StoreSnoc(idle, changes, c, pool);
    AfterSnoc(idle, changes, c, FirstOther(idle, changes));
  }

  lemma OnlyIdle<P>(idle: int, changes: seq<Change<P>>)
    requires FirstOther(idle, changes) == |changes|
    ensures forall a :: a != idle ==> LastWrite(changes, a).None?
    ensures forall c: Change<P> :: !UpdatedAfter(idle, changes + [c], |changes|)
  {
    forall a | a != idle ensures LastWrite(changes, a).None? {
      LastWriteSome(changes, a);
    }
  }

  lemma AfterSnoc<P>(idle: int, changes: seq<Change<P>>, c: Change<P>, p: nat)
    requires p < |changes|
    ensures UpdatedAfter(idle, changes + [c], p) <==> c.adr == idle || UpdatedAfter(idle, changes, p)
  {
    var more := changes + [c];
    assert more[|changes|] == c;
    if UpdatedAfter(idle, changes, p) {
      var i :| p < i < |changes| && changes[i].adr == idle;
      assert more[i].adr == idle;
    }
  }

  lemma {:induction false} RunShape<P>(idle: int, p0: P, changes: seq<Change<P>>)
    ensures Shape(idle, changes, Run(Initial(idle, p0), idle, changes))
    decreases |changes|
  {
    if changes != [] {
      hide Shape;
      var n := |changes| - 1;
      RunShape(idle, p0, changes[..n]);
      ShapeSnoc(idle, changes[..n], changes[n], Run(Initial(idle, p0), idle, changes[..n]));
      assert changes[..n] + [changes[n]] == changes;
    } else {
      assert Distinct([idle]);
    }
  }

  /** When a real locomotive has the idle address: its updates keep it on the list if none of them
      comes before the first update of another address, or one comes after it; and as long as no
      other address has been updated, if they are even in number. */
  ghost predicate Kept<P>(idle: int, changes: seq<Change<P>>) {
    var p := FirstOther(idle, changes);
    if p < |changes| then p == 0 || UpdatedAfter(idle, changes, p) else p % 2 == 0
  }

  lemma IdleWritten<P>(idle: int, changes: seq<Change<P>>)
    ensures var p := FirstOther(idle, changes);
            LastWrite(changes, idle).Some? <==> p > 0 || UpdatedAfter(idle, changes, p)
  {
    LastWriteSome(changes, idle);
    var p := FirstOther(idle, changes);
    if p > 0 {
      assert changes[0].adr == idle;
    }
  }

  /** Exactly then the list is the set of the updated addresses. */
  lemma KnownAreUpdatedIff<P>(idle: int, p0: P, changes: seq<Change<P>>)
    requires changes != []
    ensures var pool := Run(Initial(idle, p0), idle, changes);
            (forall a :: a in pool.known <==> LastWrite(changes, a).Some?) <==> Kept(idle, changes)
  {
    var pool := Run(Initial(idle, p0), idle, changes);
    RunShape(idle, p0, changes);
    IdleWritten(idle, changes);
    hide Run;
    if FirstOther(idle, changes) == |changes| {
      OnlyIdle(idle, changes);
      assert LastWrite(changes, idle).Some?;
      assert idle in pool.known <==> Kept(idle, changes);
    } else {
      assert (idle in pool.known <==> LastWrite(changes, idle).Some?) <==> Kept(idle, changes);
    }
  }

  /** What the refresh goes through is the set of the updated addresses unless the idle address was
      updated before the first update of another one and not again after it. */
  lemma ShownAreUpdatedIff<P>(idle: int, p0: P, changes: seq<Change<P>>)
    requires changes != []
    ensures var list, p := Shown(Run(Initial(idle, p0), idle, changes), idle), FirstOther(idle, changes);
            (forall a :: a in list <==> LastWrite(changes, a).Some?)
            <==> p == |changes| || p == 0 || UpdatedAfter(idle, changes, p)
  {
    var list := Shown(Run(Initial(idle, p0), idle, changes), idle);
    RunShape(idle, p0, changes);
    IdleWritten(idle, changes);
    hide Run;
    if FirstOther(idle, changes) == |changes| {
      OnlyIdle(idle, changes);
    } else {
      assert (idle in list <==> LastWrite(changes, idle).Some?)
             <==> FirstOther(idle, changes) == 0 || UpdatedAfter(idle, changes, FirstOther(idle, changes));
    }
  }

  /** The shortest run that fails: the idle address first, then another one. */
  lemma IdleAddressIsForgotten<P>(idle: int, p0: P, p: P, adr: int, q: P)
    requires adr != idle
    ensures Run(Initial(idle, p0), idle, [Change(idle, p)]).known == []
    ensures Run(Initial(idle, p0), idle, [Change(idle, p), Change(adr, q)]).known == [adr]
  {
    var one, two := [Change(idle, p)], [Change(idle, p), Change(adr, q)];
    assert one[..0] == [] && two[..1] == one;
  }

  // ----- The list cannot outgrow its array -----

  function Range(lo: int, hi: int): (r: set<int>)
    requires lo <= hi
    ensures |r| == hi - lo
    ensures forall a :: a in r <==> lo <= a < hi
    decreases hi - lo
  {
    if lo == hi then {} else Range(lo, hi - 1) + {hi - 1}
  }

  /** Pigeonhole: different elements of a set are no more than the set has. */
  lemma {:induction false} DistinctFit(s: seq<int>, all: set<int>)
    requires Distinct(s) && forall i :: 0 <= i < |s| ==> s[i] in all
    ensures |s| <= |all|
    decreases |s|
  {
    if s != [] {
      var n := |s| - 1;
      DistinctFit(s[..n], all - {s[n]});
    }
  }

  // ----- The NMRA pool -----

  const MAX_NMRA_ADDRESS: nat := 10367
  const NMRA_IDLE: int := 128

  datatype NmraPacket = NmraPacket(packet: seq<bv8>, fxPacket: seq<bv8>)

  /** The addresses locomotives have in the pool: short ones 1..127, long ones 129..10367. */
  predicate LocoAddress(adr: int) {
    1 <= adr <= MAX_NMRA_ADDRESS && adr != NMRA_IDLE
  }

  lemma PoolFits(known: seq<int>)
    requires Distinct(known) && forall i :: 0 <= i < |known| ==> LocoAddress(known[i])
    ensures |known| <= MAX_NMRA_ADDRESS - 1
  {
    var all := Range(1, MAX_NMRA_ADDRESS + 1);
    DistinctFit(known, all - {NMRA_IDLE});
  }

  /** The packets that have been allocated, by address. */
  function Store(packets: seq<Option<NmraPacket>>): map<int, NmraPacket> {
    map a: int | 0 <= a < |packets| && packets[a].Some? :: packets[a].value
  }

  lemma StoreUpdated(packets: seq<Option<NmraPacket>>, adr: nat, p: NmraPacket)
    requires adr < |packets|
    ensures Store(packets[adr := Some(p)]) == Store(packets)[adr := p]
  {
  }

  /** A list of the idle entry alone or of different locomotives. */
  ghost predicate NmraList(known: seq<int>) {
    && Distinct(known) && 1 <= |known| < MAX_NMRA_ADDRESS
    && (known == [NMRA_IDLE] || forall i :: 0 <= i < |known| ==> LocoAddress(known[i]))
  }

  ghost predicate HavePackets(known: seq<int>, packets: seq<Option<NmraPacket>>) {
    forall i :: 0 <= i < |known| ==> 0 <= known[i] < |packets| && packets[known[i]].Some?
  }

  class NmraPool {
    const packets: array<Option<NmraPacket>>
    const knownAddresses: array<int>
    var nrOfKnownAddresses: nat

    ghost predicate Valid()
      reads this, packets, knownAddresses
    {
      && packets.Length == knownAddresses.Length == MAX_NMRA_ADDRESS + 1
      && nrOfKnownAddresses <= MAX_NMRA_ADDRESS
      && NmraList(knownAddresses[..nrOfKnownAddresses])
      && HavePackets(knownAddresses[..nrOfKnownAddresses], packets[..])
      && (forall i :: nrOfKnownAddresses <= i <= MAX_NMRA_ADDRESS ==> knownAddresses[i] == 0)
    }

    ghost function Abstract(): Pool<NmraPacket>
      requires Valid()
      reads this, packets, knownAddresses
    {
      Pool(knownAddresses[..nrOfKnownAddresses], Store(packets[..]))
    }

    /** The pool with the idle packet at its address. */
    constructor (idle: NmraPacket)
      ensures Valid() && fresh(packets) && fresh(knownAddresses)
      ensures Abstract() == Initial(NMRA_IDLE, idle)
    {
      packets := new Option<NmraPacket>[MAX_NMRA_ADDRESS + 1](i => if i == NMRA_IDLE then Some(idle) else None);
      knownAddresses := new int[MAX_NMRA_ADDRESS + 1](i => if i == 0 then NMRA_IDLE else 0);
      nrOfKnownAddresses := 1;
      new;
      assert knownAddresses[..1] == [NMRA_IDLE];
    }

    /** The lookup reads one entry past the list, which never matches. */
    method Lookup(adr: int) returns (found: bool)
      requires Valid() && LocoAddress(adr)
      ensures found <==> adr in Abstract().known
    {
      found := false;
      var i: nat := 0;
      while i <= nrOfKnownAddresses && !found
        invariant i <= nrOfKnownAddresses + 1
        invariant found <==> exists k :: 0 <= k < i && knownAddresses[k] == adr
      {
        if knownAddresses[i] == adr {
          found := true;
        }
        i := i + 1;
      }
    }

    method Update(adr: int, p: NmraPacket)
      requires Valid() && LocoAddress(adr)
      modifies this, packets, knownAddresses
      ensures Valid() && Abstract() == Updated(old(Abstract()), NMRA_IDLE, adr, p)
    {
      hide NmraList, HavePackets;
      ghost var before := Abstract();
      KnownUpdated(before, packets[..], adr, p);
      var found := Lookup(adr);
      StoreUpdated(packets[..], adr, p);
      hide Store;
      packets[adr] := Some(p);
      assert packets[..] == old(packets[..])[adr := Some(p)];
      if nrOfKnownAddresses == 1 && knownAddresses[0] == NMRA_IDLE {
        nrOfKnownAddresses := 0;
      }
      if !found {
        knownAddresses[nrOfKnownAddresses] := adr;
        nrOfKnownAddresses := nrOfKnownAddresses + 1;
      }
      assert knownAddresses[..nrOfKnownAddresses] == Updated(before, NMRA_IDLE, adr, p).known;
    }
  }

  /** The list stays one of different locomotives, fits, and each of them has packets. */
  lemma KnownUpdated(pool: Pool<NmraPacket>, packets: seq<Option<NmraPacket>>, adr: int, p: NmraPacket)
    requires NmraList(pool.known) && LocoAddress(adr) && adr < |packets| && HavePackets(pool.known, packets)
    ensures |pool.known| < MAX_NMRA_ADDRESS && (pool.known == [NMRA_IDLE] ==> adr !in pool.known)
    ensures NmraList(Updated(pool, NMRA_IDLE, adr, p).known)
    ensures HavePackets(Updated(pool, NMRA_IDLE, adr, p).known, packets[adr := Some(p)])
  {
    PoolFits(Updated(pool, NMRA_IDLE, adr, p).known);
  }

  // ----- The Maerklin pool -----

  const MAX_MARKLIN_ADDRESS: nat := 256
  const MAERKLIN_IDLE: int := 81

  /** One basic packet and four function packets. */
  datatype MaerklinPacket = MaerklinPacket(packet: seq<bv8>, f1: seq<bv8>, f2: seq<bv8>, f3: seq<bv8>, f4: seq<bv8>)

  /** The idle address 81 is among them: locomotives up to 255 are admitted. */
  predicate MaerklinAddress(adr: int) {
    0 <= adr <= MAX_MARKLIN_ADDRESS
  }

  ghost predicate MaerklinList(known: seq<int>) {
    Distinct(known) && |known| <= MAX_MARKLIN_ADDRESS + 1 && forall i :: 0 <= i < |known| ==> MaerklinAddress(known[i])
  }

  class MaerklinPool {
    const packets: array<MaerklinPacket>
    const knownAddresses: array<int>
    var nrOfKnownAddresses: nat

    ghost predicate Valid()
      reads this, packets, knownAddresses
    {
      && packets.Length == knownAddresses.Length == MAX_MARKLIN_ADDRESS + 1
      && nrOfKnownAddresses <= MAX_MARKLIN_ADDRESS + 1
      && MaerklinList(knownAddresses[..nrOfKnownAddresses])
      && (nrOfKnownAddresses == 0 ==> knownAddresses[0] == MAERKLIN_IDLE)
    }

    /** The pool array has an entry for every address, known or not. */
    ghost function Abstract(): Pool<MaerklinPacket>
      requires Valid()
      reads this, packets, knownAddresses
    {
      Pool(knownAddresses[..nrOfKnownAddresses], map a: int | 0 <= a <= MAX_MARKLIN_ADDRESS :: packets[a])
    }

    constructor (idle: MaerklinPacket)
      ensures Valid() && fresh(packets) && fresh(knownAddresses)
      ensures Abstract().known == [MAERKLIN_IDLE] && Abstract().store[MAERKLIN_IDLE] == idle
    {
      packets := new MaerklinPacket[MAX_MARKLIN_ADDRESS + 1](_ => idle);
      knownAddresses := new int[MAX_MARKLIN_ADDRESS + 1](i => if i == 0 then MAERKLIN_IDLE else 0);
      nrOfKnownAddresses := 1;
      new;
      assert knownAddresses[..1] == [MAERKLIN_IDLE];
    }

    method Lookup(adr: int) returns (found: bool)
      requires Valid()
      ensures found <==> adr in Abstract().known
    {
      found := false;
      var i: nat := 0;
      while i < nrOfKnownAddresses && !found
        invariant i <= nrOfKnownAddresses
        invariant found <==> exists k :: 0 <= k < i && knownAddresses[k] == adr
      {
        if knownAddresses[i] == adr {
          found := true;
        }
        i := i + 1;
      }
    }

    method Update(adr: int, p: MaerklinPacket)
      requires Valid() && MaerklinAddress(adr)
      modifies this, packets, knownAddresses
      ensures Valid() && Abstract() == Updated(old(Abstract()), MAERKLIN_IDLE, adr, p)
    {
      hide MaerklinList;
      ghost var before := Abstract();
      MaerklinUpdated(before, adr, p);
      var found := Lookup(adr);
      packets[adr] := p;
      if nrOfKnownAddresses == 1 && knownAddresses[0] == MAERKLIN_IDLE {
        nrOfKnownAddresses := 0;
      }
      if !found {
        knownAddresses[nrOfKnownAddresses] := adr;
        nrOfKnownAddresses := nrOfKnownAddresses + 1;
      }
      assert knownAddresses[..nrOfKnownAddresses] == Updated(before, MAERKLIN_IDLE, adr, p).known;
      assert Abstract().store == Updated(before, MAERKLIN_IDLE, adr, p).store;
    }
  }

  /** A list without some address has room for it. */
  lemma MaerklinFits(known: seq<int>, adr: int)
    requires Distinct(known) && (forall i :: 0 <= i < |known| ==> MaerklinAddress(known[i]))
    requires MaerklinAddress(adr) && adr !in known
    ensures |known| <= MAX_MARKLIN_ADDRESS
  {
    DistinctFit(known, Range(0, MAX_MARKLIN_ADDRESS + 1) - {adr});
  }

  lemma MaerklinUpdated(pool: Pool<MaerklinPacket>, adr: int, p: MaerklinPacket)
    requires MaerklinList(pool.known) && MaerklinAddress(adr)
    ensures MaerklinList(Updated(pool, MAERKLIN_IDLE, adr, p).known)
    ensures adr !in pool.known ==> |pool.known| <= MAX_MARKLIN_ADDRESS
  {
    if adr !in pool.known {
      MaerklinFits(pool.known, adr);
    }
  }
}
