/** Feedback contacts of one bus: a contact that opens is reported only after a waiting time, by
    way of a queue of timed resets. Samples are 0 or 1, here false or true. */
module Feedback {
  import opened Ring
  import opened Srcp

  const QUEUELENGTH_FB: nat := 1000

  /** A contact: its reported state and whether a reset is waiting (`change` is -1). */
  datatype Contact = Contact(state: bool, pending: bool, stamp: int)

  datatype Reset = Reset(port: nat, stamp: int)

  /** A message for the info sessions. */
  datatype Info = Info(port: nat, state: bool, stamp: int)

  datatype Bus = Bus(contacts: seq<Contact>, resets: seq<Reset>, log: seq<Info>)

  function Report(b: Bus, port: nat, state: bool, stamp: int): (r: Bus)
    requires port < |b.contacts|
    ensures r.resets == b.resets && |r.contacts| == |b.contacts|
  {
    b.(contacts := b.contacts[port := Contact(state, false, stamp)], log := b.log + [Info(port, state, stamp)])
  }

  /** A sample of a contact; ports are numbered from 0 here. */
  function Sample(minTime: int, b: Bus, port: nat, value: bool, now: int): Bus
    requires port < |b.contacts|
  {
    var c := b.contacts[port];
    if c.state == value then b
    else if !value then
      if minTime == 0 then Report(b, port, false, now)
      else b.(contacts := b.contacts[port := c.(pending := true)], resets := b.resets + [Reset(port, now)])
    else if c.pending then b.(contacts := b.contacts[port := c.(pending := false)])
    else Report(b, port, true, now)
  }

  predicate PortsExist(b: Bus) {
    forall i :: 0 <= i < |b.resets| ==> b.resets[i].port < |b.contacts|
  }

  /** Works off the resets whose time has come; those without a waiting contact are dropped. */
  function Check(minTime: int, b: Bus, now: int): (r: Bus)
    requires PortsExist(b)
    ensures PortsExist(r) && |r.contacts| == |b.contacts|
    decreases |b.resets|
  {
    if b.resets == [] then b
    else
      var r := b.resets[0];
      var rest := b.(resets := b.resets[1..]);
      if !b.contacts[r.port].pending then Check(minTime, rest, now)
      else if now - r.stamp < minTime then b
      else Check(minTime, Report(rest, r.port, false, r.stamp), now)
  }

  // ----- Runs -----

  datatype Event = Sampled(port: int, value: bool, time: int) | Checked(time: int)

  /** A port that does not exist is turned down. */
  function Step(minTime: int, b: Bus, e: Event): (r: Bus)
    requires PortsExist(b)
    ensures PortsExist(r) && |r.contacts| == |b.contacts|
  {
    match e
    case Sampled(port, value, time) => if 0 <= port < |b.contacts| then Sample(minTime, b, port, value, time) else b
    case Checked(time) => Check(minTime, b, time)
  }

  function Run(minTime: int, b: Bus, events: seq<Event>): (r: Bus)
    requires PortsExist(b)
    ensures PortsExist(r) && |r.contacts| == |b.contacts|
    decreases |events|
  {
    if events == [] then b
    else Step(minTime, Run(minTime, b, events[..|events| - 1]), events[|events| - 1])
  }

  lemma RunLast(minTime: int, b: Bus, events: seq<Event>, e: Event)
    requires PortsExist(b)
    ensures Run(minTime, b, events + [e]) == Step(minTime, Run(minTime, b, events), e)
  {
    assert (events + [e])[..|events|] == events;
  }

  ghost predicate Start(b: Bus) {
    b.resets == [] && b.log == [] && forall p :: 0 <= p < |b.contacts| ==> !b.contacts[p].state && !b.contacts[p].pending
  }

  /** The clock does not run backwards. */
  ghost predicate Ordered(events: seq<Event>) {
    forall i, j :: 0 <= i <= j < |events| ==> events[i].time <= events[j].time
  }

  // ----- The log tells the state of every contact -----

  /** A contact's state by the log: what was last reported, at first 0. */
  function Logged(log: seq<Info>, port: nat): bool
    decreases |log|
  {
    if log == [] then false
    else if log[|log| - 1].port == port then log[|log| - 1].state
    else Logged(log[..|log| - 1], port)
  }

  /** Reports of a contact alternate: 1, 0, 1 and so on. */
  predicate Alternating(log: seq<Info>)
    decreases |log|
  {
    log == [] ||
    var i, before := log[|log| - 1], log[..|log| - 1];
    i.state != Logged(before, i.port) && Alternating(before)
  }

  ghost predicate Faithful(b: Bus) {
    && PortsExist(b)
    && Alternating(b.log)
    && (forall p :: 0 <= p < |b.contacts| ==> b.contacts[p].state == Logged(b.log, p))
    && (forall p :: 0 <= p < |b.contacts| ==> b.contacts[p].pending ==> b.contacts[p].state)
  }

  lemma ReportFaithful(b: Bus, port: nat, state: bool, stamp: int)
    requires Faithful(b) && port < |b.contacts| && b.contacts[port].state != state
    ensures Faithful(Report(b, port, state, stamp))
  {
    var r := Report(b, port, state, stamp);
    assert r.log[..|r.log| - 1] == b.log;
  }

  lemma {:induction false} CheckFaithful(minTime: int, b: Bus, now: int)
    requires Faithful(b)
    ensures Faithful(Check(minTime, b, now))
    decreases |b.resets|
  {
    if b.resets != [] {
      var r := b.resets[0];
      var rest := b.(resets := b.resets[1..]);
      if !b.contacts[r.port].pending {
        CheckFaithful(minTime, rest, now);
      } else if now - r.stamp >= minTime {
        ReportFaithful(rest, r.port, false, r.stamp);
        CheckFaithful(minTime, Report(rest, r.port, false, r.stamp), now);
      }
    }
  }

  /** In every reachable state the log replays to the table, the reports of every contact
      alternate, and only a contact reported 1 has a reset waiting. */
  lemma {:induction false} LogIsFaithful(minTime: int, b: Bus, events: seq<Event>)
    requires Start(b)
    ensures Faithful(Run(minTime, b, events))
    decreases |events|
  {
    if events != [] {
      var n := |events| - 1;
      LogIsFaithful(minTime, b, events[..n]);
      var before := Run(minTime, b, events[..n]);
      match events[n] {
        case Sampled(port, value, time) =>
          if 0 <= port < |before.contacts| && before.contacts[port].state != value && (value || minTime == 0) {
            ReportFaithful(before, port, value, time);
          }
        case Checked(time) => CheckFaithful(minTime, before, time);
      }
    }
  }

  /** A reset is never taken back: the branch that would do so needs a contact that is reported 0
      and has a reset waiting. */
  lemma CancelIsDead(minTime: int, b: Bus, events: seq<Event>, port: nat)
    requires Start(b) && port < |b.contacts|
    ensures var c := Run(minTime, b, events).contacts[port]; !(!c.state && c.pending)
  {
    LogIsFaithful(minTime, b, events);
  }

  /** In every reachable state a contact sampled 1 is reported 1 at once, with any waiting time. */
  lemma SampledOneIsReported(minTime: int, b: Bus, events: seq<Event>, port: nat, now: int)
    requires Start(b) && port < |b.contacts|
    ensures Run(minTime, b, events + [Sampled(port, true, now)]).contacts[port].state
  {
    RunLast(minTime, b, events, Sampled(port, true, now));
    CancelIsDead(minTime, b, events, port);
    hide Run;
  }

  // ----- Time stamps -----

  /** The time of the last message about a contact; the contact's own one at first. */
  function LastStamp(log: seq<Info>, port: nat, first: int): int
    decreases |log|
  {
    if log == [] then first
    else if log[|log| - 1].port == port then log[|log| - 1].stamp
    else LastStamp(log[..|log| - 1], port, first)
  }

  /** Every message, and every reset that waits, comes from a sample of that contact and value and has
      its time; the table has the time of the last message. */
  ghost predicate Stamped(b: Bus, start: Bus, events: seq<Event>) {
    && PortsExist(b) && |b.contacts| == |start.contacts|
    && (forall i :: 0 <= i < |b.log| ==> Sampled(b.log[i].port, b.log[i].state, b.log[i].stamp) in events)
    && (forall i :: 0 <= i < |b.resets| ==> Sampled(b.resets[i].port, false, b.resets[i].stamp) in events)
    && (forall p :: 0 <= p < |b.contacts| ==> b.contacts[p].stamp == LastStamp(b.log, p, start.contacts[p].stamp))
  }

  lemma ReportStamped(b: Bus, start: Bus, events: seq<Event>, port: nat, state: bool, stamp: int)
    requires Stamped(b, start, events) && port < |b.contacts| && Sampled(port, state, stamp) in events
    ensures Stamped(Report(b, port, state, stamp), start, events)
  {
    var r := Report(b, port, state, stamp);
    assert r.log[..|r.log| - 1] == b.log;
  }

  lemma RestStamped(b: Bus, start: Bus, events: seq<Event>)
    requires Stamped(b, start, events) && b.resets != []
    ensures Stamped(b.(resets := b.resets[1..]), start, events)
    ensures Sampled(b.resets[0].port, false, b.resets[0].stamp) in events
  {
    hide LastStamp;
  }

  lemma {:induction false} CheckStamped(minTime: int, b: Bus, start: Bus, events: seq<Event>, now: int)
    requires Stamped(b, start, events)
    ensures Stamped(Check(minTime, b, now), start, events)
    decreases |b.resets|
  {
    assert PortsExist(b);
    if b.resets != [] {
      RestStamped(b, start, events);
      hide Stamped, Report;
      var r := b.resets[0];
      var rest := b.(resets := b.resets[1..]);
      if !b.contacts[r.port].pending {
        CheckStamped(minTime, rest, start, events, now);
      } else if now - r.stamp >= minTime {
        ReportStamped(rest, start, events, r.port, false, r.stamp);
        CheckStamped(minTime, Report(rest, r.port, false, r.stamp), start, events, now);
      }
    }
  }

  lemma SampleStamped(minTime: int, b: Bus, start: Bus, events: seq<Event>, port: nat, value: bool, now: int)
    requires Stamped(b, start, events) && port < |b.contacts| && Sampled(port, value, now) in events
    ensures Stamped(Sample(minTime, b, port, value, now), start, events)
  {
    ReportStamped(b, start, events, port, value, now);
    hide Report;
  }

  lemma MoreEvents(b: Bus, start: Bus, events: seq<Event>, e: Event)
    requires Stamped(b, start, events)
    ensures Stamped(b, start, events + [e])
  {
    hide LastStamp;
  }

  /** Over every run, with and without a waiting time, messages tell when the contact was sampled. */
  lemma {:induction false} MessagesTellSampleTimes(minTime: int, b: Bus, events: seq<Event>)
    requires Start(b)
    ensures Stamped(Run(minTime, b, events), b, events)
    decreases |events|
  {
    if events != [] {
      hide Stamped, Sample, Check;
      var n := |events| - 1;
      var e := events[n];
      var before := Run(minTime, b, events[..n]);
      MessagesTellSampleTimes(minTime, b, events[..n]);
      MoreEvents(before, b, events[..n], e);
      assert events[..n] + [e] == events;
      match e {
        case Sampled(port, value, time) =>
          if 0 <= port < |before.contacts| {
            SampleStamped(minTime, before, b, events, port, value, time);
          }
        case Checked(time) => CheckStamped(minTime, before, b, events, time);
      }
    } else {
      NothingStamped(b);
    }
  }

  lemma NothingStamped(b: Bus)
    requires Start(b)
    ensures Stamped(b, b, [])
  {
  }

  // ----- Waiting resets -----

  ghost predicate Sorted(rs: seq<Reset>, now: int) {
    (forall i, j :: 0 <= i <= j < |rs| ==> rs[i].stamp <= rs[j].stamp) && forall i :: 0 <= i < |rs| ==> rs[i].stamp <= now
  }

  lemma {:induction false} CheckSuffix(minTime: int, b: Bus, now: int) returns (k: nat)
    requires PortsExist(b)
    ensures k <= |b.resets| && Check(minTime, b, now).resets == b.resets[k..]
    decreases |b.resets|
  {
    k := 0;
    if b.resets != [] {
      var r := b.resets[0];
      var rest := b.(resets := b.resets[1..]);
      if !b.contacts[r.port].pending {
        var l := CheckSuffix(minTime, rest, now);
        k := l + 1;
      } else if now - r.stamp >= minTime {
        var l := CheckSuffix(minTime, Report(rest, r.port, false, r.stamp), now);
        k := l + 1;
      }
    }
  }

  lemma StepSorted(minTime: int, b: Bus, e: Event, clock: int)
    requires PortsExist(b) && Sorted(b.resets, clock) && clock <= e.time
    ensures Sorted(Step(minTime, b, e).resets, e.time)
  {
    if e.Checked? {
      var k := CheckSuffix(minTime, b, e.time);
    }
  }

  lemma {:induction false} RunSorted(minTime: int, b: Bus, events: seq<Event>, clock: int)
    requires PortsExist(b) && Sorted(b.resets, clock) && Ordered(events)
    requires forall i :: 0 <= i < |events| ==> clock <= events[i].time
    ensures Sorted(Run(minTime, b, events).resets, if events == [] then clock else events[|events| - 1].time)
    decreases |events|
  {
    if events != [] {
      hide Sorted, Step;
      var n := |events| - 1;
      RunSorted(minTime, b, events[..n], clock);
      StepSorted(minTime, Run(minTime, b, events[..n]), events[n], if n == 0 then clock else events[n - 1].time);
    }
  }

  /** Reports of 0 for a contact. */
  function Openings(log: seq<Info>, port: nat): nat
    decreases |log|
  {
    if log == [] then 0
    else Openings(log[..|log| - 1], port) + if log[|log| - 1].port == port && !log[|log| - 1].state then 1 else 0
  }

  /** The contact has been reported 0 since `count` such reports, or the reset of time `t` waits. */
  ghost predicate WillOpen(b: Bus, port: nat, t: int, count: nat) {
    && PortsExist(b) && port < |b.contacts|
    && (Openings(b.log, port) > count
        || (Openings(b.log, port) == count && b.contacts[port].state && b.contacts[port].pending && Reset(port, t) in b.resets))
  }

  lemma ReportOpenings(b: Bus, port: nat, state: bool, stamp: int, other: nat)
    requires port < |b.contacts|
    ensures Openings(Report(b, port, state, stamp).log, other)
            == Openings(b.log, other) + if port == other && !state then 1 else 0
  {
    var r := Report(b, port, state, stamp);
    assert r.log[..|r.log| - 1] == b.log;
  }

  lemma InRest(rs: seq<Reset>, x: Reset)
    requires rs != []
    ensures x in rs <==> x == rs[0] || x in rs[1..]
  {
  }

  lemma RestExists(b: Bus)
    requires PortsExist(b) && b.resets != []
    ensures PortsExist(b.(resets := b.resets[1..]))
  {
    var rest := b.resets[1..];
    assert forall i :: 0 <= i < |rest| ==> rest[i] == b.resets[i + 1];
  }

  lemma DropWillOpen(b: Bus, port: nat, t: int, count: nat)
    requires WillOpen(b, port, t, count) && b.resets != [] && !b.contacts[b.resets[0].port].pending
    ensures WillOpen(b.(resets := b.resets[1..]), port, t, count)
  {
    hide PortsExist, Openings;
    InRest(b.resets, Reset(port, t));
    RestExists(b);
  }

  lemma ReportExists(b: Bus, port: nat, state: bool, stamp: int)
    requires PortsExist(b) && port < |b.contacts|
    ensures PortsExist(Report(b, port, state, stamp))
  {
  }

  lemma FirstExists(b: Bus)
    requires PortsExist(b) && b.resets != []
    ensures b.resets[0].port < |b.contacts|
  {
  }

  lemma ReportWillOpen(b: Bus, port: nat, t: int, count: nat)
    requires WillOpen(b, port, t, count) && b.resets != []
    ensures var r := b.resets[0];
            WillOpen(Report(b.(resets := b.resets[1..]), r.port, false, r.stamp), port, t, count)
  {
    hide PortsExist, Openings;
    FirstExists(b);
    var r, rest := b.resets[0], b.(resets := b.resets[1..]);
    InRest(b.resets, Reset(port, t));
    RestExists(b);
    ReportExists(rest, r.port, false, r.stamp);
    ReportOpenings(rest, r.port, false, r.stamp, port);
  }

  lemma {:induction false} CheckWillOpen(minTime: int, b: Bus, now: int, port: nat, t: int, count: nat)
    requires WillOpen(b, port, t, count)
    ensures WillOpen(Check(minTime, b, now), port, t, count)
    decreases |b.resets|
  {
    hide WillOpen, Report;
    assert PortsExist(b) by { WillOpenExists(b, port, t, count); }
    if b.resets != [] {
      var r := b.resets[0];
      var rest := b.(resets := b.resets[1..]);
      if !b.contacts[r.port].pending {
        DropWillOpen(b, port, t, count);
        CheckWillOpen(minTime, rest, now, port, t, count);
      } else if now - r.stamp >= minTime {
        ReportWillOpen(b, port, t, count);
        CheckWillOpen(minTime, Report(rest, r.port, false, r.stamp), now, port, t, count);
      }
    }
  }

  lemma WillOpenExists(b: Bus, port: nat, t: int, count: nat)
    requires WillOpen(b, port, t, count)
    ensures PortsExist(b)
  {
  }

  lemma StepWillOpen(minTime: int, b: Bus, e: Event, port: nat, t: int, count: nat)
    requires WillOpen(b, port, t, count)
    ensures WillOpen(Step(minTime, b, e), port, t, count)
  {
    match e
    case Sampled(p, value, time) =>
      if 0 <= p < |b.contacts| {
        SampleWillOpen(minTime, b, p, value, time, port, t, count);
      }
    case Checked(time) => CheckWillOpen(minTime, b, time, port, t, count);
  }

  lemma SampleExists(minTime: int, b: Bus, p: nat, value: bool, now: int)
    requires PortsExist(b) && p < |b.contacts|
    ensures var r := Sample(minTime, b, p, value, now);
            PortsExist(r) && |r.contacts| == |b.contacts| && (r.resets == b.resets || r.resets == b.resets + [Reset(p, now)])
  {
  }

  lemma SampleWillOpen(minTime: int, b: Bus, p: nat, value: bool, now: int, port: nat, t: int, count: nat)
    requires WillOpen(b, port, t, count) && p < |b.contacts|
    ensures WillOpen(Sample(minTime, b, p, value, now), port, t, count)
  {
    hide PortsExist, Openings;
    SampleExists(minTime, b, p, value, now);
    ReportOpenings(b, p, value, now, port);
  }

  lemma {:induction false} RunWillOpen(minTime: int, b: Bus, events: seq<Event>, port: nat, t: int, count: nat)
    requires WillOpen(b, port, t, count)
    ensures WillOpen(Run(minTime, b, events), port, t, count)
    decreases |events|
  {
    if events != [] {
      hide WillOpen, Step;
      var n := |events| - 1;
      RunWillOpen(minTime, b, events[..n], port, t, count);
      StepWillOpen(minTime, Run(minTime, b, events[..n]), events[n], port, t, count);
    }
  }

  /** After a check nothing that was due waits for a contact with a reset waiting. */
  lemma {:induction false} CheckLeavesOnlyLater(minTime: int, b: Bus, now: int)
    requires PortsExist(b)
    ensures var r := Check(minTime, b, now);
            r.resets != [] ==> now - r.resets[0].stamp < minTime
    decreases |b.resets|
  {
    if b.resets != [] {
      var r := b.resets[0];
      var rest := b.(resets := b.resets[1..]);
      if !b.contacts[r.port].pending {
        CheckLeavesOnlyLater(minTime, rest, now);
      } else if now - r.stamp >= minTime {
        CheckLeavesOnlyLater(minTime, Report(rest, r.port, false, r.stamp), now);
      }
    }
  }

  /** So a reset that was due is gone after a check. */
  lemma DueIsGone(minTime: int, b: Bus, events: seq<Event>, clock: int, now: int, port: nat, t: int)
    requires PortsExist(b) && Sorted(b.resets, clock) && Ordered(events + [Checked(now)])
    requires forall i :: 0 <= i < |events| ==> clock <= events[i].time
    requires now >= t + minTime && now >= clock
    ensures Reset(port, t) !in Run(minTime, b, events + [Checked(now)]).resets
  {
    hide Check;
    RunLast(minTime, b, events, Checked(now));
    var all := events + [Checked(now)];
    RunSorted(minTime, b, all, clock);
    CheckLeavesOnlyLater(minTime, Run(minTime, b, events), now);
    var rs := Run(minTime, b, all).resets;
    assert forall i :: 0 <= i < |rs| ==> rs[0].stamp <= rs[i].stamp;
  }

  lemma SampleQueues(minTime: int, b: Bus, port: nat, t: int)
    requires PortsExist(b) && port < |b.contacts| && minTime > 0 && Sorted(b.resets, t)
    ensures var s := Sample(minTime, b, port, false, t);
            PortsExist(s) && Sorted(s.resets, t) && s.log == b.log && |s.contacts| == |b.contacts|
            && (b.contacts[port].state ==> s.contacts[port].state && s.contacts[port].pending && Reset(port, t) in s.resets)
            && (!b.contacts[port].state ==> s == b)
  {
    if b.contacts[port].state {
      assert Sample(minTime, b, port, false, t).resets[|b.resets|] == Reset(port, t);
    }
  }

  /** Bounded response: a contact reported 1 and sampled 0 at `t` is reported 0 by the first check
      `minTime` later at the latest - whatever it is sampled as in between. */
  lemma SampledZeroIsReported(minTime: int, b: Bus, port: nat, t: int, events: seq<Event>, now: int)
    requires PortsExist(b) && port < |b.contacts| && b.contacts[port].state && minTime > 0
    requires Sorted(b.resets, t) && Ordered(events + [Checked(now)])
    requires forall i :: 0 <= i < |events| ==> t <= events[i].time
    requires now >= t + minTime
    ensures var sampled := Sample(minTime, b, port, false, t);
            PortsExist(sampled)
            && Openings(Run(minTime, sampled, events + [Checked(now)]).log, port) > Openings(b.log, port)
  {
    hide Sample, Run, Sorted, Ordered;
    SampleQueues(minTime, b, port, t);
    var sampled := Sample(minTime, b, port, false, t);
    RunWillOpen(minTime, sampled, events + [Checked(now)], port, t, Openings(b.log, port));
    DueIsGone(minTime, sampled, events, t, now, port, t);
  }

  /** The table itself: without a later sample of 1 the contact stays reported 0. */
  ghost predicate OpensForGood(b: Bus, port: nat, t: int) {
    && PortsExist(b) && port < |b.contacts|
    && (!b.contacts[port].state || (b.contacts[port].pending && Reset(port, t) in b.resets))
  }

  lemma {:induction false} CheckOpensForGood(minTime: int, b: Bus, now: int, port: nat, t: int)
    requires OpensForGood(b, port, t)
    ensures OpensForGood(Check(minTime, b, now), port, t)
    decreases |b.resets|
  {
    if b.resets != [] {
      var r := b.resets[0];
      var rest := b.(resets := b.resets[1..]);
      assert b.resets == [r] + rest.resets;
      if !b.contacts[r.port].pending {
        CheckOpensForGood(minTime, rest, now, port, t);
      } else if now - r.stamp >= minTime {
        CheckOpensForGood(minTime, Report(rest, r.port, false, r.stamp), now, port, t);
      }
    }
  }

  lemma StepOpensForGood(minTime: int, b: Bus, e: Event, port: nat, t: int)
    requires OpensForGood(b, port, t) && minTime > 0
    requires e.Sampled? && e.port == port ==> !e.value
    ensures OpensForGood(Step(minTime, b, e), port, t)
  {
    match e
    case Sampled(p, value, time) =>
      var r := Step(minTime, b, e);
      assert |r.resets| > |b.resets| ==> r.resets == b.resets + [Reset(p, time)];
    case Checked(time) => CheckOpensForGood(minTime, b, time, port, t);
  }

  lemma {:induction false} RunOpensForGood(minTime: int, b: Bus, events: seq<Event>, port: nat, t: int)
    requires OpensForGood(b, port, t) && minTime > 0
    requires forall i :: 0 <= i < |events| ==> events[i].Sampled? && events[i].port == port ==> !events[i].value
    ensures OpensForGood(Run(minTime, b, events), port, t)
    decreases |events|
  {
    if events != [] {
      hide OpensForGood, Step;
      var n := |events| - 1;
      RunOpensForGood(minTime, b, events[..n], port, t);
      StepOpensForGood(minTime, Run(minTime, b, events[..n]), events[n], port, t);
    }
  }

  lemma OpenContactIsReportedOpen(minTime: int, b: Bus, port: nat, t: int, events: seq<Event>, now: int)
    requires PortsExist(b) && port < |b.contacts| && minTime > 0
    requires Sorted(b.resets, t) && Ordered(events + [Checked(now)])
    requires forall i :: 0 <= i < |events| ==> t <= events[i].time
    requires forall i :: 0 <= i < |events| ==> events[i].Sampled? && events[i].port == port ==> !events[i].value
    requires now >= t + minTime
    ensures var sampled := Sample(minTime, b, port, false, t);
            PortsExist(sampled) && !Run(minTime, sampled, events + [Checked(now)]).contacts[port].state
  {
    hide Sample, Run, Sorted, Ordered;
    SampleQueues(minTime, b, port, t);
    var sampled := Sample(minTime, b, port, false, t);
    RunOpensForGood(minTime, sampled, events + [Checked(now)], port, t);
    DueIsGone(minTime, sampled, events, t, now, port, t);
  }

  // ----- Exactly when a contact is reported open -----

  lemma {:induction false} CheckKeepsOpen(minTime: int, b: Bus, now: int, port: nat)
    requires PortsExist(b) && port < |b.contacts| && !b.contacts[port].state && !b.contacts[port].pending
    ensures !Check(minTime, b, now).contacts[port].state && !Check(minTime, b, now).contacts[port].pending
    decreases |b.resets|
  {
    if b.resets != [] {
      var r := b.resets[0];
      var rest := b.(resets := b.resets[1..]);
      if !b.contacts[r.port].pending {
        CheckKeepsOpen(minTime, rest, now, port);
      } else if now - r.stamp >= minTime {
        CheckKeepsOpen(minTime, Report(rest, r.port, false, r.stamp), now, port);
      }
    }
  }

  /** A reset for the contact is due. */
  ghost predicate Due(minTime: int, rs: seq<Reset>, port: nat, now: int) {
    exists i :: 0 <= i < |rs| && rs[i].port == port && now - rs[i].stamp >= minTime
  }

  lemma DueInRest(minTime: int, rs: seq<Reset>, port: nat, now: int)
    requires rs != []
    ensures Due(minTime, rs, port, now) <==>
              (rs[0].port == port && now - rs[0].stamp >= minTime) || Due(minTime, rs[1..], port, now)
  {
    if Due(minTime, rs, port, now) {
      var i :| 0 <= i < |rs| && rs[i].port == port && now - rs[i].stamp >= minTime;
      if i > 0 {
        assert rs[1..][i - 1] == rs[i];
      }
    }
    if Due(minTime, rs[1..], port, now) {
      var i :| 0 <= i < |rs[1..]| && rs[1..][i].port == port && now - rs[1..][i].stamp >= minTime;
      assert rs[i + 1] == rs[1..][i];
    }
  }

  lemma NoneDue(minTime: int, rs: seq<Reset>, port: nat, now: int, clock: int)
    requires rs != [] && Sorted(rs, clock) && now - rs[0].stamp < minTime
    ensures !Due(minTime, rs, port, now)
  {
    assert forall i :: 0 <= i < |rs| ==> rs[0].stamp <= rs[i].stamp;
  }

  /** A check reports a waiting contact open if and only if one of its resets is due, whichever. */
  lemma {:induction false} CheckOpensIff(minTime: int, b: Bus, now: int, port: nat, clock: int)
    requires PortsExist(b) && Sorted(b.resets, clock)
    requires port < |b.contacts| && b.contacts[port].state && b.contacts[port].pending
    ensures var c := Check(minTime, b, now).contacts[port];
            && (!c.state <==> Due(minTime, b.resets, port, now))
            && c.state == c.pending
    decreases |b.resets|
  {
    hide Due;
    if b.resets == [] {
      assert !Due(minTime, [], port, now) by { NothingDue(minTime, port, now); }
    } else {
      var r := b.resets[0];
      var rest := b.(resets := b.resets[1..]);
      DueInRest(minTime, b.resets, port, now);
      if !b.contacts[r.port].pending {
        CheckOpensIff(minTime, rest, now, port, clock);
      } else if now - r.stamp < minTime {
        NoneDue(minTime, b.resets, port, now, clock);
      } else if r.port == port {
        CheckKeepsOpen(minTime, Report(rest, r.port, false, r.stamp), now, port);
      } else {
        CheckOpensIff(minTime, Report(rest, r.port, false, r.stamp), now, port, clock);
      }
    }
  }

  lemma NothingDue(minTime: int, port: nat, now: int)
    ensures !Due(minTime, [], port, now)
  {
  }

  /** A check that leaves a waiting contact alone leaves its resets alone. */
  lemma {:induction false} CheckKeepsDue(minTime: int, b: Bus, now: int, port: nat, later: int)
    requires PortsExist(b) && port < |b.contacts| && b.contacts[port].state && b.contacts[port].pending
    requires Check(minTime, b, now).contacts[port].state
    ensures Due(minTime, Check(minTime, b, now).resets, port, later) <==> Due(minTime, b.resets, port, later)
    decreases |b.resets|
  {
    hide Due;
    if b.resets != [] {
      var r := b.resets[0];
      var rest := b.(resets := b.resets[1..]);
      DueInRest(minTime, b.resets, port, later);
      if !b.contacts[r.port].pending {
        CheckKeepsDue(minTime, rest, now, port, later);
      } else if now - r.stamp >= minTime {
        if r.port == port {
          CheckKeepsOpen(minTime, Report(rest, r.port, false, r.stamp), now, port);
        } else {
          CheckKeepsDue(minTime, Report(rest, r.port, false, r.stamp), now, port, later);
        }
      }
    }
  }

  lemma DueSnoc(minTime: int, rs: seq<Reset>, r: Reset, port: nat, now: int)
    requires r.port != port || now - r.stamp < minTime
    ensures Due(minTime, rs + [r], port, now) <==> Due(minTime, rs, port, now)
  {
    var more := rs + [r];
    if Due(minTime, more, port, now) {
      var i :| 0 <= i < |more| && more[i].port == port && now - more[i].stamp >= minTime;
      assert rs[i] == more[i];
    }
    if Due(minTime, rs, port, now) {
      var i :| 0 <= i < |rs| && rs[i].port == port && now - rs[i].stamp >= minTime;
      assert more[i] == rs[i];
    }
  }

  /** Until `t + minTime` just the resets of the contact in `old` can become due. */
  ghost predicate AsDueAs(minTime: int, b: Bus, was: seq<Reset>, port: nat, t: int) {
    forall now :: now < t + minTime ==> (Due(minTime, b.resets, port, now) <==> Due(minTime, was, port, now))
  }

  ghost predicate NeverOne(events: seq<Event>, port: nat) {
    forall i :: 0 <= i < |events| ==> events[i].Sampled? && events[i].port == port ==> !events[i].value
  }

  /** Some check came when a reset of the contact in `was` was due. */
  ghost predicate CheckedWhenDue(minTime: int, was: seq<Reset>, port: nat, events: seq<Event>) {
    exists i :: 0 <= i < |events| && events[i].Checked? && Due(minTime, was, port, events[i].time)
  }

  lemma CheckedSnoc(minTime: int, was: seq<Reset>, port: nat, events: seq<Event>, e: Event)
    ensures CheckedWhenDue(minTime, was, port, events + [e])
            <==> CheckedWhenDue(minTime, was, port, events) || (e.Checked? && Due(minTime, was, port, e.time))
  {
    hide Due;
    var more := events + [e];
    if CheckedWhenDue(minTime, was, port, more) {
      var i :| 0 <= i < |more| && more[i].Checked? && Due(minTime, was, port, more[i].time);
      if i < |events| {
        assert events[i] == more[i];
      }
    }
    if CheckedWhenDue(minTime, was, port, events) {
      var i :| 0 <= i < |events| && events[i].Checked? && Due(minTime, was, port, events[i].time);
      assert more[i] == events[i];
    }
    assert more[|events|] == e;
  }

  /** The contact has been reported 0, or waits and only the resets in `was` can cut it short. */
  ghost predicate CutShort(minTime: int, b: Bus, was: seq<Reset>, port: nat, t: int, cut: bool) {
    && PortsExist(b) && port < |b.contacts|
    && b.contacts[port].state == b.contacts[port].pending == !cut
    && (!cut ==> AsDueAs(minTime, b, was, port, t))
  }

  lemma SampleCut(minTime: int, b: Bus, p: nat, value: bool, now: int, was: seq<Reset>, port: nat, t: int, cut: bool)
    requires CutShort(minTime, b, was, port, t, cut) && p < |b.contacts| && (p == port ==> !value) && t <= now && minTime > 0
    ensures CutShort(minTime, Sample(minTime, b, p, value, now), was, port, t, cut)
  {
    hide Due;
    SampleExists(minTime, b, p, value, now);
    var r := Sample(minTime, b, p, value, now);
    if !cut && r.resets != b.resets {
      forall later | later < t + minTime
        ensures Due(minTime, r.resets, port, later) <==> Due(minTime, was, port, later)
      {
        DueSnoc(minTime, b.resets, Reset(p, now), port, later);
      }
    }
  }

  lemma CheckCut(minTime: int, b: Bus, now: int, was: seq<Reset>, port: nat, t: int, cut: bool, clock: int)
    requires CutShort(minTime, b, was, port, t, cut) && Sorted(b.resets, clock) && now < t + minTime
    ensures CutShort(minTime, Check(minTime, b, now), was, port, t, cut || Due(minTime, was, port, now))
  {
    hide Due;
    if cut {
      CheckKeepsOpen(minTime, b, now, port);
    } else {
      CheckOpensIff(minTime, b, now, port, clock);
      if !Due(minTime, was, port, now) {
        forall later | later < t + minTime
          ensures Due(minTime, Check(minTime, b, now).resets, port, later) <==> Due(minTime, was, port, later)
        {
          CheckKeepsDue(minTime, b, now, port, later);
        }
      }
    }
  }

  lemma {:induction false} RunCut(minTime: int, b: Bus, events: seq<Event>, was: seq<Reset>, port: nat, t: int)
    requires CutShort(minTime, b, was, port, t, false) && Sorted(b.resets, t) && Ordered(events) && minTime > 0
    requires NeverOne(events, port) && forall i :: 0 <= i < |events| ==> t <= events[i].time < t + minTime
    ensures CutShort(minTime, Run(minTime, b, events), was, port, t, CheckedWhenDue(minTime, was, port, events))
    decreases |events|
  {
    hide CutShort, Sorted, Due, CheckedWhenDue;
    assert PortsExist(b) by { CutExists(minTime, b, was, port, t, false); }
    if events == [] {
      assert !CheckedWhenDue(minTime, was, port, events) by { NoChecks(minTime, was, port); }
    } else {
      var n := |events| - 1;
      var e, before := events[n], Run(minTime, b, events[..n]);
      var cut := CheckedWhenDue(minTime, was, port, events[..n]);
      RunCut(minTime, b, events[..n], was, port, t);
      RunSorted(minTime, b, events[..n], t);
      assert events[..n] + [e] == events;
      CheckedSnoc(minTime, was, port, events[..n], e);
      match e
      case Sampled(p, value, time) =>
        if 0 <= p < |before.contacts| {
          SampleCut(minTime, before, p, value, time, was, port, t, cut);
        }
      case Checked(time) =>
        CheckCut(minTime, before, time, was, port, t, cut, if n == 0 then t else events[n - 1].time);
    }
  }

  lemma CutExists(minTime: int, b: Bus, was: seq<Reset>, port: nat, t: int, cut: bool)
    requires CutShort(minTime, b, was, port, t, cut)
    ensures PortsExist(b) && port < |b.contacts| && b.contacts[port].state == !cut
  {
  }

  lemma NoChecks(minTime: int, was: seq<Reset>, port: nat)
    ensures !CheckedWhenDue(minTime, was, port, [])
  {
  }

  /** The waiting time of an opening is cut short exactly by resets left over from before: over any
      events within the waiting time of a contact sampled 0 at `t` and not 1 again, it is reported 0
      if and only if some check came when such a reset was due. */
  lemma WaitIsCutShortIff(minTime: int, b: Bus, port: nat, t: int, events: seq<Event>)
    requires PortsExist(b) && Sorted(b.resets, t) && minTime > 0
    requires port < |b.contacts| && b.contacts[port].state
    requires Ordered(events) && NeverOne(events, port)
    requires forall i :: 0 <= i < |events| ==> t <= events[i].time < t + minTime
    ensures var sampled := Sample(minTime, b, port, false, t);
            PortsExist(sampled)
            && (!Run(minTime, sampled, events).contacts[port].state
                <==> exists i :: 0 <= i < |events| && events[i].Checked? && Due(minTime, b.resets, port, events[i].time))
  {
    hide Due, Run, Ordered, NeverOne;
    SampleQueues(minTime, b, port, t);
    var sampled := Sample(minTime, b, port, false, t);
    forall later | later < t + minTime
      ensures Due(minTime, sampled.resets, port, later) <==> Due(minTime, b.resets, port, later)
    {
      DueSnoc(minTime, b.resets, Reset(port, t), port, later);
    }
    RunCut(minTime, sampled, events, b.resets, port, t);
    CutExists(minTime, Run(minTime, sampled, events), b.resets, port, t, CheckedWhenDue(minTime, b.resets, port, events));
  }

  const BOTH_OCCUPIED: seq<Event> := [Sampled(0, true, 0), Sampled(1, true, 0)]
  const BOTH_OPEN: seq<Event> := [Sampled(0, false, 1), Sampled(1, false, 2), Sampled(0, false, 3)]

  function TwoContacts(now: int): Bus {
    Bus([Contact(false, false, now), Contact(false, false, now)], [], [])
  }

  lemma BothOccupied(now: int)
    ensures Run(10, TwoContacts(now), BOTH_OCCUPIED)
            == Bus([Contact(true, false, 0), Contact(true, false, 0)], [], [Info(0, true, 0), Info(1, true, 0)])
  {
    var b := TwoContacts(now);
    hide Run;
    EmptyRun(10, b);
    RunLast(10, b, [], Sampled(0, true, 0));
    RunLast(10, b, [] + [Sampled(0, true, 0)], Sampled(1, true, 0));
    assert BOTH_OCCUPIED == [] + [Sampled(0, true, 0)] + [Sampled(1, true, 0)];
  }

  lemma BothOpen(now: int)
    ensures Run(10, TwoContacts(now), BOTH_OCCUPIED + BOTH_OPEN)
            == Bus([Contact(true, true, 0), Contact(true, true, 0)], [Reset(0, 1), Reset(1, 2), Reset(0, 3)],
                   [Info(0, true, 0), Info(1, true, 0)])
  {
    var b := TwoContacts(now);
    hide Run;
    BothOccupied(now);
    var e1 := BOTH_OCCUPIED + [Sampled(0, false, 1)];
    var e2 := e1 + [Sampled(1, false, 2)];
    RunLast(10, b, BOTH_OCCUPIED, Sampled(0, false, 1));
    RunLast(10, b, e1, Sampled(1, false, 2));
    RunLast(10, b, e2, Sampled(0, false, 3));
    assert e2 + [Sampled(0, false, 3)] == BOTH_OCCUPIED + BOTH_OPEN;
  }

  lemma LeftoverInOrder()
    ensures Ordered(BOTH_OCCUPIED + BOTH_OPEN + [Checked(11)] + [Sampled(0, true, 12)] + [Sampled(0, false, 13)] + [Checked(14)])
  {
  }

  /** Such a reset can be left over: two contacts open, the first is sampled 0 twice, and the
      second still waits when the first is reported. The first closes and opens again - and is
      reported open after one unit of time instead of ten. */
  lemma LeftoverResetIsReachable(now: int)
    ensures var b := TwoContacts(now);
            var events := BOTH_OCCUPIED + BOTH_OPEN + [Checked(11)] + [Sampled(0, true, 12)];
            && Start(b) && Ordered(events + [Sampled(0, false, 13)] + [Checked(14)])
            && Run(10, b, events).contacts[0] == Contact(true, false, 12)
            && Run(10, b, events + [Sampled(0, false, 13)]).contacts[0].state
            && !Run(10, b, events + [Sampled(0, false, 13)] + [Checked(14)]).contacts[0].state
  {
    var b := TwoContacts(now);
    var e5 := BOTH_OCCUPIED + BOTH_OPEN;
    hide Run, Check, Ordered;
    BothOpen(now);
    LeftoverInOrder();
    RunLast(10, b, e5, Checked(11));
    FirstIsReported(Run(10, b, e5), [Info(0, true, 0), Info(1, true, 0)]);
    RunLast(10, b, e5 + [Checked(11)], Sampled(0, true, 12));
    RunLast(10, b, e5 + [Checked(11)] + [Sampled(0, true, 12)], Sampled(0, false, 13));
    RunLast(10, b, e5 + [Checked(11)] + [Sampled(0, true, 12)] + [Sampled(0, false, 13)], Checked(14));
    BothAreReported(Run(10, b, e5 + [Checked(11)] + [Sampled(0, true, 12)] + [Sampled(0, false, 13)]));
  }

  lemma FirstIsReported(b: Bus, log: seq<Info>)
    requires b == Bus([Contact(true, true, 0), Contact(true, true, 0)], [Reset(0, 1), Reset(1, 2), Reset(0, 3)], log)
    ensures Check(10, b, 11) == Bus([Contact(false, false, 1), Contact(true, true, 0)], [Reset(1, 2), Reset(0, 3)],
                                    log + [Info(0, false, 1)])
  {
  }

  lemma BothAreReported(b: Bus)
    requires PortsExist(b) && |b.contacts| == 2 && b.contacts[0].pending && b.contacts[0].state
    requires b.contacts[1].state && b.contacts[1].pending
    requires b.resets == [Reset(1, 2), Reset(0, 3), Reset(0, 13)]
    ensures !Check(10, b, 14).contacts[0].state
  {
    assert b.resets[1].port == 0;
    CheckOpensIff(10, b, 14, 0, 13);
  }

  /** The contact waits for its reset of time `t` and has none that is older. */
  ghost predicate Waiting(b: Bus, port: nat, t: int) {
    && PortsExist(b) && port < |b.contacts| && b.contacts[port].state && b.contacts[port].pending
    && Reset(port, t) in b.resets
    && forall i :: 0 <= i < |b.resets| && b.resets[i].port == port ==> b.resets[i].stamp >= t
  }

  lemma CheckWaiting(minTime: int, b: Bus, now: int, port: nat, t: int, clock: int)
    requires Waiting(b, port, t) && Sorted(b.resets, clock)
    ensures now < t + minTime ==> Waiting(Check(minTime, b, now), port, t)
    ensures now >= t + minTime ==> !Check(minTime, b, now).contacts[port].state
  {
    CheckOpensIff(minTime, b, now, port, clock);
    if now < t + minTime {
      CheckOpensForGood(minTime, b, now, port, t);
      var k := CheckSuffix(minTime, b, now);
      assert forall i :: 0 <= i < |b.resets[k..]| ==> b.resets[k..][i] == b.resets[k + i];
    } else {
      var i :| 0 <= i < |b.resets| && b.resets[i] == Reset(port, t);
    }
  }

  lemma StepWaiting(minTime: int, b: Bus, e: Event, port: nat, t: int, clock: int)
    requires Waiting(b, port, t) && Sorted(b.resets, clock) && t <= e.time < t + minTime
    ensures Waiting(Step(minTime, b, e), port, t)
  {
    match e
    case Sampled(p, value, time) =>
      var r := Step(minTime, b, e);
      assert |r.resets| > |b.resets| ==> r.resets == b.resets + [Reset(p, time)];
    case Checked(time) => CheckWaiting(minTime, b, time, port, t, clock);
  }

  lemma {:induction false} RunWaiting(minTime: int, b: Bus, events: seq<Event>, port: nat, t: int)
    requires Waiting(b, port, t) && Sorted(b.resets, t) && Ordered(events)
    requires forall i :: 0 <= i < |events| ==> t <= events[i].time < t + minTime
    ensures Waiting(Run(minTime, b, events), port, t)
    decreases |events|
  {
    if events != [] {
      hide Waiting, Step, Sorted;
      var n := |events| - 1;
      assert PortsExist(b) by { WaitingExists(b, port, t); }
      RunWaiting(minTime, b, events[..n], port, t);
      RunSorted(minTime, b, events[..n], t);
      StepWaiting(minTime, Run(minTime, b, events[..n]), events[n], port, t, if n == 0 then t else events[n - 1].time);
    }
  }

  lemma WaitingExists(b: Bus, port: nat, t: int)
    requires Waiting(b, port, t)
    ensures PortsExist(b) && port < |b.contacts| && b.contacts[port].state
  {
  }

  /** A contact without old resets that is sampled 0 at `t` stays reported 1 until `t + minTime` and
      is reported 0 by the first check from then on - whatever it is sampled as in between. So a
      short interruption is reported like any other opening. */
  lemma OpeningIsReportedOnTime(minTime: int, b: Bus, port: nat, t: int, events: seq<Event>, now: int)
    requires PortsExist(b) && port < |b.contacts| && b.contacts[port].state && minTime > 0 && Sorted(b.resets, t)
    requires forall i :: 0 <= i < |b.resets| ==> b.resets[i].port != port
    requires Ordered(events + [Checked(now)]) && now >= t + minTime
    requires forall i :: 0 <= i < |events| ==> t <= events[i].time < t + minTime
    ensures var sampled := Sample(minTime, b, port, false, t);
            PortsExist(sampled)
            && Run(minTime, sampled, events).contacts[port].state
            && !Run(minTime, sampled, events + [Checked(now)]).contacts[port].state
  {
    hide Sample, Run, Sorted, Waiting, Check, Ordered;
    SampleWaits(minTime, b, port, t);
    OrderedBut(events, Checked(now));
    var sampled := Sample(minTime, b, port, false, t);
    RunWaiting(minTime, sampled, events, port, t);
    RunSorted(minTime, sampled, events, t);
    RunLast(minTime, sampled, events, Checked(now));
    WaitingExists(Run(minTime, sampled, events), port, t);
    CheckWaiting(minTime, Run(minTime, sampled, events), now, port, t, if events == [] then t else events[|events| - 1].time);
  }

  lemma SampleWaits(minTime: int, b: Bus, port: nat, t: int)
    requires PortsExist(b) && port < |b.contacts| && b.contacts[port].state && minTime > 0 && Sorted(b.resets, t)
    requires forall i :: 0 <= i < |b.resets| ==> b.resets[i].port != port
    ensures var sampled := Sample(minTime, b, port, false, t);
            PortsExist(sampled) && Sorted(sampled.resets, t) && Waiting(sampled, port, t)
  {
    SampleQueues(minTime, b, port, t);
  }

  lemma OrderedBut(events: seq<Event>, e: Event)
    requires Ordered(events + [e])
    ensures Ordered(events) && forall i :: 0 <= i < |events| ==> events[i].time <= e.time
  {
    var all := events + [e];
    assert forall i :: 0 <= i < |events| ==> events[i] == all[i];
    assert all[|events|] == e;
  }

  /** A short interruption is not suppressed: a contact sampled 0 at `t` and 1 again before the
      waiting time is over, and then checked, is reported 0 while it is occupied. */
  lemma GlitchIsReported(minTime: int, b: Bus, port: nat, t: int, back: int, now: int)
    requires PortsExist(b) && port < |b.contacts| && b.contacts[port].state && Sorted(b.resets, t)
    requires forall i :: 0 <= i < |b.resets| ==> b.resets[i].port != port
    requires t <= back < t + minTime <= now
    ensures var sampled := Sample(minTime, b, port, false, t);
            PortsExist(sampled)
            && !Run(minTime, sampled, [Sampled(port, true, back)] + [Checked(now)]).contacts[port].state
  {
    OpeningIsReportedOnTime(minTime, b, port, t, [Sampled(port, true, back)], now);
  }

  // ----- Without a waiting time -----

  function LastSample(events: seq<Event>, port: nat): bool
    decreases |events|
  {
    if events == [] then false
    else
      var e := events[|events| - 1];
      if e.Sampled? && e.port == port then e.value else LastSample(events[..|events| - 1], port)
  }

  /** With no waiting time the table is the array of last samples, and nothing is ever queued. */
  lemma {:induction false} NoWaitIsLastSample(b: Bus, events: seq<Event>)
    requires Start(b)
    ensures var r := Run(0, b, events);
            r.resets == [] && forall p :: 0 <= p < |b.contacts| ==>
              r.contacts[p].state == LastSample(events, p) && !r.contacts[p].pending
    decreases |events|
  {
    if events != [] {
      NoWaitIsLastSample(b, events[..|events| - 1]);
    }
  }

  // ----- Whole modules of 4, 8 or 16 contacts -----

  function MaskBit(k: nat): bv32
    requires k < 16
  {
    match k
    case 0 => 0x1
    case 1 => 0x2
    case 2 => 0x4
    case 3 => 0x8
    case 4 => 0x10
    case 5 => 0x20
    case 6 => 0x40
    case 7 => 0x80
    case 8 => 0x100
    case 9 => 0x200
    case 10 => 0x400
    case 11 => 0x800
    case 12 => 0x1000
    case 13 => 0x2000
    case 14 => 0x4000
    case 15 => 0x8000
  }

  /** The first contact of a module, counted from 0. */
  function ModuleStart(modul: int, ports: nat): int
  {
    (modul - 1) * ports
  }

  lemma ModuleEnd(modul: int, ports: nat)
    ensures ModuleStart(modul, ports) + ports == modul * ports
  {
  }

  predicate HasBit(values: bv32, k: nat)
    requires k < 16
  {
    values & MaskBit(k) != 0
  }

  lemma MaskStep(values: bv32, mask: bv32, k: nat)
    requires k < 16 && mask == MaskBit(k)
    ensures (values & mask != 0) == HasBit(values, k)
    ensures k < 15 ==> mask << 1 == MaskBit(k + 1)
    ensures k > 0 ==> mask >> 1 == MaskBit(k - 1)
  {
  }

  /** The bit of a contact: counted from the lowest or from the highest. */
  function BitIndex(ports: nat, lowestFirst: bool, i: nat): (k: nat)
    requires i < ports <= 16
    ensures k < 16
  {
    if lowestFirst then i else ports - 1 - i
  }

  /** The samples of the first `n` contacts of a module whose first contact is `first`. */
  function ModuleEvents(first: int, values: bv32, ports: nat, lowestFirst: bool, n: nat, now: int): (es: seq<Event>)
    requires n <= ports <= 16
    ensures |es| == n
  {
    seq(n, i requires 0 <= i < n => Sampled(first + i, HasBit(values, BitIndex(ports, lowestFirst, i)), now))
  }

  lemma EmptyRun(minTime: int, b: Bus)
    requires PortsExist(b)
    ensures Run(minTime, b, []) == b
  {
  }

  lemma NoEvents(first: int, values: bv32, ports: nat, lowestFirst: bool, now: int)
    requires ports <= 16
    ensures ModuleEvents(first, values, ports, lowestFirst, 0, now) == []
  {
  }

  lemma ModuleEventsNext(first: int, values: bv32, ports: nat, lowestFirst: bool, n: nat, now: int)
    requires n < ports <= 16
    ensures ModuleEvents(first, values, ports, lowestFirst, n, now)
            + [Sampled(first + n, HasBit(values, BitIndex(ports, lowestFirst, n)), now)]
            == ModuleEvents(first, values, ports, lowestFirst, n + 1, now)
  {
  }

  /** Bit `k` of the values read from a module. */
  predicate Bit(values: bv32, k: nat) {
    if k == 0 then values & 1 != 0 else Bit(values >> 1, k - 1)
  }

  lemma MaskShifts(values: bv32, k: nat)
    requires 0 < k < 16
    ensures HasBit(values, k) == HasBit(values >> 1, k - 1)
  {
  }

  lemma {:induction false} HasBitIsBit(values: bv32, k: nat)
    requires k < 16
    ensures HasBit(values, k) == Bit(values, k)
    decreases k
  {
    if k > 0 {
      MaskShifts(values, k);
      HasBitIsBit(values >> 1, k - 1);
      hide HasBit;
    }
  }

  lemma LastSampleOf(events: seq<Event>, e: Event, port: nat)
    ensures LastSample(events + [e], port) == if e.Sampled? && e.port == port then e.value else LastSample(events, port)
  {
    assert (events + [e])[..|events|] == events;
  }

  lemma OneMoreContact(events: seq<Event>, first: int, values: bv32, ports: nat, lowestFirst: bool,
                       n: nat, now: int, port: nat)
    requires n < ports <= 16
    ensures LastSample(events + ModuleEvents(first, values, ports, lowestFirst, n + 1, now), port)
            == if port == first + n then Bit(values, if lowestFirst then n else ports - 1 - n)
               else LastSample(events + ModuleEvents(first, values, ports, lowestFirst, n, now), port)
  {
    var k := BitIndex(ports, lowestFirst, n);
    HasBitIsBit(values, k);
    ModuleEventsNext(first, values, ports, lowestFirst, n, now);
    hide HasBit, Bit, ModuleEvents, LastSample;
    var before, last := ModuleEvents(first, values, ports, lowestFirst, n, now), Sampled(first + n, HasBit(values, k), now);
    assert events + (before + [last]) == events + before + [last];
    LastSampleOf(events + before, last, port);
  }

  lemma {:induction false} LastSampleOfModule(events: seq<Event>, first: int, values: bv32, ports: nat, lowestFirst: bool,
                                              n: nat, now: int, port: nat)
    requires n <= ports <= 16
    ensures LastSample(events + ModuleEvents(first, values, ports, lowestFirst, n, now), port)
            == if first <= port < first + n then Bit(values, if lowestFirst then port - first else ports - 1 - (port - first))
               else LastSample(events, port)
    decreases n
  {
    hide Bit, ModuleEvents, LastSample;
    if n == 0 {
      NoEvents(first, values, ports, lowestFirst, now);
      assert events + [] == events;
    } else {
      OneMoreContact(events, first, values, ports, lowestFirst, n - 1, now, port);
      LastSampleOfModule(events, first, values, ports, lowestFirst, n - 1, now, port);
    }
  }

  /** With no waiting time, module number `modul` shows its bits on the contacts from `(modul - 1) * ports`
      on, lowest or highest bit first, and leaves all other contacts as they were. */
  lemma ModuleShows(b: Bus, events: seq<Event>, modul: int, values: bv32, ports: nat, lowestFirst: bool, now: int, port: nat)
    requires Start(b) && ports <= 16 && port < |b.contacts|
    ensures var i := port - (modul - 1) * ports;
            var after := Run(0, b, events + ModuleEvents(ModuleStart(modul, ports), values, ports, lowestFirst, ports, now));
            after.contacts[port].state
            == if 0 <= i < ports then Bit(values, if lowestFirst then i else ports - 1 - i)
               else Run(0, b, events).contacts[port].state
  {
    hide Run, Bit, ModuleEvents, LastSample;
    NoWaitIsLastSample(b, events);
    NoWaitIsLastSample(b, events + ModuleEvents(ModuleStart(modul, ports), values, ports, lowestFirst, ports, now));
    LastSampleOfModule(events, ModuleStart(modul, ports), values, ports, lowestFirst, ports, now, port);
  }

  // ----- The program's tables -----

  class FeedbackBus {
    const fbstate: array<Contact>
    const resetQueue: array<Reset>
    const minTime: int
    var queueIn: nat
    var queueOut: nat
    var infos: seq<Info>

    ghost predicate Valid()
      reads this, resetQueue, fbstate
    {
      && resetQueue.Length == QUEUELENGTH_FB && queueIn < QUEUELENGTH_FB && queueOut < QUEUELENGTH_FB
      && PortsExist(Bus(fbstate[..], Queue().Contents(), infos))
    }

    ghost function Queue(): (r: Ring<Reset>)
      requires resetQueue.Length == QUEUELENGTH_FB && queueIn < QUEUELENGTH_FB && queueOut < QUEUELENGTH_FB
      reads this, resetQueue
      ensures r.Valid() && |r.slots| == QUEUELENGTH_FB
    {
      Ring(resetQueue[..], queueIn, queueOut)
    }

    ghost function Abstract(): (b: Bus)
      requires Valid()
      reads this, resetQueue, fbstate
      ensures PortsExist(b)
    {
      Bus(fbstate[..], Queue().Contents(), infos)
    }

    constructor (number: nat, minTime: int, now: int)
      ensures Valid() && fresh(fbstate) && fresh(resetQueue) && this.minTime == minTime
      ensures Start(Abstract()) && fbstate.Length == number
    {
      fbstate := new Contact[number](_ => Contact(false, false, now));
      resetQueue := new Reset[QUEUELENGTH_FB](_ => Reset(0, 0));
      this.minTime := minTime;
      queueIn, queueOut, infos := 0, 0, [];
    }

    function QueueLength(): int
      reads this
    {
      if queueIn >= queueOut then queueIn - queueOut else QUEUELENGTH_FB + queueIn - queueOut
    }

    /** The program waits here while the queue is full. */
    method QueueResetFB(port: nat, now: int)
      requires Valid() && port < fbstate.Length && QueueLength() < QUEUELENGTH_FB - 1
      modifies this`queueIn, resetQueue
      ensures Valid() && Abstract() == old(Abstract()).(resets := old(Abstract()).resets + [Reset(port, now)])
      ensures QueueLength() == old(QueueLength()) + 1
    {
      ghost var before := Queue();
      resetQueue[queueIn] := Reset(port, now);
      queueIn := queueIn + 1;
      if queueIn == QUEUELENGTH_FB {
        queueIn := 0;
      }
      assert resetQueue[..] == before.slots[before.tail := Reset(port, now)];
      assert Queue() == before.Put(Reset(port, now));
      PutContents(before, Reset(port, now));
    }

    /** One sample; ports are numbered from 1. */
    method UpdateFB(port: int, value: bool, now: int) returns (rc: int)
      requires Valid() && QueueLength() < QUEUELENGTH_FB - 1
      modifies this`queueIn, this`infos, resetQueue, fbstate
      ensures Valid() && QueueLength() <= old(QueueLength()) + 1
      ensures rc == Answer(port) && (rc == SRCP_OK <==> 1 <= port <= fbstate.Length)
      ensures rc != SRCP_OK ==> rc == SRCP_WRONGVALUE && Abstract() == old(Abstract())
      ensures Abstract() == Step(minTime, old(Abstract()), Sampled(port - 1, value, now))
    {
      if port > fbstate.Length || port < 1 {
        return SRCP_WRONGVALUE;
      }
      var p := port - 1;
      if fbstate[p].state != value {
        if !value {
          if minTime == 0 {
            fbstate[p] := Contact(false, false, now);
            infos := infos + [Info(p, false, now)];
          } else {
            fbstate[p] := fbstate[p].(pending := true);
            QueueResetFB(p, now);
          }
        } else {
          if fbstate[p].pending {
            fbstate[p] := fbstate[p].(pending := false);
          } else {
            fbstate[p] := Contact(true, false, now);
            infos := infos + [Info(p, true, now)];
          }
        }
      }
      rc := SRCP_OK;
    }

    /** What an update answers. */
    function Answer(port: int): int
    {
      if 1 <= port <= fbstate.Length then SRCP_OK else SRCP_WRONGVALUE
    }

    /** After `i` contacts of a module: the samples taken, the room left, and the loop's variables. */
    ghost predicate Swept(before: Bus, waiting: int, first: int, values: bv32, ports: nat, lowestFirst: bool,
                          i: nat, now: int, contact: int, mask: bv32, rc: int)
      reads this, resetQueue, fbstate
    {
      && i <= ports <= 16 && Valid() && PortsExist(before) && QueueLength() <= waiting + i
      && contact == first + 1 + i && (i > 0 ==> rc == Answer(contact - 1))
      && (i < ports ==> mask == MaskBit(BitIndex(ports, lowestFirst, i)))
      && Abstract() == Run(minTime, before, ModuleEvents(first, values, ports, lowestFirst, i, now))
    }

    /** A module's contacts in either bit order; the last contact decides about the answer. */
    method SetFBmodul(modul: int, values: bv32, ports: nat, lowestFirst: bool, now: int) returns (rc: int)
      requires Valid() && (ports == 4 || ports == 8 || ports == 16)
      requires QueueLength() + ports < QUEUELENGTH_FB
      modifies this`queueIn, this`infos, resetQueue, fbstate
      ensures Valid() && rc == Answer(ModuleStart(modul, ports) + ports)
      ensures rc == SRCP_OK <==> 1 <= modul * ports <= fbstate.Length
      ensures Abstract()
           == Run(minTime, old(Abstract()), ModuleEvents(ModuleStart(modul, ports), values, ports, lowestFirst, ports, now))
    {
      hide Run, ModuleEvents, MaskBit, BitIndex, Step;
      var contact := ModuleStart(modul, ports) + 1;
      ghost var first := ModuleStart(modul, ports);
      var mask := FirstMask(ports, lowestFirst);
      rc := SRCP_OK;
      ghost var before, waiting := Abstract(), QueueLength();
      EmptyRun(minTime, before);
      NoEvents(first, values, ports, lowestFirst, now);
      assert Swept(before, waiting, first, values, ports, lowestFirst, 0, now, contact, mask, rc);
      hide Swept, ModuleStart;
      for i := 0 to ports
        invariant Swept(before, waiting, first, values, ports, lowestFirst, i, now, contact, mask, rc)
      {
        contact, mask, rc := NextContact(contact, values, mask, now, lowestFirst, before, waiting, first, ports, i, rc);
      }
      SweptAll(before, waiting, first, values, ports, lowestFirst, now, contact, mask, rc);
      assert ModuleStart(modul, ports) + ports == modul * ports by { ModuleEnd(modul, ports); }
    }

    lemma SweptAll(before: Bus, waiting: int, first: int, values: bv32, ports: nat, lowestFirst: bool,
                   now: int, contact: int, mask: bv32, rc: int)
      requires 0 < ports <= 16
      requires Swept(before, waiting, first, values, ports, lowestFirst, ports, now, contact, mask, rc)
      ensures Valid() && PortsExist(before) && rc == Answer(first + ports)
      ensures Abstract() == Run(minTime, before, ModuleEvents(first, values, ports, lowestFirst, ports, now))
    {
      hide Run, ModuleEvents, MaskBit, BitIndex;
    }

    /** One round of the loop over a module's contacts. */
    method NextContact(contact: int, values: bv32, mask: bv32, now: int, lowestFirst: bool,
                       ghost before: Bus, ghost waiting: int, ghost first: int, ghost ports: nat, ghost i: nat, ghost last: int)
      returns (next: int, nextMask: bv32, rc: int)
      requires Swept(before, waiting, first, values, ports, lowestFirst, i, now, contact, mask, last)
      requires i < ports && waiting + ports < QUEUELENGTH_FB
      modifies this`queueIn, this`infos, resetQueue, fbstate
      ensures Swept(before, waiting, first, values, ports, lowestFirst, i + 1, now, next, nextMask, rc)
    {
      hide BitIndex, MaskBit, HasBit, Step, ModuleEvents, Run, Valid, Abstract, QueueLength;
      ghost var k := BitIndex(ports, lowestFirst, i);
      ModuleEventsNext(first, values, ports, lowestFirst, i, now);
      RunLast(minTime, before, ModuleEvents(first, values, ports, lowestFirst, i, now),
              Sampled(first + i, HasBit(values, k), now));
      rc := UpdateMasked(contact, values, mask, now, k);
      next := contact + 1;
      nextMask := ShiftMask(mask, lowestFirst, ports, i);
    }

    method UpdateMasked(contact: int, values: bv32, mask: bv32, now: int, ghost k: nat) returns (rc: int)
      requires Valid() && QueueLength() < QUEUELENGTH_FB - 1
      requires k < 16 && mask == MaskBit(k)
      modifies this`queueIn, this`infos, resetQueue, fbstate
      ensures Valid() && QueueLength() <= old(QueueLength()) + 1
      ensures rc == Answer(contact)
      ensures Abstract() == Step(minTime, old(Abstract()), Sampled(contact - 1, HasBit(values, k), now))
    {
      MaskStep(values, mask, k);
      var c := values & mask != 0;
      hide MaskBit, HasBit, Step;
      rc := UpdateFB(contact, c, now);
    }

    static method ShiftMask(mask: bv32, lowestFirst: bool, ghost ports: nat, ghost i: nat) returns (shifted: bv32)
      requires i < ports <= 16 && mask == MaskBit(BitIndex(ports, lowestFirst, i))
      ensures i + 1 < ports ==> shifted == MaskBit(BitIndex(ports, lowestFirst, i + 1))
    {
      MaskStep(0, mask, BitIndex(ports, lowestFirst, i));
      hide MaskBit;
      if lowestFirst {
        shifted := mask << 1;
      } else {
        shifted := mask >> 1;
      }
    }

    static method FirstMask(ports: nat, lowestFirst: bool) returns (mask: bv32)
      requires ports == 4 || ports == 8 || ports == 16
      ensures mask == MaskBit(BitIndex(ports, lowestFirst, 0))
    {
      if lowestFirst {
        mask := 1;
      } else {
        mask := if ports == 4 then 1 << 3 else if ports == 8 then 1 << 7 else 1 << 15;
      }
    }

    /** The oldest reset, if there is one. */
    method GetNextFB() returns (found: bool, info: Reset)
      requires Valid()
      ensures found <==> Abstract().resets != []
      ensures found ==> info == Abstract().resets[0]
    {
      found := queueIn != queueOut;
      info := resetQueue[queueOut];
      if found {
        DropContents(Queue());
      }
    }

    method UnqueueNextFB()
      requires Valid() && Abstract().resets != []
      modifies this`queueOut
      ensures Valid() && Abstract() == old(Abstract()).(resets := old(Abstract()).resets[1..])
    {
      DropContents(Queue());
      queueOut := queueOut + 1;
      if queueOut == QUEUELENGTH_FB {
        queueOut := 0;
      }
      assert Queue() == old(Queue()).Drop();
    }

    method CheckResetFB(now: int)
      requires Valid()
      modifies this`queueOut, this`infos, fbstate
      ensures Valid() && Abstract() == Check(minTime, old(Abstract()), now)
    {
      var found, info := GetNextFB();
      while found
        invariant Valid() && (found <==> Abstract().resets != []) && (found ==> info == Abstract().resets[0])
        invariant Check(minTime, Abstract(), now) == Check(minTime, old(Abstract()), now)
        decreases |Abstract().resets|
      {
        if !fbstate[info.port].pending {
          UnqueueNextFB();
        } else {
          if now - info.stamp < minTime {
            break;
          }
          UnqueueNextFB();
          fbstate[info.port] := Contact(false, false, info.stamp);
          infos := infos + [Info(info.port, false, info.stamp)];
        }
        found, info := GetNextFB();
      }
    }
  }
}
