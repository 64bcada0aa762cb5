/** Results that join talker, listener and statistics: the capture stamp of a recording, the mean
    capture delta, and the loss count. */
module EndToEnd {
  import opened Bytes
  import opened AvtpTime
  import opened Settings
  import opened StatsSpec
  import opened ListenerSpec

  // ---------- packets that come from the talker ----------

  /** The true presentation time: the talker's clock plus the transit time. */
  function TruePresentation(r: Reception, cfg: StreamSettings): nat
  {
    r.origin.reading + TransitNs(cfg.maxTransitMs)
  }

  /** Stamped by a talker with the same transit setting, and less than 2^32 ns before its
      presentation time on arrival. */
  predicate Genuine(r: Reception, cfg: StreamSettings)
  {
    && TruePresentation(r, cfg) < TWO_64
    && r.packet.timestamp == CalculateAvtpTime(FromNs(r.origin.reading), cfg.maxTransitMs)
    && ToNs(r.arrival) <= TruePresentation(r, cfg) < ToNs(r.arrival) + TWO_32
  }

  predicate AllGenuine(es: seq<Event>, cfg: StreamSettings)
  {
    es == [] || ((es[0].reception.Some? ==> Genuine(es[0].reception.value, cfg)) && AllGenuine(es[1..], cfg))
  }

  /** What the listener makes of a genuine packet's presentation time. */
  lemma GenuineRebuild(r: Reception, cfg: StreamSettings)
    requires Genuine(r, cfg)
    ensures var p := ToNs(Rebuild(r).presentation);
            if Rebuild(r).late then p == TruePresentation(r, cfg) - TWO_32 else p == TruePresentation(r, cfg)
  {
    NsRoundTrip(r.origin.reading);
    TalkerStamp(FromNs(r.origin.reading), cfg.maxTransitMs);
    TimerExact(TruePresentation(r, cfg), r.arrival);
  }

  lemma {:induction false} AcceptedGenuine(s: State, es: seq<Event>, cfg: StreamSettings, i: nat)
    requires AllGenuine(es, cfg) && Run(s, es).Some? && i < |Accepted(s, es)|
    ensures Genuine(Accepted(s, es)[i], cfg)
    decreases |es|
  {
    var now := |AcceptedNow(s, es[0])|;
    if i >= now {
      AcceptedGenuine(Step(s, es[0]).value, es[1..], cfg, i - now);
    }
  }

  // ---------- deadlines ----------

  /** Every deadline the listener arms is the talker's true presentation time. */
  lemma DeadlineIsTrue(s: State, e: Event, cfg: StreamSettings)
    requires InMode(s) && (e.reception.Some? ==> Genuine(e.reception.value, cfg))
    ensures var t := AfterReception(s, e).timer;
            t != s.timer ==> t.Armed? && ToNs(t.deadline) == TruePresentation(e.reception.value, cfg)
  {
    ArmsOnlyWhenIdle(s, e);
    if AfterReception(s, e).timer != s.timer {
      GenuineRebuild(e.reception.value, cfg);
    }
  }

  // ---------- the start stamp ----------

  /** The capture time computed for the first stored packet is the talker's clock reading for that
      packet minus the hardware latency (modulo 2^64, so exactly that when the clock is past the
      latency): for every run, with the carry of the time recovery disabled. */
  lemma StartStamp(es: seq<Event>, cfg: StreamSettings)
    requires Run(INIT, es).Some? && AllGenuine(es, cfg) && Run(INIT, es).value.stack != []
    ensures Accepted(INIT, es) != []
    ensures var stack, reading := Run(INIT, es).value.stack, Accepted(INIT, es)[0].origin.reading;
            && CapTime(stack[|stack| - 1], cfg) == FromNs(Wrap64(reading - cfg.hwLatencyNs))
            && (reading >= cfg.hwLatencyNs ==>
                  ToNs(CapTime(stack[|stack| - 1], cfg)) == reading - cfg.hwLatencyNs)
  {
    BottomIsFirst(es);
    FirstIsOnTime(INIT, es);
    AcceptedGenuine(INIT, es, cfg, 0);
    CaptureOfGenuine(Accepted(INIT, es)[0], cfg);
  }

  /** The stack of a run from the start lies between its first and last accepted packets. */
  lemma BottomIsFirst(es: seq<Event>)
    requires Run(INIT, es).Some?
    ensures var acc, stack := Accepted(INIT, es), Run(INIT, es).value.stack;
            && |stack| == |acc|
            && (stack != [] ==> stack[|stack| - 1] == EntryOf(acc[0]) && stack[0] == EntryOf(acc[|acc| - 1]))
  {
    RunStack(INIT, es);
    assert EntriesOf(Accepted(INIT, es)) + [] == EntriesOf(Accepted(INIT, es));
  }

  lemma CaptureOfGenuine(r: Reception, cfg: StreamSettings)
    requires Genuine(r, cfg) && !Rebuild(r).late
    ensures CapTime(EntryOf(r), cfg) == FromNs(Wrap64(r.origin.reading - cfg.hwLatencyNs))
    ensures r.origin.reading >= cfg.hwLatencyNs ==>
              ToNs(CapTime(EntryOf(r), cfg)) == r.origin.reading - cfg.hwLatencyNs
  {
    hide Genuine, Rebuild, ToNs, FromNs, Wrap64;
    GenuineRebuild(r, cfg);
    CaptureNs(ToNs(Rebuild(r).presentation), TransitNs(cfg.maxTransitMs), r.origin.reading, cfg.hwLatencyNs);
    NsRoundTrip(Wrap64(r.origin.reading - cfg.hwLatencyNs));
  }

  lemma CaptureNs(p: int, transit: int, reading: u64, latency: u64)
    requires p == reading + transit
    ensures Wrap64(Wrap64(p - transit) - latency) == Wrap64(reading - latency)
    ensures reading >= latency ==> Wrap64(reading - latency) == reading - latency
  {
  }

  // ---------- travel times ----------

  /** The travel time computed for a genuine packet is its arrival less the talker's clock exactly when
      it was not rebuilt too early, and otherwise 2^32 more (modulo 2^64). */
  lemma TravelOfGenuine(r: Reception, cfg: StreamSettings)
    requires Genuine(r, cfg)
    ensures var travel, truth := Travel(EntryOf(r), cfg), ToNs(r.arrival) - r.origin.reading;
            && travel == Wrap64(if Rebuild(r).late then truth + TWO_32 else truth)
            && (travel == Wrap64(truth) <==> !Rebuild(r).late)
  {
    GenuineRebuild(r, cfg);
    var sent := ToNs(Rebuild(r).presentation) - TransitNs(cfg.maxTransitMs);
    WrapRight(ToNs(r.arrival), sent);
    WrapShift(ToNs(r.arrival) - r.origin.reading);
  }

  lemma WrapShift(x: int)
    ensures Wrap64(x + TWO_32) != Wrap64(x)
  {
  }

  /** Over a whole run: every travel time the statistics report, newest first. */
  lemma TravelsOfRun(es: seq<Event>, cfg: StreamSettings, i: nat)
    requires Run(INIT, es).Some? && AllGenuine(es, cfg) && i < |Accepted(INIT, es)|
    ensures var acc, travels := Accepted(INIT, es), Travels(Run(INIT, es).value.stack, cfg);
            && |travels| == |acc|
            && var r, travel := acc[|acc| - 1 - i], travels[i];
               && (travel == Wrap64(ToNs(r.arrival) - r.origin.reading) <==> !Rebuild(r).late)
               && (Rebuild(r).late ==> travel == Wrap64(ToNs(r.arrival) - r.origin.reading + TWO_32))
  {
    hide Run, Accepted, AllGenuine, Genuine, Rebuild, Travel;
    var acc := Accepted(INIT, es);
    RunStack(INIT, es);
    assert EntriesOf(acc) + [] == EntriesOf(acc);
    AcceptedGenuine(INIT, es, cfg, |acc| - 1 - i);
    TravelOfGenuine(acc[|acc| - 1 - i], cfg);
  }

  // ---------- the mean capture delta ----------

  /** Over the packets a run accepted, the reported mean capture delta is the true average distance
      between the first and the last exactly when the last was not rebuilt too early. */
  lemma MeanDeltaOfRun(es: seq<Event>, cfg: StreamSettings)
    requires Run(INIT, es).Some? && AllGenuine(es, cfg)
    requires 1 < |Accepted(INIT, es)| <= TWO_32
    requires var acc := Accepted(INIT, es);
             TruePresentation(acc[0], cfg) <= TruePresentation(acc[|acc| - 1], cfg)
    ensures var acc, stack := Accepted(INIT, es), Run(INIT, es).value.stack;
            && |stack| == |acc|
            && (MeanDelta(stack, cfg) ==
                  (TruePresentation(acc[|acc| - 1], cfg) - TruePresentation(acc[0], cfg)) / (|acc| - 1)
                <==> !Rebuild(acc[|acc| - 1]).late)
  {
    hide Run, Accepted, AllGenuine, Genuine, Rebuild, CapTime;
    var acc, stack := Accepted(INIT, es), Run(INIT, es).value.stack;
    var n := |acc| - 1;
    BottomIsFirst(es);
    FirstIsOnTime(INIT, es);
    AcceptedGenuine(INIT, es, cfg, 0);
    AcceptedGenuine(INIT, es, cfg, n);
    GenuineRebuild(acc[0], cfg);
    GenuineRebuild(acc[n], cfg);
    DeltasTelescope(stack, cfg);
    assert |Deltas(stack, cfg)| == n;
    ShiftedQuotient(TruePresentation(acc[n], cfg) - TruePresentation(acc[0], cfg), n);
  }

  /** Taking 2^32 away, with or without wrapping, changes the quotient. */
  lemma ShiftedQuotient(x: int, n: int)
    requires 0 <= x < TWO_64 && 0 < n < TWO_32
    ensures Wrap64(x) == x
    ensures Wrap64(x - TWO_32) / n != x / n
  {
    var w := Wrap64(x - TWO_32);
    if x >= TWO_32 {
      assert w == x - TWO_32;
      DivStep(w, n);
      DivMonotone(w + n, x, n);
    } else {
      assert w == x - TWO_32 + TWO_64;
      DivStep(x, n);
      DivMonotone(x + n, w, n);
    }
  }

  // ---------- the loss count ----------

  /** A packet that reached the sequence check, and whether it was stored. */
  datatype Observation = Observation(index: nat, stored: bool)

  function ObservedNow(s: State, e: Event): seq<Observation>
  {
    if e.reception.Some? && e.reception.value.packet.streamOk
    then [Observation(e.reception.value.origin.index, Accepts(s, e.reception.value))] else []
  }

  function Observed(s: State, es: seq<Event>): seq<Observation>
    decreases |es|
  {
    if es == [] || Step(s, es[0]) == None then []
    else ObservedNow(s, es[0]) + Observed(Step(s, es[0]).value, es[1..])
  }

  /** The talker numbers its packets modulo 256. */
  predicate Numbered(es: seq<Event>)
  {
    es == [] ||
    ((es[0].reception.Some? && es[0].reception.value.packet.streamOk ==>
        es[0].reception.value.packet.seqNum == es[0].reception.value.origin.index % 256)
     && Numbered(es[1..]))
  }

  /** Indices grow strictly from `prev` on: no reordering, no duplication. */
  predicate Increasing(prev: int, obs: seq<Observation>)
    decreases |obs|
  {
    obs == [] || (prev < obs[0].index && Increasing(obs[0].index, obs[1..]))
  }

  function LastIndex(prev: nat, obs: seq<Observation>): nat
  {
    if obs == [] then prev else obs[|obs| - 1].index
  }

  /** What the count misses: whole multiples of 256 in a gap before a stored packet, and for a
      packet not stored, itself together with everything missing before it. */
  function Uncounted(prev: nat, obs: seq<Observation>): nat
    requires Increasing(prev, obs)
    decreases |obs|
  {
    if obs == [] then 0
    else (if obs[0].stored then (obs[0].index - prev - 1) / 256 * 256 else obs[0].index - prev)
         + Uncounted(obs[0].index, obs[1..])
  }

  /** Nothing rejected or discarded, and never more than 255 missing in a row. */
  predicate Countable(prev: nat, obs: seq<Observation>)
    decreases |obs|
  {
    obs == [] || (obs[0].stored && obs[0].index - prev <= 256 && Countable(obs[0].index, obs[1..]))
  }

  lemma {:induction false} UncountedIff(prev: nat, obs: seq<Observation>)
    requires Increasing(prev, obs)
    ensures Uncounted(prev, obs) == 0 <==> Countable(prev, obs)
    decreases |obs|
  {
    if obs != [] {
      UncountedIff(obs[0].index, obs[1..]);
    }
  }

  lemma {:induction false} LastIsLater(prev: nat, obs: seq<Observation>)
    requires Increasing(prev, obs)
    ensures LastIndex(prev, obs) >= prev
    ensures obs != [] ==> LastIndex(prev, obs) == LastIndex(obs[0].index, obs[1..])
    decreases |obs|
  {
    if obs != [] {
      LastIsLater(obs[0].index, obs[1..]);
    }
  }

  /** What one pass adds to pushed plus dropped, once something is stored. */
  lemma StepLoss(s: State, e: Event, prev: nat)
    requires Step(s, e).Some? && s.expectedSeq == Wrap8(prev + 1) && s.stack != []
    requires Numbered([e]) && Increasing(prev, ObservedNow(s, e))
    requires s.dropped + (LastIndex(prev, ObservedNow(s, e)) - prev) < TWO_32
    ensures var t, obs := Step(s, e).value, ObservedNow(s, e);
            && t.stack != [] && t.expectedSeq == Wrap8(LastIndex(prev, obs) + 1)
            && |t.stack| + t.dropped + Uncounted(prev, obs) == |s.stack| + s.dropped + (LastIndex(prev, obs) - prev)
            && t.dropped <= s.dropped + (LastIndex(prev, obs) - prev)
  {
    StepCounters(s, e);
    if ObservedNow(s, e) != [] {
      PacketLoss(s, e.reception.value, prev);
      assert ObservedNow(s, e)[1..] == [];
    }
  }

  /** Playing touches none of the counters. */
  lemma StepCounters(s: State, e: Event)
    requires Step(s, e).Some?
    ensures var t, u := Step(s, e).value, AfterReception(s, e);
            t.stack == u.stack && t.dropped == u.dropped && t.expectedSeq == u.expectedSeq
  {
  }

  lemma PacketLoss(s: State, r: Reception, prev: nat)
    requires s.expectedSeq == Wrap8(prev + 1) && s.stack != []
    requires r.packet.streamOk && r.packet.seqNum == r.origin.index % 256 && prev < r.origin.index
    requires s.dropped + (r.origin.index - prev) < TWO_32
    ensures var t, gap := AfterPacket(s, r), r.origin.index - prev;
            && t.stack != [] && t.expectedSeq == Wrap8(r.origin.index + 1)
            && t.dropped <= s.dropped + gap
            && |t.stack| + t.dropped + (if Accepts(s, r) then (gap - 1) / 256 * 256 else gap)
                 == |s.stack| + s.dropped + gap
  {
    hide Missing, NextSeq, Accepts, Wrap8, EntryOf;
    MissingIs(s.expectedSeq, r.packet, prev, r.origin.index);
    var missing := Missing(s.expectedSeq, r.packet);
    assert missing <= r.origin.index - prev;
    assert Wrap32(s.dropped + missing) == s.dropped + missing;
  }

  lemma MissingIs(expected: u8, p: Packet, prev: nat, i: nat)
    requires expected == Wrap8(prev + 1) && p.streamOk && p.seqNum == i % 256 && prev < i
    ensures NextSeq(expected, p) == Wrap8(i + 1)
    ensures Missing(expected, p) == (i - prev - 1) % 256
    ensures (i - prev - 1) / 256 * 256 + (i - prev - 1) % 256 == i - prev - 1
  {
    Wrap8Diff(i, 1);
    Wrap8Diff(prev + 1, 1);
    Wrap8Minus(i + 1, prev + 2);
  }

  lemma Wrap8Diff(x: int, y: int)
    ensures Wrap8(Wrap8(x) + y) == Wrap8(x + y)
  {
  }

  lemma Wrap8Minus(x: int, y: int)
    ensures Wrap8(Wrap8(x) - Wrap8(y)) == Wrap8(x - y)
  {
  }

  lemma IncreasingSplit(prev: nat, a: seq<Observation>, b: seq<Observation>)
    requires |a| <= 1 && Increasing(prev, a + b)
    ensures Increasing(prev, a) && Increasing(LastIndex(prev, a), b)
    ensures Uncounted(prev, a + b) == Uncounted(prev, a) + Uncounted(LastIndex(prev, a), b)
    ensures LastIndex(prev, a + b) == LastIndex(LastIndex(prev, a), b)
  {
    if a == [] {
      assert a + b == b;
    } else {
      assert (a + b)[1..] == b && a[1..] == [];
    }
  }

  /** Loss accounting from any point with something stored: pushed plus dropped plus uncounted is
      the distance in the talker's numbering. */
  lemma {:induction false} RunLoss(s: State, es: seq<Event>, prev: nat)
    requires Run(s, es).Some? && s.expectedSeq == Wrap8(prev + 1) && s.stack != []
    requires Numbered(es) && Increasing(prev, Observed(s, es))
    requires s.dropped + (LastIndex(prev, Observed(s, es)) - prev) < TWO_32
    ensures var t, obs := Run(s, es).value, Observed(s, es);
            |t.stack| + t.dropped + Uncounted(prev, obs) == |s.stack| + s.dropped + (LastIndex(prev, obs) - prev)
    decreases |es|
  {
    if es != [] {
      var t, now := Step(s, es[0]).value, ObservedNow(s, es[0]);
      var mid := LastIndex(prev, now);
      IncreasingSplit(prev, now, Observed(t, es[1..]));
      LastIsLater(mid, Observed(t, es[1..]));
      LastIsLater(prev, now);
      StepLoss(s, es[0], prev);
      RunLoss(t, es[1..], mid);
    }
  }

  /** The observations from the first stored packet on; what precedes it is not counted. */
  function FromFirst(obs: seq<Observation>): seq<Observation>
    decreases |obs|
  {
    if obs == [] || obs[0].stored then obs else FromFirst(obs[1..])
  }

  /** Before anything is stored. */
  lemma StepUnstored(s: State, e: Event)
    requires Step(s, e).Some? && s.stack == [] && s.dropped == 0 && Numbered([e])
    ensures var t, obs := Step(s, e).value, ObservedNow(s, e);
            if obs != [] && obs[0].stored
            then |t.stack| == 1 && t.dropped == 0 && t.expectedSeq == Wrap8(obs[0].index + 1)
            else t.stack == [] && t.dropped == 0
  {
  }

  lemma IncreasingTail(prev: int, a: seq<Observation>, b: seq<Observation>)
    requires |a| <= 1 && Increasing(prev, a + b)
    ensures Increasing(if a == [] then prev else a[0].index, b)
    ensures a != [] && a[0].stored ==> FromFirst(a + b) == a + b
    ensures a == [] || !a[0].stored ==> FromFirst(a + b) == FromFirst(b)
    ensures a != [] ==> (a + b)[1..] == b && (a + b)[0] == a[0]
  {
    if a == [] {
      assert a + b == b;
    } else {
      assert (a + b)[1..] == b;
    }
  }

  /** The loss count of a whole run, exactly.  If packets arrive in the talker's order and the span
      fits 32 bits, the packets stored, plus those counted as dropped, plus the uncounted ones, are
      all the packets from the first stored to the last seen. */
  lemma {:induction false} LossExact(s: State, es: seq<Event>, prev: int)
    requires Run(s, es).Some? && s.stack == [] && s.dropped == 0
    requires Numbered(es) && Increasing(prev, Observed(s, es))
    requires var obs := FromFirst(Observed(s, es));
             obs != [] ==> LastIndex(0, obs) - obs[0].index < TWO_32
    ensures var t, obs := Run(s, es).value, FromFirst(Observed(s, es));
            if obs == [] then t.stack == [] && t.dropped == 0
            else
              var first, last := obs[0].index, obs[|obs| - 1].index;
              && Increasing(first, obs[1..])
              && |t.stack| + t.dropped + Uncounted(first, obs[1..]) == last - first + 1
              && (|t.stack| + t.dropped == last - first + 1 <==> Countable(first, obs[1..]))
    decreases |es|
  {
    if es != [] {
      var t, now, rest := Step(s, es[0]).value, ObservedNow(s, es[0]), Observed(Step(s, es[0]).value, es[1..]);
      IncreasingTail(prev, now, rest);
      StepUnstored(s, es[0]);
      if now != [] && now[0].stored {
        LastIsLater(now[0].index, rest);
        RunLoss(t, es[1..], now[0].index);
        UncountedIff(now[0].index, rest);
      } else {
        LossExact(t, es[1..], if now == [] then prev else now[0].index);
      }
    }
  }

  /** A packet of index `i` that arrives on time. */
  function PromptPacket(i: nat): Event
  {
    Event(Some(Reception(Packet(true, true, i % 256, 5, []), Timespec(0, 1), Origin(i, 0))), false)
  }

  /** The smallest undercount by a gap alone: packet 0, then packet 257.  Two are stored, 256 are
      missing, none is counted. */
  lemma UndercountReached()
    ensures var es := [PromptPacket(0), PromptPacket(257)];
            && Numbered(es) && Increasing(-1, Observed(INIT, es)) && Run(INIT, es).Some?
            && Observed(INIT, es) == [Observation(0, true), Observation(257, true)]
            && |Run(INIT, es).value.stack| == 2 && Run(INIT, es).value.dropped == 0
  {
    var a, b := PromptPacket(0), PromptPacket(257);
    NsRoundTrip(5);
    var s := Step(INIT, a).value;
    assert [a, b][1..] == [b] && [b][1..] == [];
    assert Accepts(INIT, a.reception.value) && Accepts(s, b.reception.value);
    assert ObservedNow(INIT, a) == [Observation(0, true)] && ObservedNow(s, b) == [Observation(257, true)];
    assert [Observation(0, true), Observation(257, true)][1..] == [Observation(257, true)];
    assert [Observation(257, true)][1..] == [];
  }
}
