/** The listener as a state machine.  One event is one pass of the poll loop: at most one packet,
    and whether the playback timer had expired by then.  A step is `None` when an assertion of the
    source would fail. */
module ListenerSpec {
  import opened Bytes
  import opened AvtpTime
  import opened Settings
  import opened StatsSpec

  datatype Option<T> = None | Some(value: T)

  /** A received PDU.  `streamOk`: subtype, version, time-valid bit, SP mode and stream id match;
      `formatOk`: format, rate, channels, depth and data length match. */
  datatype Packet = Packet(streamOk: bool, formatOk: bool, seqNum: u8, timestamp: u32, payload: seq<u8>)

  /** Where a packet came from: its place in the talker's stream and the talker's clock when it
      was stamped.  No step looks at this; theorems do. */
  datatype Origin = Origin(index: nat, reading: u64)

  datatype Reception = Reception(packet: Packet, arrival: Timespec, origin: Origin)

  datatype Event = Event(reception: Option<Reception>, fired: bool)

  datatype Sample = Sample(presentation: Timespec, payload: seq<u8>)

  datatype Timer = Idle | Armed(deadline: Timespec)

  datatype State = State(queue: seq<Sample>, timer: Timer, running: bool, expectedSeq: u8,
                         stack: seq<Entry>, dropped: u32, played: seq<seq<u8>>)

  const INIT: State := State([], Idle, false, 0, [], 0, [])

  // ---------- one packet ----------

  /** Sequence check: a mismatch is only logged, and either way the next number is expected.  A
      packet rejected before the check leaves the expectation alone. */
  function NextSeq(expected: u8, p: Packet): u8
  {
    if p.streamOk then Wrap8(p.seqNum + 1) else expected
  }

  function Rebuild(r: Reception): Rebuilt { GetPresentationTime(r.packet.timestamp, r.arrival) }

  /** Late packets are discarded only while the queue is empty. */
  predicate Accepts(s: State, r: Reception)
  {
    r.packet.streamOk && r.packet.formatOk && !(Rebuild(r).late && s.queue == [])
  }

  /** Packets missing before this one, as eight bits tell. */
  function Missing(expected: u8, p: Packet): u8
  {
    Wrap8(NextSeq(expected, p) - Wrap8(expected + 1))
  }

  /** Arming a timerfd with time zero disarms it. */
  function Arm(deadline: Timespec): Timer
  {
    if deadline == Timespec(0, 0) then Idle else Armed(deadline)
  }

  function EntryOf(r: Reception): Entry { Entry(r.arrival, Rebuild(r).presentation) }

  function Count(s: State, r: Reception): State
  {
    s.(expectedSeq := NextSeq(s.expectedSeq, r.packet),
       dropped := if s.stack != [] then Wrap32(s.dropped + Missing(s.expectedSeq, r.packet)) else s.dropped,
       stack := [EntryOf(r)] + s.stack)
  }

  function Schedule(s: State, r: Reception): State
  {
    s.(queue := s.queue + [Sample(Rebuild(r).presentation, r.packet.payload)],
       timer := if s.queue == [] then Arm(Rebuild(r).presentation) else s.timer)
  }

  function AfterPacket(s: State, r: Reception): State
  {
    if Accepts(s, r) then Schedule(Count(s, r), r)
    else s.(expectedSeq := NextSeq(s.expectedSeq, r.packet))
  }

  function AfterReception(s: State, e: Event): State
  {
    match e.reception
    case None => s
    case Some(r) => AfterPacket(s, r)
  }

  /** Exactly which packets are taken, in terms of their fields and the arrival clock: those that match
      the stream and, unless others are queued, whose time stamp is not below the lower 32 bits of the
      clock.  A packet taken is queued at the tail and entered in the statistics; no other packet
      touches either. */
  lemma AcceptedIff(s: State, r: Reception)
    ensures var p, t := r.packet, AfterPacket(s, r);
            var clock := r.arrival.sec * 1_000_000_000 + r.arrival.nsec;
            if p.streamOk && p.formatOk && (s.queue != [] || p.timestamp >= clock % 0x1_0000_0000)
            then
              && |t.queue| == |s.queue| + 1 && t.queue[..|s.queue|] == s.queue
              && t.queue[|s.queue|] == Sample(Rebuild(r).presentation, p.payload)
              && |t.stack| == |s.stack| + 1 && t.stack[1..] == s.stack
              && t.stack[0] == Entry(r.arrival, Rebuild(r).presentation)
              && t.dropped == (if s.stack == [] then s.dropped
                               else (s.dropped + (p.seqNum - s.expectedSeq) % 0x100) % 0x1_0000_0000)
            else t.queue == s.queue && t.stack == s.stack && t.dropped == s.dropped && t.timer == s.timer
    ensures r.packet.streamOk ==> AfterPacket(s, r).expectedSeq == (r.packet.seqNum + 1) % 0x100
    ensures !r.packet.streamOk ==> AfterPacket(s, r) == s
  {
    LateIff(r.packet.timestamp, r.arrival);
    MissingIsDistance(s.expectedSeq, r.packet);
    hide GetPresentationTime, Missing, Arm;
  }

  /** Packets missing, as the distance between the number seen and the one expected. */
  lemma MissingIsDistance(expected: u8, p: Packet)
    ensures p.streamOk ==> Missing(expected, p) == (p.seqNum - expected) % 0x100
  {
  }

  // ---------- one pass of the loop ----------

  predicate TimerReadable(s: State, e: Event) { e.fired && s.timer.Armed? }

  function Play(s: State): State
    requires s.queue != []
  {
    s.(queue := s.queue[1..], running := s.running && |s.queue| > 1, played := s.played + [s.queue[0].payload])
  }

  function Step(s: State, e: Event): Option<State>
  {
    var t := AfterReception(s, e);
    if s.running then (if t.queue == [] then None else Some(Play(t)))
    else if TimerReadable(s, e) then
      // the expiration count read is one only if the timer was not armed anew meanwhile
      if t.queue == [] || s.queue == [] then None else Some(Play(t.(running := true, timer := Idle)))
    else Some(t)
  }

  function Run(s: State, es: seq<Event>): Option<State>
    decreases |es|
  {
    if es == [] then Some(s)
    else match Step(s, es[0]) case None => None case Some(t) => Run(t, es[1..])
  }

  // ---------- the mode invariant ----------

  /** Exactly one of: waiting for a packet, scheduled on the timer, playing by hardware pace. */
  predicate InMode(s: State)
  {
    || (s.queue == [] && s.timer == Idle && !s.running)
    || (s.queue != [] && s.timer.Armed? && !s.running)
    || (s.queue != [] && s.timer == Idle && s.running)
  }

  /** The first packet of a burst, received at the epoch and stamped zero. */
  predicate ArmsAtEpoch(s: State, e: Event)
  {
    match e.reception
    case None => false
    case Some(r) =>
      && r.packet.streamOk && r.packet.formatOk && s.queue == []
      && ToNs(r.arrival) == 0 && r.packet.timestamp == 0
  }

  /** A burst's first packet gets a real deadline exactly when it is not stamped zero at the epoch. */
  lemma ArmedIff(s: State, r: Reception)
    requires Accepts(s, r) && s.queue == []
    ensures Arm(Rebuild(r).presentation) == Idle <==> ToNs(r.arrival) == 0 && r.packet.timestamp == 0
    ensures Arm(Rebuild(r).presentation) != Idle ==> Arm(Rebuild(r).presentation) == Armed(Rebuild(r).presentation)
  {
    NsRoundTrip(RebuiltNs(r.packet.timestamp, ToNs(r.arrival)));
    assert ToNs(Timespec(0, 0)) == 0 && FromNs(0) == Timespec(0, 0);
  }

  /** Whatever packet and timer events a pass brings: from a mode, no assertion fails, and the pass
      ends in a mode again if and only if it does not arm the timer with time zero. */
  lemma StepKeepsMode(s: State, e: Event)
    requires InMode(s)
    ensures Step(s, e).Some?
    ensures InMode(Step(s, e).value) <==> !ArmsAtEpoch(s, e)
  {
    if e.reception.Some? && Accepts(s, e.reception.value) && s.queue == [] {
      ArmedIff(s, e.reception.value);
    }
  }

  /** The timer is armed only for a first packet while idle, never while pending or playing, and
      then for the rebuilt time of that packet, which is on time. */
  lemma ArmsOnlyWhenIdle(s: State, e: Event)
    requires InMode(s)
    ensures var t := AfterReception(s, e);
            t.timer != s.timer ==>
              && s.timer == Idle && !s.running && s.queue == []
              && e.reception.Some? && Accepts(s, e.reception.value) && !Rebuild(e.reception.value).late
              && t.timer == Armed(Rebuild(e.reception.value).presentation)
  {
  }

  /** The clock is past the epoch at every reception. */
  predicate PastEpoch(es: seq<Event>)
  {
    es == [] || ((es[0].reception.Some? ==> ToNs(es[0].reception.value.arrival) > 0) && PastEpoch(es[1..]))
  }

  /** Every run, under every interleaving of packets and timer expirations, stays in the modes and
      fails no assertion. */
  lemma {:induction false} RunKeepsMode(s: State, es: seq<Event>)
    requires InMode(s) && PastEpoch(es)
    ensures Run(s, es).Some? && InMode(Run(s, es).value)
    decreases |es|
  {
    if es != [] {
      StepKeepsMode(s, es[0]);
      RunKeepsMode(Step(s, es[0]).value, es[1..]);
    }
  }

  /** One pass plays the head of the queue, and nothing else, exactly when the listener is playing or
      its armed timer has expired. */
  lemma PassPlays(s: State, e: Event)
    requires InMode(s)
    ensures Step(s, e).Some?
    ensures var t := Step(s, e).value;
            if s.running || (e.fired && s.timer.Armed?)
            then s.queue != [] && t.played == s.played + [s.queue[0].payload]
                 && t.queue == AfterReception(s, e).queue[1..] && (t.running <==> t.queue != [])
            else t.played == s.played && t.queue == AfterReception(s, e).queue && !t.running
  {
  }

  /** Armed with zero, the listener is stuck: it accepts packets for ever and plays none. */
  lemma {:induction false} EpochStalls(s: State, es: seq<Event>)
    requires s.queue != [] && s.timer == Idle && !s.running
    ensures Run(s, es).Some?
    ensures var t := Run(s, es).value; t.queue != [] && t.timer == Idle && !t.running && t.played == s.played
    decreases |es|
  {
    if es != [] {
      EpochStalls(Step(s, es[0]).value, es[1..]);
    }
  }

  /** A packet stamped zero at the epoch. */
  function EpochPacket(payload: seq<u8>): Event
  {
    Event(Some(Reception(Packet(true, true, 0, 0, payload), Timespec(0, 0), Origin(0, 0))), false)
  }

  /** The stalled state is reached from the start with one packet; whatever comes then is not played. */
  lemma EpochReached(payload: seq<u8>, es: seq<Event>)
    ensures var t := Run(INIT, [EpochPacket(payload)] + es);
            t.Some? && t.value.played == [] && t.value.queue != [] && !InMode(t.value)
  {
    var e := EpochPacket(payload);
    assert ([e] + es)[1..] == es;
    NsRoundTrip(0);
    EpochStalls(Step(INIT, e).value, es);
  }

  // ---------- conservation ----------

  /** The packets a run accepts, in arrival order. */
  function Accepted(s: State, es: seq<Event>): seq<Reception>
    decreases |es|
  {
    if es == [] || Step(s, es[0]) == None then []
    else AcceptedNow(s, es[0]) + Accepted(Step(s, es[0]).value, es[1..])
  }

  function AcceptedNow(s: State, e: Event): seq<Reception>
  {
    if e.reception.Some? && Accepts(s, e.reception.value) then [e.reception.value] else []
  }

  function Payloads(q: seq<Sample>): (ps: seq<seq<u8>>)
    ensures |ps| == |q|
  {
    seq(|q|, i requires 0 <= i < |q| => q[i].payload)
  }

  function Sent(rs: seq<Reception>): (ps: seq<seq<u8>>)
    ensures |ps| == |rs|
  {
    seq(|rs|, i requires 0 <= i < |rs| => rs[i].packet.payload)
  }

  lemma SentJoin(a: seq<Reception>, b: seq<Reception>)
    ensures Sent(a + b) == Sent(a) + Sent(b)
  {
  }

  lemma PlayConserves(s: State)
    requires s.queue != []
    ensures Play(s).played + Payloads(Play(s).queue) == s.played + Payloads(s.queue)
  {
    assert Payloads(s.queue) == [s.queue[0].payload] + Payloads(s.queue[1..]);
  }

  lemma PacketConserves(s: State, e: Event)
    ensures var t := AfterReception(s, e);
            t.played == s.played && Payloads(t.queue) == Payloads(s.queue) + Sent(AcceptedNow(s, e))
  {
  }

  lemma StepConserves(s: State, e: Event)
    requires Step(s, e).Some?
    ensures var t := Step(s, e).value;
            t.played + Payloads(t.queue) == (s.played + Payloads(s.queue)) + Sent(AcceptedNow(s, e))
  {
    var t := AfterReception(s, e);
    PacketConserves(s, e);
    Associative(s.played, Payloads(s.queue), Sent(AcceptedNow(s, e)));
    if s.running {
      PlayConserves(t);
    } else if TimerReadable(s, e) {
      PlayConserves(t.(running := true, timer := Idle));
    }
  }

  /** At every point of every run: what was played, followed by what is queued, is what was accepted,
      in arrival order.  Nothing is lost, repeated or reordered. */
  lemma {:induction false} RunConserves(s: State, es: seq<Event>)
    requires Run(s, es).Some?
    ensures var t := Run(s, es).value;
            t.played + Payloads(t.queue) == (s.played + Payloads(s.queue)) + Sent(Accepted(s, es))
    decreases |es|
  {
    if es == [] {
      assert Sent([]) == [];
    } else {
      var t := Step(s, es[0]).value;
      StepConserves(s, es[0]);
      RunConserves(t, es[1..]);
      SentJoin(AcceptedNow(s, es[0]), Accepted(t, es[1..]));
      Associative(s.played + Payloads(s.queue), Sent(AcceptedNow(s, es[0])), Sent(Accepted(t, es[1..])));
    }
  }

  // ---------- the queue drains ----------

  /** The next pass plays: the listener is playing, or the timer it waits for has expired. */
  predicate Due(s: State, es: seq<Event>)
  {
    s.running || (s.timer.Armed? && es != [] && es[0].fired)
  }

  lemma StepGrows(s: State, e: Event)
    requires Step(s, e).Some?
    ensures s.played <= Step(s, e).value.played
  {
  }

  /** What has been played stays played. */
  lemma {:induction false} PlayedGrows(s: State, es: seq<Event>)
    requires Run(s, es).Some?
    ensures s.played <= Run(s, es).value.played
    decreases |es|
  {
    if es != [] {
      StepGrows(s, es[0]);
      PlayedGrows(Step(s, es[0]).value, es[1..]);
    }
  }

  /** Once a burst is due, every pass plays one fragment until the queue is empty, whatever packets
      come meanwhile: after `n` passes the first `n` queued have been played. */
  lemma {:induction false} BurstPlays(s: State, es: seq<Event>, n: nat)
    requires InMode(s) && PastEpoch(es) && Due(s, es) && n <= |s.queue| && n <= |es|
    ensures Run(s, es).Some? && s.played + Payloads(s.queue)[..n] <= Run(s, es).value.played
    decreases |es|
  {
    RunKeepsMode(s, es);
    if n == 0 {
      PlayedGrows(s, es);
      assert s.played + Payloads(s.queue)[..0] == s.played;
    } else {
      var t := Step(s, es[0]).value;
      PassPlays(s, es[0]);
      StepKeepsMode(s, es[0]);
      QueueKeeps(s, es[0]);
      if n == 1 {
        PlayedGrows(t, es[1..]);
      } else {
        BurstPlays(t, es[1..], n - 1);
      }
      PlayedPlusHead(s, t, n);
    }
  }

  lemma QueueKeeps(s: State, e: Event)
    ensures s.queue <= AfterReception(s, e).queue
  {
    hide Rebuild, EntryOf;
  }

  lemma PlayedPlusHead(s: State, t: State, n: nat)
    requires 0 < n <= |s.queue| && t.played == s.played + [s.queue[0].payload]
    requires |t.queue| >= |s.queue| - 1 && t.queue[..|s.queue| - 1] == s.queue[1..]
    ensures t.played + Payloads(t.queue)[..n - 1] == s.played + Payloads(s.queue)[..n]
  {
    var a, b := t.played + Payloads(t.queue)[..n - 1], s.played + Payloads(s.queue)[..n];
    assert |a| == |b|;
    forall i | 0 <= i < |a|
      ensures a[i] == b[i]
    {
      if i > |s.played| {
        assert t.queue[..|s.queue| - 1][i - |s.played| - 1] == s.queue[1..][i - |s.played| - 1];
      }
    }
  }

  lemma {:induction false} RunJoin(s: State, a: seq<Event>, b: seq<Event>)
    requires Run(s, a).Some?
    ensures Run(s, a + b) == Run(Run(s, a).value, b)
    ensures Accepted(s, a + b) == Accepted(s, a) + Accepted(Run(s, a).value, b)
    decreases |a|
  {
    if a == [] {
      assert a + b == b;
    } else {
      assert (a + b)[1..] == a[1..] + b;
      RunJoin(Step(s, a[0]).value, a[1..], b);
    }
  }

  lemma {:induction false} PastEpochJoin(a: seq<Event>, b: seq<Event>)
    requires PastEpoch(a + b)
    ensures PastEpoch(a) && PastEpoch(b)
    decreases |a|
  {
    if a == [] {
      assert a + b == b;
    } else {
      assert (a + b)[1..] == a[1..] + b;
      PastEpochJoin(a[1..], b);
    }
  }

  /** Enough passes follow: the burst under way is due, and there is a pass for each fragment queued. */
  predicate Enough(s: State, more: seq<Event>)
  {
    s.queue != [] ==> Due(s, more) && |s.queue| <= |more|
  }

  /** Everything accepted gets played, in order, once enough passes follow; packets may go on coming. */
  lemma AcceptedIsPlayed(es: seq<Event>, more: seq<Event>)
    requires PastEpoch(es + more)
    requires Run(INIT, es).Some? && Enough(Run(INIT, es).value, more)
    ensures Run(INIT, es + more).Some?
    ensures Sent(Accepted(INIT, es)) <= Run(INIT, es + more).value.played
  {
    var t := Run(INIT, es).value;
    PastEpochJoin(es, more);
    RunKeepsMode(INIT, es);
    RunJoin(INIT, es, more);
    RunConserves(INIT, es);
    assert [] + Payloads([]) + Sent(Accepted(INIT, es)) == Sent(Accepted(INIT, es));
    if t.queue == [] {
      RunKeepsMode(t, more);
      PlayedGrows(t, more);
      assert t.played + Payloads(t.queue) == t.played;
    } else {
      BurstPlays(t, more, |t.queue|);
      assert Payloads(t.queue)[..|t.queue|] == Payloads(t.queue);
    }
  }

  /** No packet comes. */
  predicate Silent(es: seq<Event>)
  {
    forall i :: 0 <= i < |es| ==> es[i].reception.None?
  }

  lemma {:induction false} SilentAccepts(s: State, es: seq<Event>)
    requires Silent(es)
    ensures Accepted(s, es) == []
    decreases |es|
  {
    if es != [] && Step(s, es[0]).Some? {
      SilentAccepts(Step(s, es[0]).value, es[1..]);
    }
  }

  /** And when the stream ends, the queue runs empty and exactly the accepted payloads were played. */
  lemma QueueDrains(es: seq<Event>, more: seq<Event>)
    requires PastEpoch(es + more) && Silent(more)
    requires Run(INIT, es).Some? && Enough(Run(INIT, es).value, more)
    ensures Run(INIT, es + more).Some?
    ensures var t := Run(INIT, es + more).value;
            t.queue == [] && !t.running && t.timer == Idle && t.played == Sent(Accepted(INIT, es))
  {
    AcceptedIsPlayed(es, more);
    RunKeepsMode(INIT, es + more);
    var t := Run(INIT, es + more).value;
    RunJoin(INIT, es, more);
    SilentAccepts(Run(INIT, es).value, more);
    RunConserves(INIT, es + more);
    assert Accepted(INIT, es) + [] == Accepted(INIT, es);
    assert [] + Payloads([]) + Sent(Accepted(INIT, es)) == Sent(Accepted(INIT, es));
    NothingLeft(t.played, Payloads(t.queue), Sent(Accepted(INIT, es)));
  }

  lemma NothingLeft<T>(a: seq<T>, b: seq<T>, c: seq<T>)
    requires a + b == c && c <= a
    ensures a == c && b == []
  {
  }

  // ---------- nothing refused ----------

  /** All packets that come, in order. */
  function Receptions(es: seq<Event>): seq<Reception>
    decreases |es|
  {
    if es == [] then []
    else (if es[0].reception.Some? then [es[0].reception.value] else []) + Receptions(es[1..])
  }

  /** Every packet belongs to the stream and is on time. */
  predicate AllTimely(es: seq<Event>)
  {
    es == [] ||
    ((es[0].reception.Some? ==>
        var r := es[0].reception.value; r.packet.streamOk && r.packet.formatOk && !Rebuild(r).late)
     && AllTimely(es[1..]))
  }

  lemma {:induction false} TimelyAccepted(s: State, es: seq<Event>)
    requires Run(s, es).Some? && AllTimely(es)
    ensures Accepted(s, es) == Receptions(es)
    decreases |es|
  {
    hide Rebuild;
    if es != [] {
      TimelyAccepted(Step(s, es[0]).value, es[1..]);
    }
  }

  // ---------- the statistics stack of a run ----------

  /** Entries of accepted packets, newest first. */
  function EntriesOf(rs: seq<Reception>): (es: seq<Entry>)
    ensures |es| == |rs|
  {
    seq(|rs|, i requires 0 <= i < |rs| => EntryOf(rs[|rs| - 1 - i]))
  }

  lemma EntriesJoin(a: seq<Reception>, b: seq<Reception>)
    ensures EntriesOf(a + b) == EntriesOf(b) + EntriesOf(a)
  {
  }

  lemma StepStack(s: State, e: Event)
    requires Step(s, e).Some?
    ensures Step(s, e).value.stack == EntriesOf(AcceptedNow(s, e)) + s.stack
  {
  }

  /** The stack holds one entry for each accepted packet, newest first. */
  lemma {:induction false} RunStack(s: State, es: seq<Event>)
    requires Run(s, es).Some?
    ensures Run(s, es).value.stack == EntriesOf(Accepted(s, es)) + s.stack
    decreases |es|
  {
    if es != [] {
      var t := Step(s, es[0]).value;
      StepStack(s, es[0]);
      RunStack(t, es[1..]);
      EntriesJoin(AcceptedNow(s, es[0]), Accepted(t, es[1..]));
      Associative(EntriesOf(Accepted(t, es[1..])), EntriesOf(AcceptedNow(s, es[0])), s.stack);
    }
  }

  /** The first packet a run accepts on an empty queue passed the late filter. */
  lemma {:induction false} FirstIsOnTime(s: State, es: seq<Event>)
    requires s.queue == [] && Run(s, es).Some? && Accepted(s, es) != []
    ensures !Rebuild(Accepted(s, es)[0]).late
    decreases |es|
  {
    if AcceptedNow(s, es[0]) == [] {
      FirstIsOnTime(Step(s, es[0]).value, es[1..]);
    }
  }
}
