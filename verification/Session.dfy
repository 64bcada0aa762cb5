/** A whole listening session, and what it promises: the recorded file holds the accepted payloads
    in order, reads back as recorded, and is stamped with the talker's capture time. */
module Session {
  import opened Bytes
  import opened AvtpTime
  import opened Settings
  import opened StatsSpec
  import opened RecorderSpec
  import L = ListenerSpec
  import EndToEnd
  import Talker
  import Listener
  import Stats
  import WavState
  import WavParser
  import WavRuns
  import WavPlayback
  import WavRoundTrip
  import WavFile

  lemma {:induction false} FlattenJoin(a: seq<seq<u8>>, b: seq<seq<u8>>)
    ensures Flatten(a + b) == Flatten(a) + Flatten(b)
    decreases |b|
  {
    if b == [] {
      assert a + b == a;
    } else {
      var front, last := b[..|b| - 1], b[|b| - 1];
      FlattenJoin(a, front);
      assert a + b == (a + front) + [last];
      FlattenSnoc(a + front, last);
      Associative(Flatten(a), Flatten(front), last);
    }
  }

  /** The bytes recorded by a run from the start, followed by those still queued, are the payloads
      of all accepted packets in arrival order. */
  lemma RecordedIsPrefix(events: seq<L.Event>)
    requires L.Run(L.INIT, events).Some?
    ensures var t := L.Run(L.INIT, events).value;
            Flatten(t.played) + Flatten(L.Payloads(t.queue)) == Flatten(L.Sent(L.Accepted(L.INIT, events)))
  {
    var t := L.Run(L.INIT, events).value;
    L.RunConserves(L.INIT, events);
    assert [] + L.Payloads([]) + L.Sent(L.Accepted(L.INIT, events)) == L.Sent(L.Accepted(L.INIT, events));
    FlattenJoin(t.played, L.Payloads(t.queue));
  }

  /** What the recorder leaves on disk parses to the stream's configuration and reads back as exactly
      the recorded audio, while that is below 2^32 bytes. */
  lemma RecordingReadsBack(s: WavState.State, cfg: StreamSettings, audio: seq<u8>, n: nat)
    requires Recorder(s, cfg, audio) && |audio| < TWO_32
    ensures WavParser.Parse(s.disk) == WavPlayback.RecordedOutcome(s.format.body, |audio|)
    ensures var r := WavParser.ReadState(s.disk);
            && WavState.Playable(r) && r.pos >= r.data.offset
            && WavRuns.ConfigOf(r.format.body) == RecorderConfig(cfg)
            && (n >= WavState.Length(r) ==> WavState.AfterRead(r, n).got == audio)
  {
    WavRoundTrip.Reopen(s);
    WavRoundTrip.ReopenedState(s);
    WavRoundTrip.ReopenedFrames(s, WavParser.ReadState(s.disk));
    WavRoundTrip.ReadBack(s, n);
  }

  /** Listens to a sequence of events and closes down.  The stamp is the capture time of the first
      stored packet.  The source leaves it unset when nothing was stored, and with exactly one packet
      stored it dies in the statistics before it gets there. */
  method Session(cfg: StreamSettings, record: bool, events: seq<L.Event>)
    returns (file: WavFile.WavFile?, stamp: L.Option<Timespec>, outcome: Stats.Outcome)
    requires InRange(cfg) && L.PastEpoch(events)
    requires forall i :: 0 <= i < |events| && events[i].reception.Some? ==>
               |events[i].reception.value.packet.payload| == cfg.dataLen
    ensures L.Run(L.INIT, events).Some? && L.InMode(L.Run(L.INIT, events).value)
    ensures record <==> file != null
    ensures file != null ==>
              file.fp != null && Recorder(file.State(), cfg, Flatten(L.Run(L.INIT, events).value.played))
    ensures var stack := L.Run(L.INIT, events).value.stack;
            && stamp == (if file == null || |stack| < 2 then L.None else L.Some(CapTime(stack[|stack| - 1], cfg)))
            && outcome == (if stack == [] then Stats.NoData else if |stack| == 1 then Stats.Trapped else Stats.Done)
  {
    file := null;
    if record {
      file := Listener.SetUpRecorder(cfg);
    }
    var listener := new Listener.Listener(cfg, file);
    L.RunKeepsMode(L.INIT, events);
    listener.Listen(events);
    outcome := listener.stats.ProcessStats(cfg);
    stamp := L.None;
    if outcome == Stats.Trapped { return; }
    if file != null {
      var found, first := listener.stats.GetFirst();
      if found {
        stamp := L.Some(CapTime(first, cfg));
      }
    }
  }

  /** What was played is a prefix, whole packets long, of the payloads accepted; and for packets
      genuinely from the talker, the capture time of the first stored one is the talker's clock less
      the hardware latency. */
  lemma PlayedIsTrue(cfg: StreamSettings, events: seq<L.Event>)
    requires L.Run(L.INIT, events).Some? && EndToEnd.AllGenuine(events, cfg)
    requires L.Run(L.INIT, events).value.stack != []
    ensures var t, acc := L.Run(L.INIT, events).value, L.Accepted(L.INIT, events);
            && acc != [] && |t.played| <= |acc|
            && t.played == L.Sent(acc)[..|t.played|]
            && Flatten(t.played) <= Flatten(L.Sent(acc))
            && (acc[0].origin.reading >= cfg.hwLatencyNs ==>
                  ToNs(CapTime(t.stack[|t.stack| - 1], cfg)) == acc[0].origin.reading - cfg.hwLatencyNs)
  {
    var t, acc := L.Run(L.INIT, events).value, L.Accepted(L.INIT, events);
    EndToEnd.StartStamp(events, cfg);
    RecordedIsPrefix(events);
    L.RunConserves(L.INIT, events);
    assert [] + L.Payloads([]) + L.Sent(acc) == L.Sent(acc);
    PrefixOf(t.played, L.Payloads(t.queue), L.Sent(acc));
  }

  /** A reader of the file who asks for everything gets these bytes, in the stream's configuration. */
  predicate ReadsAs(disk: seq<u8>, cfg: StreamSettings, audio: seq<u8>, n: nat)
  {
    && WavParser.Parse(disk).Found? && WavParser.Parse(disk).err == WavState.Ok
    && var r := WavParser.ReadState(disk);
       && WavState.Playable(r) && r.pos >= r.data.offset
       && WavRuns.ConfigOf(r.format.body) == RecorderConfig(cfg)
       && (n >= WavState.Length(r) ==> WavState.AfterRead(r, n).got == audio)
  }

  lemma RecorderReadsAs(s: WavState.State, cfg: StreamSettings, audio: seq<u8>, n: nat)
    requires Recorder(s, cfg, audio) && |audio| < TWO_32
    ensures ReadsAs(s.disk, cfg, audio, n)
  {
    RecordingReadsBack(s, cfg, audio, n);
  }

  /** The whole chain, at the file.  For packets genuinely from the talker: while less than 2^32 bytes
      are recorded, what the recorder leaves on disk reads back, in the stream's configuration, as a
      prefix, whole packets long, of the payloads accepted; and the stamp it is named after is the
      talker's clock at the first of them less the hardware latency. */
  lemma RecordingIsTrue(cfg: StreamSettings, events: seq<L.Event>, s: WavState.State, n: nat)
    requires L.Run(L.INIT, events).Some? && EndToEnd.AllGenuine(events, cfg)
    requires L.Run(L.INIT, events).value.stack != []
    requires var audio := Flatten(L.Run(L.INIT, events).value.played);
             Recorder(s, cfg, audio) && |audio| < TWO_32
    ensures var t, acc := L.Run(L.INIT, events).value, L.Accepted(L.INIT, events);
            && acc != [] && |t.played| <= |acc|
            && ReadsAs(s.disk, cfg, Flatten(L.Sent(acc)[..|t.played|]), n)
            && (acc[0].origin.reading >= cfg.hwLatencyNs ==>
                  ToNs(CapTime(t.stack[|t.stack| - 1], cfg)) == acc[0].origin.reading - cfg.hwLatencyNs)
  {
    hide Recorder, ReadsAs;
    PlayedIsTrue(cfg, events);
    RecorderReadsAs(s, cfg, Flatten(L.Run(L.INIT, events).value.played), n);
  }

  /** Everything accepted ends up in the file.  Once enough passes follow, what is played begins with all
      payloads accepted until then; and when no packet comes any more, it is exactly these, and the file
      reads back as exactly these. */
  lemma EverythingRecorded(cfg: StreamSettings, events: seq<L.Event>, more: seq<L.Event>, s: WavState.State, n: nat)
    requires L.PastEpoch(events + more) && L.Run(L.INIT, events).Some?
    requires L.Enough(L.Run(L.INIT, events).value, more)
    requires L.Run(L.INIT, events + more).Some?
    requires var audio := Flatten(L.Run(L.INIT, events + more).value.played);
             Recorder(s, cfg, audio) && |audio| < TWO_32
    ensures var played, sent := L.Run(L.INIT, events + more).value.played, L.Sent(L.Accepted(L.INIT, events));
            && sent <= played && Flatten(sent) <= Flatten(played) && ReadsAs(s.disk, cfg, Flatten(played), n)
            && (L.Silent(more) ==> played == sent && L.Run(L.INIT, events + more).value.queue == [])
  {
    hide Recorder, ReadsAs, L.PastEpoch, L.Enough, L.Silent;
    var played, sent := L.Run(L.INIT, events + more).value.played, L.Sent(L.Accepted(L.INIT, events));
    L.AcceptedIsPlayed(events, more);
    assert played == sent + played[|sent|..];
    FlattenJoin(sent, played[|sent|..]);
    RecorderReadsAs(s, cfg, Flatten(played), n);
    if L.Silent(more) {
      L.QueueDrains(events, more);
    }
  }

  /** The places in the talker's stream of the packets played. */
  function Places(rs: seq<L.Reception>): (places: seq<nat>)
    ensures |places| == |rs|
  {
    seq(|rs|, i requires 0 <= i < |rs| => rs[i].origin.index)
  }

  predicate StrictlyWithin(places: seq<nat>, n: nat)
  {
    && (forall i :: 0 <= i < |places| ==> places[i] < n)
    && forall i, j :: 0 <= i < j < |places| ==> places[i] < places[j]
  }

  function Picked(fragments: seq<seq<u8>>, places: seq<nat>): (p: seq<seq<u8>>)
    requires StrictlyWithin(places, |fragments|)
    ensures |p| == |places|
  {
    seq(|places|, i requires 0 <= i < |places| => fragments[places[i]])
  }

  /** From the talker's sound card to the file.  Whatever part of a broadcast is received, in the order
      sent and in time: the file reads back as fragments of the talker at strictly increasing places,
      and its stamp is the talker's clock at the first of the packets stored, less the latency. */
  lemma BroadcastRecorded(cfg: StreamSettings, readings: seq<u64>, fragments: seq<seq<u8>>, sent: seq<L.Packet>,
                          events: seq<L.Event>, s: WavState.State, n: nat)
    requires Talker.Broadcast(cfg, readings, fragments, sent)
    requires Talker.Received(-1, events, cfg, readings, sent)
    requires L.Run(L.INIT, events).Some? && L.Run(L.INIT, events).value.stack != []
    requires var audio := Flatten(L.Run(L.INIT, events).value.played);
             Recorder(s, cfg, audio) && |audio| < TWO_32
    ensures var t, acc := L.Run(L.INIT, events).value, L.Accepted(L.INIT, events);
            && acc != [] && |t.played| <= |acc|
            && var places := Places(acc);
               && StrictlyWithin(places, |fragments|)
               && ReadsAs(s.disk, cfg, Flatten(Picked(fragments, places)[..|t.played|]), n)
               && (readings[places[0]] >= cfg.hwLatencyNs ==>
                     ToNs(CapTime(t.stack[|t.stack| - 1], cfg)) == readings[places[0]] - cfg.hwLatencyNs)
  {
    hide Recorder, ReadsAs, Talker.Received;
    var acc := L.Accepted(L.INIT, events);
    Talker.ReceivedRun(L.INIT, -1, events, cfg, readings, fragments, sent);
    Talker.AcceptedInOrder(L.INIT, -1, events, cfg, readings, fragments, sent);
    RecordingIsTrue(cfg, events, s, n);
    PickedIsSent(acc, readings, fragments);
  }

  /** A broadcast that arrives whole, in order and in time is recorded whole: once the queue has drained,
      the file reads back as the fragments of the talker, all of them, one behind the other. */
  lemma LosslessBroadcast(cfg: StreamSettings, readings: seq<u64>, fragments: seq<seq<u8>>, sent: seq<L.Packet>,
                          events: seq<L.Event>, more: seq<L.Event>, s: WavState.State, n: nat)
    requires Talker.Broadcast(cfg, readings, fragments, sent)
    requires Talker.Received(-1, events, cfg, readings, sent) && Talker.InWindow(events, cfg)
    requires |L.Receptions(events)| == |fragments|
    requires L.PastEpoch(events + more) && L.Silent(more)
    requires L.Run(L.INIT, events).Some? && L.Enough(L.Run(L.INIT, events).value, more)
    requires L.Run(L.INIT, events + more).Some?
    requires Recorder(s, cfg, Flatten(L.Run(L.INIT, events + more).value.played)) && |Flatten(fragments)| < TWO_32
    ensures L.Run(L.INIT, events + more).value.played == fragments && ReadsAs(s.disk, cfg, Flatten(fragments), n)
  {
    hide Recorder, ReadsAs, L.PastEpoch, L.Enough, Talker.Received, Talker.InWindow, Talker.Broadcast;
    var acc := L.Accepted(L.INIT, events);
    BroadcastLengths(cfg, readings, fragments, sent);
    Talker.ReceivedTimely(-1, events, cfg, readings, fragments, sent);
    L.TimelyAccepted(L.INIT, events);
    Talker.AcceptedInOrder(L.INIT, -1, events, cfg, readings, fragments, sent);
    Talker.AllInOrder(acc, readings, fragments);
    L.QueueDrains(events, more);
    RecorderReadsAs(s, cfg, Flatten(fragments), n);
  }

  lemma BroadcastLengths(cfg: StreamSettings, readings: seq<u64>, fragments: seq<seq<u8>>, sent: seq<L.Packet>)
    requires Talker.Broadcast(cfg, readings, fragments, sent)
    ensures |sent| == |readings| == |fragments|
  {
  }

  lemma PickedIsSent(acc: seq<L.Reception>, readings: seq<u64>, fragments: seq<seq<u8>>)
    requires |readings| == |fragments| && Talker.InOrder(-1, acc, readings, fragments)
    ensures StrictlyWithin(Places(acc), |fragments|) && Picked(fragments, Places(acc)) == L.Sent(acc)
    ensures acc != [] ==> acc[0].origin.reading == readings[Places(acc)[0]]
  {
    forall i | 0 <= i < |acc|
      ensures acc[i].origin.index < |fragments| && Talker.Carries(acc[i], readings, fragments)
      ensures forall j :: i < j < |acc| ==> acc[i].origin.index < acc[j].origin.index
    {
      Talker.InOrderAt(-1, acc, readings, fragments, i);
    }
  }

  lemma PrefixOf<T>(a: seq<T>, b: seq<T>, c: seq<T>)
    requires a + b == c
    ensures |a| <= |c| && a == c[..|a|]
  {
  }
}
