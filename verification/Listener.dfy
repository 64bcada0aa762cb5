/** The listener: its queue, one-shot timer and sequence expectation, the statistics handler, and
    the recording.  Its methods take the steps of the source and are proved against the state
    machine. */
module Listener {
  import opened Bytes
  import opened AvtpTime
  import opened Settings
  import opened StatsSpec
  import opened Stats
  import opened RecorderSpec
  import L = ListenerSpec
  import WavFormat
  import WavRuns
  import WavFile

  class Listener {
    const cfg: StreamSettings
    var samples: seq<L.Sample>
    var timer: L.Timer
    var running: bool
    var expectedSeq: u8
    const stats: StatsHandler
    const wav: WavFile.WavFile?
    /** Everything handed to the sound card, fragment by fragment. */
    ghost var played: seq<seq<u8>>

    ghost function State(): L.State
      reads this, stats
    {
      L.State(samples, timer, running, expectedSeq, stats.Stack(), stats.dropped, played)
    }

    ghost function Files(): set<object?>
      reads wav
    {
      if wav == null then {} else {wav, wav.fp}
    }

    /** Every queued fragment is whole. */
    ghost predicate QueueValid()
      reads this, stats
    {
      stats.Valid() && forall i :: 0 <= i < |samples| ==> |samples[i].payload| == cfg.dataLen
    }

    /** The recording, if any, holds exactly what was played. */
    ghost predicate RecordingValid()
      reads this`played, Files()
    {
      wav != null ==> wav.fp != null && Recorder(wav.State(), cfg, Flatten(played))
    }

    ghost predicate Valid()
      reads this, stats, Files()
    {
      InRange(cfg) && QueueValid() && RecordingValid()
    }

    constructor (cfg: StreamSettings, wav: WavFile.WavFile?)
      requires InRange(cfg)
      requires wav != null ==> wav.fp != null && Recorder(wav.State(), cfg, [])
      ensures Valid() && State() == L.INIT && this.wav == wav && this.cfg == cfg
      ensures fresh(stats) && fresh(stats.deltaCap) && fresh(stats.travel)
    {
      this.cfg, this.wav := cfg, wav;
      samples, timer, running, expectedSeq, played := [], L.Idle, false, 0, [];
      stats := new StatsHandler();
    }

    /** Queues a fragment; the first one of a burst arms the timer. */
    method ScheduleSample(presentation: Timespec, payload: seq<u8>)
      modifies this`samples, this`timer
      ensures samples == old(samples) + [L.Sample(presentation, payload)]
      ensures timer == if old(samples) == [] then L.Arm(presentation) else old(timer)
    {
      samples := samples + [L.Sample(presentation, payload)];
      if |samples| == 1 {
        timer := L.Arm(presentation);
      }
    }

    /** The sequence number is taken over before the format fields are checked. */
    method IsValidPacket(p: L.Packet) returns (ok: bool)
      modifies this`expectedSeq
      ensures ok == (p.streamOk && p.formatOk)
      ensures expectedSeq == L.NextSeq(old(expectedSeq), p)
    {
      if !p.streamOk { return false; }
      if p.seqNum != expectedSeq {
        expectedSeq := p.seqNum;
      }
      expectedSeq := Wrap8(expectedSeq + 1);
      ok := p.formatOk;
    }

    method NewPacket(r: L.Reception)
      requires QueueValid() && |r.packet.payload| == cfg.dataLen
      modifies this`samples, this`timer, this`expectedSeq, stats
      ensures QueueValid() && State() == L.AfterPacket(old(State()), r)
    {
      hide GetPresentationTime;
      var expectedAux: int := expectedSeq;
      var ok := IsValidPacket(r.packet);
      if !ok { return; }
      var rebuilt := GetPresentationTime(r.packet.timestamp, r.arrival);
      if rebuilt.late && samples == [] { return; }
      expectedAux := Wrap8(expectedAux + 1);
      if expectedAux != expectedSeq {
        stats.AddDropped(Wrap8(expectedSeq - expectedAux));
      }
      stats.Push(r.arrival, rebuilt.presentation);
      ScheduleSample(rebuilt.presentation, r.packet.payload);
    }

    /** The precondition on the queue is the source's assertion that an entry is there. */
    method PlayFragment()
      requires Valid() && samples != []
      modifies this`samples, this`played, Files()
      ensures Valid() && samples == old(samples)[1..] && played == old(played) + [old(samples)[0].payload]
      ensures wav != null ==> wav.fp == old(wav.fp)
    {
      hide Recorder, InRange;
      var entry := samples[0];
      played := played + [entry.payload];
      if wav != null {
        FragmentWritten(wav.State(), cfg, Flatten(old(played)), entry.payload);
        var frames := wav.Write(entry.payload, cfg.framesPerPdu);
        FlattenSnoc(old(played), entry.payload);
      }
      samples := samples[1..];
    }

    /** Reads the timer: a one-shot timer that expired reports one expiration. */
    method Timeout() returns (expirations: nat)
      requires timer.Armed?
      modifies this`timer
      ensures timer == L.Idle && expirations == 1
    {
      timer, expirations := L.Idle, 1;
    }

    /** Plays one fragment; an emptied queue ends the burst. */
    method PlayNext()
      requires Valid() && samples != []
      modifies this`samples, this`running, this`played, Files()
      ensures Valid() && State() == L.Play(old(State())) && (wav != null ==> wav.fp == old(wav.fp))
    {
      PlayFragment();
      if samples == [] { running := false; }
    }

    /** The first fragment of a burst waits for the timer; the others go by the hardware's pace. */
    method PlayPhase(timerReadable: bool)
      requires Valid() && (running || timerReadable ==> samples != []) && (timerReadable ==> running || timer.Armed?)
      modifies this`samples, this`timer, this`running, this`played, Files()
      ensures Valid() && (wav != null ==> wav.fp == old(wav.fp))
      ensures State() ==
              if old(running) then L.Play(old(State()))
              else if timerReadable then L.Play(old(State()).(running := true, timer := L.Idle))
              else old(State())
    {
      if running {
        PlayNext();
      } else if timerReadable {
        running := true;
        var expirations := Timeout();
        assert expirations == 1;
        PlayNext();
      }
    }

    /** One pass of the poll loop. */
    method Pass(e: L.Event)
      requires Valid() && L.InMode(State())
      requires e.reception.Some? ==> |e.reception.value.packet.payload| == cfg.dataLen
      modifies this, stats, Files()
      ensures Valid() && L.Some(State()) == L.Step(old(State()), e)
      ensures wav != null ==> wav.fp == old(wav.fp)
    {
      ghost var s := State();
      L.StepKeepsMode(s, e);
      var timerReadable := e.fired && timer.Armed?;
      if e.reception.Some? {
        NewPacket(e.reception.value);
      }
      assert State() == L.AfterReception(s, e);
      PlayPhase(timerReadable);
    }

    /** The loop, until the session timer or the escape key ends it after the last event. */
    method Listen(events: seq<L.Event>)
      requires Valid() && L.InMode(State()) && L.PastEpoch(events)
      requires forall i :: 0 <= i < |events| && events[i].reception.Some? ==>
                 |events[i].reception.value.packet.payload| == cfg.dataLen
      modifies this, stats, Files()
      ensures Valid() && L.InMode(State()) && L.Some(State()) == L.Run(old(State()), events)
      ensures wav != null ==> wav.fp == old(wav.fp)
    {
      ghost var all := L.Run(State(), events);
      var i := 0;
      while i < |events|
        invariant i <= |events| && Valid() && L.InMode(State())
        invariant L.PastEpoch(events[i..]) && L.Run(State(), events[i..]) == all
        invariant wav != null ==> wav.fp == old(wav.fp)
      {
        L.StepKeepsMode(State(), events[i]);
        Pass(events[i]);
        i := i + 1;
      }
    }
  }

  /** Opens the temporary recording and configures it from the stream settings. */
  method SetUpRecorder(cfg: StreamSettings) returns (wav: WavFile.WavFile)
    requires InRange(cfg)
    ensures fresh(wav) && wav.fp != null && fresh(wav.fp) && Recorder(wav.State(), cfg, [])
  {
    var outcome;
    wav, outcome := WavFile.Open([], WRITE_MODE);
    NewIsBlank();
    SetUpFits(cfg);
    var size := SampleBytes(cfg.bitDepth);
    ghost var c := SetTag(wav, DEFAULT_CONFIG, TagOf(cfg.bitDepth));
    c := SetSize(wav, c, size);
    c := SetChannels(wav, c, cfg.channels);
    c := SetRate(wav, c, cfg.sampleRate);
    BlankIsRecorder(wav.State(), cfg);
  }

  method SetTag(wav: WavFile.WavFile, ghost c: WavRuns.Config, tag: u16) returns (ghost d: WavRuns.Config)
    requires wav.fp != null && Blank(wav.State(), c) && tag != WavFormat.EXTENSIBLE
    requires WavRuns.Fits(WavRuns.Effect(c, WavRuns.SetFormat(tag)))
    modifies wav, wav.fp
    ensures wav.fp == old(wav.fp) && d == WavRuns.Effect(c, WavRuns.SetFormat(tag)) && Blank(wav.State(), d)
  {
    d := WavRuns.Effect(c, WavRuns.SetFormat(tag));
    SetUpStep(wav.State(), c, WavRuns.SetFormat(tag));
    wav.SetFormat(tag);
  }

  method SetSize(wav: WavFile.WavFile, ghost c: WavRuns.Config, size: nat) returns (ghost d: WavRuns.Config)
    requires wav.fp != null && Blank(wav.State(), c) && size >= 1
    requires WavRuns.Fits(c.(size := size))
    modifies wav, wav.fp
    ensures wav.fp == old(wav.fp) && d == c.(size := size) && Blank(wav.State(), d)
  {
    d := c.(size := size);
    SetUpStep(wav.State(), c, WavRuns.SetSampleSize(size));
    wav.SetSampleSize(size);
  }

  method SetChannels(wav: WavFile.WavFile, ghost c: WavRuns.Config, channels: u16) returns (ghost d: WavRuns.Config)
    requires wav.fp != null && Blank(wav.State(), c) && channels >= 1
    requires WavRuns.Fits(c.(channels := channels))
    modifies wav, wav.fp
    ensures wav.fp == old(wav.fp) && d == c.(channels := channels) && Blank(wav.State(), d)
  {
    d := c.(channels := channels);
    SetUpStep(wav.State(), c, WavRuns.SetChannels(channels));
    wav.SetChannels(channels);
  }

  method SetRate(wav: WavFile.WavFile, ghost c: WavRuns.Config, rate: u32) returns (ghost d: WavRuns.Config)
    requires wav.fp != null && Blank(wav.State(), c)
    requires WavRuns.Fits(c.(rate := rate))
    modifies wav, wav.fp
    ensures wav.fp == old(wav.fp) && d == c.(rate := rate) && Blank(wav.State(), d)
  {
    d := c.(rate := rate);
    SetUpStep(wav.State(), c, WavRuns.SetRate(rate));
    wav.SetRate(rate);
  }
}
