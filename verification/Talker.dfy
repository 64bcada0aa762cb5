/** The talker's sending loop: one PDU per fragment read from the sound card, stamped with the
    presentation time and an eight-bit sequence number; and what a listener gets of it. */
module Talker {
  import opened Bytes
  import opened AvtpTime
  import opened Settings
  import opened ListenerSpec
  import opened EndToEnd

  /** PDU number `i`. */
  function Pdu(cfg: StreamSettings, i: nat, reading: u64, fragment: seq<u8>): Packet
  {
    Packet(true, true, i % 256, (reading + TransitNs(cfg.maxTransitMs)) % TWO_32, fragment)
  }

  /** What the talker has sent: one PDU for each clock reading and fragment. */
  predicate Broadcast(cfg: StreamSettings, readings: seq<u64>, fragments: seq<seq<u8>>, sent: seq<Packet>)
  {
    && |sent| == |readings| == |fragments|
    && forall i :: 0 <= i < |sent| ==> sent[i] == Pdu(cfg, i, readings[i], fragments[i])
  }

  /** Sends one PDU for each clock reading.  The PDU is reused, so its constant fields stay set. */
  method Talk(cfg: StreamSettings, readings: seq<u64>, fragments: seq<seq<u8>>) returns (sent: seq<Packet>)
    requires |readings| == |fragments|
    ensures Broadcast(cfg, readings, fragments, sent)
  {
    sent := [];
    var seqNum: u8 := 0;
    var i := 0;
    while i < |readings|
      invariant i <= |readings| && |sent| == i && seqNum == i % 256
      invariant forall j :: 0 <= j < i ==> sent[j] == Pdu(cfg, j, readings[j], fragments[j])
    {
      var now := FromNs(readings[i]);
      var stamp := CalculateAvtpTime(now, cfg.maxTransitMs);
      TalkerStamp(now, cfg.maxTransitMs);
      NsRoundTrip(readings[i]);
      sent := sent + [Packet(true, true, seqNum, stamp, fragments[i])];
      seqNum := Wrap8(seqNum + 1);
      i := i + 1;
    }
  }

  // ---------- a run that receives nothing else ----------

  /** The packet is one of those sent, and arrives less than 2^32 ns before it is to be presented. */
  predicate FromTalker(r: Reception, cfg: StreamSettings, readings: seq<u64>, sent: seq<Packet>)
    requires |sent| == |readings|
  {
    && r.origin.index < |sent| && r.packet == sent[r.origin.index] && r.origin.reading == readings[r.origin.index]
    && TruePresentation(r, cfg) < TWO_64
    && ToNs(r.arrival) <= TruePresentation(r, cfg) < ToNs(r.arrival) + TWO_32
  }

  /** Packets may get lost, but come in the order sent, none of them twice. */
  predicate Received(prev: int, es: seq<Event>, cfg: StreamSettings, readings: seq<u64>, sent: seq<Packet>)
    requires |sent| == |readings|
    decreases |es|
  {
    es == [] ||
    if es[0].reception.None? then Received(prev, es[1..], cfg, readings, sent)
    else
      var r := es[0].reception.value;
      && FromTalker(r, cfg, readings, sent) && prev < r.origin.index
      && Received(r.origin.index, es[1..], cfg, readings, sent)
  }

  lemma SentIsGenuine(r: Reception, cfg: StreamSettings, readings: seq<u64>, fragments: seq<seq<u8>>, sent: seq<Packet>)
    requires Broadcast(cfg, readings, fragments, sent) && FromTalker(r, cfg, readings, sent)
    ensures Genuine(r, cfg) && r.packet.streamOk && r.packet.formatOk && r.packet.seqNum == r.origin.index % 256
    ensures r.packet.payload == fragments[r.origin.index]
  {
    TalkerStamp(FromNs(r.origin.reading), cfg.maxTransitMs);
    NsRoundTrip(r.origin.reading);
  }

  /** A run that receives packets of the talker only meets every hypothesis of the end-to-end
      results, whatever is lost and whatever the listener makes of them. */
  lemma {:induction false} ReceivedRun(s: State, prev: int, es: seq<Event>, cfg: StreamSettings,
                                       readings: seq<u64>, fragments: seq<seq<u8>>, sent: seq<Packet>)
    requires Broadcast(cfg, readings, fragments, sent) && Received(prev, es, cfg, readings, sent)
    ensures AllGenuine(es, cfg) && Numbered(es)
    ensures Run(s, es).Some? ==> Increasing(prev, Observed(s, es))
    decreases |es|
  {
    if es != [] {
      var next := if es[0].reception.Some? then es[0].reception.value.origin.index else prev;
      if es[0].reception.Some? {
        SentIsGenuine(es[0].reception.value, cfg, readings, fragments, sent);
      }
      var t := if Step(s, es[0]).Some? then Step(s, es[0]).value else s;
      ReceivedRun(t, next, es[1..], cfg, readings, fragments, sent);
      if Run(s, es).Some? {
        ObservedCons(s, es);
        if es[0].reception.None? {
          assert ObservedNow(s, es[0]) + Observed(t, es[1..]) == Observed(t, es[1..]);
        } else {
          assert (ObservedNow(s, es[0]) + Observed(t, es[1..]))[1..] == Observed(t, es[1..]);
        }
      }
    }
  }

  lemma ObservedCons(s: State, es: seq<Event>)
    requires es != [] && Run(s, es).Some?
    ensures Step(s, es[0]).Some?
    ensures Observed(s, es) == ObservedNow(s, es[0]) + Observed(Step(s, es[0]).value, es[1..])
  {
  }

  /** The packet carries the fragment, and was stamped at the reading, of its place. */
  predicate Carries(r: Reception, readings: seq<u64>, fragments: seq<seq<u8>>)
    requires |readings| == |fragments| && r.origin.index < |fragments|
  {
    r.packet.payload == fragments[r.origin.index] && r.origin.reading == readings[r.origin.index]
  }

  /** The accepted packets carry the talker's fragments, at strictly increasing places. */
  predicate InOrder(prev: int, rs: seq<Reception>, readings: seq<u64>, fragments: seq<seq<u8>>)
    requires |readings| == |fragments|
    decreases |rs|
  {
    rs == [] ||
    (prev < rs[0].origin.index < |fragments| && Carries(rs[0], readings, fragments)
     && InOrder(rs[0].origin.index, rs[1..], readings, fragments))
  }

  lemma InOrderWeaken(prev: int, before: int, rs: seq<Reception>, readings: seq<u64>, fragments: seq<seq<u8>>)
    requires |readings| == |fragments| && InOrder(prev, rs, readings, fragments) && before <= prev
    ensures InOrder(before, rs, readings, fragments)
  {
  }

  lemma {:induction false} AcceptedInOrder(s: State, prev: int, es: seq<Event>, cfg: StreamSettings,
                                           readings: seq<u64>, fragments: seq<seq<u8>>, sent: seq<Packet>)
    requires Broadcast(cfg, readings, fragments, sent) && Received(prev, es, cfg, readings, sent)
    requires Run(s, es).Some?
    ensures InOrder(prev, Accepted(s, es), readings, fragments)
    decreases |es|
  {
    hide Step, TruePresentation, Pdu, Genuine, Accepts;
    if es != [] {
      var t, now := Step(s, es[0]).value, AcceptedNow(s, es[0]);
      var next := if es[0].reception.Some? then es[0].reception.value.origin.index else prev;
      AcceptedInOrder(t, next, es[1..], cfg, readings, fragments, sent);
      if es[0].reception.Some? {
        SentIsGenuine(es[0].reception.value, cfg, readings, fragments, sent);
      }
      if now == [] {
        assert now + Accepted(t, es[1..]) == Accepted(t, es[1..]);
        InOrderWeaken(next, prev, Accepted(t, es[1..]), readings, fragments);
      } else {
        assert (now + Accepted(t, es[1..]))[1..] == Accepted(t, es[1..]);
      }
    }
  }

  /** Place by place. */
  lemma {:induction false} InOrderAt(prev: int, rs: seq<Reception>, readings: seq<u64>, fragments: seq<seq<u8>>, i: nat)
    requires |readings| == |fragments| && InOrder(prev, rs, readings, fragments) && i < |rs|
    ensures prev < rs[i].origin.index < |fragments| && Carries(rs[i], readings, fragments)
    ensures forall j :: i < j < |rs| ==> rs[i].origin.index < rs[j].origin.index
    decreases |rs|
  {
    if i > 0 {
      InOrderAt(rs[0].origin.index, rs[1..], readings, fragments, i - 1);
      assert forall j :: i < j < |rs| ==> rs[j] == rs[1..][j - 1];
    } else {
      forall j | 0 < j < |rs|
        ensures rs[0].origin.index < rs[j].origin.index
      {
        InOrderAt(rs[0].origin.index, rs[1..], readings, fragments, j - 1);
      }
    }
  }

  /** Each packet arrives in the 2^32 ns window of the clock in which it is to be presented. */
  predicate InWindow(es: seq<Event>, cfg: StreamSettings)
  {
    es == [] ||
    ((es[0].reception.Some? ==>
        var r := es[0].reception.value; ToNs(r.arrival) / TWO_32 == TruePresentation(r, cfg) / TWO_32)
     && InWindow(es[1..], cfg))
  }

  lemma {:induction false} ReceivedTimely(prev: int, es: seq<Event>, cfg: StreamSettings,
                                          readings: seq<u64>, fragments: seq<seq<u8>>, sent: seq<Packet>)
    requires Broadcast(cfg, readings, fragments, sent) && Received(prev, es, cfg, readings, sent)
    requires InWindow(es, cfg)
    ensures AllTimely(es)
    decreases |es|
  {
    hide Rebuild, Genuine, Pdu;
    if es != [] {
      if es[0].reception.Some? {
        var r := es[0].reception.value;
        SentIsGenuine(r, cfg, readings, fragments, sent);
        OnTimeIff(r, cfg);
        ReceivedTimely(r.origin.index, es[1..], cfg, readings, fragments, sent);
      } else {
        ReceivedTimely(prev, es[1..], cfg, readings, fragments, sent);
      }
    }
  }

  lemma OnTimeIff(r: Reception, cfg: StreamSettings)
    requires Genuine(r, cfg)
    ensures Rebuild(r).late <==> ToNs(r.arrival) / TWO_32 != TruePresentation(r, cfg) / TWO_32
  {
    NsRoundTrip(r.origin.reading);
    TalkerStamp(FromNs(r.origin.reading), cfg.maxTransitMs);
    TimerExact(TruePresentation(r, cfg), r.arrival);
  }

  /** As many packets as there are fragments, at strictly increasing places, carry all of them. */
  lemma AllInOrder(rs: seq<Reception>, readings: seq<u64>, fragments: seq<seq<u8>>)
    requires |readings| == |fragments| == |rs| && InOrder(-1, rs, readings, fragments)
    ensures Sent(rs) == fragments
    ensures forall i :: 0 <= i < |rs| ==> rs[i].origin == Origin(i, readings[i])
  {
    forall i | 0 <= i < |rs|
      ensures rs[i].origin == Origin(i, readings[i]) && rs[i].packet.payload == fragments[i]
    {
      InOrderAt(-1, rs, readings, fragments, i);
      PlaceAtLeast(-1, rs, readings, fragments, i);
      PlaceAtMost(-1, rs, readings, fragments, i);
    }
  }

  lemma {:induction false} PlaceAtLeast(prev: int, rs: seq<Reception>,
                                        readings: seq<u64>, fragments: seq<seq<u8>>, i: nat)
    requires |readings| == |fragments| && InOrder(prev, rs, readings, fragments) && i < |rs|
    ensures rs[i].origin.index > prev + i
    decreases |rs|
  {
    if i > 0 {
      PlaceAtLeast(rs[0].origin.index, rs[1..], readings, fragments, i - 1);
    }
  }

  lemma {:induction false} PlaceAtMost(prev: int, rs: seq<Reception>,
                                       readings: seq<u64>, fragments: seq<seq<u8>>, i: nat)
    requires |readings| == |fragments| && InOrder(prev, rs, readings, fragments) && i < |rs|
    ensures rs[i].origin.index + (|rs| - i) <= |fragments|
    decreases |rs| - i
  {
    InOrderAt(prev, rs, readings, fragments, i);
    if i + 1 < |rs| {
      PlaceAtMost(prev, rs, readings, fragments, i + 1);
    }
  }
}
