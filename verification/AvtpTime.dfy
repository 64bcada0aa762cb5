/** Presentation times: sent as the low 32 bits of a 64-bit nanosecond clock, rebuilt at the
    listener from its own clock reading. */
module AvtpTime {
  import opened Bytes

  const NSEC_PER_SEC: int := 1_000_000_000
  const NSEC_PER_MSEC: int := 1_000_000

  datatype Timespec = Timespec(sec: int, nsec: int)

  /** Nanoseconds in uint64 arithmetic. */
  function ToNs(t: Timespec): u64 { Wrap64(t.sec * NSEC_PER_SEC + t.nsec) }

  function FromNs(n: u64): Timespec { Timespec(n / NSEC_PER_SEC, n % NSEC_PER_SEC) }

  lemma NsRoundTrip(n: u64)
    ensures ToNs(FromNs(n)) == n
  {
  }

  function TransitNs(ms: u32): nat { ms * NSEC_PER_MSEC }

  /** The talker's time stamp: the presentation time, cut to its low 32 bits. */
  function CalculateAvtpTime(now: Timespec, maxTransitMs: u32): u32
  {
    Wrap64(now.sec * NSEC_PER_SEC + TransitNs(maxTransitMs) + now.nsec) % TWO_32
  }

  datatype Rebuilt = Rebuilt(presentation: Timespec, late: bool)

  /** The upper half of the listener's clock with the time stamp as lower half.  `& ~0xFFFFFFFF`
      and `|` are written as arithmetic; the time stamp is a 32-bit field. */
  function RebuiltNs(avtpTime: u32, now: u64): u64
  {
    now / TWO_32 * TWO_32 + avtpTime
  }

  /** The carry into the upper half is disabled in the source: a time stamp below the clock's lower
      half comes out in the past, and is reported late. */
  function GetPresentationTime(avtpTime: u32, now: Timespec): Rebuilt
  {
    var p := RebuiltNs(avtpTime, ToNs(now));
    Rebuilt(FromNs(p), p < ToNs(now))
  }

  /** The rebuilding with the disabled carry put back. */
  function CarriedNs(avtpTime: u32, now: u64): int
  {
    var p := RebuiltNs(avtpTime, now);
    if p < now then p + TWO_32 else p
  }

  /** What the talker sends is its clock plus the transit time, modulo 2^32, even where the 64-bit
      sum wraps. */
  lemma TalkerStamp(now: Timespec, maxTransitMs: u32)
    ensures CalculateAvtpTime(now, maxTransitMs) == (ToNs(now) + TransitNs(maxTransitMs)) % TWO_32
  {
    WrapCut(now.sec * NSEC_PER_SEC + TransitNs(maxTransitMs) + now.nsec);
    WrapCut(now.sec * NSEC_PER_SEC + now.nsec);
    CutSum(now.sec * NSEC_PER_SEC + now.nsec, TransitNs(maxTransitMs));
    CutSum(ToNs(now), TransitNs(maxTransitMs));
  }

  lemma WrapCut(x: int)
    ensures Wrap64(x) % TWO_32 == x % TWO_32
  {
  }

  lemma CutSum(x: int, y: int)
    ensures (x + y) % TWO_32 == (x % TWO_32 + y) % TWO_32
  {
  }

  /** The stamp in plain numbers: nanoseconds of the clock plus milliseconds of transit, low 32 bits. */
  lemma StampInUnits(now: Timespec, ms: u32)
    ensures CalculateAvtpTime(now, ms) == (now.sec * 1_000_000_000 + now.nsec + ms * 1_000_000) % 0x1_0000_0000
  {
    WrapCut(now.sec * NSEC_PER_SEC + TransitNs(ms) + now.nsec);
  }

  lemma SplitInUnits(n: u64)
    ensures FromNs(n).sec * 1_000_000_000 + FromNs(n).nsec == n && 0 <= FromNs(n).nsec < 1_000_000_000
    ensures FromNs(n).sec >= 0
  {
  }

  /** The rebuilt time in plain numbers: the clock with its low 32 bits replaced by the stamp, split at
      a thousand million nanoseconds; late if the stamp is below those bits. */
  lemma RebuiltInUnits(stamp: u32, now: Timespec)
    ensures var n := (now.sec * 1_000_000_000 + now.nsec) % 0x1_0000_0000_0000_0000;
            var r := GetPresentationTime(stamp, now);
            && r.presentation.sec * 1_000_000_000 + r.presentation.nsec == n - n % 0x1_0000_0000 + stamp
            && 0 <= r.presentation.nsec < 1_000_000_000
            && (r.late <==> stamp < n % 0x1_0000_0000)
  {
    SplitInUnits(RebuiltNs(stamp, ToNs(now)));
  }

  lemma LateIff(stamp: u32, now: Timespec)
    ensures GetPresentationTime(stamp, now).late
       <==> stamp < (now.sec * 1_000_000_000 + now.nsec) % 0x1_0000_0000
  {
    RebuiltInUnits(stamp, now);
    WrapCut(now.sec * NSEC_PER_SEC + now.nsec);
  }

  /** For any presentation time at all, early or late: rebuilding recovers it exactly when it lies
      in the clock's own 2^32 ns window, and reports it late exactly when its lower half is below
      the clock's. */
  lemma RebuildIff(p: u64, now: Timespec)
    ensures var r, n := GetPresentationTime(p % TWO_32, now), ToNs(now);
            && (ToNs(r.presentation) == p <==> p / TWO_32 == n / TWO_32)
            && (r.late <==> p % TWO_32 < n % TWO_32)
            && ToNs(r.presentation) / TWO_32 == n / TWO_32
            && ToNs(r.presentation) % TWO_32 == p % TWO_32
  {
    NsRoundTrip(RebuiltNs(p % TWO_32, ToNs(now)));
  }

  /** For every presentation time less than 2^32 ns ahead: accepted as on time exactly when it is
      rebuilt exactly; otherwise reported late and exactly 2^32 ns too small. */
  lemma TimerExact(p: u64, now: Timespec)
    requires ToNs(now) <= p < ToNs(now) + TWO_32
    ensures var r := GetPresentationTime(p % TWO_32, now);
            && (!r.late <==> ToNs(r.presentation) == p)
            && (r.late <==> ToNs(r.presentation) == p - TWO_32)
            && (r.late <==> p / TWO_32 != ToNs(now) / TWO_32)
  {
    NsRoundTrip(RebuiltNs(p % TWO_32, ToNs(now)));
  }

  /** The disabled carry is all that is missing: with it every presentation time in the window is
      recovered, and without it exactly the ones not reported late. */
  lemma CarryRecovers(p: u64, now: u64)
    requires now <= p < now + TWO_32
    ensures CarriedNs(p % TWO_32, now) == p
    ensures RebuiltNs(p % TWO_32, now) == p <==> !(RebuiltNs(p % TWO_32, now) < now)
  {
  }

  /** The smallest time that is lost: one nanosecond before the lower half rolls over, the next one is
      taken for the start of the epoch. */
  lemma CarryMissing()
    ensures var now := FromNs(TWO_32 - 1);
            && ToNs(now) <= TWO_32 < ToNs(now) + TWO_32
            && GetPresentationTime(TWO_32 % TWO_32, now) == Rebuilt(FromNs(0), true)
  {
    NsRoundTrip(TWO_32 - 1);
  }
}
