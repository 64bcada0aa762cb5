/** The statistics handler: a linked stack of packet times, a drop counter, and two statistics
    computed over arrays filled by walking the stack. */
module Stats {
  import opened Bytes
  import opened AvtpTime
  import opened Settings
  import opened StatsSpec

  /** A stack node.  Nodes never change once pushed; `stack` lists the entries from here down. */
  class Node {
    const arrival: Timespec
    const presentation: Timespec
    const next: Node?
    ghost const stack: seq<Entry>

    ghost predicate Valid()
      decreases |stack|
    {
      && |stack| >= 1 && stack[0] == Entry(arrival, presentation)
      && (next == null <==> |stack| == 1)
      && (next != null ==> next.stack == stack[1..] && next.Valid())
    }

    constructor (arrival: Timespec, presentation: Timespec, next: Node?)
      requires next != null ==> next.Valid()
      ensures Valid() && this.next == next
      ensures stack == [Entry(arrival, presentation)] + Below(next)
    {
      this.arrival, this.presentation, this.next := arrival, presentation, next;
      this.stack := [Entry(arrival, presentation)] + Below(next);
    }
  }

  ghost function Below(node: Node?): seq<Entry> { if node == null then [] else node.stack }

  class Stat {
    var min: u64
    var max: u64
    var mean: u64
    var count: nat

    constructor ()
      ensures min == TWO_64 - 1 && max == 0 && mean == 0 && count == 0
    {
      min, max, mean, count := TWO_64 - 1, 0, 0, 0;
    }

    method FoldOne(x: u64, ghost before: seq<u64>, ghost min0: u64, ghost max0: u64, ghost mean0: u64)
      requires min == MinOf(before, min0) && max == MaxOf(before, max0) && mean == Wrap64(mean0 + Sum(before))
      modifies this
      ensures min == MinOf(before + [x], min0) && max == MaxOf(before + [x], max0)
      ensures mean == Wrap64(mean0 + Sum(before + [x]))
    {
      if x > max { max := x; }
      if x < min { min := x; }
      mean := Wrap64(mean + x);
      assert (before + [x])[..|before|] == before;
      WrapAdd(mean0 + Sum(before), x);
    }

    /** Folds the first `count` elements into the statistic.  With none to fold, the division for
        the mean traps. */
    method Process(a: array<u64>, count: nat) returns (trapped: bool)
      requires count <= a.Length
      modifies this
      ensures trapped <==> count == 0
      ensures min == MinOf(a[..count], old(min)) && max == MaxOf(a[..count], old(max)) && this.count == count
      ensures count > 0 ==> mean == Wrap64(old(mean) + Sum(a[..count])) / count
    {
      var i := 0;
      while i < count
        invariant i <= count
        invariant min == MinOf(a[..i], old(min)) && max == MaxOf(a[..i], old(max))
        invariant mean == Wrap64(old(mean) + Sum(a[..i]))
      {
        FoldOne(a[i], a[..i], old(min), old(max), old(mean));
        assert a[..i + 1] == a[..i] + [a[i]];
        i := i + 1;
      }
      this.count := count;
      if count == 0 { return true; }
      DivBelow(mean, count);
      mean := mean / count;
      trapped := false;
    }
  }

  datatype Outcome = NoData | Trapped | Done

  class StatsHandler {
    var head: Node?
    var dropped: u32
    const deltaCap: Stat
    const travel: Stat

    /** All pushed entries, newest first. */
    ghost function Stack(): seq<Entry>
      reads this
    {
      Below(head)
    }

    ghost predicate Valid()
      reads this
    {
      deltaCap != travel && (head != null ==> head.Valid())
    }

    constructor ()
      ensures Valid() && Stack() == [] && dropped == 0 && fresh(deltaCap) && fresh(travel)
      ensures deltaCap.min == travel.min == TWO_64 - 1 && deltaCap.max == travel.max == 0
      ensures deltaCap.mean == travel.mean == 0
    {
      head, dropped := null, 0;
      deltaCap := new Stat();
      travel := new Stat();
    }

    /** Losses before the first packet are ignored: the talker may have started earlier. */
    method AddDropped(count: u8)
      requires Valid()
      modifies this`dropped
      ensures Valid() && dropped == if Stack() != [] then Wrap32(old(dropped) + count) else old(dropped)
    {
      if head != null {
        dropped := Wrap32(dropped + count);
      }
    }

    method Push(arrival: Timespec, presentation: Timespec)
      requires Valid()
      modifies this`head
      ensures Valid() && Stack() == [Entry(arrival, presentation)] + old(Stack())
    {
      head := new Node(arrival, presentation, head);
    }

    /** The bottom of the stack: the entry pushed first. */
    method GetFirst() returns (found: bool, first: Entry)
      requires Valid()
      ensures found <==> Stack() != []
      ensures found ==> first == Stack()[|Stack()| - 1]
    {
      if head == null {
        return false, Entry(Timespec(0, 0), Timespec(0, 0));
      }
      var node: Node := head;
      while node.next != null
        invariant node.Valid() && |node.stack| <= |Stack()|
        invariant node.stack[|node.stack| - 1] == Stack()[|Stack()| - 1]
        decreases |node.stack|
      {
        node := node.next;
      }
      return true, Entry(node.arrival, node.presentation);
    }

    /** The top of the stack: the entry pushed last. */
    method GetLast() returns (found: bool, last: Entry)
      requires Valid()
      ensures found <==> Stack() != []
      ensures found ==> last == Stack()[0]
    {
      if head == null {
        return false, Entry(Timespec(0, 0), Timespec(0, 0));
      }
      return true, Entry(head.arrival, head.presentation);
    }

    method CountEntries() returns (n: nat)
      requires Valid()
      ensures n == |Stack()|
    {
      n := 0;
      var node := head;
      while node != null
        invariant node != null ==> node.Valid()
        invariant n + |Below(node)| == |Stack()|
        decreases |Below(node)|
      {
        n := n + 1;
        node := node.next;
      }
    }

    /** Fills one travel time per entry and one capture delta per neighbouring pair. */
    method FillArrays(cfg: StreamSettings, travels: array<u64>, deltas: array<u64>)
      requires Valid() && head != null && travels != deltas
      requires travels.Length == |Stack()| && deltas.Length == |Stack()| - 1
      modifies travels, deltas
      ensures travels[..] == Travels(Stack(), cfg) && deltas[..] == Deltas(Stack(), cfg)
    {
      var node := head;
      var index := 0;
      ghost var s := Stack();
      while node != null
        invariant node != null && node.Valid() && index < |s| && node.stack == s[index..]
        invariant forall j :: 0 <= j < index ==> travels[j] == Travel(s[j], cfg)
        invariant forall j :: 0 <= j < index ==> deltas[j] == Delta(s[j], s[j + 1], cfg)
        decreases |s| - index
      {
        FillEntry(cfg, node, index, travels, deltas);
        if node.next == null { break; }
        index := index + 1;
        node := node.next;
      }
      assert travels[..] == Travels(s, cfg);
      assert deltas[..] == Deltas(s, cfg);
    }

    /** Both array slots of one node; the bottom node has no delta. */
    method FillEntry(cfg: StreamSettings, node: Node, index: nat, travels: array<u64>, deltas: array<u64>)
      requires node.Valid() && travels != deltas && index < travels.Length
      requires node.next != null ==> index < deltas.Length
      modifies travels, deltas
      ensures travels[..] == old(travels[..])[index := Travel(node.stack[0], cfg)]
      ensures deltas[..] == if node.next == null then old(deltas[..])
                            else old(deltas[..])[index := Delta(node.stack[0], node.stack[1], cfg)]
    {
      var current := ToNs(CapTime(Entry(node.arrival, node.presentation), cfg));
      travels[index] := Wrap64(ToNs(node.arrival) - Wrap64(current + cfg.hwLatencyNs));
      travels[index] := Wrap64(ToNs(node.arrival)
                               - Wrap64(ToNs(node.presentation) - TransitNs(cfg.maxTransitMs)));
      if node.next != null {
        var below := Entry(node.next.arrival, node.next.presentation);
        deltas[index] := Wrap64(current - ToNs(CapTime(below, cfg)));
      }
    }

    method ProcessBoth(travels: array<u64>, deltas: array<u64>) returns (outcome: Outcome)
      requires deltaCap != travel && travels.Length == deltas.Length + 1
      modifies deltaCap, travel
      ensures outcome == if deltas.Length == 0 then Trapped else Done
      ensures var t := travels[..travels.Length];
              && travel.min == MinOf(t, old(travel.min)) && travel.max == MaxOf(t, old(travel.max))
              && travel.mean == Wrap64(old(travel.mean) + Sum(t)) / travels.Length && travel.count == travels.Length
      ensures var d := deltas[..deltas.Length];
              && deltaCap.min == MinOf(d, old(deltaCap.min)) && deltaCap.max == MaxOf(d, old(deltaCap.max))
              && deltaCap.count == deltas.Length
              && (d != [] ==> deltaCap.mean == Wrap64(old(deltaCap.mean) + Sum(d)) / deltas.Length)
    {
      var trapped := travel.Process(travels, travels.Length);
      trapped := deltaCap.Process(deltas, deltas.Length);
      outcome := if trapped then Trapped else Done;
    }

    /** With a single packet there is no delta, and the division for the mean delta traps. */
    method ProcessStats(cfg: StreamSettings) returns (outcome: Outcome)
      requires Valid()
      modifies deltaCap, travel
      ensures outcome == if Stack() == [] then NoData else if |Stack()| == 1 then Trapped else Done
      ensures Stack() != [] ==>
                var t := Travels(Stack(), cfg);
                && travel.min == MinOf(t, old(travel.min)) && travel.max == MaxOf(t, old(travel.max))
                && travel.mean == Wrap64(old(travel.mean) + Sum(t)) / |t| && travel.count == |Stack()|
      ensures outcome == Done ==>
                var d := Deltas(Stack(), cfg);
                && deltaCap.min == MinOf(d, old(deltaCap.min)) && deltaCap.max == MaxOf(d, old(deltaCap.max))
                && deltaCap.mean == Wrap64(old(deltaCap.mean) + Sum(d)) / |d| && deltaCap.count == |Stack()| - 1
    {
      if head == null { return NoData; }
      var n := CountEntries();
      var travels := new u64[n];
      var deltas := new u64[n - 1];
      FillArrays(cfg, travels, deltas);
      assert travels[..n] == Travels(Stack(), cfg);
      assert deltas[..n - 1] == Deltas(Stack(), cfg);
      outcome := ProcessBoth(travels, deltas);
    }
  }
}
