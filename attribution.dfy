/** How allocation events are attributed to the open phases: the counter
    updates one event makes on one record and on the whole stack of open
    records, the consistency the updates keep, and what a run of events
    leaves behind. */
module Attribution {
  import opened PhaseRecord

  /** An event reported by the allocator hook or by manual tracking. */
  datatype MemEvent = Alloc(bytes: nat) | Free(bytes: nat)

  function Max(a: int, b: int): (m: int) { if a >= b then a else b }

  /** One allocation on one record: the running value grows by `n` and the
      peak follows it upwards. */
  function AfterAlloc(d: PhaseData, n: nat): (r: PhaseData)
    ensures r.memCurrent == d.memCurrent + n
    ensures r.memPeak >= r.memCurrent && r.memPeak >= d.memPeak
    ensures r.memPeak == d.memPeak || r.memPeak == r.memCurrent
    ensures r.(memCurrent := d.memCurrent, memPeak := d.memPeak) == d
  {
    d.(memCurrent := d.memCurrent + n, memPeak := Max(d.memPeak, d.memCurrent + n))
  }

  /** One free on one record: the running value drops by `n`, the peak
      stays. */
  function AfterFree(d: PhaseData, n: nat): (r: PhaseData)
    ensures r.memCurrent == d.memCurrent - n
    ensures r.(memCurrent := d.memCurrent) == d
  {
    d.(memCurrent := d.memCurrent - n)
  }

  function AfterEvent(d: PhaseData, e: MemEvent): (r: PhaseData)
  {
    match e
    case Alloc(n) => AfterAlloc(d, n)
    case Free(n) => AfterFree(d, n)
  }

  /** Both updates keep a record's counters consistent. */
  lemma AfterEventPeakOk(d: PhaseData, e: MemEvent)
    requires PeakOk(d)
    ensures PeakOk(AfterEvent(d, e))
  {
  }

  /** An event applied to every open record: the phase that caused it and
      all its ancestors. */
  function AllOpen(s: seq<PhaseData>, e: MemEvent): (r: seq<PhaseData>)
    ensures |r| == |s|
    ensures forall i :: 0 <= i < |s| ==> r[i] == AfterEvent(s[i], e)
  {
    seq(|s|, i requires 0 <= i < |s| => AfterEvent(s[i], e))
  }

  /** Consistency of the stack of open records, root first. Every record's
      counters are consistent, and each phase's baseline plus its own
      running value is its parent's running value: a phase starts with
      `memOff` equal to the parent's running value and from then on every
      event reaches both. */
  ghost predicate StackOk(s: seq<PhaseData>)
  {
    (forall i :: 0 <= i < |s| ==> WellFormedAt(s, i))
    && (forall i :: 1 <= i < |s| ==> BaselineAt(s, i))
  }

  /** The record tree at depth `i` is well-formed. */
  ghost predicate WellFormedAt(s: seq<PhaseData>, i: nat)
    requires i < |s|
  {
    WellFormed(s[i])
  }

  /** The phase at depth `i` and its parent agree on the baseline. */
  predicate BaselineAt(s: seq<PhaseData>, i: nat)
    requires 1 <= i < |s|
  {
    s[i - 1].memCurrent == s[i].memOff + s[i].memCurrent
  }

  /** A tree stays well-formed when its root's counters take an event. */
  lemma AfterEventWellFormed(d: PhaseData, e: MemEvent)
    requires WellFormed(d)
    ensures WellFormed(AfterEvent(d, e))
  {
    var r := AfterEvent(d, e);
    assert r.children == d.children;
  }

  /** An event reaching every open record keeps the stack consistent. */
  lemma AllOpenStackOk(s: seq<PhaseData>, e: MemEvent)
    requires StackOk(s)
    ensures StackOk(AllOpen(s, e))
  {
    var r := AllOpen(s, e);
    forall i | 0 <= i < |r| ensures WellFormedAt(r, i) {
      assert WellFormedAt(s, i);
      AfterEventWellFormed(s[i], e);
    }
    forall i | 1 <= i < |r| ensures BaselineAt(r, i) {
      assert BaselineAt(s, i);
    }
  }

  // --- Runs of events ---

  /** The net number of bytes a run of events adds. */
  function Net(es: seq<MemEvent>): (n: int)
  {
    if es == [] then 0 else Delta(es[0]) + Net(es[1..])
  }

  /** The signed change one event makes to a running value. */
  function Delta(e: MemEvent): (n: int)
  {
    match e
    case Alloc(n) => n
    case Free(n) => -(n as int)
  }

  /** The highest running value reached when a run of events starts from
      the running value `c`, including `c` itself. */
  function HighWater(c: int, es: seq<MemEvent>): (h: int)
    ensures h >= c && h >= c + Net(es)
    decreases es
  {
    if es == [] then c else Max(c, HighWater(c + Delta(es[0]), es[1..]))
  }

  /** The high-water value is the largest running value of the run: it
      is at least the value after every prefix of the run, and it is the
      value after one of them. */
  lemma {:induction false} HighWaterIsPrefixMax(c: int, es: seq<MemEvent>)
    ensures forall k :: 0 <= k <= |es| ==> HighWater(c, es) >= c + Net(es[..k])
    ensures exists k :: 0 <= k <= |es| && HighWater(c, es) == c + Net(es[..k])
    decreases es
  {
    assert es[..0] == [];
    if es != [] {
      var c' := c + Delta(es[0]);
      HighWaterIsPrefixMax(c', es[1..]);
      forall k | 1 <= k <= |es|
        ensures Net(es[..k]) == Delta(es[0]) + Net(es[1..][..k - 1])
      {
        assert es[..k][1..] == es[1..][..k - 1];
      }
      var k' :| 0 <= k' <= |es[1..]| && HighWater(c', es[1..]) == c' + Net(es[1..][..k']);
      if HighWater(c, es) != c {
        assert HighWater(c, es) == c + Net(es[..k' + 1]);
      }
    }
  }

  /** A run of events applied to one record, in order. */
  function Replay(d: PhaseData, es: seq<MemEvent>): (r: PhaseData)
    decreases es
  {
    if es == [] then d else Replay(AfterEvent(d, es[0]), es[1..])
  }

  /** After a run of events a record's running value is its start plus the
      net bytes, and its peak is the highest value the running value
      reached (or the earlier peak if that was higher). */
  lemma {:induction false} ReplayCounters(d: PhaseData, es: seq<MemEvent>)
    requires d.memPeak >= d.memCurrent
    ensures Replay(d, es).memCurrent == d.memCurrent + Net(es)
    ensures Replay(d, es).memPeak == Max(d.memPeak, HighWater(d.memCurrent, es))
    ensures Replay(d, es).(memCurrent := d.memCurrent, memPeak := d.memPeak) == d
    decreases es
  {
    if es != [] {
      ReplayCounters(AfterEvent(d, es[0]), es[1..]);
    }
  }

  /** A run of events applied to the stack of open records. */
  function ReplayOpen(s: seq<PhaseData>, es: seq<MemEvent>): (r: seq<PhaseData>)
    ensures |r| == |s|
    decreases es
  {
    if es == [] then s else ReplayOpen(AllOpen(s, es[0]), es[1..])
  }

  /** What the stack does to each record is what a replay on that record
      alone does: every event reaches every open phase. */
  lemma {:induction false} ReplayOpenPointwise(s: seq<PhaseData>, es: seq<MemEvent>, i: nat)
    requires i < |s|
    ensures ReplayOpen(s, es)[i] == Replay(s[i], es)
    decreases es
  {
    if es != [] {
      ReplayOpenPointwise(AllOpen(s, es[0]), es[1..], i);
    }
  }

  /** Opening a sub-phase is transparent to the enclosing phases: whatever
      events happen while it is open, the enclosing records end exactly as
      if the events had happened without the sub-phase. */
  lemma NestingTransparent(s: seq<PhaseData>, child: PhaseData, es: seq<MemEvent>)
    ensures ReplayOpen(s + [child], es)[..|s|] == ReplayOpen(s, es)
  {
    var a := ReplayOpen(s + [child], es);
    var b := ReplayOpen(s, es);
    forall i | 0 <= i < |s| ensures a[i] == b[i] {
      ReplayOpenPointwise(s + [child], es, i);
      ReplayOpenPointwise(s, es, i);
    }
  }
}
