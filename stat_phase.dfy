/** The phase engine: the stack of open phases, the re-entrancy guard, the
    user pause flag, and the operations that start, finish and split phases,
    attribute allocations to them, log statistics and export them.

    The process-wide state (the current phase, the suppression counter and
    the pause flag) lives in one context object. The open phases form a
    stack: the `m_parent` chain from the current phase back to the root.
    The context keeps their records root first, so the last record is the
    current phase's and the record before each one is its parent's. */
module StatPhase {
  import opened CString
  import opened JsonDoc
  import opened PhaseRecord
  import opened Attribution

  /** A phase object. `Disabled` is the inert phase made by the default
      constructor. `Active(level)` is a started phase nested `level`
      phases below the root: its record is the open record at index
      `level`, and its parent is the phase at `level - 1`. */
  datatype Phase = Disabled | Active(level: nat)

  /** The record a phase start creates: the title as stored, the start
      time, the given baseline, zero counters, no end time yet, no stats
      and no children. */
  function StartRecord(title: string, now: real, memOff: int): (r: PhaseData)
    ensures r.title == Stored(title) && r.timeStart == now && r.timeEnd == 0.0
    ensures r.memOff == memOff && r.memCurrent == 0 && r.memPeak == 0
    ensures r.stats == [] && r.children == []
  {
    SetTitle(NewRecord(), title).(memOff := memOff, memCurrent := 0, memPeak := 0,
                                   timeEnd := 0.0, timeStart := now)
  }

  /** The baseline a phase starting on top of `s` gets: the running value
      of the current phase, or 0 when there is none. */
  function StartOffset(s: seq<PhaseData>): (off: int)
  {
    if s == [] then 0 else s[|s| - 1].memCurrent
  }

  /** The record of the top phase as it is when that phase finishes at `now`. */
  function FinishedTop(s: seq<PhaseData>, now: real): (d: PhaseData)
    requires s != []
    ensures d.(timeEnd := s[|s| - 1].timeEnd) == s[|s| - 1] && d.timeEnd == now
  {
    s[|s| - 1].(timeEnd := now)
  }

  /** The stack after the top phase finishes at `now`: the top is removed
      and, if it had a parent, its finished record becomes the parent's
      last child; the record of a root is dropped. */
  function Popped(s: seq<PhaseData>, now: real): (r: seq<PhaseData>)
    requires s != []
    ensures |r| == |s| - 1
    ensures forall i :: 0 <= i < |s| - 2 ==> r[i] == s[i]
    ensures |s| >= 2 ==> r[|s| - 2] == AppendChild(s[|s| - 2], FinishedTop(s, now))
  {
    if |s| == 1 then [] else s[..|s| - 2] + [AppendChild(s[|s| - 2], FinishedTop(s, now))]
  }

  /** Finishing the top phase keeps the stack consistent. */
  lemma PoppedStackOk(s: seq<PhaseData>, now: real)
    requires s != [] && StackOk(s)
    ensures StackOk(Popped(s, now))
  {
    if |s| >= 2 {
      var r := Popped(s, now);
      var d := FinishedTop(s, now);
      assert WellFormedAt(s, |s| - 1) && WellFormedAt(s, |s| - 2);
      assert d.children == s[|s| - 1].children;
      assert WellFormed(d);
      AppendChildWellFormed(s[|s| - 2], d);
      forall i | 0 <= i < |r| ensures WellFormedAt(r, i) {
        assert WellFormedAt(s, i);
      }
      forall i | 1 <= i < |r| ensures BaselineAt(r, i) {
        assert BaselineAt(s, i);
      }
    }
  }

  /** Starting a phase on a consistent stack keeps it consistent. */
  lemma PushedStackOk(s: seq<PhaseData>, title: string, now: real)
    requires StackOk(s)
    ensures StackOk(s + [StartRecord(title, now, StartOffset(s))])
  {
    var r := s + [StartRecord(title, now, StartOffset(s))];
    forall i | 0 <= i < |r| ensures WellFormedAt(r, i) {
      if i < |s| { assert WellFormedAt(s, i); }
    }
    forall i | 1 <= i < |r| ensures BaselineAt(r, i) {
      if i < |s| { assert BaselineAt(s, i); }
    }
  }

  /** Replacing an open record by one with the same counters and the same
      children (a logged stat, a stamped end time) keeps the stack
      consistent. */
  lemma ReplacedStackOk(s: seq<PhaseData>, i: nat, d: PhaseData)
    requires StackOk(s) && i < |s|
    requires d.memOff == s[i].memOff && d.memCurrent == s[i].memCurrent
    requires d.memPeak == s[i].memPeak && d.children == s[i].children
    ensures StackOk(s[i := d])
  {
    var r := s[i := d];
    assert WellFormedAt(s, i);
    forall k | 0 <= k < |r| ensures WellFormedAt(r, k) {
      assert WellFormedAt(s, k);
    }
    forall k | 1 <= k < |r| ensures BaselineAt(r, k) {
      assert BaselineAt(s, k);
    }
  }

  /** Splitting needs no baseline of its own: on a consistent stack, the
      phase that starts after the top one finishes gets the finished
      phase's `memOff` plus its running value as its baseline, which is
      what the split sets explicitly. */
  lemma SplitContinuesBaseline(s: seq<PhaseData>, now: real)
    requires StackOk(s) && |s| >= 2
    ensures StartOffset(Popped(s, now)) == s[|s| - 1].memOff + s[|s| - 1].memCurrent
  {
    assert BaselineAt(s, |s| - 1);
  }

  /** A run of events on the stack, stepwise: the last event is applied to
      the stack the earlier ones left. */
  lemma {:induction false} ReplayOpenSnoc(s: seq<PhaseData>, es: seq<MemEvent>, e: MemEvent)
    ensures ReplayOpen(s, es + [e]) == AllOpen(ReplayOpen(s, es), e)
    decreases es
  {
    if es == [] {
      assert [] + [e] == [e];
    } else {
      assert (es + [e])[1..] == es[1..] + [e];
      ReplayOpenSnoc(AllOpen(s, es[0]), es[1..], e);
    }
  }

  /** A run of events keeps a consistent stack consistent. */
  lemma {:induction false} ReplayOpenStackOk(s: seq<PhaseData>, es: seq<MemEvent>)
    requires StackOk(s)
    ensures StackOk(ReplayOpen(s, es))
    decreases es
  {
    if es != [] {
      AllOpenStackOk(s, es[0]);
      ReplayOpenStackOk(AllOpen(s, es[0]), es[1..]);
    }
  }

  class StatContext {
    /** The records of the open phases, root first; the last is the
        current phase's. Empty when there is no current phase. */
    var open: seq<PhaseData>
    /** Depth of nested suppression guards; non-zero suppresses tracking. */
    var suppression: nat
    /** Set by pause_tracking, cleared by resume_tracking. */
    var userPaused: bool

    ghost predicate Valid()
      reads this
    {
      StackOk(open)
    }

    /** The initial state of the globals: no current phase, no guard
        active, tracking not paused. */
    constructor ()
      ensures open == [] && suppression == 0 && !userPaused
      ensures Valid()
    {
      open := [];
      suppression := 0;
      userPaused := false;
    }

    /** A guard is active. */
    predicate IsSuppressed()
      reads this
    {
      suppression != 0
    }

    /** Allocation events are attributed: no guard is active and the user
        has not paused tracking. */
    predicate CurrentlyTrackingMemory()
      reads this
    {
      !IsSuppressed() && !userPaused
    }

    /** Construction of a suppression guard: while it lives, no
        allocation event is attributed. */
    method EnterGuard()
      modifies this`suppression
      ensures suppression == old(suppression) + 1
      ensures IsSuppressed() && !CurrentlyTrackingMemory()
    {
      suppression := suppression + 1;
    }

    /** Destruction of a suppression guard; guards nest, so one was entered. */
    method ExitGuard()
      requires suppression > 0
      modifies this`suppression
      ensures suppression == old(suppression) - 1
      ensures IsSuppressed() <==> old(suppression) > 1
    {
      suppression := suppression - 1;
    }

    /** Adds an allocation to the current phase and, going up the parent
        chain, to every ancestor, raising each peak to the new running
        value; nothing when tracking is off. */
    method TrackAllocInternal(bytes: nat)
      requires open != [] && Valid()
      modifies this`open
      ensures Valid()
      ensures open == if CurrentlyTrackingMemory() then AllOpen(old(open), Alloc(bytes)) else old(open)
    {
      var i := |open|;
      while i > 0 && CurrentlyTrackingMemory()
        invariant 0 <= i <= |open| == |old(open)|
        invariant forall k :: 0 <= k < i ==> open[k] == old(open)[k]
        invariant forall k :: i <= k < |open| ==> open[k] == AfterAlloc(old(open)[k], bytes)
        invariant !CurrentlyTrackingMemory() ==> i == |open|
        decreases i
      {
        i := i - 1;
        open := open[i := AfterAlloc(open[i], bytes)];
      }
      if CurrentlyTrackingMemory() {
        assert open == AllOpen(old(open), Alloc(bytes));
        AllOpenStackOk(old(open), Alloc(bytes));
      } else {
        assert open == old(open);
      }
    }

    /** Subtracts a free from the current phase and from every ancestor,
        leaving every peak as it is; nothing when tracking is off. */
    method TrackFreeInternal(bytes: nat)
      requires open != [] && Valid()
      modifies this`open
      ensures Valid()
      ensures open == if CurrentlyTrackingMemory() then AllOpen(old(open), Free(bytes)) else old(open)
    {
      var i := |open|;
      while i > 0 && CurrentlyTrackingMemory()
        invariant 0 <= i <= |open| == |old(open)|
        invariant forall k :: 0 <= k < i ==> open[k] == old(open)[k]
        invariant forall k :: i <= k < |open| ==> open[k] == AfterFree(old(open)[k], bytes)
        invariant !CurrentlyTrackingMemory() ==> i == |open|
        decreases i
      {
        i := i - 1;
        open := open[i := AfterFree(open[i], bytes)];
      }
      if CurrentlyTrackingMemory() {
        assert open == AllOpen(old(open), Free(bytes));
        AllOpenStackOk(old(open), Free(bytes));
      } else {
        assert open == old(open);
      }
    }

    /** Manual or hooked allocation: attributed to the current phase and its
        ancestors; nothing without a current phase or while tracking is off. */
    method TrackAlloc(bytes: nat)
      requires Valid()
      modifies this`open
      ensures Valid()
      ensures open == if old(open) != [] && CurrentlyTrackingMemory()
                      then AllOpen(old(open), Alloc(bytes)) else old(open)
    {
      if open != [] {
        TrackAllocInternal(bytes);
      }
    }

    /** Manual or hooked free: taken off the current phase and its
        ancestors; nothing without a current phase or while tracking is off. */
    method TrackFree(bytes: nat)
      requires Valid()
      modifies this`open
      ensures Valid()
      ensures open == if old(open) != [] && CurrentlyTrackingMemory()
                      then AllOpen(old(open), Free(bytes)) else old(open)
    {
      if open != [] {
        TrackFreeInternal(bytes);
      }
    }

    /** A run of allocator events, reported one after the other. */
    method ReportEvents(events: seq<MemEvent>)
      requires Valid()
      modifies this`open
      ensures Valid()
      ensures open == if old(open) != [] && CurrentlyTrackingMemory()
                      then ReplayOpen(old(open), events) else old(open)
    {
      var i := 0;
      while i < |events|
        invariant 0 <= i <= |events|
        invariant Valid()
        invariant open == if old(open) != [] && CurrentlyTrackingMemory()
                          then ReplayOpen(old(open), events[..i]) else old(open)
      {
        match events[i] {
          case Alloc(n) => TrackAlloc(n);
          case Free(n) => TrackFree(n);
        }
        if old(open) != [] && CurrentlyTrackingMemory() {
          assert events[..i + 1] == events[..i] + [events[i]];
          ReplayOpenSnoc(old(open), events[..i], events[i]);
        }
        i := i + 1;
      }
      assert events[..i] == events;
    }

    /** Pauses tracking; only when there is a current phase. The flag stays
        set until resumed, also after that phase finishes. */
    method PauseTracking()
      modifies this`userPaused
      ensures userPaused == (old(open) != [] || old(userPaused))
    {
      if open != [] {
        userPaused := true;
      }
    }

    /** Resumes tracking; only when there is a current phase. */
    method ResumeTracking()
      modifies this`userPaused
      ensures userPaused == (old(open) == [] && old(userPaused))
    {
      if open != [] {
        userPaused := false;
      }
    }

    /** Starts a phase (the titled constructor). The new phase becomes the
        current one, nested under the previous current phase; its baseline
        is that phase's running value, 0 for a root. All this happens under
        a guard, so the allocator events the bookkeeping itself causes
        (`internal`) are not attributed. */
    method Init(title: string, now: real, internal: seq<MemEvent>) returns (p: Phase)
      requires Valid()
      modifies this`open, this`suppression
      ensures Valid()
      ensures p == Active(|old(open)|)
      ensures open == old(open) + [StartRecord(title, now, StartOffset(old(open)))]
      ensures suppression == old(suppression)
    {
      EnterGuard();
      ReportEvents(internal);
      PushedStackOk(open, title, now);
      open := open + [StartRecord(title, now, StartOffset(open))];
      p := Active(|open| - 1);
      ExitGuard();
    }

    /** Finishes the current phase at `now`. Its parent becomes current;
        its record, with the end time stamped, becomes the parent's last
        child and is returned. A root's record is dropped and nothing is
        returned. */
    method Finish(now: real, internal: seq<MemEvent>) returns (r: Option<PhaseData>)
      requires open != [] && Valid()
      modifies this`open, this`suppression
      ensures Valid()
      ensures open == Popped(old(open), now)
      ensures r == if |old(open)| >= 2 then Some(FinishedTop(old(open), now)) else None
      ensures suppression == old(suppression)
    {
      var d := FinishedTop(open, now);
      EnterGuard();
      ReportEvents(internal);
      PoppedStackOk(open, now);
      if |open| >= 2 {
        r := Some(d);
        open := open[..|open| - 2] + [AppendChild(open[|open| - 2], d)];
      } else {
        r := None;
        open := [];
      }
      ExitGuard();
    }

    /** The destructor: finishes a started phase; nothing for the inert one. */
    method Destroy(p: Phase, now: real, internal: seq<MemEvent>)
      requires Valid()
      requires p.Active? ==> p.level + 1 == |open|
      modifies this`open, this`suppression
      ensures Valid()
      ensures open == if p.Active? then Popped(old(open), now) else old(open)
      ensures suppression == old(suppression)
    {
      if p.Active? {
        var _ := Finish(now, internal);
      }
    }

    /** Ends the phase and starts a sibling in its place, on the same
        phase object. The sibling's baseline continues the old phase's:
        its `memOff` is the old phase's `memOff` plus its running value
        when the old phase had a parent, and 0 for a root. Finishing and
        starting read the clock separately: `finishNow` is the end time of
        the old phase and `startNow` the start time of the new one.
        Nothing for the inert phase. */
    method Split(p: Phase, title: string, finishNow: real, startNow: real,
                 finishInternal: seq<MemEvent>, initInternal: seq<MemEvent>)
      requires Valid()
      requires p.Active? ==> p.level + 1 == |open|
      modifies this`open, this`suppression
      ensures Valid()
      ensures p.Disabled? ==> open == old(open)
      ensures p.Active? ==>
        var top := old(open)[|old(open)| - 1];
        open == Popped(old(open), finishNow)
                + [StartRecord(title, startNow, if |old(open)| >= 2 then top.memOff + top.memCurrent else 0)]
      ensures p.Active? ==> |open| == |old(open)|
      ensures p.Active? ==> StartOffset(open[..|open| - 1]) == open[|open| - 1].memOff
      ensures suppression == old(suppression)
    {
      if p.Active? {
        ghost var s := open;
        if |s| >= 2 {
          SplitContinuesBaseline(s, finishNow);
        }
        var oldData := Finish(finishNow, finishInternal);
        ghost var popped := open;
        var q := Init(title, startNow, initInternal);
        if oldData.Some? {
          var n := |open|;
          assert open[n - 1].memOff == oldData.value.memOff + oldData.value.memCurrent;
          open := open[n - 1 := open[n - 1].(memOff := oldData.value.memOff + oldData.value.memCurrent)];
          assert open == popped + [StartRecord(title, startNow, StartOffset(popped))];
        }
      }
    }

    /** Logs a statistic into this phase's record, under a guard; nothing
        for the inert phase. */
    method LogStat(p: Phase, key: string, value: string, internal: seq<MemEvent>)
      requires Valid()
      requires p.Active? ==> p.level < |open|
      modifies this`open, this`suppression
      ensures Valid()
      ensures open == if p.Active? then old(open)[p.level := PhaseRecord.LogStat(old(open)[p.level], key, value)]
                      else old(open)
      ensures suppression == old(suppression)
    {
      if p.Active? {
        EnterGuard();
        ReportEvents(internal);
        ReplacedStackOk(open, p.level, PhaseRecord.LogStat(open[p.level], key, value));
        open := open[p.level := PhaseRecord.LogStat(open[p.level], key, value)];
        ExitGuard();
      }
    }

    /** Logs a statistic into the current phase, if there is one. */
    method Log(key: string, value: string, internal: seq<MemEvent>)
      requires Valid()
      modifies this`open, this`suppression
      ensures Valid()
      ensures open == if old(open) != []
                      then old(open)[|old(open)| - 1 := PhaseRecord.LogStat(old(open)[|old(open)| - 1], key, value)]
                      else old(open)
      ensures suppression == old(suppression)
    {
      if open != [] {
        LogStat(Active(|open| - 1), key, value, internal);
      }
    }

    /** Exports this phase's subtree, under a guard. For a started phase
        the end time is first stamped to `now`; the inert phase exports
        the empty document. */
    method ToJson(p: Phase, now: real, internal: seq<MemEvent>) returns (doc: Json)
      requires Valid()
      requires p.Active? ==> p.level < |open|
      modifies this`open, this`suppression
      ensures Valid()
      ensures p.Disabled? ==> doc == JNull && open == old(open)
      ensures p.Active? ==> open == old(open)[p.level := old(open)[p.level].(timeEnd := now)]
      ensures p.Active? ==> doc == PhaseRecord.ToJson(open[p.level])
      ensures suppression == old(suppression)
    {
      EnterGuard();
      ReportEvents(internal);
      if p.Active? {
        ReplacedStackOk(open, p.level, open[p.level].(timeEnd := now));
        open := open[p.level := open[p.level].(timeEnd := now)];
        doc := PhaseRecord.ToJson(open[p.level]);
      } else {
        doc := JNull;
      }
      ExitGuard();
    }
  }
}
