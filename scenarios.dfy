/** Client code of the engine: what a caller can conclude from the
    contracts alone, for a few typical runs. */
module Scenarios {
  import opened JsonDoc
  import opened PhaseRecord
  import opened StatPhase
  import opened Attribution
  import opened CString
  import MallocCallback

  /** An allocation before any phase has started changes nothing. */
  method AllocBeforeAnyPhase()
  {
    var ctx := new StatContext();
    MallocCallback.OnAlloc(ctx, 100);
    MallocCallback.OnFree(ctx, 40);
    assert ctx.open == [] && ctx.suppression == 0;
  }

  /** One root phase with one allocation of 100 bytes. */
  method SingleAllocation(title: string)
  {
    var ctx := new StatContext();
    var root := ctx.Init(title, 0.0, []);
    assert |ctx.open| == 1 && ctx.open[0].memCurrent == 0 && ctx.open[0].memPeak == 0 && ctx.open[0].memOff == 0;
    MallocCallback.OnAlloc(ctx, 100);
    assert |ctx.open| == 1 && ctx.open[0].memCurrent == 100 && ctx.open[0].memPeak == 100 && ctx.open[0].memOff == 0;
    var doc := ctx.ToJson(root, 1.0, [Alloc(32)]);
    assert doc.fields["memOff"] == JInt(0);
    assert doc.fields["memPeak"] == JInt(100);
    assert doc.fields["memFinal"] == JInt(100);
    assert doc.fields["timeEnd"] == JFloat(1.0);
    var again := ctx.ToJson(root, 1.0, []);
    assert again == doc;
    ctx.Destroy(root, 2.0, []);
    assert ctx.open == [];
  }

  /** A root phase with 300 bytes allocated in it, and a sub-phase opened
      after that with 100 bytes allocated in it. */
  method OpenRootAndSub(t0: string, t1: string) returns (ctx: StatContext, sub: Phase)
    ensures fresh(ctx) && ctx.Valid() && ctx.suppression == 0 && !ctx.userPaused
    ensures |ctx.open| == 2 && sub == Active(1)
    ensures ctx.open[0].memOff == 0 && ctx.open[0].memCurrent == 400 && ctx.open[0].memPeak == 400
    ensures ctx.open[0].children == []
    ensures ctx.open[1].title == Stored(t1) && ctx.open[1].timeEnd == 0.0
    ensures ctx.open[1].memOff == 300 && ctx.open[1].memCurrent == 100 && ctx.open[1].memPeak == 100
  {
    ctx := new StatContext();
    var root := ctx.Init(t0, 0.0, []);
    MallocCallback.OnAlloc(ctx, 300);
    assert |ctx.open| == 1 && ctx.open[0].memCurrent == 300 && ctx.open[0].memPeak == 300;
    sub := ctx.Init(t1, 1.0, [Alloc(64)]);
    assert |ctx.open| == 2 && ctx.open[0].memCurrent == 300 && ctx.open[0].memPeak == 300;
    assert ctx.open[1].memOff == 300 && ctx.open[1].memCurrent == 0 && ctx.open[1].memPeak == 0;
    MallocCallback.OnAlloc(ctx, 100);
  }

  /** A sub-phase's allocation also reaches its parent: after the sub-phase
      finishes and the root frees its own 300 bytes, the root still holds
      the sub-phase's 100, and its peak is 400. */
  method NestedPhase(t0: string, t1: string)
  {
    var ctx, sub := OpenRootAndSub(t0, t1);
    ctx.Destroy(sub, 2.0, [Free(64)]);
    assert |ctx.open| == 1 && ctx.open[0].memCurrent == 400 && ctx.open[0].memPeak == 400;
    assert |ctx.open[0].children| == 1;
    var c := ctx.open[0].children[0];
    assert c.title == Stored(t1) && c.memOff == 300 && c.memCurrent == 100 && c.memPeak == 100;
    assert c.timeEnd == 2.0;
    MallocCallback.OnFree(ctx, 300);
    assert |ctx.open| == 1 && ctx.open[0].memCurrent == 100 && ctx.open[0].memPeak == 400;
    assert ctx.open[0].children == [c];
  }

  /** A split phase frees memory its predecessor allocated: the two are
      siblings, and the second continues the first's baseline. */
  method SplitFreesSiblingMemory(t0: string, t1: string, t2: string)
  {
    var ctx, sub := OpenRootAndSub(t0, t1);
    ctx.Split(sub, t2, 2.0, 2.5, [], [Alloc(16)]);
    assert |ctx.open| == 2 && ctx.open[0].memCurrent == 400 && ctx.open[0].memPeak == 400;
    assert ctx.open[1].memOff == 400 && ctx.open[1].memCurrent == 0 && ctx.open[1].memPeak == 0;
    assert |ctx.open[0].children| == 1;
    MallocCallback.OnFree(ctx, 100);
    assert |ctx.open| == 2 && ctx.open[0].memCurrent == 300 && ctx.open[0].memPeak == 400;
    assert ctx.open[1].memOff == 400 && ctx.open[1].memCurrent == -100 && ctx.open[1].memPeak == 0;
    assert |ctx.open[0].children| == 1;
    ctx.Destroy(sub, 3.0, []);
    assert |ctx.open| == 1 && |ctx.open[0].children| == 2;
    var c0, c1 := ctx.open[0].children[0], ctx.open[0].children[1];
    assert c0.title == Stored(t1) && c0.memCurrent == 100 && c0.memPeak == 100;
    assert c1.title == Stored(t2) && c1.memOff == 400 && c1.memCurrent == -100 && c1.memPeak == 0;
  }

  /** Paused tracking ignores an allocation; resumed tracking counts one. */
  method PauseAndResume(title: string, key: string, value: string)
  {
    var ctx := new StatContext();
    var root := ctx.Init(title, 0.0, []);
    ctx.PauseTracking();
    MallocCallback.OnAlloc(ctx, 500);
    assert |ctx.open| == 1 && ctx.open[0].memCurrent == 0 && ctx.open[0].memPeak == 0;
    ctx.ResumeTracking();
    MallocCallback.OnAlloc(ctx, 500);
    assert |ctx.open| == 1 && ctx.open[0].memCurrent == 500 && ctx.open[0].memPeak == 500;
    ctx.Log(key, value, [Alloc(8)]);
    assert |ctx.open| == 1 && ctx.open[0].memCurrent == 500 && |ctx.open[0].stats| == 1;
    ctx.Log(key, value, []);
    assert |ctx.open| == 1 && ctx.open[0].memCurrent == 500 && ctx.open[0].memPeak == 500;
    assert |ctx.open[0].stats| == 2;
    var doc := ctx.ToJson(root, 1.0, []);
    assert doc.fields["memFinal"] == JInt(500) && doc.fields["memPeak"] == JInt(500);
    assert |doc.fields["stats"].elems| == 2;
  }

  /** The inert phase changes nothing and exports the empty document. */
  method InertPhase(title: string)
  {
    var ctx := new StatContext();
    var root := ctx.Init(title, 0.0, []);
    var inert := Disabled;
    ctx.LogStat(inert, "k", "v", []);
    ctx.Split(inert, "t", 1.0, 1.5, [], []);
    var doc := ctx.ToJson(inert, 1.0, []);
    assert doc == JNull;
    ctx.Destroy(inert, 2.0, []);
    assert |ctx.open| == 1 && ctx.open[0].stats == [];
  }
}
