/** The allocator bridge: the two entry points the allocation hook calls,
    which pass the byte count unchanged to the engine. */
module MallocCallback {
  import opened Attribution
  import opened StatPhase

  /** An allocation reported by the hook. */
  method OnAlloc(ctx: StatContext, bytes: nat)
    requires ctx.Valid()
    modifies ctx`open
    ensures ctx.Valid()
    ensures ctx.open == if old(ctx.open) != [] && ctx.CurrentlyTrackingMemory()
                        then AllOpen(old(ctx.open), Alloc(bytes)) else old(ctx.open)
  {
    ctx.TrackAlloc(bytes);
  }

  /** A free reported by the hook. */
  method OnFree(ctx: StatContext, bytes: nat)
    requires ctx.Valid()
    modifies ctx`open
    ensures ctx.Valid()
    ensures ctx.open == if old(ctx.open) != [] && ctx.CurrentlyTrackingMemory()
                        then AllOpen(old(ctx.open), Free(bytes)) else old(ctx.open)
  {
    ctx.TrackFree(bytes);
  }
}
