# TudocompStats phase engine in Dafny

This project models the tracking engine of TudocompStats, a library that
measures an application in nested *statistics phases*. For each phase it
records:

- time and memory use;
- user statistics logged as key/value pairs;
- the records of its finished sub-phases.

It exports a phase tree as a structured document. The project proves
properties of the model.

Modules:

- `CString` (`c_string.dfy`) covers the 64-character buffers in which a
  record keeps its title, stat keys and stat values. It models what
  `strncpy` leaves in them (`StrncpyBuffer`) and the string a record
  stores (`Stored`). It also holds the terminator finding below.
- `JsonDoc` (`json_doc.dfy`) is the exported document. Objects are maps
  from key to value, because the library's JSON objects are ordered maps.
- `PhaseRecord` (`phase_data.dfy`) is the record of one phase, as a
  value:
  - the title;
  - start and end time;
  - the counters `memOff` (baseline), `memCurrent` (running value) and
    `memPeak`;
  - the list of stats, in the order of the `first_stat`/`next` chain;
  - the list of children, in the order of the `first_child`/`next_sibling`
    chain.

  It also holds the title setter, stat logging, child attachment, the
  recursive export and its inverse (`FromJson`).
- `Attribution` (`attribution.dfy`) is what one allocator event does to
  one record and to the stack of open records. It holds the stack
  invariant `StackOk` and what a run of events leaves behind.
- `StatPhase` (`stat_phase.dfy`) is the engine. A `StatContext` object
  holds the three process-wide globals:
  - the open phases, as a stack of records, root first. The last record
    belongs to the current phase (`s_current`), and the record before each
    one belongs to its parent (`m_parent`).
  - the suppression counter of the re-entrancy guard;
  - the user pause flag.

  A phase object is `Phase`: either `Disabled` (the inert phase the
  default constructor makes) or `Active(level)`, whose record is
  `open[level]`. The operations are methods that change the context:
  - init, finish, the destructor, split;
  - track_alloc and track_free;
  - pause and resume;
  - log and log_stat;
  - to_json.

  Their contracts tie the new stack to pure functions of the old one
  (`StartRecord`, `Popped`, `AllOpen`, `ReplayOpen`). The invariant
  `Valid()` (= `StackOk`) is kept by every operation. It says two things.
  Every open record tree has `memPeak >= memCurrent` and `memPeak >= 0`.
  Every phase's `memOff` plus its `memCurrent` equals its parent's
  `memCurrent`.
- `MallocCallback` (`malloc_callback.dfy`) holds the two entry points the
  allocation hook calls.
- `Scenarios` (`scenarios.dfy`) contains client methods. They derive,
  from the contracts alone, the counters and documents of a few typical
  runs:
  - one allocation in a root;
  - a nested phase;
  - a split phase freeing its predecessor's memory;
  - pause and resume;
  - the inert phase.

Time is a `real` parameter `now`; it is not read from a clock. Each
clock reading of the source is a parameter of its own: `Split`, which
reads the clock once when finishing and once when starting, takes two.

The guard suppresses the allocations the engine's own bookkeeping makes,
such as node allocations and string copies. Every guarded operation
therefore takes those allocator events as a parameter `internal`. It
reports them to the tracker while its guard is active. The contracts show
that they change nothing.

Two results differ from what one might expect; the model follows the
code:

- **Nested phase.** A root allocates 300 bytes, a sub-phase allocates 100
  and closes, and the root frees the 300. One might expect the root to
  end with `memPeak=300` and `memFinal=0`, as if the sub-phase's bytes
  were its own. In the code every allocation also reaches every ancestor
  (`StatPhase.hpp:86`), so the root ends with `memPeak=400` and
  `memFinal=100`. `Scenarios.NestedPhase` derives these values.
- **Record of a finished root.** One might expect the record of a
  finished root to stay available to the caller. The code deletes it
  (`m_data.reset()`, `StatPhase.hpp:150`), so `Finish` returns `None` for
  a root and drops its record.

Choices the source leaves open:

- **`append_child`** is called at `StatPhase.hpp:147` but is not defined
  in `PhaseData.hpp`. It is modelled as appending at the end of the child
  chain (`PhaseRecord.AppendChild`). That is the order in which the
  export walks the children.
- **Global names.** `StatPhase.cpp` defines the counter as
  `s_pause_guard_state` and the flag as `s_track_memory = false`. The
  header declares them as `s_suppress_memory_tracking_state` and
  `s_user_disabled_memory_tracking`. The model starts with counter 0 and
  "not paused". Reading the flag as "paused" would mean nothing is ever
  tracked until `resume_tracking` is called.
- **Pause flag.** It is not reset when a phase ends. Neither the
  destructor nor `finish` clears it, even though a comment says pausing
  lasts until the phase object is destroyed.
- **`abort()` on a missing record** (`StatPhase.hpp:82`, `:92`). It cannot
  happen in this model: every open phase is an entry of the stack and has
  a record.
- **Constructor scalars.** The record constructor leaves the scalar
  fields uninitialised; `NewRecord` gives them 0. Every phase start
  overwrites all of them.

## Model

| member | source | states |
|---|---|---|
| CString.Copied | include/tudocomp_stat/PhaseData.hpp:66-67 | strncpy into `cap` characters copies a prefix of the input that is at most `cap` long and has no NUL; it stops only at the capacity, at the end of the input, or at a NUL |
| CString.Stored | include/tudocomp_stat/PhaseData.hpp:55-57 | a stored title, key or value is a NUL-free prefix of the input of at most 64 characters; an input without NUL of at most 64 characters is kept whole |
| CString.CopiedWhole | include/tudocomp_stat/PhaseData.hpp:56 | an input without NUL that fits the capacity is copied unchanged |
| CString.StoredIdempotent | include/tudocomp_stat/PhaseData.hpp:55-57 | storing a stored string again gives the same string |
| CString.StrncpyBuffer | include/tudocomp_stat/PhaseData.hpp:56 | the 64 buffer characters strncpy leaves: the copied characters, then NUL padding up to the buffer size |
| CString.CRead | include/tudocomp_stat/PhaseData.hpp:82 | `std::string(buf)` is the part of the buffer before its first NUL; it is defined only for a buffer that holds a NUL |
| CString.LongInputUnterminated | include/tudocomp_stat/PhaseData.hpp:56 | an input whose first 64 characters hold no NUL leaves a buffer with no terminator, so the read back is undefined |
| CString.SixtyFourCharsUnterminated | include/tudocomp_stat/PhaseData.hpp:66-67 | a concrete case: sixty-four 'a's leave the buffer unterminated |
| CString.BoundedRead | include/tudocomp_stat/PhaseData.hpp:82 | the read the 64-character buffer calls for: a NUL-free prefix of the buffer that ends at its first NUL or at its end |
| CString.BoundedReadAgrees | include/tudocomp_stat/PhaseData.hpp:93-94 | on a terminated buffer the bounded read gives the same string as `std::string(buf)` |
| CString.BoundedReadOfBuffer | include/tudocomp_stat/PhaseData.hpp:16 | for every input, the bounded read of the strncpy buffer is `Stored` of the input |
| PhaseRecord.NewRecord | include/tudocomp_stat/PhaseData.hpp:41-44 | a new record has no stats and no children, so no first child and no next sibling |
| PhaseRecord.SetTitle | include/tudocomp_stat/PhaseData.hpp:55-57 | the title becomes the stored form of the argument; nothing else changes |
| PhaseRecord.LogStat | include/tudocomp_stat/PhaseData.hpp:60-78 | exactly one entry is added, at the end, holding the stored key and value; earlier entries and all other fields are unchanged |
| PhaseRecord.AppendChild | include/tudocomp_stat/StatPhase.hpp:147 | the finished record becomes the last child; earlier children and all other fields are unchanged |
| PhaseRecord.LogStatKeepsDuplicates | include/tudocomp_stat/PhaseData.hpp:69-77 | logging a key that is already present adds one more entry with that key instead of replacing the old entry |
| PhaseRecord.StatToJson | include/tudocomp_stat/PhaseData.hpp:92-95 | a stat exports as an object whose only keys are `key` and `value`, holding the stored strings |
| PhaseRecord.StatFromJson | include/tudocomp_stat/PhaseData.hpp:92-95 | a stat read back from a document exports to exactly that document |
| PhaseRecord.ToJson | include/tudocomp_stat/PhaseData.hpp:80-109 | the document has exactly the keys title, timeStart, timeEnd, memOff, memPeak, memFinal, stats and sub; memFinal is `memCurrent`; `stats` has one pair per stat in logged order; `sub` has one element per child in chain order, and each element is that child's own document |
| PhaseRecord.ExportRoundTrip | include/tudocomp_stat/PhaseData.hpp:80-109 | reading the exported document back gives the record tree that was exported: the export loses nothing |
| PhaseRecord.ExportInjective | include/tudocomp_stat/PhaseData.hpp:80-109 | different record trees export to different documents |
| PhaseRecord.LogStatExport | include/tudocomp_stat/PhaseData.hpp:89-98 | logging a stat appends one `{key, value}` object to the exported `stats` array and changes no other field of the document |
| PhaseRecord.AppendChildExport | include/tudocomp_stat/PhaseData.hpp:100-106 | attaching a child appends the child's own document to the exported `sub` array and changes no other field |
| PhaseRecord.AppendChildWellFormed | include/tudocomp_stat/StatPhase.hpp:147 | attaching a tree with consistent counters to one with consistent counters keeps every peak at or above its running value and non-negative |
| Attribution.AfterAlloc | include/tudocomp_stat/StatPhase.hpp:84-85 | an allocation of n adds n to the running value; the peak becomes the larger of the old peak and the new running value; nothing else changes |
| Attribution.AfterFree | include/tudocomp_stat/StatPhase.hpp:94 | a free of n subtracts n from the running value; the peak and everything else are unchanged |
| Attribution.AfterEventPeakOk | include/tudocomp_stat/StatPhase.hpp:84-94 | both updates keep peak >= current and peak >= 0 |
| Attribution.AfterEventWellFormed | include/tudocomp_stat/StatPhase.hpp:84-94 | an event on the root of a consistent record tree keeps the tree consistent |
| Attribution.AllOpen | include/tudocomp_stat/StatPhase.hpp:80-97 | an event reaches the current phase and every ancestor: every open record takes the update |
| Attribution.AllOpenStackOk | include/tudocomp_stat/StatPhase.hpp:80-97 | an event reaching every open record keeps the stack invariant: consistent peaks, and each phase's baseline plus running value equals its parent's running value |
| Attribution.HighWater | include/tudocomp_stat/StatPhase.hpp:85 | the highest running value a run of events reaches is at least the start value and at least the end value |
| Attribution.HighWaterIsPrefixMax | include/tudocomp_stat/StatPhase.hpp:84-85 | the high-water value is the maximum of the running values after every prefix of the run: at least each of them, and equal to one of them |
| Attribution.ReplayCounters | include/tudocomp_stat/StatPhase.hpp:80-97 | after a run of events, a record's running value is its start plus the net bytes; its peak is the larger of the old peak and the highest running value reached; nothing else changes |
| Attribution.ReplayOpenPointwise | include/tudocomp_stat/StatPhase.hpp:86 | on the stack, each open record ends exactly as a replay of the same events on that record alone |
| Attribution.NestingTransparent | include/tudocomp_stat/StatPhase.hpp:80-97 | a sub-phase open while events happen leaves the enclosing records exactly as they would be without it |
| StatPhase.StartRecord | include/tudocomp_stat/StatPhase.hpp:121-129 | a started record has the stored title, start time `now`, end time 0, the given baseline, running value and peak 0, no stats and no children |
| StatPhase.FinishedTop | include/tudocomp_stat/StatPhase.hpp:139 | the finished record is the current record with its end time stamped to `now` |
| StatPhase.Popped | include/tudocomp_stat/StatPhase.hpp:144-154 | finishing removes the top record; the parent, if there is one, gets the finished record as its last child; a root's record is dropped; lower records are unchanged |
| StatPhase.PoppedStackOk | include/tudocomp_stat/StatPhase.hpp:138-157 | finishing the top phase keeps the stack invariant |
| StatPhase.PushedStackOk | include/tudocomp_stat/StatPhase.hpp:116-132 | starting a phase with the parent's running value as its baseline keeps the stack invariant |
| StatPhase.SplitContinuesBaseline | include/tudocomp_stat/StatPhase.hpp:286-288 | on a consistent stack with a parent, the baseline a new phase gets after the top one finishes equals the old phase's memOff plus memCurrent, the value split sets explicitly |
| StatPhase.ReplayOpenStackOk | include/tudocomp_stat/StatPhase.hpp:80-97 | any run of events keeps the stack invariant |
| StatPhase.StatContext.constructor | src/tudocomp_stat/StatPhase.cpp:8-10 | initially there is no current phase, the suppression counter is 0 and tracking is not paused |
| StatPhase.StatContext.IsSuppressed | include/tudocomp_stat/StatPhase.hpp:62-64 | a guard is active exactly when the suppression counter is non-zero; its effect is stated by `EnterGuard` and `ExitGuard` |
| StatPhase.StatContext.CurrentlyTrackingMemory | include/tudocomp_stat/StatPhase.hpp:75-78 | tracking is on exactly when no guard is active and the user has not paused; its effect is stated by the tracking methods, which change nothing while it is off |
| StatPhase.StatContext.EnterGuard | include/tudocomp_stat/StatPhase.hpp:56-58 | constructing a guard increments the suppression counter, after which a guard is active and no allocation is tracked |
| StatPhase.StatContext.ExitGuard | include/tudocomp_stat/StatPhase.hpp:59-61 | destroying a guard decrements the suppression counter; a guard is still active exactly when an enclosing one was entered before it |
| StatPhase.StatContext.TrackAllocInternal | include/tudocomp_stat/StatPhase.hpp:80-88 | with tracking on, the walk from the current phase up to the root applies the allocation to every open record; with tracking off nothing changes; the invariant is kept |
| StatPhase.StatContext.TrackFreeInternal | include/tudocomp_stat/StatPhase.hpp:90-97 | with tracking on, the free is subtracted from every open record and no peak changes; with tracking off nothing changes |
| StatPhase.StatContext.TrackAlloc | include/tudocomp_stat/StatPhase.hpp:207-209 | the allocation reaches every open record when there is a current phase and tracking is on; otherwise nothing changes |
| StatPhase.StatContext.TrackFree | include/tudocomp_stat/StatPhase.hpp:219-221 | the free reaches every open record when there is a current phase and tracking is on; otherwise nothing changes |
| StatPhase.StatContext.ReportEvents | include/tudocomp_stat/StatPhase.hpp:207-221 | events reported one after another leave the stack as the replay of the run when there is a current phase and tracking is on, and unchanged otherwise |
| StatPhase.StatContext.PauseTracking | include/tudocomp_stat/StatPhase.hpp:227-229 | the pause flag is set when there is a current phase; otherwise it is unchanged |
| StatPhase.StatContext.ResumeTracking | include/tudocomp_stat/StatPhase.hpp:235-237 | the pause flag is cleared when there is a current phase; otherwise it is unchanged |
| StatPhase.StatContext.Init | include/tudocomp_stat/StatPhase.hpp:116-132 | the started record is pushed and becomes current, so the previous current phase is its parent; its baseline is the parent's running value, or 0; the bookkeeping's own allocations are ignored; the suppression counter is restored |
| StatPhase.StatContext.Finish | include/tudocomp_stat/StatPhase.hpp:138-157 | the parent becomes current; a non-root record, with its end time stamped, becomes the parent's last child and is returned; a root's record is dropped and nothing is returned; the counter is restored |
| StatPhase.StatContext.Destroy | include/tudocomp_stat/StatPhase.hpp:269-273 | destroying a started phase finishes it; destroying the inert phase changes nothing |
| StatPhase.StatContext.Split | include/tudocomp_stat/StatPhase.hpp:281-290 | the old phase finishes, with its end time from the first clock reading, and a sibling starts in its place under the same parent, with its start time from the second reading; the sibling's baseline is the old memOff plus memCurrent when there was a parent and 0 for a root; the inert phase changes nothing |
| StatPhase.StatContext.LogStat | include/tudocomp_stat/StatPhase.hpp:300-305 | a started phase's record gets the stat appended, under a guard that ignores its own allocations and is restored; the inert phase changes nothing |
| StatPhase.StatContext.Log | include/tudocomp_stat/StatPhase.hpp:247-249 | the stat goes to the current phase when there is one; otherwise nothing changes |
| StatPhase.StatContext.ToJson | include/tudocomp_stat/StatPhase.hpp:312-321 | a started phase's end time is stamped to `now` and its record tree is exported, with counters untouched; the inert phase exports the empty document (`JNull`) and changes nothing |
| MallocCallback.OnAlloc | src/tudocomp_stat/StatPhase.cpp:12-14 | the hook's byte count goes unchanged to track_alloc |
| MallocCallback.OnFree | src/tudocomp_stat/StatPhase.cpp:16-18 | the hook's byte count goes unchanged to track_free |

## Left out

- The clock (`get_monotonic_time`, `current_time_millis`) is OS time with
  double arithmetic. It is replaced by the `now` parameter; the model
  only states where the start and end times are written.
- The JSON library is foreign code. The document is the `JsonDoc`
  datatype. Objects are unordered maps, so the key order of serialised
  text is not modelled.
- The `wrap` templates are lambda sugar around init, the body, and the
  destructor.
- CString.Stored: one Dafny `char` stands for one C `char`, that is, one
  byte of the encoded string. The 64-slot buffers therefore count
  characters here and bytes in the source. A string whose characters take
  several bytes each is cut at a different place than the source cuts it.
  For example, a NUL-free title of 40 'é' is 80 bytes in UTF-8: it fills
  the source's buffer without a terminator, but the model stores all 40
  characters.
- CString.StrncpyBuffer: its 64 cells are characters, standing for the
  64 bytes of the source's buffer, for the reason given for `Stored`.
- CString.LongInputUnterminated covers only inputs whose first 64
  characters hold no NUL. An input of fewer characters but at least 64
  bytes also leaves the source's buffer unterminated; with one character
  per byte, the model cannot express it.
- The `std::string` arguments that init and log_stat pass to the
  `const char*` parameters of the title setter and of the record's
  log_stat (`StatPhase.hpp:122`, `:303`) are read as their `.c_str()`.
  As shown, these calls would not compile without that conversion.
- Value formatting through `std::stringstream` is not modelled. Stat
  values are taken as strings that are already formatted.
- Ownership is not modelled: `unique_ptr`, the recursive `delete` in the
  record destructor, and freeing a root's record. Records are values, and
  a dropped record is simply no longer reachable.
- PhaseRecord.LogStat: the walk to the last node of the `next` chain and
  the relinking are not modelled step by step. The chain is a sequence,
  and the new node is appended at its end, which is where the walk puts
  it.
- Misuse is excluded by preconditions: a phase may only be finished or
  split while it is the current one. The code does not guard against a
  parent finishing before its child.
- The suppression counter is a `nat`. The 16-bit wrap-around of
  `uint16_t` is not modelled.
- The counters are `int`. The wrap-around of `ssize_t` and the conversion
  from `size_t` are not modelled.
- `StatPhaseExtension.hpp` is a virtual interface the engine never calls.
- `StatPhaseDummy.hpp` (the build without statistics) and `malloc.hpp`
  (the allocator interception) are not part of this model.
- There is no concurrency: a single context holds the one global stack.

## Findings

| source | as written | input that shows it | evidently intended | confidence | as-written member | corrected member |
|---|---|---|---|---|---|---|
| include/tudocomp_stat/PhaseData.hpp:56 | `strncpy(m_title, title, 64)` writes no terminator when the input has no NUL in its first 64 bytes (characters, one byte each, in the model); `std::string(m_title)` in the export then reads past the buffer. The same holds for stat keys and values (lines 66-67). | a title of sixty-four 'a' characters | the record keeps at most the first 64 characters and reads back exactly those | not executed | CString.SixtyFourCharsUnterminated | CString.BoundedReadOfBuffer |
