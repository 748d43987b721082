/** The record of one phase: its title, clock readings, memory counters,
    the user statistics logged into it and the records of its finished
    sub-phases, and the export of a record tree as a document. */
module PhaseRecord {
  import opened CString
  import opened JsonDoc

  /** One logged statistic, both halves as stored in 64-character buffers. */
  datatype Stat = Stat(key: string, value: string)

  /** A phase record. The list of stats models the `first_stat`/`next` chain
      and the list of children the `first_child`/`next_sibling` chain, both
      in chain order. */
  datatype PhaseData = PhaseData(
    title: string,
    timeStart: real,
    timeEnd: real,
    memOff: int,
    memCurrent: int,
    memPeak: int,
    stats: seq<Stat>,
    children: seq<PhaseData>)

  /** A freshly constructed record: no stats, no children (hence no first
      child and no next sibling). The scalar fields, which the constructor
      leaves uninitialised, are given zero; every phase start overwrites
      all of them. */
  function NewRecord(): (r: PhaseData)
    ensures r.stats == [] && r.children == []
  {
    PhaseData([], 0.0, 0.0, 0, 0, 0, [], [])
  }

  /** The title setter: stores at most the first 64 characters. */
  function SetTitle(d: PhaseData, title: string): (r: PhaseData)
    ensures r.title == Stored(title)
    ensures r.(title := d.title) == d
  {
    d.(title := Stored(title))
  }

  /** Logs one statistic: exactly one entry is added, at the end, whether
      or not the key was logged before; earlier entries stay as they are. */
  function LogStat(d: PhaseData, key: string, value: string): (r: PhaseData)
    ensures |r.stats| == |d.stats| + 1
    ensures r.stats[..|d.stats|] == d.stats
    ensures r.stats[|d.stats|] == Stat(Stored(key), Stored(value))
    ensures r.(stats := d.stats) == d
  {
    d.(stats := d.stats + [Stat(Stored(key), Stored(value))])
  }

  /** Attaches a finished record at the end of the child chain. */
  function AppendChild(d: PhaseData, child: PhaseData): (r: PhaseData)
    ensures |r.children| == |d.children| + 1
    ensures r.children[..|d.children|] == d.children
    ensures r.children[|d.children|] == child
    ensures r.(children := d.children) == d
  {
    d.(children := d.children + [child])
  }

  /** How many logged entries carry the key `k`. */
  function KeyCount(stats: seq<Stat>, k: string): (n: nat)
  {
    if stats == [] then 0
    else KeyCount(stats[..|stats| - 1], k) + (if stats[|stats| - 1].key == k then 1 else 0)
  }

  /** Logging a key that is already present adds a second entry for it. */
  lemma {:induction false} LogStatKeepsDuplicates(d: PhaseData, key: string, value: string)
    ensures KeyCount(LogStat(d, key, value).stats, Stored(key)) == KeyCount(d.stats, Stored(key)) + 1
  {
    var s := LogStat(d, key, value).stats;
    assert s[..|s| - 1] == d.stats;
  }

  // --- Export ---

  /** The keys of an exported phase object. */
  const PhaseKeys: set<string> :=
    {"title", "timeStart", "timeEnd", "memOff", "memPeak", "memFinal", "stats", "sub"}

  /** The `{key, value}` object of one statistic. */
  function StatToJson(s: Stat): (j: Json)
    ensures j.JObject? && j.fields.Keys == {"key", "value"}
    ensures j.fields["key"] == JString(s.key) && j.fields["value"] == JString(s.value)
  {
    JObject(map["key" := JString(s.key), "value" := JString(s.value)])
  }

  /** The document of a record and its whole subtree. */
  function ToJson(d: PhaseData): (j: Json)
    ensures j.JObject? && j.fields.Keys == PhaseKeys
    ensures j.fields["title"] == JString(d.title)
    ensures j.fields["timeStart"] == JFloat(d.timeStart)
    ensures j.fields["timeEnd"] == JFloat(d.timeEnd)
    ensures j.fields["memOff"] == JInt(d.memOff)
    ensures j.fields["memPeak"] == JInt(d.memPeak)
    ensures j.fields["memFinal"] == JInt(d.memCurrent)
    ensures j.fields["stats"].JArray? && |j.fields["stats"].elems| == |d.stats|
    ensures forall i :: 0 <= i < |d.stats| ==> j.fields["stats"].elems[i] == StatToJson(d.stats[i])
    ensures j.fields["sub"].JArray? && |j.fields["sub"].elems| == |d.children|
    ensures forall i :: 0 <= i < |d.children| ==> j.fields["sub"].elems[i] == ToJson(d.children[i])
  {
    JObject(map[
      "title" := JString(d.title),
      "timeStart" := JFloat(d.timeStart),
      "timeEnd" := JFloat(d.timeEnd),
      "memOff" := JInt(d.memOff),
      "memPeak" := JInt(d.memPeak),
      "memFinal" := JInt(d.memCurrent),
      "stats" := JArray(seq(|d.stats|, i requires 0 <= i < |d.stats| => StatToJson(d.stats[i]))),
      "sub" := JArray(seq(|d.children|, i requires 0 <= i < |d.children| => ToJson(d.children[i])))])
  }

  /** Reads a statistic back from its `{key, value}` object. */
  function StatFromJson(j: Json): (r: Option<Stat>)
    ensures r.Some? ==> StatToJson(r.value) == j
  {
    if j.JObject? && j.fields.Keys == {"key", "value"}
       && j.fields["key"].JString? && j.fields["value"].JString?
    then
      var r := Stat(j.fields["key"].s, j.fields["value"].s);
      assert StatToJson(r).fields == j.fields;
      Some(r)
    else None
  }

  /** Reads a record tree back from a document of the exported shape;
      `None` for any other document. */
  function FromJson(j: Json): (r: Option<PhaseData>)
  {
    if j.JObject? && j.fields.Keys == PhaseKeys
       && j.fields["title"].JString? && j.fields["timeStart"].JFloat?
       && j.fields["timeEnd"].JFloat? && j.fields["memOff"].JInt?
       && j.fields["memPeak"].JInt? && j.fields["memFinal"].JInt?
       && j.fields["stats"].JArray? && j.fields["sub"].JArray?
    then
      var st := j.fields["stats"].elems;
      var sub := j.fields["sub"].elems;
      if (forall i :: 0 <= i < |st| ==> StatFromJson(st[i]).Some?)
         && (forall i :: 0 <= i < |sub| ==> FromJson(sub[i]).Some?)
      then
        Some(PhaseData(
          j.fields["title"].s, j.fields["timeStart"].f, j.fields["timeEnd"].f,
          j.fields["memOff"].i, j.fields["memFinal"].i, j.fields["memPeak"].i,
          seq(|st|, i requires 0 <= i < |st| => StatFromJson(st[i]).value),
          seq(|sub|, i requires 0 <= i < |sub| => FromJson(sub[i]).value)))
      else None
    else None
  }

  datatype Option<T> = None | Some(value: T)

  /** The export loses nothing: reading an exported tree back gives the
      record tree that was exported. */
  lemma {:induction false} ExportRoundTrip(d: PhaseData)
    ensures FromJson(ToJson(d)) == Some(d)
    decreases d
  {
    var j := ToJson(d);
    var st := j.fields["stats"].elems;
    var sub := j.fields["sub"].elems;
    forall i | 0 <= i < |st| ensures StatFromJson(st[i]) == Some(d.stats[i]) {
    }
    forall i | 0 <= i < |sub| ensures FromJson(sub[i]) == Some(d.children[i]) {
      ExportRoundTrip(d.children[i]);
    }
    assert FromJson(j).value.stats == d.stats;
    assert FromJson(j).value.children == d.children;
  }

  /** Distinct record trees export to distinct documents. */
  lemma ExportInjective(a: PhaseData, b: PhaseData)
    ensures ToJson(a) == ToJson(b) ==> a == b
  {
    ExportRoundTrip(a);
    ExportRoundTrip(b);
  }

  /** Logging a statistic adds one pair at the end of the exported `stats`
      array and changes no other field of the document. */
  lemma LogStatExport(d: PhaseData, key: string, value: string)
    ensures ToJson(LogStat(d, key, value)).fields["stats"].elems
         == ToJson(d).fields["stats"].elems + [JObject(map["key" := JString(Stored(key)), "value" := JString(Stored(value))])]
    ensures ToJson(LogStat(d, key, value)).fields - {"stats"} == ToJson(d).fields - {"stats"}
  {
  }

  /** Attaching a child adds that child's own document at the end of the
      exported `sub` array and changes no other field of the document. */
  lemma AppendChildExport(d: PhaseData, child: PhaseData)
    ensures ToJson(AppendChild(d, child)).fields["sub"].elems
         == ToJson(d).fields["sub"].elems + [ToJson(child)]
    ensures ToJson(AppendChild(d, child)).fields - {"sub"} == ToJson(d).fields - {"sub"}
  {
  }

  /** Counters of a record are consistent: the peak is never below the
      running value and never negative. */
  predicate PeakOk(d: PhaseData)
  {
    d.memPeak >= d.memCurrent && d.memPeak >= 0
  }

  /** Every record of a tree has consistent counters. */
  ghost predicate WellFormed(d: PhaseData)
    decreases d
  {
    PeakOk(d) && forall i :: 0 <= i < |d.children| ==> WellFormed(d.children[i])
  }

  /** Attaching a well-formed child keeps a tree well-formed. */
  lemma AppendChildWellFormed(d: PhaseData, child: PhaseData)
    requires WellFormed(d) && WellFormed(child)
    ensures WellFormed(AppendChild(d, child))
  {
    var r := AppendChild(d, child);
    forall i | 0 <= i < |r.children| ensures WellFormed(r.children[i]) {
      if i < |d.children| { assert r.children[i] == d.children[i]; }
    }
  }
}
