/**
 * Data-set observations, the checkpoint merge and what the agent records.
 *
 * An observation of a data item is UNAVAILABLE or a data set: a table of
 * entries with the reset trigger the payload carried. The checkpoint keeps
 * one merged value per data item (`Merge`); the agent's buffer records, for
 * each payload, either nothing (a duplicate) or the delta (`Ingest`).
 * Replaying the recorded deltas through the merge rebuilds the checkpoint
 * (`Replay`, `IngestLossless`).
 */
module Observations {
  import opened Wrappers
  import opened Tokenizer
  import opened DataSet

  datatype Value = Unavailable | DataSetValue(resetTriggered: Option<string>, entries: Table)

  /** An observation of the data item `dataItemId`; `discrete` is that item's discrete flag. */
  datatype Observation = Observation(dataItemId: string, discrete: bool, value: Value)

  /** The value of a raw data-set payload: its reset trigger and the table of its tokens. */
  function Parse(raw: string): (v: Value)
    ensures v.DataSetValue?
    ensures v.resetTriggered == Tokenize(raw).resetTriggered
    ensures forall k :: k in v.entries <==> exists i :: 0 <= i < |Tokenize(raw).tokens| && Tokenize(raw).tokens[i].key == k
  {
    var p := Tokenize(raw);
    FromTokensKeys(p.tokens);
    DataSetValue(p.resetTriggered, FromTokens(p.tokens))
  }

  /** A written payload with distinct keys reads back as one entry per token, each the entry its token denotes: the `count` is the number of tokens. */
  lemma ParseRender(p: Tokens)
    requires WritablePayload(p)
    requires forall i, j :: 0 <= i < j < |p.tokens| ==> p.tokens[i].key != p.tokens[j].key
    ensures Parse(RenderPayload(p)).resetTriggered == p.resetTriggered
    ensures Count(Parse(RenderPayload(p)).entries) == |p.tokens|
    ensures forall i :: 0 <= i < |p.tokens| ==>
      p.tokens[i].key in Parse(RenderPayload(p)).entries && Parse(RenderPayload(p)).entries[p.tokens[i].key] == EntryOf(p.tokens[i])
  {
    TokenizeRender(p);
    FromTokensDistinct(p.tokens);
  }

  /** A payload that is a single word without `=` still gives exactly one entry: a removal of that word. */
  lemma ParseGarbage(g: string)
    requires g != [] && IsKey(g) && g[0] != ':'
    ensures Parse(g).entries == map[g := Tombstone]
    ensures Count(Parse(g).entries) == 1
  {
    assert g[0..] == g;
    LexGarbage(g);
    assert Parse(g).entries == FromTokens([Remove(g)]);
    assert [Remove(g)][..0] == [];
    assert FromTokens([Remove(g)]) == map[g := Tombstone];
    assert Parse(g).entries == map[g := Tombstone];
  }

  /** A value that can be held as current: a data set without tombstones. */
  predicate IsCurrent(v: Value) {
    v.DataSetValue? ==> IsState(v.entries)
  }

  /** The entries a new payload is merged onto: those of the prior value, or none where there is no prior data set. */
  function Base(prior: Option<Value>): Table {
    if prior.Some? && prior.value.DataSetValue? then prior.value.entries else map[]
  }

  /**
   * The checkpoint merge: the value held for a data item after `v` arrives when
   * `prior` was held. A reset, a discrete item, or a prior that is missing or
   * UNAVAILABLE starts from the empty table; otherwise `v` is merged onto the
   * prior entries. The merged value carries `v`'s reset trigger.
   */
  function Merge(prior: Option<Value>, discrete: bool, v: Value): (r: Value)
    ensures (prior.Some? ==> IsCurrent(prior.value)) ==> IsCurrent(r)
    ensures r.Unavailable? <==> v.Unavailable?
    ensures r.DataSetValue? ==> r.resetTriggered == v.resetTriggered
  {
    match v
    case Unavailable => Unavailable
    case DataSetValue(reset, entries) =>
      if reset.Some? || discrete then DataSetValue(reset, Apply(map[], entries))
      else DataSetValue(reset, Apply(Base(prior), entries))
  }

  /** The value held for `id`, if any. */
  function Get(events: map<string, Value>, id: string): (r: Option<Value>)
    ensures r.Some? <==> id in events
    ensures r.Some? ==> r.value == events[id]
  {
    if id in events then Some(events[id]) else None
  }

  /** The checkpoint after observation `o` is added to `events`. */
  function Record(events: map<string, Value>, o: Observation): map<string, Value>
  {
    events[o.dataItemId := Merge(Get(events, o.dataItemId), o.discrete, o.value)]
  }

  /** The checkpoint built by adding the observations of `h` in order to an empty one. */
  function Replay(h: seq<Observation>): (r: map<string, Value>)
  {
    if h == [] then map[] else Record(Replay(h[..|h| - 1]), h[|h| - 1])
  }

  /**
   * What the agent records for a new value `v` of a data item whose checkpoint
   * holds `prior`: None for a duplicate, otherwise the value that goes into the
   * buffer. A discrete item or a reset records the payload's upserts in full;
   * otherwise only the changes are recorded, and a payload that changes nothing
   * is a duplicate. A repeated UNAVAILABLE of a non-discrete item is a duplicate.
   */
  function Ingest(prior: Option<Value>, discrete: bool, v: Value): (r: Option<Value>)
    ensures r.Some? ==> (r.value.Unavailable? <==> v.Unavailable?)
    ensures r.Some? && r.value.DataSetValue? ==> r.value.resetTriggered == v.resetTriggered
  {
    match v
    case Unavailable =>
      if !discrete && prior == Some(Unavailable) then None else Some(Unavailable)
    case DataSetValue(reset, entries) =>
      if discrete || reset.Some? then Some(DataSetValue(reset, Apply(map[], entries)))
      else
        var delta := Changes(Base(prior), entries);
        if delta == map[] then None else Some(DataSetValue(None, delta))
  }

  // ----- Properties -----

  lemma BaseCurrent(prior: Option<Value>)
    requires prior.Some? ==> IsCurrent(prior.value)
    ensures IsState(Base(prior))
  {
  }

  /** Merging the recorded value gives the checkpoint that merging the raw value gives: recording deltas loses nothing. */
  lemma IngestLossless(prior: Option<Value>, discrete: bool, v: Value)
    requires prior.Some? ==> IsCurrent(prior.value)
    requires Ingest(prior, discrete, v).Some?
    ensures Merge(prior, discrete, Ingest(prior, discrete, v).value) == Merge(prior, discrete, v)
  {
    BaseCurrent(prior);
    if v.DataSetValue? {
      ApplyReset(Apply(map[], v.entries));
      if !discrete && v.resetTriggered.None? {
        ChangesLossless(Base(prior), v.entries);
      }
    }
  }

  /**
   * A value is dropped as a duplicate exactly when the item is not discrete, the
   * value carries no reset, and merging it would leave the entries as they are
   * (or, for UNAVAILABLE, the item is already UNAVAILABLE).
   */
  lemma IngestDuplicate(prior: Option<Value>, discrete: bool, v: Value)
    requires prior.Some? ==> IsCurrent(prior.value)
    ensures Ingest(prior, discrete, v).None? <==>
      && !discrete
      && (v.Unavailable? ==> prior == Some(Unavailable))
      && (v.DataSetValue? ==> v.resetTriggered.None? && Apply(Base(prior), v.entries) == Base(prior))
  {
    BaseCurrent(prior);
    if v.DataSetValue? {
      DuplicateIff(Base(prior), v.entries);
    }
  }

  /** A recorded non-reset delta is the difference between the entries before and after the merge. */
  lemma IngestRecordsDiff(prior: Option<Value>, v: Value)
    requires prior.Some? ==> IsCurrent(prior.value)
    requires v.DataSetValue? && v.resetTriggered.None?
    requires Ingest(prior, false, v).Some?
    ensures Ingest(prior, false, v).value.entries == Diff(Base(prior), Merge(prior, false, v).entries)
  {
    BaseCurrent(prior);
    ChangesIsDiff(Base(prior), v.entries);
  }

  /** A discrete item records every payload with exactly that payload's upserts, whatever came before. */
  lemma IngestDiscrete(prior1: Option<Value>, prior2: Option<Value>, reset: Option<string>, entries: Table)
    ensures Ingest(prior1, true, DataSetValue(reset, entries)) == Ingest(prior2, true, DataSetValue(reset, entries))
    ensures Ingest(prior1, true, DataSetValue(reset, entries)) == Some(DataSetValue(reset, Apply(map[], entries)))
    ensures forall k :: k in Apply(map[], entries) <==> k in entries && !entries[k].removed
  {
    ApplyReset(entries);
  }

  /** A reset is always recorded, with all of its upserts, even when the result equals the prior state. */
  lemma IngestReset(prior: Option<Value>, discrete: bool, name: string, entries: Table)
    ensures Ingest(prior, discrete, DataSetValue(Some(name), entries)) == Some(DataSetValue(Some(name), Apply(map[], entries)))
    ensures Merge(prior, discrete, DataSetValue(Some(name), entries)).entries == Apply(map[], entries)
  {
  }

  /** Merging a non-reset payload onto a data set accumulates: keys the payload does not mention keep their entries. */
  lemma MergeAccumulates(prior: Value, v: Value, k: string)
    requires prior.DataSetValue? && IsCurrent(prior)
    requires v.DataSetValue? && v.resetTriggered.None? && k !in v.entries
    ensures k in Merge(Some(prior), false, v).entries <==> k in prior.entries
    ensures k in prior.entries ==> Merge(Some(prior), false, v).entries[k] == prior.entries[k]
  {
    ApplyFrame(prior.entries, v.entries, k);
  }

  /** Recording an observation gives its data item a value and leaves every other item as it was. */
  lemma RecordFrame(events: map<string, Value>, o: Observation, id: string)
    ensures o.dataItemId in Record(events, o)
    ensures id != o.dataItemId ==> (id in Record(events, o) <==> id in events)
    ensures id != o.dataItemId && id in events ==> Record(events, o)[id] == events[id]
  {
  }

  /** A replayed checkpoint holds a value for exactly the data items that have a record. */
  lemma {:induction false} ReplayKeys(h: seq<Observation>)
    ensures forall id :: id in Replay(h) <==> exists i :: 0 <= i < |h| && h[i].dataItemId == id
    decreases |h|
  {
    if h != [] {
      var init := h[..|h| - 1];
      ReplayKeys(init);
      forall id | id in Replay(h)
        ensures exists i :: 0 <= i < |h| && h[i].dataItemId == id
      {
        if id != h[|h| - 1].dataItemId {
          assert id in Replay(init);
          var i :| 0 <= i < |init| && init[i].dataItemId == id;
          assert h[i] == init[i];
        }
      }
      forall i | 0 <= i < |h|
        ensures h[i].dataItemId in Replay(h)
      {
        if i < |init| {
          assert init[i] == h[i];
        }
      }
    }
  }

  lemma {:induction false} ReplaySnoc(h: seq<Observation>, o: Observation)
    ensures Replay(h + [o]) == Record(Replay(h), o)
  {
    assert (h + [o])[..|h|] == h;
  }

  /** Every value a replayed checkpoint holds can be current: merges never leave tombstones behind. */
  lemma {:induction false} ReplayCurrent(h: seq<Observation>)
    ensures forall id :: id in Replay(h) ==> IsCurrent(Replay(h)[id])
    decreases |h|
  {
    if h != [] {
      ReplayCurrent(h[..|h| - 1]);
    }
  }

  /** The sequence number (position, counting from 1) of the latest record of each data item in `h`. */
  function LastRecords(h: seq<Observation>): map<string, nat>
  {
    if h == [] then map[] else LastRecords(h[..|h| - 1])[h[|h| - 1].dataItemId := |h|]
  }

  /**
   * A data item has a latest record exactly when the replay holds a value for it;
   * that record is one of the item's and no later record is.
   */
  lemma {:induction false} LastRecordsSpec(h: seq<Observation>, id: string)
    ensures id in LastRecords(h) <==> id in Replay(h)
    ensures id in LastRecords(h) ==>
      && 1 <= LastRecords(h)[id] <= |h|
      && h[LastRecords(h)[id] - 1].dataItemId == id
      && forall j :: LastRecords(h)[id] <= j < |h| ==> h[j].dataItemId != id
    decreases |h|
  {
    if h != [] {
      var init := h[..|h| - 1];
      LastRecordsSpec(init, id);
      if id != h[|h| - 1].dataItemId && id in LastRecords(init) {
        var n := LastRecords(init)[id];
        assert LastRecords(h)[id] == n;
        assert h[n - 1] == init[n - 1];
        forall j | n <= j < |h|
          ensures h[j].dataItemId != id
        {
          if j < |init| {
            assert h[j] == init[j];
          }
        }
      }
    }
  }

  /** One UNAVAILABLE observation per data item, in order: what the agent records first. */
  function InitialRecords(ids: seq<(string, bool)>): (h: seq<Observation>)
    ensures |h| == |ids|
    ensures forall i :: 0 <= i < |ids| ==> h[i] == Observation(ids[i].0, ids[i].1, Unavailable)
  {
    if ids == [] then [] else InitialRecords(ids[..|ids| - 1]) + [Observation(ids[|ids| - 1].0, ids[|ids| - 1].1, Unavailable)]
  }

  /** After the initial records every data item is UNAVAILABLE. */
  lemma {:induction false} InitialUnavailable(ids: seq<(string, bool)>)
    ensures forall i :: 0 <= i < |ids| ==> Get(Replay(InitialRecords(ids)), ids[i].0) == Some(Unavailable)
    decreases |ids|
  {
    if ids != [] {
      var init := ids[..|ids| - 1];
      var last := Observation(ids[|ids| - 1].0, ids[|ids| - 1].1, Unavailable);
      var before := Replay(InitialRecords(init));
      InitialUnavailable(init);
      ReplaySnoc(InitialRecords(init), last);
      assert InitialRecords(ids) == InitialRecords(init) + [last];
      var after := Record(before, last);
      forall i | 0 <= i < |ids|
        ensures Get(after, ids[i].0) == Some(Unavailable)
      {
        if ids[i].0 != last.dataItemId {
          assert i < |init| && init[i] == ids[i];
        }
      }
    }
  }
}
