/**
 * The checkpoint and the agent's sequence buffer.
 *
 * A `Checkpoint` holds the merged value of every data item. The `Agent`
 * numbers every record it keeps with a global, consecutive sequence number
 * (starting at 1), keeps the most recent `capacity` records in a ring of
 * slots indexed by sequence number modulo the capacity, and keeps two
 * checkpoints: the latest one, for "current", and the one as of just before
 * the oldest retained record (with the sequence number of each data item's
 * latest record before it), from which "current at" a sequence number is
 * rebuilt by replaying the retained records.
 *
 * The ghost `History` is every record the agent ever appended, record `s`
 * at position `s - 1`.
 */
module Store {
  import opened Wrappers
  import opened Observations
  import Device
  import Tokenizer

  /** The checkpoint after the first `n + 1` records is the one after `n` records with record `n + 1` added. */
  lemma ReplayPrefixStep(h: seq<Observation>, n: nat)
    requires n < |h|
    ensures Replay(h[..n + 1]) == Record(Replay(h[..n]), h[n])
  {
    assert h[..n + 1] == h[..n] + [h[n]];
    ReplaySnoc(h[..n], h[n]);
  }

  /** The latest records after the first `n + 1` records are those after `n` records, with record `n + 1` the latest of its data item. */
  lemma LastRecordsPrefixStep(h: seq<Observation>, n: nat)
    requires n < |h|
    ensures LastRecords(h[..n + 1]) == LastRecords(h[..n])[h[n].dataItemId := n + 1]
  {
    assert h[..n + 1][..n] == h[..n];
  }

  /** The latest record of `id` among the first `at` records, as `LastRecordsSpec` states it of the whole prefix. */
  lemma LatestRecordAt(h: seq<Observation>, at: nat, id: string)
    requires at <= |h|
    ensures id in LastRecords(h[..at]) <==> id in Replay(h[..at])
    ensures id in LastRecords(h[..at]) ==>
      && 1 <= LastRecords(h[..at])[id] <= at
      && h[LastRecords(h[..at])[id] - 1].dataItemId == id
      && forall j :: LastRecords(h[..at])[id] <= j < at ==> h[j].dataItemId != id
  {
    var p := h[..at];
    LastRecordsSpec(p, id);
    assert forall j :: 0 <= j < at ==> p[j] == h[j];
  }

  /** No multiple of `n` lies strictly between 0 and `n`. */
  lemma MulGap(k: int, n: nat)
    ensures k * n <= 0 || k * n >= n
  {
    if k >= 1 {
      assert k * n == (k - 1) * n + n;
      assert (k - 1) * n >= 0;
    } else {
      assert k * n == -((-k) * n);
      assert (-k) * n >= 0;
    }
  }

  /** Two sequence numbers less than `n` apart never share a slot. */
  lemma SlotsDistinct(a: nat, b: nat, n: nat)
    requires 0 < n && b < a < b + n
    ensures a % n != b % n
  {
    var k := a / n - b / n;
    assert k * n == (a / n) * n - (b / n) * n;
    assert a - b == k * n + (a % n - b % n);
    MulGap(k, n);
  }

  class Checkpoint {
    var events: map<string, Value>

    ghost predicate Valid()
      reads this
    {
      forall id :: id in events ==> IsCurrent(events[id])
    }

    constructor()
      ensures events == map[] && Valid()
    {
      events := map[];
    }

    /** A copy of a checkpoint. */
    constructor Copy(from: map<string, Value>)
      ensures events == from
    {
      events := from;
    }

    /** Merges `o` into the value held for its data item; no other item changes. */
    method AddObservation(o: Observation)
      modifies this
      ensures events == Record(old(events), o)
      ensures old(Valid()) ==> Valid()
    {
      var prior := if o.dataItemId in events then Some(events[o.dataItemId]) else None;
      events := events[o.dataItemId := Merge(prior, o.discrete, o.value)];
    }

    /** The value held for a data item, if it has one. */
    function GetEvent(id: string): (r: Option<Value>)
      reads this
      ensures r.Some? <==> id in events
      ensures r.Some? ==> r.value == events[id]
      ensures Valid() && r.Some? ==> IsCurrent(r.value)
    {
      Get(events, id)
    }
  }

  datatype StoreError = BeforeFirst | AfterLast

  /** The data items of a registry as (id, discrete) pairs, in order. */
  function Points(items: seq<Device.DataItem>): (r: seq<(string, bool)>)
    ensures |r| == |items|
    ensures forall i :: 0 <= i < |items| ==> r[i] == (items[i].id, items[i].discrete)
  {
    seq(|items|, i requires 0 <= i < |items| => (items[i].id, items[i].discrete))
  }

  /**
   * The record `processData(key|raw)` appends when the checkpoint is `events`:
   * nothing for an unknown data item or a duplicate, otherwise the recorded
   * value of the payload for the item found by id, name or Source value.
   */
  function Intake(items: seq<Device.DataItem>, events: map<string, Value>, key: string, raw: string): (r: Option<Observation>)
    ensures Device.LookupDataItem(items, key).None? ==> r.None?
    ensures r.Some? ==>
      && Device.LookupDataItem(items, key).Some?
      && r.value.dataItemId == Device.LookupDataItem(items, key).value.id
      && r.value.discrete == Device.LookupDataItem(items, key).value.discrete
    ensures r.Some? ==> r.value.value.DataSetValue? && r.value.value.resetTriggered == Tokenizer.Tokenize(raw).resetTriggered
  {
    match Device.LookupDataItem(items, key)
    case None => None
    case Some(d) =>
      match Ingest(Get(events, d.id), d.discrete, Parse(raw))
      case None => None
      case Some(v) => Some(Observation(d.id, d.discrete, v))
  }

  function AsSeq(o: Option<Observation>): seq<Observation> {
    if o.Some? then [o.value] else []
  }

  /** Intake keeps the checkpoint what merging the raw payload would make it; a dropped payload would change no entry. */
  lemma IntakeLossless(items: seq<Device.DataItem>, h: seq<Observation>, key: string, raw: string)
    requires Device.LookupDataItem(items, key).Some?
    ensures var d := Device.LookupDataItem(items, key).value;
      var raw' := Observation(d.id, d.discrete, Parse(raw));
      match Intake(items, Replay(h), key, raw)
      case Some(o) => Record(Replay(h), o) == Record(Replay(h), raw')
      case None => !d.discrete && Merge(Get(Replay(h), d.id), false, Parse(raw)).entries == Base(Get(Replay(h), d.id))
  {
    var d := Device.LookupDataItem(items, key).value;
    var prior := Get(Replay(h), d.id);
    ReplayCurrent(h);
    IngestDuplicate(prior, d.discrete, Parse(raw));
    if Ingest(prior, d.discrete, Parse(raw)).Some? {
      IngestLossless(prior, d.discrete, Parse(raw));
    }
  }

  class Agent {
    const capacity: nat
    const items: seq<Device.DataItem>
    var slots: array<Observation>
    var first: nat
    var sequence: nat
    var firstCheckpoint: map<string, Value>
    var firstSequences: map<string, nat>
    var checkpoint: Checkpoint
    ghost var History: seq<Observation>

    ghost predicate Valid()
      reads this, slots, checkpoint
    {
      && 0 < capacity && slots.Length == capacity
      && sequence == |History| + 1
      && 1 <= first <= sequence && sequence - first <= capacity
      && (forall s :: first <= s < sequence ==> slots[s % capacity] == History[s - 1])
      && firstCheckpoint == Replay(History[..first - 1])
      && firstSequences == LastRecords(History[..first - 1])
      && checkpoint.events == Replay(History)
    }

    /** Drops the oldest record of a full ring, moving the first checkpoint past it. */
    method Evict()
      requires Valid() && sequence - first == capacity
      modifies this
      ensures Valid()
      ensures first == old(first) + 1 && History == old(History) && sequence == old(sequence)
      ensures slots == old(slots) && checkpoint == old(checkpoint)
    {
      ReplayPrefixStep(History, first - 1);
      LastRecordsPrefixStep(History, first - 1);
      firstCheckpoint := Record(firstCheckpoint, slots[first % capacity]);
      firstSequences := firstSequences[slots[first % capacity].dataItemId := first];
      first := first + 1;
    }

    /** Appends `o` as record number `sequence`, dropping the oldest record when the ring is full, and merges it into the checkpoint. */
    method AddToBuffer(o: Observation)
      requires Valid()
      modifies this, slots, checkpoint
      ensures Valid()
      ensures History == old(History) + [o] && sequence == old(sequence) + 1
      ensures first == (if old(sequence - first) == capacity then old(first) + 1 else old(first))
      ensures slots == old(slots) && checkpoint == old(checkpoint)
    {
      if sequence - first == capacity {
        Evict();
      }
      Append(o);
    }

    /** Stores `o` in the slot of record number `sequence` of a ring that is not full and merges it into the checkpoint. */
    method Append(o: Observation)
      requires Valid() && sequence - first < capacity
      modifies this, slots, checkpoint
      ensures Valid()
      ensures History == old(History) + [o] && sequence == old(sequence) + 1 && first == old(first)
      ensures slots == old(slots) && checkpoint == old(checkpoint)
    {
      ghost var h := History + [o];
      assert h[..first - 1] == History[..first - 1];
      ReplaySnoc(History, o);
      ghost var before := slots[..];
      slots[sequence % capacity] := o;
      forall s | first <= s < sequence + 1
        ensures slots[s % capacity] == h[s - 1]
      {
        if s < sequence {
          SlotsDistinct(sequence, s, capacity);
          assert slots[s % capacity] == before[s % capacity];
        }
      }
      checkpoint.AddObservation(o);
      sequence := sequence + 1;
      History := h;
    }

    /** An agent for the data items `items`, with room for `capacity` records; each item starts with an UNAVAILABLE record. */
    constructor(capacity: nat, items: seq<Device.DataItem>)
      requires 0 < capacity
      ensures Valid() && fresh(slots) && fresh(checkpoint)
      ensures this.capacity == capacity && this.items == items
      ensures History == InitialRecords(Points(items)) && sequence == |items| + 1
      ensures forall i :: 0 <= i < |items| ==> Current(items[i].id) == Some(Unavailable)
    {
      this.capacity := capacity;
      this.items := items;
      slots := new Observation[capacity](_ => Observation([], false, Unavailable));
      first := 1;
      sequence := 1;
      firstCheckpoint := map[];
      firstSequences := map[];
      checkpoint := new Checkpoint();
      History := [];
      new;
      AddUnavailable();
      InitialUnavailable(Points(items));
    }

    /** Appends an UNAVAILABLE record for each data item, in order. */
    method AddUnavailable()
      requires Valid()
      modifies this, slots, checkpoint
      ensures Valid() && slots == old(slots) && checkpoint == old(checkpoint)
      ensures History == old(History) + InitialRecords(Points(items))
    {
      ghost var initial := InitialRecords(Points(items));
      ghost var h0 := History;
      var i := 0;
      while i < |items|
        invariant 0 <= i <= |items|
        invariant Valid() && slots == old(slots) && checkpoint == old(checkpoint)
        invariant History == h0 + initial[..i]
      {
        ghost var o := initial[i];
        assert initial[..i + 1] == initial[..i] + [o];
        AddToBuffer(Observation(items[i].id, items[i].discrete, Unavailable));
        i := i + 1;
      }
      assert initial[..i] == initial;
    }

    /** The next sequence number: one past the number of records made so far. */
    function GetSequence(): (r: nat)
      reads this, slots, checkpoint
      ensures Valid() ==> r == |History| + 1
    {
      sequence
    }

    /**
     * Handles the payload `raw` sent for the data item with id, name or Source
     * value `key`. Returns whether a record was appended.
     */
    method ProcessData(key: string, raw: string) returns (recorded: bool)
      requires Valid()
      modifies this, slots, checkpoint
      ensures Valid()
      ensures History == old(History) + AsSeq(Intake(items, Replay(old(History)), key, raw))
      ensures recorded <==> Intake(items, Replay(old(History)), key, raw).Some?
      ensures sequence == old(sequence) + |AsSeq(Intake(items, Replay(old(History)), key, raw))|
    {
      var item := Device.LookupDataItem(items, key);
      if item.None? {
        return false;
      }
      var d := item.value;
      var rec := Ingest(checkpoint.GetEvent(d.id), d.discrete, Parse(raw));
      if rec.None? {
        return false;
      }
      AddToBuffer(Observation(d.id, d.discrete, rec.value));
      recorded := true;
    }

    /** The current value of data item `id`: what replaying every record gives. */
    function Current(id: string): (r: Option<Value>)
      requires Valid()
      reads this, slots, checkpoint
      ensures r == Get(Replay(History), id)
    {
      checkpoint.GetEvent(id)
    }

    /**
     * The value data item `id` had just after record `at`, with the sequence
     * number of the item's latest record up to `at`: rebuilt from the checkpoint
     * before the oldest retained record by replaying the retained records up to
     * `at`. `at` must be a retained record.
     */
    method CurrentAt(id: string, at: nat) returns (r: Result<Option<(nat, Value)>, StoreError>)
      requires Valid()
      ensures r.Err? <==> at < first || at >= sequence
      ensures r == Err(BeforeFirst) <==> at < first
      ensures r.Ok? ==> (r.value.Some? <==> Get(Replay(History[..at]), id).Some?)
      ensures r.Ok? && r.value.Some? ==> Get(Replay(History[..at]), id) == Some(r.value.value.1)
      ensures r.Ok? && r.value.Some? ==>
        && 1 <= r.value.value.0 <= at
        && History[r.value.value.0 - 1].dataItemId == id
        && forall j :: r.value.value.0 <= j < at ==> History[j].dataItemId != id
    {
      if at < first {
        return Err(BeforeFirst);
      }
      if at >= sequence {
        return Err(AfterLast);
      }
      var cp, seqs := Rebuild(at);
      LatestRecordAt(History, at, id);
      var v := cp.GetEvent(id);
      if v.None? {
        return Ok(None);
      }
      r := Ok(Some((seqs[id], v.value)));
    }

    /**
     * The checkpoint just after retained record `at`, with the sequence number of
     * each data item's latest record: the first checkpoint with the retained
     * records up to `at` replayed onto it.
     */
    method Rebuild(at: nat) returns (cp: Checkpoint, seqs: map<string, nat>)
      requires Valid() && first <= at < sequence
      ensures cp.events == Replay(History[..at])
      ensures seqs == LastRecords(History[..at])
    {
      cp := new Checkpoint.Copy(firstCheckpoint);
      seqs := firstSequences;
      var s := first;
      while s <= at
        invariant first <= s <= at + 1
        invariant cp.events == Replay(History[..s - 1])
        invariant seqs == LastRecords(History[..s - 1])
      {
        ReplayPrefixStep(History, s - 1);
        LastRecordsPrefixStep(History, s - 1);
        cp.AddObservation(slots[s % capacity]);
        seqs := seqs[slots[s % capacity].dataItemId := s];
        s := s + 1;
      }
    }

    /**
     * Up to `count` records starting at sequence number `from`, each with its
     * sequence number. `from` must be retained, or the next sequence number.
     */
    method Sample(from: nat, count: nat) returns (r: Result<seq<(nat, Observation)>, StoreError>)
      requires Valid()
      ensures r.Err? <==> from < first || from > sequence
      ensures r == Err(BeforeFirst) <==> from < first
      ensures r.Ok? ==> |r.value| == if sequence - from < count then sequence - from else count
      ensures r.Ok? ==> forall i :: 0 <= i < |r.value| ==> r.value[i] == (from + i, History[from + i - 1])
    {
      if from < first {
        return Err(BeforeFirst);
      }
      if from > sequence {
        return Err(AfterLast);
      }
      var end := if sequence - from < count then sequence else from + count;
      var out: seq<(nat, Observation)> := [];
      var s := from;
      while s < end
        invariant from <= s <= end
        invariant |out| == s - from
        invariant forall i :: 0 <= i < |out| ==> out[i] == (from + i, History[from + i - 1])
      {
        out := out + [(s, slots[s % capacity])];
        s := s + 1;
      }
      r := Ok(out);
    }
  }
}
