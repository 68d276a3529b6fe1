/**
 * Data-set entry tables and the merge engine.
 *
 * A table maps each key to an entry: a value, or a tombstone that marks the
 * key as removed. The table an observation carries holds its payload's
 * entries (bare keys become tombstones); the current state of a point is a
 * table without tombstones. `Apply` merges a payload table into a state,
 * `Changes` is the delta that is recorded for it, and `Diff` is the
 * independent definition of what changed between two states.
 */
module DataSet {
  import opened Tokenizer

  datatype Entry = Entry(value: string, removed: bool)

  /** The entry a bare key denotes: an empty value marked removed. */
  const Tombstone := Entry([], true)

  type Table = map<string, Entry>

  /** A table that can be a current state: it holds no tombstones. */
  predicate IsState(t: Table) {
    forall k :: k in t ==> !t[k].removed
  }

  /** The number of entries in a table: the `count` attribute of a data set. */
  function Count(t: Table): nat {
    |t|
  }

  function EntryOf(tok: Token): Entry {
    match tok
    case Upsert(_, v) => Entry(v, false)
    case Remove(_) => Tombstone
  }

  /** The table a token list denotes: one entry per key, a later token for a key replacing an earlier one. */
  function FromTokens(ts: seq<Token>): Table
  {
    if ts == [] then map[] else FromTokens(ts[..|ts| - 1])[ts[|ts| - 1].key := EntryOf(ts[|ts| - 1])]
  }

  /** Merges a payload table into `base`: upserts set their key, tombstones remove theirs, other keys keep their entries. */
  function Apply(base: Table, p: Table): (r: Table)
    ensures IsState(base) ==> IsState(r)
  {
    map k | k in base.Keys + p.Keys && (k in p ==> !p[k].removed) :: if k in p then p[k] else base[k]
  }

  /**
   * The delta that is recorded when `p` is merged into `base`: the upserts whose
   * key is new or whose value differs, and a tombstone for each removed key that
   * was present. Removals of absent keys contribute nothing.
   */
  function Changes(base: Table, p: Table): (d: Table)
    ensures d.Keys <= p.Keys
  {
    map k | k in p && (if p[k].removed then k in base else k !in base || base[k] != p[k]) ::
      if p[k].removed then Tombstone else p[k]
  }

  /** What changed from state `a` to state `b`: the new or changed entries of `b`, and a tombstone for each key `b` lost. */
  function Diff(a: Table, b: Table): Table
  {
    map k | k in a.Keys + b.Keys && (k in b ==> k !in a || a[k] != b[k]) ::
      if k in b then b[k] else Tombstone
  }

  /** Applies one token to a state, as the merge does left to right. */
  function Step(m: Table, tok: Token): Table {
    match tok
    case Upsert(k, v) => m[k := Entry(v, false)]
    case Remove(k) => m - {k}
  }

  /** Applies the tokens of a payload to a state one after the other. */
  function ApplyTokens(m: Table, ts: seq<Token>): Table
    decreases |ts|
  {
    if ts == [] then m else ApplyTokens(Step(m, ts[0]), ts[1..])
  }

  // ----- Properties of the merge -----

  /** Keys the payload does not mention keep their entries. */
  lemma ApplyFrame(base: Table, p: Table, k: string)
    requires k !in p
    ensures k in Apply(base, p) <==> k in base
    ensures k in base ==> Apply(base, p)[k] == base[k]
  {
  }

  /** An upsert sets its key to the new value, whether the key was present or not. */
  lemma ApplyUpsert(base: Table, p: Table, k: string)
    requires k in p && !p[k].removed
    ensures k in Apply(base, p) && Apply(base, p)[k] == p[k]
  {
  }

  /** A tombstone removes its key. */
  lemma ApplyRemove(base: Table, p: Table, k: string)
    requires k in p && p[k].removed
    ensures k !in Apply(base, p)
  {
  }

  /** Without removals the state grows by exactly the number of new keys. */
  lemma ApplySize(base: Table, p: Table)
    requires IsState(p)
    ensures |Apply(base, p)| == |base| + |p.Keys - base.Keys|
  {
    var r := Apply(base, p);
    assert r.Keys == base.Keys + (p.Keys - base.Keys);
    assert base.Keys * (p.Keys - base.Keys) == {};
  }

  /** A reset (merging into the empty table) keeps exactly the payload's upserts. */
  lemma ApplyReset(p: Table)
    ensures IsState(p) ==> Apply(map[], p) == p
    ensures forall k :: k in Apply(map[], p) <==> k in p && !p[k].removed
  {
  }

  /** Recording only the delta loses nothing: merging the delta gives the state that merging the payload gives. */
  lemma ChangesLossless(base: Table, p: Table)
    requires IsState(base)
    ensures Apply(base, Changes(base, p)) == Apply(base, p)
  {
    var d := Changes(base, p);
    var l := Apply(base, d);
    var r := Apply(base, p);
    forall k | k in l
      ensures k in r && l[k] == r[k]
    {
    }
    forall k | k in r
      ensures k in l
    {
      if k in p && k !in d {
        assert k in base && base[k] == p[k];
      }
    }
  }

  /** The recorded delta is exactly the difference between the state before and after. */
  lemma ChangesIsDiff(base: Table, p: Table)
    requires IsState(base)
    ensures Changes(base, p) == Diff(base, Apply(base, p))
  {
    var d := Changes(base, p);
    var e := Diff(base, Apply(base, p));
    forall k | k in e
      ensures k in d
    {
    }
    assert d.Keys == e.Keys;
  }

  /** Merging the difference of two states into the first gives the second. */
  lemma DiffApply(a: Table, b: Table)
    requires IsState(a) && IsState(b)
    ensures Apply(a, Diff(a, b)) == b
  {
    var r := Apply(a, Diff(a, b));
    forall k | k in b
      ensures k in r
    {
    }
    assert r.Keys == b.Keys;
  }

  /** A payload is a duplicate (its delta is empty) exactly when merging it changes nothing. */
  lemma DuplicateIff(base: Table, p: Table)
    requires IsState(base)
    ensures Changes(base, p) == map[] <==> Apply(base, p) == base
  {
    var r := Apply(base, p);
    if Changes(base, p) == map[] {
      ChangesLossless(base, p);
      assert Apply(base, map[]) == base;
    } else {
      var k :| k in Changes(base, p);
      if p[k].removed {
        assert k !in r;
      } else {
        assert k !in base || r[k] != base[k];
      }
    }
  }

  /** Sending the same payload again is a duplicate. */
  lemma ChangesIdempotent(base: Table, p: Table)
    ensures Changes(Apply(base, p), p) == map[]
  {
  }

  lemma ApplyStep(base: Table, t: Table, tok: Token)
    requires IsState(base)
    ensures Apply(base, t[tok.key := EntryOf(tok)]) == Step(Apply(base, t), tok)
  {
    var l := Apply(base, t[tok.key := EntryOf(tok)]);
    var r := Step(Apply(base, t), tok);
    assert l.Keys == r.Keys;
  }

  lemma {:induction false} ApplyTokensSnoc(m: Table, ts: seq<Token>, tok: Token)
    ensures ApplyTokens(m, ts + [tok]) == Step(ApplyTokens(m, ts), tok)
    decreases |ts|
  {
    if ts == [] {
      assert [] + [tok] == [tok];
    } else {
      assert (ts + [tok])[1..] == ts[1..] + [tok];
      ApplyTokensSnoc(Step(m, ts[0]), ts[1..], tok);
    }
  }

  /** Merging the table of a payload is applying its tokens one by one, left to right: the last token for a key wins. */
  lemma {:induction false} ApplyFromTokens(base: Table, ts: seq<Token>)
    requires IsState(base)
    ensures Apply(base, FromTokens(ts)) == ApplyTokens(base, ts)
    decreases |ts|
  {
    if ts == [] {
      assert Apply(base, map[]) == base;
    } else {
      var init := ts[..|ts| - 1];
      var last := ts[|ts| - 1];
      ApplyFromTokens(base, init);
      ApplyStep(base, FromTokens(init), last);
      ApplyTokensSnoc(base, init, last);
      assert init + [last] == ts;
    }
  }

  /** A key no token mentions has no entry. */
  lemma {:induction false} FromTokensAbsent(ts: seq<Token>, k: string)
    requires forall i :: 0 <= i < |ts| ==> ts[i].key != k
    ensures k !in FromTokens(ts)
    decreases |ts|
  {
    if ts != [] {
      var init := ts[..|ts| - 1];
      assert forall i :: 0 <= i < |init| ==> init[i] == ts[i];
      FromTokensAbsent(init, k);
    }
  }

  /** Every token's key has an entry. */
  lemma {:induction false} FromTokensPresent(ts: seq<Token>, i: nat)
    requires i < |ts|
    ensures ts[i].key in FromTokens(ts)
    decreases |ts|
  {
    if i < |ts| - 1 {
      var init := ts[..|ts| - 1];
      assert init[i] == ts[i];
      FromTokensPresent(init, i);
    }
  }

  /** The keys of a payload's table are exactly the keys its tokens mention. */
  lemma FromTokensKeys(ts: seq<Token>)
    ensures forall k :: k in FromTokens(ts) <==> exists i :: 0 <= i < |ts| && ts[i].key == k
  {
    forall k | k in FromTokens(ts)
      ensures exists i :: 0 <= i < |ts| && ts[i].key == k
    {
      if forall i :: 0 <= i < |ts| ==> ts[i].key != k {
        FromTokensAbsent(ts, k);
      }
    }
    forall i | 0 <= i < |ts|
      ensures ts[i].key in FromTokens(ts)
    {
      FromTokensPresent(ts, i);
    }
  }

  /** A payload whose keys are distinct has one entry per token, each the entry its token denotes. */
  lemma {:induction false} FromTokensDistinct(ts: seq<Token>)
    requires forall i, j :: 0 <= i < j < |ts| ==> ts[i].key != ts[j].key
    ensures Count(FromTokens(ts)) == |ts|
    ensures forall i :: 0 <= i < |ts| ==> ts[i].key in FromTokens(ts) && FromTokens(ts)[ts[i].key] == EntryOf(ts[i])
    decreases |ts|
  {
    if ts != [] {
      var init := ts[..|ts| - 1];
      var last := ts[|ts| - 1];
      assert forall i :: 0 <= i < |init| ==> init[i] == ts[i];
      FromTokensDistinct(init);
      var t0 := FromTokens(init);
      FromTokensAbsent(init, last.key);
      assert |t0[last.key := EntryOf(last)]| == |t0| + 1;
      forall i | 0 <= i < |init|
        ensures ts[i].key in FromTokens(ts) && FromTokens(ts)[ts[i].key] == EntryOf(ts[i])
      {
        assert ts[i].key != last.key;
        assert init[i].key in t0 && t0[init[i].key] == EntryOf(init[i]);
      }
    }
  }
}
