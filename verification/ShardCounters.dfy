/**
 * The per-shard counters of dp4_redis.py. A cooker adds to a counter by reading it and then writing the
 * sum, so the module models the read and the write as separate steps that cookers interleave.
 */
module ShardCounters {
  datatype Kind = Records | Commercial | Tvs

  /** The structured form of "<prefix>:<zoo>_<epoch>_<shard>". */
  datatype Key = Key(kind: Kind, zoo: string, epoch: int, shard: string)

  type Counters = map<Key, int>

  /** get_processed_count and its siblings: a missing key counts as zero. */
  function Get(counters: Counters, key: Key): int {
    if key in counters then counters[key] else 0
  }

  ghost function Total(counters: Counters, keys: set<Key>): int {
    if keys == {} then 0 else
      var k :| k in keys;
      Get(counters, k) + Total(counters, keys - {k})
  }

  lemma {:induction false} TotalSplit(counters: Counters, keys: set<Key>, k: Key)
    requires k in keys
    ensures Total(counters, keys) == Get(counters, k) + Total(counters, keys - {k})
  {
    var picked :| picked in keys && Total(counters, keys) == Get(counters, picked) + Total(counters, keys - {picked});
    if picked != k {
      TotalSplit(counters, keys - {picked}, k);
      TotalSplit(counters, keys - {k}, picked);
      assert keys - {picked} - {k} == keys - {k} - {picked};
    }
  }

  lemma {:induction false} TotalAdd(counters: Counters, keys: set<Key>, k: Key)
    requires k !in keys
    ensures Total(counters, keys + {k}) == Total(counters, keys) + Get(counters, k)
  {
    TotalSplit(counters, keys + {k}, k);
    assert keys + {k} - {k} == keys;
  }

  /** Keys that hold no counter add nothing. */
  lemma {:induction false} TotalOfPresent(counters: Counters, keys: set<Key>)
    ensures Total(counters, keys) == Total(counters, keys * counters.Keys)
  {
    if keys != {} {
      var k :| k in keys;
      TotalSplit(counters, keys, k);
      TotalOfPresent(counters, keys - {k});
      if k in counters {
        TotalSplit(counters, keys * counters.Keys, k);
        assert keys * counters.Keys - {k} == (keys - {k}) * counters.Keys;
      } else {
        assert keys * counters.Keys == (keys - {k}) * counters.Keys;
      }
    }
  }

  /** One record_* call: the counter it is for and the amount it adds. */
  datatype Call = Call(key: Key, amount: int)

  /** Everything the given calls recorded under the given keys. */
  function Recorded(calls: seq<Call>, keys: set<Key>): int {
    if calls == [] then 0
    else Recorded(calls[..|calls| - 1], keys) +
         (if calls[|calls| - 1].key in keys then calls[|calls| - 1].amount else 0)
  }

  lemma {:induction false} RecordedSplit(calls: seq<Call>, keys: set<Key>, k: Key)
    requires k in keys
    ensures Recorded(calls, keys) == Recorded(calls, {k}) + Recorded(calls, keys - {k})
  {
    if calls != [] {
      RecordedSplit(calls[..|calls| - 1], keys, k);
    }
  }

  /** A call between its read and its write. */
  datatype Pending = Pending(key: Key, amount: int, previous: int)

  /** Which counters a cooker writes. */
  datatype Slot = Slot(zoo: string, shard: string)

  datatype State = State(counters: Counters, pending: map<nat, Pending>, finished: seq<Call>)

  datatype Step =
    | Read(cooker: nat, kind: Kind, epoch: int, amount: int)
    | Write(cooker: nat)

  function KeyOf(slot: Slot, kind: Kind, epoch: int): Key {
    Key(kind, slot.zoo, epoch, slot.shard)
  }

  /** One atomic Redis access. A step of a cooker that cannot take it leaves the state alone. */
  function Next(owner: map<nat, Slot>, s: State, step: Step): State {
    match step
    case Read(c, kind, epoch, amount) =>
      if c !in owner || c in s.pending then s else
        var key := KeyOf(owner[c], kind, epoch);
        s.(pending := s.pending[c := Pending(key, amount, Get(s.counters, key))])
    case Write(c) =>
      if c !in s.pending then s else
        var p := s.pending[c];
        State(s.counters[p.key := p.amount + p.previous], s.pending - {c}, s.finished + [Call(p.key, p.amount)])
  }

  function Run(owner: map<nat, Slot>, s: State, steps: seq<Step>): State
    decreases |steps|
  {
    if steps == [] then s else Run(owner, Next(owner, s, steps[0]), steps[1..])
  }

  predicate Exclusive(owner: map<nat, Slot>) {
    forall c, d :: c in owner && d in owner && owner[c] == owner[d] ==> c == d
  }

  ghost predicate AmountsKept(s: State) {
    forall k :: Get(s.counters, k) == Recorded(s.finished, {k})
  }

  /** Every counter holds exactly what the finished calls recorded for it, and exists if there was one. */
  ghost predicate Conserved(s: State) {
    && AmountsKept(s)
    && forall k :: k in s.counters <==> exists c :: c in s.finished && c.key == k
  }

  const Empty := State(map[], map[], [])

  ghost predicate Invariant(owner: map<nat, Slot>, s: State) {
    && Conserved(s)
    && forall c :: c in s.pending ==>
         && c in owner
         && s.pending[c].key == KeyOf(owner[c], s.pending[c].key.kind, s.pending[c].key.epoch)
         && s.pending[c].previous == Get(s.counters, s.pending[c].key)
  }

  /** A write of a current pending read adds its amount to what was recorded. */
  lemma {:induction false} WriteKeepsAmounts(owner: map<nat, Slot>, s: State, c: nat)
    requires AmountsKept(s) && c in s.pending && s.pending[c].previous == Get(s.counters, s.pending[c].key)
    ensures AmountsKept(Next(owner, s, Write(c)))
  {
    var after := Next(owner, s, Write(c));
    assert after.finished[..|after.finished| - 1] == s.finished;
    forall k ensures Get(after.counters, k) == Recorded(after.finished, {k}) {
      assert Get(s.counters, k) == Recorded(s.finished, {k});
    }
  }

  lemma {:induction false} WriteKeepsExistence(owner: map<nat, Slot>, s: State, c: nat)
    requires Conserved(s) && c in s.pending
    ensures var after := Next(owner, s, Write(c));
            forall k :: k in after.counters <==> exists d :: d in after.finished && d.key == k
  {
    var p := s.pending[c];
    var after := Next(owner, s, Write(c));
    assert after.finished[|s.finished|] == Call(p.key, p.amount);
    assert forall d :: d in after.finished <==> d in s.finished || d == Call(p.key, p.amount);
    forall k ensures k in after.counters <==> exists d :: d in after.finished && d.key == k {
      assert k in s.counters <==> exists d :: d in s.finished && d.key == k;
    }
  }

  lemma {:induction false} NextKeepsInvariant(owner: map<nat, Slot>, s: State, step: Step)
    requires Exclusive(owner) && Invariant(owner, s)
    ensures Invariant(owner, Next(owner, s, step))
  {
    if step.Write? && step.cooker in s.pending {
      WriteKeepsAmounts(owner, s, step.cooker);
      WriteKeepsExistence(owner, s, step.cooker);
    }
  }

  lemma {:induction false} RunKeepsInvariant(owner: map<nat, Slot>, s: State, steps: seq<Step>)
    requires Exclusive(owner) && Invariant(owner, s)
    ensures Invariant(owner, Run(owner, s, steps))
    decreases |steps|
  {
    if steps != [] {
      NextKeepsInvariant(owner, s, steps[0]);
      RunKeepsInvariant(owner, Next(owner, s, steps[0]), steps[1..]);
    }
  }

  /** Two cookers that share a shard can lose an update: both read before either writes. */
  lemma {:induction false} SharedShardLosesUpdate(owner: map<nat, Slot>, c: nat, d: nat)
    requires c in owner && d in owner && owner[c] == owner[d] && c != d
    ensures !Conserved(Run(owner, Empty, [Read(c, Records, 0, 1), Read(d, Records, 0, 1), Write(c), Write(d)]))
  {
    var key := KeyOf(owner[c], Records, 0);
    var s1 := Next(owner, Empty, Read(c, Records, 0, 1));
    var s2 := Next(owner, s1, Read(d, Records, 0, 1));
    var s3 := Next(owner, s2, Write(c));
    var s4 := Next(owner, s3, Write(d));
    RunFour(owner, Read(c, Records, 0, 1), Read(d, Records, 0, 1), Write(c), Write(d));
    assert s2.pending == map[c := Pending(key, 1, 0), d := Pending(key, 1, 0)];
    assert s3.pending == map[d := Pending(key, 1, 0)] && s3.counters == map[key := 1];
    assert s4.counters == map[key := 1];
    assert s4.finished == [Call(key, 1), Call(key, 1)];
    assert s4.finished[..1] == [Call(key, 1)] && s4.finished[..1][..0] == [];
    assert Recorded([Call(key, 1)], {key}) == 1;
  }

  lemma {:induction false} RunFour(owner: map<nat, Slot>, a: Step, b: Step, c: Step, d: Step)
    ensures Run(owner, Empty, [a, b, c, d])
         == Next(owner, Next(owner, Next(owner, Next(owner, Empty, a), b), c), d)
  {
    var s := Next(owner, Next(owner, Empty, a), b);
    assert [a, b, c, d][1..] == [b, c, d] && [b, c, d][1..] == [c, d];
    assert [c, d][1..] == [d] && [d][1..] == [];
    assert Run(owner, Next(owner, s, c), [d]) == Next(owner, Next(owner, s, c), d);
    assert Run(owner, s, [c, d]) == Run(owner, Next(owner, s, c), [d]);
    assert Run(owner, Next(owner, Empty, a), [b, c, d]) == Run(owner, s, [c, d]);
  }

  /** No interleaving ever loses or invents an amount exactly when each cooker owns its shard alone. */
  lemma {:induction false} ConservedIffExclusive(owner: map<nat, Slot>)
    ensures (forall steps :: Conserved(Run(owner, Empty, steps))) <==> Exclusive(owner)
  {
    if Exclusive(owner) {
      forall steps ensures Conserved(Run(owner, Empty, steps)) {
        RunKeepsInvariant(owner, Empty, steps);
      }
    } else {
      var c, d :| c in owner && d in owner && owner[c] == owner[d] && c != d;
      SharedShardLosesUpdate(owner, c, d);
    }
  }

  /** A sum of counters is the sum of what was recorded under them. */
  lemma {:induction false} TotalIsRecorded(s: State, keys: set<Key>)
    requires Conserved(s)
    ensures Total(s.counters, keys) == Recorded(s.finished, keys)
  {
    if keys == {} {
      RecordedNothing(s.finished);
    } else {
      var k :| k in keys;
      TotalSplit(s.counters, keys, k);
      RecordedSplit(s.finished, keys, k);
      TotalIsRecorded(s, keys - {k});
    }
  }

  lemma {:induction false} RecordedNothing(calls: seq<Call>)
    ensures Recorded(calls, {}) == 0
  {
    if calls != [] {
      RecordedNothing(calls[..|calls| - 1]);
    }
  }
}
