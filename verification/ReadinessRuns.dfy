/** What the readiness store keeps over whole runs: watermarks are never overwritten and no count is lost. */
module ReadinessRuns {
  import opened Wrappers
  import opened Text
  import opened ReadinessInfo
  import opened ShardCounters
  import opened Readiness

  // ----- set_reported

  /**
   * set_reported writes a watermark for every eligible epoch or for none, and none exactly when there is
   * no eligible epoch or one of them has a watermark already. What it writes was not there before.
   */
  lemma {:induction false} AllOrNone(s: Store, zoo: string, rangeStart: int, rangeEnd: int, client: map<string,
                                     string>, createdTs: string)
    ensures var after := SetReportedSpec(s, zoo, rangeStart, rangeEnd, client, createdTs);
            var epochs := EligibleEpochs(s, zoo, rangeStart, rangeEnd);
            && (after == s.watermarks <==> epochs == {} || exists e :: e in epochs && e in s.watermarks)
            && (after != s.watermarks ==>
                  && after.Keys == s.watermarks.Keys + epochs
                  && forall e :: e in epochs ==>
                       e !in s.watermarks && after[e] == NewWatermark(s, e, client, createdTs))
            && forall e :: e in s.watermarks ==> e in after && after[e] == s.watermarks[e]
  {
    var after := SetReportedSpec(s, zoo, rangeStart, rangeEnd, client, createdTs);
    var epochs := EligibleEpochs(s, zoo, rangeStart, rangeEnd);
    if epochs !! s.watermarks.Keys {
      assert after.Keys == s.watermarks.Keys + epochs;
      if epochs != {} {
        var e :| e in epochs;
        assert e in after && e !in s.watermarks;
      }
    } else {
      var e :| e in epochs && e in s.watermarks;
    }
  }

  /**
   * An epoch is eligible exactly when it belongs to the zoo, ends in the range, has an info record that starts
   * before the range ends, and has a record or TV counter.
   */
  lemma {:induction false} EligibleIff(s: Store, zoo: string, rangeStart: int, rangeEnd: int, e: EpochKey)
    requires ValidInfos(s.infos)
    ensures e in EligibleEpochs(s, zoo, rangeStart, rangeEnd) <==>
            && e.zoo == zoo && rangeStart < e.epoch <= rangeEnd
            && e in s.infos && ParseInt(s.infos[e].startTs).Some? && ParseInt(s.infos[e].startTs).value < rangeEnd
            && exists kind, shard :: kind != Commercial && Key(kind, zoo, e.epoch, shard) in s.counters
  {
    var eligible := EligibleKeys(s, zoo, rangeStart, rangeEnd);
    if e in EpochsOf(eligible) {
      var k :| k in eligible && e == EpochKey(k.zoo, k.epoch);
      assert k == Key(k.kind, zoo, e.epoch, k.shard);
    }
    if kind, shard :| kind != Commercial && Key(kind, zoo, e.epoch, shard) in s.counters {
      if e.zoo == zoo && InRange(s.infos, e, rangeStart, rangeEnd) {
        assert Key(kind, zoo, e.epoch, shard) in eligible;
      }
    }
  }

  /**
   * Each watermark that a call adds carries the start of the info record, the metadata and the time stamp of the
   * call, and the sums of the record and the TV counters of its epoch, without a field where there is no counter.
   */
  lemma {:induction false} NewWatermarkHolds(s: Store, zoo: string, rangeStart: int, rangeEnd: int,
                                             client: map<string, string>, createdTs: string, e: EpochKey)
    requires ValidInfos(s.infos)
    requires e in SetReportedSpec(s, zoo, rangeStart, rangeEnd, client, createdTs) && e !in s.watermarks
    ensures var w := SetReportedSpec(s, zoo, rangeStart, rangeEnd, client, createdTs)[e];
            && e in s.infos && ParseInt(s.infos[e].startTs) == Some(w.startTs)
            && w.client == client && w.createdTs == createdTs
            && w.recordCount == SumOf(s.counters, Records, e) && w.tvCount == SumOf(s.counters, Tvs, e)
  {
    AllOrNone(s, zoo, rangeStart, rangeEnd, client, createdTs);
    EligibleIff(s, zoo, rangeStart, rangeEnd, e);
  }

  /** The sum of all counters of one kind of an epoch, whatever the shard, if there is one. */
  ghost function SumOf(counters: Counters, kind: Kind, e: EpochKey): Option<int> {
    var keys := set k | k in counters && k.kind == kind && k.zoo == e.zoo && k.epoch == e.epoch;
    if keys == {} then None else Some(Total(counters, keys))
  }

  /** Repeating a call, with whatever metadata and clock, changes nothing. */
  lemma {:induction false} RepeatChangesNothing(s: Store, zoo: string, rangeStart: int, rangeEnd: int,
                             client: map<string, string>, createdTs: string,
                             client': map<string, string>, createdTs': string)
    ensures var after := SetReportedSpec(s, zoo, rangeStart, rangeEnd, client, createdTs);
            SetReportedSpec(s.(watermarks := after), zoo, rangeStart, rangeEnd, client', createdTs') == after
  {
    var after := SetReportedSpec(s, zoo, rangeStart, rangeEnd, client, createdTs);
    var s' := s.(watermarks := after);
    assert EligibleKeys(s', zoo, rangeStart, rangeEnd) == EligibleKeys(s, zoo, rangeStart, rangeEnd);
    AllOrNone(s, zoo, rangeStart, rangeEnd, client, createdTs);
    AllOrNone(s', zoo, rangeStart, rangeEnd, client', createdTs');
  }

  datatype Operation =
    | Count(key: Key, amount: int)
    | PutInfo(at: EpochKey, call: InfoCall)
    | DropInfo(at: EpochKey)
    | Roll(zoo: string, rangeStart: int, rangeEnd: int, client: map<string, string>, createdTs: string)

  ghost function Apply(s: Store, op: Operation): (after: Store)
    requires ValidInfos(s.infos)
    ensures ValidInfos(after.infos)
  {
    match op
    case Count(key, amount) => s.(counters := s.counters[key := amount + Get(s.counters, key)])
    case PutInfo(at, call) =>
      RecordInfoStep(StoredInfo(s.infos, at), at.epoch, call);
      s.(infos := s.infos[at := RecordInfo(StoredInfo(s.infos, at), at.epoch, call).0.value])
    case DropInfo(at) => s.(infos := s.infos - {at})
    case Roll(zoo, rangeStart, rangeEnd, client, createdTs) =>
      s.(watermarks := SetReportedSpec(s, zoo, rangeStart, rangeEnd, client, createdTs))
  }

  ghost function RunAll(s: Store, ops: seq<Operation>): Store
    requires ValidInfos(s.infos)
    decreases |ops|
  {
    if ops == [] then s else RunAll(Apply(s, ops[0]), ops[1..])
  }

  /** Over any sequential run of calls a watermark, once written, stays as it is. */
  lemma {:induction false} WatermarksNeverOverwritten(s: Store, ops: seq<Operation>)
    requires ValidInfos(s.infos)
    ensures var after := RunAll(s, ops).watermarks;
            forall e :: e in s.watermarks ==> e in after && after[e] == s.watermarks[e]
    decreases |ops|
  {
    if ops != [] {
      var op := ops[0];
      if op.Roll? {
        AllOrNone(s, op.zoo, op.rangeStart, op.rangeEnd, op.client, op.createdTs);
      }
      WatermarksNeverOverwritten(Apply(s, op), ops[1..]);
    }
  }

  // ----- conservation

  /** Everything the calls recorded for an epoch of a zoo, whatever the shard. */
  function RecordedFor(calls: seq<Call>, kind: Kind, e: EpochKey): int {
    if calls == [] then 0 else
      var last := calls[|calls| - 1];
      RecordedFor(calls[..|calls| - 1], kind, e) +
      if last.key.kind == kind && last.key.zoo == e.zoo && last.key.epoch == e.epoch then last.amount else 0
  }

  lemma {:induction false} RecordedForIsRecorded(calls: seq<Call>, keys: set<Key>, kind: Kind, e: EpochKey)
    requires forall c :: c in calls && c.key.kind == kind && c.key.zoo == e.zoo && c.key.epoch == e.epoch ==>
               c.key in keys
    ensures Recorded(calls, CountsOf(keys, kind, e)) == RecordedFor(calls, kind, e)
  {
    if calls != [] {
      assert calls[|calls| - 1] in calls;
      RecordedForIsRecorded(calls[..|calls| - 1], keys, kind, e);
    }
  }

  /** The store holds the counters that an interleaved run of the cookers, each on its own shard, leaves. */
  ghost predicate Cooked(s: Store, owner: map<nat, Slot>, steps: seq<Step>) {
    Exclusive(owner) && s.counters == Run(owner, Empty, steps).counters
  }

  /** The shards with no finished call of a kind. */
  ghost predicate Silent(calls: seq<Call>, kind: Kind, e: EpochKey, shards: set<string>, silent: set<string>) {
    forall shard :: shard in silent <==>
      shard in shards && !exists c :: c in calls && c.key == Key(kind, e.zoo, e.epoch, shard)
  }

  lemma {:induction false} MissingAreSilent(after: State, kind: Kind, e: EpochKey, shards: set<string>)
    requires Conserved(after)
    ensures Silent(after.finished, kind, e, shards, Missing(after.counters, kind, e, shards))
  {
  }

  /**
   * After any interleaving of the cookers' calls the report sums exactly what was recorded for the epoch
   * by the shards in its info, and lists exactly the shards for which nothing was recorded.
   */
  lemma {:induction false} ReportConserves(s: Store, owner: map<nat, Slot>, steps: seq<Step>, e: EpochKey)
    requires Cooked(s, owner, steps) && GetInfo(s.infos, e).Some?
    ensures var calls := Run(owner, Empty, steps).finished;
            var shards := GetInfo(s.infos, e).value.shards;
            var r := ReportOf(s, e);
            && r.recordCount == Recorded(calls, ShardKeys(Records, e, shards))
            && r.commercialCount == Recorded(calls, ShardKeys(Commercial, e, shards))
            && r.tvCount == Recorded(calls, ShardKeys(Tvs, e, shards))
            && Silent(calls, Records, e, shards, r.shardsNotReporting)
            && Silent(calls, Commercial, e, shards, r.commercialNotReporting)
  {
    RunKeepsInvariant(owner, Empty, steps);
    var after := Run(owner, Empty, steps);
    var shards := GetInfo(s.infos, e).value.shards;
    TotalIsRecorded(after, ShardKeys(Records, e, shards));
    TotalIsRecorded(after, ShardKeys(Commercial, e, shards));
    TotalIsRecorded(after, ShardKeys(Tvs, e, shards));
    MissingAreSilent(after, Records, e, shards);
    MissingAreSilent(after, Commercial, e, shards);
  }

  /** The shards that report are those of the info that are not missing, and all do exactly when none is missing. */
  lemma {:induction false} ReportCountsShards(s: Store, e: EpochKey)
    requires GetInfo(s.infos, e).Some?
    ensures var shards := GetInfo(s.infos, e).value.shards;
            var r := ReportOf(s, e);
            && r.info == GetInfo(s.infos, e)
            && r.shardsNotReporting <= shards
            && r.reportingShards + |r.shardsNotReporting| == |shards|
            && (r.allShardsReporting <==> r.reportingShards >= |shards|)
            && (r.allShardsReporting <==> r.shardsNotReporting == {})
  {
    var shards := GetInfo(s.infos, e).value.shards;
    var missing := ReportOf(s, e).shardsNotReporting;
    assert shards == (shards - missing) + missing;
    assert |shards| == |shards - missing| + |missing|;
  }

  /** Without an info record the report has no info, no counts and no shards, and not all shards report. */
  lemma {:induction false} NothingToReport(s: Store, e: EpochKey)
    requires e !in s.infos
    ensures var r := ReportOf(s, e);
            && r.info == None && !r.allShardsReporting
            && r.recordCount == 0 && r.commercialCount == 0 && r.tvCount == 0 && r.reportingShards == 0
            && r.shardsNotReporting == {} && r.commercialNotReporting == {}
  {
  }

  /** A watermark written after such a run carries exactly what was recorded for its epoch, by any shard. */
  lemma {:induction false} WatermarkConserves(s: Store, owner: map<nat, Slot>, steps: seq<Step>, e: EpochKey,
                           client: map<string, string>, createdTs: string)
    requires Cooked(s, owner, steps) && GetInfo(s.infos, e).Some?
    ensures var calls := Run(owner, Empty, steps).finished;
            var w := NewWatermark(s, e, client, createdTs);
            && (w.recordCount.Some? ==> w.recordCount.value == RecordedFor(calls, Records, e))
            && (w.recordCount.None? ==> RecordedFor(calls, Records, e) == 0)
            && (w.tvCount.Some? ==> w.tvCount.value == RecordedFor(calls, Tvs, e))
            && (w.tvCount.None? ==> RecordedFor(calls, Tvs, e) == 0)
  {
    RunKeepsInvariant(owner, Empty, steps);
    CountFieldConserves(Run(owner, Empty, steps), Records, e);
    CountFieldConserves(Run(owner, Empty, steps), Tvs, e);
  }

  lemma CountFieldConserves(after: State, kind: Kind, e: EpochKey)
    requires Conserved(after)
    ensures var field := CountField(after.counters, after.counters.Keys, kind, e);
            && (field.Some? ==> field.value == RecordedFor(after.finished, kind, e))
            && (field.None? ==> RecordedFor(after.finished, kind, e) == 0)
  {
    var keys := CountsOf(after.counters.Keys, kind, e);
    TotalIsRecorded(after, keys);
    RecordedForIsRecorded(after.finished, after.counters.Keys, kind, e);
    if keys == {} {
      RecordedNothing(after.finished);
    }
  }

  lemma {:induction false} TotalDisjoint(counters: Counters, a: set<Key>, b: set<Key>)
    requires a !! b
    ensures Total(counters, a + b) == Total(counters, a) + Total(counters, b)
  {
    if b == {} {
      assert a + b == a;
    } else {
      var k :| k in b;
      TotalDisjoint(counters, a, b - {k});
      TotalSplit(counters, b, k);
      TotalSplit(counters, a + b, k);
      assert a + b - {k} == a + (b - {k});
    }
  }

  /**
   * A new watermark has both count fields exactly when its epoch has both a record and a TV counter. One that
   * lacks a field is deleted when readiness is next checked for a range it touches.
   */
  lemma {:induction false} WatermarkCompleteIff(s: Store, e: EpochKey, client: map<string, string>, createdTs: string)
    requires GetInfo(s.infos, e).Some?
    ensures var w := NewWatermark(s, e, client, createdTs);
            && (w.recordCount.Some? <==> exists shard :: Key(Records, e.zoo, e.epoch, shard) in s.counters)
            && (w.tvCount.Some? <==> exists shard :: Key(Tvs, e.zoo, e.epoch, shard) in s.counters)
  {
    FieldPresentIff(s.counters, Records, e);
    FieldPresentIff(s.counters, Tvs, e);
  }

  lemma {:induction false} FieldPresentIff(counters: Counters, kind: Kind, e: EpochKey)
    ensures CountField(counters, counters.Keys, kind, e).Some? <==>
            exists shard :: Key(kind, e.zoo, e.epoch, shard) in counters
  {
    var keys := CountsOf(counters.Keys, kind, e);
    if keys != {} {
      var k :| k in keys;
      assert k == Key(kind, e.zoo, e.epoch, k.shard);
    }
    if shard :| Key(kind, e.zoo, e.epoch, shard) in counters {
      assert Key(kind, e.zoo, e.epoch, shard) in keys;
    }
  }

  /** The field of a roll-up, with an absent one counting as zero. */
  function Amount(field: Option<int>): int {
    if field.Some? then field.value else 0
  }

  /** The counters of an epoch whose shards are not among the given ones. */
  ghost function Strays(counters: Counters, kind: Kind, e: EpochKey, shards: set<string>): set<Key> {
    CountsOf(counters.Keys, kind, e) - ShardKeys(kind, e, shards)
  }

  lemma {:induction false} ListedAndStrays(counters: Counters, kind: Kind, e: EpochKey, shards: set<string>)
    ensures Amount(CountField(counters, counters.Keys, kind, e)) ==
            Total(counters, ShardKeys(kind, e, shards)) + Total(counters, Strays(counters, kind, e, shards))
  {
    var listed, all := ShardKeys(kind, e, shards), CountsOf(counters.Keys, kind, e);
    TotalOfPresent(counters, listed);
    assert listed * counters.Keys == all * listed;
    TotalDisjoint(counters, all * listed, all - listed);
    assert all == all * listed + (all - listed);
  }

  /**
   * The watermark of an epoch and its report differ by exactly the counters of shards outside the info:
   * the roll-up sums every counter of the epoch, the report only those of listed shards.
   */
  lemma {:induction false} WatermarkExceedsReportByStrays(s: Store, e: EpochKey, client: map<string, string>,
                                                          createdTs: string)
    requires GetInfo(s.infos, e).Some?
    ensures var shards := GetInfo(s.infos, e).value.shards;
            var w, r := NewWatermark(s, e, client, createdTs), ReportOf(s, e);
            && Amount(w.recordCount) == r.recordCount + Total(s.counters, Strays(s.counters, Records, e, shards))
            && Amount(w.tvCount) == r.tvCount + Total(s.counters, Strays(s.counters, Tvs, e, shards))
  {
    ListedAndStrays(s.counters, Records, e, GetInfo(s.infos, e).value.shards);
    ListedAndStrays(s.counters, Tvs, e, GetInfo(s.infos, e).value.shards);
  }
}
