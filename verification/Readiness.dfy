/** The readiness store of dp4_redis.py: recording counts and info, reporting on an epoch, setting watermarks. */
module Readiness {
  import opened Wrappers
  import opened ReadinessInfo
  import opened ShardCounters

  /** "<zoo>_<epoch>", the key of an info hash and of a watermark. */
  datatype EpochKey = EpochKey(zoo: string, epoch: int)

  datatype Watermark = Watermark(startTs: int, recordCount: Option<int>, tvCount: Option<int>,
                                 client: map<string, string>, createdTs: string)

  type Infos = map<EpochKey, InfoHash>
  type Watermarks = map<EpochKey, Watermark>

  datatype Store = Store(counters: Counters, infos: Infos, watermarks: Watermarks)

  ghost predicate ValidInfos(infos: Infos) {
    forall e :: e in infos ==> ParseInfo(infos[e]).Some?
  }

  function StoredInfo(infos: Infos, e: EpochKey): Option<InfoHash> {
    if e in infos then Some(infos[e]) else None
  }

  /** get_info. */
  function GetInfo(infos: Infos, e: EpochKey): Option<Info> {
    if e in infos then ParseInfo(infos[e]) else None
  }

  // ----- report

  datatype Report = Report(info: Option<Info>, recordCount: int, commercialCount: int, tvCount: int,
                           reportingShards: nat, allShardsReporting: bool,
                           shardsNotReporting: set<string>, commercialNotReporting: set<string>)

  function ShardKeys(kind: Kind, e: EpochKey, shards: set<string>): set<Key> {
    set s | s in shards :: Key(kind, e.zoo, e.epoch, s)
  }

  function Missing(counters: Counters, kind: Kind, e: EpochKey, shards: set<string>): set<string> {
    set s | s in shards && Key(kind, e.zoo, e.epoch, s) !in counters
  }

  const NoReport := Report(None, 0, 0, 0, 0, false, {}, {})

  ghost function ReportOf(s: Store, e: EpochKey): Report {
    var info := GetInfo(s.infos, e);
    if info.None? then NoReport else
      var shards := info.value.shards;
      var missing := Missing(s.counters, Records, e, shards);
      Report(info, Total(s.counters, ShardKeys(Records, e, shards)),
             Total(s.counters, ShardKeys(Commercial, e, shards)), Total(s.counters, ShardKeys(Tvs, e, shards)),
             |shards - missing|, missing == {}, missing, Missing(s.counters, Commercial, e, shards))
  }

  // ----- set_reported

  /** A key the scan of the input store yields. */
  datatype InputKey = CounterKey(key: Key) | InfoKey(at: EpochKey)

  predicate InRange(infos: Infos, e: EpochKey, rangeStart: int, rangeEnd: int) {
    && rangeStart < e.epoch <= rangeEnd
    && GetInfo(infos, e).Some?
    && GetInfo(infos, e).value.startTs < rangeEnd
  }

  /** The counters of a zoo that a roll-up of the range sums. */
  ghost function EligibleKeys(s: Store, zoo: string, rangeStart: int, rangeEnd: int): set<Key> {
    set k | k in s.counters && k.zoo == zoo && k.kind != Commercial
            && InRange(s.infos, EpochKey(zoo, k.epoch), rangeStart, rangeEnd)
  }

  ghost function EpochsOf(keys: set<Key>): set<EpochKey> {
    set k | k in keys :: EpochKey(k.zoo, k.epoch)
  }

  ghost function CountsOf(keys: set<Key>, kind: Kind, e: EpochKey): set<Key> {
    set k | k in keys && k.kind == kind && k.zoo == e.zoo && k.epoch == e.epoch
  }

  /** The sum of an epoch's counters of one kind; the field is absent when there is no such counter. */
  ghost function CountField(counters: Counters, keys: set<Key>, kind: Kind, e: EpochKey): Option<int> {
    if CountsOf(keys, kind, e) == {} then None else Some(Total(counters, CountsOf(keys, kind, e)))
  }

  ghost function RollUp(s: Store, keys: set<Key>, e: EpochKey): Watermark
    requires GetInfo(s.infos, e).Some?
  {
    Watermark(GetInfo(s.infos, e).value.startTs,
              CountField(s.counters, keys, Records, e), CountField(s.counters, keys, Tvs, e), map[], "")
  }

  /** The watermark an eligible epoch gets: its info start and the sums of all its counters. */
  ghost function NewWatermark(s: Store, e: EpochKey, client: map<string, string>, createdTs: string): Watermark
    requires GetInfo(s.infos, e).Some?
  {
    RollUp(s, s.counters.Keys, e).(client := client, createdTs := createdTs)
  }

  ghost function NewWatermarks(s: Store, epochs: set<EpochKey>, client: map<string, string>,
                               createdTs: string): Watermarks
    requires forall e :: e in epochs ==> GetInfo(s.infos, e).Some?
  {
    map e | e in epochs :: NewWatermark(s, e, client, createdTs)
  }

  ghost function EligibleEpochs(s: Store, zoo: string, rangeStart: int, rangeEnd: int): (r: set<EpochKey>)
    ensures forall e :: e in r ==> GetInfo(s.infos, e).Some?
  {
    EpochsOf(EligibleKeys(s, zoo, rangeStart, rangeEnd))
  }

  /** All eligible epochs get their watermark, or none does because one of them already has one. */
  ghost function SetReportedSpec(s: Store, zoo: string, rangeStart: int, rangeEnd: int,
                                 client: map<string, string>, createdTs: string): Watermarks
  {
    var epochs := EligibleEpochs(s, zoo, rangeStart, rangeEnd);
    if epochs !! s.watermarks.Keys then
      s.watermarks + NewWatermarks(s, epochs, client, createdTs)
    else
      s.watermarks
  }

  /** A scan yields each key of the zoo once, in any order. */
  ghost predicate IsScan(s: Store, zoo: string, scan: seq<InputKey>) {
    && (forall i, j :: 0 <= i < j < |scan| ==> scan[i] != scan[j])
    && forall k :: k in scan <==>
         match k
         case CounterKey(key) => key in s.counters && key.zoo == zoo
         case InfoKey(at) => at in s.infos && at.zoo == zoo
  }

  lemma {:induction false} CountFieldAdd(counters: Counters, keys: set<Key>, k: Key, kind: Kind, e: EpochKey)
    requires k !in keys
    ensures CountField(counters, keys + {k}, kind, e) ==
            if k.kind == kind && k.zoo == e.zoo && k.epoch == e.epoch then
              match CountField(counters, keys, kind, e)
              case None => Some(Get(counters, k))
              case Some(n) => Some(n + Get(counters, k))
            else CountField(counters, keys, kind, e)
  {
    if k.kind == kind && k.zoo == e.zoo && k.epoch == e.epoch {
      assert CountsOf(keys + {k}, kind, e) == CountsOf(keys, kind, e) + {k};
      TotalAdd(counters, CountsOf(keys, kind, e), k);
    } else {
      assert CountsOf(keys + {k}, kind, e) == CountsOf(keys, kind, e);
    }
  }

  /** For an eligible epoch the eligible keys are all its record and TV counters. */
  lemma EligibleKeysSuffice(s: Store, zoo: string, rangeStart: int, rangeEnd: int, e: EpochKey)
    requires e in EligibleEpochs(s, zoo, rangeStart, rangeEnd)
    ensures RollUp(s, EligibleKeys(s, zoo, rangeStart, rangeEnd), e) == RollUp(s, s.counters.Keys, e)
  {
    var keys := EligibleKeys(s, zoo, rangeStart, rangeEnd);
    assert CountsOf(keys, Records, e) == CountsOf(s.counters.Keys, Records, e);
    assert CountsOf(keys, Tvs, e) == CountsOf(s.counters.Keys, Tvs, e);
  }

  class ReadinessStore {
    var counters: Counters
    var infos: Infos
    var watermarks: Watermarks

    ghost predicate Valid()
      reads this
    {
      ValidInfos(infos)
    }

    ghost function State(): Store
      reads this
    {
      Store(counters, infos, watermarks)
    }

    constructor ()
      ensures Valid() && State() == Store(map[], map[], map[])
    {
      counters, infos, watermarks := map[], map[], map[];
    }

    /** record_processed, record_commercial_processed and record_tv_count: read, add, write. */
    method RecordCount(kind: Kind, e: EpochKey, shard: string, amount: int) returns (setCount: int)
      requires Valid()
      modifies this`counters
      ensures setCount == Get(old(counters), Key(kind, e.zoo, e.epoch, shard)) + amount
      ensures counters == old(counters)[Key(kind, e.zoo, e.epoch, shard) := setCount]
    {
      var key := Key(kind, e.zoo, e.epoch, shard);
      var previousCount := if key in counters then counters[key] else 0;
      setCount := amount + previousCount;
      counters := counters[key := setCount];
    }

    /** record_info. */
    method RecordShardInfo(e: EpochKey, call: InfoCall) returns (ok: bool)
      requires Valid()
      modifies this`infos
      ensures Valid()
      ensures (StoredInfo(infos, e), ok) == RecordInfo(StoredInfo(old(infos), e), e.epoch, call)
      ensures infos - {e} == old(infos) - {e}
    {
      var info := GetInfo(infos, e);
      if info.Some? && !info.value.awsError && Young(info.value, call.checkedAt) {
        return true;
      }
      var awsDescribeError := |call.activeShards| == 0;
      if awsDescribeError && info.Some? && !info.value.awsError {
        return true;
      }
      InfoRoundTrip(e.epoch, call.batchSecs, call.createdAt, call.activeShards);
      infos := infos[e := EncodeInfo(e.epoch, call.batchSecs, call.createdAt, call.activeShards)];
      ok := !awsDescribeError;
    }

    /** The mget of one kind of counter over the info's shards: its sum, and the shards with no counter. */
    method ReadShards(kind: Kind, e: EpochKey, shards: set<string>) returns (total: int, missing: set<string>)
      ensures total == Total(counters, ShardKeys(kind, e, shards))
      ensures missing == Missing(counters, kind, e, shards)
    {
      total, missing := 0, {};
      var left := shards;
      while left != {}
        invariant left <= shards
        invariant total == Total(counters, ShardKeys(kind, e, shards - left))
        invariant missing == Missing(counters, kind, e, shards - left)
      {
        var shard :| shard in left;
        var key := Key(kind, e.zoo, e.epoch, shard);
        assert ShardKeys(kind, e, shards - (left - {shard})) == ShardKeys(kind, e, shards - left) + {key};
        TotalAdd(counters, ShardKeys(kind, e, shards - left), key);
        if key in counters {
          total := total + counters[key];
        } else {
          missing := missing + {shard};
        }
        left := left - {shard};
      }
      assert shards - left == shards;
    }

    method MakeReport(e: EpochKey) returns (r: Report)
      requires Valid()
      ensures r == ReportOf(State(), e)
    {
      var info := GetInfo(infos, e);
      if info.None? {
        return NoReport;
      }
      var shards := info.value.shards;
      var recordCount, shardsNotReporting := ReadShards(Records, e, shards);
      var commercialCount, commercialNotReporting := ReadShards(Commercial, e, shards);
      var tvCount, _ := ReadShards(Tvs, e, shards);
      var reportingShards := |shards - shardsNotReporting|;
      assert |shards| == |shards - shardsNotReporting| + |shardsNotReporting| by {
        assert shards == (shards - shardsNotReporting) + shardsNotReporting;
      }
      r := Report(info, recordCount, commercialCount, tvCount, reportingShards,
                  reportingShards >= |shards|, shardsNotReporting, commercialNotReporting);
    }

    /** The scan of set_reported, up to the first eligible key whose epoch already has a watermark. */
    method CollectOutputMaps(zoo: string, scan: seq<InputKey>, rangeStart: int, rangeEnd: int)
      returns (outputMaps: Watermarks, watermarkExists: bool)
      requires Valid()
      requires IsScan(State(), zoo, scan)
      ensures watermarkExists <==> !(EligibleEpochs(State(), zoo, rangeStart, rangeEnd) !! watermarks.Keys)
      ensures !watermarkExists ==> Collected(State(), EligibleKeys(State(), zoo, rangeStart, rangeEnd), outputMaps)
    {
      outputMaps, watermarkExists := map[], false;
      var i := 0;
      while i < |scan|
        invariant 0 <= i <= |scan|
        invariant outputMaps == CollectKeys(counters, infos, scan[..i], rangeStart, rangeEnd)
        invariant forall j :: 0 <= j < i ==> !Blocks(infos, watermarks, scan[j], rangeStart, rangeEnd)
      {
        assert scan[..i + 1][..i] == scan[..i];
        if scan[i].InfoKey? || scan[i].key.kind == Commercial {
          i := i + 1;
          continue;
        }
        var key := scan[i].key;
        var e := EpochKey(key.zoo, key.epoch);
        if !InRange(infos, e, rangeStart, rangeEnd) {
          i := i + 1;
          continue;
        }
        if e in watermarks {
          BlocksMeaning(State(), zoo, rangeStart, rangeEnd, scan);
          return map[], true;
        }
        assert scan[i] in scan;
        var hashMap := HashMap(infos, outputMaps, e);
        if key.kind == Records {
          hashMap := hashMap.(recordCount := Add(hashMap.recordCount, counters[key]));
        } else {
          hashMap := hashMap.(tvCount := Add(hashMap.tvCount, counters[key]));
        }
        outputMaps := outputMaps[e := hashMap];
        i := i + 1;
      }
      assert scan[..i] == scan;
      BlocksMeaning(State(), zoo, rangeStart, rangeEnd, scan);
      ScanCollected(State(), zoo, rangeStart, rangeEnd, scan);
    }

    method SetReported(zoo: string, scan: seq<InputKey>, rangeStart: int, rangeEnd: int,
                       client: map<string, string>, createdTs: string)
      requires Valid()
      requires IsScan(State(), zoo, scan)
      modifies this`watermarks
      ensures watermarks == SetReportedSpec(old(State()), zoo, rangeStart, rangeEnd, client, createdTs)
    {
      var outputMaps, watermarkExists := CollectOutputMaps(zoo, scan, rangeStart, rangeEnd);
      if !watermarkExists {
        CollectedIsSpec(State(), zoo, rangeStart, rangeEnd, client, createdTs, outputMaps);
        WriteAll(outputMaps, client, createdTs);
      }
    }

    /** The pipeline of saves that writes the collected watermarks. */
    method WriteAll(outputMaps: Watermarks, client: map<string, string>, createdTs: string)
      modifies this`watermarks
      ensures watermarks == old(watermarks) + Stamped(outputMaps, client, createdTs)
    {
      var left := outputMaps.Keys;
      while left != {}
        invariant left <= outputMaps.Keys
        invariant watermarks ==
                  old(watermarks) +
                  map e | e in outputMaps && e !in left :: outputMaps[e].(client := client, createdTs := createdTs)
      {
        var e :| e in left;
        watermarks := watermarks[e := outputMaps[e].(client := client, createdTs := createdTs)];
        left := left - {e};
      }
    }
  }

  function Add(field: Option<int>, count: int): Option<int> {
    match field
    case None => Some(count)
    case Some(n) => Some(n + count)
  }

  function Stamped(outputMaps: Watermarks, client: map<string, string>, createdTs: string): Watermarks {
    map e | e in outputMaps :: outputMaps[e].(client := client, createdTs := createdTs)
  }

  /** The collected maps are the roll-ups of the keys seen so far. */
  ghost predicate Collected(s: Store, seen: set<Key>, outputMaps: Watermarks) {
    && outputMaps.Keys == EpochsOf(seen)
    && forall e :: e in outputMaps ==> GetInfo(s.infos, e).Some? && outputMaps[e] == RollUp(s, seen, e)
  }

  ghost function Seen(eligible: set<Key>, scanned: seq<InputKey>): set<Key> {
    set k | k in eligible && CounterKey(k) in scanned
  }

  lemma SeenNext(eligible: set<Key>, scan: seq<InputKey>, i: nat)
    requires i < |scan| && forall j, l :: 0 <= j < l < |scan| ==> scan[j] != scan[l]
    ensures Seen(eligible, scan[..i + 1]) ==
            if scan[i].CounterKey? && scan[i].key in eligible then Seen(eligible, scan[..i]) + {scan[i].key}
            else Seen(eligible, scan[..i])
    ensures scan[i] !in scan[..i]
  {
    assert scan[..i + 1] == scan[..i] + [scan[i]];
  }

  /** The key is a counter that a roll-up of the range sums. */
  predicate Rolls(infos: Infos, k: InputKey, rangeStart: int, rangeEnd: int) {
    k.CounterKey? && k.key.kind != Commercial && InRange(infos, EpochKey(k.key.zoo, k.key.epoch), rangeStart, rangeEnd)
  }

  /** The key is summed by the roll-up, and its epoch has a watermark already. */
  predicate Blocks(infos: Infos, watermarks: Watermarks, k: InputKey, rangeStart: int, rangeEnd: int) {
    Rolls(infos, k, rangeStart, rangeEnd) && EpochKey(k.key.zoo, k.key.epoch) in watermarks
  }

  /** One scanned key added to the output maps. */
  function CollectKey(counters: Counters, infos: Infos, outputMaps: Watermarks, k: InputKey,
                      rangeStart: int, rangeEnd: int): Watermarks
  {
    if !Rolls(infos, k, rangeStart, rangeEnd) then outputMaps else
      var e := EpochKey(k.key.zoo, k.key.epoch);
      outputMaps[e := Bump(HashMap(infos, outputMaps, e), k.key, Get(counters, k.key))]
  }

  /** The output maps of all keys scanned so far. */
  function CollectKeys(counters: Counters, infos: Infos, scanned: seq<InputKey>, rangeStart: int,
                       rangeEnd: int): Watermarks {
    if scanned == [] then map[] else
      var n := |scanned| - 1;
      CollectKey(counters, infos, CollectKeys(counters, infos, scanned[..n], rangeStart, rangeEnd), scanned[n],
                 rangeStart, rangeEnd)
  }

  /** Some scanned key blocks the roll-up exactly when an eligible epoch has a watermark. */
  lemma {:induction false} BlocksMeaning(s: Store, zoo: string, rangeStart: int, rangeEnd: int, scan: seq<InputKey>)
    requires IsScan(s, zoo, scan)
    ensures (exists j :: 0 <= j < |scan| && Blocks(s.infos, s.watermarks, scan[j], rangeStart, rangeEnd)) <==>
            !(EligibleEpochs(s, zoo, rangeStart, rangeEnd) !! s.watermarks.Keys)
  {
    var eligible := EligibleKeys(s, zoo, rangeStart, rangeEnd);
    if j :| 0 <= j < |scan| && Blocks(s.infos, s.watermarks, scan[j], rangeStart, rangeEnd) {
      assert scan[j] in scan;
      assert scan[j].key in eligible;
      assert EpochKey(zoo, scan[j].key.epoch) in EpochsOf(eligible);
    }
    if e :| e in EpochsOf(eligible) && e in s.watermarks {
      var k :| k in eligible && e == EpochKey(k.zoo, k.epoch);
      assert CounterKey(k) in scan;
      var j :| 0 <= j < |scan| && scan[j] == CounterKey(k);
      assert Blocks(s.infos, s.watermarks, scan[j], rangeStart, rangeEnd);
    }
  }

  /** The output maps of the scan up to any point are the roll-ups of the eligible keys seen until then. */
  lemma {:induction false} KeysCollected(s: Store, zoo: string, rangeStart: int, rangeEnd: int,
                                         scan: seq<InputKey>, i: nat)
    requires IsScan(s, zoo, scan) && i <= |scan|
    ensures Collected(s, Seen(EligibleKeys(s, zoo, rangeStart, rangeEnd), scan[..i]),
                      CollectKeys(s.counters, s.infos, scan[..i], rangeStart, rangeEnd))
    decreases i
  {
    if i > 0 {
      var eligible := EligibleKeys(s, zoo, rangeStart, rangeEnd);
      KeysCollected(s, zoo, rangeStart, rangeEnd, scan, i - 1);
      SeenNext(eligible, scan, i - 1);
      assert scan[..i][..i - 1] == scan[..i - 1];
      assert scan[i - 1] in scan;
      if Rolls(s.infos, scan[i - 1], rangeStart, rangeEnd) {
        CollectOne(s, Seen(eligible, scan[..i - 1]), scan[i - 1].key,
                   CollectKeys(s.counters, s.infos, scan[..i - 1], rangeStart, rangeEnd));
      }
    }
  }

  lemma {:induction false} ScanCollected(s: Store, zoo: string, rangeStart: int, rangeEnd: int, scan: seq<InputKey>)
    requires IsScan(s, zoo, scan)
    ensures Collected(s, EligibleKeys(s, zoo, rangeStart, rangeEnd),
                      CollectKeys(s.counters, s.infos, scan, rangeStart, rangeEnd))
  {
    KeysCollected(s, zoo, rangeStart, rangeEnd, scan, |scan|);
    SeenAll(s, zoo, rangeStart, rangeEnd, scan);
    assert scan[..|scan|] == scan;
  }

  lemma SeenAll(s: Store, zoo: string, rangeStart: int, rangeEnd: int, scan: seq<InputKey>)
    requires IsScan(s, zoo, scan)
    ensures Seen(EligibleKeys(s, zoo, rangeStart, rangeEnd), scan) == EligibleKeys(s, zoo, rangeStart, rangeEnd)
  {
    assert forall k :: k in EligibleKeys(s, zoo, rangeStart, rangeEnd) ==> CounterKey(k) in scan;
  }

  lemma {:induction false} CollectedIsSpec(s: Store, zoo: string, rangeStart: int, rangeEnd: int,
                                           client: map<string, string>,
                        createdTs: string, outputMaps: Watermarks)
    requires Collected(s, EligibleKeys(s, zoo, rangeStart, rangeEnd), outputMaps)
    requires EligibleEpochs(s, zoo, rangeStart, rangeEnd) !! s.watermarks.Keys
    ensures s.watermarks + Stamped(outputMaps, client, createdTs)
         == SetReportedSpec(s, zoo, rangeStart, rangeEnd, client, createdTs)
  {
    var epochs := EligibleEpochs(s, zoo, rangeStart, rangeEnd);
    forall e | e in epochs
      ensures outputMaps[e].(client := client, createdTs := createdTs) == NewWatermark(s, e, client, createdTs)
    {
      EligibleKeysSuffice(s, zoo, rangeStart, rangeEnd, e);
    }
    assert Stamped(outputMaps, client, createdTs) == NewWatermarks(s, epochs, client, createdTs);
  }

  /** The hash map of an epoch so far, created with the info's start when there is none. */
  function HashMap(infos: Infos, outputMaps: Watermarks, e: EpochKey): Watermark
    requires GetInfo(infos, e).Some?
  {
    if e in outputMaps then outputMaps[e] else Watermark(GetInfo(infos, e).value.startTs, None, None, map[], "")
  }

  lemma {:induction false} HashMapIsRollUp(s: Store, seen: set<Key>, outputMaps: Watermarks, e: EpochKey)
    requires Collected(s, seen, outputMaps) && GetInfo(s.infos, e).Some?
    ensures HashMap(s.infos, outputMaps, e) == RollUp(s, seen, e)
  {
    if e !in outputMaps {
      NoCounts(seen, Records, e);
      NoCounts(seen, Tvs, e);
    }
  }

  /** Adding one more key changes the roll-up of its own epoch and no other. */
  lemma {:induction false} CollectOne(s: Store, seen: set<Key>, key: Key, outputMaps: Watermarks)
    requires key !in seen && key in s.counters && key.kind != Commercial
    requires Collected(s, seen, outputMaps) && GetInfo(s.infos, EpochKey(key.zoo, key.epoch)).Some?
    ensures var e := EpochKey(key.zoo, key.epoch);
            Collected(s, seen + {key}, outputMaps[e := Bump(HashMap(s.infos, outputMaps, e), key, s.counters[key])])
  {
    var own := EpochKey(key.zoo, key.epoch);
    var after := outputMaps[own := Bump(HashMap(s.infos, outputMaps, own), key, s.counters[key])];
    EpochsAdd(seen, key);
    forall e | e in after ensures GetInfo(s.infos, e).Some? && after[e] == RollUp(s, seen + {key}, e) {
      HashMapIsRollUp(s, seen, outputMaps, e);
      RollUpOne(s, seen, key, e);
    }
  }

  lemma EpochsAdd(keys: set<Key>, key: Key)
    ensures EpochsOf(keys + {key}) == EpochsOf(keys) + {EpochKey(key.zoo, key.epoch)}
  {
    assert key in keys + {key};
  }

  function Bump(hashMap: Watermark, key: Key, count: int): Watermark {
    if key.kind == Records then hashMap.(recordCount := Add(hashMap.recordCount, count))
    else hashMap.(tvCount := Add(hashMap.tvCount, count))
  }

  lemma RollUpOne(s: Store, seen: set<Key>, key: Key, e: EpochKey)
    requires key !in seen && key in s.counters && key.kind != Commercial && GetInfo(s.infos, e).Some?
    ensures var before := RollUp(s, seen, e);
            RollUp(s, seen + {key}, e) ==
            if e == EpochKey(key.zoo, key.epoch) then Bump(before, key, s.counters[key]) else before
  {
    CountFieldAdd(s.counters, seen, key, Records, e);
    CountFieldAdd(s.counters, seen, key, Tvs, e);
  }

  lemma NoCounts(keys: set<Key>, kind: Kind, e: EpochKey)
    requires e !in EpochsOf(keys)
    ensures CountsOf(keys, kind, e) == {}
  {
    assert forall k :: k in keys ==> EpochKey(k.zoo, k.epoch) in EpochsOf(keys);
  }
}
