/**
 * Overlapping set_reported jobs. A job scans the store, checking that no watermark is there, and writes the
 * watermarks it collected later, so the module models the scan and the write as separate steps that jobs
 * interleave with each other and with counting.
 */
module RollOverlap {
  import opened Wrappers
  import opened Text
  import opened Facts
  import opened ReadinessInfo
  import opened ShardCounters
  import opened Readiness
  import opened ReadinessRuns

  /** One set_reported call: its zoo, its range, and what it stamps on the watermarks. */
  datatype Job = Job(zoo: string, rangeStart: int, rangeEnd: int, client: map<string, string>, createdTs: string)

  /** The store, and the watermarks that jobs under way have collected. */
  datatype Jobs = Jobs(store: Store, pending: map<nat, Watermarks>)

  datatype Move =
    | Change(op: Operation)  // counting, or a change of an info record
    | Collect(worker: nat, job: Job)
    | WriteOut(worker: nat)

  ghost predicate Valid(s: Jobs) {
    ValidInfos(s.store.infos)
  }

  /** What a job has to write after its scan: nothing when it met a watermark. */
  ghost function Collectible(s: Store, job: Job): Watermarks {
    var epochs := EligibleEpochs(s, job.zoo, job.rangeStart, job.rangeEnd);
    if epochs !! s.watermarks.Keys then NewWatermarks(s, epochs, job.client, job.createdTs) else map[]
  }

  /** A move of a worker that cannot make it leaves the state alone; a roll-up is never a single move. */
  ghost function After(s: Jobs, move: Move): (after: Jobs)
    requires Valid(s)
    ensures Valid(after)
  {
    match move
    case Change(op) => if op.Roll? then s else s.(store := Apply(s.store, op))
    case Collect(w, job) =>
      if w in s.pending then s else s.(pending := s.pending[w := Collectible(s.store, job)])
    case WriteOut(w) =>
      if w !in s.pending then s
      else Jobs(s.store.(watermarks := s.store.watermarks + s.pending[w]), s.pending - {w})
  }

  ghost function AfterAll(s: Jobs, moves: seq<Move>): (after: Jobs)
    requires Valid(s)
    ensures Valid(after)
    decreases |moves|
  {
    if moves == [] then s else AfterAll(After(s, moves[0]), moves[1..])
  }

  /** Every watermark of the first store is in the second, as it was. */
  ghost predicate Kept(before: Watermarks, after: Watermarks) {
    forall e :: e in before ==> e in after && after[e] == before[e]
  }

  lemma {:induction false} CollectibleIsSpec(s: Store, job: Job)
    ensures s.watermarks + Collectible(s, job) ==
            SetReportedSpec(s, job.zoo, job.rangeStart, job.rangeEnd, job.client, job.createdTs)
  {
    assert s.watermarks + map[] == s.watermarks;
  }

  lemma {:induction false} AfterTwo(s: Jobs, first: Move, second: Move)
    requires Valid(s)
    ensures AfterAll(s, [first, second]) == After(After(s, first), second)
  {
    assert [first, second][1..] == [second] && [second][1..] == [];
    assert AfterAll(After(s, first), [second]) == After(After(s, first), second);
  }

  /** A job that nothing overlaps does what one sequential call does. */
  lemma {:induction false} UndisturbedJob(s: Jobs, w: nat, job: Job)
    requires Valid(s) && w !in s.pending
    ensures AfterAll(s, [Collect(w, job), WriteOut(w)]) ==
            s.(store := Apply(s.store, Roll(job.zoo, job.rangeStart, job.rangeEnd, job.client, job.createdTs)))
  {
    AfterTwo(s, Collect(w, job), WriteOut(w));
    assert After(s, Collect(w, job)).pending - {w} == s.pending;
    CollectibleIsSpec(s.store, job);
  }

  /** What a scan collects has no watermark at that time, so one that is there at the write has come since. */
  lemma {:induction false} ScanFindsNone(s: Store, job: Job)
    ensures Collectible(s, job).Keys !! s.watermarks.Keys
  {
  }

  /** A move changes a watermark exactly when it writes another one for an epoch that has one by then. */
  lemma {:induction false} ChangedExactlyThen(s: Jobs, move: Move)
    requires Valid(s)
    ensures Kept(s.store.watermarks, After(s, move).store.watermarks) <==>
            !(move.WriteOut? && move.worker in s.pending &&
              exists e :: e in s.pending[move.worker] && e in s.store.watermarks
                          && s.pending[move.worker][e] != s.store.watermarks[e])
  {
    if move.WriteOut? && move.worker in s.pending {
      var mine, there := s.pending[move.worker], s.store.watermarks;
      assert forall e :: e in there ==> (there + mine)[e] == if e in mine then mine[e] else there[e];
    }
  }

  /** Which worker may run which job. */
  type Plan = (nat, Job) -> bool

  predicate From(plan: Plan, moves: seq<Move>) {
    forall m :: m in moves && m.Collect? ==> plan(m.worker, m.job)
  }

  ghost predicate KeepsWatermarks(store: Store, moves: seq<Move>, more: seq<Move>)
    requires ValidInfos(store.infos)
  {
    var cut := AfterAll(Jobs(store, map[]), moves);
    Kept(cut.store.watermarks, AfterAll(cut, more).store.watermarks)
  }

  /** The epoch is in the job's range. */
  predicate Covers(job: Job, e: EpochKey) {
    e.zoo == job.zoo && job.rangeStart < e.epoch <= job.rangeEnd
  }

  /** No two workers have an epoch in common. */
  ghost predicate Apart(plan: Plan) {
    forall v, w, i, j, e :: plan(v, i) && plan(w, j) && Covers(i, e) && Covers(j, e) ==> v == w
  }

  /** What a worker is about to write is for epochs of one of its jobs. */
  ghost predicate Covered(plan: Plan, w: nat, collected: Watermarks) {
    exists job :: plan(w, job) && forall e :: e in collected ==> Covers(job, e)
  }

  /** No epoch that any worker is about to write has a watermark. */
  ghost predicate Clear(plan: Plan, s: Jobs) {
    forall w :: w in s.pending ==> Covered(plan, w, s.pending[w]) && s.pending[w].Keys !! s.store.watermarks.Keys
  }

  lemma {:induction false} CollectibleIsCovered(s: Store, plan: Plan, w: nat, job: Job)
    requires plan(w, job)
    ensures Covered(plan, w, Collectible(s, job))
  {
    assert forall e :: e in Collectible(s, job) ==> Covers(job, e);
  }

  lemma {:induction false} OthersUntouched(plan: Plan, v: nat, w: nat, mine: Watermarks, other: Watermarks)
    requires Apart(plan) && v != w && Covered(plan, v, mine) && Covered(plan, w, other)
    ensures mine.Keys !! other.Keys
  {
    var i :| plan(v, i) && forall e :: e in mine ==> Covers(i, e);
    var j :| plan(w, j) && forall e :: e in other ==> Covers(j, e);
    forall e | e in mine ensures e !in other {
      assert Covers(i, e);
    }
  }

  lemma {:induction false} OneMoveKeeps(plan: Plan, s: Jobs, move: Move)
    requires Valid(s) && Apart(plan) && Clear(plan, s)
    requires move.Collect? ==> plan(move.worker, move.job)
    ensures Clear(plan, After(s, move))
    ensures Kept(s.store.watermarks, After(s, move).store.watermarks)
  {
    match move
    case Change(op) =>
    case Collect(w, job) =>
      CollectibleIsCovered(s.store, plan, w, job);
      ScanFindsNone(s.store, job);
    case WriteOut(v) =>
      if v in s.pending {
        forall w | w in s.pending && w != v ensures s.pending[v].Keys !! s.pending[w].Keys {
          OthersUntouched(plan, v, w, s.pending[v], s.pending[w]);
        }
      }
  }

  lemma {:induction false} ApartKeeps(plan: Plan, s: Jobs, moves: seq<Move>)
    requires Valid(s) && Apart(plan) && From(plan, moves) && Clear(plan, s)
    ensures Clear(plan, AfterAll(s, moves))
    ensures Kept(s.store.watermarks, AfterAll(s, moves).store.watermarks)
    decreases |moves|
  {
    if moves != [] {
      assert moves[0] in moves;
      OneMoveKeeps(plan, s, moves[0]);
      ApartKeeps(plan, After(s, moves[0]), moves[1..]);
    }
  }

  /** The one counter of an epoch. */
  function CounterOf(e: EpochKey): Key {
    Key(Records, e.zoo, e.epoch, "shard")
  }

  /** A store with one counter of one epoch, and its info, which starts one second before the epoch. */
  function Counted(e: EpochKey, count: int): Store {
    Store(map[CounterOf(e) := count],
          map[e := InfoHash("shard", IntText(e.epoch - 1), IntText(1), IntText(0), "False")], map[])
  }

  lemma {:induction false} CountedCollects(e: EpochKey, count: int, job: Job)
    requires Covers(job, e)
    ensures ValidInfos(Counted(e, count).infos)
    ensures e in Collectible(Counted(e, count), job)
    ensures Collectible(Counted(e, count), job)[e].recordCount == Some(count)
  {
    IntRoundTrip(e.epoch - 1);
    IntRoundTrip(1);
    var s := Counted(e, count);
    var key := CounterOf(e);
    assert key in EligibleKeys(s, job.zoo, job.rangeStart, job.rangeEnd);
    assert EpochKey(key.zoo, key.epoch) in EligibleEpochs(s, job.zoo, job.rangeStart, job.rangeEnd);
    assert CountsOf(s.counters.Keys, Records, e) == {key};
    TotalAdd(s.counters, {}, key);
    assert {} + {key} == {key};
  }

  /** Two scans with a count in between, and the first write. */
  function Overlap(v: nat, i: Job, w: nat, j: Job, e: EpochKey): seq<Move> {
    [Collect(v, i), Change(Count(CounterOf(e), 1)), Collect(w, j), WriteOut(v)]
  }

  /**
   * Two jobs that share an epoch both scan before either writes, and a count is recorded in between: the second
   * write replaces the watermark of the first.
   */
  lemma {:induction false} OverlapChangesWatermark(v: nat, i: Job, w: nat, j: Job, e: EpochKey)
    requires v != w && Covers(i, e) && Covers(j, e)
    ensures ValidInfos(Counted(e, 5).infos)
    ensures !KeepsWatermarks(Counted(e, 5), Overlap(v, i, w, j, e), [WriteOut(w)])
  {
    CountedCollects(e, 5, i);
    CountedCollects(e, 6, j);
    var moves := Overlap(v, i, w, j, e);
    var s0 := Jobs(Counted(e, 5), map[]);
    var s1 := After(s0, moves[0]);
    var s2 := After(s1, moves[1]);
    assert s2.store == Counted(e, 6);
    var s3 := After(s2, moves[2]);
    var s4 := After(s3, moves[3]);
    AfterFour(s0, moves[0], moves[1], moves[2], moves[3]);
    assert [WriteOut(w)][1..] == [];
    assert AfterAll(s4, [WriteOut(w)]) == After(s4, WriteOut(w));
    assert s4.pending[w] == Collectible(Counted(e, 6), j);
    assert s4.store.watermarks == map[] + Collectible(Counted(e, 5), i);
    ChangedExactlyThen(s4, WriteOut(w));
  }

  lemma {:induction false} AfterFour(s: Jobs, a: Move, b: Move, c: Move, d: Move)
    requires Valid(s)
    ensures AfterAll(s, [a, b, c, d]) == After(After(After(After(s, a), b), c), d)
  {
    assert [a, b, c, d][1..] == [b, c, d] && [b, c, d][1..] == [c, d];
    AfterTwo(After(After(s, a), b), c, d);
    assert AfterAll(After(s, a), [b, c, d]) == AfterAll(After(After(s, a), b), [c, d]);
  }

  /**
   * No interleaving of jobs with each other and with counting ever changes a watermark exactly when no two
   * workers have an epoch in common.
   */
  lemma {:induction false} WatermarksKeptIffApart(plan: Plan)
    ensures (forall store: Store, moves, more ::
               ValidInfos(store.infos) && From(plan, moves) && From(plan, more) ==> KeepsWatermarks(store, moves, more))
            <==> Apart(plan)
  {
    if Apart(plan) {
      forall store: Store, moves, more | ValidInfos(store.infos) && From(plan, moves) && From(plan, more)
        ensures KeepsWatermarks(store, moves, more)
      {
        ApartKeeps(plan, Jobs(store, map[]), moves);
        ApartKeeps(plan, AfterAll(Jobs(store, map[]), moves), more);
      }
    } else {
      var v, w, i, j, e :| plan(v, i) && plan(w, j) && Covers(i, e) && Covers(j, e) && v != w;
      OverlapChangesWatermark(v, i, w, j, e);
      assert From(plan, Overlap(v, i, w, j, e)) && From(plan, [WriteOut(w)]);
    }
  }

  /** When any worker may run any job, that is exactly when there is at most one worker. */
  lemma {:induction false} WatermarksKeptIffOneWorker(workers: set<nat>)
    ensures var plan: Plan := (w, job) => w in workers;
            (forall store: Store, moves, more ::
               ValidInfos(store.infos) && From(plan, moves) && From(plan, more) ==> KeepsWatermarks(store, moves, more))
            <==> AtMostOne(workers)
  {
    var plan: Plan := (w, job) => w in workers;
    WatermarksKeptIffApart(plan);
    var job, e := Job("zoo", 0, 1, map[], ""), EpochKey("zoo", 1);
    assert Covers(job, e);
    if Apart(plan) {
      forall v, w | v in workers && w in workers ensures v == w {
        assert plan(v, job) && plan(w, job);
      }
    }
  }
}
