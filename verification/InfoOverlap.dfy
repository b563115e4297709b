/**
 * Overlapping record_info calls on the info key of one epoch, which has no shard in it, so all cookers of a
 * zoo share it. A call reads the stored record, then asks AWS, then decides on what it read and may write, so
 * the module models the read and the rest as separate steps that clients interleave.
 */
module InfoOverlap {
  import opened Wrappers
  import opened Facts
  import opened ReadinessInfo

  /** A call between its read and its end, with the record it saw. */
  datatype Pending = Pending(call: InfoCall, seen: Option<InfoHash>)

  /** The stored record, the calls under way, and the calls finished so far as a history variable. */
  datatype State = State(stored: Option<InfoHash>, pending: map<nat, Pending>, finished: seq<InfoCall>)

  datatype Step =
    | Read(client: nat, call: InfoCall)
    | Finish(client: nat)

  ghost predicate Valid(s: State) {
    WellFormed(s.stored) && forall c :: c in s.pending ==> WellFormed(s.pending[c].seen)
  }

  function Start(stored: Option<InfoHash>): State {
    State(stored, map[], [])
  }

  /** A step of a client that cannot take it leaves the state alone. */
  function Next(epoch: int, s: State, step: Step): (after: State)
    requires Valid(s)
    ensures Valid(after)
  {
    match step
    case Read(c, call) =>
      if c in s.pending then s else s.(pending := s.pending[c := Pending(call, s.stored)])
    case Finish(c) =>
      if c !in s.pending then s else
        var Pending(call, seen) := s.pending[c];
        RecordInfoStep(seen, epoch, call);
        State(if Writes(seen, call) then RecordInfo(seen, epoch, call).0 else s.stored,
              s.pending - {c}, s.finished + [call])
  }

  function Run(epoch: int, s: State, steps: seq<Step>): (after: State)
    requires Valid(s)
    ensures Valid(after)
    decreases |steps|
  {
    if steps == [] then s else Run(epoch, Next(epoch, s, steps[0]), steps[1..])
  }

  /** A call that nothing overlaps is one sequential call. */
  lemma {:induction false} UndisturbedCall(epoch: int, s: State, c: nat, call: InfoCall)
    requires Valid(s) && c !in s.pending
    ensures Run(epoch, s, [Read(c, call), Finish(c)]) ==
            State(RecordInfo(s.stored, epoch, call).0, s.pending, s.finished + [call])
  {
    var steps := [Read(c, call), Finish(c)];
    var read := Next(epoch, s, steps[0]);
    assert steps[1..] == [Finish(c)] && steps[1..][1..] == [];
    assert Run(epoch, read, steps[1..]) == Next(epoch, read, Finish(c));
    assert read.pending - {c} == s.pending;
  }

  /** The step ends a call that AWS told of no shard and that had seen no good record. */
  ghost predicate Downgrades(s: State, step: Step)
    requires Valid(s)
  {
    step.Finish? && step.client in s.pending &&
    var p := s.pending[step.client];
    p.call.activeShards == [] && !Good(p.seen)
  }

  /** A step replaces a good record by an error one exactly when it is of that kind. */
  lemma {:induction false} LostExactlyThen(epoch: int, s: State, step: Step)
    requires Valid(s) && Good(s.stored)
    ensures !Good(Next(epoch, s, step).stored) <==> Downgrades(s, step)
  {
    if step.Finish? && step.client in s.pending {
      var p := s.pending[step.client];
      RecordInfoStep(p.seen, epoch, p.call);
      if Writes(p.seen, p.call) {
        InfoRoundTrip(epoch, p.call.batchSecs, p.call.createdAt, p.call.activeShards);
      }
    }
  }

  /**
   * The result tells whether a good record is stored when the call ends, exactly when the call wrote or the
   * record is still good.
   */
  lemma {:induction false} ResultTellsStored(epoch: int, s: State, c: nat)
    requires Valid(s) && c in s.pending
    ensures var p := s.pending[c];
            var ok := RecordInfo(p.seen, epoch, p.call).1;
            (ok <==> Good(Next(epoch, s, Finish(c)).stored)) <==> Writes(p.seen, p.call) || Good(s.stored)
  {
    RecordInfoStep(s.pending[c].seen, epoch, s.pending[c].call);
  }

  // ----- over runs

  predicate From(clients: set<nat>, steps: seq<Step>) {
    forall step :: step in steps ==> step.client in clients
  }

  /** Once the record is good it stays good, wherever the run is cut. */
  ghost predicate KeepsGood(epoch: int, stored: Option<InfoHash>, steps: seq<Step>, more: seq<Step>)
    requires WellFormed(stored)
  {
    var cut := Run(epoch, Start(stored), steps);
    Good(cut.stored) ==> Good(Run(epoch, cut, more).stored)
  }

  /** With one client, whatever is under way has seen the stored record. */
  ghost predicate Current(clients: set<nat>, s: State) {
    s.pending.Keys <= clients && forall c :: c in s.pending ==> s.pending[c].seen == s.stored
  }

  lemma {:induction false} NextStaysCurrent(epoch: int, clients: set<nat>, s: State, step: Step)
    requires Valid(s) && AtMostOne(clients) && Current(clients, s) && step.client in clients
    ensures Current(clients, Next(epoch, s, step))
    ensures Next(epoch, s, step).stored ==
            if step.Finish? && step.client in s.pending
            then RecordInfo(s.stored, epoch, s.pending[step.client].call).0 else s.stored
  {
  }

  /**
   * With one client every interleaving is its finished calls one after the other, so the record is good in the
   * end exactly when it was good at the start or some finished call heard of a shard.
   */
  lemma {:induction false} OneClientIsSequential(epoch: int, clients: set<nat>, stored: Option<InfoHash>,
                                                 s: State, steps: seq<Step>)
    requires WellFormed(stored) && Valid(s) && AtMostOne(clients) && From(clients, steps)
    requires Current(clients, s) && s.stored == RunInfo(stored, epoch, s.finished)
    ensures var after := Run(epoch, s, steps);
            && Current(clients, after)
            && after.stored == RunInfo(stored, epoch, after.finished)
            && (Good(after.stored) <==>
                Good(stored) || exists call :: call in after.finished && call.activeShards != [])
    decreases |steps|
  {
    if steps == [] {
      NeverDowngraded(stored, epoch, s.finished);
    } else {
      var step := steps[0];
      assert step in steps;
      NextStaysCurrent(epoch, clients, s, step);
      if step.Finish? && step.client in s.pending {
        RunInfoSnoc(stored, epoch, s.finished, s.pending[step.client].call);
      }
      OneClientIsSequential(epoch, clients, stored, Next(epoch, s, step), steps[1..]);
    }
  }

  lemma {:induction false} OneClientKeepsGood(epoch: int, clients: set<nat>, s: State, steps: seq<Step>)
    requires Valid(s) && AtMostOne(clients) && From(clients, steps) && Current(clients, s)
    ensures Current(clients, Run(epoch, s, steps))
    ensures Good(s.stored) ==> Good(Run(epoch, s, steps).stored)
    decreases |steps|
  {
    if steps != [] {
      assert steps[0] in steps;
      NextStaysCurrent(epoch, clients, s, steps[0]);
      if Good(s.stored) {
        LostExactlyThen(epoch, s, steps[0]);
      }
      OneClientKeepsGood(epoch, clients, Next(epoch, s, steps[0]), steps[1..]);
    }
  }

  /** A call that heard of a shard, and one that did not. */
  const LISTED := InfoCall(3600, 7200, 7200, ["shard"])
  const FAILED := InfoCall(3600, 7200, 7200, [])

  /**
   * Two clients both read before either writes. The one that heard of a shard stores a good record, and the
   * other, which saw none, then puts its error record in that place.
   */
  lemma {:induction false} OverlapLosesGood(epoch: int, c: nat, d: nat)
    requires c != d
    ensures var cut := Run(epoch, Start(None), [Read(c, FAILED), Read(d, LISTED), Finish(d)]);
            Good(cut.stored) && !Good(Run(epoch, cut, [Finish(c)]).stored)
  {
    var s1 := Next(epoch, Start(None), Read(c, FAILED));
    var s2 := Next(epoch, s1, Read(d, LISTED));
    var s3 := Next(epoch, s2, Finish(d));
    var steps := [Read(c, FAILED), Read(d, LISTED), Finish(d)];
    assert steps[1..] == [Read(d, LISTED), Finish(d)] && steps[1..][1..] == [Finish(d)] && [Finish(d)][1..] == [];
    assert Run(epoch, s2, [Finish(d)]) == s3;
    assert Run(epoch, s1, steps[1..]) == s3;
    InfoRoundTrip(epoch, LISTED.batchSecs, LISTED.createdAt, LISTED.activeShards);
    assert [Finish(c)][1..] == [];
    assert Run(epoch, s3, [Finish(c)]) == Next(epoch, s3, Finish(c));
    LostExactlyThen(epoch, s3, Finish(c));
  }

  /**
   * A call that saw a good record and hears of no shard returns true without writing, although the record has
   * been replaced by an error one in the meantime.
   */
  lemma {:induction false} ResultMisleads(epoch: int, c: nat, d: nat)
    requires c != d
    ensures var s := Run(epoch, Start(None), [Read(c, FAILED), Read(d, LISTED), Finish(d), Read(d, FAILED), Finish(c)]);
            && d in s.pending
            && RecordInfo(s.pending[d].seen, epoch, s.pending[d].call).1
            && !Good(Next(epoch, s, Finish(d)).stored)
  {
    var s1 := Next(epoch, Start(None), Read(c, FAILED));
    var s2 := Next(epoch, s1, Read(d, LISTED));
    var s3 := Next(epoch, s2, Finish(d));
    var s4 := Next(epoch, s3, Read(d, FAILED));
    var s5 := Next(epoch, s4, Finish(c));
    RunFive(epoch, Read(c, FAILED), Read(d, LISTED), Finish(d), Read(d, FAILED), Finish(c));
    InfoRoundTrip(epoch, LISTED.batchSecs, LISTED.createdAt, LISTED.activeShards);
    InfoRoundTrip(epoch, FAILED.batchSecs, FAILED.createdAt, FAILED.activeShards);
    assert Good(s3.stored) && !Good(s5.stored);
    assert s5.pending[d] == Pending(FAILED, s3.stored);
  }

  lemma {:induction false} RunFive(epoch: int, a: Step, b: Step, c: Step, d: Step, e: Step)
    ensures Run(epoch, Start(None), [a, b, c, d, e]) ==
            Next(epoch, Next(epoch, Next(epoch, Next(epoch, Next(epoch, Start(None), a), b), c), d), e)
  {
    var s := Next(epoch, Next(epoch, Next(epoch, Start(None), a), b), c);
    assert [a, b, c, d, e][1..] == [b, c, d, e] && [b, c, d, e][1..] == [c, d, e];
    assert [c, d, e][1..] == [d, e] && [d, e][1..] == [e] && [e][1..] == [];
    assert Run(epoch, s, [d, e]) == Run(epoch, Next(epoch, s, d), [e]);
    assert Run(epoch, Next(epoch, s, d), [e]) == Next(epoch, Next(epoch, s, d), e);
    assert Run(epoch, Next(epoch, Next(epoch, Start(None), a), b), [c, d, e]) == Run(epoch, s, [d, e]);
    assert Run(epoch, Next(epoch, Start(None), a), [b, c, d, e]) ==
           Run(epoch, Next(epoch, Next(epoch, Start(None), a), b), [c, d, e]);
  }

  /** No interleaving ever replaces a good record by an error one exactly when at most one client writes the key. */
  lemma {:induction false} GoodKeptIffOneClient(epoch: int, clients: set<nat>)
    ensures (forall stored, steps, more :: WellFormed(stored) && From(clients, steps) && From(clients, more) ==>
               KeepsGood(epoch, stored, steps, more))
            <==> AtMostOne(clients)
  {
    if AtMostOne(clients) {
      forall stored, steps, more | WellFormed(stored) && From(clients, steps) && From(clients, more)
        ensures KeepsGood(epoch, stored, steps, more)
      {
        OneClientKeepsGood(epoch, clients, Start(stored), steps);
        OneClientKeepsGood(epoch, clients, Run(epoch, Start(stored), steps), more);
      }
    } else {
      var c, d :| c in clients && d in clients && c != d;
      OverlapLosesGood(epoch, c, d);
      var steps := [Read(c, FAILED), Read(d, LISTED), Finish(d)];
      assert From(clients, steps) && From(clients, [Finish(c)]);
      assert !KeepsGood(epoch, None, steps, [Finish(c)]);
    }
  }
}
