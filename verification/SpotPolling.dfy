/** Waiting for spot requests to be fulfilled or denied, BaseLauncher.wait_for_spot_requests of launch/base.py. */
module SpotPolling {
  import opened Facts

  datatype StatusCode = PriceTooLow | Fulfilled | OtherStatus

  /** One request as a poll describes it. */
  datatype Request = Request(id: string, status: StatusCode, instanceId: string)

  predicate Distinct<T(==)>(s: seq<T>) {
    forall i, j :: 0 <= i < j < |s| ==> s[i] != s[j]
  }

  predicate DistinctIds(requests: seq<Request>) {
    forall i, j :: 0 <= i < j < |requests| ==> requests[i].id != requests[j].id
  }

  /** get_all_spot_instance_requests: what it answers to the n-th poll, about the ids asked for. */
  type Poll = (nat, seq<string>) -> seq<Request>

  /** Every answer is about ids that were asked for, each at most once. */
  ghost predicate Honest(poll: Poll) {
    forall n, asked :: DistinctIds(poll(n, asked)) && forall r :: r in poll(n, asked) ==> r.id in asked
  }

  /** list.remove; removing an id that is not there would raise, which honest answers never cause. */
  function Remove(ids: seq<string>, id: string): seq<string> {
    if ids == [] then []
    else if ids[0] == id then ids[1..]
    else [ids[0]] + Remove(ids[1..], id)
  }

  lemma {:induction false} RemoveIsExact(ids: seq<string>, id: string)
    requires id in ids
    ensures multiset(Remove(ids, id)) == multiset(ids) - multiset{id}
  {
    assert ids == [ids[0]] + ids[1..];
    if ids[0] != id {
      RemoveIsExact(ids[1..], id);
    }
  }

  lemma {:induction false} RemoveKeepsOthers(ids: seq<string>, id: string, other: string)
    requires other in ids && other != id
    ensures other in Remove(ids, id)
  {
    if ids[0] != id && ids[0] != other {
      RemoveKeepsOthers(ids[1..], id, other);
    }
  }

  /** The three lists the function returns, and the ids behind the instances. */
  datatype Lists = Lists(instanceIds: seq<string>, lowPriceIds: seq<string>, requestIds: seq<string>,
                         fulfilledIds: seq<string>)

  function Settle(l: Lists, req: Request): Lists {
    match req.status
    case PriceTooLow => l.(lowPriceIds := l.lowPriceIds + [req.id], requestIds := Remove(l.requestIds, req.id))
    case Fulfilled => Lists(l.instanceIds + [req.instanceId], l.lowPriceIds, Remove(l.requestIds, req.id),
                            l.fulfilledIds + [req.id])
    case OtherStatus => l
  }

  function SettleAll(l: Lists, answer: seq<Request>): Lists {
    if answer == [] then l else Settle(SettleAll(l, answer[..|answer| - 1]), answer[|answer| - 1])
  }

  /** The lists after a number of rounds, each polling about the ids still pending. */
  function AfterRounds(poll: Poll, ids: seq<string>, rounds: nat): Lists {
    if rounds == 0 then Lists([], [], ids, [])
    else
      var before := AfterRounds(poll, ids, rounds - 1);
      SettleAll(before, poll(rounds - 1, before.requestIds))
  }

  /** Fulfilled, denied and pending ids together are the original ids, each as often as it was. */
  ghost predicate Partition(original: seq<string>, l: Lists) {
    && multiset(original) == multiset(l.fulfilledIds) + multiset(l.lowPriceIds) + multiset(l.requestIds)
    && |l.instanceIds| == |l.fulfilledIds|
  }

  lemma SettleKeepsPartition(original: seq<string>, l: Lists, req: Request)
    requires Partition(original, l) && req.id in l.requestIds
    ensures Partition(original, Settle(l, req))
  {
    RemoveIsExact(l.requestIds, req.id);
  }

  lemma {:induction false} StillPending(l: Lists, answer: seq<Request>, id: string)
    requires id in l.requestIds && forall r :: r in answer ==> r.id != id
    ensures id in SettleAll(l, answer).requestIds
  {
    if answer != [] {
      var n := |answer| - 1;
      StillPending(l, answer[..n], id);
      RemoveKeepsOthers(SettleAll(l, answer[..n]).requestIds, answer[n].id, id);
    }
  }

  lemma {:induction false} AnswerKeepsPartition(original: seq<string>, l: Lists, answer: seq<Request>)
    requires Partition(original, l) && DistinctIds(answer) && forall r :: r in answer ==> r.id in l.requestIds
    ensures Partition(original, SettleAll(l, answer))
  {
    if answer != [] {
      var n := |answer| - 1;
      AnswerKeepsPartition(original, l, answer[..n]);
      StillPending(l, answer[..n], answer[n].id);
      SettleKeepsPartition(original, SettleAll(l, answer[..n]), answer[n]);
    }
  }

  /** At every round the fulfilled, denied and pending requests partition the original ones. */
  lemma {:induction false} RoundsKeepPartition(poll: Poll, ids: seq<string>, rounds: nat)
    requires Honest(poll)
    ensures Partition(ids, AfterRounds(poll, ids, rounds))
  {
    if rounds > 0 {
      RoundsKeepPartition(poll, ids, rounds - 1);
      var before := AfterRounds(poll, ids, rounds - 1);
      AnswerKeepsPartition(ids, before, poll(rounds - 1, before.requestIds));
    }
  }

  lemma {:induction false} SettledByStatus(l: Lists, answer: seq<Request>, id: string)
    ensures id in SettleAll(l, answer).lowPriceIds <==>
            id in l.lowPriceIds || exists r :: r in answer && r.id == id && r.status == PriceTooLow
    ensures id in SettleAll(l, answer).fulfilledIds <==>
            id in l.fulfilledIds || exists r :: r in answer && r.id == id && r.status == Fulfilled
  {
    if answer != [] {
      var n := |answer| - 1;
      SettledByStatus(l, answer[..n], id);
      assert forall r :: r in answer <==> r in answer[..n] || r == answer[n];
    }
  }

  /** Some poll of the first rounds, about the ids then pending, reports the id with the status. */
  ghost predicate Reported(poll: Poll, ids: seq<string>, rounds: nat, id: string, status: StatusCode) {
    exists k: nat, r :: k < rounds && r in poll(k, AfterRounds(poll, ids, k).requestIds)
                        && r.id == id && r.status == status
  }

  lemma {:induction false} ReportedNext(poll: Poll, ids: seq<string>, rounds: nat, id: string, status: StatusCode)
    requires rounds > 0
    ensures Reported(poll, ids, rounds, id, status) <==>
            || Reported(poll, ids, rounds - 1, id, status)
            || exists r :: r in poll(rounds - 1, AfterRounds(poll, ids, rounds - 1).requestIds)
                           && r.id == id && r.status == status
  {
  }

  /**
   * After any number of rounds the denied ids are those reported with too low a price, and the fulfilled ones
   * those reported fulfilled.
   */
  lemma {:induction false} ListsAreReported(poll: Poll, ids: seq<string>, rounds: nat, id: string)
    ensures var l := AfterRounds(poll, ids, rounds);
            && (id in l.lowPriceIds <==> Reported(poll, ids, rounds, id, PriceTooLow))
            && (id in l.fulfilledIds <==> Reported(poll, ids, rounds, id, Fulfilled))
  {
    if rounds > 0 {
      var before := AfterRounds(poll, ids, rounds - 1);
      ListsAreReported(poll, ids, rounds - 1, id);
      SettledByStatus(before, poll(rounds - 1, before.requestIds), id);
      ReportedNext(poll, ids, rounds, id, PriceTooLow);
      ReportedNext(poll, ids, rounds, id, Fulfilled);
    }
  }

  /** An answer reports the instance for the id. */
  ghost predicate Gives(answer: seq<Request>, id: string, instance: string) {
    Request(id, Fulfilled, instance) in answer
  }

  /** Some poll of the first rounds reports the id fulfilled with the instance. */
  ghost predicate Launched(poll: Poll, ids: seq<string>, rounds: nat, id: string, instance: string) {
    exists k: nat :: k < rounds && Gives(poll(k, AfterRounds(poll, ids, k).requestIds), id, instance)
  }

  lemma {:induction false} SettledInstances(l: Lists, answer: seq<Request>)
    requires |l.instanceIds| == |l.fulfilledIds|
    ensures var after := SettleAll(l, answer);
            && |after.instanceIds| == |after.fulfilledIds|
            && l.instanceIds <= after.instanceIds && l.fulfilledIds <= after.fulfilledIds
            && forall i :: |l.instanceIds| <= i < |after.instanceIds| ==>
                 Gives(answer, after.fulfilledIds[i], after.instanceIds[i])
  {
    if answer != [] {
      var n := |answer| - 1;
      SettledInstances(l, answer[..n]);
      assert answer == answer[..n] + [answer[n]];
    }
  }

  /** The instances are, position by position, those reported for the fulfilled ids. */
  lemma {:induction false} InstancesAreReported(poll: Poll, ids: seq<string>, rounds: nat)
    ensures var l := AfterRounds(poll, ids, rounds);
            && |l.instanceIds| == |l.fulfilledIds|
            && forall i :: 0 <= i < |l.instanceIds| ==> Launched(poll, ids, rounds, l.fulfilledIds[i], l.instanceIds[i])
  {
    if rounds > 0 {
      var before := AfterRounds(poll, ids, rounds - 1);
      var answer := poll(rounds - 1, before.requestIds);
      InstancesAreReported(poll, ids, rounds - 1);
      SettledInstances(before, answer);
      var after := SettleAll(before, answer);
      forall i | 0 <= i < |after.instanceIds|
        ensures Launched(poll, ids, rounds, after.fulfilledIds[i], after.instanceIds[i])
      {
        var id, instance := after.fulfilledIds[i], after.instanceIds[i];
        if i < |before.instanceIds| {
          assert Launched(poll, ids, rounds - 1, id, instance);
          var k: nat :| k < rounds - 1 && Gives(poll(k, AfterRounds(poll, ids, k).requestIds), id, instance);
          assert k < rounds;
        } else {
          assert Gives(poll(rounds - 1, AfterRounds(poll, ids, rounds - 1).requestIds), id, instance);
        }
      }
    }
  }

  /** So the lengths of the three returned lists add up to the number of requests. */
  lemma LengthsAddUp(original: seq<string>, l: Lists)
    requires Partition(original, l)
    ensures |l.instanceIds| + |l.lowPriceIds| + |l.requestIds| == |original|
  {
    assert |multiset(original)| == |original|;
    assert |multiset(l.fulfilledIds) + multiset(l.lowPriceIds) + multiset(l.requestIds)|
        == |l.fulfilledIds| + |l.lowPriceIds| + |l.requestIds|;
  }

  lemma {:induction false} DistinctCountsOnce(ids: seq<string>, id: string)
    requires Distinct(ids)
    ensures multiset(ids)[id] <= 1
  {
    if ids != [] {
      assert ids == [ids[0]] + ids[1..];
      DistinctCountsOnce(ids[1..], id);
      if ids[0] == id {
        assert id !in ids[1..];
      }
    }
  }

  /** With distinct requests, each is in exactly one of the three lists. */
  lemma EachInExactlyOne(original: seq<string>, l: Lists, id: string)
    requires Partition(original, l) && Distinct(original) && id in original
    ensures id in l.fulfilledIds || id in l.lowPriceIds || id in l.requestIds
    ensures id in l.fulfilledIds ==> id !in l.lowPriceIds && id !in l.requestIds
    ensures id in l.lowPriceIds ==> id !in l.requestIds
  {
    DistinctCountsOnce(original, id);
    assert id in multiset(original);
    assert multiset(l.fulfilledIds)[id] + multiset(l.lowPriceIds)[id] + multiset(l.requestIds)[id] == 1;
    assert id in l.fulfilledIds <==> multiset(l.fulfilledIds)[id] > 0;
    assert id in l.lowPriceIds <==> multiset(l.lowPriceIds)[id] > 0;
    assert id in l.requestIds <==> multiset(l.requestIds)[id] > 0;
  }

  /** any() of the ids: one of them is not the empty string. */
  predicate AnyId(ids: seq<string>) {
    exists id :: id in ids && id != ""
  }

  /** clock(0) is read for the deadline and clock(n) before round n; each round sleeps the interval. */
  ghost predicate Ticks(clock: nat -> int, interval: nat) {
    clock(0) <= clock(1) && forall n: nat :: n >= 1 ==> clock(n) + interval <= clock(n + 1)
  }

  /** The test before a round, the rounds counted from one. */
  predicate GoesOn(poll: Poll, ids: seq<string>, clock: nat -> int, timeout: nat, round: nat)
    requires round >= 1
  {
    AnyId(AfterRounds(poll, ids, round - 1).requestIds) && clock(round) < clock(0) + timeout
  }

  /** The test succeeded before each of the first rounds. */
  predicate WentOn(poll: Poll, ids: seq<string>, clock: nat -> int, timeout: nat, rounds: nat) {
    rounds == 0 || (WentOn(poll, ids, clock, timeout, rounds - 1) && GoesOn(poll, ids, clock, timeout, rounds))
  }

  lemma {:induction false} ClockAdvances(clock: nat -> int, interval: nat, n: nat)
    requires Ticks(clock, interval) && n >= 1
    ensures clock(0) + (n - 1) * interval <= clock(n)
  {
    if n > 1 {
      ClockAdvances(clock, interval, n - 1);
      assert (n - 1) * interval == (n - 2) * interval + interval;
    }
  }

  /** The rounds a call makes are at most ceil(timeout / interval). */
  lemma RoundsAreBounded(poll: Poll, ids: seq<string>, clock: nat -> int, timeout: nat, interval: nat, rounds: nat)
    requires interval >= 1 && Ticks(clock, interval) && WentOn(poll, ids, clock, timeout, rounds)
    ensures rounds <= (timeout + interval - 1) / interval
  {
    if rounds > 0 {
      ClockAdvances(clock, interval, rounds);
      AtMostCeiling(rounds, timeout, interval);
    }
  }

  lemma AtMostCeiling(n: nat, total: nat, part: nat)
    requires n >= 1 && part >= 1 && (n - 1) * part < total
    ensures n <= (total + part - 1) / part
  {
    var q := (total + part - 1) / part;
    assert total + part - 1 == q * part + (total + part - 1) % part;
    Scale(part, n - 1, q);
  }

  /**
   * Polls until no request is pending or the timeout has passed: the rounds are all those whose test
   * succeeds, and the first that fails ends them.
   */
  method WaitForSpotRequests(spotRequestIds: seq<string>, poll: Poll, clock: nat -> int, timeout: nat, interval: nat)
    returns (instanceIds: seq<string>, lowPriceIds: seq<string>, requestIds: seq<string>, rounds: nat)
    requires interval >= 1 && Honest(poll) && Ticks(clock, interval)
    ensures var l := AfterRounds(poll, spotRequestIds, rounds);
            instanceIds == l.instanceIds && lowPriceIds == l.lowPriceIds && requestIds == l.requestIds
    ensures forall id :: id in lowPriceIds <==> Reported(poll, spotRequestIds, rounds, id, PriceTooLow)
    ensures clock(rounds + 1) < clock(0) + timeout ==> forall id :: id in requestIds ==> id == ""
    ensures rounds > 0 ==> clock(rounds) < clock(0) + timeout
    ensures WentOn(poll, spotRequestIds, clock, timeout, rounds)
    ensures !GoesOn(poll, spotRequestIds, clock, timeout, rounds + 1)
  {
    requestIds, instanceIds, lowPriceIds := spotRequestIds, [], [];
    ghost var l := AfterRounds(poll, spotRequestIds, 0);
    var deadline := clock(0) + timeout;
    rounds := 0;
    while AnyId(requestIds) && clock(rounds + 1) < deadline
      invariant l == AfterRounds(poll, spotRequestIds, rounds)
      invariant instanceIds == l.instanceIds && lowPriceIds == l.lowPriceIds && requestIds == l.requestIds
      invariant WentOn(poll, spotRequestIds, clock, timeout, rounds)
      decreases deadline - clock(rounds + 1)
    {
      instanceIds, lowPriceIds, requestIds :=
        SettleAnswer(l, poll(rounds, requestIds), instanceIds, lowPriceIds, requestIds);
      rounds := rounds + 1;
      l := AfterRounds(poll, spotRequestIds, rounds);
    }
    forall id ensures id in lowPriceIds <==> Reported(poll, spotRequestIds, rounds, id, PriceTooLow) {
      ListsAreReported(poll, spotRequestIds, rounds, id);
    }
  }

  /** The inner loop over one answer. */
  method SettleAnswer(ghost before: Lists, answer: seq<Request>, instancesBefore: seq<string>,
                      deniedBefore: seq<string>,
                      pendingBefore: seq<string>)
    returns (instanceIds: seq<string>, lowPriceIds: seq<string>, requestIds: seq<string>)
    requires instancesBefore == before.instanceIds && deniedBefore == before.lowPriceIds
    requires pendingBefore == before.requestIds
    ensures var l := SettleAll(before, answer);
            instanceIds == l.instanceIds && lowPriceIds == l.lowPriceIds && requestIds == l.requestIds
  {
    instanceIds, lowPriceIds, requestIds := instancesBefore, deniedBefore, pendingBefore;
    var i := 0;
    while i < |answer|
      invariant 0 <= i <= |answer|
      invariant instanceIds == SettleAll(before, answer[..i]).instanceIds
      invariant lowPriceIds == SettleAll(before, answer[..i]).lowPriceIds
      invariant requestIds == SettleAll(before, answer[..i]).requestIds
    {
      var req := answer[i];
      assert answer[..i + 1][..i] == answer[..i];
      if req.status == PriceTooLow {
        lowPriceIds := lowPriceIds + [req.id];
        requestIds := Remove(requestIds, req.id);
      } else if req.status == Fulfilled {
        instanceIds := instanceIds + [req.instanceId];
        requestIds := Remove(requestIds, req.id);
      }
      i := i + 1;
    }
    assert answer[..i] == answer;
  }
}
