/** Batching and retrying of records in firehose.py, against an arbitrary remote client. */
module Firehose {
  import opened Wrappers
  import opened Facts

  datatype Config = Config(maxBatchSize: int, serviceUnavailableRetries: int, recordRetryLimit: int)

  /** FailedPutCount, and for each record its ErrorCode if the response has one. */
  datatype Response = Response(failedPutCount: int, errorCodes: seq<Option<string>>)

  /** put_record_batch raised ClientError, or it answered. */
  datatype Attempt = ClientError | Answered(response: Response)

  /** The remote side: what it does on its n-th call, given the records. */
  type Client<!R> = (nat, seq<R>) -> Attempt

  /** An ErrorCode that Python takes as true. */
  predicate IsError(code: Option<string>) {
    code.Some? && code.value != ""
  }

  /** The response has an entry for every record, and its count is positive exactly when some record failed. */
  ghost predicate Truthful(response: Response, n: nat) {
    && |response.errorCodes| == n
    && (response.failedPutCount > 0 <==> exists i :: 0 <= i < n && IsError(response.errorCodes[i]))
  }

  ghost predicate TruthfulClient<R(!new)>(client: Client<R>) {
    forall n, batch :: client(n, batch).Answered? ==> Truthful(client(n, batch).response, |batch|)
  }

  /** The records whose entries say error (or, with failed false, the others), in order. */
  function Select<R>(records: seq<R>, codes: seq<Option<string>>, failed: bool): seq<R>
    requires |codes| == |records|
  {
    if records == [] then [] else
      var n := |records| - 1;
      Select(records[..n], codes[..n], failed) + if IsError(codes[n]) == failed then [records[n]] else []
  }

  lemma {:induction false} SelectPartitions<R>(records: seq<R>, codes: seq<Option<string>>)
    requires |codes| == |records|
    ensures multiset(records) == multiset(Select(records, codes, true)) + multiset(Select(records, codes, false))
    ensures |Select(records, codes, true)| <= |records|
  {
    if records != [] {
      var n := |records| - 1;
      SelectPartitions(records[..n], codes[..n]);
      assert records == records[..n] + [records[n]];
    }
  }

  /**
   * The picked records are those at the positions whose entries hold an error code that is not empty (or, with
   * failed false, the others), in the order of the positions.
   */
  ghost predicate Picked<R>(records: seq<R>, codes: seq<Option<string>>, failed: bool, picked: seq<R>, at: seq<nat>)
    requires |codes| == |records|
  {
    && |at| == |picked|
    && (forall j, k :: 0 <= j < k < |at| ==> at[j] < at[k])
    && (forall k :: 0 <= k < |at| ==> at[k] < |records| && picked[k] == records[at[k]])
    && (forall i: nat :: i < |records| ==> (i in at <==> (codes[i].Some? && codes[i].value != "") == failed))
  }

  lemma {:induction false} SelectPicks<R>(records: seq<R>, codes: seq<Option<string>>, failed: bool)
    returns (at: seq<nat>)
    requires |codes| == |records|
    ensures Picked(records, codes, failed, Select(records, codes, failed), at)
  {
    at := [];
    if records != [] {
      var n := |records| - 1;
      var front := SelectPicks(records[..n], codes[..n], failed);
      at := front + if IsError(codes[n]) == failed then [n] else [];
      forall i: nat | i < |records| ensures i in at <==> (codes[i].Some? && codes[i].value != "") == failed {
        if i < n {
          assert codes[..n][i] == codes[i];
          assert i in front <==> (codes[i].Some? && codes[i].value != "") == failed;
        }
      }
    }
  }

  lemma {:induction false} SelectNone<R>(records: seq<R>, codes: seq<Option<string>>)
    requires |codes| == |records| && forall i :: 0 <= i < |codes| ==> !IsError(codes[i])
    ensures Select(records, codes, true) == []
  {
    if records != [] {
      var n := |records| - 1;
      SelectNone(records[..n], codes[..n]);
    }
  }

  method GetRecordsToRetry<R>(response: Response, records: seq<R>) returns (recordsToRetry: seq<R>, ghost at: seq<nat>)
    requires Truthful(response, |records|)
    ensures recordsToRetry == Select(records, response.errorCodes, true)
    ensures Picked(records, response.errorCodes, true, recordsToRetry, at)
  {
    at := SelectPicks(records, response.errorCodes, true);
    recordsToRetry := [];
    var codes := response.errorCodes;
    if response.failedPutCount > 0 {
      var i := 0;
      while i < |codes|
        invariant 0 <= i <= |codes|
        invariant recordsToRetry == Select(records[..i], codes[..i], true)
      {
        assert records[..i + 1][..i] == records[..i] && codes[..i + 1][..i] == codes[..i];
        if IsError(codes[i]) {
          recordsToRetry := recordsToRetry + [records[i]];
        }
        i := i + 1;
      }
      assert records[..i] == records && codes[..i] == codes;
    } else {
      SelectNone(records, codes);
    }
  }

  // ----- batches

  /** Full batches in order, then what is left over; a size below one never fills a batch. */
  function Batches<R>(records: seq<R>, size: int): seq<seq<R>> {
    if records == [] then []
    else if size < 1 || |records| < size then [records]
    else [records[..size]] + Batches(records[size..], size)
  }

  function Flatten<R>(batches: seq<seq<R>>): seq<R> {
    if batches == [] then [] else batches[0] + Flatten(batches[1..])
  }

  lemma {:induction false} FlattenAppend<R>(batches: seq<seq<R>>, batch: seq<R>)
    ensures Flatten(batches + [batch]) == Flatten(batches) + batch
  {
    if batches != [] {
      assert (batches + [batch])[1..] == batches[1..] + [batch];
      FlattenAppend(batches[1..], batch);
    } else {
      assert [batch][1..] == [];
    }
  }

  /** The request sizes the service accepts. */
  predicate Sendable<R>(batch: seq<R>, size: int) {
    batch != [] && (size >= 1 ==> |batch| <= size)
  }

  /** The batches are the records in order, each can be sent, and there are only as many as needed. */
  lemma {:induction false} BatchesAreRecords<R>(records: seq<R>, size: int)
    ensures Flatten(Batches(records, size)) == records
    ensures forall b :: b in Batches(records, size) ==> Sendable(b, size)
    ensures size >= 1 && records != [] ==>
              (|Batches(records, size)| - 1) * size < |records| <= |Batches(records, size)| * size
  {
    if records != [] && !(size < 1 || |records| < size) {
      BatchesAreRecords(records[size..], size);
      assert records == records[..size] + records[size..];
      OneMore(|Batches(records[size..], size)|, size);
    } else if records != [] {
      assert [records][1..] == [];
    }
  }

  lemma TakeOne<R>(batch: seq<R>, records: seq<R>, i: nat)
    requires i < |records|
    ensures batch + records[i..] == batch + [records[i]] + records[i + 1..]
    ensures records[..i] + [records[i]] == records[..i + 1]
  {
  }

  lemma FullBatch<R>(batch: seq<R>, rest: seq<R>, size: int)
    requires |batch| == size >= 1
    ensures Batches(batch + rest, size) == [batch] + Batches([] + rest, size)
  {
    assert (batch + rest)[..size] == batch && (batch + rest)[size..] == rest && [] + rest == rest;
  }

  method BatchRecords<R>(records: seq<R>, size: int) returns (batchedRecords: seq<seq<R>>)
    ensures batchedRecords == Batches(records, size)
  {
    batchedRecords := [];
    var batch: seq<R> := [];
    var i := 0;
    assert batch + records[i..] == records;
    while i < |records|
      invariant 0 <= i <= |records|
      invariant size >= 1 ==> |batch| < size
      invariant size < 1 ==> batchedRecords == [] && batch == records[..i]
      invariant Batches(records, size) == batchedRecords + Batches(batch + records[i..], size)
    {
      TakeOne(batch, records, i);
      batch := batch + [records[i]];
      i := i + 1;
      if |batch| == size {
        FullBatch(batch, records[i..], size);
        batchedRecords := batchedRecords + [batch];
        batch := [];
      }
    }
    assert batch + records[i..] == batch;
    if |batch| > 0 {
      batchedRecords := batchedRecords + [batch];
    }
  }

  // ----- sending

  /** The calls that one batch may take; a negative setting allows none. */
  function Attempts(cfg: Config): (n: nat)
    ensures n == 0 || n == cfg.serviceUnavailableRetries
    ensures cfg.serviceUnavailableRetries <= n
  {
    if cfg.serviceUnavailableRetries > 0 then cfg.serviceUnavailableRetries else 0
  }

  /** Calls the client until it answers; None stands for the exception when it never does. */
  method PutRecordBatch<R(!new)>(cfg: Config, client: Client<R>, batch: seq<R>, callsBefore: nat)
    returns (recordsToRetry: Option<seq<R>>, calls: nat)
    requires TruthfulClient(client)
    ensures callsBefore <= calls <= callsBefore + Attempts(cfg)
    ensures recordsToRetry.None? ==>
              && calls == callsBefore + Attempts(cfg)
              && forall n :: callsBefore <= n < calls ==> client(n, batch).ClientError?
    ensures recordsToRetry.Some? ==>
              && callsBefore < calls
              && (forall n :: callsBefore <= n < calls - 1 ==> client(n, batch).ClientError?)
              && client(calls - 1, batch).Answered?
              && recordsToRetry.value == Select(batch, client(calls - 1, batch).response.errorCodes, true)
  {
    calls := callsBefore;
    var retries := cfg.serviceUnavailableRetries;
    while retries > 0
      invariant retries > 0 ==> calls + retries == callsBefore + cfg.serviceUnavailableRetries
      invariant retries <= 0 ==> calls == callsBefore + Attempts(cfg)
      invariant callsBefore <= calls
      invariant forall n :: callsBefore <= n < calls ==> client(n, batch).ClientError?
    {
      var attempt := client(calls, batch);
      calls := calls + 1;
      match attempt
      case Answered(response) =>
        var failed, _ := GetRecordsToRetry(response, batch);
        return Some(failed), calls;
      case ClientError =>
        retries := retries - 1;
    }
    recordsToRetry := None;
  }

  /** A normal return, or one of the two FirehoseExceptions. */
  datatype Outcome = Sent | RetryLimitReached | Unavailable

  /** One batch the client answered, with the number of the call that did. */
  datatype Answer<!R> = Answer(call: nat, batch: seq<R>)

  /** The records of a batch that an attempt accepted, or those it rejected. */
  function Split<R>(attempt: Attempt, batch: seq<R>, failed: bool): seq<R> {
    if attempt.ClientError? || |attempt.response.errorCodes| != |batch| then []
    else Select(batch, attempt.response.errorCodes, failed)
  }

  /** The records the client's own responses accepted. */
  function Acknowledged<R>(client: Client<R>, answers: seq<Answer<R>>): multiset<R> {
    if answers == [] then multiset{} else
      var last := answers[|answers| - 1];
      Acknowledged(client, answers[..|answers| - 1]) + multiset(Split(client(last.call, last.batch), last.batch, false))
  }

  /** How many of the answered batches came back with rejected records. */
  function Rejections<R>(client: Client<R>, answers: seq<Answer<R>>): nat {
    if answers == [] then 0 else
      var last := answers[|answers| - 1];
      Rejections(client, answers[..|answers| - 1]) +
      if Split(client(last.call, last.batch), last.batch, true) == [] then 0 else 1
  }

  /** The queue behind its first batch, with that batch's rejected records at the back. */
  function Requeue<R>(queue: seq<seq<R>>, failed: seq<R>): seq<seq<R>> {
    if queue == [] then [] else if failed == [] then queue[1..] else queue[1..] + [failed]
  }

  /** The batches still to be sent once the client has given the answers. */
  function QueueAfter<R>(client: Client<R>, first: seq<seq<R>>, answers: seq<Answer<R>>): seq<seq<R>> {
    if answers == [] then first else
      var last := answers[|answers| - 1];
      Requeue(QueueAfter(client, first, answers[..|answers| - 1]),
              Split(client(last.call, last.batch), last.batch, true))
  }

  /** The number of the first call behind the answers. */
  function Upto<R>(answers: seq<Answer<R>>): nat {
    if answers == [] then 0 else answers[|answers| - 1].call + 1
  }

  /** The client answered none of the calls from one number to another. */
  ghost predicate AllErrors<R>(client: Client<R>, batch: seq<R>, start: nat, end: nat) {
    forall n :: start <= n < end ==> client(n, batch).ClientError?
  }

  /**
   * Each answer is to the batch whose turn it was, from the first of at most so many calls in a row that was
   * not an error; the calls for one batch begin right behind the answer to the one before.
   */
  ghost predicate Follows<R>(attempts: nat, client: Client<R>, first: seq<seq<R>>, answers: seq<Answer<R>>) {
    answers == [] ||
    var front, last := answers[..|answers| - 1], answers[|answers| - 1];
    && Follows(attempts, client, first, front)
    && Upto(front) <= last.call < Upto(front) + attempts
    && QueueAfter(client, first, front) != []
    && last.batch == QueueAfter(client, first, front)[0]
    && AllErrors(client, last.batch, Upto(front), last.call)
    && client(last.call, last.batch).Answered?
    && |client(last.call, last.batch).response.errorCodes| == |last.batch|
  }

  /** Every record is acknowledged by a response or still in the queue, with its multiplicity. */
  lemma {:induction false} QueueConserves<R>(attempts: nat, client: Client<R>, first: seq<seq<R>>,
                                             answers: seq<Answer<R>>)
    requires Follows(attempts, client, first, answers)
    ensures multiset(Flatten(first)) ==
            Acknowledged(client, answers) + multiset(Flatten(QueueAfter(client, first, answers)))
  {
    if answers != [] {
      var front, last := answers[..|answers| - 1], answers[|answers| - 1];
      QueueConserves(attempts, client, first, front);
      AnswerConserves(QueueAfter(client, first, front), client(last.call, last.batch).response.errorCodes);
    }
  }

  lemma {:induction false} AnswerConserves<R>(queue: seq<seq<R>>, codes: seq<Option<string>>)
    requires queue != [] && |codes| == |queue[0]|
    ensures multiset(Flatten(queue)) ==
            multiset(Select(queue[0], codes, false)) + multiset(Flatten(Requeue(queue, Select(queue[0], codes, true))))
  {
    SelectPartitions(queue[0], codes);
    FlattenAppend(queue[1..], Select(queue[0], codes, true));
  }

  /** A batch joins the queue for each batch that came back with rejected records. */
  lemma {:induction false} QueueCounts<R>(attempts: nat, client: Client<R>, first: seq<seq<R>>,
                                          answers: seq<Answer<R>>)
    requires Follows(attempts, client, first, answers)
    ensures |answers| + |QueueAfter(client, first, answers)| == |first| + Rejections(client, answers)
  {
    if answers != [] {
      var front, last := answers[..|answers| - 1], answers[|answers| - 1];
      QueueCounts(attempts, client, first, front);
    }
  }

  /** Everything sent and everything queued is a batch the service takes. */
  lemma {:induction false} QueueSendable<R>(attempts: nat, client: Client<R>, first: seq<seq<R>>,
                                            answers: seq<Answer<R>>, size: int)
    requires Follows(attempts, client, first, answers) && forall b :: b in first ==> Sendable(b, size)
    ensures forall b :: b in QueueAfter(client, first, answers) ==> Sendable(b, size)
    ensures forall a :: a in answers ==> Sendable(a.batch, size)
  {
    if answers != [] {
      var front, last := answers[..|answers| - 1], answers[|answers| - 1];
      QueueSendable(attempts, client, first, front, size);
      var queue := QueueAfter(client, first, front);
      SelectPartitions(last.batch, client(last.call, last.batch).response.errorCodes);
      assert queue[0] in queue;
      assert forall a :: a in answers ==> a in front || a == last;
    }
  }

  /** Each answer took at most so many calls. */
  lemma {:induction false} CallsBounded<R>(attempts: nat, client: Client<R>, first: seq<seq<R>>,
                                           answers: seq<Answer<R>>)
    requires Follows(attempts, client, first, answers)
    ensures |answers| <= Upto(answers) <= |answers| * attempts
  {
    if answers != [] {
      CallsBounded(attempts, client, first, answers[..|answers| - 1]);
      OneMore(|answers| - 1, attempts);
    }
  }

  /** How many batches were put to the client: the answered ones, and the one it never answered. */
  function Rounds(outcome: Outcome, answered: nat): nat {
    if outcome == Unavailable then answered + 1 else answered
  }

  /**
   * The retry limit is what stops a call exactly when that many batches came back with rejected records, and
   * then at the last of them, so there are at most as many rounds as batches at first plus the limit less one;
   * a limit below one stops it after one round.
   */
  ghost predicate Bounded<R>(limit: int, client: Client<R>, first: seq<seq<R>>, outcome: Outcome,
                             answers: seq<Answer<R>>) {
    var rounds := Rounds(outcome, |answers|);
    && (outcome == RetryLimitReached <==> answers != [] && Rejections(client, answers) >= limit)
    && (limit >= 1 ==> Rejections(client, answers) <= limit)
    && (outcome == RetryLimitReached && limit >= 1 ==> Rejections(client, answers[..|answers| - 1]) == limit - 1)
    && (limit >= 1 && first != [] ==> rounds <= |first| + limit - 1)
    && (limit < 1 ==> rounds <= 1)
  }

  /**
   * The ways the loop can stop: with nothing left to send, at the retry limit, or when every attempt at the
   * next batch was an error.
   */
  ghost predicate Stopped<R>(cfg: Config, client: Client<R>, outcome: Outcome, answers: seq<Answer<R>>,
                             queue: seq<seq<R>>)
  {
    var limit := cfg.recordRetryLimit;
    if outcome == RetryLimitReached then
      && answers != []
      && Rejections(client, answers) >= limit
      && (if limit >= 1 then Rejections(client, answers) == limit && queue != [] else |answers| == 1)
      && (limit >= 1 ==> Rejections(client, answers[..|answers| - 1]) == limit - 1)
    else
      && (outcome == Sent <==> queue == [])
      && (answers != [] ==> Rejections(client, answers) < limit)
      && (outcome == Unavailable ==> AllErrors(client, queue[0], Upto(answers), Upto(answers) + Attempts(cfg)))
  }

  /** All calls made: those up to the last answer, and the attempts at a batch that was never answered. */
  function CallsMade<R>(cfg: Config, outcome: Outcome, answers: seq<Answer<R>>): nat {
    Upto(answers) + if outcome == Unavailable then Attempts(cfg) else 0
  }

  lemma StoppedIsBounded<R>(cfg: Config, client: Client<R>, first: seq<seq<R>>, outcome: Outcome,
                            answers: seq<Answer<R>>)
    requires Follows(Attempts(cfg), client, first, answers)
    requires Stopped(cfg, client, outcome, answers, QueueAfter(client, first, answers))
    ensures Bounded(cfg.recordRetryLimit, client, first, outcome, answers)
    ensures CallsMade(cfg, outcome, answers) <= Rounds(outcome, |answers|) * Attempts(cfg)
  {
    QueueCounts(Attempts(cfg), client, first, answers);
    CallsBounded(Attempts(cfg), client, first, answers);
    OneMore(|answers|, Attempts(cfg));
  }

  // ----- what is acknowledged, and in which order batches are sent

  /** The entry holds no error code. */
  predicate Accepted(codes: seq<Option<string>>, i: nat)
    requires i < |codes|
  {
    codes[i].None? || codes[i].value == ""
  }

  /** The places of a record in a batch whose entries hold no error code. */
  ghost function SpotsIn<R>(records: seq<R>, codes: seq<Option<string>>, x: R): set<nat>
    requires |codes| == |records|
  {
    set i: nat | i < |records| && Accepted(codes, i) && records[i] == x
  }

  lemma CountSnoc<R>(s: seq<R>, y: R, x: R)
    ensures multiset(s + [y])[x] == multiset(s)[x] + if y == x then 1 else 0
  {
  }

  lemma {:induction false} SpotsSnoc<R>(records: seq<R>, codes: seq<Option<string>>, x: R)
    requires |codes| == |records| > 0
    ensures var m := |records| - 1;
            SpotsIn(records, codes, x) ==
            SpotsIn(records[..m], codes[..m], x) + if Accepted(codes, m) && records[m] == x then {m} else {}
  {
    var m := |records| - 1;
    forall i: nat | i < m ensures Accepted(codes[..m], i) == Accepted(codes, i) && records[..m][i] == records[i] {}
  }

  lemma {:induction false} SpotsAreSelected<R>(records: seq<R>, codes: seq<Option<string>>, x: R)
    requires |codes| == |records|
    ensures |SpotsIn(records, codes, x)| == multiset(Select(records, codes, false))[x]
  {
    if records != [] {
      var m := |records| - 1;
      SpotsAreSelected(records[..m], codes[..m], x);
      SpotsSnoc(records, codes, x);
      if Accepted(codes, m) {
        CountSnoc(Select(records[..m], codes[..m], false), records[m], x);
        assert m !in SpotsIn(records[..m], codes[..m], x);
      }
    }
  }

  /** How often the answers accepted a record: the entries for it without an error code, answer by answer. */
  ghost function TimesAccepted<R>(client: Client<R>, answers: seq<Answer<R>>, x: R): nat {
    if answers == [] then 0 else
      var last := answers[|answers| - 1];
      var attempt := client(last.call, last.batch);
      TimesAccepted(client, answers[..|answers| - 1], x) +
      if attempt.ClientError? || |attempt.response.errorCodes| != |last.batch| then 0
      else |SpotsIn(last.batch, attempt.response.errorCodes, x)|
  }

  /** A record is acknowledged as often as there are entries for it without an error code. */
  lemma {:induction false} AcknowledgedCounts<R>(client: Client<R>, answers: seq<Answer<R>>, x: R)
    ensures Acknowledged(client, answers)[x] == TimesAccepted(client, answers, x)
  {
    if answers != [] {
      var last := answers[|answers| - 1];
      AcknowledgedCounts(client, answers[..|answers| - 1], x);
      var attempt := client(last.call, last.batch);
      if attempt.Answered? && |attempt.response.errorCodes| == |last.batch| {
        SpotsAreSelected(last.batch, attempt.response.errorCodes, x);
      }
    }
  }

  /** The rejected records of each answer that had some, in the order of the answers. */
  function Retried<R>(client: Client<R>, answers: seq<Answer<R>>): seq<seq<R>> {
    if answers == [] then [] else
      var last := answers[|answers| - 1];
      var failed := Split(client(last.call, last.batch), last.batch, true);
      Retried(client, answers[..|answers| - 1]) + if failed == [] then [] else [failed]
  }

  /** The batches are worked through in order, and rejected records are put behind all of them. */
  lemma {:induction false} SentInOrder<R>(attempts: nat, client: Client<R>, first: seq<seq<R>>, answers: seq<Answer<R>>)
    requires Follows(attempts, client, first, answers)
    ensures var all := first + Retried(client, answers);
            && |answers| <= |all|
            && QueueAfter(client, first, answers) == all[|answers|..]
            && forall i :: 0 <= i < |answers| ==> answers[i].batch == all[i]
  {
    if answers != [] {
      var n := |answers| - 1;
      SentInOrder(attempts, client, first, answers[..n]);
      assert forall i :: 0 <= i < n ==> answers[..n][i] == answers[i];
    }
  }

  // ----- the client's behaviour leaves only one course

  lemma {:induction false} FollowsFront<R>(attempts: nat, client: Client<R>, first: seq<seq<R>>,
                                           answers: seq<Answer<R>>, n: nat)
    requires n <= |answers| && Follows(attempts, client, first, answers)
    ensures Follows(attempts, client, first, answers[..n])
    decreases |answers|
  {
    if n == |answers| {
      assert answers[..n] == answers;
    } else {
      var front := answers[..|answers| - 1];
      FollowsFront(attempts, client, first, front, n);
      assert front[..n] == answers[..n];
    }
  }

  /** There is only one first call that is not an error. */
  lemma FirstAnswer<R>(client: Client<R>, a: Answer<R>, b: Answer<R>, start: nat)
    requires a.batch == b.batch && start <= a.call && start <= b.call
    requires AllErrors(client, a.batch, start, a.call) && client(a.call, a.batch).Answered?
    requires AllErrors(client, b.batch, start, b.call) && client(b.call, b.batch).Answered?
    ensures a == b
  {
  }

  /** Two logs of the same length that both follow the client are the same. */
  lemma {:induction false} SameAnswers<R>(attempts: nat, client: Client<R>, first: seq<seq<R>>,
                                          a: seq<Answer<R>>, b: seq<Answer<R>>)
    requires |a| == |b| && Follows(attempts, client, first, a) && Follows(attempts, client, first, b)
    ensures a == b
  {
    if a != [] {
      var n := |a| - 1;
      SameAnswers(attempts, client, first, a[..n], b[..n]);
      FirstAnswer(client, a[n], b[n], Upto(a[..n]));
      assert a == a[..n] + [a[n]] && b == b[..n] + [b[n]];
    }
  }

  lemma {:induction false} RejectionsGrow<R>(client: Client<R>, answers: seq<Answer<R>>, n: nat)
    requires n <= |answers|
    ensures Rejections(client, answers[..n]) <= Rejections(client, answers)
    decreases |answers|
  {
    if n == |answers| {
      assert answers[..n] == answers;
    } else {
      var front := answers[..|answers| - 1];
      RejectionsGrow(client, front, n);
      assert front[..n] == answers[..n];
    }
  }

  /** Where a log goes on, there was a batch to send, and the client answered it. */
  lemma {:induction false} WentOn<R>(attempts: nat, client: Client<R>, first: seq<seq<R>>,
                                     later: seq<Answer<R>>, n: nat)
    requires Follows(attempts, client, first, later) && n < |later|
    ensures var queue := QueueAfter(client, first, later[..n]);
            && queue != []
            && !AllErrors(client, queue[0], Upto(later[..n]), Upto(later[..n]) + attempts)
  {
    var next := later[..n + 1];
    FollowsFront(attempts, client, first, later, n + 1);
    assert next[..|next| - 1] == later[..n];
    assert client(next[n].call, next[n].batch).Answered?;
  }

  /** Where a log goes on, the retry limit was not reached. */
  lemma {:induction false} BelowLimit<R>(cfg: Config, client: Client<R>, outcome: Outcome, later: seq<Answer<R>>,
                                         queue: seq<seq<R>>, n: nat)
    requires n < |later| && Stopped(cfg, client, outcome, later, queue)
    ensures n == 0 || Rejections(client, later[..n]) < cfg.recordRetryLimit
  {
    var front := later[..|later| - 1];
    RejectionsGrow(client, front, n);
    assert front[..n] == later[..n];
    RejectionsGrow(client, later, n);
  }

  /** The loop cannot have stopped at a point that a longer log goes past. */
  lemma {:induction false} NoEarlierStop<R>(cfg: Config, client: Client<R>, first: seq<seq<R>>, outcome: Outcome,
                                            later: seq<Answer<R>>, laterOutcome: Outcome, n: nat)
    requires Follows(Attempts(cfg), client, first, later) && n < |later|
    requires Stopped(cfg, client, laterOutcome, later, QueueAfter(client, first, later))
    ensures !Stopped(cfg, client, outcome, later[..n], QueueAfter(client, first, later[..n]))
  {
    WentOn(Attempts(cfg), client, first, later, n);
    BelowLimit(cfg, client, laterOutcome, later, QueueAfter(client, first, later), n);
  }

  /** The configuration, the client and the batches determine the answers, what is pending and how it ends. */
  lemma {:induction false} OneCourse<R>(cfg: Config, client: Client<R>, first: seq<seq<R>>,
                                        outcomeA: Outcome, a: seq<Answer<R>>, outcomeB: Outcome, b: seq<Answer<R>>)
    requires Follows(Attempts(cfg), client, first, a) && Follows(Attempts(cfg), client, first, b)
    requires Stopped(cfg, client, outcomeA, a, QueueAfter(client, first, a))
    requires Stopped(cfg, client, outcomeB, b, QueueAfter(client, first, b))
    ensures a == b && outcomeA == outcomeB
  {
    if |a| < |b| {
      FollowsFront(Attempts(cfg), client, first, b, |a|);
      SameAnswers(Attempts(cfg), client, first, a, b[..|a|]);
      NoEarlierStop(cfg, client, first, outcomeA, b, outcomeB, |a|);
    } else if |b| < |a| {
      FollowsFront(Attempts(cfg), client, first, a, |b|);
      SameAnswers(Attempts(cfg), client, first, b, a[..|b|]);
      NoEarlierStop(cfg, client, first, outcomeB, a, outcomeA, |b|);
    } else {
      SameAnswers(Attempts(cfg), client, first, a, b);
    }
  }

  /**
   * The records are sent in batches, each put to the client until it answers. Every record is acknowledged by a
   * response or still pending, and a normal return leaves nothing pending; no other call than the logged
   * answers was answered, so then every record was acknowledged exactly once. The results record what passed
   * between the two: the number of calls, the answered batches, and those the client has not accepted.
   */
  method SendRecords<R(!new)>(cfg: Config, client: Client<R>, records: seq<R>)
    returns (outcome: Outcome, calls: nat, answers: seq<Answer<R>>, pending: seq<seq<R>>)
    requires TruthfulClient(client)
    ensures var first := Batches(records, cfg.maxBatchSize);
            && Follows(Attempts(cfg), client, first, answers)
            && pending == QueueAfter(client, first, answers)
            && Stopped(cfg, client, outcome, answers, pending)
            && Bounded(cfg.recordRetryLimit, client, first, outcome, answers)
    ensures calls == CallsMade(cfg, outcome, answers)
    ensures multiset(records) == Acknowledged(client, answers) + multiset(Flatten(pending))
    ensures outcome == Sent ==> pending == [] && Acknowledged(client, answers) == multiset(records)
    ensures forall x :: Acknowledged(client, answers)[x] == TimesAccepted(client, answers, x)
    ensures var all := Batches(records, cfg.maxBatchSize) + Retried(client, answers);
            |answers| <= |all| && forall i :: 0 <= i < |answers| ==> answers[i].batch == all[i]
    ensures forall a :: a in answers ==> Sendable(a.batch, cfg.maxBatchSize)
    ensures forall b :: b in pending ==> Sendable(b, cfg.maxBatchSize)
    ensures calls <= Rounds(outcome, |answers|) * Attempts(cfg)
  {
    var batchedRecords := BatchRecords(records, cfg.maxBatchSize);
    ghost var first := batchedRecords;
    BatchesAreRecords(records, cfg.maxBatchSize);
    outcome, calls, answers, pending := SendBatches(cfg, client, batchedRecords);
    QueueConserves(Attempts(cfg), client, first, answers);
    SentInOrder(Attempts(cfg), client, first, answers);
    forall x ensures Acknowledged(client, answers)[x] == TimesAccepted(client, answers, x) {
      AcknowledgedCounts(client, answers, x);
    }
    QueueSendable(Attempts(cfg), client, first, answers, cfg.maxBatchSize);
    StoppedIsBounded(cfg, client, first, outcome, answers);
  }

  /** What the loop over the batches keeps: where it stands in the queue, and a retry count below the limit. */
  ghost predicate Sending<R>(cfg: Config, client: Client<R>, first: seq<seq<R>>, answers: seq<Answer<R>>,
                             queue: seq<seq<R>>, i: nat, retryTimes: int)
  {
    && |answers| == i
    && Follows(Attempts(cfg), client, first, answers)
    && QueueAfter(client, first, answers) == queue
    && retryTimes == Rejections(client, answers)
    && (i > 0 ==> retryTimes < cfg.recordRetryLimit)
  }

  /** The loop over the batches, which grows its list while it runs. */
  method SendBatches<R(!new)>(cfg: Config, client: Client<R>, first: seq<seq<R>>)
    returns (outcome: Outcome, calls: nat, answers: seq<Answer<R>>, pending: seq<seq<R>>)
    requires TruthfulClient(client)
    ensures Follows(Attempts(cfg), client, first, answers) && pending == QueueAfter(client, first, answers)
    ensures Stopped(cfg, client, outcome, answers, pending)
    ensures calls == CallsMade(cfg, outcome, answers)
  {
    calls, answers := 0, [];
    var batchedRecords := first;
    var i, retryTimes := 0, 0;
    while i < |batchedRecords|
      invariant 0 <= i <= |batchedRecords| && calls == Upto(answers)
      invariant Sending(cfg, client, first, answers, batchedRecords[i..], i, retryTimes)
      decreases cfg.recordRetryLimit - retryTimes, |batchedRecords| - i
    {
      var recordsToRetry, callsAfter := PutRecordBatch(cfg, client, batchedRecords[i], calls);
      if recordsToRetry.None? {
        return Unavailable, callsAfter, answers, batchedRecords[i..];
      }
      AnswerCounts(cfg, client, first, answers, batchedRecords, i, retryTimes, callsAfter, recordsToRetry.value);
      answers := answers + [Answer(callsAfter - 1, batchedRecords[i])];
      calls := callsAfter;
      if |recordsToRetry.value| > 0 {
        batchedRecords := batchedRecords + [recordsToRetry.value];
        retryTimes := retryTimes + 1;
      }
      i := i + 1;
      if retryTimes >= cfg.recordRetryLimit {
        return RetryLimitReached, calls, answers, batchedRecords[i..];
      }
    }
    outcome, pending := Sent, batchedRecords[i..];
  }

  /** The call before callsAfter is the first that the client answered for the batch, and rejected these records. */
  ghost predicate AnsweredBy<R>(attempts: nat, client: Client<R>, answers: seq<Answer<R>>, batch: seq<R>,
                                callsAfter: nat, failed: seq<R>)
  {
    && Upto(answers) < callsAfter <= Upto(answers) + attempts
    && AllErrors(client, batch, Upto(answers), callsAfter - 1)
    && client(callsAfter - 1, batch).Answered?
    && |client(callsAfter - 1, batch).response.errorCodes| == |batch|
    && failed == Select(batch, client(callsAfter - 1, batch).response.errorCodes, true)
  }

  /** After one more answer the loop goes on as before, or the retry limit stops it. */
  lemma {:induction false} AnswerCounts<R>(cfg: Config, client: Client<R>, first: seq<seq<R>>, answers: seq<Answer<R>>,
                                           batched: seq<seq<R>>, i: nat, retryTimes: int, callsAfter: nat,
                                           failed: seq<R>)
    requires i < |batched| && Sending(cfg, client, first, answers, batched[i..], i, retryTimes)
    requires AnsweredBy(Attempts(cfg), client, answers, batched[i], callsAfter, failed)
    ensures var after := answers + [Answer(callsAfter - 1, batched[i])];
            var queue := (if |failed| > 0 then batched + [failed] else batched)[i + 1..];
            var retries := if |failed| > 0 then retryTimes + 1 else retryTimes;
            && Upto(after) == callsAfter
            && if retries >= cfg.recordRetryLimit then
                 && |after| == i + 1 && Follows(Attempts(cfg), client, first, after)
                 && queue == QueueAfter(client, first, after) && Stopped(cfg, client, RetryLimitReached, after, queue)
               else Sending(cfg, client, first, after, queue, i + 1, retries)
  {
    AnswerAdded(Attempts(cfg), client, first, answers, batched, i, callsAfter, failed);
    var after := answers + [Answer(callsAfter - 1, batched[i])];
    assert after[..|after| - 1] == answers;
  }

  /** One more answer takes the batch off the queue and puts its rejected records at the back. */
  lemma {:induction false} AnswerAdded<R>(attempts: nat, client: Client<R>, first: seq<seq<R>>, answers: seq<Answer<R>>,
                                          batched: seq<seq<R>>, i: nat, callsAfter: nat, failed: seq<R>)
    requires Follows(attempts, client, first, answers)
    requires i < |batched| && QueueAfter(client, first, answers) == batched[i..]
    requires AnsweredBy(attempts, client, answers, batched[i], callsAfter, failed)
    ensures var after := answers + [Answer(callsAfter - 1, batched[i])];
            && Follows(attempts, client, first, after)
            && QueueAfter(client, first, after) == (if |failed| > 0 then batched + [failed] else batched)[i + 1..]
            && Rejections(client, after) == Rejections(client, answers) + if |failed| > 0 then 1 else 0
  {
    var after := answers + [Answer(callsAfter - 1, batched[i])];
    assert after[..|after| - 1] == answers;
    assert (batched + [failed])[i + 1..] == batched[i..][1..] + [failed];
  }
}
