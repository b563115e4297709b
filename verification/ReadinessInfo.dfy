/** The shard-info record of dp4_redis.py: its Redis encoding, the Info parser and record_info. */
module ReadinessInfo {
  import opened Wrappers
  import opened Text
  import opened Facts

  const TIME_BETWEEN_INFO_UPDATE := 60

  /** The fields of an info hash, as the strings Redis holds. */
  datatype InfoHash = InfoHash(shards: string, startTs: string, batchSecs: string, created: string, awsError: string)

  /** A parsed record. Its created field is None when the text is not a number; the code then takes the current time. */
  datatype Info = Info(shards: set<string>, startTs: int, batchSecs: int, endTs: int, created: Option<int>,
                       awsError: bool)

  function BoolText(b: bool): string {
    if b then "True" else "False"
  }

  /** Info(values). None stands for the ValueError of int() on a start or a length that is not a number. */
  function ParseInfo(h: InfoHash): Option<Info> {
    var start, secs := ParseInt(h.startTs), ParseInt(h.batchSecs);
    if start.None? || secs.None? then None
    else Some(Info(SetOf(Split(h.shards, ',')), start.value, secs.value, start.value + secs.value,
                   ParseInt(h.created), h.awsError == "True"))
  }

  /** The record is younger than the time between two updates. */
  predicate Young(info: Info, now: int) {
    info.created.None? || now - info.created.value < TIME_BETWEEN_INFO_UPDATE
  }

  function StartTs(batchEndEpoch: int, batchSecs: int): int {
    if batchEndEpoch - batchSecs < 0 then 0 else batchEndEpoch - batchSecs
  }

  /** The hash record_info writes; shards is the active set in the order the join happens to visit it. */
  function EncodeInfo(batchEndEpoch: int, batchSecs: int, created: int, shards: seq<string>): InfoHash {
    InfoHash(Join(shards, ','), IntText(StartTs(batchEndEpoch, batchSecs)), IntText(batchSecs), IntText(created),
             BoolText(shards == []))
  }

  /**
   * Every field but the shard set reads back as written. The shard set does exactly when it is not
   * empty and no id holds the separator: an empty set reads back as the set of one empty id.
   */
  lemma InfoRoundTrip(batchEndEpoch: int, batchSecs: int, created: int, shards: seq<string>)
    ensures var parsed := ParseInfo(EncodeInfo(batchEndEpoch, batchSecs, created, shards));
            && parsed.Some?
            && parsed.value.startTs == StartTs(batchEndEpoch, batchSecs)
            && parsed.value.batchSecs == batchSecs
            && parsed.value.created == Some(created)
            && parsed.value.awsError == (shards == [])
            && (parsed.value.shards == SetOf(shards) <==> shards != [] && forall id :: id in shards ==> ',' !in id)
  {
    IntRoundTrip(StartTs(batchEndEpoch, batchSecs));
    IntRoundTrip(batchSecs);
    IntRoundTrip(created);
    var pieces := Split(Join(shards, ','), ',');
    if shards != [] && forall id :: id in shards ==> ',' !in id {
      SplitJoin(shards, ',');
    } else {
      SplitPiecesPlain(Join(shards, ','), ',');
      assert pieces[0] in SetOf(pieces);
      if shards != [] {
        var id :| id in shards && ',' in id;
        assert id in SetOf(shards) && id !in SetOf(pieces);
      }
    }
  }

  /** The start written is the batch's length before its end, but not before zero. */
  lemma StartIsClamped(batchEndEpoch: int, batchSecs: int, created: int, shards: seq<string>)
    ensures var start := ParseInt(EncodeInfo(batchEndEpoch, batchSecs, created, shards).startTs);
            && start.Some? && start.value >= 0 && start.value >= batchEndEpoch - batchSecs
            && (start.value == 0 || start.value == batchEndEpoch - batchSecs)
  {
    IntRoundTrip(StartTs(batchEndEpoch, batchSecs));
  }

  /** The parsed end is the batch end the record is filed under unless the start was clamped to zero. */
  lemma EndTsIsBatchEnd(batchEndEpoch: int, batchSecs: int, created: int, shards: seq<string>)
    ensures var parsed := ParseInfo(EncodeInfo(batchEndEpoch, batchSecs, created, shards));
            parsed.Some? && (parsed.value.endTs == batchEndEpoch <==> batchSecs <= batchEndEpoch)
  {
    InfoRoundTrip(batchEndEpoch, batchSecs, created, shards);
  }

  /** One call of record_info: its client's batch length, the two clock readings and what AWS listed. */
  datatype InfoCall = InfoCall(batchSecs: int, checkedAt: int, createdAt: int, activeShards: seq<string>)

  predicate WellFormed(stored: Option<InfoHash>) {
    stored.Some? ==> ParseInfo(stored.value).Some?
  }

  /** A parsed record is stored and it does not carry the AWS error mark. */
  predicate Good(stored: Option<InfoHash>)
    requires WellFormed(stored)
  {
    stored.Some? && !ParseInfo(stored.value).value.awsError
  }

  /** The call writes, given the record it read: that is not good, or it is old and AWS told of a shard. */
  predicate Writes(seen: Option<InfoHash>, call: InfoCall)
    requires WellFormed(seen)
  {
    !Good(seen) || (!Young(ParseInfo(seen.value).value, call.checkedAt) && call.activeShards != [])
  }

  /**
   * What record_info leaves stored for the epoch, and what it returns, when no other call comes between its
   * read and its write.
   */
  function RecordInfo(stored: Option<InfoHash>, batchEndEpoch: int, call: InfoCall): (Option<InfoHash>, bool)
    requires WellFormed(stored)
  {
    if Writes(stored, call) then
      (Some(EncodeInfo(batchEndEpoch, call.batchSecs, call.createdAt, call.activeShards)), call.activeShards != [])
    else (stored, true)
  }

  /** Each call returns True exactly when a good record is stored afterwards, and keeps a good one good. */
  lemma {:induction false} RecordInfoStep(stored: Option<InfoHash>, batchEndEpoch: int, call: InfoCall)
    requires WellFormed(stored)
    ensures var (after, ok) := RecordInfo(stored, batchEndEpoch, call);
            && WellFormed(after)
            && after.Some?
            && (ok <==> Good(after))
            && (Good(stored) ==> Good(after))
            && (call.activeShards != [] ==> Good(after))
  {
    InfoRoundTrip(batchEndEpoch, call.batchSecs, call.createdAt, call.activeShards);
  }

  /**
   * A good record that is less than a minute old stays as it is, and so does any good record when the call
   * hears of no shard. Every other call writes a record: with the shards it heard of and its own clock, and
   * with the AWS mark exactly when there are none.
   */
  lemma {:induction false} RecordInfoWrites(stored: Option<InfoHash>, batchEndEpoch: int, call: InfoCall)
    requires WellFormed(stored)
    ensures var after := RecordInfo(stored, batchEndEpoch, call).0;
            var good := stored.Some? && stored.value.awsError != "True";
            var created := if good then ParseInt(stored.value.created) else None;
            if good && (created.None? || call.checkedAt - created.value < 60 || call.activeShards == []) then
              after == stored
            else
              && after.Some? && ParseInt(after.value.created) == Some(call.createdAt)
              && ParseInt(after.value.batchSecs) == Some(call.batchSecs)
              && (after.value.awsError == "True" <==> call.activeShards == [])
              && (call.activeShards != [] && (forall id :: id in call.activeShards ==> ',' !in id) ==>
                    ParseInfo(after.value).Some? && ParseInfo(after.value).value.shards == SetOf(call.activeShards))
  {
    InfoRoundTrip(batchEndEpoch, call.batchSecs, call.createdAt, call.activeShards);
    IntRoundTrip(call.createdAt);
    IntRoundTrip(call.batchSecs);
  }

  /** The stored record after a sequence of calls, one at a time, with any clocks and any AWS answers. */
  function RunInfo(stored: Option<InfoHash>, batchEndEpoch: int, calls: seq<InfoCall>): (after: Option<InfoHash>)
    requires WellFormed(stored)
    ensures WellFormed(after)
    decreases |calls|
  {
    if calls == [] then stored else
      var before := RunInfo(stored, batchEndEpoch, calls[..|calls| - 1]);
      RecordInfoStep(before, batchEndEpoch, calls[|calls| - 1]);
      RecordInfo(before, batchEndEpoch, calls[|calls| - 1]).0
  }

  lemma {:induction false} RunInfoSnoc(stored: Option<InfoHash>, batchEndEpoch: int, calls: seq<InfoCall>,
                                       call: InfoCall)
    requires WellFormed(stored)
    ensures RunInfo(stored, batchEndEpoch, calls + [call]) ==
            RecordInfo(RunInfo(stored, batchEndEpoch, calls), batchEndEpoch, call).0
  {
    assert (calls + [call])[..|calls|] == calls;
  }

  /**
   * Over every sequence of calls that do not overlap a good record is never replaced by an error one, and the
   * record is good in the end exactly when it was good at the start or some call heard of a shard from AWS.
   */
  lemma {:induction false} NeverDowngraded(stored: Option<InfoHash>, batchEndEpoch: int, calls: seq<InfoCall>)
    requires WellFormed(stored)
    ensures Good(RunInfo(stored, batchEndEpoch, calls)) <==>
            Good(stored) || exists c :: c in calls && c.activeShards != []
    decreases |calls|
  {
    if calls != [] {
      var n := |calls| - 1;
      NeverDowngraded(stored, batchEndEpoch, calls[..n]);
      RecordInfoStep(RunInfo(stored, batchEndEpoch, calls[..n]), batchEndEpoch, calls[n]);
      assert forall c :: c in calls <==> c == calls[n] || c in calls[..n];
    }
  }
}
