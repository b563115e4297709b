/** The paged Kinesis shard listing, _get_stream_shards in dp4_redis.py. */
module StreamShards {
  import opened Facts

  const PAGE_LIMIT := 100

  datatype Shard = Shard(id: string, ended: bool)

  /** The order of shard ids: lexicographic. */
  predicate Before(a: string, b: string) {
    b != "" && (a == "" || a[0] < b[0] || (a[0] == b[0] && Before(a[1..], b[1..])))
  }

  /** Of two different ids one comes first. */
  lemma {:induction false} BeforeIsTotal(a: string, b: string)
    ensures a == b || Before(a, b) || Before(b, a)
  {
    if a != "" && b != "" && a[0] == b[0] {
      BeforeIsTotal(a[1..], b[1..]);
      assert a == [a[0]] + a[1..] && b == [b[0]] + b[1..];
    }
  }

  lemma {:induction false} BeforeIsStrict(a: string, b: string)
    ensures !(Before(a, b) && Before(b, a))
  {
    if a != "" && b != "" {
      BeforeIsStrict(a[1..], b[1..]);
    }
  }

  predicate InIdOrder(stream: seq<Shard>) {
    forall i, j :: 0 <= i < j < |stream| ==> Before(stream[i].id, stream[j].id)
  }

  function After(stream: seq<Shard>, cursor: string): seq<Shard> {
    if stream == [] then []
    else (if Before(cursor, stream[0].id) then [stream[0]] else []) + After(stream[1..], cursor)
  }

  /** What describe_stream answers: the first shards after the cursor, in id order, at most a page of them. */
  function Page(stream: seq<Shard>, cursor: string): seq<Shard> {
    var rest := After(stream, cursor);
    if |rest| <= PAGE_LIMIT then rest else rest[..PAGE_LIMIT]
  }

  function Active(shards: seq<Shard>): set<string> {
    set s | s in shards && !s.ended :: s.id
  }

  lemma {:induction false} AfterAll(stream: seq<Shard>, cursor: string)
    requires forall s :: s in stream ==> Before(cursor, s.id)
    ensures After(stream, cursor) == stream
  {
    if stream != [] {
      assert stream[0] in stream;
      AfterAll(stream[1..], cursor);
    }
  }

  lemma {:induction false} AfterNone(stream: seq<Shard>, cursor: string)
    requires forall s :: s in stream ==> !Before(cursor, s.id)
    ensures After(stream, cursor) == []
  {
    if stream != [] {
      assert stream[0] in stream;
      AfterNone(stream[1..], cursor);
    }
  }

  lemma {:induction false} AfterConcat(a: seq<Shard>, b: seq<Shard>, cursor: string)
    ensures After(a + b, cursor) == After(a, cursor) + After(b, cursor)
  {
    if a == [] {
      assert a + b == b;
    } else {
      AfterConcat(a[1..], b, cursor);
      assert (a + b)[0] == a[0] && (a + b)[1..] == a[1..] + b;
      Regroup(if Before(cursor, a[0].id) then [a[0]] else [], After(a[1..], cursor), After(b, cursor));
    }
  }

  /** With the id of a listed shard as cursor, exactly the shards behind it come after. */
  lemma AfterListed(stream: seq<Shard>, n: nat)
    requires InIdOrder(stream) && 1 <= n <= |stream|
    ensures After(stream, stream[n - 1].id) == stream[n..]
  {
    var cursor := stream[n - 1].id;
    assert stream == stream[..n] + stream[n..];
    AfterConcat(stream[..n], stream[n..], cursor);
    forall s | s in stream[..n] ensures !Before(cursor, s.id) {
      var i :| 0 <= i < n && stream[i] == s;
      BeforeIsStrict(cursor, s.id);
    }
    AfterNone(stream[..n], cursor);
    AfterAll(stream[n..], cursor);
  }

  /** The cursor once the first n shards are listed. */
  function Cursor(stream: seq<Shard>, n: nat): string
    requires n <= |stream|
  {
    if n == 0 then "0" else stream[n - 1].id
  }

  lemma PageAt(stream: seq<Shard>, n: nat)
    requires InIdOrder(stream) && n <= |stream|
    requires forall s :: s in stream ==> Before("0", s.id)
    ensures Page(stream, Cursor(stream, n)) ==
            if |stream| - n <= PAGE_LIMIT then stream[n..] else stream[n..n + PAGE_LIMIT]
  {
    if n == 0 {
      AfterAll(stream, "0");
    } else {
      AfterListed(stream, n);
    }
  }

  /** The first n shards are listed. */
  ghost predicate Listing(stream: seq<Shard>, n: nat, cursor: string, active: set<string>) {
    n <= |stream| && cursor == Cursor(stream, n) && active == Active(stream[..n])
  }

  /** The inner loop over the page that follows the first n shards: one more listed shard for each of its shards. */
  method AddPage(ghost stream: seq<Shard>, ghost n: nat, shards: seq<Shard>, activeBefore: set<string>, cursor: string)
    returns (activeShards: set<string>, shardId: string)
    requires Listing(stream, n, cursor, activeBefore)
    requires n + |shards| <= |stream| && shards == stream[n..n + |shards|]
    ensures Listing(stream, n + |shards|, shardId, activeShards)
  {
    activeShards, shardId := activeBefore, cursor;
    var i := 0;
    while i < |shards|
      invariant 0 <= i <= |shards|
      invariant Listing(stream, n + i, shardId, activeShards)
    {
      assert stream[..n + i + 1] == stream[..n + i] + [shards[i]];
      shardId := shards[i].id;
      if !shards[i].ended {
        activeShards := activeShards + {shardId};
      }
      i := i + 1;
    }
  }

  /** How many describe_stream calls a listing makes when none of them is refused. */
  function CallCount(stream: seq<Shard>): nat {
    |stream| / PAGE_LIMIT + 1
  }

  /** One of the first n calls is refused. */
  ghost predicate RefusedBefore(refuses: nat -> bool, n: nat) {
    exists c: nat :: c < n && refuses(c)
  }

  /** Where the listing stands after some calls: at full pages so far, or at the end after the last call. */
  ghost predicate Paged(stream: seq<Shard>, calls: nat, listed: nat, nShards: nat) {
    && nShards <= PAGE_LIMIT && listed <= |stream|
    && (nShards == PAGE_LIMIT ==> listed == calls * PAGE_LIMIT)
    && (nShards < PAGE_LIMIT ==> listed == |stream| && calls == CallCount(stream))
  }

  /** One more page, when there is one to ask for. */
  lemma PageFollows(stream: seq<Shard>, calls: nat, listed: nat)
    requires InIdOrder(stream) && Paged(stream, calls, listed, PAGE_LIMIT)
    requires forall s :: s in stream ==> Before("0", s.id)
    ensures calls < CallCount(stream)
    ensures var shards := Page(stream, Cursor(stream, listed));
            && listed + |shards| <= |stream| && shards == stream[listed..listed + |shards|]
            && Paged(stream, calls + 1, listed + |shards|, |shards|)
  {
    PageAt(stream, listed);
  }

  /** A call that is made and refused is one of those a full listing makes. */
  lemma RefusalCounts(refuses: nat -> bool, calls: nat, all: nat)
    requires calls < all && refuses(calls)
    ensures RefusedBefore(refuses, all)
  {
  }

  /**
   * The listing, against a service that refuses call number c with LimitExceededException when
   * refuses(c): all shards without an ending sequence number, or nothing when a call it makes is refused.
   * Every id must sort after the first cursor "0", as Kinesis ids do.
   */
  method GetStreamShards(stream: seq<Shard>, refuses: nat -> bool) returns (activeShards: set<string>)
    requires InIdOrder(stream)
    requires forall s :: s in stream ==> Before("0", s.id)
    ensures activeShards == if RefusedBefore(refuses, CallCount(stream)) then {} else Active(stream)
    ensures (exists c: nat :: c <= |stream| / 100 && refuses(c)) ==> activeShards == {}
    ensures !(exists c: nat :: c <= |stream| / 100 && refuses(c)) ==>
              forall id :: id in activeShards <==> exists s :: s in stream && s.id == id && !s.ended
  {
    activeShards := {};
    var nShards, shardId := PAGE_LIMIT, "0";
    ghost var listed := 0;
    var calls: nat := 0;
    while nShards >= PAGE_LIMIT
      invariant Listing(stream, listed, shardId, activeShards)
      invariant 0 <= nShards && Paged(stream, calls, listed, nShards)
      invariant !RefusedBefore(refuses, calls)
      decreases |stream| - listed, nShards
    {
      PageFollows(stream, calls, listed);
      if refuses(calls) {
        RefusalCounts(refuses, calls, CallCount(stream));
        return {};
      }
      calls := calls + 1;
      var shards := Page(stream, shardId);
      nShards := |shards|;
      activeShards, shardId := AddPage(stream, listed, shards, activeShards, shardId);
      listed := listed + nShards;
    }
    assert stream[..listed] == stream;
  }
}
