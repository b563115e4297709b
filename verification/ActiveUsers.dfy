/**
 * The sliding window of active users in active_redis.py, as operations on a clocked Redis state. Tokens go
 * into one set per bucket of modSeconds, a bucket key lives windowSeconds after its last write, and a query
 * unions the buckets that make up the window. The union is cached for a minute.
 */
module ActiveUsers {
  import opened Facts

  const UNIONED_ACTIVE_EXPIRY_SEC := 60

  /** "active" and "active_allowed". */
  datatype Prefix = Active | ActiveAllowed

  datatype BucketKey = BucketKey(prefix: Prefix, zoo: string, start: int)
  datatype UnionKey = UnionKey(prefix: Prefix, zoo: string)

  /** A Redis set with its expiry; it exists while the clock is before expiresAt. */
  datatype Entry = Entry(members: set<string>, expiresAt: int)

  /** One call of set: who was seen, where, and when. */
  datatype Hit = Hit(zoo: string, token: string, allowed: bool, at: int)

  datatype Config = Config(modSeconds: int, windowSeconds: int)

  predicate ValidConfig(c: Config) {
    c.modSeconds >= 1 && c.windowSeconds >= 1
  }

  /** The whole state, with the log of hits so far as a history variable. */
  datatype State = State(now: int, buckets: map<BucketKey, Entry>, unions: map<UnionKey, Entry>, log: seq<Hit>)

  function BucketStart(c: Config, t: int): int
    requires ValidConfig(c)
  {
    t - t % c.modSeconds
  }

  /** ceil(window / mod). */
  function ChunksBackward(c: Config): int
    requires ValidConfig(c)
  {
    (c.windowSeconds + c.modSeconds - 1) / c.modSeconds
  }

  /** How far before a query a hit may lie and still be certain to count. */
  function Reach(c: Config): int
    requires ValidConfig(c)
  {
    (ChunksBackward(c) - 1) * c.modSeconds
  }

  function Members<K>(entries: map<K, Entry>, k: K, now: int): set<string> {
    if k in entries && now < entries[k].expiresAt then entries[k].members else {}
  }

  function Exists<K>(entries: map<K, Entry>, k: K, now: int): bool {
    k in entries && now < entries[k].expiresAt
  }

  /** sadd and expire of one key. */
  function Touch(c: Config, s: State, k: BucketKey, token: string): map<BucketKey, Entry> {
    s.buckets[k := Entry(Members(s.buckets, k, s.now) + {token}, s.now + c.windowSeconds)]
  }

  /** set: the token goes into the current bucket, and into the allowed one when it is allowed. */
  function AddHit(c: Config, s: State, zoo: string, token: string, allowed: bool): State
    requires ValidConfig(c)
  {
    var start := BucketStart(c, s.now);
    var active := s.(buckets := Touch(c, s, BucketKey(Active, zoo, start), token));
    var both :=
      if allowed then active.(buckets := Touch(c, active, BucketKey(ActiveAllowed, zoo, start), token)) else active;
    both.(log := s.log + [Hit(zoo, token, allowed, s.now)])
  }

  /** The buckets of the window that ends at now, the newest first. */
  function WindowKeys(c: Config, prefix: Prefix, zoo: string, now: int): seq<BucketKey>
    requires ValidConfig(c)
  {
    seq(ChunksBackward(c), i => BucketKey(prefix, zoo, BucketStart(c, now) - i * c.modSeconds))
  }

  function UnionOf(buckets: map<BucketKey, Entry>, keys: seq<BucketKey>, now: int): set<string> {
    set k, t | k in keys && t in Members(buckets, k, now) :: t
  }

  /** The union a query at this moment computes. */
  function Fresh(c: Config, s: State, prefix: Prefix, zoo: string): set<string>
    requires ValidConfig(c)
  {
    UnionOf(s.buckets, WindowKeys(c, prefix, zoo, s.now), s.now)
  }

  /** sunionstore, which leaves no key when the union is empty, and expire. */
  function StoreUnion(s: State, k: UnionKey, tokens: set<string>): State {
    if tokens == {} then s.(unions := s.unions - {k})
    else s.(unions := s.unions[k := Entry(tokens, s.now + UNIONED_ACTIVE_EXPIRY_SEC)])
  }

  /** set_active_users. */
  function Recompute(c: Config, s: State, prefix: Prefix, zoo: string): State
    requires ValidConfig(c)
  {
    StoreUnion(s, UnionKey(prefix, zoo), Fresh(c, s, prefix, zoo))
  }

  /** _get_user_tokens: the cached union while its key lives, a fresh one otherwise. */
  function Query(c: Config, s: State, prefix: Prefix, zoo: string): (State, set<string>)
    requires ValidConfig(c)
  {
    var k := UnionKey(prefix, zoo);
    if Exists(s.unions, k, s.now) then (s, Members(s.unions, k, s.now))
    else (Recompute(c, s, prefix, zoo), Fresh(c, s, prefix, zoo))
  }

  datatype Step =
    | SetHit(zoo: string, token: string, allowed: bool)
    | SetActiveUsers(prefix: Prefix, zoo: string)
    | GetUsers(prefix: Prefix, zoo: string)
    | Tick(seconds: nat)

  function Next(c: Config, s: State, step: Step): State
    requires ValidConfig(c)
  {
    match step
    case SetHit(zoo, token, allowed) => AddHit(c, s, zoo, token, allowed)
    case SetActiveUsers(prefix, zoo) => Recompute(c, s, prefix, zoo)
    case GetUsers(prefix, zoo) => Query(c, s, prefix, zoo).0
    case Tick(seconds) => s.(now := s.now + seconds)
  }

  function Run(c: Config, s: State, steps: seq<Step>): State
    requires ValidConfig(c)
    decreases |steps|
  {
    if steps == [] then s else Run(c, Next(c, s, steps[0]), steps[1..])
  }

  function Start(now: int): State {
    State(now, map[], map[], [])
  }

  // ----- the history is what the calls say

  /** The hits of a run that begins at a time: one for each set call, with its arguments and the clock then. */
  function HitsOf(now: int, steps: seq<Step>): seq<Hit>
    decreases |steps|
  {
    if steps == [] then [] else
      match steps[0]
      case SetHit(zoo, token, allowed) => [Hit(zoo, token, allowed, now)] + HitsOf(now, steps[1..])
      case Tick(seconds) => HitsOf(now + seconds, steps[1..])
      case _ => HitsOf(now, steps[1..])
  }

  lemma {:induction false} LogIsHits(c: Config, s: State, steps: seq<Step>)
    requires ValidConfig(c)
    ensures Run(c, s, steps).log == s.log + HitsOf(s.now, steps)
    decreases |steps|
  {
    if steps != [] {
      var after := Next(c, s, steps[0]);
      LogIsHits(c, after, steps[1..]);
      if steps[0].SetHit? {
        Regroup(s.log, [Hit(steps[0].zoo, steps[0].token, steps[0].allowed, s.now)], HitsOf(s.now, steps[1..]));
      }
    }
  }

  // ----- the invariant

  predicate Counts(h: Hit, prefix: Prefix, zoo: string) {
    h.zoo == zoo && (prefix == ActiveAllowed ==> h.allowed)
  }

  predicate Lands(c: Config, h: Hit, k: BucketKey)
    requires ValidConfig(c)
  {
    Counts(h, k.prefix, k.zoo) && BucketStart(c, h.at) == k.start
  }

  type Buckets = map<BucketKey, Entry>
  type Unions = map<UnionKey, Entry>

  ghost predicate LogInPast(now: int, log: seq<Hit>) {
    forall h :: h in log ==> h.at <= now
  }

  /** Every member of a bucket comes from a hit, and the key expires a window after the bucket's last hit. */
  ghost predicate BucketsSound(c: Config, buckets: Buckets, log: seq<Hit>)
    requires ValidConfig(c)
  {
    forall k :: k in buckets ==>
      && (forall t :: t in buckets[k].members ==> exists h :: h in log && Lands(c, h, k) && h.token == t)
      && (exists h :: h in log && Lands(c, h, k) && buckets[k].expiresAt == h.at + c.windowSeconds)
  }

  /** A hit keeps its bucket's key alive at time u. */
  predicate Covers(c: Config, g: Hit, k: BucketKey, u: int)
    requires ValidConfig(c)
  {
    Lands(c, g, k) && g.at < u < g.at + c.windowSeconds
  }

  ghost predicate CoveredAt(c: Config, log: seq<Hit>, k: BucketKey, u: int)
    requires ValidConfig(c)
  {
    exists g :: g in log && Covers(c, g, k, u)
  }

  /** From the hit until q the bucket has not gone a whole window without a hit. */
  ghost predicate Unbroken(c: Config, log: seq<Hit>, h: Hit, k: BucketKey, q: int)
    requires ValidConfig(c)
  {
    forall u :: h.at < u <= q ==> CoveredAt(c, log, k, u)
  }

  /** Every member of a live bucket comes from a hit since which its key has not expired. */
  ghost predicate MembersUnbroken(c: Config, now: int, buckets: Buckets, log: seq<Hit>)
    requires ValidConfig(c)
  {
    forall k, t :: k in buckets && t in Members(buckets, k, now) ==>
      exists h :: h in log && Lands(c, h, k) && h.token == t && Unbroken(c, log, h, k, now)
  }

  /** A hit keeps its bucket alive for a window, and its token is a member as long as the key does not expire. */
  ghost predicate HitsHeld(c: Config, now: int, buckets: Buckets, log: seq<Hit>)
    requires ValidConfig(c)
  {
    forall h, k :: h in log && Lands(c, h, k) ==>
      && k in buckets
      && h.at + c.windowSeconds <= buckets[k].expiresAt
      && (Unbroken(c, log, h, k, now) ==> h.token in buckets[k].members)
  }

  /** While an allowed bucket lives, so does the active bucket beside it, and that holds all its members. */
  ghost predicate AllowedWithin(now: int, buckets: Buckets) {
    forall zoo, start :: Exists(buckets, BucketKey(ActiveAllowed, zoo, start), now) ==>
      var allowed, active := BucketKey(ActiveAllowed, zoo, start), BucketKey(Active, zoo, start);
      && active in buckets
      && buckets[allowed].expiresAt <= buckets[active].expiresAt
      && buckets[allowed].members <= buckets[active].members
  }

  /** The hit lies where a union computed at time q must see it. */
  predicate Recent(c: Config, h: Hit, q: int)
    requires ValidConfig(c)
  {
    q - Reach(c) <= h.at <= q
  }

  /** The hit lies too far back for a union computed at time q to see it. */
  predicate Stale(c: Config, h: Hit, q: int)
    requires ValidConfig(c)
  {
    h.at <= q - ChunksBackward(c) * c.modSeconds
  }

  /** What a union computed at time q says about the hits before it. */
  ghost predicate Window(c: Config, log: seq<Hit>, prefix: Prefix, zoo: string, q: int, tokens: set<string>)
    requires ValidConfig(c)
  {
    && (forall h :: h in log && Counts(h, prefix, zoo) && Recent(c, h, q) && h.at < q ==> h.token in tokens)
    && (forall t :: t in tokens ==>
          exists h :: h in log && Counts(h, prefix, zoo) && h.token == t && h.at <= q && !Stale(c, h, q))
  }

  /** Every cached union is the union of the moment it was computed, which is not in the future. */
  ghost predicate UnionsSound(c: Config, now: int, unions: Unions, log: seq<Hit>)
    requires ValidConfig(c)
  {
    forall u :: u in unions ==>
      var computedAt := unions[u].expiresAt - UNIONED_ACTIVE_EXPIRY_SEC;
      computedAt <= now && Window(c, log, u.prefix, u.zoo, computedAt, unions[u].members)
  }

  ghost predicate BucketInvariant(c: Config, now: int, buckets: Buckets, log: seq<Hit>)
    requires ValidConfig(c)
  {
    && LogInPast(now, log)
    && BucketsSound(c, buckets, log)
    && HitsHeld(c, now, buckets, log)
    && MembersUnbroken(c, now, buckets, log)
    && AllowedWithin(now, buckets)
  }

  ghost predicate Invariant(c: Config, s: State)
    requires ValidConfig(c)
  {
    BucketInvariant(c, s.now, s.buckets, s.log) && UnionsSound(c, s.now, s.unions, s.log)
  }

  // ----- arithmetic of the buckets

  lemma StartIsMultiple(c: Config, t: int)
    requires ValidConfig(c)
    ensures BucketStart(c, t) % c.modSeconds == 0 && BucketStart(c, t) <= t < BucketStart(c, t) + c.modSeconds
  {
    var m := c.modSeconds;
    BucketIsMultiple(c, t);
    MultipleHasNoRest(t / m, m);
  }

  lemma MultipleHasNoRest(q: int, m: int)
    requires m >= 1
    ensures (q * m) % m == 0
  {
    var n := q * m;
    assert n == (n / m) * m + n % m;
    OneMore(n / m, m);
    OneMore(q, m);
    Scale(m, n / m, q);
    Scale(m, q, n / m + 1);
  }

  lemma BucketIsMultiple(c: Config, t: int)
    requires ValidConfig(c)
    ensures BucketStart(c, t) == (t / c.modSeconds) * c.modSeconds <= t < BucketStart(c, t) + c.modSeconds
  {
  }

  lemma ReachIsInsideWindow(c: Config)
    requires ValidConfig(c)
    ensures ChunksBackward(c) >= 1
    ensures 0 <= Reach(c) < c.windowSeconds <= Reach(c) + c.modSeconds
    ensures Reach(c) + c.modSeconds == ChunksBackward(c) * c.modSeconds
  {
    var k, m, w := ChunksBackward(c), c.modSeconds, c.windowSeconds;
    assert w + m - 1 == k * m + (w + m - 1) % m;
    Scale(m, 1, k);
    assert (k - 1) * m == k * m - m;
  }

  lemma ShiftBucket(c: Config, t: int, i: int)
    requires ValidConfig(c)
    ensures BucketStart(c, t - i * c.modSeconds) == BucketStart(c, t) - i * c.modSeconds
  {
    var m := c.modSeconds;
    var u := t - i * m;
    BucketIsMultiple(c, t);
    BucketIsMultiple(c, u);
    assert (t / m - i) * m == (t / m) * m - i * m;
    assert (t / m - i + 1) * m == (t / m - i) * m + m && (u / m + 1) * m == (u / m) * m + m;
    Scale(m, u / m, t / m - i + 1);
    Scale(m, t / m - i, u / m + 1);
  }

  lemma BucketMonotone(c: Config, t: int, u: int)
    requires ValidConfig(c)
    ensures t <= u ==> BucketStart(c, t) <= BucketStart(c, u)
  {
    var m := c.modSeconds;
    BucketIsMultiple(c, t);
    BucketIsMultiple(c, u);
    assert (u / m + 1) * m == (u / m) * m + m;
    Scale(m, t / m, u / m + 1);
    Scale(m, t / m, u / m);
  }

  /** A hit up to the query lands in one of the window's buckets exactly when its bucket is within reach. */
  lemma InWindowKeys(c: Config, prefix: Prefix, zoo: string, q: int, t: int)
    requires ValidConfig(c) && t <= q
    ensures BucketKey(prefix, zoo, BucketStart(c, t)) in WindowKeys(c, prefix, zoo, q) <==>
            BucketStart(c, q) - Reach(c) <= BucketStart(c, t)
  {
    var m, k := c.modSeconds, ChunksBackward(c);
    BucketMonotone(c, t, q);
    BucketIsMultiple(c, t);
    BucketIsMultiple(c, q);
    ReachIsInsideWindow(c);
    var i := q / m - t / m;
    assert i * m == (q / m) * m - (t / m) * m;
    Scale(m, t / m, q / m);
    Scale(m, i, k - 1);
    var keys := WindowKeys(c, prefix, zoo, q);
    if i < k {
      assert keys[i] == BucketKey(prefix, zoo, BucketStart(c, t));
    } else {
      KeysReach(c, prefix, zoo, q);
    }
  }

  lemma KeysReach(c: Config, prefix: Prefix, zoo: string, q: int)
    requires ValidConfig(c)
    ensures forall k :: k in WindowKeys(c, prefix, zoo, q) ==>
              k.prefix == prefix && k.zoo == zoo && BucketStart(c, q) - Reach(c) <= k.start <= BucketStart(c, q)
  {
    var keys := WindowKeys(c, prefix, zoo, q);
    forall i | 0 <= i < |keys| ensures BucketStart(c, q) - Reach(c) <= keys[i].start <= BucketStart(c, q) {
      Scale(c.modSeconds, i, ChunksBackward(c) - 1);
      Scale(c.modSeconds, 0, i);
    }
  }

  lemma InWindowBounds(c: Config, q: int, t: int)
    requires ValidConfig(c)
    ensures q - Reach(c) <= t ==> BucketStart(c, q) - Reach(c) <= BucketStart(c, t)
    ensures t <= q - ChunksBackward(c) * c.modSeconds ==> BucketStart(c, t) < BucketStart(c, q) - Reach(c)
  {
    ReachIsInsideWindow(c);
    var m, k := c.modSeconds, ChunksBackward(c);
    ShiftBucket(c, q, k - 1);
    ShiftBucket(c, q, k);
    BucketMonotone(c, q - Reach(c), t);
    BucketMonotone(c, t, q - k * m);
  }

  // ----- unbroken hits

  /** Within a window of itself a hit is unbroken. */
  lemma RecentIsUnbroken(c: Config, log: seq<Hit>, h: Hit, k: BucketKey, q: int)
    requires ValidConfig(c) && h in log && Lands(c, h, k) && q < h.at + c.windowSeconds
    ensures Unbroken(c, log, h, k, q)
  {
    forall u | h.at < u <= q ensures CoveredAt(c, log, k, u) {
      assert Covers(c, h, k, u);
    }
  }

  /** A hit at the very moment makes no difference to the hits before it. */
  lemma UnbrokenBesides(c: Config, log: seq<Hit>, hit: Hit, h: Hit, k: BucketKey, q: int)
    requires ValidConfig(c) && q <= hit.at
    ensures Unbroken(c, log + [hit], h, k, q) <==> Unbroken(c, log, h, k, q)
  {
    forall u | u <= q ensures CoveredAt(c, log + [hit], k, u) <==> CoveredAt(c, log, k, u) {
      if g :| g in log && Covers(c, g, k, u) {
        assert g in log + [hit] && Covers(c, g, k, u);
      }
      if g :| g in log + [hit] && Covers(c, g, k, u) {
        assert g != hit && g in log;
      }
    }
  }

  /** While a hit is unbroken its bucket's key is alive. */
  lemma UnbrokenIsAlive(c: Config, now: int, buckets: Buckets, log: seq<Hit>, h: Hit, k: BucketKey)
    requires ValidConfig(c) && LogInPast(now, log) && HitsHeld(c, now, buckets, log)
    requires h in log && Lands(c, h, k) && Unbroken(c, log, h, k, now)
    ensures k in buckets && now < buckets[k].expiresAt
  {
    if h.at < now {
      assert CoveredAt(c, log, k, now);
      var g :| g in log && Covers(c, g, k, now);
    }
  }

  /** While the key lives, an unbroken hit stays unbroken as time passes. */
  lemma UnbrokenLasts(c: Config, now: int, later: int, buckets: Buckets, log: seq<Hit>, h: Hit, k: BucketKey)
    requires ValidConfig(c) && LogInPast(now, log) && BucketsSound(c, buckets, log) && now <= later
    requires k in buckets && later < buckets[k].expiresAt && Unbroken(c, log, h, k, now)
    ensures Unbroken(c, log, h, k, later)
  {
    var last :| last in log && Lands(c, last, k) && buckets[k].expiresAt == last.at + c.windowSeconds;
    forall u | h.at < u <= later ensures CoveredAt(c, log, k, u) {
      if now < u {
        assert Covers(c, last, k, u);
      }
    }
  }

  // ----- a freshly computed union

  lemma FreshHasRecent(c: Config, s: State, prefix: Prefix, zoo: string, h: Hit)
    requires ValidConfig(c) && Invariant(c, s)
    requires h in s.log && Counts(h, prefix, zoo) && Recent(c, h, s.now)
    ensures h.token in Fresh(c, s, prefix, zoo)
  {
    ReachIsInsideWindow(c);
    InWindowKeys(c, prefix, zoo, s.now, h.at);
    InWindowBounds(c, s.now, h.at);
    var k := BucketKey(prefix, zoo, BucketStart(c, h.at));
    assert Lands(c, h, k);
    RecentIsUnbroken(c, s.log, h, k, s.now);
    assert h.token in Members(s.buckets, k, s.now);
  }

  lemma FreshHasOnlyUnstale(c: Config, s: State, prefix: Prefix, zoo: string, t: string)
    requires ValidConfig(c) && LogInPast(s.now, s.log) && BucketsSound(c, s.buckets, s.log)
    requires t in Fresh(c, s, prefix, zoo)
    ensures exists h :: h in s.log && Counts(h, prefix, zoo) && h.token == t && h.at <= s.now && !Stale(c, h, s.now)
  {
    var k :| k in WindowKeys(c, prefix, zoo, s.now) && t in Members(s.buckets, k, s.now);
    KeysReach(c, prefix, zoo, s.now);
    var h :| h in s.log && Lands(c, h, k) && h.token == t;
    InWindowBounds(c, s.now, h.at);
  }

  /**
   * At every moment of every run a fresh union holds each token seen in the last Reach seconds, and no
   * token whose last hit lies as far back as all the window's buckets together.
   */
  lemma FreshWindow(c: Config, now: int, steps: seq<Step>, prefix: Prefix, zoo: string)
    requires ValidConfig(c)
    ensures var s := Run(c, Start(now), steps);
            var tokens := Fresh(c, s, prefix, zoo);
            && (forall h :: h in s.log && Counts(h, prefix, zoo) && Recent(c, h, s.now) ==> h.token in tokens)
            && forall t :: (forall h :: h in s.log && Counts(h, prefix, zoo) && h.token == t ==> Stale(c, h, s.now)) ==>
                 t !in tokens
  {
    RunKeepsInvariant(c, Start(now), steps);
    var s := Run(c, Start(now), steps);
    forall h | h in s.log && Counts(h, prefix, zoo) && Recent(c, h, s.now) ensures h.token in Fresh(c, s, prefix, zoo) {
      FreshHasRecent(c, s, prefix, zoo, h);
    }
    forall t | t in Fresh(c, s, prefix, zoo)
      ensures exists h :: h in s.log && Counts(h, prefix, zoo) && h.token == t && !Stale(c, h, s.now)
    {
      FreshHasOnlyUnstale(c, s, prefix, zoo, t);
    }
  }

  /** The hit's bucket is one of the buckets of the window that ends at q. */
  predicate InWindow(c: Config, h: Hit, q: int)
    requires ValidConfig(c)
  {
    BucketStart(c, q) - Reach(c) <= BucketStart(c, h.at)
  }

  /** A hit of any token in the same bucket has kept that bucket's key alive until q. */
  ghost predicate KeptAlive(c: Config, log: seq<Hit>, h: Hit, prefix: Prefix, zoo: string, q: int)
    requires ValidConfig(c)
  {
    exists last :: last in log && Counts(last, prefix, zoo)
                   && BucketStart(c, last.at) == BucketStart(c, h.at) && q < last.at + c.windowSeconds
  }

  /** The bucket a hit lands in. */
  function OwnBucket(c: Config, h: Hit, prefix: Prefix, zoo: string): BucketKey
    requires ValidConfig(c)
  {
    BucketKey(prefix, zoo, BucketStart(c, h.at))
  }

  /**
   * For every bucket size and window the fresh union is exactly this: the tokens with a hit in a bucket of the
   * window since which that bucket has not gone a whole window without a hit of any token.
   */
  lemma FreshIsExact(c: Config, now: int, steps: seq<Step>, prefix: Prefix, zoo: string, t: string)
    requires ValidConfig(c)
    ensures var s := Run(c, Start(now), steps);
            t in Fresh(c, s, prefix, zoo) <==>
            exists h :: h in s.log && Counts(h, prefix, zoo) && h.token == t
                        && InWindow(c, h, s.now) && Unbroken(c, s.log, h, OwnBucket(c, h, prefix, zoo), s.now)
  {
    RunKeepsInvariant(c, Start(now), steps);
    var s := Run(c, Start(now), steps);
    if t in Fresh(c, s, prefix, zoo) {
      FreshComesFrom(c, s, prefix, zoo, t);
    }
    if h :| h in s.log && Counts(h, prefix, zoo) && h.token == t
            && InWindow(c, h, s.now) && Unbroken(c, s.log, h, OwnBucket(c, h, prefix, zoo), s.now) {
      UnbrokenIsFresh(c, s, prefix, zoo, h);
    }
  }

  lemma FreshComesFrom(c: Config, s: State, prefix: Prefix, zoo: string, t: string)
    requires ValidConfig(c) && MembersUnbroken(c, s.now, s.buckets, s.log) && t in Fresh(c, s, prefix, zoo)
    ensures exists h :: h in s.log && Counts(h, prefix, zoo) && h.token == t
                        && InWindow(c, h, s.now) && Unbroken(c, s.log, h, OwnBucket(c, h, prefix, zoo), s.now)
  {
    var k :| k in WindowKeys(c, prefix, zoo, s.now) && t in Members(s.buckets, k, s.now);
    KeysReach(c, prefix, zoo, s.now);
    var h :| h in s.log && Lands(c, h, k) && h.token == t && Unbroken(c, s.log, h, k, s.now);
    assert OwnBucket(c, h, prefix, zoo) == k;
  }

  lemma UnbrokenIsFresh(c: Config, s: State, prefix: Prefix, zoo: string, h: Hit)
    requires ValidConfig(c) && LogInPast(s.now, s.log) && HitsHeld(c, s.now, s.buckets, s.log)
    requires h in s.log && Counts(h, prefix, zoo)
    requires InWindow(c, h, s.now) && Unbroken(c, s.log, h, OwnBucket(c, h, prefix, zoo), s.now)
    ensures h.token in Fresh(c, s, prefix, zoo)
  {
    var k := OwnBucket(c, h, prefix, zoo);
    assert Lands(c, h, k);
    UnbrokenIsAlive(c, s.now, s.buckets, s.log, h, k);
    InWindowKeys(c, prefix, zoo, s.now, h.at);
    assert h.token in Members(s.buckets, k, s.now);
  }

  /** A bucket no longer than the window never breaks before its last hit, so only that hit matters. */
  lemma ShortBucketUnbroken(c: Config, log: seq<Hit>, h: Hit, prefix: Prefix, zoo: string, q: int)
    requires ValidConfig(c) && c.modSeconds <= c.windowSeconds
    requires h in log && Counts(h, prefix, zoo) && h.at <= q
    ensures Unbroken(c, log, h, OwnBucket(c, h, prefix, zoo), q) <==> KeptAlive(c, log, h, prefix, zoo, q)
  {
    var k := OwnBucket(c, h, prefix, zoo);
    assert Lands(c, h, k);
    if Unbroken(c, log, h, k, q) && h.at < q {
      assert CoveredAt(c, log, k, q);
      var g :| g in log && Covers(c, g, k, q);
    }
    if last :| last in log && Counts(last, prefix, zoo)
               && BucketStart(c, last.at) == BucketStart(c, h.at) && q < last.at + c.windowSeconds {
      BucketIsMultiple(c, h.at);
      BucketIsMultiple(c, last.at);
      forall u | h.at < u <= q ensures CoveredAt(c, log, k, u) {
        assert Covers(c, if last.at < u then last else h, k, u);
      }
    }
  }

  /**
   * When a bucket is no longer than the window, the fresh union is the tokens with a hit in a bucket of the
   * window whose key is still alive, be it through the hits of other tokens.
   */
  lemma FreshOfShortBuckets(c: Config, now: int, steps: seq<Step>, prefix: Prefix, zoo: string, t: string)
    requires ValidConfig(c) && c.modSeconds <= c.windowSeconds
    ensures var s := Run(c, Start(now), steps);
            t in Fresh(c, s, prefix, zoo) <==>
            exists h :: h in s.log && Counts(h, prefix, zoo) && h.token == t
                        && InWindow(c, h, s.now) && KeptAlive(c, s.log, h, prefix, zoo, s.now)
  {
    FreshIsExact(c, now, steps, prefix, zoo, t);
    RunKeepsInvariant(c, Start(now), steps);
    var s := Run(c, Start(now), steps);
    forall h | h in s.log && Counts(h, prefix, zoo)
      ensures Unbroken(c, s.log, h, OwnBucket(c, h, prefix, zoo), s.now) <==> KeptAlive(c, s.log, h, prefix, zoo, s.now)
    {
      ShortBucketUnbroken(c, s.log, h, prefix, zoo, s.now);
    }
  }

  /** When the bucket size divides the window, as it does by default, no bucket of the window has expired. */
  lemma FreshIsWholeBuckets(c: Config, now: int, steps: seq<Step>, prefix: Prefix, zoo: string, t: string)
    requires ValidConfig(c) && c.windowSeconds % c.modSeconds == 0
    ensures var s := Run(c, Start(now), steps);
            t in Fresh(c, s, prefix, zoo) <==>
            exists h :: h in s.log && Counts(h, prefix, zoo) && h.token == t && InWindow(c, h, s.now)
  {
    WholeWindow(c);
    ReachIsInsideWindow(c);
    FreshOfShortBuckets(c, now, steps, prefix, zoo, t);
    var s := Run(c, Start(now), steps);
    if h :| h in s.log && Counts(h, prefix, zoo) && h.token == t && InWindow(c, h, s.now) {
      BucketIsMultiple(c, h.at);
      BucketIsMultiple(c, s.now);
      assert KeptAlive(c, s.log, h, prefix, zoo, s.now);
    }
  }

  lemma WholeWindow(c: Config)
    requires ValidConfig(c) && c.windowSeconds % c.modSeconds == 0
    ensures Reach(c) + c.modSeconds == c.windowSeconds
  {
    var k, m, n := ChunksBackward(c), c.modSeconds, c.windowSeconds / c.modSeconds;
    ReachIsInsideWindow(c);
    assert c.windowSeconds == n * m;
    assert (n + 1) * m == n * m + m && (k - 1) * m == k * m - m;
    Scale(m, k - 1, n);
    Scale(m, n, k);
  }

  lemma AllowedWithinActive(c: Config, s: State, zoo: string)
    requires ValidConfig(c) && AllowedWithin(s.now, s.buckets)
    ensures Fresh(c, s, ActiveAllowed, zoo) <= Fresh(c, s, Active, zoo)
  {
    var allowedKeys, activeKeys := WindowKeys(c, ActiveAllowed, zoo, s.now), WindowKeys(c, Active, zoo, s.now);
    forall t | t in Fresh(c, s, ActiveAllowed, zoo) ensures t in Fresh(c, s, Active, zoo) {
      var i :| 0 <= i < |allowedKeys| && t in Members(s.buckets, allowedKeys[i], s.now);
      var start := allowedKeys[i].start;
      assert Exists(s.buckets, BucketKey(ActiveAllowed, zoo, start), s.now);
      assert activeKeys[i] == BucketKey(Active, zoo, start);
      assert t in Members(s.buckets, activeKeys[i], s.now);
    }
  }

  /** At every moment of every run the allowed users of a zoo are among its active users. */
  lemma AllowedAreActive(c: Config, now: int, steps: seq<Step>, zoo: string)
    requires ValidConfig(c)
    ensures var s := Run(c, Start(now), steps);
            Fresh(c, s, ActiveAllowed, zoo) <= Fresh(c, s, Active, zoo)
  {
    RunKeepsInvariant(c, Start(now), steps);
    AllowedWithinActive(c, Run(c, Start(now), steps), zoo);
  }

  // ----- a cached union

  lemma FreshIsWindow(c: Config, s: State, prefix: Prefix, zoo: string)
    requires ValidConfig(c) && Invariant(c, s)
    ensures Window(c, s.log, prefix, zoo, s.now, Fresh(c, s, prefix, zoo))
  {
    forall h | h in s.log && Counts(h, prefix, zoo) && Recent(c, h, s.now) ensures h.token in Fresh(c, s, prefix, zoo) {
      FreshHasRecent(c, s, prefix, zoo, h);
    }
    forall t | t in Fresh(c, s, prefix, zoo)
      ensures exists h :: h in s.log && Counts(h, prefix, zoo) && h.token == t && h.at <= s.now && !Stale(c, h, s.now)
    {
      FreshHasOnlyUnstale(c, s, prefix, zoo, t);
    }
  }

  /** A query answers within the bounds of some moment q less than a minute ago. */
  lemma QueryInWindow(c: Config, s: State, prefix: Prefix, zoo: string) returns (q: int)
    requires ValidConfig(c) && Invariant(c, s)
    ensures s.now - UNIONED_ACTIVE_EXPIRY_SEC < q <= s.now
    ensures Window(c, s.log, prefix, zoo, q, Query(c, s, prefix, zoo).1)
  {
    var u := UnionKey(prefix, zoo);
    if Exists(s.unions, u, s.now) {
      q := s.unions[u].expiresAt - UNIONED_ACTIVE_EXPIRY_SEC;
    } else {
      q := s.now;
      FreshIsWindow(c, s, prefix, zoo);
    }
  }

  /**
   * The answer to a query holds each token seen since Reach seconds ago but not in the last minute, and no token
   * whose last hit lies a minute further back than all the buckets.
   */
  ghost predicate QueryBounds(c: Config, s: State, prefix: Prefix, zoo: string)
    requires ValidConfig(c)
  {
    var tokens, minuteAgo := Query(c, s, prefix, zoo).1, s.now - 60;
    && (forall h :: h in s.log && Counts(h, prefix, zoo) && s.now - Reach(c) <= h.at <= minuteAgo ==> h.token in tokens)
    && (forall t ::
          (forall h :: h in s.log && Counts(h, prefix, zoo) && h.token == t ==> Stale(c, h, minuteAgo)) ==>
            t !in tokens)
  }

  lemma QueryIsBounded(c: Config, s: State, prefix: Prefix, zoo: string)
    requires ValidConfig(c) && Invariant(c, s)
    ensures QueryBounds(c, s, prefix, zoo)
  {
    QueryHasNoStale(c, s, prefix, zoo);
    QueryHasRecent(c, s, prefix, zoo);
  }

  /** At every moment of every run the answer to a query keeps these bounds. */
  lemma QueryWindow(c: Config, now: int, steps: seq<Step>, prefix: Prefix, zoo: string)
    requires ValidConfig(c)
    ensures QueryBounds(c, Run(c, Start(now), steps), prefix, zoo)
  {
    RunKeepsInvariant(c, Start(now), steps);
    QueryIsBounded(c, Run(c, Start(now), steps), prefix, zoo);
  }

  lemma QueryHasNoStale(c: Config, s: State, prefix: Prefix, zoo: string)
    requires ValidConfig(c) && Invariant(c, s)
    ensures forall t ::
              (forall h :: h in s.log && Counts(h, prefix, zoo) && h.token == t ==>
                 Stale(c, h, s.now - UNIONED_ACTIVE_EXPIRY_SEC)) ==>
              t !in Query(c, s, prefix, zoo).1
  {
    forall t | t in Query(c, s, prefix, zoo).1
      ensures exists h :: h in s.log && Counts(h, prefix, zoo) && h.token == t
                          && !Stale(c, h, s.now - UNIONED_ACTIVE_EXPIRY_SEC)
    {
      QueryIsUnstale(c, s, prefix, zoo, t);
    }
  }

  lemma QueryIsUnstale(c: Config, s: State, prefix: Prefix, zoo: string, t: string)
    requires ValidConfig(c) && Invariant(c, s) && t in Query(c, s, prefix, zoo).1
    ensures exists h :: h in s.log && Counts(h, prefix, zoo) && h.token == t
                        && !Stale(c, h, s.now - UNIONED_ACTIVE_EXPIRY_SEC)
  {
    var q := QueryInWindow(c, s, prefix, zoo);
    var h :| h in s.log && Counts(h, prefix, zoo) && h.token == t && h.at <= q && !Stale(c, h, q);
  }

  lemma QueryHasRecent(c: Config, s: State, prefix: Prefix, zoo: string)
    requires ValidConfig(c) && Invariant(c, s)
    ensures forall h :: h in s.log && Counts(h, prefix, zoo)
                        && s.now - Reach(c) <= h.at <= s.now - UNIONED_ACTIVE_EXPIRY_SEC ==>
              h.token in Query(c, s, prefix, zoo).1
  {
    var q := QueryInWindow(c, s, prefix, zoo);
  }

  /** Computing a union stores it for sixty seconds, or removes the key when it is empty, and changes nothing else. */
  lemma RecomputeStores(c: Config, s: State, prefix: Prefix, zoo: string)
    requires ValidConfig(c)
    ensures var tokens, u, after := Fresh(c, s, prefix, zoo), UnionKey(prefix, zoo), Recompute(c, s, prefix, zoo);
            && after.now == s.now && after.buckets == s.buckets && after.log == s.log
            && (tokens == {} ==> after.unions == s.unions - {u})
            && (tokens != {} ==> after.unions == s.unions[u := Entry(tokens, s.now + 60)])
  {
  }

  lemma {:induction false} ClockRuns(c: Config, s: State, steps: seq<Step>)
    requires ValidConfig(c)
    ensures s.now <= Run(c, s, steps).now
    decreases |steps|
  {
    if steps != [] {
      ClockRuns(c, Next(c, s, steps[0]), steps[1..]);
    }
  }

  /** While its key lives, every query answers the cached union, whatever hits come, until it is computed anew. */
  lemma {:induction false} CachedAnswerStays(c: Config, s: State, steps: seq<Step>, prefix: Prefix, zoo: string)
    requires ValidConfig(c) && UnionKey(prefix, zoo) in s.unions
    requires forall step :: step in steps ==> step != SetActiveUsers(prefix, zoo)
    requires Run(c, s, steps).now < s.unions[UnionKey(prefix, zoo)].expiresAt
    ensures var u, after := UnionKey(prefix, zoo), Run(c, s, steps);
            && u in after.unions && after.unions[u] == s.unions[u]
            && Query(c, after, prefix, zoo) == (after, s.unions[u].members)
    decreases |steps|
  {
    if steps != [] {
      assert steps[0] in steps;
      ClockRuns(c, s, steps);
      var next := Next(c, s, steps[0]);
      assert next.unions[UnionKey(prefix, zoo)] == s.unions[UnionKey(prefix, zoo)];
      assert forall step :: step in steps[1..] ==> step in steps;
      CachedAnswerStays(c, next, steps[1..], prefix, zoo);
    }
  }

  lemma {:induction false} RunSnoc(c: Config, s: State, steps: seq<Step>)
    requires ValidConfig(c) && steps != []
    ensures Run(c, s, steps) == Next(c, Run(c, s, steps[..|steps| - 1]), steps[|steps| - 1])
    decreases |steps|
  {
    if |steps| > 1 {
      RunSnoc(c, Next(c, s, steps[0]), steps[1..]);
      assert steps[1..][..|steps| - 2] == steps[..|steps| - 1][1..];
    } else {
      assert steps[1..] == [] && steps[..0] == [];
    }
  }

  /** What is cached under a key after a run is the fresh union of an earlier state of the run. */
  lemma {:induction false} CachedIsFresh(c: Config, now: int, steps: seq<Step>, u: UnionKey) returns (j: nat)
    requires ValidConfig(c) && u in Run(c, Start(now), steps).unions
    ensures j <= |steps|
    ensures var entry, earlier := Run(c, Start(now), steps).unions[u], Run(c, Start(now), steps[..j]);
            entry == Entry(Fresh(c, earlier, u.prefix, u.zoo), earlier.now + UNIONED_ACTIVE_EXPIRY_SEC)
  {
    var n := |steps| - 1;
    RunSnoc(c, Start(now), steps);
    var before := Run(c, Start(now), steps[..n]);
    if u in before.unions && before.unions[u] == Next(c, before, steps[n]).unions[u] {
      j := CachedIsFresh(c, now, steps[..n], u);
      assert steps[..n][..j] == steps[..j];
    } else {
      j := n;
    }
  }

  /**
   * The answer to a query after any run is the fresh union of an earlier state of the run, or of this one,
   * computed less than a minute ago.
   */
  lemma QueryComputedAt(c: Config, now: int, steps: seq<Step>, prefix: Prefix, zoo: string) returns (j: nat)
    requires ValidConfig(c)
    ensures j <= |steps|
    ensures var s, earlier := Run(c, Start(now), steps), Run(c, Start(now), steps[..j]);
            && s.now - 60 < earlier.now <= s.now
            && Query(c, s, prefix, zoo).1 == Fresh(c, earlier, prefix, zoo)
  {
    var s, u := Run(c, Start(now), steps), UnionKey(prefix, zoo);
    if Exists(s.unions, u, s.now) {
      j := CachedIsFresh(c, now, steps, u);
      RunKeepsInvariant(c, Start(now), steps);
    } else {
      j := |steps|;
      assert steps[..j] == steps;
    }
  }

  // ----- every run keeps the invariant

  lemma AddHitKeepsBuckets(c: Config, s: State, zoo: string, token: string, allowed: bool)
    requires ValidConfig(c) && Invariant(c, s)
    ensures var after := AddHit(c, s, zoo, token, allowed); BucketsSound(c, after.buckets, after.log)
  {
    var after := AddHit(c, s, zoo, token, allowed);
    var hit := Hit(zoo, token, allowed, s.now);
    assert hit == after.log[|s.log|];
    assert forall h :: h in s.log ==> h in after.log;
    forall k | k in after.buckets
      ensures forall t :: t in after.buckets[k].members ==> exists h :: h in after.log && Lands(c, h, k) && h.token == t
      ensures exists h :: h in after.log && Lands(c, h, k) && after.buckets[k].expiresAt == h.at + c.windowSeconds
    {
      if Lands(c, hit, k) {
        forall t | t in after.buckets[k].members ensures exists h :: h in after.log && Lands(c, h, k) && h.token == t {
          if t == token {
            assert Lands(c, hit, k);
          } else {
            assert k in s.buckets && t in s.buckets[k].members;
          }
        }
      } else {
        assert k in s.buckets && after.buckets[k] == s.buckets[k];
      }
    }
  }

  lemma AddHitKeepsHits(c: Config, s: State, zoo: string, token: string, allowed: bool)
    requires ValidConfig(c) && Invariant(c, s)
    ensures var after := AddHit(c, s, zoo, token, allowed); HitsHeld(c, s.now, after.buckets, after.log)
  {
    var after := AddHit(c, s, zoo, token, allowed);
    var hit := Hit(zoo, token, allowed, s.now);
    forall h, k | h in after.log && Lands(c, h, k)
      ensures k in after.buckets && h.at + c.windowSeconds <= after.buckets[k].expiresAt
      ensures Unbroken(c, after.log, h, k, s.now) ==> h.token in after.buckets[k].members
    {
      UnbrokenBesides(c, s.log, hit, h, k, s.now);
      if h != hit {
        assert h in s.log;
        if Unbroken(c, s.log, h, k, s.now) {
          UnbrokenIsAlive(c, s.now, s.buckets, s.log, h, k);
        }
      }
      if !Lands(c, hit, k) {
        assert k in s.buckets && after.buckets[k] == s.buckets[k];
      }
    }
  }

  lemma AddHitKeepsMembers(c: Config, s: State, zoo: string, token: string, allowed: bool)
    requires ValidConfig(c) && Invariant(c, s)
    ensures var after := AddHit(c, s, zoo, token, allowed); MembersUnbroken(c, s.now, after.buckets, after.log)
  {
    var after := AddHit(c, s, zoo, token, allowed);
    var hit := Hit(zoo, token, allowed, s.now);
    assert after.log == s.log + [hit];
    forall k, t | k in after.buckets && t in Members(after.buckets, k, s.now)
      ensures exists h :: h in after.log && Lands(c, h, k) && h.token == t && Unbroken(c, after.log, h, k, s.now)
    {
      if Lands(c, hit, k) && t == token {
        assert hit in after.log && Unbroken(c, after.log, hit, k, s.now);
      } else {
        assert k in s.buckets && t in Members(s.buckets, k, s.now);
        var h :| h in s.log && Lands(c, h, k) && h.token == t && Unbroken(c, s.log, h, k, s.now);
        UnbrokenBesides(c, s.log, hit, h, k, s.now);
        assert h in after.log;
      }
    }
  }

  lemma AddHitKeepsAllowed(c: Config, s: State, zoo: string, token: string, allowed: bool)
    requires ValidConfig(c) && Invariant(c, s)
    ensures AllowedWithin(s.now, AddHit(c, s, zoo, token, allowed).buckets)
  {
    var after := AddHit(c, s, zoo, token, allowed);
    forall z, start | Exists(after.buckets, BucketKey(ActiveAllowed, z, start), s.now)
      ensures var allowedKey, activeKey := BucketKey(ActiveAllowed, z, start), BucketKey(Active, z, start);
              && activeKey in after.buckets
              && after.buckets[allowedKey].expiresAt <= after.buckets[activeKey].expiresAt
              && after.buckets[allowedKey].members <= after.buckets[activeKey].members
    {
      var allowedKey, activeKey := BucketKey(ActiveAllowed, z, start), BucketKey(Active, z, start);
      if Exists(s.buckets, allowedKey, s.now) {
        assert s.buckets[allowedKey].members <= s.buckets[activeKey].members;
        BucketsWithinClock(c, s, allowedKey);
      }
    }
  }

  lemma BucketsWithinClock(c: Config, s: State, k: BucketKey)
    requires ValidConfig(c) && Invariant(c, s) && k in s.buckets
    ensures s.buckets[k].expiresAt <= s.now + c.windowSeconds
  {
    var h :| h in s.log && Lands(c, h, k) && s.buckets[k].expiresAt == h.at + c.windowSeconds;
  }

  lemma WindowGrows(c: Config, log: seq<Hit>, hit: Hit, prefix: Prefix, zoo: string, q: int, tokens: set<string>)
    requires ValidConfig(c) && Window(c, log, prefix, zoo, q, tokens) && q <= hit.at
    ensures Window(c, log + [hit], prefix, zoo, q, tokens)
  {
    forall t | t in tokens
      ensures exists h :: h in log + [hit] && Counts(h, prefix, zoo) && h.token == t && h.at <= q && !Stale(c, h, q)
    {
      var h :| h in log && Counts(h, prefix, zoo) && h.token == t && h.at <= q && !Stale(c, h, q);
      assert h in log + [hit];
    }
  }

  lemma AddHitKeepsInvariant(c: Config, s: State, zoo: string, token: string, allowed: bool)
    requires ValidConfig(c) && Invariant(c, s)
    ensures Invariant(c, AddHit(c, s, zoo, token, allowed))
  {
    AddHitKeepsBuckets(c, s, zoo, token, allowed);
    AddHitKeepsHits(c, s, zoo, token, allowed);
    AddHitKeepsMembers(c, s, zoo, token, allowed);
    AddHitKeepsAllowed(c, s, zoo, token, allowed);
    AddHitKeepsUnions(c, s, zoo, token, allowed);
    AddHitKeepsLog(c, s, zoo, token, allowed);
    var after := AddHit(c, s, zoo, token, allowed);
    assert after.now == s.now && after.unions == s.unions;
  }

  lemma AddHitKeepsLog(c: Config, s: State, zoo: string, token: string, allowed: bool)
    requires ValidConfig(c) && LogInPast(s.now, s.log)
    ensures LogInPast(s.now, AddHit(c, s, zoo, token, allowed).log)
  {
  }

  lemma AddHitKeepsUnions(c: Config, s: State, zoo: string, token: string, allowed: bool)
    requires ValidConfig(c) && UnionsSound(c, s.now, s.unions, s.log)
    ensures UnionsSound(c, s.now, s.unions, AddHit(c, s, zoo, token, allowed).log)
  {
    var hit := Hit(zoo, token, allowed, s.now);
    forall u | u in s.unions
      ensures Window(c, s.log + [hit], u.prefix, u.zoo,
                     s.unions[u].expiresAt - UNIONED_ACTIVE_EXPIRY_SEC, s.unions[u].members)
    {
      WindowGrows(c, s.log, hit, u.prefix, u.zoo,
                  s.unions[u].expiresAt - UNIONED_ACTIVE_EXPIRY_SEC, s.unions[u].members);
    }
  }

  lemma {:induction false} RecomputeKeepsUnions(c: Config, now: int, unions: Unions, log: seq<Hit>,
                                                k: UnionKey, tokens: set<string>)
    requires ValidConfig(c) && UnionsSound(c, now, unions, log) && Window(c, log, k.prefix, k.zoo, now, tokens)
    ensures UnionsSound(c, now, unions - {k}, log)
    ensures UnionsSound(c, now, unions[k := Entry(tokens, now + UNIONED_ACTIVE_EXPIRY_SEC)], log)
  {
  }

  lemma StoreUnionKeepsInvariant(c: Config, s: State, k: UnionKey, tokens: set<string>)
    requires ValidConfig(c) && Invariant(c, s) && Window(c, s.log, k.prefix, k.zoo, s.now, tokens)
    ensures Invariant(c, StoreUnion(s, k, tokens))
  {
    RecomputeKeepsUnions(c, s.now, s.unions, s.log, k, tokens);
    var after := StoreUnion(s, k, tokens);
    assert after.now == s.now && after.buckets == s.buckets && after.log == s.log;
  }

  lemma RecomputeKeepsInvariant(c: Config, s: State, prefix: Prefix, zoo: string)
    requires ValidConfig(c) && Invariant(c, s)
    ensures Invariant(c, Recompute(c, s, prefix, zoo))
  {
    var tokens := Fresh(c, s, prefix, zoo);
    FreshIsWindow(c, s, prefix, zoo);
    StoreUnionKeepsInvariant(c, s, UnionKey(prefix, zoo), tokens);
  }

  lemma TickKeepsInvariant(c: Config, s: State, seconds: nat)
    requires ValidConfig(c) && Invariant(c, s)
    ensures Invariant(c, s.(now := s.now + seconds))
  {
    var later := s.now + seconds;
    forall k, t | k in s.buckets && t in Members(s.buckets, k, later)
      ensures exists h :: h in s.log && Lands(c, h, k) && h.token == t && Unbroken(c, s.log, h, k, later)
    {
      assert t in Members(s.buckets, k, s.now);
      var h :| h in s.log && Lands(c, h, k) && h.token == t && Unbroken(c, s.log, h, k, s.now);
      UnbrokenLasts(c, s.now, later, s.buckets, s.log, h, k);
    }
  }

  lemma NextKeepsInvariant(c: Config, s: State, step: Step)
    requires ValidConfig(c) && Invariant(c, s)
    ensures Invariant(c, Next(c, s, step))
  {
    match step
    case SetHit(zoo, token, allowed) =>
      AddHitKeepsInvariant(c, s, zoo, token, allowed);
      assert Next(c, s, step) == AddHit(c, s, zoo, token, allowed);
    case SetActiveUsers(prefix, zoo) =>
      RecomputeKeepsInvariant(c, s, prefix, zoo);
      assert Next(c, s, step) == Recompute(c, s, prefix, zoo);
    case GetUsers(prefix, zoo) =>
      RecomputeKeepsInvariant(c, s, prefix, zoo);
      assert Next(c, s, step) == s || Next(c, s, step) == Recompute(c, s, prefix, zoo);
    case Tick(seconds) =>
      TickKeepsInvariant(c, s, seconds);
      assert Next(c, s, step) == s.(now := s.now + seconds);
  }

  lemma {:induction false} RunKeepsInvariant(c: Config, s: State, steps: seq<Step>)
    requires ValidConfig(c) && Invariant(c, s)
    ensures Invariant(c, Run(c, s, steps))
    decreases |steps|
  {
    if steps != [] {
      NextKeepsInvariant(c, s, steps[0]);
      RunKeepsInvariant(c, Next(c, s, steps[0]), steps[1..]);
    }
  }

  // ----- the client

  /** ActiveRedis, with the Redis state it changes. The clock moves between calls. */
  class ActiveRedis {
    const config: Config
    var now: int
    var buckets: map<BucketKey, Entry>
    var unions: map<UnionKey, Entry>
    ghost var log: seq<Hit>

    ghost function Redis(): State
      reads this
    {
      State(now, buckets, unions, log)
    }

    constructor (config: Config, now: int)
      ensures this.config == config && Redis() == Start(now)
    {
      this.config, this.now := config, now;
      buckets, unions, log := map[], map[], [];
    }

    method Wait(seconds: nat)
      modifies this`now
      ensures Redis() == old(Redis()).(now := old(now) + seconds)
    {
      now := now + seconds;
    }

    method Set(zoo: string, token: string, allowed: bool) returns (activeKey: BucketKey)
      requires ValidConfig(config)
      modifies this`buckets, this`log
      ensures Redis() == AddHit(config, old(Redis()), zoo, token, allowed)
      ensures activeKey == BucketKey(Active, zoo, BucketStart(config, now)) && token in Members(buckets, activeKey, now)
      ensures activeKey.start % config.modSeconds == 0 && activeKey.start <= now < activeKey.start + config.modSeconds
      ensures var allowedKey := activeKey.(prefix := ActiveAllowed);
              && (token in Members(buckets, allowedKey, now) <==>
                  allowed || token in old(Members(buckets, allowedKey, now)))
              && buckets - {activeKey, allowedKey} == old(buckets) - {activeKey, allowedKey}
              && (!allowed && allowedKey in old(buckets) ==>
                    allowedKey in buckets && buckets[allowedKey] == old(buckets)[allowedKey])
      ensures buckets[activeKey].expiresAt == now + config.windowSeconds
    {
      StartIsMultiple(config, now);
      var moddedNow := now - now % config.modSeconds;
      activeKey := BucketKey(Active, zoo, moddedNow);
      SaddAndExpire(activeKey, token);
      if allowed {
        SaddAndExpire(BucketKey(ActiveAllowed, zoo, moddedNow), token);
      }
      log := log + [Hit(zoo, token, allowed, now)];
    }

    method SaddAndExpire(k: BucketKey, token: string)
      modifies this`buckets
      ensures buckets == Touch(config, old(Redis()), k, token)
    {
      var members := Members(buckets, k, now);
      buckets := buckets[k := Entry(members + {token}, now + config.windowSeconds)];
    }

    method SetActiveUsers(zoo: string, prefix: Prefix) returns (members: set<string>)
      requires ValidConfig(config)
      modifies this`unions
      ensures Redis() == Recompute(config, old(Redis()), prefix, zoo)
      ensures members == Fresh(config, old(Redis()), prefix, zoo)
    {
      members := UnionOf(buckets, WindowKeys(config, prefix, zoo, now), now);
      var activeKeyUnioned := UnionKey(prefix, zoo);
      if members == {} {
        unions := unions - {activeKeyUnioned};
      } else {
        unions := unions[activeKeyUnioned := Entry(members, now + UNIONED_ACTIVE_EXPIRY_SEC)];
      }
    }

    method GetUserTokens(zoo: string, prefix: Prefix) returns (tokens: set<string>)
      requires ValidConfig(config)
      modifies this`unions
      ensures (Redis(), tokens) == Query(config, old(Redis()), prefix, zoo)
    {
      var activeKeyUnioned := UnionKey(prefix, zoo);
      if Exists(unions, activeKeyUnioned, now) {
        return unions[activeKeyUnioned].members;
      }
      tokens := SetActiveUsers(zoo, prefix);
    }

    method GetUserCount(zoo: string, prefix: Prefix) returns (count: nat)
      requires ValidConfig(config)
      modifies this`unions
      ensures Redis() == Query(config, old(Redis()), prefix, zoo).0
      ensures count == |Query(config, old(Redis()), prefix, zoo).1|
    {
      var activeKeyUnioned := UnionKey(prefix, zoo);
      if Exists(unions, activeKeyUnioned, now) {
        return |unions[activeKeyUnioned].members|;
      }
      var members := SetActiveUsers(zoo, prefix);
      count := |members|;
    }
  }
}
