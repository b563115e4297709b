/**
 * The user-to-zoo hashes of mcp_redis.py and their reverse index, over the prefixed primitives of
 * base_redis.py. Keys are the strings Redis holds; a set that was never added to is empty.
 */
module ReverseIndex {
  import opened Wrappers
  import opened Facts

  const USER := "user:"
  const TARGET := "target:"
  const ZOOS_KEY := "zoos"

  type Hash = map<string, string>
  type Hashes = map<string, Hash>
  type Sets = map<string, set<string>>

  function UserKey(token: string): string {
    USER + token
  }

  function IndexKey(zoo: string): string {
    TARGET + zoo
  }

  function MembersOf(sets: Sets, key: string): set<string> {
    if key in sets then sets[key] else {}
  }

  function Index(sets: Sets, zoo: string): set<string> {
    MembersOf(sets, IndexKey(zoo))
  }

  lemma KeysInjective(a: string, b: string)
    ensures UserKey(a) == UserKey(b) ==> a == b
    ensures IndexKey(a) == IndexKey(b) ==> a == b
    ensures IndexKey(a) != ZOOS_KEY
  {
    assert UserKey(a)[|USER|..] == a && UserKey(b)[|USER|..] == b;
    assert IndexKey(a)[|TARGET|..] == a && IndexKey(b)[|TARGET|..] == b;
    assert IndexKey(a)[0] == 't';
  }

  /** The names under which Redis holds the hash of a user, the index of a zoo and the set of zoos. */
  lemma KeysSpelled(token: string, zoo: string)
    ensures UserKey(token) == "user:" + token && IndexKey(zoo) == "target:" + zoo && ZOOS_KEY == "zoos"
  {
  }

  // ----- the token of a key: key.split('user:')[1]

  /** The part of s before the first "user:", or all of it. */
  function BeforeUser(s: string): string {
    if s == "" || USER <= s then "" else [s[0]] + BeforeUser(s[1..])
  }

  /** The part of a key between its first "user:" and the next; None stands for IndexError. */
  function TokenOf(key: string): Option<string>
    decreases |key|
  {
    if USER <= key then Some(BeforeUser(key[|USER|..]))
    else if key == "" then None
    else TokenOf(key[1..])
  }

  predicate HoldsUser(s: string) {
    exists i :: 0 <= i <= |s| && USER <= s[i..]
  }

  lemma {:induction false} BeforeUserIsAll(s: string)
    ensures BeforeUser(s) == s <==> !HoldsUser(s)
    ensures |BeforeUser(s)| <= |s|
  {
    if s == "" || USER <= s {
      assert s[0..] == s;
    } else {
      BeforeUserIsAll(s[1..]);
      if i :| 0 <= i <= |s| && USER <= s[i..] {
        assert i > 0 && s[1..][i - 1..] == s[i..];
      }
      if i :| 0 <= i <= |s[1..]| && USER <= s[1..][i..] {
        assert s[1..][i..] == s[i + 1..];
      }
    }
  }

  /** A user key gives back its token exactly when the token does not itself hold "user:". */
  lemma TokenOfUserKey(token: string)
    ensures TokenOf(UserKey(token)) == Some(token) <==> !HoldsUser(token)
  {
    assert UserKey(token)[|USER|..] == token;
    BeforeUserIsAll(token);
  }

  lemma {:induction false} BeforeUserIsPlain(s: string)
    ensures BeforeUser(s) <= s && !HoldsUser(BeforeUser(s))
  {
    if s != "" && !(USER <= s) {
      var all, rest := BeforeUser(s), BeforeUser(s[1..]);
      BeforeUserIsPlain(s[1..]);
      assert all <= s;
      forall i | 0 <= i <= |all| ensures !(USER <= all[i..]) {
        if i > 0 {
          assert all[i..] == rest[i - 1..];
        }
      }
    }
  }

  /** Whatever the key, its token never holds "user:" itself. */
  lemma {:induction false} TokenIsPlain(key: string)
    ensures TokenOf(key).Some? ==> !HoldsUser(TokenOf(key).value)
    decreases |key|
  {
    if USER <= key {
      BeforeUserIsPlain(key[|USER|..]);
    } else if key != "" {
      TokenIsPlain(key[1..]);
    }
  }

  // ----- regenerate_indices

  /** The keys whose hash names the zoo as its target. */
  function KeysTargeting(hashes: Hashes, zoo: string): set<string> {
    set k | k in hashes && "target" in hashes[k] && hashes[k]["target"] == zoo
  }

  /** The tokens of users that target the zoo. */
  ghost predicate Targets(hashes: Hashes, token: string, zoo: string) {
    UserKey(token) in KeysTargeting(hashes, zoo)
  }

  function TokensOf(keys: set<string>): set<string> {
    set k | k in keys && TokenOf(k).Some? :: TokenOf(k).value
  }

  /** The count and the listed users of one zoo in the status. */
  datatype Status = Status(count: nat, users: seq<string>)

  /** The index of a zoo holds exactly the users that target it. */
  ghost predicate Agrees(hashes: Hashes, sets: Sets, zoo: string) {
    forall t :: t in Index(sets, zoo) <==> Targets(hashes, t, zoo)
  }

  /**
   * No user of the zoo has a token that holds "user:", and a key of the zoo that is not a user key, but holds
   * "user:" further on, names there a user who targets the zoo too.
   */
  ghost predicate CleanKeys(hashes: Hashes, zoo: string) {
    && (forall t :: Targets(hashes, t, zoo) ==> !HoldsUser(t))
    && (forall k :: k in KeysTargeting(hashes, zoo) && !(USER <= k) && TokenOf(k).Some? ==>
          Targets(hashes, TokenOf(k).value, zoo))
  }

  lemma {:induction false} CleanTokens(hashes: Hashes, zoo: string)
    ensures CleanKeys(hashes, zoo) <==>
            forall t :: t in TokensOf(KeysTargeting(hashes, zoo)) <==> Targets(hashes, t, zoo)
  {
    var keys := KeysTargeting(hashes, zoo);
    forall k | k in keys && TokenOf(k).Some? ensures !HoldsUser(TokenOf(k).value) {
      TokenIsPlain(k);
    }
    forall t ensures !HoldsUser(t) ==> TokenOf(UserKey(t)) == Some(t) {
      TokenOfUserKey(t);
    }
    forall k | k in keys && USER <= k ensures k == UserKey(k[|USER|..]) && Targets(hashes, k[|USER|..], zoo) {}
    if CleanKeys(hashes, zoo) {
      forall t ensures t in TokensOf(keys) <==> Targets(hashes, t, zoo) {
        if k :| k in keys && TokenOf(k) == Some(t) {
          assert USER <= k ==> Targets(hashes, k[|USER|..], zoo) && TokenOf(UserKey(k[|USER|..])) == Some(k[|USER|..]);
        }
        if Targets(hashes, t, zoo) {
          assert TokenOf(UserKey(t)) == Some(t);
        }
      }
    }
  }

  class MCPRedis {
    var hashes: Hashes
    var sets: Sets

    constructor ()
      ensures hashes == map[] && sets == map[]
    {
      hashes, sets := map[], map[];
    }

    /** BaseRedis.set: hmset merges the fields into the hash. */
    method Set(token: string, zoo: string, tvid: Option<string>)
      modifies this`hashes
      ensures var before := if UserKey(token) in old(hashes) then old(hashes)[UserKey(token)] else map[];
              var fields := if tvid.Some? then map["target" := zoo, "tvid" := tvid.value] else map["target" := zoo];
              hashes == old(hashes)[UserKey(token) := before + fields]
    {
      var values := map["target" := zoo];
      if tvid.Some? {
        values := values["tvid" := tvid.value];
      }
      var key := UserKey(token);
      hashes := hashes[key := (if key in hashes then hashes[key] else map[]) + values];
    }

    method SetIndex(zoo: string, token: string)
      modifies this`sets
      ensures sets == old(sets)[IndexKey(zoo) := Index(old(sets), zoo) + {token}]
    {
      sets := sets[IndexKey(zoo) := Index(sets, zoo) + {token}];
    }

    method Delete(token: string)
      modifies this`hashes
      ensures hashes == old(hashes) - {UserKey(token)}
    {
      hashes := hashes - {UserKey(token)};
    }

    method DeleteIndex(zoo: string)
      modifies this`sets
      ensures sets == old(sets) - {IndexKey(zoo)}
    {
      sets := sets - {IndexKey(zoo)};
    }

    /** delete_by_index: the hashes of all users in the index, then the index itself. */
    method DeleteByIndex(zoo: string)
      modifies this
      ensures hashes == old(hashes) - (set t | t in Index(old(sets), zoo) :: UserKey(t))
      ensures sets == old(sets) - {IndexKey(zoo)}
    {
      var values := Index(sets, zoo);
      var left := values;
      while left != {}
        invariant left <= values && sets == old(sets)
        invariant hashes == old(hashes) - (set t | t in values - left :: UserKey(t))
      {
        var valueKey :| valueKey in left;
        assert (set t | t in values - (left - {valueKey}) :: UserKey(t)) ==
               (set t | t in values - left :: UserKey(t)) + {UserKey(valueKey)};
        Delete(valueKey);
        left := left - {valueKey};
      }
      DeleteIndex(zoo);
      assert values - left == values;
    }

    /** The loop that clears the index of every registered zoo. */
    method ClearIndices()
      modifies this`sets
      ensures sets == Cleared(old(sets))
    {
      var zoos := MembersOf(sets, ZOOS_KEY);
      var left := zoos;
      while left != {}
        invariant left <= zoos
        invariant sets == old(sets) - (set z | z in zoos - left :: IndexKey(z))
      {
        var zoo :| zoo in left;
        assert (set z | z in zoos - (left - {zoo}) :: IndexKey(z)) ==
               (set z | z in zoos - left :: IndexKey(z)) + {IndexKey(zoo)};
        DeleteIndex(zoo);
        left := left - {zoo};
      }
      assert zoos - left == zoos;
    }

    /**
     * regenerate_indices() without targets. The scan yields each hash key once, in any order, and possibly
     * keys of other types, which it skips.
     */
    method RegenerateIndices(scan: seq<string>) returns (status: map<string, Status>)
      modifies this`sets
      ensures Progress(sets, status) == VisitAll(hashes, Progress(Cleared(old(sets)), map[]), scan)
    {
      ClearIndices();
      status := map[];
      ghost var start := Progress(sets, map[]);
      var i := 0;
      while i < |scan|
        invariant 0 <= i <= |scan|
        invariant Progress(sets, status) == VisitAll(hashes, start, scan[..i])
      {
        var key := scan[i];
        assert scan[..i + 1][..i] == scan[..i];
        if key in hashes && "target" in hashes[key] {
          var target := hashes[key]["target"];
          var entry := if target in status then status[target] else Status(0, []);
          var token := TokenOf(key);
          if token.Some? {
            entry := entry.(users := entry.users + [token.value]);
            SetIndex(target, token.value);
          }
          status := status[target := entry.(count := entry.count + 1)];
        }
        i := i + 1;
      }
      assert scan[..i] == scan;
    }
  }

  /** The indices of all registered zoos deleted. */
  function Cleared(sets: Sets): Sets {
    sets - (set z | z in MembersOf(sets, ZOOS_KEY) :: IndexKey(z))
  }

  datatype Progress = Progress(sets: Sets, status: map<string, Status>)

  /** One scanned key: a hash with a target is counted, and indexed when its key has a token. */
  function Visit(hashes: Hashes, p: Progress, key: string): Progress {
    if key !in hashes || "target" !in hashes[key] then p else
      var target, token := hashes[key]["target"], TokenOf(key);
      var entry := if target in p.status then p.status[target] else Status(0, []);
      if token.None? then p.(status := p.status[target := entry.(count := entry.count + 1)])
      else Progress(p.sets[IndexKey(target) := Index(p.sets, target) + {token.value}],
                    p.status[target := Status(entry.count + 1, entry.users + [token.value])])
  }

  function VisitAll(hashes: Hashes, p: Progress, scan: seq<string>): Progress {
    if scan == [] then p else Visit(hashes, VisitAll(hashes, p, scan[..|scan| - 1]), scan[|scan| - 1])
  }

  lemma {:induction false} RebuildAll(hashes: Hashes, cleared: Sets, scan: seq<string>)
    requires forall i, j :: 0 <= i < j < |scan| ==> scan[i] != scan[j]
    ensures var p := VisitAll(hashes, Progress(cleared, map[]), scan);
            Rebuilt(hashes, cleared, p.sets, scan) && Counted(hashes, p.status, scan) && Listed(hashes, p.status, scan)
  {
    if scan == [] {
      NoneScanned(hashes, cleared);
    } else {
      var n := |scan| - 1;
      RebuildAll(hashes, cleared, scan[..n]);
      assert scan == scan[..n] + [scan[n]] && scan[n] !in scan[..n];
      VisitKeeps(hashes, cleared, VisitAll(hashes, Progress(cleared, map[]), scan[..n]), scan[..n], scan[n]);
    }
  }

  lemma {:induction false} VisitKeeps(hashes: Hashes, cleared: Sets, p: Progress, scanned: seq<string>, key: string)
    requires Rebuilt(hashes, cleared, p.sets, scanned) && key !in scanned
    requires Counted(hashes, p.status, scanned) && Listed(hashes, p.status, scanned)
    ensures Rebuilt(hashes, cleared, Visit(hashes, p, key).sets, scanned + [key])
    ensures Counted(hashes, Visit(hashes, p, key).status, scanned + [key])
    ensures Listed(hashes, Visit(hashes, p, key).status, scanned + [key])
  {
    if key in hashes && "target" in hashes[key] {
      VisitCounts(hashes, p, scanned, key);
      VisitLists(hashes, p, scanned, key);
      VisitRebuilds(hashes, cleared, p, scanned, key);
    } else {
      ScannedOther(hashes, scanned, key);
    }
  }

  lemma {:induction false} VisitCounts(hashes: Hashes, p: Progress, scanned: seq<string>, key: string)
    requires Counted(hashes, p.status, scanned) && key in hashes && "target" in hashes[key] && key !in scanned
    ensures Counted(hashes, Visit(hashes, p, key).status, scanned + [key])
  {
    var target, token := hashes[key]["target"], TokenOf(key);
    var users := if target in p.status then p.status[target].users else [];
    CountOne(hashes, p.status, scanned, key, if token.None? then users else users + [token.value]);
  }

  lemma {:induction false} VisitLists(hashes: Hashes, p: Progress, scanned: seq<string>, key: string)
    requires Counted(hashes, p.status, scanned) && Listed(hashes, p.status, scanned)
    requires key in hashes && "target" in hashes[key]
    ensures Listed(hashes, Visit(hashes, p, key).status, scanned + [key])
  {
    var target, token, after := hashes[key]["target"], TokenOf(key), Visit(hashes, p, key).status;
    ScannedOne(hashes, scanned, key);
    forall zoo | zoo in after ensures ListedFor(after, zoo, Scanned(hashes, scanned + [key], zoo)) {
      var keys := Scanned(hashes, scanned, zoo);
      assert CountedFor(p.status, zoo, keys);
      assert zoo in p.status ==> ListedFor(p.status, zoo, keys);
      if zoo == target {
        TokensOneMore(keys, key);
        var users := if target in p.status then p.status[target].users else [];
        assert SetOf(users) == TokensOf(keys);
        assert token.Some? ==> SetOf(users + [token.value]) == SetOf(users) + {token.value};
      }
    }
  }

  lemma {:induction false} TokensOneMore(keys: set<string>, key: string)
    ensures TokensOf(keys + {key}) == TokensOf(keys) + if TokenOf(key).Some? then {TokenOf(key).value} else {}
  {
  }

  lemma {:induction false} VisitRebuilds(hashes: Hashes, cleared: Sets, p: Progress, scanned: seq<string>, key: string)
    requires Rebuilt(hashes, cleared, p.sets, scanned) && key in hashes && "target" in hashes[key]
    ensures Rebuilt(hashes, cleared, Visit(hashes, p, key).sets, scanned + [key])
  {
    RebuildOne(hashes, cleared, p.sets, scanned, key);
  }

  lemma {:induction false} NoneScanned(hashes: Hashes, cleared: Sets)
    ensures Rebuilt(hashes, cleared, cleared, []) && Counted(hashes, map[], []) && Listed(hashes, map[], [])
  {
    forall zoo ensures Scanned(hashes, [], zoo) == {} && TokensOf(Scanned(hashes, [], zoo)) == {} {}
  }

  lemma {:induction false} ScannedOther(hashes: Hashes, scanned: seq<string>, key: string)
    requires key !in hashes || "target" !in hashes[key]
    ensures forall zoo :: Scanned(hashes, scanned + [key], zoo) == Scanned(hashes, scanned, zoo)
  {
  }

  /**
   * After regenerating, each registered zoo's index holds the tokens of the keys that target it and nothing
   * else, an unregistered zoo keeps what its index held before, and the status counts the keys and lists their
   * tokens.
   */
  lemma {:induction false} RegenerateMeaning(hashes: Hashes, before: Sets, scan: seq<string>)
    requires forall i, j :: 0 <= i < j < |scan| ==> scan[i] != scan[j]
    requires forall k :: k in hashes ==> k in scan
    ensures var p := VisitAll(hashes, Progress(Cleared(before), map[]), scan);
            var zoos := MembersOf(before, ZOOS_KEY);
            && (forall zoo :: Index(p.sets, zoo) ==
                  (if zoo in zoos then {} else Index(before, zoo)) + TokensOf(KeysTargeting(hashes, zoo)))
            && MembersOf(p.sets, ZOOS_KEY) == zoos
            && (forall zoo :: zoo in p.status <==> KeysTargeting(hashes, zoo) != {})
            && (forall zoo :: zoo in p.status ==>
                  && p.status[zoo].count == |KeysTargeting(hashes, zoo)|
                  && SetOf(p.status[zoo].users) == TokensOf(KeysTargeting(hashes, zoo)))
  {
    RebuildAll(hashes, Cleared(before), scan);
    ClearedIndices(before, Cleared(before));
    AllScanned(hashes, scan);
  }

  /** Every hash that names a target is a user hash. */
  ghost predicate OnlyUsersTarget(hashes: Hashes) {
    forall k :: k in hashes && "target" in hashes[k] ==> USER <= k
  }

  /**
   * From any index contents and in any scan order, regenerating makes the index of a registered zoo agree with
   * the hashes exactly when the keys that target this zoo are clean. When only user hashes name a target, that
   * is exactly when no user of this zoo has a token that holds "user:".
   */
  lemma {:induction false} RegenerateAgrees(hashes: Hashes, before: Sets, scan: seq<string>, zoo: string)
    requires forall i, j :: 0 <= i < j < |scan| ==> scan[i] != scan[j]
    requires forall k :: k in hashes ==> k in scan
    requires zoo in MembersOf(before, ZOOS_KEY)
    ensures var sets := VisitAll(hashes, Progress(Cleared(before), map[]), scan).sets;
            && (Agrees(hashes, sets, zoo) <==> CleanKeys(hashes, zoo))
            && (OnlyUsersTarget(hashes) ==>
                  (Agrees(hashes, sets, zoo) <==> forall t :: Targets(hashes, t, zoo) ==> !HoldsUser(t)))
  {
    RegenerateMeaning(hashes, before, scan);
    CleanTokens(hashes, zoo);
    var p := VisitAll(hashes, Progress(Cleared(before), map[]), scan);
    assert Index(p.sets, zoo) == TokensOf(KeysTargeting(hashes, zoo));
  }

  lemma {:induction false} AllScanned(hashes: Hashes, scan: seq<string>)
    requires forall k :: k in hashes ==> k in scan
    ensures forall zoo :: Scanned(hashes, scan, zoo) == KeysTargeting(hashes, zoo)
  {
  }

  lemma {:induction false} ClearedIndices(before: Sets, after: Sets)
    requires after == Cleared(before)
    ensures forall zoo :: Index(after, zoo) == if zoo in MembersOf(before, ZOOS_KEY) then {} else Index(before, zoo)
    ensures MembersOf(after, ZOOS_KEY) == MembersOf(before, ZOOS_KEY)
  {
    forall zoo, z ensures IndexKey(zoo) == IndexKey(z) ==> zoo == z && IndexKey(z) != ZOOS_KEY {
      KeysInjective(zoo, z);
    }
    forall z ensures IndexKey(z) != ZOOS_KEY {
      KeysInjective(z, z);
    }
  }

  /** The keys that target the zoo among those scanned so far. */
  function Scanned(hashes: Hashes, scanned: seq<string>, zoo: string): set<string> {
    set k | k in KeysTargeting(hashes, zoo) && k in scanned
  }

  ghost predicate Rebuilt(hashes: Hashes, cleared: Sets, sets: Sets, scanned: seq<string>) {
    && (forall zoo :: Index(sets, zoo) == Index(cleared, zoo) + TokensOf(Scanned(hashes, scanned, zoo)))
    && MembersOf(sets, ZOOS_KEY) == MembersOf(cleared, ZOOS_KEY)
  }

  /** The status has an entry for the zoo exactly when there are keys, and then their number. */
  ghost predicate CountedFor(status: map<string, Status>, zoo: string, keys: set<string>) {
    (zoo in status <==> keys != {}) && (zoo in status ==> status[zoo].count == |keys|)
  }

  ghost predicate Counted(hashes: Hashes, status: map<string, Status>, scanned: seq<string>) {
    forall zoo :: CountedFor(status, zoo, Scanned(hashes, scanned, zoo))
  }

  ghost predicate ListedFor(status: map<string, Status>, zoo: string, keys: set<string>)
    requires zoo in status
  {
    SetOf(status[zoo].users) == TokensOf(keys)
  }

  ghost predicate Listed(hashes: Hashes, status: map<string, Status>, scanned: seq<string>) {
    forall zoo :: zoo in status ==> ListedFor(status, zoo, Scanned(hashes, scanned, zoo))
  }

  lemma {:induction false} CountedOneMore(status: map<string, Status>, zoo: string, keys: set<string>, key: string,
                                          users: seq<string>)
    requires CountedFor(status, zoo, keys) && key !in keys
    ensures var count := if zoo in status then status[zoo].count else 0;
            CountedFor(status[zoo := Status(count + 1, users)], zoo, keys + {key})
  {
    assert key in keys + {key};
  }

  lemma {:induction false} CountOne(hashes: Hashes, status: map<string, Status>, scanned: seq<string>,
                                    key: string, users: seq<string>)
    requires Counted(hashes, status, scanned) && key in hashes && "target" in hashes[key] && key !in scanned
    ensures var target := hashes[key]["target"];
            var count := if target in status then status[target].count else 0;
            Counted(hashes, status[target := Status(count + 1, users)], scanned + [key])
  {
    var target := hashes[key]["target"];
    var after := status[target := Status((if target in status then status[target].count else 0) + 1, users)];
    ScannedOne(hashes, scanned, key);
    forall zoo ensures CountedFor(after, zoo, Scanned(hashes, scanned + [key], zoo)) {
      assert CountedFor(status, zoo, Scanned(hashes, scanned, zoo));
      if zoo == target {
        CountedOneMore(status, zoo, Scanned(hashes, scanned, zoo), key, users);
      }
    }
  }

  lemma {:induction false} ScannedOne(hashes: Hashes, scanned: seq<string>, key: string)
    requires key in hashes && "target" in hashes[key]
    ensures forall zoo :: Scanned(hashes, scanned + [key], zoo) ==
              if zoo == hashes[key]["target"] then Scanned(hashes, scanned, zoo) + {key}
              else Scanned(hashes, scanned, zoo)
  {
  }

  lemma {:induction false} RebuildOne(hashes: Hashes, cleared: Sets, sets: Sets, scanned: seq<string>, key: string)
    requires Rebuilt(hashes, cleared, sets, scanned) && key in hashes && "target" in hashes[key]
    ensures var target, token := hashes[key]["target"], TokenOf(key);
            var after := if token.Some? then sets[IndexKey(target) := Index(sets, target) + {token.value}] else sets;
            Rebuilt(hashes, cleared, after, scanned + [key])
  {
    var target, token := hashes[key]["target"], TokenOf(key);
    var after := if token.Some? then sets[IndexKey(target) := Index(sets, target) + {token.value}] else sets;
    ScannedOne(hashes, scanned, key);
    KeysInjective(target, target);
    forall zoo ensures Index(after, zoo) == Index(cleared, zoo) + TokensOf(Scanned(hashes, scanned + [key], zoo)) {
      KeysInjective(zoo, target);
      if zoo == target {
        TokensOneMore(Scanned(hashes, scanned, zoo), key);
      }
    }
  }

  // ----- what the operations mean for the index

  /** A token that holds "user:" is indexed under its front part, so the regenerated index disagrees. */
  lemma UncleanTokenIsCut()
    ensures var key := UserKey("auser:b");
            var hashes := map[key := map["target" := "z"]];
            var sets := VisitAll(hashes, Progress(Cleared(map[ZOOS_KEY := {"z"}]), map[]), [key]).sets;
            && TokenOf(key) == Some("a")
            && Index(sets, "z") == {"a"}
            && !Agrees(hashes, sets, "z")
  {
    var key := UserKey("auser:b");
    var hashes: Hashes := map[key := map["target" := "z"]];
    var before: Sets := map[ZOOS_KEY := {"z"}];
    assert key[|USER|..] == "auser:b";
    assert "auser:b"[1..] == "user:b";
    assert "auser:b"[0] != USER[0];
    assert BeforeUser("user:b") == "";
    assert BeforeUser("auser:b") == ['a'];
    assert USER <= key;
    RegenerateMeaning(hashes, before, [key]);
    assert KeysTargeting(hashes, "z") == {key};
    assert TokensOf({key}) == {"a"};
    assert Targets(hashes, "auser:b", "z") && "auser:b" !in {"a"};
  }

  /**
   * Deleting a user's hash alone keeps a zoo's agreement exactly when the user did not target it: the index
   * entry stays behind.
   */
  lemma {:induction false} DeleteMeaning(hashes: Hashes, sets: Sets, token: string, zoo: string)
    requires Agrees(hashes, sets, zoo)
    ensures Agrees(hashes - {UserKey(token)}, sets, zoo) <==> !Targets(hashes, token, zoo)
  {
    forall t ensures Targets(hashes - {UserKey(token)}, t, zoo) <==> t != token && Targets(hashes, t, zoo) {
      KeysInjective(t, token);
    }
  }

  /** Deleting an index keeps the agreement of every other zoo, and of its own exactly when no user targets it. */
  lemma {:induction false} DeleteIndexMeaning(hashes: Hashes, sets: Sets, zoo: string, other: string)
    requires zoo != other && Agrees(hashes, sets, zoo) && Agrees(hashes, sets, other)
    ensures Agrees(hashes, sets - {IndexKey(zoo)}, other)
    ensures Agrees(hashes, sets - {IndexKey(zoo)}, zoo) <==> forall t :: !Targets(hashes, t, zoo)
  {
    KeysInjective(zoo, other);
  }

  /**
   * delete_by_index leaves no user targeting the zoo exactly when the index held all of them, and it keeps
   * the agreement of another zoo exactly when the index held none of that zoo's users.
   */
  lemma {:induction false} DeleteByIndexMeaning(hashes: Hashes, sets: Sets, zoo: string, other: string)
    requires zoo != other && Agrees(hashes, sets, other)
    ensures var hashes' := hashes - (set t | t in Index(sets, zoo) :: UserKey(t));
            var sets' := sets - {IndexKey(zoo)};
            && ((forall t :: !Targets(hashes', t, zoo)) <==>
                forall t :: Targets(hashes, t, zoo) ==> t in Index(sets, zoo))
            && Index(sets', zoo) == {}
            && (Agrees(hashes', sets', other) <==> forall t :: t in Index(sets, zoo) ==> !Targets(hashes, t, other))
  {
    var gone := set t | t in Index(sets, zoo) :: UserKey(t);
    var hashes', sets' := hashes - gone, sets - {IndexKey(zoo)};
    KeysInjective(zoo, other);
    forall t ensures UserKey(t) in gone <==> t in Index(sets, zoo) {
      forall u | u in Index(sets, zoo) ensures UserKey(u) == UserKey(t) ==> u == t {
        KeysInjective(u, t);
      }
    }
    forall t, z ensures Targets(hashes', t, z) <==> Targets(hashes, t, z) && t !in Index(sets, zoo) {}
    assert Index(sets', other) == Index(sets, other);
  }

  /** From an agreeing store both hold. */
  lemma {:induction false} DeleteByIndexAgrees(hashes: Hashes, sets: Sets, zoo: string, other: string)
    requires zoo != other && Agrees(hashes, sets, zoo) && Agrees(hashes, sets, other)
    ensures var hashes' := hashes - (set t | t in Index(sets, zoo) :: UserKey(t));
            var sets' := sets - {IndexKey(zoo)};
            (forall t :: !Targets(hashes', t, zoo)) && Agrees(hashes', sets', zoo) && Agrees(hashes', sets', other)
  {
    DeleteByIndexMeaning(hashes, sets, zoo, other);
  }

  /**
   * Setting a user's zoo together with its index entry keeps the new zoo's agreement, and keeps another
   * zoo's exactly when the user did not target that one before: its old index entry is left behind.
   */
  lemma {:induction false} SetMeaning(hashes: Hashes, sets: Sets, token: string, zoo: string, other: string, hash: Hash)
    requires Agrees(hashes, sets, zoo) && Agrees(hashes, sets, other) && zoo != other
    requires "target" in hash && hash["target"] == zoo
    ensures var hashes' := hashes[UserKey(token) := hash];
            var sets' := sets[IndexKey(zoo) := Index(sets, zoo) + {token}];
            && Agrees(hashes', sets', zoo)
            && (Agrees(hashes', sets', other) <==> !Targets(hashes, token, other))
  {
    var hashes' := hashes[UserKey(token) := hash];
    var sets' := sets[IndexKey(zoo) := Index(sets, zoo) + {token}];
    KeysInjective(zoo, other);
    assert Index(sets', other) == Index(sets, other);
    forall t, z ensures Targets(hashes', t, z) <==> if t == token then z == zoo else Targets(hashes, t, z) {
      KeysInjective(t, token);
    }
  }
}
