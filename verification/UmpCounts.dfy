/** The atomic check-and-increment of UMP user counts, the Lua script of TVCRedis.incr_ump_count. */
module UmpCounts {
  import opened Wrappers

  /** The hash of one UMP; a field is None when the hash does not hold it. */
  datatype Ump = Ump(count: Option<int>, baseCount: Option<int>, baseTs: Option<int>)

  const Missing := Ump(None, None, None)

  /** The arguments of one script call. */
  datatype Call = Call(limit: int, increment: int, baseCount: int, baseTs: int, timeout: int)

  /** tonumber(base_ts or '0') >= tonumber(ARGV[4]) */
  predicate Current(u: Ump, c: Call) {
    (if u.baseTs.Some? then u.baseTs.value else 0) >= c.baseTs
  }

  function RealCount(u: Ump, c: Call): int {
    if Current(u, c) && u.count.Some? then u.count.value else c.baseCount
  }

  predicate Accepts(u: Ump, c: Call) {
    RealCount(u, c) + c.increment <= c.limit
  }

  /** hincrby of the count. */
  function Incremented(u: Ump, increment: int): Ump {
    u.(count := Some((if u.count.Some? then u.count.value else 0) + increment))
  }

  /** The hash after the script. */
  function Eval(u: Ump, c: Call): Ump {
    if !Accepts(u, c) then u
    else if Current(u, c) then Incremented(u, c.increment)
    else Ump(Some(c.increment + c.baseCount), Some(c.baseCount), Some(c.baseTs))
  }

  // ----- the script, in terms of what is stored and what is asked

  /** A hash is stored whose base is at least as new as the call's. */
  predicate HasBase(s: State, c: Call) {
    s.ump != Missing && s.ump.baseTs.Some? && c.baseTs <= s.ump.baseTs.value
  }

  /** The count a call starts from: base and accepted increments, or its own base when it brings a newer one. */
  function CountBefore(s: State, c: Call): int {
    if HasBase(s, c) && s.ump.baseCount.Some? then s.ump.baseCount.value + s.accepted else c.baseCount
  }

  /**
   * A call is accepted exactly when the count it starts from and its increment are within its limit. Accepted,
   * it adds to the stored count and leaves base and expiry alone, or, with a newer base, it stores that base
   * with the count on top of it and lets the key expire after the call's timeout.
   */
  lemma ScriptMeaning(s: State, c: Call)
    requires Accounted(s) && !Expired(s) && !Malformed(s, c)
    ensures Accepts(s.ump, c) <==> CountBefore(s, c) + c.increment <= c.limit
    ensures Accepts(s.ump, c) ==>
              Next(s, Script(c)) ==
              if HasBase(s, c) then
                State(s.now, Ump(Some(CountBefore(s, c) + c.increment), s.ump.baseCount, s.ump.baseTs),
                      s.expiresAt, s.accepted + c.increment)
              else if c.timeout <= 0 then Start(s.now)
              else
                State(s.now, Ump(Some(c.baseCount + c.increment), Some(c.baseCount), Some(c.baseTs)),
                      Some(s.now + c.timeout), c.increment)
  {
  }

  // ----- runs

  /** The key of one UMP with its expiry, and the increments accepted since the base was last set. */
  datatype State = State(now: int, ump: Ump, expiresAt: Option<int>, accepted: int)

  datatype Step =
    | Script(call: Call)
    | Tick(seconds: nat)

  function Expired(s: State): bool {
    s.expiresAt.Some? && s.expiresAt.value <= s.now
  }

  function Expire(s: State): State {
    if Expired(s) then State(s.now, Missing, None, 0) else s
  }

  /** A script call resets the base when it is accepted and its base is newer than the stored one. */
  predicate Resets(s: State, c: Call) {
    Accepts(s.ump, c) && !Current(s.ump, c)
  }

  function Next(s: State, step: Step): State {
    match step
    case Tick(seconds) => Expire(s.(now := s.now + seconds))
    case Script(c) =>
      Expire(State(s.now, Eval(s.ump, c),
                   if Resets(s, c) then Some(s.now + c.timeout) else s.expiresAt,
                   if !Accepts(s.ump, c) then s.accepted
                   else if Resets(s, c) then c.increment
                   else s.accepted + c.increment))
  }

  function Run(s: State, steps: seq<Step>): State
    decreases |steps|
  {
    if steps == [] then s else Run(Next(s, steps[0]), steps[1..])
  }

  function Start(now: int): State {
    State(now, Missing, None, 0)
  }

  /** The hash is absent, or it holds all three fields and its count is the base plus what was accepted. */
  predicate Accounted(s: State) {
    if s.ump == Missing then s.accepted == 0 else
      && s.ump.count.Some? && s.ump.baseCount.Some? && s.ump.baseTs.Some?
      && s.ump.count.value == s.ump.baseCount.value + s.accepted
  }

  /** The call the script mishandles: accepted with no hash stored and a base timestamp that is not positive. */
  predicate Malformed(s: State, c: Call) {
    s.ump == Missing && c.baseTs <= 0 && Accepts(s.ump, c)
  }

  /** A step keeps the account exactly when it is not the mishandled call. */
  lemma StepKeepsAccount(s: State, step: Step)
    requires Accounted(s) && !Expired(s)
    ensures Accounted(Next(s, step)) <==> !(step.Script? && Malformed(s, step.call))
    ensures !Expired(Next(s, step))
  {
  }

  /** The account holds at every moment of the run. */
  predicate KeepsAccount(s: State, steps: seq<Step>)
    decreases |steps|
  {
    Accounted(s) && (steps != [] ==> KeepsAccount(Next(s, steps[0]), steps[1..]))
  }

  /** No call of the run is the mishandled one. */
  predicate WellFormed(s: State, steps: seq<Step>)
    decreases |steps|
  {
    steps != [] ==> !(steps[0].Script? && Malformed(s, steps[0].call)) && WellFormed(Next(s, steps[0]), steps[1..])
  }

  /**
   * Over every interleaving of any clients' calls the stored count is the stored base plus the increments
   * accepted since, at every moment, exactly when no call with a base timestamp of zero or less is accepted
   * while the hash is missing.
   */
  lemma {:induction false} AccountKeptIff(s: State, steps: seq<Step>)
    requires Accounted(s) && !Expired(s)
    ensures KeepsAccount(s, steps) <==> WellFormed(s, steps)
    decreases |steps|
  {
    if steps != [] {
      StepKeepsAccount(s, steps[0]);
      if Accounted(Next(s, steps[0])) {
        AccountKeptIff(Next(s, steps[0]), steps[1..]);
      }
    }
  }

  predicate PositiveBases(steps: seq<Step>) {
    forall step :: step in steps && step.Script? ==> step.call.baseTs > 0
  }

  /** Calls whose base timestamps are positive are always accounted for. */
  lemma {:induction false} PositiveBasesKeepAccount(s: State, steps: seq<Step>)
    requires Accounted(s) && !Expired(s) && PositiveBases(steps)
    ensures KeepsAccount(s, steps) && WellFormed(s, steps)
    ensures Accounted(Run(s, steps)) && !Expired(Run(s, steps))
    decreases |steps|
  {
    if steps != [] {
      assert steps[0] in steps;
      StepKeepsAccount(s, steps[0]);
      PositiveBasesKeepAccount(Next(s, steps[0]), steps[1..]);
    }
  }

  /** The increment alone passes the limit, and it is all the count will be: a current hash without a count. */
  predicate Overshoots(u: Ump, c: Call) {
    Current(u, c) && u.count.None? && c.increment > c.limit
  }

  /**
   * In every state a refused call changes nothing, and an accepted one leaves the count within that call's
   * limit exactly when it does not overshoot. In an accounted state only the mishandled call can.
   */
  lemma CallRespectsLimit(s: State, c: Call)
    requires !Expired(s)
    ensures !Accepts(s.ump, c) ==> Next(s, Script(c)) == s
    ensures Accepts(s.ump, c) ==> Eval(s.ump, c).count.Some?
    ensures Accepts(s.ump, c) ==> (Eval(s.ump, c).count.value <= c.limit <==> !Overshoots(s.ump, c))
    ensures Accounted(s) && Accepts(s.ump, c) && Overshoots(s.ump, c) ==> Malformed(s, c)
  {
  }

  /**
   * The mishandled call: on a missing hash, with a base timestamp of zero, it stores the increment as the count
   * and no base, and without an expiry it stays so. With a negative base count it even passes its limit.
   */
  lemma MishandledCalls(now: int)
    ensures Next(Start(now), Script(Call(10, 5, 3, 0, 60))) == State(now, Ump(Some(5), None, None), None, 5)
    ensures !Accounted(Next(Start(now), Script(Call(10, 5, 3, 0, 60))))
    ensures var c := Call(10, 12, -3, 0, 60);
            Accepts(Missing, c) && Eval(Missing, c).count.value > c.limit
  {
  }

  /** The key is not lost to expiry in this step: once a call is accepted, it is there. */
  predicate Keeps(s: State, step: Step) {
    s.ump != Missing || (step.Script? && Accepts(s.ump, step.call)) ==> Next(s, step).ump != Missing
  }

  /** The key never expires during the run. */
  predicate NeverExpires(s: State, steps: seq<Step>)
    decreases |steps|
  {
    steps != [] ==> Keeps(s, steps[0]) && NeverExpires(Next(s, steps[0]), steps[1..])
  }

  /** Until the key expires, its base timestamp never goes back, whatever the calls. */
  lemma {:induction false} BaseTsNeverDecreases(s: State, steps: seq<Step>)
    requires !Expired(s) && NeverExpires(s, steps) && s.ump.baseTs.Some?
    ensures var after := Run(s, steps).ump;
            after.baseTs.Some? && s.ump.baseTs.value <= after.baseTs.value
    decreases |steps|
  {
    if steps != [] {
      BaseTsNeverDecreases(Next(s, steps[0]), steps[1..]);
    }
  }

  predicate SameLimit(steps: seq<Step>, limit: int) {
    forall step :: step in steps && step.Script? ==> step.call.limit == limit
  }

  /** With one limit for all calls and none of them mishandled, the count never passes it, whatever bases come. */
  lemma {:induction false} LimitNeverPassed(s: State, steps: seq<Step>, limit: int)
    requires Accounted(s) && !Expired(s) && WellFormed(s, steps) && SameLimit(steps, limit)
    requires s.ump != Missing ==> s.ump.count.value <= limit
    ensures var after := Run(s, steps);
            after.ump != Missing ==> after.ump.baseCount.Some? && after.accepted <= limit - after.ump.baseCount.value
    decreases |steps|
  {
    if steps != [] {
      assert steps[0] in steps;
      StepKeepsAccount(s, steps[0]);
      LimitNeverPassed(Next(s, steps[0]), steps[1..], limit);
    }
  }

  /** The increments of all accepted calls of the run. */
  function AcceptedSum(s: State, steps: seq<Step>): int
    decreases |steps|
  {
    if steps == [] then 0
    else (if steps[0].Script? && Accepts(s.ump, steps[0].call) then steps[0].call.increment else 0)
         + AcceptedSum(Next(s, steps[0]), steps[1..])
  }

  lemma {:induction false} OneBaseAcceptsAll(s: State, steps: seq<Step>, baseTs: int)
    requires Accounted(s) && !Expired(s) && WellFormed(s, steps) && NeverExpires(s, steps)
    requires forall step :: step in steps && step.Script? ==> step.call.baseTs == baseTs
    requires s.ump != Missing ==> s.ump.baseTs.value >= baseTs
    ensures Run(s, steps).accepted == s.accepted + AcceptedSum(s, steps) && Accounted(Run(s, steps))
    decreases |steps|
  {
    if steps != [] {
      assert steps[0] in steps;
      StepKeepsAccount(s, steps[0]);
      OneBaseAcceptsAll(Next(s, steps[0]), steps[1..], baseTs);
    }
  }

  /**
   * Admission over any interleaving: with one limit and one base timestamp, no expiry and no mishandled call,
   * all the increments ever accepted add up to at most the limit less the base count.
   */
  lemma AdmissionBound(now: int, steps: seq<Step>, limit: int, baseTs: int)
    requires WellFormed(Start(now), steps) && SameLimit(steps, limit) && NeverExpires(Start(now), steps)
    requires forall step :: step in steps && step.Script? ==> step.call.baseTs == baseTs
    ensures var after := Run(Start(now), steps);
            if after.ump == Missing then AcceptedSum(Start(now), steps) == 0
            else after.ump.baseCount.Some? && AcceptedSum(Start(now), steps) <= limit - after.ump.baseCount.value
  {
    LimitNeverPassed(Start(now), steps, limit);
    OneBaseAcceptsAll(Start(now), steps, baseTs);
  }

  // ----- the client

  datatype Entry = Entry(ump: Ump, expiresAt: Option<int>)

  /** TVCRedis, as far as its UMP counts go: one hash for each host. */
  class TVCRedis {
    var now: int
    var umps: map<string, Entry>
    ghost var accepted: map<string, int>

    /** The state of one host's key, which is gone once it has expired. */
    ghost function View(host: string): State
      reads this
    {
      var entry := if host in umps then umps[host] else Entry(Missing, None);
      Expire(State(now, entry.ump, entry.expiresAt, if host in accepted then accepted[host] else 0))
    }

    constructor (now: int)
      ensures forall host :: View(host) == Start(now)
    {
      this.now, umps, accepted := now, map[], map[];
    }

    method Wait(seconds: nat)
      modifies this`now
      ensures forall host :: View(host) == Next(old(View(host)), Tick(seconds))
    {
      now := now + seconds;
    }

    /** The script, step by step, on the key of one host. Redis runs it as one atomic operation. */
    method IncrUmpCount(host: string, c: Call) returns (r: int)
      modifies this`umps, this`accepted
      ensures View(host) == Next(old(View(host)), Script(c))
      ensures r == if Accepts(old(View(host)).ump, c) then 1 else 0
      ensures Accounted(old(View(host))) ==>
                (r == 1 <==> CountBefore(old(View(host)), c) + c.increment <= c.limit)
      ensures forall other :: other != host ==> View(other) == old(View(other))
    {
      ghost var before := View(host);
      var entry := Entry(Missing, None);
      if host in umps && !(umps[host].expiresAt.Some? && umps[host].expiresAt.value <= now) {
        entry := umps[host];
      }
      var u := entry.ump;
      var cur := (if u.baseTs.Some? then u.baseTs.value else 0) >= c.baseTs;
      var realCount := if cur && u.count.Some? then u.count.value else c.baseCount;
      if realCount + c.increment > c.limit {
        return 0;
      }
      accepted := accepted[host := if cur then before.accepted + c.increment else c.increment];
      if cur {
        umps := umps[host := entry.(ump := Incremented(u, c.increment))];
      } else {
        var reset := Ump(Some(c.increment + c.baseCount), Some(c.baseCount), Some(c.baseTs));
        umps := umps[host := Entry(reset, Some(now + c.timeout))];
      }
      r := 1;
    }
  }
}
