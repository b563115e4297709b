/** The channel blacklist of blacklist.py: memory over a cache file over the database. */
module Blacklist {
  import opened Wrappers

  /** The instance's list, and what the cache file holds: None when it is missing or does not parse. */
  datatype Cache = Cache(memory: Option<seq<string>>, file: Option<seq<string>>)

  /** How writing the file ends. Opening it for writing empties it, so a later OSError leaves it torn. */
  datatype Write = Written | NotOpened | Torn

  /** What the outside answers during a call: the database's ids, none when it fails, and the file write. */
  datatype World = World(rds: seq<string>, write: Write)

  function WriteFile(file: Option<seq<string>>, ids: seq<string>, w: Write): Option<seq<string>> {
    match w
    case Written => Some(ids)
    case NotOpened => file
    case Torn => None
  }

  /** A nonempty database answer goes to the file and to memory. */
  function Take(c: Cache, world: World): Cache {
    Cache(Some(world.rds), WriteFile(c.file, world.rds, world.write))
  }

  function AfterInitialize(c: Cache, world: World): Cache {
    if world.rds != [] then Take(c, world)
    else if c.file.Some? then c.(memory := c.file)
    else c.(memory := Some([]))
  }

  function AfterRefresh(c: Cache, world: World): Cache {
    if world.rds != [] then Take(c, world) else c
  }

  function AfterGet(c: Cache, world: World): Cache {
    if c.memory.Some? then c
    else if c.file.Some? then c.(memory := c.file)
    else if world.rds != [] then Take(c, world)
    else c.(memory := Some([]))
  }

  /** Looking up no channel at all does not touch the cache. */
  function AfterLookup(c: Cache, channel: Option<string>, world: World): Cache {
    if channel.None? then c else AfterGet(c, world)
  }

  predicate Answers(c: Cache, channel: Option<string>, world: World) {
    channel.Some? && channel.value in AfterGet(c, world).memory.value
  }

  datatype Step =
    | Init(world: World)
    | Refreshed(world: World)
    | Lookup(channel: Option<string>, world: World)
    | Restart  // a new process: the file stays, memory is empty

  function Next(c: Cache, step: Step): Cache {
    match step
    case Init(world) => AfterInitialize(c, world)
    case Refreshed(world) => AfterRefresh(c, world)
    case Lookup(channel, world) => AfterLookup(c, channel, world)
    case Restart => c.(memory := None)
  }

  function Run(c: Cache, steps: seq<Step>): Cache
    decreases |steps|
  {
    if steps == [] then c else Run(Next(c, steps[0]), steps[1..])
  }

  /** Lookups and refreshes the database does not answer. */
  predicate Quiet(step: Step) {
    step.Lookup? || (step.Refreshed? && step.world.rds == [])
  }

  /** Quiet, or a startup or restart the database does not answer either. */
  predicate Unanswered(step: Step) {
    Quiet(step) || step.Restart? || (step.Init? && step.world.rds == [])
  }

  /** The step takes a list from the database. A lookup does when there is neither a list in memory nor a file. */
  predicate Takes(c: Cache, step: Step) {
    match step
    case Init(world) => world.rds != []
    case Refreshed(world) => world.rds != []
    case Lookup(channel, world) => channel.Some? && c.memory.None? && c.file.None? && world.rds != []
    case Restart => false
  }

  /**
   * Once a startup, refresh or lookup has taken a list from the database, every later lookup answers membership in
   * it, whatever the file write did, and failed refreshes change nothing, until the next success. A lookup that
   * takes the list answers from it too.
   */
  lemma {:induction false} TakenListAnswers(c: Cache, take: Step, quiet: seq<Step>, channel: string, world: World)
    requires Takes(c, take) && forall q :: q in quiet ==> Quiet(q)
    ensures var after := Run(Next(c, take), quiet);
            && after == Next(c, take)
            && after.memory == Some(take.world.rds)
            && (Answers(after, Some(channel), world) <==> channel in take.world.rds)
            && (take.Lookup? ==> (Answers(c, Some(channel), take.world) <==> channel in take.world.rds))
    decreases |quiet|
  {
    QuietChangesNothing(Next(c, take), quiet);
  }

  lemma {:induction false} QuietChangesNothing(c: Cache, quiet: seq<Step>)
    requires c.memory.Some? && forall q :: q in quiet ==> Quiet(q)
    ensures Run(c, quiet) == c
    decreases |quiet|
  {
    if quiet != [] {
      assert quiet[0] in quiet;
      QuietChangesNothing(c, quiet[1..]);
    }
  }

  /**
   * When the file write succeeded too, restarts and startups without the database make no difference: every
   * lookup, even the first of a new process, still answers membership in the list.
   */
  lemma {:induction false} WrittenListSurvives(c: Cache, take: Step, steps: seq<Step>, channel: string, world: World)
    requires Takes(c, take) && take.world.write == Written && forall q :: q in steps ==> Unanswered(q)
    ensures var after := Run(Next(c, take), steps);
            Answers(after, Some(channel), world) <==> channel in take.world.rds
  {
    SurvivesFrom(Next(c, take), steps, take.world.rds);
  }

  lemma {:induction false} SurvivesFrom(c: Cache, steps: seq<Step>, ids: seq<string>)
    requires c.file == Some(ids) && (c.memory.Some? ==> c.memory.value == ids)
    requires forall q :: q in steps ==> Unanswered(q)
    ensures var after := Run(c, steps);
            after.file == Some(ids) && (after.memory.Some? ==> after.memory.value == ids)
    decreases |steps|
  {
    if steps != [] {
      assert steps[0] in steps;
      SurvivesFrom(Next(c, steps[0]), steps[1..], ids);
    }
  }

  lemma {:induction false} RunConcat(c: Cache, a: seq<Step>, b: seq<Step>)
    ensures Run(c, a + b) == Run(Run(c, a), b)
    decreases |a|
  {
    if a == [] {
      assert a + b == b;
    } else {
      assert (a + b)[1..] == a[1..] + b;
      RunConcat(Next(c, a[0]), a[1..], b);
    }
  }

  /** With nothing in memory, file or database no channel is on the list, and a startup leaves an empty one. */
  lemma NothingKnown(c: Cache, channel: Option<string>, world: World)
    requires c.memory.None? && c.file.None? && world.rds == []
    ensures !Answers(c, channel, world)
    ensures AfterInitialize(c, world).memory == Some([])
    ensures AfterRefresh(c, world) == c
  {
  }

  // ----- restarts after whole runs

  /** The write to the cache file that a step makes, if it makes one. */
  function WritesOf(c: Cache, step: Step): seq<World> {
    if Takes(c, step) then [step.world] else []
  }

  /** All writes to the cache file over a run, in order. */
  function FileWrites(c: Cache, steps: seq<Step>): seq<World>
    decreases |steps|
  {
    if steps == [] then [] else WritesOf(c, steps[0]) + FileWrites(Next(c, steps[0]), steps[1..])
  }

  function FileAfter(file: Option<seq<string>>, writes: seq<World>): Option<seq<string>>
    decreases |writes|
  {
    if writes == [] then file else FileAfter(WriteFile(file, writes[0].rds, writes[0].write), writes[1..])
  }

  lemma {:induction false} FileFollowsWrites(c: Cache, steps: seq<Step>)
    ensures Run(c, steps).file == FileAfter(c.file, FileWrites(c, steps))
    ensures forall w :: w in FileWrites(c, steps) ==> w.rds != []
    decreases |steps|
  {
    if steps != [] {
      FileFollowsWrites(Next(c, steps[0]), steps[1..]);
      var first, rest := WritesOf(c, steps[0]), FileWrites(Next(c, steps[0]), steps[1..]);
      if first == [] {
        assert first + rest == rest;
      } else {
        assert (first + rest)[1..] == rest;
      }
    }
  }

  predicate NoneWritten(writes: seq<World>) {
    forall w :: w in writes ==> w.write != Written
  }

  predicate SomeTorn(writes: seq<World>) {
    exists w :: w in writes && w.write == Torn
  }

  lemma {:induction false} UnwrittenFile(file: Option<seq<string>>, writes: seq<World>)
    requires NoneWritten(writes)
    ensures FileAfter(file, writes) == if SomeTorn(writes) then None else file
    decreases |writes|
  {
    if writes != [] {
      assert writes[0] in writes;
      UnwrittenFile(WriteFile(file, writes[0].rds, writes[0].write), writes[1..]);
      assert forall w :: w in writes <==> w == writes[0] || w in writes[1..];
    }
  }

  lemma {:induction false} LastWrittenFile(file: Option<seq<string>>, writes: seq<World>, i: nat)
    requires i < |writes| && writes[i].write == Written && NoneWritten(writes[i + 1..])
    ensures FileAfter(file, writes) == if SomeTorn(writes[i + 1..]) then None else Some(writes[i].rds)
    decreases |writes|
  {
    var next := WriteFile(file, writes[0].rds, writes[0].write);
    if i == 0 {
      UnwrittenFile(next, writes[1..]);
    } else {
      assert writes[1..][i..] == writes[i + 1..];
      LastWrittenFile(next, writes[1..], i - 1);
    }
  }

  /** A new process that starts without the database. */
  const RESTART: seq<Step> := [Restart, Init(World([], Written))]

  lemma {:induction false} RestartReadsFile(c: Cache, steps: seq<Step>)
    ensures Run(c, steps + RESTART).memory ==
            if Run(c, steps).file.Some? then Run(c, steps).file else Some([])
  {
    RunConcat(c, steps, RESTART);
    var before := Run(c, steps);
    assert RESTART[1..] == [Init(World([], Written))] && RESTART[1..][1..] == [];
    assert Run(before, RESTART) == Run(Next(before, Restart), RESTART[1..]);
    assert Run(Next(before, Restart), RESTART[1..]) == Next(Next(before, Restart), Init(World([], Written)));
  }

  /**
   * A new process that starts without the database answers from the list last taken when its write
   * succeeded, from the file before it when the file could not be opened, and from an empty list when the
   * write was torn: then the file written successfully before is lost as well.
   */
  lemma {:induction false} RestartAnswers(c: Cache, take: Step, quiet: seq<Step>)
    requires Takes(c, take) && forall q :: q in quiet ==> Quiet(q)
    ensures var restarted := Run(Next(c, take), quiet + RESTART);
            restarted.memory ==
            match take.world.write
            case Written => Some(take.world.rds)
            case NotOpened => if c.file.Some? then c.file else Some([])
            case Torn => Some([])
  {
    QuietChangesNothing(Next(c, take), quiet);
    RestartReadsFile(Next(c, take), quiet);
  }

  /**
   * After any run a restart without the database answers the list last written successfully exactly when no
   * write since then was torn, and no channel at all otherwise.
   */
  lemma {:induction false} RestartAnswersLastWritten(c: Cache, steps: seq<Step>, i: nat)
    requires var writes := FileWrites(c, steps);
             i < |writes| && writes[i].write == Written && NoneWritten(writes[i + 1..])
    ensures var writes, restarted := FileWrites(c, steps), Run(c, steps + RESTART);
            && (restarted.memory == Some(writes[i].rds) <==> !SomeTorn(writes[i + 1..]))
            && (restarted.memory == Some([]) <==> SomeTorn(writes[i + 1..]))
  {
    FileFollowsWrites(c, steps);
    LastWrittenFile(c.file, FileWrites(c, steps), i);
    RestartReadsFile(c, steps);
    assert FileWrites(c, steps)[i] in FileWrites(c, steps);
  }

  /** When a run wrote nothing successfully, a restart answers from the file before it, unless a write tore that. */
  lemma {:induction false} RestartAnswersOldFile(c: Cache, steps: seq<Step>)
    requires NoneWritten(FileWrites(c, steps))
    ensures Run(c, steps + RESTART).memory ==
            if c.file.Some? && !SomeTorn(FileWrites(c, steps)) then c.file else Some([])
  {
    FileFollowsWrites(c, steps);
    UnwrittenFile(c.file, FileWrites(c, steps));
    RestartReadsFile(c, steps);
  }

  /** The process's cache object, with the cache file it shares with the next process. */
  class BlacklistCache {
    var channelIds: Option<seq<string>>
    var cacheFile: Option<seq<string>>

    ghost function State(): Cache
      reads this
    {
      Cache(channelIds, cacheFile)
    }

    constructor (cacheFile: Option<seq<string>>)
      ensures State() == Cache(None, cacheFile)
    {
      channelIds, this.cacheFile := None, cacheFile;
    }

    method WriteCache(ids: seq<string>, write: Write)
      modifies this`cacheFile
      ensures cacheFile == WriteFile(old(cacheFile), ids, write)
    {
      match write
      case Written => cacheFile := Some(ids);
      case NotOpened =>
      case Torn => cacheFile := None;
    }

    method Initialize(world: World)
      modifies this
      ensures State() == AfterInitialize(old(State()), world)
    {
      if |world.rds| > 0 {
        WriteCache(world.rds, world.write);
        channelIds := Some(world.rds);
        return;
      }
      var cached := cacheFile;
      channelIds := if cached.Some? then cached else Some([]);
    }

    method Refresh(world: World) returns (refreshed: bool)
      modifies this
      ensures State() == AfterRefresh(old(State()), world) && (refreshed <==> world.rds != [])
    {
      if |world.rds| > 0 {
        WriteCache(world.rds, world.write);
        channelIds := Some(world.rds);
        return true;
      }
      refreshed := false;
    }

    method GetChannelIds(world: World) returns (ids: seq<string>)
      modifies this
      ensures State() == AfterGet(old(State()), world) && channelIds == Some(ids)
    {
      if channelIds.Some? {
        return channelIds.value;
      }
      if cacheFile.Some? {
        channelIds := cacheFile;
        return channelIds.value;
      }
      if |world.rds| > 0 {
        WriteCache(world.rds, world.write);
        channelIds := Some(world.rds);
        return world.rds;
      }
      channelIds := Some([]);
      ids := [];
    }

    method IsBlacklisted(channel: Option<string>, world: World) returns (blacklisted: bool)
      modifies this
      ensures State() == AfterLookup(old(State()), channel, world)
      ensures blacklisted <==> Answers(old(State()), channel, world)
    {
      if channel.None? {
        return false;
      }
      var ids := GetChannelIds(world);
      blacklisted := channel.value in ids;
    }
  }
}
