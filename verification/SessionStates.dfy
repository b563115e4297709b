/** The chunked writes, the batched scan and the session encoding of dai_active_redis.py. */
module SessionStates {
  import opened Wrappers
  import opened Text
  import opened Facts

  // ----- session times

  datatype Times = Times(start: int, lastUpdated: int)

  /** '%d,%d' % session_times */
  function Encode(t: Times): string {
    IntText(t.start) + [','] + IntText(t.lastUpdated)
  }

  function ParseAll(parts: seq<string>): Option<seq<int>> {
    if parts == [] then Some([]) else
      var rest := ParseAll(parts[..|parts| - 1]);
      var last := ParseInt(parts[|parts| - 1]);
      if rest.None? || last.None? then None else Some(rest.value + [last.value])
  }

  /** map(int, text.split(',')), None standing for the ValueError. */
  function Decode(text: string): Option<seq<int>> {
    ParseAll(Split(text, ','))
  }

  lemma ParsePair(a: string, b: string)
    requires ParseInt(a).Some? && ParseInt(b).Some?
    ensures ParseAll([a, b]) == Some([ParseInt(a).value, ParseInt(b).value])
  {
    var x, y := ParseInt(a).value, ParseInt(b).value;
    assert [a, b][..1] == [a] && [a][..0] == [];
    assert ParseAll([]) == Some([]);
    assert ParseAll([a]) == Some([] + [x]) && [] + [x] == [x];
    assert [x] + [y] == [x, y];
  }

  /** The start comes first. */
  lemma TimesSpelled()
    ensures Encode(Times(0, -120)) == "0,-120"
  {
    IntTextSpelled();
  }

  lemma SessionRoundTrip(t: Times)
    ensures Decode(Encode(t)) == Some([t.start, t.lastUpdated])
  {
    IntRoundTrip(t.start);
    IntRoundTrip(t.lastUpdated);
    var parts := [IntText(t.start), IntText(t.lastUpdated)];
    SplitHead(parts[0], ',', parts[1]);
    SplitPlain(parts[1], ',');
    assert Split(Encode(t), ',') == parts;
    ParsePair(parts[0], parts[1]);
  }

  /** One entry of the sessions dict. */
  datatype Session = Session(token: string, times: Times)

  type Hash = map<string, string>

  /** A hash field as it is written. */
  datatype Field = Field(token: string, text: string)

  /** The fields of all sessions in order. */
  function Texts(sessions: seq<Session>): (r: seq<Field>)
    ensures |r| == |sessions|
  {
    if sessions == [] then [] else [Field(sessions[0].token, Encode(sessions[0].times))] + Texts(sessions[1..])
  }

  lemma {:induction false} TextAt(sessions: seq<Session>, i: nat)
    requires i < |sessions|
    ensures Texts(sessions)[i] == Field(sessions[i].token, Encode(sessions[i].times))
  {
    if i > 0 {
      TextAt(sessions[1..], i - 1);
    }
  }

  /** The fields of one hmset, a later one for a token replacing an earlier one. */
  function Fields(fields: seq<Field>): Hash {
    if fields == [] then map[] else
      var last := fields[|fields| - 1];
      Fields(fields[..|fields| - 1])[last.token := last.text]
  }

  lemma {:induction false} MergePut(a: Hash, b: Hash, token: string, text: string)
    ensures (a + b)[token := text] == a + b[token := text]
  {
  }

  lemma {:induction false} FieldsConcat(a: seq<Field>, b: seq<Field>)
    ensures Fields(a + b) == Fields(a) + Fields(b)
  {
    if b == [] {
      assert a + b == a;
    } else {
      var n := |b| - 1;
      FieldsConcat(a, b[..n]);
      assert b == b[..n] + [b[n]];
      Regroup(a, b[..n], [b[n]]);
      assert (a + b)[..|a + b| - 1] == a + b[..n];
      MergePut(Fields(a), Fields(b[..n]), b[n].token, b[n].text);
    }
  }

  /** Every session of a dict reads back as it was written, whatever the hash held before. */
  lemma {:induction false} SessionsReadBack(before: Hash, sessions: seq<Session>, i: nat)
    requires i < |sessions| && forall j :: i < j < |sessions| ==> sessions[j].token != sessions[i].token
    ensures var after := before + Fields(Texts(sessions));
            && sessions[i].token in after
            && Decode(after[sessions[i].token]) == Some([sessions[i].times.start, sessions[i].times.lastUpdated])
  {
    forall j | i <= j < |sessions| ensures Texts(sessions)[j].token == sessions[j].token {
      TextAt(sessions, j);
    }
    FieldOf(Texts(sessions), i);
    TextAt(sessions, i);
    SessionRoundTrip(sessions[i].times);
  }

  /** get_latest_session_states on a hash: each value parsed on its own, when it is consumed. */
  function Parsed(states: Hash): map<string, Option<seq<int>>> {
    map token | token in states :: Decode(states[token])
  }

  /** The sessions dict as a reader should see it. */
  function TimesOf(sessions: seq<Session>): map<string, Option<seq<int>>> {
    if sessions == [] then map[] else
      var last := sessions[|sessions| - 1];
      TimesOf(sessions[..|sessions| - 1])[last.token := Some([last.times.start, last.times.lastUpdated])]
  }

  lemma {:induction false} TextsPrefix(sessions: seq<Session>, n: nat)
    requires n <= |sessions|
    ensures Texts(sessions)[..n] == Texts(sessions[..n])
  {
    forall i | 0 <= i < n ensures Texts(sessions)[i] == Texts(sessions[..n])[i] {
      TextAt(sessions, i);
      TextAt(sessions[..n], i);
    }
  }

  lemma {:induction false} ParsedFields(sessions: seq<Session>)
    ensures Parsed(Fields(Texts(sessions))) == TimesOf(sessions)
  {
    if sessions != [] {
      var n := |sessions| - 1;
      ParsedFields(sessions[..n]);
      TextsPrefix(sessions, n);
      TextAt(sessions, n);
      SessionRoundTrip(sessions[n].times);
      ParsedPut(Fields(Texts(sessions[..n])), sessions[n].token, Encode(sessions[n].times));
    }
  }

  lemma {:induction false} ParsedPut(states: Hash, token: string, text: string)
    ensures Parsed(states[token := text]) == Parsed(states)[token := Decode(text)]
  {
  }

  lemma {:induction false} ParsedMerge(before: Hash, fields: Hash)
    ensures Parsed(before + fields) == Parsed(before) + Parsed(fields)
  {
  }

  /** Reading the states after a write gives the old ones overridden by the sessions just written, and no others. */
  lemma {:induction false} StatesReadBack(before: Hash, sessions: seq<Session>)
    ensures Parsed(before + Fields(Texts(sessions))) == Parsed(before) + TimesOf(sessions)
  {
    ParsedMerge(before, Fields(Texts(sessions)));
    ParsedFields(sessions);
  }

  lemma {:induction false} FieldOf(fields: seq<Field>, i: nat)
    requires i < |fields| && forall j :: i < j < |fields| ==> fields[j].token != fields[i].token
    ensures fields[i].token in Fields(fields) && Fields(fields)[fields[i].token] == fields[i].text
  {
    var n := |fields| - 1;
    if i < n {
      assert forall j :: i < j < n ==> fields[..n][j] == fields[j];
      FieldOf(fields[..n], i);
    }
  }

  // ----- the client

  function Least(a: nat, b: nat): nat {
    if a <= b then a else b
  }

  /** The write log goes on from before, and every write since carried at least one entry and at most a chunk. */
  ghost predicate WroteChunks(before: seq<int>, after: seq<int>, chunk: nat) {
    && before <= after
    && forall i :: |before| <= i < |after| ==> 1 <= after[i] <= chunk
  }

  /** How many chunks a number of entries makes. */
  function Ceiling(n: nat, chunk: nat): nat
    requires chunk >= 1
  {
    (n + chunk - 1) / chunk
  }

  /** So many chunks, all full. */
  function Multiple(chunks: nat, chunk: nat): nat {
    if chunks == 0 then 0 else Multiple(chunks - 1, chunk) + chunk
  }

  lemma {:induction false} MultipleIsProduct(chunks: nat, chunk: nat)
    ensures Multiple(chunks, chunk) == chunks * chunk
  {
    if chunks > 0 {
      MultipleIsProduct(chunks - 1, chunk);
      OneMore(chunks, chunk);
    }
  }

  lemma CeilingIs(n: nat, chunks: nat, chunk: nat)
    requires chunk >= 1 && Multiple(chunks, chunk) - chunk < n <= Multiple(chunks, chunk)
    ensures Ceiling(n, chunk) == chunks
  {
    MultipleIsProduct(chunks, chunk);
    QuotientIs(n + chunk - 1, chunks, chunk);
  }

  /** Full chunks and what is left over, which makes one more. */
  lemma ChunksMake(n: nat, chunks: nat, full: nat, chunk: nat)
    requires full == Multiple(chunks, chunk) && full <= n < full + chunk
    ensures Ceiling(n, chunk) == if full == n then chunks else chunks + 1
  {
    CeilingIs(n, if full == n then chunks else chunks + 1, chunk);
  }

  lemma QuotientIs(n: nat, q: nat, m: nat)
    requires m >= 1 && q * m <= n < q * m + m
    ensures n / m == q
  {
    assert n == (n / m) * m + n % m;
    OneMore(n / m, m);
    OneMore(q, m);
    Scale(m, n / m, q + 1);
    Scale(m, q, n / m + 1);
  }

  /** The same, with the number of writes. */
  ghost predicate Wrote(before: seq<int>, after: seq<int>, chunk: nat, count: nat) {
    if count == 0 then after == before
    else after != [] && 1 <= after[|after| - 1] <= chunk && Wrote(before, after[..|after| - 1], chunk, count - 1)
  }

  lemma {:induction false} WroteMeans(before: seq<int>, after: seq<int>, chunk: nat, count: nat)
    requires Wrote(before, after, chunk, count)
    ensures WroteChunks(before, after, chunk) && |after| == |before| + count
  {
    if count > 0 {
      WroteMeans(before, after[..|after| - 1], chunk, count - 1);
    }
  }

  lemma {:induction false} WroteOne(before: seq<int>, after: seq<int>, size: int, chunk: nat, count: nat)
    requires Wrote(before, after, chunk, count) && 1 <= size <= chunk
    ensures Wrote(before, after + [size], chunk, count + 1)
  {
    assert (after + [size])[..|after|] == after;
  }

  /** The client, with what Redis holds and the number of entries in each write command so far. */
  class DAIActiveRedis {
    var activity: map<string, set<string>>
    var states: map<string, Hash>
    var writes: seq<int>

    function Activity(zoo: string): set<string>
      reads this
    {
      if zoo in activity then activity[zoo] else {}
    }

    function States(zoo: string): Hash
      reads this
    {
      if zoo in states then states[zoo] else map[]
    }

    constructor ()
      ensures activity == map[] && states == map[] && writes == []
    {
      activity, states, writes := map[], map[], [];
    }

    // The three write commands of Redis.

    method Srem(zoo: string, members: seq<string>)
      modifies this`activity, this`writes
      ensures Activity(zoo) == old(Activity(zoo)) - SetOf(members)
      ensures activity - {zoo} == old(activity) - {zoo}
      ensures writes == old(writes) + [|members|]
    {
      activity := activity[zoo := Activity(zoo) - SetOf(members)];
      writes := writes + [|members|];
    }

    method Hdel(zoo: string, tokens: seq<string>)
      modifies this`states, this`writes
      ensures States(zoo) == old(States(zoo)) - SetOf(tokens)
      ensures states - {zoo} == old(states) - {zoo}
      ensures writes == old(writes) + [|tokens|]
    {
      PutKeepsOthers(states, zoo, States(zoo) - SetOf(tokens));
      states := states[zoo := States(zoo) - SetOf(tokens)];
      writes := writes + [|tokens|];
    }

    method Hmset(zoo: string, fields: Hash)
      modifies this`states, this`writes
      ensures States(zoo) == old(States(zoo)) + fields
      ensures states - {zoo} == old(states) - {zoo}
      ensures writes == old(writes) + [|fields|]
    {
      PutKeepsOthers(states, zoo, States(zoo) + fields);
      states := states[zoo := States(zoo) + fields];
      writes := writes + [|fields|];
    }

    method SremTvcActivityMembers(zoo: string, membersToRemove: seq<string>, chunkSize: nat)
      requires chunkSize >= 1
      modifies this`activity, this`writes
      ensures Activity(zoo) == old(Activity(zoo)) - SetOf(membersToRemove)
      ensures activity - {zoo} == old(activity) - {zoo}
      ensures WroteChunks(old(writes), writes, chunkSize)
      ensures |writes| == |old(writes)| + Ceiling(|membersToRemove|, chunkSize)
    {
      var chunkIndex := 0;
      ghost var chunks := 0;
      while chunkIndex < |membersToRemove|
        invariant 0 <= chunkIndex == Multiple(chunks, chunkSize) && chunkIndex - chunkSize < |membersToRemove|
        invariant Activity(zoo) == old(Activity(zoo)) - SetOf(membersToRemove[..Least(chunkIndex, |membersToRemove|)])
        invariant activity - {zoo} == old(activity) - {zoo}
        invariant Wrote(old(writes), writes, chunkSize, chunks)
      {
        var end := Least(chunkIndex + chunkSize, |membersToRemove|);
        SetOfPrefix(membersToRemove, chunkIndex, end);
        WroteOne(old(writes), writes, end - chunkIndex, chunkSize, chunks);
        Srem(zoo, membersToRemove[chunkIndex..end]);
        chunkIndex := chunkIndex + chunkSize;
        chunks := chunks + 1;
      }
      assert membersToRemove[..|membersToRemove|] == membersToRemove;
      CeilingIs(|membersToRemove|, chunks, chunkSize);
      WroteMeans(old(writes), writes, chunkSize, chunks);
    }

    method DeleteSessionStates(zoo: string, sessionTokens: seq<string>, chunkSize: nat)
      requires chunkSize >= 1
      modifies this`states, this`writes
      ensures States(zoo) == old(States(zoo)) - SetOf(sessionTokens)
      ensures states - {zoo} == old(states) - {zoo}
      ensures WroteChunks(old(writes), writes, chunkSize)
      ensures |writes| == |old(writes)| + Ceiling(|sessionTokens|, chunkSize)
    {
      var chunkIndex := 0;
      ghost var chunks := 0;
      while chunkIndex < |sessionTokens|
        invariant 0 <= chunkIndex == Multiple(chunks, chunkSize) && chunkIndex - chunkSize < |sessionTokens|
        invariant States(zoo) == old(States(zoo)) - SetOf(sessionTokens[..Least(chunkIndex, |sessionTokens|)])
        invariant states - {zoo} == old(states) - {zoo}
        invariant Wrote(old(writes), writes, chunkSize, chunks)
      {
        var end := Least(chunkIndex + chunkSize, |sessionTokens|);
        SetOfPrefix(sessionTokens, chunkIndex, end);
        WroteOne(old(writes), writes, end - chunkIndex, chunkSize, chunks);
        Hdel(zoo, sessionTokens[chunkIndex..end]);
        chunkIndex := chunkIndex + chunkSize;
        chunks := chunks + 1;
      }
      assert sessionTokens[..|sessionTokens|] == sessionTokens;
      CeilingIs(|sessionTokens|, chunks, chunkSize);
      WroteMeans(old(writes), writes, chunkSize, chunks);
    }

    method HmsetLatestSessionStates(zoo: string, sessions: seq<Session>, chunkSize: nat)
      requires chunkSize >= 1
      modifies this`states, this`writes
      ensures States(zoo) == old(States(zoo)) + Fields(Texts(sessions))
      ensures states - {zoo} == old(states) - {zoo}
      ensures WroteChunks(old(writes), writes, chunkSize)
      ensures |writes| == |old(writes)| + Ceiling(|sessions|, chunkSize)
    {
      ghost var texts := Texts(sessions);
      TextsAreTexts(sessions);
      MergedAll(States(zoo), texts, |texts|);
      assert texts[..|texts|] == texts;
      HmsetTexts(Encode, zoo, sessions, texts, chunkSize);
      WroteMeans(old(writes), writes, chunkSize, Ceiling(|sessions|, chunkSize));
    }

    /** The whole of it, for any way to print the times. */
    method HmsetTexts(encode: Times -> string, zoo: string, sessions: seq<Session>, ghost texts: seq<Field>,
                      chunkSize: nat)
      requires chunkSize >= 1 && AreTexts(encode, sessions, texts)
      modifies this`states, this`writes
      ensures States(zoo) == Merged(old(States(zoo)), texts, |texts|)
      ensures states - {zoo} == old(states) - {zoo}
      ensures Wrote(old(writes), writes, chunkSize, Ceiling(|sessions|, chunkSize))
    {
      ghost var before := States(zoo);
      var sessionsForHmset, chunks, flushed := FlushFullChunks(encode, zoo, sessions, texts, chunkSize);
      ChunksMake(|sessions|, chunks, flushed, chunkSize);
      if |sessionsForHmset| > 0 {
        Flush(zoo, sessionsForHmset, before, texts, flushed, |sessions|, chunkSize, old(writes), chunks);
      } else {
        FromSize(texts, flushed, |sessions|);
      }
    }

    /** The loop over the sessions, which writes each chunk when it is full; the rest is returned. */
    method FlushFullChunks(encode: Times -> string, zoo: string, sessions: seq<Session>, ghost texts: seq<Field>,
                           chunkSize: nat)
      returns (sessionsForHmset: Hash, ghost chunks: nat, ghost flushed: nat)
      requires chunkSize >= 1 && AreTexts(encode, sessions, texts)
      modifies this`states, this`writes
      ensures flushed == Multiple(chunks, chunkSize) && flushed <= |sessions| < flushed + chunkSize
      ensures Gathered(sessionsForHmset, texts, flushed, |sessions|)
      ensures States(zoo) == Merged(old(States(zoo)), texts, flushed)
      ensures states - {zoo} == old(states) - {zoo}
      ensures Wrote(old(writes), writes, chunkSize, chunks)
    {
      ghost var before := States(zoo);
      sessionsForHmset, chunks, flushed := map[], 0, 0;
      var iteration := 0;
      while iteration < |sessions|
        invariant 0 <= flushed <= iteration <= |sessions|
        invariant flushed == Multiple(chunks, chunkSize) && iteration < flushed + chunkSize
        invariant Gathered(sessionsForHmset, texts, flushed, iteration)
        invariant States(zoo) == Merged(before, texts, flushed)
        invariant states - {zoo} == old(states) - {zoo}
        invariant Wrote(old(writes), writes, chunkSize, chunks)
      {
        var ends := EndsChunk(iteration, chunkSize, chunks, flushed);
        sessionsForHmset := AddSession(encode, sessionsForHmset, sessions, texts, flushed, iteration);
        iteration := iteration + 1;
        if ends {
          Flush(zoo, sessionsForHmset, before, texts, flushed, iteration, chunkSize, old(writes), chunks);
          sessionsForHmset := map[];
          chunks, flushed := chunks + 1, iteration;
        }
      }
    }

    /** One hmset, of the sessions from one position to another. */
    method Flush(zoo: string, fields: Hash, ghost before: Hash, ghost texts: seq<Field>, ghost i: nat, ghost j: nat,
                 ghost chunkSize: nat, ghost writesBefore: seq<int>, ghost count: nat)
      requires Gathered(fields, texts, i, j) && i < j <= i + chunkSize
      requires States(zoo) == Merged(before, texts, i) && Wrote(writesBefore, writes, chunkSize, count)
      modifies this`states, this`writes
      ensures States(zoo) == Merged(before, texts, j)
      ensures states - {zoo} == old(states) - {zoo}
      ensures Wrote(writesBefore, writes, chunkSize, count + 1)
    {
      GatheredChunk(fields, before, texts, i, j);
      WroteOne(writesBefore, writes, |fields|, chunkSize, count);
      Hmset(zoo, fields);
    }

    /** The loop body's entry for one session. */
    method AddSession(encode: Times -> string, fields: Hash, sessions: seq<Session>, ghost texts: seq<Field>,
                      ghost i: nat, j: nat) returns (after: Hash)
      requires AreTexts(encode, sessions, texts) && j < |sessions| && Gathered(fields, texts, i, j)
      ensures Gathered(after, texts, i, j + 1)
    {
      after := fields[sessions[j].token := encode(sessions[j].times)];
    }
  }

  /** The fields from one position to another. */
  function FieldsFrom(texts: seq<Field>, i: nat, j: nat): Hash
    requires i <= j <= |texts|
    decreases j
  {
    if i == j then map[] else FieldsFrom(texts, i, j - 1)[texts[j - 1].token := texts[j - 1].text]
  }

  /** A hash with the first fields written to it one by one. */
  function Merged(before: Hash, texts: seq<Field>, n: nat): Hash
    requires n <= |texts|
  {
    if n == 0 then before else Merged(before, texts, n - 1)[texts[n - 1].token := texts[n - 1].text]
  }

  lemma {:induction false} MergedChunk(before: Hash, texts: seq<Field>, i: nat, j: nat)
    requires i <= j <= |texts|
    ensures Merged(before, texts, i) + FieldsFrom(texts, i, j) == Merged(before, texts, j)
    decreases j
  {
    if i < j {
      MergedChunk(before, texts, i, j - 1);
      MergePut(Merged(before, texts, i), FieldsFrom(texts, i, j - 1), texts[j - 1].token, texts[j - 1].text);
    }
  }

  lemma {:induction false} FromSize(texts: seq<Field>, i: nat, j: nat)
    requires i <= j <= |texts|
    ensures |FieldsFrom(texts, i, j)| <= j - i
    ensures i < j ==> |FieldsFrom(texts, i, j)| >= 1
    decreases j
  {
    if i < j {
      FromSize(texts, i, j - 1);
      PutSize(FieldsFrom(texts, i, j - 1), texts[j - 1].token, texts[j - 1].text);
    }
  }

  lemma {:induction false} PutSize(m: Hash, token: string, text: string)
    ensures 1 <= |m[token := text]| <= |m| + 1
  {
    assert m[token := text].Keys == m.Keys + {token};
    assert |m[token := text]| == |m[token := text].Keys| && |m| == |m.Keys|;
  }

  lemma {:induction false} MergedAll(before: Hash, texts: seq<Field>, n: nat)
    requires n <= |texts|
    ensures Merged(before, texts, n) == before + Fields(texts[..n])
  {
    if n > 0 {
      MergedAll(before, texts, n - 1);
      assert texts[..n][..n - 1] == texts[..n - 1];
      MergePut(before, Fields(texts[..n - 1]), texts[n - 1].token, texts[n - 1].text);
    }
  }

  /** The dict collected for the next hmset holds the fields from one position to another. */
  ghost predicate Gathered(fields: Hash, texts: seq<Field>, i: nat, j: nat) {
    i <= j <= |texts| && fields == FieldsFrom(texts, i, j)
  }

  /** A gathered chunk is not empty and no larger than its stretch, and it continues the fields before it. */
  lemma {:induction false} GatheredChunk(fields: Hash, before: Hash, texts: seq<Field>, i: nat, j: nat)
    requires Gathered(fields, texts, i, j) && i < j
    ensures 1 <= |fields| <= j - i
    ensures Merged(before, texts, i) + fields == Merged(before, texts, j)
  {
    FromSize(texts, i, j);
    MergedChunk(before, texts, i, j);
  }

  ghost predicate AreTexts(encode: Times -> string, sessions: seq<Session>, texts: seq<Field>) {
    && |texts| == |sessions|
    && forall i :: 0 <= i < |sessions| ==> texts[i] == Field(sessions[i].token, encode(sessions[i].times))
  }

  lemma TextsAreTexts(sessions: seq<Session>)
    ensures AreTexts(Encode, sessions, Texts(sessions))
  {
    forall i | 0 <= i < |sessions| ensures Texts(sessions)[i] == Field(sessions[i].token, Encode(sessions[i].times)) {
      TextAt(sessions, i);
    }
  }

  lemma {:induction false} PutKeepsOthers(m: map<string, Hash>, k: string, v: Hash)
    ensures m[k := v] - {k} == m - {k}
  {
  }

  lemma SetOfPrefix(s: seq<string>, i: nat, j: nat)
    requires i <= j <= |s|
    ensures SetOf(s[..j]) == SetOf(s[..i]) + SetOf(s[i..j])
  {
    assert s[..j] == s[..i] + s[i..j];
  }

  /** A count of full chunks and a rest below the chunk size are quotient and remainder. */
  lemma ChunkRest(n: nat, chunks: nat, rest: nat, chunk: nat)
    requires rest < chunk && n == chunks * chunk + rest
    ensures n % chunk == rest
  {
    QuotientIs(n, chunks, chunk);
    assert n == (n / chunk) * chunk + n % chunk;
  }

  /** The test for the last entry of a chunk. */
  method EndsChunk(iteration: nat, chunkSize: nat, ghost chunks: nat, ghost flushed: nat) returns (ends: bool)
    requires flushed == Multiple(chunks, chunkSize) && flushed <= iteration < flushed + chunkSize
    ensures ends <==> iteration + 1 == flushed + chunkSize
  {
    ends := iteration % chunkSize == chunkSize - 1;
    MultipleIsProduct(chunks, chunkSize);
    ChunkRest(iteration, chunks, iteration - flushed, chunkSize);
  }

  // ----- batcher and scan

  /** zip_longest over batchSize copies of one iterator: rows of that length, the last padded with None. */
  function Batcher<T>(items: seq<T>, batchSize: nat): seq<seq<Option<T>>> {
    if items == [] || batchSize == 0 then []
    else if |items| <= batchSize then
      [Row(items) + seq(batchSize - |items|, _ => None)]
    else [Row(items[..batchSize])] + Batcher(items[batchSize..], batchSize)
  }

  function Row<T>(items: seq<T>): (r: seq<Option<T>>)
    ensures |r| == |items| && forall i :: 0 <= i < |r| ==> r[i] == Some(items[i])
  {
    seq(|items|, i requires 0 <= i < |items| => Some(items[i]))
  }

  /** The items of the rows that are not None, in order. */
  function Present<T>(row: seq<Option<T>>): seq<T> {
    if row == [] then []
    else (if row[0].Some? then [row[0].value] else []) + Present(row[1..])
  }

  function PresentAll<T>(rows: seq<seq<Option<T>>>): seq<T> {
    if rows == [] then [] else Present(rows[0]) + PresentAll(rows[1..])
  }

  lemma {:induction false} PresentConcat<T>(a: seq<Option<T>>, b: seq<Option<T>>)
    ensures Present(a + b) == Present(a) + Present(b)
  {
    if a == [] {
      assert a + b == b;
    } else {
      PresentConcat(a[1..], b);
      assert (a + b)[0] == a[0] && (a + b)[1..] == a[1..] + b;
      Regroup(if a[0].Some? then [a[0].value] else [], Present(a[1..]), Present(b));
    }
  }

  lemma {:induction false} PresentRow<T>(items: seq<T>)
    ensures Present(Row(items)) == items
  {
    if items != [] {
      assert Row(items)[1..] == Row(items[1..]);
      PresentRow(items[1..]);
    }
  }

  lemma {:induction false} PresentPadding<T>(row: seq<Option<T>>)
    requires forall x :: x in row ==> x == None
    ensures Present(row) == []
  {
    if row != [] {
      assert row[0] in row && forall x :: x in row[1..] ==> x in row;
      PresentPadding(row[1..]);
    }
  }

  /** Every row has the batch size, and reading the rows back gives the items exactly when a row can hold any. */
  lemma {:induction false} BatchesReadBack<T>(items: seq<T>, batchSize: nat)
    ensures forall row :: row in Batcher(items, batchSize) ==> |row| == batchSize
    ensures PresentAll(Batcher(items, batchSize)) == items <==> batchSize >= 1 || items == []
  {
    if batchSize >= 1 && items != [] {
      if |items| <= batchSize {
        var padding := seq(batchSize - |items|, _ => Option<T>.None);
        PresentConcat(Row(items), padding);
        PresentRow(items);
        PresentPadding(padding);
        assert [Row(items) + padding][1..] == [];
      } else {
        BatchesReadBack(items[batchSize..], batchSize);
        PresentRow(items[..batchSize]);
        assert items == items[..batchSize] + items[batchSize..];
      }
    }
  }

  /** scan: the keys of all batches with the padding left out. */
  method Scan(keys: seq<string>, batchSize: nat) returns (found: seq<string>)
    ensures found == if batchSize >= 1 then keys else []
  {
    var batches := Batcher(keys, batchSize);
    BatchesReadBack(keys, batchSize);
    found := [];
    var i := 0;
    while i < |batches|
      invariant 0 <= i <= |batches|
      invariant found + PresentAll(batches[i..]) == PresentAll(batches)
    {
      assert batches[i..][1..] == batches[i + 1..];
      Regroup(found, Present(batches[i]), PresentAll(batches[i + 1..]));
      found := found + Present(batches[i]);
      i := i + 1;
    }
  }
}
