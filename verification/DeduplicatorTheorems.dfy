/** What the duplicate check promises over whole runs against one Redis instance. */
module DeduplicatorTheorems {
  import opened Decimal
  import opened MessageKeys
  import opened LocalCache
  import Lru = LocalCacheTheorems
  import opened Deduplicator

  datatype Op =
    | Single(id: MessageId, reply: Reply)
    | Batch(ids: seq<MessageId>, replies: seq<Reply>, end: int)
    | EnableCache(on: bool)
    | Maintain(now: int)
    | Stop
  {
    predicate WellFormed() {
      Batch? ==> |ids| == |replies|
    }
  }

  /** One answer given to a caller. */
  datatype Given = Given(id: MessageId, time: int, answer: Answer)

  function Step(d: Dedup, op: Op): Dedup
    requires op.WellFormed()
  {
    match op
    case Single(id, r) => IsDuplicateAt(d, id, r).0
    case Batch(ids, rs, end) => AreDuplicatesAt(d, ids, rs, end).0
    case EnableCache(on) => d.(cacheOn := on)
    case Maintain(now) => Maintained(d, now)
    case Stop => ShutDown(d)
  }

  function BatchGiven(ids: seq<MessageId>, rs: seq<Reply>, answers: seq<Answer>): (g: seq<Given>)
    requires |ids| == |rs| == |answers|
    ensures |g| == |ids|
    ensures forall i :: 0 <= i < |g| ==> g[i] == Given(ids[i], rs[i].now, answers[i])
    decreases |ids|
  {
    if ids == [] then []
    else
      var n := |ids| - 1;
      BatchGiven(ids[..n], rs[..n], answers[..n]) + [Given(ids[n], rs[n].now, answers[n])]
  }

  function Answers(d: Dedup, op: Op): seq<Given>
    requires op.WellFormed()
  {
    match op
    case Single(id, r) => [Given(id, r.now, IsDuplicateAt(d, id, r).1)]
    case Batch(ids, rs, end) => BatchGiven(ids, rs, AreDuplicatesAt(d, ids, rs, end).1)
    case _ => []
  }

  datatype World = World(d: Dedup, log: seq<Given>)

  function Run(w: World, ops: seq<Op>): World
    requires forall op :: op in ops ==> op.WellFormed()
    decreases |ops|
  {
    if ops == [] then w
    else Run(World(Step(w.d, ops[0]), w.log + Answers(w.d, ops[0])), ops[1..])
  }

  // ---------------------------------------------------------------- no double accept

  /** Redis still remembers every accepted message for its full window. */
  ghost predicate Remembered(d: Dedup, log: seq<Given>) {
    forall g :: g in log && g.answer.Unique? ==>
      var key := RedisKey(d.prefix, g.id);
      key in d.keys && d.keys[key] >= g.time + d.window
  }

  ghost predicate AcceptedApart(log: seq<Given>, window: int) {
    forall i, j :: 0 <= i < j < |log| && log[i].id == log[j].id && log[i].answer.Unique? && log[j].answer.Unique?
      ==> log[j].time - log[i].time >= window
  }

  /** Everything but the Redis keys is irrelevant to what was accepted. */
  ghost predicate SameRedis(d: Dedup, e: Dedup) {
    d.prefix == e.prefix && d.window == e.window && d.keys == e.keys
  }

  ghost predicate Safe(d: Dedup, log: seq<Given>) {
    d.window > 0 && Remembered(d, log) && AcceptedApart(log, d.window)
  }

  lemma {:induction false} ApartSnoc(log: seq<Given>, g: Given, window: int)
    requires AcceptedApart(log, window)
    requires g.answer.Unique? ==>
      forall h :: h in log && h.id == g.id && h.answer.Unique? ==> g.time - h.time >= window
    ensures AcceptedApart(log + [g], window)
  {
  }

  lemma {:induction false} RedisCheckIsSafe(d: Dedup, log: seq<Given>, id: MessageId, r: Reply)
    requires Safe(d, log)
    ensures var (e, answer) := CheckedWithRedis(d, id, r);
      Safe(e, log + [Given(id, r.now, answer)])
  {
    var (e, answer) := CheckedWithRedis(d, id, r);
    ApartSnoc(log, Given(id, r.now, answer), d.window);
  }

  lemma {:induction false} DuplicateIsSafe(d: Dedup, log: seq<Given>, id: MessageId, time: int, answer: Answer)
    requires Safe(d, log) && !answer.Unique?
    ensures Safe(d, log + [Given(id, time, answer)])
  {
    ApartSnoc(log, Given(id, time, answer), d.window);
  }

  lemma {:induction false} BatchGivenSnoc(
      log: seq<Given>, ids: seq<MessageId>, rs: seq<Reply>, answers: seq<Answer>, answer: Answer)
    requires |ids| == |rs| == |answers| + 1
    ensures var n := |answers|;
      log + BatchGiven(ids, rs, answers + [answer])
      == log + BatchGiven(ids[..n], rs[..n], answers) + [Given(ids[n], rs[n].now, answer)]
  {
    assert (answers + [answer])[..|answers|] == answers;
  }

  lemma {:induction false} BatchIsSafe(d: Dedup, log: seq<Given>, ids: seq<MessageId>, rs: seq<Reply>)
    requires Safe(d, log) && |ids| == |rs|
    ensures var (e, answers) := BatchChecked(d, ids, rs);
      Safe(e, log + BatchGiven(ids, rs, answers))
    decreases |ids|
  {
    if ids == [] {
      assert log + [] == log;
    } else {
      var n := |ids| - 1;
      BatchIsSafe(d, log, ids[..n], rs[..n]);
      var (e, answers) := BatchChecked(d, ids[..n], rs[..n]);
      var given := log + BatchGiven(ids[..n], rs[..n], answers);
      RedisCheckIsSafe(e, given, ids[n], rs[n]);
      BatchGivenSnoc(log, ids, rs, answers, CheckedWithRedis(e, ids[n], rs[n]).1);
    }
  }

  lemma {:induction false} NothingGivenIsSafe(d: Dedup)
    requires d.window > 0
    ensures Safe(d, [])
  {
  }

  lemma {:induction false} BookkeepingKeepsRedis(d: Dedup, ids: seq<MessageId>, answers: seq<Answer>, now: int)
    requires |ids| == |answers|
    ensures SameRedis(d, BatchCached(d, ids, answers, now)) && SameRedis(d, BatchCounted(d, answers))
    decreases |ids|
  {
    if ids != [] {
      var n := |ids| - 1;
      BookkeepingKeepsRedis(d, ids[..n], answers[..n], now);
    }
  }

  lemma {:induction false} RejectedBatchIsSafe(d: Dedup, log: seq<Given>, given: seq<Given>)
    requires Safe(d, log) && forall g :: g in given ==> g.answer.Error?
    ensures Safe(d, log + given)
  {
    forall i | 0 <= i < |given| ensures given[i].answer.Error? { assert given[i] in given; }
  }

  lemma {:induction false} StepIsSafe(w: World, op: Op)
    requires Safe(w.d, w.log) && op.WellFormed()
    ensures Safe(Step(w.d, op), w.log + Answers(w.d, op))
  {
    assert w.log + [] == w.log;
    match op
    case Single(id, r) =>
      hide Remembered, AcceptedApart, IsValidMessageId, ContainsAt, InsertAt;
      RedisCheckIsSafe(w.d, w.log, id, r);
      var answer := IsDuplicateAt(w.d, id, r).1;
      if !answer.Unique? { DuplicateIsSafe(w.d, w.log, id, r.now, answer); }
      SingleOnRedis(w.d, id, r);
      SafeDependsOnRedis(CheckedWithRedis(w.d, id, r).0, Step(w.d, op), w.log + Answers(w.d, op));
      SafeDependsOnRedis(w.d, Step(w.d, op), w.log + Answers(w.d, op));
    case Batch(ids, rs, end) =>
      if w.d.Running() {
        BatchIsSafe(w.d, w.log, ids, rs);
        var (e, answers) := BatchChecked(w.d, ids, rs);
        BookkeepingKeepsRedis(e, ids, answers, end);
        BookkeepingKeepsRedis(BatchCached(e, ids, answers, end), ids, answers, end);
        SafeDependsOnRedis(e, Step(w.d, op), w.log + Answers(w.d, op));
      } else {
        RejectedBatchIsSafe(w.d, w.log, Answers(w.d, op));
      }
    case _ =>
  }

  lemma {:induction false} SafeDependsOnRedis(d: Dedup, e: Dedup, log: seq<Given>)
    ensures Safe(d, log) && SameRedis(d, e) ==> Safe(e, log)
  {
  }

  /** A single check either leaves Redis alone and does not accept, or is one Redis check. */
  lemma {:induction false} SingleOnRedis(d: Dedup, id: MessageId, r: Reply)
    ensures var (e, answer) := IsDuplicateAt(d, id, r);
      var (c, checked) := CheckedWithRedis(d, id, r);
      (SameRedis(d, e) && !answer.Unique?) || (SameRedis(c, e) && answer == checked)
  {
  }

  lemma {:induction false} RunIsSafe(w: World, ops: seq<Op>)
    requires Safe(w.d, w.log) && forall op :: op in ops ==> op.WellFormed()
    ensures Safe(Run(w, ops).d, Run(w, ops).log) && Run(w, ops).d.window == w.d.window
    decreases |ops|
  {
    hide Safe, Step, Answers;
    if ops != [] {
      StepIsSafe(w, ops[0]);
      StepKeepsSettings(w.d, ops[0]);
      RunIsSafe(World(Step(w.d, ops[0]), w.log + Answers(w.d, ops[0])), ops[1..]);
    }
  }

  /** No double accept: from any state of the service and of Redis, whatever the mix of
      checks, cache toggles, failed and lost replies, two UNIQUE answers for one message are
      at least a window apart. */
  lemma {:induction false} NoDoubleAccept(d: Dedup, ops: seq<Op>, i: nat, j: nat)
    requires d.window > 0 && forall op :: op in ops ==> op.WellFormed()
    requires var log := Run(World(d, []), ops).log;
      && i < j < |log| && log[i].id == log[j].id
      && log[i].answer.Unique? && log[j].answer.Unique?
    ensures var log := Run(World(d, []), ops).log;
      log[j].time - log[i].time >= d.window
  {
    RunIsSafe(World(d, []), ops);
  }

  // ---------------------------------------------------------------- batches

  /** The single checks of a list of messages, in order. */
  function Singles(d: Dedup, ids: seq<MessageId>, rs: seq<Reply>): (r: (Dedup, seq<Answer>))
    requires |ids| == |rs|
    ensures |r.1| == |ids|
    decreases |ids|
  {
    if ids == [] then (d, [])
    else
      var n := |ids| - 1;
      var (before, answers) := Singles(d, ids[..n], rs[..n]);
      var (after, answer) := IsDuplicateAt(before, ids[n], rs[n]);
      (after, answers + [answer])
  }

  ghost predicate AllValid(ids: seq<MessageId>) {
    forall i :: 0 <= i < |ids| ==> IsValidMessageId(ids[i])
  }

  /** With the cache off a valid single check is a Redis check plus its counters. */
  lemma {:induction false} SingleWithoutCache(d: Dedup, id: MessageId, r: Reply)
    requires d.Running() && !d.cacheOn && IsValidMessageId(id)
    ensures var (e, answer) := CheckedWithRedis(d, id, r);
      IsDuplicateAt(d, id, r) == (Counted(e.(totalChecks := e.totalChecks + 1), answer), answer)
  {
  }

  /** Counting a batch changes three counters. */
  lemma {:induction false} BatchCountedFrame(d: Dedup, answers: seq<Answer>)
    ensures var e := BatchCounted(d, answers);
      e == d.(totalChecks := e.totalChecks, duplicatesFound := e.duplicatesFound, uniqueMessages := e.uniqueMessages)
    decreases |answers|
  {
    if answers != [] { BatchCountedFrame(d, answers[..|answers| - 1]); }
  }

  lemma {:induction false} OneCountCommutes(d: Dedup, answer: Answer, keys: Keys, failures: nat)
    ensures var c, e := d.(totalChecks := d.totalChecks + 1), d.(keys := keys, redisFailures := failures);
      Counted(e.(totalChecks := e.totalChecks + 1), answer)
      == Counted(c, answer).(keys := keys, redisFailures := failures)
  {
  }

  lemma {:induction false} CountersShift(d: Dedup, answers: seq<Answer>, keys: Keys, failures: nat)
    ensures BatchCounted(d.(keys := keys, redisFailures := failures), answers)
      == BatchCounted(d, answers).(keys := keys, redisFailures := failures)
    decreases |answers|
  {
    hide Counted;
    if answers != [] {
      var n := |answers| - 1;
      CountersShift(d, answers[..n], keys, failures);
      OneCountCommutes(BatchCounted(d, answers[..n]), answers[n], keys, failures);
    }
  }

  lemma {:induction false} CountersCommute(d: Dedup, answers: seq<Answer>, keys: Keys, failures: nat)
    ensures BatchCounted(d.(keys := keys, redisFailures := failures), answers)
      == BatchCounted(d, answers).(keys := keys, redisFailures := failures)
    ensures var e := BatchCounted(d, answers);
      && SameRedis(d, e) && e.cacheOn == d.cacheOn && e.Running() == d.Running()
      && e.redisFailures == d.redisFailures && e.cache == d.cache
  {
    CountersShift(d, answers, keys, failures);
    BatchCountedFrame(d, answers);
    hide BatchCounted;
  }

  lemma {:induction false} BatchCheckedFrame(d: Dedup, ids: seq<MessageId>, rs: seq<Reply>)
    requires |ids| == |rs|
    ensures var e := BatchChecked(d, ids, rs).0;
      e == d.(keys := e.keys, redisFailures := e.redisFailures)
    decreases |ids|
  {
    if ids != [] { BatchCheckedFrame(d, ids[..|ids| - 1], rs[..|ids| - 1]); }
  }

  lemma {:induction false} UncachedBatch(d: Dedup, ids: seq<MessageId>, answers: seq<Answer>, now: int)
    requires |ids| == |answers| && !d.cacheOn
    ensures BatchCached(d, ids, answers, now) == d
    decreases |ids|
  {
    if ids != [] { UncachedBatch(d, ids[..|ids| - 1], answers[..|ids| - 1], now); }
  }

  lemma {:induction false} RedisCheckFrame(d: Dedup, c: Dedup, id: MessageId, r: Reply)
    requires SameRedis(d, c) && c.redisFailures == d.redisFailures
    ensures var (e, answer) := CheckedWithRedis(d, id, r);
      && e == d.(keys := e.keys, redisFailures := e.redisFailures)
      && CheckedWithRedis(c, id, r) == (c.(keys := e.keys, redisFailures := e.redisFailures), answer)
  {
  }

  lemma {:induction false} BatchCountsLikeSingles(d: Dedup, ids: seq<MessageId>, rs: seq<Reply>)
    requires |ids| == |rs| && d.Running() && !d.cacheOn && AllValid(ids)
    ensures var (e, answers) := BatchChecked(d, ids, rs);
      Singles(d, ids, rs) == (BatchCounted(e, answers), answers)
    decreases |ids|
  {
    hide CheckedWithRedis, Counted, IsValidMessageId;
    if ids != [] {
      var n := |ids| - 1;
      BatchCountsLikeSingles(d, ids[..n], rs[..n]);
      var (e, answers) := BatchChecked(d, ids[..n], rs[..n]);
      var counted := BatchCounted(e, answers);
      BatchCheckedFrame(d, ids[..n], rs[..n]);
      CountersCommute(e, answers, e.keys, e.redisFailures);
      RedisCheckFrame(e, counted, ids[n], rs[n]);
      var (e', answer) := CheckedWithRedis(e, ids[n], rs[n]);
      CountersCommute(e, answers, e'.keys, e'.redisFailures);
      assert ids[n] == ids[..n + 1][n] && IsValidMessageId(ids[n]);
      SingleWithoutCache(counted, ids[n], rs[n]);
      assert (answers + [answer])[..n] == answers;
    }
  }

  /** Batch equals singles: with the cache off and valid ids, a batch gives the answers, the
      Redis state and the counters of checking each message in order. */
  lemma {:induction false} BatchEqualsSingles(d: Dedup, ids: seq<MessageId>, rs: seq<Reply>, end: int)
    requires |ids| == |rs| && d.Running() && !d.cacheOn && AllValid(ids)
    ensures AreDuplicatesAt(d, ids, rs, end) == Singles(d, ids, rs)
  {
    BatchCountsLikeSingles(d, ids, rs);
    BatchCheckedFrame(d, ids, rs);
    var (e, answers) := BatchChecked(d, ids, rs);
    UncachedBatch(e, ids, answers, end);
  }

  /** Every command got an answer, genuine or not. */
  ghost predicate AllAnswered(rs: seq<Reply>) {
    forall i :: 0 <= i < |rs| ==> !rs[i].outcome.NoConnection? && !rs[i].outcome.Threw?
  }

  lemma {:induction false} SinglesRefuseInvalid(d: Dedup, ids: seq<MessageId>, rs: seq<Reply>, i: nat)
    requires |ids| == |rs| && i < |ids| && !IsValidMessageId(ids[i])
    ensures Singles(d, ids, rs).1[i].Error?
    decreases |ids|
  {
    var n := |ids| - 1;
    if i < n { SinglesRefuseInvalid(d, ids[..n], rs[..n], i); }
  }

  /** Batches skip the id validation of single checks: when every command is answered, the two
      give the same answers exactly when every id is valid. */
  lemma {:induction false} BatchAgreesIffIdsValid(d: Dedup, ids: seq<MessageId>, rs: seq<Reply>, end: int)
    requires |ids| == |rs| && d.Running() && !d.cacheOn
    requires AllAnswered(rs)
    ensures AreDuplicatesAt(d, ids, rs, end).1 == Singles(d, ids, rs).1 <==> AllValid(ids)
  {
    if AllValid(ids) {
      BatchEqualsSingles(d, ids, rs, end);
    } else {
      var i :| 0 <= i < |ids| && !IsValidMessageId(ids[i]);
      SinglesRefuseInvalid(d, ids, rs, i);
      BatchErrsIff(d, ids, rs, i);
      assert !AreDuplicatesAt(d, ids, rs, end).1[i].Error?;
    }
  }

  /** The local cache would answer a check of `id` at `now`. */
  ghost predicate CacheAnswers(d: Dedup, id: MessageId, now: int) {
    d.cacheOn && ContainsAt(d.cache, id, now).1
  }

  /** Checked one by one, no message is found in the cache that Redis has already forgotten. */
  ghost predicate NoStaleHits(d: Dedup, ids: seq<MessageId>, rs: seq<Reply>)
    requires |ids| == |rs|
  {
    forall i :: 0 <= i < |ids| ==> NoStaleHit(Singles(d, ids[..i], rs[..i]).0, ids[i], rs[i].now)
  }

  ghost predicate NoStaleHit(d: Dedup, id: MessageId, now: int) {
    CacheAnswers(d, id, now) ==> Alive(d.keys, RedisKey(d.prefix, id), now)
  }

  ghost predicate AllGenuine(rs: seq<Reply>) {
    forall i :: 0 <= i < |rs| ==> rs[i].outcome.Genuine?
  }

  /** One genuine check against the same keys, past the cache and with it. */
  lemma {:induction false} OneAgreesIff(b: Dedup, d: Dedup, id: MessageId, r: Reply)
    requires SameRedis(b, d) && d.Running() && r.outcome.Genuine?
    ensures var (c, batched) := CheckedWithRedis(b, id, r);
      var (e, single) := IsDuplicateAt(d, id, r);
      && (batched == single <==> IsValidMessageId(id) && NoStaleHit(d, id, r.now))
      && (batched == single ==> SameRedis(c, e))
      && e.Running()
  {
    hide IsValidMessageId, ContainsAt, InsertAt, RedisKey;
  }

  lemma {:induction false} NoStaleHitsSnoc(d: Dedup, ids: seq<MessageId>, rs: seq<Reply>)
    requires |ids| == |rs| > 0
    ensures var n := |ids| - 1;
      NoStaleHits(d, ids, rs) <==>
        NoStaleHits(d, ids[..n], rs[..n]) && NoStaleHit(Singles(d, ids[..n], rs[..n]).0, ids[n], rs[n].now)
  {
    hide NoStaleHit, Singles;
    var n := |ids| - 1;
    forall i | 0 <= i < n ensures ids[..n][..i] == ids[..i] && rs[..n][..i] == rs[..i] { }
    forall i | 0 <= i < n ensures ids[..n][i] == ids[i] && rs[..n][i] == rs[i] { }
  }

  lemma {:induction false} AllValidSnoc(ids: seq<MessageId>)
    requires ids != []
    ensures AllValid(ids) <==> AllValid(ids[..|ids| - 1]) && IsValidMessageId(ids[|ids| - 1])
  {
    hide IsValidMessageId;
    var n := |ids| - 1;
    forall i | 0 <= i < n ensures ids[..n][i] == ids[i] { }
  }

  lemma {:induction false} SnocAgrees(s: seq<Answer>, a: Answer, t: seq<Answer>, b: Answer)
    requires |s| == |t|
    ensures s + [a] == t + [b] <==> s == t && a == b
  {
    if s + [a] == t + [b] {
      assert s == (s + [a])[..|s|] && t == (t + [b])[..|t|];
      assert a == (s + [a])[|s|] && b == (t + [b])[|t|];
    }
  }

  lemma {:induction false} PrefixAgreesIff(d: Dedup, ids: seq<MessageId>, rs: seq<Reply>)
    requires |ids| == |rs| && d.Running() && AllGenuine(rs)
    ensures var (b, batched), (e, singles) := BatchChecked(d, ids, rs), Singles(d, ids, rs);
      && (batched == singles <==> AllValid(ids) && NoStaleHits(d, ids, rs))
      && (batched == singles ==> SameRedis(b, e))
      && e.Running()
    decreases |ids|
  {
    hide CheckedWithRedis, IsDuplicateAt, NoStaleHit, NoStaleHits, AllValid, IsValidMessageId;
    if ids == [] {
      EmptyAgrees(d);
    } else {
      var n := |ids| - 1;
      PrefixAgreesIff(d, ids[..n], rs[..n]);
      NoStaleHitsSnoc(d, ids, rs);
      AllValidSnoc(ids);
      var (b, batched) := BatchChecked(d, ids[..n], rs[..n]);
      var (e, singles) := Singles(d, ids[..n], rs[..n]);
      SnocAgrees(batched, CheckedWithRedis(b, ids[n], rs[n]).1, singles, IsDuplicateAt(e, ids[n], rs[n]).1);
      StaysRunning(e, ids[n], rs[n]);
      if batched == singles { OneAgreesIff(b, e, ids[n], rs[n]); }
    }
  }

  lemma {:induction false} EmptyAgrees(d: Dedup)
    ensures AllValid([]) && NoStaleHits(d, [], [])
  {
  }

  lemma {:induction false} StaysRunning(d: Dedup, id: MessageId, r: Reply)
    ensures IsDuplicateAt(d, id, r).0.Running() == d.Running()
  {
    hide ContainsAt, InsertAt, RedisKey, IsValidMessageId;
  }

  /** Batches skip the cache as well: when Redis answers genuinely, batch and single checks give
      the same answers exactly when every id is valid and no single check would be answered by a
      cache entry that outlived its Redis key. */
  lemma {:induction false} BatchAgreesIff(d: Dedup, ids: seq<MessageId>, rs: seq<Reply>, end: int)
    requires |ids| == |rs| && d.Running() && AllGenuine(rs)
    ensures AreDuplicatesAt(d, ids, rs, end).1 == Singles(d, ids, rs).1
      <==> AllValid(ids) && NoStaleHits(d, ids, rs)
  {
    hide BatchChecked, Singles, NoStaleHits, AllValid;
    PrefixAgreesIff(d, ids, rs);
  }

  /** Inside one batch, a repeat of an accepted message within the window comes out DUPLICATE. */
  lemma {:induction false} RepeatsInBatchAreDuplicates(
      d: Dedup, ids: seq<MessageId>, rs: seq<Reply>, end: int, i: nat, j: nat)
    requires |ids| == |rs| && d.Running() && d.window > 0
    requires i < j < |ids| && ids[i] == ids[j]
    requires rs[j].outcome.Genuine? && rs[j].now - rs[i].now < d.window
    requires AreDuplicatesAt(d, ids, rs, end).1[i].Unique?
    ensures AreDuplicatesAt(d, ids, rs, end).1[j].Duplicate?
  {
    hide BatchChecked, BatchCached, BatchCounted;
    RepeatsChecked(d, ids, rs, i, j);
  }

  lemma {:induction false} RepeatsChecked(d: Dedup, ids: seq<MessageId>, rs: seq<Reply>, i: nat, j: nat)
    requires |ids| == |rs| && d.window > 0
    requires i < j < |ids| && ids[i] == ids[j]
    requires rs[j].outcome.Genuine? && rs[j].now - rs[i].now < d.window
    requires BatchChecked(d, ids, rs).1[i].Unique?
    ensures BatchChecked(d, ids, rs).1[j].Duplicate?
  {
    hide BatchChecked, BatchGiven, Remembered;
    NothingGivenIsSafe(d);
    BatchIsSafe(d, [], ids, rs);
    BatchErrsIff(d, ids, rs, j);
    BatchCheckedFrame(d, ids, rs);
    var answers := BatchChecked(d, ids, rs).1;
    var log := BatchGiven(ids, rs, answers);
    assert [] + log == log;
    assert log[i].id == log[j].id;
  }

  /** A batch answers ERROR exactly where no connection could be had or an exception surfaced. */
  lemma {:induction false} BatchErrsIff(d: Dedup, ids: seq<MessageId>, rs: seq<Reply>, j: nat)
    requires |ids| == |rs| && j < |ids|
    ensures BatchChecked(d, ids, rs).1[j].Error? <==> rs[j].outcome.NoConnection? || rs[j].outcome.Threw?
    decreases |ids|
  {
    var n := |ids| - 1;
    if j < n { BatchErrsIff(d, ids[..n], rs[..n], j); }
  }

  // ---------------------------------------------------------------- no invented duplicates

  /** Outcomes that tell the truth: a genuine answer, or an error for a command that was never
      executed. */
  predicate Harmless(o: Outcome) {
    o.Genuine? || o.NoConnection? || (o.Threw? && !o.executed)
  }

  /** The commands for `x` end harmlessly, and a batch updates the cache at most `delay` after
      each genuine answer for `x`. Other messages may fare as they will. */
  ghost predicate Prompt(op: Op, x: MessageId, delay: int)
    requires op.WellFormed()
  {
    && (op.Single? && op.id == x ==> Harmless(op.reply.outcome))
    && (op.Batch? ==> forall i :: 0 <= i < |op.ids| && op.ids[i] == x ==>
          && Harmless(op.replies[i].outcome)
          && (op.replies[i].outcome.Genuine? ==> op.end - op.replies[i].now <= delay))
  }

  /** The log holds a UNIQUE answer for `x` given at `t` or later. */
  ghost predicate AcceptedSince(log: seq<Given>, x: MessageId, t: int) {
    exists i :: 0 <= i < |log| && log[i].id == x && log[i].answer.Unique? && log[i].time >= t
  }

  lemma {:induction false} AcceptedStays(log: seq<Given>, more: seq<Given>, x: MessageId, t: int, u: int)
    requires AcceptedSince(log, x, t) && u <= t
    ensures AcceptedSince(log + more, x, u)
  {
    var i :| 0 <= i < |log| && log[i].id == x && log[i].answer.Unique? && log[i].time >= t;
    assert (log + more)[i] == log[i];
  }

  lemma {:induction false} AcceptedEarlier(log: seq<Given>, x: MessageId, t: int, u: int)
    requires AcceptedSince(log, x, t) && u <= t
    ensures AcceptedSince(log, x, u)
  {
    AcceptedStays(log, [], x, t, u);
    assert log + [] == log;
  }

  /** The Redis key of `x` goes back to an acceptance one window before its expiry. */
  ghost predicate KeyTraced(d: Dedup, log: seq<Given>, x: MessageId) {
    RedisKey(d.prefix, x) in d.keys ==> AcceptedSince(log, x, d.keys[RedisKey(d.prefix, x)] - d.window)
  }

  /** Each cache entry of `x` goes back to an acceptance at most a window (and the delay) before
      it was cached. */
  ghost predicate EntriesTraced(d: Dedup, log: seq<Given>, x: MessageId, delay: int) {
    forall e :: e in d.cache.entries && e.id == x ==>
      AcceptedSince(log, x, e.expiry - d.cache.ttl - d.window - delay)
  }

  ghost predicate DuplicatesTraced(log: seq<Given>, x: MessageId, reach: int) {
    forall j :: 0 <= j < |log| && log[j].id == x && log[j].answer.Duplicate? ==>
      AcceptedSince(log[..j], x, log[j].time - reach)
  }

  ghost predicate Traced(d: Dedup, log: seq<Given>, x: MessageId, delay: int) {
    && d.window > 0 && d.cache.ttl >= 0 && delay >= 0
    && KeyTraced(d, log, x) && EntriesTraced(d, log, x, delay)
    && DuplicatesTraced(log, x, d.window + d.cache.ttl + delay)
  }

  lemma {:induction false} GrownLogKeepsKey(d: Dedup, log: seq<Given>, more: seq<Given>, x: MessageId)
    requires KeyTraced(d, log, x)
    ensures KeyTraced(d, log + more, x)
  {
    var key := RedisKey(d.prefix, x);
    if key in d.keys { AcceptedStays(log, more, x, d.keys[key] - d.window, d.keys[key] - d.window); }
  }

  lemma {:induction false} GrownLogKeepsEntries(
      d: Dedup, log: seq<Given>, more: seq<Given>, x: MessageId, delay: int)
    requires EntriesTraced(d, log, x, delay)
    ensures EntriesTraced(d, log + more, x, delay)
  {
    forall e | e in d.cache.entries && e.id == x
      ensures AcceptedSince(log + more, x, e.expiry - d.cache.ttl - d.window - delay)
    {
      var t := e.expiry - d.cache.ttl - d.window - delay;
      AcceptedStays(log, more, x, t, t);
    }
  }

  lemma {:induction false} DuplicatesSnoc(log: seq<Given>, g: Given, x: MessageId, reach: int)
    requires DuplicatesTraced(log, x, reach)
    requires g.id == x && g.answer.Duplicate? ==> AcceptedSince(log, x, g.time - reach)
    ensures DuplicatesTraced(log + [g], x, reach)
  {
    var all := log + [g];
    assert all[..|log|] == log;
    forall j | 0 <= j < |log| ensures all[..j] == log[..j] { }
  }

  /** A harmless Redis check of `x` keeps its key traced, and unless it failed goes back to an
      acceptance less than a window ago, or is one. */
  lemma {:induction false} RedisCheckTraced(d: Dedup, log: seq<Given>, x: MessageId, r: Reply)
    requires d.window > 0 && KeyTraced(d, log, x) && Harmless(r.outcome)
    ensures var (e, answer) := CheckedWithRedis(d, x, r);
      var all := log + [Given(x, r.now, answer)];
      && KeyTraced(e, all, x) && (!answer.Error? ==> AcceptedSince(all, x, r.now - d.window))
      && (answer.Duplicate? ==> AcceptedSince(log, x, r.now - d.window))
  {
    var (e, answer) := CheckedWithRedis(d, x, r);
    var key, g := RedisKey(d.prefix, x), Given(x, r.now, answer);
    GrownLogKeepsKey(d, log, [g], x);
    if answer.Unique? {
      assert (log + [g])[|log|] == g;
    } else if answer.Duplicate? {
      AcceptedEarlier(log, x, d.keys[key] - d.window, r.now - d.window);
      AcceptedStays(log, [g], x, d.keys[key] - d.window, r.now - d.window);
    }
  }

  /** A check of another message leaves the key of `x` alone, whatever its outcome. */
  lemma {:induction false} OtherCheckTraced(d: Dedup, log: seq<Given>, x: MessageId, id: MessageId, r: Reply)
    requires KeyTraced(d, log, x) && id != x
    ensures KeyTraced(CheckedWithRedis(d, id, r).0, log + [Given(id, r.now, CheckedWithRedis(d, id, r).1)], x)
  {
    RedisKeyIdentifies(d.prefix, id, x);
    GrownLogKeepsKey(d, log, [Given(id, r.now, CheckedWithRedis(d, id, r).1)], x);
  }

  lemma {:induction false} FewerEntriesTraced(d: Dedup, c: Cache, log: seq<Given>, x: MessageId, delay: int)
    requires Traced(d, log, x, delay) && c.ttl == d.cache.ttl
    requires forall e :: e in c.entries ==> e in d.cache.entries
    ensures Traced(d.(cache := c), log, x, delay)
  {
  }

  lemma {:induction false} SweptEntries(c: Cache, now: int)
    ensures Swept(c, now).ttl == c.ttl
    ensures forall e :: e in Swept(c, now).entries ==> e in c.entries
  {
    Lru.UnexpiredMembers(c.entries, now);
  }

  lemma {:induction false} LookedUpEntries(c: Cache, id: MessageId, now: int)
    ensures var (c', hit) := ContainsAt(c, id, now);
      && c'.ttl == c.ttl && (forall e :: e in c'.entries ==> e in c.entries)
      && (hit ==> exists e :: e in c.entries && e.id == id && now <= e.expiry)
  {
    SweptEntries(c, now);
    Lru.WithoutMembers(Swept(c, now).entries, id);
  }

  lemma {:induction false} InsertedEntries(c: Cache, id: MessageId, expiry: int, now: int)
    ensures var c' := InsertAt(c, id, expiry, now);
      c'.ttl == c.ttl && forall e :: e in c'.entries ==> e in c.entries || e == Entry(id, expiry)
  {
    SweptEntries(c, now);
    Lru.WithoutMembers(Swept(c, now).entries, id);
  }

  lemma {:induction false} CacheUpdateTraced(
      d: Dedup, log: seq<Given>, x: MessageId, id: MessageId, answer: Answer, now: int, delay: int)
    requires EntriesTraced(d, log, x, delay)
    requires id == x && !answer.Error? ==> AcceptedSince(log, x, now - d.window - delay)
    ensures EntriesTraced(CacheUpdated(d, id, answer, now), log, x, delay)
  {
    InsertedEntries(d.cache, id, now + d.cache.ttl, now);
  }

  /** A Redis check, harmless if it is for `x`, keeps everything traced. */
  lemma {:induction false} RedisStepTraced(
      d: Dedup, log: seq<Given>, x: MessageId, id: MessageId, r: Reply, delay: int)
    requires Traced(d, log, x, delay) && (id == x ==> Harmless(r.outcome))
    ensures var (e, answer) := CheckedWithRedis(d, id, r);
      var all := log + [Given(id, r.now, answer)];
      Traced(e, all, x, delay) && (id == x && !answer.Error? ==> AcceptedSince(all, x, r.now - d.window))
  {
    var (e, answer) := CheckedWithRedis(d, id, r);
    var g, reach := Given(id, r.now, answer), d.window + d.cache.ttl + delay;
    GrownLogKeepsEntries(d, log, [g], x, delay);
    if id == x { RedisCheckTraced(d, log, x, r); } else { OtherCheckTraced(d, log, x, id, r); }
    hide KeyTraced, AcceptedSince, DuplicatesTraced;
    if id == x && answer.Duplicate? { AcceptedEarlier(log, x, r.now - d.window, r.now - reach); }
    DuplicatesSnoc(log, g, x, reach);
  }

  lemma {:induction false} CachedTraced(
      d: Dedup, log: seq<Given>, x: MessageId, id: MessageId, answer: Answer, now: int, delay: int)
    requires Traced(d, log, x, delay)
    requires id == x && !answer.Error? ==> AcceptedSince(log, x, now - d.window - delay)
    ensures Traced(CacheUpdated(d, id, answer, now), log, x, delay)
    ensures CacheUpdated(d, id, answer, now).window == d.window
  {
    CacheUpdateTraced(d, log, x, id, answer, now, delay);
    InsertedEntries(d.cache, id, now + d.cache.ttl, now);
    hide AcceptedSince, InsertAt;
  }

  /** A single check past the cache keeps everything traced. */
  lemma {:induction false} PastCacheTraced(
      d: Dedup, log: seq<Given>, x: MessageId, id: MessageId, r: Reply, delay: int)
    requires Traced(d, log, x, delay) && (id == x ==> Harmless(r.outcome))
    ensures var (e, answer) := CheckedPastCache(d, id, r);
      Traced(e, log + [Given(id, r.now, answer)], x, delay)
  {
    var (c, answer) := CheckedWithRedis(d, id, r);
    var all := log + [Given(id, r.now, answer)];
    RedisStepTraced(d, log, x, id, r, delay);
    if id == x && !answer.Error? { AcceptedEarlier(all, x, r.now - d.window, r.now - d.window - delay); }
    CachedTraced(c, all, x, id, answer, r.now, delay);
    TracedIgnoresCounters(CacheUpdated(c, id, answer, r.now), CheckedPastCache(d, id, r).0, all, x, delay);
    hide Traced, CacheUpdated, AcceptedSince;
  }

  lemma {:induction false} CacheHitTraced(d: Dedup, log: seq<Given>, x: MessageId, id: MessageId, now: int, delay: int)
    requires Traced(d, log, x, delay) && ContainsAt(d.cache, id, now).1
    ensures DuplicatesTraced(log + [Given(id, now, Duplicate)], x, d.window + d.cache.ttl + delay)
  {
    var reach := d.window + d.cache.ttl + delay;
    if id == x {
      LookedUpEntries(d.cache, id, now);
      var e :| e in d.cache.entries && e.id == id && now <= e.expiry;
      AcceptedEarlier(log, x, e.expiry - d.cache.ttl - d.window - delay, now - reach);
    }
    DuplicatesSnoc(log, Given(id, now, Duplicate), x, reach);
  }

  /** Counters play no part in the traces. */
  lemma {:induction false} TracedIgnoresCounters(d: Dedup, e: Dedup, log: seq<Given>, x: MessageId, delay: int)
    requires SameRedis(d, e) && d.cache == e.cache
    ensures Traced(d, log, x, delay) ==> Traced(e, log, x, delay)
  {
  }

  lemma {:induction false} NotDuplicateTraced(d: Dedup, log: seq<Given>, g: Given, x: MessageId, delay: int)
    requires Traced(d, log, x, delay)
    requires g.answer.Duplicate? ==> DuplicatesTraced(log + [g], x, d.window + d.cache.ttl + delay)
    ensures Traced(d, log + [g], x, delay)
  {
    GrownLogKeepsKey(d, log, [g], x);
    GrownLogKeepsEntries(d, log, [g], x, delay);
    if !g.answer.Duplicate? { DuplicatesSnoc(log, g, x, d.window + d.cache.ttl + delay); }
  }

  lemma {:induction false} CachedSingleTraced(
      d: Dedup, log: seq<Given>, x: MessageId, id: MessageId, r: Reply, delay: int)
    requires Traced(d, log, x, delay) && (id == x ==> Harmless(r.outcome))
    requires d.Running() && IsValidMessageId(id) && d.cacheOn
    ensures var (e, answer) := IsDuplicateAt(d, id, r);
      Traced(e, log + [Given(id, r.now, answer)], x, delay)
  {
    var (cache, hit) := ContainsAt(d.cache, id, r.now);
    LookedUpEntries(d.cache, id, r.now);
    hide KeyTraced, EntriesTraced, DuplicatesTraced, ContainsAt, CheckedPastCache, IsValidMessageId;
    FewerEntriesTraced(d, cache, log, x, delay);
    var looked := d.(cache := cache);
    if hit {
      CacheHitTraced(d, log, x, id, r.now, delay);
      NotDuplicateTraced(looked, log, Given(id, r.now, Duplicate), x, delay);
      TracedIgnoresCounters(looked, IsDuplicateAt(d, id, r).0, log + [Given(id, r.now, Duplicate)], x, delay);
    } else {
      var missed := looked.(totalChecks := d.totalChecks + 1, cacheMisses := d.cacheMisses + 1);
      TracedIgnoresCounters(looked, missed, log, x, delay);
      PastCacheTraced(missed, log, x, id, r, delay);
    }
  }

  lemma {:induction false} SingleTraced(d: Dedup, log: seq<Given>, x: MessageId, id: MessageId, r: Reply, delay: int)
    requires Traced(d, log, x, delay) && (id == x ==> Harmless(r.outcome))
    ensures var (e, answer) := IsDuplicateAt(d, id, r);
      Traced(e, log + [Given(id, r.now, answer)], x, delay)
  {
    hide KeyTraced, EntriesTraced, DuplicatesTraced, ContainsAt, CheckedPastCache, IsValidMessageId;
    if !d.Running() || !IsValidMessageId(id) {
      NotDuplicateTraced(d, log, Given(id, r.now, Error), x, delay);
    } else if d.cacheOn {
      CachedSingleTraced(d, log, x, id, r, delay);
    } else {
      var c := d.(totalChecks := d.totalChecks + 1);
      TracedIgnoresCounters(d, c, log, x, delay);
      PastCacheTraced(c, log, x, id, r, delay);
    }
  }

  /** Every answer for `x` in the batch that is no error goes back to an acceptance less than a
      window before its check. */
  ghost predicate AnswersTraced(
    all: seq<Given>, x: MessageId, ids: seq<MessageId>, rs: seq<Reply>, answers: seq<Answer>, window: int)
    requires |ids| == |rs| == |answers|
  {
    forall i :: 0 <= i < |ids| && ids[i] == x && !answers[i].Error? ==> AcceptedSince(all, x, rs[i].now - window)
  }

  lemma {:induction false} AnswersTracedSnoc(
      all: seq<Given>, g: Given, x: MessageId, ids: seq<MessageId>, rs: seq<Reply>, answers: seq<Answer>, window: int)
    requires |ids| == |rs| == |answers| + 1
    requires AnswersTraced(all, x, ids[..|answers|], rs[..|answers|], answers, window)
    requires g.id == ids[|answers|] && (g.id == x && !g.answer.Error? ==>
      AcceptedSince(all + [g], x, rs[|answers|].now - window))
    ensures AnswersTraced(all + [g], x, ids, rs, answers + [g.answer], window)
  {
    var n := |answers|;
    forall i | 0 <= i < n && ids[i] == x && !answers[i].Error?
      ensures AcceptedSince(all + [g], x, rs[i].now - window)
    {
      assert ids[..n][i] == ids[i] && rs[..n][i] == rs[i];
      AcceptedStays(all, [g], x, rs[i].now - window, rs[i].now - window);
    }
    hide AcceptedSince;
  }

  ghost predicate HarmlessFor(x: MessageId, ids: seq<MessageId>, rs: seq<Reply>)
    requires |ids| == |rs|
  {
    forall i :: 0 <= i < |ids| && ids[i] == x ==> Harmless(rs[i].outcome)
  }

  /** The Redis part of a batch keeps everything traced. */
  lemma {:induction false} BatchRedisTraced(
      d: Dedup, log: seq<Given>, x: MessageId, ids: seq<MessageId>, rs: seq<Reply>, delay: int)
    requires |ids| == |rs| && Traced(d, log, x, delay) && HarmlessFor(x, ids, rs)
    ensures var (e, answers) := BatchChecked(d, ids, rs);
      var all := log + BatchGiven(ids, rs, answers);
      Traced(e, all, x, delay) && AnswersTraced(all, x, ids, rs, answers, d.window)
    decreases |ids|
  {
    hide Traced, CheckedWithRedis, AcceptedSince, BatchGiven, Harmless;
    if ids == [] {
      assert log + BatchGiven(ids, rs, []) == log;
    } else {
      var n := |ids| - 1;
      BatchRedisTraced(d, log, x, ids[..n], rs[..n], delay);
      BatchCheckedFrame(d, ids[..n], rs[..n]);
      var (e, answers) := BatchChecked(d, ids[..n], rs[..n]);
      var before := log + BatchGiven(ids[..n], rs[..n], answers);
      RedisStepTraced(e, before, x, ids[n], rs[n], delay);
      var answer := CheckedWithRedis(e, ids[n], rs[n]).1;
      hide AnswersTraced, HarmlessFor;
      AnswersTracedSnoc(before, Given(ids[n], rs[n].now, answer), x, ids, rs, answers, d.window);
      BatchGivenSnoc(log, ids, rs, answers, answer);
    }
  }

  lemma {:induction false} BatchCacheTraced(
      d: Dedup, log: seq<Given>, x: MessageId, ids: seq<MessageId>, answers: seq<Answer>, now: int, delay: int)
    requires |ids| == |answers| && Traced(d, log, x, delay)
    requires forall i :: 0 <= i < |ids| && ids[i] == x && !answers[i].Error? ==>
      AcceptedSince(log, x, now - d.window - delay)
    ensures Traced(BatchCached(d, ids, answers, now), log, x, delay)
    ensures BatchCached(d, ids, answers, now).window == d.window
    decreases |ids|
  {
    hide Traced, AcceptedSince, CacheUpdated;
    if ids != [] {
      var n := |ids| - 1;
      BatchCacheTraced(d, log, x, ids[..n], answers[..n], now, delay);
      CachedTraced(BatchCached(d, ids[..n], answers[..n], now), log, x, ids[n], answers[n], now, delay);
    }
  }

  lemma {:induction false} BatchTraced(
      d: Dedup, log: seq<Given>, x: MessageId, ids: seq<MessageId>, rs: seq<Reply>, end: int, delay: int)
    requires Traced(d, log, x, delay) && d.Running()
    requires |ids| == |rs| && Prompt(Batch(ids, rs, end), x, delay)
    ensures var (e, answers) := AreDuplicatesAt(d, ids, rs, end);
      Traced(e, log + BatchGiven(ids, rs, answers), x, delay)
  {
    var (c, answers) := BatchChecked(d, ids, rs);
    var all := log + BatchGiven(ids, rs, answers);
    BatchRedisTraced(d, log, x, ids, rs, delay);
    BatchCheckedFrame(d, ids, rs);
    forall i | 0 <= i < |ids| && ids[i] == x && !answers[i].Error?
      ensures AcceptedSince(all, x, end - d.window - delay)
    {
      BatchErrsIff(d, ids, rs, i);
      AcceptedEarlier(all, x, rs[i].now - d.window, end - d.window - delay);
    }
    hide BatchChecked, BatchCached, BatchCounted, AcceptedSince, Traced;
    BatchCacheTraced(c, all, x, ids, answers, end, delay);
    var cached := BatchCached(c, ids, answers, end);
    CountersCommute(cached, answers, cached.keys, cached.redisFailures);
    TracedIgnoresCounters(cached, BatchCounted(cached, answers), all, x, delay);
  }

  lemma {:induction false} ErrorsTraced(d: Dedup, log: seq<Given>, given: seq<Given>, x: MessageId, delay: int)
    requires Traced(d, log, x, delay)
    requires forall i :: 0 <= i < |given| ==> given[i].answer.Error?
    ensures Traced(d, log + given, x, delay)
    decreases |given|
  {
    if given == [] {
      assert log + given == log;
    } else {
      var n := |given| - 1;
      ErrorsTraced(d, log, given[..n], x, delay);
      NotDuplicateTraced(d, log + given[..n], given[n], x, delay);
      assert log + given[..n] + [given[n]] == log + given;
    }
  }

  lemma {:induction false} StepTraced(w: World, op: Op, x: MessageId, delay: int)
    requires Traced(w.d, w.log, x, delay) && op.WellFormed() && Prompt(op, x, delay)
    ensures Traced(Step(w.d, op), w.log + Answers(w.d, op), x, delay)
  {
    assert w.log + [] == w.log;
    match op
    case Single(id, r) => SingleTraced(w.d, w.log, x, id, r, delay);
    case Batch(ids, rs, end) =>
      if w.d.Running() { BatchTraced(w.d, w.log, x, ids, rs, end, delay); }
      else { ErrorsTraced(w.d, w.log, Answers(w.d, op), x, delay); }
    case EnableCache(on) => TracedIgnoresCounters(w.d, Step(w.d, op), w.log, x, delay);
    case Maintain(now) =>
      Lru.UnexpiredMembers(w.d.cache.entries, now);
      FewerEntriesTraced(w.d, Step(w.d, op).cache, w.log, x, delay);
    case Stop =>
      FewerEntriesTraced(w.d, Step(w.d, op).cache, w.log, x, delay);
      TracedIgnoresCounters(w.d.(cache := Step(w.d, op).cache), Step(w.d, op), w.log, x, delay);
  }

  lemma {:induction false} RunTraced(w: World, ops: seq<Op>, x: MessageId, delay: int)
    requires Traced(w.d, w.log, x, delay) && forall op :: op in ops ==> op.WellFormed() && Prompt(op, x, delay)
    ensures Traced(Run(w, ops).d, Run(w, ops).log, x, delay)
    ensures Run(w, ops).d.window == w.d.window && Run(w, ops).d.cache.ttl == w.d.cache.ttl
    decreases |ops|
  {
    hide Traced, Step, Answers, Prompt;
    if ops != [] {
      var next := World(Step(w.d, ops[0]), w.log + Answers(w.d, ops[0]));
      assert ops[0] in ops;
      StepTraced(w, ops[0], x, delay);
      StepKeepsSettings(w.d, ops[0]);
      RunTraced(next, ops[1..], x, delay);
    }
  }

  lemma {:induction false} CacheKeepsTtl(c: Cache, id: MessageId, expiry: int, now: int)
    ensures InsertAt(c, id, expiry, now).ttl == c.ttl && ContainsAt(c, id, now).0.ttl == c.ttl
  {
  }

  lemma {:induction false} BatchKeepsSettings(d: Dedup, ids: seq<MessageId>, answers: seq<Answer>, now: int)
    requires |ids| == |answers|
    ensures var e := BatchCached(d, ids, answers, now);
      e.window == d.window && e.cache.ttl == d.cache.ttl
    decreases |ids|
  {
    if ids != [] {
      var n := |ids| - 1;
      BatchKeepsSettings(d, ids[..n], answers[..n], now);
      CacheKeepsTtl(BatchCached(d, ids[..n], answers[..n], now).cache, ids[n], now + d.cache.ttl, now);
    }
  }

  lemma {:induction false} StepKeepsSettings(d: Dedup, op: Op)
    requires op.WellFormed()
    ensures Step(d, op).window == d.window && Step(d, op).cache.ttl == d.cache.ttl
  {
    match op
    case Single(id, r) =>
      CacheKeepsTtl(d.cache, id, 0, r.now);
      CacheKeepsTtl(ContainsAt(d.cache, id, r.now).0, id, r.now + d.cache.ttl, r.now);
      CacheKeepsTtl(d.cache, id, r.now + d.cache.ttl, r.now);
    case Batch(ids, rs, end) =>
      if d.Running() {
        var (c, answers) := BatchChecked(d, ids, rs);
        BatchCheckedFrame(d, ids, rs);
        BatchKeepsSettings(c, ids, answers, end);
        var cached := BatchCached(c, ids, answers, end);
        CountersCommute(cached, answers, cached.keys, cached.redisFailures);
      }
    case _ =>
  }

  /** A service just started, against an instance that holds no keys of its prefix yet. */
  function Started(prefix: string, window: int, cacheOn: bool, cache: Cache): Dedup {
    Dedup(prefix, window, true, false, cacheOn, cache, map[], 0, 0, 0, 0, 0, 0)
  }

  /** Neither Redis nor the cache knows the message. */
  ghost predicate Unknown(d: Dedup, x: MessageId) {
    RedisKey(d.prefix, x) !in d.keys && forall e :: e in d.cache.entries ==> e.id != x
  }

  /** No invented duplicates: when the commands for a message end harmlessly, a DUPLICATE answer
      for it goes back to a UNIQUE answer for it, given earlier in the run and at most
      window + ttl ago (plus the delay with which batches update the cache). The commands for
      other messages may fail or be lost in any way. */
  lemma {:induction false} NoInventedDuplicates(d: Dedup, ops: seq<Op>, x: MessageId, delay: int, j: nat)
    requires d.window > 0 && d.cache.ttl >= 0 && delay >= 0 && Unknown(d, x)
    requires forall op :: op in ops ==> op.WellFormed() && Prompt(op, x, delay)
    requires var log := Run(World(d, []), ops).log;
      j < |log| && log[j].id == x && log[j].answer.Duplicate?
    ensures var log := Run(World(d, []), ops).log;
      AcceptedSince(log[..j], x, log[j].time - (d.window + d.cache.ttl + delay))
  {
    RunTraced(World(d, []), ops, x, delay);
  }

  // -- which outcomes invent duplicates

  /** Some DUPLICATE answer for `x` goes back to no acceptance within reach. */
  ghost predicate Invents(d: Dedup, ops: seq<Op>, x: MessageId)
    requires forall op :: op in ops ==> op.WellFormed()
  {
    var log := Run(World(d, []), ops).log;
    exists j :: 0 <= j < |log| && log[j].id == x && log[j].answer.Duplicate?
      && !AcceptedSince(log[..j], x, log[j].time - (d.window + d.cache.ttl))
  }

  /** A check of `x` with some outcome, then a genuine one. */
  function Twice(x: MessageId, o: Outcome, t: int, u: int): seq<Op> {
    [Single(x, Reply(o, t)), Single(x, Reply(Genuine, u))]
  }

  function TwiceLog(d: Dedup, x: MessageId, o: Outcome, t: int, u: int): seq<Given> {
    var (e, first) := IsDuplicateAt(d, x, Reply(o, t));
    [Given(x, t, first), Given(x, u, IsDuplicateAt(e, x, Reply(Genuine, u)).1)]
  }

  lemma {:induction false} TwiceRun(d: Dedup, x: MessageId, o: Outcome, t: int, u: int)
    ensures Run(World(d, []), Twice(x, o, t, u)).log == TwiceLog(d, x, o, t, u)
  {
    hide IsDuplicateAt;
    var ops := Twice(x, o, t, u);
    var first := World(Step(d, ops[0]), Answers(d, ops[0]));
    assert [] + Answers(d, ops[0]) == Answers(d, ops[0]);
    assert ops[1..] == [ops[1]] && [ops[1]][1..] == [];
    assert Run(first, [ops[1]]) == Run(World(Step(first.d, ops[1]), first.log + Answers(first.d, ops[1])), []);
  }

  /** The first check of a message nobody knows is a DUPLICATE exactly when the command was
      refused or its answer was lost: failed commands come back from the client as "not set". */
  lemma {:induction false} FirstCheckInventsDuplicateIff(d: Dedup, x: MessageId, r: Reply)
    requires d.Running() && IsValidMessageId(x) && Unknown(d, x)
    ensures IsDuplicateAt(d, x, r).1.Duplicate? <==> r.outcome.Refused? || r.outcome.ReplyLost?
  {
    LookedUpEntries(d.cache, x, r.now);
    hide IsValidMessageId, ContainsAt, InsertAt, RedisKey;
  }

  /** When Redis cannot be reached the cache still answers for what it holds: a valid check is then
      DUPLICATE exactly on a cache hit, and ERROR otherwise. */
  lemma {:induction false} UnreachableRedisIff(d: Dedup, x: MessageId, r: Reply)
    requires d.Running() && IsValidMessageId(x) && r.outcome.NoConnection?
    ensures IsDuplicateAt(d, x, r).1 == if CacheAnswers(d, x, r.now) then Duplicate else Error
    ensures IsDuplicateAt(d, x, r).0.keys == d.keys
  {
    hide IsValidMessageId, ContainsAt, InsertAt, RedisKey;
  }

  /** A command that was executed before the exception leaves a key behind, and no answer. */
  lemma {:induction false} ExecutedExceptionLeavesKey(d: Dedup, x: MessageId, t: int, u: int)
    requires d.Running() && IsValidMessageId(x) && Unknown(d, x) && t <= u < t + d.window
    ensures var (e, first) := IsDuplicateAt(d, x, Reply(Threw(true), t));
      first.Error? && IsDuplicateAt(e, x, Reply(Genuine, u)).1.Duplicate?
  {
    var e := IsDuplicateAt(d, x, Reply(Threw(true), t)).0;
    LookedUpEntries(d.cache, x, t);
    LookedUpEntries(e.cache, x, u);
    hide IsValidMessageId, ContainsAt, InsertAt, RedisKey;
  }

  /** The exact classification: for a message nobody knows, on any running service, an outcome
      invents a duplicate, at once or at a genuine check within the window, exactly when the
      command was refused, its answer was lost, or it was executed before an exception. */
  lemma {:induction false} OutcomeInventsIff(d: Dedup, x: MessageId, o: Outcome, t: int, u: int)
    requires d.Running() && IsValidMessageId(x) && Unknown(d, x)
    requires d.window > 0 && d.cache.ttl >= 0 && t <= u < t + d.window
    ensures Invents(d, Twice(x, o, t, u), x) <==> !Harmless(o)
    ensures !Harmless(o) <==> o.Refused? || o.ReplyLost? || o == Threw(true)
  {
    var ops := Twice(x, o, t, u);
    if Harmless(o) {
      HarmlessInventsNothing(d, ops, x);
    } else if o.Threw? {
      ExecutedExceptionLeavesKey(d, x, t, u);
      TwiceRun(d, x, o, t, u);
      InventedAt(d, ops, x, 1);
    } else {
      FirstCheckInventsDuplicateIff(d, x, Reply(o, t));
      TwiceRun(d, x, o, t, u);
      InventedAt(d, ops, x, 0);
    }
  }

  lemma {:induction false} HarmlessInventsNothing(d: Dedup, ops: seq<Op>, x: MessageId)
    requires d.window > 0 && d.cache.ttl >= 0 && Unknown(d, x)
    requires forall op :: op in ops ==> op.WellFormed() && Prompt(op, x, 0)
    ensures !Invents(d, ops, x)
  {
    var log := Run(World(d, []), ops).log;
    forall j | 0 <= j < |log| && log[j].id == x && log[j].answer.Duplicate?
      ensures AcceptedSince(log[..j], x, log[j].time - (d.window + d.cache.ttl))
    {
      NoInventedDuplicates(d, ops, x, 0, j);
    }
    hide Run, Prompt, AcceptedSince;
  }

  lemma {:induction false} InventedAt(d: Dedup, ops: seq<Op>, x: MessageId, j: nat)
    requires forall op :: op in ops ==> op.WellFormed()
    requires var log := Run(World(d, []), ops).log;
      j < |log| && log[j].id == x && log[j].answer.Duplicate? && forall i :: 0 <= i < j ==> !log[i].answer.Unique?
    ensures Invents(d, ops, x)
  {
    hide Run;
    var log := Run(World(d, []), ops).log;
    assert forall i :: 0 <= i < j ==> log[..j][i] == log[i];
  }

  // ---------------------------------------------------------------- one check, in full

  /** The ids a check accepts, bound by bound. */
  predicate Wellformed(id: MessageId) {
    && |id.imei| == 15 && (forall i :: 0 <= i < 15 ==> '0' <= id.imei[i] <= '9')
    && 1 <= id.sequenceNumber <= 16777215
  }

  /** The cache holds an unexpired entry for the message. */
  ghost predicate HasLiveEntry(d: Dedup, id: MessageId, now: int) {
    exists e: Entry :: e in d.cache.entries && e.id == id && now <= e.expiry
  }

  /** Redis holds a key for the message that is not past its expiry. */
  predicate HasLiveKey(d: Dedup, id: MessageId, now: int) {
    var key := d.prefix + ":" + id.imei + ":" + Print(id.sequenceNumber);
    key in d.keys && now < d.keys[key]
  }

  predicate Executed(o: Outcome) {
    o.Genuine? || o.ReplyLost? || (o.Threw? && o.executed)
  }

  /** The answer of a check that goes to Redis. */
  function RedisAnswer(o: Outcome, alive: bool): Answer {
    if o.NoConnection? || o.Threw? then Error
    else if o.Genuine? && !alive then Unique
    else Duplicate
  }

  lemma {:induction false} WellformedIsValid(id: MessageId)
    ensures IsValidMessageId(id) <==> Wellformed(id)
  {
  }

  /** Every check, of any id in any state under any outcome: the answer, and what it leaves in
      Redis. A service that is not running, and an id that is not well formed, get ERROR and change
      nothing; a live cache entry answers DUPLICATE by itself; otherwise Redis decides, and a
      command that is executed on a dead key sets it for a window. */
  lemma {:induction false} AnswerLaw(d: Dedup, id: MessageId, r: Reply)
    requires Lru.OneEach(d.cache.entries)
    ensures var (e, answer) := IsDuplicateAt(d, id, r);
      var checks := d.initialized && !d.shuttingDown && Wellformed(id);
      var cached, alive := d.cacheOn && HasLiveEntry(d, id, r.now), HasLiveKey(d, id, r.now);
      && answer == (if !checks then Error else if cached then Duplicate else RedisAnswer(r.outcome, alive))
      && (!checks ==> e == d)
      && e.keys == (if checks && !cached && !alive && Executed(r.outcome)
                    then d.keys[d.prefix + ":" + id.imei + ":" + Print(id.sequenceNumber) := r.now + d.window]
                    else d.keys)
  {
    WellformedIsValid(id);
    Lru.FoundIff(d.cache, id, r.now);
    hide IsValidMessageId, Wellformed, ContainsAt, InsertAt;
  }

  /** What a check leaves in the cache: with the cache on, an answer from Redis puts the message in
      front for the whole ttl, and no other message gets an entry. */
  lemma {:induction false} CacheLaw(d: Dedup, id: MessageId, r: Reply)
    requires Lru.OneEach(d.cache.entries)
    ensures var (e, answer) := IsDuplicateAt(d, id, r);
      var cached := d.cacheOn && HasLiveEntry(d, id, r.now);
      && (!d.cacheOn ==> e.cache == d.cache)
      && (d.cacheOn && !cached && !answer.Error? ==>
            e.cache.entries != [] && e.cache.entries[0] == Entry(id, r.now + d.cache.ttl))
      && (forall x: Entry :: x in e.cache.entries && x.id != id ==> x in d.cache.entries)
  {
    hide IsDuplicateAt, ContainsAt, InsertAt, RedisKey;
    Lru.FoundIff(d.cache, id, r.now);
    SingleCache(d, id, r);
    LookedUpEntries(d.cache, id, r.now);
    var looked := ContainsAt(d.cache, id, r.now).0;
    Lru.InsertLaw(looked, id, r.now + d.cache.ttl, r.now);
    InsertedEntries(looked, id, r.now + d.cache.ttl, r.now);
  }

  /** The cache after a check: untouched, looked into, or also refreshed. */
  lemma {:induction false} SingleCache(d: Dedup, id: MessageId, r: Reply)
    ensures var (e, answer) := IsDuplicateAt(d, id, r);
      var (looked, hit) := ContainsAt(d.cache, id, r.now);
      && (!d.cacheOn || !d.Running() || !IsValidMessageId(id) ==> e.cache == d.cache)
      && (!d.Running() || !IsValidMessageId(id) ==> answer.Error?)
      && (d.cacheOn && d.Running() && IsValidMessageId(id) ==>
            e.cache == if hit || answer.Error? then looked else InsertAt(looked, id, r.now + looked.ttl, r.now))
  {
    hide IsValidMessageId, ContainsAt, InsertAt, CheckRedis;
  }

  /** What a check counts: itself, a hit or a miss of the cache when it is asked, and, past the cache,
      its answer. */
  lemma {:induction false} CountersLaw(d: Dedup, id: MessageId, r: Reply)
    requires Lru.OneEach(d.cache.entries)
    ensures var (e, answer) := IsDuplicateAt(d, id, r);
      var checks := d.initialized && !d.shuttingDown && Wellformed(id);
      var cached := checks && d.cacheOn && HasLiveEntry(d, id, r.now);
      && e.totalChecks == d.totalChecks + (if checks then 1 else 0)
      && e.cacheHits == d.cacheHits + (if cached then 1 else 0)
      && e.cacheMisses == d.cacheMisses + (if checks && d.cacheOn && !cached then 1 else 0)
      && e.uniqueMessages == d.uniqueMessages + (if answer.Unique? then 1 else 0)
      && e.duplicatesFound == d.duplicatesFound + (if answer.Duplicate? && !cached then 1 else 0)
      && e.redisFailures == d.redisFailures + (if checks && answer.Error? then 1 else 0)
  {
    WellformedIsValid(id);
    Lru.FoundIff(d.cache, id, r.now);
    hide IsValidMessageId, Wellformed, ContainsAt, InsertAt, RedisKey;
  }

  /** Maintenance drops the expired cache entries, in place, unless the service is going down; going
      down empties the cache and ends the service once; neither touches Redis or the counters. */
  lemma {:induction false} HousekeepingLaw(d: Dedup, now: int)
    ensures Maintained(d, now).cache.entries
      == if d.shuttingDown then d.cache.entries else Unexpired(d.cache.entries, now)
    ensures Maintained(d, now) == d.(cache := Maintained(d, now).cache)
    ensures ShutDown(d) == if !d.initialized then d
      else d.(initialized := false, shuttingDown := true, cache := d.cache.(entries := []))
  {
  }

  /** The entry is among the first `bound` of the cache. */
  ghost predicate AmongFirst(c: Cache, e: Entry, bound: int) {
    exists k :: 0 <= k < bound && k < |c.entries| && c.entries[k] == e
  }

  /** Every message a batch does not fail on is in the cache afterwards, for the whole ttl, if the
      cache is on and large enough for the batch. */
  lemma {:induction false} BatchIsCached(d: Dedup, ids: seq<MessageId>, answers: seq<Answer>, end: int, i: nat)
    requires |ids| == |answers| <= d.cache.maxSize && d.cacheOn && d.cache.ttl >= 0
    requires i < |ids| && !answers[i].Error?
    ensures AmongFirst(BatchCached(d, ids, answers, end).cache, Entry(ids[i], end + d.cache.ttl), |ids| - i)
    decreases |ids|
  {
    hide BatchCached, InsertAt, AmongFirst;
    var n := |ids| - 1;
    var before, x := BatchCached(d, ids[..n], answers[..n], end), Entry(ids[i], end + d.cache.ttl);
    BatchKeepsSettings(d, ids[..n], answers[..n], end);
    BatchKeepsSize(d, ids[..n], answers[..n], end);
    BatchCachedLast(d, ids, answers, end);
    if i < n {
      assert ids[..n][i] == ids[i] && answers[..n][i] == answers[i];
      BatchIsCached(d, ids[..n], answers[..n], end, i);
    }
    if answers[n].Error? {
      StaysAmongFirst(before.cache, x, n - i);
    } else {
      InsertedAmongFirst(before.cache, ids[n], x, end, n - i);
    }
  }

  lemma {:induction false} BatchCachedLast(d: Dedup, ids: seq<MessageId>, answers: seq<Answer>, end: int)
    requires |ids| == |answers| > 0
    ensures var n := |ids| - 1;
      BatchCached(d, ids, answers, end)
      == CacheUpdated(BatchCached(d, ids[..n], answers[..n], end), ids[n], answers[n], end)
  {
    hide CacheUpdated;
  }

  lemma {:induction false} StaysAmongFirst(c: Cache, e: Entry, bound: int)
    requires AmongFirst(c, e, bound)
    ensures AmongFirst(c, e, bound + 1)
  {
  }

  lemma {:induction false} InsertedAmongFirst(c: Cache, id: MessageId, e: Entry, end: int, bound: int)
    requires 0 <= bound < c.maxSize && c.ttl >= 0 && e.expiry == end + c.ttl
    requires e.id == id || AmongFirst(c, e, bound)
    ensures AmongFirst(InsertAt(c, id, end + c.ttl, end), e, bound + 1)
  {
    if e.id == id {
      Lru.InsertLaw(c, id, end + c.ttl, end);
      hide InsertAt;
    } else {
      var k :| 0 <= k < bound && k < |c.entries| && c.entries[k] == e;
      Lru.KeepsPlace(c, id, end + c.ttl, end, k);
      hide InsertAt;
    }
  }

  lemma {:induction false} BatchKeepsSize(d: Dedup, ids: seq<MessageId>, answers: seq<Answer>, now: int)
    requires |ids| == |answers|
    ensures var e := BatchCached(d, ids, answers, now); e.cache.maxSize == d.cache.maxSize && e.cacheOn == d.cacheOn
    decreases |ids|
  {
    if ids != [] { BatchKeepsSize(d, ids[..|ids| - 1], answers[..|ids| - 1], now); }
  }

  /** Once stopped, a service answers ERROR to everything and leaves Redis alone, for good. */
  lemma {:induction false} StoppedForGood(w: World, ops: seq<Op>)
    requires !w.d.Running() && forall op :: op in ops ==> op.WellFormed()
    ensures var u := Run(w, ops);
      && !u.d.Running() && u.d.keys == w.d.keys && |w.log| <= |u.log| && u.log[..|w.log|] == w.log
      && forall j :: |w.log| <= j < |u.log| ==> u.log[j].answer.Error?
    decreases |ops|
  {
    if ops != [] {
      assert ops[0] in ops;
      var next := World(Step(w.d, ops[0]), w.log + Answers(w.d, ops[0]));
      StoppedStep(w.d, ops[0]);
      hide Step, Answers;
      StoppedForGood(next, ops[1..]);
      var u := Run(next, ops[1..]);
      assert u.log[..|w.log|] == u.log[..|next.log|][..|w.log|];
      forall j | |w.log| <= j < |next.log| ensures u.log[j].answer.Error? {
        assert u.log[..|next.log|][j] == next.log[j] == Answers(w.d, ops[0])[j - |w.log|];
      }
    }
  }

  lemma {:induction false} StoppedStep(d: Dedup, op: Op)
    requires !d.Running() && op.WellFormed()
    ensures !Step(d, op).Running() && Step(d, op).keys == d.keys
    ensures forall j :: 0 <= j < |Answers(d, op)| ==> Answers(d, op)[j].answer.Error?
  {
    hide CleanedUp;
  }

  // ---------------------------------------------------------------- the counters add up

  function Count(answers: seq<Answer>, a: Answer): nat
    decreases |answers|
  {
    if answers == [] then 0
    else Count(answers[..|answers| - 1], a) + if answers[|answers| - 1] == a then 1 else 0
  }

  lemma {:induction false} CountSnoc(answers: seq<Answer>, b: Answer, a: Answer)
    ensures Count(answers + [b], a) == Count(answers, a) + if b == a then 1 else 0
  {
    assert (answers + [b])[..|answers|] == answers;
  }

  lemma {:induction false} CountsAddUp(answers: seq<Answer>)
    ensures Count(answers, Unique) + Count(answers, Duplicate) + Count(answers, Error) == |answers|
    decreases |answers|
  {
    if answers != [] { CountsAddUp(answers[..|answers| - 1]); }
  }

  lemma {:induction false} BatchFailures(d: Dedup, ids: seq<MessageId>, rs: seq<Reply>)
    requires |ids| == |rs|
    ensures var (e, answers) := BatchChecked(d, ids, rs);
      e.redisFailures == d.redisFailures + Count(answers, Error)
    decreases |ids|
  {
    hide RedisKey;
    if ids != [] {
      var n := |ids| - 1;
      BatchFailures(d, ids[..n], rs[..n]);
      var (e, answers) := BatchChecked(d, ids[..n], rs[..n]);
      CountSnoc(answers, CheckedWithRedis(e, ids[n], rs[n]).1, Error);
    }
  }

  lemma {:induction false} BatchTotals(d: Dedup, answers: seq<Answer>)
    ensures BatchCounted(d, answers) == d.(
      totalChecks := d.totalChecks + |answers|,
      uniqueMessages := d.uniqueMessages + Count(answers, Unique),
      duplicatesFound := d.duplicatesFound + Count(answers, Duplicate))
    decreases |answers|
  {
    if answers != [] { BatchTotals(d, answers[..|answers| - 1]); }
  }

  lemma {:induction false} BatchCachedFrame(d: Dedup, ids: seq<MessageId>, answers: seq<Answer>, now: int)
    requires |ids| == |answers|
    ensures var e := BatchCached(d, ids, answers, now); e == d.(cache := e.cache)
    decreases |ids|
  {
    hide InsertAt;
    if ids != [] { BatchCachedFrame(d, ids[..|ids| - 1], answers[..|ids| - 1], now); }
  }

  /** Checks not accounted for by an answer, a cache hit or a failure. */
  function Unaccounted(d: Dedup): int {
    d.totalChecks - d.uniqueMessages - d.duplicatesFound - d.cacheHits - d.redisFailures
  }

  lemma {:induction false} StepAccounts(d: Dedup, op: Op)
    requires op.WellFormed()
    ensures Unaccounted(Step(d, op)) == Unaccounted(d)
  {
    match op
    case Single(id, r) =>
      hide RedisKey, ContainsAt, InsertAt, IsValidMessageId;
    case Batch(ids, rs, end) =>
      if d.Running() {
        var (e, answers) := BatchChecked(d, ids, rs);
        BatchFailures(d, ids, rs);
        BatchCheckedFrame(d, ids, rs);
        BatchCachedFrame(e, ids, answers, end);
        BatchTotals(BatchCached(e, ids, answers, end), answers);
        CountsAddUp(answers);
        hide BatchChecked, BatchCached, BatchCounted, Count;
      }
    case _ =>
  }

  /** Over every run of a service just started: every check is an acceptance, a duplicate found by
      Redis, a cache hit or a failure, and is counted as that. */
  lemma {:induction false} CountersAddUp(w: World, ops: seq<Op>)
    requires forall op :: op in ops ==> op.WellFormed()
    requires w.d.totalChecks
      == w.d.uniqueMessages + w.d.duplicatesFound + w.d.cacheHits + w.d.redisFailures
    ensures var d := Run(w, ops).d;
      d.totalChecks == d.uniqueMessages + d.duplicatesFound + d.cacheHits + d.redisFailures
    decreases |ops|
  {
    hide Step, Answers;
    if ops != [] {
      assert ops[0] in ops;
      StepAccounts(w.d, ops[0]);
      CountersAddUp(World(Step(w.d, ops[0]), w.log + Answers(w.d, ops[0])), ops[1..]);
    }
  }

  // ---------------------------------------------------------------- why the bounds are what they are

  const SAMPLE := MessageId("123456789012345", 1)

  lemma {:induction false} SampleIsValid()
    ensures IsValidMessageId(SAMPLE)
  {
  }

  /** One more check of the sample message, all on one entry and one key. */
  lemma {:induction false} SampleCheck(d: Dedup, now: int)
    requires d.Running() && d.cacheOn && d.cache.maxSize > 0 && d.cache.cleanupInterval <= 0
    requires d.cache.entries == [] || (|d.cache.entries| == 1 && d.cache.entries[0].id == SAMPLE)
    ensures var (e, answer) := IsDuplicateAt(d, SAMPLE, Reply(Genuine, now));
      var key := RedisKey(d.prefix, SAMPLE);
      var cached := d.cache.entries != [] && now <= d.cache.entries[0].expiry;
      && e.Running() && e.cacheOn && e.prefix == d.prefix && e.window == d.window
      && e.cache.maxSize == d.cache.maxSize && e.cache.ttl == d.cache.ttl
      && e.cache.cleanupInterval == d.cache.cleanupInterval
      && answer == (if cached || Alive(d.keys, key, now) then Duplicate else Unique)
      && e.cache.entries == [Entry(SAMPLE, if cached then d.cache.entries[0].expiry else now + d.cache.ttl)]
      && e.keys == (if answer.Unique? then d.keys[key := now + d.window] else d.keys)
  {
    SampleIsValid();
    hide IsValidMessageId, RedisKey;
    if d.cache.entries != [] { assert d.cache.entries == [d.cache.entries[0]]; }
  }

  /** The sum in the bound is needed: a Redis DUPLICATE refreshes the cache, so with window 10
      and ttl 5 the only acceptance, at 0, still makes a check at 14 a duplicate. */
  lemma {:induction false} SumIsNeeded(cache: Cache)
    requires cache.entries == [] && cache.ttl == 5 && cache.maxSize > 0 && cache.cleanupInterval <= 0
    ensures var d0 := Started("dedup", 10, true, cache);
      var (d1, a1) := IsDuplicateAt(d0, SAMPLE, Reply(Genuine, 0));
      var (d2, a2) := IsDuplicateAt(d1, SAMPLE, Reply(Genuine, 9));
      var (d3, a3) := IsDuplicateAt(d2, SAMPLE, Reply(Genuine, 14));
      [a1, a2, a3] == [Unique, Duplicate, Duplicate]
  {
    var d0 := Started("dedup", 10, true, cache);
    SampleCheck(d0, 0);
    var d1 := IsDuplicateAt(d0, SAMPLE, Reply(Genuine, 0)).0;
    SampleCheck(d1, 9);
    var d2 := IsDuplicateAt(d1, SAMPLE, Reply(Genuine, 9)).0;
    SampleCheck(d2, 14);
    hide IsDuplicateAt, RedisKey;
  }

  /** The bound is tight for every window, ttl and delay: a message accepted at 0 only, checked in a
      batch at the end of the window that updates the cache `delay` later, is still a DUPLICATE
      when that entry expires. */
  lemma {:induction false} BoundIsTight(prefix: string, window: int, cache: Cache, delay: int)
    requires cache.entries == [] && cache.maxSize > 0 && cache.cleanupInterval <= 0 && cache.ttl >= 0
    requires window > 0 && delay >= 0
    ensures var last := window - 1 + delay + cache.ttl;
      var ops := [CheckAt(0), BatchAt(window - 1, window - 1 + delay), CheckAt(last)];
      && (forall op :: op in ops ==> op.WellFormed() && Prompt(op, SAMPLE, delay))
      && Run(World(Started(prefix, window, true, cache), []), ops).log
         == [Given(SAMPLE, 0, Unique), Given(SAMPLE, window - 1, Duplicate), Given(SAMPLE, last, Duplicate)]
  {
    var last := window - 1 + delay + cache.ttl;
    var a, b, c := CheckAt(0), BatchAt(window - 1, window - 1 + delay), CheckAt(last);
    BatchIsPrompt(window - 1, delay);
    CheckIsPrompt(0, delay);
    CheckIsPrompt(last, delay);
    hide Prompt, Step, Answers;
    ThreeOps(Started(prefix, window, true, cache), a, b, c);
    TightAnswers(Started(prefix, window, true, cache), delay);
  }

  function CheckAt(now: int): Op {
    Single(SAMPLE, Reply(Genuine, now))
  }

  function BatchAt(now: int, end: int): Op {
    Batch([SAMPLE], [Reply(Genuine, now)], end)
  }

  lemma {:induction false} BatchIsPrompt(now: int, delay: int)
    ensures BatchAt(now, now + delay).WellFormed() && Prompt(BatchAt(now, now + delay), SAMPLE, delay)
  {
  }

  lemma {:induction false} CheckIsPrompt(now: int, delay: int)
    ensures CheckAt(now).WellFormed() && Prompt(CheckAt(now), SAMPLE, delay)
  {
  }

  lemma {:induction false} TightAnswers(d: Dedup, delay: int)
    requires d.Running() && d.cacheOn && d.cache.entries == [] && d.keys == map[]
    requires d.cache.maxSize > 0 && d.cache.cleanupInterval <= 0 && d.cache.ttl >= 0 && d.window > 0 && delay >= 0
    ensures var last := d.window - 1 + delay + d.cache.ttl;
      var d1 := Step(d, CheckAt(0));
      var d2 := Step(d1, BatchAt(d.window - 1, d.window - 1 + delay));
      && Answers(d, CheckAt(0)) == [Given(SAMPLE, 0, Unique)]
      && Answers(d1, BatchAt(d.window - 1, d.window - 1 + delay)) == [Given(SAMPLE, d.window - 1, Duplicate)]
      && Answers(d2, CheckAt(last)) == [Given(SAMPLE, last, Duplicate)]
  {
    hide IsDuplicateAt, AreDuplicatesAt, RedisKey;
    var d1 := IsDuplicateAt(d, SAMPLE, Reply(Genuine, 0)).0;
    SampleCheck(d, 0);
    SampleBatch(d1, d.window - 1, d.window - 1 + delay);
    var d2 := AreDuplicatesAt(d1, [SAMPLE], [Reply(Genuine, d.window - 1)], d.window - 1 + delay).0;
    SampleCheck(d2, d.window - 1 + delay + d.cache.ttl);
  }

  lemma {:induction false} ThreeOps(d: Dedup, a: Op, b: Op, c: Op)
    requires a.WellFormed() && b.WellFormed() && c.WellFormed()
    ensures var d1 := Step(d, a);
      Run(World(d, []), [a, b, c]).log == Answers(d, a) + Answers(d1, b) + Answers(Step(d1, b), c)
  {
    hide Step, Answers;
    assert [a, b, c][1..] == [b, c] && [b, c][1..] == [c] && [c][1..] == [];
    var d1 := Step(d, a);
    var d2 := Step(d1, b);
    var w1 := World(d1, [] + Answers(d, a));
    var w2 := World(d2, w1.log + Answers(d1, b));
    assert Run(w2, [c]) == Run(World(Step(d2, c), w2.log + Answers(d2, c)), []);
    assert Run(w1, [b, c]) == Run(w2, [c]);
    assert [] + Answers(d, a) == Answers(d, a);
  }

  /** One more batch of the sample message alone, all on one entry and one key. */
  lemma {:induction false} SampleBatch(d: Dedup, now: int, end: int)
    requires d.Running() && d.cacheOn && d.cache.maxSize > 0 && d.cache.cleanupInterval <= 0
    requires |d.cache.entries| == 1 && d.cache.entries[0].id == SAMPLE
    requires Alive(d.keys, RedisKey(d.prefix, SAMPLE), now)
    ensures var (e, answers) := AreDuplicatesAt(d, [SAMPLE], [Reply(Genuine, now)], end);
      && answers == [Duplicate]
      && BatchGiven([SAMPLE], [Reply(Genuine, now)], answers) == [Given(SAMPLE, now, Duplicate)]
      && e.Running() && e.cacheOn && e.prefix == d.prefix && e.window == d.window && e.keys == d.keys
      && e.cache.maxSize == d.cache.maxSize && e.cache.cleanupInterval == d.cache.cleanupInterval
      && e.cache.ttl == d.cache.ttl && e.cache.entries == [Entry(SAMPLE, end + d.cache.ttl)]
  {
    var r := Reply(Genuine, now);
    assert d.cache.entries == [d.cache.entries[0]];
    assert [SAMPLE][..0] == [] && [r][..0] == [];
    var (c, answers) := BatchChecked(d, [SAMPLE], [r]);
    assert CheckedWithRedis(d, SAMPLE, r) == (d, Duplicate) by { hide RedisKey; }
    assert BatchChecked(d, [], []) == (d, []);
    assert c == d && answers == [Duplicate];
    assert answers[..0] == [];
    var cached := BatchCached(d, [SAMPLE], answers, end);
    assert BatchCached(d, [], [], end) == d;
    assert cached == CacheUpdated(d, SAMPLE, Duplicate, end);
    OneEntryRefreshed(d.cache, end + d.cache.ttl, end);
    BatchCountedFrame(cached, answers);
    hide BatchChecked, BatchCached, BatchCounted, RedisKey, InsertAt;
  }

  lemma {:induction false} OneEntryRefreshed(c: Cache, expiry: int, now: int)
    requires c.cleanupInterval <= 0 && |c.entries| == 1 && c.entries[0].id == SAMPLE
    ensures InsertAt(c, SAMPLE, expiry, now) == c.(entries := [Entry(SAMPLE, expiry)])
  {
    assert c.entries == [c.entries[0]];
  }
}
