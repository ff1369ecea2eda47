/** Eviction order of the local cache over whole runs. */
module LocalCacheTheorems {
  import opened MessageKeys
  import opened LocalCache

  datatype Op =
    | Find(id: MessageId, now: int)
    | Insert(id: MessageId, expiry: int, now: int)
    | Remove(id: MessageId)
    | Clear
    | Cleanup(now: int)
    | SetInterval(interval: int, now: int)

  function Step(c: Cache, op: Op): Cache {
    match op
    case Find(id, now) => ContainsAt(c, id, now).0
    case Insert(id, expiry, now) => InsertAt(c, id, expiry, now)
    case Remove(id) => RemoveFrom(c, id)
    case Clear => c.(entries := [])
    case Cleanup(now) => CleanedUp(c, now)
    case SetInterval(interval, now) => IntervalSet(c, interval, now)
  }

  /** The message the operation makes most recently used: one inserted, or one found. */
  function Touched(c: Cache, op: Op): seq<MessageId> {
    match op
    case Insert(id, _, _) => [id]
    case Find(id, now) => if ContainsAt(c, id, now).1 then [id] else []
    case _ => []
  }

  /** A cache together with the history of touches that led to it. */
  datatype World = World(cache: Cache, history: seq<MessageId>)

  function Run(w: World, ops: seq<Op>): World
    decreases |ops|
  {
    if ops == [] then w
    else Run(World(Step(w.cache, ops[0]), w.history + Touched(w.cache, ops[0])), ops[1..])
  }

  /** One more than the index of the last touch of `id`; 0 if there is none. */
  function LastTouch(history: seq<MessageId>, id: MessageId): (k: nat)
    ensures k <= |history| && (k > 0 ==> history[k - 1] == id)
    ensures forall i :: k <= i < |history| ==> history[i] != id
  {
    if history == [] then 0
    else if history[|history| - 1] == id then |history|
    else LastTouch(history[..|history| - 1], id)
  }

  /** Every listed message was touched, and the list is ordered by last touch, latest first. */
  ghost predicate ByRecency(s: seq<Entry>, history: seq<MessageId>) {
    && (forall i :: 0 <= i < |s| ==> LastTouch(history, s[i].id) > 0)
    && (forall i, j :: 0 <= i < j < |s| ==> LastTouch(history, s[j].id) < LastTouch(history, s[i].id))
  }

  ghost predicate Inv(w: World) {
    && 0 < w.cache.maxSize && |w.cache.entries| <= w.cache.maxSize
    && ByRecency(w.cache.entries, w.history)
  }

  lemma {:induction false} WithoutMembers(s: seq<Entry>, id: MessageId)
    ensures forall e :: e in Without(s, id) <==> e in s && e.id != id
  {
    if s != [] { WithoutMembers(s[1..], id); }
  }

  lemma {:induction false} UnexpiredMembers(s: seq<Entry>, now: int)
    ensures forall e :: e in Unexpired(s, now) <==> e in s && !e.Expired(now)
  {
    if s != [] { UnexpiredMembers(s[1..], now); }
  }

  lemma {:induction false} TailByRecency(s: seq<Entry>, history: seq<MessageId>)
    requires ByRecency(s, history) && s != []
    ensures ByRecency(s[1..], history)
    ensures forall e :: e in s[1..] ==> LastTouch(history, e.id) < LastTouch(history, s[0].id)
  {
  }

  lemma {:induction false} ConsByRecency(e: Entry, s: seq<Entry>, history: seq<MessageId>)
    requires ByRecency(s, history) && LastTouch(history, e.id) > 0
    requires forall f :: f in s ==> LastTouch(history, f.id) < LastTouch(history, e.id)
    ensures ByRecency([e] + s, history)
  {
    var r := [e] + s;
    assert r[1..] == s;
    forall i | 0 <= i < |s| ensures LastTouch(history, s[i].id) < LastTouch(history, e.id) {
      assert s[i] in s;
    }
  }

  lemma {:induction false} WithoutByRecency(s: seq<Entry>, id: MessageId, history: seq<MessageId>)
    requires ByRecency(s, history)
    ensures ByRecency(Without(s, id), history)
  {
    if s != [] {
      TailByRecency(s, history);
      WithoutByRecency(s[1..], id, history);
      WithoutMembers(s[1..], id);
      if s[0].id != id { ConsByRecency(s[0], Without(s[1..], id), history); }
    }
  }

  lemma {:induction false} UnexpiredByRecency(s: seq<Entry>, now: int, history: seq<MessageId>)
    requires ByRecency(s, history)
    ensures ByRecency(Unexpired(s, now), history)
  {
    if s != [] {
      TailByRecency(s, history);
      UnexpiredByRecency(s[1..], now, history);
      UnexpiredMembers(s[1..], now);
      if !s[0].Expired(now) { ConsByRecency(s[0], Unexpired(s[1..], now), history); }
    }
  }

  /** Touching a message and putting it in front keeps the order. */
  lemma {:induction false} FrontByRecency(e: Entry, s: seq<Entry>, history: seq<MessageId>)
    requires ByRecency(s, history) && forall f :: f in s ==> f.id != e.id
    ensures ByRecency([e] + s, history + [e.id])
  {
    var later := history + [e.id];
    assert later[..|history|] == history;
    forall f | f in s ensures LastTouch(later, f.id) == LastTouch(history, f.id) { }
    assert forall i :: 0 <= i < |s| ==> s[i] in s;
    ConsByRecency(e, s, later);
  }

  lemma {:induction false} SweptKeepsInv(w: World, now: int)
    requires Inv(w)
    ensures Inv(World(Swept(w.cache, now), w.history))
  {
    UnexpiredByRecency(w.cache.entries, now, w.history);
  }

  lemma {:induction false} WithoutShrinks(s: seq<Entry>, id: MessageId)
    requires Holds(s, id)
    ensures |Without(s, id)| < |s|
  {
    if s[0].id != id {
      var i :| 0 <= i < |s| && s[i].id == id;
      assert s[1..][i - 1].id == id;
      WithoutShrinks(s[1..], id);
    }
  }

  lemma {:induction false} LookedUpKeepsInv(w: World, id: MessageId, now: int)
    requires Inv(w)
    ensures var (c, found) := LookedUp(w.cache, id, now);
      Inv(World(c, w.history + if found then [id] else []))
  {
    var s := w.cache.entries;
    assert w.history + [] == w.history;
    if Holds(s, id) {
      WithoutByRecency(s, id, w.history);
      WithoutShrinks(s, id);
      WithoutMembers(s, id);
      FrontByRecency(Lookup(s, id), Without(s, id), w.history);
    }
  }

  lemma {:induction false} PutKeepsInv(w: World, id: MessageId, expiry: int)
    requires Inv(w)
    ensures Inv(World(PutInFront(w.cache, id, expiry), w.history + [id]))
  {
    var s, e := w.cache.entries, Entry(id, expiry);
    if Holds(s, id) {
      WithoutByRecency(s, id, w.history);
      WithoutShrinks(s, id);
      WithoutMembers(s, id);
      FrontByRecency(e, Without(s, id), w.history);
    } else {
      FrontByRecency(e, s, w.history);
      if |s| >= w.cache.maxSize {
        assert [e] + s[..|s| - 1] == ([e] + s)[..|s|];
      }
    }
  }

  lemma {:induction false} StepKeepsInv(w: World, op: Op)
    requires Inv(w)
    ensures Inv(World(Step(w.cache, op), w.history + Touched(w.cache, op)))
  {
    assert w.history + [] == w.history;
    match op
    case Find(id, now) =>
      SweptKeepsInv(w, now);
      LookedUpKeepsInv(World(Swept(w.cache, now), w.history), id, now);
    case Insert(id, expiry, now) =>
      SweptKeepsInv(w, now);
      PutKeepsInv(World(Swept(w.cache, now), w.history), id, expiry);
    case Remove(id) => WithoutByRecency(w.cache.entries, id, w.history);
    case Cleanup(now) => UnexpiredByRecency(w.cache.entries, now, w.history);
    case _ =>
  }

  /** In every reachable state the list is ordered by recency and within its bound. */
  lemma {:induction false} RunKeepsInv(w: World, ops: seq<Op>)
    requires Inv(w)
    ensures Inv(Run(w, ops))
    decreases |ops|
  {
    if ops != [] {
      StepKeepsInv(w, ops[0]);
      RunKeepsInv(World(Step(w.cache, ops[0]), w.history + Touched(w.cache, ops[0])), ops[1..]);
    }
  }

  function Ids(s: seq<Entry>): set<MessageId> {
    if s == [] then {} else {s[0].id} + Ids(s[1..])
  }

  lemma {:induction false} IdsCount(s: seq<Entry>)
    requires forall i, j :: 0 <= i < j < |s| ==> s[i].id != s[j].id
    ensures |Ids(s)| == |s|
    ensures forall id :: id in Ids(s) <==> Holds(s, id)
  {
    if s != [] {
      IdsCount(s[1..]);
      forall i | 0 <= i < |s[1..]| ensures s[1..][i].id != s[0].id { assert s[1..][i] == s[i + 1]; }
      forall id | Holds(s, id) && id != s[0].id ensures Holds(s[1..], id) {
        var i :| 0 <= i < |s| && s[i].id == id;
        assert s[1..][i - 1].id == id;
      }
      forall id | Holds(s[1..], id) ensures Holds(s, id) {
        var i :| 0 <= i < |s[1..]| && s[1..][i].id == id;
        assert s[i + 1].id == id;
      }
    }
  }

  /** Messages touched from position `k` of a history on. */
  function TouchedSince(history: seq<MessageId>, k: nat): set<MessageId>
    requires k <= |history|
  {
    set i | k <= i < |history| :: history[i]
  }

  lemma {:induction false} SubsetCount<T>(a: set<T>, b: set<T>)
    requires a <= b
    ensures |a| <= |b|
  {
    if a != {} {
      var x :| x in a;
      SubsetCount(a - {x}, b - {x});
    }
  }

  /** An insertion keeps a message it brings in, and one that is not the last of a full list that
      lacks the incoming message. */
  lemma {:induction false} KeptByInsertion(c: Cache, id: MessageId, expiry: int, i: nat)
    requires i < |c.entries|
    requires c.entries[i].id == id || Holds(c.entries, id) || i < |c.entries| - 1 || |c.entries| < c.maxSize
    ensures Holds(PutInFront(c, id, expiry).entries, c.entries[i].id)
  {
    var s, r := c.entries, PutInFront(c, id, expiry).entries;
    assert r[0].id == id;
    if s[i].id != id {
      var rest := r[1..];
      WithoutMembers(s, id);
      assert s[i] in rest by {
        if !Holds(s, id) { assert rest == if |s| < c.maxSize then s else s[..|s| - 1]; }
      }
      var j :| 0 <= j < |rest| && rest[j] == s[i];
      assert r[j + 1].id == s[i].id;
    }
  }

  /** An insertion drops no message but the last one of a full list that lacks the incoming one. */
  lemma {:induction false} DroppedIsLast(c: Cache, id: MessageId, expiry: int, victim: MessageId)
    requires |c.entries| <= c.maxSize
    requires Holds(c.entries, victim) && !Holds(PutInFront(c, id, expiry).entries, victim)
    ensures |c.entries| == c.maxSize && !Holds(c.entries, id) && victim == c.entries[|c.entries| - 1].id
  {
    hide PutInFront;
    var s := c.entries;
    var i :| 0 <= i < |s| && s[i].id == victim;
    if s[i].id == id || Holds(s, id) || i < |s| - 1 || |s| < c.maxSize {
      KeptByInsertion(c, id, expiry, i);
    }
  }

  /** LRU retention: after any run of a new cache, an insertion makes an unexpired message go
      only when at least `maxSize` distinct other messages, the incoming one included, have been
      touched since that message's own last touch. */
  lemma {:induction false} LruRetention(
      maxSize: nat, ttl: int, start: int, ops: seq<Op>, id: MessageId, expiry: int, now: int, victim: MessageId)
    requires maxSize > 0
    requires var c := Run(World(NewCache(maxSize, ttl, start), []), ops).cache;
      Holds(Swept(c, now).entries, victim) && !Holds(InsertAt(c, id, expiry, now).entries, victim)
    ensures var h := Run(World(NewCache(maxSize, ttl, start), []), ops).history;
      var others := TouchedSince(h + [id], LastTouch(h, victim));
      && LastTouch(h, victim) > 0 && victim !in others
      && id in others && |others| >= maxSize
  {
    var w0 := World(NewCache(maxSize, ttl, start), []);
    RunKeepsInv(w0, ops);
    RunKeepsSize(w0, ops);
    var w := Run(w0, ops);
    SweptKeepsInv(w, now);
    var swept := Swept(w.cache, now);
    hide Run, LastTouch, TouchedSince, Holds, ByRecency, PutInFront;
    DroppedIsLast(swept, id, expiry, victim);
    EvictionNeedsTouches(World(swept, w.history), id);
  }

  lemma {:induction false} RunKeepsSize(w: World, ops: seq<Op>)
    ensures Run(w, ops).cache.maxSize == w.cache.maxSize
    decreases |ops|
  {
    if ops != [] {
      RunKeepsSize(World(Step(w.cache, ops[0]), w.history + Touched(w.cache, ops[0])), ops[1..]);
    }
  }

  lemma {:induction false} EvictionNeedsTouches(w: World, id: MessageId)
    requires Inv(w) && |w.cache.entries| == w.cache.maxSize && !Holds(w.cache.entries, id)
    ensures var victim := w.cache.entries[|w.cache.entries| - 1].id;
      var others := TouchedSince(w.history + [id], LastTouch(w.history, victim));
      && LastTouch(w.history, victim) > 0 && victim !in others
      && id in others && |others| >= w.cache.maxSize
  {
    var s, h := w.cache.entries, w.history;
    var last := |s| - 1;
    var kept := Ids(s[..last]);
    var others := TouchedSince(h + [id], LastTouch(h, s[last].id));
    KeptTouched(s, h, id);
    IdsCount(s[..last]);
    assert (h + [id])[|h|] == id;
    assert s[last].id != id;
    SubsetCount(kept + {id}, others);
  }

  /** Of two touched messages, the later one was touched after the other's last touch. */
  lemma {:induction false} TouchedLater(h: seq<MessageId>, id: MessageId, earlier: MessageId, later: MessageId)
    requires LastTouch(h, earlier) < LastTouch(h, later)
    ensures later in TouchedSince(h + [id], LastTouch(h, earlier))
  {
    assert (h + [id])[LastTouch(h, later) - 1] == later;
  }

  lemma {:induction false} KeptTouched(s: seq<Entry>, h: seq<MessageId>, id: MessageId)
    requires s != [] && ByRecency(s, h)
    ensures Ids(s[..|s| - 1]) <= TouchedSince(h + [id], LastTouch(h, s[|s| - 1].id))
  {
    var kept := s[..|s| - 1];
    IdsCount(kept);
    hide LastTouch, Ids, TouchedSince;
    forall x | x in Ids(kept) ensures x in TouchedSince(h + [id], LastTouch(h, s[|s| - 1].id)) {
      var i :| 0 <= i < |kept| && kept[i].id == x;
      TouchedLater(h, id, s[|s| - 1].id, s[i].id);
    }
  }

  // ------------------------------------------------------- one operation, in full

  /** Dropping the expired entries goes entry by entry and keeps the order: an entry is dropped when
      the clock is past its expiry. */
  lemma {:induction false} ExpiryLaw(s: seq<Entry>, t: seq<Entry>, e: Entry, now: int)
    ensures Unexpired(s + t, now) == Unexpired(s, now) + Unexpired(t, now)
    ensures Unexpired([e], now) == if now > e.expiry then [] else [e]
    ensures e in Unexpired(s, now) <==> e in s && now <= e.expiry
    decreases |s|
  {
    UnexpiredMembers(s, now);
    assert [e][1..] == [];
    if s == [] {
      assert s + t == t;
    } else {
      ExpiryLaw(s[1..], t, e, now);
      assert (s + t)[1..] == s[1..] + t;
    }
  }

  predicate Due(c: Cache, now: int) {
    c.cleanupInterval > 0 && c.nextCleanup != Never && c.nextCleanup.time <= now
  }

  /** The automatic cleanup: when it is due exactly the unexpired entries remain, in order, the
      others are counted, and the next one is due an interval later; otherwise nothing happens. */
  lemma {:induction false} SweepLaw(c: Cache, now: int)
    ensures var swept := Swept(c, now);
      && (!Due(c, now) ==> swept == c)
      && (Due(c, now) ==>
            && swept.entries == Unexpired(c.entries, now)
            && swept == c.(entries := swept.entries, lastCleanup := now, nextCleanup := At(now + c.cleanupInterval),
                           expiredRemovals := c.expiredRemovals + |c.entries| - |swept.entries|))
  {
  }

  ghost predicate OneEach(s: seq<Entry>) {
    forall i, j :: 0 <= i < j < |s| ==> s[i].id != s[j].id
  }

  lemma {:induction false} DistinctEntries(s: seq<Entry>, e: Entry, f: Entry)
    requires OneEach(s) && e in s && f in s && e.id == f.id
    ensures e == f
  {
  }

  lemma {:induction false} RecencyIsDistinct(s: seq<Entry>, history: seq<MessageId>)
    requires ByRecency(s, history)
    ensures OneEach(s)
  {
    hide LastTouch;
  }

  /** A lookup finds a message exactly when the cache has an unexpired entry for it. */
  lemma {:induction false} FoundIff(c: Cache, id: MessageId, now: int)
    requires OneEach(c.entries)
    ensures ContainsAt(c, id, now).1 <==> exists e: Entry :: e in c.entries && e.id == id && now <= e.expiry
  {
    SweptIsDistinct(c, now);
    UnexpiredMembers(c.entries, now);
    var s := Swept(c, now).entries;
    if Holds(s, id) {
      var held := Lookup(s, id);
      forall e | e in c.entries && e.id == id ensures e == held { DistinctEntries(c.entries, e, held); }
    } else {
      forall e | e in c.entries && e.id == id ensures now > e.expiry {
        if e in s { MemberHolds(s, e); }
      }
    }
  }

  lemma {:induction false} MemberHolds(s: seq<Entry>, e: Entry)
    requires e in s
    ensures Holds(s, e.id)
  {
    var i :| 0 <= i < |s| && s[i] == e;
  }

  lemma {:induction false} UnexpiredIsDistinct(s: seq<Entry>, now: int)
    requires OneEach(s)
    ensures OneEach(Unexpired(s, now))
  {
    if s != [] {
      UnexpiredIsDistinct(s[1..], now);
      UnexpiredMembers(s[1..], now);
      var rest := Unexpired(s[1..], now);
      forall i | 0 <= i < |rest| ensures rest[i].id != s[0].id { assert rest[i] in s[1..]; }
    }
  }

  lemma {:induction false} SweptIsDistinct(c: Cache, now: int)
    requires OneEach(c.entries)
    ensures OneEach(Swept(c, now).entries)
  {
    UnexpiredIsDistinct(c.entries, now);
  }

  /** After a lookup that finds it, the entry is in front, unchanged; after one that does not, the
      message has no entry. No other entry is touched but by a due cleanup. */
  lemma {:induction false} FindLaw(c: Cache, id: MessageId, now: int)
    requires OneEach(c.entries)
    ensures var (after, found) := ContainsAt(c, id, now);
      && (found ==> after.entries != [] && after.entries[0] in c.entries && after.entries[0].id == id)
      && (!found ==> forall e :: e in after.entries ==> e.id != id)
      && (forall e: Entry :: e.id != id ==>
            (e in after.entries <==> e in c.entries && (Due(c, now) ==> now <= e.expiry)))
      && after.hits == c.hits + (if found then 1 else 0) && after.misses == c.misses + (if found then 0 else 1)
  {
    UnexpiredMembers(c.entries, now);
    WithoutMembers(Swept(c, now).entries, id);
    var s := Swept(c, now).entries;
    if !Holds(s, id) {
      forall e | e in s ensures e.id != id {
        var i :| 0 <= i < |s| && s[i] == e;
      }
    }
  }

  /** After an insertion its entry is in front with its expiry, and every other entry was there
      before. */
  lemma {:induction false} InsertLaw(c: Cache, id: MessageId, expiry: int, now: int)
    ensures var after := InsertAt(c, id, expiry, now);
      && after.entries != [] && after.entries[0] == Entry(id, expiry)
      && (forall e: Entry :: e in after.entries[1..] ==> e.id != id && e in c.entries)
      && after.hits == c.hits && after.misses == c.misses
  {
    UnexpiredMembers(c.entries, now);
    WithoutMembers(Swept(c, now).entries, id);
    var s := Swept(c, now).entries;
    if !Holds(s, id) {
      forall e | e in s ensures e.id != id {
        var i :| 0 <= i < |s| && s[i] == e;
      }
    }
  }

  /** An insertion moves an unexpired entry of another message back by at most one place, unless that
      is past the end. */
  lemma {:induction false} KeepsPlace(c: Cache, id: MessageId, expiry: int, now: int, k: nat)
    requires k < |c.entries| && c.entries[k].id != id && now <= c.entries[k].expiry && k + 1 < c.maxSize
    ensures var after := InsertAt(c, id, expiry, now).entries;
      exists i :: 0 <= i <= k + 1 && i < |after| && after[i] == c.entries[k]
  {
    var e, swept := c.entries[k], Swept(c, now);
    var j := UnexpiredPlace(c.entries, now, k);
    var at := if Due(c, now) then j else k;
    var s, after := swept.entries, InsertAt(c, id, expiry, now).entries;
    assert at < |s| && s[at] == e && at <= k;
    var w := WithoutPlace(s, id, at);
    if Holds(s, id) {
      assert after == [Entry(id, expiry)] + Without(s, id);
      assert after[w + 1] == e;
    } else {
      assert after[at + 1] == e;
    }
  }

  lemma {:induction false} UnexpiredPlace(s: seq<Entry>, now: int, k: nat) returns (j: nat)
    requires k < |s| && now <= s[k].expiry
    ensures j <= k && j < |Unexpired(s, now)| && Unexpired(s, now)[j] == s[k]
  {
    if k == 0 {
      j := 0;
    } else {
      j := UnexpiredPlace(s[1..], now, k - 1);
      if !s[0].Expired(now) { j := j + 1; }
    }
  }

  lemma {:induction false} WithoutPlace(s: seq<Entry>, id: MessageId, k: nat) returns (j: nat)
    requires k < |s| && s[k].id != id
    ensures j <= k && j < |Without(s, id)| && Without(s, id)[j] == s[k]
  {
    if k == 0 {
      j := 0;
    } else {
      j := WithoutPlace(s[1..], id, k - 1);
      if s[0].id != id { j := j + 1; }
    }
  }

  /** Once an interval has been set, a cleanup is due exactly when it is positive and has passed. */
  lemma {:induction false} IntervalDecides(c: Cache, interval: int, at: int, now: int)
    ensures Due(IntervalSet(c, interval, at), now) <==> interval > 0 && now - at >= interval
    ensures IntervalSet(c, interval, at).entries == c.entries
  {
  }

  /** When a cleanup is due, an insertion drops an unexpired message only if the cache is full of
      unexpired ones. */
  lemma {:induction false} CleanupSparesLive(c: Cache, id: MessageId, expiry: int, now: int, e: Entry)
    requires |c.entries| <= c.maxSize && Due(c, now)
    requires e in c.entries && now <= e.expiry && !Holds(InsertAt(c, id, expiry, now).entries, e.id)
    ensures |Unexpired(c.entries, now)| == c.maxSize
  {
    UnexpiredMembers(c.entries, now);
    var swept := Swept(c, now);
    var i :| 0 <= i < |swept.entries| && swept.entries[i] == e;
    assert Holds(swept.entries, e.id);
    DroppedIsLast(swept, id, expiry, e.id);
  }

  // ------------------------------------------------------- the counters balance

  function FindsIn(ops: seq<Op>): nat
    decreases |ops|
  {
    if ops == [] then 0 else (if ops[0].Find? then 1 else 0) + FindsIn(ops[1..])
  }

  /** How many lookups of a run find their message. */
  function HitsIn(c: Cache, ops: seq<Op>): nat
    decreases |ops|
  {
    if ops == [] then 0
    else
      (if ops[0].Find? && ContainsAt(c, ops[0].id, ops[0].now).1 then 1 else 0) + HitsIn(Step(c, ops[0]), ops[1..])
  }

  /** Entries taken out by name or all at once, which no counter counts. */
  function TakenBy(c: Cache, op: Op): int {
    if op.Remove? || op.Clear? then |c.entries| - |Step(c, op).entries| else 0
  }

  function TakenIn(c: Cache, ops: seq<Op>): int
    decreases |ops|
  {
    if ops == [] then 0 else TakenBy(c, ops[0]) + TakenIn(Step(c, ops[0]), ops[1..])
  }

  /** Entries present or accounted for, less those inserted. */
  function Account(c: Cache): int {
    |c.entries| + c.evictions + c.expiredRemovals - c.insertions
  }

  lemma {:induction false} HeldByTail(s: seq<Entry>, id: MessageId)
    requires s != []
    ensures Holds(s, id) <==> s[0].id == id || Holds(s[1..], id)
  {
    if Holds(s, id) {
      var i :| 0 <= i < |s| && s[i].id == id;
      if i > 0 { assert s[1..][i - 1].id == id; }
    }
    if Holds(s[1..], id) {
      var i :| 0 <= i < |s[1..]| && s[1..][i].id == id;
      assert s[i + 1].id == id;
    }
  }

  lemma {:induction false} FirstOnce(s: seq<Entry>)
    requires s != [] && OneEach(s)
    ensures !Holds(s[1..], s[0].id)
  {
    forall i | 0 <= i < |s[1..]| ensures s[1..][i].id != s[0].id { assert s[1..][i] == s[i + 1]; }
  }

  lemma {:induction false} WithoutOne(s: seq<Entry>, id: MessageId)
    requires OneEach(s)
    ensures |Without(s, id)| == |s| - if Holds(s, id) then 1 else 0
  {
    if s != [] {
      WithoutOne(s[1..], id);
      HeldByTail(s, id);
      FirstOnce(s);
      hide Holds;
    }
  }

  lemma {:induction false} StepBalances(c: Cache, op: Op)
    requires OneEach(c.entries)
    ensures var after := Step(c, op);
      && Account(after) == Account(c) - TakenBy(c, op)
      && after.hits + after.misses == c.hits + c.misses + (if op.Find? then 1 else 0)
      && after.hits == c.hits + if op.Find? && ContainsAt(c, op.id, op.now).1 then 1 else 0
  {
    if op.Find? || op.Insert? {
      SweptIsDistinct(c, op.now);
      WithoutOne(Swept(c, op.now).entries, op.id);
      hide Without, Unexpired, OneEach;
    }
  }

  /** Over every run from any orderly cache: lookups are hits and misses, hits are the lookups that
      answered true, and what was inserted is there, evicted, expired or taken out. */
  lemma {:induction false} CountersBalance(w: World, ops: seq<Op>)
    requires Inv(w)
    ensures var c, after := w.cache, Run(w, ops).cache;
      && Account(after) == Account(c) - TakenIn(c, ops)
      && after.hits + after.misses == c.hits + c.misses + FindsIn(ops)
      && after.hits == c.hits + HitsIn(c, ops)
    decreases |ops|
  {
    if ops != [] {
      RecencyIsDistinct(w.cache.entries, w.history);
      StepBalances(w.cache, ops[0]);
      StepKeepsInv(w, ops[0]);
      hide Step, ContainsAt, Inv, Touched, Account, TakenBy;
      CountersBalance(World(Step(w.cache, ops[0]), w.history + Touched(w.cache, ops[0])), ops[1..]);
    }
  }
}
