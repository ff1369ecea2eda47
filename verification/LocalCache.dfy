/** The local cache of the deduplication component: an index over an LRU list with expiry.

    The specification is a plain list of entries, most recently used first. The class keeps
    what the C++ keeps: list nodes with a stable identity and an index from keys to nodes.
    Every operation takes one clock reading. */
module LocalCache {
  import opened MessageKeys

  datatype Entry = Entry(id: MessageId, expiry: int) {
    predicate Expired(now: int) {
      now > expiry
    }
  }

  /** When the automatic cleanup is due. */
  datatype Deadline = Never | At(time: int)

  datatype Cache = Cache(
    maxSize: nat, ttl: int, entries: seq<Entry>,
    hits: nat, misses: nat, insertions: nat, evictions: nat, expiredRemovals: nat,
    cleanupInterval: int, lastCleanup: int, nextCleanup: Deadline)

  const DEFAULT_CLEANUP_INTERVAL := 300000

  function NewCache(maxSize: nat, ttl: int, now: int): Cache {
    Cache(maxSize, ttl, [], 0, 0, 0, 0, 0, DEFAULT_CLEANUP_INTERVAL, now, At(now + DEFAULT_CLEANUP_INTERVAL))
  }

  // ---------------------------------------------------------------- naive list

  predicate Holds(s: seq<Entry>, id: MessageId) {
    exists i :: 0 <= i < |s| && s[i].id == id
  }

  /** The entry of `id`. */
  function Lookup(s: seq<Entry>, id: MessageId): (e: Entry)
    requires Holds(s, id)
    ensures e in s && e.id == id
  {
    if s[0].id == id then s[0] else Lookup(s[1..], id)
  }

  function Without(s: seq<Entry>, id: MessageId): (r: seq<Entry>)
    ensures |r| <= |s|
  {
    if s == [] then []
    else if s[0].id == id then Without(s[1..], id)
    else [s[0]] + Without(s[1..], id)
  }

  function Unexpired(s: seq<Entry>, now: int): (r: seq<Entry>)
    ensures |r| <= |s|
  {
    if s == [] then []
    else if s[0].Expired(now) then Unexpired(s[1..], now)
    else [s[0]] + Unexpired(s[1..], now)
  }

  function CleanedUp(c: Cache, now: int): Cache {
    var live := Unexpired(c.entries, now);
    c.(entries := live, expiredRemovals := c.expiredRemovals + |c.entries| - |live|)
  }

  /** The automatic cleanup that insertions and lookups start with. */
  function Swept(c: Cache, now: int): Cache {
    if c.cleanupInterval > 0 && c.nextCleanup.At? && now >= c.nextCleanup.time
    then CleanedUp(c, now).(lastCleanup := now, nextCleanup := At(now + c.cleanupInterval))
    else c
  }

  function LookedUp(s: Cache, id: MessageId, now: int): (Cache, bool) {
    if !Holds(s.entries, id) then (s.(misses := s.misses + 1), false)
    else
      var e, rest := Lookup(s.entries, id), Without(s.entries, id);
      if e.Expired(now)
      then (s.(entries := rest, expiredRemovals := s.expiredRemovals + 1, misses := s.misses + 1), false)
      else (s.(entries := [e] + rest, hits := s.hits + 1), true)
  }

  function ContainsAt(c: Cache, id: MessageId, now: int): (Cache, bool) {
    LookedUp(Swept(c, now), id, now)
  }

  function PutInFront(s: Cache, id: MessageId, expiry: int): Cache {
    if Holds(s.entries, id) then s.(entries := [Entry(id, expiry)] + Without(s.entries, id))
    else if s.entries != [] && |s.entries| >= s.maxSize
    then s.(entries := [Entry(id, expiry)] + s.entries[..|s.entries| - 1],
            evictions := s.evictions + 1, insertions := s.insertions + 1)
    else s.(entries := [Entry(id, expiry)] + s.entries, insertions := s.insertions + 1)
  }

  function InsertAt(c: Cache, id: MessageId, expiry: int, now: int): Cache {
    PutInFront(Swept(c, now), id, expiry)
  }

  function RemoveFrom(c: Cache, id: MessageId): Cache {
    c.(entries := Without(c.entries, id))
  }

  function IntervalSet(c: Cache, interval: int, now: int): Cache {
    c.(cleanupInterval := interval, nextCleanup := if interval > 0 then At(now + interval) else Never)
  }

  // ---------------------------------------------------------------- nodes

  /** A list node; `std::list` iterators are references to it. */
  class Node {
    const id: MessageId
    var expiry: int

    constructor (id: MessageId, expiry: int)
      ensures this.id == id && this.expiry == expiry
    {
      this.id, this.expiry := id, expiry;
    }

    function Key(): string {
      CacheKey(id)
    }
  }

  /** What a list of nodes stores. */
  ghost function Contents(l: seq<Node>): (r: seq<Entry>)
    reads l
    ensures |r| == |l|
    ensures forall i :: 0 <= i < |l| ==> r[i] == Entry(l[i].id, l[i].expiry)
  {
    if l == [] then [] else [Entry(l[0].id, l[0].expiry)] + Contents(l[1..])
  }

  /** Erases a node, leaving the others where they are. */
  function Unlinked(l: seq<Node>, n: Node): seq<Node> {
    if l == [] then [] else if l[0] == n then l[1..] else [l[0]] + Unlinked(l[1..], n)
  }

  /** Moves a node to the front; the others keep their order. */
  function Spliced(l: seq<Node>, n: Node): seq<Node> {
    [n] + Unlinked(l, n)
  }

  ghost predicate DistinctIds(l: seq<Node>) {
    forall i, j :: 0 <= i < j < |l| ==> l[i].id != l[j].id
  }

  lemma {:induction false} WithoutAbsent(s: seq<Entry>, id: MessageId)
    requires !Holds(s, id)
    ensures Without(s, id) == s
  {
    if s != [] {
      assert s[0].id != id;
      forall i | 0 <= i < |s[1..]| ensures s[1..][i].id != id { assert s[1..][i] == s[i + 1]; }
      WithoutAbsent(s[1..], id);
    }
  }

  lemma {:induction false} ErasedMembers(l: seq<Node>, i: nat)
    requires i < |l| && DistinctIds(l)
    ensures var r := l[..i] + l[i + 1..];
      && DistinctIds(r)
      && (forall m :: m in r ==> m in l && m.Key() != l[i].Key())
      && (forall m :: m in l && m != l[i] ==> m in r)
  {
    hide CacheKey;
    var r := l[..i] + l[i + 1..];
    forall m | m in l && m != l[i] ensures m in r {
      var j :| 0 <= j < |l| && l[j] == m;
      assert r[if j < i then j else j - 1] == m;
    }
    forall m | m in r ensures m in l && m.Key() != l[i].Key() {
      var j :| 0 <= j < |r| && r[j] == m;
      assert m == l[if j < i then j else j + 1];
      CacheKeyIdentifies(m.id, l[i].id);
    }
  }

  lemma {:induction false} UnlinkedAt(l: seq<Node>, i: nat)
    requires i < |l| && DistinctIds(l)
    ensures Unlinked(l, l[i]) == l[..i] + l[i + 1..]
  {
    if i > 0 {
      assert l[0].id != l[i].id;
      UnlinkedAt(l[1..], i - 1);
    }
  }

  lemma {:induction false} UnlinkedMembers(l: seq<Node>, n: Node)
    requires DistinctIds(l) && n in l
    ensures var r := Unlinked(l, n);
      && DistinctIds(r) && |r| == |l| - 1
      && (forall m :: m in r ==> m in l && m.Key() != n.Key())
      && (forall m :: m in l && m != n ==> m in r)
  {
    var i :| 0 <= i < |l| && l[i] == n;
    UnlinkedAt(l, i);
    ErasedMembers(l, i);
  }

  lemma {:induction false} UnlinkedContents(l: seq<Node>, n: Node)
    requires DistinctIds(l) && n in l
    ensures Contents(Unlinked(l, n)) == Without(Contents(l), n.id)
  {
    assert Contents(l)[1..] == Contents(l[1..]);
    if l[0] == n {
      WithoutAbsent(Contents(l[1..]), n.id);
    } else {
      UnlinkedContents(l[1..], n);
      assert Contents(Unlinked(l, n))[1..] == Contents(Unlinked(l[1..], n));
    }
  }

  // ---------------------------------------------------------------- the cache

  class LocalCache {
    const maxSize: nat
    const ttl: int
    var cacheList: seq<Node>
    var cacheMap: map<string, Node>
    var hits: nat
    var misses: nat
    var insertions: nat
    var evictions: nat
    var expiredRemovals: nat
    var cleanupInterval: int
    var lastCleanup: int
    var nextCleanup: Deadline

    /** The index holds exactly the keys of the listed nodes, each pointing at its own node. */
    ghost predicate Indexed(l: seq<Node>, m: map<string, Node>) {
      && (forall n :: n in l ==> n.Key() in m && m[n.Key()] == n)
      && (forall k :: k in m ==> m[k] in l && m[k].Key() == k)
      && DistinctIds(l)
    }

    ghost predicate Valid()
      reads this`cacheList, this`cacheMap
    {
      0 < maxSize && |cacheList| <= maxSize && Indexed(cacheList, cacheMap)
    }

    ghost function Nodes(): set<Node>
      reads this`cacheList
    {
      set n | n in cacheList
    }

    ghost function State(): Cache
      reads this, cacheList
    {
      Cache(maxSize, ttl, Contents(cacheList), hits, misses, insertions, evictions, expiredRemovals,
            cleanupInterval, lastCleanup, nextCleanup)
    }

    /** The C++ constructor throws for size 0. */
    constructor (maxSize: nat, ttl: int, now: int)
      requires maxSize > 0
      ensures Valid() && State() == NewCache(maxSize, ttl, now)
    {
      this.maxSize, this.ttl := maxSize, ttl;
      cacheList, cacheMap := [], map[];
      hits, misses, insertions, evictions, expiredRemovals := 0, 0, 0, 0, 0;
      cleanupInterval, lastCleanup := DEFAULT_CLEANUP_INTERVAL, now;
      nextCleanup := At(now + DEFAULT_CLEANUP_INTERVAL);
    }

    /** Found in the index exactly when the list holds the message, and then the index
        names its node. */
    lemma {:induction false} LookupAgrees(id: MessageId)
      requires Valid()
      ensures CacheKey(id) in cacheMap <==> Holds(Contents(cacheList), id)
      ensures CacheKey(id) in cacheMap ==>
        var n := cacheMap[CacheKey(id)];
        n in cacheList && n.id == id && Lookup(Contents(cacheList), id) == Entry(n.id, n.expiry)
    {
      if CacheKey(id) in cacheMap {
        var n := cacheMap[CacheKey(id)];
        CacheKeyIdentifies(n.id, id);
        var i :| 0 <= i < |cacheList| && cacheList[i] == n;
        assert Contents(cacheList)[i].id == id;
        var e := Lookup(Contents(cacheList), id);
        var j :| 0 <= j < |cacheList| && Contents(cacheList)[j] == e;
        assert cacheList[j].Key() == CacheKey(id);
      }
      if Holds(Contents(cacheList), id) {
        var i :| 0 <= i < |cacheList| && Contents(cacheList)[i].id == id;
        assert cacheList[i].Key() == CacheKey(id);
      }
    }

    /** Erases the node at a position, and its key. */
    method EraseAt(i: nat)
      requires Valid() && i < |cacheList|
      modifies this`cacheList, this`cacheMap
      ensures Valid() && cacheList == old(cacheList)[..i] + old(cacheList)[i + 1..]
      ensures Nodes() <= old(Nodes())
    {
      ErasedMembers(cacheList, i);
      cacheMap := cacheMap - {cacheList[i].Key()};
      cacheList := cacheList[..i] + cacheList[i + 1..];
    }

    method RemoveExpiredEntries(now: int) returns (removed: nat)
      requires Valid()
      modifies this`cacheList, this`cacheMap, this`expiredRemovals
      ensures Valid() && Nodes() <= old(Nodes())
      ensures State() == CleanedUp(old(State()), now)
      ensures removed == |old(cacheList)| - |cacheList|
    {
      hide Contents, Unexpired, CacheKey, Indexed;
      removed := 0;
      var i := 0;
      ghost var l := cacheList;
      ghost var p := 0;
      while i < |cacheList|
        invariant 0 <= i <= |cacheList| && 0 <= p <= |l|
        invariant cacheList[i..] == l[p..]
        invariant Contents(cacheList[..i]) == Unexpired(Contents(l[..p]), now)
        invariant Valid()
        invariant removed == |l| - |cacheList| == p - i && expiredRemovals == old(expiredRemovals) + removed
        invariant Nodes() <= old(Nodes())
        decreases |l| - p
      {
        SweepStep(l, p, cacheList, i);
        UnexpiredPrefix(l, p, now);
        ContentsPrefix(cacheList, i);
        if now > cacheList[i].expiry {
          EraseAt(i);
          removed := removed + 1;
          expiredRemovals := expiredRemovals + 1;
        } else {
          i := i + 1;
        }
        p := p + 1;
      }
      assert cacheList[..i] == cacheList && l[..p] == l;
    }

    method CheckAndRunCleanup(now: int)
      requires Valid()
      modifies this`cacheList, this`cacheMap, this`expiredRemovals, this`lastCleanup, this`nextCleanup
      ensures Valid() && Nodes() <= old(Nodes())
      ensures State() == Swept(old(State()), now)
    {
      hide Contents, Indexed, Unexpired;
      if cleanupInterval > 0 && nextCleanup.At? && now >= nextCleanup.time {
        var _ := RemoveExpiredEntries(now);
        lastCleanup := now;
        nextCleanup := At(now + cleanupInterval);
      }
    }

    /** Takes a node out of the list and its key out of the index. */
    method Erase(n: Node)
      requires Valid() && n in cacheList
      modifies this`cacheList, this`cacheMap
      ensures Valid() && Nodes() <= old(Nodes())
      ensures Contents(cacheList) == Without(old(Contents(cacheList)), n.id)
    {
      ErasedIndexed(cacheList, cacheMap, n);
      ErasedContents(cacheList, cacheMap, n);
      hide Contents, Without, CacheKey, Unlinked, Indexed;
      cacheList := Unlinked(cacheList, n);
      cacheMap := cacheMap - {n.Key()};
    }

    lemma {:induction false} ErasedIndexed(l: seq<Node>, m: map<string, Node>, n: Node)
      requires Indexed(l, m) && n in l
      ensures Indexed(Unlinked(l, n), m - {n.Key()}) && |Unlinked(l, n)| == |l| - 1
      ensures forall k :: k in Unlinked(l, n) ==> k in l
    {
      UnlinkedMembers(l, n);
      hide CacheKey, Unlinked;
      forall key | key in m && key != n.Key() ensures m[key] in Unlinked(l, n) {
        assert m[key] != n;
      }
    }

    lemma {:induction false} ErasedContents(l: seq<Node>, m: map<string, Node>, n: Node)
      requires Indexed(l, m) && n in l
      ensures Contents(Unlinked(l, n)) == Without(Contents(l), n.id)
    {
      UnlinkedContents(l, n);
      hide Contents, Without, Unlinked;
    }

    method MoveToFront(n: Node)
      requires Valid() && n in cacheList
      modifies this`cacheList
      ensures Valid() && Nodes() <= old(Nodes())
      ensures Contents(cacheList) == [Entry(n.id, n.expiry)] + Without(old(Contents(cacheList)), n.id)
    {
      MovedIndexed(cacheList, cacheMap, n);
      MovedContents(cacheList, cacheMap, n);
      hide Indexed, Without, Contents, Spliced, CacheKey;
      cacheList := Spliced(cacheList, n);
    }

    lemma {:induction false} MovedIndexed(l: seq<Node>, m: map<string, Node>, n: Node)
      requires Indexed(l, m) && n in l
      ensures Indexed(Spliced(l, n), m) && |Spliced(l, n)| == |l|
      ensures forall k :: k in Spliced(l, n) ==> k in l
    {
      hide CacheKey, Unlinked;
      UnlinkedMembers(l, n);
      var rest := Unlinked(l, n);
      forall j | 0 <= j < |rest| ensures rest[j].id != n.id {
        assert rest[j] in rest;
      }
    }

    lemma {:induction false} MovedContents(l: seq<Node>, m: map<string, Node>, n: Node)
      requires Indexed(l, m) && n in l
      ensures Contents(Spliced(l, n)) == [Entry(n.id, n.expiry)] + Without(Contents(l), n.id)
    {
      hide Contents, Without, Unlinked;
      UnlinkedContents(l, n);
      ContentsCons(n, Unlinked(l, n));
    }

    method Contains(id: MessageId, now: int) returns (found: bool)
      requires Valid()
      modifies this
      ensures Valid() && Nodes() <= old(Nodes())
      ensures (State(), found) == ContainsAt(old(State()), id, now)
    {
      hide Contents, LookedUp, Swept, Valid, State;
      CheckAndRunCleanup(now);
      found := LookUp(id, now);
    }

    /** The part of `contains` after the cleanup. */
    method LookUp(id: MessageId, now: int) returns (found: bool)
      requires Valid()
      modifies this
      ensures Valid() && Nodes() <= old(Nodes())
      ensures (State(), found) == LookedUp(old(State()), id, now)
    {
      hide Contents, Without, Lookup, CacheKey, Holds, Indexed;
      LookupAgrees(id);
      var key := CacheKey(id);
      if key !in cacheMap {
        misses := misses + 1;
        return false;
      }
      var n := cacheMap[key];
      if now > n.expiry {
        Erase(n);
        expiredRemovals := expiredRemovals + 1;
        misses := misses + 1;
        return false;
      }
      MoveToFront(n);
      hits := hits + 1;
      return true;
    }

    /** Drops the least recently used entry; false when there is none. */
    method EvictLRU() returns (evicted: bool)
      requires Valid()
      modifies this`cacheList, this`cacheMap, this`evictions
      ensures Valid() && evicted == (old(cacheList) != [])
      ensures evicted ==> cacheList == old(cacheList)[..|old(cacheList)| - 1] && evictions == old(evictions) + 1
      ensures !evicted ==> unchanged(this)
    {
      if cacheList == [] {
        return false;
      }
      var last := |cacheList| - 1;
      var lru := cacheList[last];
      cacheMap := cacheMap - {lru.Key()};
      ghost var before := cacheList;
      cacheList := cacheList[..last];
      assert before[..last] + before[last + 1..] == cacheList;
      ErasedMembers(before, last);
      evictions := evictions + 1;
      return true;
    }

    /** Refreshes the entry if there is one, else adds it in front, evicting the least
        recently used entry when the cache is full. */
    method Insert(id: MessageId, expiry: int, now: int) returns (inserted: bool)
      requires Valid()
      modifies this, Nodes()
      ensures Valid() && inserted && fresh(Nodes() - old(Nodes()))
      ensures State() == InsertAt(old(State()), id, expiry, now)
    {
      hide Contents, PutInFront, Swept, Valid, State;
      CheckAndRunCleanup(now);
      inserted := Put(id, expiry);
    }

    /** The part of `insert` after the cleanup. */
    method Put(id: MessageId, expiry: int) returns (inserted: bool)
      requires Valid()
      modifies this, Nodes()
      ensures Valid() && inserted && fresh(Nodes() - old(Nodes()))
      ensures State() == PutInFront(old(State()), id, expiry)
    {
      hide Contents, Without, CacheKey, Indexed;
      LookupAgrees(id);
      var key := CacheKey(id);
      if key in cacheMap {
        Refresh(cacheMap[key], expiry);
        return true;
      }
      if |cacheList| >= maxSize {
        ghost var before := cacheList;
        var evicted := EvictLRU();
        PrefixContents(before, |before| - 1);
      }
      AddFront(id, expiry);
      return true;
    }

    /** Gives the node a new expiry and moves it to the front. */
    method Refresh(n: Node, expiry: int)
      requires Valid() && n in cacheList
      modifies this`cacheList, n
      ensures Valid() && Nodes() <= old(Nodes())
      ensures Contents(cacheList) == [Entry(n.id, expiry)] + Without(old(Contents(cacheList)), n.id)
    {
      hide Contents, Indexed, Without;
      ghost var before := Contents(cacheList);
      n.expiry := expiry;
      WithoutIgnores(before, Contents(cacheList), n.id);
      MoveToFront(n);
    }

    /** Adds a node for a message that has none. */
    method AddFront(id: MessageId, expiry: int)
      requires Valid() && |cacheList| < maxSize && !Holds(Contents(cacheList), id)
      modifies this`cacheList, this`cacheMap, this`insertions
      ensures Valid() && fresh(Nodes() - old(Nodes()))
      ensures Contents(cacheList) == [Entry(id, expiry)] + old(Contents(cacheList))
      ensures insertions == old(insertions) + 1
    {
      hide Contents, Indexed, CacheKey, Holds;
      var n := new Node(id, expiry);
      FrontIndexed(cacheList, cacheMap, n);
      ghost var rest := cacheList;
      cacheList := [n] + cacheList;
      assert cacheList[1..] == rest;
      cacheMap := cacheMap[n.Key() := n];
      insertions := insertions + 1;
    }

    lemma {:induction false} FrontIndexed(l: seq<Node>, m: map<string, Node>, n: Node)
      requires Indexed(l, m) && !Holds(Contents(l), n.id)
      ensures Indexed([n] + l, m[n.Key() := n])
    {
      hide CacheKey, Contents;
      forall j | 0 <= j < |l| ensures l[j].id != n.id {
        assert l[j].id == Contents(l)[j].id;
      }
      hide Holds;
      forall k | k in m ensures k != n.Key() {
        CacheKeyIdentifies(m[k].id, n.id);
      }
    }

    method InsertWithTtl(id: MessageId, now: int) returns (inserted: bool)
      requires Valid()
      modifies this, Nodes()
      ensures Valid() && inserted && fresh(Nodes() - old(Nodes()))
      ensures State() == InsertAt(old(State()), id, now + ttl, now)
    {
      hide *;
      inserted := Insert(id, now + ttl, now);
    }

    method Remove(id: MessageId) returns (removed: bool)
      requires Valid()
      modifies this
      ensures Valid() && removed == Holds(old(State()).entries, id)
      ensures State() == RemoveFrom(old(State()), id)
    {
      LookupAgrees(id);
      var key := CacheKey(id);
      if key !in cacheMap {
        WithoutAbsent(Contents(cacheList), id);
        return false;
      }
      Erase(cacheMap[key]);
      return true;
    }

    method Clear()
      requires Valid()
      modifies this
      ensures Valid() && State() == old(State()).(entries := [])
    {
      cacheList := [];
      cacheMap := map[];
    }

    method CleanupExpired(now: int) returns (removed: nat)
      requires Valid()
      modifies this
      ensures Valid() && Nodes() <= old(Nodes())
      ensures State() == CleanedUp(old(State()), now)
      ensures removed == |old(State()).entries| - |State().entries|
    {
      removed := RemoveExpiredEntries(now);
    }

    /** Counts the entries that are not expired, without touching them. */
    method EffectiveSize(now: int) returns (count: nat)
      requires Valid()
      ensures count == |Unexpired(State().entries, now)|
    {
      count := 0;
      for i := 0 to |cacheList|
        invariant count == |Unexpired(Contents(cacheList[..i]), now)|
      {
        hide Contents, Unexpired, Valid;
        UnexpiredPrefix(cacheList, i, now);
        if !(now > cacheList[i].expiry) {
          count := count + 1;
        }
      }
      assert cacheList[..|cacheList|] == cacheList;
    }

    method SetCleanupInterval(interval: int, now: int)
      requires Valid()
      modifies this
      ensures Valid() && State() == IntervalSet(old(State()), interval, now)
    {
      cleanupInterval := interval;
      nextCleanup := if interval > 0 then At(now + interval) else Never;
    }
  }

  lemma {:induction false} ContentsCons(n: Node, l: seq<Node>)
    ensures Contents([n] + l) == [Entry(n.id, n.expiry)] + Contents(l)
  {
    assert ([n] + l)[1..] == l;
  }

  lemma {:induction false} ContentsPrefix(l: seq<Node>, i: nat)
    requires i < |l|
    ensures Contents(l[..i + 1]) == Contents(l[..i]) + [Entry(l[i].id, l[i].expiry)]
  {
  }

  /** One step of a sweep that has come to position `p` of `l` and position `i` of what is left. */
  lemma {:induction false} SweepStep(l: seq<Node>, p: nat, left: seq<Node>, i: nat)
    requires p <= |l| && i < |left| && left[i..] == l[p..]
    ensures p < |l| && left[i] == l[p] && left[i + 1..] == l[p + 1..]
    ensures var erased := left[..i] + left[i + 1..];
      erased[..i] == left[..i] && erased[i..] == l[p + 1..]
  {
    assert left[i..][0] == l[p..][0];
    assert left[i..][1..] == l[p..][1..];
  }

  lemma {:induction false} UnexpiredPrefix(l: seq<Node>, p: nat, now: int)
    requires p < |l|
    ensures Unexpired(Contents(l[..p + 1]), now)
      == Unexpired(Contents(l[..p]), now) + if now > l[p].expiry then [] else [Entry(l[p].id, l[p].expiry)]
  {
    hide Unexpired;
    ContentsPrefix(l, p);
    UnexpiredSnoc(Contents(l[..p]), Entry(l[p].id, l[p].expiry), now);
  }

  lemma {:induction false} PrefixContents(l: seq<Node>, k: nat)
    requires k <= |l|
    ensures Contents(l[..k]) == Contents(l)[..k]
  {
  }

  lemma {:induction false} UnexpiredSnoc(s: seq<Entry>, e: Entry, now: int)
    ensures Unexpired(s + [e], now) == Unexpired(s, now) + (if e.Expired(now) then [] else [e])
  {
    if s != [] {
      assert (s + [e])[1..] == s[1..] + [e];
      UnexpiredSnoc(s[1..], e, now);
    }
  }

  /** `Without` does not look at what it drops. */
  lemma {:induction false} WithoutIgnores(s: seq<Entry>, t: seq<Entry>, id: MessageId)
    requires |s| == |t|
    requires forall i :: 0 <= i < |s| ==> s[i].id == t[i].id && (s[i].id != id ==> s[i] == t[i])
    ensures Without(s, id) == Without(t, id)
  {
    if s != [] { WithoutIgnores(s[1..], t[1..], id); }
  }
}
