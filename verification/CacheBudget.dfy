/** The stores and the budget manager of python/mlx_worker/batching.py as objects, with the
    vision cache of python/mlx_worker/vlm_engine.py as a second kind of budgeted store. */
module CacheBudget {
  import opened Basics
  import opened PromptCache
  import opened Budget

  // ------------------------------------------------------ the vision cache

  class VisionFeatureCache {
    const maxEntries: int
    const maxBytes: int
    const manager: CacheBudgetManager?
    const available: bool
    var entries: seq<VisionEntry>
    var bytes: nat
    var evictions: nat

    ghost predicate Valid()
      reads this
    {
      bytes == VisionBytes(entries) && (!available ==> entries == [])
    }

    ghost function State(): VisionState
      reads this
    {
      VisionState(entries, evictions)
    }

    constructor (maxEntries: int, maxBytes: int, available: bool, manager: CacheBudgetManager?)
      requires manager != null ==> manager.Valid()
      modifies manager
      ensures Valid() && State() == VisionState([], 0) && this.available == available
      ensures this.manager == manager && this.maxEntries == maxEntries && this.maxBytes == maxBytes
      ensures manager != null ==> manager.Valid() && manager.stores == old(manager.stores) + [Vision(this)]
      ensures manager != null ==> Step(old(manager.State()), Join(VisionContents(State())), manager.State())
    {
      this.maxEntries, this.maxBytes, this.manager := maxEntries, maxBytes, manager;
      this.available := available;
      entries, bytes, evictions := [], 0, 0;
      new;
      if manager != null {
        manager.Register(Vision(this));
      }
    }

    method RecomputeBytes()
      modifies this`bytes
      ensures bytes == if available then VisionBytes(entries) else 0
    {
      if !available {
        bytes := 0;
        return;
      }
      var i := |entries|;
      bytes := 0;
      while i > 0
        invariant 0 <= i <= |entries| && bytes == VisionBytes(entries[i..])
      {
        i := i - 1;
        assert entries[i..][1..] == entries[i + 1..];
        bytes := bytes + entries[i].bytes;
      }
    }

    method EvictOldest() returns (evicted: bool)
      requires Valid()
      modifies this
      ensures Valid() && evicted == (old(entries) != [])
      ensures entries == old(entries)[if evicted then 1 else 0..]
      ensures evictions == old(evictions) + (if evicted then 1 else 0)
    {
      if !available {
        return false;
      }
      if entries == [] {
        return false;
      }
      entries := entries[1..];
      evictions := evictions + 1;
      RecomputeBytes();
      return true;
    }

    ghost function Stored(key: string, entryBytes: nat, after: seq<VisionEntry>): VisionState
      reads this
    {
      AfterPut(available, maxEntries, maxBytes, State(), key, entryBytes, after)
    }

    /** The wrapped cache is external: after lists what it holds once it was asked to store the
        key.  A managed cache then makes room over all registered stores. */
    method Put(key: string, entryBytes: nat, after: seq<VisionEntry>) returns (stored: nat)
      requires Valid()
      requires manager != null ==> manager.Valid() && Vision(this) in manager.stores
      modifies this, if manager == null then {} else manager.Footprint()
      ensures Valid()
      ensures stored == if Stores(available, maxBytes, old(State()), key, entryBytes, after) then entryBytes else 0
      ensures manager == null ==> State() == old(Stored(key, entryBytes, after))
      ensures manager != null ==> manager.Valid() && manager.stores == old(manager.stores)
      ensures manager != null ==>
                Step(old(manager.State()), Do(manager.At(Vision(this)), Deposit(available, maxEntries, maxBytes, key, entryBytes, after)),
                     manager.State())
    {
      hide Enforced, Total, Bytes, UsageSum, VisionBytes;
      ghost var at := if manager == null then 0 else manager.At(Vision(this));
      assert manager != null ==> manager.Contents()[at := VisionContents(State())] == manager.Contents();
      if !available {
        return 0;
      }
      if entryBytes <= 0 || entryBytes > maxBytes {
        return 0;
      }
      if |after| == |entries| && !Holds(after, key) {
        return 0;
      }
      Take(key, entryBytes, after);
      if manager != null {
        assert manager.Contents() == old(manager.Contents())[at := VisionContents(old(Stored(key, entryBytes, after)))];
      }
      ApplyBudget();
      return entryBytes;
    }

    /** The cache's own part of storing. */
    method Take(key: string, entryBytes: nat, after: seq<VisionEntry>)
      requires Valid() && Stores(available, maxBytes, State(), key, entryBytes, after)
      modifies this
      ensures Valid()
      ensures State() == old(Stored(key, entryBytes, after))
    {
      var sizeBefore := |entries|;
      entries := after;
      if |entries| == sizeBefore && sizeBefore >= maxEntries {
        evictions := evictions + 1;
      }
      RecomputeBytes();
    }

    /** Hands over to the manager, if there is one. */
    method ApplyBudget()
      requires Valid()
      requires manager != null ==> Vision(this) in manager.stores && manager.ValidBut(this)
      modifies if manager == null then {} else manager.Footprint()
      ensures Valid()
      ensures manager == null ==> State() == old(State())
      ensures manager != null ==> Enforced(old(manager.Contents()), manager.Target(), manager.Contents())
      ensures manager != null ==> manager.Valid() && manager.WithinBudget() && manager.stores == old(manager.stores)
    {
      if manager != null {
        forall j | 0 <= j < |manager.stores| ensures manager.stores[j].Valid() {
          assert manager.stores[j] == Vision(this) || manager.stores[j].Object() != this;
        }
        ghost var at :| 0 <= at < |manager.stores| && manager.stores[at] == Vision(this);
        manager.Enforce();
        assert manager.stores[at].Valid();
      }
    }

    method Clear()
      modifies this
      ensures Valid() && entries == [] && evictions == old(evictions)
      ensures manager != null && old(manager.Valid()) && Vision(this) in manager.stores ==>
                && manager.Valid() && manager.stores == old(manager.stores)
                && Step(old(manager.State()), Do(manager.At(Vision(this)), Wipe), manager.State())
    {
      entries := [];
      bytes := 0;
    }
  }

  // ------------------------------------------------------- the prompt cache

  class PromptCacheStore {
    const maxEntries: int
    const maxBytes: int
    const trim: Trimmer
    const manager: CacheBudgetManager?
    var entries: Entries
    var totalBytes: int
    var stats: Stats
    var statEntries: int
    var statBytes: int

    ghost predicate Valid()
      reads this
    {
      && maxEntries >= 0
      && DistinctKeys(entries)
      && totalBytes == TotalBytes(entries)
      && statEntries == |entries|
      && statBytes == totalBytes
    }

    ghost function State(): Store
      reads this
    {
      Store(maxEntries, maxBytes, entries, stats)
    }

    constructor (maxEntries: int, maxBytes: int, trim: Trimmer, manager: CacheBudgetManager?)
      requires maxEntries >= 0
      requires manager != null ==> manager.Valid()
      modifies manager
      ensures Valid() && State() == Store(maxEntries, maxBytes, [], ZERO_STATS)
      ensures this.trim == trim && this.manager == manager
      ensures manager != null ==> manager.Valid() && manager.stores == old(manager.stores) + [Prompt(this)]
      ensures manager != null ==> Step(old(manager.State()), Join(PromptContents(State())), manager.State())
    {
      this.maxEntries, this.maxBytes, this.trim, this.manager := maxEntries, maxBytes, trim, manager;
      entries, totalBytes, stats := [], 0, ZERO_STATS;
      statEntries, statBytes := 0, 0;
      new;
      if manager != null {
        manager.Register(Prompt(this));
      }
    }

    /** What one entry of the namespace offers; None where the scan goes on to the next. */
    method Consider(stored: CachedPrompt, prompt: seq<Token>) returns (candidate: Option<CachedPrompt>)
      ensures candidate == Candidate(stored, prompt, trim)
    {
      var common := CommonPrefix(stored.tokens, prompt);
      if stored.tokens == prompt {
        return Some(CachedPrompt(prompt, stored.snapshot, stored.bytes, Exact));
      } else if |stored.tokens| < |prompt| && common == |stored.tokens| {
        return Some(CachedPrompt(stored.tokens, stored.snapshot, stored.bytes, ShorterPrefix));
      }
      var reusable := Min(common, |prompt| - 1);
      if reusable <= 0 {
        return None;
      }
      var trimmed := trim(stored.snapshot, |stored.tokens| - reusable);
      if trimmed == None {
        return None;
      }
      return Some(CachedPrompt(prompt[..reusable], trimmed.value, EstimateBytes(trimmed.value), TrimmedLongerPrefix));
    }

    /** The scan from newest to oldest. */
    method FindBest(prompt: seq<Token>, ns: Namespace) returns (best: Option<CachedPrompt>)
      ensures best == Best(entries, ns, prompt, trim)
    {
      best := None;
      var i := |entries|;
      while i > 0
        invariant 0 <= i <= |entries|
        invariant best == Best(entries[i..], ns, prompt, trim)
      {
        i := i - 1;
        var entry := entries[i];
        assert entries[i..][1..] == entries[i + 1..];
        if entry.namespace != ns {
          continue;
        }
        var offered := Consider(entry.cached, prompt);
        if offered == None {
          continue;
        }
        var candidate := offered.value;
        if best == None || |candidate.tokens| > |best.value.tokens| {
          best := Some(candidate);
        }
      }
      assert entries[0..] == entries;
    }

    /** The longest cached prefix for the prompt, if any. */
    method Lookup(prompt: seq<Token>, ns: Namespace) returns (best: Option<CachedPrompt>)
      requires Valid()
      modifies this`stats
      ensures Valid()
      ensures best == Best(entries, ns, prompt, trim)
      ensures State() == AfterLookup(old(State()), ns, prompt, trim)
      ensures manager != null && old(manager.Valid()) && Prompt(this) in manager.stores ==>
                && manager.Valid() && manager.stores == old(manager.stores)
                && Step(old(manager.State()), Do(manager.At(Prompt(this)), LookUp(ns, prompt, trim)), manager.State())
    {
      hide Best, CountLookup, DistinctKeys, VisionBytes, PromptCache.TotalBytes;
      best := FindBest(prompt, ns);
      stats := CountLookup(stats, best);
    }

    method EvictOldest() returns (evicted: bool)
      requires Valid()
      modifies this
      ensures Valid() && evicted == (old(entries) != [])
      ensures State() == AfterEvict(old(State()))
    {
      if entries == [] {
        return false;
      }
      var oldest := entries[0];
      entries := entries[1..];
      totalBytes := totalBytes - oldest.cached.bytes;
      stats := stats.(evictions := stats.evictions + 1);
      statEntries := |entries|;
      statBytes := totalBytes;
      return true;
    }

    /** The store's own part of remember: replace the key, append, evict down to both limits. */
    method Insert(tokens: seq<Token>, snapshot: Snapshot, ns: Namespace)
      requires Valid() && Storable(snapshot, maxBytes)
      modifies this
      ensures Valid() && State() == AfterRemember(old(State()), ns, tokens, snapshot)
    {
      var bytes := EstimateBytes(snapshot);
      KeyIsGone(entries, ns, tokens);
      var at := IndexOf(entries, ns, tokens);
      if at < |entries| {
        TotalBytesWithout(entries, at);
        totalBytes := totalBytes - entries[at].cached.bytes;
        entries := Without(entries, at);
      }
      TotalBytesAppend(entries, [NewEntry(ns, tokens, snapshot)]);
      assert TotalBytes([NewEntry(ns, tokens, snapshot)]) == bytes;
      entries := entries + [NewEntry(ns, tokens, snapshot)];
      totalBytes := totalBytes + bytes;
      statEntries := |entries|;
      statBytes := totalBytes;
      ghost var all := entries;
      while |entries| > maxEntries || totalBytes > maxBytes
        invariant Valid()
        invariant |entries| <= |all|
        invariant Fit(all, maxEntries, maxBytes) == Fit(entries, maxEntries, maxBytes)
        invariant stats == old(stats).(evictions := old(stats).evictions + |all| - |entries|)
        decreases |entries|
      {
        var _ := EvictOldest();
      }
    }

    /** An unmanaged store ends as AfterRemember says.  A managed one may then lose more of its
        oldest entries to the budget, which holds afterwards over all registered stores. */
    method Remember(tokens: seq<Token>, snapshot: Snapshot, ns: Namespace)
      requires Valid()
      requires manager != null ==> manager.Valid() && Prompt(this) in manager.stores
      modifies this, if manager == null then {} else manager.Footprint()
      ensures Valid()
      ensures manager == null ==> State() == AfterRemember(old(State()), ns, tokens, snapshot)
      ensures manager != null ==> manager.Valid() && manager.stores == old(manager.stores)
      ensures manager != null ==>
                Step(old(manager.State()), Do(manager.At(Prompt(this)), Memorize(ns, tokens, snapshot)), manager.State())
    {
      hide Enforced, Total, Bytes, UsageSum, Refreshed, Fit, PromptCache.TotalBytes;
      ghost var at := if manager == null then 0 else manager.At(Prompt(this));
      assert manager != null ==> manager.Contents()[at := PromptContents(State())] == manager.Contents();
      if snapshot == [] {
        return;
      }
      if EstimateBytes(snapshot) > maxBytes {
        return;
      }
      Insert(tokens, snapshot, ns);
      if manager != null {
        assert manager.Contents() == old(manager.Contents())[at := PromptContents(AfterRemember(old(State()), ns, tokens, snapshot))];
      }
      ApplyBudget();
      // evictions refreshed the reported counts, so refreshing them again changes nothing
      assert statEntries == |entries| && statBytes == totalBytes;
    }

    /** Hands over to the manager, if there is one. */
    method ApplyBudget()
      requires Valid()
      requires manager != null ==> Prompt(this) in manager.stores && manager.ValidBut(this)
      modifies if manager == null then {} else manager.Footprint()
      ensures Valid()
      ensures manager == null ==> State() == old(State())
      ensures manager != null ==> Enforced(old(manager.Contents()), manager.Target(), manager.Contents())
      ensures manager != null ==> manager.Valid() && manager.WithinBudget() && manager.stores == old(manager.stores)
    {
      if manager != null {
        forall j | 0 <= j < |manager.stores| ensures manager.stores[j].Valid() {
          assert manager.stores[j] == Prompt(this) || manager.stores[j].Object() != this;
        }
        ghost var at :| 0 <= at < |manager.stores| && manager.stores[at] == Prompt(this);
        manager.Enforce();
        assert manager.stores[at].Valid();
      }
    }

    method Reset(clearCache: bool, resetCounters: bool)
      requires Valid()
      modifies this
      ensures Valid() && State() == AfterReset(old(State()), clearCache, resetCounters)
      ensures manager != null && old(manager.Valid()) && Prompt(this) in manager.stores ==>
                && manager.Valid() && manager.stores == old(manager.stores)
                && Step(old(manager.State()), Do(manager.At(Prompt(this)), Budget.Reset(clearCache, resetCounters)), manager.State())
    {
      hide VisionBytes, UsageSum, Total, DistinctKeys, AfterReset, PromptCache.TotalBytes;
      ghost var at := if manager != null && Prompt(this) in manager.stores then manager.At(Prompt(this)) else 0;
      ResetOwn(clearCache, resetCounters);
      if manager != null && old(manager.Valid()) && Prompt(this) in manager.stores {
        assert manager.Contents() == old(manager.Contents())[at := PromptContents(State())];
      }
    }

    /** The store's own part of a reset. */
    method ResetOwn(clearCache: bool, resetCounters: bool)
      requires Valid()
      modifies this
      ensures Valid() && State() == AfterReset(old(State()), clearCache, resetCounters)
    {
      if clearCache {
        entries := [];
        totalBytes := 0;
      }
      if resetCounters {
        stats := ZERO_STATS;
      }
      statEntries := |entries|;
      statBytes := totalBytes;
    }
  }

  // ------------------------------------------------------------ the manager

  datatype StoreRef = Prompt(store: PromptCacheStore) | Vision(cache: VisionFeatureCache) {
    ghost function Object(): object {
      match this case Prompt(s) => s case Vision(c) => c
    }

    ghost predicate Valid()
      reads Object()
    {
      match this case Prompt(s) => s.Valid() case Vision(c) => c.Valid()
    }

    function TotalBytes(): int
      reads Object()
    {
      match this case Prompt(s) => s.totalBytes case Vision(c) => c.bytes
    }

    ghost function Contents(): Contents
      reads Object()
    {
      match this case Prompt(s) => PromptContents(s.State()) case Vision(c) => VisionContents(c.State())
    }
  }

  method EvictOldest(r: StoreRef) returns (evicted: bool)
    requires r.Valid()
    modifies r.Object()
    ensures r.Valid() && r.Contents() == Oust(old(r.Contents()), 1)
    ensures evicted == (Count(old(r.Contents())) != 0)
  {
    match r
    case Prompt(s) => evicted := s.EvictOldest();
    case Vision(c) => evicted := c.EvictOldest();
  }

  class CacheBudgetManager {
    const totalBudget: nat
    var stores: seq<StoreRef>
    var active: Usage

    ghost function Footprint(): set<object>
      reads this
    {
      set r <- stores :: r.Object()
    }

    ghost predicate Valid()
      reads this, Footprint()
    {
      && Distinct()
      && forall j | 0 <= j < |stores| :: stores[j].Valid()
    }

    ghost predicate Distinct()
      reads this
    {
      && this !in Footprint()
      && forall i, j | 0 <= i < j < |stores| :: stores[i].Object() != stores[j].Object()
    }

    /** Valid, except that one store is still being changed. */
    ghost predicate ValidBut(o: object)
      reads this, Footprint()
    {
      && Distinct()
      && forall j | 0 <= j < |stores| && stores[j].Object() != o :: stores[j].Valid()
    }

    ghost function Contents(): seq<Contents>
      reads this, Footprint()
    {
      seq(|stores|, j requires 0 <= j < |stores| reads this, Footprint() => stores[j].Contents())
    }

    ghost function State(): Fleet
      reads this, Footprint()
    {
      Fleet(Contents(), active, totalBudget)
    }

    /** Where a store is registered. */
    ghost function At(r: StoreRef): (j: nat)
      requires r in stores
      reads this
      ensures j < |stores| && stores[j] == r
    {
      var j: nat :| j < |stores| && stores[j] == r;
      j
    }

    ghost function Target(): nat
      reads this
    {
      Max(0, totalBudget - UsageSum(active))
    }

    ghost predicate WithinBudget()
      reads this, Footprint()
    {
      Total(Contents()) <= Target()
    }

    constructor (totalBudgetBytes: int)
      ensures Valid() && WithinBudget() && stores == [] && active == []
      ensures totalBudget == Max(0, totalBudgetBytes)
    {
      totalBudget := Max(0, totalBudgetBytes);
      stores, active := [], [];
    }

    method Register(r: StoreRef)
      requires Valid() && r.Valid()
      requires r !in stores ==> r.Object() !in Footprint()
      modifies this`stores
      ensures Valid() && stores == if r in old(stores) then old(stores) else old(stores) + [r]
      ensures Contents() == if r in old(stores) then old(Contents()) else old(Contents()) + [r.Contents()]
    {
      if r !in stores {
        stores := stores + [r];
      }
    }

    function StoredCacheBytes(): int
      reads this, set r <- stores :: r.Object()
    {
      StoredFrom(0)
    }

    function StoredFrom(i: nat): int
      requires i <= |stores|
      reads this, set r <- stores :: r.Object()
      decreases |stores| - i
    {
      if i == |stores| then 0 else stores[i].TotalBytes() + StoredFrom(i + 1)
    }

    lemma {:induction false} StoredIsTotal(i: nat)
      requires Valid() && i <= |stores|
      ensures StoredFrom(i) == Total(Contents()[i..])
      decreases |stores| - i
    {
      if i < |stores| {
        assert stores[i].Valid();
        StoredIsTotal(i + 1);
        assert Contents()[i..][1..] == Contents()[i + 1..];
      }
    }

    /** The reported total is the bytes of everything the registered stores hold. */
    lemma StoredCacheBytesAreExact()
      requires Valid()
      ensures StoredCacheBytes() == Total(Contents())
    {
      StoredIsTotal(0);
      assert Contents()[0..] == Contents();
    }

    /** One store's turn; no other store changes. */
    method EvictTurn(i: nat) returns (evicted: bool)
      requires Valid() && i < |stores|
      modifies stores[i].Object()
      ensures Valid() && evicted == (Count(old(Contents())[i]) != 0)
      ensures Contents() == old(Contents())[i := Oust(old(Contents())[i], 1)]
      ensures Step(old(State()), Do(i, EvictOne), State())
      ensures StoredCacheBytes() == Total(Contents())
    {
      evicted := EvictOldest(stores[i]);
      forall j | 0 <= j < |stores| && j != i
        ensures stores[j].Valid() && stores[j].Contents() == old(stores[j].Contents())
      {
        assert stores[j].Object() != stores[i].Object();
      }
      StoredCacheBytesAreExact();
    }

    /** One pass over the stores in registration order, cut short once the target is met. */
    method EvictionRound(target: nat, ghost q: seq<Contents>, ghost k: nat) returns (evicted: bool, met: bool)
      requires Valid()
      requires Contents() == AfterRounds(q, k, 0) && Total(Contents()) > target && AllTooLarge(q, target, k, 0)
      modifies Footprint()
      ensures Valid() && stores == old(stores)
      ensures met ==> Enforced(q, target, Contents())
      ensures !met ==> Contents() == AfterRounds(q, k + 1, 0) && AllTooLarge(q, target, k + 1, 0)
      ensures !met && evicted ==> CountAll(Contents()) < CountAll(old(Contents()))
      ensures !met && !evicted ==> Contents() == old(Contents()) && Total(Contents()) == 0
    {
      hide AfterRounds, AllTooLarge, Enforced, Bytes, Oust, Total, CountAll, Count, Step;
      evicted, met := false, false;
      ghost var before := Contents();
      ghost var now := before;
      for i := 0 to |stores|
        invariant Valid() && stores == old(stores) && Contents() == now
        invariant now == AfterRounds(q, k, i) && Total(now) > target && AllTooLarge(q, target, k, i)
        invariant if evicted then CountAll(now) < CountAll(before) else now == before && NoneIn(before, i)
      {
        TurnTaken(q, target, k, i);
        var took := EvictTurn(i);
        now := AfterRounds(q, k, i + 1);
        if took {
          evicted := true;
          if StoredCacheBytes() <= target {
            met := true;
            return;
          }
        }
      }
      RoundAboveTarget(q, target, k);
      if !evicted {
        TotalOfEmpty(before);
      }
    }

    /** Evicts round-robin until the stored bytes meet the target, and stops at once there. */
    method Enforce()
      requires Valid()
      modifies Footprint()
      ensures Valid() && WithinBudget()
      ensures Enforced(old(Contents()), Target(), Contents())
    {
      hide AfterRounds, AllTooLarge, Enforced, Total, CountAll, UsageSum;
      ghost var q := Contents();
      ghost var now := q;
      ghost var k := 0;
      var target := Max(0, totalBudget - UsageSum(active));
      RoundWraps(q, 0);
      NothingTooLargeYet(q, target);
      StoredCacheBytesAreExact();
      while StoredCacheBytes() > target
        invariant Valid() && stores == old(stores) && Contents() == now && StoredCacheBytes() == Total(now)
        invariant now == AfterRounds(q, k, 0) && AllTooLarge(q, target, k, 0)
        decreases CountAll(now)
      {
        var evicted, met := EvictionRound(target, q, k);
        if met {
          EnforcedFits(q, target, Contents());
          return;
        }
        now := Contents();
        k := k + 1;
        StoredCacheBytesAreExact();
        if !evicted {
          break;
        }
      }
      StopsHere(q, target, k);
    }

    /** A backend reports the bytes of its running batch, and the stores make room for them. */
    method SetActiveBatchBytes(backend: string, value: int)
      requires Valid()
      modifies this`active, Footprint()
      ensures Valid() && WithinBudget() && stores == old(stores)
      ensures active == SetUsage(old(active), backend, Max(0, value))
      ensures Step(old(State()), Report(backend, value), State())
    {
      ghost var q := Contents();
      active := SetUsage(active, backend, Max(0, value));
      assert Contents() == q;
      Enforce();
    }
  }
}
