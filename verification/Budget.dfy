/** Byte budgets over several stores as values: what the round-robin eviction of
    python/mlx_worker/batching.py comes down to, and what every run of stores under a budget keeps. */
module Budget {
  import opened Basics
  import opened PromptCache

  // ------------------------------------------- what enforcing comes down to

  datatype VisionEntry = VisionEntry(key: string, bytes: nat)

  function VisionBytes(es: seq<VisionEntry>): nat {
    if es == [] then 0 else es[0].bytes + VisionBytes(es[1..])
  }

  /** The bytes of two lists of entries add up. */
  lemma {:induction false} VisionBytesAdd(a: seq<VisionEntry>, b: seq<VisionEntry>)
    ensures VisionBytes(a + b) == VisionBytes(a) + VisionBytes(b)
    ensures |a| == 1 ==> VisionBytes(a) == a[0].bytes
  {
    if a == [] {
      assert a + b == b;
    } else {
      VisionBytesAdd(a[1..], b);
      assert (a + b)[1..] == a[1..] + b;
    }
  }

  datatype VisionState = VisionState(entries: seq<VisionEntry>, evictions: nat)

  predicate Holds(es: seq<VisionEntry>, key: string) {
    exists e <- es :: e.key == key
  }

  /** Whether storing an entry changes anything: the cache exists, the entry has a size within
      the limit, and the wrapped cache took it. */
  predicate Stores(available: bool, maxBytes: int, v: VisionState, key: string, entryBytes: nat, after: seq<VisionEntry>) {
    available && 0 < entryBytes <= maxBytes && (|after| != |v.entries| || Holds(after, key))
  }

  /** The vision cache after storing: what the wrapped cache then holds; a full cache that did
      not grow must have dropped an entry. */
  function AfterPut(available: bool, maxEntries: int, maxBytes: int, v: VisionState, key: string, entryBytes: nat,
                    after: seq<VisionEntry>): VisionState {
    if !Stores(available, maxBytes, v, key, entryBytes, after) then v
    else VisionState(after, v.evictions + (if |after| == |v.entries| && |v.entries| >= maxEntries then 1 else 0))
  }

  /** What a put comes to: nothing unless the cache exists, the entry has a size within the limit,
      and the wrapped cache changed its number of entries or holds the key; then what the wrapped
      cache holds, with an eviction counted exactly when a full cache did not grow. */
  lemma PutIsCounted(available: bool, maxEntries: int, maxBytes: int, v: VisionState, key: string, entryBytes: nat, after: seq<VisionEntry>)
    ensures var taken := available && 0 < entryBytes <= maxBytes && (|after| != |v.entries| || exists e <- after :: e.key == key);
            var full := |after| == |v.entries| && |v.entries| >= maxEntries;
            AfterPut(available, maxEntries, maxBytes, v, key, entryBytes, after)
            == if !taken then v else VisionState(after, if full then v.evictions + 1 else v.evictions)
  {
  }

  /** What a registered store of either kind holds, entries oldest first. */
  datatype Contents = PromptContents(store: Store) | VisionContents(vision: VisionState)

  function Count(c: Contents): nat {
    match c
    case PromptContents(s) => |s.entries|
    case VisionContents(v) => |v.entries|
  }

  function Bytes(c: Contents): nat {
    match c
    case PromptContents(s) => TotalBytes(s.entries)
    case VisionContents(v) => VisionBytes(v.entries)
  }

  /** The store without its n oldest entries (or without any entry, if it has fewer),
      each one counted as an eviction. */
  function Oust(c: Contents, n: nat): Contents {
    var m := Min(n, Count(c));
    match c
    case PromptContents(s) =>
      PromptContents(s.(entries := s.entries[m..], stats := s.stats.(evictions := s.stats.evictions + m)))
    case VisionContents(v) => VisionContents(VisionState(v.entries[m..], v.evictions + m))
  }

  /** The store without its n oldest entries, or none, and so many more evictions counted. */
  ghost predicate LostOldest(c: Contents, c': Contents, n: nat) {
    match (c, c')
    case (PromptContents(s), PromptContents(s')) =>
      var m := if n < |s.entries| then n else |s.entries|;
      s' == s.(entries := s.entries[m..], stats := s.stats.(evictions := s.stats.evictions + m))
    case (VisionContents(v), VisionContents(v')) =>
      var m := if n < |v.entries| then n else |v.entries|;
      v' == VisionState(v.entries[m..], v.evictions + m)
    case _ => false
  }

  lemma OustTakesOldest(c: Contents, n: nat)
    ensures LostOldest(c, Oust(c, n), n) && Count(Oust(c, n)) == Max(0, Count(c) - n)
  {
  }

  lemma OustOneMore(c: Contents, n: nat)
    ensures Oust(c, n + 1) == Oust(Oust(c, n), 1)
    ensures Oust(c, 0) == c
    ensures Count(c) <= n ==> Oust(c, n + 1) == Oust(c, n)
    ensures Bytes(Oust(c, 1)) <= Bytes(c) && Count(Oust(c, 1)) <= Count(c)
  {
    var m := Min(n, Count(c));
    match c
    case PromptContents(s) => assert n < |s.entries| ==> s.entries[m..][1..] == s.entries[m + 1..];
    case VisionContents(v) => assert n < |v.entries| ==> v.entries[m..][1..] == v.entries[m + 1..];
  }

  /** k full rounds of evictions, and one more from each of the first i stores. */
  function AfterRounds(q: seq<Contents>, k: nat, i: nat): (r: seq<Contents>)
    ensures |r| == |q|
  {
    seq(|q|, j requires 0 <= j < |q| => Oust(q[j], if j < i then k + 1 else k))
  }

  function Total(q: seq<Contents>): nat {
    if q == [] then 0 else Bytes(q[0]) + Total(q[1..])
  }

  function CountAll(q: seq<Contents>): nat {
    if q == [] then 0 else Count(q[0]) + CountAll(q[1..])
  }

  ghost predicate AllTooLarge(q: seq<Contents>, target: nat, k: nat, i: nat) {
    forall k': nat, i': nat | i' <= |q| && (k' < k || (k' == k && i' < i)) :: Total(AfterRounds(q, k', i')) > target
  }

  /** (k, i) is the first point of the round-robin order with no more than target bytes left. */
  ghost predicate StopsAt(q: seq<Contents>, target: nat, k: nat, i: nat) {
    i <= |q| && Total(AfterRounds(q, k, i)) <= target && AllTooLarge(q, target, k, i)
  }

  /** Enforcing a target turns the contents q into r. */
  ghost predicate Enforced(q: seq<Contents>, target: nat, r: seq<Contents>) {
    exists k: nat, i: nat :: StopsAt(q, target, k, i) && r == AfterRounds(q, k, i)
  }

  lemma {:induction false} TotalUpdate(q: seq<Contents>, j: nat, c: Contents)
    requires j < |q|
    ensures Total(q[j := c]) == Total(q) - Bytes(q[j]) + Bytes(c)
    ensures CountAll(q[j := c]) == CountAll(q) - Count(q[j]) + Count(c)
  {
    if j == 0 {
      assert q[0 := c][1..] == q[1..];
    } else {
      assert q[j := c][1..] == q[1..][j - 1 := c];
      TotalUpdate(q[1..], j - 1, c);
    }
  }

  predicate NoneIn(q: seq<Contents>, n: nat)
    requires n <= |q|
  {
    forall j | 0 <= j < n :: Count(q[j]) == 0
  }

  lemma {:induction false} TotalOfEmpty(q: seq<Contents>)
    requires NoneIn(q, |q|)
    ensures Total(q) == 0
  {
    if q != [] {
      assert Count(q[0]) == 0;
      TotalOfEmpty(q[1..]);
    }
  }

  lemma TurnReplacesOne(q: seq<Contents>, k: nat, i: nat)
    requires i < |q|
    ensures AfterRounds(q, k, i + 1) == AfterRounds(q, k, i)[i := Oust(q[i], k + 1)]
  {
  }

  /** One turn of one store is one step in the round-robin order. */
  lemma OneTurn(q: seq<Contents>, k: nat, i: nat)
    requires i < |q|
    ensures var now := AfterRounds(q, k, i);
            && AfterRounds(q, k, i + 1) == now[i := Oust(now[i], 1)]
            && CountAll(AfterRounds(q, k, i + 1)) == CountAll(now) - (if Count(now[i]) == 0 then 0 else 1)
  {
    var now := AfterRounds(q, k, i);
    TurnReplacesOne(q, k, i);
    OustOneMore(q[i], k);
    TotalUpdate(now, i, Oust(now[i], 1));
  }

  lemma EmptyTurn(q: seq<Contents>, k: nat, i: nat)
    requires i < |q| && Count(AfterRounds(q, k, i)[i]) == 0
    ensures AfterRounds(q, k, i + 1) == AfterRounds(q, k, i)
  {
    TurnReplacesOne(q, k, i);
    OustOneMore(q[i], k);
  }

  /** What a turn taken above the target leads to. */
  lemma TurnAboveTarget(q: seq<Contents>, target: nat, k: nat, i: nat)
    requires i < |q| && AllTooLarge(q, target, k, i) && Total(AfterRounds(q, k, i)) > target
    ensures AllTooLarge(q, target, k, i + 1)
    ensures Total(AfterRounds(q, k, i + 1)) <= target ==> Enforced(q, target, AfterRounds(q, k, i + 1))
  {
    assert Total(AfterRounds(q, k, i + 1)) <= target ==> StopsAt(q, target, k, i + 1);
  }

  /** One turn of one store, taken above the target. */
  lemma TurnTaken(q: seq<Contents>, target: nat, k: nat, i: nat)
    requires i < |q| && AllTooLarge(q, target, k, i) && Total(AfterRounds(q, k, i)) > target
    ensures var now, next := AfterRounds(q, k, i), AfterRounds(q, k, i + 1);
            && next == now[i := Oust(now[i], 1)]
            && CountAll(next) == CountAll(now) - (if Count(now[i]) == 0 then 0 else 1)
            && (Count(now[i]) == 0 ==> next == now)
            && AllTooLarge(q, target, k, i + 1)
            && (Total(next) <= target ==> Enforced(q, target, next))
  {
    hide AfterRounds, AllTooLarge, Enforced, Total, CountAll, Oust;
    OneTurn(q, k, i);
    TurnAboveTarget(q, target, k, i);
    if Count(AfterRounds(q, k, i)[i]) == 0 {
      EmptyTurn(q, k, i);
    }
  }

  lemma RoundAboveTarget(q: seq<Contents>, target: nat, k: nat)
    requires AllTooLarge(q, target, k, |q|) && Total(AfterRounds(q, k, |q|)) > target
    ensures AfterRounds(q, k, |q|) == AfterRounds(q, k + 1, 0) && AllTooLarge(q, target, k + 1, 0)
  {
    RoundWraps(q, k);
    forall k': nat, i': nat | i' <= |q| && k' < k + 1 ensures Total(AfterRounds(q, k', i')) > target {
      if k' == k && i' == |q| {
      }
    }
  }

  lemma RoundWraps(q: seq<Contents>, k: nat)
    ensures AfterRounds(q, k, |q|) == AfterRounds(q, k + 1, 0)
    ensures AfterRounds(q, 0, 0) == q
  {
    forall j | 0 <= j < |q| ensures Oust(q[j], 0) == q[j] {
      OustOneMore(q[j], 0);
    }
  }

  lemma NothingTooLargeYet(q: seq<Contents>, target: nat)
    ensures AllTooLarge(q, target, 0, 0)
  {}

  lemma StopsHere(q: seq<Contents>, target: nat, k: nat)
    requires AllTooLarge(q, target, k, 0) && Total(AfterRounds(q, k, 0)) <= target
    ensures Enforced(q, target, AfterRounds(q, k, 0))
  {
    assert StopsAt(q, target, k, 0);
  }

  /** Where enforcing stops is determined by the contents and the target alone. */
  lemma EnforcingIsDeterministic(q: seq<Contents>, target: nat, r: seq<Contents>, r': seq<Contents>)
    requires Enforced(q, target, r) && Enforced(q, target, r')
    ensures r == r'
  {
    var k: nat, i: nat :| StopsAt(q, target, k, i) && r == AfterRounds(q, k, i);
    var k': nat, i': nat :| StopsAt(q, target, k', i') && r' == AfterRounds(q, k', i');
  }

  /** Fairness: for some number of rounds, each store lost that many of its oldest entries or
      one more (or all it had), and those that lost one more are the earliest registered. */
  lemma EnforcingIsFair(q: seq<Contents>, target: nat, r: seq<Contents>) returns (k: nat, i: nat)
    requires Enforced(q, target, r)
    ensures |r| == |q| && i <= |q|
    ensures forall j | 0 <= j < i :: LostOldest(q[j], r[j], k + 1) && Count(r[j]) == Max(0, Count(q[j]) - k - 1)
    ensures forall j | i <= j < |q| :: LostOldest(q[j], r[j], k) && Count(r[j]) == Max(0, Count(q[j]) - k)
  {
    hide AllTooLarge, Oust, LostOldest, Total;
    k, i :| StopsAt(q, target, k, i) && r == AfterRounds(q, k, i);
    forall j | 0 <= j < |q| ensures LostOldest(q[j], r[j], if j < i then k + 1 else k) && Count(r[j]) == Max(0, Count(q[j]) - if j < i then k + 1 else k) {
      OustTakesOldest(q[j], if j < i then k + 1 else k);
    }
  }

  /** Nothing is evicted beyond the target: before the last eviction turn the stored bytes
      were still over it, so contents within the target are left alone. */
  lemma NoEvictionBeyondTheTarget(q: seq<Contents>, target: nat, r: seq<Contents>) returns (k: nat, j: nat)
    requires Enforced(q, target, r) && r != q
    ensures j < |q| && Total(AfterRounds(q, k, j)) > target && r == AfterRounds(q, k, j + 1)
    ensures Total(q) > target
  {
    hide AfterRounds, AllTooLarge, Total;
    var k', i' := StoppingPoint(q, target, r);
    RoundWraps(q, 0);
    if i' > 0 {
      k, j := k', i' - 1;
    } else {
      k, j := k' - 1, |q| - 1;
      RoundWraps(q, k);
    }
  }

  lemma StoppingPoint(q: seq<Contents>, target: nat, r: seq<Contents>) returns (k: nat, i: nat)
    requires Enforced(q, target, r)
    ensures i <= |q| && AllTooLarge(q, target, k, i) && r == AfterRounds(q, k, i)
  {
    k, i :| StopsAt(q, target, k, i) && r == AfterRounds(q, k, i);
  }

  /** Bytes in use by each backend's running batch, in order of first report. */
  type Usage = seq<(string, nat)>

  function UsageSum(u: Usage): nat {
    if u == [] then 0 else u[0].1 + UsageSum(u[1..])
  }

  function UsageOf(u: Usage, backend: string): nat {
    if u == [] then 0 else if u[0].0 == backend then u[0].1 else UsageOf(u[1..], backend)
  }

  function SetUsage(u: Usage, backend: string, value: nat): Usage {
    if u == [] then [(backend, value)]
    else if u[0].0 == backend then [(backend, value)] + u[1..]
    else [u[0]] + SetUsage(u[1..], backend, value)
  }

  /** A report replaces the backend's own share of the total and nobody else's. */
  lemma {:induction false} SetUsageReplaces(u: Usage, backend: string, value: nat, other: string)
    ensures UsageSum(SetUsage(u, backend, value)) == UsageSum(u) - UsageOf(u, backend) + value
    ensures UsageOf(SetUsage(u, backend, value), other) == if other == backend then value else UsageOf(u, other)
  {
    if u != [] && u[0].0 != backend {
      SetUsageReplaces(u[1..], backend, value, other);
    }
  }

  // ------------------------------------------------------ stores under a budget

  /** What the registered stores hold, the reported usage, and the budget over both. */
  datatype Fleet = Fleet(stores: seq<Contents>, active: Usage, budget: nat)

  function Target(f: Fleet): nat {
    Max(0, f.budget - UsageSum(f.active))
  }

  /** The registered stores leave room for the bytes reported in use. */
  predicate WithinBudget(f: Fleet) {
    Total(f.stores) <= Target(f)
  }

  /** What can be done to one store: the first three to a prompt cache, the next two to a vision
      cache, and the last to either. */
  datatype Change =
    | LookUp(ns: Namespace, prompt: seq<Token>, trim: Trimmer)
    | Memorize(ns: Namespace, tokens: seq<Token>, snapshot: Snapshot)
    | Reset(clearCache: bool, resetCounters: bool)
    | Deposit(available: bool, maxEntries: int, maxBytes: int, key: string, entryBytes: nat, after: seq<VisionEntry>)
    | Wipe
    | EvictOne

  predicate Applies(c: Contents, change: Change) {
    match change
    case LookUp(_, _, _) => c.PromptContents?
    case Memorize(_, _, _) => c.PromptContents?
    case Reset(_, _) => c.PromptContents?
    case Deposit(_, _, _, _, _, _) => c.VisionContents?
    case Wipe => c.VisionContents?
    case EvictOne => true
  }

  /** The store's own part of a change. */
  function Changed(c: Contents, change: Change): Contents
    requires Applies(c, change)
  {
    match change
    case LookUp(ns, prompt, trim) => PromptContents(AfterLookup(c.store, ns, prompt, trim))
    case Memorize(ns, tokens, snapshot) => PromptContents(AfterRemember(c.store, ns, tokens, snapshot))
    case Reset(clearCache, resetCounters) => PromptContents(AfterReset(c.store, clearCache, resetCounters))
    case Deposit(available, maxEntries, maxBytes, key, entryBytes, after) =>
      VisionContents(AfterPut(available, maxEntries, maxBytes, c.vision, key, entryBytes, after))
    case Wipe => VisionContents(c.vision.(entries := []))
    case EvictOne => Oust(c, 1)
  }

  /** Whether the change goes on to enforce the budget: only when something was stored. */
  predicate Enforces(c: Contents, change: Change)
    requires Applies(c, change)
  {
    match change
    case Memorize(_, _, snapshot) => Storable(snapshot, c.store.maxBytes)
    case Deposit(available, _, maxBytes, key, entryBytes, after) => Stores(available, maxBytes, c.vision, key, entryBytes, after)
    case _ => false
  }

  /** Storing enforces the budget exactly when something was stored; nothing else does. */
  lemma EnforcesIff(c: Contents, change: Change)
    requires Applies(c, change)
    ensures Enforces(c, change) <==>
              match change
              case Memorize(_, _, snapshot) => snapshot != [] && EstimateBytes(snapshot) <= c.store.maxBytes
              case Deposit(available, _, maxBytes, key, entryBytes, after) =>
                available && 0 < entryBytes <= maxBytes && (|after| != |c.vision.entries| || exists e <- after :: e.key == key)
              case _ => false
  {
  }

  datatype FleetOp = Join(c: Contents) | Report(backend: string, value: int) | Do(i: nat, change: Change)

  /** One operation: a new and empty store, a report of bytes in use, or a change to one store. */
  ghost predicate Step(f: Fleet, op: FleetOp, f': Fleet) {
    f'.budget == f.budget &&
    match op
    case Join(c) => Count(c) == 0 && f'.active == f.active && f'.stores == f.stores + [c]
    case Report(backend, value) =>
      f'.active == SetUsage(f.active, backend, Max(0, value)) && Enforced(f.stores, Target(f'), f'.stores)
    case Do(i, change) =>
      && i < |f.stores| && Applies(f.stores[i], change) && f'.active == f.active
      && var changed := f.stores[i := Changed(f.stores[i], change)];
         if Enforces(f.stores[i], change) then Enforced(changed, Target(f), f'.stores) else f'.stores == changed
  }

  lemma BytesOfNone(c: Contents)
    ensures Count(c) == 0 ==> Bytes(c) == 0
  {}

  lemma {:induction false} TotalSnoc(q: seq<Contents>, c: Contents)
    ensures Total(q + [c]) == Total(q) + Bytes(c)
  {
    if q == [] {
      assert q + [c] == [c] && [c][1..] == [];
    } else {
      TotalSnoc(q[1..], c);
      assert (q + [c])[1..] == q[1..] + [c];
    }
  }

  lemma NothingStored(c: Contents, change: Change)
    requires Applies(c, change) && !Enforces(c, change) && (change.Memorize? || change.Deposit?)
    ensures Changed(c, change) == c
  {
    hide Fit, Refreshed;
  }

  lemma LookingUpKeeps(c: Contents, change: Change)
    requires Applies(c, change) && change.LookUp?
    ensures Bytes(Changed(c, change)) == Bytes(c)
  {
    hide Best, CountLookup;
  }

  /** Nothing but storing ever makes a store larger. */
  lemma OthersDoNotGrow(c: Contents, change: Change)
    requires Applies(c, change) && !Enforces(c, change)
    ensures Bytes(Changed(c, change)) <= Bytes(c)
  {
    hide AfterRemember, AfterLookup, AfterPut, Oust;
    match change
    case LookUp(_, _, _) => LookingUpKeeps(c, change);
    case Memorize(_, _, _) => NothingStored(c, change);
    case Deposit(_, _, _, _, _, _) => NothingStored(c, change);
    case EvictOne => OustOneMore(c, 0);
    case _ =>
  }

  lemma EnforcedFits(q: seq<Contents>, target: nat, r: seq<Contents>)
    requires Enforced(q, target, r)
    ensures Total(r) <= target
  {}

  /** Every operation that enforces ends within the budget, and every other one stays within it. */
  lemma StepStaysWithinBudget(f: Fleet, op: FleetOp, f': Fleet)
    requires Step(f, op, f')
    ensures op.Report? || (op.Do? && Enforces(f.stores[op.i], op.change)) ==> WithinBudget(f')
    ensures WithinBudget(f) ==> WithinBudget(f')
  {
    hide Enforced, Changed, Enforces, Bytes, Total, Count;
    match op
    case Join(c) =>
      BytesOfNone(c);
      TotalSnoc(f.stores, c);
    case Report(_, _) => EnforcedFits(f.stores, Target(f'), f'.stores);
    case Do(i, change) =>
      var changed := f.stores[i := Changed(f.stores[i], change)];
      if Enforces(f.stores[i], change) {
        EnforcedFits(changed, Target(f), f'.stores);
      } else {
        OthersDoNotGrow(f.stores[i], change);
        TotalUpdate(f.stores, i, Changed(f.stores[i], change));
      }
  }

  lemma StepIsDeterministic(f: Fleet, op: FleetOp, f': Fleet, f'': Fleet)
    requires Step(f, op, f') && Step(f, op, f'')
    ensures f' == f''
  {
    hide Enforced, Changed, Enforces;
    match op
    case Join(_) =>
    case Report(_, _) => EnforcingIsDeterministic(f.stores, Target(f'), f'.stores, f''.stores);
    case Do(i, change) =>
      if Enforces(f.stores[i], change) {
        EnforcingIsDeterministic(f.stores[i := Changed(f.stores[i], change)], Target(f), f'.stores, f''.stores);
      }
  }

  ghost predicate IsRun(run: seq<Fleet>, ops: seq<FleetOp>) {
    |run| == |ops| + 1 && forall n | 0 <= n < |ops| :: Step(run[n], ops[n], run[n + 1])
  }

  /** The budget holds at every point of every run that starts without stores: whatever is looked
      up, stored, reset, wiped, evicted or reported, and whichever stores join on the way. */
  lemma {:induction false} BudgetHoldsThroughout(run: seq<Fleet>, ops: seq<FleetOp>, n: nat)
    requires IsRun(run, ops) && n < |run| && run[0].stores == []
    ensures WithinBudget(run[n])
    ensures Total(run[n].stores) == 0 || Total(run[n].stores) + UsageSum(run[n].active) <= run[n].budget
  {
    RoomIsLeft(run[n]);
    hide Step, WithinBudget, Total, UsageSum;
    if n == 0 {
      NoStores(run[0]);
    } else {
      BudgetHoldsThroughout(run, ops, n - 1);
      assert Step(run[n - 1], ops[n - 1], run[n - 1 + 1]);
      StepStaysWithinBudget(run[n - 1], ops[n - 1], run[n]);
    }
  }

  lemma RoomIsLeft(f: Fleet)
    ensures WithinBudget(f) <==> Total(f.stores) == 0 || Total(f.stores) + UsageSum(f.active) <= f.budget
  {
  }

  lemma NoStores(f: Fleet)
    requires f.stores == []
    ensures WithinBudget(f)
  {}
}
