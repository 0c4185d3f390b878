/** The prompt-prefix cache of python/mlx_worker/batching.py as a value:
    what lookup and remember compute, and what that means for the tokens a
    returned snapshot stands for. */
module PromptCache {
  import opened Basics

  type Token = int

  type Namespace = seq<int>

  /** One layer of a KV snapshot: the tokens whose keys and values it holds. */
  datatype Layer = Layer(tokens: seq<Token>, nbytes: nat)

  type Snapshot = seq<Layer>

  function EstimateBytes(s: Snapshot): nat {
    if s == [] then 0 else s[0].nbytes + EstimateBytes(s[1..])
  }

  /** A snapshot's size is the sum of its layers'. */
  lemma {:induction false} EstimateBytesAdds(a: Snapshot, b: Snapshot)
    ensures EstimateBytes(a + b) == EstimateBytes(a) + EstimateBytes(b)
    ensures |a| == 1 ==> EstimateBytes(a) == a[0].nbytes
  {
    if a == [] {
      assert a + b == b;
    } else {
      EstimateBytesAdds(a[1..], b);
      assert (a + b)[1..] == a[1..] + b;
    }
  }

  /** The snapshot is the KV state of exactly these tokens. */
  ghost predicate HoldsFor(s: Snapshot, tokens: seq<Token>) {
    s != [] && forall l <- s :: l.tokens == tokens
  }

  /** Drops a number of trailing tokens from a copy, or reports that it cannot. */
  type Trimmer = (Snapshot, nat) -> Option<Snapshot>

  /** What the store relies on: a trim that succeeds dropped exactly n tokens. */
  ghost predicate TrimContract(trim: Trimmer) {
    forall s, n: nat, t ::
      trim(s, n).Some? && HoldsFor(s, t) && n <= |t| ==> HoldsFor(trim(s, n).value, t[..|t| - n])
  }

  datatype MatchKind = Exact | ShorterPrefix | TrimmedLongerPrefix

  datatype CachedPrompt = CachedPrompt(tokens: seq<Token>, snapshot: Snapshot, bytes: nat, kind: MatchKind)

  datatype Entry = Entry(namespace: Namespace, cached: CachedPrompt)

  /** Entries are listed oldest first, as the ordered dictionary holds them. */
  type Entries = seq<Entry>

  predicate HasKey(e: Entry, ns: Namespace, tokens: seq<Token>) {
    e.namespace == ns && e.cached.tokens == tokens
  }

  ghost predicate DistinctKeys(es: Entries) {
    forall i, j :: 0 <= i < j < |es| ==> !HasKey(es[i], es[j].namespace, es[j].cached.tokens)
  }

  function TotalBytes(es: Entries): nat {
    if es == [] then 0 else es[0].cached.bytes + TotalBytes(es[1..])
  }

  lemma {:induction false} TotalBytesAppend(a: Entries, b: Entries)
    ensures TotalBytes(a + b) == TotalBytes(a) + TotalBytes(b)
    ensures |a| == 1 ==> TotalBytes(a) == a[0].cached.bytes
  {
    if a == [] {
      assert a + b == b;
    } else {
      TotalBytesAppend(a[1..], b);
      assert (a + b)[1..] == a[1..] + b;
    }
  }

  lemma TotalBytesWithout(es: Entries, i: nat)
    requires i < |es|
    ensures TotalBytes(Without(es, i)) == TotalBytes(es) - es[i].cached.bytes
  {
    var before, rest := es[..i], es[i + 1..];
    TotalBytesAppend(before, rest);
    TotalBytesAppend(before, [es[i]] + rest);
    TotalBytesAppend([es[i]], rest);
    hide TotalBytes;
    assert es == before + ([es[i]] + rest);
  }

  // ---------------------------------------------------------------- lookup

  function CommonPrefix(a: seq<Token>, b: seq<Token>): (n: nat)
    ensures n <= |a| && n <= |b| && a[..n] == b[..n]
    ensures n < |a| && n < |b| ==> a[n] != b[n]
  {
    if a == [] || b == [] || a[0] != b[0] then 0
    else
      var n := CommonPrefix(a[1..], b[1..]);
      assert a[..n + 1] == [a[0]] + a[1..][..n];
      assert b[..n + 1] == [b[0]] + b[1..][..n];
      n + 1
  }

  lemma {:induction false} CommonPrefixIsLongest(a: seq<Token>, b: seq<Token>, n: nat)
    requires n <= |a| && n <= |b| && a[..n] == b[..n]
    ensures n <= CommonPrefix(a, b)
  {
    if n > 0 {
      assert a[0] == a[..n][0] == b[..n][0] == b[0];
      assert a[1..][..n - 1] == a[..n][1..] && b[1..][..n - 1] == b[..n][1..];
      CommonPrefixIsLongest(a[1..], b[1..], n - 1);
    }
  }

  /** A stored snapshot trimmed down to the part it shares with the prompt. */
  function Trimmed(stored: CachedPrompt, prompt: seq<Token>, trim: Trimmer): Option<CachedPrompt>
    requires stored.tokens != prompt
    requires !(stored.tokens <= prompt)
  {
    var reusable := Min(CommonPrefix(stored.tokens, prompt), |prompt| - 1);
    if reusable <= 0 then None
    else
      match trim(stored.snapshot, |stored.tokens| - reusable)
      case None => None
      case Some(t) => Some(CachedPrompt(prompt[..reusable], t, EstimateBytes(t), TrimmedLongerPrefix))
  }

  /** What one entry of the namespace has to offer for a prompt. */
  function Candidate(stored: CachedPrompt, prompt: seq<Token>, trim: Trimmer): Option<CachedPrompt> {
    if stored.tokens == prompt then Some(stored.(kind := Exact))
    else if stored.tokens <= prompt then Some(stored.(kind := ShorterPrefix))
    else Trimmed(stored, prompt, trim)
  }

  function Offer(e: Entry, ns: Namespace, prompt: seq<Token>, trim: Trimmer): Option<CachedPrompt> {
    if e.namespace != ns then None else Candidate(e.cached, prompt, trim)
  }

  /** The scan from newest to oldest that replaces its choice only by a longer one. */
  function Best(es: Entries, ns: Namespace, prompt: seq<Token>, trim: Trimmer): Option<CachedPrompt> {
    if es == [] then None
    else
      var newer := Best(es[1..], ns, prompt, trim);
      var offer := Offer(es[0], ns, prompt, trim);
      if offer.Some? && (newer.None? || |offer.value.tokens| > |newer.value.tokens|) then offer else newer
  }

  /** The choice is the offer of some entry i: no other entry offers more tokens,
      and none remembered after i offers as many. */
  ghost predicate Chosen(es: Entries, ns: Namespace, prompt: seq<Token>, trim: Trimmer, i: nat) {
    && i < |es|
    && Offer(es[i], ns, prompt, trim).Some?
    && forall j | 0 <= j < |es| && Offer(es[j], ns, prompt, trim).Some? ::
         var mine, other := |Offer(es[i], ns, prompt, trim).value.tokens|, |Offer(es[j], ns, prompt, trim).value.tokens|;
         other <= mine && (i < j ==> other < mine)
  }

  lemma {:induction false} BestIsChosen(es: Entries, ns: Namespace, prompt: seq<Token>, trim: Trimmer)
    ensures Best(es, ns, prompt, trim).None? <==> forall e <- es :: Offer(e, ns, prompt, trim).None?
    ensures Best(es, ns, prompt, trim).Some? ==>
              exists i: nat :: Chosen(es, ns, prompt, trim, i) && Best(es, ns, prompt, trim) == Offer(es[i], ns, prompt, trim)
  {
    hide Offer;
    if es != [] {
      var rest := es[1..];
      BestIsChosen(rest, ns, prompt, trim);
      assert forall e <- es :: e == es[0] || e in rest;
      assert forall j | 1 <= j < |es| :: es[j] == rest[j - 1] && es[j] in rest;
      var newer, offer := Best(rest, ns, prompt, trim), Offer(es[0], ns, prompt, trim);
      if newer.None? {
        assert offer.Some? ==> Chosen(es, ns, prompt, trim, 0);
      } else {
        var i: nat :| Chosen(rest, ns, prompt, trim, i) && newer == Offer(rest[i], ns, prompt, trim);
        if offer.Some? && |offer.value.tokens| > |newer.value.tokens| {
          assert Chosen(es, ns, prompt, trim, 0);
        } else {
          assert Chosen(es, ns, prompt, trim, i + 1);
        }
      }
    }
  }

  /** An offer is a prefix of the prompt; it is the whole prompt exactly for an exact entry;
      and with a sound entry its snapshot is the KV of the tokens it names. */
  lemma OfferIsSound(e: Entry, ns: Namespace, prompt: seq<Token>, trim: Trimmer)
    requires Offer(e, ns, prompt, trim).Some?
    ensures var c := Offer(e, ns, prompt, trim).value;
            && c.tokens <= prompt
            && (c.tokens == prompt <==> HasKey(e, ns, prompt))
            && (c.kind == Exact <==> c.tokens == prompt)
            && (TrimContract(trim) && HoldsFor(e.cached.snapshot, e.cached.tokens) ==> HoldsFor(c.snapshot, c.tokens))
  {
    if !(e.cached.tokens <= prompt) {
      TrimmedIsSound(e.cached, prompt, trim);
    }
  }

  lemma TrimmedIsSound(stored: CachedPrompt, prompt: seq<Token>, trim: Trimmer)
    requires !(stored.tokens <= prompt) && Trimmed(stored, prompt, trim).Some?
    ensures var c := Trimmed(stored, prompt, trim).value;
            && c.tokens < prompt
            && (TrimContract(trim) && HoldsFor(stored.snapshot, stored.tokens) ==> HoldsFor(c.snapshot, c.tokens))
  {
    var t := stored.tokens;
    var common := CommonPrefix(t, prompt);
    var reusable := Min(common, |prompt| - 1);
    assert t[..reusable] == t[..common][..reusable] == prompt[..common][..reusable] == prompt[..reusable];
    if TrimContract(trim) && HoldsFor(stored.snapshot, t) {
      var n: nat := |t| - reusable;
      assert HoldsFor(trim(stored.snapshot, n).value, t[..|t| - n]);
    }
  }

  /** Every entry's snapshot is the KV state of the tokens it is stored under. */
  ghost predicate SoundEntries(es: Entries) {
    forall e <- es :: HoldsFor(e.cached.snapshot, e.cached.tokens)
  }

  /** What a caller of lookup gets: a prefix of the prompt with the KV state of exactly that
      prefix, and the whole prompt if and only if the prompt itself is stored. */
  lemma LookupIsSound(es: Entries, ns: Namespace, prompt: seq<Token>, trim: Trimmer)
    requires SoundEntries(es) && TrimContract(trim)
    ensures Best(es, ns, prompt, trim).Some? ==>
              var c := Best(es, ns, prompt, trim).value;
              c.tokens <= prompt && HoldsFor(c.snapshot, c.tokens)
    ensures (exists e <- es :: HasKey(e, ns, prompt)) <==>
            Best(es, ns, prompt, trim).Some? && Best(es, ns, prompt, trim).value.kind == Exact
    ensures (exists e <- es :: HasKey(e, ns, prompt)) <==>
            Best(es, ns, prompt, trim).Some? && Best(es, ns, prompt, trim).value.tokens == prompt
  {
    BestIsChosen(es, ns, prompt, trim);
    if exists e <- es :: HasKey(e, ns, prompt) {
      var e :| e in es && HasKey(e, ns, prompt);
      assert Offer(e, ns, prompt, trim).Some? && Offer(e, ns, prompt, trim).value.tokens == prompt;
    }
    if Best(es, ns, prompt, trim).Some? {
      var i: nat :| Chosen(es, ns, prompt, trim, i) && Best(es, ns, prompt, trim) == Offer(es[i], ns, prompt, trim);
      OfferIsSound(es[i], ns, prompt, trim);
    }
  }

  /** Nothing longer was available: the hit is at least as long as every stored prefix of the
      prompt, and, when trimming never fails, as every proper prefix that an entry begins with. */
  lemma LookupFindsTheLongestSharedPrefix(es: Entries, ns: Namespace, prompt: seq<Token>, trim: Trimmer, e: Entry, n: nat)
    requires e in es && e.namespace == ns
    requires n < |e.cached.tokens| ==> forall s, k :: trim(s, k).Some?
    requires 0 < n < |prompt| && n <= |e.cached.tokens| && e.cached.tokens[..n] == prompt[..n]
    ensures Best(es, ns, prompt, trim).Some? && |Best(es, ns, prompt, trim).value.tokens| >= n
  {
    OfferIsLong(e, ns, prompt, trim, n);
    hide Offer, Best;
    BestIsAtLeast(es, ns, prompt, trim, e);
  }

  lemma OfferIsLong(e: Entry, ns: Namespace, prompt: seq<Token>, trim: Trimmer, n: nat)
    requires e.namespace == ns && (n < |e.cached.tokens| ==> forall s, k :: trim(s, k).Some?)
    requires 0 < n < |prompt| && n <= |e.cached.tokens| && e.cached.tokens[..n] == prompt[..n]
    ensures Offer(e, ns, prompt, trim).Some? && |Offer(e, ns, prompt, trim).value.tokens| >= n
  {
    CommonPrefixIsLongest(e.cached.tokens, prompt, n);
  }

  lemma BestIsAtLeast(es: Entries, ns: Namespace, prompt: seq<Token>, trim: Trimmer, e: Entry)
    requires e in es && Offer(e, ns, prompt, trim).Some?
    ensures Best(es, ns, prompt, trim).Some?
    ensures |Best(es, ns, prompt, trim).value.tokens| >= |Offer(e, ns, prompt, trim).value.tokens|
  {
    hide Offer, Best;
    BestIsChosen(es, ns, prompt, trim);
    var j :| 0 <= j < |es| && es[j] == e;
  }

  // -------------------------------------------------------------- remember

  function IndexOf(es: Entries, ns: Namespace, tokens: seq<Token>): (i: nat)
    ensures i <= |es|
    ensures i < |es| ==> HasKey(es[i], ns, tokens)
    ensures forall j | 0 <= j < i :: !HasKey(es[j], ns, tokens)
  {
    if es == [] || HasKey(es[0], ns, tokens) then 0 else 1 + IndexOf(es[1..], ns, tokens)
  }

  /** The dictionary after popping a key that may be absent. */
  function Forget(es: Entries, ns: Namespace, tokens: seq<Token>): Entries {
    var i := IndexOf(es, ns, tokens);
    if i < |es| then Without(es, i) else es
  }

  /** before is the dictionary es minus a key, in the old order. */
  ghost predicate WithoutKey(before: Entries, es: Entries, ns: Namespace, tokens: seq<Token>) {
    && Subsequence(before, es)
    && forall e :: e in before <==> e in es && !(e.namespace == ns && e.cached.tokens == tokens)
  }

  lemma ForgetRemovesTheKey(es: Entries, ns: Namespace, tokens: seq<Token>)
    requires DistinctKeys(es)
    ensures DistinctKeys(Forget(es, ns, tokens))
    ensures WithoutKey(Forget(es, ns, tokens), es, ns, tokens)
  {
    var i := IndexOf(es, ns, tokens);
    var r := Forget(es, ns, tokens);
    if i < |es| {
      assert forall j | 0 <= j < |r| :: r[j] == es[if j < i then j else j + 1];
      forall e | e in es && !HasKey(e, ns, tokens) ensures e in r {
        var j :| 0 <= j < |es| && es[j] == e;
        assert e == r[if j < i then j else j - 1];
      }
      WithoutIsSubsequence(es, i);
    } else {
      SubsequenceRefl(es);
    }
  }

  lemma KeyIsGone(es: Entries, ns: Namespace, tokens: seq<Token>)
    requires DistinctKeys(es)
    ensures DistinctKeys(Forget(es, ns, tokens))
    ensures forall i | 0 <= i < |Forget(es, ns, tokens)| :: !HasKey(Forget(es, ns, tokens)[i], ns, tokens)
  {
    hide WithoutKey;
    var i, r := IndexOf(es, ns, tokens), Forget(es, ns, tokens);
    if i < |es| {
      assert forall j | 0 <= j < |r| :: r[j] == es[if j < i then j else j + 1];
    }
  }

  predicate Fits(es: Entries, maxEntries: int, maxBytes: int) {
    |es| <= maxEntries && TotalBytes(es) <= maxBytes
  }

  /** Evicting the oldest entry until both limits hold. */
  function Fit(es: Entries, maxEntries: int, maxBytes: int): Entries {
    if es == [] || Fits(es, maxEntries, maxBytes) then es else Fit(es[1..], maxEntries, maxBytes)
  }

  /** What is kept is the longest recency suffix within both limits. */
  lemma {:induction false} FitIsLongestSuffix(es: Entries, maxEntries: int, maxBytes: int)
    requires maxEntries >= 0 && maxBytes >= 0
    ensures exists d: nat ::
              && d <= |es| && Fit(es, maxEntries, maxBytes) == es[d..]
              && Fits(es[d..], maxEntries, maxBytes)
              && forall d' | 0 <= d' < d :: !Fits(es[d'..], maxEntries, maxBytes)
  {
    if es == [] || Fits(es, maxEntries, maxBytes) {
      assert es[0..] == es;
    } else {
      FitIsLongestSuffix(es[1..], maxEntries, maxBytes);
      var d: nat :|
        && d <= |es[1..]| && Fit(es[1..], maxEntries, maxBytes) == es[1..][d..]
        && Fits(es[1..][d..], maxEntries, maxBytes)
        && forall d' | 0 <= d' < d :: !Fits(es[1..][d'..], maxEntries, maxBytes);
      assert es[1..][d..] == es[d + 1..];
      forall d' | 0 <= d' < d + 1 ensures !Fits(es[d'..], maxEntries, maxBytes) {
        if d' == 0 {
          assert es[0..] == es;
        } else {
          assert es[1..][d' - 1..] == es[d'..];
        }
      }
    }
  }

  function NewEntry(ns: Namespace, tokens: seq<Token>, snapshot: Snapshot): Entry {
    Entry(ns, CachedPrompt(tokens, snapshot, EstimateBytes(snapshot), Exact))
  }

  /** An empty snapshot or one over the byte limit is not taken. */
  predicate Storable(snapshot: Snapshot, maxBytes: int) {
    snapshot != [] && EstimateBytes(snapshot) <= maxBytes
  }

  function Refreshed(es: Entries, ns: Namespace, tokens: seq<Token>, snapshot: Snapshot): Entries {
    Forget(es, ns, tokens) + [NewEntry(ns, tokens, snapshot)]
  }

  lemma {:induction false} FitKeeps(es: Entries, maxEntries: int, maxBytes: int)
    requires DistinctKeys(es)
    ensures DistinctKeys(Fit(es, maxEntries, maxBytes))
    ensures forall e <- Fit(es, maxEntries, maxBytes) :: e in es
    ensures |Fit(es, maxEntries, maxBytes)| <= |es|
  {
    if !(es == [] || Fits(es, maxEntries, maxBytes)) {
      FitKeeps(es[1..], maxEntries, maxBytes);
    }
  }

  // ----------------------------------------------- the store, and its runs

  datatype Stats = Stats(hits: nat, misses: nat, exactHits: nat, shorterHits: nat, trimmedHits: nat, evictions: nat)

  const ZERO_STATS := Stats(0, 0, 0, 0, 0, 0)

  function CountLookup(s: Stats, found: Option<CachedPrompt>): Stats {
    match found
    case None => s.(misses := s.misses + 1)
    case Some(c) =>
      var hit := s.(hits := s.hits + 1);
      match c.kind
      case Exact => hit.(exactHits := hit.exactHits + 1)
      case ShorterPrefix => hit.(shorterHits := hit.shorterHits + 1)
      case TrimmedLongerPrefix => hit.(trimmedHits := hit.trimmedHits + 1)
  }

  /** A store's limits, contents and counters. */
  datatype Store = Store(maxEntries: int, maxBytes: int, entries: Entries, stats: Stats)

  function AfterLookup(s: Store, ns: Namespace, prompt: seq<Token>, trim: Trimmer): Store {
    s.(stats := CountLookup(s.stats, Best(s.entries, ns, prompt, trim)))
  }

  /** Which counter a lookup raises: none but misses when no entry offers anything, else that of the
      chosen entry's kind, by how its key compares with the prompt. */
  lemma LookupIsCounted(s: Store, ns: Namespace, prompt: seq<Token>, trim: Trimmer)
    ensures AfterLookup(s, ns, prompt, trim) == s.(stats := AfterLookup(s, ns, prompt, trim).stats)
    ensures var r := AfterLookup(s, ns, prompt, trim).stats;
            if forall e <- s.entries :: Offer(e, ns, prompt, trim).None? then r == s.stats.(misses := s.stats.misses + 1)
            else
              exists i :: 0 <= i < |s.entries| && Chosen(s.entries, ns, prompt, trim, i) &&
                var key, hits := s.entries[i].cached.tokens, s.stats.(hits := s.stats.hits + 1);
                r == if key == prompt then hits.(exactHits := s.stats.exactHits + 1)
                     else if key <= prompt then hits.(shorterHits := s.stats.shorterHits + 1)
                     else hits.(trimmedHits := s.stats.trimmedHits + 1)
  {
    hide Best, Chosen, Offer;
    BestIsChosen(s.entries, ns, prompt, trim);
    if Best(s.entries, ns, prompt, trim).Some? {
      var i := ChosenEntry(s.entries, ns, prompt, trim);
      OfferIsOfKind(s.entries[i], ns, prompt, trim);
    }
  }

  lemma ChosenEntry(es: Entries, ns: Namespace, prompt: seq<Token>, trim: Trimmer) returns (i: nat)
    requires Best(es, ns, prompt, trim).Some?
    ensures i < |es| && es[i] in es && Chosen(es, ns, prompt, trim, i)
    ensures Best(es, ns, prompt, trim) == Offer(es[i], ns, prompt, trim)
  {
    BestIsChosen(es, ns, prompt, trim);
    i :| Chosen(es, ns, prompt, trim, i) && Best(es, ns, prompt, trim) == Offer(es[i], ns, prompt, trim);
  }

  /** An offer's kind says how the entry's key compares with the prompt; a trimmed snapshot is
      measured anew. */
  lemma OfferIsOfKind(e: Entry, ns: Namespace, prompt: seq<Token>, trim: Trimmer)
    requires Offer(e, ns, prompt, trim).Some?
    ensures var c, key := Offer(e, ns, prompt, trim).value, e.cached.tokens;
            && e.namespace == ns
            && c.kind == (if key == prompt then Exact else if key <= prompt then ShorterPrefix else TrimmedLongerPrefix)
            && (key <= prompt ==> c.tokens == key && c.snapshot == e.cached.snapshot && c.bytes == e.cached.bytes)
            && (!(key <= prompt) ==> c.bytes == EstimateBytes(c.snapshot) && |c.tokens| <= |key|
                                     && trim(e.cached.snapshot, |key| - |c.tokens|) == Some(c.snapshot))
  {
  }

  function AfterRemember(s: Store, ns: Namespace, tokens: seq<Token>, snapshot: Snapshot): Store {
    if !Storable(snapshot, s.maxBytes) then s
    else
      var all := Refreshed(s.entries, ns, tokens, snapshot);
      var kept := Fit(all, s.maxEntries, s.maxBytes);
      s.(entries := kept, stats := s.stats.(evictions := s.stats.evictions + Max(0, |all| - |kept|)))
  }

  function AfterEvict(s: Store): Store {
    if s.entries == [] then s
    else s.(entries := s.entries[1..], stats := s.stats.(evictions := s.stats.evictions + 1))
  }

  /** Evicting takes exactly the oldest entry, and counts it; resetting empties what it is asked to
      and nothing else. */
  lemma EvictAndReset(s: Store, clearCache: bool, resetCounters: bool)
    ensures s.entries != [] ==>
              && |AfterEvict(s).entries| == |s.entries| - 1 && s.entries == [s.entries[0]] + AfterEvict(s).entries
              && AfterEvict(s).stats == s.stats.(evictions := s.stats.evictions + 1)
    ensures s.entries == [] ==> AfterEvict(s) == s
    ensures var r := AfterReset(s, clearCache, resetCounters);
            && (clearCache ==> r.entries == []) && (!clearCache ==> r.entries == s.entries)
            && (resetCounters ==> r.stats == Stats(0, 0, 0, 0, 0, 0)) && (!resetCounters ==> r.stats == s.stats)
    ensures AfterReset(s, clearCache, resetCounters).maxEntries == AfterEvict(s).maxEntries == s.maxEntries
    ensures AfterReset(s, clearCache, resetCounters).maxBytes == AfterEvict(s).maxBytes == s.maxBytes
  {
  }

  function AfterReset(s: Store, clearCache: bool, resetCounters: bool): Store {
    s.(entries := if clearCache then [] else s.entries, stats := if resetCounters then ZERO_STATS else s.stats)
  }

  /** What remembering leaves: of the old entries minus the key and then the new one, the longest
      recency suffix within both limits, each entry dropped from it counted as an eviction. */
  ghost predicate KeepsNewest(s: Store, ns: Namespace, tokens: seq<Token>, snapshot: Snapshot, before: Entries, d: nat, r: Store) {
    var all := before + [Entry(ns, CachedPrompt(tokens, snapshot, EstimateBytes(snapshot), Exact))];
    && WithoutKey(before, s.entries, ns, tokens)
    && d <= |all| && r == s.(entries := all[d..], stats := s.stats.(evictions := s.stats.evictions + d))
    && |r.entries| <= s.maxEntries && TotalBytes(r.entries) <= s.maxBytes
    && (forall d' | 0 <= d' < d :: |all[d'..]| > s.maxEntries || TotalBytes(all[d'..]) > s.maxBytes)
    && (s.maxEntries >= 1 ==> r.entries != [] && r.entries[|r.entries| - 1] == all[|all| - 1])
  }

  /** remember on a store of its own: a snapshot that is not empty and within the byte limit is
      stored, for at least one entry in the store itself; any other changes nothing. */
  lemma RememberKeepsLongestSuffix(s: Store, ns: Namespace, tokens: seq<Token>, snapshot: Snapshot)
    requires DistinctKeys(s.entries) && s.maxEntries >= 0
    ensures snapshot != [] && EstimateBytes(snapshot) <= s.maxBytes ==>
              exists before, d: nat :: KeepsNewest(s, ns, tokens, snapshot, before, d, AfterRemember(s, ns, tokens, snapshot))
    ensures snapshot == [] || EstimateBytes(snapshot) > s.maxBytes ==> AfterRemember(s, ns, tokens, snapshot) == s
  {
    if snapshot != [] && EstimateBytes(snapshot) <= s.maxBytes {
      hide WithoutKey, Fit, Forget, DistinctKeys, TotalBytes, EstimateBytes, Fits;
      var before, all := Forget(s.entries, ns, tokens), Refreshed(s.entries, ns, tokens, snapshot);
      ForgetRemovesTheKey(s.entries, ns, tokens);
      FitIsLongestSuffix(all, s.maxEntries, s.maxBytes);
      var d: nat :|
        && d <= |all| && Fit(all, s.maxEntries, s.maxBytes) == all[d..]
        && Fits(all[d..], s.maxEntries, s.maxBytes)
        && forall d' | 0 <= d' < d :: !Fits(all[d'..], s.maxEntries, s.maxBytes);
      hide KeepsNewest;
      FittedKeepsNewest(s, ns, tokens, snapshot, before, d);
      assert |all[d..]| == |all| - d;
      assert AfterRemember(s, ns, tokens, snapshot) == s.(entries := all[d..], stats := s.stats.(evictions := s.stats.evictions + d));
    }
  }

  lemma FittedKeepsNewest(s: Store, ns: Namespace, tokens: seq<Token>, snapshot: Snapshot, before: Entries, d: nat)
    requires WithoutKey(before, s.entries, ns, tokens) && EstimateBytes(snapshot) <= s.maxBytes
    requires var all := before + [NewEntry(ns, tokens, snapshot)];
             && d <= |all| && Fits(all[d..], s.maxEntries, s.maxBytes)
             && forall d' | 0 <= d' < d :: !Fits(all[d'..], s.maxEntries, s.maxBytes)
    ensures var all := before + [NewEntry(ns, tokens, snapshot)];
            KeepsNewest(s, ns, tokens, snapshot, before, d,
                        s.(entries := all[d..], stats := s.stats.(evictions := s.stats.evictions + d)))
  {
    hide WithoutKey, TotalBytes, EstimateBytes;
    NewestFits(before, NewEntry(ns, tokens, snapshot), s.maxEntries, s.maxBytes);
  }

  lemma NewestFits(before: Entries, e: Entry, maxEntries: int, maxBytes: int)
    requires e.cached.bytes <= maxBytes
    ensures var all := before + [e]; maxEntries >= 1 ==> Fits(all[|all| - 1..], maxEntries, maxBytes)
  {
    var all := before + [e];
    assert all[|all| - 1..] == [e];
    TotalBytesAppend([e], []);
  }

  /** Remembering keeps keys distinct, and keeps every entry sound if the new one is. */
  lemma RememberKeepsSoundness(s: Store, ns: Namespace, tokens: seq<Token>, snapshot: Snapshot)
    requires DistinctKeys(s.entries)
    ensures DistinctKeys(AfterRemember(s, ns, tokens, snapshot).entries)
    ensures SoundEntries(s.entries) && HoldsFor(snapshot, tokens) ==> SoundEntries(AfterRemember(s, ns, tokens, snapshot).entries)
  {
    ForgetRemovesTheKey(s.entries, ns, tokens);
    var all := Refreshed(s.entries, ns, tokens, snapshot);
    assert DistinctKeys(all);
    FitKeeps(all, s.maxEntries, s.maxBytes);
  }

  datatype Op =
    | Lookup(ns: Namespace, prompt: seq<Token>)
    | Remember(ns: Namespace, tokens: seq<Token>, snapshot: Snapshot)
    | Evict
    | Reset(clearCache: bool, resetCounters: bool)

  function Apply(s: Store, op: Op, trim: Trimmer): Store {
    match op
    case Lookup(ns, prompt) => AfterLookup(s, ns, prompt, trim)
    case Remember(ns, tokens, snapshot) => AfterRemember(s, ns, tokens, snapshot)
    case Evict => AfterEvict(s)
    case Reset(clearCache, resetCounters) => AfterReset(s, clearCache, resetCounters)
  }

  function Run(s: Store, ops: seq<Op>, trim: Trimmer): Store {
    if ops == [] then s else Apply(Run(s, ops[..|ops| - 1], trim), ops[|ops| - 1], trim)
  }

  /** How many entries an operation put in, and took out by replacing their key or wiping. */
  function Added(s: Store, op: Op): nat {
    if op.Remember? && op.snapshot != [] && EstimateBytes(op.snapshot) <= s.maxBytes then 1 else 0
  }

  function Removed(s: Store, op: Op): nat {
    match op
    case Remember(ns, tokens, snapshot) =>
      if snapshot != [] && EstimateBytes(snapshot) <= s.maxBytes && exists e <- s.entries :: HasKey(e, ns, tokens) then 1 else 0
    case Reset(clearCache, _) => if clearCache then |s.entries| else 0
    case _ => 0
  }

  /** What happened since the counters were last reset: lookups, entries put in, entries replaced
      or wiped, and how many entries there were to begin with. */
  datatype History = History(lookups: nat, added: nat, removed: nat, carried: nat)

  function Since(s: Store, ops: seq<Op>, trim: Trimmer): History {
    if ops == [] then History(0, 0, 0, |s.entries|)
    else
      var before, op := Since(s, ops[..|ops| - 1], trim), ops[|ops| - 1];
      var store := Run(s, ops[..|ops| - 1], trim);
      if op.Reset? && op.resetCounters then History(0, 0, 0, |Apply(store, op, trim).entries|)
      else History(before.lookups + (if op.Lookup? then 1 else 0), before.added + Added(store, op),
                   before.removed + Removed(store, op), before.carried)
  }

  lemma RememberBalance(s: Store, ns: Namespace, tokens: seq<Token>, snapshot: Snapshot)
    requires DistinctKeys(s.entries) && s.maxEntries >= 0 && s.maxBytes >= 0
    requires Storable(snapshot, s.maxBytes)
    ensures var r := AfterRemember(s, ns, tokens, snapshot);
            && DistinctKeys(r.entries) && Fits(r.entries, s.maxEntries, s.maxBytes)
            && |r.entries| + r.stats.evictions + (if exists e <- s.entries :: HasKey(e, ns, tokens) then 1 else 0)
               == |s.entries| + s.stats.evictions + 1
  {
    var all := Refreshed(s.entries, ns, tokens, snapshot);
    RememberKeepsSoundness(s, ns, tokens, snapshot);
    FitIsLongestSuffix(all, s.maxEntries, s.maxBytes);
  }

  /** Every lookup was a hit of one kind or a miss, and every entry there was or was put in is
      still there, was replaced or wiped, or was counted as evicted. */
  ghost predicate CountsAgree(h: History, r: Store) {
    && r.stats.hits + r.stats.misses == h.lookups
    && r.stats.exactHits + r.stats.shorterHits + r.stats.trimmedHits == r.stats.hits
    && |r.entries| + r.stats.evictions + h.removed == h.carried + h.added
  }

  ghost predicate WithinLimits(s: Store) {
    DistinctKeys(s.entries) && Fits(s.entries, s.maxEntries, s.maxBytes) && s.maxEntries >= 0 && s.maxBytes >= 0
  }

  lemma OneOpKeepsLimits(s: Store, op: Op, trim: Trimmer)
    requires WithinLimits(s)
    ensures WithinLimits(Apply(s, op, trim))
  {
    if op.Remember? && Storable(op.snapshot, s.maxBytes) {
      RememberBalance(s, op.ns, op.tokens, op.snapshot);
    }
  }

  lemma OneOpBalances(s: Store, op: Op, trim: Trimmer)
    requires WithinLimits(s) && !(op.Reset? && op.resetCounters)
    ensures var r := Apply(s, op, trim);
            && |r.entries| + r.stats.evictions + Removed(s, op) == |s.entries| + s.stats.evictions + Added(s, op)
            && r.stats.hits + r.stats.misses == s.stats.hits + s.stats.misses + (if op.Lookup? then 1 else 0)
            && (s.stats.exactHits + s.stats.shorterHits + s.stats.trimmedHits == s.stats.hits ==>
                  r.stats.exactHits + r.stats.shorterHits + r.stats.trimmedHits == r.stats.hits)
  {
    hide Best;
    if op.Remember? && Storable(op.snapshot, s.maxBytes) {
      RememberBalance(s, op.ns, op.tokens, op.snapshot);
    }
  }

  /** Over any run the counters agree with the history since they were last reset, and both
      limits hold throughout. */
  lemma {:induction false} CountersAgreeWithHistory(s: Store, ops: seq<Op>, trim: Trimmer)
    requires s.entries == [] && s.stats == ZERO_STATS && s.maxEntries >= 0 && s.maxBytes >= 0
    ensures WithinLimits(Run(s, ops, trim))
    ensures CountsAgree(Since(s, ops, trim), Run(s, ops, trim))
  {
    if ops != [] {
      hide Apply, Removed, Added, WithinLimits;
      var before, op := ops[..|ops| - 1], ops[|ops| - 1];
      CountersAgreeWithHistory(s, before, trim);
      OneOpKeepsLimits(Run(s, before, trim), op, trim);
      if op.Reset? && op.resetCounters {
        CountersZeroed(Run(s, before, trim), op, trim);
      } else {
        OneOpBalances(Run(s, before, trim), op, trim);
      }
    } else {
      NewStoreIsWithinLimits(s);
    }
  }

  lemma CountersZeroed(s: Store, op: Op, trim: Trimmer)
    requires op.Reset? && op.resetCounters
    ensures Apply(s, op, trim).stats == ZERO_STATS
  {}

  lemma NewStoreIsWithinLimits(s: Store)
    requires s.entries == [] && s.maxEntries >= 0 && s.maxBytes >= 0
    ensures WithinLimits(s)
  {}
}
