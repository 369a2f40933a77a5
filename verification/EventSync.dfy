// The cache object, the indexer that syncs it and the watcher that saves it,
// and every run of syncs, failures, saves and restarts
// (libs/common/src/event_cache/types.rs, indexer.rs, watcher.rs, manager.rs).
module EventSync {
  import opened Prelude
  import opened EventTables

  // A cache as a value: one table per kind of event.
  datatype Cache = Cache(indices: Table<IndexInfo>, pairs: Table<PairInfo>)

  const EMPTY_CACHE: Cache := Cache(Empty(), Empty())

  // The chain this service watches, and where it starts watching.
  datatype Chain = Chain(indexLog: seq<LogEntry<IndexInfo>>, pairLog: seq<LogEntry<PairInfo>>, start: nat)

  datatype SyncReport = SyncReport(indicesAdded: nat, pairsAdded: nat, lastIndexBlock: nat, lastPairBlock: nat)

  // A full sync on values: the indices first; if the pairs then fail, the
  // indices stay added. A head of None is a failed request.
  function FullSync(chain: Chain, c: Cache, indexHead: Option<nat>, pairHead: Option<nat>): (Cache, bool) {
    match SyncKind(c.indices, chain.indexLog, chain.start, indexHead)
    case None => (c, false)
    case Some(indices) =>
      match SyncKind(c.pairs, chain.pairLog, chain.start, pairHead)
      case None => (c.(indices := indices), false)
      case Some(pairs) => (Cache(indices, pairs), true)
  }

  class EventCache {
    var indices: seq<Event<IndexInfo>>
    var pairs: seq<Event<PairInfo>>
    var lastIndices: nat
    var lastPairs: nat

    function Value(): Cache
      reads this
    {
      Cache(Table(indices, lastIndices), Table(pairs, lastPairs))
    }

    constructor (c: Cache)
      ensures Value() == c
    {
      indices, lastIndices := c.indices.events, c.indices.last;
      pairs, lastPairs := c.pairs.events, c.pairs.last;
    }

    method AddIndex(e: Event<IndexInfo>)
      modifies this
      ensures Value() == old(Value()).(indices := AddEvent(old(Value()).indices, e))
    {
      var known := exists i :: 0 <= i < |indices| && indices[i].txHash == e.txHash;
      if !known {
        if lastIndices < e.block {
          lastIndices := e.block;
        }
        indices := indices + [e];
      }
    }

    method AddPair(e: Event<PairInfo>)
      modifies this
      ensures Value() == old(Value()).(pairs := AddEvent(old(Value()).pairs, e))
    {
      var known := exists i :: 0 <= i < |pairs| && pairs[i].txHash == e.txHash;
      if !known {
        if lastPairs < e.block {
          lastPairs := e.block;
        }
        pairs := pairs + [e];
      }
    }
  }

  // Reads one kind of event from the chain, decoding entry by entry; the first
  // entry that does not decode fails the call.
  method ReadLog<P>(log: seq<LogEntry<P>>, from: nat, head: Option<nat>) returns (events: Option<seq<Event<P>>>)
    ensures events == if head.Some? && Decodes(log, from, head.value + 1)
      then Some(Fetch(log, from, head.value + 1)) else None
  {
    if head.None? {
      return None;
    }
    var end := head.value + 1;
    var found: seq<Event<P>> := [];
    for i := 0 to |log|
      invariant found == Fetch(log[..i], from, end)
      invariant forall j :: 0 <= j < i && from <= log[j].event.block < end ==> log[j].decodes
    {
      assert log[..i + 1][..i] == log[..i];
      if from <= log[i].event.block < end {
        if !log[i].decodes {
          return None;
        }
        found := found + [log[i].event];
      }
    }
    assert log[..|log|] == log;
    events := Some(found);
  }

  // A full sync succeeds exactly when both heads arrive and everything new up to
  // them decodes; then it fetches what is new.
  lemma SyncedWhen(chain: Chain, c: Cache, indexHead: Option<nat>, pairHead: Option<nat>)
    ensures FullSync(chain, c, indexHead, pairHead).1 <==>
      && indexHead.Some? && AllDecode(chain.indexLog, c.indices.last, chain.start, indexHead.value)
      && pairHead.Some? && AllDecode(chain.pairLog, c.pairs.last, chain.start, pairHead.value)
    ensures indexHead.Some? ==>
      |Fetch(chain.indexLog, SyncStart(c.indices, chain.start), indexHead.value + 1)|
        == |NewEntries(chain.indexLog, c.indices.last, chain.start, indexHead.value)|
    ensures pairHead.Some? ==>
      |Fetch(chain.pairLog, SyncStart(c.pairs, chain.start), pairHead.value + 1)|
        == |NewEntries(chain.pairLog, c.pairs.last, chain.start, pairHead.value)|
  {
    if indexHead.Some? {
      FetchedIsNew(c.indices, chain.indexLog, chain.start, indexHead.value);
    }
    if pairHead.Some? {
      FetchedIsNew(c.pairs, chain.pairLog, chain.start, pairHead.value);
    }
  }

  class EventIndexer {
    const chain: Chain

    constructor (watched: Chain)
      ensures chain == watched
    {
      chain := watched;
    }

    method Sync(cache: EventCache, indexHead: Option<nat>, pairHead: Option<nat>) returns (report: Option<SyncReport>)
      modifies cache
      ensures (cache.Value(), report.Some?) == FullSync(chain, old(cache.Value()), indexHead, pairHead)
      ensures report.Some? ==>
        && report.value.lastIndexBlock == cache.lastIndices && report.value.lastPairBlock == cache.lastPairs
        && report.value.indicesAdded
             == |NewEntries(chain.indexLog, old(cache.lastIndices), chain.start, indexHead.value)|
        && report.value.pairsAdded == |NewEntries(chain.pairLog, old(cache.lastPairs), chain.start, pairHead.value)|
      ensures report.Some? <==>
        && indexHead.Some? && AllDecode(chain.indexLog, old(cache.lastIndices), chain.start, indexHead.value)
        && pairHead.Some? && AllDecode(chain.pairLog, old(cache.lastPairs), chain.start, pairHead.value)
    {
      ghost var before := cache.Value();
      var indexFrom := if 0 < cache.lastIndices then cache.lastIndices + 1 else chain.start;
      var pairFrom := if 0 < cache.lastPairs then cache.lastPairs + 1 else chain.start;
      SyncedWhen(chain, before, indexHead, pairHead);
      var newIndices := ReadLog(chain.indexLog, indexFrom, indexHead);
      if newIndices.None? {
        return None;
      }
      AddIndices(cache, newIndices.value);
      var newPairs := ReadLog(chain.pairLog, pairFrom, pairHead);
      if newPairs.None? {
        return None;
      }
      AddPairs(cache, newPairs.value);
      report := Some(SyncReport(|newIndices.value|, |newPairs.value|, cache.lastIndices, cache.lastPairs));
    }

    method AddIndices(cache: EventCache, events: seq<Event<IndexInfo>>)
      modifies cache
      ensures cache.Value() == old(cache.Value()).(indices := AddAll(old(cache.Value()).indices, events))
    {
      ghost var before := cache.Value();
      for i := 0 to |events|
        invariant cache.Value() == before.(indices := AddAll(before.indices, events[..i]))
      {
        assert events[..i + 1][..i] == events[..i];
        cache.AddIndex(events[i]);
      }
      assert events[..|events|] == events;
    }

    method AddPairs(cache: EventCache, events: seq<Event<PairInfo>>)
      modifies cache
      ensures cache.Value() == old(cache.Value()).(pairs := AddAll(old(cache.Value()).pairs, events))
    {
      ghost var before := cache.Value();
      for i := 0 to |events|
        invariant cache.Value() == before.(pairs := AddAll(before.pairs, events[..i]))
      {
        assert events[..i + 1][..i] == events[..i];
        cache.AddPair(events[i]);
      }
      assert events[..|events|] == events;
    }
  }

  // ---- The watcher: the cache in memory and the copy on disk ----

  // Whether a sync has something to save: always after an initial sync, after
  // a poll only if the cache grew.
  predicate WantsSave(chain: Chain, memory: Cache, always: bool, indexHead: Option<nat>, pairHead: Option<nat>) {
    var (next, synced) := FullSync(chain, memory, indexHead, pairHead);
    synced && (always
      || |next.indices.events| > |memory.indices.events| || |next.pairs.events| > |memory.pairs.events|)
  }

  // What one call of the watcher does, on values. `saved` is the stored copy;
  // a save replaces it whole or fails and leaves it.
  function Watched(
    chain: Chain, memory: Cache, saved: Option<Cache>, always: bool,
    indexHead: Option<nat>, pairHead: Option<nat>, saveOk: bool): (Cache, Option<Cache>, bool)
  {
    var (next, synced) := FullSync(chain, memory, indexHead, pairHead);
    var wants := WantsSave(chain, memory, always, indexHead, pairHead);
    (next, if wants && saveOk then Some(next) else saved, synced && (wants ==> saveOk))
  }

  // A copy that is missing or unreadable loads as an empty cache.
  function Loaded(saved: Option<Cache>, readable: bool): Cache {
    if saved.Some? && readable then saved.value else EMPTY_CACHE
  }

  class EventWatcher {
    const indexer: EventIndexer
    const cache: EventCache
    var saved: Option<Cache>

    constructor (chain: Chain, stored: Option<Cache>, readable: bool)
      ensures indexer.chain == chain && fresh(cache) && saved == stored
      ensures cache.Value() == Loaded(stored, readable)
      ensures if stored.Some? && readable then cache.Value() == stored.value
        else cache.indices == [] && cache.pairs == [] && cache.lastIndices == cache.lastPairs == 0
    {
      indexer := new EventIndexer(chain);
      cache := new EventCache(Loaded(stored, readable));
      saved := stored;
    }

    // Reports what the sync fetched, and saves whatever that was.
    method InitialSync(indexHead: Option<nat>, pairHead: Option<nat>, saveOk: bool)
      returns (result: Option<SyncReport>)
      modifies cache, this`saved
      ensures (cache.Value(), saved, result.Some?)
        == Watched(indexer.chain, old(cache.Value()), old(saved), true, indexHead, pairHead, saveOk)
      ensures saved == if result.Some? then Some(cache.Value()) else old(saved)
      ensures result.Some? ==>
        && indexHead.Some? && pairHead.Some?
        && result.value.indicesAdded
             == |NewEntries(indexer.chain.indexLog, old(cache.lastIndices), indexer.chain.start, indexHead.value)|
        && result.value.pairsAdded
             == |NewEntries(indexer.chain.pairLog, old(cache.lastPairs), indexer.chain.start, pairHead.value)|
        && result.value.lastIndexBlock == cache.lastIndices && result.value.lastPairBlock == cache.lastPairs
    {
      result := indexer.Sync(cache, indexHead, pairHead);
      if result.None? || !saveOk {
        return None;
      }
      saved := Some(cache.Value());
    }

    // Reports by how much the cache grew, and saves only if it did.
    method PollOnce(indexHead: Option<nat>, pairHead: Option<nat>, saveOk: bool)
      returns (result: Option<SyncReport>)
      modifies cache, this`saved
      ensures (cache.Value(), saved, result.Some?)
        == Watched(indexer.chain, old(cache.Value()), old(saved), false, indexHead, pairHead, saveOk)
      ensures saved == if result.Some? && (result.value.indicesAdded != 0 || result.value.pairsAdded != 0)
        then Some(cache.Value()) else old(saved)
      ensures result.Some? ==>
        && result.value.indicesAdded == |cache.indices| - |old(cache.indices)|
        && result.value.pairsAdded == |cache.pairs| - |old(cache.pairs)|
        && result.value.lastIndexBlock == cache.lastIndices && result.value.lastPairBlock == cache.lastPairs
    {
      var initialIndices, initialPairs := |cache.indices|, |cache.pairs|;
      SyncOnlyGrows(indexer.chain, cache.Value(), indexHead, pairHead);
      var report := indexer.Sync(cache, indexHead, pairHead);
      if report.None? {
        return None;
      }
      var newIndices, newPairs := |cache.indices| - initialIndices, |cache.pairs| - initialPairs;
      if 0 < newIndices || 0 < newPairs {
        if !saveOk {
          return None;
        }
        saved := Some(cache.Value());
      }
      result := Some(SyncReport(newIndices, newPairs, report.value.lastIndexBlock, report.value.lastPairBlock));
    }
  }

  lemma {:induction false} UnchangedUnlessGrown<P>(t: Table<P>, events: seq<Event<P>>)
    ensures |t.events| <= |AddAll(t, events).events|
    ensures |AddAll(t, events).events| == |t.events| ==> AddAll(t, events) == t
  {
    if events != [] {
      UnchangedUnlessGrown(t, events[..|events| - 1]);
    }
  }

  lemma KindOnlyGrows<P>(t: Table<P>, log: seq<LogEntry<P>>, start: nat, head: Option<nat>)
    ensures var next := SyncKind(t, log, start, head);
      next.Some? ==> |t.events| <= |next.value.events| && (|t.events| == |next.value.events| ==> next.value == t)
  {
    if head.Some? {
      UnchangedUnlessGrown(t, Fetch(log, SyncStart(t, start), head.value + 1));
    }
  }

  lemma SyncOnlyGrows(chain: Chain, c: Cache, indexHead: Option<nat>, pairHead: Option<nat>)
    ensures var next := FullSync(chain, c, indexHead, pairHead).0;
      && |c.indices.events| <= |next.indices.events| && |c.pairs.events| <= |next.pairs.events|
      && (|c.indices.events| == |next.indices.events| && |c.pairs.events| == |next.pairs.events| ==> next == c)
  {
    KindOnlyGrows(c.indices, chain.indexLog, chain.start, indexHead);
    KindOnlyGrows(c.pairs, chain.pairLog, chain.start, pairHead);
  }

  // ---- Runs ----

  // A copy with the first block its lineage has not yet fetched, per kind.
  datatype Copy = Copy(cache: Cache, indexEnd: nat, pairEnd: nat)

  datatype State = State(memory: Copy, saved: Option<Copy>, head: nat)

  datatype Step =
    | SyncAndSave(always: bool, indexHead: Option<nat>, pairHead: Option<nat>, saveOk: bool)
    | Restart(readable: bool)

  const EMPTY_COPY: Copy := Copy(EMPTY_CACHE, 0, 0)
  const INITIAL: State := State(EMPTY_COPY, None, 0)

  // Heads never decrease over a run.
  predicate Enabled(s: State, step: Step) {
    match step
    case SyncAndSave(_, ih, ph, _) =>
      && (ih.Some? ==> s.head <= ih.value)
      && (ph.Some? ==> s.head <= ph.value && (ih.Some? ==> ih.value <= ph.value))
    case Restart(_) => true
  }

  function NewHead(s: State, ih: Option<nat>, ph: Option<nat>): nat {
    if ph.Some? then ph.value else if ih.Some? then ih.value else s.head
  }

  // The copy in memory after a sync, however far the sync got.
  function NextCopy(chain: Chain, m: Copy, ih: Option<nat>, ph: Option<nat>): Copy {
    var (next, synced) := FullSync(chain, m.cache, ih, ph);
    var indicesOk := SyncKind(m.cache.indices, chain.indexLog, chain.start, ih).Some?;
    Copy(next,
      if indicesOk && ih.Some? then ih.value + 1 else m.indexEnd,
      if synced && ph.Some? then ph.value + 1 else m.pairEnd)
  }

  function CacheOf(copy: Option<Copy>): Option<Cache> {
    match copy
    case Some(c) => Some(c.cache)
    case None => None
  }

  function Apply(chain: Chain, s: State, step: Step): State {
    match step
    case SyncAndSave(always, ih, ph, saveOk) =>
      var copy := NextCopy(chain, s.memory, ih, ph);
      var saves := WantsSave(chain, s.memory.cache, always, ih, ph) && saveOk;
      State(copy, if saves then Some(copy) else s.saved, NewHead(s, ih, ph))
    case Restart(readable) =>
      s.(memory := if s.saved.Some? && readable then s.saved.value else EMPTY_COPY)
  }

  // The run's states carry exactly the watcher's caches.
  lemma ApplyMatchesWatcher(chain: Chain, s: State, always: bool, ih: Option<nat>, ph: Option<nat>, saveOk: bool)
    ensures var t := Apply(chain, s, SyncAndSave(always, ih, ph, saveOk));
      var (next, stored, _) := Watched(chain, s.memory.cache, CacheOf(s.saved), always, ih, ph, saveOk);
      t.memory.cache == next && CacheOf(t.saved) == stored
  {
  }

  predicate Run(chain: Chain, s: State, steps: seq<Step>, t: State)
    decreases |steps|
  {
    if steps == [] then s == t
    else Enabled(s, steps[0]) && Run(chain, Apply(chain, s, steps[0]), steps[1..], t)
  }

  // A copy is the full scan up to what its lineage has fetched.
  ghost predicate IsScan(chain: Chain, c: Copy, head: nat) {
    && c.cache.indices == Scan(chain.indexLog, chain.start, c.indexEnd)
    && c.cache.pairs == Scan(chain.pairLog, chain.start, c.pairEnd)
    && c.indexEnd <= head + 1 && c.pairEnd <= head + 1
    && Decodes(chain.indexLog, chain.start, c.indexEnd)
    && Decodes(chain.pairLog, chain.start, c.pairEnd)
  }

  ghost predicate Invariant(chain: Chain, s: State) {
    IsScan(chain, s.memory, s.head) && (s.saved.Some? ==> IsScan(chain, s.saved.value, s.head))
  }

  lemma EmptyIsScan(chain: Chain, head: nat)
    ensures IsScan(chain, EMPTY_COPY, head)
  {
    FetchEmptyRange(chain.indexLog, chain.start, 0);
    FetchEmptyRange(chain.pairLog, chain.start, 0);
  }

  lemma SyncedDecodes<P>(log: seq<LogEntry<P>>, start: nat, end: nat, head: nat)
    requires Decodes(log, start, end)
    requires SyncKind(Scan(log, start, end), log, start, Some(head)).Some?
    ensures Decodes(log, start, head + 1)
  {
    ScanMark(log, start, end);
  }

  // One kind of a copy, before and after its part of a sync.
  lemma KindAdvances<P>(log: seq<LogEntry<P>>, start: nat, t: Table<P>, end: nat, head: Option<nat>)
    requires ChainOrdered(log) && t == Scan(log, start, end) && Decodes(log, start, end)
    requires head.Some? ==> end <= head.value + 1
    ensures SyncKind(t, log, start, head).Some? ==>
      SyncKind(t, log, start, head).value == Scan(log, start, head.value + 1) && Decodes(log, start, head.value + 1)
  {
    if SyncKind(t, log, start, head).Some? {
      SyncRefinesScan(log, start, end, head.value);
      SyncedDecodes(log, start, end, head.value);
    }
  }

  lemma NextCopyIsScan(chain: Chain, m: Copy, head: nat, ih: Option<nat>, ph: Option<nat>, newHead: nat)
    requires ChainOrdered(chain.indexLog) && ChainOrdered(chain.pairLog)
    requires IsScan(chain, m, head) && head <= newHead
    requires ih.Some? ==> head <= ih.value <= newHead
    requires ph.Some? ==> head <= ph.value <= newHead
    ensures IsScan(chain, NextCopy(chain, m, ih, ph), newHead)
  {
    KindAdvances(chain.indexLog, chain.start, m.cache.indices, m.indexEnd, ih);
    KindAdvances(chain.pairLog, chain.start, m.cache.pairs, m.pairEnd, ph);
  }

  lemma StepKeepsInvariant(chain: Chain, s: State, step: Step)
    requires ChainOrdered(chain.indexLog) && ChainOrdered(chain.pairLog)
    requires Invariant(chain, s) && Enabled(s, step)
    ensures Invariant(chain, Apply(chain, s, step))
  {
    match step
    case Restart(_) =>
      EmptyIsScan(chain, s.head);
    case SyncAndSave(_, ih, ph, _) =>
      NextCopyIsScan(chain, s.memory, s.head, ih, ph, NewHead(s, ih, ph));
  }

  lemma {:induction false} RunKeepsInvariant(chain: Chain, s: State, steps: seq<Step>, t: State)
    requires ChainOrdered(chain.indexLog) && ChainOrdered(chain.pairLog)
    requires Invariant(chain, s) && Run(chain, s, steps, t)
    ensures Invariant(chain, t)
    decreases |steps|
  {
    if steps != [] {
      StepKeepsInvariant(chain, s, steps[0]);
      RunKeepsInvariant(chain, Apply(chain, s, steps[0]), steps[1..], t);
    }
  }

  // After any run the cache in memory, and the saved copy, equal the full scan
  // up to the last head their lineage fetched, and the marks are the highest
  // cached blocks.
  lemma CacheIsFullScan(chain: Chain, steps: seq<Step>, s: State)
    requires ChainOrdered(chain.indexLog) && ChainOrdered(chain.pairLog)
    requires Run(chain, INITIAL, steps, s)
    ensures s.memory.cache.indices.events == FirstPerHash(Fetch(chain.indexLog, chain.start, s.memory.indexEnd))
    ensures s.memory.cache.pairs.events == FirstPerHash(Fetch(chain.pairLog, chain.start, s.memory.pairEnd))
    ensures s.memory.cache.indices.last == MaxBlock(s.memory.cache.indices.events)
    ensures s.memory.cache.pairs.last == MaxBlock(s.memory.cache.pairs.events)
    ensures s.saved.Some? ==>
      && s.saved.value.cache.indices == Scan(chain.indexLog, chain.start, s.saved.value.indexEnd)
      && s.saved.value.cache.pairs == Scan(chain.pairLog, chain.start, s.saved.value.pairEnd)
  {
    EmptyIsScan(chain, 0);
    RunKeepsInvariant(chain, INITIAL, steps, s);
  }

  // A copy that was fetched up to some head finds nothing new up to that head,
  // of the kind with this log and table, under this condition alone.
  ghost predicate ResyncSettled<P>(log: seq<LogEntry<P>>, t: Table<P>, start: nat, end: nat) {
    var fetched := Fetch(log, start, end);
    0 < end ==>
      && (NewEntries(log, t.last, start, end - 1) == {} <==>
           fetched == [] || (0 < t.last && forall k :: 0 <= k < |fetched| ==> fetched[k].block <= t.last))
      && (NoSharedHash(fetched) ==> (NewEntries(log, t.last, start, end - 1) == {} <==> fetched == [] || 0 < t.last))
  }

  // Syncs are incremental over every run: another one at the same head reports
  // nothing exactly when nothing was fetched yet or a mark was left that no
  // fetched event lies above. Events that share a hash with an earlier one can
  // lie above it and are reported every time, as are those of block 0 while
  // there is no mark.
  lemma SyncsAreIncremental(chain: Chain, steps: seq<Step>, s: State)
    requires ChainOrdered(chain.indexLog) && ChainOrdered(chain.pairLog)
    requires Run(chain, INITIAL, steps, s)
    ensures ResyncSettled(chain.indexLog, s.memory.cache.indices, chain.start, s.memory.indexEnd)
    ensures ResyncSettled(chain.pairLog, s.memory.cache.pairs, chain.start, s.memory.pairEnd)
  {
    EmptyIsScan(chain, 0);
    RunKeepsInvariant(chain, INITIAL, steps, s);
    if 0 < s.memory.indexEnd {
      NothingLeft(chain.indexLog, chain.start, s.memory.indexEnd - 1);
    }
    if 0 < s.memory.pairEnd {
      NothingLeft(chain.pairLog, chain.start, s.memory.pairEnd - 1);
    }
  }

  // The cache holds every event fetched, as its own description says, exactly
  // when no two of a kind come from the same transaction.
  lemma EveryEventCached(chain: Chain, steps: seq<Step>, s: State)
    requires ChainOrdered(chain.indexLog) && ChainOrdered(chain.pairLog)
    requires Run(chain, INITIAL, steps, s)
    ensures var fetched := Fetch(chain.indexLog, chain.start, s.memory.indexEnd);
      s.memory.cache.indices.events == fetched <==> NoSharedHash(fetched)
    ensures var fetched := Fetch(chain.pairLog, chain.start, s.memory.pairEnd);
      s.memory.cache.pairs.events == fetched <==> NoSharedHash(fetched)
  {
    CacheIsFullScan(chain, steps, s);
    AllKept(Fetch(chain.indexLog, chain.start, s.memory.indexEnd));
    AllKept(Fetch(chain.pairLog, chain.start, s.memory.pairEnd));
  }

  lemma FetchTwo<P>(e: Event<P>, f: Event<P>)
    requires e.block < 10 && f.block < 10
    ensures Fetch([LogEntry(e, true), LogEntry(f, true)], 0, 10) == [e, f]
  {
    var first := [LogEntry(e, true)];
    assert first[..0] == [];
    assert Fetch(first, 0, 10) == [] + [e];
    assert [LogEntry(e, true), LogEntry(f, true)][..1] == first;
  }

  // Two pairs registered by one transaction: the second is never cached.
  lemma SharedTransactionDropped() returns (chain: Chain, steps: seq<Step>, s: State)
    ensures ChainOrdered(chain.indexLog) && ChainOrdered(chain.pairLog)
    ensures Run(chain, INITIAL, steps, s) && steps == [SyncAndSave(true, Some(9), Some(9), true)]
    ensures |Fetch(chain.pairLog, chain.start, s.memory.pairEnd)| == 2
    ensures |s.memory.cache.pairs.events| == 1
  {
    var e := Event(PairInfo(1, "a", "A", "USDC"), 5, "0xaa");
    var f := Event(PairInfo(2, "b", "B", "USDC"), 5, "0xaa");
    var log := [LogEntry(e, true), LogEntry(f, true)];
    var none: seq<LogEntry<IndexInfo>> := [];
    chain := Chain(none, log, 0);
    steps := [SyncAndSave(true, Some(9), Some(9), true)];
    s := Apply(chain, INITIAL, steps[0]);
    assert Fetch(none, 0, 10) == [];
    FetchTwo(e, f);
    assert steps[1..] == [] && Run(chain, INITIAL, steps, s);
    CacheIsFullScan(chain, steps, s);
    assert [e, f][..1] == [e] && [e][..0] == [];
    assert FirstPerHash([e]) == [e] && HasHash([e], "0xaa");
    assert FirstPerHash([e, f]) == [e];
  }

  predicate Undecodable<P>(log: seq<LogEntry<P>>, start: nat, block: nat) {
    exists i :: 0 <= i < |log| && !log[i].decodes && start <= log[i].event.block == block
  }

  // No run ever fetches past an entry that does not decode, of either kind.
  lemma UndecodableBlocks(chain: Chain, steps: seq<Step>, s: State, block: nat)
    requires ChainOrdered(chain.indexLog) && ChainOrdered(chain.pairLog)
    requires Run(chain, INITIAL, steps, s)
    ensures Undecodable(chain.indexLog, chain.start, block) ==> s.memory.indexEnd <= block
    ensures Undecodable(chain.pairLog, chain.start, block) ==> s.memory.pairEnd <= block
  {
    EmptyIsScan(chain, 0);
    RunKeepsInvariant(chain, INITIAL, steps, s);
  }

  // The indices are read first: once the chain has reached an index entry that
  // does not decode, nothing of either kind is ever synced again, and memory
  // only changes to an older copy when the service restarts.
  lemma {:induction false} NothingSyncsAfter(chain: Chain, s: State, steps: seq<Step>, t: State, block: nat)
    requires ChainOrdered(chain.indexLog) && ChainOrdered(chain.pairLog)
    requires Invariant(chain, s) && Run(chain, s, steps, t)
    requires Undecodable(chain.indexLog, chain.start, block) && block <= s.head
    ensures t.saved == s.saved
    ensures t.memory == s.memory || s.saved == Some(t.memory) || t.memory == EMPTY_COPY
    decreases |steps|
  {
    if steps != [] {
      var u := Apply(chain, s, steps[0]);
      StepKeepsInvariant(chain, s, steps[0]);
      match steps[0] {
        case SyncAndSave(_, ih, _, _) => NoSyncPast(chain.indexLog, chain.start, s.memory.indexEnd, block, ih);
        case Restart(_) =>
      }
      NothingSyncsAfter(chain, u, steps[1..], t, block);
    }
  }

  lemma NoSyncPast<P>(log: seq<LogEntry<P>>, start: nat, end: nat, block: nat, head: Option<nat>)
    requires Undecodable(log, start, block) && Decodes(log, start, end)
    requires head.Some? ==> block <= head.value
    ensures SyncKind(Scan(log, start, end), log, start, head).None?
  {
    var i :| 0 <= i < |log| && !log[i].decodes && start <= log[i].event.block == block;
    ScanMark(log, start, end);
  }

  // A run reaches such a state as soon as it has seen the entry's block.
  lemma UndecodableIndexStopsAll(
    chain: Chain, before: seq<Step>, s: State, after: seq<Step>, t: State, block: nat)
    requires ChainOrdered(chain.indexLog) && ChainOrdered(chain.pairLog)
    requires Run(chain, INITIAL, before, s) && Run(chain, s, after, t)
    requires Undecodable(chain.indexLog, chain.start, block) && block <= s.head
    ensures t.saved == s.saved
    ensures t.memory == s.memory || s.saved == Some(t.memory) || t.memory == EMPTY_COPY
  {
    EmptyIsScan(chain, 0);
    RunKeepsInvariant(chain, INITIAL, before, s);
    NothingSyncsAfter(chain, s, after, t, block);
  }

  // A poll that succeeds leaves the saved copy equal to memory exactly when it
  // found something new or the two already agreed.
  lemma SavedAfterPoll(
    chain: Chain, memory: Cache, saved: Option<Cache>, ih: Option<nat>, ph: Option<nat>, saveOk: bool)
    requires Watched(chain, memory, saved, false, ih, ph, saveOk).2
    ensures var (next, stored, _) := Watched(chain, memory, saved, false, ih, ph, saveOk);
      var grew := |next.indices.events| > |memory.indices.events| || |next.pairs.events| > |memory.pairs.events|;
      stored == Some(next) <==> grew || saved == Some(memory)
  {
    SyncOnlyGrows(chain, memory, ih, ph);
  }

  // ---- Memory and the stored copy over whole runs ----

  // The cache a readable stored copy would load as.
  function Stored(s: State): Cache {
    Loaded(CacheOf(s.saved), true)
  }

  // Since memory and the stored copy were last made the same, by a save or a
  // restart: whether a sync has added an event without saving it, and whether
  // a restart could not read a copy that is there.
  datatype History = History(unsaved: bool, unread: bool)

  const CLEAN: History := History(false, false)

  predicate Grew(before: Cache, after: Cache) {
    |before.indices.events| < |after.indices.events| || |before.pairs.events| < |after.pairs.events|
  }

  function NextHistory(chain: Chain, s: State, h: History, step: Step): History {
    match step
    case SyncAndSave(always, ih, ph, saveOk) =>
      if WantsSave(chain, s.memory.cache, always, ih, ph) && saveOk then CLEAN
      else h.(unsaved := h.unsaved || Grew(s.memory.cache, FullSync(chain, s.memory.cache, ih, ph).0))
    case Restart(readable) => if s.saved.Some? && !readable then History(false, true) else CLEAN
  }

  ghost function HistoryOf(chain: Chain, s: State, h: History, steps: seq<Step>, t: State): History
    requires Run(chain, s, steps, t)
    decreases |steps|
  {
    if steps == [] then h
    else HistoryOf(chain, Apply(chain, s, steps[0]), NextHistory(chain, s, h, steps[0]), steps[1..], t)
  }

  // A table that has only been added to.
  predicate Extends<P(==)>(t: Table<P>, u: Table<P>) {
    t.events <= u.events && (|t.events| == |u.events| ==> t == u)
  }

  lemma {:induction false} AddAllExtends<P>(t: Table<P>, events: seq<Event<P>>)
    ensures Extends(t, AddAll(t, events))
  {
    if events != [] {
      AddAllExtends(t, events[..|events| - 1]);
    }
  }

  lemma FullSyncExtends(chain: Chain, c: Cache, ih: Option<nat>, ph: Option<nat>)
    ensures var next := FullSync(chain, c, ih, ph).0; Extends(c.indices, next.indices) && Extends(c.pairs, next.pairs)
  {
    if ih.Some? {
      AddAllExtends(c.indices, Fetch(chain.indexLog, SyncStart(c.indices, chain.start), ih.value + 1));
    }
    if ph.Some? {
      AddAllExtends(c.pairs, Fetch(chain.pairLog, SyncStart(c.pairs, chain.start), ph.value + 1));
    }
  }

  ghost predicate Tracked(s: State, h: History) {
    !h.unread ==>
      && Extends(Stored(s).indices, s.memory.cache.indices)
      && Extends(Stored(s).pairs, s.memory.cache.pairs)
      && (s.memory.cache == Stored(s) <==> !h.unsaved)
  }

  lemma StepKeepsTracked(chain: Chain, s: State, h: History, step: Step)
    requires Tracked(s, h)
    ensures Tracked(Apply(chain, s, step), NextHistory(chain, s, h, step))
  {
    match step
    case SyncAndSave(_, ih, ph, _) => FullSyncExtends(chain, s.memory.cache, ih, ph);
    case Restart(_) =>
  }

  lemma {:induction false} RunKeepsTracked(chain: Chain, s: State, h: History, steps: seq<Step>, t: State)
    requires Tracked(s, h) && Run(chain, s, steps, t)
    ensures Tracked(t, HistoryOf(chain, s, h, steps, t))
    decreases |steps|
  {
    if steps != [] {
      StepKeepsTracked(chain, s, h, steps[0]);
      RunKeepsTracked(chain, Apply(chain, s, steps[0]), NextHistory(chain, s, h, steps[0]), steps[1..], t);
    }
  }

  // Over any run whose restarts could read the copy that was there, memory and
  // the stored copy agree exactly when no half-failed sync or failed save has
  // added an event since the last save or restart.
  lemma StoredAgreesIff(chain: Chain, steps: seq<Step>, s: State)
    requires Run(chain, INITIAL, steps, s)
    ensures var h := HistoryOf(chain, INITIAL, CLEAN, steps, s);
      !h.unread ==> (s.memory.cache == Stored(s) <==> !h.unsaved)
  {
    RunKeepsTracked(chain, INITIAL, CLEAN, steps, s);
  }

  function StoredCopy(s: State): Copy {
    if s.saved.Some? then s.saved.value else EMPTY_COPY
  }

  // In general they agree exactly when, of each kind, the log holds nothing new
  // between the blocks the two have been fetched to.
  lemma StoredAgreesByLog(chain: Chain, steps: seq<Step>, s: State)
    requires ChainOrdered(chain.indexLog) && ChainOrdered(chain.pairLog)
    requires Run(chain, INITIAL, steps, s)
    ensures s.memory.cache == Stored(s) <==>
      && NothingNew(chain.indexLog, chain.start, s.memory.indexEnd, StoredCopy(s).indexEnd)
      && NothingNew(chain.pairLog, chain.start, s.memory.pairEnd, StoredCopy(s).pairEnd)
  {
    EmptyIsScan(chain, 0);
    RunKeepsInvariant(chain, INITIAL, steps, s);
    EmptyIsScan(chain, s.head);
    SameScanIff(chain.indexLog, chain.start, s.memory.indexEnd, StoredCopy(s).indexEnd);
    SameScanIff(chain.pairLog, chain.start, s.memory.pairEnd, StoredCopy(s).pairEnd);
  }

  predicate AllKnown<P>(known: seq<Event<P>>, more: seq<Event<P>>) {
    forall i :: 0 <= i < |more| ==> HasHash(known, more[i].txHash)
  }

  // Every event from the lower block up to the higher one has a hash that
  // occurs before.
  predicate NothingNew<P>(log: seq<LogEntry<P>>, start: nat, end1: nat, end2: nat) {
    var low := if end1 <= end2 then end1 else end2;
    var high := if end1 <= end2 then end2 else end1;
    AllKnown(Fetch(log, start, low), Fetch(log, if low <= start then start else low, high))
  }

  lemma SameScanIff<P>(log: seq<LogEntry<P>>, start: nat, end1: nat, end2: nat)
    requires ChainOrdered(log)
    ensures Scan(log, start, end1) == Scan(log, start, end2) <==> NothingNew(log, start, end1, end2)
  {
    if end1 <= end2 {
      LongerScanSame(log, start, end1, end2);
    } else {
      LongerScanSame(log, start, end2, end1);
    }
  }

  lemma LongerScanSame<P>(log: seq<LogEntry<P>>, start: nat, low: nat, high: nat)
    requires ChainOrdered(log) && low <= high
    ensures Scan(log, start, low) == Scan(log, start, high) <==>
      AllKnown(Fetch(log, start, low), Fetch(log, if low <= start then start else low, high))
  {
    var some, all := Fetch(log, start, low), Fetch(log, start, high);
    var more := Fetch(log, if low <= start then start else low, high);
    if low <= start {
      FetchEmptyRange(log, start, low);
      assert some + more == all;
    } else {
      FetchSplit(log, start, low, high);
    }
    AddAllFromEmpty(some);
    AddAllFromEmpty(all);
    AddAllConcat(Empty(), some, more);
    SameAfterAdding(Scan(log, start, low), more);
    KnownByScan(some, more);
  }

  lemma KnownByScan<P>(some: seq<Event<P>>, more: seq<Event<P>>)
    ensures AllKnown(FirstPerHash(some), more) <==> AllKnown(some, more)
  {
    forall i | 0 <= i < |more|
      ensures HasHash(some, more[i].txHash) == HasHash(FirstPerHash(some), more[i].txHash)
    {
      FirstPerHashSameHashes(some, more[i].txHash);
    }
  }

  // Adding events changes nothing exactly when all are known.
  lemma {:induction false} SameAfterAdding<P>(t: Table<P>, events: seq<Event<P>>)
    ensures AddAll(t, events) == t <==> AllKnown(t.events, events)
  {
    if events != [] {
      var front, e := events[..|events| - 1], events[|events| - 1];
      SameAfterAdding(t, front);
      AddAllExtends(t, front);
      assert events == front + [e];
    }
  }

  // A half-failed sync followed by a successful poll that finds nothing new:
  // the poll reports success, yet the index it knows is not on disk.
  lemma HalfFailedSyncUnsaved() returns (chain: Chain, steps: seq<Step>, s: State)
    ensures ChainOrdered(chain.indexLog) && ChainOrdered(chain.pairLog)
    ensures steps == [SyncAndSave(false, Some(9), None, true), SyncAndSave(false, Some(9), Some(9), true)]
    ensures Run(chain, INITIAL, steps, s)
    ensures Watched(chain, Apply(chain, INITIAL, steps[0]).memory.cache, None, false, Some(9), Some(9), true).2
    ensures |s.memory.cache.indices.events| == 1 && s.saved == None && s.memory.cache != Stored(s)
  {
    var e := Event(IndexInfo(1, "a", "A", "0x1"), 5, "0xaa");
    var log := [LogEntry(e, true)];
    var none: seq<LogEntry<PairInfo>> := [];
    chain := Chain(log, none, 0);
    assert log[..0] == [];
    assert Fetch(log, 0, 10) == [e];
    AddAllOne(Empty(), e);
    assert AddAll(Empty(), [e]) == Table([e], 5);
    assert Fetch(log, 6, 10) == [];
    assert Fetch(none, 0, 10) == [];
    steps := [SyncAndSave(false, Some(9), None, true), SyncAndSave(false, Some(9), Some(9), true)];
    var first := Apply(chain, INITIAL, steps[0]);
    assert first.memory.cache == Cache(Table([e], 5), Empty()) && first.saved == None;
    s := Apply(chain, first, steps[1]);
    assert steps[1..] == [steps[1]] && [steps[1]][1..] == [];
    assert Run(chain, first, steps[1..], s);
  }
}
