// The event cache and its incremental sync against an append-only chain log
// (libs/common/src/event_cache/types.rs, indexer.rs).
module EventTables {
  import opened Prelude

  datatype IndexInfo = IndexInfo(indexId: U128, name: string, symbol: string, vault: string)
  datatype PairInfo = PairInfo(pairId: U128, symbol: string, base: string, quote: string)

  datatype Event<+P> = Event(info: P, block: nat, txHash: string)

  // A log entry of the chain; one that does not decode fails the whole sync.
  datatype LogEntry<+P> = LogEntry(event: Event<P>, decodes: bool)

  // The cached events of one kind and the highest block among them.
  datatype Table<+P> = Table(events: seq<Event<P>>, last: nat)

  function Empty<P>(): Table<P> { Table([], 0) }

  predicate HasHash<P>(events: seq<Event<P>>, hash: string) {
    exists i :: 0 <= i < |events| && events[i].txHash == hash
  }

  function AddEvent<P>(t: Table<P>, e: Event<P>): Table<P> {
    if HasHash(t.events, e.txHash) then t
    else Table(t.events + [e], if t.last < e.block then e.block else t.last)
  }

  function AddAll<P>(t: Table<P>, events: seq<Event<P>>): Table<P> {
    if events == [] then t
    else AddEvent(AddAll(t, events[..|events| - 1]), events[|events| - 1])
  }

  // The log from block `from` up to but not including block `end`, in order.
  function Fetch<P>(log: seq<LogEntry<P>>, from: nat, end: nat): seq<Event<P>> {
    if log == [] then []
    else
      var before := Fetch(log[..|log| - 1], from, end);
      var e := log[|log| - 1].event;
      if from <= e.block < end then before + [e] else before
  }

  predicate Decodes<P>(log: seq<LogEntry<P>>, from: nat, end: nat) {
    forall i :: 0 <= i < |log| && from <= log[i].event.block < end ==> log[i].decodes
  }

  // The chain appends: blocks never decrease along the log.
  predicate ChainOrdered<P>(log: seq<LogEntry<P>>) {
    forall i, j :: 0 <= i < j < |log| ==> log[i].event.block <= log[j].event.block
  }

  // The positions of the log's entries in a range of blocks.
  ghost function InBlocks<P>(log: seq<LogEntry<P>>, from: nat, end: nat): set<nat> {
    set i | 0 <= i < |log| && from <= log[i].event.block < end
  }

  lemma InBlocksSnoc<P>(log: seq<LogEntry<P>>, from: nat, end: nat)
    requires log != []
    ensures var n := |log| - 1;
      InBlocks(log, from, end)
        == InBlocks(log[..n], from, end) + if from <= log[n].event.block < end then {n} else {}
  {
    var n := |log| - 1;
    assert forall i :: 0 <= i < n ==> log[..n][i] == log[i];
  }

  // A fetch returns every event in range, once and in the order of the log.
  lemma {:induction false} FetchIsRange<P>(log: seq<LogEntry<P>>, from: nat, end: nat) returns (at: seq<nat>)
    ensures Lists(at, InBlocks(log, from, end)) && |at| == |Fetch(log, from, end)|
    ensures forall k :: 0 <= k < |at| ==> at[k] < |log| && Fetch(log, from, end)[k] == log[at[k]].event
  {
    if log == [] {
      at := [];
    } else {
      var n := |log| - 1;
      at := FetchIsRange(log[..n], from, end);
      InBlocksSnoc(log, from, end);
      if from <= log[n].event.block < end {
        ListsSnoc(at, InBlocks(log[..n], from, end), n);
        at := at + [n];
      }
    }
  }

  lemma FetchCount<P>(log: seq<LogEntry<P>>, from: nat, end: nat)
    ensures |Fetch(log, from, end)| == |InBlocks(log, from, end)|
  {
    var at := FetchIsRange(log, from, end);
    ListsCount(at, InBlocks(log, from, end));
  }

  // What a sync has to fetch: the entries above the mark, or all from the start
  // block on while there is no mark yet.
  ghost function NewEntries<P>(log: seq<LogEntry<P>>, mark: nat, start: nat, head: nat): set<nat> {
    set i | 0 <= i < |log| && (if 0 < mark then mark < log[i].event.block else start <= log[i].event.block)
      && log[i].event.block <= head
  }

  function SyncStart<P>(t: Table<P>, start: nat): nat {
    if 0 < t.last then t.last + 1 else start
  }

  ghost predicate AllDecode<P>(log: seq<LogEntry<P>>, mark: nat, start: nat, head: nat) {
    forall i :: i in NewEntries(log, mark, start, head) ==> log[i].decodes
  }

  lemma FetchedIsNew<P>(t: Table<P>, log: seq<LogEntry<P>>, start: nat, head: nat)
    ensures |Fetch(log, SyncStart(t, start), head + 1)| == |NewEntries(log, t.last, start, head)|
    ensures Decodes(log, SyncStart(t, start), head + 1) <==> AllDecode(log, t.last, start, head)
  {
    FetchCount(log, SyncStart(t, start), head + 1);
    assert InBlocks(log, SyncStart(t, start), head + 1) == NewEntries(log, t.last, start, head);
    assert forall i :: 0 <= i < |log| ==>
      (SyncStart(t, start) <= log[i].event.block < head + 1 <==> i in NewEntries(log, t.last, start, head));
  }

  // One kind's part of a sync at the given head; None is an error, which
  // leaves the table alone.
  function SyncKind<P>(t: Table<P>, log: seq<LogEntry<P>>, start: nat, head: Option<nat>): Option<Table<P>> {
    if head.None? then None
    else
      var from := SyncStart(t, start);
      if Decodes(log, from, head.value + 1) then Some(AddAll(t, Fetch(log, from, head.value + 1))) else None
  }

  // ---- The reference: scan everything ----

  // Each hash once, at its first occurrence.
  function FirstPerHash<P>(events: seq<Event<P>>): seq<Event<P>> {
    if events == [] then []
    else
      var before := FirstPerHash(events[..|events| - 1]);
      var e := events[|events| - 1];
      if HasHash(events[..|events| - 1], e.txHash) then before else before + [e]
  }

  function MaxBlock<P>(events: seq<Event<P>>): nat {
    if events == [] then 0
    else
      var before := MaxBlock(events[..|events| - 1]);
      if before < events[|events| - 1].block then events[|events| - 1].block else before
  }

  // What a full scan of the log up to block `end` would cache.
  function Scan<P>(log: seq<LogEntry<P>>, start: nat, end: nat): Table<P> {
    var events := FirstPerHash(Fetch(log, start, end));
    Table(events, MaxBlock(events))
  }

  lemma {:induction false} FirstPerHashSameHashes<P>(events: seq<Event<P>>, hash: string)
    ensures HasHash(FirstPerHash(events), hash) <==> HasHash(events, hash)
  {
    if events != [] {
      var front, e := events[..|events| - 1], events[|events| - 1];
      FirstPerHashSameHashes(front, hash);
      HasHashSnoc(front, e, hash);
      HasHashSnoc(FirstPerHash(front), e, hash);
      assert events == front + [e];
    }
  }

  lemma HasHashSnoc<P>(events: seq<Event<P>>, e: Event<P>, hash: string)
    ensures HasHash(events + [e], hash) <==> HasHash(events, hash) || e.txHash == hash
  {
    var longer := events + [e];
    if HasHash(events, hash) {
      var i :| 0 <= i < |events| && events[i].txHash == hash;
      assert longer[i].txHash == hash;
    }
    if e.txHash == hash {
      assert longer[|events|].txHash == hash;
    }
  }

  lemma MaxBlockSnoc<P>(events: seq<Event<P>>, e: Event<P>)
    ensures MaxBlock(events + [e]) == if MaxBlock(events) < e.block then e.block else MaxBlock(events)
  {
    assert (events + [e])[..|events|] == events;
  }

  // Adding events to an empty cache one by one keeps the first per hash, and
  // the high-water mark is the highest block kept.
  lemma {:induction false} AddAllFromEmpty<P>(events: seq<Event<P>>)
    ensures AddAll(Empty(), events) == Table(FirstPerHash(events), MaxBlock(FirstPerHash(events)))
  {
    if events != [] {
      var front, e := events[..|events| - 1], events[|events| - 1];
      AddAllFromEmpty(front);
      FirstPerHashSameHashes(front, e.txHash);
      MaxBlockSnoc(FirstPerHash(front), e);
    }
  }

  lemma AddAllOne<P>(t: Table<P>, e: Event<P>)
    ensures AddAll(t, [e]) == AddEvent(t, e)
  {
    assert [e][..0] == [];
  }

  lemma {:induction false} AddAllConcat<P>(t: Table<P>, a: seq<Event<P>>, b: seq<Event<P>>)
    ensures AddAll(t, a + b) == AddAll(AddAll(t, a), b)
  {
    if b == [] {
      assert a + b == a;
    } else {
      var front := b[..|b| - 1];
      assert (a + b)[..|a + b| - 1] == a + front;
      AddAllConcat(t, a, front);
    }
  }

  lemma {:induction false} AddKnown<P>(t: Table<P>, events: seq<Event<P>>)
    requires forall i :: 0 <= i < |events| ==> HasHash(t.events, events[i].txHash)
    ensures AddAll(t, events) == t
  {
    if events != [] {
      AddKnown(t, events[..|events| - 1]);
    }
  }

  lemma {:induction false} FetchMembers<P>(log: seq<LogEntry<P>>, from: nat, end: nat, k: nat)
    requires k < |Fetch(log, from, end)|
    ensures from <= Fetch(log, from, end)[k].block < end
  {
    var front := log[..|log| - 1];
    if k < |Fetch(front, from, end)| {
      FetchMembers(front, from, end, k);
    }
  }

  lemma {:induction false} FetchNarrower<P>(log: seq<LogEntry<P>>, wide: nat, from: nat, end: nat, k: nat)
    requires wide <= from && k < |Fetch(log, from, end)|
    ensures exists j :: 0 <= j < |Fetch(log, wide, end)| && Fetch(log, wide, end)[j] == Fetch(log, from, end)[k]
  {
    var front, e := log[..|log| - 1], log[|log| - 1].event;
    if k < |Fetch(front, from, end)| {
      FetchNarrower(front, wide, from, end, k);
      var j :| 0 <= j < |Fetch(front, wide, end)| && Fetch(front, wide, end)[j] == Fetch(front, from, end)[k];
      assert Fetch(log, wide, end)[j] == Fetch(log, from, end)[k];
    } else {
      assert Fetch(log, wide, end)[|Fetch(front, wide, end)|] == e;
    }
  }

  lemma {:induction false} FetchEmptyRange<P>(log: seq<LogEntry<P>>, from: nat, end: nat)
    requires end <= from
    ensures Fetch(log, from, end) == []
  {
    if log != [] {
      FetchEmptyRange(log[..|log| - 1], from, end);
    }
  }

  // On an ordered log a range splits at any block.
  lemma {:induction false} FetchSplit<P>(log: seq<LogEntry<P>>, from: nat, mid: nat, end: nat)
    requires ChainOrdered(log) && from <= mid <= end
    ensures Fetch(log, from, end) == Fetch(log, from, mid) + Fetch(log, mid, end)
  {
    if log != [] {
      var front, e := log[..|log| - 1], log[|log| - 1].event;
      FetchSplit(front, from, mid, end);
      if from <= e.block < mid {
        FetchNothingAfter(front, e.block, mid, end);
      }
    }
  }

  lemma {:induction false} FetchNothingAfter<P>(log: seq<LogEntry<P>>, top: nat, mid: nat, end: nat)
    requires forall i :: 0 <= i < |log| ==> log[i].event.block <= top
    requires top < mid
    ensures Fetch(log, mid, end) == []
  {
    if log != [] {
      FetchNothingAfter(log[..|log| - 1], top, mid, end);
    }
  }

  lemma {:induction false} MaxBlockBound<P>(events: seq<Event<P>>)
    ensures forall i :: 0 <= i < |events| ==> events[i].block <= MaxBlock(events)
    ensures MaxBlock(events) > 0 ==> exists i :: 0 <= i < |events| && events[i].block == MaxBlock(events)
  {
    if events != [] {
      var front := events[..|events| - 1];
      MaxBlockBound(front);
      if MaxBlock(events) == MaxBlock(front) && 0 < MaxBlock(front) {
        var i :| 0 <= i < |front| && front[i].block == MaxBlock(front);
        assert events[i] == front[i];
      } else if 0 < MaxBlock(events) {
        assert events[|events| - 1].block == MaxBlock(events);
      }
    }
  }

  lemma {:induction false} FirstPerHashFrom<P>(events: seq<Event<P>>, k: nat)
    requires k < |FirstPerHash(events)|
    ensures exists i ::
      0 <= i < |events| && events[i] == FirstPerHash(events)[k] && !HasHash(events[..i], events[i].txHash)
  {
    var front, e := events[..|events| - 1], events[|events| - 1];
    if k < |FirstPerHash(front)| {
      FirstPerHashFrom(front, k);
      var i :| 0 <= i < |front| && front[i] == FirstPerHash(front)[k] && !HasHash(front[..i], front[i].txHash);
      assert events[i] == front[i] && events[..i] == front[..i];
    } else {
      assert events[..|events| - 1] == front;
    }
  }

  predicate NoSharedHash<P>(events: seq<Event<P>>) {
    forall i, j :: 0 <= i < j < |events| ==> events[i].txHash != events[j].txHash
  }

  // Keeping the first per hash keeps everything exactly when no two events
  // share one.
  lemma {:induction false} AllKept<P>(events: seq<Event<P>>)
    ensures |FirstPerHash(events)| <= |events|
    ensures FirstPerHash(events) == events <==> NoSharedHash(events)
  {
    if events != [] {
      var front, e := events[..|events| - 1], events[|events| - 1];
      AllKept(front);
      assert events == front + [e];
      NoSharedHashSnoc(front, e);
      if FirstPerHash(events) == events {
        assert |FirstPerHash(front)| == |front| && !HasHash(front, e.txHash);
        assert FirstPerHash(events)[..|front|] == FirstPerHash(front);
      }
    }
  }

  lemma NoSharedHashSnoc<P>(front: seq<Event<P>>, e: Event<P>)
    ensures NoSharedHash(front + [e]) <==> NoSharedHash(front) && !HasHash(front, e.txHash)
  {
    var all := front + [e];
    if NoSharedHash(all) {
      assert all[|front|] == e;
      assert forall i :: 0 <= i < |front| ==> all[i] == front[i];
    }
  }

  // The mark of a scan lies inside the scanned range.
  lemma ScanMark<P>(log: seq<LogEntry<P>>, start: nat, end: nat)
    ensures 0 < Scan(log, start, end).last ==> start <= Scan(log, start, end).last < end
  {
    var fetched := Fetch(log, start, end);
    var kept := FirstPerHash(fetched);
    MaxBlockBound(kept);
    if 0 < MaxBlock(kept) {
      var k :| 0 <= k < |kept| && kept[k].block == MaxBlock(kept);
      FirstPerHashFrom(fetched, k);
      var i :| 0 <= i < |fetched| && fetched[i] == kept[k];
      FetchMembers(log, start, end, i);
    }
  }

  // Everything in an already scanned range is known by its hash.
  lemma RescanKnown<P>(log: seq<LogEntry<P>>, start: nat, from: nat, end: nat)
    requires start <= from
    ensures AddAll(Scan(log, start, end), Fetch(log, from, end)) == Scan(log, start, end)
  {
    var again, all := Fetch(log, from, end), Fetch(log, start, end);
    forall k | 0 <= k < |again|
      ensures HasHash(Scan(log, start, end).events, again[k].txHash)
    {
      FetchNarrower(log, start, from, end, k);
      var j :| 0 <= j < |all| && all[j] == again[k];
      assert HasHash(all, again[k].txHash);
      FirstPerHashSameHashes(all, again[k].txHash);
    }
    AddKnown(Scan(log, start, end), again);
  }

  // A longer scan is a shorter one with the rest added.
  lemma ScanAppends<P>(log: seq<LogEntry<P>>, start: nat, mid: nat, end: nat)
    requires ChainOrdered(log) && start <= mid <= end
    ensures Scan(log, start, end) == AddAll(Scan(log, start, mid), Fetch(log, mid, end))
  {
    FetchSplit(log, start, mid, end);
    AddAllConcat(Empty(), Fetch(log, start, mid), Fetch(log, mid, end));
    AddAllFromEmpty(Fetch(log, start, mid));
    AddAllFromEmpty(Fetch(log, start, end));
  }

  // Beyond a scanned range a fetch adds to the scan, rescanned blocks nothing.
  lemma ScanExtends<P>(log: seq<LogEntry<P>>, start: nat, from: nat, mid: nat, end: nat)
    requires ChainOrdered(log) && start <= from <= mid <= end
    ensures AddAll(Scan(log, start, mid), Fetch(log, from, end)) == Scan(log, start, end)
  {
    FetchSplit(log, from, mid, end);
    RescanKnown(log, start, from, mid);
    AddAllConcat(Scan(log, start, mid), Fetch(log, from, mid), Fetch(log, mid, end));
    ScanAppends(log, start, mid, end);
  }

  // The main refinement step: a successful sync turns the scan up to one head
  // into the scan up to a later one.
  lemma SyncRefinesScan<P>(log: seq<LogEntry<P>>, start: nat, end: nat, head: nat)
    requires ChainOrdered(log) && end <= head + 1
    requires SyncKind(Scan(log, start, end), log, start, Some(head)).Some?
    ensures SyncKind(Scan(log, start, end), log, start, Some(head)) == Some(Scan(log, start, head + 1))
  {
    ScanMark(log, start, end);
    if end <= start {
      FetchEmptyRange(log, start, end);
      AddAllFromEmpty(Fetch(log, start, head + 1));
    } else {
      ScanExtends(log, start, SyncStart(Scan(log, start, end), start), end, head + 1);
    }
  }

  // The number of events a sync reports is the number it fetched; it is the
  // number it added exactly when none was known and none repeats.
  lemma {:induction false} ReportedAgainstAdded<P>(t: Table<P>, events: seq<Event<P>>)
    ensures |t.events| <= |AddAll(t, events).events| <= |t.events| + |events|
    ensures |AddAll(t, events).events| == |t.events| + |events| <==>
      forall i :: 0 <= i < |events| ==> !HasHash(t.events + events[..i], events[i].txHash)
  {
    if events != [] {
      var front, e := events[..|events| - 1], events[|events| - 1];
      ReportedAgainstAdded(t, front);
      AddAllHashes(t, front, e.txHash);
      assert forall i :: 0 <= i < |front| ==> events[..i] == front[..i] && events[i] == front[i];
      assert events[..|front|] == front;
    }
  }

  lemma {:induction false} AddAllHashes<P>(t: Table<P>, events: seq<Event<P>>, hash: string)
    ensures HasHash(AddAll(t, events).events, hash) <==> HasHash(t.events + events, hash)
  {
    if events == [] {
      assert t.events + events == t.events;
    } else {
      var front, e := events[..|events| - 1], events[|events| - 1];
      AddAllHashes(t, front, hash);
      AddAllHashes(t, front, e.txHash);
      assert t.events + events == t.events + front + [e];
      HasHashSnoc(t.events + front, e, hash);
      HasHashSnoc(AddAll(t, front).events, e, hash);
    }
  }

  // A second sync at the same head fetches nothing exactly when nothing was
  // there to fetch or the first one left a mark that no event lies above; if no
  // hash is shared, exactly when it left a mark at all.
  lemma NothingLeft<P>(log: seq<LogEntry<P>>, start: nat, head: nat)
    ensures var mark, fetched := Scan(log, start, head + 1).last, Fetch(log, start, head + 1);
      && (NewEntries(log, mark, start, head) == {} <==>
           fetched == [] || (0 < mark && forall k :: 0 <= k < |fetched| ==> fetched[k].block <= mark))
      && (NoSharedHash(fetched) ==> (NewEntries(log, mark, start, head) == {} <==> fetched == [] || 0 < mark))
  {
    var mark, fetched := Scan(log, start, head + 1).last, Fetch(log, start, head + 1);
    var at := FetchIsRange(log, start, head + 1);
    ScanMark(log, start, head + 1);
    NewAreFetched(log, mark, start, head, fetched, at);
    if NoSharedHash(fetched) {
      AllKept(fetched);
      MaxBlockBound(fetched);
    }
  }

  lemma NewAreFetched<P>(
    log: seq<LogEntry<P>>, mark: nat, start: nat, head: nat, fetched: seq<Event<P>>, at: seq<nat>)
    requires 0 < mark ==> start <= mark
    requires Lists(at, InBlocks(log, start, head + 1)) && |at| == |fetched|
    requires forall k :: 0 <= k < |at| ==> at[k] < |log| && fetched[k] == log[at[k]].event
    ensures NewEntries(log, mark, start, head) == {} <==>
      fetched == [] || (0 < mark && forall k :: 0 <= k < |fetched| ==> fetched[k].block <= mark)
  {
    if i :| i in NewEntries(log, mark, start, head) {
      assert i in InBlocks(log, start, head + 1);
      var k :| 0 <= k < |at| && at[k] == i;
      assert fetched[k].block == log[i].event.block;
    } else {
      forall k | 0 <= k < |fetched|
        ensures 0 < mark && fetched[k].block <= mark
      {
        assert at[k] in InBlocks(log, start, head + 1) && at[k] !in NewEntries(log, mark, start, head);
      }
      assert fetched != [] ==> fetched[0].block <= mark;
      assert NewEntries(log, mark, start, head) == {};
    }
  }
}
