// Polling the chain for vault events in block windows
// (bin/keeper/src/chain/event_listener.rs).
module Polling {
  import opened Prelude

  type Vault = nat

  // A malformed entry cannot even be rebuilt as a log and aborts the poll; an
  // unparseable one is skipped.
  datatype Kind = Parseable | Unparseable | Malformed

  // `position` numbers the chain's logs: no two share one.
  datatype ChainLog = ChainLog(position: nat, vault: Vault, block: nat, kind: Kind)

  type Chain = seq<ChainLog>

  predicate ChainOrdered(chain: Chain) {
    forall i, j :: 0 <= i < j < |chain| ==> chain[i].block <= chain[j].block && chain[i].position < chain[j].position
  }

  // The answer to a log query: blocks after `from` up to `to`, given vaults.
  predicate InWindow(log: ChainLog, from: nat, to: nat, vaults: seq<Vault>) {
    from < log.block <= to && log.vault in vaults
  }

  function Query(chain: Chain, from: nat, to: nat, vaults: seq<Vault>): seq<ChainLog> {
    if chain == [] then []
    else
      var before := Query(chain[..|chain| - 1], from, to, vaults);
      var last := chain[|chain| - 1];
      if InWindow(last, from, to, vaults) then before + [last] else before
  }

  // What processing the answer emits, and whether it got through.
  function Emit(logs: seq<ChainLog>): (seq<ChainLog>, bool) {
    if logs == [] then ([], true)
    else
      var (before, ok) := Emit(logs[..|logs| - 1]);
      var last := logs[|logs| - 1];
      if !ok then (before, false)
      else if last.kind.Malformed? then (before, false)
      else if last.kind.Parseable? then (before + [last], true)
      else (before, true)
  }

  function AddedVaults(vaults: seq<Vault>, more: seq<Vault>): seq<Vault> {
    if more == [] then vaults
    else
      var before := AddedVaults(vaults, more[..|more| - 1]);
      if more[|more| - 1] in before then before else before + [more[|more| - 1]]
  }

  // ---- What these lists hold, position by position ----

  ghost function InRange(chain: Chain, from: nat, to: nat, vaults: seq<Vault>): set<nat> {
    set i | 0 <= i < |chain| && from < chain[i].block <= to && chain[i].vault in vaults
  }

  // A query returns every log in range, once and in the order of the chain.
  lemma {:induction false} QueryIsRange(chain: Chain, from: nat, to: nat, vaults: seq<Vault>) returns (at: seq<nat>)
    ensures Lists(at, InRange(chain, from, to, vaults)) && |at| == |Query(chain, from, to, vaults)|
    ensures forall k :: 0 <= k < |at| ==> at[k] < |chain| && Query(chain, from, to, vaults)[k] == chain[at[k]]
  {
    if chain == [] {
      at := [];
    } else {
      var n := |chain| - 1;
      at := QueryIsRange(chain[..n], from, to, vaults);
      var before := InRange(chain[..n], from, to, vaults);
      assert forall i :: 0 <= i < n ==> chain[..n][i] == chain[i];
      if InWindow(chain[n], from, to, vaults) {
        ListsSnoc(at, before, n);
        assert InRange(chain, from, to, vaults) == before + {n};
        at := at + [n];
      } else {
        assert InRange(chain, from, to, vaults) == before;
      }
    }
  }

  ghost function ParseableUpTo(logs: seq<ChainLog>, stop: nat): set<nat> {
    set i | 0 <= i < |logs| && i < stop && logs[i].kind.Parseable?
  }

  // What is emitted are the parseable logs before the first malformed one; it
  // gets through exactly when there is none.
  lemma {:induction false} EmittedUpTo(logs: seq<ChainLog>) returns (stop: nat, at: seq<nat>)
    ensures stop <= |logs| && (Emit(logs).1 <==> stop == |logs|)
    ensures stop < |logs| ==> logs[stop].kind.Malformed?
    ensures forall i :: 0 <= i < stop ==> !logs[i].kind.Malformed?
    ensures Lists(at, ParseableUpTo(logs, stop)) && |at| == |Emit(logs).0|
    ensures forall k :: 0 <= k < |at| ==> at[k] < |logs| && Emit(logs).0[k] == logs[at[k]]
  {
    if logs == [] {
      stop, at := 0, [];
    } else {
      var n := |logs| - 1;
      var front := logs[..n];
      stop, at := EmittedUpTo(front);
      assert forall i :: 0 <= i < n ==> front[i] == logs[i];
      var before := ParseableUpTo(front, stop);
      if stop == n && !logs[n].kind.Malformed? {
        stop := n + 1;
        if logs[n].kind.Parseable? {
          ListsSnoc(at, before, n);
          assert ParseableUpTo(logs, stop) == before + {n};
          at := at + [n];
        } else {
          assert ParseableUpTo(logs, stop) == before;
        }
      } else {
        assert ParseableUpTo(logs, stop) == before;
      }
    }
  }

  ghost function NewVaults(vaults: seq<Vault>, more: seq<Vault>): set<nat> {
    set i | 0 <= i < |more| && more[i] !in vaults && more[i] !in more[..i]
  }

  // Behind the old vaults come the new ones, each once, in the order of their
  // first mention.
  lemma {:induction false} AddedAreNew(vaults: seq<Vault>, more: seq<Vault>) returns (at: seq<nat>)
    ensures Lists(at, NewVaults(vaults, more)) && |AddedVaults(vaults, more)| == |vaults| + |at|
    ensures vaults <= AddedVaults(vaults, more)
    ensures forall k :: 0 <= k < |at| ==> at[k] < |more| && AddedVaults(vaults, more)[|vaults| + k] == more[at[k]]
  {
    if more == [] {
      at := [];
    } else {
      var n := |more| - 1;
      at := AddedAreNew(vaults, more[..n]);
      AddedMembers(vaults, more[..n]);
      var before := NewVaults(vaults, more[..n]);
      NewVaultsSnoc(vaults, more);
      if more[n] !in AddedVaults(vaults, more[..n]) {
        ListsSnoc(at, before, n);
        at := at + [n];
      }
    }
  }

  lemma NewVaultsSnoc(vaults: seq<Vault>, more: seq<Vault>)
    requires more != []
    ensures var n := |more| - 1;
      NewVaults(vaults, more)
        == NewVaults(vaults, more[..n]) + if more[n] !in vaults && more[n] !in more[..n] then {n} else {}
  {
    var n := |more| - 1;
    assert forall i :: 0 <= i < n ==> more[..n][i] == more[i] && more[..n][..i] == more[..i];
  }

  // No log in range is malformed.
  ghost predicate Clean(chain: Chain, from: nat, to: nat, vaults: seq<Vault>) {
    forall i :: i in InRange(chain, from, to, vaults) ==> !chain[i].kind.Malformed?
  }

  lemma EmittedIfClean(chain: Chain, from: nat, to: nat, vaults: seq<Vault>)
    ensures Emit(Query(chain, from, to, vaults)).1 <==> Clean(chain, from, to, vaults)
  {
    var at := QueryIsRange(chain, from, to, vaults);
    var stop, shown := EmittedUpTo(Query(chain, from, to, vaults));
    assert forall k :: 0 <= k < |at| ==> at[k] in InRange(chain, from, to, vaults);
    if !Clean(chain, from, to, vaults) {
      var i :| i in InRange(chain, from, to, vaults) && chain[i].kind.Malformed?;
      var k :| 0 <= k < |at| && at[k] == i;
      assert Query(chain, from, to, vaults)[k].kind.Malformed?;
    }
  }

  class ChainEventListener {
    const chain: Chain
    var vaults: seq<Vault>
    var lastProcessed: nat
    var emitted: seq<ChainLog>

    constructor (watched: Chain, initial: seq<Vault>, block: nat)
      ensures chain == watched && vaults == initial && lastProcessed == block && emitted == []
    {
      chain, vaults, lastProcessed, emitted := watched, initial, block, [];
    }

    method AddVaults(more: seq<Vault>) returns (added: nat)
      modifies this`vaults
      ensures vaults == AddedVaults(old(vaults), more)
      ensures added == |vaults| - |old(vaults)| == |NewVaults(old(vaults), more)|
    {
      added := 0;
      for i := 0 to |more|
        invariant vaults == AddedVaults(old(vaults), more[..i])
        invariant added == |vaults| - |old(vaults)|
      {
        assert more[..i + 1][..i] == more[..i];
        if more[i] !in vaults {
          vaults := vaults + [more[i]];
          added := added + 1;
        }
      }
      assert more[..|more|] == more;
      ghost var at := AddedAreNew(old(vaults), more);
      ListsCount(at, NewVaults(old(vaults), more));
    }

    method EmitLogs(logs: seq<ChainLog>) returns (ok: bool)
      modifies this`emitted
      ensures emitted == old(emitted) + Emit(logs).0 && ok == Emit(logs).1
    {
      for i := 0 to |logs|
        invariant emitted == old(emitted) + Emit(logs[..i]).0 && Emit(logs[..i]).1
      {
        assert logs[..i + 1][..i] == logs[..i];
        if logs[i].kind.Malformed? {
          EmitStops(logs, i + 1);
          return false;
        }
        if logs[i].kind.Parseable? {
          emitted := emitted + [logs[i]];
        }
      }
      assert logs[..|logs|] == logs;
      return true;
    }

    // A whole poll with nothing happening in between; None is a failed request.
    method PollEvents(head: Option<nat>, answered: bool) returns (ok: bool)
      modifies this`emitted, this`lastProcessed
      ensures (lastProcessed, emitted, ok)
        == Polled(chain, vaults, old(lastProcessed), old(emitted), head, answered)
      ensures var due := head.Some? && old(lastProcessed) < head.value && vaults != [];
        var clean := head.Some? && Clean(chain, old(lastProcessed), head.value, vaults);
        && (ok <==> head.Some? && (due ==> answered && clean))
        && lastProcessed == (if due && answered && clean then head.value else old(lastProcessed))
        && (emitted != old(emitted) ==> due && answered)
    {
      var from := lastProcessed;
      if head.None? {
        return false;
      }
      var to := head.value;
      if to <= from {
        return true;
      }
      if vaults == [] {
        return true;
      }
      if !answered {
        return false;
      }
      EmittedIfClean(chain, from, to, vaults);
      ok := EmitLogs(Query(chain, from, to, vaults));
      if ok {
        lastProcessed := to;
      }
    }
  }

  function Polled(
    chain: Chain, vaults: seq<Vault>, last: nat, emitted: seq<ChainLog>, head: Option<nat>, answered: bool)
    : (nat, seq<ChainLog>, bool)
  {
    if head.None? then (last, emitted, false)
    else if head.value <= last || vaults == [] then (last, emitted, true)
    else if !answered then (last, emitted, false)
    else
      var (sent, ok) := Emit(Query(chain, last, head.value, vaults));
      (if ok then head.value else last, emitted + sent, ok)
  }

  lemma {:induction false} EmitStops(logs: seq<ChainLog>, k: nat)
    requires k <= |logs| && !Emit(logs[..k]).1
    ensures Emit(logs) == Emit(logs[..k])
    decreases |logs|
  {
    if k == |logs| {
      assert logs[..k] == logs;
    } else {
      assert logs[..|logs| - 1][..k] == logs[..k];
      EmitStops(logs[..|logs| - 1], k);
    }
  }

  // ---- Runs: polls with vaults added at any point ----

  datatype Poll = Idle | Started(from: nat) | Ranged(from: nat, to: nat) | Asked(from: nat, to: nat, vaults: seq<Vault>)

  // A window that was processed to the end, with the vaults it asked for.
  datatype Window = Window(from: nat, to: nat, vaults: seq<Vault>)

  datatype State = State(last: nat, vaults: seq<Vault>, poll: Poll, emitted: seq<ChainLog>, done: seq<Window>)

  datatype Step =
    | WatchMore(more: seq<Vault>)
    | Start
    | HeadFails
    | HeadIs(to: nat)
    | TakeVaults
    | QueryFails
    | QueryAnswered

  function Initial(block: nat, vaults: seq<Vault>): State {
    State(block, vaults, Idle, [], [])
  }

  predicate Enabled(s: State, step: Step) {
    match step
    case WatchMore(_) => true
    case Start => s.poll.Idle?
    case HeadFails => s.poll.Started?
    case HeadIs(_) => s.poll.Started?
    case TakeVaults => s.poll.Ranged?
    case QueryFails => s.poll.Asked?
    case QueryAnswered => s.poll.Asked?
  }

  function Apply(chain: Chain, s: State, step: Step): State
    requires Enabled(s, step)
  {
    match step
    case WatchMore(more) => s.(vaults := AddedVaults(s.vaults, more))
    case Start => s.(poll := Started(s.last))
    case HeadFails => s.(poll := Idle)
    case HeadIs(to) => s.(poll := if to <= s.poll.from then Idle else Ranged(s.poll.from, to))
    case TakeVaults => s.(poll := if s.vaults == [] then Idle else Asked(s.poll.from, s.poll.to, s.vaults))
    case QueryFails => s.(poll := Idle)
    case QueryAnswered =>
      var (sent, ok) := Emit(Query(chain, s.poll.from, s.poll.to, s.poll.vaults));
      if ok then
        State(s.poll.to, s.vaults, Idle, s.emitted + sent, s.done + [Window(s.poll.from, s.poll.to, s.poll.vaults)])
      else s.(poll := Idle, emitted := s.emitted + sent)
  }

  predicate Run(chain: Chain, s: State, steps: seq<Step>, t: State)
    decreases |steps|
  {
    if steps == [] then s == t
    else Enabled(s, steps[0]) && Run(chain, Apply(chain, s, steps[0]), steps[1..], t)
  }

  // ---- The reference: one pass over the chain ----

  predicate Covers(done: seq<Window>, log: ChainLog) {
    exists k :: 0 <= k < |done| && InWindow(log, done[k].from, done[k].to, done[k].vaults)
  }

  // The parseable logs some finished window asked for: each entry of the chain
  // is considered once, in chain order.
  function Reference(chain: Chain, done: seq<Window>): seq<ChainLog> {
    if chain == [] then []
    else
      var before := Reference(chain[..|chain| - 1], done);
      var last := chain[|chain| - 1];
      if last.kind.Parseable? && Covers(done, last) then before + [last] else before
  }

  // The finished windows lie end to end from the start block.
  predicate Tiled(start: nat, done: seq<Window>, last: nat) {
    && (done == [] ==> last == start)
    && (done != [] ==> done[0].from == start && done[|done| - 1].to == last)
    && (forall k :: 0 <= k < |done| ==> done[k].from < done[k].to)
    && (forall k :: 0 <= k < |done| - 1 ==> done[k].to == done[k + 1].from)
  }

  // Entry k makes every poll that asks for i and j abort before it reaches i.
  predicate Shelters(chain: Chain, i: nat, j: nat, k: nat)
    requires i < |chain| && j < |chain| && k < |chain|
  {
    && k < i && chain[k].kind.Malformed? && chain[k].block == chain[i].block
    && (chain[k].vault == chain[i].vault || chain[k].vault == chain[j].vault)
  }

  // No poll can emit a log and then abort: wherever a malformed log follows a
  // parseable one, another malformed log of the same block comes first.
  predicate Sheltered(chain: Chain, start: nat) {
    forall i, j ::
      0 <= i < j < |chain| && chain[i].kind.Parseable? && chain[j].kind.Malformed? && start < chain[i].block ==>
      exists k :: 0 <= k < |chain| && Shelters(chain, i, j, k)
  }

  // The finished windows are in place, and a poll under way begins where they
  // end.
  ghost predicate Placed(start: nat, s: State) {
    && start <= s.last
    && Tiled(start, s.done, s.last)
    && (s.poll.Started? ==> s.poll.from == s.last)
    && (s.poll.Ranged? ==> s.poll.from == s.last && s.poll.from < s.poll.to)
    && (s.poll.Asked? ==> s.poll.from == s.last && s.poll.from < s.poll.to)
  }

  // Everything a finished window asked for has been emitted, and nothing but
  // parseable logs after the start block has.
  ghost predicate Complete(chain: Chain, start: nat, s: State) {
    && (forall l :: l in Reference(chain, s.done) ==> l in s.emitted)
    && (forall l :: l in s.emitted ==> l in chain && l.kind.Parseable? && start < l.block)
  }

  ghost predicate Invariant(chain: Chain, start: nat, s: State) {
    Placed(start, s) && s.emitted == Reference(chain, s.done)
  }

  lemma {:induction false} WindowsBelowLast(start: nat, done: seq<Window>, last: nat, k: nat)
    requires Tiled(start, done, last) && k < |done|
    ensures start <= done[k].from && done[k].to <= last
    ensures start <= last
  {
    UpTo(start, done, last, k);
    Down(start, done, last, k);
  }

  lemma {:induction false} UpTo(start: nat, done: seq<Window>, last: nat, k: nat)
    requires Tiled(start, done, last) && k < |done|
    ensures start <= done[k].from
  {
    if k > 0 {
      UpTo(start, done, last, k - 1);
      assert done[k - 1].to == done[k - 1 + 1].from;
    }
  }

  lemma {:induction false} Down(start: nat, done: seq<Window>, last: nat, k: nat)
    requires Tiled(start, done, last) && k < |done|
    ensures done[k].to <= last
    decreases |done| - k
  {
    if k < |done| - 1 {
      Down(start, done, last, k + 1);
      assert done[k].to == done[k + 1].from;
    }
  }

  lemma CoversSnoc(done: seq<Window>, w: Window, log: ChainLog)
    ensures Covers(done + [w], log) <==> Covers(done, log) || InWindow(log, w.from, w.to, w.vaults)
  {
    var all := done + [w];
    if k :| 0 <= k < |done| && InWindow(log, done[k].from, done[k].to, done[k].vaults) {
      assert all[k] == done[k];
    }
    assert all[|done|] == w;
  }

  // What an unaborted answer emits, as one pass over the chain.
  function Sent(chain: Chain, w: Window): seq<ChainLog> {
    if chain == [] then []
    else
      var before := Sent(chain[..|chain| - 1], w);
      var last := chain[|chain| - 1];
      if last.kind.Parseable? && InWindow(last, w.from, w.to, w.vaults) then before + [last] else before
  }

  lemma {:induction false} EmitQuery(chain: Chain, w: Window)
    requires Emit(Query(chain, w.from, w.to, w.vaults)).1
    ensures Emit(Query(chain, w.from, w.to, w.vaults)).0 == Sent(chain, w)
  {
    if chain != [] {
      var front, last := chain[..|chain| - 1], chain[|chain| - 1];
      var q := Query(chain, w.from, w.to, w.vaults);
      if InWindow(last, w.from, w.to, w.vaults) {
        assert q[..|q| - 1] == Query(front, w.from, w.to, w.vaults);
      }
      EmitQuery(front, w);
    }
  }

  // On an ordered chain a later window's logs come after all earlier ones.
  lemma {:induction false} ReferenceSnoc(chain: Chain, start: nat, done: seq<Window>, w: Window)
    requires ChainOrdered(chain) && Tiled(start, done, w.from)
    ensures Reference(chain, done + [w]) == Reference(chain, done) + Sent(chain, w)
  {
    if chain != [] {
      var front, last := chain[..|chain| - 1], chain[|chain| - 1];
      ReferenceSnoc(front, start, done, w);
      CoversSnoc(done, w, last);
      if Covers(done, last) {
        var k :| 0 <= k < |done| && InWindow(last, done[k].from, done[k].to, done[k].vaults);
        WindowsBelowLast(start, done, w.from, k);
        NothingSent(chain, w);
      }
    }
  }

  lemma {:induction false} NothingSent(chain: Chain, w: Window)
    requires ChainOrdered(chain) && chain != [] && chain[|chain| - 1].block <= w.from
    ensures Sent(chain, w) == [] && Sent(chain[..|chain| - 1], w) == []
  {
    var front := chain[..|chain| - 1];
    if front != [] {
      assert front[|front| - 1] == chain[|chain| - 2];
      NothingSent(front, w);
    }
  }

  // An answer that is processed to the end held no malformed log.
  lemma {:induction false} CompletedIsClean(chain: Chain, w: Window, k: nat)
    requires Emit(Query(chain, w.from, w.to, w.vaults)).1
    requires k < |chain| && chain[k].kind.Malformed?
    ensures !InWindow(chain[k], w.from, w.to, w.vaults)
  {
    var front, last := chain[..|chain| - 1], chain[|chain| - 1];
    var q := Query(chain, w.from, w.to, w.vaults);
    if InWindow(last, w.from, w.to, w.vaults) {
      assert q[..|q| - 1] == Query(front, w.from, w.to, w.vaults);
    }
    if k < |front| {
      CompletedIsClean(front, w, k);
    }
  }

  lemma {:induction false} AbortEmitsNothing(chain: Chain, start: nat, w: Window)
    requires Sheltered(chain, start) && start <= w.from
    requires !Emit(Query(chain, w.from, w.to, w.vaults)).1
    ensures Emit(Query(chain, w.from, w.to, w.vaults)).0 == []
  {
    var n := |chain| - 1;
    var front, last := chain[..n], chain[n];
    var q := Query(chain, w.from, w.to, w.vaults);
    if InWindow(last, w.from, w.to, w.vaults) {
      assert q[..|q| - 1] == Query(front, w.from, w.to, w.vaults);
    }
    if Emit(Query(front, w.from, w.to, w.vaults)).1 {
      EmitQuery(front, w);
      assert last.kind.Malformed? && InWindow(last, w.from, w.to, w.vaults);
      forall i | 0 <= i < |front| && front[i].kind.Parseable?
        ensures !InWindow(front[i], w.from, w.to, w.vaults)
      {
        NotBeforeAbort(chain, start, w, i);
      }
      NoParseableSent(front, w);
    } else {
      FrontSheltered(chain, start);
      AbortEmitsNothing(front, start, w);
    }
  }

  lemma FrontSheltered(chain: Chain, start: nat)
    requires Sheltered(chain, start) && chain != []
    ensures Sheltered(chain[..|chain| - 1], start)
  {
    var front := chain[..|chain| - 1];
    forall i, j | 0 <= i < j < |front| && front[i].kind.Parseable? && front[j].kind.Malformed? && start < front[i].block
      ensures exists k :: 0 <= k < |front| && Shelters(front, i, j, k)
    {
      assert chain[i] == front[i] && chain[j] == front[j];
      var k :| 0 <= k < |chain| && Shelters(chain, i, j, k);
      assert Shelters(front, i, j, k);
    }
  }

  // If the last log is the first of the window to be malformed, nothing
  // parseable of the window precedes it.
  lemma NotBeforeAbort(chain: Chain, start: nat, w: Window, i: nat)
    requires Sheltered(chain, start) && start <= w.from && i < |chain| - 1 && chain[i].kind.Parseable?
    requires chain[|chain| - 1].kind.Malformed? && InWindow(chain[|chain| - 1], w.from, w.to, w.vaults)
    requires Emit(Query(chain[..|chain| - 1], w.from, w.to, w.vaults)).1
    ensures !InWindow(chain[i], w.from, w.to, w.vaults)
  {
    var n := |chain| - 1;
    if InWindow(chain[i], w.from, w.to, w.vaults) {
      var k :| 0 <= k < |chain| && Shelters(chain, i, n, k);
      CompletedIsClean(chain[..n], w, k);
    }
  }

  lemma {:induction false} NoParseableSent(chain: Chain, w: Window)
    requires forall i :: 0 <= i < |chain| && chain[i].kind.Parseable? ==> !InWindow(chain[i], w.from, w.to, w.vaults)
    ensures Sent(chain, w) == []
  {
    if chain != [] {
      assert chain[|chain| - 1].kind.Parseable? ==> !InWindow(chain[|chain| - 1], w.from, w.to, w.vaults);
      NoParseableSent(chain[..|chain| - 1], w);
    }
  }

  lemma {:induction false} ReferenceMember(chain: Chain, done: seq<Window>, l: ChainLog)
    ensures l in Reference(chain, done) <==> l in chain && l.kind.Parseable? && Covers(done, l)
  {
    if chain != [] {
      var front, last := chain[..|chain| - 1], chain[|chain| - 1];
      ReferenceMember(front, done, l);
      assert chain == front + [last];
    }
  }

  lemma {:induction false} SentMember(chain: Chain, w: Window, l: ChainLog)
    ensures l in Sent(chain, w) <==> l in chain && l.kind.Parseable? && InWindow(l, w.from, w.to, w.vaults)
  {
    if chain != [] {
      var front, last := chain[..|chain| - 1], chain[|chain| - 1];
      SentMember(front, w, l);
      assert chain == front + [last];
    }
  }

  // What is emitted, also before an abort, is part of what was asked for.
  lemma {:induction false} EmittedIsSent(chain: Chain, w: Window, l: ChainLog)
    requires l in Emit(Query(chain, w.from, w.to, w.vaults)).0
    ensures l in Sent(chain, w)
  {
    if chain != [] {
      var front, last := chain[..|chain| - 1], chain[|chain| - 1];
      var q := Query(chain, w.from, w.to, w.vaults);
      if InWindow(last, w.from, w.to, w.vaults) {
        assert q[..|q| - 1] == Query(front, w.from, w.to, w.vaults);
      }
      if l in Emit(Query(front, w.from, w.to, w.vaults)).0 {
        EmittedIsSent(front, w, l);
      }
    }
  }

  lemma StepKeepsPlaced(chain: Chain, start: nat, s: State, step: Step)
    requires Placed(start, s) && Enabled(s, step)
    ensures Placed(start, Apply(chain, s, step))
  {
  }

  lemma StepKeepsComplete(chain: Chain, start: nat, s: State, step: Step)
    requires Placed(start, s) && Complete(chain, start, s) && Enabled(s, step)
    ensures Complete(chain, start, Apply(chain, s, step))
  {
    if step.QueryAnswered? {
      var w := Window(s.poll.from, s.poll.to, s.poll.vaults);
      var t := Apply(chain, s, step);
      forall l | l in t.emitted
        ensures l in chain && l.kind.Parseable? && start < l.block
      {
        if l !in s.emitted {
          EmittedIsSent(chain, w, l);
          SentMember(chain, w, l);
        }
      }
      forall l | l in Reference(chain, t.done)
        ensures l in t.emitted
      {
        ReferenceMember(chain, t.done, l);
        ReferenceMember(chain, s.done, l);
        CoversSnoc(s.done, w, l);
        SentMember(chain, w, l);
        if t.done != s.done {
          EmitQuery(chain, w);
        }
      }
    }
  }

  lemma {:induction false} RunKeepsComplete(chain: Chain, start: nat, s: State, steps: seq<Step>, t: State)
    requires Placed(start, s) && Complete(chain, start, s) && Run(chain, s, steps, t)
    ensures Placed(start, t) && Complete(chain, start, t)
    decreases |steps|
  {
    if steps != [] {
      StepKeepsPlaced(chain, start, s, steps[0]);
      StepKeepsComplete(chain, start, s, steps[0]);
      RunKeepsComplete(chain, start, Apply(chain, s, steps[0]), steps[1..], t);
    }
  }

  // Over any run on any chain the finished windows tile the blocks from the
  // start block to the last processed one, everything they asked for has been
  // emitted at least once, and nothing else has.
  lemma PollingTilesChain(chain: Chain, start: nat, vaults: seq<Vault>, steps: seq<Step>, s: State)
    requires Run(chain, Initial(start, vaults), steps, s)
    ensures Tiled(start, s.done, s.last)
    ensures forall l :: l in Reference(chain, s.done) ==> l in s.emitted
    ensures forall l :: l in s.emitted ==> l in chain && l.kind.Parseable? && start < l.block
  {
    NothingCovered(chain);
    RunKeepsComplete(chain, start, Initial(start, vaults), steps, s);
  }

  lemma StepKeepsInvariant(chain: Chain, start: nat, s: State, step: Step)
    requires ChainOrdered(chain) && Sheltered(chain, start)
    requires Invariant(chain, start, s) && Enabled(s, step)
    ensures Invariant(chain, start, Apply(chain, s, step))
  {
    StepKeepsPlaced(chain, start, s, step);
    if step.QueryAnswered? {
      var w := Window(s.poll.from, s.poll.to, s.poll.vaults);
      if Emit(Query(chain, w.from, w.to, w.vaults)).1 {
        EmitQuery(chain, w);
        ReferenceSnoc(chain, start, s.done, w);
      } else {
        AbortEmitsNothing(chain, start, w);
      }
    }
  }

  lemma {:induction false} RunKeepsInvariant(chain: Chain, start: nat, s: State, steps: seq<Step>, t: State)
    requires ChainOrdered(chain) && Sheltered(chain, start)
    requires Invariant(chain, start, s) && Run(chain, s, steps, t)
    ensures Invariant(chain, start, t)
    decreases |steps|
  {
    if steps != [] {
      StepKeepsInvariant(chain, start, s, steps[0]);
      RunKeepsInvariant(chain, start, Apply(chain, s, steps[0]), steps[1..], t);
    }
  }

  // On a sheltered ordered chain what was emitted is exactly the one-pass
  // reference: nothing twice, nothing missing, chain order.
  lemma PollingIsOnePass(chain: Chain, start: nat, vaults: seq<Vault>, steps: seq<Step>, s: State)
    requires ChainOrdered(chain) && Sheltered(chain, start)
    requires Run(chain, Initial(start, vaults), steps, s)
    ensures s.emitted == Reference(chain, s.done)
  {
    NothingCovered(chain);
    RunKeepsInvariant(chain, start, Initial(start, vaults), steps, s);
  }

  lemma {:induction false} NothingCovered(chain: Chain)
    ensures Reference(chain, []) == []
  {
    if chain != [] {
      NothingCovered(chain[..|chain| - 1]);
    }
  }

  // ---- A vault that is watched from some point on ----

  function VaultLogs(logs: seq<ChainLog>, v: Vault, from: nat): seq<ChainLog> {
    if logs == [] then []
    else
      var before := VaultLogs(logs[..|logs| - 1], v, from);
      var last := logs[|logs| - 1];
      if last.vault == v && from < last.block then before + [last] else before
  }

  // The vault's parseable logs in a range of blocks, in chain order.
  function Expected(chain: Chain, v: Vault, from: nat, to: nat): seq<ChainLog> {
    if chain == [] then []
    else
      var before := Expected(chain[..|chain| - 1], v, from, to);
      var last := chain[|chain| - 1];
      if last.kind.Parseable? && last.vault == v && from < last.block <= to then before + [last] else before
  }

  // Every window that reaches past `from` starts there or later and asked for
  // the vault.
  ghost predicate WatchedFrom(done: seq<Window>, v: Vault, from: nat) {
    forall k :: 0 <= k < |done| && from < done[k].to ==> from <= done[k].from && v in done[k].vaults
  }

  lemma {:induction false} TileOf(start: nat, done: seq<Window>, last: nat, block: nat) returns (k: nat)
    requires Tiled(start, done, last) && start < block <= last
    ensures k < |done| && done[k].from < block <= done[k].to
    decreases |done|
  {
    var n := |done| - 1;
    if done[n].from < block {
      k := n;
    } else {
      var front := done[..n];
      assert n > 0 && done[n - 1].to == done[n - 1 + 1].from;
      assert Tiled(start, front, done[n].from);
      k := TileOf(start, front, done[n].from, block);
    }
  }

  lemma {:induction false} ReferenceForVault(
    chain: Chain, start: nat, done: seq<Window>, last: nat, v: Vault, from: nat)
    requires Tiled(start, done, last) && start <= from && WatchedFrom(done, v, from)
    ensures VaultLogs(Reference(chain, done), v, from) == Expected(chain, v, from, last)
  {
    if chain != [] {
      var front, log := chain[..|chain| - 1], chain[|chain| - 1];
      ReferenceForVault(front, start, done, last, v, from);
      var r := Reference(chain, done);
      if log.kind.Parseable? && Covers(done, log) {
        assert r[..|r| - 1] == Reference(front, done);
        var k :| 0 <= k < |done| && InWindow(log, done[k].from, done[k].to, done[k].vaults);
        WindowsBelowLast(start, done, last, k);
      }
      if log.kind.Parseable? && log.vault == v && from < log.block <= last {
        var k := TileOf(start, done, last, log.block);
        assert InWindow(log, done[k].from, done[k].to, done[k].vaults);
      }
    }
  }

  lemma {:induction false} AddedMembers(vaults: seq<Vault>, more: seq<Vault>)
    ensures forall v :: v in AddedVaults(vaults, more) <==> v in vaults || v in more
  {
    if more != [] {
      var front, last := more[..|more| - 1], more[|more| - 1];
      AddedMembers(vaults, front);
      assert more == front + [last];
    }
  }

  // A query without the vault is on its way.
  predicate InFlight(s: State, v: Vault) {
    s.poll.Asked? && v !in s.poll.vaults
  }

  // From which block on the vault, on the list since s, is watched: the end of
  // the query that was on its way without it, if that one was processed, else
  // the last processed block.
  function WatchStart(s: State, done: seq<Window>, v: Vault): nat {
    if InFlight(s, v) && |s.done| < |done| && done[|s.done|] == Window(s.poll.from, s.poll.to, s.poll.vaults)
    then s.poll.to else s.last
  }

  ghost predicate Unanswered(s: State, u: State, v: Vault) {
    InFlight(s, v) && u.poll == s.poll && u.done == s.done && u.last == s.last
  }

  // Every later query asks for the vault.
  ghost predicate Watching(s: State, u: State, v: Vault) {
    && (u.poll.Asked? ==> v in u.poll.vaults)
    && WatchStart(s, u.done, v) <= u.last
    && WatchedFrom(u.done, v, WatchStart(s, u.done, v))
  }

  ghost predicate OnList(start: nat, s: State, u: State, v: Vault) {
    && Placed(start, u) && s.done <= u.done && v in s.vaults && v in u.vaults
    && (Unanswered(s, u, v) || Watching(s, u, v))
  }

  lemma WindowDone(start: nat, s: State, u: State, v: Vault, w: Window)
    requires OnList(start, s, u, v) && u.poll == Asked(w.from, w.to, w.vaults)
    requires forall k :: 0 <= k < |s.done| ==> s.done[k].to <= s.last
    ensures var next := u.(last := w.to, poll := Idle, done := u.done + [w]); Watching(s, next, v)
  {
    var done := u.done + [w];
    assert |s.done| < |u.done| ==> done[|s.done|] == u.done[|s.done|];
    assert done[|u.done|] == w;
    if Unanswered(s, u, v) {
      assert WatchStart(s, done, v) == w.to;
      forall k | 0 <= k < |done|
        ensures done[k].to <= w.to
      {
        if k < |s.done| {
          assert done[k] == s.done[k];
        }
      }
    } else {
      assert WatchStart(s, done, v) == WatchStart(s, u.done, v);
    }
  }

  lemma StepKeepsOnList(chain: Chain, start: nat, s: State, u: State, step: Step, v: Vault)
    requires OnList(start, s, u, v) && Enabled(u, step)
    requires forall k :: 0 <= k < |s.done| ==> s.done[k].to <= s.last
    ensures OnList(start, s, Apply(chain, u, step), v)
  {
    StepKeepsPlaced(chain, start, u, step);
    match step {
      case WatchMore(more) => AddedMembers(u.vaults, more);
      case QueryAnswered =>
        WindowDone(start, s, u, v, Window(u.poll.from, u.poll.to, u.poll.vaults));
      case _ =>
    }
  }

  lemma {:induction false} RunKeepsOnList(
    chain: Chain, start: nat, s: State, u: State, steps: seq<Step>, t: State, v: Vault)
    requires OnList(start, s, u, v) && Run(chain, u, steps, t)
    requires forall k :: 0 <= k < |s.done| ==> s.done[k].to <= s.last
    ensures OnList(start, s, t, v)
    decreases |steps|
  {
    if steps != [] {
      StepKeepsOnList(chain, start, s, u, steps[0], v);
      RunKeepsOnList(chain, start, s, Apply(chain, u, steps[0]), steps[1..], t, v);
    }
  }

  lemma WatchedSince(
    chain: Chain, start: nat, vaults: seq<Vault>, before: seq<Step>, s: State, after: seq<Step>, t: State, v: Vault)
    requires Run(chain, Initial(start, vaults), before, s) && Run(chain, s, after, t) && v in s.vaults
    ensures Placed(start, s) && Placed(start, t)
    ensures WatchedFrom(t.done, v, WatchStart(s, t.done, v)) && start <= WatchStart(s, t.done, v)
  {
    NothingCovered(chain);
    RunKeepsComplete(chain, start, Initial(start, vaults), before, s);
    forall k | 0 <= k < |s.done|
      ensures s.done[k].to <= s.last
    {
      WindowsBelowLast(start, s.done, s.last, k);
    }
    RunKeepsOnList(chain, start, s, s, after, t, v);
  }

  // From there on every parseable log of a vault on the list is emitted, at
  // least once, up to the last processed block, on any chain.
  lemma WatchedVaultComplete(
    chain: Chain, start: nat, vaults: seq<Vault>, before: seq<Step>, s: State, after: seq<Step>, t: State, v: Vault,
    l: ChainLog)
    requires Run(chain, Initial(start, vaults), before, s) && Run(chain, s, after, t)
    requires v in s.vaults && l in chain && l.kind.Parseable? && l.vault == v
    requires WatchStart(s, t.done, v) < l.block <= t.last
    ensures l in t.emitted
  {
    WatchedSince(chain, start, vaults, before, s, after, t, v);
    var k := TileOf(start, t.done, t.last, l.block);
    assert InWindow(l, t.done[k].from, t.done[k].to, t.done[k].vaults);
    ReferenceMember(chain, t.done, l);
    NothingCovered(chain);
    RunKeepsComplete(chain, start, Initial(start, vaults), before, s);
    RunKeepsComplete(chain, start, s, after, t);
  }

  // On a sheltered ordered chain exactly once, and in chain order.
  lemma WatchedVaultOnce(
    chain: Chain, start: nat, vaults: seq<Vault>, before: seq<Step>, s: State, after: seq<Step>, t: State, v: Vault)
    requires ChainOrdered(chain) && Sheltered(chain, start)
    requires Run(chain, Initial(start, vaults), before, s) && Run(chain, s, after, t)
    requires v in s.vaults
    ensures var from := WatchStart(s, t.done, v); VaultLogs(t.emitted, v, from) == Expected(chain, v, from, t.last)
  {
    WatchedSince(chain, start, vaults, before, s, after, t, v);
    NothingCovered(chain);
    RunKeepsInvariant(chain, start, Initial(start, vaults), before, s);
    RunKeepsInvariant(chain, start, s, after, t);
    ReferenceForVault(chain, start, t.done, t.last, v, WatchStart(s, t.done, v));
  }

  // ---- When no log can be emitted twice ----

  predicate NoRepeats(logs: seq<ChainLog>) {
    forall a, b :: 0 <= a < b < |logs| ==> logs[a] != logs[b]
  }

  ghost predicate NeverRepeats(chain: Chain, start: nat) {
    forall vaults, steps, s :: Run(chain, Initial(start, vaults), steps, s) ==> NoRepeats(s.emitted)
  }

  // No run emits a log twice exactly when the chain is sheltered: an abort in
  // the middle of an answer sends again what came before it.
  lemma NeverRepeatsIffSheltered(chain: Chain, start: nat)
    requires ChainOrdered(chain)
    ensures NeverRepeats(chain, start) <==> Sheltered(chain, start)
  {
    if Sheltered(chain, start) {
      forall vaults, steps, s | Run(chain, Initial(start, vaults), steps, s)
        ensures NoRepeats(s.emitted)
      {
        PollingIsOnePass(chain, start, vaults, steps, s);
        ReferenceAscends(chain, s.done);
      }
    } else {
      var i, j :| 0 <= i < j < |chain| && chain[i].kind.Parseable? && chain[j].kind.Malformed? && start < chain[i].block
        && !exists k :: 0 <= k < |chain| && Shelters(chain, i, j, k);
      var vaults, steps, s := RepeatingRun(chain, start, i, j);
    }
  }

  // The smallest such chain: a parseable log and, behind it in the same block, a
  // malformed one.
  const REPEATING: Chain := [ChainLog(0, 1, 5, Parseable), ChainLog(1, 1, 5, Malformed)]

  lemma RepeatingChain() returns (vaults: seq<Vault>, steps: seq<Step>, s: State)
    ensures ChainOrdered(REPEATING) && !Sheltered(REPEATING, 0)
    ensures Run(REPEATING, Initial(0, vaults), steps, s) && !NoRepeats(s.emitted)
  {
    assert !exists k :: 0 <= k < |REPEATING| && Shelters(REPEATING, 0, 1, k);
    vaults, steps, s := RepeatingRun(REPEATING, 0, 0, 1);
  }

  // A log is malformed only with more than four topics, which no virtual
  // machine log has: a chain without such logs repeats nothing.
  lemma WellFormedNeverRepeats(chain: Chain, start: nat)
    requires ChainOrdered(chain)
    requires forall i :: 0 <= i < |chain| ==> !chain[i].kind.Malformed?
    ensures Sheltered(chain, start) && NeverRepeats(chain, start)
  {
    NeverRepeatsIffSheltered(chain, start);
  }

  lemma {:induction false} ReferenceAscends(chain: Chain, done: seq<Window>)
    requires ChainOrdered(chain)
    ensures forall a :: 0 <= a < |Reference(chain, done)| ==> Reference(chain, done)[a] in chain
    ensures NoRepeats(Reference(chain, done))
  {
    if chain != [] {
      var front, last := chain[..|chain| - 1], chain[|chain| - 1];
      ReferenceAscends(front, done);
      var before := Reference(front, done);
      forall a | 0 <= a < |before|
        ensures before[a] in chain && before[a] != last
      {
        var i :| 0 <= i < |front| && front[i] == before[a];
        assert chain[i] == before[a];
      }
    }
  }

  // Two polls that abort after entry i emit it twice. A first poll for a vault
  // without logs moves the listener to just before i's block.
  lemma RepeatingRun(chain: Chain, start: nat, i: nat, j: nat)
    returns (vaults: seq<Vault>, steps: seq<Step>, s: State)
    requires ChainOrdered(chain)
    requires i < j < |chain| && chain[i].kind.Parseable? && chain[j].kind.Malformed? && start < chain[i].block
    requires !exists k :: 0 <= k < |chain| && Shelters(chain, i, j, k)
    ensures Run(chain, Initial(start, vaults), steps, s) && !NoRepeats(s.emitted)
  {
    var quiet := QuietVault(chain);
    vaults := [quiet];
    var more := [chain[i].vault, chain[j].vault];
    var before, s0 := MoveTo(chain, start, quiet, chain[i].block - 1);
    var s1 := Apply(chain, s0, WatchMore(more));
    AddedMembers(vaults, more);
    var tail;
    tail, s := AbortTwice(chain, s1, i, j);
    assert Run(chain, s0, [WatchMore(more)], s1) by {
      assert [WatchMore(more)][1..] == [];
    }
    RunConcat(chain, s0, [WatchMore(more)], s1, tail, s);
    RunConcat(chain, Initial(start, vaults), before, s0, [WatchMore(more)] + tail, s);
    steps := before + ([WatchMore(more)] + tail);
  }

  predicate OnlyQuietOr(chain: Chain, vaults: seq<Vault>, v: Vault, w: Vault) {
    forall k :: 0 <= k < |chain| && chain[k].vault in vaults ==> chain[k].vault == v || chain[k].vault == w
  }

  lemma AbortTwice(chain: Chain, s: State, i: nat, j: nat) returns (steps: seq<Step>, t: State)
    requires ChainOrdered(chain)
    requires i < j < |chain| && chain[i].kind.Parseable? && chain[j].kind.Malformed? && s.last + 1 == chain[i].block
    requires !exists k :: 0 <= k < |chain| && Shelters(chain, i, j, k)
    requires s.poll == Idle && s.emitted == []
    requires chain[i].vault in s.vaults && chain[j].vault in s.vaults
    requires OnlyQuietOr(chain, s.vaults, chain[i].vault, chain[j].vault)
    ensures Run(chain, s, steps, t) && !NoRepeats(t.emitted)
  {
    var sent := AbortsAfter(chain, s, i, j);
    var to := chain[j].block;
    var one := PollSteps(to);
    var s1, s2 := s.(emitted := sent), s.(emitted := sent + sent);
    assert [] + sent == sent;
    OnePoll(chain, s, to);
    OnePoll(chain, s1, to);
    RunConcat(chain, s, one, s1, one, s2);
    steps, t := one + one, s2;
    DoubledRepeats(sent);
  }

  lemma DoubledRepeats(logs: seq<ChainLog>)
    requires logs != []
    ensures !NoRepeats(logs + logs)
  {
    assert (logs + logs)[0] == (logs + logs)[|logs|];
  }

  // The poll that reaches from i's block to j's aborts with i emitted.
  lemma AbortsAfter(chain: Chain, s: State, i: nat, j: nat) returns (sent: seq<ChainLog>)
    requires ChainOrdered(chain)
    requires i < j < |chain| && chain[i].kind.Parseable? && chain[j].kind.Malformed? && s.last + 1 == chain[i].block
    requires !exists k :: 0 <= k < |chain| && Shelters(chain, i, j, k)
    requires chain[i].vault in s.vaults && chain[j].vault in s.vaults
    requires OnlyQuietOr(chain, s.vaults, chain[i].vault, chain[j].vault)
    ensures Emit(Query(chain, s.last, chain[j].block, s.vaults)) == (sent, false) && chain[i] in sent
  {
    var w := Window(s.last, chain[j].block, s.vaults);
    forall k | 0 <= k < i && chain[k].kind.Malformed?
      ensures !InWindow(chain[k], w.from, w.to, w.vaults)
    {
      assert !Shelters(chain, i, j, k);
    }
    EmitsBefore(chain, i, w);
    sent := Emit(Query(chain, w.from, w.to, w.vaults)).0;
    if Emit(Query(chain, w.from, w.to, w.vaults)).1 {
      CompletedIsClean(chain, w, j);
    }
  }

  lemma {:induction false} QuietVault(chain: Chain) returns (v: Vault)
    ensures forall k :: 0 <= k < |chain| ==> chain[k].vault < v
  {
    if chain == [] {
      v := 0;
    } else {
      var last := chain[|chain| - 1];
      v := QuietVault(chain[..|chain| - 1]);
      v := if last.vault < v then v else last.vault + 1;
    }
  }

  lemma {:induction false} QuietAnswer(chain: Chain, from: nat, to: nat, v: Vault)
    requires forall k :: 0 <= k < |chain| ==> chain[k].vault < v
    ensures Query(chain, from, to, [v]) == []
  {
    if chain != [] {
      assert chain[|chain| - 1].vault < v;
      QuietAnswer(chain[..|chain| - 1], from, to, v);
    }
  }

  lemma MoveTo(chain: Chain, start: nat, v: Vault, block: nat) returns (steps: seq<Step>, s: State)
    requires forall k :: 0 <= k < |chain| ==> chain[k].vault < v
    requires start <= block
    ensures Run(chain, Initial(start, [v]), steps, s)
    ensures s.last == block && s.vaults == [v] && s.poll == Idle && s.emitted == []
  {
    s := Initial(start, [v]);
    if start == block {
      steps := [];
    } else {
      steps := PollSteps(block);
      QuietAnswer(chain, start, block, v);
      OnePoll(chain, s, block);
      s := AfterPoll(chain, s, block);
    }
  }

  // A parseable log of the window is emitted unless an earlier one aborts.
  lemma {:induction false} EmitsBefore(chain: Chain, i: nat, w: Window)
    requires i < |chain| && chain[i].kind.Parseable? && InWindow(chain[i], w.from, w.to, w.vaults)
    requires forall k :: 0 <= k < i && chain[k].kind.Malformed? ==> !InWindow(chain[k], w.from, w.to, w.vaults)
    ensures chain[i] in Emit(Query(chain, w.from, w.to, w.vaults)).0
  {
    var n := |chain| - 1;
    var front, last := chain[..n], chain[n];
    var q := Query(chain, w.from, w.to, w.vaults);
    if InWindow(last, w.from, w.to, w.vaults) {
      assert q[..|q| - 1] == Query(front, w.from, w.to, w.vaults);
    }
    if i == n {
      CleanCompletes(front, w);
    } else {
      EmitsBefore(front, i, w);
    }
  }

  lemma {:induction false} CleanCompletes(chain: Chain, w: Window)
    requires forall k :: 0 <= k < |chain| && chain[k].kind.Malformed? ==> !InWindow(chain[k], w.from, w.to, w.vaults)
    ensures Emit(Query(chain, w.from, w.to, w.vaults)).1
  {
    if chain != [] {
      var front, last := chain[..|chain| - 1], chain[|chain| - 1];
      var q := Query(chain, w.from, w.to, w.vaults);
      CleanCompletes(front, w);
      assert last.kind.Malformed? ==> !InWindow(last, w.from, w.to, w.vaults);
      if InWindow(last, w.from, w.to, w.vaults) {
        assert q[..|q| - 1] == Query(front, w.from, w.to, w.vaults);
      }
    }
  }

  function PollSteps(to: nat): seq<Step> {
    [Start, HeadIs(to), TakeVaults, QueryAnswered]
  }

  function AfterPoll(chain: Chain, s: State, to: nat): State {
    Apply(chain, s.(poll := Asked(s.last, to, s.vaults)), QueryAnswered)
  }

  lemma OnePoll(chain: Chain, s: State, to: nat)
    requires s.poll == Idle && s.vaults != [] && s.last < to
    ensures Run(chain, s, PollSteps(to), AfterPoll(chain, s, to))
  {
    var s1 := Apply(chain, s, Start);
    var s2 := Apply(chain, s1, HeadIs(to));
    var s3 := Apply(chain, s2, TakeVaults);
    var s4 := Apply(chain, s3, QueryAnswered);
    var one := PollSteps(to);
    assert one[1..] == [HeadIs(to), TakeVaults, QueryAnswered];
    assert one[1..][1..] == [TakeVaults, QueryAnswered];
    assert one[1..][1..][1..] == [QueryAnswered];
    assert Run(chain, s3, [QueryAnswered], s4) by {
      assert [QueryAnswered][1..] == [];
    }
    assert Run(chain, s2, one[1..][1..], s4);
    assert Run(chain, s1, one[1..], s4);
  }

  lemma RunOne(chain: Chain, s: State, step: Step)
    requires Enabled(s, step)
    ensures Run(chain, s, [step], Apply(chain, s, step))
  {
    assert [step][1..] == [];
  }

  // A poll made without interruption, as the listener's method makes it, is a
  // run of the steps.
  lemma PolledIsRun(chain: Chain, s: State, head: Option<nat>, answered: bool) returns (steps: seq<Step>, t: State)
    requires s.poll == Idle
    ensures Run(chain, s, steps, t) && t.poll == Idle && t.vaults == s.vaults
    ensures (t.last, t.emitted) == var p := Polled(chain, s.vaults, s.last, s.emitted, head, answered); (p.0, p.1)
  {
    var s1 := Apply(chain, s, Start);
    RunOne(chain, s, Start);
    if head.None? {
      t := Apply(chain, s1, HeadFails);
      RunOne(chain, s1, HeadFails);
      RunConcat(chain, s, [Start], s1, [HeadFails], t);
      steps := [Start] + [HeadFails];
      return;
    }
    var s2 := Apply(chain, s1, HeadIs(head.value));
    RunOne(chain, s1, HeadIs(head.value));
    RunConcat(chain, s, [Start], s1, [HeadIs(head.value)], s2);
    steps, t := [Start] + [HeadIs(head.value)], s2;
    if s.last < head.value {
      var s3 := Apply(chain, s2, TakeVaults);
      RunOne(chain, s2, TakeVaults);
      RunConcat(chain, s, steps, s2, [TakeVaults], s3);
      steps, t := steps + [TakeVaults], s3;
      if s.vaults != [] {
        var answer := if answered then QueryAnswered else QueryFails;
        t := Apply(chain, s3, answer);
        RunOne(chain, s3, answer);
        RunConcat(chain, s, steps, s3, [answer], t);
        steps := steps + [answer];
      }
    }
  }

  lemma {:induction false} RunConcat(
    chain: Chain, s: State, a: seq<Step>, t: State, b: seq<Step>, u: State)
    requires Run(chain, s, a, t) && Run(chain, t, b, u)
    ensures Run(chain, s, a + b, u)
    decreases |a|
  {
    if a == [] {
      assert a + b == b;
    } else {
      assert (a + b)[1..] == a[1..] + b;
      RunConcat(chain, Apply(chain, s, a[0]), a[1..], t, b, u);
    }
  }
}
