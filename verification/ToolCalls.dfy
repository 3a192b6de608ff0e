/** The accumulators that turn streamed tool-call fragments into numbered deltas. */
module ToolCalls {
  import opened Common

  datatype Delta = Delta(index: nat, id: Option<string>, name: Option<string>, arguments: Option<string>)

  datatype Entry = Entry(id: Option<string>, name: Option<string>, arguments: string)

  const NoEntry := Entry(None, None, "")

  function Fragment(d: Delta, index: nat): string {
    if d.index == index && d.arguments.Some? then d.arguments.value else ""
  }

  // The argument fragments emitted under one index, joined in order.
  function Joined(log: seq<Delta>, index: nat): string {
    if log == [] then "" else Joined(log[..|log| - 1], index) + Fragment(log[|log| - 1], index)
  }

  lemma JoinedSnoc(log: seq<Delta>, d: Delta, index: nat)
    ensures Joined(log + [d], index) == Joined(log, index) + Fragment(d, index)
  {
    assert (log + [d])[..|log|] == log;
  }

  function OrElse<T>(a: Option<T>, b: Option<T>): Option<T> {
    if a.Some? then a else b
  }

  function NonEmpty(s: string): Option<string> {
    if s == "" then None else Some(s)
  }

  predicate Injective(m: map<nat, nat>) {
    forall a, b :: a in m && b in m && m[a] == m[b] ==> a == b
  }

  // The numbers 0 .. n-1.
  function Below(n: nat): (r: set<nat>)
    ensures forall i: nat :: i in r <==> i < n
  {
    if n == 0 then {} else Below(n - 1) + {n - 1}
  }

  lemma {:induction false} BelowSize(n: nat)
    ensures |Below(n)| == n
  {
    if n > 0 {
      BelowSize(n - 1);
    }
  }

  lemma {:induction false} ImageSize(m: map<nat, nat>)
    requires Injective(m)
    ensures |m.Values| == |m|
    decreases |m|
  {
    if m != map[] {
      var k :| k in m;
      var r := m - {k};
      assert m.Keys == r.Keys + {k};
      ImageSize(r);
      assert m.Values == r.Values + {m[k]};
      assert m[k] !in r.Values;
    }
  }

  lemma PutSize<T>(m: map<nat, T>, k: nat, v: T)
    ensures |m[k := v]| == |m| + (if k in m then 0 else 1)
  {
    assert m[k := v].Keys == m.Keys + {k};
    assert k in m ==> m.Keys + {k} == m.Keys;
  }

  lemma FullBelow(a: set<nat>, n: nat)
    requires a <= Below(n)
    ensures |a| <= n
    ensures a == Below(n) <==> |a| == n
  {
    BelowSize(n);
    assert Below(n) == a + (Below(n) - a);
  }

  // -------------------------------------------------------------------------
  // Anthropic: content blocks numbered when they start or when a fragment comes first
  // -------------------------------------------------------------------------

  datatype BlockEvent =
    | Start(block: nat, id: Option<string>, name: Option<string>)
    | Append(block: nat, json: string)

  datatype Blocks = Blocks(entries: map<nat, Entry>, ordinals: map<nat, nat>, next: nat)

  const NoBlocks := Blocks(map[], map[], 0)

  function OnBlock(st: Blocks, e: BlockEvent): (Blocks, Delta) {
    match e
    case Start(b, id, name) =>
      (Blocks(st.entries[b := Entry(id, name, "")], st.ordinals[b := st.next], st.next + 1),
       Delta(st.next, id, name, None))
    case Append(b, json) =>
      var ordinal := if b in st.ordinals then st.ordinals[b] else st.next;
      var prior := if b in st.entries then st.entries[b] else NoEntry;
      (Blocks(st.entries[b := prior.(arguments := prior.arguments + json)],
              if b in st.ordinals then st.ordinals else st.ordinals[b := ordinal],
              if b in st.ordinals then st.next else st.next + 1),
       Delta(ordinal, prior.id, prior.name, NonEmpty(json)))
  }

  class AnthropicToolCallAccumulator {
    var byBlockIndex: map<nat, Entry>
    var blockToOrdinal: map<nat, nat>
    var nextOrdinal: nat

    function View(): Blocks
      reads this
    {
      Blocks(byBlockIndex, blockToOrdinal, nextOrdinal)
    }

    constructor ()
      ensures View() == NoBlocks
    {
      byBlockIndex, blockToOrdinal, nextOrdinal := map[], map[], 0;
    }

    method StartTool(block: nat, id: Option<string>, name: Option<string>) returns (d: Delta)
      modifies this
      ensures (View(), d) == OnBlock(old(View()), Start(block, id, name))
    {
      var ordinal := nextOrdinal;
      nextOrdinal := nextOrdinal + 1;
      blockToOrdinal := blockToOrdinal[block := ordinal];
      byBlockIndex := byBlockIndex[block := Entry(id, name, "")];
      d := Delta(ordinal, id, name, None);
    }

    method AppendJson(block: nat, json: string) returns (d: Delta)
      modifies this
      ensures (View(), d) == OnBlock(old(View()), Append(block, json))
    {
      if block !in blockToOrdinal {
        blockToOrdinal := blockToOrdinal[block := nextOrdinal];
        nextOrdinal := nextOrdinal + 1;
      }
      var ordinal := blockToOrdinal[block];
      var entry := if block in byBlockIndex then byBlockIndex[block] else NoEntry;
      entry := entry.(arguments := entry.arguments + json);
      byBlockIndex := byBlockIndex[block := entry];
      d := Delta(ordinal, entry.id, entry.name, if json == "" then None else Some(json));
    }
  }

  // A run of events with everything it emitted.
  function BlockRun(es: seq<BlockEvent>): (Blocks, seq<Delta>) {
    if es == [] then (NoBlocks, [])
    else
      var (st, log) := BlockRun(es[..|es| - 1]);
      var (st', d) := OnBlock(st, es[|es| - 1]);
      (st', log + [d])
  }

  predicate Occurs(block: nat, es: seq<BlockEvent>) {
    exists i :: 0 <= i < |es| && es[i].block == block
  }

  // Starts of blocks that an earlier event has named.
  function Restarts(es: seq<BlockEvent>): nat {
    if es == [] then 0
    else
      var before, e := es[..|es| - 1], es[|es| - 1];
      Restarts(before) + (if e.Start? && Occurs(e.block, before) then 1 else 0)
  }

  lemma OccursInMore(block: nat, es: seq<BlockEvent>)
    requires es != []
    ensures Occurs(block, es) <==> Occurs(block, es[..|es| - 1]) || es[|es| - 1].block == block
  {
    var before := es[..|es| - 1];
    if Occurs(block, before) {
      var i :| 0 <= i < |before| && before[i].block == block;
      assert es[i].block == block;
    }
    if Occurs(block, es) {
      var i :| 0 <= i < |es| && es[i].block == block;
      assert i < |before| ==> before[i].block == block;
    }
  }

  // Exactly the blocks named so far have an ordinal.
  lemma {:induction false} NamedBlocksHaveOrdinals(es: seq<BlockEvent>, block: nat)
    ensures block in BlockRun(es).0.ordinals <==> Occurs(block, es)
  {
    if es != [] {
      NamedBlocksHaveOrdinals(es[..|es| - 1], block);
      OccursInMore(block, es);
    }
  }

  ghost predicate OrdinalsOk(st: Blocks) {
    && st.entries.Keys == st.ordinals.Keys
    && Injective(st.ordinals)
    && (forall b :: b in st.ordinals ==> st.ordinals[b] < st.next)
  }

  predicate IndicesBelow(log: seq<Delta>, n: nat) {
    forall i :: 0 <= i < |log| ==> log[i].index < n
  }

  ghost predicate BlocksOk(st: Blocks, log: seq<Delta>) {
    && OrdinalsOk(st)
    && IndicesBelow(log, st.next)
    && (forall b :: b in st.entries ==> Joined(log, st.ordinals[b]) == st.entries[b].arguments)
  }

  lemma {:induction false} UnusedIndex(log: seq<Delta>, n: nat)
    requires IndicesBelow(log, n)
    ensures Joined(log, n) == ""
  {
    if log != [] {
      UnusedIndex(log[..|log| - 1], n);
    }
  }

  lemma BlockStepOrdinals(st: Blocks, e: BlockEvent)
    requires OrdinalsOk(st)
    ensures OrdinalsOk(OnBlock(st, e).0)
  {
  }

  // The joined fragments of one block after one more event.
  lemma BlockStepJoined(st: Blocks, log: seq<Delta>, e: BlockEvent, b: nat)
    requires OrdinalsOk(st) && IndicesBelow(log, st.next)
    requires b in st.entries ==> Joined(log, st.ordinals[b]) == st.entries[b].arguments
    requires b in OnBlock(st, e).0.entries && b in OnBlock(st, e).0.ordinals
    ensures
      var (st', d) := OnBlock(st, e);
      Joined(log + [d], st'.ordinals[b]) == st'.entries[b].arguments
  {
    var (st', d) := OnBlock(st, e);
    UnusedIndex(log, st.next);
    JoinedSnoc(log, d, st'.ordinals[b]);
    BlockStepOrdinals(st, e);
    assert b != e.block ==> st'.ordinals[b] == st.ordinals[b] && st'.entries[b] == st.entries[b];
    assert st'.ordinals[e.block] == d.index;
  }

  lemma BlockStepOk(st: Blocks, log: seq<Delta>, e: BlockEvent)
    requires BlocksOk(st, log)
    ensures BlocksOk(OnBlock(st, e).0, log + [OnBlock(st, e).1])
  {
    var (st', d) := OnBlock(st, e);
    BlockStepOrdinals(st, e);
    assert IndicesBelow(log + [d], st'.next);
    forall b | b in st'.entries ensures Joined(log + [d], st'.ordinals[b]) == st'.entries[b].arguments {
      BlockStepJoined(st, log, e, b);
    }
  }

  lemma {:induction false} BlockRunOk(es: seq<BlockEvent>)
    ensures BlocksOk(BlockRun(es).0, BlockRun(es).1)
  {
    if es != [] {
      BlockRunOk(es[..|es| - 1]);
      var (st, log) := BlockRun(es[..|es| - 1]);
      BlockStepOk(st, log, es[|es| - 1]);
    }
  }

  lemma {:induction false} OrdinalsAndRestarts(es: seq<BlockEvent>)
    ensures |BlockRun(es).0.ordinals| + Restarts(es) == BlockRun(es).0.next
  {
    if es != [] {
      OrdinalsAndRestarts(es[..|es| - 1]);
      var st := BlockRun(es[..|es| - 1]).0;
      var e := es[|es| - 1];
      NamedBlocksHaveOrdinals(es[..|es| - 1], e.block);
      PutSize(st.ordinals, e.block, st.next);
    }
  }

  // Assigned ordinals are distinct and used; joined fragments are the arguments, also after a restart;
  // the ordinals have no gap exactly when no block was started again.
  lemma AnthropicOrdinals(es: seq<BlockEvent>)
    ensures
      var (st, log) := BlockRun(es);
      && Injective(st.ordinals) && st.ordinals.Values <= Below(st.next)
      && st.entries.Keys == st.ordinals.Keys
      && (forall b :: b in st.entries ==> Joined(log, st.ordinals[b]) == st.entries[b].arguments)
      && (st.ordinals.Values == Below(st.next) <==> Restarts(es) == 0)
  {
    BlockRunOk(es);
    OrdinalsAndRestarts(es);
    var st := BlockRun(es).0;
    ImageSize(st.ordinals);
    FullBelow(st.ordinals.Values, st.next);
  }

  // The id and name that the block was last started with.
  function StartedAs(es: seq<BlockEvent>, block: nat): (Option<string>, Option<string>) {
    if es == [] then (None, None)
    else
      match es[|es| - 1]
      case Start(b, id, name) => if b == block then (id, name) else StartedAs(es[..|es| - 1], block)
      case Append(_, _) => StartedAs(es[..|es| - 1], block)
  }

  lemma {:induction false} EntriesAreStartedAs(es: seq<BlockEvent>, block: nat)
    ensures
      var entries := BlockRun(es).0.entries;
      StartedAs(es, block) == if block in entries then (entries[block].id, entries[block].name) else (None, None)
  {
    if es != [] {
      EntriesAreStartedAs(es[..|es| - 1], block);
    }
  }

  // What each event emits: a start its own id and name, a fragment those of its block and the fragment.
  lemma AnthropicDelta(es: seq<BlockEvent>, e: BlockEvent)
    ensures |BlockRun(es + [e]).1| == |BlockRun(es).1| + 1
    ensures
      var (st, log) := BlockRun(es + [e]);
      var d := log[|log| - 1];
      && e.block in st.ordinals && d.index == st.ordinals[e.block]
      && (e.Start? ==> d.id == e.id && d.name == e.name && d.arguments == None)
      && (e.Append? ==> (d.id, d.name) == StartedAs(es, e.block)
                        && d.arguments == if e.json == "" then None else Some(e.json))
  {
    assert (es + [e])[..|es|] == es;
    EntriesAreStartedAs(es, e.block);
    var st := BlockRun(es).0;
    BlockRunOk(es);
  }

  // -------------------------------------------------------------------------
  // Responses API: output items registered or first met through a fragment
  // -------------------------------------------------------------------------

  datatype Call = Call(id: Option<string>, name: Option<string>, arguments: string, ordinal: Option<nat>)

  datatype CallEvent =
    | Register(item: nat, id: Option<string>, name: Option<string>)
    | Arguments(item: nat, delta: string)

  datatype Calls = Calls(calls: map<nat, Call>, next: nat, streamed: bool)

  const NoCalls := Calls(map[], 0, false)

  // The entry of an item, numbered if it was not.
  function Numbered(st: Calls, item: nat): Calls {
    if item in st.calls && st.calls[item].ordinal.Some? then st
    else
      var prior := if item in st.calls then st.calls[item] else Call(None, None, "", None);
      st.(calls := st.calls[item := prior.(ordinal := Some(st.next))], next := st.next + 1)
  }

  function OnCall(st: Calls, e: CallEvent): (Calls, seq<Delta>) {
    var st1 := Numbered(st, e.item);
    var c := st1.calls[e.item];
    match e
    case Register(item, id, name) =>
      (st1.(calls := st1.calls[item := c.(id := OrElse(id, c.id), name := OrElse(name, c.name))]), [])
    case Arguments(item, delta) =>
      (st1.(calls := st1.calls[item := c.(arguments := c.arguments + delta)], streamed := true),
       [Delta(c.ordinal.value, c.id, c.name, NonEmpty(delta))])
  }

  class ResponsesToolCallAccumulator {
    var outputIndexToCall: map<nat, Call>
    var nextOrdinal: nat
    var streamedArgumentDeltas: bool

    function View(): Calls
      reads this
    {
      Calls(outputIndexToCall, nextOrdinal, streamedArgumentDeltas)
    }

    constructor ()
      ensures View() == NoCalls
    {
      outputIndexToCall, nextOrdinal, streamedArgumentDeltas := map[], 0, false;
    }

    method AssignOrdinal(item: nat)
      modifies this
      ensures View() == Numbered(old(View()), item)
    {
      if item !in outputIndexToCall || outputIndexToCall[item].ordinal.None? {
        var prior := if item in outputIndexToCall then outputIndexToCall[item] else Call(None, None, "", None);
        outputIndexToCall := outputIndexToCall[item := prior.(ordinal := Some(nextOrdinal))];
        nextOrdinal := nextOrdinal + 1;
      }
    }

    method RegisterOutputItem(item: nat, id: Option<string>, name: Option<string>)
      modifies this
      ensures View() == OnCall(old(View()), Register(item, id, name)).0
    {
      AssignOrdinal(item);
      var entry := outputIndexToCall[item];
      if id.Some? {
        entry := entry.(id := id);
      }
      if name.Some? {
        entry := entry.(name := name);
      }
      outputIndexToCall := outputIndexToCall[item := entry];
    }

    method AppendArguments(item: nat, delta: string) returns (d: Delta)
      modifies this
      ensures (View(), [d]) == OnCall(old(View()), Arguments(item, delta))
    {
      AssignOrdinal(item);
      streamedArgumentDeltas := true;
      var entry := outputIndexToCall[item];
      entry := entry.(arguments := entry.arguments + delta);
      outputIndexToCall := outputIndexToCall[item := entry];
      d := Delta(entry.ordinal.value, entry.id, entry.name, if delta == "" then None else Some(delta));
    }
  }

  function CallRun(es: seq<CallEvent>): (Calls, seq<Delta>) {
    if es == [] then (NoCalls, [])
    else
      var (st, log) := CallRun(es[..|es| - 1]);
      var (st', ds) := OnCall(st, es[|es| - 1]);
      (st', log + ds)
  }

  ghost predicate NumberingOk(st: Calls) {
    && |st.calls| == st.next
    && (forall i :: i in st.calls ==> st.calls[i].ordinal.Some? && st.calls[i].ordinal.value < st.next)
    && (forall i, j :: i in st.calls && j in st.calls && st.calls[i].ordinal == st.calls[j].ordinal ==> i == j)
  }

  ghost predicate CallsOk(st: Calls, log: seq<Delta>) {
    && NumberingOk(st)
    && IndicesBelow(log, st.next)
    && (forall i :: i in st.calls ==> Joined(log, st.calls[i].ordinal.value) == st.calls[i].arguments)
    && (st.streamed <==> log != [])
  }

  lemma NumberedKeeps(st: Calls, item: nat)
    requires NumberingOk(st)
    ensures NumberingOk(Numbered(st, item)) && item in Numbered(st, item).calls
  {
    if item !in st.calls {
      PutSize(st.calls, item, Call(None, None, "", Some(st.next)));
    }
  }

  lemma NumberedOk(st: Calls, log: seq<Delta>, item: nat)
    requires CallsOk(st, log)
    ensures CallsOk(Numbered(st, item), log) && item in Numbered(st, item).calls
  {
    NumberedKeeps(st, item);
    UnusedIndex(log, st.next);
  }

  // Replacing an entry without touching its ordinal keeps the numbering.
  lemma ReplaceKeeps(st: Calls, item: nat, c: Call)
    requires NumberingOk(st) && item in st.calls && c.ordinal == st.calls[item].ordinal
    ensures NumberingOk(st.(calls := st.calls[item := c]))
  {
    PutSize(st.calls, item, c);
  }

  lemma ArgumentsJoined(st: Calls, log: seq<Delta>, item: nat, delta: string, d: Delta, i: nat)
    requires NumberingOk(st) && item in st.calls && i in st.calls
    requires Joined(log, st.calls[i].ordinal.value) == st.calls[i].arguments
    requires d.index == st.calls[item].ordinal.value && d.arguments == NonEmpty(delta)
    ensures Joined(log + [d], st.calls[i].ordinal.value) == st.calls[i].arguments + (if i == item then delta else "")
  {
    JoinedSnoc(log, d, st.calls[i].ordinal.value);
  }

  lemma RegisterOk(st: Calls, log: seq<Delta>, e: CallEvent)
    requires CallsOk(st, log) && e.Register?
    ensures CallsOk(OnCall(st, e).0, log + OnCall(st, e).1)
  {
    NumberedOk(st, log, e.item);
    var (st', ds) := OnCall(st, e);
    ReplaceKeeps(Numbered(st, e.item), e.item, st'.calls[e.item]);
    assert log + ds == log;
  }

  lemma ArgumentsOk(st: Calls, log: seq<Delta>, e: CallEvent)
    requires CallsOk(st, log) && e.Arguments?
    ensures CallsOk(OnCall(st, e).0, log + OnCall(st, e).1)
  {
    var st1 := Numbered(st, e.item);
    NumberedOk(st, log, e.item);
    var (st', ds) := OnCall(st, e);
    ReplaceKeeps(st1, e.item, st'.calls[e.item]);
    forall i | i in st'.calls ensures Joined(log + ds, st'.calls[i].ordinal.value) == st'.calls[i].arguments {
      ArgumentsJoined(st1, log, e.item, e.delta, ds[0], i);
    }
  }

  lemma CallStepOk(st: Calls, log: seq<Delta>, e: CallEvent)
    requires CallsOk(st, log)
    ensures CallsOk(OnCall(st, e).0, log + OnCall(st, e).1)
  {
    if e.Register? {
      RegisterOk(st, log, e);
    } else {
      ArgumentsOk(st, log, e);
    }
  }

  lemma {:induction false} CallRunOk(es: seq<CallEvent>)
    ensures CallsOk(CallRun(es).0, CallRun(es).1)
  {
    if es != [] {
      CallRunOk(es[..|es| - 1]);
      var (st, log) := CallRun(es[..|es| - 1]);
      CallStepOk(st, log, es[|es| - 1]);
    }
  }

  // As many distinct numbers below the bound as the bound: each number is taken.
  lemma ItemOf(st: Calls, o: nat) returns (i: nat)
    requires NumberingOk(st) && o < st.next
    ensures i in st.calls && st.calls[i].ordinal == Some(o)
  {
    var m := map i | i in st.calls :: st.calls[i].ordinal.value;
    assert m.Keys == st.calls.Keys;
    assert |m| == |st.calls|;
    ImageSize(m);
    FullBelow(m.Values, st.next);
    assert o in m.Values;
    i :| i in m && m[i] == o;
  }

  // Every output item has an ordinal, the ordinals are exactly 0 .. next-1, each used by one item,
  // and the fragments emitted under it join to the item's arguments.
  lemma ResponsesOrdinals(es: seq<CallEvent>)
    ensures
      var (st, log) := CallRun(es);
      && (forall i :: i in st.calls ==> st.calls[i].ordinal.Some? && st.calls[i].ordinal.value < st.next)
      && (forall i, j :: i in st.calls && j in st.calls && st.calls[i].ordinal == st.calls[j].ordinal ==> i == j)
      && (forall o :: 0 <= o < st.next ==> exists i :: i in st.calls && st.calls[i].ordinal == Some(o))
      && (forall i :: i in st.calls ==> Joined(log, st.calls[i].ordinal.value) == st.calls[i].arguments)
      && (st.streamed <==> log != [])
  {
    CallRunOk(es);
    var st := CallRun(es).0;
    forall o | 0 <= o < st.next ensures exists i :: i in st.calls && st.calls[i].ordinal == Some(o) {
      var i := ItemOf(st, o);
    }
  }

  // The last id and the last name that registrations of the item gave.
  function RegisteredAs(es: seq<CallEvent>, item: nat): (Option<string>, Option<string>) {
    if es == [] then (None, None)
    else
      var before := RegisteredAs(es[..|es| - 1], item);
      match es[|es| - 1]
      case Register(i, id, name) =>
        if i != item then before
        else (if id.Some? then id else before.0, if name.Some? then name else before.1)
      case Arguments(_, _) => before
  }

  lemma {:induction false} CallsAreRegisteredAs(es: seq<CallEvent>, item: nat)
    ensures
      var calls := CallRun(es).0.calls;
      RegisteredAs(es, item) == if item in calls then (calls[item].id, calls[item].name) else (None, None)
  {
    if es != [] {
      CallsAreRegisteredAs(es[..|es| - 1], item);
    }
  }

  // A fragment is emitted with its item's ordinal, id and name; a registration emits nothing.
  lemma ResponsesDelta(es: seq<CallEvent>, e: CallEvent)
    ensures
      var (st, log) := CallRun(es + [e]);
      && e.item in st.calls
      && (e.Register? ==> log == CallRun(es).1)
      && (e.Arguments? ==>
            && |log| == |CallRun(es).1| + 1
            && var d := log[|log| - 1];
            && Some(d.index) == st.calls[e.item].ordinal && (d.id, d.name) == RegisteredAs(es, e.item)
            && d.arguments == if e.delta == "" then None else Some(e.delta))
  {
    assert (es + [e])[..|es|] == es;
    CallsAreRegisteredAs(es, e.item);
    CallRunOk(es);
    assert CallRun(es).1 + [] == CallRun(es).1;
  }
}
