/** The tool-call stream sanitizer of `correction.py`: per (choice, index) slot
    it buffers argument fragments and emits a call only when they form one
    complete JSON value.  Specification functions first, then the class that
    updates its slot table in place and is proved against them. */
module Sanitizer {
  import opened Prelude
  import opened Json

  /** (choice index, tool-call index) */
  type Key = (int, Option<int>)

  /** One entry of `delta.tool_calls`; `None` is an absent or null field. */
  datatype ToolCall = ToolCall(
    index: Option<int>, id: Option<string>, kind: Option<string>,
    name: Option<string>, arguments: Option<string>)

  datatype Delta = Delta(content: Option<string>, toolCalls: Option<seq<ToolCall>>)

  datatype Choice = Choice(index: int, delta: Option<Delta>, finish: Option<string>)

  type Chunk = seq<Choice>

  datatype Slot = Slot(
    id: Option<string>, kind: Option<string>, name: Option<string>, buf: string, done: bool)

  const FRESH := Slot(None, None, None, "", false)

  /** A call decided on in the current chunk: its slot and its arguments. */
  type Emit = (Key, string)

  /** The slot dictionary, with the insertion order Python's dict keeps. */
  datatype Slots = Slots(order: seq<Key>, table: map<Key, Slot>) {
    ghost predicate Valid() {
      && Distinct(order)
      && forall k :: k in table <==> k in order
    }

    function Get(k: Key): Slot {
      if k in table then table[k] else FRESH
    }

    /** Write a slot; a new key goes to the end of the order. */
    function Put(k: Key, s: Slot): Slots {
      Slots(if k in table then order else order + [k], table[k := s])
    }
  }

  const EMPTY := Slots([], map[])

  // ------------------------------------------------------------ one fragment

  /** `_complete_value`: the complete JSON value that `text` begins with. */
  function CompleteValue(text: string): (r: Option<string>)
    ensures r.Some? <==> !IsBlank(text) && Parse(text).Some?
  {
    if IsBlank(text) then None
    else
      match Parse(text)
      case None => None
      case Some((_, rest)) => Some(text[..|text| - |rest|])
  }

  function Absorb(s: Slot, tc: ToolCall): Slot {
    Slot(
      if s.id.None? then tc.id else s.id,
      if s.kind.None? then tc.kind else s.kind,
      if s.name.None? && tc.name.Some? && tc.name.value != "" then tc.name else s.name,
      s.buf + tc.arguments.GetOr(""),
      s.done)
  }

  /** Fold one fragment into its slot; the second result is the argument text
      when this fragment completes the call. */
  function Take(s: Slot, tc: ToolCall): (Slot, Option<string>) {
    var s1 := Absorb(s, tc);
    if s1.done || s1.name.None? then (s1, None)
    else
      var args := CompleteValue(s1.buf);
      (s1.(done := args.Some?), args)
  }

  function AsEmits(k: Key, args: Option<string>): seq<Emit> {
    if args.Some? then [(k, args.value)] else []
  }

  function Buffer(S: Slots, ci: int, calls: seq<ToolCall>): (Slots, seq<Emit>) {
    if calls == [] then (S, [])
    else
      var n := |calls| - 1;
      var (S1, emits) := Buffer(S, ci, calls[..n]);
      var k := (ci, calls[n].index);
      var (s, args) := Take(S1.Get(k), calls[n]);
      (S1.Put(k, s), emits + AsEmits(k, args))
  }

  // -------------------------------------------------------------- one choice

  predicate Pending(s: Slot) { !s.done }

  /** A call whose arguments never arrived: a legitimate no-argument call. */
  predicate NoArgs(s: Slot) { !s.done && s.name.Some? && IsBlank(s.buf) }

  /** A call whose arguments stopped part way. */
  predicate Truncated(s: Slot) { !s.done && s.name.Some? && !IsBlank(s.buf) }

  /** At the finish chunk every slot of the choice is closed. */
  function CloseAll(S: Slots, ci: int): Slots {
    S.(table := map k | k in S.table :: if k.0 == ci then S.table[k].(done := true) else S.table[k])
  }

  function NoArgCalls(S: Slots, ci: int, keys: seq<Key>): seq<Emit> {
    if keys == [] then []
    else
      var n := |keys| - 1;
      var k := keys[n];
      NoArgCalls(S, ci, keys[..n]) + (if k.0 == ci && NoArgs(S.Get(k)) then [(k, "{}")] else [])
  }

  ghost predicate AnyTruncated(S: Slots, ci: int) {
    exists k :: k in S.table && k.0 == ci && Truncated(S.table[k])
  }

  function Rebuilt(S: Slots, e: Emit): ToolCall {
    var s := S.Get(e.0);
    ToolCall(e.0.1, s.id,
             if s.kind.Some? && s.kind.value != "" then s.kind else Some("function"),
             s.name, Some(e.1))
  }

  function RebuiltAll(S: Slots, emits: seq<Emit>): seq<ToolCall> {
    seq(|emits|, i requires 0 <= i < |emits| => Rebuilt(S, emits[i]))
  }

  const RELABELLED := {"tool_calls", "stop"}

  function CallsOf(ch: Choice): seq<ToolCall> {
    if ch.delta.Some? && ch.delta.value.toolCalls.Some? then ch.delta.value.toolCalls.value else []
  }

  function Rewritten(S: Slots, ch: Choice, emits: seq<Emit>, truncated: bool): Choice {
    Choice(
      ch.index,
      if ch.delta.None? then None
      else Some(ch.delta.value.(toolCalls := if emits == [] then None else Some(RebuiltAll(S, emits)))),
      if truncated && ch.finish.Some? && ch.finish.value in RELABELLED then Some("length") else ch.finish)
  }

  /** The slots before the finish step, after it, and the emitted calls. */
  ghost function ChoiceEmits(S: Slots, ch: Choice): (Slots, Slots, seq<Emit>) {
    var (S1, buffered) := Buffer(S, ch.index, CallsOf(ch));
    if ch.finish.None? then (S1, S1, buffered)
    else (S1, CloseAll(S1, ch.index), buffered + NoArgCalls(S1, ch.index, S1.order))
  }

  ghost function FeedChoice(S: Slots, ch: Choice): (Slots, Choice) {
    var (S1, S2, emits) := ChoiceEmits(S, ch);
    (S2, Rewritten(S2, ch, emits, ch.finish.Some? && AnyTruncated(S1, ch.index)))
  }

  // --------------------------------------------------------- chunk and stream

  ghost function FedChunk(S: Slots, chunk: Chunk): (Slots, Chunk) {
    if chunk == [] then (S, [])
    else
      var n := |chunk| - 1;
      var (S1, out) := FedChunk(S, chunk[..n]);
      var (S2, ch) := FeedChoice(S1, chunk[n]);
      (S2, out + [ch])
  }

  ghost function Run(S: Slots, stream: seq<Chunk>): (Slots, seq<Chunk>) {
    if stream == [] then (S, [])
    else
      var n := |stream| - 1;
      var (S1, outs) := Run(S, stream[..n]);
      var (S2, out) := FedChunk(S1, stream[n]);
      (S2, outs + [out])
  }

  predicate HasToolCalls(chunk: Chunk) {
    exists i :: 0 <= i < |chunk| && chunk[i].delta.Some? && chunk[i].delta.value.toolCalls.Some?
  }

  ghost predicate AnyPending(S: Slots) {
    exists k :: k in S.table && Pending(S.table[k])
  }

  // ------------------------------------------------------------------- class

  class ToolCallStreamSanitizer {
    var order: seq<Key>
    var table: map<Key, Slot>

    ghost function View(): Slots reads this { Slots(order, table) }

    ghost predicate Valid() reads this { View().Valid() }

    constructor ()
      ensures Valid() && View() == EMPTY
    {
      order, table := [], map[];
    }

    /** One fragment into its slot. */
    method TakeCall(ci: int, tc: ToolCall) returns (args: Option<string>)
      requires Valid()
      modifies this
      ensures Valid()
      ensures var k := (ci, tc.index);
              var (s, a) := Take(old(View()).Get(k), tc);
              View() == old(View()).Put(k, s) && args == a
    {
      var k := (ci, tc.index);
      if k !in table {
        order, table := order + [k], table[k := FRESH];
      }
      var s := Absorb(table[k], tc);
      args := None;
      if !s.done && s.name.Some? {
        args := CompleteValue(s.buf);
        if args.Some? { s := s.(done := true); }
      }
      table := table[k := s];
    }

    method BufferCalls(ci: int, calls: seq<ToolCall>) returns (emits: seq<Emit>)
      requires Valid()
      modifies this
      ensures Valid()
      ensures (View(), emits) == Buffer(old(View()), ci, calls)
    {
      emits := [];
      for i := 0 to |calls|
        invariant Valid()
        invariant (View(), emits) == Buffer(old(View()), ci, calls[..i])
      {
        var args := TakeCall(ci, calls[i]);
        emits := emits + AsEmits((ci, calls[i].index), args);
        assert calls[..i + 1][..i] == calls[..i];
      }
      assert calls[..|calls|] == calls;
    }

    /** Close one slot, and say in which of the two ways it was still open. */
    method CloseSlot(k: Key) returns (noArgs: bool, cut: bool)
      requires k in table
      modifies this`table
      ensures noArgs == NoArgs(old(table[k])) && cut == Truncated(old(table[k]))
      ensures table == if old(table[k]).done then old(table)
                       else old(table)[k := old(table[k]).(done := true)]
    {
      var s := table[k];
      noArgs, cut := false, false;
      if !s.done {
        if s.name.Some? && IsBlank(s.buf) {
          noArgs := true;
        } else if s.name.Some? {
          cut := true;
        }
        table := table[k := s.(done := true)];
      }
    }

    /** Close every slot of the choice, noting which calls had no arguments and
        whether any call was cut off. */
    method FinalizeChoice(ci: int) returns (emits: seq<Emit>, truncated: bool)
      requires Valid()
      modifies this
      ensures Valid()
      ensures View() == CloseAll(old(View()), ci)
      ensures emits == NoArgCalls(old(View()), ci, old(order))
      ensures truncated <==> AnyTruncated(old(View()), ci)
    {
      hide ClosedSoFar, CloseAll, AnyTruncated;
      ghost var S := View();
      AllClosed(S, ci);
      emits, truncated := [], false;
      for i := 0 to |order|
        invariant order == S.order && table == ClosedSoFar(S, ci, i)
        invariant emits == NoArgCalls(S, ci, S.order[..i])
        invariant truncated <==> TruncatedIn(S, ci, S.order[..i])
      {
        var k := order[i];
        OneMoreClosed(S, ci, i);
        assert S.Get(k) == table[k];
        if k.0 == ci {
          var noArgs, cut := CloseSlot(k);
          if noArgs { emits := emits + [(k, "{}")]; }
          truncated := truncated || cut;
        }
      }
      assert S.order[..|S.order|] == S.order;
      TruncatedSomewhere(S, ci, S.order);
    }

    method Choose(ch: Choice) returns (out: Choice)
      requires Valid()
      modifies this
      ensures Valid()
      ensures (View(), out) == FeedChoice(old(View()), ch)
    {
      var emits := BufferCalls(ch.index, CallsOf(ch));
      var truncated := false;
      if ch.finish.Some? {
        var noArgs;
        noArgs, truncated := FinalizeChoice(ch.index);
        emits := emits + noArgs;
      }
      out := Rewritten(Slots(order, table), ch, emits, truncated);
    }

    method IsPending() returns (pending: bool)
      requires Valid()
      ensures pending <==> AnyPending(View())
    {
      pending := false;
      for i := 0 to |order|
        invariant pending <==> exists k :: k in order[..i] && Pending(table[k])
      {
        assert order[..i + 1] == order[..i] + [order[i]];
        pending := pending || !table[order[i]].done;
      }
      assert order[..|order|] == order;
    }

    /** `feed`.  `mentions` is whether the raw text contains `"tool_calls"`;
        without it, and with nothing pending, the chunk is not even parsed. */
    method Feed(chunk: Chunk, mentions: bool) returns (out: Chunk)
      requires Valid()
      requires HasToolCalls(chunk) ==> mentions
      modifies this
      ensures Valid()
      ensures (View(), out) == FedChunk(old(View()), chunk)
    {
      if !mentions {
        var pending := IsPending();
        if !pending {
          PassThrough(View(), chunk);
          return chunk;
        }
      }
      out := [];
      for i := 0 to |chunk|
        invariant Valid()
        invariant (View(), out) == FedChunk(old(View()), chunk[..i])
      {
        var ch := Choose(chunk[i]);
        out := out + [ch];
        assert chunk[..i + 1][..i] == chunk[..i];
      }
      assert chunk[..|chunk|] == chunk;
    }
  }

  // ------------------------------------------- the loop of the finish step

  /** The table after the first `i` slots of the order have been visited. */
  ghost function ClosedSoFar(S: Slots, ci: int, i: nat): map<Key, Slot>
    requires i <= |S.order|
  {
    map k | k in S.table ::
      if k.0 == ci && k in S.order[..i] then S.table[k].(done := true) else S.table[k]
  }

  ghost predicate TruncatedIn(S: Slots, ci: int, keys: seq<Key>) {
    keys != [] &&
    var n := |keys| - 1;
    TruncatedIn(S, ci, keys[..n]) || (keys[n].0 == ci && Truncated(S.Get(keys[n])))
  }

  /** Visiting slot `i` closes exactly that slot, if it is an open slot of the
      choice. */
  lemma OneMoreClosed(S: Slots, ci: int, i: nat)
    requires S.Valid() && i < |S.order|
    ensures S.order[..i + 1][..i] == S.order[..i] && S.order[..i + 1][i] == S.order[i]
    ensures var k := S.order[i];
            var t := ClosedSoFar(S, ci, i);
            && k in S.table && k in t && t[k] == S.table[k]
            && ClosedSoFar(S, ci, i + 1) ==
               (if k.0 == ci && !t[k].done then t[k := t[k].(done := true)] else t)
  {
    hide Slots.Valid;
    var k := S.order[i];
    var t, u := ClosedSoFar(S, ci, i), ClosedSoFar(S, ci, i + 1);
    NextVisited(S, i);
    forall j | j in S.table && j != k ensures u[j] == t[j] {
      assert j in S.order[..i + 1] <==> j in S.order[..i];
    }
    assert k in S.order[..i + 1] && t[k] == S.table[k];
    var closed := t[k := t[k].(done := true)];
    assert k.0 == ci ==> u == closed;
    assert k.0 != ci ==> u == t;
    assert t[k].done ==> closed == t;
  }

  lemma NextVisited(S: Slots, i: nat)
    requires S.Valid() && i < |S.order|
    ensures S.order[i] in S.table && S.order[i] !in S.order[..i]
    ensures forall j :: j in S.order[..i + 1] <==> j in S.order[..i] || j == S.order[i]
  {
    assert S.order[i] in S.order;
    assert S.order[..i + 1] == S.order[..i] + [S.order[i]];
  }

  lemma AllClosed(S: Slots, ci: int)
    requires S.Valid()
    ensures ClosedSoFar(S, ci, 0) == S.table
    ensures ClosedSoFar(S, ci, |S.order|) == CloseAll(S, ci).table && CloseAll(S, ci).order == S.order
    ensures CloseAll(S, ci).Valid()
  {
    assert S.order[..|S.order|] == S.order;
  }

  lemma {:induction false} TruncatedSomewhere(S: Slots, ci: int, keys: seq<Key>)
    ensures TruncatedIn(S, ci, keys) <==> exists k :: k in keys && k.0 == ci && Truncated(S.Get(k))
    ensures S.Valid() && keys == S.order ==> (TruncatedIn(S, ci, keys) <==> AnyTruncated(S, ci))
  {
    if keys != [] {
      var n := |keys| - 1;
      TruncatedSomewhere(S, ci, keys[..n]);
      assert keys == keys[..n] + [keys[n]];
    }
    if S.Valid() && keys == S.order {
      assert forall k :: k in keys ==> S.Get(k) == S.table[k];
    }
  }

  /** The fast path loses nothing: with no tool calls in the chunk and no slot
      pending, the full path would return the chunk and the slots unchanged. */
  lemma {:induction false} PassThrough(S: Slots, chunk: Chunk)
    requires S.Valid() && !HasToolCalls(chunk) && !AnyPending(S)
    ensures FedChunk(S, chunk) == (S, chunk)
  {
    if chunk != [] {
      var n := |chunk| - 1;
      PassThrough(S, chunk[..n]);
      Untouched(S, chunk[n]);
      assert chunk == chunk[..n] + [chunk[n]];
    }
  }

  lemma Untouched(S: Slots, ch: Choice)
    requires S.Valid() && !AnyPending(S)
    requires ch.delta.Some? ==> ch.delta.value.toolCalls.None?
    ensures FeedChoice(S, ch) == (S, ch)
  {
    NothingToFinish(S, ch.index, S.order);
    assert CloseAll(S, ch.index).table == S.table;
    assert CallsOf(ch) == [] && Buffer(S, ch.index, []) == (S, []);
    assert ChoiceEmits(S, ch).2 == [];
    assert !AnyTruncated(S, ch.index);
  }

  lemma {:induction false} NothingToFinish(S: Slots, ci: int, keys: seq<Key>)
    requires !AnyPending(S) && forall k :: k in keys ==> k in S.table
    ensures NoArgCalls(S, ci, keys) == []
  {
    if keys != [] {
      NothingToFinish(S, ci, keys[..|keys| - 1]);
      assert keys[|keys| - 1] in S.table;
    }
  }
}
