/** The order in which calls reach the client. */
module SanitizerOrder {
  import opened Prelude
  import opened Seqs
  import opened Sanitizer

  // ------------------------------------------------------------ first appearance

  function KeysOf(ci: int, calls: seq<ToolCall>): seq<Key> {
    Map((tc: ToolCall) => (ci, tc.index), calls)
  }

  function ChunkKeys(chunk: Chunk): seq<Key> {
    if chunk == [] then []
    else var n := |chunk| - 1; ChunkKeys(chunk[..n]) + KeysOf(chunk[n].index, CallsOf(chunk[n]))
  }

  /** The slots that the fragments of a stream address, one by one. */
  function StreamKeys(stream: seq<Chunk>): seq<Key> {
    if stream == [] then [] else StreamKeys(stream[..|stream| - 1]) + ChunkKeys(stream[|stream| - 1])
  }

  /** Each of them once, where it first appears. */
  function FirstSeen(keys: seq<Key>): seq<Key> {
    if keys == [] then []
    else
      var n := |keys| - 1;
      FirstSeen(keys[..n]) + (if keys[n] in keys[..n] then [] else [keys[n]])
  }

  lemma SeenSnoc(keys: seq<Key>, k: Key)
    ensures FirstSeen(keys + [k]) == FirstSeen(keys) + (if k in keys then [] else [k])
  {
    assert (keys + [k])[..|keys|] == keys;
  }

  ghost predicate Tracks(S: Slots, keys: seq<Key>) {
    S.order == FirstSeen(keys) && forall k :: k in S.table <==> k in keys
  }

  lemma {:induction false} BufferTracks(S: Slots, ci: int, calls: seq<ToolCall>, keys: seq<Key>)
    requires Tracks(S, keys)
    ensures Tracks(Buffer(S, ci, calls).0, keys + KeysOf(ci, calls))
  {
    hide FirstSeen, Take;
    if calls == [] {
      assert keys + KeysOf(ci, calls) == keys;
    } else {
      var n := |calls| - 1;
      BufferTracks(S, ci, calls[..n], keys);
      var k := (ci, calls[n].index);
      var before := keys + KeysOf(ci, calls[..n]);
      assert keys + KeysOf(ci, calls) == before + [k];
      SeenSnoc(before, k);
    }
  }

  lemma ChoiceTracks(S: Slots, ch: Choice, keys: seq<Key>)
    requires Tracks(S, keys)
    ensures Tracks(FeedChoice(S, ch).0, keys + KeysOf(ch.index, CallsOf(ch)))
  {
    hide FirstSeen, Buffer;
    BufferTracks(S, ch.index, CallsOf(ch), keys);
  }

  lemma {:induction false} ChunkTracks(S: Slots, chunk: Chunk, keys: seq<Key>)
    requires Tracks(S, keys)
    ensures Tracks(FedChunk(S, chunk).0, keys + ChunkKeys(chunk))
  {
    hide Tracks, FeedChoice;
    if chunk == [] {
      assert keys + ChunkKeys(chunk) == keys;
    } else {
      var n := |chunk| - 1;
      ChunkTracks(S, chunk[..n], keys);
      var more := KeysOf(chunk[n].index, CallsOf(chunk[n]));
      ChoiceTracks(FedChunk(S, chunk[..n]).0, chunk[n], keys + ChunkKeys(chunk[..n]));
      assert keys + ChunkKeys(chunk) == (keys + ChunkKeys(chunk[..n])) + more;
    }
  }

  /** Over every stream the slots are kept in the order of their first fragments. */
  lemma {:induction false} SlotsInOrder(stream: seq<Chunk>)
    ensures Tracks(Run(EMPTY, stream).0, StreamKeys(stream))
  {
    hide FedChunk;
    if stream != [] {
      var n := |stream| - 1;
      SlotsInOrder(stream[..n]);
      ChunkTracks(Run(EMPTY, stream[..n]).0, stream[n], StreamKeys(stream[..n]));
    }
  }

  // ---------------------------------------------------------------- emitted calls

  ghost predicate Increasing(pos: seq<nat>, n: nat) {
    && (forall i :: 0 <= i < |pos| ==> pos[i] < n)
    && (forall i, j :: 0 <= i < j < |pos| ==> pos[i] < pos[j])
  }

  lemma {:induction false} BufferedInOrder(S: Slots, ci: int, calls: seq<ToolCall>) returns (pos: seq<nat>)
    ensures var e := Buffer(S, ci, calls).1;
            && |pos| == |e| && Increasing(pos, |calls|)
            && forall i :: 0 <= i < |e| ==> e[i].0 == (ci, calls[pos[i]].index)
  {
    hide Take;
    pos := [];
    if calls != [] {
      var n := |calls| - 1;
      pos := BufferedInOrder(S, ci, calls[..n]);
      if |Buffer(S, ci, calls).1| > |pos| { pos := pos + [n]; }
    }
  }

  /** A named call that is still without arguments. */
  predicate Bare(s: Slot) {
    !s.done && s.name.Some? && IsBlank(s.buf)
  }

  function Waiting(S: Slots, ci: int): Key -> bool {
    (k: Key) => k.0 == ci && Bare(S.Get(k))
  }

  function Index(): Key -> Option<int> { (k: Key) => k.1 }

  lemma {:induction false} BlankInOrder(S: Slots, ci: int, keys: seq<Key>)
    ensures var e, w := NoArgCalls(S, ci, keys), Filter(Waiting(S, ci), keys);
            |e| == |w| && forall i :: 0 <= i < |e| ==> e[i] == (w[i], "{}")
  {
    if keys != [] {
      BlankInOrder(S, ci, keys[..|keys| - 1]);
    }
  }

  function Indices(calls: seq<ToolCall>): seq<Option<int>> {
    Map((tc: ToolCall) => tc.index, calls)
  }

  /** What goes out with a choice after any stream: first the calls that its
      fragments complete, in the order of those fragments; then, when it finishes,
      the calls still without arguments, in the order in which their slots first
      appeared. */
  lemma CallsInOrder(stream: seq<Chunk>, ch: Choice) returns (pos: seq<nat>)
    requires ch.delta.Some?
    ensures var R := Run(EMPTY, stream).0;
            var S1 := Buffer(R, ch.index, CallsOf(ch)).0;
            var out := CallsOf(FeedChoice(R, ch).1);
            var keys := StreamKeys(stream) + KeysOf(ch.index, CallsOf(ch));
            && |pos| <= |out| && Increasing(pos, |CallsOf(ch)|)
            && (forall i :: 0 <= i < |pos| ==> out[i].index == CallsOf(ch)[pos[i]].index)
            && Indices(out[|pos|..]) ==
               (if ch.finish.None? then [] else Map(Index(), Filter(Waiting(S1, ch.index), FirstSeen(keys))))
  {
    hide Run, Buffer, Filter, NoArgCalls, FirstSeen, StreamKeys, CloseAll;
    var R := Run(EMPTY, stream).0;
    var calls := CallsOf(ch);
    SlotsInOrder(stream);
    BufferTracks(R, ch.index, calls, StreamKeys(stream));
    pos := BufferedInOrder(R, ch.index, calls);
    var (S1, buffered) := Buffer(R, ch.index, calls);
    BlankInOrder(S1, ch.index, S1.order);
  }
}
