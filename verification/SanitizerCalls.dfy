/** What the calls that reach the client look like, choice by choice: name, id and
    type from the fragments, everything else of the chunk as it came, and the
    finish reason. */
module SanitizerCalls {
  import opened Prelude
  import opened Json
  import opened Sanitizer
  import opened SanitizerRuns
  import opened SanitizerSplit
  import opened SanitizerStreams

  // ----------------------------------------------------- fields of the fragments

  /** The first fragment that has something decides. */
  function First(pick: ToolCall -> Option<string>, f: seq<ToolCall>): Option<string> {
    if f == [] then None else if pick(f[0]).Some? then pick(f[0]) else First(pick, f[1..])
  }

  function IdOf(): ToolCall -> Option<string> { (tc: ToolCall) => tc.id }

  function KindOf(): ToolCall -> Option<string> { (tc: ToolCall) => tc.kind }

  /** An empty name is no name. */
  function NameOf(): ToolCall -> Option<string> {
    (tc: ToolCall) => if tc.name == Some("") then None else tc.name
  }

  lemma {:induction false} FirstConcat(pick: ToolCall -> Option<string>, f: seq<ToolCall>, g: seq<ToolCall>)
    ensures First(pick, f + g) == if First(pick, f).Some? then First(pick, f) else First(pick, g)
  {
    if f == [] {
      assert f + g == g;
    } else {
      assert (f + g)[1..] == f[1..] + g;
      FirstConcat(pick, f[1..], g);
    }
  }

  lemma FirstSnoc(pick: ToolCall -> Option<string>, f: seq<ToolCall>, tc: ToolCall)
    ensures First(pick, f + [tc]) == if First(pick, f).Some? then First(pick, f) else pick(tc)
  {
    FirstConcat(pick, f, [tc]);
    assert [tc][1..] == [];
  }

  function FragsIn(beats: seq<Beat>): seq<ToolCall> {
    if beats == [] then []
    else
      FragsIn(beats[..|beats| - 1])
      + match beats[|beats| - 1] case Frag(tc) => [tc] case End(_) => []
  }

  lemma {:induction false} FragsInConcat(a: seq<Beat>, b: seq<Beat>)
    ensures FragsIn(a + b) == FragsIn(a) + FragsIn(b)
  {
    if b == [] {
      assert a + b == a;
    } else {
      var n := |b| - 1;
      assert (a + b)[..|a + b| - 1] == a + b[..n];
      FragsInConcat(a, b[..n]);
    }
  }

  /** The slot has the first id, the first type and the first non-empty name. */
  predicate FieldsFrom(s: Slot, f: seq<ToolCall>) {
    s.id == First(IdOf(), f) && s.kind == First(KindOf(), f) && s.name == First(NameOf(), f)
  }

  lemma {:induction false} FieldsOfLife(beats: seq<Beat>)
    ensures FieldsFrom(Life(Alive(false, FRESH, None), beats).slot, FragsIn(beats))
  {
    hide CompleteValue;
    if beats != [] {
      var n := |beats| - 1;
      FieldsOfLife(beats[..n]);
      var f := FragsIn(beats[..n]);
      match beats[n] {
        case Frag(tc) =>
          FirstSnoc(IdOf(), f, tc);
          FirstSnoc(KindOf(), f, tc);
          FirstSnoc(NameOf(), f, tc);
        case End(_) =>
          assert f + [] == f;
      }
    }
  }

  /** The fragments of slot `k` in a stream. */
  function FragsOf(stream: seq<Chunk>, k: Key): seq<ToolCall> {
    FragsIn(StreamBeats(stream, k))
  }

  lemma SlotFields(stream: seq<Chunk>, k: Key)
    ensures FieldsFrom(Run(EMPTY, stream).0.Get(k), FragsOf(stream, k))
  {
    hide Run, Life, StreamBeats, FieldsFrom, Seen;
    StreamShows(stream, k, "");
    FieldsOfLife(StreamBeats(stream, k));
  }

  // ----------------------------------------------------------------- positions

  /** The stream up to and including choice `j` of chunk `c`. */
  function Upto(stream: seq<Chunk>, c: nat, j: nat): seq<Chunk>
    requires c < |stream| && j < |stream[c]|
  {
    stream[..c] + [stream[c][..j + 1]]
  }

  lemma {:induction false} ChunkPrefix(S: Slots, chunk: Chunk, j: nat)
    requires j <= |chunk|
    ensures |FedChunk(S, chunk).1| == |chunk| && FedChunk(S, chunk[..j]).1 == FedChunk(S, chunk).1[..j]
  {
    hide FeedChoice;
    if chunk != [] {
      var n := |chunk| - 1;
      ChunkPrefix(S, chunk[..n], Min(j, n));
      if j <= n {
        assert chunk[..n][..j] == chunk[..j];
      } else {
        assert chunk[..j] == chunk;
      }
    }
  }

  lemma {:induction false} RunPrefix(stream: seq<Chunk>, c: nat)
    requires c <= |stream|
    ensures |Run(EMPTY, stream).1| == |stream| && Run(EMPTY, stream[..c]).1 == Run(EMPTY, stream).1[..c]
  {
    hide FedChunk;
    if stream != [] {
      var n := |stream| - 1;
      RunPrefix(stream[..n], Min(c, n));
      if c <= n {
        assert stream[..n][..c] == stream[..c];
      } else {
        assert stream[..c] == stream;
      }
    }
  }

  lemma ChunkOutput(R: Slots, chunk: Chunk, j: nat)
    requires j < |chunk|
    ensures var S := FedChunk(R, chunk[..j]).0;
            && |FedChunk(R, chunk).1| == |chunk|
            && FedChunk(R, chunk).1[j] == FeedChoice(S, chunk[j]).1
            && FedChunk(R, chunk[..j + 1]).0 == FeedChoice(S, chunk[j]).0
  {
    hide FeedChoice;
    ChunkPrefix(R, chunk, j + 1);
    ChunkPrefix(R, chunk, j);
    var part := chunk[..j + 1];
    assert part[..j] == chunk[..j] && part[j] == chunk[j];
    assert FedChunk(R, chunk).1[j] == FedChunk(R, chunk).1[..j + 1][j];
  }

  lemma RunOutput(stream: seq<Chunk>, c: nat)
    requires c < |stream|
    ensures |Run(EMPTY, stream).1| == |stream|
    ensures Run(EMPTY, stream).1[c] == FedChunk(Run(EMPTY, stream[..c]).0, stream[c]).1
  {
    hide FedChunk;
    RunPrefix(stream, c + 1);
    RunPrefix(stream, c);
    var part := stream[..c + 1];
    assert part[..c] == stream[..c] && part[c] == stream[c];
    RunPrefix(part, c);
    assert Run(EMPTY, stream).1[c] == Run(EMPTY, stream).1[..c + 1][c];
  }

  lemma StateUpto(stream: seq<Chunk>, c: nat, j: nat)
    requires c < |stream| && j < |stream[c]|
    ensures Run(EMPTY, Upto(stream, c, j)).0 == FedChunk(Run(EMPTY, stream[..c]).0, stream[c][..j + 1]).0
  {
    hide FedChunk;
    var up := Upto(stream, c, j);
    assert up[..c] == stream[..c] && up[c] == stream[c][..j + 1];
  }

  /** What comes out at a position, and the state it is made from. */
  lemma OutputAt(stream: seq<Chunk>, c: nat, j: nat)
    requires c < |stream| && j < |stream[c]|
    ensures var outs := Run(EMPTY, stream).1;
            var S := FedChunk(Run(EMPTY, stream[..c]).0, stream[c][..j]).0;
            && |outs| == |stream| && |outs[c]| == |stream[c]|
            && outs[c][j] == FeedChoice(S, stream[c][j]).1
            && Run(EMPTY, Upto(stream, c, j)).0 == FeedChoice(S, stream[c][j]).0
            && Good(S)
  {
    hide FeedChoice, Good, FedChunk, Run, Upto;
    var R := Run(EMPTY, stream[..c]).0;
    RunOutput(stream, c);
    ChunkOutput(R, stream[c], j);
    StateUpto(stream, c, j);
    RunGood(stream[..c]);
    FedGood(R, stream[c][..j]);
  }

  // ------------------------------------------------------------------- the calls

  lemma RebuiltFields(S: Slots, ch: Choice, n: nat)
    requires Good(S)
    requires n < |CallsOf(FeedChoice(S, ch).1)|
    ensures var (T, out) := FeedChoice(S, ch);
            var call := CallsOf(out)[n];
            var s := T.Get((ch.index, call.index));
            && call.id == s.id && call.name == s.name
            && call.kind == (if s.kind.Some? && s.kind != Some("") then s.kind else Some("function"))
  {
    hide Good, Buffer, NoArgCalls;
    var (S1, S2, emits) := ChoiceEmits(S, ch);
    ChoiceSound(S, ch);
    var out := FeedChoice(S, ch).1;
    assert CallsOf(out) == RebuiltAll(S2, emits);
    assert CallsOf(out)[n] == Rebuilt(S2, emits[n]);
    assert emits[n].0 == (ch.index, emits[n].0.1);
  }

  /** Over every stream, every call that comes out at a position has the first id
      and the first type (or `function`) of the fragments of its slot up to that
      position, and the first non-empty name of all of them. */
  lemma CallFields(stream: seq<Chunk>, c: nat, j: nat, n: nat)
    requires c < |stream| && j < |stream[c]|
    requires var outs := Run(EMPTY, stream).1;
             |outs| == |stream| && |outs[c]| == |stream[c]| && n < |CallsOf(outs[c][j])|
    ensures var call := CallsOf(Run(EMPTY, stream).1[c][j])[n];
            var k := (stream[c][j].index, call.index);
            var f := FragsOf(Upto(stream, c, j), k);
            && call.id == First(IdOf(), f)
            && call.kind == (var t := First(KindOf(), f); if t.Some? && t != Some("") then t else Some("function"))
            && call.name == First(NameOf(), FragsOf(stream, k)) == First(NameOf(), f) && call.name.Some?
  {
    hide Run, FeedChoice, FedChunk, CallsOf, Good, FragsOf, Rebuilt;
    OutputAt(stream, c, j);
    var S := FedChunk(Run(EMPTY, stream[..c]).0, stream[c][..j]).0;
    RebuiltFields(S, stream[c][j], n);
    var call := CallsOf(Run(EMPTY, stream).1[c][j])[n];
    var k := (stream[c][j].index, call.index);
    SlotFields(Upto(stream, c, j), k);
    OutputNamed(S, stream[c][j], n);
    FragsGrow(stream, c, j, k);
    var g := FragsOf(stream, k)[|FragsOf(Upto(stream, c, j), k)|..];
    FirstConcat(NameOf(), FragsOf(Upto(stream, c, j), k), g);
    assert FragsOf(stream, k) == FragsOf(Upto(stream, c, j), k) + g;
  }

  lemma OutputNamed(S: Slots, ch: Choice, n: nat)
    requires Good(S) && n < |CallsOf(FeedChoice(S, ch).1)|
    ensures CallsOf(FeedChoice(S, ch).1)[n].name.Some?
  {
    hide Good, FeedChoice, CallsOf, CallOk;
    NothingRemembered(S);
    ChoiceRemembered(S, ch, []);
    var out := FeedChoice(S, ch).1;
    assert [] + ChoiceLog(out) == ChoiceLog(out);
    LoggedIsOk(FeedChoice(S, ch).0, ChoiceLog(out), n);
    assert ChoiceLog(out)[n].1 == CallsOf(out)[n];
  }

  lemma NothingRemembered(S: Slots)
    requires Good(S)
    ensures Remembers(S, [])
  {}

  lemma LoggedIsOk(S: Slots, log: seq<Call>, n: nat)
    requires Remembers(S, log) && n < |log|
    ensures log[n].1.name.Some?
  {}

  lemma {:induction false} BeatsGrow(stream: seq<Chunk>, c: nat, k: Key)
    requires c <= |stream|
    ensures FragsOf(stream[..c], k) <= FragsOf(stream, k)
  {
    hide ChunkBeats;
    if c == |stream| {
      assert stream[..c] == stream;
    } else {
      var n := |stream| - 1;
      BeatsGrow(stream[..n], c, k);
      assert stream[..n][..c] == stream[..c];
      FragsInConcat(StreamBeats(stream[..n], k), ChunkBeats(stream[n], k));
    }
  }

  lemma {:induction false} ChunkGrows(chunk: Chunk, j: nat, k: Key)
    requires j <= |chunk|
    ensures FragsIn(ChunkBeats(chunk[..j], k)) <= FragsIn(ChunkBeats(chunk, k))
  {
    hide BeatsOf;
    if j == |chunk| {
      assert chunk[..j] == chunk;
    } else {
      var n := |chunk| - 1;
      ChunkGrows(chunk[..n], j, k);
      assert chunk[..n][..j] == chunk[..j];
      FragsInConcat(ChunkBeats(chunk[..n], k), BeatsOf(chunk[n], k));
    }
  }

  lemma FragsGrow(stream: seq<Chunk>, c: nat, j: nat, k: Key)
    requires c < |stream| && j < |stream[c]|
    ensures FragsOf(Upto(stream, c, j), k) <= FragsOf(stream, k)
  {
    hide ChunkBeats, FragsIn;
    var up, whole := Upto(stream, c, j), stream[..c + 1];
    assert up[..c] == stream[..c] && whole[..c] == stream[..c];
    FragsInConcat(StreamBeats(stream[..c], k), ChunkBeats(stream[c][..j + 1], k));
    FragsInConcat(StreamBeats(stream[..c], k), ChunkBeats(stream[c], k));
    ChunkGrows(stream[c], j + 1, k);
    BeatsGrow(stream, c + 1, k);
  }

  /** An id or a type that arrives after the call has gone out is not in it: the
      call has the first id of all fragments exactly when some fragment had one by
      then, or none ever does. */
  lemma IdIsFirstExactly(stream: seq<Chunk>, c: nat, j: nat, k: Key, pick: ToolCall -> Option<string>)
    requires c < |stream| && j < |stream[c]|
    ensures First(pick, FragsOf(Upto(stream, c, j), k)) == First(pick, FragsOf(stream, k))
       <==> First(pick, FragsOf(Upto(stream, c, j), k)).Some? || First(pick, FragsOf(stream, k)).None?
  {
    hide FragsOf;
    FragsGrow(stream, c, j, k);
    var f := FragsOf(Upto(stream, c, j), k);
    var g := FragsOf(stream, k)[|f|..];
    FirstConcat(pick, f, g);
    assert FragsOf(stream, k) == f + g;
  }

  // ------------------------------------------------------- the rest of the chunk

  /** Over every stream, choices come out one for one, with their index and their
      content, and with a delta exactly when they had one. */
  lemma ChoicesAreKept(stream: seq<Chunk>, c: nat, j: nat)
    requires c < |stream| && j < |stream[c]|
    ensures var outs := Run(EMPTY, stream).1;
            && |outs| == |stream| && |outs[c]| == |stream[c]|
            && outs[c][j].index == stream[c][j].index
            && outs[c][j].delta.Some? == stream[c][j].delta.Some?
            && (stream[c][j].delta.Some? ==> outs[c][j].delta.value.content == stream[c][j].delta.value.content)
            && (outs[c][j].finish.Some? <==> stream[c][j].finish.Some?)
  {
    OutputAt(stream, c, j);
  }

  /** Slot `k`, by the fragments it has had, was named and brought a text that is
      neither blank nor begins with a value, and its choice has not finished. */
  predicate CutOff(beats: seq<Beat>) {
    var (f, end) := Story(beats);
    end.None? && Named(f) && !IsBlank(Concat(f)) && Parse(Concat(f)).None?
  }

  /** The beats of slot `k` before a choice finishes, its own fragments included. */
  function BeatsBefore(stream: seq<Chunk>, c: nat, j: nat, k: Key): seq<Beat>
    requires c < |stream| && j < |stream[c]|
  {
    StreamBeats(stream[..c] + [stream[c][..j]], k) + Frags(Of(CallsOf(stream[c][j]), k))
  }

  lemma TruncatedIsCutOff(S: Slots, T: Slots, calls: seq<ToolCall>, beats: seq<Beat>, k: Key)
    requires S.Get(k) == Life(Alive(false, FRESH, None), beats).slot
    requires k in S.table <==> Life(Alive(false, FRESH, None), beats).present
    requires T == Buffer(S, k.0, calls).0
    ensures k in T.table && Truncated(T.table[k]) <==> CutOff(beats + Frags(Of(calls, k)))
  {
    hide Buffer, Life, Of, Frags, Story, SlotFrom, Concat, Named, Parse, IsBlank;
    var x := Alive(false, FRESH, None);
    var y := Life(x, beats);
    var own := Frags(Of(calls, k));
    BufferProjects(S, k.0, calls, k, "");
    BufferKnows(S, k.0, calls, k);
    LifeSplit(x, beats, own);
    AliveClosed(beats);
    LifeTwice(y, own);
    LifeOfFrags(y.(seen := None), Of(calls, k));
    var z := Life(x, beats + own);
    assert T.Get(k) == z.slot && (k in T.table <==> z.present);
    LifeIsStory(beats + own);
    var (f, end) := Story(beats + own);
    SlotMeaning(f);
    NamedIsThere(f);
  }

  lemma AliveClosed(beats: seq<Beat>)
    ensures Closed(Life(Alive(false, FRESH, None), beats))
  {
    LifeTwice(Alive(false, FRESH, None), beats);
  }

  lemma NamedIsThere(f: seq<ToolCall>)
    ensures Named(f) ==> f != []
  {}

  /** Over every stream, the finish reason of a choice becomes `length` exactly when
      it was `tool_calls` or `stop` and a slot of the choice was cut off; otherwise
      it is as it came. */
  lemma FinishReason(stream: seq<Chunk>, c: nat, j: nat)
    requires c < |stream| && j < |stream[c]|
    ensures var outs := Run(EMPTY, stream).1;
            var ch := stream[c][j];
            && |outs| == |stream| && |outs[c]| == |stream[c]|
            && outs[c][j].finish ==
               (if (ch.finish == Some("tool_calls") || ch.finish == Some("stop"))
                   && exists k: Key :: k.0 == ch.index && CutOff(BeatsBefore(stream, c, j, k))
                then Some("length") else ch.finish)
  {
    hide Run, FedChunk, CutOff, Buffer, NoArgCalls, CallsOf, StreamBeats, Life;
    OutputAt(stream, c, j);
    var ch := stream[c][j];
    var up := stream[..c] + [stream[c][..j]];
    var S := FedChunk(Run(EMPTY, stream[..c]).0, stream[c][..j]).0;
    StateAt(stream, c, j);
    var T := Buffer(S, ch.index, CallsOf(ch)).0;
    forall k: Key | k.0 == ch.index
      ensures k in T.table && Truncated(T.table[k]) <==> CutOff(BeatsBefore(stream, c, j, k))
    {
      StreamShows(up, k, "");
      TruncatedIsCutOff(S, T, CallsOf(ch), StreamBeats(up, k), k);
    }
  }

  lemma StateAt(stream: seq<Chunk>, c: nat, j: nat)
    requires c < |stream| && j < |stream[c]|
    ensures Run(EMPTY, stream[..c] + [stream[c][..j]]).0 == FedChunk(Run(EMPTY, stream[..c]).0, stream[c][..j]).0
  {
    var up := stream[..c] + [stream[c][..j]];
    assert up[..c] == stream[..c];
  }

  // ------------------------------------------------------------------- example

  /** The id comes in a chunk after the call is complete: the call goes out without
      it, and never again. */
  lemma LateIdIsLost()
    ensures var call := ToolCall(Some(0), None, None, Some("f"), Some("{}"));
            var late := ToolCall(Some(0), Some("call_1"), None, None, None);
            var out := Run(EMPTY, [[Carrying(call)], [Carrying(late)]]).1;
            && First(IdOf(), [call, late]) == Some("call_1")
            && |out| == 2 && |out[0]| == |out[1]| == 1
            && CallsOf(out[0][0]) == [ToolCall(Some(0), None, Some("function"), Some("f"), Some("{}"))]
            && CallsOf(out[1][0]) == []
  {
    hide CompleteValue, FedChunk, FeedChoice, Run;
    var call := ToolCall(Some(0), None, None, Some("f"), Some("{}"));
    var late := ToolCall(Some(0), Some("call_1"), None, None, None);
    assert [call, late][1..] == [late];
    BracesAreWhole();
    var slot := Slot(None, None, Some("f"), "{}", true);
    assert "" + "{}" == "{}" && "{}" + "" == "{}";
    var S0 := EMPTY.Put((0, Some(0)), slot);
    OneFragment(EMPTY, call);
    OneFragment(S0, late);
    assert Take(EMPTY.Get((0, Some(0))), call) == (slot, Some("{}"));
    TwoChunks([Carrying(call)], [Carrying(late)]);
  }

  lemma TwoChunks(c: Chunk, d: Chunk)
    ensures var (S, o) := FedChunk(EMPTY, c);
            Run(EMPTY, [c, d]) == (FedChunk(S, d).0, [o, FedChunk(S, d).1])
  {
    hide FedChunk;
    var (S, o) := FedChunk(EMPTY, c);
    var (T, p) := FedChunk(S, d);
    assert [c, d][..1] == [c] && [c][..0] == [];
    assert [] + [o] == [o] && [o] + [p] == [o, p];
    assert Run(EMPTY, [c][..0]) == (EMPTY, []);
    assert Run(EMPTY, [c]) == (S, [o]);
  }

  /** A choice that carries one fragment and nothing else. */
  function Carrying(tc: ToolCall): Choice {
    Choice(0, Some(Delta(None, Some([tc]))), None)
  }

  lemma OneFragment(S: Slots, tc: ToolCall)
    ensures var k := (0, tc.index);
            var (s, args) := Take(S.Get(k), tc);
            var T := S.Put(k, s);
            && FeedChoice(S, Carrying(tc)).0 == T
            && CallsOf(FeedChoice(S, Carrying(tc)).1) == RebuiltAll(T, AsEmits(k, args))
            && FedChunk(S, [Carrying(tc)]) == (T, [FeedChoice(S, Carrying(tc)).1])
  {
    hide Take;
    assert [tc][..0] == [] && [Carrying(tc)][..0] == [];
    assert Buffer(S, 0, [tc][..0]) == (S, []);
    assert FedChunk(S, [Carrying(tc)][..0]) == (S, []);
    assert [] + [FeedChoice(S, Carrying(tc)).1] == [FeedChoice(S, Carrying(tc)).1];
  }

  lemma BracesAreWhole()
    ensures CompleteValue("{}") == Some("{}")
  {
    var v := Json.EmptyObject("");
    assert v.Text() == "{}" && v.Text() + "" == "{}" && v.Valid();
    ParseComplete(v, "");
    assert Parse("{}") == Some((v, ""));
    CompleteValueMeaning("{}");
  }
}
