/** What the client sees of a slot over a whole stream, finished or not: the value
    its fragments begin with, `{}`, or nothing. */
module SanitizerStreams {
  import opened Prelude
  import opened Json
  import opened Sanitizer
  import opened SanitizerRuns
  import opened SanitizerSplit

  // -------------------------------------------------------- the life of a slot

  /** The fragments of slot `k` among the calls of one delta. */
  function Of(calls: seq<ToolCall>, k: Key): seq<ToolCall> {
    if calls == [] then []
    else
      var n := |calls| - 1;
      Of(calls[..n], k) + (if calls[n].index == k.1 then [calls[n]] else [])
  }

  /** What happens to a slot: a fragment arrives, or its choice finishes, with or
      without a delta to show anything in. */
  datatype Beat = Frag(tc: ToolCall) | End(shown: bool)

  function Frags(f: seq<ToolCall>): seq<Beat> {
    seq(|f|, i requires 0 <= i < |f| => Frag(f[i]))
  }

  function BeatsOf(ch: Choice, k: Key): seq<Beat> {
    if ch.index != k.0 then []
    else Frags(Of(CallsOf(ch), k)) + (if ch.finish.Some? then [End(ch.delta.Some?)] else [])
  }

  function ChunkBeats(chunk: Chunk, k: Key): seq<Beat> {
    if chunk == [] then [] else ChunkBeats(chunk[..|chunk| - 1], k) + BeatsOf(chunk[|chunk| - 1], k)
  }

  function StreamBeats(stream: seq<Chunk>, k: Key): seq<Beat> {
    if stream == [] then [] else StreamBeats(stream[..|stream| - 1], k) + ChunkBeats(stream[|stream| - 1], k)
  }

  /** Whether the slot exists, its state, and what was shown of it. */
  datatype Alive = Alive(present: bool, slot: Slot, seen: Option<string>)

  function Lived(x: Alive, b: Beat): Alive {
    match b
    case Frag(tc) =>
      var (s, e) := Take(x.slot, tc);
      Alive(true, s, if x.seen.Some? then x.seen else e)
    case End(shown) =>
      if !x.present then x
      else Alive(true, x.slot.(done := true),
                 if x.seen.None? && NoArgs(x.slot) && shown then Some("{}") else x.seen)
  }

  function Life(x: Alive, beats: seq<Beat>): Alive {
    if beats == [] then x else Lived(Life(x, beats[..|beats| - 1]), beats[|beats| - 1])
  }

  lemma {:induction false} LifeSplit(x: Alive, a: seq<Beat>, b: seq<Beat>)
    ensures Life(x, a + b) == Life(Life(x, a), b)
  {
    hide Lived;
    if b == [] {
      assert a + b == a;
    } else {
      var n := |b| - 1;
      assert (a + b)[..|a + b| - 1] == a + b[..n];
      LifeSplit(x, a, b[..n]);
    }
  }

  /** What was shown has been closed. */
  predicate Closed(x: Alive) {
    x.seen.Some? ==> x.slot.done
  }

  lemma LivedTwice(x: Alive, b: Beat)
    requires Closed(x)
    ensures var y, z := Lived(x, b), Lived(x.(seen := None), b);
            && Closed(y) && y.present == z.present && y.slot == z.slot
            && y.seen == (if x.seen.Some? then x.seen else z.seen)
            && (x.slot.done ==> z.seen.None? && y.slot.done)
  {
    hide CompleteValue;
  }

  /** A stretch of a life shows what it would show on its own, and nothing once
      the slot is done. */
  lemma {:induction false} LifeTwice(x: Alive, beats: seq<Beat>)
    requires Closed(x)
    ensures var y, z := Life(x, beats), Life(x.(seen := None), beats);
            && Closed(y) && Closed(z) && y.present == z.present && y.slot == z.slot
            && y.seen == (if x.seen.Some? then x.seen else z.seen)
            && (x.slot.done ==> z.seen.None? && y.slot.done)
  {
    hide Lived;
    if beats != [] {
      var n := |beats| - 1;
      LifeTwice(x, beats[..n]);
      var y, z := Life(x, beats[..n]), Life(x.(seen := None), beats[..n]);
      LivedTwice(y, beats[n]);
      LivedTwice(z, beats[n]);
      assert y.(seen := None) == z.(seen := None);
    }
  }

  lemma {:induction false} LifeOfFrags(x: Alive, f: seq<ToolCall>)
    requires x.seen.None?
    ensures Life(x, Frags(f)) == Alive(x.present || f != [], SlotFrom(x.slot, f).0, SlotFrom(x.slot, f).1)
  {
    hide Take;
    if f == [] {
      assert Frags(f) == [];
    } else {
      var n := |f| - 1;
      assert Frags(f)[..n] == Frags(f[..n]);
      LifeOfFrags(x, f[..n]);
    }
  }

  // ------------------------------------------------------- one choice, one slot

  /** The client has seen slot `k` with arguments `a`. */
  ghost predicate Seen(log: seq<Call>, k: Key, a: string) {
    exists i :: 0 <= i < |log| && log[i].0 == k && log[i].1.arguments == Some(a)
  }

  lemma {:induction false} EmittedIsDone(s: Slot, frags: seq<ToolCall>)
    ensures SlotFrom(s, frags).1.Some? ==> SlotFrom(s, frags).0.done
  {
    if frags != [] {
      EmittedIsDone(s, frags[..|frags| - 1]);
    }
  }

  lemma TakeWhenDone(s: Slot, tc: ToolCall)
    requires s.done
    ensures Take(s, tc).0.done && Take(s, tc).1.None?
  {}

  /** Buffering a delta runs slot `k` on exactly its own fragments. */
  lemma {:induction false} BufferProjects(S: Slots, ci: int, calls: seq<ToolCall>, k: Key, a: string)
    ensures var (T, emits) := Buffer(S, ci, calls);
            var (s, e) := SlotFrom(S.Get(k), if ci == k.0 then Of(calls, k) else []);
            T.Get(k) == s && ((k, a) in emits <==> e == Some(a))
  {
    hide Take;
    if calls != [] {
      var n := |calls| - 1;
      BufferProjects(S, ci, calls[..n], k, a);
      var (S1, emits) := Buffer(S, ci, calls[..n]);
      var f := Of(calls[..n], k);
      if ci == k.0 && calls[n].index == k.1 {
        assert (f + [calls[n]])[..|f|] == f;
        EmittedIsDone(S.Get(k), f);
        if S1.Get(k).done { TakeWhenDone(S1.Get(k), calls[n]); }
      } else {
        assert f + [] == f;
      }
    }
  }

  lemma RebuiltShows(S: Slots, ci: int, emits: seq<Emit>, out: Choice, k: Key, a: string)
    requires out.index == ci && forall i :: 0 <= i < |emits| ==> emits[i].0.0 == ci
    requires CallsOf(out) == RebuiltAll(S, emits)
    ensures Seen(ChoiceLog(out), k, a) <==> (k, a) in emits
  {
    var log := ChoiceLog(out);
    assert |log| == |emits|;
    forall i | 0 <= i < |emits|
      ensures log[i].0 == emits[i].0 && log[i].1.arguments == Some(emits[i].1)
    {
      assert log[i].1 == Rebuilt(S, emits[i]);
    }
    if (k, a) in emits {
      var i :| 0 <= i < |emits| && emits[i] == (k, a);
      assert log[i].0 == k;
    }
    if Seen(log, k, a) {
      var i :| 0 <= i < |log| && log[i].0 == k && log[i].1.arguments == Some(a);
      assert emits[i] == (k, a);
    }
  }

  lemma {:induction false} BufferKnows(S: Slots, ci: int, calls: seq<ToolCall>, k: Key)
    requires ci == k.0
    ensures k in Buffer(S, ci, calls).0.table <==> k in S.table || Of(calls, k) != []
  {
    hide Take;
    if calls != [] {
      BufferKnows(S, ci, calls[..|calls| - 1], k);
    }
  }

  lemma NoCallsNoEmits(S: Slots, ch: Choice)
    requires ch.delta.None?
    ensures Buffer(S, ch.index, CallsOf(ch)) == (S, [])
  {}

  /** A choice that emits anything outside its finish step has a delta to show
      it in. */
  lemma ShownCalls(S: Slots, ch: Choice, emits: seq<Emit>, out: Choice)
    requires exists t :: out == Rewritten(S, ch, emits, t)
    requires ch.delta.Some? || emits == []
    ensures CallsOf(out) == RebuiltAll(S, emits)
  {}

  lemma SeenEither(log: seq<Call>, more: seq<Call>, k: Key, a: string)
    ensures Seen(log + more, k, a) <==> Seen(log, k, a) || Seen(more, k, a)
  {
    var all := log + more;
    if Seen(log, k, a) {
      var i :| 0 <= i < |log| && log[i].0 == k && log[i].1.arguments == Some(a);
      assert all[i] == log[i];
    }
    if Seen(more, k, a) {
      var i :| 0 <= i < |more| && more[i].0 == k && more[i].1.arguments == Some(a);
      assert all[|log| + i] == more[i];
    }
  }

  /** The state of slot `k`, as its life so far. */
  ghost function StateOf(S: Slots, k: Key): Alive {
    Alive(k in S.table, S.Get(k), None)
  }

  /** The new state of slot `k`, and what of it is shown, are what the beats make
      of the old state. */
  ghost predicate Shows(S: Slots, T: Slots, log: seq<Call>, beats: seq<Beat>, k: Key, a: string) {
    var y := Life(StateOf(S, k), beats);
    T.Get(k) == y.slot && (k in T.table <==> y.present) && (Seen(log, k, a) <==> y.seen == Some(a))
  }

  lemma OtherChoice(S: Slots, ch: Choice, k: Key, a: string)
    requires ch.index != k.0
    ensures var (T, out) := FeedChoice(S, ch); Shows(S, T, ChoiceLog(out), BeatsOf(ch, k), k, a)
  {
    hide Buffer, NoArgCalls, Take, Rebuilt, RebuiltAll, Of, CallsOf;
    BufferOthers(S, ch.index, CallsOf(ch), k);
    assert FeedChoice(S, ch).1.index == ch.index;
  }

  lemma {:induction false} BufferOthers(S: Slots, ci: int, calls: seq<ToolCall>, k: Key)
    requires ci != k.0
    ensures var T := Buffer(S, ci, calls).0; T.Get(k) == S.Get(k) && (k in T.table <==> k in S.table)
  {
    hide Take;
    if calls != [] {
      BufferOthers(S, ci, calls[..|calls| - 1], k);
    }
  }

  /** The beats of a choice, run on the state it meets. */
  lemma BeatsRun(S: Slots, ch: Choice, k: Key)
    requires ch.index == k.0
    ensures var (s, e) := SlotFrom(S.Get(k), Of(CallsOf(ch), k));
            var x := Alive(k in S.table || Of(CallsOf(ch), k) != [], s, e);
            Life(StateOf(S, k), BeatsOf(ch, k)) == if ch.finish.Some? then Lived(x, End(ch.delta.Some?)) else x
  {
    hide SlotFrom, Of, CallsOf, Lived;
    var f := Of(CallsOf(ch), k);
    LifeOfFrags(StateOf(S, k), f);
    if ch.finish.Some? {
      var beats := Frags(f) + [End(ch.delta.Some?)];
      assert beats[..|beats| - 1] == Frags(f);
    } else {
      assert Frags(f) + [] == Frags(f);
    }
  }

  /** Whether the choice's delta shows the call. */
  lemma ChoiceShows(S: Slots, ch: Choice, k: Key, a: string)
    requires Good(S) && ch.index == k.0
    ensures var (S1, S2, emits) := ChoiceEmits(S, ch);
            Seen(ChoiceLog(FeedChoice(S, ch).1), k, a) <==> ch.delta.Some? && (k, a) in emits
  {
    hide Good, Sound, Buffer, NoArgCalls, Rebuilt, RebuiltAll;
    var out := FeedChoice(S, ch).1;
    var (S1, S2, emits) := ChoiceEmits(S, ch);
    ChoiceSound(S, ch);
    if ch.delta.Some? {
      ShownCalls(S2, ch, emits, out);
      RebuiltShows(S2, ch.index, emits, out, k, a);
    } else {
      assert CallsOf(out) == [];
    }
  }

  lemma OwnChoice(S: Slots, ch: Choice, k: Key, a: string)
    requires Good(S) && ch.index == k.0
    ensures var (T, out) := FeedChoice(S, ch); Shows(S, T, ChoiceLog(out), BeatsOf(ch, k), k, a)
  {
    hide Buffer, NoArgCalls, Take, SlotFrom, Of, CallsOf, Good, Life, BeatsOf, Seen, ChoiceLog, Rewritten, CompleteValue;
    var (S1, S2, emits) := ChoiceEmits(S, ch);
    BufferProjects(S, ch.index, CallsOf(ch), k, a);
    BufferKnows(S, ch.index, CallsOf(ch), k);
    BufferGood(S, ch);
    BeatsRun(S, ch, k);
    ChoiceShows(S, ch, k, a);
    EmittedIsDone(S.Get(k), Of(CallsOf(ch), k));
    if ch.delta.None? { NoCallsNoEmits(S, ch); NoneFrom(S, ch, k); }
    NoArgExact(S1, ch.index, S1.order, (k, a));
  }

  lemma NoneFrom(S: Slots, ch: Choice, k: Key)
    requires ch.delta.None?
    ensures Of(CallsOf(ch), k) == [] && SlotFrom(S.Get(k), []) == (S.Get(k), None)
  {}

  lemma BufferGood(S: Slots, ch: Choice)
    requires Good(S)
    ensures var S1 := Buffer(S, ch.index, CallsOf(ch)).0; forall j :: j in S1.order <==> j in S1.table
  {
    BufferSound(S, ch.index, CallsOf(ch));
  }

  // ------------------------------------------------------------ whole streams

  /** One stretch after another. */
  lemma ShowsTwice(S: Slots, T: Slots, U: Slots, log: seq<Call>, more: seq<Call>,
                   b: seq<Beat>, c: seq<Beat>, k: Key, a: string)
    requires Shows(S, T, log, b, k, a) && Shows(T, U, more, c, k, a)
    ensures Shows(S, U, log + more, b + c, k, a)
  {
    hide Life, Seen;
    var x := StateOf(S, k);
    var y := Life(x, b);
    LifeSplit(x, b, c);
    LifeTwice(x, b);
    LifeTwice(y, c);
    assert StateOf(T, k) == y.(seen := None);
    SeenEither(log, more, k, a);
  }

  lemma ShowsNothing(S: Slots, k: Key, a: string)
    ensures Shows(S, S, [], [], k, a)
  {}

  lemma {:induction false} ChunkShows(S: Slots, chunk: Chunk, k: Key, a: string)
    requires Good(S)
    ensures var (T, out) := FedChunk(S, chunk); Shows(S, T, ChunkLog(out), ChunkBeats(chunk, k), k, a)
  {
    hide Good, FeedChoice, ChoiceLog, Shows, BeatsOf;
    if chunk == [] {
      ShowsNothing(S, k, a);
    } else {
      var n := |chunk| - 1;
      ChunkShows(S, chunk[..n], k, a);
      var (S1, out) := FedChunk(S, chunk[..n]);
      FedGood(S, chunk[..n]);
      if chunk[n].index == k.0 { OwnChoice(S1, chunk[n], k, a); } else { OtherChoice(S1, chunk[n], k, a); }
      var (S2, ch) := FeedChoice(S1, chunk[n]);
      ShowsTwice(S, S1, S2, ChunkLog(out), ChoiceLog(ch), ChunkBeats(chunk[..n], k), BeatsOf(chunk[n], k), k, a);
      assert (out + [ch])[..|out|] == out;
    }
  }

  lemma FedGood(S: Slots, chunk: Chunk)
    requires Good(S)
    ensures Good(FedChunk(S, chunk).0)
  {
    ChunkRemembered(S, chunk, []);
  }

  lemma RunGood(stream: seq<Chunk>)
    ensures Good(Run(EMPTY, stream).0)
  {
    StreamRemembered(stream);
  }

  /** Over every stream, slot `k` is what its beats make of a fresh slot, and the
      client has seen it with arguments `a` exactly when they show `a`. */
  lemma {:induction false} StreamShows(stream: seq<Chunk>, k: Key, a: string)
    ensures var (T, outs) := Run(EMPTY, stream);
            Shows(EMPTY, T, StreamLog(outs), StreamBeats(stream, k), k, a)
  {
    hide Good, FedChunk, ChunkLog, Shows, ChunkBeats, Remembers;
    if stream == [] {
      ShowsNothing(EMPTY, k, a);
    } else {
      var n := |stream| - 1;
      StreamShows(stream[..n], k, a);
      var (S1, outs) := Run(EMPTY, stream[..n]);
      RunGood(stream[..n]);
      ChunkShows(S1, stream[n], k, a);
      var (S2, out) := FedChunk(S1, stream[n]);
      ShowsTwice(EMPTY, S1, S2, StreamLog(outs), ChunkLog(out),
                 StreamBeats(stream[..n], k), ChunkBeats(stream[n], k), k, a);
      assert (outs + [out])[..|outs|] == outs;
    }
  }

  // -------------------------------------------------------- what that amounts to

  /** The fragments that arrived before the choice first finished, and whether
      that finish had a delta, if it came.  A finish before the first fragment is
      not one for this slot. */
  function Story(beats: seq<Beat>): (seq<ToolCall>, Option<bool>) {
    if beats == [] then ([], None)
    else
      var (f, end) := Story(beats[..|beats| - 1]);
      if end.Some? then (f, end)
      else
        match beats[|beats| - 1]
        case Frag(tc) => (f + [tc], None)
        case End(shown) => (f, if f == [] then None else Some(shown))
  }

  /** What the story shows: what the fragments emit, or `{}` for a named call that
      finished without arguments. */
  function View(f: seq<ToolCall>, end: Option<bool>): Option<string> {
    var (s, e) := SlotFrom(FRESH, f);
    if e.Some? then e else if end == Some(true) && NoArgs(s) then Some("{}") else None
  }

  /** A life agrees with a story. */
  ghost predicate Tells(y: Alive, f: seq<ToolCall>, end: Option<bool>) {
    && (y.present <==> f != []) && y.seen == View(f, end)
    && (end.None? ==> y.slot == SlotFrom(FRESH, f).0)
    && (end.Some? ==> y.present && y.slot.done)
  }

  lemma SlotSnoc(f: seq<ToolCall>, tc: ToolCall)
    ensures var (s, e) := SlotFrom(FRESH, f);
            SlotFrom(FRESH, f + [tc]) == (Take(s, tc).0, if e.Some? then e else Take(s, tc).1)
  {
    hide Take;
    assert (f + [tc])[..|f|] == f;
  }

  lemma TellsFragment(y: Alive, f: seq<ToolCall>, end: Option<bool>, tc: ToolCall)
    requires Tells(y, f, end)
    ensures if end.None? then Tells(Lived(y, Frag(tc)), f + [tc], None) else Tells(Lived(y, Frag(tc)), f, end)
  {
    hide SlotFrom, Take;
    SlotSnoc(f, tc);
    if end.Some? { TakeWhenDone(y.slot, tc); }
  }

  lemma TellsEnd(y: Alive, f: seq<ToolCall>, end: Option<bool>, shown: bool)
    requires Tells(y, f, end)
    ensures Tells(Lived(y, End(shown)), f, if end.Some? then end else if f == [] then None else Some(shown))
  {
    hide SlotFrom;
    EmittedIsDone(FRESH, f);
  }

  lemma TellsNothing()
    ensures Tells(Alive(false, FRESH, None), [], None)
  {}

  lemma {:induction false} LifeIsStory(beats: seq<Beat>)
    ensures Tells(Life(Alive(false, FRESH, None), beats), Story(beats).0, Story(beats).1)
  {
    hide Tells, Lived;
    if beats == [] {
      TellsNothing();
    } else {
      var n := |beats| - 1;
      LifeIsStory(beats[..n]);
      var y := Life(Alive(false, FRESH, None), beats[..n]);
      var (f, end) := Story(beats[..n]);
      match beats[n] {
        case Frag(tc) => TellsFragment(y, f, end, tc);
        case End(shown) => TellsEnd(y, f, end, shown);
      }
    }
  }

  /** The story of a slot in a stream. */
  function StoryOf(stream: seq<Chunk>, k: Key): (seq<ToolCall>, Option<bool>) {
    Story(StreamBeats(stream, k))
  }

  lemma SeenIsView(stream: seq<Chunk>, k: Key, a: string)
    ensures var (f, end) := StoryOf(stream, k);
            Seen(StreamLog(Run(EMPTY, stream).1), k, a) <==> View(f, end) == Some(a)
  {
    hide Life, Story, View, Seen, StreamLog;
    StreamShows(stream, k, a);
    LifeIsStory(StreamBeats(stream, k));
  }

  /** Over every stream: if the fragments of a slot, up to its finish, name it and
      begin with a self-delimiting value, the client has seen that slot with
      exactly that value, however the fragments were split over chunks. */
  lemma SeenIsTheValue(stream: seq<Chunk>, k: Key, a: string)
    requires var frags := StoryOf(stream, k).0;
             && Named(frags) && Parse(Concat(frags)).Some?
             && SelfDelimiting(Parse(Concat(frags)).value.0)
    ensures Seen(StreamLog(Run(EMPTY, stream).1), k, a) <==>
              a == Parse(Concat(StoryOf(stream, k).0)).value.0.Text()
  {
    hide Seen, StreamLog, StoryOf;
    var frags := StoryOf(stream, k).0;
    SeenIsView(stream, k, a);
    SplitIndependent(frags);
    CompleteValueMeaning(Concat(frags));
  }

  /** Over every stream: if they name it but bring no arguments, the client has
      seen it with `{}` exactly when its choice has finished with a delta; and not
      at all otherwise. */
  lemma SeenWithoutArguments(stream: seq<Chunk>, k: Key, a: string)
    requires var frags := StoryOf(stream, k).0; Named(frags) && IsBlank(Concat(frags))
    ensures Seen(StreamLog(Run(EMPTY, stream).1), k, a) <==>
              a == "{}" && StoryOf(stream, k).1 == Some(true)
  {
    hide Seen, StreamLog, StoryOf;
    var frags := StoryOf(stream, k).0;
    SeenIsView(stream, k, a);
    SlotMeaning(frags);
    BlankIsNoValue(Concat(frags));
  }

  lemma BlankIsNoValue(text: string)
    requires IsBlank(text)
    ensures Parse(text).None?
  {
    CompleteValueMeaning(text);
  }

  /** Over every stream: if they do not name it, or bring a text that is not blank
      and begins with no complete value, the client has not seen it at all. */
  lemma UnseenUnlessWhole(stream: seq<Chunk>, k: Key, a: string)
    requires var frags := StoryOf(stream, k).0;
             !Named(frags) || (!IsBlank(Concat(frags)) && Parse(Concat(frags)).None?)
    ensures !Seen(StreamLog(Run(EMPTY, stream).1), k, a)
  {
    hide Seen, StreamLog, StoryOf;
    SeenIsView(stream, k, a);
    SlotMeaning(StoryOf(stream, k).0);
  }
}
