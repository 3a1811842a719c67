/** What the sanitizer guarantees over whole streams. */
module SanitizerRuns {
  import opened Prelude
  import opened Json
  import opened Sanitizer

  // ------------------------------------------------------- values and slots

  /** One complete JSON value as Python reads it. */
  ghost predicate ValueText(t: string) {
    exists v: Json :: v.Valid() && v.Text() == t
  }

  /** `_complete_value` returns exactly the text of the value the buffer begins
      with. */
  lemma CompleteValueMeaning(text: string)
    ensures CompleteValue(text).Some? <==> Parse(text).Some?
    ensures Parse(text).Some? ==>
              var (v, rest) := Parse(text).value;
              && v.Valid() && CompleteValue(text).value == v.Text()
              && text == v.Text() + rest
  {
    if Parse(text).Some? {
      ParseSound(text);
      var (v, rest) := Parse(text).value;
      FirstChar(v);
      FirstCharNotBlank(v);
      assert text[0] == v.Text()[0];
      assert !IsBlank(text);
    }
  }

  lemma FirstCharNotBlank(v: Json)
    requires v.Valid()
    ensures v.Text() != "" && !IsPySpace(v.Text()[0])
  {
    FirstChar(v);
  }

  /** Leading whitespace is never skipped: such a buffer is never complete,
      although the documentation of `_complete_value` says it is allowed. */
  lemma LeadingSpaceNeverCompletes(text: string)
    requires text != "" && IsSpace(text[0])
    ensures CompleteValue(text).None?
  {
    if CompleteValue(text).Some? {
      CompleteValueMeaning(text);
      FirstChar(Parse(text).value.0);
    }
  }

  ghost predicate SlotGood(s: Slot) {
    && (s.name.Some? ==> s.name.value != "")
    && (!s.done && s.name.Some? ==> CompleteValue(s.buf).None?)
  }

  /** Every named slot that has not been emitted holds an incomplete value. */
  ghost predicate Good(S: Slots) {
    S.Valid() && forall k :: k in S.table ==> SlotGood(S.table[k])
  }

  // -------------------------------------------------------- one step, sound

  /** What is emitted while the slots go from S to T: each call once, from an
      open slot that is closed afterwards, with a name and a complete value. */
  ghost predicate SoundEmit(S: Slots, T: Slots, e: Emit) {
    && !S.Get(e.0).done && e.0 in T.table
    && T.table[e.0].done && T.table[e.0].name.Some? && ValueText(e.1)
  }

  ghost predicate Extends(S: Slots, T: Slots) {
    forall k :: k in S.table ==>
      && k in T.table
      && (S.table[k].done ==> T.table[k].done)
      && (S.table[k].name.Some? ==> T.table[k].name.Some?)
  }

  ghost predicate Sound(S: Slots, T: Slots, emits: seq<Emit>) {
    && Extends(S, T)
    && (forall i, j :: 0 <= i < j < |emits| ==> emits[i].0 != emits[j].0)
    && forall i :: 0 <= i < |emits| ==> SoundEmit(S, T, emits[i])
  }

  lemma SoundThen(S: Slots, T: Slots, U: Slots, e: seq<Emit>, f: seq<Emit>)
    requires Sound(S, T, e) && Sound(T, U, f)
    ensures Sound(S, U, e + f)
  {
    var g := e + f;
    forall i | 0 <= i < |g| ensures SoundEmit(S, U, g[i]) {
      if i < |e| {
        assert SoundEmit(S, T, e[i]);
      } else {
        assert SoundEmit(T, U, f[i - |e|]);
        StillOpen(S, T, g[i].0);
      }
    }
    forall i, j | 0 <= i < j < |g| ensures g[i].0 != g[j].0 {
      if i < |e| <= j {
        assert SoundEmit(S, T, e[i]) && SoundEmit(T, U, f[j - |e|]);
      }
    }
  }

  lemma StillOpen(S: Slots, T: Slots, k: Key)
    requires Extends(S, T) && !T.Get(k).done
    ensures !S.Get(k).done
  {}

  lemma TakeSound(S: Slots, k: Key, tc: ToolCall)
    requires Good(S)
    ensures var (s, args) := Take(S.Get(k), tc);
            Good(S.Put(k, s)) && Sound(S, S.Put(k, s), AsEmits(k, args))
  {
    var s0 := S.Get(k);
    var (s, args) := Take(s0, tc);
    CompleteValueMeaning(s.buf);
    assert SlotGood(s);
    PutValid(S, k, s);
    if args.Some? {
      assert ValueText(args.value);
    }
  }

  lemma PutValid(S: Slots, k: Key, s: Slot)
    requires Good(S) && SlotGood(s)
    ensures Good(S.Put(k, s))
  {}

  lemma {:induction false} BufferSound(S: Slots, ci: int, calls: seq<ToolCall>)
    requires Good(S)
    ensures var (T, emits) := Buffer(S, ci, calls);
            Good(T) && Sound(S, T, emits) && forall i :: 0 <= i < |emits| ==> emits[i].0.0 == ci
  {
    if calls != [] {
      var n := |calls| - 1;
      BufferSound(S, ci, calls[..n]);
      var (S1, emits) := Buffer(S, ci, calls[..n]);
      var k := (ci, calls[n].index);
      TakeSound(S1, k, calls[n]);
      var (s, args) := Take(S1.Get(k), calls[n]);
      SoundThen(S, S1, S1.Put(k, s), emits, AsEmits(k, args));
    }
  }

  lemma CloseGood(S: Slots, ci: int)
    requires Good(S)
    ensures Good(CloseAll(S, ci)) && Extends(S, CloseAll(S, ci))
  {
    forall k | k in S.table ensures SlotGood(CloseAll(S, ci).table[k]) {
      assert SlotGood(S.table[k]);
    }
  }

  /** The finish step emits exactly the named, open, blank slots of the choice,
      each with `{}`. */
  lemma {:induction false} NoArgExact(S: Slots, ci: int, keys: seq<Key>, e: Emit)
    ensures e in NoArgCalls(S, ci, keys) <==>
              e.0 in keys && e.0.0 == ci && NoArgs(S.Get(e.0)) && e.1 == "{}"
  {
    if keys != [] {
      var n := |keys| - 1;
      NoArgExact(S, ci, keys[..n], e);
      assert keys == keys[..n] + [keys[n]];
    }
  }

  lemma {:induction false} NoArgDistinct(S: Slots, ci: int, keys: seq<Key>)
    requires Distinct(keys)
    ensures Distinct(NoArgCalls(S, ci, keys))
  {
    if keys != [] {
      var n := |keys| - 1;
      NoArgDistinct(S, ci, keys[..n]);
      NoArgExact(S, ci, keys[..n], (keys[n], "{}"));
      assert keys[n] !in keys[..n];
    }
  }

  lemma FinishSound(S: Slots, ci: int)
    requires Good(S)
    ensures Sound(S, CloseAll(S, ci), NoArgCalls(S, ci, S.order))
    ensures var e := NoArgCalls(S, ci, S.order);
            forall i :: 0 <= i < |e| ==> e[i].0.0 == ci && NoArgs(S.Get(e[i].0))
  {
    CloseGood(S, ci);
    NoArgDistinct(S, ci, S.order);
    var e, T := NoArgCalls(S, ci, S.order), CloseAll(S, ci);
    assert EmptyObject("").Valid() && EmptyObject("").Text() == "{}";
    forall i | 0 <= i < |e|
      ensures SoundEmit(S, T, e[i]) && e[i].1 == "{}" && e[i].0.0 == ci && NoArgs(S.Get(e[i].0))
    {
      NoArgExact(S, ci, S.order, e[i]);
      assert e[i].0 in S.table;
      assert ValueText(e[i].1);
    }
    forall i, j | 0 <= i < j < |e| ensures e[i].0 != e[j].0 {
      assert e[i] != e[j] && e[i].1 == e[j].1;
    }
  }

  lemma ChoiceSound(S: Slots, ch: Choice)
    requires Good(S)
    ensures var (_, T, emits) := ChoiceEmits(S, ch);
            Good(T) && Sound(S, T, emits) && forall i :: 0 <= i < |emits| ==> emits[i].0.0 == ch.index
  {
    BufferSound(S, ch.index, CallsOf(ch));
    var (S1, buffered) := Buffer(S, ch.index, CallsOf(ch));
    if ch.finish.Some? {
      FinishSound(S1, ch.index);
      CloseGood(S1, ch.index);
      SoundThen(S, S1, CloseAll(S1, ch.index), buffered, NoArgCalls(S1, ch.index, S1.order));
    }
  }

  // --------------------------------------------------- what the client sees

  /** A tool call that reaches the client, with the slot it came from. */
  type Call = (Key, ToolCall)

  function ChoiceLog(ch: Choice): seq<Call> {
    var calls := CallsOf(ch);
    seq(|calls|, i requires 0 <= i < |calls| => ((ch.index, calls[i].index), calls[i]))
  }

  function ChunkLog(chunk: Chunk): seq<Call> {
    if chunk == [] then [] else ChunkLog(chunk[..|chunk| - 1]) + ChoiceLog(chunk[|chunk| - 1])
  }

  function StreamLog(outs: seq<Chunk>): seq<Call> {
    if outs == [] then [] else StreamLog(outs[..|outs| - 1]) + ChunkLog(outs[|outs| - 1])
  }

  ghost predicate CallOk(c: Call) {
    && c.1.name.Some? && c.1.name.value != ""
    && c.1.arguments.Some? && ValueText(c.1.arguments.value)
  }

  /** The slots remember every call the client has seen. */
  ghost predicate Remembers(S: Slots, log: seq<Call>) {
    && Good(S)
    && (forall i, j :: 0 <= i < j < |log| ==> log[i].0 != log[j].0)
    && forall i :: 0 <= i < |log| ==>
         CallOk(log[i]) && log[i].0 in S.table && S.table[log[i].0].done
  }

  lemma RememberMore(S: Slots, T: Slots, log: seq<Call>, emits: seq<Emit>, ch: Choice)
    requires Remembers(S, log) && Good(T) && Sound(S, T, emits)
    requires forall i :: 0 <= i < |emits| ==> emits[i].0.0 == ch.index
    requires CallsOf(ch) == [] || CallsOf(ch) == RebuiltAll(T, emits)
    ensures Remembers(T, log + ChoiceLog(ch))
  {
    var more := ChoiceLog(ch);
    forall i | 0 <= i < |more|
      ensures CallOk(more[i]) && more[i].0 == emits[i].0 && SoundEmit(S, T, emits[i])
    {
      assert SoundEmit(S, T, emits[i]);
      assert SlotGood(T.table[emits[i].0]);
      assert more[i].1 == Rebuilt(T, emits[i]);
    }
    var all := log + more;
    forall i, j | 0 <= i < j < |all| ensures all[i].0 != all[j].0 {
      if i < |log| <= j {
        assert more[j - |log|].0 == emits[j - |log|].0;
      } else if |log| <= i {
        assert more[i - |log|].0 == emits[i - |log|].0 && more[j - |log|].0 == emits[j - |log|].0;
      }
    }
  }

  lemma {:induction false} ChunkRemembered(S: Slots, chunk: Chunk, log: seq<Call>)
    requires Remembers(S, log)
    ensures Remembers(FedChunk(S, chunk).0, log + ChunkLog(FedChunk(S, chunk).1))
  {
    hide Remembers, FeedChoice, ChoiceLog;
    if chunk == [] {
      assert log + ChunkLog([]) == log;
    } else {
      var n := |chunk| - 1;
      ChunkRemembered(S, chunk[..n], log);
      var (S1, out) := FedChunk(S, chunk[..n]);
      ChoiceRemembered(S1, chunk[n], log + ChunkLog(out));
      var ch := FeedChoice(S1, chunk[n]).1;
      assert (out + [ch])[..|out|] == out;
      assert log + (ChunkLog(out) + ChoiceLog(ch)) == (log + ChunkLog(out)) + ChoiceLog(ch);
    }
  }

  lemma ChoiceRemembered(S: Slots, ch: Choice, log: seq<Call>)
    requires Remembers(S, log)
    ensures Remembers(FeedChoice(S, ch).0, log + ChoiceLog(FeedChoice(S, ch).1))
  {
    ChoiceSound(S, ch);
    var (_, T, emits) := ChoiceEmits(S, ch);
    RememberMore(S, T, log, emits, FeedChoice(S, ch).1);
  }

  lemma {:induction false} StreamRemembered(stream: seq<Chunk>)
    ensures Remembers(Run(EMPTY, stream).0, StreamLog(Run(EMPTY, stream).1))
  {
    if stream != [] {
      var n := |stream| - 1;
      StreamRemembered(stream[..n]);
      var (S1, outs) := Run(EMPTY, stream[..n]);
      var (S2, out) := FedChunk(S1, stream[n]);
      ChunkRemembered(S1, stream[n], StreamLog(outs));
      assert (outs + [out])[..|outs|] == outs;
    }
  }

  /** Over every stream: each (choice, index) slot reaches the client at most
      once, always with a non-empty name and one complete JSON value. */
  lemma EmittedOnceAndWhole(stream: seq<Chunk>)
    ensures var log := StreamLog(Run(EMPTY, stream).1);
            && (forall i, j :: 0 <= i < j < |log| ==> log[i].0 != log[j].0)
            && (forall i :: 0 <= i < |log| ==> CallOk(log[i]))
  {
    StreamRemembered(stream);
  }

  /** Over every stream: a slot that is named and not yet emitted never holds a
      complete value. */
  lemma PendingIsIncomplete(stream: seq<Chunk>, k: Key)
    ensures var S := Run(EMPTY, stream).0;
            k in S.table && !S.table[k].done && S.table[k].name.Some? ==>
              Parse(S.table[k].buf).None?
  {
    StreamRemembered(stream);
    var S := Run(EMPTY, stream).0;
    if k in S.table {
      assert SlotGood(S.table[k]);
      CompleteValueMeaning(S.table[k].buf);
    }
  }

  /** The finish chunk, after any stream.  `S1` are the slots once its own
      fragments are buffered.  The reason becomes `length` exactly when some
      named call of the choice was cut off.  A slot `k` of the choice is closed;
      if it was cut off it holds an incomplete value and is not emitted; if it
      had no arguments it is emitted with `{}`. */
  lemma FinishDropsTruncated(stream: seq<Chunk>, ch: Choice, k: Key)
    requires ch.finish.Some? && k.0 == ch.index
    ensures var S := Run(EMPTY, stream).0;
            var (S1, S2, emits) := ChoiceEmits(S, ch);
            && FeedChoice(S, ch).1.finish ==
                 (if AnyTruncated(S1, ch.index) && ch.finish.value in RELABELLED
                  then Some("length") else ch.finish)
            && (k in S1.table ==>
                  && k in S2.table && S2.table[k].done
                  && (Truncated(S1.table[k]) ==>
                        Parse(S1.table[k].buf).None? && forall e :: e in emits ==> e.0 != k)
                  && (NoArgs(S1.table[k]) ==> (k, "{}") in emits))
  {
    hide Run, Good, Sound, Buffer, NoArgCalls, CallsOf, Parse, Remembers;
    StreamRemembered(stream);
    var S := Run(EMPTY, stream).0;
    BufferSound(S, ch.index, CallsOf(ch));
    var (S1, buffered) := Buffer(S, ch.index, CallsOf(ch));
    if k in S1.table { FinishOneSlot(S, S1, ch.index, buffered, k); }
  }

  lemma FinishOneSlot(S: Slots, S1: Slots, ci: int, buffered: seq<Emit>, k: Key)
    requires Good(S1) && Sound(S, S1, buffered) && k.0 == ci && k in S1.table
    ensures CloseAll(S1, ci).table[k].done
    ensures var emits := buffered + NoArgCalls(S1, ci, S1.order);
            && (Truncated(S1.table[k]) ==>
                  Parse(S1.table[k].buf).None? && forall e :: e in emits ==> e.0 != k)
            && (NoArgs(S1.table[k]) ==> (k, "{}") in emits)
  {
    assert SlotGood(S1.table[k]);
    CompleteValueMeaning(S1.table[k].buf);
    NoArgExact(S1, ci, S1.order, (k, "{}"));
    var noArgs := NoArgCalls(S1, ci, S1.order);
    FinishSound(S1, ci);
    if Truncated(S1.table[k]) {
      forall e | e in buffered ensures e.0 != k {
        var i :| 0 <= i < |buffered| && buffered[i] == e;
        assert SoundEmit(S, S1, buffered[i]);
      }
      forall e | e in noArgs ensures e.0 != k {
        var i :| 0 <= i < |noArgs| && noArgs[i] == e;
        assert NoArgs(S1.Get(noArgs[i].0));
      }
    }
  }

  /** A call without arguments that is pending when the finish chunk comes
      reaches the client exactly when that chunk carries a delta. */
  lemma NoArgCallNeedsDelta(stream: seq<Chunk>, ch: Choice, k: Key)
    requires ch.finish.Some? && k.0 == ch.index
    requires var S1 := ChoiceEmits(Run(EMPTY, stream).0, ch).0;
             k in S1.table && NoArgs(S1.table[k])
    ensures var out := FeedChoice(Run(EMPTY, stream).0, ch).1;
            (exists i :: 0 <= i < |ChoiceLog(out)| && ChoiceLog(out)[i].0 == k) <==> ch.delta.Some?
  {
    FinishDropsTruncated(stream, ch, k);
    var (S1, S2, emits) := ChoiceEmits(Run(EMPTY, stream).0, ch);
    var out := FeedChoice(Run(EMPTY, stream).0, ch).1;
    if ch.delta.Some? {
      var i :| 0 <= i < |emits| && emits[i] == (k, "{}");
      assert CallsOf(out) == RebuiltAll(S2, emits);
      assert ChoiceLog(out)[i].0 == k;
    }
  }
}
