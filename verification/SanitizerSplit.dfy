/** The emitted arguments do not depend on how the backend split them into
    fragments: what a slot emits is a function of the concatenated text. */
module SanitizerSplit {
  import opened Prelude
  import opened Json
  import opened Sanitizer
  import opened SanitizerRuns

  // ------------------------------------------------------ one slot on its own

  /** A slot after some fragments, and what it emitted meanwhile. */
  function SlotFrom(s: Slot, frags: seq<ToolCall>): (Slot, Option<string>) {
    if frags == [] then (s, None)
    else
      var n := |frags| - 1;
      var (s1, e) := SlotFrom(s, frags[..n]);
      var (s2, a) := Take(s1, frags[n]);
      (s2, if e.Some? then e else a)
  }

  function Concat(frags: seq<ToolCall>): string {
    if frags == [] then ""
    else Concat(frags[..|frags| - 1]) + frags[|frags| - 1].arguments.GetOr("")
  }

  predicate Names(tc: ToolCall) { tc.name.Some? && tc.name.value != "" }

  predicate Named(frags: seq<ToolCall>) {
    frags != [] && (Named(frags[..|frags| - 1]) || Names(frags[|frags| - 1]))
  }

  /** A slot has emitted exactly when it has been named and its text so far
      begins with a complete value; what it emitted is the value that some
      prefix of the text begins with. */
  lemma {:induction false} SlotMeaning(frags: seq<ToolCall>)
    ensures var (s, e) := SlotFrom(FRESH, frags);
            && s.buf == Concat(frags) && (s.name.Some? <==> Named(frags))
            && (s.done <==> e.Some?)
            && (e.Some? <==> Named(frags) && Parse(Concat(frags)).Some?)
            && (e.Some? ==> exists p :: p <= Concat(frags) && CompleteValue(p) == e)
  {
    if frags != [] {
      var n := |frags| - 1;
      SlotMeaning(frags[..n]);
      var (s1, e) := SlotFrom(FRESH, frags[..n]);
      var more := frags[n].arguments.GetOr("");
      CompleteValueMeaning(s1.buf + more);
      if e.Some? {
        ParseExtends(s1.buf, more);
        var p :| p <= s1.buf && CompleteValue(p) == e;
        assert p <= Concat(frags);
      } else {
        assert Concat(frags) <= Concat(frags);
      }
    }
  }

  /** No prefix of the value is a value itself. */
  predicate SelfDelimiting(v: Json) { v.Num? ==> OneDigit(v.num) }

  lemma PrefixReadsSame(text: string, k: nat)
    requires k <= |text| && Parse(text).Some? && Parse(text[..k]).Some?
    requires SelfDelimiting(Parse(text).value.0)
    ensures Parse(text[..k]).value.0 == Parse(text).value.0
  {
    var p := text[..k];
    ParseExtends(p, text[k..]);
    assert p + text[k..] == text;
    ParseSound(p);
    if Parse(p).value.0.Num? {
      ParseSound(text);
      FirstChar(Parse(p).value.0);
      assert text[0] == p[0];
      OneDigitStable(text, k);
    }
  }

  /** For self-delimiting values the emitted text is the value that the
      concatenated fragments begin with, whatever the split and whenever the
      name arrives. */
  lemma SplitIndependent(frags: seq<ToolCall>)
    requires Named(frags) && Parse(Concat(frags)).Some?
    requires SelfDelimiting(Parse(Concat(frags)).value.0)
    ensures SlotFrom(FRESH, frags).1 == CompleteValue(Concat(frags))
  {
    SlotMeaning(frags);
    var text := Concat(frags);
    var e := SlotFrom(FRESH, frags).1;
    var p :| p <= text && CompleteValue(p) == e;
    assert p == text[..|p|];
    CompleteValueMeaning(p);
    CompleteValueMeaning(text);
    PrefixReadsSame(text, |p|);
  }

  function Fragment(text: string): ToolCall {
    ToolCall(Some(0), Some("id"), Some("function"), Some("tool"), Some(text))
  }

  /** For every other value it does depend on the split: fed whole it is emitted
      whole, fed with its first digit apart only that digit is emitted. */
  lemma SplitDependent(text: string)
    requires Parse(text).Some? && !SelfDelimiting(Parse(text).value.0)
    ensures exists k ::
              && 0 < k < |text|
              && Concat([Fragment(text)]) == Concat([Fragment(text[..k]), Fragment(text[k..])]) == text
              && SlotFrom(FRESH, [Fragment(text)]).1
                 != SlotFrom(FRESH, [Fragment(text[..k]), Fragment(text[k..])]).1
  {
    hide Take, CompleteValue, Concat, SlotFrom;
    ParseSound(text);
    var (v, rest) := Parse(text).value;
    var k := |v.num.minus| + 1;
    FirstDigit(v.num, rest);
    CompleteValueMeaning(text[..k]);
    CompleteValueMeaning(text);
    WholeEmit(text);
    ApartEmit(text, k);
  }

  /** A longer number begins with a one-digit number. */
  lemma FirstDigit(n: Number, rest: string)
    requires n.Valid() && !OneDigit(n)
    ensures var k, text := |n.minus| + 1, n.Text() + rest;
            k < |n.Text()| && Parse(text[..k]).Some? && |Parse(text[..k]).value.0.Text()| == k
  {
    hide Parse;
    var k := |n.minus| + 1;
    var digit := Number(n.minus, n.whole[..1], "", "");
    NumberGlue(n, rest);
    assert (n.Text() + rest)[..k] == digit.Text();
    assert digit.Text() + "" == digit.Text();
    ParseComplete(Num(digit), "");
  }

  lemma WholeEmit(text: string)
    ensures Concat([Fragment(text)]) == text
    ensures SlotFrom(FRESH, [Fragment(text)]).1 == CompleteValue(text)
  {
    hide CompleteValue;
    var f := [Fragment(text)];
    assert f[..0] == [];
    assert SlotFrom(FRESH, f[..0]) == (FRESH, None);
    assert "" + text == text;
  }

  lemma ApartEmit(text: string, k: nat)
    requires k <= |text| && CompleteValue(text[..k]).Some?
    ensures var f := [Fragment(text[..k]), Fragment(text[k..])];
            Concat(f) == text && SlotFrom(FRESH, f).1 == CompleteValue(text[..k])
  {
    hide CompleteValue, Take, SlotFrom, Concat, Fragment;
    var a, b := Fragment(text[..k]), Fragment(text[k..]);
    WholeEmit(text[..k]);
    FragmentText(text[k..]);
    OneMore(FRESH, [a], b);
    assert [a] + [b] == [a, b];
    assert text[..k] + text[k..] == text;
  }

  lemma FragmentText(text: string)
    ensures Fragment(text).arguments.GetOr("") == text
  {}

  lemma OneMore(s: Slot, f: seq<ToolCall>, tc: ToolCall)
    ensures Concat(f + [tc]) == Concat(f) + tc.arguments.GetOr("")
    ensures SlotFrom(s, f).1.Some? ==> SlotFrom(s, f + [tc]).1 == SlotFrom(s, f).1
  {
    hide Take;
    assert (f + [tc])[..|f|] == f;
  }

  // --------------------------------------------------------------- RFC 8259

  /** A value is RFC 8259 JSON exactly when it uses none of the constants NaN,
      Infinity and -Infinity, which Python's decoder accepts. */
  lemma RfcExactly(v: Json)
    requires v.Valid()
    ensures Rfc8259(v.Text()) <==> !v.NonFinite()
  {
    if Rfc8259(v.Text()) {
      var w: Json :| w.Valid() && !w.NonFinite() && w.Text() == v.Text();
      TextUnique(v, w);
    }
  }

  /** The constant NaN is emitted as an argument, and is not RFC 8259 JSON. */
  lemma NaNIsEmitted()
    ensures SlotFrom(FRESH, [Fragment("NaN")]).1 == Some("NaN") && !Rfc8259("NaN")
  {
    var v := Word("NaN");
    assert v.Text() + "" == "NaN";
    ParseComplete(v, "");
    CompleteValueMeaning("NaN");
    WholeEmit("NaN");
    RfcExactly(v);
  }
}
