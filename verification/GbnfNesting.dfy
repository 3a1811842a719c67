/** What the rewrapping is for: line breaks must stand inside parentheses. When a
    rewritten rule meets that, and how the scan for "already one group" can be
    misled by parentheses inside literals. */
module GbnfNesting {
  import opened Prelude
  import opened Gbnf
  import opened GbnfTokens
  import opened GbnfRules

  // ------------------------------------------------------------------ nesting

  function Step(t: Tok): int {
    if t.kind == LParen then 1 else if t.kind == RParen then -1 else 0
  }

  function Net(t: seq<Tok>): int {
    if t == [] then 0 else Step(t[0]) + Net(t[1..])
  }

  /** Every line break stands inside parentheses, `d` of them being open. */
  predicate Nest(t: seq<Tok>, d: int) {
    t == [] || ((t[0].kind == Newline ==> d >= 1) && Nest(t[1..], d + Step(t[0])))
  }

  predicate Nested(t: seq<Tok>) { Nest(t, 0) }

  /** No parenthesis is closed that was not opened. */
  predicate Upright(t: seq<Tok>, d: int) {
    d >= 0 && (t == [] || Upright(t[1..], d + Step(t[0])))
  }

  lemma {:induction false} NestConcat(a: seq<Tok>, b: seq<Tok>, d: int)
    ensures Nest(a + b, d) <==> Nest(a, d) && Nest(b, d + Net(a))
  {
    if a == [] {
      assert a + b == b;
    } else {
      assert (a + b)[1..] == a[1..] + b;
      NestConcat(a[1..], b, d + Step(a[0]));
    }
  }

  /** One more pair around them, and all line breaks are inside. */
  lemma {:induction false} UprightNests(t: seq<Tok>, d: int)
    requires Upright(t, d)
    ensures Nest(t, d + 1) && d + Net(t) >= 0
  {
    if t != [] { UprightNests(t[1..], d + Step(t[0])); }
  }

  lemma WrappedNests(t: seq<Tok>)
    requires Upright(t, 0)
    ensures Nested([LP, NL] + t + [NL, RP])
  {
    UprightNests(t, 0);
    NestConcat([LP, NL] + t, [NL, RP], 0);
    NestConcat([LP, NL], t, 0);
    NetConcat([LP, NL], t);
    PairNests(1 + Net(t));
  }

  lemma Cons(x: Tok, t: seq<Tok>, d: int)
    ensures Nest([x] + t, d) <==> (x.kind == Newline ==> d >= 1) && Nest(t, d + Step(x))
    ensures Upright([x] + t, d) <==> d >= 0 && Upright(t, d + Step(x))
    ensures Net([x] + t) == Step(x) + Net(t)
  {
    assert ([x] + t)[1..] == t;
  }

  lemma PairNests(d: int)
    requires d >= 1
    ensures Nest([LP, NL], 0) && Net([LP, NL]) == 1 && Nest([NL, RP], d)
  {
    Cons(NL, [], 1);
    Cons(LP, [NL], 0);
    Cons(RP, [], d);
    Cons(NL, [RP], d);
    assert [LP, NL] == [LP] + [NL] && [NL, RP] == [NL] + [RP];
    assert [NL] == [NL] + [] && [RP] == [RP] + [];
  }

  lemma {:induction false} NetConcat(a: seq<Tok>, b: seq<Tok>)
    ensures Net(a + b) == Net(a) + Net(b)
  {
    if a == [] {
      assert a + b == b;
    } else {
      assert (a + b)[1..] == a[1..] + b;
      NetConcat(a[1..], b);
    }
  }

  lemma {:induction false} NoBreakNests(s: string, d: int)
    requires OneLine(s)
    ensures Nest(Tokens(s), d)
    decreases |s|
  {
    hide Next;
    if s != "" {
      var k, t := Next(s).len, Next(s).toks;
      assert OneLine(s[k..]);
      NoBreakBite(s);
      NoBreakNests(s[k..], d + Net(t));
      NestConcat(t, Tokens(s[k..]), d);
      BiteNests(t, d);
    }
  }

  lemma NoBreakBite(s: string)
    requires s != "" && s[0] != '\n'
    ensures forall t :: t in Next(s).toks ==> t.kind != Newline
  {
    hide Find, LitEnd, NameLen;
  }

  lemma BiteNests(t: seq<Tok>, d: int)
    requires |t| <= 1 && forall x :: x in t ==> x.kind != Newline
    ensures Nest(t, d)
  {
    if t != [] { assert t[0] in t && t[1..] == []; }
  }

  // --------------------------------------------------------------- the theorem

  /** The scan takes the right side for one group, but a line break of it stands
      outside all parentheses. */
  predicate Misjudged(body: string) {
    SingleGroup(body) && !Nested(Tokens(body))
  }

  lemma WrappedTokens(body: string)
    requires Tame(body)
    ensures Tokens("(\n" + body + "\n)") == [LP, NL] + Tokens(body) + [NL, RP]
  {
    hide Tokens, Tame, Contained;
    var z := "\n)";
    CloseTokens("");
    assert z + "" == z && Breaks("") == [];
    assert '}' !in z;
    Join(body, z);
    assert "(\n" + body + z == "(" + ("\n" + (body + z));
    ParenNext("\n" + (body + z));
    SpacePrefix("\n", body + z);
    assert Breaks("\n") == [NL];
  }

  lemma RewrittenBody(block: string)
    requires HeaderLen(block) > 0 && Rewraps(block)
    ensures Cut(Rewrapped(block)).body == "(\n" + Cut(block).body + "\n)"
  {
    hide HeaderLen, Cut, SingleGroup;
    var lead, name, gap := HeaderShape(block);
    var before := CutShape(lead, name, gap, block[HeaderLen(block)..]);
    var p := Cut(block);
    var rhs := " (\n" + p.body + "\n)" + p.trailer;
    HeadedIs(lead, name, gap, rhs);
    assert Rewrapped(block) == p.head + rhs;
    WrappedBody(lead, name, gap, p.body, p.trailer);
  }

  /** After rewriting a rule whose parentheses never close more than was opened,
      every line break of its right side stands inside parentheses, where the
      grammar allows it, if and only if the scan did not misjudge it. */
  lemma BreaksAreNested(block: string)
    requires HeaderLen(block) > 0 && Tame(block) && Upright(Tokens(Cut(block).body), 0)
    ensures Nested(Tokens(Cut(Rewrapped(block)).body)) <==> !Misjudged(Cut(block).body)
    ensures Nested(Tokens(Cut(Rewrapped(block)).body)) <==>
              var body := Cut(block).body; OneLine(body) || Rewraps(block) || Nested(Tokens(body))
  {
    hide HeaderLen, Cut, Tame, Tokens, SingleGroup, Nest;
    var body := Cut(block).body;
    if Rewraps(block) {
      var name, before := BlockTokens(block);
      RewrittenBody(block);
      WrappedTokens(body);
      WrappedNests(Tokens(body));
    } else if OneLine(body) {
      NoBreakNests(body, 0);
    }
  }

  // ------------------------------------------------- literals that cannot mislead

  /** Whatever is read as one piece has as many parentheses, net, as its token
      counts for: those inside a literal, a class or a comment balance. */
  predicate Even(s: string)
    decreases |s|
  {
    s == "" || (Depth(s[..Next(s).len]) == Net(Next(s).toks) && Even(s[Next(s).len..]))
  }

  lemma {:induction false} DepthConcat(a: string, b: string)
    ensures Depth(a + b) == Depth(a) + Depth(b)
  {
    if b == "" {
      assert a + b == a;
    } else {
      var n := |b| - 1;
      assert (a + b)[..|a + b| - 1] == a + b[..n];
      DepthConcat(a, b[..n]);
    }
  }

  lemma DepthStep(s: string, k: nat)
    requires k < |s|
    ensures Depth(s[..k + 1]) == Depth(s[..k]) + (if s[k] == '(' then 1 else if s[k] == ')' then -1 else 0)
  {
    assert s[..k + 1][..k] == s[..k];
  }

  /** In one group the depth is positive from the first character to the last. */
  lemma {:induction false} GroupIsDeep(body: string, k: nat)
    requires SingleGroup(body) && 0 < k < |body|
    ensures Depth(body[..k]) >= 1
  {
    DepthStep(body, k - 1);
    if k == 1 {
      assert body[..0] == "";
    } else {
      GroupIsDeep(body, k - 1);
      assert body[k - 1] == ')' ==> Depth(body[..k]) != 0;
    }
  }

  lemma {:induction false} EvenNests(body: string, k: nat)
    requires SingleGroup(body) && k <= |body| && Even(body[k..])
    ensures Nest(Tokens(body[k..]), Depth(body[..k]))
    decreases |body| - k
  {
    hide Next, Depth, SingleGroup;
    var s := body[k..];
    if s != "" {
      var n, t := Next(s).len, Next(s).toks;
      assert body[k + n..] == s[n..];
      assert body[..k + n] == body[..k] + s[..n];
      DepthConcat(body[..k], s[..n]);
      EvenNests(body, k + n);
      NestConcat(t, Tokens(s[n..]), Depth(body[..k]));
      if s[0] == '\n' {
        StartsOpen(body);
        GroupIsDeep(body, k);
        SpaceNext(s);
        assert t == [NL] && [NL][1..] == [];
      } else {
        NoBreakBite(s);
        BiteNests(t, Depth(body[..k]));
      }
    }
  }

  lemma StartsOpen(body: string)
    requires SingleGroup(body)
    ensures body[0] == '('
  {}

  /** Where the parentheses inside literals, classes and comments balance, the scan
      is right. */
  lemma EvenIsJudged(body: string)
    requires Even(body)
    ensures !Misjudged(body)
  {
    if SingleGroup(body) {
      assert body[0..] == body && body[..0] == "";
      EvenNests(body, 0);
    }
  }

  // ----------------------------------------------------------------- examples

  lemma QuoteNext(c: char, t: string)
    requires c !in {'\\', '"', '\n'}
    ensures var q := "\"" + [c] + "\"";
            Tokens(q + t) == [Tok(Str, q)] + Tokens(t) && (Tame(q + t) <==> Tame(t))
  {
    hide Tokens, Tame;
    var q := "\"" + [c] + "\"";
    var s := q + t;
    assert s[0] == '"' && s[1] == c && s[2] == '"';
    assert LitEnd(s, 2, '"') == 2;
    assert LitEnd(s, 1, '"') == 2;
    assert s[..3] == q && s[3..] == t;
    Unfold(s, t);
  }

  const OPEN: Tok := Tok(Str, "\"(\"")
  const SHUT: Tok := Tok(Str, "\")\"")

  /** `("(")`, a line break, and `(")")`: the two literals balance each other, so
      the scan takes the whole for one group. */
  const MISLEADING: string := "(\"(\")\n(\")\")"

  lemma MisleadingTokens()
    ensures Tokens(MISLEADING) == [LP, OPEN, RP, NL, LP, SHUT, RP] && Tame(MISLEADING)
  {
    hide Tokens, Tame, Contained;
    var t5 := ")";
    var t4 := "\")\"" + t5;
    var t3 := "(" + t4;
    var t2 := "\n" + t3;
    var t1 := ")" + t2;
    var t0 := "\"(\"" + t1;
    assert MISLEADING == "(" + t0;
    ParenNext(t0);
    QuoteNext('(', t1);
    assert "\"" + ['('] + "\"" == "\"(\"" && "\"" + [')'] + "\"" == "\")\"";
    ParenNext(t2);
    SpacePrefix("\n", t3);
    assert Breaks("\n") == [NL];
    ParenNext(t4);
    QuoteNext(')', t5);
    ParenNext("");
    assert ")" + "" == t5;
    Nothing();
  }

  lemma MisleadingScan()
    ensures SingleGroup(MISLEADING)
  {
    var s := MISLEADING;
    assert s[..0] == "" && s[..11] == s;
    DepthStep(s, 0); DepthStep(s, 1); DepthStep(s, 2); DepthStep(s, 3); DepthStep(s, 4); DepthStep(s, 5);
    DepthStep(s, 6); DepthStep(s, 7); DepthStep(s, 8); DepthStep(s, 9); DepthStep(s, 10);
  }

  /** The rule with that right side is left as it is, with its line break outside
      all parentheses. */
  lemma MisleadingIsLeft()
    ensures var block := "a::=" + MISLEADING;
            && HeaderLen(block) > 0 && Tame(block) && Cut(block).body == MISLEADING
            && Upright(Tokens(MISLEADING), 0)
            && Misjudged(MISLEADING) && Rewrapped(block) == block
  {
    hide Tokens, Tame, Contained, HeaderLen, Cut, SingleGroup;
    var s := MISLEADING;
    var block := "a::=" + s;
    MisleadingTokens();
    MisleadingScan();
    assert block == Headed("", "a", "", s);
    HeaderMade("", "a", "", s);
    HeaderTokens("", "a", "", s);
    MisleadingBody();
    MisleadingDepths();
  }

  lemma MisleadingBody()
    ensures Cut(Headed("", "a", "", MISLEADING)).body == MISLEADING
  {
    hide Cut, Headed;
    var s := MISLEADING;
    assert s[0] == '(' && s[|s| - 1] == ')';
    assert RStrip(s) == s && LStrip(s) == s;
    CutHeaded("", "a", "", s);
  }

  lemma MisleadingDepths()
    ensures var t := [LP, OPEN, RP, NL, LP, SHUT, RP]; Upright(t, 0) && !Nested(t)
  {
    hide Nest, Upright;
    var t6 := [RP] + [];
    var t5 := [SHUT] + t6;
    var t4 := [LP] + t5;
    var t3 := [NL] + t4;
    var t2 := [RP] + t3;
    var t1 := [OPEN] + t2;
    NoTokens();
    Cons(RP, [], 1); Cons(SHUT, t6, 1); Cons(LP, t5, 0); Cons(NL, t4, 0); Cons(RP, t3, 1); Cons(OPEN, t2, 1); Cons(LP, t1, 0);
    assert [LP] + t1 == [LP, OPEN, RP, NL, LP, SHUT, RP];
  }

  lemma NoTokens()
    ensures Upright([], 0) && (forall d :: Nest([], d)) && Net([]) == 0
  {}

  /** Being one group, as tokens: the first parenthesis is closed by the last. */
  predicate OneGroup(t: seq<Tok>) {
    t != [] && t[0].kind == LParen && Net(t) == 0 && forall i :: 0 < i < |t| ==> Net(t[..i]) >= 1
  }

  /** Being left alone with all line breaks inside parentheses does not take being
      one group: `("("`, a line break, `)(")")` is such a right side. */
  lemma NestedWithoutOneGroup()
    ensures var s := "(\"(\"\n)(\")\")";
            SingleGroup(s) && Tame(s) && Nested(Tokens(s)) && !OneGroup(Tokens(s))
  {
    hide Tokens, Tame, Contained;
    var s := "(\"(\"\n)(\")\")";
    var t5 := ")";
    var t4 := "\")\"" + t5;
    var t3 := "(" + t4;
    var t2 := ")" + t3;
    var t1 := "\n" + t2;
    var t0 := "\"(\"" + t1;
    assert s == "(" + t0;
    ParenNext(t0);
    QuoteNext('(', t1);
    assert "\"" + ['('] + "\"" == "\"(\"" && "\"" + [')'] + "\"" == "\")\"";
    SpacePrefix("\n", t2);
    assert Breaks("\n") == [NL];
    ParenNext(t3);
    ParenNext(t4);
    QuoteNext(')', t5);
    ParenNext("");
    assert ")" + "" == t5;
    Nothing();
    assert Tokens(s) == [LP, OPEN, NL, RP, LP, SHUT, RP];
    LooseDepths();
    LooseScan();
  }

  lemma LooseScan()
    ensures SingleGroup("(\"(\"\n)(\")\")")
  {
    var s := "(\"(\"\n)(\")\")";
    assert s[..0] == "" && s[..11] == s;
    DepthStep(s, 0); DepthStep(s, 1); DepthStep(s, 2); DepthStep(s, 3); DepthStep(s, 4); DepthStep(s, 5);
    DepthStep(s, 6); DepthStep(s, 7); DepthStep(s, 8); DepthStep(s, 9); DepthStep(s, 10);
  }

  lemma LooseDepths()
    ensures var t := [LP, OPEN, NL, RP, LP, SHUT, RP]; Nested(t) && !OneGroup(t)
  {
    LooseNests();
    LooseEndsEarly();
  }

  lemma LooseNests()
    ensures Nested([LP, OPEN, NL, RP, LP, SHUT, RP])
  {
    hide Nest;
    var t6 := [RP] + [];
    var t5 := [SHUT] + t6;
    var t4 := [LP] + t5;
    var t3 := [RP] + t4;
    var t2 := [NL] + t3;
    var t1 := [OPEN] + t2;
    NoTokens();
    Cons(RP, [], 1); Cons(SHUT, t6, 1); Cons(LP, t5, 0); Cons(RP, t4, 1); Cons(NL, t3, 1); Cons(OPEN, t2, 1); Cons(LP, t1, 0);
    assert [LP] + t1 == [LP, OPEN, NL, RP, LP, SHUT, RP];
  }

  lemma LooseEndsEarly()
    ensures !OneGroup([LP, OPEN, NL, RP, LP, SHUT, RP])
  {
    hide Net;
    NoTokens();
    Cons(RP, [], 0); Cons(NL, [RP], 0); Cons(OPEN, [NL, RP], 0); Cons(LP, [OPEN, NL, RP], 0);
    assert [RP] + [] == [RP] && [NL] + [RP] == [NL, RP] && [OPEN] + [NL, RP] == [OPEN, NL, RP];
    var t := [LP, OPEN, NL, RP, LP, SHUT, RP];
    assert t[..4] == [LP] + [OPEN, NL, RP];
  }
}
