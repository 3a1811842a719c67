/** Normalization preserves the token stream, up to line breaks, except that each
    rewrapped rule gains one matched pair of parentheses around its right side. */
module GbnfLaws {
  import opened Prelude
  import opened Seqs
  import opened Gbnf
  import opened GbnfTokens
  import opened GbnfRules
  import opened GbnfUnits

  // ---------------------------------------------------------------- meanings

  function NotBreak(): Tok -> bool {
    (t: Tok) => t.kind != Newline
  }

  /** The tokens other than line breaks. */
  function Solid(t: seq<Tok>): seq<Tok> {
    Filter(NotBreak(), t)
  }

  /** The tokens of a rule with its right side in parentheses. */
  function Around(t: seq<Tok>): seq<Tok>
    requires |t| >= 2
  {
    t[..2] + [LP] + t[2..] + [RP]
  }

  /** What a rule should read as after normalization: in parentheses exactly when
      its right side spans lines and is not taken for one group. */
  function Meant(block: string): seq<Tok> {
    var t, body := Solid(Tokens(block)), Cut(block).body;
    if '\n' in body && !SingleGroup(body) && |t| >= 2 then Around(t) else t
  }

  /** The rules of a text that starts with a header. */
  function Rules(s: string): seq<string>
    decreases |s|
  {
    if s == "" then [] else [s[..BlockLen(s)]] + Rules(s[BlockLen(s)..])
  }

  function AllPlain(rules: seq<string>): seq<Tok> {
    if rules == [] then [] else Solid(Tokens(rules[0])) + AllPlain(rules[1..])
  }

  function AllMeant(rules: seq<string>): seq<Tok> {
    if rules == [] then [] else Meant(rules[0]) + AllMeant(rules[1..])
  }

  /** What the whole text should read as: the text before the first rule as it
      was, then the rules. */
  function Expected(s: string): seq<Tok> {
    var p := ToHeader(s);
    Solid(Tokens(s[..p])) + AllMeant(Rules(s[p..]))
  }

  lemma SolidConcat(a: seq<Tok>, b: seq<Tok>)
    ensures Solid(a + b) == Solid(a) + Solid(b)
  {
    FilterConcat(NotBreak(), a, b);
  }

  lemma {:induction false} SolidBreaks(w: string)
    ensures Solid(Breaks(w)) == []
  {
    if w != "" {
      SolidBreaks(w[1..]);
      if w[0] == '\n' {
        FilterNone(NotBreak(), [NL]);
        SolidConcat([NL], Breaks(w[1..]));
      } else {
        assert [] + Breaks(w[1..]) == Breaks(w[1..]);
      }
    }
  }

  // ------------------------------------------------- defined and referenced

  /** Tokens that neither define nor refer to anything. */
  predicate Quiet(t: seq<Tok>) {
    forall i :: 0 <= i < |t| ==> t[i].kind != Name && t[i].kind != Define
  }

  /** The two parts do not split a definition's head. */
  predicate Apart(a: seq<Tok>, b: seq<Tok>) {
    !(a != [] && a[|a| - 1].kind == Name && b != [] && b[0].kind == Define)
  }

  lemma {:induction false} DefinedConcat(a: seq<Tok>, b: seq<Tok>)
    requires Apart(a, b)
    ensures Defined(a + b) == Defined(a) + Defined(b)
  {
    if a == [] {
      assert a + b == b;
    } else if |a| == 1 {
      assert (a + b)[1..] == b;
    } else {
      assert (a + b)[1..] == a[1..] + b;
      DefinedConcat(a[1..], b);
    }
  }

  lemma {:induction false} ReferencedConcat(a: seq<Tok>, b: seq<Tok>)
    requires Apart(a, b)
    ensures Referenced(a + b) == Referenced(a) + Referenced(b)
  {
    if a == [] {
      assert a + b == b;
    } else if |a| == 1 {
      assert (a + b)[1..] == b && a[1..] == [];
    } else {
      assert (a + b)[1..] == a[1..] + b;
      ReferencedConcat(a[1..], b);
    }
  }

  lemma NamesConcat(a: seq<Tok>, b: seq<Tok>)
    requires Apart(a, b)
    ensures Defined(a + b) == Defined(a) + Defined(b)
    ensures Referenced(a + b) == Referenced(a) + Referenced(b)
  {
    DefinedConcat(a, b);
    ReferencedConcat(a, b);
  }

  lemma {:induction false} QuietNames(t: seq<Tok>)
    requires Quiet(t)
    ensures Defined(t) == {} && Referenced(t) == {}
  {
    if t != [] { QuietNames(t[1..]); }
  }

  lemma {:induction false} BreaksQuiet(w: string)
    ensures Quiet(Breaks(w)) && Stray !in Breaks(w)
  {
    if w != "" { BreaksQuiet(w[1..]); }
  }

  /** Quiet tokens on either side change nothing. */
  lemma QuietAround(a: seq<Tok>, t: seq<Tok>, b: seq<Tok>)
    requires Quiet(a) && Quiet(b)
    ensures Defined(a + t + b) == Defined(t) && Referenced(a + t + b) == Referenced(t)
  {
    hide Defined, Referenced;
    QuietNames(a);
    QuietNames(b);
    NamesConcat(a, t);
    NamesConcat(a + t, b);
  }

  /** A rule defines its own name, and otherwise what its right side does. */
  lemma RuleNames(name: string, side: seq<Tok>)
    ensures var t := [Tok(Name, name), Tok(Define, "::=")] + side;
            Defined(t) == {name} + Defined(side) && Referenced(t) == Referenced(side)
  {
    hide Defined, Referenced;
    NamesConcat([Tok(Name, name), Tok(Define, "::=")], side);
    HeadNames(name);
  }

  lemma HeadNames(name: string)
    ensures var head := [Tok(Name, name), Tok(Define, "::=")];
            Defined(head) == {name} && Referenced(head) == {} && Solid(head) == head
  {
    var head := [Tok(Name, name), Tok(Define, "::=")];
    var last := [Tok(Define, "::=")];
    assert head[1..] == last && last[1..] == [];
    assert Referenced(last) == {} && Defined(last) == {};
    FilterAll(NotBreak(), head);
  }

  // ------------------------------------------------------------------ one rule

  /** What rewriting one rule keeps. */
  ghost predicate Kept(t: seq<Tok>, u: seq<Tok>) {
    && Defined(t) == Defined(u) && Referenced(t) == Referenced(u)
    && (Stray in u ==> Stray in t)
    && t != [] && u != [] && t[0].kind == Name && u[0].kind == Name
  }

  lemma RuleKept(name: string, before: string, body: seq<Tok>, trailer: string)
    ensures var head := [Tok(Name, name), Tok(Define, "::=")];
            var t := head + Breaks(before) + body + Breaks(trailer);
            var u := head + [LP, NL] + body + [NL, RP] + Breaks(trailer);
            && Kept(t, u) && Solid(t) == head + Solid(body) && Solid(u) == Around(Solid(t))
  {
    hide Defined, Referenced, Breaks, Filter;
    var head := [Tok(Name, name), Tok(Define, "::=")];
    BreaksQuiet(before);
    BreaksQuiet(trailer);
    var side := Breaks(before) + body + Breaks(trailer);
    var wrapped := [LP, NL] + body + ([NL, RP] + Breaks(trailer));
    QuietAround(Breaks(before), body, Breaks(trailer));
    QuietAround([LP, NL], body, [NL, RP] + Breaks(trailer));
    RuleNames(name, side);
    RuleNames(name, wrapped);
    var t := head + Breaks(before) + body + Breaks(trailer);
    var u := head + [LP, NL] + body + [NL, RP] + Breaks(trailer);
    assert t == head + side;
    assert u == head + wrapped;
    HeadNames(name);
    SideSolid(head, before, body, trailer);
  }

  lemma SideSolid(head: seq<Tok>, before: string, body: seq<Tok>, trailer: string)
    requires |head| == 2 && Solid(head) == head
    ensures Solid(head + (Breaks(before) + body + Breaks(trailer))) == head + Solid(body)
    ensures Solid(head + ([LP, NL] + body + ([NL, RP] + Breaks(trailer)))) == Around(head + Solid(body))
  {
    hide Breaks, Solid;
    SolidBreaks(before);
    SolidBreaks(trailer);
    SolidPair();
    SolidThree(Breaks(before), body, Breaks(trailer));
    SolidConcat(head, Breaks(before) + body + Breaks(trailer));
    SolidConcat([NL, RP], Breaks(trailer));
    SolidThree([LP, NL], body, [NL, RP] + Breaks(trailer));
    SolidConcat(head, [LP, NL] + body + ([NL, RP] + Breaks(trailer)));
    var s := Solid(body);
    assert [] + s + [] == s;
    assert (head + s)[..2] == head && (head + s)[2..] == s;
    assert head + ([LP] + s + [RP]) == head + [LP] + s + [RP];
  }

  lemma SolidThree(a: seq<Tok>, b: seq<Tok>, c: seq<Tok>)
    ensures Solid(a + b + c) == Solid(a) + Solid(b) + Solid(c)
  {
    SolidConcat(a + b, c);
    SolidConcat(a, b);
  }

  lemma SolidPair()
    ensures Solid([LP, NL]) == [LP] && Solid([NL, RP]) == [RP]
  {
    hide Filter;
    FilterNone(NotBreak(), []);
    FilterSnoc(NotBreak(), [], LP);
    FilterSnoc(NotBreak(), [LP], NL);
    FilterSnoc(NotBreak(), [], NL);
    FilterSnoc(NotBreak(), [NL], RP);
    assert [] + [LP] == [LP] && [LP] + [NL] == [LP, NL] && [] + [NL] == [NL] && [NL] + [RP] == [NL, RP];
  }

  /** A text with a header reads as the name and `::=` first. */
  lemma HeaderFirst(block: string)
    requires HeaderLen(block) > 0
    ensures var t := Tokens(block); |t| >= 2 && t[0].kind == Name && |Solid(t)| >= 2
  {
    hide Tokens, HeaderLen, Filter;
    var lead, name, gap := HeaderShape(block);
    HeaderTokens(lead, name, gap, block[HeaderLen(block)..]);
    HeadNames(name);
    SolidConcat([Tok(Name, name), Tok(Define, "::=")], Tokens(block[HeaderLen(block)..]));
  }

  /** Rewrapping neither adds nor removes braces, nor the line break at the end. */
  lemma TextKept(block: string)
    requires HeaderLen(block) > 0
    ensures '}' in Rewrapped(block) <==> '}' in block
    ensures Lines(block) ==> Lines(Rewrapped(block))
    ensures Rewrapped(block) != ""
  {
    hide HeaderLen, Cut, SingleGroup;
    var lead, name, gap := HeaderShape(block);
    var rhs := block[HeaderLen(block)..];
    var before := CutShape(lead, name, gap, rhs);
    var p := Cut(block);
    HeadedIs(lead, name, gap, rhs);
    HeaderHasNo(lead, name, gap);
    if Rewraps(block) {
      BraceOfSide(p.head, before, p.body, p.trailer);
      assert Rewrapped(block) == p.head + " (\n" + p.body + "\n)" + p.trailer;
    }
  }

  lemma BraceOfSide(head: string, before: string, body: string, trailer: string)
    requires IsBlank(before) && IsBlank(trailer)
    ensures '}' in head + (before + (body + trailer)) <==> '}' in head || '}' in body
    ensures '}' in head + " (\n" + body + "\n)" + trailer <==> '}' in head || '}' in body
  {
    assert '}' !in before && '}' !in trailer && '}' !in " (\n" && '}' !in "\n)";
  }

  /** A tame rule, rewritten. */
  lemma RuleRewritten(block: string)
    requires HeaderLen(block) > 0 && Tame(block)
    ensures Kept(Tokens(block), Tokens(Rewrapped(block)))
    ensures Solid(Tokens(Rewrapped(block))) == Meant(block) && Tame(Rewrapped(block))
  {
    hide Tokens, Tame, HeaderLen, Cut, SingleGroup, Breaks, Filter, Defined, Referenced;
    HeaderFirst(block);
    if Rewraps(block) {
      var name, before := BlockTokens(block);
      var p := Cut(block);
      RuleKept(name, before, Tokens(p.body), p.trailer);
      var head := [Tok(Name, name), Tok(Define, "::=")];
      assert head + [LP, NL] == [Tok(Name, name), Tok(Define, "::="), LP, NL];
    }
  }

  // ------------------------------------------------------------- whole texts

  lemma JoinLines(p: string, z: string)
    requires p != "" && Lines(p) && Tame(p) && (Stray in Tokens(p) ==> '}' !in z)
    ensures Tokens(p + z) == Tokens(p) + Tokens(z)
  {
    hide Tokens, Tame, Contained, Breaks, Lines;
    var a := p[..|p| - 1];
    LastBreak(p);
    SpaceSuffix(a, "\n");
    assert p + z == a + ("\n" + z);
    SpacePrefix("\n", z);
    Join(a, "\n" + z);
  }

  lemma LastBreak(p: string)
    requires p != "" && Lines(p)
    ensures p == p[..|p| - 1] + "\n" && Breaks("\n") == [NL] && IsBlank("\n")
  {}

  /** Position `q` is the end, or the start of a line with a header. */
  predicate AtHeader(s: string, q: nat)
    requires q <= |s|
  {
    q == |s| || (HeaderLen(s[q..]) > 0 && Lines(s[..q]))
  }

  lemma AtHeaderLater(s: string, l: nat, q: nat)
    requires l <= |s| && q <= |s[l..]| && AtHeader(s[l..], q) && (l < |s| ==> Lines(s[..l]))
    ensures AtHeader(s, l + q)
  {
    hide HeaderLen;
    if l + q < |s| {
      assert s[l + q..] == s[l..][q..];
      LinesJoin(s, l, q);
    }
  }

  lemma {:induction false} ToHeaderCut(s: string)
    ensures AtHeader(s, ToHeader(s))
    decreases |s|
  {
    hide HeaderLen, LineLen, AtHeader;
    if s == "" || HeaderLen(s) > 0 {
      HeaderHere(s);
    } else {
      var l := LineLen(s);
      ToHeaderCut(s[l..]);
      LineEnds(s);
      AtHeaderLater(s, l, ToHeader(s[l..]));
    }
  }

  lemma HeaderHere(s: string)
    requires s == "" || HeaderLen(s) > 0
    ensures AtHeader(s, 0)
  {
    assert s[0..] == s;
  }

  lemma LineEnds(s: string)
    ensures LineLen(s) < |s| ==> Lines(s[..LineLen(s)])
  {}

  lemma LinesJoin(s: string, l: nat, q: nat)
    requires l + q <= |s| && Lines(s[..l]) && Lines(s[l..][..q])
    ensures Lines(s[..l + q])
  {
    assert s[..l + q] == s[..l] + s[l..][..q];
  }

  /** Any text that keeps the first line keeps its header. */
  lemma HeaderKept(s: string, n: nat)
    requires HeaderLen(s) > 0 && LineLen(s) <= n <= |s|
    ensures HeaderLen(s[..n]) > 0
  {
    hide HeaderLen, Headed, Header, Find;
    var lead, name, gap := HeaderShape(s);
    var h := HeaderLen(s);
    HeadedIs(lead, name, gap, s[h..]);
    HeaderOnOneLine(s, lead, name, gap);
    var t := s[..n][h..];
    HeadedIs(lead, name, gap, t);
    assert s[..h] == Header(lead, name, gap);
    assert s[..n] == s[..h] + t;
    HeaderMade(lead, name, gap, t);
  }

  lemma HeaderOnOneLine(s: string, lead: string, name: string, gap: string)
    requires Blank(lead) && IsName(name) && Blank(gap) && Header(lead, name, gap) <= s
    ensures |Header(lead, name, gap)| <= LineLen(s)
  {
    HeaderHasNo(lead, name, gap);
    var head := Header(lead, name, gap);
    forall i | 0 <= i < |head| ensures s[i] != '\n' { assert s[i] == head[i]; }
  }

  /** A block ends before a line with a header, or at the end. */
  lemma BlockCut(s: string)
    requires s != "" && HeaderLen(s) > 0
    ensures var b, r := s[..BlockLen(s)], s[BlockLen(s)..];
            && s == b + r && HeaderLen(b) > 0 && b != ""
            && (r == "" || (HeaderLen(r) > 0 && Lines(b)))
  {
    hide HeaderLen, ToHeader, LineLen;
    var l := LineLen(s);
    var q := ToHeader(s[l..]);
    ToHeaderCut(s[l..]);
    LineEnds(s);
    AtHeaderLater(s, l, q);
    HeaderKept(s, l + q);
  }

  /** Is the last rule rewrapped? */
  predicate LastRewraps(s: string)
    decreases |s|
  {
    s != "" &&
    (if s[BlockLen(s)..] == "" then Rewraps(s[..BlockLen(s)]) else LastRewraps(s[BlockLen(s)..]))
  }

  lemma {:induction false} BracesKept(s: string)
    requires s == "" || HeaderLen(s) > 0
    ensures '}' in Blocks(s) <==> '}' in s
    decreases |s|
  {
    hide HeaderLen, Rewrapped, BlockLen;
    if s != "" {
      BlockCut(s);
      TextKept(s[..BlockLen(s)]);
      BracesKept(s[BlockLen(s)..]);
    }
  }

  /** The text of rules against the rewritten text. */
  ghost predicate RulesKept(s: string) {
    && Solid(Tokens(s)) == AllPlain(Rules(s)) && Solid(Tokens(Blocks(s))) == AllMeant(Rules(s))
    && Defined(Tokens(Blocks(s))) == Defined(Tokens(s)) && Referenced(Tokens(Blocks(s))) == Referenced(Tokens(s))
    && (s != "" ==> Tokens(s) != [] && Tokens(Blocks(s)) != []
                    && Tokens(s)[0].kind == Name && Tokens(Blocks(s))[0].kind == Name)
  }

  /** A first rule and the rules after it. */
  lemma RulesStep(s: string, b: string, r: string)
    requires s != "" && b == s[..BlockLen(s)] && r == s[BlockLen(s)..]
    ensures Rules(s) == [b] + Rules(r) && Blocks(s) == Rewrapped(b) + Blocks(r)
    ensures AllPlain(Rules(s)) == Solid(Tokens(b)) + AllPlain(Rules(r))
    ensures AllMeant(Rules(s)) == Meant(b) + AllMeant(Rules(r))
  {
    hide Tokens, Solid, Meant, Rewrapped, BlockLen;
    assert ([b] + Rules(r))[1..] == Rules(r);
  }

  lemma NothingKept()
    ensures RulesKept("")
  {}

  lemma KeptStep(s: string, b: string, r: string)
    requires s != "" && b == s[..BlockLen(s)] && r == s[BlockLen(s)..]
    requires Kept(Tokens(b), Tokens(Rewrapped(b))) && Solid(Tokens(Rewrapped(b))) == Meant(b)
    requires Tokens(s) == Tokens(b) + Tokens(r) && Tokens(Blocks(s)) == Tokens(Rewrapped(b)) + Tokens(Blocks(r))
    requires RulesKept(r)
    ensures RulesKept(s)
  {
    hide Tokens, Blocks, Rules, Solid, Meant, Defined, Referenced, Rewrapped, BlockLen, AllPlain, AllMeant;
    RulesStep(s, b, r);
    if r == "" { NothingRead(); }
    SolidConcat(Tokens(b), Tokens(r));
    SolidConcat(Tokens(Rewrapped(b)), Tokens(Blocks(r)));
    NamesConcatNamed(Tokens(b), Tokens(r), r == "");
    NamesConcatNamed(Tokens(Rewrapped(b)), Tokens(Blocks(r)), r == "");
  }

  lemma NothingRead()
    ensures Tokens("") == [] && Blocks("") == ""
  {}

  lemma NamesConcatNamed(a: seq<Tok>, b: seq<Tok>, last: bool)
    requires !last ==> b != [] && b[0].kind == Name
    requires last ==> b == []
    ensures Defined(a + b) == Defined(a) + Defined(b)
    ensures Referenced(a + b) == Referenced(a) + Referenced(b)
  {
    NamesConcat(a, b);
  }

  lemma {:induction false} BlocksKept(s: string)
    requires (s == "" || HeaderLen(s) > 0) && Contained(s) && (Tame(s) || !LastRewraps(s))
    ensures RulesKept(s)
    decreases |s|
  {
    hide HeaderLen, Contained, Tame, Tokens, Blocks, Rules, RulesKept, Kept, Rewrapped, BlockLen, Meant, Solid;
    if s == "" {
      NothingKept();
    } else {
      BlockCut(s);
      var b, r := s[..BlockLen(s)], s[BlockLen(s)..];
      RulesStep(s, b, r);
      if r == "" {
        assert b == s;
        LastRule(b);
        NothingRead();
        assert Rewrapped(b) + "" == Rewrapped(b);
        NothingKept();
      } else {
        LineSplit(b, r);
        RuleRewritten(b);
        TextKept(b);
        BracesKept(r);
        assert Stray in Tokens(Rewrapped(b)) ==> Stray in Tokens(b) by { KeptStray(Tokens(b), Tokens(Rewrapped(b))); }
        JoinLines(Rewrapped(b), Blocks(r));
        BlocksKept(r);
      }
      KeptStep(s, b, r);
    }
  }

  lemma KeptStray(t: seq<Tok>, u: seq<Tok>)
    requires Kept(t, u)
    ensures Stray in u ==> Stray in t
  {}

  lemma LastRule(b: string)
    requires HeaderLen(b) > 0 && (Tame(b) || !Rewraps(b))
    ensures Kept(Tokens(b), Tokens(Rewrapped(b))) && Solid(Tokens(Rewrapped(b))) == Meant(b)
  {
    hide HeaderLen, Tame, Tokens, Cut, SingleGroup, Defined, Referenced, Solid;
    if Tame(b) {
      RuleRewritten(b);
    } else {
      HeaderFirst(b);
    }
  }

  /** Otherwise the last parenthesis is lost in the open literal. */
  lemma {:induction false} BlocksBroken(s: string)
    requires s != "" && HeaderLen(s) > 0 && Contained(s) && !Tame(s) && LastRewraps(s)
    ensures EndsOpen(Tokens(Blocks(s)))
    ensures var m := AllMeant(Rules(s)); m != [] && m[|m| - 1] == RP
    decreases |s|
  {
    hide HeaderLen, Contained, Tame, Tokens, Blocks, Rules, Kept, Rewrapped, BlockLen, Meant, Solid, AllPlain, AllMeant, Rewraps;
    BlockCut(s);
    var b, r := s[..BlockLen(s)], s[BlockLen(s)..];
    RulesStep(s, b, r);
    if r == "" {
      assert b == s;
      OpenBlock(b);
      NothingRead();
      assert Rewrapped(b) + "" == Rewrapped(b);
      MeantEnds(b);
      assert AllMeant(Rules(r)) == [] by { NoRules(); }
    } else {
      LineSplit(b, r);
      RuleRewritten(b);
      TextKept(b);
      BracesKept(r);
      KeptStray(Tokens(b), Tokens(Rewrapped(b)));
      JoinLines(Rewrapped(b), Blocks(r));
      BlocksBroken(r);
    }
  }

  lemma NoRules()
    ensures Rules("") == [] && AllMeant([]) == []
  {}

  lemma MeantEnds(b: string)
    requires HeaderLen(b) > 0 && Rewraps(b)
    ensures Meant(b) != [] && Meant(b)[|Meant(b)| - 1] == RP
  {
    hide HeaderLen, Tokens, Cut, SingleGroup, Filter;
    HeaderFirst(b);
  }

  // ---------------------------------------------------------------- theorems

  lemma WrapParts(s: string) returns (pre: string, rest: string)
    requires Contained(s)
    ensures pre == s[..ToHeader(s)] && rest == s[ToHeader(s)..] && Wrapped(s) == pre + Blocks(rest)
    ensures rest == "" || (HeaderLen(rest) > 0 && Lines(pre))
    ensures Tokens(s) == Tokens(pre) + Tokens(rest) && Tokens(Wrapped(s)) == Tokens(pre) + Tokens(Blocks(rest))
    ensures Contained(rest) && (rest != "" ==> (Tame(s) <==> Tame(rest)))
  {
    hide HeaderLen, Contained, Tame, Tokens, ToHeader, Blocks;
    pre, rest := s[..ToHeader(s)], s[ToHeader(s)..];
    assert s == pre + rest;
    ToHeaderCut(s);
    if rest == "" {
      NothingRead();
      NothingContained();
      assert pre == s && pre + "" == pre;
    } else {
      LineSplit(pre, rest);
      BracesKept(rest);
      if pre == "" {
        assert Wrapped(s) == Blocks(rest);
        NothingRead();
      } else {
        JoinLines(pre, Blocks(rest));
      }
    }
  }

  lemma NothingContained()
    ensures Contained("")
  {}

  /** The tokens are preserved: line breaks aside, the wrapped text reads as the
      original with one pair of parentheses around the right side of exactly the
      rewrapped rules. */
  ghost predicate Preserves(s: string) {
    Solid(Tokens(Wrapped(s))) == Expected(s)
  }

  /** The rules part of the text. */
  function RulesText(s: string): string {
    s[ToHeader(s)..]
  }

  /** When no literal, class or repetition crosses a line break, wrapping
      preserves the tokens exactly when every literal and class is closed or the
      last rule is left as it is; and then the defined and the referenced rules
      are the same too. */
  lemma WrappingIsExact(s: string)
    requires Contained(s)
    ensures Preserves(s) <==> Tame(s) || !LastRewraps(RulesText(s))
    ensures Preserves(s) ==>
              && Defined(Tokens(Wrapped(s))) == Defined(Tokens(s))
              && Referenced(Tokens(Wrapped(s))) == Referenced(Tokens(s))
    ensures Preserves(s) ==>
              Solid(Tokens(s)) == Solid(Tokens(s[..ToHeader(s)])) + AllPlain(Rules(RulesText(s)))
  {
    hide HeaderLen, Contained, Tame, Tokens, ToHeader, Blocks, Wrapped, Rules, AllMeant, AllPlain, Solid, LastRewraps, Defined, Referenced;
    var pre, rest := WrapParts(s);
    SolidConcat(Tokens(pre), Tokens(rest));
    SolidConcat(Tokens(pre), Tokens(Blocks(rest)));
    if rest == "" {
      NothingRead();
      NoRules();
      NoLast();
    }
    if Tame(s) || !LastRewraps(rest) {
      BlocksKept(rest);
      NamesConcatNamed(Tokens(pre), Tokens(rest), rest == "");
      NamesConcatNamed(Tokens(pre), Tokens(Blocks(rest)), rest == "");
    } else {
      BlocksBroken(rest);
      EndsSolid(Tokens(pre), Tokens(Blocks(rest)), AllMeant(Rules(rest)));
    }
  }

  lemma NoLast()
    ensures !LastRewraps("")
  {}

  lemma EndsSolid(pre: seq<Tok>, t: seq<Tok>, m: seq<Tok>)
    requires EndsOpen(t) && m != [] && m[|m| - 1] == RP
    ensures Solid(pre) + Solid(t) != Solid(pre) + m
  {
    assert t == t[..|t| - 1] + [t[|t| - 1]];
    FilterSnoc(NotBreak(), t[..|t| - 1], t[|t| - 1]);
    var a, b := Solid(pre) + Solid(t), Solid(pre) + m;
    assert a[|a| - 1].kind in {Str, Class} && b[|b| - 1] == RP;
  }

  /** `normalize` as a whole, where the fix has nothing to do: the tokens are
      preserved, and so are the defined and the referenced rules. */
  lemma NormalizePreserves(src: string)
    requires ClassesClosed(src) && HyphenFree(src) && Tame(src)
    ensures Solid(Tokens(Normalized(src))) == Expected(src)
    ensures Solid(Tokens(src)) == Solid(Tokens(src[..ToHeader(src)])) + AllPlain(Rules(RulesText(src)))
    ensures Defined(Tokens(Normalized(src))) == Defined(Tokens(src))
    ensures Referenced(Tokens(Normalized(src))) == Referenced(Tokens(src))
  {
    hide Expected, Wrapped, Tokens, Fixed, HyphenFree, ClassesClosed, Tame, Contained, ToHeader, Rules;
    FixIsExact(src);
    TameIsContained(src);
    WrappingIsExact(src);
  }

  lemma {:induction false} TameIsContained(s: string)
    requires Tame(s)
    ensures Contained(s)
    decreases |s|
  {
    hide Next, Tidy;
    if s != "" { TameIsContained(s[Next(s).len..]); }
  }

  /** A literal left open at the end does swallow the closing parenthesis. */
  lemma OpenLiteralLosesParen()
    ensures var s := "a::=b\n\""; Contained(s) && !Tame(s) && LastRewraps(RulesText(s)) && !Preserves(s)
  {
    hide Tame, Contained, LastRewraps, Preserves, RulesText;
    var s := "a::=b\n\"";
    OpenExampleTokens();
    OpenExampleRule();
    WrappingIsExact(s);
  }

  lemma OpenExampleTokens()
    ensures var s := "a::=b\n\""; Contained(s) && !Tame(s)
  {
    hide Tame, Contained, Tokens;
    var side, line, quote := "b\n\"", "\n\"", "\"";
    HeaderTokens("", "a", "", side);
    assert Headed("", "a", "", side) == "a::=b\n\"";
    assert side[1..] == line && line[1..] == quote && quote[1..] == "";
    assert NameTail(line) == 0;
    assert Next(side) == Bite([Tok(Name, side[..1])], 1);
    Unfold(side, line);
    SpacePrefix("\n", quote);
    assert line == "\n" + quote;
    Unfold(quote, "");
    NothingContained();
  }

  lemma OpenExampleRule()
    ensures LastRewraps(RulesText("a::=b\n\""))
  {
    hide HeaderLen, Rewraps, BlockLen;
    var s, side := "a::=b\n\"", "b\n\"";
    HeaderMade("", "a", "", side);
    assert Headed("", "a", "", side) == s;
    assert RulesText(s) == s;
    OpenExampleLines();
    assert s[..7] == s && s[7..] == "";
    OpenExampleRewraps();
  }

  lemma OpenExampleRewraps()
    ensures Rewraps("a::=b\n\"")
  {
    hide SingleGroup, Cut;
    var side := "b\n\"";
    assert Headed("", "a", "", side) == "a::=b\n\"";
    assert !IsPySpace('"') && !IsPySpace('b');
    assert RStrip(side) == side && LStrip(side) == side;
    CutHeaded("", "a", "", side);
    NotGroup(side);
    assert side[1] == '\n';
  }

  lemma NotGroup(s: string)
    requires s != "" && s[0] != '('
    ensures !SingleGroup(s)
  {}

  lemma OpenExampleLines()
    ensures BlockLen("a::=b\n\"") == 7
  {
    var s := "a::=b\n\"";
    FindUnique(s, '\n', 5);
    assert s[6..] == "\"" && "\""[1..] == "";
    FindUnique("\"", '\n', 1);
    assert HeaderLen("\"") == 0;
  }
}
