/** One rule of a grammar: its header, its right side, and what rewrapping does to
    its tokens. */
module GbnfRules {
  import opened Prelude
  import opened Gbnf
  import opened GbnfTokens

  // ----------------------------------------------------------------- headers

  predicate Blank(s: string) {
    forall i :: 0 <= i < |s| ==> s[i] in " \t"
  }

  predicate IsName(s: string) {
    s != "" && IsLetter(s[0]) && forall i :: 0 <= i < |s| ==> NameChar(s[i])
  }

  function Header(lead: string, name: string, gap: string): string {
    lead + name + gap + "::="
  }

  /** A text that starts with a header. */
  function Headed(lead: string, name: string, gap: string, t: string): string {
    lead + (name + (gap + ("::=" + t)))
  }

  lemma HeadedIs(lead: string, name: string, gap: string, t: string)
    ensures Headed(lead, name, gap, t) == Header(lead, name, gap) + t
    ensures Headed(lead, name, gap, t) == (lead + name + gap) + ("::=" + t)
  {}

  lemma BlanksAt(lead: string, t: string)
    requires Blank(lead) && (t == "" || t[0] !in " \t")
    ensures Blanks(lead + t) == |lead|
  {
    var r := Blanks(lead + t);
    assert forall i :: 0 <= i < |lead| ==> (lead + t)[i] == lead[i];
    assert t != "" ==> (lead + t)[|lead|] == t[0];
  }

  lemma NameAt(name: string, t: string)
    requires IsName(name) && t != "" && !NameChar(t[0])
    ensures NameLen(name + t) == |name|
  {
    var s := name + t;
    assert s[1..] == name[1..] + t && s[0] == name[0];
    forall i | 0 <= i < |name| - 1 ensures NameChar(s[1..][i]) { assert s[1..][i] == name[i + 1]; }
    assert s[1..][|name| - 1] == t[0];
    NameTailUnique(s[1..], |name| - 1);
  }

  lemma NameChars(s: string)
    ensures NameLen(s) > 0 ==> IsName(s[..NameLen(s)])
  {
    forall k | 0 <= k < NameLen(s) ensures NameChar(s[k]) {
      if k > 0 { assert NameChar(s[1..][k - 1]); }
    }
  }

  /** A header is blanks, a name, blanks and `::=`. */
  lemma HeaderShape(s: string) returns (lead: string, name: string, gap: string)
    requires HeaderLen(s) > 0
    ensures Blank(lead) && IsName(name) && Blank(gap)
    ensures |Header(lead, name, gap)| == HeaderLen(s) && s == Headed(lead, name, gap, s[HeaderLen(s)..])
  {
    hide Blanks, NameLen;
    var atName := s[Blanks(s)..];
    lead := s[..Blanks(s)];
    var atGap := atName[NameLen(atName)..];
    name := atName[..NameLen(atName)];
    var atDefine := atGap[Blanks(atGap)..];
    gap := atGap[..Blanks(atGap)];
    NameChars(atName);
    var t := atDefine[3..];
    assert s[HeaderLen(s)..] == t;
    assert s == lead + atName;
    assert atName == name + atGap;
    assert atGap == gap + atDefine;
    assert atDefine == "::=" + t;
  }

  /** And whatever follows it, it is a header. */
  lemma HeaderMade(lead: string, name: string, gap: string, t: string)
    requires Blank(lead) && IsName(name) && Blank(gap)
    ensures HeaderLen(Headed(lead, name, gap, t)) == |Header(lead, name, gap)|
  {
    hide Blanks, NameLen;
    var atDefine := "::=" + t;
    var atGap := gap + atDefine;
    var atName := name + atGap;
    BlanksAt(lead, atName);
    assert Headed(lead, name, gap, t)[|lead|..] == atName;
    NameAt(name, atGap);
    assert atName[|name|..] == atGap;
    BlanksAt(gap, atDefine);
    assert atGap[|gap|..] == atDefine;
  }

  lemma {:induction false} DefineAt(pre: string, t: string)
    requires ':' !in pre
    ensures FindDefine(pre + ("::=" + t)) == |pre|
  {
    var s := pre + ("::=" + t);
    if pre == "" {
      assert s == "::=" + t;
    } else {
      assert s[0] == pre[0] && s[1..] == pre[1..] + ("::=" + t);
      DefineAt(pre[1..], t);
    }
  }

  lemma HeaderHasNo(lead: string, name: string, gap: string)
    requires Blank(lead) && IsName(name) && Blank(gap)
    ensures ':' !in lead + name + gap && OneLine(Header(lead, name, gap)) && '}' !in Header(lead, name, gap)
  {}

  /** A header reads as its name and `::=`, whatever follows. */
  lemma HeaderTokens(lead: string, name: string, gap: string, t: string)
    requires Blank(lead) && IsName(name) && Blank(gap)
    ensures var s := Headed(lead, name, gap, t);
            && Tokens(s) == [Tok(Name, name), Tok(Define, "::=")] + Tokens(t)
            && (Tame(s) <==> Tame(t)) && (Contained(s) <==> Contained(t))
  {
    hide Tokens, Tame, Contained, Blanks, Next, Tidy, NameLen, Dangling, Breaks;
    var atDefine := "::=" + t;
    var atGap := gap + atDefine;
    var atName := name + atGap;
    SpacePrefix(lead, atName);
    NoBreaks(lead);
    NameNext(name, atGap);
    assert atName[|name|..] == atGap;
    Unfold(atName, atGap);
    SpacePrefix(gap, atDefine);
    NoBreaks(gap);
    DefineNext(t);
    assert atDefine[3..] == t;
    Unfold(atDefine, t);
  }

  lemma NameNext(name: string, t: string)
    requires IsName(name) && t != "" && t[0] in " \t:"
    ensures Next(name + t) == Bite([Tok(Name, name)], |name|) && Tidy(name + t) && !Dangling(name + t)
  {
    hide NameLen, Find, LitEnd;
    NameAt(name, t);
    assert (name + t)[0] == name[0] && (name + t)[..|name|] == name;
  }

  lemma DefineNext(t: string)
    ensures Next("::=" + t) == Bite([Tok(Define, "::=")], 3) && Tidy("::=" + t) && !Dangling("::=" + t)
  {
    assert ("::=" + t)[..3] == "::=";
  }

  // ------------------------------------------------------------- right sides

  lemma {:induction false} LStripShape(s: string)
    ensures |LStrip(s)| <= |s|
    ensures var n := |s| - |LStrip(s)|; LStrip(s) == s[n..] && IsBlank(s[..n])
  {
    if s != "" && IsPySpace(s[0]) {
      LStripShape(s[1..]);
      var n := |s[1..]| - |LStrip(s[1..])|;
      assert s[..n + 1] == [s[0]] + s[1..][..n];
      assert s[1..][n..] == s[n + 1..];
    }
  }

  /** A right side is white space, the body, and white space. */
  lemma SideShape(rhs: string) returns (before: string)
    ensures var stripped := RStrip(rhs);
            && |stripped| <= |rhs| && IsBlank(before) && IsBlank(rhs[|stripped|..])
            && rhs == before + (LStrip(stripped) + rhs[|stripped|..])
            && (rhs != "" && Lines(rhs) ==> |stripped| < |rhs|)
  {
    hide RStrip, LStrip;
    RStripShorter(rhs);
    var stripped := RStrip(rhs);
    LStripShape(stripped);
    before := stripped[..|stripped| - |LStrip(stripped)|];
    if rhs != "" && Lines(rhs) {
      StripsLast(rhs);
    }
  }

  lemma CutShape(lead: string, name: string, gap: string, rhs: string) returns (before: string)
    requires Blank(lead) && IsName(name) && Blank(gap)
    ensures var p := Cut(Headed(lead, name, gap, rhs));
            && p.head == Header(lead, name, gap) && IsBlank(before) && IsBlank(p.trailer)
            && rhs == before + (p.body + p.trailer)
            && (rhs != "" && Lines(rhs) ==> Lines(p.trailer) && p.trailer != "")
  {
    hide RStrip, LStrip, IsBlank, Cut, Headed, Header;
    before := SideShape(rhs);
    CutHeaded(lead, name, gap, rhs);
  }

  lemma CutHeaded(lead: string, name: string, gap: string, rhs: string)
    requires Blank(lead) && IsName(name) && Blank(gap) && |RStrip(rhs)| <= |rhs|
    ensures Cut(Headed(lead, name, gap, rhs))
         == Parts(Header(lead, name, gap), rhs, LStrip(RStrip(rhs)), rhs[|RStrip(rhs)|..])
  {
    hide RStrip, LStrip, FindDefine, Headed;
    var block := Headed(lead, name, gap, rhs);
    var head := Header(lead, name, gap);
    HeadedIs(lead, name, gap, rhs);
    HeaderHasNo(lead, name, gap);
    DefineAt(lead + name + gap, rhs);
    assert |head| == |lead + name + gap| + 3;
    assert block[|head|..] == rhs && block[..|head|] == head;
  }

  lemma StripsLast(s: string)
    requires s != "" && IsPySpace(s[|s| - 1])
    ensures |RStrip(s)| < |s|
  {
    RStripShorter(s[..|s| - 1]);
  }

  const LP: Tok := Tok(LParen, "(")
  const RP: Tok := Tok(RParen, ")")

  /** The tokens of a block. */
  lemma BlockTokens(block: string) returns (name: string, before: string)
    requires HeaderLen(block) > 0 && Tame(block)
    ensures var p := Cut(block);
            && IsBlank(before) && IsBlank(p.trailer) && Tame(p.body)
            && Tokens(block) == [Tok(Name, name), Tok(Define, "::=")] + Breaks(before) + Tokens(p.body) + Breaks(p.trailer)
            && (Rewraps(block) ==>
                  && Tame(Rewrapped(block))
                  && Tokens(Rewrapped(block))
                     == [Tok(Name, name), Tok(Define, "::="), LP, NL] + Tokens(p.body) + [NL, RP] + Breaks(p.trailer))
  {
    hide Tokens, Tame, Contained, HeaderLen, Cut, SingleGroup, Breaks;
    var lead, gap;
    lead, name, gap := HeaderShape(block);
    before := CutShape(lead, name, gap, block[HeaderLen(block)..]);
    var p := Cut(block);
    HeaderTokens(lead, name, gap, before + (p.body + p.trailer));
    SpacePrefix(before, p.body + p.trailer);
    SpaceSuffix(p.body, p.trailer);
    if Rewraps(block) {
      WrapTokens(p.body, p.trailer);
      var t := " (\n" + (p.body + ("\n)" + p.trailer));
      HeaderTokens(lead, name, gap, t);
      HeadedIs(lead, name, gap, t);
      assert Rewrapped(block) == p.head + t;
    }
  }

  lemma ParenNext(t: string)
    ensures Tokens("(" + t) == [LP] + Tokens(t) && (Tame("(" + t) <==> Tame(t))
    ensures Tokens(")" + t) == [RP] + Tokens(t) && (Tame(")" + t) <==> Tame(t))
  {
    hide Tokens, Tame;
    assert ("(" + t)[1..] == t && (")" + t)[1..] == t;
    ParenBite("(" + t);
    ParenBite(")" + t);
    Unfold("(" + t, t);
    Unfold(")" + t, t);
  }

  lemma ParenBite(s: string)
    requires s != "" && s[0] in "()"
    ensures Next(s) == Bite([if s[0] == '(' then LP else RP], 1) && Tidy(s)
  {
    hide Find, LitEnd, NameLen;
  }

  lemma OpenTokens(t: string)
    ensures Tokens(" (\n" + t) == [LP, NL] + Tokens(t) && (Tame(" (\n" + t) <==> Tame(t))
  {
    hide Tokens, Tame, Contained;
    assert " (\n" + t == " " + ("(" + ("\n" + t));
    SpacePrefix(" ", "(" + ("\n" + t));
    ParenNext("\n" + t);
    SpacePrefix("\n", t);
    assert Breaks("\n") == [NL] && Breaks(" ") == [];
  }

  lemma CloseTokens(trailer: string)
    requires IsBlank(trailer)
    ensures Tokens("\n)" + trailer) == [NL, RP] + Breaks(trailer) && Tame("\n)" + trailer)
  {
    hide Tokens, Tame, Contained;
    assert "\n)" + trailer == "\n" + (")" + trailer);
    SpacePrefix("\n", ")" + trailer);
    ParenNext(trailer);
    SpaceTokens(trailer);
    assert Breaks("\n") == [NL];
  }

  lemma WrapTokens(body: string, trailer: string)
    requires Tame(body) && IsBlank(trailer)
    ensures var t := " (\n" + (body + ("\n)" + trailer));
            Tokens(t) == [LP, NL] + Tokens(body) + [NL, RP] + Breaks(trailer) && Tame(t)
  {
    hide Tokens, Tame, Contained, Breaks;
    var z := "\n)" + trailer;
    CloseTokens(trailer);
    assert '}' !in z;
    Join(body, z);
    OpenTokens(body + z);
  }

  /** A block that ends inside an open literal: rewrapped, the literal is last. */
  lemma OpenBlock(block: string)
    requires HeaderLen(block) > 0 && Contained(block) && !Tame(block) && Rewraps(block)
    ensures EndsOpen(Tokens(Rewrapped(block)))
  {
    hide Tokens, Tame, Contained, HeaderLen, Cut, SingleGroup, Breaks;
    var lead, name, gap := HeaderShape(block);
    var before := CutShape(lead, name, gap, block[HeaderLen(block)..]);
    var p := Cut(block);
    HeaderTokens(lead, name, gap, before + (p.body + p.trailer));
    SpacePrefix(before, p.body + p.trailer);
    var z := "\n)" + p.trailer;
    assert '"' !in z && ']' !in z && '}' !in z;
    SwallowsEnd(p.body, p.trailer, z);
    OpenTokens(p.body + z);
    HeaderTokens(lead, name, gap, " (\n" + (p.body + z));
    HeadedIs(lead, name, gap, " (\n" + (p.body + z));
    assert Rewrapped(block) == p.head + (" (\n" + (p.body + z));
  }

  // ------------------------------------------------------- the body once wrapped

  lemma {:induction false} RStripExact(s: string, w: string)
    requires IsBlank(w) && s != "" && !IsPySpace(s[|s| - 1])
    ensures RStrip(s + w) == s
    decreases |w|
  {
    if w == "" {
      assert s + w == s;
    } else {
      var n := |w| - 1;
      assert (s + w)[..|s + w| - 1] == s + w[..n];
      RStripExact(s, w[..n]);
    }
  }

  lemma LStripBlank(s: string)
    requires s != "" && !IsPySpace(s[0])
    ensures LStrip(" " + s) == s
  {
    assert (" " + s)[1..] == s;
  }

  lemma WrappedBody(lead: string, name: string, gap: string, body: string, trailer: string)
    requires Blank(lead) && IsName(name) && Blank(gap) && IsBlank(trailer)
    ensures Cut(Headed(lead, name, gap, " (\n" + body + "\n)" + trailer)).body == "(\n" + body + "\n)"
  {
    hide RStrip, LStrip, Cut, Headed, Header;
    var group := "(\n" + body + "\n)";
    var rhs := " (\n" + body + "\n)" + trailer;
    assert rhs == (" " + group) + trailer;
    assert (" " + group)[|group|] == ')' && group[0] == '(';
    RStripExact(" " + group, trailer);
    LStripBlank(group);
    CutHeaded(lead, name, gap, rhs);
  }
}
