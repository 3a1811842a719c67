/** What the pieces of the grammar model mean: the kinds of tokens and what is passed
    over, the defined and referenced names, where a text is cut into rules, and what
    the hyphen fix leaves alone. */
module GbnfMeaning {
  import opened Prelude
  import opened Gbnf
  import opened GbnfTokens
  import opened GbnfRules
  import opened GbnfNesting
  import opened GbnfLaws

  // -------------------------------------------------------------------- tokens

  /** The kind of a token and its text. */
  predicate KindFits(t: Tok) {
    match t.kind
    case Name => IsName(t.text)
    case Define => t.text == "::="
    case Str => t.text != "" && t.text[0] == '"'
    case Class => t.text != "" && t.text[0] == '['
    case LParen => t.text == "("
    case RParen => t.text == ")"
    case Pipe => t.text == "|"
    case Op => t.text in {"*", "+", "?", "{"}
    case Repeat => |t.text| >= 2 && t.text[0] == '{' && t.text[|t.text| - 1] == '}' && '}' !in t.text[..|t.text| - 1]
    case Newline => t.text == "\n"
  }

  lemma BiteKind(s: string)
    requires s != "" && Next(s).toks != []
    ensures KindFits(Next(s).toks[0])
  {
    hide Find, LitEnd, NameLen;
    if s[0] == '{' {
      assert forall i :: 0 <= i < Find(s, '}') ==> s[i] != '}';
    } else {
      NameChars(s);
    }
  }

  lemma {:induction false} TokenKinds(s: string, t: Tok)
    requires t in Tokens(s)
    ensures KindFits(t)
    decreases |s|
  {
    hide Next, KindFits;
    if s != "" {
      if t in Next(s).toks {
        BiteKind(s);
      } else {
        TokenKinds(s[Next(s).len..], t);
      }
    }
  }

  /** The characters of a rule name: letters, digits and hyphens, no underscore. */
  predicate OfName(c: char) {
    'a' <= c <= 'z' || 'A' <= c <= 'Z' || '0' <= c <= '9' || c == '-'
  }

  /** A letter followed by name characters is read as one whole name. */
  lemma NamesAreWhole(name: string, t: string)
    requires name != "" && name[0] != '-' && !('0' <= name[0] <= '9')
    requires forall i :: 0 <= i < |name| ==> OfName(name[i])
    requires t != "" ==> !OfName(t[0])
    ensures Next(name + t) == Bite([Tok(Name, name)], |name|)
  {
    var s := name + t;
    hide Find, LitEnd;
    assert s[1..] == name[1..] + t && s[0] == name[0];
    forall i | 0 <= i < |name| - 1 ensures NameChar(s[1..][i]) { assert s[1..][i] == name[i + 1]; }
    if t != "" { assert s[1..][|name| - 1] == t[0]; }
    NameTailUnique(s[1..], |name| - 1);
    assert s[..|name|] == name;
  }

  /** A character that begins a token. */
  predicate Begins(s: string)
    requires s != ""
  {
    s[0] in "\n\"[()|*+?{" || IsLetter(s[0]) || "::=" <= s
  }

  /** What is passed over: a comment to the end of its line, or one character that
      begins no token; and nothing that begins one. */
  lemma PassedOver(s: string)
    requires s != ""
    ensures Next(s).toks == [] <==> s[0] == '#' || !Begins(s)
    ensures s[0] == '#' ==> '\n' !in s[..Next(s).len] && (Next(s).len == |s| || s[Next(s).len] == '\n')
    ensures s[0] != '#' && !Begins(s) ==> Next(s).len == 1
  {
    hide LitEnd, NameTail;
  }

  // --------------------------------------------------------------------- names

  lemma {:induction false} DefinedMeans(t: seq<Tok>, x: string)
    ensures x in Defined(t) <==>
              exists i :: 0 <= i < |t| - 1 && t[i].kind == Name && t[i].text == x && t[i + 1].kind == Define
  {
    if |t| >= 2 {
      DefinedMeans(t[1..], x);
      if x in Defined(t[1..]) {
        var i :| 0 <= i < |t[1..]| - 1 && t[1..][i].kind == Name && t[1..][i].text == x && t[1..][i + 1].kind == Define;
        assert t[i + 1].kind == Name && t[i + 2].kind == Define;
      }
      if i :| 0 <= i < |t| - 1 && t[i].kind == Name && t[i].text == x && t[i + 1].kind == Define {
        if i > 0 { assert t[1..][i - 1].kind == Name && t[1..][i].kind == Define; }
      }
    }
  }

  lemma {:induction false} ReferencedMeans(t: seq<Tok>, x: string)
    ensures x in Referenced(t) <==>
              exists i :: 0 <= i < |t| && t[i].kind == Name && t[i].text == x && !(i + 1 < |t| && t[i + 1].kind == Define)
  {
    if t != [] {
      ReferencedMeans(t[1..], x);
      if x in Referenced(t[1..]) {
        var i :| 0 <= i < |t[1..]| && t[1..][i].kind == Name && t[1..][i].text == x
                   && !(i + 1 < |t[1..]| && t[1..][i + 1].kind == Define);
        assert t[i + 1].kind == Name && t[i + 1].text == x;
      }
      if i :| 0 <= i < |t| && t[i].kind == Name && t[i].text == x && !(i + 1 < |t| && t[i + 1].kind == Define) {
        if i > 0 { assert t[1..][i - 1].kind == Name && t[1..][i - 1].text == x; }
      }
    }
  }

  // --------------------------------------------------------------------- rules

  predicate LineStart(s: string, q: nat) {
    q <= |s| && (q == 0 || s[q - 1] == '\n')
  }

  /** No line with a header is passed on the way to the next header. */
  lemma {:induction false} NoHeaderBefore(s: string, q: nat)
    requires LineStart(s, q) && q < ToHeader(s)
    ensures HeaderLen(s[q..]) == 0
    decreases |s|
  {
    hide HeaderLen;
    var l := LineLen(s);
    if q == 0 {
      assert s[0..] == s;
    } else {
      LineIsPassed(s, q);
      assert s[q..] == s[l..][q - l..];
      if q > l { assert s[l..][q - l - 1] == s[q - 1]; }
      NoHeaderBefore(s[l..], q - l);
    }
  }

  lemma LineIsPassed(s: string, q: nat)
    requires LineStart(s, q) && q > 0
    ensures LineLen(s) <= q
  {}

  /** A rule runs from its header up to the next line with a header: no line inside
      it begins with one. */
  lemma RuleIsOne(s: string, q: nat)
    requires s != "" && LineStart(s, q) && 0 < q < BlockLen(s)
    ensures HeaderLen(s[q..]) == 0
  {
    hide HeaderLen;
    var l := LineLen(s);
    LineIsPassed(s, q);
    assert s[q..] == s[l..][q - l..];
    if q > l { assert s[l..][q - l - 1] == s[q - 1]; }
    NoHeaderBefore(s[l..], q - l);
  }

  /** The rules of a text are its whole text from the first header on, in order. */
  lemma {:induction false} RulesCover(s: string)
    ensures Concat(Rules(s)) == s
    decreases |s|
  {
    hide BlockLen;
    if s != "" {
      var n := BlockLen(s);
      RulesCover(s[n..]);
      assert ([s[..n]] + Rules(s[n..]))[1..] == Rules(s[n..]);
      assert s == s[..n] + s[n..];
    }
  }

  function Concat(parts: seq<string>): string {
    if parts == [] then "" else parts[0] + Concat(parts[1..])
  }

  // ---------------------------------------------------------------- the hyphen fix

  lemma FixStep(s: string, text: string, rest: string)
    requires s != "" && FixNext(s) == Fix(text, |text|) && rest == s[FixNext(s).len..]
    ensures Fixed(s) == text + Fixed(rest)
  {
    hide FixNext;
  }

  lemma LiteralBite(s: string, e: nat)
    requires s != "" && s[0] == '"' && LitEnd(s, 1, '"') == e < |s|
    ensures FixNext(s) == Fix(s[..e + 1], e + 1)
  {
    hide LitEnd;
  }

  /** A closed literal passes through the fix as it is. */
  lemma LiteralPasses(s: string, e: nat)
    requires s != "" && s[0] == '"' && LitEnd(s, 1, '"') == e < |s|
    ensures Fixed(s) == s[..e + 1] + Fixed(s[e + 1..])
  {
    hide LitEnd, Fixed, FixNext;
    var text, rest := s[..e + 1], s[e + 1..];
    assert |text| == e + 1;
    LiteralBite(s, e);
    FixStep(s, text, rest);
  }

  /** A comment passes through the fix as it is. */
  lemma CommentPasses(s: string)
    requires s != "" && s[0] == '#'
    ensures var n := Find(s, '\n'); Fixed(s) == s[..n] + Fixed(s[n..])
  {
    hide Find, Fixed;
    var n := Find(s, '\n');
    FixStep(s, s[..n], s[n..]);
  }

  /** And so does every other character outside a class. */
  lemma CharacterPasses(s: string)
    requires s != "" && s[0] !in "[\"#"
    ensures Fixed(s) == [s[0]] + Fixed(s[1..])
  {
    hide Fixed, LitEnd, Find;
    assert s[..1] == [s[0]];
    FixStep(s, [s[0]], s[1..]);
  }

  // ------------------------------------------------------------------ one group

  /** As many opened as closed, and never more closed than opened. */
  predicate Balanced(s: string) {
    && multiset(s)['('] == multiset(s)[')']
    && forall k :: 0 <= k <= |s| ==> multiset(s[..k])[')'] <= multiset(s[..k])['(']
  }

  lemma {:induction false} DepthCounts(s: string)
    ensures Depth(s) + multiset(s)[')'] == multiset(s)['(']
  {
    if s != "" {
      var n := |s| - 1;
      assert s == s[..n] + [s[n]];
      DepthCounts(s[..n]);
    }
  }

  lemma InsideDepth(body: string, k: nat)
    requires |body| >= 2 && body[0] == '(' && 1 <= k < |body|
    ensures Depth(body[..k]) == 1 + Depth(body[1..|body| - 1][..k - 1])
  {
    hide Depth;
    var inner := body[1..|body| - 1];
    assert body[..k] == "(" + inner[..k - 1];
    DepthConcat("(", inner[..k - 1]);
    DepthCounts("(");
  }

  /** The scan finds one group exactly in a pair of parentheses around a balanced
      text. */
  lemma OneGroupMeans(body: string)
    ensures SingleGroup(body) <==>
              |body| >= 2 && body[0] == '(' && body[|body| - 1] == ')' && Balanced(body[1..|body| - 1])
  {
    hide Depth;
    if |body| >= 2 && body[0] == '(' && body[|body| - 1] == ')' {
      var n := |body| - 1;
      var inner := body[1..n];
      InsideDepth(body, n);
      DepthStep(body, n);
      assert inner[..n - 1] == inner && body[..n + 1] == body;
      DepthCounts(inner);
      if SingleGroup(body) {
        forall k | 0 <= k <= |inner| ensures multiset(inner[..k])[')'] <= multiset(inner[..k])['('] {
          GroupIsDeep(body, k + 1);
          InsideDepth(body, k + 1);
          DepthCounts(inner[..k]);
        }
      }
      if Balanced(inner) {
        forall i | 0 <= i < n && body[i] == ')' ensures Depth(body[..i + 1]) != 0 {
          InsideDepth(body, i + 1);
          DepthCounts(inner[..i]);
        }
      }
    }
  }

  lemma PaddedBalance(s: string)
    ensures Balanced("\n" + s + "\n") <==> Balanced(s)
  {
    var t := "\n" + s + "\n";
    assert multiset(t)['('] == multiset(s)['('] && multiset(t)[')'] == multiset(s)[')'];
    if Balanced(t) {
      forall k | 0 <= k <= |s| ensures multiset(s[..k])[')'] <= multiset(s[..k])['('] {
        assert t[..k + 1] == "\n" + s[..k];
      }
    }
    if Balanced(s) {
      forall k | 0 <= k <= |t| ensures multiset(t[..k])[')'] <= multiset(t[..k])['('] {
        if 1 <= k <= |s| + 1 {
          assert t[..k] == "\n" + s[..k - 1];
        } else if k == |t| {
          assert t[..k] == t;
        }
      }
    }
  }

  lemma StillHeaded(block: string)
    requires HeaderLen(block) > 0 && Rewraps(block)
    ensures HeaderLen(Rewrapped(block)) > 0
  {
    hide HeaderLen, Cut, SingleGroup;
    var lead, name, gap := HeaderShape(block);
    var before := CutShape(lead, name, gap, block[HeaderLen(block)..]);
    var p := Cut(block);
    var t := " (\n" + p.body + "\n)" + p.trailer;
    HeadedIs(lead, name, gap, t);
    assert Rewrapped(block) == p.head + t;
    HeaderMade(lead, name, gap, t);
  }

  /** A rewrapped rule is left alone the next time exactly when the parentheses of
      its right side balance, those inside literals included. */
  lemma RewrappedOnce(block: string)
    requires HeaderLen(block) > 0 && Rewraps(block)
    ensures Rewrapped(Rewrapped(block)) == Rewrapped(block) <==> Balanced(Cut(block).body)
  {
    hide HeaderLen, Cut, SingleGroup, Balanced;
    var body := Cut(block).body;
    var again := "(\n" + body + "\n)";
    RewrittenBody(block);
    OneGroupMeans(again);
    assert again[1..|again| - 1] == "\n" + body + "\n";
    PaddedBalance(body);
    assert again[1] == '\n';
    if Rewraps(Rewrapped(block)) {
      StillHeaded(block);
      RewrittenBody(Rewrapped(block));
      assert |Cut(Rewrapped(Rewrapped(block))).body| > |again|;
    }
  }
}
