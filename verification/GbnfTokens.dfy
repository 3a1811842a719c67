/** Where a grammar's text can be cut without changing its tokens: at line breaks
    and around white space, as long as nothing crosses a line break. */
module GbnfTokens {
  import opened Prelude
  import opened Gbnf

  predicate OneLine(s: string) {
    '\n' !in s
  }

  /** What the tokenizer reads next stays on its line, and is closed. */
  predicate Tidy(s: string)
    requires s != ""
  {
    && (s[0] == '\n' || OneLine(s[..Next(s).len]))
    && (s[0] == '"' ==> LitEnd(s, 1, '"') < |s|)
    && (s[0] == '[' ==> LitEnd(s, 1, ']') < |s|)
  }

  /** No literal, class or repetition crosses a line break or the end. */
  predicate Tame(s: string)
    decreases |s|
  {
    s == "" || (Tidy(s) && Tame(s[Next(s).len..]))
  }

  /** A literal or class that is never closed. */
  predicate Dangling(s: string) {
    s != "" && ((s[0] == '"' && LitEnd(s, 1, '"') == |s|) || (s[0] == '[' && LitEnd(s, 1, ']') == |s|))
  }

  /** Nothing crosses a line break; a literal or class may run into the end. */
  predicate Contained(s: string)
    decreases |s|
  {
    s == "" || (Dangling(s) && OneLine(s)) || (Tidy(s) && Contained(s[Next(s).len..]))
  }

  const Stray: Tok := Tok(Op, "{")

  /** One bite, with the rest of the text named by the caller. */
  lemma Unfold(s: string, rest: string)
    requires s != "" && rest == s[Next(s).len..]
    ensures Tokens(s) == Next(s).toks + Tokens(rest)
    ensures Tame(s) <==> Tidy(s) && Tame(rest)
    ensures Contained(s) <==> (Dangling(s) && OneLine(s)) || (Tidy(s) && Contained(rest))
  {}

  // --------------------------------------------------- a prefix reads the same

  lemma {:induction false} LitPrefix(a: string, w: string, j: nat, close: char)
    requires j <= |a| && LitEnd(a + w, j, close) < |a|
    ensures LitEnd(a, j, close) == LitEnd(a + w, j, close)
    decreases |a| - j
  {
    assert forall i :: 0 <= i < |a| ==> (a + w)[i] == a[i];
    if j < |a| {
      if a[j] == '\\' && j + 1 < |a + w| {
        LitPrefix(a, w, j + 2, close);
      } else if a[j] != close {
        LitPrefix(a, w, j + 1, close);
      }
    }
  }

  lemma {:induction false} LitExtend(a: string, w: string, j: nat, close: char)
    requires j <= |a| && LitEnd(a, j, close) < |a| && close != '\\'
    ensures LitEnd(a + w, j, close) == LitEnd(a, j, close)
    decreases |a| - j
  {
    assert forall i :: 0 <= i < |a| ==> (a + w)[i] == a[i];
    if j < |a| {
      if a[j] == '\\' && j + 1 < |a| {
        LitExtend(a, w, j + 2, close);
      } else if a[j] != close {
        LitExtend(a, w, j + 1, close);
      }
    }
  }

  lemma FindUnique(s: string, c: char, r: nat)
    requires r <= |s| && (r < |s| ==> s[r] == c) && forall i :: 0 <= i < r ==> s[i] != c
    ensures Find(s, c) == r
  {}

  lemma NameTailUnique(s: string, r: nat)
    requires r <= |s| && (forall i :: 0 <= i < r ==> NameChar(s[i])) && (r < |s| ==> !NameChar(s[r]))
    ensures NameTail(s) == r
  {}

  lemma NamePrefix(a: string, w: string)
    requires a != "" && (NameLen(a + w) <= |a| || (w != "" && !NameChar(w[0])))
    ensures NameLen(a) == NameLen(a + w)
  {
    hide NameTail;
    assert (a + w)[1..] == a[1..] + w;
    if IsLetter(a[0]) {
      var r := NameTail(a[1..] + w);
      assert w != "" ==> (a[1..] + w)[|a| - 1] == w[0];
      forall i | 0 <= i < r ensures NameChar(a[1..][i]) { assert NameChar((a[1..] + w)[i]); }
      if r < |a[1..]| {
        assert !NameChar((a[1..] + w)[r]);
      }
      NameTailUnique(a[1..], r);
    }
  }

  /** If what is read ends within `a`, it is what `a` alone reads. */
  lemma PrefixNext(a: string, w: string)
    requires a != "" && Tidy(a + w) && Next(a + w).len <= |a|
    ensures Next(a) == Next(a + w)
  {
    hide Find, LitEnd, NameTail;
    var s, k := a + w, Next(a + w).len;
    assert s[0] == a[0] && s[..k] == a[..k];
    var c := a[0];
    if c == '#' {
      FindPrefix(a, w, '\n');
    } else if c == '"' {
      LitPrefix(a, w, 1, '"');
    } else if c == '[' {
      LitPrefix(a, w, 1, ']');
    } else if "::=" <= s {
      assert "::=" <= a;
    } else {
      NotDefine(a, w);
      if c == '{' {
        FindPrefix(a, w, '}');
      } else {
        NamePrefix(a, w);
      }
    }
  }

  lemma NotDefine(a: string, w: string)
    requires !("::=" <= a + w)
    ensures !("::=" <= a)
  {}

  lemma NotDefineYet(a: string, z: string)
    requires a != "" && !("::=" <= a) && z != "" && z[0] == '\n'
    ensures !("::=" <= a + z)
  {
    assert (a + z)[|a|] == '\n';
    assert |a| >= 3 ==> (a + z)[..3] == a[..3];
  }

  lemma FindPrefix(a: string, w: string, c: char)
    ensures Find(a, c) == Min(Find(a + w, c), |a|)
  {
    var r := Min(Find(a + w, c), |a|);
    forall i | 0 <= i < r ensures a[i] != c { assert (a + w)[i] != c; }
    FindUnique(a, c, r);
  }

  /** Text that starts with a line break does not change what is read before it,
      unless it closes a stray brace. */
  lemma ExtendNext(a: string, z: string)
    requires a != "" && Tidy(a) && z != "" && z[0] == '\n'
    requires Stray in Next(a).toks ==> '}' !in z
    ensures Next(a + z) == Next(a)
  {
    hide Find, LitEnd, NameLen;
    var s, k := a + z, Next(a).len;
    assert s[0] == a[0] && s[..k] == a[..k] && s[|a|] == '\n';
    var c := a[0];
    if c == '#' {
      FindUnique(s, '\n', k);
    } else if c == '"' {
      LitExtend(a, z, 1, '"');
    } else if c == '[' {
      LitExtend(a, z, 1, ']');
    } else if "::=" <= a {
      assert "::=" <= s;
    } else {
      NotDefineYet(a, z);
      if c == '{' {
        FindUnique(s, '}', if Find(a, '}') < |a| then Find(a, '}') else |s|);
      } else {
        NamePrefix(a, z);
      }
    }
  }

  // ------------------------------------------------------------------ cutting

  predicate Lines(p: string) {
    p == "" || p[|p| - 1] == '\n'
  }

  lemma LinesNotDangling(p: string, b: string)
    requires p != "" && Lines(p)
    ensures !OneLine(p + b)
  {
    assert (p + b)[|p| - 1] == '\n';
  }

  /** A contained text can be cut after any line break. */
  lemma {:induction false} LineSplit(p: string, b: string)
    requires Lines(p) && Contained(p + b)
    ensures Tokens(p + b) == Tokens(p) + Tokens(b)
    ensures Tame(p) && Contained(b) && (Tame(p + b) <==> Tame(b))
    ensures Stray in Tokens(p) ==> '}' !in b
    decreases |p|
  {
    hide Next, Tidy, Tokens, Tame, Contained, Dangling, OneLine;
    if p == "" {
      Nothing();
      assert p + b == b;
    } else {
      var s := p + b;
      var k, t := Next(s).len, Next(s).toks;
      Unfold(s, s[k..]);
      LinesNotDangling(p, b);
      StaysInLine(p, b);
      var rest := p[k..];
      PrefixNext(p, b);
      assert s[k..] == rest + b;
      LineSplit(rest, b);
      TidyPrefix(p, b);
      Unfold(p, rest);
      assert t + (Tokens(rest) + Tokens(b)) == t + Tokens(rest) + Tokens(b);
      if Stray in t { StrayMeans(s); }
    }
  }

  lemma StaysInLine(p: string, b: string)
    requires p != "" && Lines(p) && Tidy(p + b)
    ensures Next(p + b).len <= |p|
  {
    assert (p + b)[|p| - 1] == '\n';
  }

  lemma TidyPrefix(a: string, w: string)
    requires a != "" && Tidy(a + w) && Next(a) == Next(a + w)
    ensures Tidy(a)
  {
    hide LitEnd;
    var k := Next(a).len;
    assert (a + w)[..k] == a[..k] && (a + w)[0] == a[0];
    if a[0] == '"' { LitPrefix(a, w, 1, '"'); }
    if a[0] == '[' { LitPrefix(a, w, 1, ']'); }
  }

  lemma StrayMeans(s: string)
    requires s != "" && Stray in Next(s).toks
    ensures s[0] == '{' && '}' !in s
  {}

  /** Joining at a line break. */
  lemma {:induction false} Join(a: string, z: string)
    requires Tame(a) && z != "" && z[0] == '\n' && (Stray in Tokens(a) ==> '}' !in z)
    ensures Tokens(a + z) == Tokens(a) + Tokens(z)
    ensures Tame(z) ==> Tame(a + z)
    decreases |a|
  {
    hide Next, Tidy, Tokens, Tame;
    if a == "" {
      Nothing();
      assert a + z == z;
    } else {
      var k, t := Next(a).len, Next(a).toks;
      var rest := a[k..];
      Unfold(a, rest);
      ExtendNext(a, z);
      assert (a + z)[k..] == rest + z;
      Join(rest, z);
      TidyExtend(a, z);
      Unfold(a + z, rest + z);
      assert t + (Tokens(rest) + Tokens(z)) == t + Tokens(rest) + Tokens(z);
    }
  }

  lemma Nothing()
    ensures Tokens("") == [] && Tame("")
  {}

  lemma TidyExtend(a: string, z: string)
    requires a != "" && Tidy(a) && Next(a + z) == Next(a)
    ensures Tidy(a + z)
  {
    hide LitEnd;
    var k := Next(a).len;
    assert (a + z)[..k] == a[..k] && (a + z)[0] == a[0];
    if a[0] == '"' { LitExtend(a, z, 1, '"'); }
    if a[0] == '[' { LitExtend(a, z, 1, ']'); }
  }

  // -------------------------------------------------------------- white space

  lemma SpaceNext(s: string)
    requires s != "" && IsPySpace(s[0])
    ensures Next(s) == Bite(if s[0] == '\n' then [NL] else [], 1) && Tidy(s)
  {
    hide Find, LitEnd;
    var c := s[0];
    if c !in " \t\r\n" {
      assert !IsLetter(c) && c != ':';
    }
  }

  function Breaks(w: string): seq<Tok> {
    if w == "" then [] else (if w[0] == '\n' then [NL] else []) + Breaks(w[1..])
  }

  /** White space reads as its line breaks, whatever follows. */
  lemma {:induction false} SpacePrefix(w: string, t: string)
    requires IsBlank(w)
    ensures Tokens(w + t) == Breaks(w) + Tokens(t)
    ensures Tame(t) <==> Tame(w + t)
    ensures Contained(t) <==> Contained(w + t)
  {
    hide Next, Tidy, Tokens, Tame, Contained;
    if w == "" {
      assert w + t == t;
    } else {
      SpaceNext(w + t);
      assert !Dangling(w + t);
      assert (w + t)[1..] == w[1..] + t;
      SpacePrefix(w[1..], t);
      Unfold(w + t, w[1..] + t);
    }
  }

  lemma SpaceTokens(w: string)
    requires IsBlank(w)
    ensures Tokens(w) == Breaks(w) && Tame(w)
  {
    SpacePrefix(w, "");
    assert w + "" == w;
  }

  lemma {:induction false} NoBreaks(w: string)
    requires OneLine(w)
    ensures Breaks(w) == []
  {
    if w != "" { NoBreaks(w[1..]); }
  }

  lemma {:induction false} BreaksSplit(v: string, w: string)
    ensures Breaks(v + w) == Breaks(v) + Breaks(w)
  {
    if v == "" {
      assert v + w == w;
    } else {
      assert (v + w)[1..] == v[1..] + w;
      BreaksSplit(v[1..], w);
      var first := if v[0] == '\n' then [NL] else [];
      assert Breaks(v) == first + Breaks(v[1..]);
      assert Breaks(v + w) == first + (Breaks(v[1..]) + Breaks(w));
    }
  }

  /** Anything longer than one character, other than a comment, ends in a
      character that is not white space. */
  lemma BiteEnd(s: string)
    requires s != "" && Tidy(s) && s[0] != '#' && Next(s).len > 1
    ensures !IsPySpace(s[Next(s).len - 1])
  {
    var k := Next(s).len;
    if s[0] != '"' && s[0] != '[' && !("::=" <= s) && s[0] != '{' {
      assert NameChar(s[1..][k - 2]);
    }
  }

  /** A comment that runs into trailing white space. */
  lemma CommentTail(a: string, w: string)
    requires a != "" && a[0] == '#' && IsBlank(w) && Next(a + w).len > |a|
    ensures Tokens(a) == [] && Tame(a) && Tokens(a + w) == Breaks(w)
  {
    hide Find;
    hide Tokens, Tame;
    var s := a + w;
    var k := Next(s).len;
    assert s[0] == a[0];
    FindPrefix(a, w, '\n');
    assert a[..|a|] == a && a[|a|..] == "";
    Unfold(a, "");
    Nothing();
    var m := k - |a|;
    assert s[k..] == w[m..] && w == w[..m] + w[m..];
    Unfold(s, w[m..]);
    forall i | 0 <= i < m ensures w[i] != '\n' { assert s[|a| + i] != '\n'; }
    NoBreaks(w[..m]);
    BreaksSplit(w[..m], w[m..]);
    SpaceTokens(w[m..]);
  }

  /** Trailing white space reads as its line breaks. */
  lemma {:induction false} SpaceSuffix(a: string, w: string)
    requires IsBlank(w) && Tame(a + w)
    ensures Tokens(a + w) == Tokens(a) + Breaks(w) && Tame(a)
    decreases |a|
  {
    hide Next, Tidy, Tokens, Tame;
    if a == "" {
      Nothing();
      SpaceTokens(w);
      assert a + w == w;
    } else {
      var s := a + w;
      var k := Next(s).len;
      Unfold(s, s[k..]);
      if k <= |a| {
        var t, rest := Next(s).toks, a[k..];
        PrefixNext(a, w);
        assert s[k..] == rest + w;
        SpaceSuffix(rest, w);
        TidyPrefix(a, w);
        Unfold(a, rest);
        assert t + (Tokens(rest) + Breaks(w)) == t + Tokens(rest) + Breaks(w);
      } else {
        assert s[k - 1] == w[k - 1 - |a|];
        if s[0] != '#' {
          BiteEnd(s);
          assert false;
        }
        CommentTail(a, w);
      }
    }
  }

  // ---------------------------------------------------------------- dangling

  /** A literal left open swallows whatever follows that cannot close it. */
  lemma StillDangling(a: string, w: string, z: string, close: char)
    requires a != "" && LitEnd(a + w, 1, close) == |a + w| && close !in z && close != '\\'
    ensures LitEnd(a + z, 1, close) == |a + z|
  {
    if LitEnd(a, 1, close) < |a| {
      LitExtend(a, w, 1, close);
      assert false;
    }
    var e := LitEnd(a + z, 1, close);
    if e < |a + z| {
      assert e < |a|;
      LitPrefix(a, z, 1, close);
      assert false;
    }
  }

  predicate EndsOpen(t: seq<Tok>) {
    t != [] && t[|t| - 1].kind in {Str, Class}
  }

  lemma DanglingTokens(s: string)
    requires Dangling(s)
    ensures EndsOpen(Tokens(s))
  {
    assert s[Next(s).len..] == "";
  }

  lemma CommentTame(a: string, w: string)
    requires a != "" && IsBlank(w) && Tidy(a + w) && Next(a + w).len > |a|
    ensures Tame(a + w)
  {
    hide Next, Tidy, Tokens, Tame;
    var k := Next(a + w).len;
    assert (a + w)[k..] == w[k - |a|..];
    SpaceTokens(w[k - |a|..]);
    Unfold(a + w, w[k - |a|..]);
  }

  /** If a text runs into its end inside an open literal, then moving its trailing
      white space behind a line break and a parenthesis only lengthens that
      literal: it is still the last token. */
  lemma {:induction false} SwallowsEnd(a: string, w: string, z: string)
    requires IsBlank(w) && Contained(a + w) && !Tame(a + w)
    requires z != "" && z[0] == '\n' && '"' !in z && ']' !in z && '}' !in z
    ensures EndsOpen(Tokens(a + z))
    decreases |a|
  {
    hide Next, Tidy, Tokens, Tame, Contained, LitEnd;
    if a == "" {
      assert a + w == w;
      SpaceTokens(w);
      assert false;
    }
    var s := a + w;
    var k := Next(s).len;
    Unfold(s, s[k..]);
    if Dangling(s) {
      assert s[0] == a[0] == (a + z)[0];
      StillDangling(a, w, z, if a[0] == '"' then '"' else ']');
      DanglingTokens(a + z);
    } else {
      if k > |a| {
        CommentTame(a, w);
        assert false;
      }
      var rest := a[k..];
      PrefixNext(a, w);
      TidyPrefix(a, w);
      ExtendNext(a, z);
      assert s[k..] == rest + w && (a + z)[k..] == rest + z;
      Unfold(a + z, rest + z);
      SwallowsEnd(rest, w, z);
    }
  }

  // ------------------------------------------------------------ source text

  /** The tokens' texts stand in the source in this order, without overlap. */
  ghost predicate Spelled(s: string, t: seq<Tok>)
    decreases |t|, 1
  {
    t == [] || exists k: nat :: SpelledAt(s, k, t)
  }

  ghost predicate SpelledAt(s: string, k: nat, t: seq<Tok>)
    requires t != []
    decreases |t|, 0
  {
    k <= |s| && t[0].text <= s[k..] && Spelled(s[k..][|t[0].text|..], t[1..])
  }

  /** A token is exactly the text that was read for it. */
  lemma BiteText(s: string)
    requires s != "" && Next(s).toks != []
    ensures Next(s).toks[0].text == s[..Next(s).len]
  {
    hide Find, LitEnd, NameLen;
  }

  lemma SpelledLater(s: string, k: nat, t: seq<Tok>)
    requires k <= |s| && Spelled(s[k..], t)
    ensures Spelled(s, t)
  {
    if t != [] {
      var j: nat :| SpelledAt(s[k..], j, t);
      assert s[k + j..] == s[k..][j..];
      assert SpelledAt(s, k + j, t);
    }
  }

  /** Nothing is made up, reordered or read twice: the tokens are disjoint pieces
      of the source, in order. */
  lemma {:induction false} TokensAreSource(s: string)
    ensures Spelled(s, Tokens(s))
    decreases |s|
  {
    hide Next;
    if s != "" {
      var k, t := Next(s).len, Next(s).toks;
      TokensAreSource(s[k..]);
      if t == [] {
        assert Tokens(s) == Tokens(s[k..]);
        SpelledLater(s, k, Tokens(s));
      } else {
        BiteText(s);
        assert Tokens(s)[1..] == Tokens(s[k..]) && Tokens(s)[0] == t[0];
        assert s[0..] == s;
        assert SpelledAt(s, 0, Tokens(s));
      }
    }
  }
}
