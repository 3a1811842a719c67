/** The hyphen fix, class by class. A class body is a sequence of units, single
    characters and escapes; the fix means to drop the escaped hyphens among them
    and to put one hyphen at the end. When it does. */
module GbnfUnits {
  import opened Prelude
  import opened Gbnf
  import opened GbnfTokens

  // ------------------------------------------------------------------- units

  function Units(s: string): seq<string>
    decreases |s|
  {
    if s == "" then []
    else if s[0] == '\\' && |s| >= 2 then [s[..2]] + Units(s[2..])
    else [s[..1]] + Units(s[1..])
  }

  const ESC: string := "\\-"
  const BACKSLASH: string := "\\\\"
  const LONE: string := "\\"
  const HYPHEN: string := "-"

  function Keep(u: seq<string>): seq<string> {
    if u == [] then [] else (if u[0] == ESC then [] else [u[0]]) + Keep(u[1..])
  }

  /** The units the fix means to leave: no escaped hyphen, and a hyphen at the end
      if there was one. */
  function Kept(u: seq<string>): seq<string> {
    if ESC !in u then u
    else
      var k := Keep(u);
      if k != [] && k[|k| - 1] == HYPHEN then k else k + [HYPHEN]
  }

  /** An escaped backslash directly before a hyphen: the second backslash and the
      hyphen look like an escaped hyphen. */
  predicate Straddles(u: seq<string>) {
    |u| >= 2 && ((u[0] == BACKSLASH && u[1] == HYPHEN) || Straddles(u[1..]))
  }

  function Size(u: seq<string>): nat {
    if u == [] then 0 else |u[0]| + Size(u[1..])
  }

  lemma {:induction false} UnitsSize(s: string)
    ensures Size(Units(s)) == |s|
    decreases |s|
  {
    if s != "" {
      var k := if s[0] == '\\' && |s| >= 2 then 2 else 1;
      UnitsSize(s[k..]);
      assert Units(s)[1..] == Units(s[k..]);
    }
  }

  /** A unit in front. */
  lemma UnitsCons(u: string, s: string)
    requires (|u| == 1 && u != LONE) || (|u| == 2 && u[0] == '\\')
    ensures Units(u + s) == [u] + Units(s)
  {
    assert (u + s)[..|u|] == u && (u + s)[|u|..] == s && (u + s)[0] == u[0];
  }

  lemma {:induction false} KeepSize(u: seq<string>)
    ensures Size(Keep(u)) <= Size(u)
    ensures ESC in u ==> Size(Keep(u)) <= Size(u) - 2
    ensures ESC !in u ==> Keep(u) == u
  {
    if u != [] {
      assert u == [u[0]] + u[1..];
      KeepSize(u[1..]);
      if u[0] != ESC {
        assert ([u[0]] + Keep(u[1..]))[1..] == Keep(u[1..]);
      } else {
        assert [] + Keep(u[1..]) == Keep(u[1..]);
      }
    }
  }

  lemma KeepCons(x: string, u: seq<string>)
    ensures Keep([x] + u) == if x == ESC then Keep(u) else [x] + Keep(u)
    ensures Size([x] + u) == |x| + Size(u)
    ensures Straddles([x] + u) <==> (u != [] && x == BACKSLASH && u[0] == HYPHEN) || Straddles(u)
  {
    assert ([x] + u)[1..] == u;
  }

  // ------------------------------------------------------- dropping the escapes

  lemma UnescapedCons(c: char, r: string)
    ensures Unescaped([c] + r) == if c == '\\' && r != "" && r[0] == '-' then Unescaped(r[1..]) else [c] + Unescaped(r)
  {
    var s := [c] + r;
    assert s[1..] == r;
    if r != "" {
      assert s[..2] == [c, r[0]] && s[2..] == r[1..];
    }
  }

  /** The first unit of a text that does not begin with an escaped backslash and a
      hyphen. */
  lemma UnescapedUnit(u: string, r: string)
    requires (|u| == 1 && (u != LONE || r == "")) || (|u| == 2 && u[0] == '\\')
    requires !(u == BACKSLASH && r != "" && r[0] == '-')
    ensures Unescaped(u + r) == if u == ESC then Unescaped(r) else u + Unescaped(r)
  {
    hide Unescaped;
    if |u| == 1 {
      assert u == [u[0]];
      UnescapedCons(u[0], r);
    } else {
      assert u == [u[0], u[1]];
      UnescapedPair(u[0], u[1], r);
    }
  }

  lemma UnescapedPair(a: char, b: char, r: string)
    requires a == '\\' && !(b == '\\' && r != "" && r[0] == '-')
    ensures Unescaped([a, b] + r) == if b == '-' then Unescaped(r) else [a, b] + Unescaped(r)
  {
    hide Unescaped;
    var t := [b] + r;
    assert [a, b] + r == [a] + t;
    assert t[0] == b && t[1..] == r;
    UnescapedCons(a, t);
    UnescapedCons(b, r);
    assert [a] + ([b] + Unescaped(r)) == [a, b] + Unescaped(r);
  }

  lemma UnescapedStraddle(r: string)
    ensures Unescaped(BACKSLASH + ("-" + r)) == "\\" + Unescaped(r)
  {
    var t := "-" + r;
    assert BACKSLASH + t == ['\\'] + (['\\'] + t);
    UnescapedCons('\\', ['\\'] + t);
    UnescapedCons('\\', t);
    assert t[1..] == r;
  }

  /** Without straddling, dropping the escaped hyphens drops exactly those units;
      with it, more is lost. */
  lemma {:induction false} UnescapedUnits(s: string)
    ensures !Straddles(Units(s)) ==> Units(Unescaped(s)) == Keep(Units(s))
    ensures Straddles(Units(s)) ==> |Unescaped(s)| <= Size(Keep(Units(s))) - 2
    ensures |Unescaped(s)| <= Size(Keep(Units(s)))
    decreases |s|
  {
    hide Units, Unescaped, Keep, Straddles, Size;
    if s == "" {
      NoUnits();
    } else {
      var k := if s[0] == '\\' && |s| >= 2 then 2 else 1;
      var u, r := s[..k], s[k..];
      assert s == u + r;
      FirstUnit(s);
      if u == BACKSLASH && r != "" && r[0] == '-' {
        var q := r[1..];
        assert r == "-" + q;
        UnescapedStraddle(q);
        UnescapedUnits(q);
        UnitsCons("-", q);
        KeepCons(HYPHEN, Units(q));
        KeepCons(BACKSLASH, [HYPHEN] + Units(q));
        KeepCons(HYPHEN, Keep(Units(q)));
        KeepCons(BACKSLASH, [HYPHEN] + Keep(Units(q)));
      } else {
        UnescapedUnits(r);
        UnescapedUnit(u, r);
        KeepCons(u, Units(r));
        KeepCons(u, Keep(Units(r)));
        NoHyphenFirst(r);
        if u != ESC {
          if u == LONE { NoUnits(); } else { UnitsCons(u, Unescaped(r)); }
        }
      }
    }
  }

  lemma NoUnits()
    ensures Units("") == [] && Unescaped("") == "" && Keep([]) == [] && !Straddles([]) && Size([]) == 0
    ensures Units(LONE + "") == [LONE] && Keep([LONE]) == [LONE]
  {
    assert LONE + "" == LONE && LONE[1..] == "";
    assert [LONE][1..] == [];
  }

  lemma FirstUnit(s: string)
    requires s != ""
    ensures var k := if s[0] == '\\' && |s| >= 2 then 2 else 1; Units(s) == [s[..k]] + Units(s[k..])
  {}

  lemma NoHyphenFirst(r: string)
    ensures Units(r) != [] <==> r != ""
    ensures r != "" ==> (Units(r)[0] == HYPHEN <==> r[0] == '-')
  {
    if r != "" { assert Units(r)[0][0] == r[0]; }
  }

  // --------------------------------------------------------------- the mending

  lemma {:induction false} NothingEscaped(s: string)
    requires !HasEscapedHyphen(s)
    ensures Unescaped(s) == s
  {
    if |s| >= 2 {
      assert s[..2] != ESC by {
        assert s[..2] == [s[0], s[1]];
        assert !(s[0] == '\\' && s[1] == '-');
      }
      assert !HasEscapedHyphen(s[1..]) by {
        forall i | 0 <= i < |s[1..]| - 1 ensures !(s[1..][i] == '\\' && s[1..][i + 1] == '-') {
          assert !(s[i + 1] == '\\' && s[i + 2] == '-');
        }
      }
      NothingEscaped(s[1..]);
    }
  }

  lemma {:induction false} UnescapedShrinks(s: string)
    requires HasEscapedHyphen(s)
    ensures |Unescaped(s)| <= |s| - 2
  {
    if s[..2] == ESC {
      UnescapedNoLonger(s[2..]);
    } else {
      var i :| 0 <= i < |s| - 1 && s[i] == '\\' && s[i + 1] == '-';
      assert s[..2] == [s[0], s[1]];
      assert s[1..][i - 1] == '\\' && s[1..][i] == '-';
      UnescapedShrinks(s[1..]);
    }
  }

  lemma {:induction false} UnescapedNoLonger(s: string)
    ensures |Unescaped(s)| <= |s|
  {
    if |s| >= 2 {
      if s[..2] == ESC { UnescapedNoLonger(s[2..]); } else { UnescapedNoLonger(s[1..]); }
    }
  }

  /** No backslash is left without a partner, as in every class that is closed. */
  predicate Whole(s: string) { LONE !in Units(s) }

  lemma {:induction false} UnitsSnoc(s: string)
    requires Whole(s)
    ensures Units(s + "-") == Units(s) + [HYPHEN]
    decreases |s|
  {
    if s == "" {
      assert s + "-" == "-" && "-"[1..] == "" && "-"[..1] == "-";
    } else {
      var k := if s[0] == '\\' && |s| >= 2 then 2 else 1;
      assert Units(s) == [s[..k]] + Units(s[k..]);
      UnitsSnoc(s[k..]);
      assert s + "-" == s[..k] + (s[k..] + "-");
      assert s[..k] in Units(s);
      UnitsCons(s[..k], s[k..] + "-");
    }
  }

  lemma {:induction false} LastUnit(s: string)
    requires s != "" && ESC !in Units(s)
    ensures Units(s) != [] && (s[|s| - 1] == '-' <==> Units(s)[|Units(s)| - 1] == HYPHEN)
    decreases |s|
  {
    var k := if s[0] == '\\' && |s| >= 2 then 2 else 1;
    var u, r := s[..k], s[k..];
    assert Units(s) == [u] + Units(r);
    if r != "" {
      LastUnit(r);
      assert s[|s| - 1] == r[|r| - 1];
    } else {
      assert Units(r) == [];
      assert s == u;
      assert k == 2 ==> u == [u[0], u[1]];
    }
  }

  lemma {:induction false} KeepDrops(u: seq<string>)
    ensures ESC !in Keep(u) && (forall x :: x in Keep(u) ==> x in u)
  {
    if u != [] { KeepDrops(u[1..]); }
  }

  lemma MendKeeps(s: string)
    requires Whole(s) && !Straddles(Units(s))
    ensures Units(Mended(s)) == Kept(Units(s))
  {
    hide Units, Unescaped, Keep, Size, HasEscapedHyphen;
    UnescapedUnits(s);
    UnitsSize(s);
    UnitsSize(Unescaped(s));
    KeepSize(Units(s));
    KeepDrops(Units(s));
    if HasEscapedHyphen(s) {
      UnescapedShrinks(s);
      assert ESC in Units(s);
      var r := Unescaped(s);
      if r == "" {
        NoUnits();
      } else {
        LastUnit(r);
      }
      UnitsSnoc(r);
    } else {
      NothingEscaped(s);
    }
  }

  lemma MendLoses(s: string)
    requires Straddles(Units(s))
    ensures |Mended(s)| < Size(Kept(Units(s))) && HasEscapedHyphen(s)
  {
    hide Units, Unescaped, Keep, Size, HasEscapedHyphen;
    UnescapedUnits(s);
    UnitsSize(s);
    KeepSize(Units(s));
    if !HasEscapedHyphen(s) { NothingEscaped(s); }
    KeptSize(Units(s));
  }

  lemma KeptSize(u: seq<string>)
    ensures Size(Kept(u)) >= Size(Keep(u))
  {
    KeepSize(u);
    var k := Keep(u);
    SizeSnoc(k);
  }

  lemma {:induction false} SizeSnoc(u: seq<string>)
    ensures Size(u + [HYPHEN]) == Size(u) + 1
  {
    if u == [] {
      assert u + [HYPHEN] == [HYPHEN] && [HYPHEN][1..] == [];
    } else {
      assert (u + [HYPHEN])[1..] == u[1..] + [HYPHEN];
      SizeSnoc(u[1..]);
    }
  }

  /** A class body is mended as meant if and only if it does not straddle. */
  lemma MendIsExact(s: string)
    requires Whole(s)
    ensures Units(Mended(s)) == Kept(Units(s)) <==> !Straddles(Units(s))
  {
    if Straddles(Units(s)) {
      MendLoses(s);
      UnitsSize(Mended(s));
    } else {
      MendKeeps(s);
    }
  }

  // ------------------------------------------------------------ the whole text

  /** The bodies of the classes the fixer reads. */
  function Bodies(s: string): seq<string>
    decreases |s|
  {
    if s == "" then []
    else (if s[0] == '[' then [s[1..LitEnd(s, 1, ']')]] else []) + Bodies(s[FixNext(s).len..])
  }

  /** Every class the fixer reads is closed. */
  predicate ClassesClosed(s: string)
    decreases |s|
  {
    s == "" || ((s[0] == '[' ==> LitEnd(s, 1, ']') < |s|) && ClassesClosed(s[FixNext(s).len..]))
  }

  predicate SomeStraddle(bodies: seq<string>) {
    bodies != [] && (Straddles(Units(bodies[0])) || SomeStraddle(bodies[1..]))
  }

  /** Class by class, the second list holds the units that are meant to be kept of
      the first. */
  predicate AllKept(bodies: seq<string>, fixed: seq<string>) {
    if bodies == [] then fixed == []
    else fixed != [] && Units(fixed[0]) == Kept(Units(bodies[0])) && AllKept(bodies[1..], fixed[1..])
  }

  /** The body of a closed class is whole and holds no bare bracket. */
  lemma {:induction false} ClassUnits(s: string, j: nat)
    requires 1 <= j <= |s| && LitEnd(s, j, ']') < |s|
    ensures var u := Units(s[j..LitEnd(s, j, ']')]); LONE !in u && "]" !in u
    decreases |s| - j
  {
    hide Units;
    var e := LitEnd(s, j, ']');
    if j == e {
      NoUnits();
      assert s[j..e] == "";
    } else {
      var k := if s[j] == '\\' then 2 else 1;
      assert e == LitEnd(s, j + k, ']');
      ClassUnits(s, j + k);
      var u, rest := s[j..j + k], s[j + k..e];
      assert s[j..e] == u + rest && u[0] == s[j];
      assert k == 1 ==> u == [s[j]];
      UnitsCons(u, rest);
    }
  }

  /** And such a body is read back whole. */
  lemma {:induction false} ReadBack(pre: string, x: string, t: string)
    requires LONE !in Units(x) && "]" !in Units(x)
    ensures LitEnd(pre + x + "]" + t, |pre|, ']') == |pre| + |x|
    decreases |x|
  {
    var s := pre + x + "]" + t;
    if x == "" {
      assert s[|pre|] == ']';
    } else {
      var k := if x[0] == '\\' && |x| >= 2 then 2 else 1;
      assert Units(x) == [x[..k]] + Units(x[k..]);
      assert x[..k] in Units(x);
      assert s[|pre|] == x[0];
      ReadBack(pre + x[..k], x[k..], t);
      assert pre + x[..k] + x[k..] + "]" + t == s;
      assert k == 1 ==> x[..1] == [x[0]];
    }
  }

  lemma {:induction false} StopsAt(s: string, j: nat, p: nat)
    requires j <= p < |s| && s[p] == ']' && (p == j || s[p - 1] != '\\')
    ensures LitEnd(s, j, ']') <= p
    decreases |s| - j
  {
    if j < p {
      if s[j] == '\\' {
        StopsAt(s, j + 2, p);
      } else if s[j] != ']' {
        StopsAt(s, j + 1, p);
      }
    }
  }

  lemma MendedEnds(b: string)
    requires HasEscapedHyphen(b)
    ensures Mended(b) != "" && Mended(b)[|Mended(b)| - 1] == '-'
  {
    hide Unescaped, HasEscapedHyphen;
  }

  /** What is not a class is written as it is, and read back as it is. */
  lemma RereadPlain(s: string)
    requires s != "" && s[0] != '['
    ensures var f := FixNext(s);
            f.text == s[..f.len] && FixNext(f.text + Fixed(s[f.len..])) == f
  {
    hide LitEnd, Find;
    var f := FixNext(s);
    var rest := Fixed(s[f.len..]);
    var t := f.text + rest;
    assert t[0] == s[0] && t[..f.len] == f.text;
    if s[0] == '"' {
      RereadLiteral(s);
    } else if s[0] == '#' {
      var n := Find(s, '\n');
      if n < |s| {
        assert s[n..][0] == '\n';
        BreakFirst(s[n..]);
      } else {
        assert s[n..] == "" && rest == "";
      }
      FindUnique(t, '\n', n);
    }
  }

  lemma BreakFirst(s: string)
    requires s != "" && s[0] == '\n'
    ensures Fixed(s) != "" && Fixed(s)[0] == '\n'
  {}

  lemma RereadLiteral(s: string)
    requires s != "" && s[0] == '"'
    ensures var f := FixNext(s); FixNext(s[..f.len] + Fixed(s[f.len..])) == f
  {
    var e := LitEnd(s, 1, '"');
    var k := Min(e + 1, |s|);
    var a, rest := s[..k], Fixed(s[k..]);
    assert a[0] == '"';
    if e < |s| {
      assert a + s[k..] == s;
      LitPrefix(a, s[k..], 1, '"');
      LitExtend(a, rest, 1, '"');
    } else {
      assert s[k..] == "" && a == s && a + rest == s;
    }
    assert (a + rest)[..k] == a;
  }

  lemma BodiesPlain(s: string)
    requires s != "" && s[0] != '['
    ensures var f := FixNext(s);
            Bodies(s) == Bodies(s[f.len..]) && Bodies(Fixed(s)) == Bodies(Fixed(s[f.len..]))
  {
    hide LitEnd;
    var f := FixNext(s);
    var rest := Fixed(s[f.len..]);
    RereadPlain(s);
    assert Fixed(s) == f.text + rest;
    assert (f.text + rest)[f.len..] == rest && (f.text + rest)[0] == s[0];
  }

  lemma ClassBite(s: string, e: nat)
    requires s != "" && s[0] == '[' && LitEnd(s, 1, ']') == e < |s|
    ensures FixNext(s) == Fix("[" + Mended(s[1..e]) + "]", e + 1)
  {
    hide Mended, LitEnd;
  }

  /** What the fixer reads of a text that begins with a class. */
  lemma ReadClass(s: string, e: nat)
    requires s != "" && s[0] == '[' && LitEnd(s, 1, ']') == e < |s|
    ensures FixNext(s).len == e + 1 && Bodies(s) == [s[1..e]] + Bodies(s[e + 1..])
    ensures Fixed(s) == "[" + Mended(s[1..e]) + "]" + Fixed(s[e + 1..])
  {
    hide Mended, LitEnd, FixNext;
    ClassBite(s, e);
  }

  lemma RereadKept(m: string, t: string)
    requires LONE !in Units(m) && "]" !in Units(m)
    ensures Bodies("[" + m + "]" + t) == [m] + Bodies(t)
  {
    hide LitEnd, Bodies, Units, Fixed, FixNext, Mended;
    var x := "[" + m + "]" + t;
    ReadBack("[", m, t);
    assert x[0] == '[';
    ReadClass(x, 1 + |m|);
    assert x[1..1 + |m|] == m && x[2 + |m|..] == t;
  }

  lemma RereadLost(m: string, t: string)
    requires m != "" && m[|m| - 1] == '-'
    ensures var x := Bodies("[" + m + "]" + t); x != [] && |x[0]| <= |m|
  {
    hide LitEnd, Bodies;
    var x := "[" + m + "]" + t;
    assert x[0] == '[' && x[1 + |m|] == ']' && x[|m|] == m[|m| - 1];
    StopsAt(x, 1, 1 + |m|);
    ReadClass(x, LitEnd(x, 1, ']'));
  }

  lemma BodiesClass(s: string)
    requires s != "" && s[0] == '[' && LitEnd(s, 1, ']') < |s|
    ensures var b, rest := s[1..LitEnd(s, 1, ']')], s[FixNext(s).len..];
            && Bodies(s) == [b] + Bodies(rest) && Whole(b)
            && (!Straddles(Units(b)) ==> Bodies(Fixed(s)) == [Mended(b)] + Bodies(Fixed(rest)))
            && (Straddles(Units(b)) ==> Bodies(Fixed(s)) != [] && |Bodies(Fixed(s))[0]| <= |Mended(b)|)
  {
    hide Mended, Units, Straddles, LitEnd, Bodies, Fixed, FixNext;
    var e := LitEnd(s, 1, ']');
    var b := s[1..e];
    ClassUnits(s, 1);
    ReadClass(s, e);
    var m, t := Mended(b), Fixed(s[e + 1..]);
    if Straddles(Units(b)) {
      MendLoses(b);
      MendedEnds(b);
      RereadLost(m, t);
    } else {
      MendKeeps(b);
      KeptMembers(Units(b));
      RereadKept(m, t);
    }
  }

  lemma KeptMembers(u: seq<string>)
    ensures forall x :: x in Kept(u) ==> x in u || x == HYPHEN
  {
    KeepDrops(u);
  }

  lemma AllKeptCons(b: string, bs: seq<string>, f: string, fs: seq<string>)
    ensures AllKept([b] + bs, [f] + fs) <==> Units(f) == Kept(Units(b)) && AllKept(bs, fs)
    ensures SomeStraddle([b] + bs) <==> Straddles(Units(b)) || SomeStraddle(bs)
  {
    assert ([b] + bs)[1..] == bs && ([f] + fs)[1..] == fs;
  }

  /** For every text whose classes are closed: read again after the fix, its
      classes hold exactly the units that were meant to be kept, class by class,
      if and only if no class has an escaped backslash directly before a hyphen. */
  lemma {:induction false} FixKeepsExactly(s: string)
    requires ClassesClosed(s)
    ensures AllKept(Bodies(s), Bodies(Fixed(s))) <==> !SomeStraddle(Bodies(s))
    decreases |s|
  {
    hide Bodies, Fixed, FixNext, LitEnd, Units, Kept, Straddles, AllKept, SomeStraddle, Mended;
    if s == "" {
      NoBodies();
    } else {
      var rest := s[FixNext(s).len..];
      FixKeepsExactly(rest);
      if s[0] != '[' {
        BodiesPlain(s);
      } else {
        BodiesClass(s);
        var b := s[1..LitEnd(s, 1, ']')];
        var fs := Bodies(Fixed(s));
        assert fs == [fs[0]] + fs[1..];
        AllKeptCons(b, Bodies(rest), fs[0], fs[1..]);
        MendIsExact(b);
        if Straddles(Units(b)) {
          MendLoses(b);
          UnitsSize(fs[0]);
        } else {
          assert fs[0] == Mended(b) && fs[1..] == Bodies(Fixed(rest));
        }
      }
    }
  }

  lemma NoBodies()
    ensures Bodies("") == [] && Fixed("") == "" && AllKept([], []) && !SomeStraddle([])
  {}

  // ------------------------------------------------------ when nothing changes

  /** No class the fixer reads contains an escaped hyphen. */
  predicate HyphenFree(s: string)
    decreases |s|
  {
    s == "" ||
    ((s[0] == '[' ==> !HasEscapedHyphen(s[1..LitEnd(s, 1, ']')])) && HyphenFree(s[FixNext(s).len..]))
  }

  lemma MendedLength(b: string)
    ensures if HasEscapedHyphen(b) then |Mended(b)| < |b| else Mended(b) == b
  {
    hide Unescaped, HasEscapedHyphen;
    if HasEscapedHyphen(b) { UnescapedShrinks(b); }
  }

  lemma FixNextExact(s: string)
    requires s != "" && (s[0] == '[' ==> LitEnd(s, 1, ']') < |s|)
    ensures var f := FixNext(s);
            if s[0] == '[' && HasEscapedHyphen(s[1..LitEnd(s, 1, ']')]) then |f.text| < f.len else f.text == s[..f.len]
  {
    hide LitEnd, Mended, HasEscapedHyphen;
    if s[0] == '[' {
      var j := LitEnd(s, 1, ']');
      MendedLength(s[1..j]);
      assert s[..j + 1] == "[" + s[1..j] + "]";
    }
  }

  /** With every class closed, the fix changes nothing exactly when no class has
      an escaped hyphen. */
  lemma {:induction false} FixIsExact(s: string)
    requires ClassesClosed(s)
    ensures Fixed(s) == s <==> HyphenFree(s)
    ensures |Fixed(s)| <= |s| && (!HyphenFree(s) ==> |Fixed(s)| < |s|)
    decreases |s|
  {
    hide LitEnd, HasEscapedHyphen, FixNext;
    if s != "" {
      var f := FixNext(s);
      FixIsExact(s[f.len..]);
      FixNextExact(s);
      assert s == s[..f.len] + s[f.len..];
    }
  }
}
