/** The set a character class stands for, and when the hyphen fix keeps it. An
    escaped hyphen is taken to mean a hyphen, as its author does. */
module GbnfClasses {
  import opened Prelude
  import opened Gbnf
  import opened GbnfUnits

  // -------------------------------------------------------------- characters

  function HexDigits(u: string): nat {
    if u == "\\x" then 2 else if u == "\\u" then 4 else if u == "\\U" then 8 else 0
  }

  predicate IsHex(u: string) {
    |u| == 1 && (IsDigit(u[0]) || 'a' <= u[0] <= 'f' || 'A' <= u[0] <= 'F')
  }

  predicate HexAhead(u: seq<string>, n: nat) {
    n <= |u| && forall i :: 0 <= i < n ==> IsHex(u[i])
  }

  function Joined(u: seq<string>): string {
    if u == [] then "" else u[0] + Joined(u[1..])
  }

  /** The characters of a class body as they are spelled: a unit, or a numeric
      escape with its digits. */
  function Chars(u: seq<string>): seq<string>
    decreases |u|
  {
    if u == [] then []
    else
      var n := HexDigits(u[0]);
      if HexAhead(u[1..], n) then [Joined(u[..n + 1])] + Chars(u[n + 1..]) else [u[0]] + Chars(u[1..])
  }

  /** Every numeric escape has its digits. */
  predicate HexWhole(u: seq<string>)
    decreases |u|
  {
    u == [] || (var n := HexDigits(u[0]); HexAhead(u[1..], n) && HexWhole(u[n + 1..]))
  }

  lemma JoinedOne(x: string)
    ensures Joined([x]) == x
  {
    assert [x][1..] == [];
  }

  lemma {:induction false} JoinedLong(u: seq<string>, n: nat)
    requires |u| == n && HexAhead(u, n)
    ensures |Joined(u)| == n
  {
    if u != [] {
      forall i | 0 <= i < n - 1 ensures IsHex(u[1..][i]) { assert IsHex(u[i + 1]); }
      JoinedLong(u[1..], n - 1);
    }
  }

  /** One character in front. */
  lemma CharsCons(g: seq<string>, u: seq<string>)
    requires g != [] && |g| == HexDigits(g[0]) + 1 && HexAhead(g[1..], |g| - 1)
    ensures Chars(g + u) == [Joined(g)] + Chars(u) && (HexWhole(g + u) <==> HexWhole(u))
  {
    var n := HexDigits(g[0]);
    var w := g + u;
    assert w[0] == g[0] && w[1..] == g[1..] + u && w[..n + 1] == g && w[n + 1..] == u;
    forall i | 0 <= i < n ensures IsHex(w[1..][i]) { assert w[1..][i] == g[1..][i]; }
  }

  lemma {:induction false} KeepSplit(a: seq<string>, b: seq<string>)
    ensures Keep(a + b) == Keep(a) + Keep(b)
  {
    if a == [] {
      assert a + b == b;
    } else {
      assert (a + b)[1..] == a[1..] + b;
      KeepSplit(a[1..], b);
    }
  }

  lemma {:induction false} KeepAll(u: seq<string>)
    requires ESC !in u
    ensures Keep(u) == u
  {
    if u != [] {
      assert u == [u[0]] + u[1..];
      KeepAll(u[1..]);
    }
  }

  /** A numeric escape holds no escaped hyphen and does not read as one. */
  lemma GroupIsPlain(g: seq<string>)
    requires g != [] && |g| == HexDigits(g[0]) + 1 && HexAhead(g[1..], |g| - 1) && g[0] != ESC
    ensures ESC !in g && Joined(g) != ESC && (Joined(g) == HYPHEN <==> g == [HYPHEN])
  {
    forall i | 1 <= i < |g| ensures g[i] != ESC { assert IsHex(g[1..][i - 1]); }
    JoinedLong(g[1..], |g| - 1);
    if |g| == 1 {
      assert g == [g[0]];
      JoinedOne(g[0]);
    }
  }

  /** Dropping escaped hyphens and grouping commute. */
  lemma {:induction false} CharsKeep(u: seq<string>)
    requires HexWhole(u)
    ensures Chars(Keep(u)) == Keep(Chars(u)) && HexWhole(Keep(u))
    ensures ESC in Chars(u) <==> ESC in u
    decreases |u|
  {
    hide Chars, HexWhole, Keep;
    if u == [] {
      NoChars();
    } else {
      WholeFirst(u);
      var n := HexDigits(u[0]);
      var g, r := u[..n + 1], u[n + 1..];
      assert u == g + r && g[0] == u[0] && g[1..] == u[1..n + 1];
      SamePrefixHex(u, n);
      CharsKeep(r);
      CharsCons(g, r);
      KeepSplit(g, r);
      KeepCons(Joined(g), Chars(r));
      if u[0] == ESC {
        assert g == [ESC];
        JoinedOne(ESC);
        KeepOne();
        assert [] + Keep(r) == Keep(r);
      } else {
        GroupIsPlain(g);
        KeepAll(g);
        CharsCons(g, Keep(r));
      }
    }
  }

  lemma NoChars()
    ensures Chars([]) == [] && HexWhole([]) && Keep([]) == []
  {}

  lemma KeepOne()
    ensures Keep([ESC]) == []
  {
    assert [ESC][1..] == [];
  }

  lemma WholeFirst(u: seq<string>)
    requires u != [] && HexWhole(u)
    ensures HexAhead(u[1..], HexDigits(u[0])) && HexDigits(u[0]) < |u| && HexWhole(u[HexDigits(u[0]) + 1..])
  {}

  /** A hyphen at the end is a character of its own. */
  lemma {:induction false} CharsLast(u: seq<string>)
    requires HexWhole(u)
    ensures Chars(u + [HYPHEN]) == Chars(u) + [HYPHEN]
    ensures u != [] ==> Chars(u) != [] && (Chars(u)[|Chars(u)| - 1] == HYPHEN <==> u[|u| - 1] == HYPHEN)
    decreases |u|
  {
    hide Chars, HexWhole, Joined, HexAhead, HexDigits;
    if u == [] {
      NoChars();
      HyphenIsPlain();
      CharsCons([HYPHEN], []);
      JoinedOne(HYPHEN);
      assert [HYPHEN] + [] == [HYPHEN] && u + [HYPHEN] == [HYPHEN];
    } else {
      WholeFirst(u);
      var n := HexDigits(u[0]);
      var g, r := u[..n + 1], u[n + 1..];
      assert u == g + r && g[0] == u[0] && g[1..] == u[1..n + 1];
      SamePrefixHex(u, n);
      CharsLast(r);
      CharsCons(g, r);
      CharsCons(g, r + [HYPHEN]);
      assert u + [HYPHEN] == g + (r + [HYPHEN]);
      var x, cs := Joined(g), Chars(r);
      assert Chars(u) == [x] + cs;
      if r == [] {
        NoChars();
        assert u == g && cs == [];
        LastOfGroup(g);
      } else {
        assert u[|u| - 1] == r[|r| - 1];
        assert ([x] + cs)[|cs|] == cs[|cs| - 1];
      }
    }
  }

  lemma HyphenIsPlain()
    ensures HexDigits(HYPHEN) == 0 && HexAhead([HYPHEN][1..], 0)
  {}

  lemma SamePrefixHex(u: seq<string>, n: nat)
    requires u != [] && n < |u| && HexAhead(u[1..], n)
    ensures HexAhead(u[..n + 1][1..], n)
  {
    var g := u[..n + 1][1..];
    forall i | 0 <= i < n ensures IsHex(g[i]) { assert IsHex(u[1..][i]); }
  }

  lemma LastOfGroup(g: seq<string>)
    requires g != [] && |g| == HexDigits(g[0]) + 1 && HexAhead(g[1..], |g| - 1)
    ensures Joined(g) == HYPHEN <==> g[|g| - 1] == HYPHEN
  {
    if |g| == 1 {
      assert g == [g[0]];
      JoinedOne(g[0]);
    } else {
      JoinedLong(g[1..], |g| - 1);
      assert IsHex(g[1..][|g| - 2]);
    }
  }

  /** What the fix keeps of the units it keeps of the characters. */
  lemma CharsKept(u: seq<string>)
    requires HexWhole(u)
    ensures Chars(Kept(u)) == Kept(Chars(u))
  {
    hide Chars, HexWhole, Keep;
    CharsKeep(u);
    CharsLast(Keep(u));
    if Keep(u) == [] { NoChars(); }
  }

  // ------------------------------------------------------------------ meaning

  datatype Item = One(c: string) | Span(lo: string, hi: string)

  /** A character, a hyphen and another character are a range. */
  function Items(ch: seq<string>): seq<Item> {
    if ch == [] then []
    else if |ch| >= 3 && ch[1] == HYPHEN then [Span(ch[0], ch[2])] + Items(ch[3..])
    else [One(ch[0])] + Items(ch[1..])
  }

  predicate Negated(ch: seq<string>) { ch != [] && ch[0] == "^" }

  function Inner(ch: seq<string>): seq<string> { if Negated(ch) then ch[1..] else ch }

  /** The code point of each spelled character; an escaped hyphen is a hyphen. */
  type Values = v: string -> int | v("\\-") == v("-") witness ((x: string) => 0)

  predicate Holds(i: Item, v: Values, c: int) {
    match i
    case One(x) => c == v(x)
    case Span(lo, hi) => v(lo) <= c <= v(hi)
  }

  predicate In(items: seq<Item>, v: Values, c: int) {
    exists i :: 0 <= i < |items| && Holds(items[i], v, c)
  }

  lemma InConcat(a: seq<Item>, b: seq<Item>, v: Values, c: int)
    ensures In(a + b, v, c) <==> In(a, v, c) || In(b, v, c)
  {
    var ab := a + b;
    if In(a, v, c) {
      var i :| 0 <= i < |a| && Holds(a[i], v, c);
      assert Holds(ab[i], v, c);
    }
    if In(b, v, c) {
      var i :| 0 <= i < |b| && Holds(b[i], v, c);
      assert Holds(ab[|a| + i], v, c);
    }
  }

  lemma InOne(x: Item, v: Values, c: int)
    ensures In([x], v, c) <==> Holds(x, v, c)
  {
    if Holds(x, v, c) { assert Holds([x][0], v, c); }
  }

  function Ranges(items: seq<Item>): seq<Item> {
    if items == [] then [] else (if items[0].Span? then [items[0]] else []) + Ranges(items[1..])
  }

  /** An escaped hyphen is an end of a range. */
  predicate EscapedEnd(ch: seq<string>) {
    ch != [] &&
    (if |ch| >= 3 && ch[1] == HYPHEN then ch[0] == ESC || ch[2] == ESC || EscapedEnd(ch[3..])
     else EscapedEnd(ch[1..]))
  }

  // ------------------------------------------------------------------- ranges

  /** Items other than the escaped hyphens. */
  function Others(items: seq<Item>): seq<Item> {
    if items == [] then [] else (if items[0] == One(ESC) then [] else [items[0]]) + Others(items[1..])
  }

  lemma ItemsOne(x: string, ch: seq<string>)
    requires !(|ch| >= 2 && ch[0] == HYPHEN)
    ensures Items([x] + ch) == [One(x)] + Items(ch)
    ensures EscapedEnd([x] + ch) <==> EscapedEnd(ch)
  {
    assert ([x] + ch)[1..] == ch;
  }

  lemma ItemsSpan(x: string, y: string, ch: seq<string>)
    ensures Items([x, HYPHEN, y] + ch) == [Span(x, y)] + Items(ch)
    ensures EscapedEnd([x, HYPHEN, y] + ch) <==> x == ESC || y == ESC || EscapedEnd(ch)
  {
    var w := [x, HYPHEN, y] + ch;
    assert w[3..] == ch;
  }

  lemma OthersCons(x: Item, items: seq<Item>)
    ensures Others([x] + items) == (if x == One(ESC) then Others(items) else [x] + Others(items))
    ensures Ranges([x] + items) == (if x.Span? then [x] + Ranges(items) else Ranges(items))
  {
    assert ([x] + items)[1..] == items;
  }

  /** After escaped hyphens that end no range, a hyphen can only come last. */
  lemma {:induction false} HyphenLast(ch: seq<string>)
    requires !EscapedEnd(ch) && ch != [] && ch[0] == ESC && Keep(ch) != [] && Keep(ch)[0] == HYPHEN
    ensures |Keep(ch)| == 1
  {
    var r := ch[1..];
    assert ch == [ESC] + r;
    KeepCons(ESC, r);
    assert r != [] by { NothingKept(); }
    if r[0] == ESC {
      assert !EscapedEnd(r);
      HyphenLast(r);
    } else {
      assert r == [r[0]] + r[1..];
      KeepCons(r[0], r[1..]);
      assert r[0] == HYPHEN;
      assert |ch| < 3;
      assert r[1..] == [];
      NothingKept();
    }
  }

  lemma NothingKept()
    ensures Keep([]) == [] && Items([]) == [] && Others([]) == [] && Ranges([]) == []
  {}

  /** `tail` is nothing, or a hyphen that is not there yet. */
  predicate Tail(k: seq<string>, tail: seq<string>) {
    tail == [] || (tail == [HYPHEN] && (k == [] || k[|k| - 1] != HYPHEN))
  }

  /** Where no escaped hyphen ends a range, dropping them all leaves the other
      items as they were, and a hyphen put at the end is an item of its own. */
  lemma {:induction false} ItemsKept(ch: seq<string>, tail: seq<string>)
    requires !EscapedEnd(ch) && Tail(Keep(ch), tail)
    ensures Items(Keep(ch) + tail) == Others(Items(ch)) + (if tail == [] then [] else [One(HYPHEN)])
    decreases |ch|
  {
    hide Keep, Items, Others, EscapedEnd;
    NothingKept();
    if ch == [] {
      assert Keep(ch) + tail == tail;
      ItemsOne(HYPHEN, []);
      assert [HYPHEN] + [] == [HYPHEN] && [One(HYPHEN)] + [] == [One(HYPHEN)];
      assert [] + [One(HYPHEN)] == [One(HYPHEN)];
    } else if |ch| >= 3 && ch[1] == HYPHEN {
      KeptSpan(ch, tail);
    } else {
      KeptOne(ch, tail);
    }
  }

  lemma KeptSpan(ch: seq<string>, tail: seq<string>)
    requires |ch| >= 3 && ch[1] == HYPHEN && !EscapedEnd(ch) && Tail(Keep(ch), tail)
    ensures Items(Keep(ch) + tail) == Others(Items(ch)) + (if tail == [] then [] else [One(HYPHEN)])
    decreases |ch|, 0
  {
    hide Keep, Items, Others, EscapedEnd;
    var x, y, r := ch[0], ch[2], ch[3..];
    assert ch == [x, HYPHEN, y] + r;
    ItemsSpan(x, y, r);
    KeepThree(x, y, r);
    ItemsKept(r, tail);
    ItemsSpan(x, y, Keep(r) + tail);
    OthersCons(Span(x, y), Items(r));
    assert Keep(ch) + tail == [x, HYPHEN, y] + (Keep(r) + tail);
  }

  lemma KeepThree(x: string, y: string, r: seq<string>)
    requires x != ESC && y != ESC
    ensures Keep([x, HYPHEN, y] + r) == [x, HYPHEN, y] + Keep(r)
  {
    KeepSplit([x, HYPHEN, y], r);
    KeepAll([x, HYPHEN, y]);
  }

  lemma KeptOne(ch: seq<string>, tail: seq<string>)
    requires ch != [] && !(|ch| >= 3 && ch[1] == HYPHEN) && !EscapedEnd(ch) && Tail(Keep(ch), tail)
    ensures Items(Keep(ch) + tail) == Others(Items(ch)) + (if tail == [] then [] else [One(HYPHEN)])
    decreases |ch|, 0
  {
    hide Keep, Items, Others, EscapedEnd;
    var x, r := ch[0], ch[1..];
    assert ch == [x] + r;
    ItemsOne(x, r);
    KeepCons(x, r);
    OthersCons(One(x), Items(r));
    if x != ESC && r != [] && Keep(r) != [] {
      assert (Keep(ch))[|Keep(ch)| - 1] == Keep(r)[|Keep(r)| - 1];
    }
    ItemsKept(r, tail);
    if x != ESC {
      NextIsNoRange(r, tail);
      ItemsOne(x, Keep(r) + tail);
      assert Keep(ch) + tail == [x] + (Keep(r) + tail);
    }
  }

  /** What follows a single character does not turn it into a range. */
  lemma NextIsNoRange(r: seq<string>, tail: seq<string>)
    requires !EscapedEnd(r) && !(|r| >= 2 && r[0] == HYPHEN) && Tail(Keep(r), tail)
    ensures !(|Keep(r) + tail| >= 2 && (Keep(r) + tail)[0] == HYPHEN)
  {
    NothingKept();
    if r != [] && Keep(r) != [] && Keep(r)[0] == HYPHEN {
      if r[0] == ESC {
        HyphenLast(r);
      } else {
        assert r == [r[0]] + r[1..];
        KeepCons(r[0], r[1..]);
      }
    }
  }

  lemma {:induction false} OthersRanges(items: seq<Item>)
    ensures Ranges(Others(items)) == Ranges(items)
  {
    if items != [] {
      assert items == [items[0]] + items[1..];
      OthersRanges(items[1..]);
      OthersCons(items[0], items[1..]);
      OthersCons(items[0], Others(items[1..]));
    }
  }

  lemma {:induction false} RangesSnoc(items: seq<Item>, x: string)
    ensures Ranges(items + [One(x)]) == Ranges(items)
  {
    if items == [] {
      assert items + [One(x)] == [One(x)] && [One(x)][1..] == [];
    } else {
      assert (items + [One(x)])[1..] == items[1..] + [One(x)];
      RangesSnoc(items[1..], x);
    }
  }

  /** A range has an escaped hyphen as an end. */
  predicate EscapedRange(items: seq<Item>) {
    exists i :: 0 <= i < |items| && items[i].Span? && (items[i].lo == ESC || items[i].hi == ESC)
  }

  lemma {:induction false} EscapedEndIs(ch: seq<string>)
    ensures EscapedEnd(ch) <==> EscapedRange(Ranges(Items(ch)))
    decreases |ch|
  {
    if ch != [] {
      var wide := |ch| >= 3 && ch[1] == HYPHEN;
      var x := if wide then Span(ch[0], ch[2]) else One(ch[0]);
      var r := if wide then ch[3..] else ch[1..];
      EscapedEndIs(r);
      assert Items(ch) == [x] + Items(r);
      OthersCons(x, Items(r));
      if wide { EscapedCons(x, Ranges(Items(r))); }
    }
  }

  lemma EscapedCons(x: Item, items: seq<Item>)
    requires x.Span?
    ensures EscapedRange([x] + items) <==> x.lo == ESC || x.hi == ESC || EscapedRange(items)
  {
    var w := [x] + items;
    assert w[0] == x;
    if EscapedRange(items) {
      var i :| 0 <= i < |items| && items[i].Span? && (items[i].lo == ESC || items[i].hi == ESC);
      assert w[i + 1] == items[i];
    }
  }

  lemma {:induction false} NoEscNoEnd(ch: seq<string>)
    requires ESC !in ch
    ensures !EscapedEnd(ch)
    decreases |ch|
  {
    if ch != [] {
      if |ch| >= 3 && ch[1] == HYPHEN { NoEscNoEnd(ch[3..]); } else { NoEscNoEnd(ch[1..]); }
    }
  }

  lemma KeptHasNone(ch: seq<string>)
    ensures ESC !in Kept(ch)
  {
    KeepDrops(ch);
  }

  /** The ranges of a class stay the same if and only if none of them has an escaped
      hyphen as an end. */
  lemma RangesAreExact(ch: seq<string>)
    ensures Ranges(Items(Kept(ch))) == Ranges(Items(ch)) <==> !EscapedEnd(ch)
  {
    hide Ranges, Items, EscapedEnd, Keep;
    if EscapedEnd(ch) {
      KeptHasNone(ch);
      NoEscNoEnd(Kept(ch));
      EscapedEndIs(ch);
      EscapedEndIs(Kept(ch));
    } else if ESC in ch {
      MendedItems(ch);
      OthersRanges(Items(ch));
      RangesSnoc(Others(Items(ch)), HYPHEN);
      assert Others(Items(ch)) + [] == Others(Items(ch));
    }
  }

  /** The items of a mended class. */
  lemma MendedItems(ch: seq<string>)
    requires !EscapedEnd(ch) && ESC in ch
    ensures var k := Keep(ch);
            var ends := k != [] && k[|k| - 1] == HYPHEN;
            Items(Kept(ch)) == Others(Items(ch)) + (if ends then [] else [One(HYPHEN)])
  {
    hide Items, EscapedEnd, Keep, Others;
    var k := Keep(ch);
    if k != [] && k[|k| - 1] == HYPHEN {
      ItemsKept(ch, []);
      assert k + [] == k;
    } else {
      ItemsKept(ch, [HYPHEN]);
    }
  }

  // ------------------------------------------------------------------ members

  lemma {:induction false} OthersIn(items: seq<Item>, v: Values, c: int)
    ensures In(items, v, c) || c == v(HYPHEN) <==> In(Others(items), v, c) || c == v(HYPHEN)
    ensures In(Others(items), v, c) ==> In(items, v, c)
  {
    hide In;
    if items != [] {
      assert items == [items[0]] + items[1..];
      OthersIn(items[1..], v, c);
      OthersCons(items[0], items[1..]);
      InConcat([items[0]], items[1..], v, c);
      InConcat([items[0]], Others(items[1..]), v, c);
      InOne(items[0], v, c);
    }
  }

  lemma {:induction false} EscIsMember(ch: seq<string>, v: Values)
    requires ESC in ch && !EscapedEnd(ch)
    ensures In(Items(ch), v, v(HYPHEN))
    decreases |ch|
  {
    hide In;
    var wide := |ch| >= 3 && ch[1] == HYPHEN;
    var x := if wide then Span(ch[0], ch[2]) else One(ch[0]);
    var r := if wide then ch[3..] else ch[1..];
    assert Items(ch) == [x] + Items(r);
    InConcat([x], Items(r), v, v(HYPHEN));
    InOne(x, v, v(HYPHEN));
    if x != One(ESC) {
      assert ESC in r by {
        assert ch == (if wide then ch[..3] else ch[..1]) + r;
        assert wide ==> ch[..3] == [ch[0], ch[1], ch[2]];
      }
      EscIsMember(r, v);
    }
  }

  /** Where no escaped hyphen ends a range, the fix can lose no member but the
      hyphen, and it keeps the set if and only if the hyphen is still in it. */
  lemma MembersAreExact(ch: seq<string>, v: Values)
    requires !EscapedEnd(ch)
    ensures forall c :: In(Items(ch), v, c) <==> In(Items(Kept(ch)), v, c) || (ESC in ch && c == v(HYPHEN))
    ensures (forall c :: In(Items(ch), v, c) <==> In(Items(Kept(ch)), v, c))
       <==> (ESC in ch ==> In(Items(Kept(ch)), v, v(HYPHEN)))
  {
    hide In, Items, EscapedEnd, Keep, Others;
    if ESC in ch {
      MendedItems(ch);
      EscIsMember(ch, v);
      forall c ensures In(Items(ch), v, c) <==> In(Items(Kept(ch)), v, c) || c == v(HYPHEN) {
        OthersIn(Items(ch), v, c);
        InConcat(Others(Items(ch)), [One(HYPHEN)], v, c);
        InOne(One(HYPHEN), v, c);
        assert Others(Items(ch)) + [] == Others(Items(ch));
      }
    }
  }

  /** The text already ends in a hyphen that is the end of a range. */
  predicate EndsInRange(ch: seq<string>) {
    ch != [] &&
    (if |ch| >= 3 && ch[1] == HYPHEN then (|ch| == 3 && ch[2] == HYPHEN) || EndsInRange(ch[3..])
     else EndsInRange(ch[1..]))
  }

  lemma {:induction false} FinalHyphen(ch: seq<string>, v: Values)
    requires ch != [] && ch[|ch| - 1] == HYPHEN && !EndsInRange(ch)
    ensures In(Items(ch), v, v(HYPHEN))
    decreases |ch|
  {
    hide In;
    var wide := |ch| >= 3 && ch[1] == HYPHEN;
    var x := if wide then Span(ch[0], ch[2]) else One(ch[0]);
    var r := if wide then ch[3..] else ch[1..];
    assert Items(ch) == [x] + Items(r);
    InConcat([x], Items(r), v, v(HYPHEN));
    InOne(x, v, v(HYPHEN));
    if r != [] {
      FinalHyphen(r, v);
    }
  }

  // ----------------------------------------------------------- the whole class

  /** Dropping escaped hyphens from the front puts a caret first. */
  predicate CaretExposed(ch: seq<string>) {
    ch != [] && ch[0] == ESC && Keep(ch) != [] && Keep(ch)[0] == "^"
  }

  /** A class stays negated or not if and only if the fix exposes no caret. */
  lemma NegationIsExact(ch: seq<string>)
    ensures Negated(Kept(ch)) == Negated(ch) <==> !CaretExposed(ch)
  {
    if ch != [] && ESC in ch {
      assert ch == [ch[0]] + ch[1..];
      KeepCons(ch[0], ch[1..]);
    }
  }

  lemma InnerKept(ch: seq<string>)
    requires !CaretExposed(ch)
    ensures Inner(Kept(ch)) == Kept(Inner(ch))
  {
    hide Keep;
    NegationIsExact(ch);
    if Negated(ch) {
      var r := ch[1..];
      assert ch == ["^"] + r;
      KeepCons("^", r);
      if ESC in ch {
        assert ESC in r;
        var k := Keep(r);
        assert Keep(ch)[1..] == k;
        if k != [] {
          assert Keep(ch)[|Keep(ch)| - 1] == k[|k| - 1];
        }
        assert (["^"] + k + [HYPHEN])[1..] == k + [HYPHEN];
      }
    }
  }

  /** The class means the same before and after: negated or not, and which code
      points it lists. */
  predicate SameClass(a: seq<string>, b: seq<string>, v: Values, c: int) {
    Negated(a) == Negated(b) && (In(Items(Inner(a)), v, c) <==> In(Items(Inner(b)), v, c))
  }

  /** Nothing stands in the way: no caret is exposed, no escaped hyphen ends a
      range, and no range ends the text with a hyphen. */
  predicate Mendable(ch: seq<string>) {
    !CaretExposed(ch) && !EscapedEnd(Inner(ch)) && !EndsInRange(Keep(Inner(ch)))
  }

  lemma MendableKept(ch: seq<string>, v: Values, c: int)
    requires Mendable(ch)
    ensures SameClass(ch, Kept(ch), v, c)
  {
    hide Keep, Items, In, EscapedEnd, EndsInRange;
    NegationIsExact(ch);
    InnerKept(ch);
    var x := Inner(ch);
    MembersAreExact(x, v);
    if ESC in x {
      var k := Keep(x);
      if k != [] && k[|k| - 1] == HYPHEN {
        FinalHyphen(k, v);
      } else {
        MendedItems(x);
        InConcat(Others(Items(x)), [One(HYPHEN)], v, v(HYPHEN));
        InOne(One(HYPHEN), v, v(HYPHEN));
      }
    }
  }

  lemma {:induction false} KeptAt(bodies: seq<string>, fixed: seq<string>, i: nat)
    requires AllKept(bodies, fixed) && i < |bodies|
    ensures |fixed| == |bodies| && Units(fixed[i]) == Kept(Units(bodies[i]))
  {
    if i > 0 {
      KeptAt(bodies[1..], fixed[1..], i - 1);
    } else if |bodies| > 1 {
      KeptAt(bodies[1..], fixed[1..], 0);
    }
  }

  function CharsOf(body: string): seq<string> { Chars(Units(body)) }

  /** The hyphen fix keeps the set of a class. In every text whose classes are
      closed and in which no class straddles: each class with complete numeric
      escapes and nothing standing in the way is, read again after the fix, negated
      or not as before and lists the same code points. */
  lemma FixKeepsTheSet(s: string, i: nat, v: Values, c: int)
    requires ClassesClosed(s) && !SomeStraddle(Bodies(s)) && i < |Bodies(s)|
    requires HexWhole(Units(Bodies(s)[i])) && Mendable(CharsOf(Bodies(s)[i]))
    ensures |Bodies(Fixed(s))| == |Bodies(s)|
    ensures SameClass(CharsOf(Bodies(s)[i]), CharsOf(Bodies(Fixed(s))[i]), v, c)
  {
    hide Bodies, Fixed, Units, Chars, HexWhole, AllKept, SomeStraddle, Mendable, SameClass, Kept;
    FixKeepsExactly(s);
    KeptAt(Bodies(s), Bodies(Fixed(s)), i);
    CharsKept(Units(Bodies(s)[i]));
    MendableKept(CharsOf(Bodies(s)[i]), v, c);
  }

  // ------------------------------------------------------- each way it can fail

  /** Straddling: `[\\-]`, a backslash and a hyphen, becomes the class `[\-]` with
      the escape that the fix exists to remove. */
  lemma StraddleFails()
    ensures Mended("\\\\-") == "\\-" && Straddles(Units("\\\\-"))
  {
    var s := "\\\\-";
    assert s[1] == '\\' && s[2] == '-';
    UnescapedStraddle("");
    assert BACKSLASH + ("-" + "") == s;
    assert Unescaped("") == "";
    FirstUnit(s);
    assert s[..2] == BACKSLASH && s[2..] == "-";
    FirstUnit("-");
    assert "-"[..1] == "-";
  }

  /** An escaped hyphen that begins a range up to a plain character loses the code
      points strictly between the two, and exactly then is the set not kept. */
  lemma RangeFails(x: string, v: Values)
    requires x != ESC && x != HYPHEN
    ensures var ch := [ESC, HYPHEN, x];
            (forall c :: In(Items(ch), v, c) <==> In(Items(Kept(ch)), v, c))
            <==> v(x) == v(HYPHEN) || v(x) == v(HYPHEN) + 1
  {
    hide In;
    var ch := [ESC, HYPHEN, x];
    assert ch[1..] == [HYPHEN, x] && ch[3..] == [];
    assert ch == [ESC] + [HYPHEN, x];
    KeepCons(ESC, [HYPHEN, x]);
    KeepAll([HYPHEN, x]);
    var k := [HYPHEN, x, HYPHEN];
    assert Kept(ch) == k;
    assert k[1..] == [x, HYPHEN] && [x, HYPHEN][1..] == [HYPHEN] && [HYPHEN][1..] == [];
    assert Items([HYPHEN]) == [One(HYPHEN)] && Items([x, HYPHEN]) == [One(x), One(HYPHEN)];
    var items := [One(HYPHEN), One(x), One(HYPHEN)];
    assert Items(k) == items && Items(ch) == [Span(ESC, x)];
    forall c ensures In(items, v, c) <==> c == v(HYPHEN) || c == v(x) { ThreeOnes(x, v, c); }
    forall c ensures In([Span(ESC, x)], v, c) <==> v(HYPHEN) <= c <= v(x) { InOne(Span(ESC, x), v, c); }
    if forall c :: In(Items(ch), v, c) <==> In(Items(k), v, c) {
      assert In(Items(ch), v, v(HYPHEN)) == In(Items(k), v, v(HYPHEN));
      assert In(Items(ch), v, v(HYPHEN) + 1) == In(Items(k), v, v(HYPHEN) + 1);
    }
  }

  lemma ThreeOnes(x: string, v: Values, c: int)
    ensures In([One(HYPHEN), One(x), One(HYPHEN)], v, c) <==> c == v(HYPHEN) || c == v(x)
  {
    hide In;
    InOne(One(HYPHEN), v, c);
    InOne(One(x), v, c);
    InConcat([One(HYPHEN)], [One(x)], v, c);
    InConcat([One(HYPHEN), One(x)], [One(HYPHEN)], v, c);
    assert [One(HYPHEN)] + [One(x)] == [One(HYPHEN), One(x)];
    assert [One(HYPHEN), One(x)] + [One(HYPHEN)] == [One(HYPHEN), One(x), One(HYPHEN)];
  }

  /** A caret after an escaped hyphen, as in `[\-^a]`, negates the class. */
  lemma CaretFails(x: string)
    requires x != ESC
    ensures var ch := [ESC, "^", x]; !Negated(ch) && Negated(Kept(ch)) && CaretExposed(ch)
  {
    var ch := [ESC, "^", x];
    assert ch == [ESC] + ["^", x];
    KeepCons(ESC, ["^", x]);
    KeepAll(["^", x]);
  }

  /** A range that ends the text with a hyphen and is empty, as in `[\-a--]`: the
      hyphen is lost. */
  lemma EmptyRangeFails(x: string, v: Values)
    requires x != ESC && x != HYPHEN && v(x) > v(HYPHEN)
    ensures var ch := [ESC, x, HYPHEN, HYPHEN];
            In(Items(ch), v, v(HYPHEN)) && !In(Items(Kept(ch)), v, v(HYPHEN)) && !EscapedEnd(ch)
  {
    hide In;
    var ch := [ESC, x, HYPHEN, HYPHEN];
    var r := [x, HYPHEN, HYPHEN];
    assert ch == [ESC] + r && ch[1..] == r && r[3..] == [];
    KeepCons(ESC, r);
    KeepAll(r);
    assert Kept(ch) == r;
    assert Items(r) == [Span(x, HYPHEN)] && !EscapedEnd(r);
    assert Items(ch) == [One(ESC)] + Items(r);
    InOne(One(ESC), v, v(HYPHEN));
    InConcat([One(ESC)], Items(r), v, v(HYPHEN));
    InOne(Span(x, HYPHEN), v, v(HYPHEN));
  }
}
