/** A concrete-syntax model of the JSON values that Python's
    `json.JSONDecoder().raw_decode(text)` accepts at index 0: the grammar of
    RFC 8259 (sections 2 to 7) plus Python's three non-finite constants.

    `Json` is the grammar (a tree with every character of the text in it),
    `Parse` is the scanner.  The two are proved to be inverse, which is what
    every streaming argument in the sanitizer rests on. */
module Json {
  import opened Prelude

  // ---------------------------------------------------------------- grammar

  datatype Number = Number(minus: string, whole: string, frac: string, exp: string) {
    predicate Valid() {
      && minus in {"", "-"}
      && whole != "" && AllDigits(whole) && (whole[0] == '0' ==> |whole| == 1)
      && (frac == "" || (frac[0] == '.' && |frac| > 1 && AllDigits(frac[1..])))
      && (exp == "" || ValidExponent(exp))
    }

    function Text(): string { minus + (whole + (frac + exp)) }
  }

  datatype Json =
    | Word(text: string)
    | Num(num: Number)
    | Str(body: string)
    | EmptyArray(space: string)
    | Array(items: Items)
    | EmptyObject(space: string)
    | Object(members: Members)
  {
    predicate Valid() {
      match this
      case Word(t) => t in RFC_WORDS + NON_FINITE
      case Num(n) => n.Valid()
      case Str(b) => ValidBody(b)
      case EmptyArray(w) => AllSpace(w)
      case Array(i) => i.Valid()
      case EmptyObject(w) => AllSpace(w)
      case Object(m) => m.Valid()
    }

    function Text(): (r: string)
      ensures Valid() ==> r != ""
    {
      match this
      case Word(t) => t
      case Num(n) => n.Text()
      case Str(b) => "\"" + (b + "\"")
      case EmptyArray(w) => "[" + (w + "]")
      case Array(i) => "[" + (i.lead + (i.Tail() + "]"))
      case EmptyObject(w) => "{" + (w + "}")
      case Object(m) => "{" + (m.lead + (m.Tail() + "}"))
    }

    /** The value uses one of Python's constants that RFC 8259 does not have. */
    predicate NonFinite() {
      match this
      case Word(t) => t in NON_FINITE
      case Array(i) => i.NonFinite()
      case Object(m) => m.NonFinite()
      case _ => false
    }
  }

  /** The elements of a non-empty array: `lead value trail (, ...)?` */
  datatype Items =
    | LastItem(lead: string, value: Json, trail: string)
    | MoreItems(lead: string, value: Json, trail: string, rest: Items)
  {
    predicate Valid() {
      && AllSpace(lead) && value.Valid() && AllSpace(trail)
      && (MoreItems? ==> rest.Valid())
    }

    /** Everything after `lead`. */
    function Tail(): string {
      value.Text() + (trail + (if LastItem? then "" else "," + (rest.lead + rest.Tail())))
    }

    predicate NonFinite() {
      value.NonFinite() || (MoreItems? && rest.NonFinite())
    }
  }

  /** The members of a non-empty object: `lead "key" ws : ws value trail (, ...)?` */
  datatype Members =
    | LastMember(lead: string, key: string, mid: string, gap: string, value: Json, trail: string)
    | MoreMembers(lead: string, key: string, mid: string, gap: string, value: Json, trail: string,
                  rest: Members)
  {
    predicate Valid() {
      && AllSpace(lead) && ValidBody(key) && AllSpace(mid) && AllSpace(gap)
      && value.Valid() && AllSpace(trail)
      && (MoreMembers? ==> rest.Valid())
    }

    function Tail(): string {
      KeyText(key, mid, gap) + (value.Text() + (trail +
        (if LastMember? then "" else "," + (rest.lead + rest.Tail()))))
    }

    predicate NonFinite() {
      value.NonFinite() || (MoreMembers? && rest.NonFinite())
    }
  }

  const RFC_WORDS: set<string> := {"null", "true", "false"}
  const NON_FINITE: set<string> := {"NaN", "Infinity", "-Infinity"}

  predicate IsSpace(c: char) { c in {' ', '\t', '\n', '\r'} }

  predicate AllSpace(s: string) { forall i :: 0 <= i < |s| ==> IsSpace(s[i]) }

  predicate AllDigits(s: string) { forall i :: 0 <= i < |s| ==> IsDigit(s[i]) }

  predicate ValidExponent(e: string) {
    && |e| >= 2 && e[0] in {'e', 'E'}
    && var d := if e[1] in {'+', '-'} then e[2..] else e[1..];
       d != "" && AllDigits(d)
  }

  predicate IsHex(c: char) { IsDigit(c) || 'a' <= c <= 'f' || 'A' <= c <= 'F' }

  /** Length of the string character or escape that `s` begins with, 0 if none. */
  function UnitLen(s: string): (n: nat)
    ensures n <= |s|
  {
    if s == "" || s[0] == '"' || (s[0] as int) < 0x20 then 0
    else if s[0] != '\\' then 1
    else if |s| >= 2 && s[1] in {'"', '\\', '/', 'b', 'f', 'n', 'r', 't'} then 2
    else if |s| >= 6 && s[1] == 'u' && IsHex(s[2]) && IsHex(s[3]) && IsHex(s[4]) && IsHex(s[5]) then 6
    else 0
  }

  predicate ValidBody(b: string) {
    b == "" || (UnitLen(b) > 0 && ValidBody(b[UnitLen(b)..]))
  }

  /** A value followed by anything is still read as that value, unless it is a
      number and the next character could continue it. */
  predicate Ends(v: Json, rest: string) {
    v.Num? ==> rest == "" || !(IsDigit(rest[0]) || rest[0] in {'.', 'e', 'E'})
  }

  // ---------------------------------------------------------------- scanner

  lemma Assoc(a: string, b: string, c: string)
    ensures a + (b + c) == (a + b) + c
  {}

  lemma Uncons(s: string, head: string)
    requires s != "" && |head| == 1 && s[0] == head[0]
    ensures s == head + s[1..]
  {}

  lemma Glue(s: string, n: nat, tail: string)
    requires n <= |s| && s[n..] == tail
    ensures s == s[..n] + tail
  {}

  function TakeSpace(s: string): (r: (string, string))
    ensures s == r.0 + r.1 && AllSpace(r.0)
    ensures r.1 != "" ==> !IsSpace(r.1[0])
  {
    if s == "" || !IsSpace(s[0]) then ("", s)
    else var (w, rest) := TakeSpace(s[1..]); (s[..1] + w, rest)
  }

  function TakeDigits(s: string): (r: (string, string))
    ensures s == r.0 + r.1 && AllDigits(r.0)
    ensures r.1 != "" ==> !IsDigit(r.1[0])
  {
    if s == "" || !IsDigit(s[0]) then ("", s)
    else var (d, rest) := TakeDigits(s[1..]); (s[..1] + d, rest)
  }

  /** The first unit of a string is read the same whatever follows it. */
  lemma UnitLocal(s: string, b: string)
    requires UnitLen(s) > 0
    ensures UnitLen(s[..UnitLen(s)] + b) == UnitLen(s)
    ensures (s[..UnitLen(s)] + b)[UnitLen(s)..] == b
  {
    var n := UnitLen(s);
    var t := s[..n] + b;
    assert t[0] == s[0];
    if n >= 2 { assert t[1] == s[1]; }
    if n == 6 { assert t[2] == s[2] && t[3] == s[3] && t[4] == s[4] && t[5] == s[5]; }
  }

  /** The body of a string whose opening quote has been read, and the text
      after its closing quote. */
  function ScanBody(s: string): (r: Option<(string, string)>)
    ensures r.Some? ==> ValidBody(r.value.0) && s == r.value.0 + ("\"" + r.value.1)
  {
    if s == "" then None
    else if s[0] == '"' then Some(("", s[1..]))
    else
      var n := UnitLen(s);
      if n == 0 then None
      else
        match ScanBody(s[n..])
        case None => None
        case Some((b, rest)) =>
          UnitLocal(s, b);
          Glue(s, n, b + ("\"" + rest));
          Assoc(s[..n], b, "\"" + rest);
          Some((s[..n] + b, rest))
  }

  function ScanFraction(s: string): (r: (string, string))
    ensures s == r.0 + r.1
    ensures r.0 == "" || (r.0[0] == '.' && |r.0| > 1 && AllDigits(r.0[1..]))
  {
    if |s| >= 2 && s[0] == '.' && IsDigit(s[1]) then
      var (d, rest) := TakeDigits(s[1..]); ("." + d, rest)
    else ("", s)
  }

  function ScanExponent(s: string): (r: (string, string))
    ensures s == r.0 + r.1
    ensures r.0 == "" || ValidExponent(r.0)
  {
    if |s| >= 2 && s[0] in {'e', 'E'} then
      var signed := s[1] in {'+', '-'};
      var k := if signed then 2 else 1;
      var (d, rest) := TakeDigits(s[k..]);
      if d == "" then ("", s)
      else
        assert (s[..k] + d)[k..] == d;
        (s[..k] + d, rest)
    else ("", s)
  }

  /** The integer part of a number: one zero, or digits that start with none. */
  function TakeWhole(s: string): (r: (string, string))
    requires s != "" && IsDigit(s[0])
    ensures s == r.0 + r.1
    ensures r.0 != "" && AllDigits(r.0) && (r.0[0] == '0' ==> |r.0| == 1)
  {
    if s[0] == '0' then (s[..1], s[1..]) else TakeDigits(s)
  }

  /** The unsigned part of a number. */
  function ScanUnsigned(s: string): (r: (string, string, string, string))
    requires s != "" && IsDigit(s[0])
    ensures r.0 != "" && AllDigits(r.0) && (r.0[0] == '0' ==> |r.0| == 1)
    ensures r.1 == "" || (r.1[0] == '.' && |r.1| > 1 && AllDigits(r.1[1..]))
    ensures r.2 == "" || ValidExponent(r.2)
    ensures s == r.0 + (r.1 + (r.2 + r.3))
  {
    var (whole, s2) := TakeWhole(s);
    var (frac, s3) := ScanFraction(s2);
    var (exp, s4) := ScanExponent(s3);
    (whole, frac, exp, s4)
  }

  function ScanNumber(s: string): (r: Option<(Number, string)>)
    ensures r.Some? ==> r.value.0.Valid() && s == r.value.0.Text() + r.value.1
  {
    var k := if s != "" && s[0] == '-' then 1 else 0;
    if |s| <= k || !IsDigit(s[k]) then None
    else
      var (whole, frac, exp, rest) := ScanUnsigned(s[k..]);
      var n := Number(if k == 1 then "-" else "", whole, frac, exp);
      NumberGlue(n, rest);
      Glue(s, k, whole + (frac + (exp + rest)));
      assert s[..k] == n.minus;
      Some((n, rest))
  }

  lemma NumberGlue(n: Number, rest: string)
    ensures n.Text() + rest == n.minus + (n.whole + (n.frac + (n.exp + rest)))
  {
    Assoc(n.frac, n.exp, rest);
    Assoc(n.whole, n.frac + n.exp, rest);
    Assoc(n.minus, n.whole + (n.frac + n.exp), rest);
  }

  function ScanWord(s: string): (r: Option<(Json, string)>)
    ensures r.Some? ==> r.value.0.Word? && r.value.0.Valid() && s == r.value.0.text + r.value.1
  {
    if s == "" then None
    else
      var w := WordFor(s[0]);
      if w != "" && w <= s then Some((Word(w), s[|w|..])) else None
  }

  function WordFor(c: char): (w: string)
    ensures w != "" ==> w in RFC_WORDS + NON_FINITE && w[0] == c
  {
    match c
    case 'n' => "null"
    case 't' => "true"
    case 'f' => "false"
    case 'N' => "NaN"
    case 'I' => "Infinity"
    case '-' => "-Infinity"
    case _ => ""
  }

  /** `raw_decode(s, 0)`: the value that `s` begins with, and the text after it.
      No leading whitespace is skipped. */
  function Parse(s: string): (r: Option<(Json, string)>)
    ensures r.Some? ==> |r.value.1| < |s|
    decreases |s|, 1
  {
    if s == "" then None
    else if s[0] == '"' then
      match ScanBody(s[1..])
      case None => None
      case Some((b, rest)) => Some((Str(b), rest))
    else if s[0] == '[' then
      var (w, r0) := TakeSpace(s[1..]);
      if r0 != "" && r0[0] == ']' then Some((EmptyArray(w), r0[1..]))
      else
        match ParseItems(w, r0)
        case None => None
        case Some((items, rest)) => Some((Array(items), rest))
    else if s[0] == '{' then
      var (w, r0) := TakeSpace(s[1..]);
      if r0 != "" && r0[0] == '}' then Some((EmptyObject(w), r0[1..]))
      else
        match ParseMembers(w, r0)
        case None => None
        case Some((members, rest)) => Some((Object(members), rest))
    else
      match ScanNumber(s)
      case Some((n, rest)) => Some((Num(n), rest))
      case None => ScanWord(s)
  }

  function ParseItems(lead: string, s: string): (r: Option<(Items, string)>)
    ensures r.Some? ==> |r.value.1| < |s| && r.value.0.lead == lead
    decreases |s|, 2
  {
    match Parse(s)
    case None => None
    case Some((v, s1)) =>
      var (trail, s2) := TakeSpace(s1);
      if s2 == "" then None
      else if s2[0] == ']' then Some((LastItem(lead, v, trail), s2[1..]))
      else if s2[0] != ',' then None
      else
        var (next, s3) := TakeSpace(s2[1..]);
        match ParseItems(next, s3)
        case None => None
        case Some((rest, s4)) => Some((MoreItems(lead, v, trail, rest), s4))
  }

  /** A key and its colon: the key, the whitespace on both sides of the colon,
      and the text where the value must begin. */
  function ScanKey(s: string): (r: Option<(string, string, string, string)>)
    ensures r.Some? ==> |r.value.3| < |s|
  {
    if s == "" || s[0] != '"' then None
    else
      match ScanBody(s[1..])
      case None => None
      case Some((key, s1)) =>
        var (mid, s2) := TakeSpace(s1);
        if s2 == "" || s2[0] != ':' then None
        else
          var (gap, s3) := TakeSpace(s2[1..]);
          Some((key, mid, gap, s3))
  }

  function KeyText(key: string, mid: string, gap: string): string {
    "\"" + (key + ("\"" + (mid + (":" + gap))))
  }

  lemma KeyGlue(s: string, key: string, mid: string, gap: string, rest: string)
    requires s != "" && s[0] == '"' && s[1..] == key + ("\"" + (mid + (":" + (gap + rest))))
    ensures s == KeyText(key, mid, gap) + rest
  {
    Assoc(":", gap, rest);
    Assoc(mid, ":" + gap, rest);
    Assoc("\"", mid + (":" + gap), rest);
    Assoc(key, "\"" + (mid + (":" + gap)), rest);
    Assoc("\"", key + ("\"" + (mid + (":" + gap))), rest);
  }

  lemma KeySound(s: string)
    ensures ScanKey(s).Some? ==>
              var (key, mid, gap, rest) := ScanKey(s).value;
              && ValidBody(key) && AllSpace(mid) && AllSpace(gap)
              && s == KeyText(key, mid, gap) + rest
  {
    if ScanKey(s).Some? {
      var (key, s1) := ScanBody(s[1..]).value;
      var (mid, s2) := TakeSpace(s1);
      var (gap, s3) := TakeSpace(s2[1..]);
      Uncons(s2, ":");
      assert s1 == mid + (":" + (gap + s3));
      KeyGlue(s, key, mid, gap, s3);
    }
  }

  function ParseMembers(lead: string, s: string): (r: Option<(Members, string)>)
    ensures r.Some? ==> |r.value.1| < |s| && r.value.0.lead == lead
    decreases |s|, 2
  {
    match ScanKey(s)
    case None => None
    case Some((key, mid, gap, s0)) =>
      match Parse(s0)
      case None => None
      case Some((v, s1)) =>
        var (trail, s2) := TakeSpace(s1);
        if s2 == "" then None
        else if s2[0] == '}' then Some((LastMember(lead, key, mid, gap, v, trail), s2[1..]))
        else if s2[0] != ',' then None
        else
          var (next, s3) := TakeSpace(s2[1..]);
          match ParseMembers(next, s3)
          case None => None
          case Some((rest, s4)) => Some((MoreMembers(lead, key, mid, gap, v, trail, rest), s4))
  }

  // ------------------------------------------------------------- soundness

  lemma TailGlue(value: string, trail: string, more: string, rest: string)
    ensures value + (trail + (more + rest)) == (value + (trail + more)) + rest
  {
    Assoc(trail, more, rest);
    Assoc(value, trail + more, rest);
  }

  lemma CommaGlue(s: string, next: string, tail: string, rest: string)
    requires s != "" && s[0] == ',' && s[1..] == next + (tail + rest)
    ensures s == ("," + (next + tail)) + rest
  {
    Assoc(next, tail, rest);
    Assoc(",", next + tail, rest);
  }

  lemma EmptyGlue(open: string, space: string, close: string, rest: string)
    ensures open + (space + (close + rest)) == (open + (space + close)) + rest
  {
    Assoc(space, close, rest);
    Assoc(open, space + close, rest);
  }

  lemma BracketGlue(open: string, lead: string, tail: string, close: string, rest: string)
    ensures open + (lead + (tail + (close + rest))) == (open + (lead + (tail + close))) + rest
  {
    TailGlue(lead, tail, close, rest);
    Assoc(open, lead + (tail + close), rest);
  }

  /** What the scanner returns is a valid value, and its text followed by the
      rest is exactly the input. */
  lemma {:induction false} ParseSound(s: string)
    ensures Parse(s).Some? ==>
              var (v, rest) := Parse(s).value;
              v.Valid() && s == v.Text() + rest
    decreases |s|, 1
  {
    if Parse(s).Some? {
      if s[0] == '"' {
        StringSound(s);
      } else if s[0] == '[' {
        ArraySound(s);
      } else if s[0] == '{' {
        ObjectSound(s);
      }
    }
  }

  lemma StringSound(s: string)
    requires s != "" && s[0] == '"' && Parse(s).Some?
    ensures var (v, rest) := Parse(s).value;
            v.Valid() && s == v.Text() + rest
  {
    var (b, rest) := ScanBody(s[1..]).value;
    QuoteGlue(s, b, rest);
  }

  lemma QuoteGlue(s: string, b: string, rest: string)
    requires s != "" && s[0] == '"' && s[1..] == b + ("\"" + rest)
    ensures s == ("\"" + (b + "\"")) + rest
  {
    Assoc(b, "\"", rest);
    Assoc("\"", b + "\"", rest);
  }

  lemma {:induction false} ArraySound(s: string)
    requires s != "" && s[0] == '[' && Parse(s).Some?
    ensures var (v, rest) := Parse(s).value;
            v.Valid() && s == v.Text() + rest
    decreases |s|, 0
  {
    var (w, r0) := TakeSpace(s[1..]);
    Uncons(s, "[");
    if r0 != "" && r0[0] == ']' {
      Uncons(r0, "]");
      EmptyGlue("[", w, "]", r0[1..]);
    } else {
      ItemsSound(w, r0);
      var (items, rest) := ParseItems(w, r0).value;
      BracketGlue("[", w, items.Tail(), "]", rest);
    }
  }

  lemma {:induction false} ObjectSound(s: string)
    requires s != "" && s[0] == '{' && Parse(s).Some?
    ensures var (v, rest) := Parse(s).value;
            v.Valid() && s == v.Text() + rest
    decreases |s|, 0
  {
    var (w, r0) := TakeSpace(s[1..]);
    Uncons(s, "{");
    if r0 != "" && r0[0] == '}' {
      Uncons(r0, "}");
      EmptyGlue("{", w, "}", r0[1..]);
    } else {
      MembersSound(w, r0);
      var (members, rest) := ParseMembers(w, r0).value;
      BracketGlue("{", w, members.Tail(), "}", rest);
    }
  }

  lemma {:induction false} ItemsSound(lead: string, s: string)
    requires AllSpace(lead)
    ensures ParseItems(lead, s).Some? ==>
              var (items, rest) := ParseItems(lead, s).value;
              items.Valid() && s == items.Tail() + ("]" + rest)
    decreases |s|, 2
  {
    if ParseItems(lead, s).None? { return; }
    ParseSound(s);
    var (v, s1) := Parse(s).value;
    var (trail, s2) := TakeSpace(s1);
    if s2[0] == ']' {
      Uncons(s2, "]");
      assert s2 == "" + s2;
      TailGlue(v.Text(), trail, "", "]" + s2[1..]);
    } else {
      var (next, s3) := TakeSpace(s2[1..]);
      ItemsSound(next, s3);
      var (rest, s4) := ParseItems(next, s3).value;
      CommaGlue(s2, next, rest.Tail(), "]" + s4);
      TailGlue(v.Text(), trail, "," + (next + rest.Tail()), "]" + s4);
    }
  }

  lemma {:induction false} MembersSound(lead: string, s: string)
    requires AllSpace(lead)
    ensures ParseMembers(lead, s).Some? ==>
              var (members, rest) := ParseMembers(lead, s).value;
              members.Valid() && s == members.Tail() + ("}" + rest)
    decreases |s|, 2
  {
    if ParseMembers(lead, s).None? { return; }
    KeySound(s);
    var (key, mid, gap, s0) := ScanKey(s).value;
    ParseSound(s0);
    var (v, s1) := Parse(s0).value;
    var (trail, s2) := TakeSpace(s1);
    if s2[0] == '}' {
      Uncons(s2, "}");
      assert s2 == "" + s2;
      MemberGlue(KeyText(key, mid, gap), v.Text(), trail, "", "}" + s2[1..]);
    } else {
      var (next, s3) := TakeSpace(s2[1..]);
      MembersSound(next, s3);
      var (rest, s4) := ParseMembers(next, s3).value;
      CommaGlue(s2, next, rest.Tail(), "}" + s4);
      MemberGlue(KeyText(key, mid, gap), v.Text(), trail, "," + (next + rest.Tail()), "}" + s4);
    }
  }

  lemma MemberGlue(head: string, value: string, trail: string, more: string, rest: string)
    ensures head + (value + (trail + (more + rest))) == (head + (value + (trail + more))) + rest
  {
    TailGlue(value, trail, more, rest);
    Assoc(head, value + (trail + more), rest);
  }

  // ----------------------------------------------------------- completeness

  lemma {:induction false} SpaceComplete(w: string, t: string)
    requires AllSpace(w) && (t == "" || !IsSpace(t[0]))
    ensures TakeSpace(w + t) == (w, t)
  {
    if w == "" {
      assert w + t == t;
    } else {
      assert (w + t)[1..] == w[1..] + t;
      SpaceComplete(w[1..], t);
      assert (w + t)[..1] + w[1..] == w;
    }
  }

  lemma {:induction false} DigitsComplete(d: string, t: string)
    requires AllDigits(d) && (t == "" || !IsDigit(t[0]))
    ensures TakeDigits(d + t) == (d, t)
  {
    if d == "" {
      assert d + t == t;
    } else {
      assert (d + t)[1..] == d[1..] + t;
      DigitsComplete(d[1..], t);
      assert (d + t)[..1] + d[1..] == d;
    }
  }

  lemma {:induction false} BodyComplete(b: string, t: string)
    requires ValidBody(b)
    ensures ScanBody(b + ("\"" + t)) == Some((b, t))
  {
    var s := b + ("\"" + t);
    if b == "" {
      assert s == "\"" + t;
    } else {
      var n := UnitLen(b);
      var c := b[n..];
      BodyComplete(c, t);
      UnitLocal(b, c + ("\"" + t));
      Glue(b, n, c);
      Assoc(b[..n], c, "\"" + t);
      assert s[n..] == c + ("\"" + t);
      assert s[..n] + c == b;
    }
  }

  lemma FractionComplete(f: string, t: string)
    requires f == "" || (f[0] == '.' && |f| > 1 && AllDigits(f[1..]))
    requires t == "" || !(IsDigit(t[0]) || t[0] == '.')
    ensures ScanFraction(f + t) == (f, t)
  {
    if f == "" {
      assert f + t == t;
    } else {
      assert (f + t)[1..] == f[1..] + t;
      DigitsComplete(f[1..], t);
      assert "." + f[1..] == f;
    }
  }

  lemma ExponentComplete(e: string, t: string)
    requires e == "" || ValidExponent(e)
    requires t == "" || !(IsDigit(t[0]) || t[0] in {'e', 'E'})
    ensures ScanExponent(e + t) == (e, t)
  {
    if e == "" {
      assert e + t == t;
    } else {
      var k := if e[1] in {'+', '-'} then 2 else 1;
      assert (e + t)[k..] == e[k..] + t;
      DigitsComplete(e[k..], t);
      assert (e + t)[..k] + e[k..] == e;
    }
  }

  lemma UnsignedComplete(whole: string, frac: string, exp: string, t: string)
    requires Number("", whole, frac, exp).Valid()
    requires t == "" || !(IsDigit(t[0]) || t[0] in {'.', 'e', 'E'})
    ensures ScanUnsigned(whole + (frac + (exp + t))) == (whole, frac, exp, t)
  {
    var s3 := exp + t;
    var s2 := frac + s3;
    var s := whole + s2;
    ExponentComplete(exp, t);
    FractionComplete(frac, s3);
    if whole[0] == '0' {
      assert s[..1] == whole && s[1..] == s2;
    } else {
      DigitsComplete(whole, s2);
    }
  }

  lemma NumberComplete(n: Number, t: string)
    requires n.Valid()
    requires t == "" || !(IsDigit(t[0]) || t[0] in {'.', 'e', 'E'})
    ensures ScanNumber(n.Text() + t) == Some((n, t))
  {
    var u := n.whole + (n.frac + (n.exp + t));
    NumberGlue(n, t);
    var s := n.minus + u;
    var k := |n.minus|;
    assert s[k..] == u;
    assert k == if s[0] == '-' then 1 else 0;
    UnsignedComplete(n.whole, n.frac, n.exp, t);
  }

  lemma WordComplete(w: string, t: string)
    requires w in RFC_WORDS + NON_FINITE
    ensures ScanNumber(w + t) == None && ScanWord(w + t) == Some((Word(w), t))
  {
    var s := w + t;
    assert WordFor(w[0]) == w;
    assert s[..|w|] == w && s[|w|..] == t;
    assert s[0] == w[0] && s[1] == w[1] && !IsDigit(w[0]) && !IsDigit(w[1]);
  }

  lemma FirstChar(v: Json)
    requires v.Valid()
    ensures v.Text() != "" && !IsSpace(v.Text()[0]) && v.Text()[0] !in {']', '}', ',', ':'}
    ensures v.Str? <==> v.Text()[0] == '"'
    ensures (v.Array? || v.EmptyArray?) <==> v.Text()[0] == '['
    ensures (v.Object? || v.EmptyObject?) <==> v.Text()[0] == '{'
    ensures v.Num? <==> IsDigit(v.Text()[0]) || (v.Text()[0] == '-' && v != Word("-Infinity"))
  {
  }

  /** The scanner reads back every valid value, whatever text follows it. */
  lemma {:induction false} ParseComplete(v: Json, t: string)
    requires v.Valid() && Ends(v, t)
    ensures Parse(v.Text() + t) == Some((v, t))
    decreases v
  {
    match v {
      case Word(w) =>
        FirstChar(v);
        WordComplete(w, t);
      case Num(n) =>
        FirstChar(v);
        NumberComplete(n, t);
      case Str(b) =>
        BodyComplete(b, t);
        StringShape(b, t);
      case EmptyArray(w) =>
        EmptyShape("[", w, "]", t);
        SpaceComplete(w, "]" + t);
      case Array(items) =>
        BracketShape("[", items.lead, items.Tail(), "]", t);
        FirstChar(items.value);
        SpaceComplete(items.lead, items.Tail() + ("]" + t));
        ItemsComplete(items, t);
      case EmptyObject(w) =>
        EmptyShape("{", w, "}", t);
        SpaceComplete(w, "}" + t);
      case Object(members) =>
        BracketShape("{", members.lead, members.Tail(), "}", t);
        SpaceComplete(members.lead, members.Tail() + ("}" + t));
        MembersComplete(members, t);
    }
  }

  lemma StringShape(b: string, t: string)
    ensures var s := ("\"" + (b + "\"")) + t;
            s[0] == '"' && s[1..] == b + ("\"" + t)
  {
    Assoc(b, "\"", t);
    Assoc("\"", b + "\"", t);
  }

  lemma BracketShape(open: string, lead: string, tail: string, close: string, t: string)
    requires |open| == 1
    ensures var s := (open + (lead + (tail + close))) + t;
            s[0] == open[0] && s[1..] == lead + (tail + (close + t))
  {
    TailGlue(lead, tail, close, t);
    Assoc(open, lead + (tail + close), t);
  }

  lemma EmptyShape(open: string, space: string, close: string, t: string)
    requires |open| == |close| == 1
    ensures var s := (open + (space + close)) + t;
            s[0] == open[0] && s[1..] == space + (close + t)
            && (close + t)[0] == close[0] && (close + t)[1..] == t
  {
    Assoc(space, close, t);
    Assoc(open, space + close, t);
  }

  /** After a value come whitespace and then a separator that ends it. */
  lemma TrailEnds(v: Json, trail: string, after: string)
    requires AllSpace(trail) && after != "" && after[0] in {',', ']', '}'}
    ensures Ends(v, trail + after)
    ensures TakeSpace(trail + after) == (trail, after)
  {
    SpaceComplete(trail, after);
    if trail != "" { assert (trail + after)[0] == trail[0]; }
  }

  lemma {:induction false} ItemsComplete(items: Items, t: string)
    requires items.Valid()
    ensures ParseItems(items.lead, items.Tail() + ("]" + t)) == Some((items, t))
    decreases items
  {
    var v, trail := items.value, items.trail;
    if items.LastItem? {
      TailGlue(v.Text(), trail, "", "]" + t);
      assert "" + ("]" + t) == "]" + t;
      TrailEnds(v, trail, "]" + t);
      ParseComplete(v, trail + ("]" + t));
    } else {
      var more := "," + (items.rest.lead + items.rest.Tail());
      var after := more + ("]" + t);
      TailGlue(v.Text(), trail, more, "]" + t);
      TrailEnds(v, trail, after);
      ParseComplete(v, trail + after);
      CommaShape(items.rest.lead, items.rest.Tail(), "]" + t);
      FirstChar(items.rest.value);
      SpaceComplete(items.rest.lead, items.rest.Tail() + ("]" + t));
      ItemsComplete(items.rest, t);
    }
  }

  lemma CommaShape(next: string, tail: string, rest: string)
    ensures var s := ("," + (next + tail)) + rest;
            s[0] == ',' && s[1..] == next + (tail + rest)
  {
    Assoc(next, tail, rest);
    Assoc(",", next + tail, rest);
  }

  lemma KeyComplete(key: string, mid: string, gap: string, rest: string)
    requires ValidBody(key) && AllSpace(mid) && AllSpace(gap)
    requires rest != "" && !IsSpace(rest[0])
    ensures ScanKey(KeyText(key, mid, gap) + rest) == Some((key, mid, gap, rest))
  {
    var s2 := ":" + (gap + rest);
    var s1 := mid + s2;
    var s := "\"" + (key + ("\"" + s1));
    KeyGlue(s, key, mid, gap, rest);
    BodyComplete(key, s1);
    SpaceComplete(mid, s2);
    SpaceComplete(gap, rest);
    assert s2[1..] == gap + rest;
  }

  lemma {:induction false} MembersComplete(m: Members, t: string)
    requires m.Valid()
    ensures ParseMembers(m.lead, m.Tail() + ("}" + t)) == Some((m, t))
    decreases m
  {
    var v, trail := m.value, m.trail;
    var head := KeyText(m.key, m.mid, m.gap);
    FirstChar(v);
    if m.LastMember? {
      MemberGlue(head, v.Text(), trail, "", "}" + t);
      assert "" + ("}" + t) == "}" + t;
      TrailEnds(v, trail, "}" + t);
      KeyComplete(m.key, m.mid, m.gap, v.Text() + (trail + ("}" + t)));
      ParseComplete(v, trail + ("}" + t));
    } else {
      var more := "," + (m.rest.lead + m.rest.Tail());
      var after := more + ("}" + t);
      MemberGlue(head, v.Text(), trail, more, "}" + t);
      TrailEnds(v, trail, after);
      KeyComplete(m.key, m.mid, m.gap, v.Text() + (trail + after));
      ParseComplete(v, trail + after);
      CommaShape(m.rest.lead, m.rest.Tail(), "}" + t);
      SpaceComplete(m.rest.lead, m.rest.Tail() + ("}" + t));
      MembersComplete(m.rest, t);
    }
  }

  // -------------------------------------------------------------- corollaries

  /** A prefix that reads as a whole value keeps reading as one when text is
      appended; only a number can change, by growing. */
  lemma ParseExtends(s: string, more: string)
    requires Parse(s).Some?
    ensures Parse(s + more).Some?
    ensures !Parse(s).value.0.Num? ==>
              Parse(s + more) == Some((Parse(s).value.0, Parse(s).value.1 + more))
    ensures Parse(s).value.0.Num? ==> Parse(s + more).value.0.Num?
  {
    ParseSound(s);
    var (v, rest) := Parse(s).value;
    Assoc(v.Text(), rest, more);
    FirstChar(v);
    if v.Num? {
      var k := if s[0] == '-' then 1 else 0;
      assert IsDigit(s[k]) && (s + more)[k] == s[k] && (s + more)[0] == s[0];
    } else {
      ParseComplete(v, rest + more);
    }
  }

  /** RFC 8259 has exactly the values that use no non-finite constant. */
  ghost predicate Rfc8259(text: string) {
    exists v: Json :: v.Valid() && !v.NonFinite() && v.Text() == text
  }

  /** A text is the text of at most one value. */
  lemma TextUnique(v: Json, w: Json)
    requires v.Valid() && w.Valid() && v.Text() == w.Text()
    ensures v == w
  {
    assert v.Text() + "" == v.Text();
    ParseComplete(v, "");
    ParseComplete(w, "");
  }

  /** A one-digit integer: the only kind of number no prefix of which is a
      number too. */
  predicate OneDigit(n: Number) { |n.whole| == 1 && n.frac == "" && n.exp == "" }

  /** Such a number is read the same from every prefix of the text that reads
      as a number at all. */
  lemma OneDigitStable(s: string, k: nat)
    requires k <= |s| && ScanNumber(s).Some? && OneDigit(ScanNumber(s).value.0)
    requires ScanNumber(s[..k]).Some?
    ensures ScanNumber(s[..k]).value.0 == ScanNumber(s).value.0
  {
    var m := if s[0] == '-' then 1 else 0;
    var p, u := s[..k], s[m..];
    assert |p| > 0 && p[0] == s[0];
    assert |p| > m && IsDigit(u[0]);
    assert p[m..] == u[..k - m];
    UnsignedStable(u, k - m);
    var n := ScanNumber(s).value.0;
    assert n.whole == ScanUnsigned(u).0 && n.frac == ScanUnsigned(u).1 && n.exp == ScanUnsigned(u).2;
    var q := ScanNumber(p).value.0;
    assert q.whole == n.whole && q.frac == "" && q.exp == "" && q.minus == n.minus;
  }

  lemma UnsignedStable(u: string, k: nat)
    requires 0 < k <= |u| && IsDigit(u[0])
    requires ScanUnsigned(u).1 == "" && ScanUnsigned(u).2 == "" && |ScanUnsigned(u).0| == 1
    ensures ScanUnsigned(u[..k]).0 == ScanUnsigned(u).0
    ensures ScanUnsigned(u[..k]).1 == "" && ScanUnsigned(u[..k]).2 == ""
  {
    WholeStable(u, k);
    var t := u[1..];
    assert t == TakeWhole(u).1;
    assert t == ScanFraction(t).1;
    FractionStable(t, k - 1);
    ExponentStable(t, k - 1);
  }

  lemma WholeStable(u: string, k: nat)
    requires 0 < k <= |u| && IsDigit(u[0]) && |TakeWhole(u).0| == 1
    ensures TakeWhole(u).0 == u[..1] && TakeWhole(u).1 == u[1..]
    ensures TakeWhole(u[..k]) == (u[..1], u[1..][..k - 1])
  {
    var p := u[..k];
    assert p[..1] == u[..1] && p[1..] == u[1..][..k - 1];
    if u[0] != '0' {
      var (d, r) := TakeDigits(u);
      assert u == d + r && d == u[..1] && r == u[1..];
      Glue(p, 1, p[1..]);
      if p[1..] != "" { assert p[1..][0] == r[0]; }
      DigitsComplete(p[..1], p[1..]);
    }
  }

  lemma FractionStable(t: string, k: nat)
    requires k <= |t| && ScanFraction(t).0 == ""
    ensures ScanFraction(t[..k]) == ("", t[..k])
  {
    if k >= 2 { assert t[..k][0] == t[0] && t[..k][1] == t[1]; }
  }

  lemma ExponentStable(t: string, k: nat)
    requires k <= |t| && ScanExponent(t).0 == ""
    ensures ScanExponent(t[..k]).0 == ""
  {
    var q := t[..k];
    if |q| >= 2 && q[0] in {'e', 'E'} {
      var j := if q[1] in {'+', '-'} then 2 else 1;
      assert TakeDigits(t[j..]).0 == "";
      if q[j..] != "" { assert q[j..][0] == t[j..][0]; }
    }
  }
}
