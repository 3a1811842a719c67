/** The grammar authority, `grammar.py`: its tokenizer, the rule headers, the
    hyphen fix and the rewrapping of multi-line rules. */
module Gbnf {
  import opened Prelude

  // -------------------------------------------------------------- tokenizer

  datatype Kind = Name | Define | Str | Class | LParen | RParen | Pipe | Op | Repeat | Newline

  datatype Tok = Tok(kind: Kind, text: string)

  const NL: Tok := Tok(Newline, "\n")

  /** The first position of a character, or the length. */
  function Find(s: string, c: char): (r: nat)
    ensures r <= |s| && (r < |s| ==> s[r] == c) && forall i :: 0 <= i < r ==> s[i] != c
  {
    if s == "" || s[0] == c then 0 else 1 + Find(s[1..], c)
  }

  /** Where a literal or class is closed, honouring backslashes; or the length. */
  function LitEnd(s: string, j: nat, close: char): (r: nat)
    requires j <= |s|
    ensures j <= r <= |s| && (r < |s| ==> s[r] == close)
    decreases |s| - j
  {
    if j == |s| then j
    else if s[j] == '\\' && j + 1 < |s| then LitEnd(s, j + 2, close)
    else if s[j] == close then j
    else LitEnd(s, j + 1, close)
  }

  predicate NameChar(c: char) {
    IsLetter(c) || IsDigit(c) || c == '-'
  }

  function NameTail(s: string): (r: nat)
    ensures r <= |s| && (forall i :: 0 <= i < r ==> NameChar(s[i])) && (r < |s| ==> !NameChar(s[r]))
  {
    if s == "" || !NameChar(s[0]) then 0 else 1 + NameTail(s[1..])
  }

  function NameLen(s: string): (r: nat)
    ensures r <= |s|
  {
    if s == "" || !IsLetter(s[0]) then 0 else 1 + NameTail(s[1..])
  }

  /** What one turn of the tokenizer's loop emits and consumes. */
  datatype Bite = Bite(toks: seq<Tok>, len: nat)

  function Literal(s: string, kind: Kind, close: char): Bite
    requires s != ""
  {
    var j := LitEnd(s, 1, close);
    var k := Min(j + 1, |s|);
    Bite([Tok(kind, s[..k])], k)
  }

  function Next(s: string): (b: Bite)
    requires s != ""
    ensures 1 <= b.len <= |s| && |b.toks| <= 1
  {
    var c := s[0];
    if c == '#' then Bite([], Find(s, '\n'))
    else if c == '\n' then Bite([NL], 1)
    else if c in " \t\r" then Bite([], 1)
    else if c == '"' then Literal(s, Str, '"')
    else if c == '[' then Literal(s, Class, ']')
    else if "::=" <= s then Bite([Tok(Define, "::=")], 3)
    else if c == '(' then Bite([Tok(LParen, "(")], 1)
    else if c == ')' then Bite([Tok(RParen, ")")], 1)
    else if c == '|' then Bite([Tok(Pipe, "|")], 1)
    else if c in "*+?" then Bite([Tok(Op, [c])], 1)
    else if c == '{' then
      var j := Find(s, '}');
      if j == |s| then Bite([Tok(Op, "{")], 1) else Bite([Tok(Repeat, s[..j + 1])], j + 1)
    else if NameLen(s) > 0 then Bite([Tok(Name, s[..NameLen(s)])], NameLen(s))
    else Bite([], 1)
  }

  /** `_tokenize`, without the positions. */
  function Tokens(s: string): seq<Tok>
    decreases |s|
  {
    if s == "" then [] else Next(s).toks + Tokens(s[Next(s).len..])
  }

  /** Names followed at once by `::=`. */
  function Defined(t: seq<Tok>): set<string> {
    if |t| < 2 then {}
    else (if t[0].kind == Name && t[1].kind == Define then {t[0].text} else {}) + Defined(t[1..])
  }

  /** All other names. */
  function Referenced(t: seq<Tok>): set<string> {
    if t == [] then {}
    else
      (if t[0].kind == Name && !(|t| > 1 && t[1].kind == Define) then {t[0].text} else {}) + Referenced(t[1..])
  }

  // ------------------------------------------------------------- hyphen fix

  predicate HasEscapedHyphen(s: string) {
    exists i :: 0 <= i < |s| - 1 && s[i] == '\\' && s[i + 1] == '-'
  }

  /** `replace("\\-", "")` */
  function Unescaped(s: string): string {
    if |s| < 2 then s
    else if s[..2] == "\\-" then Unescaped(s[2..])
    else [s[0]] + Unescaped(s[1..])
  }

  function Mended(inner: string): string {
    if !HasEscapedHyphen(inner) then inner
    else
      var r := Unescaped(inner);
      if r != "" && r[|r| - 1] == '-' then r else r + "-"
  }

  /** What one turn of the fixer's loop writes and consumes. */
  datatype Fix = Fix(text: string, len: nat)

  function FixNext(s: string): (f: Fix)
    requires s != ""
    ensures 1 <= f.len <= |s|
  {
    if s[0] == '"' then
      var k := Min(LitEnd(s, 1, '"') + 1, |s|);
      Fix(s[..k], k)
    else if s[0] == '#' then Fix(s[..Find(s, '\n')], Find(s, '\n'))
    else if s[0] == '[' then
      var j := LitEnd(s, 1, ']');
      Fix("[" + Mended(s[1..j]) + "]", Min(j + 1, |s|))
    else Fix(s[..1], 1)
  }

  /** `_fix_charclass_hyphens` */
  function Fixed(s: string): string
    decreases |s|
  {
    if s == "" then "" else FixNext(s).text + Fixed(s[FixNext(s).len..])
  }

  // ------------------------------------------------------------ normalization

  function Blanks(s: string): (r: nat)
    ensures r <= |s| && (forall i :: 0 <= i < r ==> s[i] in " \t") && (r < |s| ==> s[r] !in " \t")
  {
    if s == "" || s[0] !in " \t" then 0 else 1 + Blanks(s[1..])
  }

  /** The length of a rule header, up to and including `::=`, at the start of a
      line; 0 if there is none. */
  function HeaderLen(s: string): (r: nat)
    ensures r <= |s|
  {
    var atName := s[Blanks(s)..];
    var atGap := atName[NameLen(atName)..];
    var atDefine := atGap[Blanks(atGap)..];
    if NameLen(atName) > 0 && "::=" <= atDefine then |s| - |atDefine| + 3 else 0
  }

  /** Past the first line break, or the end. */
  function LineLen(s: string): (r: nat)
    ensures r <= |s| && (s != "" ==> r > 0)
  {
    Min(Find(s, '\n') + 1, |s|)
  }

  /** Up to the next line that starts with a header. */
  function ToHeader(s: string): (r: nat)
    ensures r <= |s|
    decreases |s|
  {
    if s == "" || HeaderLen(s) > 0 then 0 else LineLen(s) + ToHeader(s[LineLen(s)..])
  }

  /** The text of the rule whose header is here. */
  function BlockLen(s: string): (r: nat)
    requires s != ""
    ensures 0 < r <= |s|
  {
    LineLen(s) + ToHeader(s[LineLen(s)..])
  }

  function FindDefine(s: string): (r: nat)
    ensures r <= |s|
  {
    if s == "" || "::=" <= s then 0 else 1 + FindDefine(s[1..])
  }

  function Depth(s: string): int {
    if s == "" then 0
    else Depth(s[..|s| - 1]) + (if s[|s| - 1] == '(' then 1 else if s[|s| - 1] == ')' then -1 else 0)
  }

  /** `_is_single_paren_group`: parentheses are counted wherever they stand, also
      inside literals. */
  predicate SingleGroup(body: string) {
    && body != "" && body[0] == '(' && body[|body| - 1] == ')' && Depth(body) == 0
    && forall i :: 0 <= i < |body| - 1 && body[i] == ')' ==> Depth(body[..i + 1]) != 0
  }

  /** Head up to `::=`, body without surrounding white space, white space after. */
  datatype Parts = Parts(head: string, rhs: string, body: string, trailer: string)

  function Cut(block: string): Parts {
    var d := Min(FindDefine(block) + 3, |block|);
    var rhs := block[d..];
    var stripped := RStrip(rhs);
    RStripShorter(rhs);
    Parts(block[..d], rhs, LStrip(stripped), rhs[|stripped|..])
  }

  predicate Rewraps(block: string) {
    var body := Cut(block).body;
    '\n' in body && !SingleGroup(body)
  }

  function Rewrapped(block: string): string {
    var p := Cut(block);
    if Rewraps(block) then p.head + " (\n" + p.body + "\n)" + p.trailer else block
  }

  function Blocks(s: string): string
    decreases |s|
  {
    if s == "" then "" else Rewrapped(s[..BlockLen(s)]) + Blocks(s[BlockLen(s)..])
  }

  /** The part of `normalize` after the hyphen fix. */
  function Wrapped(s: string): string {
    s[..ToHeader(s)] + Blocks(s[ToHeader(s)..])
  }

  function Normalized(src: string): string {
    Wrapped(Fixed(src))
  }

  lemma {:induction false} RStripShorter(s: string)
    ensures |RStrip(s)| <= |s| && RStrip(s) == s[..|RStrip(s)|]
    ensures forall i :: |RStrip(s)| <= i < |s| ==> IsPySpace(s[i])
  {
    if s != "" && IsPySpace(s[|s| - 1]) {
      RStripShorter(s[..|s| - 1]);
    }
  }

  // ---------------------------------------------------------------- the loops

  lemma {:induction false} LitShift(s: string, i: nat, j: nat, close: char)
    requires i + j <= |s|
    ensures LitEnd(s, i + j, close) == i + LitEnd(s[i..], j, close)
    decreases |s| - j
  {
    if i + j < |s| {
      if s[i + j] == '\\' && i + j + 1 < |s| {
        LitShift(s, i, j + 2, close);
      } else if s[i + j] != close {
        LitShift(s, i, j + 1, close);
      }
    }
  }

  /** The inner loop that both scanners share. */
  method ScanLiteral(src: string, i: nat, close: char) returns (j: nat)
    requires i < |src|
    ensures j == i + LitEnd(src[i..], 1, close) && j <= |src|
  {
    j := i + 1;
    while j < |src|
      invariant i < j <= |src|
      invariant LitEnd(src, j, close) == LitEnd(src, i + 1, close)
    {
      if src[j] == '\\' && j + 1 < |src| {
        j := j + 2;
        continue;
      }
      if src[j] == close { break; }
      j := j + 1;
    }
    LitShift(src, i, 1, close);
  }

  /** One turn of the tokenizer's loop. */
  method Bitten(src: string, i: nat) returns (toks: seq<Tok>, len: nat)
    requires i < |src|
    ensures Bite(toks, len) == Next(src[i..])
  {
    hide Find, LitEnd, NameLen;
    var c := src[i];
    var s := src[i..];
    if c == '#' { return [], Find(s, '\n'); }
    if c == '\n' { return [NL], 1; }
    if c in " \t\r" { return [], 1; }
    if c == '"' {
      var j := ScanLiteral(src, i, '"');
      var end := Min(j + 1, |src|);
      assert src[i..end] == s[..end - i];
      return [Tok(Str, src[i..end])], end - i;
    }
    if c == '[' {
      var j := ScanLiteral(src, i, ']');
      var end := Min(j + 1, |src|);
      assert src[i..end] == s[..end - i];
      return [Tok(Class, src[i..end])], end - i;
    }
    if "::=" <= s { return [Tok(Define, "::=")], 3; }
    if c == '(' { return [Tok(LParen, "(")], 1; }
    if c == ')' { return [Tok(RParen, ")")], 1; }
    if c == '|' { return [Tok(Pipe, "|")], 1; }
    if c in "*+?" { return [Tok(Op, [c])], 1; }
    if c == '{' {
      var j := Find(s, '}');
      if j == |s| { return [Tok(Op, "{")], 1; }
      return [Tok(Repeat, s[..j + 1])], j + 1;
    }
    var n := NameLen(s);
    if n > 0 { return [Tok(Name, s[..n])], n; }
    return [], 1;
  }

  method Tokenize(src: string) returns (toks: seq<Tok>)
    ensures toks == Tokens(src)
  {
    hide Next;
    toks := [];
    var i := 0;
    while i < |src|
      invariant i <= |src|
      invariant Tokens(src) == toks + Tokens(src[i..])
    {
      var more, len := Bitten(src, i);
      assert src[i + len..] == src[i..][len..];
      toks, i := toks + more, i + len;
    }
  }

  /** One turn of the fixer's loop. */
  method FixedBite(src: string, i: nat) returns (text: string, len: nat)
    requires i < |src|
    ensures Fix(text, len) == FixNext(src[i..])
  {
    hide Find, LitEnd, HasEscapedHyphen, Unescaped;
    var c := src[i];
    var s := src[i..];
    if c == '"' {
      var j := ScanLiteral(src, i, '"');
      len := Min(j + 1, |src|) - i;
      return s[..len], len;
    }
    if c == '#' {
      len := Find(s, '\n');
      return s[..len], len;
    }
    if c == '[' {
      var j := ScanLiteral(src, i, ']');
      var inner := src[i + 1..j];
      assert inner == s[1..j - i];
      if HasEscapedHyphen(inner) {
        inner := Unescaped(inner);
        if !(inner != "" && inner[|inner| - 1] == '-') {
          inner := inner + "-";
        }
      }
      return "[" + inner + "]", Min(j + 1, |src|) - i;
    }
    return s[..1], 1;
  }

  method FixCharclassHyphens(src: string) returns (out: string)
    ensures out == Fixed(src)
  {
    hide FixNext;
    out := "";
    var i := 0;
    while i < |src|
      invariant i <= |src|
      invariant Fixed(src) == out + Fixed(src[i..])
    {
      var text, len := FixedBite(src, i);
      assert src[i + len..] == src[i..][len..];
      out, i := out + text, i + len;
    }
  }

  method IsSingleParenGroup(body: string) returns (r: bool)
    ensures r == SingleGroup(body)
  {
    if body == "" || body[0] != '(' || body[|body| - 1] != ')' {
      return false;
    }
    var depth := 0;
    for k := 0 to |body|
      invariant depth == Depth(body[..k])
      invariant forall i :: 0 <= i < k && i < |body| - 1 && body[i] == ')' ==> Depth(body[..i + 1]) != 0
    {
      assert body[..k + 1][..k] == body[..k];
      if body[k] == '(' {
        depth := depth + 1;
      } else if body[k] == ')' {
        depth := depth - 1;
        if depth == 0 && k != |body| - 1 {
          return false;
        }
      }
    }
    assert body[..|body|] == body;
    return depth == 0;
  }

  /** The starts of all header lines at or after a line start. */
  function Headers(src: string, p: nat): (r: seq<nat>)
    requires p <= |src|
    ensures forall h :: h in r ==> p <= h < |src|
    decreases |src| - p
  {
    if p == |src| then []
    else (if HeaderLen(src[p..]) > 0 then [p] else []) + Headers(src, p + LineLen(src[p..]))
  }

  lemma {:induction false} NextHeader(src: string, p: nat)
    requires p <= |src|
    ensures var q := p + ToHeader(src[p..]);
            if q == |src| then Headers(src, p) == []
            else
              && HeaderLen(src[q..]) > 0
              && Headers(src, p) == [q] + Headers(src, q + LineLen(src[q..]))
    decreases |src| - p
  {
    hide HeaderLen, LineLen;
    if p < |src| && HeaderLen(src[p..]) == 0 {
      var l := LineLen(src[p..]);
      assert src[p..][l..] == src[p + l..];
      NextHeader(src, p + l);
    }
  }

  /** One rule of the normalization loop. */
  method RewrapBlock(block: string) returns (out: string)
    ensures out == Rewrapped(block)
  {
    hide FindDefine, RStrip, LStrip, SingleGroup;
    var define := Min(FindDefine(block) + 3, |block|);
    var head, rhs := block[..define], block[define..];
    var stripped := RStrip(rhs);
    RStripShorter(rhs);
    var trailer, body := rhs[|stripped|..], LStrip(stripped);
    var single := IsSingleParenGroup(body);
    if '\n' in body && !single && body != "" {
      out := head + " (\n" + body + "\n)" + trailer;
    } else {
      out := block;
    }
  }

  /** From one header to the next. */
  lemma HeaderStep(s: string, start: nat)
    requires start < |s|
    ensures var t := s[start..];
            var end := start + BlockLen(t);
            var next := Headers(s, start + LineLen(t));
            && end <= |s| && s[end..] == t[BlockLen(t)..] && s[start..end] == t[..BlockLen(t)]
            && (if end == |s| then next == []
                else next == [end] + Headers(s, end + LineLen(s[end..])))
  {
    hide HeaderLen, LineLen, ToHeader;
    var t := s[start..];
    assert s[start + LineLen(t)..] == t[LineLen(t)..];
    NextHeader(s, start + LineLen(t));
  }

  method Normalize(src: string) returns (out: string)
    ensures out == Normalized(src)
  {
    hide Fixed, HeaderLen, LineLen, BlockLen, ToHeader, Rewrapped, Headers, Find;
    var s := FixCharclassHyphens(src);
    var headers := Headers(s, 0);
    NextHeader(s, 0);
    assert s[0..] == s;
    if headers == [] {
      return s;
    }
    assert forall k :: 0 <= k < |headers| ==> headers[k] in headers;
    out := s[..headers[0]];
    ghost var at := headers[0];
    for k := 0 to |headers|
      invariant at == (if k < |headers| then headers[k] else |s|) <= |s|
      invariant Wrapped(s) == out + Blocks(s[at..])
      invariant at < |s| ==> headers[k..] == [at] + Headers(s, at + LineLen(s[at..]))
    {
      HeaderStep(s, at);
      assert headers[k + 1..] == headers[k..][1..];
      var end := if k + 1 < |headers| then headers[k + 1] else |s|;
      var text := RewrapBlock(s[headers[k]..end]);
      out := out + text;
      at := end;
    }
  }
}
