/**
 * `chunk_html_text` (bot/core/formatters.py): a paginator that closes the open tags at the end of a
 * page and reopens them at the start of the next one. This module holds the program and how a text
 * is read; HtmlPages and HtmlPageBreaks say what its pages are.
 *
 * A text is read as tokens the way the tag pattern of the source reads it. The meaning of a text is
 * the sequence of its visible characters, each with the names of the tags it stands under.
 */
module HtmlChunker {
  import opened Text

  // ---------------------------------------------------------------- tokens

  /** `Void` is a self-closing tag, which the program neither opens nor closes. */
  datatype Token = Chr(c: char) | Open(name: string) | Close(name: string) | Void(raw: string)

  datatype Match = NoMatch | Match(tok: Token, len: nat)

  predicate IsLetter(c: char) { 'a' <= c <= 'z' || 'A' <= c <= 'Z' }

  predicate IsNameChar(c: char) { IsLetter(c) || '0' <= c <= '9' || c == '-' }

  function NameEnd(s: string, i: nat): (e: nat)
    requires i <= |s|
    ensures i <= e <= |s|
    decreases |s| - i
  {
    if i < |s| && IsNameChar(s[i]) then NameEnd(s, i + 1) else i
  }

  function FindGt(s: string, i: nat): (g: nat)
    requires i <= |s|
    ensures i <= g <= |s|
    decreases |s| - i
  {
    if i < |s| && s[i] != '>' then FindGt(s, i + 1) else i
  }

  lemma {:induction false} NameEndShape(s: string, i: nat)
    requires i <= |s|
    ensures forall k :: i <= k < NameEnd(s, i) ==> IsNameChar(s[k])
    ensures NameEnd(s, i) < |s| ==> !IsNameChar(s[NameEnd(s, i)])
    decreases |s| - i
  {
    if i < |s| && IsNameChar(s[i]) {
      NameEndShape(s, i + 1);
    }
  }

  lemma {:induction false} FindGtShape(s: string, i: nat)
    requires i <= |s|
    ensures forall k :: i <= k < FindGt(s, i) ==> s[k] != '>'
    ensures FindGt(s, i) < |s| ==> s[FindGt(s, i)] == '>'
    decreases |s| - i
  {
    if i < |s| && s[i] != '>' {
      FindGtShape(s, i + 1);
    }
  }

  /** Where a tag name starts in a text that begins with `<` or `</`. */
  function NameStart(s: string): nat { if |s| > 1 && s[1] == '/' then 2 else 1 }

  /** The text begins like a tag: `<` or `</` followed by a letter. */
  predicate HeadAt(s: string) {
    s != "" && s[0] == '<' && NameStart(s) < |s| && IsLetter(s[NameStart(s)])
  }

  /** The match of `<(/?)([a-zA-Z][a-zA-Z0-9-]*)([^>]*?)(/?)>` at the start of `s`. */
  function TagAt(s: string): (m: Match)
    ensures m.Match? ==> 0 < m.len <= |s|
  {
    if !HeadAt(s) then NoMatch
    else
      var b := NameStart(s);
      var e := NameEnd(s, b);
      var g := FindGt(s, e);
      if g == |s| then NoMatch
      else
        var name := Lower(s[b..e]);
        if g > e && s[g - 1] == '/' then Match(Void(s[..g + 1]), g + 1)
        else if b == 2 then Match(Close(name), g + 1)
        else Match(Open(name), g + 1)
  }

  /** The length of the first token of a text. */
  function First(s: string): (n: nat)
    requires s != ""
    ensures 0 < n <= |s|
  {
    if TagAt(s).Match? then TagAt(s).len else 1
  }

  function TokenAt(s: string): Token
    requires s != ""
  {
    if TagAt(s).Match? then TagAt(s).tok else Chr(s[0])
  }

  /** The text as tags and single characters, read from the left without overlap. */
  function Tokens(s: string): seq<Token>
    decreases |s|
  {
    if s == "" then [] else [TokenAt(s)] + Tokens(s[First(s)..])
  }

  /** No tag is begun in `s` without being finished in `s`. */
  predicate Closed(s: string)
    decreases |s|
  {
    s == "" || ((HeadAt(s) ==> TagAt(s).Match?) && Closed(s[First(s)..]))
  }

  // ---------------------------------------------------------------- stacks and meaning

  predicate ValidName(n: string) {
    && n != ""
    && 'a' <= n[0] <= 'z'
    && forall i :: 0 <= i < |n| ==> IsNameChar(n[i]) && !('A' <= n[i] <= 'Z')
  }

  predicate ValidStack(open: seq<string>) { forall i :: 0 <= i < |open| ==> ValidName(open[i]) }

  /** One step of the program's tag stack: a closing tag pops only its own name. */
  function Step(t: Token, open: seq<string>): seq<string> {
    match t
    case Open(n) => open + [n]
    case Close(n) => if open != [] && open[|open| - 1] == n then open[..|open| - 1] else open
    case _ => open
  }

  function After(ts: seq<Token>, open: seq<string>): seq<string> {
    if ts == [] then open else After(ts[1..], Step(ts[0], open))
  }

  /** Every closing tag closes the innermost open tag. */
  predicate Nested(ts: seq<Token>, open: seq<string>) {
    if ts == [] then true
    else
      && (ts[0].Close? ==> open != [] && open[|open| - 1] == ts[0].name)
      && Nested(ts[1..], Step(ts[0], open))
  }

  /** A visible piece of text and the tags it stands under, outermost first. */
  datatype Glyph = Glyph(tok: Token, under: seq<string>)

  predicate Visible(t: Token) { t.Void? || (t.Chr? && !IsSpace(t.c)) }

  function Meaning(ts: seq<Token>, open: seq<string>): seq<Glyph> {
    if ts == [] then []
    else (if Visible(ts[0]) then [Glyph(ts[0], open)] else []) + Meaning(ts[1..], Step(ts[0], open))
  }

  predicate WellNested(page: string) { Nested(Tokens(page), []) && After(Tokens(page), []) == [] }

  function PagesMeaning(pages: seq<string>): seq<Glyph> {
    if pages == [] then [] else Meaning(Tokens(pages[0]), []) + PagesMeaning(pages[1..])
  }

  predicate AllWellNested(pages: seq<string>) { forall i :: 0 <= i < |pages| ==> WellNested(pages[i]) }

  // ---------------------------------------------------------------- the paginator

  function Closers(open: seq<string>): string {
    if open == [] then "" else "</" + open[|open| - 1] + ">" + Closers(open[..|open| - 1])
  }

  function Openers(open: seq<string>): string {
    if open == [] then "" else "<" + open[0] + ">" + Openers(open[1..])
  }

  /** The pages made of the text collected so far (`cur`, with `open` tags) and the lines to come. */
  function Chunk(lines: seq<string>, cur: string, open: seq<string>, maxLength: nat): seq<string> {
    if lines == [] then
      if Strip(cur) == "" then [] else [Strip(cur) + Closers(open)]
    else
      var line, rest := lines[0], lines[1..];
      if |cur| + |line| + 1 > maxLength then
        if cur == "" then
          [line[..maxLength]] + Chunk(rest, line[maxLength..] + "\n", open, maxLength)
        else
          [Strip(cur) + Closers(open)] +
          Chunk(rest, Openers(open) + line + "\n", After(Tokens(line), open), maxLength)
      else
        Chunk(rest, cur + line + "\n", After(Tokens(line), open), maxLength)
  }

  /** The closing tags for a stack, written innermost first. */
  method CloseAll(open: seq<string>) returns (suffix: string)
    ensures suffix == Closers(open)
  {
    suffix := "";
    var i := |open|;
    assert open[..i] == open;
    while i > 0
      invariant 0 <= i <= |open|
      invariant suffix + Closers(open[..i]) == Closers(open)
    {
      assert open[..i][..i - 1] == open[..i - 1];
      i := i - 1;
      suffix := suffix + "</" + open[i] + ">";
    }
  }

  method Reopen(open: seq<string>) returns (prefix: string)
    ensures prefix == Openers(open)
  {
    prefix := "";
    var i := 0;
    while i < |open|
      invariant 0 <= i <= |open|
      invariant prefix + Openers(open[i..]) == Openers(open)
    {
      OpenersAt(prefix, open, i);
      prefix := prefix + "<" + open[i] + ">";
      i := i + 1;
    }
  }

  lemma OpenersAt(prefix: string, open: seq<string>, i: nat)
    requires i < |open|
    ensures prefix + Openers(open[i..]) == prefix + "<" + open[i] + ">" + Openers(open[i + 1..])
  {
    assert open[i..][1..] == open[i + 1..];
  }

  /** The inner loop over the tags of one line: `finditer` and the stack updates. */
  method TrackTags(line: string, open: seq<string>) returns (now: seq<string>)
    ensures now == After(Tokens(line), open)
  {
    now := open;
    var rest := line;
    while rest != ""
      invariant After(Tokens(rest), now) == After(Tokens(line), open)
      decreases |rest|
    {
      match TagAt(rest) {
        case Match(tok, len) =>
          match tok {
            case Open(name) => now := now + [name];
            case Close(name) =>
              if now != [] && now[|now| - 1] == name {
                now := now[..|now| - 1];
              }
            case _ =>
          }
          rest := rest[len..];
        case NoMatch =>
          rest := rest[1..];
      }
    }
  }

  method ChunkHtmlText(text: string, maxLength: nat) returns (pages: seq<string>)
    ensures pages == Chunk(Split(text, '\n'), "", [], maxLength)
  {
    var lines := Split(text, '\n');
    pages := [];
    var currentPage, openTags := "", [];
    var i := 0;
    while i < |lines|
      invariant 0 <= i <= |lines|
      invariant pages + Chunk(lines[i..], currentPage, openTags, maxLength) == Chunk(lines, "", [], maxLength)
    {
      var line := lines[i];
      ghost var done := pages;
      ghost var rest := lines[i..];
      assert rest[0] == line && rest[1..] == lines[i + 1..];
      i := i + 1;
      if |currentPage| + |line| + 1 > maxLength {
        if currentPage == "" {
          pages := pages + [line[..maxLength]];
          currentPage := line[maxLength..] + "\n";
          Regroup(done, line[..maxLength], Chunk(rest[1..], currentPage, openTags, maxLength));
          continue;
        }
        var suffix := CloseAll(openTags);
        ghost var page := Strip(currentPage) + suffix;
        pages := pages + [Strip(currentPage) + suffix];
        var prefix := Reopen(openTags);
        currentPage := prefix + line + "\n";
        openTags := TrackTags(line, openTags);
        Regroup(done, page, Chunk(rest[1..], currentPage, openTags, maxLength));
      } else {
        currentPage := currentPage + line + "\n";
        openTags := TrackTags(line, openTags);
      }
    }
    assert lines[i..] == [];
    if Strip(currentPage) != "" {
      var suffix := CloseAll(openTags);
      pages := pages + [Strip(currentPage) + suffix];
    }
  }

  lemma Regroup(done: seq<string>, page: string, more: seq<string>)
    ensures done + ([page] + more) == done + [page] + more
  {
  }

  // ---------------------------------------------------------------- tokens of concatenated texts

  lemma {:induction false} NameEndAppend(a: string, b: string, i: nat)
    requires i <= |a| && NameEnd(a, i) < |a|
    ensures NameEnd(a + b, i) == NameEnd(a, i)
    decreases |a| - i
  {
    if IsNameChar(a[i]) {
      NameEndAppend(a, b, i + 1);
    }
  }

  lemma {:induction false} FindGtAppend(a: string, b: string, i: nat)
    requires i <= |a| && FindGt(a, i) < |a|
    ensures FindGt(a + b, i) == FindGt(a, i)
    decreases |a| - i
  {
    if a[i] != '>' {
      FindGtAppend(a, b, i + 1);
    }
  }

  lemma TagAtAppend(a: string, b: string)
    requires TagAt(a).Match?
    ensures TagAt(a + b) == TagAt(a)
  {
    var s := NameStart(a);
    var e := NameEnd(a, s);
    var g := FindGt(a, e);
    NameEndAppend(a, b, s);
    FindGtAppend(a, b, e);
    assert (a + b)[s..e] == a[s..e];
    assert (a + b)[..g + 1] == a[..g + 1];
  }

  /** Joining `a` and `b` cannot turn the end of `a` into the beginning of a tag. */
  predicate Safe(a: string, b: string) {
    || a == "" || b == ""
    || (!IsLetter(b[0]) && b[0] != '/')
    || (a[|a| - 1] != '<' && a[|a| - 1] != '/')
    || '<' !in a
  }

  /** What is not a tag in `a` does not become one when `b` follows. */
  lemma NoTagAppend(a: string, b: string)
    requires a != "" && Safe(a, b) && !HeadAt(a)
    ensures TagAt(a + b).NoMatch? && !HeadAt(a + b)
  {
  }

  lemma SafeSuffix(a: string, b: string, k: nat)
    requires Safe(a, b) && k <= |a|
    ensures Safe(a[k..], b)
  {
    if '<' !in a {
      assert '<' !in a[k..];
    }
  }

  /** A finished beginning is read the same whatever follows it. */
  lemma FirstAppend(a: string, b: string)
    requires a != "" && Closed(a) && Safe(a, b)
    ensures First(a + b) == First(a) && (a + b)[First(a)..] == a[First(a)..] + b
    ensures TokenAt(a + b) == TokenAt(a)
    ensures HeadAt(a + b) ==> TagAt(a + b).Match?
    ensures Safe(a[First(a)..], b)
  {
    SafeSuffix(a, b, First(a));
    FirstTokenAppend(a, b);
  }

  lemma FirstTokenAppend(a: string, b: string)
    requires a != "" && Closed(a) && Safe(a, b)
    ensures TagAt(a + b).Match? == TagAt(a).Match? && TokenAt(a + b) == TokenAt(a)
    ensures TagAt(a).Match? ==> TagAt(a + b).len == TagAt(a).len
    ensures TagAt(a).NoMatch? ==> !HeadAt(a + b)
  {
    if TagAt(a).Match? {
      TagAtAppend(a, b);
    } else {
      NoTagAppend(a, b);
    }
  }

  lemma {:induction false} TokensAppend(a: string, b: string)
    requires Closed(a) && Safe(a, b)
    ensures Tokens(a + b) == Tokens(a) + Tokens(b)
    ensures Closed(a + b) == Closed(b)
    decreases |a|
  {
    if a == "" {
      assert a + b == b;
    } else {
      var more := a[First(a)..];
      FirstAppend(a, b);
      TokensAppend(more, b);
      FirstToken(a, more);
      FirstToken(a + b, more + b);
      Prepend(TokenAt(a), Tokens(more), Tokens(b));
    }
  }

  lemma FirstToken(s: string, rest: string)
    requires s != "" && s[First(s)..] == rest
    ensures Tokens(s) == [TokenAt(s)] + Tokens(rest)
    ensures Closed(s) == ((HeadAt(s) ==> TagAt(s).Match?) && Closed(rest))
  {
  }

  lemma Prepend(t: Token, x: seq<Token>, y: seq<Token>)
    ensures [t] + (x + y) == ([t] + x) + y
  {
  }

  /** A trailing white space is never part of a tag. */
  lemma FirstDropSpace(s: string, w: char)
    requires s != "" && IsSpace(w)
    ensures First(s + [w]) == First(s) && (s + [w])[First(s)..] == s[First(s)..] + [w]
    ensures TokenAt(s + [w]) == TokenAt(s)
    ensures HeadAt(s + [w]) == HeadAt(s) && TagAt(s + [w]).Match? == TagAt(s).Match?
  {
    if TagAt(s).Match? {
      TagAtAppend(s, [w]);
    } else if TagAt(s + [w]).Match? {
      SpaceIsNotInTag(s, w);
      assert false;
    }
  }

  lemma {:induction false} TokensDropSpace(s: string, w: char)
    requires IsSpace(w)
    ensures Tokens(s + [w]) == Tokens(s) + [Chr(w)]
    ensures Closed(s + [w]) == Closed(s)
    decreases |s|
  {
    if s == "" {
      assert (s + [w])[1..] == "";
    } else {
      FirstDropSpace(s, w);
      TokensDropSpace(s[First(s)..], w);
    }
  }

  lemma SpaceIsNotInTag(s: string, w: char)
    requires s != "" && IsSpace(w) && TagAt(s + [w]).Match?
    ensures TagAt(s).Match?
  {
    var t := s + [w];
    var b := NameStart(t);
    var g := FindGt(t, NameEnd(t, b));
    FindGtShape(t, NameEnd(t, b));
    assert t[|s|] == w;
    assert g < |s|;
    assert HeadAt(s);
    var e := NameEnd(s, b);
    NameEndShape(s, b);
    FindGtShape(s, e);
    assert s[g] == '>' && !IsNameChar(s[g]);
    assert e <= g;
    assert FindGt(s, e) <= g;
  }

  // ---------------------------------------------------------------- tokens and stacks

  lemma {:induction false} AfterAppend(x: seq<Token>, y: seq<Token>, open: seq<string>)
    ensures After(x + y, open) == After(y, After(x, open))
  {
    if x == [] {
      assert x + y == y;
    } else {
      assert (x + y)[1..] == x[1..] + y;
      AfterAppend(x[1..], y, Step(x[0], open));
    }
  }

  lemma {:induction false} NestedAppend(x: seq<Token>, y: seq<Token>, open: seq<string>)
    ensures Nested(x + y, open) <==> Nested(x, open) && Nested(y, After(x, open))
  {
    if x == [] {
      assert x + y == y;
    } else {
      assert (x + y)[1..] == x[1..] + y;
      NestedAppend(x[1..], y, Step(x[0], open));
    }
  }

  lemma {:induction false} MeaningAppend(x: seq<Token>, y: seq<Token>, open: seq<string>)
    ensures Meaning(x + y, open) == Meaning(x, open) + Meaning(y, After(x, open))
  {
    if x == [] {
      assert x + y == y;
    } else {
      assert (x + y)[1..] == x[1..] + y;
      var here := if Visible(x[0]) then [Glyph(x[0], open)] else [];
      var now := Step(x[0], open);
      MeaningAppend(x[1..], y, now);
      Reassociate(here, Meaning(x[1..], now), Meaning(y, After(x[1..], now)));
    }
  }

  lemma MarkupAppend(x: seq<Token>, y: seq<Token>, open: seq<string>)
    ensures After(x + y, open) == After(y, After(x, open))
    ensures Nested(x + y, open) <==> Nested(x, open) && Nested(y, After(x, open))
    ensures Meaning(x + y, open) == Meaning(x, open) + Meaning(y, After(x, open))
  {
    AfterAppend(x, y, open);
    NestedAppend(x, y, open);
    MeaningAppend(x, y, open);
  }

  lemma TagNameValid(s: string)
    requires TagAt(s).Match? && TagAt(s).tok.Open?
    ensures ValidName(TagAt(s).tok.name)
  {
    var b := NameStart(s);
    var e := NameEnd(s, b);
    NameEndShape(s, b);
    assert s[b..e][0] == s[b];
  }

  lemma {:induction false} TokensValid(s: string, open: seq<string>)
    requires ValidStack(open)
    ensures ValidStack(After(Tokens(s), open))
    decreases |s|
  {
    if s != "" {
      if TokenAt(s).Open? {
        TagNameValid(s);
      }
      TokensValid(s[First(s)..], Step(TokenAt(s), open));
    }
  }

  /** White space alone carries no tag and no meaning. */
  lemma {:induction false} BlankTokens(s: string, open: seq<string>)
    requires forall i :: 0 <= i < |s| ==> IsSpace(s[i])
    ensures Closed(s)
    ensures After(Tokens(s), open) == open && Nested(Tokens(s), open) && Meaning(Tokens(s), open) == []
  {
    if s != "" {
      BlankTokens(s[1..], open);
    }
  }

  /** Two texts no reader can tell apart once white space is ignored. */
  predicate SameMarkup(a: string, b: string, open: seq<string>) {
    && After(Tokens(a), open) == After(Tokens(b), open)
    && (Nested(Tokens(a), open) <==> Nested(Tokens(b), open))
    && Meaning(Tokens(a), open) == Meaning(Tokens(b), open)
  }

  lemma {:induction false} StripLeftMarkup(s: string, open: seq<string>)
    ensures SameMarkup(StripLeft(s), s, open)
    ensures Closed(s) == Closed(StripLeft(s))
  {
    if s != "" && IsSpace(s[0]) {
      StripLeftMarkup(s[1..], open);
    }
  }

  lemma {:induction false} StripRightMarkup(s: string, open: seq<string>)
    ensures SameMarkup(StripRight(s), s, open)
    ensures Closed(s) == Closed(StripRight(s))
  {
    if s != "" && IsSpace(s[|s| - 1]) {
      var init, w := s[..|s| - 1], s[|s| - 1];
      assert s == init + [w];
      TokensDropSpace(init, w);
      MarkupAppend(Tokens(init), [Chr(w)], open);
      StripRightMarkup(init, open);
    }
  }

  lemma StripMarkup(s: string, open: seq<string>)
    ensures SameMarkup(Strip(s), s, open)
    ensures Closed(s) == Closed(Strip(s))
  {
    StripLeftMarkup(s, open);
    StripRightMarkup(StripLeft(s), open);
  }

  // ---------------------------------------------------------------- the inserted tags

  lemma {:induction false} NameEndValid(n: string, b: nat, s: string, i: nat)
    requires ValidName(n) && b <= i <= b + |n| < |s| && s[b..b + |n|] == n && s[b + |n|] == '>'
    ensures NameEnd(s, i) == b + |n|
    decreases b + |n| - i
  {
    if i < b + |n| {
      assert s[i] == n[i - b];
      NameEndValid(n, b, s, i + 1);
    }
  }

  lemma LowerValid(n: string)
    requires ValidName(n)
    ensures Lower(n) == n
  {
  }

  lemma OpenerToken(n: string, rest: string)
    requires ValidName(n)
    ensures Tokens("<" + n + ">" + rest) == [Open(n)] + Tokens(rest)
    ensures Closed("<" + n + ">" + rest) == Closed(rest)
  {
    var s := "<" + n + ">" + rest;
    assert s[1] == n[0];
    assert s[1..1 + |n|] == n;
    assert s[1 + |n|] == '>';
    NameEndValid(n, 1, s, 1);
    LowerValid(n);
    assert TagAt(s) == Match(Open(n), |n| + 2);
    assert s[|n| + 2..] == rest;
  }

  lemma CloserToken(n: string, rest: string)
    requires ValidName(n)
    ensures Tokens("</" + n + ">" + rest) == [Close(n)] + Tokens(rest)
    ensures Closed("</" + n + ">" + rest) == Closed(rest)
  {
    var s := "</" + n + ">" + rest;
    assert s[2] == n[0];
    assert s[2..2 + |n|] == n;
    assert s[2 + |n|] == '>';
    NameEndValid(n, 2, s, 2);
    LowerValid(n);
    assert TagAt(s) == Match(Close(n), |n| + 3);
    assert s[|n| + 3..] == rest;
  }

  lemma {:induction false} OpenersEnd(open: seq<string>)
    ensures Openers(open) != "" ==> Openers(open)[|Openers(open)| - 1] == '>'
  {
    if open != [] {
      OpenersEnd(open[1..]);
    }
  }

  function OpenTokens(open: seq<string>): seq<Token> {
    if open == [] then [] else [Open(open[0])] + OpenTokens(open[1..])
  }

  lemma {:induction false} OpenersTokens(open: seq<string>)
    requires ValidStack(open)
    ensures Closed(Openers(open)) && Tokens(Openers(open)) == OpenTokens(open)
  {
    if open != [] {
      OpenerToken(open[0], Openers(open[1..]));
      OpenersTokens(open[1..]);
    }
  }

  /** The reopened tags rebuild the stack. */
  lemma {:induction false} OpenersMarkup(open: seq<string>, below: seq<string>)
    ensures After(OpenTokens(open), below) == below + open
    ensures Nested(OpenTokens(open), below)
    ensures Meaning(OpenTokens(open), below) == []
  {
    if open == [] {
      assert below + open == below;
    } else {
      var deeper := below + [open[0]];
      assert deeper + open[1..] == below + open;
      OneMore(Open(open[0]), OpenTokens(open[1..]), below);
      OpenersMarkup(open[1..], deeper);
    }
  }

  lemma OneMore(t: Token, rest: seq<Token>, open: seq<string>)
    requires !Visible(t) && (t.Close? ==> open != [] && open[|open| - 1] == t.name)
    ensures After([t] + rest, open) == After(rest, Step(t, open))
    ensures Nested([t] + rest, open) == Nested(rest, Step(t, open))
    ensures Meaning([t] + rest, open) == Meaning(rest, Step(t, open))
  {
    assert ([t] + rest)[1..] == rest;
  }

  function CloseTokens(open: seq<string>): seq<Token> {
    if open == [] then [] else [Close(open[|open| - 1])] + CloseTokens(open[..|open| - 1])
  }

  lemma {:induction false} ClosersTokens(open: seq<string>)
    requires ValidStack(open)
    ensures Closed(Closers(open)) && Tokens(Closers(open)) == CloseTokens(open)
  {
    if open != [] {
      CloserToken(open[|open| - 1], Closers(open[..|open| - 1]));
      ClosersTokens(open[..|open| - 1]);
    }
  }

  /**
   * The inserted closing tags show nothing, and they close in order exactly the tags they were made
   * from.
   */
  lemma {:induction false} ClosersMarkup(closed: seq<string>, open: seq<string>)
    ensures Meaning(CloseTokens(closed), open) == []
    ensures Nested(CloseTokens(closed), open) && After(CloseTokens(closed), open) == [] <==> open == closed
  {
    if closed != [] {
      var top, below := closed[|closed| - 1], closed[..|closed| - 1];
      ClosersMarkup(below, Step(Close(top), open));
      CloseFirst(top, CloseTokens(below), open);
      if open != [] && open[|open| - 1] == top {
        SameTop(open, closed);
      }
    }
  }

  lemma SameTop(a: seq<string>, b: seq<string>)
    requires a != [] && b != [] && a[|a| - 1] == b[|b| - 1]
    ensures a == b <==> a[..|a| - 1] == b[..|b| - 1]
  {
    assert a == a[..|a| - 1] + [a[|a| - 1]] && b == b[..|b| - 1] + [b[|b| - 1]];
  }

  lemma CloseFirst(top: string, rest: seq<Token>, open: seq<string>)
    ensures Meaning([Close(top)] + rest, open) == Meaning(rest, Step(Close(top), open))
    ensures After([Close(top)] + rest, open) == After(rest, Step(Close(top), open))
    ensures Nested([Close(top)] + rest, open) <==>
              open != [] && open[|open| - 1] == top && Nested(rest, Step(Close(top), open))
  {
    assert ([Close(top)] + rest)[1..] == rest;
  }

  /** The newline after a line does not touch the tags. */
  lemma LineEnd(line: string, open: seq<string>)
    requires Closed(line)
    ensures Closed(line + "\n") && After(Tokens(line + "\n"), open) == After(Tokens(line), open)
  {
    TokensAppend(line, "\n");
    BlankTokens("\n", After(Tokens(line), open));
    AfterAppend(Tokens(line), Tokens("\n"), open);
  }

  lemma Reassociate(a: seq<Glyph>, b: seq<Glyph>, c: seq<Glyph>)
    ensures a + b + c == a + (b + c)
  {
  }

  // ---------------------------------------------------------------- texts that end inside a tag

  /** The tag begun at the start of `s` but not finished in it: it has its name, whatever follows. */
  function Unfinished(s: string): Token
    requires HeadAt(s)
  {
    var b := NameStart(s);
    var name := Lower(s[b..NameEnd(s, b)]);
    if b == 2 then Close(name) else Open(name)
  }

  /** The text read as tokens when a closing tag follows: it finishes the unfinished tag. */
  function Finished(s: string): seq<Token>
    decreases |s|
  {
    if s == "" then []
    else if HeadAt(s) && TagAt(s).NoMatch? then [Unfinished(s)]
    else [TokenAt(s)] + Finished(s[First(s)..])
  }

  lemma {:induction false} FinishedClosed(s: string)
    requires Closed(s)
    ensures Finished(s) == Tokens(s)
    decreases |s|
  {
    if s != "" {
      FinishedClosed(s[First(s)..]);
    }
  }

  /** A closed beginning is read as it is. */
  lemma {:induction false} FinishedPrepend(a: string, b: string)
    requires Closed(a) && Safe(a, b)
    ensures Finished(a + b) == Tokens(a) + Finished(b)
    decreases |a|
  {
    if a == "" {
      assert a + b == b;
    } else {
      var more := a[First(a)..];
      FirstAppend(a, b);
      FinishedPrepend(more, b);
      FirstToken(a, more);
      Prepend(TokenAt(a), Tokens(more), Finished(b));
    }
  }

  lemma {:induction false} NameEndStop(s: string, c: string, i: nat)
    requires i <= |s| && c != "" && !IsNameChar(c[0])
    ensures NameEnd(s + c, i) == NameEnd(s, i)
    decreases |s| - i
  {
    if i < |s| && IsNameChar(s[i]) {
      NameEndStop(s, c, i + 1);
    }
  }

  lemma {:induction false} FindGtAcross(s: string, c: string, i: nat)
    requires i <= |s| && FindGt(s, i) == |s|
    ensures FindGt(s + c, i) == |s| + FindGt(c, 0)
    decreases |s| - i
  {
    if i < |s| {
      FindGtAcross(s, c, i + 1);
    } else {
      FindGtShift(s, c, 0);
    }
  }

  lemma {:induction false} FindGtShift(s: string, c: string, k: nat)
    requires k <= |c|
    ensures FindGt(s + c, |s| + k) == |s| + FindGt(c, k)
    decreases |c| - k
  {
    if k < |c| && c[k] != '>' {
      FindGtShift(s, c, k + 1);
    }
  }

  lemma {:induction false} CloserGt(n: string, rest: string, i: nat)
    requires ValidName(n) && i <= |n| + 2
    ensures FindGt("</" + n + ">" + rest, i) == |n| + 2
    decreases |n| + 2 - i
  {
    var c := "</" + n + ">" + rest;
    if i < |n| + 2 {
      assert 2 <= i ==> c[i] == n[i - 2];
      CloserGt(n, rest, i + 1);
    }
  }

  /** The closing tag after an unfinished tag is read as the rest of it. */
  lemma CloserSwallowed(s: string, n: string, rest: string)
    requires HeadAt(s) && TagAt(s).NoMatch? && ValidName(n)
    ensures TagAt(s + ("</" + n + ">" + rest)) == Match(Unfinished(s), |s| + |n| + 3)
  {
    var c := "</" + n + ">" + rest;
    var b := NameStart(s);
    var e := NameEnd(s, b);
    NameEndStop(s, c, b);
    FindGtAcross(s, c, e);
    CloserGt(n, rest, 0);
    assert (s + c)[b..e] == s[b..e];
    assert (s + c)[|s| + |n| + 1] == c[|n| + 1] == n[|n| - 1];
  }

  lemma FirstBeforeTag(s: string, c: string)
    requires s != "" && c != "" && c[0] == '<' && (HeadAt(s) ==> TagAt(s).Match?)
    ensures First(s + c) == First(s) && (s + c)[First(s)..] == s[First(s)..] + c
    ensures TokenAt(s + c) == TokenAt(s)
  {
    if TagAt(s).Match? {
      TagAtAppend(s, c);
    } else {
      NoTagAppend(s, c);
    }
  }

  /** A text that ends inside a tag, with closing tags `c` after it. */
  lemma {:induction false} CloserFinishes(s: string, n: string, rest: string, c: string)
    requires !Closed(s) && ValidName(n) && c == "</" + n + ">" + rest
    ensures Tokens(s + c) == Finished(s) + Tokens(rest)
    decreases |s|
  {
    if HeadAt(s) && TagAt(s).NoMatch? {
      CloserSwallowed(s, n, rest);
      assert (s + c)[|s| + |n| + 3..] == rest;
      FirstToken(s + c, rest);
    } else {
      var more := s[First(s)..];
      FirstBeforeTag(s, c);
      CloserFinishes(more, n, rest, c);
      FirstToken(s + c, more + c);
      FirstFinished(s, more);
      Prepend(TokenAt(s), Finished(more), Tokens(rest));
    }
  }

  lemma FirstFinished(s: string, rest: string)
    requires s != "" && (HeadAt(s) ==> TagAt(s).Match?) && s[First(s)..] == rest
    ensures Finished(s) == [TokenAt(s)] + Finished(rest)
  {
  }

  /** Two readings no reader can tell apart. */
  predicate SameReading(x: seq<Token>, y: seq<Token>, open: seq<string>) {
    && After(x, open) == After(y, open)
    && (Nested(x, open) <==> Nested(y, open))
    && Meaning(x, open) == Meaning(y, open)
  }

  lemma {:induction false} FinishedDropSpace(s: string, w: char)
    requires IsSpace(w)
    ensures Finished(s + [w]) == Finished(s) || Finished(s + [w]) == Finished(s) + [Chr(w)]
    decreases |s|
  {
    if s == "" {
      assert (s + [w])[1..] == "";
    } else {
      FirstDropSpace(s, w);
      if HeadAt(s) && TagAt(s).NoMatch? {
        NameEndStop(s, [w], NameStart(s));
        assert (s + [w])[NameStart(s)..NameEnd(s, NameStart(s))] == s[NameStart(s)..NameEnd(s, NameStart(s))];
      } else {
        FinishedDropSpace(s[First(s)..], w);
      }
    }
  }

  lemma {:induction false} FinishedStripRight(s: string, open: seq<string>)
    ensures SameReading(Finished(StripRight(s)), Finished(s), open)
  {
    if s != "" && IsSpace(s[|s| - 1]) {
      var init, w := s[..|s| - 1], s[|s| - 1];
      assert s == init + [w];
      FinishedDropSpace(init, w);
      MarkupAppend(Finished(init), [Chr(w)], open);
      FinishedStripRight(init, open);
    }
  }

  lemma {:induction false} FinishedStripLeft(s: string, open: seq<string>)
    ensures SameReading(Finished(StripLeft(s)), Finished(s), open)
  {
    if s != "" && IsSpace(s[0]) {
      FinishedStripLeft(s[1..], open);
    }
  }

  lemma FinishedStrip(s: string, open: seq<string>)
    ensures SameReading(Finished(Strip(s)), Finished(s), open)
  {
    FinishedStripLeft(s, open);
    FinishedStripRight(StripLeft(s), open);
  }
}
