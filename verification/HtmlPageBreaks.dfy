/** Well-nested texts whose pages are not: first lines that have to be cut, and tags over a line end. */
module HtmlPageBreaks {
  import opened Text
  import opened HtmlChunker
  import opened HtmlPages

  lemma CutAfter(a: string, b: string)
    requires Closed(a) && Safe(a, b) && After(Tokens(a), []) == []
    ensures After(Tokens(a + b), []) == After(Tokens(b), [])
  {
    TokensAppend(a, b);
    AfterAppend(Tokens(a), Tokens(b), []);
  }

  lemma FirstPageIsCut(text: string, maxLength: nat)
    requires IsCut(text, maxLength)
    ensures Chunk(Split(text, '\n'), "", [], maxLength) != []
    ensures Chunk(Split(text, '\n'), "", [], maxLength)[0] == Split(text, '\n')[0][..maxLength]
  {
  }

  /**
   * A first line that closes its own tags and is cut outside of a tag, in a text whose lines hold
   * whole tags: the pages are well nested if and only if no tag is open at the cut.
   */
  lemma CutFirstLineIff(text: string, maxLength: nat)
    requires LinesClosed(Split(text, '\n')) && Nested(Tokens(text), [])
    requires IsCut(text, maxLength) && After(Tokens(Split(text, '\n')[0]), []) == []
    requires
      var line := Split(text, '\n')[0];
      Closed(line[..maxLength]) && Safe(line[..maxLength], line[maxLength..])
    ensures AllWellNested(Chunk(Split(text, '\n'), "", [], maxLength)) <==>
              After(Tokens(Split(text, '\n')[0][..maxLength]), []) == []
  {
    var line := Split(text, '\n')[0];
    if After(Tokens(line[..maxLength]), []) == [] {
      assert line == line[..maxLength] + line[maxLength..];
      CutAfter(line[..maxLength], line[maxLength..]);
      PagesKeepMeaning(text, maxLength);
    } else {
      FirstPageIsCut(text, maxLength);
    }
  }

  lemma {:induction false} NoNewline(s: string)
    requires '\n' !in s
    ensures Split(s, '\n') == [s]
  {
    if s != "" {
      NoNewline(s[1..]);
      assert [s[0]] + s[1..] == s;
    }
  }

  // ---------------------------------------------------------------- one tagged line

  /** A text without tags between an opening tag and its closing tag. */
  function Tagged(n: string, inner: string): string {
    "<" + n + ">" + (inner + CloserOf(n))
  }

  lemma {:induction false} PlainUnder(s: string, open: seq<string>)
    requires '<' !in s
    ensures Closed(s) && After(Tokens(s), open) == open && Nested(Tokens(s), open)
  {
    if s != "" {
      PlainUnder(s[1..], open);
    }
  }

  function CloserOf(n: string): string { "</" + n + ">" + "" }

  lemma CloseOnly(n: string, open: seq<string>)
    ensures Nested([Close(n)], open) <==> open != [] && open[|open| - 1] == n
    ensures After([Close(n)], open) == Step(Close(n), open)
  {
    CloseFirst(n, [], open);
    assert [Close(n)] + [] == [Close(n)];
  }

  /** Plain text and a closing tag, read with some tags open. */
  lemma PlainThenCloser(u: string, n: string, open: seq<string>)
    requires ValidName(n) && '<' !in u
    ensures
      var all := Tokens(u + CloserOf(n));
      && Closed(u + CloserOf(n))
      && (Nested(all, open) <==> open != [] && open[|open| - 1] == n)
      && After(all, open) == Step(Close(n), open)
  {
    PlainUnder(u, open);
    CloserToken(n, "");
    assert Tokens(CloserOf(n)) == [Close(n)];
    TokensAppend(u, CloserOf(n));
    MarkupAppend(Tokens(u), [Close(n)], open);
    CloseOnly(n, open);
  }

  /** An opening tag, plain text and the closing tag. */
  lemma TaggedText(n: string, inner: string)
    requires ValidName(n) && '<' !in inner
    ensures Closed(Tagged(n, inner)) && WellNested(Tagged(n, inner))
  {
    OpenerToken(n, inner + CloserOf(n));
    OpenedText(n, Tokens(inner + CloserOf(n)));
    PlainThenCloser(inner, n, [n]);
  }

  lemma OpenedText(n: string, rest: seq<Token>)
    ensures Nested([Open(n)] + rest, []) == Nested(rest, [n]) && After([Open(n)] + rest, []) == After(rest, [n])
  {
    assert [] + [n] == [n];
    OneMore(Open(n), rest, []);
  }

  /** A text in which no `<` is followed by a `>` holds no tag. */
  lemma {:induction false} NoTags(s: string, open: seq<string>)
    requires forall i, j :: 0 <= i < j < |s| && s[i] == '<' ==> s[j] != '>'
    ensures After(Tokens(s), open) == open
  {
    if s != "" {
      if TagAt(s).Match? {
        var e := NameEnd(s, NameStart(s));
        FindGtShape(s, e);
        assert false;
      }
      NoTags(s[1..], open);
    }
  }

  /** What a first page holds that ends after the opening tag and before the end of the closing one. */
  lemma OpenAtCut(n: string, inner: string, k: nat)
    requires ValidName(n) && '<' !in inner && |n| + 2 <= k < |Tagged(n, inner)|
    ensures After(Tokens(Tagged(n, inner)[..k]), []) == [n]
  {
    var text, tail := Tagged(n, inner), inner + CloserOf(n);
    var c := tail[..k - |n| - 2];
    assert text[..k] == "<" + n + ">" + c;
    OpenerToken(n, c);
    NoGtAfterLt(n, inner, |c|);
    NoTags(c, [n]);
    OpenedText(n, Tokens(c));
  }

  lemma NoGtAfterLt(n: string, inner: string, k: nat)
    requires ValidName(n) && '<' !in inner && k < |inner| + |n| + 3
    ensures
      var c := (inner + CloserOf(n))[..k];
      forall i, j :: 0 <= i < j < |c| && c[i] == '<' ==> c[j] != '>'
  {
    var tail := inner + CloserOf(n);
    assert forall i :: 0 <= i < |inner| ==> tail[i] == inner[i];
    assert forall i :: 0 <= i < |n| ==> tail[|inner| + 2 + i] == n[i];
    assert tail[|inner|] == '<' && tail[|inner| + 1] == '/';
  }

  /** A page that ends with a closing tag after text without tags. */
  lemma LoneCloser(u: string, n: string)
    requires ValidName(n) && '<' !in u
    ensures Closed(u + CloserOf(n) + "\n") && !Nested(Tokens(u + CloserOf(n) + "\n"), [])
  {
    PlainThenCloser(u, n, []);
    LineEnd(u + CloserOf(n), []);
    TokensAppend(u + CloserOf(n), "\n");
    NestedAppend(Tokens(u + CloserOf(n)), Tokens("\n"), []);
  }

  /** A first page that ends inside the opening tag leaves the closing tag alone on the second one. */
  lemma SplitOpener(n: string, inner: string, maxLength: nat)
    requires ValidName(n) && '<' !in inner && '\n' !in inner && 0 < maxLength < |n| + 2
    ensures !AllWellNested(Chunk([Tagged(n, inner)], "", [], maxLength))
  {
    var text := Tagged(n, inner);
    var u := text[maxLength..|n| + 3 + |inner| - 1];
    var b := text[maxLength..];
    assert '<' !in u by {
      assert forall i :: 1 <= i < |n| + 1 ==> text[i] == n[i - 1];
      assert forall i :: |n| + 2 <= i < |n| + 2 + |inner| ==> text[i] == inner[i - |n| - 2];
    }
    assert b == u + CloserOf(n);
    LoneCloser(u, n);
    var page := Strip(b + "\n") + Closers([]);
    StripMarkup(b + "\n", []);
    assert page == Strip(b + "\n");
    if Strip(b + "\n") == "" {
      assert false;
    }
    TwoPages(text, maxLength);
    var pages := Chunk([text], "", [], maxLength);
    assert pages[1] == page;
  }

  lemma TwoPages(line: string, maxLength: nat)
    requires |line| + 1 > maxLength && Strip(line[maxLength..] + "\n") != ""
    ensures Chunk([line], "", [], maxLength) ==
              [line[..maxLength]] + [Strip(line[maxLength..] + "\n") + Closers([])]
  {
    assert [line][1..] == [];
  }

  /**
   * The tags of a first line that is cut are not tracked: a tagged line is torn apart at every page
   * length at which it is cut at all, inside its tags or between them.
   */
  lemma TaggedLineIff(n: string, inner: string, maxLength: nat)
    requires ValidName(n) && '<' !in inner && '\n' !in inner
    ensures
      var text := Tagged(n, inner);
      && Nested(Tokens(text), [])
      && (AllWellNested(Chunk(Split(text, '\n'), "", [], maxLength)) <==> maxLength == 0 || maxLength >= |text|)
  {
    var text := Tagged(n, inner);
    TaggedText(n, inner);
    NoNewline(text);
    if maxLength == 0 || maxLength >= |text| {
      WholeLine(text, maxLength);
    } else if maxLength < |n| + 2 {
      SplitOpener(n, inner, maxLength);
    } else {
      OpenAtCut(n, inner, maxLength);
      FirstPageIsCut(text, maxLength);
    }
  }

  lemma WholeLine(text: string, maxLength: nat)
    requires Split(text, '\n') == [text] && Closed(text) && WellNested(text)
    requires maxLength == 0 || maxLength >= |text|
    ensures AllWellNested(Chunk(Split(text, '\n'), "", [], maxLength))
  {
    if |text| + 1 > maxLength {
      if maxLength == 0 {
        assert text[..0] == "" && text[0..] == text;
      } else {
        assert text[..maxLength] == text && text[maxLength..] == "";
      }
    }
    PagesKeepMeaning(text, maxLength);
  }

  // ---------------------------------------------------------------- a tag over a line end

  /** A tag whose `>` stands on the next line. */
  function Stretched(n: string, x: string, y: string): string {
    "<" + n + "\n>" + x + "\n" + (y + CloserOf(n))
  }

  lemma StretchedOpener(n: string, rest: string)
    requires ValidName(n)
    ensures Tokens("<" + n + "\n>" + rest) == [Open(n)] + Tokens(rest)
    ensures Closed("<" + n + "\n>" + rest) == Closed(rest)
  {
    var s := "<" + n + "\n>" + rest;
    assert s[1] == n[0] && s[1 + |n|] == '\n' && s[2 + |n|] == '>';
    assert s[1..1 + |n|] == n;
    StretchedNameEnd(n, s, 1);
    assert FindGt(s, 1 + |n|) == 2 + |n|;
    LowerValid(n);
    assert TagAt(s) == Match(Open(n), |n| + 3);
    assert s[|n| + 3..] == rest;
  }

  lemma {:induction false} StretchedNameEnd(n: string, s: string, i: nat)
    requires ValidName(n) && 1 <= i <= 1 + |n| < |s| && s[1..1 + |n|] == n && s[1 + |n|] == '\n'
    ensures NameEnd(s, i) == 1 + |n|
    decreases 1 + |n| - i
  {
    if i < 1 + |n| {
      assert s[i] == n[i - 1];
      StretchedNameEnd(n, s, i + 1);
    }
  }

  lemma StretchedLines(n: string, x: string, y: string)
    requires ValidName(n) && '\n' !in x && '\n' !in y
    ensures Split(Stretched(n, x, y), '\n') == ["<" + n, ">" + x, y + CloserOf(n)]
  {
    var a, b, c := "<" + n, ">" + x, y + CloserOf(n);
    assert Stretched(n, x, y) == a + ("\n" + (b + ("\n" + c)));
    NoNewline(c);
    SplitLine(b, c);
    SplitLine(a, b + ("\n" + c));
  }

  lemma {:induction false} SplitLine(line: string, rest: string)
    requires '\n' !in line
    ensures Split(line + ("\n" + rest), '\n') == [line] + Split(rest, '\n')
  {
    var s := line + ("\n" + rest);
    if line == "" {
      assert s[1..] == rest;
    } else {
      SplitLine(line[1..], rest);
      assert s[1..] == line[1..] + ("\n" + rest);
      assert [s[0]] + line[1..] == line;
    }
  }

  lemma StretchedNested(n: string, x: string, y: string)
    requires ValidName(n) && '<' !in x && '<' !in y
    ensures WellNested(Stretched(n, x, y))
  {
    var plain := x + "\n" + y;
    StretchedIs(n, x, y);
    StretchedOpener(n, plain + CloserOf(n));
    OpenedText(n, Tokens(plain + CloserOf(n)));
    PlainThenCloser(plain, n, [n]);
  }

  lemma StretchedIs(n: string, x: string, y: string)
    ensures Stretched(n, x, y) == "<" + n + "\n>" + (x + "\n" + y + CloserOf(n))
  {
  }

  /**
   * A tag that runs over a line end is not tracked either, as the lines are searched one by one: a
   * page broken off before its closing tag is left with the tag open, although every line fits.
   */
  lemma StretchedTagIsLost(n: string, x: string, y: string, maxLength: nat)
    requires ValidName(n) && '<' !in x && '<' !in y && '\n' !in x && '\n' !in y
    requires |n| + |x| + 4 <= maxLength < |n| + |x| + 4 + |y| + |n| + 4
    ensures
      var text := Stretched(n, x, y);
      && Nested(Tokens(text), [])
      && !AllWellNested(Chunk(Split(text, '\n'), "", [], maxLength))
  {
    var a, b, c := "<" + n, ">" + x, y + CloserOf(n);
    StretchedNested(n, x, y);
    StretchedLines(n, x, y);
    NoTags(a, []);
    NoTags(b, []);
    ThreeLines(a, b, c, maxLength);
    StretchedPage(n, x);
  }

  lemma StretchedPage(n: string, x: string)
    requires ValidName(n) && '<' !in x
    ensures !WellNested(Strip("<" + n + "\n" + (">" + x) + "\n"))
  {
    var collected := "<" + n + "\n" + (">" + x) + "\n";
    assert collected == "<" + n + "\n>" + (x + "\n");
    StretchedOpener(n, x + "\n");
    PlainUnder(x + "\n", [n]);
    OpenedText(n, Tokens(x + "\n"));
    StripMarkup(collected, []);
  }

  lemma ThreeLines(a: string, b: string, c: string, maxLength: nat)
    requires After(Tokens(a), []) == [] && After(Tokens(b), []) == []
    requires |a| + |b| + 2 <= maxLength < |a| + |b| + 2 + |c| + 1
    ensures
      var pages := Chunk([a, b, c], "", [], maxLength);
      pages != [] && pages[0] == Strip(a + "\n" + b + "\n")
  {
    assert [a, b, c][1..] == [b, c] && [b, c][1..] == [c];
    assert "" + a + "\n" == a + "\n";
    var collected := a + "\n" + b + "\n";
    assert Chunk([a, b, c], "", [], maxLength) == Chunk([b, c], a + "\n", [], maxLength);
    assert Chunk([b, c], a + "\n", [], maxLength) == Chunk([c], collected, [], maxLength);
    assert Strip(collected) + Closers([]) == Strip(collected);
  }

  // ---------------------------------------------------------------- what each kind of tag does

  /** A tag name in any case: a letter, then letters, digits and hyphens. */
  predicate TagName(n: string) {
    && n != "" && ('a' <= n[0] <= 'z' || 'A' <= n[0] <= 'Z')
    && forall i :: 0 <= i < |n| ==>
         'a' <= n[i] <= 'z' || 'A' <= n[i] <= 'Z' || '0' <= n[i] <= '9' || n[i] == '-'
  }

  /** What may stand between the name and `>`: nothing, or something that cannot belong to the name. */
  predicate Attributes(attrs: string) {
    && '>' !in attrs
    && (attrs != "" ==> attrs[0] == ' ' || attrs[0] == '\n' || attrs[0] == '/')
  }

  predicate SelfClosing(attrs: string) { attrs != "" && attrs[|attrs| - 1] == '/' }

  lemma {:induction false} TagNameEnd(n: string, s: string, b: nat, i: nat)
    requires TagName(n) && b <= i <= b + |n| < |s| && s[b..b + |n|] == n
    requires s[b + |n|] in {' ', '\n', '/', '>'}
    ensures NameEnd(s, i) == b + |n|
    decreases b + |n| - i
  {
    if i < b + |n| {
      assert s[i] == n[i - b];
      TagNameEnd(n, s, b, i + 1);
    }
  }

  lemma {:induction false} TagGt(s: string, i: nat)
    requires i < |s| && s[|s| - 1] == '>' && forall k :: i <= k < |s| - 1 ==> s[k] != '>'
    ensures FindGt(s, i) == |s| - 1
    decreases |s| - i
  {
    if i < |s| - 1 {
      TagGt(s, i + 1);
    }
  }

  function TagText(slash: string, n: string, attrs: string): string { "<" + slash + n + attrs + ">" }

  lemma TagShape(slash: string, n: string, attrs: string)
    requires (slash == "" || slash == "/") && TagName(n) && Attributes(attrs)
    ensures
      var s, b := TagText(slash, n, attrs), 1 + |slash|;
      && |s| == b + |n| + |attrs| + 1 && s[0] == '<' && s[b] == n[0] && s[b..b + |n|] == n && NameStart(s) == b
      && s[b + |n|] in {' ', '\n', '/', '>'} && s[|s| - 1] == '>'
      && (attrs != "" ==> s[|s| - 2] == attrs[|attrs| - 1])
      && forall k :: b + |n| <= k < |s| - 1 ==> s[k] != '>'
  {
    var s, b := TagText(slash, n, attrs), 1 + |slash|;
    assert s[b] == n[0];
    assert s[b..b + |n|] == n;
    assert attrs != "" ==> s[b + |n|] == attrs[0] && s[|s| - 2] == attrs[|attrs| - 1];
    assert forall k :: b + |n| <= k < |s| - 1 ==> s[k] == attrs[k - b - |n|];
  }

  function TagToken(slash: string, n: string, attrs: string): Token {
    if SelfClosing(attrs) then Void(TagText(slash, n, attrs))
    else if slash == "" then Open(Lower(n)) else Close(Lower(n))
  }

  /** How a tag is read: `slash` tells an opening from a closing one. */
  lemma TagRead(slash: string, n: string, attrs: string)
    requires (slash == "" || slash == "/") && TagName(n) && Attributes(attrs)
    ensures TagAt(TagText(slash, n, attrs)) == Match(TagToken(slash, n, attrs), |TagText(slash, n, attrs)|)
    ensures Tokens(TagText(slash, n, attrs)) == [TagToken(slash, n, attrs)]
  {
    var s, b := TagText(slash, n, attrs), 1 + |slash|;
    TagShape(slash, n, attrs);
    TagNameEnd(n, s, b, b);
    TagGt(s, b + |n|);
    WholeTag(s, b, n);
    FirstToken(s, "");
  }

  lemma WholeTag(s: string, b: nat, n: string)
    requires TagName(n) && NameStart(s) == b && b + |n| < |s| && s[0] == '<' && s[b..b + |n|] == n
    requires NameEnd(s, b) == b + |n| && FindGt(s, b + |n|) == |s| - 1
    ensures
      TagAt(s) == Match(
        if b + |n| < |s| - 1 && s[|s| - 2] == '/' then Void(s) else if b == 2 then Close(Lower(n)) else Open(Lower(n)),
        |s|)
    ensures s[|s|..] == ""
  {
    assert s[b] == n[0];
    assert s[..|s|] == s;
  }

  lemma AfterOne(t: Token, open: seq<string>)
    ensures After([t], open) == Step(t, open)
  {
    assert [t][1..] == [];
  }

  /**
   * What a line made of one tag does to the stack: an opening tag is pushed in lower case, a closing
   * tag pops its own name only, a self-closing tag does nothing.
   */
  lemma TagEffects(slash: string, n: string, attrs: string, open: seq<string>)
    requires (slash == "" || slash == "/") && TagName(n) && Attributes(attrs)
    ensures
      var now := After(Tokens("<" + slash + n + attrs + ">"), open);
      if SelfClosing(attrs) then now == open
      else if slash == "" then now == open + [Lower(n)]
      else if open != [] && open[|open| - 1] == Lower(n) then now + [Lower(n)] == open
      else now == open
  {
    TagRead(slash, n, attrs);
    AfterOne(TagToken(slash, n, attrs), open);
  }
}
