/**
 * What `chunk_html_text` (bot/core/formatters.py) makes of a text. First exactly which text stands on
 * which page between which inserted tags, for every text; then when the pages are well nested.
 */
module HtmlPages {
  import opened Text
  import opened HtmlChunker

  // ---------------------------------------------------------------- the text of the pages

  /** The program's tag stack after some lines, each searched for tags on its own. */
  function Track(open: seq<string>, lines: seq<string>): seq<string>
    decreases |lines|
  {
    if lines == [] then open else Track(After(Tokens(lines[0]), open), lines[1..])
  }

  /** A page: the tags reopened on it, what is left of a cut first line, and its whole lines. */
  datatype Piece = Piece(reopened: seq<string>, head: string, lines: seq<string>)
  {
    /** The text that stands on the page. */
    function Body(): string { head + Unlines(lines) }

    function Collected(): string { Openers(reopened) + Body() }

    /** The tags the program takes to be open at the end of the page. */
    function Left(): seq<string> { Track(reopened, lines) }

    function Page(): string { Strip(Collected()) + Closers(Left()) }
  }

  /** A last page of white space is not made. */
  function Pages(pieces: seq<Piece>): seq<string> {
    if pieces == [] || (|pieces| == 1 && Strip(pieces[0].Collected()) == "") then []
    else [pieces[0].Page()] + Pages(pieces[1..])
  }

  function Bodies(pieces: seq<Piece>): string {
    if pieces == [] then "" else pieces[0].Body() + Bodies(pieces[1..])
  }

  function LinesOf(pieces: seq<Piece>): seq<string> {
    if pieces == [] then [] else pieces[0].lines + LinesOf(pieces[1..])
  }

  /** Every page reopens the tags that the page before it closed. */
  predicate Linked(pieces: seq<Piece>) {
    forall i :: 0 < i < |pieces| ==> pieces[i].reopened == pieces[i - 1].Left() && pieces[i].head == ""
  }

  /** A page is broken off only when the next line does not fit, and only its first line may be too long. */
  predicate Greedy(pieces: seq<Piece>, maxLength: nat) {
    forall i :: 0 < i < |pieces| ==>
      && pieces[i].lines != []
      && |pieces[i - 1].Collected()| + |pieces[i].lines[0]| + 1 > maxLength
      && (|pieces[i].lines| > 1 ==> |pieces[i].Collected()| <= maxLength)
  }

  predicate IsCut(text: string, maxLength: nat) { |Split(text, '\n')[0]| + 1 > maxLength }

  /**
   * `pieces` is how the text is spread over the pages: nothing is added, lost or moved, and the tags
   * inserted at page breaks are those of the stack. A first line too long for a page gives a page of
   * its own, `cut`, as it is.
   */
  predicate Paginated(text: string, maxLength: nat, cut: string, pieces: seq<Piece>) {
    var lines := Split(text, '\n');
    && cut + Bodies(pieces) == text + "\n"
    && pieces != [] && pieces[0].reopened == []
    && (if IsCut(text, maxLength)
        then
          && cut == lines[0][..maxLength] && pieces[0].head == lines[0][maxLength..] + "\n"
          && LinesOf(pieces) == lines[1..]
        else cut == "" && pieces[0].head == "" && pieces[0].lines != [] && LinesOf(pieces) == lines)
    && Linked(pieces) && Greedy(pieces, maxLength)
    && (pieces[0].lines != [] ==> |pieces[0].Collected()| <= maxLength)
    && Chunk(lines, "", [], maxLength) == (if IsCut(text, maxLength) then [cut] else []) + Pages(pieces)
  }

  lemma {:induction false} UnlinesSnoc(lines: seq<string>, line: string)
    ensures Unlines(lines + [line]) == Unlines(lines) + (line + "\n")
  {
    if lines == [] {
      assert [line][1..] == [];
    } else {
      assert (lines + [line])[1..] == lines[1..] + [line];
      UnlinesSnoc(lines[1..], line);
    }
  }

  lemma {:induction false} TrackSnoc(open: seq<string>, lines: seq<string>, line: string)
    ensures Track(open, lines + [line]) == After(Tokens(line), Track(open, lines))
    decreases |lines|
  {
    if lines == [] {
      assert [line][1..] == [];
    } else {
      assert (lines + [line])[1..] == lines[1..] + [line];
      TrackSnoc(After(Tokens(lines[0]), open), lines[1..], line);
    }
  }

  /** One line more on a page. */
  lemma AddLine(p: Piece, line: string)
    ensures
      var q := p.(lines := p.lines + [line]);
      && q.Collected() == p.Collected() + line + "\n"
      && q.Left() == After(Tokens(line), p.Left())
  {
    UnlinesSnoc(p.lines, line);
    TrackSnoc(p.reopened, p.lines, line);
    Splice4(Openers(p.reopened), p.head, Unlines(p.lines), line);
  }

  lemma Splice4(a: string, b: string, c: string, line: string)
    ensures a + (b + (c + (line + "\n"))) == a + (b + c) + line + "\n"
  {
  }

  /** The first line on a new page. */
  lemma NewPage(reopened: seq<string>, line: string)
    ensures
      var q := Piece(reopened, "", [line]);
      && q.Collected() == Openers(reopened) + line + "\n"
      && q.Left() == After(Tokens(line), reopened)
  {
    AddLine(Piece(reopened, "", []), line);
    assert [] + [line] == [line];
    assert Piece(reopened, "", []).Collected() == Openers(reopened);
  }

  /** How the page under construction and the lines to come are spread over pages. */
  ghost predicate Spread(p: Piece, lines: seq<string>, maxLength: nat, pieces: seq<Piece>) {
    && Continues(p, lines, maxLength, pieces)
    && Linked(pieces) && Greedy(pieces, maxLength)
    && Chunk(lines, p.Collected(), p.Left(), maxLength) == Pages(pieces)
  }

  /** The first piece is the page under construction, maybe with more lines as long as they fit. */
  ghost predicate Continues(p: Piece, lines: seq<string>, maxLength: nat, pieces: seq<Piece>) {
    && pieces != []
    && pieces[0].reopened == p.reopened && pieces[0].head == p.head
    && (pieces[0] == p || |pieces[0].Collected()| <= maxLength)
    && |p.lines| <= |pieces[0].lines| && (|p.lines| == |pieces[0].lines| ==> pieces[0] == p)
    && LinesOf(pieces) == p.lines + lines
  }

  lemma {:induction false} SpreadFrom(p: Piece, lines: seq<string>, maxLength: nat) returns (pieces: seq<Piece>)
    requires p.Collected() != ""
    ensures Spread(p, lines, maxLength, pieces)
    decreases |lines|
  {
    if lines == [] {
      pieces := [p];
      LastSpread(p, maxLength);
    } else {
      var line := lines[0];
      if |p.Collected()| + |line| + 1 > maxLength {
        NewPage(p.Left(), line);
        var more := SpreadFrom(Piece(p.Left(), "", [line]), lines[1..], maxLength);
        pieces := [p] + more;
        BreakSpread(p, lines, maxLength, more);
      } else {
        AddLine(p, line);
        pieces := SpreadFrom(p.(lines := p.lines + [line]), lines[1..], maxLength);
        ExtendSpread(p, lines, maxLength, pieces);
      }
    }
  }

  lemma LastSpread(p: Piece, maxLength: nat)
    ensures Spread(p, [], maxLength, [p])
  {
    assert p.lines + [] == p.lines;
    assert LinesOf([p]) == p.lines + [];
    assert Pages([p][1..]) == [];
  }

  lemma ExtendSpread(p: Piece, lines: seq<string>, maxLength: nat, pieces: seq<Piece>)
    requires lines != [] && |p.Collected()| + |lines[0]| + 1 <= maxLength
    requires Spread(p.(lines := p.lines + [lines[0]]), lines[1..], maxLength, pieces)
    ensures Spread(p, lines, maxLength, pieces)
  {
    AddLine(p, lines[0]);
    assert p.lines + lines == (p.lines + [lines[0]]) + lines[1..];
  }

  lemma BreakSpread(p: Piece, lines: seq<string>, maxLength: nat, more: seq<Piece>)
    requires lines != [] && p.Collected() != "" && |p.Collected()| + |lines[0]| + 1 > maxLength
    requires Spread(Piece(p.Left(), "", [lines[0]]), lines[1..], maxLength, more)
    ensures Spread(p, lines, maxLength, [p] + more)
  {
    NewPage(p.Left(), lines[0]);
    assert ([p] + more)[1..] == more;
    assert [lines[0]] + lines[1..] == lines;
    FirstLineOf(more, lines[0], lines[1..]);
    BreakLinks(p, more, maxLength);
  }

  lemma FirstLineOf(pieces: seq<Piece>, line: string, rest: seq<string>)
    requires pieces != [] && pieces[0].lines != [] && LinesOf(pieces) == [line] + rest
    ensures pieces[0].lines[0] == line
  {
    assert LinesOf(pieces)[0] == pieces[0].lines[0];
  }

  lemma BreakLinks(p: Piece, more: seq<Piece>, maxLength: nat)
    requires more != [] && Linked(more) && Greedy(more, maxLength)
    requires more[0].reopened == p.Left() && more[0].head == "" && more[0].lines != []
    requires |p.Collected()| + |more[0].lines[0]| + 1 > maxLength
    requires |more[0].lines| > 1 ==> |more[0].Collected()| <= maxLength
    ensures Linked([p] + more) && Greedy([p] + more, maxLength)
  {
    var pieces := [p] + more;
    forall i | 0 < i < |pieces|
      ensures pieces[i].reopened == pieces[i - 1].Left() && pieces[i].head == ""
      ensures pieces[i].lines != [] && |pieces[i - 1].Collected()| + |pieces[i].lines[0]| + 1 > maxLength
      ensures |pieces[i].lines| > 1 ==> |pieces[i].Collected()| <= maxLength
    {
      assert pieces[i] == more[i - 1];
      if i > 1 {
        assert pieces[i - 1] == more[i - 2];
      }
    }
  }

  lemma {:induction false} UnlinesAppend(x: seq<string>, y: seq<string>)
    ensures Unlines(x + y) == Unlines(x) + Unlines(y)
  {
    if x == [] {
      assert x + y == y;
    } else {
      assert (x + y)[1..] == x[1..] + y;
      UnlinesAppend(x[1..], y);
    }
  }

  /** Between the lines of the pieces there is nothing but the head of the first one. */
  lemma {:induction false} BodiesAreLines(pieces: seq<Piece>)
    requires pieces != [] && forall i :: 0 < i < |pieces| ==> pieces[i].head == ""
    ensures Bodies(pieces) == pieces[0].head + Unlines(LinesOf(pieces))
  {
    var p, more := pieces[0], pieces[1..];
    if more == [] {
      assert p.lines + [] == p.lines;
    } else {
      BodiesAreLines(more);
      UnlinesAppend(p.lines, LinesOf(more));
    }
  }

  /**
   * Nothing of a text is lost, added or moved by cutting it into pages, up to white space at page
   * edges: for every text and page length the pages are pieces of the text between the closing and
   * reopening tags of the stack.
   */
  lemma PagesKeepText(text: string, maxLength: nat) returns (cut: string, pieces: seq<Piece>)
    ensures Paginated(text, maxLength, cut, pieces)
    ensures Shown(pieces, Pages(pieces))
  {
    if IsCut(text, maxLength) {
      cut, pieces := CutFirst(text, maxLength);
    } else {
      cut := "";
      pieces := KeepFirst(text, maxLength);
    }
    PagesShow(pieces);
  }

  /**
   * Every page but a cut one is what was collected for it without the white space at its two ends,
   * followed by the closing tags; the last piece has no page exactly when it is all white space.
   */
  ghost predicate Shown(pieces: seq<Piece>, pages: seq<string>)
    requires pieces != []
  {
    && |pages| == (if Blank(pieces[|pieces| - 1].Collected()) then |pieces| - 1 else |pieces|)
    && forall i :: 0 <= i < |pages| ==> ShownAs(pieces[i], pages[i])
  }

  ghost predicate ShownAs(p: Piece, page: string) {
    exists kept :: Trims(p.Collected(), kept) && page == kept + Closers(p.Left())
  }

  lemma {:induction false} PagesShow(pieces: seq<Piece>)
    requires pieces != []
    ensures Shown(pieces, Pages(pieces))
  {
    var p, more := pieces[0], pieces[1..];
    if more == [] {
      assert pieces == [p];
      ShowLast(p);
    } else {
      PagesShow(more);
      ShowPage(p);
      ShowOneMore(p, p.Page(), more, Pages(more));
      assert pieces == [p] + more;
    }
  }

  lemma ShowPage(p: Piece)
    ensures ShownAs(p, p.Page())
  {
    StripTrims(p.Collected());
  }

  lemma ShowLast(p: Piece)
    ensures Shown([p], Pages([p]))
  {
    ShowPage(p);
    StripBlankIff(p.Collected());
    assert Pages([p][1..]) == [];
  }

  lemma ShowOneMore(p: Piece, page: string, more: seq<Piece>, pages: seq<string>)
    requires more != [] && Shown(more, pages) && ShownAs(p, page)
    ensures Shown([p] + more, [page] + pages)
  {
    forall i | 0 <= i < |pages| + 1 ensures ShownAs(([p] + more)[i], ([page] + pages)[i]) {
      if i > 0 {
        assert ShownAs(more[i - 1], pages[i - 1]);
      }
    }
  }

  lemma CutFirst(text: string, maxLength: nat) returns (cut: string, pieces: seq<Piece>)
    requires IsCut(text, maxLength)
    ensures Paginated(text, maxLength, cut, pieces)
  {
    var lines := Split(text, '\n');
    cut := lines[0][..maxLength];
    var rest := lines[0][maxLength..];
    var p := Piece([], rest + "\n", []);
    assert p.Collected() == rest + "\n" && p.Left() == [];
    pieces := SpreadFrom(p, lines[1..], maxLength);
    assert [] + lines[1..] == lines[1..];
    CutText(text, cut, rest, pieces);
  }

  lemma CutText(text: string, cut: string, rest: string, pieces: seq<Piece>)
    requires Split(text, '\n')[0] == cut + rest && pieces != [] && Linked(pieces)
    requires pieces[0].head == rest + "\n" && LinesOf(pieces) == Split(text, '\n')[1..]
    ensures cut + Bodies(pieces) == text + "\n"
  {
    BodiesAreLines(pieces);
    FirstOfText(text, cut, rest);
    Splice(cut, rest, Unlines(Split(text, '\n')[1..]));
  }

  lemma Splice(a: string, b: string, rest: string)
    ensures a + (b + "\n" + rest) == a + b + "\n" + rest
  {
  }

  lemma FirstOfText(text: string, a: string, b: string)
    requires Split(text, '\n')[0] == a + b
    ensures text + "\n" == a + b + "\n" + Unlines(Split(text, '\n')[1..])
  {
    UnlinesSplit(text);
  }

  lemma KeepFirst(text: string, maxLength: nat) returns (pieces: seq<Piece>)
    requires !IsCut(text, maxLength)
    ensures Paginated(text, maxLength, "", pieces)
  {
    var lines := Split(text, '\n');
    NewPage([], lines[0]);
    pieces := SpreadFrom(Piece([], "", [lines[0]]), lines[1..], maxLength);
    assert [lines[0]] + lines[1..] == lines;
    BodiesAreLines(pieces);
    UnlinesSplit(text);
    assert "" + Bodies(pieces) == Bodies(pieces) == Unlines(lines);
    FirstFits(lines, maxLength);
  }

  lemma FirstFits(lines: seq<string>, maxLength: nat)
    requires lines != [] && |lines[0]| + 1 <= maxLength
    ensures Chunk(lines, "", [], maxLength) ==
              Chunk(lines[1..], Openers([]) + lines[0] + "\n", After(Tokens(lines[0]), []), maxLength)
  {
    assert "" + lines[0] + "\n" == lines[0] + "\n" == Openers([]) + lines[0] + "\n";
  }

  // ---------------------------------------------------------------- when the pages are well nested

  /** The tags really open after the part of the text on the cut page and the first `n` pieces. */
  function Really(cut: string, pieces: seq<Piece>, n: nat): seq<string>
    requires n <= |pieces|
  {
    After(Tokens(cut + Bodies(pieces[..n])), [])
  }

  /** No page ends inside a tag. */
  predicate NoTagSplit(cut: string, pieces: seq<Piece>)
    requires pieces != []
  {
    && Closed(cut) && Safe(cut, pieces[0].Body())
    && forall i :: 0 <= i < |pieces| ==> Closed(pieces[i].Body())
  }

  /** At the end of every page the tags on the program's stack are those really open. */
  predicate StackIsRight(cut: string, pieces: seq<Piece>) {
    && After(Tokens(cut), []) == []
    && forall i :: 0 <= i < |pieces| ==> pieces[i].Left() == Really(cut, pieces, i + 1)
  }

  lemma {:induction false} TrackValid(open: seq<string>, lines: seq<string>)
    requires ValidStack(open)
    ensures ValidStack(Track(open, lines))
    decreases |lines|
  {
    if lines != [] {
      TokensValid(lines[0], open);
      TrackValid(After(Tokens(lines[0]), open), lines[1..]);
    }
  }

  /** How the text of a page is read: an unfinished tag at its end takes the first closing tag with it. */
  function Reading(p: Piece): seq<Token> { if p.Left() == [] then Tokens(p.Body()) else Finished(p.Body()) }

  /** The tags that the closing tags after the text, as far as they are read as such, will close. */
  function ClosedAfter(p: Piece): seq<string> {
    if Closed(p.Body()) || p.Left() == [] then p.Left() else p.Left()[..|p.Left()| - 1]
  }

  /** The page's text, read with the reopened tags open, nests and ends with the tags closed after it. */
  predicate Sound(p: Piece) {
    Nested(Reading(p), p.reopened) && After(Reading(p), p.reopened) == ClosedAfter(p)
  }

  /** What is collected reads as the piece's text with the reopened tags open. */
  lemma CollectedMarkup(p: Piece)
    requires ValidStack(p.reopened)
    ensures
      var all, body := Tokens(p.Collected()), Tokens(p.Body());
      && Closed(p.Collected()) == Closed(p.Body())
      && After(all, []) == After(body, p.reopened)
      && (Nested(all, []) <==> Nested(body, p.reopened))
      && Meaning(all, []) == Meaning(body, p.reopened)
  {
    OpenersTokens(p.reopened);
    OpenersEnd(p.reopened);
    TokensAppend(Openers(p.reopened), p.Body());
    OpenersMarkup(p.reopened, []);
    assert [] + p.reopened == p.reopened;
    MarkupAppend(OpenTokens(p.reopened), Tokens(p.Body()), []);
    assert [] + Meaning(Tokens(p.Body()), p.reopened) == Meaning(Tokens(p.Body()), p.reopened);
  }

  lemma CollectedFinished(p: Piece)
    requires ValidStack(p.reopened)
    ensures
      var all, body := Finished(p.Collected()), Finished(p.Body());
      && After(all, []) == After(body, p.reopened)
      && (Nested(all, []) <==> Nested(body, p.reopened))
      && Meaning(all, []) == Meaning(body, p.reopened)
  {
    OpenersTokens(p.reopened);
    OpenersEnd(p.reopened);
    FinishedPrepend(Openers(p.reopened), p.Body());
    OpenersMarkup(p.reopened, []);
    assert [] + p.reopened == p.reopened;
    MarkupAppend(OpenTokens(p.reopened), Finished(p.Body()), []);
    assert [] + Meaning(Finished(p.Body()), p.reopened) == Meaning(Finished(p.Body()), p.reopened);
  }

  /** Any page is well nested exactly when its piece of the text is sound; its meaning is the piece's. */
  lemma PageMarkup(p: Piece)
    requires ValidStack(p.reopened)
    ensures WellNested(p.Page()) <==> Sound(p)
    ensures Meaning(Tokens(p.Page()), []) == Meaning(Reading(p), p.reopened)
  {
    CollectedMarkup(p);
    StripMarkup(p.Collected(), []);
    if p.Left() == [] {
      assert p.Page() == Strip(p.Collected());
    } else if Closed(p.Body()) {
      FinishedClosed(p.Body());
      ClosedPageMarkup(p, Strip(p.Collected()));
    } else {
      CollectedFinished(p);
      FinishedStrip(p.Collected(), []);
      SplitPageMarkup(p, Strip(p.Collected()));
    }
  }

  /** A page that ends inside a tag while tags are on the stack. */
  lemma SplitPageMarkup(p: Piece, kept: string)
    requires ValidStack(p.reopened) && !Closed(kept) && p.Left() != []
    ensures
      var page, below := Tokens(kept + Closers(p.Left())), p.Left()[..|p.Left()| - 1];
      && (Nested(page, []) && After(page, []) == [] <==>
            Nested(Finished(kept), []) && After(Finished(kept), []) == below)
      && Meaning(page, []) == Meaning(Finished(kept), [])
  {
    var top, below := p.Left()[|p.Left()| - 1], p.Left()[..|p.Left()| - 1];
    TrackValid(p.reopened, p.lines);
    CloserFinishes(kept, top, Closers(below), Closers(p.Left()));
    ClosersTokens(below);
    MarkupAppend(Finished(kept), CloseTokens(below), []);
    ClosersMarkup(below, After(Finished(kept), []));
    assert Meaning(Finished(kept), []) + [] == Meaning(Finished(kept), []);
  }

  lemma ClosedPageMarkup(p: Piece, kept: string)
    requires ValidStack(p.reopened) && Closed(kept)
    ensures
      var page := Tokens(kept + Closers(p.Left()));
      && (Nested(page, []) && After(page, []) == [] <==>
            Nested(Tokens(kept), []) && After(Tokens(kept), []) == p.Left())
      && Meaning(page, []) == Meaning(Tokens(kept), [])
  {
    var suffix := Closers(p.Left());
    TrackValid(p.reopened, p.lines);
    ClosersTokens(p.Left());
    assert suffix == "" || suffix[0] == '<';
    TokensAppend(kept, suffix);
    MarkupAppend(Tokens(kept), Tokens(suffix), []);
    ClosersMarkup(p.Left(), After(Tokens(kept), []));
    assert Meaning(Tokens(kept), []) + [] == Meaning(Tokens(kept), []);
  }

  lemma {:induction false} BlankTrack(lines: seq<string>, open: seq<string>)
    requires forall i :: 0 <= i < |Unlines(lines)| ==> IsSpace(Unlines(lines)[i])
    ensures Track(open, lines) == open
    decreases |lines|
  {
    if lines != [] {
      var all, line, rest := Unlines(lines), lines[0], Unlines(lines[1..]);
      assert all == line + "\n" + rest;
      assert forall i :: 0 <= i < |line| ==> line[i] == all[i];
      assert forall i :: 0 <= i < |rest| ==> rest[i] == all[|line| + 1 + i];
      BlankTokens(line, open);
      BlankTrack(lines[1..], open);
    }
  }

  lemma StartsWithTag(p: Piece)
    requires p.reopened != []
    ensures p.Collected() != "" && p.Collected()[0] == '<'
  {
  }

  /** The last page that is not made: nothing visible, no tags. */
  lemma BlankPiece(p: Piece)
    requires Strip(p.Collected()) == ""
    ensures Sound(p) && Meaning(Reading(p), p.reopened) == []
  {
    var all := p.Collected();
    StripBlankIff(all);
    if p.reopened != [] {
      StartsWithTag(p);
      assert false;
    }
    assert all == p.Body();
    var rest := Unlines(p.lines);
    assert forall i :: 0 <= i < |rest| ==> rest[i] == all[|p.head| + i];
    BlankTokens(all, []);
    BlankTrack(p.lines, []);
  }

  function PieceMeanings(pieces: seq<Piece>): seq<Glyph> {
    if pieces == [] then []
    else Meaning(Reading(pieces[0]), pieces[0].reopened) + PieceMeanings(pieces[1..])
  }

  predicate AllSound(pieces: seq<Piece>) { pieces == [] || (Sound(pieces[0]) && AllSound(pieces[1..])) }

  predicate Markable(pieces: seq<Piece>) {
    forall i :: 0 <= i < |pieces| ==>
      ValidStack(pieces[i].reopened) && Closed(pieces[i].Body()) && EndsLine(pieces[i].head)
  }

  predicate AllValid(pieces: seq<Piece>) { forall i :: 0 <= i < |pieces| ==> ValidStack(pieces[i].reopened) }

  predicate EndsLine(s: string) { s == "" || s[|s| - 1] == '\n' }

  lemma {:induction false} UnlinesEnd(lines: seq<string>)
    ensures EndsLine(Unlines(lines))
  {
    if lines != [] {
      UnlinesEnd(lines[1..]);
      var first, rest := lines[0] + "\n", Unlines(lines[1..]);
      assert Unlines(lines) == first + rest;
      assert first[|first| - 1] == '\n';
    }
  }

  /** A piece never ends in the beginning of a tag. */
  lemma BodyEnds(p: Piece, rest: string)
    requires EndsLine(p.head)
    ensures EndsLine(p.Body()) && Safe(p.Body(), rest)
  {
    UnlinesEnd(p.lines);
  }

  lemma PageThenPages(page: string, pages: seq<string>)
    ensures PagesMeaning([page] + pages) == Meaning(Tokens(page), []) + PagesMeaning(pages)
    ensures AllWellNested([page] + pages) <==> WellNested(page) && AllWellNested(pages)
  {
    assert ([page] + pages)[1..] == pages;
    if AllWellNested([page] + pages) {
      forall i | 0 <= i < |pages| ensures WellNested(pages[i]) {
        assert ([page] + pages)[i + 1] == pages[i];
      }
      assert ([page] + pages)[0] == page;
    }
  }

  lemma {:induction false} PagesMarkup(pieces: seq<Piece>)
    requires AllValid(pieces)
    ensures AllWellNested(Pages(pieces)) <==> AllSound(pieces)
    ensures PagesMeaning(Pages(pieces)) == PieceMeanings(pieces)
  {
    if pieces != [] {
      if |pieces| == 1 && Strip(pieces[0].Collected()) == "" {
        BlankPiece(pieces[0]);
        assert pieces[1..] == [];
      } else {
        PageMarkup(pieces[0]);
        PagesMarkup(pieces[1..]);
        PageThenPages(pieces[0].Page(), Pages(pieces[1..]));
      }
    }
  }

  /** The stack handed from page to page is the one really open, from `open` on. */
  predicate RightFrom(pieces: seq<Piece>, open: seq<string>) {
    pieces == [] ||
    var now := After(Tokens(pieces[0].Body()), open);
    pieces[0].Left() == now && RightFrom(pieces[1..], now)
  }

  /** Read in one go, the pieces close their tags in order and the stack is right, or some piece is unsound. */
  lemma {:induction false} SoundIsNested(pieces: seq<Piece>, open: seq<string>)
    requires Markable(pieces) && Linked(pieces) && (pieces != [] ==> pieces[0].reopened == open)
    ensures Closed(Bodies(pieces))
    ensures AllSound(pieces) <==> Nested(Tokens(Bodies(pieces)), open) && RightFrom(pieces, open)
    ensures RightFrom(pieces, open) ==> PieceMeanings(pieces) == Meaning(Tokens(Bodies(pieces)), open)
  {
    if pieces != [] {
      var p, more := pieces[0], pieces[1..];
      var now := After(Tokens(p.Body()), open);
      assert forall i :: 0 <= i < |more| ==> more[i] == pieces[i + 1];
      if p.Left() == now {
        SoundIsNested(more, now);
      } else if more != [] {
        SoundIsNested(more, p.Left());
      }
      FinishedClosed(p.Body());
      BodyEnds(p, Bodies(more));
      TokensAppend(p.Body(), Bodies(more));
      MarkupAppend(Tokens(p.Body()), Tokens(Bodies(more)), open);
    }
  }

  /** The pieces' text up to each page end, read from `open` on. */
  lemma {:induction false} RightMeans(pieces: seq<Piece>, open: seq<string>)
    requires Markable(pieces)
    ensures RightFrom(pieces, open) <==>
              forall i :: 0 <= i < |pieces| ==> pieces[i].Left() == After(Tokens(Bodies(pieces[..i + 1])), open)
  {
    if pieces != [] {
      var p, more := pieces[0], pieces[1..];
      var now := After(Tokens(p.Body()), open);
      RightMeans(more, now);
      forall i | 0 <= i < |pieces|
        ensures After(Tokens(Bodies(pieces[..i + 1])), open) == After(Tokens(Bodies(more[..i])), now)
      {
        assert pieces[..i + 1][1..] == more[..i];
        BodyEnds(p, Bodies(more[..i]));
        TokensAppend(p.Body(), Bodies(more[..i]));
        AfterAppend(Tokens(p.Body()), Tokens(Bodies(more[..i])), open);
      }
      assert Bodies(more[..0]) == "";
      if forall i :: 0 <= i < |pieces| ==> pieces[i].Left() == After(Tokens(Bodies(pieces[..i + 1])), open) {
        forall i | 0 <= i < |more| ensures more[i].Left() == After(Tokens(Bodies(more[..i + 1])), now) {
          assert more[i] == pieces[i + 1];
        }
      }
      if RightFrom(pieces, open) {
        forall i | 0 <= i < |pieces| ensures pieces[i].Left() == After(Tokens(Bodies(pieces[..i + 1])), open) {
          if i > 0 {
            assert pieces[i] == more[i - 1];
          }
        }
      }
    }
  }

  /** The reopened tags of a paginated text are names the source's pattern can read back. */
  lemma {:induction false} LinkedValid(pieces: seq<Piece>, i: nat)
    requires Linked(pieces) && i < |pieces| && pieces[0].reopened == []
    ensures ValidStack(pieces[i].reopened)
  {
    if i > 0 {
      LinkedValid(pieces, i - 1);
      TrackValid(pieces[i - 1].reopened, pieces[i - 1].lines);
    }
  }

  lemma IsMarkable(text: string, maxLength: nat, cut: string, pieces: seq<Piece>)
    requires Paginated(text, maxLength, cut, pieces) && NoTagSplit(cut, pieces)
    ensures Markable(pieces)
  {
    forall i | 0 <= i < |pieces| ensures ValidStack(pieces[i].reopened) && EndsLine(pieces[i].head) {
      LinkedValid(pieces, i);
    }
  }

  /** The whole text is the cut followed by the pieces. */
  lemma WholeText(text: string, cut: string, pieces: seq<Piece>)
    requires pieces != [] && Closed(cut) && Safe(cut, pieces[0].Body()) && Closed(Bodies(pieces))
    requires pieces[0].Body() != "" && cut + Bodies(pieces) == text + "\n"
    ensures
      var open := After(Tokens(cut), []);
      var rest := Tokens(Bodies(pieces));
      && Closed(text)
      && (Nested(Tokens(text), []) <==> Nested(Tokens(cut), []) && Nested(rest, open))
      && Meaning(Tokens(text), []) == Meaning(Tokens(cut), []) + Meaning(rest, open)
  {
    assert Bodies(pieces)[0] == pieces[0].Body()[0];
    TokensAppend(cut, Bodies(pieces));
    MarkupAppend(Tokens(cut), Tokens(Bodies(pieces)), []);
    TokensDropSpace(text, '\n');
    MarkupAppend(Tokens(text), [Chr('\n')], []);
  }

  lemma FirstBody(text: string, maxLength: nat, cut: string, pieces: seq<Piece>)
    requires Paginated(text, maxLength, cut, pieces)
    ensures pieces[0].Body() != ""
  {
  }

  /** The meaning and nesting of the text, page by page. */
  lemma TextByPieces(text: string, maxLength: nat, cut: string, pieces: seq<Piece>)
    requires Paginated(text, maxLength, cut, pieces) && NoTagSplit(cut, pieces) && After(Tokens(cut), []) == []
    ensures AllSound(pieces) && Nested(Tokens(cut), []) <==> Nested(Tokens(text), []) && StackIsRight(cut, pieces)
    ensures StackIsRight(cut, pieces) ==> Meaning(Tokens(cut), []) + PieceMeanings(pieces) == Meaning(Tokens(text), [])
  {
    IsMarkable(text, maxLength, cut, pieces);
    FirstBody(text, maxLength, cut, pieces);
    SoundIsNested(pieces, []);
    WholeText(text, cut, pieces);
    RightMeans(pieces, []);
    RightAfterCut(cut, pieces);
  }

  lemma RightAfterCut(cut: string, pieces: seq<Piece>)
    requires pieces != [] && NoTagSplit(cut, pieces) && After(Tokens(cut), []) == [] && pieces[0].Body() != ""
    ensures StackIsRight(cut, pieces) <==>
              forall i :: 0 <= i < |pieces| ==> pieces[i].Left() == After(Tokens(Bodies(pieces[..i + 1])), [])
  {
    forall i | 0 <= i < |pieces|
      ensures pieces[i].Left() == After(Tokens(Bodies(pieces[..i + 1])), []) <==>
              pieces[i].Left() == Really(cut, pieces, i + 1)
    {
      ReallyAfterCut(cut, pieces, i);
    }
  }

  lemma ReallyAfterCut(cut: string, pieces: seq<Piece>, i: nat)
    requires pieces != [] && NoTagSplit(cut, pieces) && After(Tokens(cut), []) == [] && pieces[0].Body() != ""
    requires i < |pieces|
    ensures After(Tokens(Bodies(pieces[..i + 1])), []) == Really(cut, pieces, i + 1)
  {
    assert pieces[..i + 1][0] == pieces[0];
    assert Bodies(pieces[..i + 1])[0] == pieces[0].Body()[0];
    TokensAppend(cut, Bodies(pieces[..i + 1]));
    AfterAppend(Tokens(cut), Tokens(Bodies(pieces[..i + 1])), []);
  }

  // ---------------------------------------------------------------- main results

  /**
   * When the pages are well nested: as long as no page ends inside a tag, if and only if the text
   * closes its tags in order and at the end of every page, the cut one included, the tags on the
   * program's stack are those really open.
   */
  lemma PagesNestedIff(text: string, maxLength: nat, cut: string, pieces: seq<Piece>)
    requires Paginated(text, maxLength, cut, pieces) && NoTagSplit(cut, pieces)
    ensures AllWellNested(Chunk(Split(text, '\n'), "", [], maxLength)) <==>
              Nested(Tokens(text), []) && StackIsRight(cut, pieces)
  {
    IsMarkable(text, maxLength, cut, pieces);
    PagesMarkup(pieces);
    if IsCut(text, maxLength) {
      PageThenPages(cut, Pages(pieces));
    } else {
      assert [] + Pages(pieces) == Pages(pieces);
    }
    if After(Tokens(cut), []) == [] {
      TextByPieces(text, maxLength, cut, pieces);
    }
  }

  /**
   * The same for every text and page length, also where pages end inside a tag: the pages are well
   * nested if and only if a cut first line is, and every other piece of the text, read under the tags
   * reopened before it, nests and ends with the tags closed after it.
   */
  lemma PagesSoundIff(text: string, maxLength: nat, cut: string, pieces: seq<Piece>)
    requires Paginated(text, maxLength, cut, pieces)
    ensures AllWellNested(Chunk(Split(text, '\n'), "", [], maxLength)) <==>
              WellNested(cut) && forall i :: 0 <= i < |pieces| ==> Sound(pieces[i])
    ensures PagesMeaning(Chunk(Split(text, '\n'), "", [], maxLength)) ==
            Meaning(Tokens(cut), []) + PieceMeanings(pieces)
  {
    forall i | 0 <= i < |pieces| ensures ValidStack(pieces[i].reopened) {
      LinkedValid(pieces, i);
    }
    PagesMarkup(pieces);
    AllSoundMeans(pieces);
    WithCutPage(if IsCut(text, maxLength) then [cut] else [], cut, Pages(pieces));
  }

  /** A cut page counts with its own text; without one, the empty cut counts for nothing. */
  lemma WithCutPage(first: seq<string>, cut: string, pages: seq<string>)
    requires first == [cut] || (first == [] && cut == "")
    ensures AllWellNested(first + pages) <==> WellNested(cut) && AllWellNested(pages)
    ensures PagesMeaning(first + pages) == Meaning(Tokens(cut), []) + PagesMeaning(pages)
  {
    if first == [cut] {
      PageThenPages(cut, pages);
    } else {
      assert first + pages == pages;
      assert [] + PagesMeaning(pages) == PagesMeaning(pages);
    }
  }

  lemma {:induction false} AllSoundMeans(pieces: seq<Piece>)
    ensures AllSound(pieces) <==> forall i :: 0 <= i < |pieces| ==> Sound(pieces[i])
  {
    if pieces != [] {
      var p, more := pieces[0], pieces[1..];
      AllSoundMeans(more);
      if forall i :: 0 <= i < |pieces| ==> Sound(pieces[i]) {
        forall i | 0 <= i < |more| ensures Sound(more[i]) {
          assert more[i] == pieces[i + 1];
        }
      }
      if Sound(p) && forall i :: 0 <= i < |more| ==> Sound(more[i]) {
        forall i | 0 <= i < |pieces| ensures Sound(pieces[i]) {
          assert i > 0 ==> pieces[i] == more[i - 1];
        }
      }
    }
  }

  /** With the right stack at every page end, each visible character stands under the tags it stood under. */
  lemma RightStackKeepsMeaning(text: string, maxLength: nat, cut: string, pieces: seq<Piece>)
    requires Paginated(text, maxLength, cut, pieces) && NoTagSplit(cut, pieces) && StackIsRight(cut, pieces)
    ensures PagesMeaning(Chunk(Split(text, '\n'), "", [], maxLength)) == Meaning(Tokens(text), [])
  {
    IsMarkable(text, maxLength, cut, pieces);
    PagesMarkup(pieces);
    TextByPieces(text, maxLength, cut, pieces);
    if IsCut(text, maxLength) {
      PageThenPages(cut, Pages(pieces));
    } else {
      assert [] + Pages(pieces) == Pages(pieces);
      assert [] + PieceMeanings(pieces) == PieceMeanings(pieces);
    }
  }

  /** No tag of the text runs over the end of its line. */
  predicate LinesClosed(lines: seq<string>) { forall i :: 0 <= i < |lines| ==> Closed(lines[i]) }

  /** The cut between `a` and `b` falls neither into a tag nor between a tag and its closing tag. */
  predicate CleanCut(a: string, b: string) {
    Closed(a) && Safe(a, b) && After(Tokens(a), []) == [] && After(Tokens(b), []) == []
  }

  /** The first line fits on a page, or the page ends where it has no tag open. */
  predicate FirstLineOk(line: string, maxLength: nat) {
    |line| + 1 <= maxLength || CleanCut(line[..maxLength], line[maxLength..])
  }

  lemma {:induction false} LinesTrack(lines: seq<string>, open: seq<string>)
    requires LinesClosed(lines)
    ensures Closed(Unlines(lines)) && After(Tokens(Unlines(lines)), open) == Track(open, lines)
    decreases |lines|
  {
    if lines != [] {
      var line, rest := lines[0], Unlines(lines[1..]);
      LineEnd(line, open);
      LinesTrack(lines[1..], After(Tokens(line), open));
      TokensAppend(line + "\n", rest);
      AfterAppend(Tokens(line + "\n"), Tokens(rest), open);
    }
  }

  lemma {:induction false} PieceLines(pieces: seq<Piece>, i: nat)
    requires i < |pieces| && LinesClosed(LinesOf(pieces))
    ensures LinesClosed(pieces[i].lines)
  {
    var p, more := pieces[0], LinesOf(pieces[1..]);
    assert forall k :: 0 <= k < |p.lines| ==> LinesOf(pieces)[k] == p.lines[k];
    if i > 0 {
      assert forall k :: 0 <= k < |more| ==> LinesOf(pieces)[|p.lines| + k] == more[k];
      PieceLines(pieces[1..], i - 1);
    }
  }

  /** Whole lines that hold whole tags: what the program tracks is what is open. */
  lemma PieceTracked(p: Piece)
    requires LinesClosed(p.lines) && Closed(p.head) && EndsLine(p.head)
    requires After(Tokens(p.head), p.reopened) == p.reopened
    ensures Closed(p.Body()) && After(Tokens(p.Body()), p.reopened) == p.Left()
  {
    LinesTrack(p.lines, p.reopened);
    TokensAppend(p.head, Unlines(p.lines));
    AfterAppend(Tokens(p.head), Tokens(Unlines(p.lines)), p.reopened);
  }

  lemma {:induction false} TrackedIsRight(pieces: seq<Piece>)
    requires pieces != [] && Linked(pieces)
    requires forall i :: 0 <= i < |pieces| ==>
               After(Tokens(pieces[i].Body()), pieces[i].reopened) == pieces[i].Left()
    ensures RightFrom(pieces, pieces[0].reopened)
  {
    var more := pieces[1..];
    assert forall i :: 0 <= i < |more| ==> more[i] == pieces[i + 1];
    if more != [] {
      TrackedIsRight(more);
    }
  }

  /** Where no tag runs over a line end and the first line is fine, the stack is always right. */
  lemma StackRightIfLinesClosed(text: string, maxLength: nat, cut: string, pieces: seq<Piece>)
    requires Paginated(text, maxLength, cut, pieces)
    requires LinesClosed(Split(text, '\n')) && FirstLineOk(Split(text, '\n')[0], maxLength)
    ensures NoTagSplit(cut, pieces) && StackIsRight(cut, pieces)
  {
    var line := Split(text, '\n')[0];
    FirstHead(text, maxLength, cut, pieces);
    forall i | 0 <= i < |pieces|
      ensures Closed(pieces[i].Body()) && After(Tokens(pieces[i].Body()), pieces[i].reopened) == pieces[i].Left()
    {
      PieceLines(pieces, i);
      if i > 0 {
        assert pieces[i].head == "";
      }
      PieceTracked(pieces[i]);
    }
    TrackedIsRight(pieces);
    RightIsRight(text, maxLength, cut, pieces);
  }

  lemma RightIsRight(text: string, maxLength: nat, cut: string, pieces: seq<Piece>)
    requires Paginated(text, maxLength, cut, pieces) && NoTagSplit(cut, pieces)
    requires After(Tokens(cut), []) == [] && RightFrom(pieces, [])
    ensures StackIsRight(cut, pieces)
  {
    FirstBody(text, maxLength, cut, pieces);
    IsMarkable(text, maxLength, cut, pieces);
    RightMeans(pieces, []);
    RightAfterCut(cut, pieces);
  }

  lemma FirstHead(text: string, maxLength: nat, cut: string, pieces: seq<Piece>)
    requires Paginated(text, maxLength, cut, pieces)
    requires LinesClosed(Split(text, '\n')) && FirstLineOk(Split(text, '\n')[0], maxLength)
    ensures LinesClosed(LinesOf(pieces)) && Closed(pieces[0].head) && After(Tokens(pieces[0].head), []) == []
    ensures Closed(cut) && After(Tokens(cut), []) == [] && Safe(cut, pieces[0].Body())
  {
    var line := Split(text, '\n')[0];
    if IsCut(text, maxLength) {
      var a, b := line[..maxLength], line[maxLength..];
      assert line == a + b;
      TokensAppend(a, b);
      LineEnd(b, []);
      assert pieces[0].Body()[0] == pieces[0].head[0];
    }
  }

  /**
   * For lines that hold whole tags: every visible character stays under its tags, and the pages are
   * well nested exactly when the text closes its tags in order.
   */
  lemma PagesKeepMeaning(text: string, maxLength: nat)
    requires LinesClosed(Split(text, '\n')) && FirstLineOk(Split(text, '\n')[0], maxLength)
    ensures
      var pages := Chunk(Split(text, '\n'), "", [], maxLength);
      && PagesMeaning(pages) == Meaning(Tokens(text), [])
      && (AllWellNested(pages) <==> Nested(Tokens(text), []))
  {
    var cut, pieces := PagesKeepText(text, maxLength);
    StackRightIfLinesClosed(text, maxLength, cut, pieces);
    PagesNestedIff(text, maxLength, cut, pieces);
    RightStackKeepsMeaning(text, maxLength, cut, pieces);
  }
}
