/** String operations shared by the models: the parts of Python's `str` the program relies on. */
module Text {

  /** The characters removed by `str.strip()` without arguments. */
  predicate IsSpace(c: char) {
    || '\t' <= c <= '\r'
    || '\U{1C}' <= c <= ' '
    || c in {'\U{85}', '\U{A0}', '\U{1680}', '\U{2028}', '\U{2029}', '\U{202F}', '\U{205F}', '\U{3000}'}
    || '\U{2000}' <= c <= '\U{200A}'
  }

  function StripLeft(s: string): string {
    if s != "" && IsSpace(s[0]) then StripLeft(s[1..]) else s
  }

  function StripRight(s: string): string {
    if s != "" && IsSpace(s[|s| - 1]) then StripRight(s[..|s| - 1]) else s
  }

  function Strip(s: string): string {
    StripRight(StripLeft(s))
  }

  function LowerChar(c: char): char {
    if 'A' <= c <= 'Z' then (c as int + 32) as char else c
  }

  /** `str.lower()` on ASCII letters; other characters are left alone. */
  function Lower(s: string): (r: string)
    ensures |r| == |s|
  {
    seq(|s|, i requires 0 <= i < |s| => LowerChar(s[i]))
  }

  /** `s.replace(from, to)` for single characters. */
  function Replace(s: string, from: char, to: char): (r: string)
    ensures |r| == |s|
  {
    seq(|s|, i requires 0 <= i < |s| => if s[i] == from then to else s[i])
  }

  /** `s.split(sep)` for a one-character separator: never empty. */
  function Split(s: string, sep: char): (parts: seq<string>)
    ensures parts != []
  {
    if s == "" then [""]
    else
      var rest := Split(s[1..], sep);
      if s[0] == sep then [""] + rest else [[s[0]] + rest[0]] + rest[1..]
  }

  /** Every line followed by a newline. */
  function Unlines(lines: seq<string>): string {
    if lines == [] then "" else lines[0] + "\n" + Unlines(lines[1..])
  }

  lemma {:induction false} UnlinesSplit(s: string)
    ensures Unlines(Split(s, '\n')) == s + "\n"
  {
    if s == "" {
      assert Split(s, '\n')[1..] == [];
    } else {
      var rest := Split(s[1..], '\n');
      UnlinesSplit(s[1..]);
      var parts := Split(s, '\n');
      if s[0] == '\n' {
        assert parts[1..] == rest;
      } else {
        UnlinesPush(s[0], rest[0], rest[1..]);
        assert parts == [[s[0]] + rest[0]] + rest[1..] && rest == [rest[0]] + rest[1..];
        assert [s[0]] + (s[1..] + "\n") == s + "\n";
      }
    }
  }

  lemma UnlinesPush(c: char, line: string, more: seq<string>)
    ensures Unlines([[c] + line] + more) == [c] + Unlines([line] + more)
  {
    assert ([[c] + line] + more)[1..] == more && ([line] + more)[1..] == more;
    assert [c] + line + "\n" + Unlines(more) == [c] + (line + "\n" + Unlines(more));
  }

  /** Nothing but white space. */
  predicate Blank(s: string) { forall k :: 0 <= k < |s| ==> IsSpace(s[k]) }

  /** `t` is `s` without the white space at its two ends, and without anything else. */
  predicate Trims(s: string, t: string) {
    exists i, j :: 0 <= i <= j <= |s| && t == s[i..j] && TrimsAt(s, i, j)
  }

  predicate TrimsAt(s: string, i: int, j: int)
    requires 0 <= i <= j <= |s|
  {
    Blank(s[..i]) && Blank(s[j..]) && (i < j ==> !IsSpace(s[i]) && !IsSpace(s[j - 1]))
  }

  lemma {:induction false} StripLeftAt(s: string) returns (i: nat)
    ensures i <= |s| && StripLeft(s) == s[i..] && Blank(s[..i]) && (i < |s| ==> !IsSpace(s[i]))
  {
    if s != "" && IsSpace(s[0]) {
      i := StripLeftAt(s[1..]);
      assert s[..i + 1] == [s[0]] + s[1..][..i];
      i := i + 1;
    } else {
      i := 0;
    }
  }

  lemma {:induction false} StripRightAt(s: string) returns (j: nat)
    ensures j <= |s| && StripRight(s) == s[..j] && Blank(s[j..]) && (j > 0 ==> !IsSpace(s[j - 1]))
  {
    if s != "" && IsSpace(s[|s| - 1]) {
      j := StripRightAt(s[..|s| - 1]);
      assert s[j..] == s[..|s| - 1][j..] + [s[|s| - 1]];
    } else {
      j := |s|;
    }
  }

  lemma StripAt(s: string) returns (i: nat, j: nat)
    ensures i <= j <= |s| && Strip(s) == s[i..j] && TrimsAt(s, i, j)
  {
    i := StripLeftAt(s);
    var k := StripRightAt(s[i..]);
    j := i + k;
    assert s[i..][..k] == s[i..j] && s[i..][k..] == s[j..];
    assert k > 0 ==> s[i..][k - 1] == s[j - 1];
  }

  lemma StripTrims(s: string)
    ensures Trims(s, Strip(s))
  {
    var i, j := StripAt(s);
  }

  /** White space only is stripped to nothing, and nothing else is. */
  lemma StripBlankIff(s: string)
    ensures Strip(s) == "" <==> Blank(s)
  {
    var i, j := StripAt(s);
    if i == j {
      BlankHalves(s, i);
    } else {
      assert s[i..j][0] == s[i];
    }
  }

  lemma BlankHalves(s: string, i: nat)
    requires i <= |s| && Blank(s[..i]) && Blank(s[i..])
    ensures Blank(s)
  {
    forall k | 0 <= k < |s| ensures IsSpace(s[k]) {
      assert if k < i then s[k] == s[..i][k] else s[k] == s[i..][k - i];
    }
  }

  lemma BlankEnds(s: string, i: nat, j: nat)
    requires i <= |s| && j <= |s| && Blank(s[..i]) && Blank(s[j..])
    ensures forall k :: 0 <= k < i ==> IsSpace(s[k])
    ensures forall k :: j <= k < |s| ==> IsSpace(s[k])
  {
    forall k | 0 <= k < i ensures IsSpace(s[k]) {
      assert s[..i][k] == s[k];
    }
    forall k | j <= k < |s| ensures IsSpace(s[k]) {
      assert s[j..][k - j] == s[k];
    }
  }

  /** What is between blanks is what stripping leaves. */
  lemma StripUnique(s: string, i: nat, j: nat)
    requires i < j <= |s| && TrimsAt(s, i, j)
    ensures Strip(s) == s[i..j]
  {
    var i', j' := StripAt(s);
    BlankEnds(s, i, j);
    BlankEnds(s, i', j');
  }
}
