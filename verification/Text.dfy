/**
 Strings as Go's `sort.Strings`, `strings.TrimSpace` and `bufio` see them. A string is a sequence of
 code points; comparing code points orders strings exactly as comparing their UTF-8 bytes does.
 */
module Text {

  // ----- Byte-wise string order -----

  predicate LexLeq(a: string, b: string) {
    a == [] || (b != [] && (a[0] < b[0] || (a[0] == b[0] && LexLeq(a[1..], b[1..]))))
  }

  lemma {:induction false} LexTotal(a: string, b: string)
    ensures LexLeq(a, b) || LexLeq(b, a)
  {
    if a != [] && b != [] {
      LexTotal(a[1..], b[1..]);
    }
  }

  lemma {:induction false} LexReflexive(a: string)
    ensures LexLeq(a, a)
  {
    if a != [] {
      LexReflexive(a[1..]);
    }
  }

  lemma {:induction false} LexAntisymmetric(a: string, b: string)
    requires LexLeq(a, b) && LexLeq(b, a)
    ensures a == b
  {
    if a != [] && b != [] {
      LexAntisymmetric(a[1..], b[1..]);
      assert a == [a[0]] + a[1..] && b == [b[0]] + b[1..];
    }
  }

  lemma {:induction false} LexTransitive(a: string, b: string, c: string)
    requires LexLeq(a, b) && LexLeq(b, c)
    ensures LexLeq(a, c)
  {
    if a != [] && a[0] == b[0] == c[0] {
      LexTransitive(a[1..], b[1..], c[1..]);
    }
  }

  /** At the first place where two strings differ, the first has the smaller character. */
  ghost predicate DiffersBelow(a: string, b: string, i: nat) {
    i < |a| && i < |b| && a[..i] == b[..i] && a[i] < b[i]
  }

  /** One string comes before another exactly when it is a prefix of it or is smaller where they first differ. */
  lemma {:induction false} LexOrder(a: string, b: string)
    ensures LexLeq(a, b) <==> a <= b || exists i :: DiffersBelow(a, b, i)
  {
    if a != [] && b != [] {
      var a', b' := a[1..], b[1..];
      assert a == [a[0]] + a' && b == [b[0]] + b';
      if a[0] == b[0] {
        LexOrder(a', b');
        forall i: nat ensures DiffersBelow(a', b', i) <==> DiffersBelow(a, b, i + 1) {
          if i < |a'| && i < |b'| {
            assert a[..i + 1] == [a[0]] + a'[..i] && b[..i + 1] == [b[0]] + b'[..i];
            assert a'[..i] == a[..i + 1][1..] && b'[..i] == b[..i + 1][1..];
          }
        }
        assert !DiffersBelow(a, b, 0);
        if exists i :: DiffersBelow(a, b, i) {
          var i: nat :| DiffersBelow(a, b, i);
          assert DiffersBelow(a', b', i - 1);
        }
        if exists i :: DiffersBelow(a', b', i) {
          var i: nat :| DiffersBelow(a', b', i);
          assert DiffersBelow(a, b, i + 1);
        }
      } else {
        if a[0] < b[0] {
          assert a[..0] == b[..0];
          assert DiffersBelow(a, b, 0);
        }
        forall i: nat ensures DiffersBelow(a, b, i) ==> i == 0 {
          assert 0 < i < |a| && i < |b| ==> a[..i][0] == a[0] && b[..i][0] == b[0];
        }
      }
    }
  }

  ghost predicate Sorted(s: seq<string>) {
    forall i, j :: 0 <= i < j < |s| ==> LexLeq(s[i], s[j])
  }

  // ----- Sorting, and why its result does not depend on the order of its input -----

  function Insert(x: string, s: seq<string>): seq<string> {
    if s == [] || LexLeq(x, s[0]) then [x] + s else [s[0]] + Insert(x, s[1..])
  }

  function SortStrings(s: seq<string>): seq<string> {
    if s == [] then [] else Insert(s[0], SortStrings(s[1..]))
  }

  lemma {:induction false} InsertSorts(x: string, s: seq<string>)
    requires Sorted(s)
    ensures Sorted(Insert(x, s)) && multiset(Insert(x, s)) == multiset(s) + multiset{x}
  {
    if s == [] {
    } else if LexLeq(x, s[0]) {
      forall j | 0 <= j < |s| ensures LexLeq(x, s[j]) {
        if j > 0 {
          LexTransitive(x, s[0], s[j]);
        }
      }
    } else {
      var rest := Insert(x, s[1..]);
      InsertSorts(x, s[1..]);
      LexTotal(x, s[0]);
      assert s == [s[0]] + s[1..];
      forall j | 0 <= j < |rest| ensures LexLeq(s[0], rest[j]) {
        assert rest[j] in multiset(rest);
        assert rest[j] == x || rest[j] in s[1..];
      }
    }
  }

  lemma {:induction false} SortSorts(s: seq<string>)
    ensures Sorted(SortStrings(s)) && multiset(SortStrings(s)) == multiset(s)
  {
    if s != [] {
      SortSorts(s[1..]);
      InsertSorts(s[0], SortStrings(s[1..]));
      assert s == [s[0]] + s[1..];
    }
  }

  lemma {:induction false} SortedIsCanonical(a: seq<string>, b: seq<string>)
    requires Sorted(a) && Sorted(b) && multiset(a) == multiset(b)
    ensures a == b
  {
    assert |multiset(a)| == |a| && |multiset(b)| == |b|;
    if a != [] {
      SameHead(a, b);
      SameHead(b, a);
      LexAntisymmetric(a[0], b[0]);
      SameRest(a, b);
      SortedIsCanonical(a[1..], b[1..]);
      assert a == [a[0]] + a[1..] && b == [b[0]] + b[1..];
    }
  }

  lemma SameHead(a: seq<string>, b: seq<string>)
    requires Sorted(a) && multiset(a) == multiset(b) && a != [] && b != []
    ensures LexLeq(a[0], b[0])
  {
    assert b[0] in multiset(b);
    var j :| 0 <= j < |a| && a[j] == b[0];
    LexReflexive(a[0]);
  }

  lemma SameRest(a: seq<string>, b: seq<string>)
    requires multiset(a) == multiset(b) && a != [] && b != [] && a[0] == b[0]
    ensures multiset(a[1..]) == multiset(b[1..])
  {
    assert a == [a[0]] + a[1..] && b == [b[0]] + b[1..];
    assert multiset(a[1..]) == multiset(a) - multiset{a[0]};
    assert multiset(b[1..]) == multiset(b) - multiset{b[0]};
  }

  /** One arbitrary enumeration of a set, as `range` over a Go map gives. */
  ghost function Enumerate(s: set<string>): (order: seq<string>)
    ensures multiset(order) == multiset(s)
  {
    if s == {} then [] else
      var x :| x in s;
      var rest := Enumerate(s - {x});
      assert multiset(s - {x}) + multiset{x} == multiset(s);
      [x] + rest
  }

  /** The keys of a map, sorted: what collecting them in any order and calling `sort.Strings` gives. */
  ghost function SortedKeys(s: set<string>): seq<string> {
    SortStrings(Enumerate(s))
  }

  lemma SortedKeysOf(s: set<string>, order: seq<string>)
    requires multiset(order) == multiset(s)
    ensures SortStrings(order) == SortedKeys(s)
    ensures multiset(SortedKeys(s)) == multiset(s)
  {
    SortSorts(order);
    SortSorts(Enumerate(s));
    SortedIsCanonical(SortStrings(order), SortedKeys(s));
  }

  lemma SortedKeysExact(s: set<string>)
    ensures forall k :: k in SortedKeys(s) <==> k in s
    ensures forall i, j :: 0 <= i < j < |SortedKeys(s)| ==> SortedKeys(s)[i] != SortedKeys(s)[j]
    ensures |SortedKeys(s)| == |s|
  {
    var ks := SortedKeys(s);
    SortedKeysOf(s, Enumerate(s));
    assert |multiset(ks)| == |ks|;
    forall k ensures k in ks <==> k in s {
      assert k in ks <==> k in multiset(ks);
    }
    forall i, j | 0 <= i < j < |ks| ensures ks[i] != ks[j] {
      assert ks == ks[..j] + ks[j..];
      assert multiset(ks)[ks[i]] <= 1;
    }
  }

  /** Collects the keys of a map in whatever order they come and sorts them. */
  method CollectSorted(s: set<string>) returns (keys: seq<string>)
    ensures keys == SortedKeys(s)
  {
    keys := [];
    var left := s;
    while left != {}
      invariant left <= s
      invariant multiset(keys) + multiset(left) == multiset(s)
      decreases |left|
    {
      var key :| key in left;
      keys, left := keys + [key], left - {key};
    }
    SortedKeysOf(s, keys);
    keys := SortStrings(keys);
  }

  // ----- White space -----

  /** `unicode.IsSpace`. */
  predicate IsSpace(c: char) {
    || '\t' <= c <= '\r' || c == ' ' || c == '\U{85}' || c == '\U{A0}' || c == '\U{1680}'
    || '\U{2000}' <= c <= '\U{200A}' || '\U{2028}' <= c <= '\U{2029}'
    || c == '\U{202F}' || c == '\U{205F}' || c == '\U{3000}'
  }

  /** The characters of Unicode's White Space property. */
  lemma SpacesAre(c: char)
    ensures IsSpace(c) <==>
            c in {' ', '\t', '\n', '\U{0B}', '\U{0C}', '\r', '\U{85}', '\U{A0}', '\U{1680}', '\U{2000}', '\U{2001}',
                  '\U{2002}', '\U{2003}', '\U{2004}', '\U{2005}', '\U{2006}', '\U{2007}', '\U{2008}', '\U{2009}',
                  '\U{200A}', '\U{2028}', '\U{2029}', '\U{202F}', '\U{205F}', '\U{3000}'}
  {
  }

  function TrimLeft(s: string): (r: string)
    ensures |r| <= |s| && r == s[|s| - |r|..]
    ensures r != [] ==> !IsSpace(r[0])
  {
    if s != [] && IsSpace(s[0]) then TrimLeft(s[1..]) else s
  }

  function TrimRight(s: string): (r: string)
    ensures r <= s
    ensures r != [] ==> !IsSpace(r[|r| - 1])
    ensures s != [] && !IsSpace(s[0]) ==> r != []
  {
    if s != [] && IsSpace(s[|s| - 1]) then TrimRight(s[..|s| - 1]) else s
  }

  /** `strings.TrimSpace`. */
  function TrimSpace(s: string): string {
    TrimRight(TrimLeft(s))
  }

  ghost predicate Blank(s: string) {
    forall i :: 0 <= i < |s| ==> IsSpace(s[i])
  }

  /** Nothing to trim: no white space at either end. */
  ghost predicate Tight(s: string) {
    s == "" || (!IsSpace(s[0]) && !IsSpace(s[|s| - 1]))
  }

  lemma {:induction false} TrimLeftOf(pre: string, s: string)
    requires Blank(pre) && (s == "" || !IsSpace(s[0]))
    ensures TrimLeft(pre + s) == s
  {
    if pre == "" {
      assert pre + s == s;
    } else {
      assert (pre + s)[1..] == pre[1..] + s;
      TrimLeftOf(pre[1..], s);
    }
  }

  lemma {:induction false} TrimRightOf(s: string, post: string)
    requires Blank(post) && (s == "" || !IsSpace(s[|s| - 1]))
    ensures TrimRight(s + post) == s
  {
    if post == "" {
      assert s + post == s;
    } else {
      var front := post[..|post| - 1];
      assert s + post == s + front + [post[|post| - 1]];
      assert (s + post)[..|s + post| - 1] == s + front;
      TrimRightOf(s, front);
    }
  }

  /** White space around a text, and only that, is what trimming takes away. */
  lemma TrimSpaceIs(pre: string, s: string, post: string)
    requires Blank(pre) && Tight(s) && Blank(post)
    ensures TrimSpace(pre + s + post) == s
  {
    if s == "" {
      BlankJoin(pre, post);
      assert pre + s + post == (pre + post) + "";
      TrimLeftOf(pre + post, "");
    } else {
      assert pre + s + post == pre + (s + post);
      TrimLeftOf(pre, s + post);
      TrimRightOf(s, post);
    }
  }

  lemma TrimTight(s: string)
    requires Tight(s)
    ensures TrimSpace(s) == s
  {
    TrimSpaceIs("", s, "");
    assert "" + s + "" == s;
  }

  lemma BlankJoin(a: string, b: string)
    requires Blank(a) && Blank(b)
    ensures Blank(a + b)
  {
  }

  // ----- Lines -----

  /** The length of the text before its first newline, or of all of it. */
  function NextBreak(text: string): (n: nat)
    ensures n <= |text|
  {
    if text == "" || text[0] == '\n' then 0 else 1 + NextBreak(text[1..])
  }

  lemma {:induction false} BreaksAtNewline(text: string)
    ensures '\n' !in text[..NextBreak(text)]
    ensures NextBreak(text) < |text| ==> text[NextBreak(text)] == '\n'
  {
    if text != "" && text[0] != '\n' {
      BreaksAtNewline(text[1..]);
      var n := NextBreak(text);
      assert text[..n] == [text[0]] + text[1..][..n - 1];
    }
  }

  /** What follows the first line and its newline. */
  function AfterBreak(text: string): (rest: string)
    requires text != ""
    ensures |rest| < |text|
  {
    var n := NextBreak(text);
    if n < |text| then text[n + 1..] else ""
  }

  /** The lines of a text; an unterminated last one counts. */
  function Lines(text: string): seq<string>
    decreases |text|
  {
    if text == "" then [] else [text[..NextBreak(text)]] + Lines(AfterBreak(text))
  }

  /** Empty, or ending in a newline. */
  predicate Whole(text: string) {
    text == "" || text[|text| - 1] == '\n'
  }

  lemma {:induction false} BreakInFirst(a: string, b: string)
    requires '\n' in a
    ensures NextBreak(a + b) == NextBreak(a) < |a|
  {
    if a[0] != '\n' {
      assert a == [a[0]] + a[1..];
      assert (a + b)[1..] == a[1..] + b;
      BreakInFirst(a[1..], b);
    }
  }

  lemma FirstLineOfAppend(a: string, b: string)
    requires Whole(a) && a != ""
    ensures (a + b)[..NextBreak(a + b)] == a[..NextBreak(a)] && AfterBreak(a + b) == AfterBreak(a) + b
    ensures Whole(AfterBreak(a))
  {
    assert a[|a| - 1] == '\n';
    BreakInFirst(a, b);
  }

  /** Cutting a text behind a newline cuts its lines. */
  lemma {:induction false} LinesAppend(a: string, b: string)
    requires Whole(a)
    ensures Lines(a + b) == Lines(a) + Lines(b)
    decreases |a|
  {
    if a == "" {
      assert a + b == b;
    } else {
      FirstLineOfAppend(a, b);
      LinesAppend(AfterBreak(a), b);
      var first, rest := a[..NextBreak(a)], Lines(AfterBreak(a));
      assert [first] + (rest + Lines(b)) == ([first] + rest) + Lines(b);
    }
  }

  function Unlines(lines: seq<string>): string {
    if lines == [] then "" else lines[0] + "\n" + Unlines(lines[1..])
  }

  lemma {:induction false} UnlinesWhole(lines: seq<string>)
    ensures Whole(Unlines(lines))
  {
    if lines != [] {
      UnlinesWhole(lines[1..]);
    }
  }

  lemma {:induction false} LinesOfUnlines(lines: seq<string>)
    requires forall i :: 0 <= i < |lines| ==> '\n' !in lines[i]
    ensures Lines(Unlines(lines)) == lines
  {
    if lines != [] {
      var first, rest := lines[0], Unlines(lines[1..]);
      LinesOfUnlines(lines[1..]);
      OneLine(first);
      LinesAppend(first + "\n", rest);
      assert Unlines(lines) == (first + "\n") + rest;
      assert [first] + lines[1..] == lines;
    }
  }

  lemma {:induction false} BreakAtEnd(line: string)
    requires '\n' !in line
    ensures NextBreak(line + "\n") == |line|
  {
    if line != "" {
      assert (line + "\n")[1..] == line[1..] + "\n";
      BreakAtEnd(line[1..]);
    }
  }

  lemma OneLine(line: string)
    requires '\n' !in line
    ensures Lines(line + "\n") == [line]
  {
    BreakAtEnd(line);
    assert (line + "\n")[..|line|] == line && (line + "\n")[|line| + 1..] == "";
  }

  lemma {:induction false} BreakAtAll(line: string)
    requires '\n' !in line
    ensures NextBreak(line) == |line|
  {
    if line != "" {
      BreakAtAll(line[1..]);
    }
  }

  /** A line that lacks only its newline reads the same as with it. */
  lemma {:induction false} NewlineCompletes(text: string)
    requires !Whole(text)
    ensures Lines(text + "\n") == Lines(text)
    decreases |text|
  {
    var n := NextBreak(text);
    BreaksAtNewline(text);
    if n == |text| {
      assert text[..n] == text;
      OneLine(text);
      assert Lines(text) == [text];
    } else {
      var first, rest := text[..n + 1], text[n + 1..];
      assert text == first + rest && text + "\n" == first + (rest + "\n");
      assert rest[|rest| - 1] == text[|text| - 1];
      NewlineCompletes(rest);
      LinesAppend(first, rest);
      LinesAppend(first, rest + "\n");
    }
  }
}
