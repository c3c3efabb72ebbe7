/**
 What single lines of the routing file mean to the parser of internal/twilioadapter/approvers.go, in any
 state: comments, white space and blank lines change nothing, and every other line has just the effect its
 section, indentation and text give it.
 */
module ApproverLines {
  import opened Core
  import opened Text
  import opened Approvers

  // ----- White space and comments -----

  lemma {:induction false} StripsComment(l: string, c: string)
    requires '#' !in l
    ensures StripComment(l + "#" + c) == l
  {
    if l == "" {
      assert l + "#" + c == "#" + c;
    } else {
      assert l + "#" + c == [l[0]] + (l[1..] + "#" + c) && (l + "#" + c)[1..] == l[1..] + "#" + c;
      StripsComment(l[1..], c);
      assert l == [l[0]] + l[1..];
    }
  }

  /** A text is what trimming leaves of it, with white space around. */
  lemma TrimmedParts(s: string) returns (pre: string, post: string)
    ensures s == pre + TrimSpace(s) + post && Blank(pre) && Blank(post) && Tight(TrimSpace(s))
  {
    pre := LeftPart(s);
    post := RightPart(TrimLeft(s));
    ThreeParts(s, pre, TrimLeft(s), TrimSpace(s), post);
    TightTrim(s);
  }

  lemma ThreeParts(s: string, pre: string, l: string, t: string, post: string)
    requires s == pre + l && l == t + post
    ensures s == pre + t + post
  {
  }

  lemma LeftPart(s: string) returns (pre: string)
    ensures s == pre + TrimLeft(s) && Blank(pre)
  {
    pre := s[..|s| - |TrimLeft(s)|];
    LeftIsBlank(s);
  }

  lemma {:induction false} LeftIsBlank(s: string)
    ensures Blank(s[..|s| - |TrimLeft(s)|])
  {
    if s != "" && IsSpace(s[0]) {
      var n := |s| - |TrimLeft(s)|;
      LeftIsBlank(s[1..]);
      forall i | 0 <= i < n ensures IsSpace(s[..n][i]) {
        assert i > 0 ==> s[..n][i] == s[1..][..n - 1][i - 1];
      }
    }
  }

  lemma {:induction false} RightPart(s: string) returns (post: string)
    ensures s == TrimRight(s) + post && Blank(post)
  {
    if s != [] && IsSpace(s[|s| - 1]) {
      var rest := RightPart(s[..|s| - 1]);
      post := rest + [s[|s| - 1]];
      assert s == s[..|s| - 1] + [s[|s| - 1]];
    } else {
      post := "";
    }
  }

  lemma TightTrim(s: string)
    ensures Tight(TrimSpace(s))
  {
    var l := TrimLeft(s);
    if TrimRight(l) != "" {
      assert TrimRight(l)[0] == l[0];
    }
  }

  lemma PadIsTrimmed(l: string, pad: string)
    requires Blank(pad)
    ensures TrimSpace(l + pad) == TrimSpace(l)
  {
    var pre, post := TrimmedParts(l);
    BlankJoin(post, pad);
    assert l + pad == pre + TrimSpace(l) + (post + pad);
    TrimSpaceIs(pre, TrimSpace(l), post + pad);
  }

  lemma BlankIsTrimmed(l: string)
    requires Blank(l)
    ensures TrimSpace(l) == ""
  {
    TrimSpaceIs(l, "", "");
    assert l + "" + "" == l;
  }

  lemma {:induction false} PadIsNotCounted(l: string, pad: string)
    requires !Blank(l)
    ensures LeadingSpaces(l + pad) == LeadingSpaces(l)
  {
    if l[0] == ' ' {
      assert IsSpace(' ') && l == [l[0]] + l[1..];
      assert (l + pad)[1..] == l[1..] + pad;
      PadIsNotCounted(l[1..], pad);
    }
  }

  /** What is left of a line once a carriage return and a comment are gone. */
  function Shown(raw: string): string {
    StripComment(DropReturn(raw))
  }

  lemma SameReading(s: State, raw: string, raw': string)
    requires TrimSpace(Shown(raw)) == TrimSpace(Shown(raw'))
    requires TrimSpace(Shown(raw)) != "" ==> LeadingSpaces(Shown(raw)) == LeadingSpaces(Shown(raw'))
    ensures ReadLine(s, raw) == ReadLine(s, raw')
  {
  }

  /** Text without a comment reads like the same text with white space behind it. */
  lemma PaddedReading(s: State, raw: string, raw': string, l: string, pad: string)
    requires Shown(raw) == l && Shown(raw') == l + pad && Blank(pad)
    ensures ReadLine(s, raw) == ReadLine(s, raw')
  {
    PadIsTrimmed(l, pad);
    if TrimSpace(l) != "" {
      if Blank(l) {
        BlankIsTrimmed(l);
      }
      PadIsNotCounted(l, pad);
    }
    SameReading(s, raw, raw');
  }

  /** Dropping a carriage return leaves the line with less white space behind it. */
  lemma ReturnIsPad(l: string) returns (pad: string)
    ensures l == DropReturn(l) + pad && Blank(pad)
  {
    pad := if l != "" && l[|l| - 1] == '\r' then "\r" else "";
    assert IsSpace('\r');
  }

  lemma ShownOfPlain(l: string)
    requires '#' !in l
    ensures Shown(l) == DropReturn(l)
  {
    StripsNothing(DropReturn(l));
  }

  lemma ShownOfCommented(l: string, c: string)
    requires '#' !in l
    ensures Shown(l + "#" + c) == l
  {
    var raw := l + "#" + c;
    if raw[|raw| - 1] == '\r' {
      assert c != "" && DropReturn(raw) == l + "#" + c[..|c| - 1];
      StripsComment(l, c[..|c| - 1]);
    } else {
      StripsComment(l, c);
    }
  }

  /** A comment changes nothing. */
  lemma CommentIsIgnored(s: State, l: string, c: string)
    requires '#' !in l
    ensures ReadLine(s, l + "#" + c) == ReadLine(s, l)
  {
    ShownOfCommented(l, c);
    ShownOfPlain(l);
    var pad := ReturnIsPad(l);
    PaddedReading(s, l, l + "#" + c, DropReturn(l), pad);
  }

  /** White space at the end of a line changes nothing. */
  lemma PadIsIgnored(s: State, l: string, pad: string)
    requires '#' !in l && Blank(pad)
    ensures ReadLine(s, l + pad) == ReadLine(s, l)
  {
    CommentIsIgnored(s, l, "");
    NoCommentInPad(l, pad);
    CommentIsIgnored(s, l + pad, "");
    ShownOfCommented(l, "");
    ShownOfCommented(l + pad, "");
    PaddedReading(s, l + "#" + "", l + pad + "#" + "", l, pad);
  }

  lemma NoCommentInPad(l: string, pad: string)
    requires '#' !in l && Blank(pad)
    ensures '#' !in l + pad
  {
    assert !IsSpace('#');
  }

  /** A blank line, with or without a comment, is passed over. */
  lemma BlankIsSkipped(s: State, pad: string, c: string)
    requires Blank(pad)
    ensures ReadLine(s, pad) == s && ReadLine(s, pad + "#" + c) == s
  {
    NoCommentInPad("", pad);
    assert "" + pad == pad;
    ShownOfCommented(pad, c);
    BlankIsTrimmed(pad);
    CommentIsIgnored(s, pad, c);
  }

  // ----- Whole files -----

  /** `line` is `l` with white space and a comment behind it. */
  ghost predicate Commented(l: string, pad: string, c: string, line: string) {
    Blank(pad) && line == l + pad + "#" + c
  }

  ghost predicate Padded(l: string, pad: string, line: string) {
    Blank(pad) && line == l + pad
  }

  /** `line` is `l` with white space and perhaps a comment behind it. */
  ghost predicate Dresses(l: string, line: string) {
    (exists pad :: Padded(l, pad, line)) || exists pad, c :: Commented(l, pad, c, line)
  }

  /** A line with nothing on it but white space and perhaps a comment. */
  ghost predicate Idle(line: string) {
    Dresses("", line)
  }

  /** `raw` is `plain` with white space and comments added to its lines, and idle lines put between them. */
  ghost predicate Decorates(plain: seq<string>, raw: seq<string>) {
    if raw == [] then plain == []
    else
      var front, last := raw[..|raw| - 1], raw[|raw| - 1];
      || (Idle(last) && Decorates(plain, front))
      || (plain != [] && Dresses(plain[|plain| - 1], last) && Decorates(plain[..|plain| - 1], front))
  }

  lemma IdleIsSkipped(s: State, line: string)
    requires Idle(line)
    ensures ReadLine(s, line) == s
  {
    DressIsIgnored(s, "", line);
    BlankIsSkipped(s, "", "");
  }

  lemma DressIsIgnored(s: State, l: string, line: string)
    requires '#' !in l && Dresses(l, line)
    ensures ReadLine(s, line) == ReadLine(s, l)
  {
    if exists pad :: Padded(l, pad, line) {
      var pad :| Padded(l, pad, line);
      PadIsIgnored(s, l, pad);
    } else {
      var pad, c :| Commented(l, pad, c, line);
      PadIsIgnored(s, l, pad);
      NoCommentInPad(l, pad);
      CommentIsIgnored(s, l + pad, c);
    }
  }

  lemma {:induction false} DecorationIsIgnored(s: State, plain: seq<string>, raw: seq<string>)
    requires Decorates(plain, raw) && forall i :: 0 <= i < |plain| ==> '#' !in plain[i]
    ensures ReadLines(ReadLine, s, raw) == ReadLines(ReadLine, s, plain)
    decreases |raw|
  {
    if raw != [] {
      var front, last := raw[..|raw| - 1], raw[|raw| - 1];
      if Idle(last) && Decorates(plain, front) {
        DecorationIsIgnored(s, plain, front);
        IdleIsSkipped(ReadLines(ReadLine, s, front), last);
      } else {
        DecorationIsIgnored(s, plain[..|plain| - 1], front);
        DressIsIgnored(ReadLines(ReadLine, s, front), plain[|plain| - 1], last);
      }
    }
  }

  /**
   A printed file with white space and comments added to any of its lines, and blank or comment lines put
   between them, parses to the same sets, phones and route.
   */
  lemma DecoratedFileParses(raw: seq<string>, members: seq<string>, order: seq<string>, phones: map<string, seq<string>>)
    requires MapOk(phones) && phones != map[]
    requires (forall k :: k in members <==> k in phones) && (forall k :: k in order <==> k in phones)
    requires Decorates(Print(members, order, phones), raw) && AllPlain(raw)
    ensures Parse(Lines(Unlines(raw))) == Ok(Policy(map["operators" := members], phones, map["testuser" := "operators"]))
  {
    PrintIsPlain(members, order, phones);
    DecorationIsIgnored(INITIAL, Print(members, order, phones), raw);
    PlainFileParses(raw, members, order, phones);
  }

  // ----- Lines with something on them -----

  /** The text before the colon at its end. */
  function Label(body: string): string
    requires body != ""
  {
    body[..|body| - 1]
  }

  /** A text at the left margin that ends in a colon begins a section; only three sections are known. */
  lemma HeaderMeans(s: State, body: string)
    requires Solid(body) && body[|body| - 1] == ':'
    ensures
      var section := if body == "approver_sets:" then ApproverSets
                     else if body == "approvers:" then ApproverList
                     else if body == "routing:" then RoutingTable else NoSection;
      ReadLine(s, body) == State(section, "", "", "", false, s.policy)
  {
    ReadsIndented(s, 0, body);
    assert Indent(0) + body == body;
    HeadsAre(body);
  }

  lemma HeadsAre(body: string)
    requires body != "" && body[|body| - 1] == ':'
    ensures Label(body) == "approver_sets" <==> body == "approver_sets:"
    ensures Label(body) == "approvers" <==> body == "approvers:"
    ensures Label(body) == "routing" <==> body == "routing:"
  {
    LabelIs(body, "approver_sets");
    LabelIs(body, "approvers");
    LabelIs(body, "routing");
  }

  lemma LabelIs(body: string, name: string)
    requires body != "" && body[|body| - 1] == ':'
    ensures Label(body) == name <==> body == name + ":"
  {
    assert body == Label(body) + ":";
  }

  /** Any other text at the left margin with a colon in it ends the section. */
  lemma ScalarMeans(s: State, body: string)
    requires Solid(body) && body[|body| - 1] != ':' && ':' in body
    ensures ReadLine(s, body) == s.(section := NoSection)
  {
    ReadsIndented(s, 0, body);
    assert Indent(0) + body == body;
    ColonFound(body);
  }

  lemma {:induction false} ColonFound(s: string)
    ensures Colon(s) < |s| <==> ':' in s
    ensures ':' !in s[..Colon(s)]
  {
    if s != "" && s[0] != ':' {
      ColonFound(s[1..]);
      var n := Colon(s);
      assert s == [s[0]] + s[1..] && s[..n] == [s[0]] + s[1..][..n - 1];
    }
  }

  /** The line does not begin or end a section. */
  ghost predicate Within(n: nat, body: string) {
    Solid(body) && (n > 0 || ':' !in body)
  }

  lemma WithinReads(s: State, n: nat, body: string)
    requires Within(n, body)
    ensures
      ReadLine(s, Indent(n) + body) ==
      match s.section
      case NoSection => s
      case ApproverSets => ReadSetLine(s, n, body)
      case ApproverList => ReadApproverLine(s, n, body)
      case RoutingTable => ReadRoutingLine(s, n, body)
  {
    ReadsIndented(s, n, body);
    ColonFound(body);
  }

  /** Outside the known sections nothing is read. */
  lemma UnknownLineMeans(s: State, n: nat, body: string)
    requires Within(n, body) && s.section.NoSection?
    ensures ReadLine(s, Indent(n) + body) == s
  {
    WithinReads(s, n, body);
  }

  /** In the sets: "name:" at indent 2 begins an empty set; "- item" from indent 4 on adds to it; all else is passed over. */
  lemma SetLineMeans(s: State, n: nat, body: string)
    requires Within(n, body) && s.section.ApproverSets?
    ensures
      var s' := ReadLine(s, Indent(n) + body);
      if n == 2 && body[|body| - 1] == ':' then
        s' == s.(set_ := Label(body), policy := s.policy.(sets := s.policy.sets[Label(body) := []]))
      else if n >= 4 && |body| >= 2 && body[0] == '-' && body[1] == ' ' && s.set_ != "" then
        var item := TrimQuotes(TrimSpace(body[2..]));
        var before := if s.set_ in s.policy.sets then s.policy.sets[s.set_] else [];
        s' == s.(policy := s.policy.(sets := s.policy.sets[s.set_ := before + [item]]))
      else s' == s
  {
    WithinReads(s, n, body);
    DashIs(body);
  }

  lemma DashIs(body: string)
    ensures HasPrefix(body, "- ") <==> |body| >= 2 && body[0] == '-' && body[1] == ' '
  {
    if |body| >= 2 && body[0] == '-' && body[1] == ' ' {
      assert body[..2] == "- ";
    }
  }

  /**
   Among the approvers: "name:" at indent 2 begins one without phones; "phones:" at indent 4 opens the list;
   "- item" from indent 6 on adds to an open list; anything else at indent 4 closes it; all else is passed over.
   */
  lemma ApproverLineMeans(s: State, n: nat, body: string)
    requires Within(n, body) && s.section.ApproverList?
    ensures
      var s' := ReadLine(s, Indent(n) + body);
      if n == 2 && body[|body| - 1] == ':' then
        s' == s.(approver := Label(body), inPhones := false, policy := s.policy.(phones := s.policy.phones[Label(body) := []]))
      else if n == 4 then s' == s.(inPhones := body == "phones:")
      else if n >= 6 && s.inPhones && s.approver != "" && |body| >= 2 && body[0] == '-' && body[1] == ' ' then
        var item := TrimQuotes(TrimSpace(body[2..]));
        var before := if s.approver in s.policy.phones then s.policy.phones[s.approver] else [];
        s' == s.(policy := s.policy.(phones := s.policy.phones[s.approver := before + [item]]))
      else s' == s
  {
    WithinReads(s, n, body);
    DashIs(body);
  }

  /**
   In the routing: "name:" at indent 2 names a requester; "approver_set: value" from indent 4 on routes it;
   all else is passed over.
   */
  lemma RoutingLineMeans(s: State, n: nat, body: string)
    requires Within(n, body) && s.section.RoutingTable?
    ensures n == 2 && body[|body| - 1] == ':' ==> ReadLine(s, Indent(n) + body) == s.(requester := Label(body))
    ensures forall key, value ::
              n >= 4 && body == key + ":" + value && ':' !in key && TrimSpace(key) == "approver_set" && s.requester != "" ==>
                ReadLine(s, Indent(n) + body) ==
                s.(policy := s.policy.(routing := s.policy.routing[s.requester := TrimQuotes(TrimSpace(value))]))
    ensures forall key, value ::
              n >= 4 && body == key + ":" + value && ':' !in key && TrimSpace(key) != "approver_set" ==>
                ReadLine(s, Indent(n) + body) == s
    ensures n != 2 && (n < 4 || s.requester == "" || ':' !in body) ==> ReadLine(s, Indent(n) + body) == s
    ensures n == 2 && body[|body| - 1] != ':' ==> ReadLine(s, Indent(n) + body) == s
  {
    WithinReads(s, n, body);
    ColonFound(body);
    forall key, value | body == key + ":" + value && ':' !in key
      ensures Colon(body) == |key| && body[..Colon(body)] == key && body[Colon(body) + 1..] == value
    {
      FirstColon(key, value);
    }
  }

  lemma {:induction false} FirstColon(key: string, value: string)
    requires ':' !in key
    ensures Colon(key + ":" + value) == |key|
    ensures (key + ":" + value)[..|key|] == key && (key + ":" + value)[|key| + 1..] == value
  {
    if key != "" {
      assert (key + ":" + value)[1..] == key[1..] + ":" + value;
      FirstColon(key[1..], value);
    }
  }
}
