/** The routing file of internal/twilioadapter/approvers.go, and the writer of tests/integration/helpers.go. */
module Approvers {
  import opened Core
  import opened Text

  datatype Policy = Policy(sets: map<string, seq<string>>, phones: map<string, seq<string>>, routing: map<string, string>)

  // ----- Pieces of lines -----

  function StripComment(line: string): string {
    if line == "" || line[0] == '#' then "" else [line[0]] + StripComment(line[1..])
  }

  function LeadingSpaces(line: string): nat {
    if line == "" || line[0] != ' ' then 0 else 1 + LeadingSpaces(line[1..])
  }

  predicate HasPrefix(s: string, prefix: string) {
    prefix <= s
  }

  predicate EndsWithColon(s: string) {
    s != "" && s[|s| - 1] == ':'
  }

  predicate IsQuote(c: char) {
    c == '"' || c == '\''
  }

  function TrimQuotesLeft(s: string): string {
    if s != "" && IsQuote(s[0]) then TrimQuotesLeft(s[1..]) else s
  }

  function TrimQuotesRight(s: string): string {
    if s != "" && IsQuote(s[|s| - 1]) then TrimQuotesRight(s[..|s| - 1]) else s
  }

  /** `strings.Trim` with both quote characters as its cutset. */
  function TrimQuotes(s: string): string {
    TrimQuotesRight(TrimQuotesLeft(s))
  }

  /** The value of a "- value" list item. */
  function ItemOf(trimmed: string): string
    requires HasPrefix(trimmed, "- ")
  {
    TrimQuotes(TrimSpace(trimmed[2..]))
  }

  /** The position of the first colon, or the length. */
  function Colon(s: string): (n: nat)
    ensures n <= |s| && (n < |s| ==> s[n] == ':')
  {
    if s == "" || s[0] == ':' then 0 else 1 + Colon(s[1..])
  }

  // ----- The line state machine -----

  datatype Section = NoSection | ApproverSets | ApproverList | RoutingTable

  datatype State = State(section: Section, set_: string, approver: string, requester: string, inPhones: bool, policy: Policy)

  const INITIAL := State(NoSection, "", "", "", false, Policy(map[], map[], map[]))

  function GetList(m: map<string, seq<string>>, key: string): seq<string> {
    if key in m then m[key] else []
  }

  /** A line whose comment is gone, by its indentation and what is left between the white space. */
  function ReadTrimmed(s: State, indent: nat, t: string): State {
    if indent == 0 && EndsWithColon(t) then
      var head := t[..|t| - 1];
      State(if head == "approver_sets" then ApproverSets
            else if head == "approvers" then ApproverList
            else if head == "routing" then RoutingTable
            else NoSection,
            "", "", "", false, s.policy)
    else if indent == 0 && Colon(t) < |t| then s.(section := NoSection)
    else
      match s.section
      case NoSection => s
      case ApproverSets => ReadSetLine(s, indent, t)
      case ApproverList => ReadApproverLine(s, indent, t)
      case RoutingTable => ReadRoutingLine(s, indent, t)
  }

  function ReadSetLine(s: State, indent: nat, t: string): State {
    if indent == 2 && EndsWithColon(t) then
      var name := t[..|t| - 1];
      s.(set_ := name, policy := s.policy.(sets := s.policy.sets[name := []]))
    else if indent >= 4 && HasPrefix(t, "- ") && s.set_ != "" then
      s.(policy := s.policy.(sets := s.policy.sets[s.set_ := GetList(s.policy.sets, s.set_) + [ItemOf(t)]]))
    else s
  }

  function ReadApproverLine(s: State, indent: nat, t: string): State {
    if indent == 2 && EndsWithColon(t) then
      var name := t[..|t| - 1];
      s.(approver := name, inPhones := false, policy := s.policy.(phones := s.policy.phones[name := []]))
    else if indent == 4 && t == "phones:" then s.(inPhones := true)
    else if s.inPhones && indent >= 6 && HasPrefix(t, "- ") && s.approver != "" then
      s.(policy := s.policy.(phones := s.policy.phones[s.approver := GetList(s.policy.phones, s.approver) + [ItemOf(t)]]))
    else if indent == 4 then s.(inPhones := false)
    else s
  }

  function ReadRoutingLine(s: State, indent: nat, t: string): State {
    if indent == 2 && EndsWithColon(t) then s.(requester := t[..|t| - 1])
    else if indent >= 4 && s.requester != "" && Colon(t) < |t| then
      var key, value := TrimSpace(t[..Colon(t)]), TrimQuotes(TrimSpace(t[Colon(t) + 1..]));
      if key == "approver_set" then s.(policy := s.policy.(routing := s.policy.routing[s.requester := value])) else s
    else s
  }

  /** `bufio.ScanLines` drops one carriage return at the end of a line. */
  function DropReturn(line: string): string {
    if line != "" && line[|line| - 1] == '\r' then line[..|line| - 1] else line
  }

  function ReadLine(s: State, raw: string): State {
    var line := StripComment(DropReturn(raw));
    if TrimSpace(line) == "" then s else ReadTrimmed(s, LeadingSpaces(line), TrimSpace(line))
  }

  type Reader = (State, string) -> State

  /** The lines one after the other. Most of the proof below knows a reader only by what it does to single lines. */
  function ReadLines(f: Reader, s: State, lines: seq<string>): State {
    if lines == [] then s else f(ReadLines(f, s, lines[..|lines| - 1]), lines[|lines| - 1])
  }

  const SCANNER_LIMIT: nat := 1024 * 1024

  datatype ParseError = LineTooLong | EmptyPolicy

  predicate Fits(raw: seq<string>) {
    forall i :: 0 <= i < |raw| ==> |raw[i]| < SCANNER_LIMIT
  }

  function Finish(policy: Policy): Result<Policy, ParseError> {
    if policy.sets == map[] && policy.routing == map[] then Err(EmptyPolicy) else Ok(policy)
  }

  /** The policy in a file that newlines cut into these lines. */
  function Parse(raw: seq<string>): Result<Policy, ParseError> {
    if !Fits(raw) then Err(LineTooLong) else Finish(ReadLines(ReadLine, INITIAL, raw).policy)
  }

  /** The line loop of `parseApprovers`. */
  method ReadAll(start: State, raw: seq<string>) returns (s: State)
    ensures s == ReadLines(ReadLine, start, raw)
  {
    s := start;
    for i := 0 to |raw|
      invariant s == ReadLines(ReadLine, start, raw[..i])
    {
      ReadLinesSnoc(ReadLine, start, raw, i);
      s := ReadLine(s, raw[i]);
    }
    assert raw[..|raw|] == raw;
  }

  /** The scanner's error, if a line is too long for it, overrides whatever was read before that line. */
  method ParseApprovers(raw: seq<string>) returns (r: Result<Policy, ParseError>)
    ensures r == Parse(raw)
    ensures r == Err(LineTooLong) <==> exists i :: 0 <= i < |raw| && |raw[i]| >= 1048576
    ensures r == Err(EmptyPolicy) ==>
              var policy := ReadLines(ReadLine, INITIAL, raw).policy; policy.sets == map[] && policy.routing == map[]
    ensures r.Ok? ==> r.value == ReadLines(ReadLine, INITIAL, raw).policy && (r.value.sets != map[] || r.value.routing != map[])
  {
    if !Fits(raw) {
      return Err(LineTooLong);
    }
    var s := ReadAll(INITIAL, raw);
    r := Finish(s.policy);
  }

  lemma ReadLinesSnoc(f: Reader, s: State, lines: seq<string>, i: nat)
    requires i < |lines|
    ensures ReadLines(f, s, lines[..i + 1]) == f(ReadLines(f, s, lines[..i]), lines[i])
  {
    assert lines[..i + 1][..i] == lines[..i];
  }

  // ----- Reading an indented line back -----

  function Indent(n: nat): string {
    if n == 0 then "" else " " + Indent(n - 1)
  }

  /** Text that survives stripping and trimming: no comment sign, and no white space at either end. */
  predicate Solid(body: string) {
    body != "" && !IsSpace(body[0]) && !IsSpace(body[|body| - 1]) && '#' !in body
  }

  lemma {:induction false} StripsNothing(line: string)
    requires '#' !in line
    ensures StripComment(line) == line
  {
    if line != "" {
      StripsNothing(line[1..]);
      assert [line[0]] + line[1..] == line;
    }
  }

  lemma IndentSplits(n: nat, body: string)
    requires n > 0
    ensures Indent(n) + body == [' '] + (Indent(n - 1) + body) && (Indent(n) + body)[1..] == Indent(n - 1) + body
  {
    assert Indent(n) + body == [' '] + (Indent(n - 1) + body);
  }

  lemma {:induction false} IndentIsTrimmed(n: nat, body: string)
    requires Solid(body)
    ensures TrimLeft(Indent(n) + body) == body
  {
    if n == 0 {
      assert Indent(0) + body == body;
    } else {
      IndentIsTrimmed(n - 1, body);
      IndentSplits(n, body);
    }
  }

  lemma {:induction false} IndentIsCounted(n: nat, body: string)
    requires Solid(body)
    ensures LeadingSpaces(Indent(n) + body) == n
  {
    if n == 0 {
      assert Indent(0) + body == body;
    } else {
      IndentIsCounted(n - 1, body);
      IndentSplits(n, body);
    }
  }

  lemma {:induction false} IndentIsNoComment(n: nat)
    ensures forall c :: c in Indent(n) ==> c == ' '
  {
    if n > 0 {
      IndentIsNoComment(n - 1);
    }
  }

  lemma TrimsToBody(n: nat, body: string)
    requires Solid(body)
    ensures StripComment(DropReturn(Indent(n) + body)) == Indent(n) + body
    ensures TrimSpace(Indent(n) + body) == body
  {
    IndentIsNoComment(n);
    NothingToStrip(Indent(n), body);
    assert IsSpace(' ') && forall i :: 0 <= i < |Indent(n)| ==> Indent(n)[i] in Indent(n);
    TrimSpaceIs(Indent(n), body, "");
    assert Indent(n) + body + "" == Indent(n) + body;
  }

  lemma NothingToStrip(pad: string, body: string)
    requires Solid(body) && '#' !in pad
    ensures StripComment(DropReturn(pad + body)) == pad + body
  {
    assert IsSpace('\r') && (pad + body)[|pad + body| - 1] == body[|body| - 1];
    StripsNothing(pad + body);
  }

  lemma ReadsTrimmed(s: State, raw: string, indent: nat, body: string)
    requires body != "" && TrimSpace(StripComment(DropReturn(raw))) == body
    requires LeadingSpaces(StripComment(DropReturn(raw))) == indent
    ensures ReadLine(s, raw) == ReadTrimmed(s, indent, body)
  {
  }

  lemma ReadsIndented(s: State, n: nat, body: string)
    requires Solid(body)
    ensures ReadLine(s, Indent(n) + body) == ReadTrimmed(s, n, body)
  {
    TrimsToBody(n, body);
    IndentIsCounted(n, body);
    ReadsTrimmed(s, Indent(n) + body, n, body);
  }

  // ----- The writer -----

  /** A name the file can hold: no comment sign or newline, and no white space or quote at either end. */
  predicate NameOk(k: string) {
    && 0 < |k| < SCANNER_LIMIT - 16 && '#' !in k && '\n' !in k
    && !IsSpace(k[0]) && !IsSpace(k[|k| - 1]) && !IsQuote(k[0]) && !IsQuote(k[|k| - 1])
  }

  /** A phone that Go's %q prints as itself between quotes, and that trimming quotes gives back. */
  predicate PhoneOk(p: string) {
    && |p| < SCANNER_LIMIT - 16
    && (forall i :: 0 <= i < |p| ==> ' ' <= p[i] <= '~' && p[i] != '"' && p[i] != '\\' && p[i] != '#')
    && (p != "" ==> p[0] != '\'' && p[|p| - 1] != '\'')
  }

  function MemberLine(k: string): string {
    Indent(4) + ("- " + k)
  }

  function PhoneLine(p: string): string {
    Indent(6) + ("- \"" + p + "\"")
  }

  function NameLine(k: string): string {
    Indent(2) + (k + ":")
  }

  function SettingLine(key: string, value: string): string {
    Indent(4) + (key + ": " + value)
  }

  function SectionLine(head: string): string {
    Indent(0) + (head + ":")
  }

  function KeyLine(key: string): string {
    Indent(4) + key
  }

  function ScalarLine(key: string, value: string): string {
    Indent(0) + (key + ": " + value)
  }

  function MemberLines(members: seq<string>): seq<string> {
    if members == [] then [] else MemberLines(members[..|members| - 1]) + [MemberLine(members[|members| - 1])]
  }

  function PhoneLines(phones: seq<string>): seq<string> {
    if phones == [] then [] else PhoneLines(phones[..|phones| - 1]) + [PhoneLine(phones[|phones| - 1])]
  }

  function Block(k: string, phones: seq<string>): seq<string> {
    [NameLine(k)] + if phones == [] then [] else [KeyLine("phones:")] + PhoneLines(phones)
  }

  function Blocks(order: seq<string>, phones: map<string, seq<string>>): seq<string>
    requires forall k :: k in order ==> k in phones
  {
    if order == [] then [] else
      Blocks(order[..|order| - 1], phones) + Block(order[|order| - 1], phones[order[|order| - 1]])
  }

  function Head(): seq<string> {
    [SectionLine("approver_sets"), NameLine("operators")]
  }

  function Foot(): seq<string> {
    [SectionLine("routing"), NameLine("testuser"), SettingLine("approver_set", "operators"),
     SettingLine("capture_output", "plain"), SettingLine("max_execution_seconds", "60"),
     ScalarLine("wall_notify", "false")]
  }

  /** The lines written for a non-empty map; each of its two loops walks the map in an order of its own. */
  function Print(members: seq<string>, order: seq<string>, phones: map<string, seq<string>>): seq<string>
    requires forall k :: k in order ==> k in phones
  {
    Head() + MemberLines(members) + [SectionLine("approvers")] + Blocks(order, phones) + Foot()
  }

  /** What the writer writes, line by line: two spaces for each level, and phones between double quotes. */
  lemma WriterWrites(k: string, p: string)
    ensures MemberLine(k) == "    - " + k && PhoneLine(p) == "      - \"" + p + "\""
    ensures SectionLine(k) == k + ":" && NameLine(k) == "  " + k + ":" && KeyLine(k) == "    " + k
    ensures SettingLine(k, p) == "    " + k + ": " + p && ScalarLine(k, p) == k + ": " + p
  {
    IndentsAre();
    assert "    " + ("- " + k) == "    - " + k && "      " + ("- \"" + p + "\"") == "      - \"" + p + "\"";
    assert "" + (k + ":") == k + ":" && "  " + (k + ":") == "  " + k + ":";
    assert "    " + (k + ": " + p) == "    " + k + ": " + p && "" + (k + ": " + p) == k + ": " + p;
  }

  /** The fixed lines at both ends of the file. */
  lemma WriterWritesEnds()
    ensures Head() == ["approver_sets" + ":", "  " + "operators" + ":"]
    ensures Foot() == ["routing" + ":", "  " + "testuser" + ":", "    " + "approver_set" + ": " + "operators",
                       "    " + "capture_output" + ": " + "plain", "    " + "max_execution_seconds" + ": " + "60",
                       "wall_notify" + ": " + "false"]
  {
    WriterWrites("approver_sets", "");
    WriterWrites("operators", "");
    WriterWrites("routing", "");
    WriterWrites("testuser", "");
    WriterWrites("approver_set", "operators");
    WriterWrites("capture_output", "plain");
    WriterWrites("max_execution_seconds", "60");
    WriterWrites("wall_notify", "false");
  }

  lemma IndentsAre()
    ensures Indent(0) == "" && Indent(2) == "  " && Indent(4) == "    " && Indent(6) == "      "
  {
    assert Indent(1) == " " && Indent(3) == "   " && Indent(5) == "     ";
  }

  // ----- What a reader has to do with single lines -----

  ghost predicate ReadsMembers(f: Reader) {
    forall s: State, k: string {:trigger f(s, MemberLine(k))} ::
      NameOk(k) && s.section.ApproverSets? && s.set_ != "" ==>
        f(s, MemberLine(k)) ==
        s.(policy := s.policy.(sets := s.policy.sets[s.set_ := GetList(s.policy.sets, s.set_) + [k]]))
  }

  ghost predicate ReadsPhones(f: Reader) {
    forall s: State, p: string {:trigger f(s, PhoneLine(p))} ::
      PhoneOk(p) && s.section.ApproverList? && s.inPhones && s.approver != "" ==>
        f(s, PhoneLine(p)) ==
        s.(policy := s.policy.(phones := s.policy.phones[s.approver := GetList(s.policy.phones, s.approver) + [p]]))
  }

  ghost predicate ReadsNames(f: Reader) {
    forall s: State, k: string {:trigger f(s, NameLine(k))} :: NameOk(k) ==>
      && (s.section.ApproverSets? ==>
            f(s, NameLine(k)) == s.(set_ := k, policy := s.policy.(sets := s.policy.sets[k := []])))
      && (s.section.ApproverList? ==>
            f(s, NameLine(k)) ==
            s.(approver := k, inPhones := false, policy := s.policy.(phones := s.policy.phones[k := []])))
      && (s.section.RoutingTable? ==> f(s, NameLine(k)) == s.(requester := k))
  }

  ghost predicate ReadsSettings(f: Reader) {
    forall s: State, key: string, value: string {:trigger f(s, SettingLine(key, value))} ::
      s.section.RoutingTable? && s.requester != "" && NameOk(key) && ':' !in key && NameOk(value) ==>
        f(s, SettingLine(key, value)) ==
        if key == "approver_set" then s.(policy := s.policy.(routing := s.policy.routing[s.requester := value])) else s
  }

  predicate IsSection(head: string) {
    head == "approver_sets" || head == "approvers" || head == "routing"
  }

  function SectionOf(head: string): Section {
    if head == "approver_sets" then ApproverSets else if head == "approvers" then ApproverList
    else if head == "routing" then RoutingTable else NoSection
  }

  ghost predicate ReadsSections(f: Reader) {
    forall s: State, head: string {:trigger f(s, SectionLine(head))} :: IsSection(head) ==>
      f(s, SectionLine(head)) == State(SectionOf(head), "", "", "", false, s.policy)
  }

  ghost predicate ReadsScalars(f: Reader) {
    forall s: State, key: string, value: string {:trigger f(s, ScalarLine(key, value))} ::
      NameOk(key) && ':' !in key && NameOk(value) && value[|value| - 1] != ':' ==>
        f(s, ScalarLine(key, value)) == s.(section := NoSection)
  }

  ghost predicate ReadsPhonesKey(f: Reader) {
    forall s: State, key: string {:trigger f(s, KeyLine(key))} ::
      s.section.ApproverList? && key == "phones:" ==> f(s, KeyLine(key)) == s.(inPhones := true)
  }

  /** The reader treats every kind of printed line as the format means it. */
  ghost predicate Reads(f: Reader) {
    ReadsMembers(f) && ReadsPhones(f) && ReadsNames(f) && ReadsSettings(f)
    && ReadsSections(f) && ReadsScalars(f) && ReadsPhonesKey(f)
  }

  // ----- `ReadLine` does it -----

  lemma ItemIsName(k: string)
    requires NameOk(k)
    ensures ItemOf("- " + k) == k && Solid("- " + k)
  {
    assert ("- " + k)[2..] == k;
  }

  lemma MemberIsRead(s: State, k: string)
    requires NameOk(k) && s.section.ApproverSets? && s.set_ != ""
    ensures ReadLine(s, MemberLine(k)) ==
            s.(policy := s.policy.(sets := s.policy.sets[s.set_ := GetList(s.policy.sets, s.set_) + [k]]))
  {
    ItemIsName(k);
    ReadsIndented(s, 4, "- " + k);
    assert HasPrefix("- " + k, "- ");
  }

  predicate AllQuotes(s: string) {
    forall i :: 0 <= i < |s| ==> s[i] == '"' || s[i] == '\''
  }

  lemma {:induction false} TrimQuotesLeftOf(q: string, s: string)
    requires AllQuotes(q) && (s == "" || !IsQuote(s[0]))
    ensures TrimQuotesLeft(q + s) == s
  {
    if q == "" {
      assert q + s == s;
    } else {
      assert (q + s)[1..] == q[1..] + s;
      TrimQuotesLeftOf(q[1..], s);
    }
  }

  lemma {:induction false} TrimQuotesRightOf(s: string, q: string)
    requires AllQuotes(q) && (s == "" || !IsQuote(s[|s| - 1]))
    ensures TrimQuotesRight(s + q) == s
  {
    if q == "" {
      assert s + q == s;
    } else {
      assert (s + q)[..|s + q| - 1] == s + q[..|q| - 1];
      TrimQuotesRightOf(s, q[..|q| - 1]);
    }
  }

  /** Quotes around a text, and only those, are what trimming them takes away. */
  lemma TrimQuotesIs(q: string, s: string, q': string)
    requires AllQuotes(q) && AllQuotes(q') && (s == "" || (s[0] !in {'"', '\''} && s[|s| - 1] !in {'"', '\''}))
    ensures TrimQuotes(q + s + q') == s
  {
    if s == "" {
      assert q + s + q' == (q + q') + "";
      TrimQuotesLeftOf(q + q', "");
    } else {
      assert q + s + q' == q + (s + q');
      TrimQuotesLeftOf(q, s + q');
      TrimQuotesRightOf(s, q');
    }
  }

  lemma QuotesAreTight(q: string, p: string, quoted: string)
    requires |q| == 1 && q[0] == '"' && quoted == q + p + q
    ensures Tight(quoted)
  {
    assert quoted[0] == '"' && quoted[|quoted| - 1] == '"';
  }

  lemma PhoneHasNoQuotes(p: string)
    requires PhoneOk(p)
    ensures p == "" || (!IsQuote(p[0]) && !IsQuote(p[|p| - 1]))
  {
  }

  lemma QuotedText(q: string, p: string, quoted: string)
    requires AllQuotes(q) && (p == "" || (!IsQuote(p[0]) && !IsQuote(p[|p| - 1]))) && quoted == q + p + q && Tight(quoted)
    ensures TrimSpace(quoted) == quoted && TrimQuotes(quoted) == p
  {
    TrimTight(quoted);
    TrimQuotesIs(q, p, q);
  }

  lemma QuotedItem(p: string)
    requires PhoneOk(p)
    ensures ItemOf("- \"" + p + "\"") == p
  {
    var q, quoted := "\"", "\"" + p + "\"";
    assert ("- \"" + p + "\"")[2..] == quoted;
    QuotesAreTight(q, p, quoted);
    PhoneHasNoQuotes(p);
    QuotedText(q, p, quoted);
  }

  lemma PhoneTrimmed(s: State, p: string)
    requires PhoneOk(p) && s.section.ApproverList? && s.inPhones && s.approver != ""
    ensures ReadTrimmed(s, 6, "- \"" + p + "\"") ==
            s.(policy := s.policy.(phones := s.policy.phones[s.approver := GetList(s.policy.phones, s.approver) + [p]]))
  {
    QuotedItem(p);
    assert HasPrefix("- \"" + p + "\"", "- ");
  }

  lemma PhoneIsRead(s: State, p: string)
    requires PhoneOk(p) && s.section.ApproverList? && s.inPhones && s.approver != ""
    ensures ReadLine(s, PhoneLine(p)) ==
            s.(policy := s.policy.(phones := s.policy.phones[s.approver := GetList(s.policy.phones, s.approver) + [p]]))
  {
    assert Solid("- \"" + p + "\"");
    ReadsIndented(s, 6, "- \"" + p + "\"");
    PhoneTrimmed(s, p);
  }

  lemma NameTrimmed(s: State, k: string)
    requires NameOk(k)
    ensures s.section.ApproverSets? ==>
              ReadTrimmed(s, 2, k + ":") == s.(set_ := k, policy := s.policy.(sets := s.policy.sets[k := []]))
    ensures s.section.ApproverList? ==>
              ReadTrimmed(s, 2, k + ":") ==
              s.(approver := k, inPhones := false, policy := s.policy.(phones := s.policy.phones[k := []]))
    ensures s.section.RoutingTable? ==> ReadTrimmed(s, 2, k + ":") == s.(requester := k)
  {
    assert (k + ":")[..|k|] == k;
  }

  lemma NameIsRead(s: State, k: string)
    requires NameOk(k)
    ensures ReadLine(s, NameLine(k)) == ReadTrimmed(s, 2, k + ":")
  {
    ReadsIndented(s, 2, k + ":");
  }

  lemma {:induction false} ColonAt(key: string, rest: string)
    requires ':' !in key
    ensures Colon(key + ":" + rest) == |key|
  {
    if key != "" {
      ColonAt(key[1..], rest);
      assert (key + ":" + rest)[1..] == key[1..] + ":" + rest;
    } else {
      assert (key + ":" + rest)[0] == ':';
    }
  }

  lemma SettingParts(key: string, value: string)
    ensures
      var body := key + ": " + value;
      body == key + ":" + (" " + value) && body[..|key|] == key && body[|key| + 1..] == " " + value
  {
  }

  lemma NameIsTrimmed(k: string)
    requires NameOk(k)
    ensures TrimSpace(k) == k && TrimQuotes(k) == k
  {
  }

  lemma SpacedNameIsTrimmed(k: string)
    requires NameOk(k)
    ensures TrimSpace(" " + k) == k
  {
    assert Indent(1) == " " + Indent(0) == " ";
    IndentIsTrimmed(1, k);
    NameIsTrimmed(k);
  }

  lemma SettingSplits(key: string, value: string)
    requires NameOk(key) && ':' !in key && NameOk(value)
    ensures
      var body := key + ": " + value;
      && Colon(body) == |key| && TrimSpace(body[..|key|]) == key && Solid(body)
      && TrimQuotes(TrimSpace(body[|key| + 1..])) == value
  {
    ColonAt(key, " " + value);
    SettingParts(key, value);
    NameIsTrimmed(key);
    NameIsTrimmed(value);
    SpacedNameIsTrimmed(value);
  }

  lemma SettingTrimmed(s: State, key: string, value: string)
    requires s.section.RoutingTable? && s.requester != "" && NameOk(key) && ':' !in key && NameOk(value)
    ensures ReadTrimmed(s, 4, key + ": " + value) ==
            if key == "approver_set" then s.(policy := s.policy.(routing := s.policy.routing[s.requester := value])) else s
  {
    SettingSplits(key, value);
  }

  lemma SettingIsRead(s: State, key: string, value: string)
    requires s.section.RoutingTable? && s.requester != "" && NameOk(key) && ':' !in key && NameOk(value)
    ensures ReadLine(s, SettingLine(key, value)) ==
            if key == "approver_set" then s.(policy := s.policy.(routing := s.policy.routing[s.requester := value])) else s
  {
    assert Solid(key + ": " + value);
    ReadsIndented(s, 4, key + ": " + value);
    SettingTrimmed(s, key, value);
  }

  lemma SectionIsRead(s: State, head: string)
    requires IsSection(head)
    ensures ReadLine(s, SectionLine(head)) == State(SectionOf(head), "", "", "", false, s.policy)
  {
    assert Solid(head + ":");
    ReadsIndented(s, 0, head + ":");
    assert (head + ":")[..|head|] == head;
  }

  lemma ScalarIsRead(s: State, key: string, value: string)
    requires NameOk(key) && ':' !in key && NameOk(value) && value[|value| - 1] != ':'
    ensures ReadLine(s, ScalarLine(key, value)) == s.(section := NoSection)
  {
    SettingSplits(key, value);
    ReadsIndented(s, 0, key + ": " + value);
  }

  lemma PhonesKeyIsRead(s: State, key: string)
    requires s.section.ApproverList? && key == "phones:"
    ensures ReadLine(s, KeyLine(key)) == s.(inPhones := true)
  {
    ReadsIndented(s, 4, key);
  }

  lemma ListsAreRead()
    ensures ReadsMembers(ReadLine) && ReadsPhones(ReadLine)
  {
    forall s: State, k: string | NameOk(k) && s.section.ApproverSets? && s.set_ != ""
      ensures ReadLine(s, MemberLine(k)) ==
              s.(policy := s.policy.(sets := s.policy.sets[s.set_ := GetList(s.policy.sets, s.set_) + [k]]))
    {
      MemberIsRead(s, k);
    }
    forall s: State, p: string | PhoneOk(p) && s.section.ApproverList? && s.inPhones && s.approver != ""
      ensures ReadLine(s, PhoneLine(p)) ==
              s.(policy := s.policy.(phones := s.policy.phones[s.approver := GetList(s.policy.phones, s.approver) + [p]]))
    {
      PhoneIsRead(s, p);
    }
  }

  lemma NamesAreRead()
    ensures ReadsNames(ReadLine)
  {
    forall s: State, k: string | NameOk(k)
      ensures ReadLine(s, NameLine(k)) == ReadTrimmed(s, 2, k + ":")
    {
      NameIsRead(s, k);
    }
    forall s: State, k: string | NameOk(k)
      ensures s.section.ApproverSets? ==>
                ReadLine(s, NameLine(k)) == s.(set_ := k, policy := s.policy.(sets := s.policy.sets[k := []]))
      ensures s.section.ApproverList? ==>
                ReadLine(s, NameLine(k)) ==
                s.(approver := k, inPhones := false, policy := s.policy.(phones := s.policy.phones[k := []]))
      ensures s.section.RoutingTable? ==> ReadLine(s, NameLine(k)) == s.(requester := k)
    {
      NameTrimmed(s, k);
    }
  }

  lemma SettingsAreRead()
    ensures ReadsSettings(ReadLine) && ReadsScalars(ReadLine)
  {
    forall s: State, key: string, value: string
      | s.section.RoutingTable? && s.requester != "" && NameOk(key) && ':' !in key && NameOk(value)
      ensures ReadLine(s, SettingLine(key, value)) ==
              if key == "approver_set" then s.(policy := s.policy.(routing := s.policy.routing[s.requester := value])) else s
    {
      SettingIsRead(s, key, value);
    }
    forall s: State, key: string, value: string
      | NameOk(key) && ':' !in key && NameOk(value) && value[|value| - 1] != ':'
      ensures ReadLine(s, ScalarLine(key, value)) == s.(section := NoSection)
    {
      ScalarIsRead(s, key, value);
    }
  }

  lemma HeadersAreRead()
    ensures ReadsSections(ReadLine) && ReadsPhonesKey(ReadLine)
  {
    forall s: State, head: string | IsSection(head)
      ensures ReadLine(s, SectionLine(head)) == State(SectionOf(head), "", "", "", false, s.policy)
    {
      SectionIsRead(s, head);
    }
    forall s: State, key: string | s.section.ApproverList? && key == "phones:"
      ensures ReadLine(s, KeyLine(key)) == s.(inPhones := true)
    {
      PhonesKeyIsRead(s, key);
    }
  }

  // ----- Any such reader reads the whole file back -----

  lemma {:induction false} ReadLinesAppend(f: Reader, s: State, a: seq<string>, b: seq<string>)
    ensures ReadLines(f, s, a + b) == ReadLines(f, ReadLines(f, s, a), b)
    decreases |b|
  {
    if b == [] {
      assert a + b == a;
    } else {
      var front := b[..|b| - 1];
      ReadLinesAppend(f, s, a, front);
      assert (a + b)[..|a + b| - 1] == a + front;
    }
  }

  lemma ReadOne(f: Reader, s: State, line: string)
    ensures ReadLines(f, s, [line]) == f(s, line)
  {
    assert [line][..0] == [];
  }

  lemma {:induction false} MembersReadBack(f: Reader, s: State, members: seq<string>)
    requires ReadsMembers(f) && forall i :: 0 <= i < |members| ==> NameOk(members[i])
    requires s.section.ApproverSets? && s.set_ != "" && s.set_ in s.policy.sets
    ensures ReadLines(f, s, MemberLines(members)) ==
            s.(policy := s.policy.(sets := s.policy.sets[s.set_ := s.policy.sets[s.set_] + members]))
  {
    if members == [] {
      assert s.policy.sets[s.set_] + [] == s.policy.sets[s.set_];
      assert s.policy.sets[s.set_ := s.policy.sets[s.set_]] == s.policy.sets;
    } else {
      var front, last := members[..|members| - 1], members[|members| - 1];
      MembersReadBack(f, s, front);
      var mid := ReadLines(f, s, MemberLines(front));
      ReadLinesAppend(f, s, MemberLines(front), [MemberLine(last)]);
      ReadOne(f, mid, MemberLine(last));
      assert s.policy.sets[s.set_] + front + [last] == s.policy.sets[s.set_] + members;
    }
  }

  lemma {:induction false} PhonesReadBack(f: Reader, s: State, phones: seq<string>)
    requires ReadsPhones(f) && forall i :: 0 <= i < |phones| ==> PhoneOk(phones[i])
    requires s.section.ApproverList? && s.inPhones && s.approver != "" && s.approver in s.policy.phones
    ensures ReadLines(f, s, PhoneLines(phones)) ==
            s.(policy := s.policy.(phones := s.policy.phones[s.approver := s.policy.phones[s.approver] + phones]))
  {
    if phones == [] {
      assert s.policy.phones[s.approver] + [] == s.policy.phones[s.approver];
      assert s.policy.phones[s.approver := s.policy.phones[s.approver]] == s.policy.phones;
    } else {
      var front, last := phones[..|phones| - 1], phones[|phones| - 1];
      PhonesReadBack(f, s, front);
      var mid := ReadLines(f, s, PhoneLines(front));
      ReadLinesAppend(f, s, PhoneLines(front), [PhoneLine(last)]);
      ReadOne(f, mid, PhoneLine(last));
      assert s.policy.phones[s.approver] + front + [last] == s.policy.phones[s.approver] + phones;
    }
  }

  lemma NamedBlock(f: Reader, s: State, k: string)
    requires ReadsNames(f) && NameOk(k) && s.section.ApproverList?
    ensures ReadLines(f, s, [NameLine(k)]) ==
            s.(approver := k, inPhones := false, policy := s.policy.(phones := s.policy.phones[k := []]))
  {
    ReadOne(f, s, NameLine(k));
  }

  lemma PhonesBlock(f: Reader, s: State, key: string, phones: seq<string>)
    requires ReadsPhones(f) && ReadsPhonesKey(f) && forall i :: 0 <= i < |phones| ==> PhoneOk(phones[i])
    requires s.section.ApproverList? && s.approver != "" && s.approver in s.policy.phones && s.policy.phones[s.approver] == []
    requires key == "phones:"
    ensures ReadLines(f, s, [KeyLine(key)] + PhoneLines(phones)) ==
            s.(inPhones := true, policy := s.policy.(phones := s.policy.phones[s.approver := phones]))
  {
    ReadLinesAppend(f, s, [KeyLine(key)], PhoneLines(phones));
    ReadOne(f, s, KeyLine(key));
    PhonesReadBack(f, s.(inPhones := true), phones);
    assert [] + phones == phones;
  }

  lemma BlockReadsBack(f: Reader, s: State, k: string, phones: seq<string>)
    requires ReadsPhones(f) && ReadsNames(f) && ReadsPhonesKey(f)
    requires NameOk(k) && s.section.ApproverList? && forall i :: 0 <= i < |phones| ==> PhoneOk(phones[i])
    ensures
      var t := ReadLines(f, s, Block(k, phones));
      t.section.ApproverList? && t.policy == s.policy.(phones := s.policy.phones[k := phones])
  {
    NamedBlock(f, s, k);
    var s1 := ReadLines(f, s, [NameLine(k)]);
    if phones == [] {
      assert Block(k, phones) == [NameLine(k)];
    } else {
      ReadLinesAppend(f, s, [NameLine(k)], [KeyLine("phones:")] + PhoneLines(phones));
      PhonesBlock(f, s1, "phones:", phones);
      assert s.policy.phones[k := []][k := phones] == s.policy.phones[k := phones];
    }
  }

  /** The part of a map on the given keys. */
  function Part(order: seq<string>, phones: map<string, seq<string>>): map<string, seq<string>>
    requires forall k :: k in order ==> k in phones
  {
    map k | k in order :: phones[k]
  }

  ghost predicate MapOk(phones: map<string, seq<string>>) {
    forall k :: k in phones ==> NameOk(k) && forall i :: 0 <= i < |phones[k]| ==> PhoneOk(phones[k][i])
  }

  lemma PartSnoc(order: seq<string>, k: string, phones: map<string, seq<string>>)
    requires (forall j :: j in order + [k] ==> j in phones) && k in phones && forall j :: j in order ==> j in phones
    ensures Part(order + [k], phones) == Part(order, phones)[k := phones[k]]
  {
  }

  lemma {:induction false} BlocksReadBack(f: Reader, s: State, order: seq<string>, phones: map<string, seq<string>>)
    requires ReadsPhones(f) && ReadsNames(f) && ReadsPhonesKey(f)
    requires (forall k :: k in order ==> k in phones) && MapOk(phones)
    requires s.section.ApproverList? && s.policy.phones == map[]
    ensures ReadLines(f, s, Blocks(order, phones)).section.ApproverList?
    ensures ReadLines(f, s, Blocks(order, phones)).policy == s.policy.(phones := Part(order, phones))
  {
    if order == [] {
      assert Part(order, phones) == map[];
    } else {
      var front, k := order[..|order| - 1], order[|order| - 1];
      BlocksReadBack(f, s, front, phones);
      var mid := ReadLines(f, s, Blocks(front, phones));
      assert k in order && order == front + [k];
      EntryOk(phones, k);
      NextBlock(f, mid, s, Blocks(front, phones), Block(k, phones[k]), k, phones[k]);
      PartSnoc(front, k, phones);
    }
  }

  lemma EntryOk(phones: map<string, seq<string>>, k: string)
    requires MapOk(phones) && k in phones
    ensures NameOk(k) && forall i :: 0 <= i < |phones[k]| ==> PhoneOk(phones[k][i])
  {
  }

  lemma NextBlock(f: Reader, mid: State, s: State, before: seq<string>, block: seq<string>, k: string, list: seq<string>)
    requires ReadsPhones(f) && ReadsNames(f) && ReadsPhonesKey(f)
    requires mid == ReadLines(f, s, before) && mid.section.ApproverList? && block == Block(k, list)
    requires NameOk(k) && forall i :: 0 <= i < |list| ==> PhoneOk(list[i])
    ensures ReadLines(f, s, before + block).section.ApproverList?
    ensures ReadLines(f, s, before + block).policy == mid.policy.(phones := mid.policy.phones[k := list])
  {
    ReadLinesAppend(f, s, before, block);
    BlockReadsBack(f, mid, k, list);
  }

  lemma HeadReadsBack(f: Reader, s: State)
    requires ReadsNames(f) && ReadsSections(f)
    ensures ReadLines(f, s, Head()) ==
            State(ApproverSets, "operators", "", "", false, s.policy.(sets := s.policy.sets["operators" := []]))
  {
    ReadLinesAppend(f, s, [SectionLine("approver_sets")], [NameLine("operators")]);
    ReadOne(f, s, SectionLine("approver_sets"));
    ReadOne(f, f(s, SectionLine("approver_sets")), NameLine("operators"));
    assert NameOk("operators");
  }

  lemma RoutingReadsBack(f: Reader, s: State, user: string, key: string, set_: string)
    requires ReadsNames(f) && ReadsSections(f) && ReadsSettings(f)
    requires NameOk(user) && NameOk(key) && ':' !in key && NameOk(set_) && key == "approver_set"
    ensures
      var t := f(f(f(s, SectionLine("routing")), NameLine(user)), SettingLine(key, set_));
      t.section.RoutingTable? && t.requester == user && t.policy == s.policy.(routing := s.policy.routing[user := set_])
  {
  }

  lemma OtherSettingsReadBack(f: Reader, s: State, k1: string, v1: string, k2: string, v2: string, k3: string, v3: string)
    requires ReadsSettings(f) && ReadsScalars(f) && s.section.RoutingTable? && s.requester != ""
    requires NameOk(k1) && ':' !in k1 && NameOk(v1) && k1 != "approver_set"
    requires NameOk(k2) && ':' !in k2 && NameOk(v2) && k2 != "approver_set"
    requires NameOk(k3) && ':' !in k3 && NameOk(v3) && v3[|v3| - 1] != ':'
    ensures f(f(f(s, SettingLine(k1, v1)), SettingLine(k2, v2)), ScalarLine(k3, v3)) == s.(section := NoSection)
  {
  }

  lemma FootNames()
    ensures NameOk("testuser") && NameOk("approver_set") && NameOk("operators") && NameOk("capture_output")
    ensures NameOk("plain") && NameOk("max_execution_seconds") && NameOk("60") && NameOk("wall_notify") && NameOk("false")
    ensures ':' !in "approver_set" && ':' !in "capture_output" && ':' !in "max_execution_seconds" && ':' !in "wall_notify"
  {
  }

  lemma FootReadsBack(f: Reader, s: State)
    requires ReadsNames(f) && ReadsSections(f) && ReadsSettings(f) && ReadsScalars(f)
    ensures ReadLines(f, s, Foot()).policy == s.policy.(routing := s.policy.routing["testuser" := "operators"])
  {
    FootNames();
    RoutingReadsBack(f, s, "testuser", "approver_set", "operators");
    var t := f(f(f(s, SectionLine("routing")), NameLine("testuser")), SettingLine("approver_set", "operators"));
    OtherSettingsReadBack(f, t, "capture_output", "plain", "max_execution_seconds", "60", "wall_notify", "false");
    ReadsSix(f, s, Foot());
  }

  lemma ReadsSix(f: Reader, s: State, l: seq<string>)
    requires |l| == 6
    ensures ReadLines(f, s, l) == f(f(f(f(f(f(s, l[0]), l[1]), l[2]), l[3]), l[4]), l[5])
  {
    ReadLinesSnoc(f, s, l, 0);
    ReadLinesSnoc(f, s, l, 1);
    ReadLinesSnoc(f, s, l, 2);
    ReadLinesSnoc(f, s, l, 3);
    ReadLinesSnoc(f, s, l, 4);
    ReadLinesSnoc(f, s, l, 5);
    assert l[..6] == l && l[..0] == [];
  }

  lemma HeadAndMembersReadBack(f: Reader, s: State, members: seq<string>)
    requires Reads(f) && forall i :: 0 <= i < |members| ==> NameOk(members[i])
    ensures ReadLines(f, s, Head() + MemberLines(members)).policy ==
            s.policy.(sets := s.policy.sets["operators" := members])
  {
    HeadReadsBack(f, s);
    ReadLinesAppend(f, s, Head(), MemberLines(members));
    MembersReadBack(f, ReadLines(f, s, Head()), members);
    assert [] + members == members;
    assert s.policy.sets["operators" := []]["operators" := members] == s.policy.sets["operators" := members];
  }

  /** The state behind the members and the header of the next section. */
  lemma MembersPartReadsBack(f: Reader, s: State, members: seq<string>)
    requires Reads(f) && forall i :: 0 <= i < |members| ==> NameOk(members[i])
    ensures ReadLines(f, s, Head() + MemberLines(members) + [SectionLine("approvers")]) ==
            State(ApproverList, "", "", "", false, s.policy.(sets := s.policy.sets["operators" := members]))
  {
    HeadAndMembersReadBack(f, s, members);
    ThenApprovers(f, s, Head() + MemberLines(members));
  }

  lemma ThenApprovers(f: Reader, s: State, lines: seq<string>)
    requires Reads(f)
    ensures ReadLines(f, s, lines + [SectionLine("approvers")]) ==
            State(ApproverList, "", "", "", false, ReadLines(f, s, lines).policy)
  {
    ReadLinesAppend(f, s, lines, [SectionLine("approvers")]);
    ReadOne(f, ReadLines(f, s, lines), SectionLine("approvers"));
  }

  lemma FileReadsBack(f: Reader, s: State, members: seq<string>, order: seq<string>, phones: map<string, seq<string>>)
    requires Reads(f) && MapOk(phones) && s.policy.phones == map[]
    requires (forall k :: k in members ==> k in phones) && (forall k :: k in order <==> k in phones)
    ensures ReadLines(f, s, Print(members, order, phones)).policy ==
            Policy(s.policy.sets["operators" := members], phones, s.policy.routing["testuser" := "operators"])
  {
    forall i | 0 <= i < |members| ensures NameOk(members[i]) {
      assert members[i] in members;
    }
    var first := Head() + MemberLines(members) + [SectionLine("approvers")];
    var s1 := ReadLines(f, s, first);
    MembersPartReadsBack(f, s, members);
    ReadLinesAppend(f, s, first, Blocks(order, phones));
    BlocksReadBack(f, s1, order, phones);
    assert Part(order, phones) == phones;
    ReadLinesAppend(f, s, first + Blocks(order, phones), Foot());
    FootReadsBack(f, ReadLines(f, s1, Blocks(order, phones)));
  }

  // ----- The printed text -----

  /** The scanner yields the line as it was written. */
  predicate Plain(line: string) {
    '\n' !in line && |line| < SCANNER_LIMIT
  }

  /** A plain line that holds no comment. */
  predicate Bare(line: string) {
    Plain(line) && '#' !in line
  }

  ghost predicate AllBare(lines: seq<string>) {
    forall i :: 0 <= i < |lines| ==> Bare(lines[i])
  }

  ghost predicate AllPlain(lines: seq<string>) {
    forall i :: 0 <= i < |lines| ==> Plain(lines[i])
  }

  lemma {:induction false} IndentIsPlain(n: nat)
    ensures '\n' !in Indent(n) && '#' !in Indent(n) && |Indent(n)| == n
  {
    if n > 0 {
      IndentIsPlain(n - 1);
    }
  }

  lemma {:induction false} MembersArePlain(members: seq<string>)
    requires forall i :: 0 <= i < |members| ==> NameOk(members[i])
    ensures AllBare(MemberLines(members))
  {
    if members != [] {
      MembersArePlain(members[..|members| - 1]);
      IndentIsPlain(4);
    }
  }

  lemma {:induction false} PhonesArePlain(phones: seq<string>)
    requires forall i :: 0 <= i < |phones| ==> PhoneOk(phones[i])
    ensures AllBare(PhoneLines(phones))
  {
    if phones != [] {
      PhonesArePlain(phones[..|phones| - 1]);
      IndentIsPlain(6);
    }
  }

  lemma {:induction false} BlocksArePlain(order: seq<string>, phones: map<string, seq<string>>)
    requires (forall k :: k in order ==> k in phones) && MapOk(phones)
    ensures AllBare(Blocks(order, phones))
  {
    if order != [] {
      var front, k := order[..|order| - 1], order[|order| - 1];
      BlocksArePlain(front, phones);
      assert k in order && NameOk(k);
      PhonesArePlain(phones[k]);
      IndentIsPlain(2);
      IndentIsPlain(4);
      assert Bare(NameLine(k)) && Bare(KeyLine("phones:"));
    }
  }

  lemma ShortLineIsPlain(n: nat, body: string)
    requires n <= 6 && '\n' !in body && '#' !in body && |body| < 100
    ensures Bare(Indent(n) + body)
  {
    IndentIsPlain(n);
  }

  lemma SectionIsPlain(key: string)
    requires '\n' !in key && '#' !in key && |key| < 50
    ensures Bare(SectionLine(key))
  {
    ShortLineIsPlain(0, key + ":");
  }

  lemma NameIsPlain(key: string)
    requires '\n' !in key && '#' !in key && |key| < 50
    ensures Bare(NameLine(key))
  {
    ShortLineIsPlain(2, key + ":");
  }

  lemma SettingIsPlain(key: string, value: string)
    requires '\n' !in key && '#' !in key && '\n' !in value && '#' !in value && |key| < 40 && |value| < 40
    ensures Bare(SettingLine(key, value)) && Bare(ScalarLine(key, value))
  {
    ShortLineIsPlain(4, key + ": " + value);
    ShortLineIsPlain(0, key + ": " + value);
  }

  lemma HeadIsPlain()
    ensures AllBare(Head()) && Bare(SectionLine("approvers"))
  {
    SectionIsPlain("approver_sets");
    NameIsPlain("operators");
    SectionIsPlain("approvers");
  }

  lemma RouteIsPlain()
    ensures Bare(SectionLine("routing")) && Bare(NameLine("testuser")) && Bare(SettingLine("approver_set", "operators"))
  {
    SectionIsPlain("routing");
    NameIsPlain("testuser");
    SettingIsPlain("approver_set", "operators");
  }

  lemma OtherSettingsArePlain()
    ensures Bare(SettingLine("capture_output", "plain")) && Bare(ScalarLine("wall_notify", "false"))
  {
    SettingIsPlain("capture_output", "plain");
    SettingIsPlain("wall_notify", "false");
  }

  lemma LimitIsPlain()
    ensures Bare(SettingLine("max_execution_seconds", "60"))
  {
    SettingIsPlain("max_execution_seconds", "60");
  }

  lemma SixAreBare(lines: seq<string>)
    requires |lines| == 6 && Bare(lines[0]) && Bare(lines[1]) && Bare(lines[2]) && Bare(lines[3]) && Bare(lines[4]) && Bare(lines[5])
    ensures AllBare(lines)
  {
  }

  lemma FootIsPlain()
    ensures AllBare(Foot())
  {
    RouteIsPlain();
    OtherSettingsArePlain();
    LimitIsPlain();
    SixAreBare(Foot());
  }

  lemma BareIsPlain(lines: seq<string>)
    requires AllBare(lines)
    ensures AllPlain(lines) && forall i :: 0 <= i < |lines| ==> '\n' !in lines[i]
  {
  }

  lemma PrintIsPlain(members: seq<string>, order: seq<string>, phones: map<string, seq<string>>)
    requires MapOk(phones) && (forall k :: k in members ==> k in phones) && (forall k :: k in order ==> k in phones)
    ensures AllBare(Print(members, order, phones))
  {
    forall i | 0 <= i < |members| ensures NameOk(members[i]) {
      assert members[i] in members;
    }
    MembersArePlain(members);
    BlocksArePlain(order, phones);
    HeadIsPlain();
    FootIsPlain();
  }

  lemma ReadLineReads()
    ensures Reads(ReadLine)
  {
    ListsAreRead();
    NamesAreRead();
    SettingsAreRead();
    HeadersAreRead();
  }

  /**
   Parsing the printed file recovers the map: its names as the one approver set, in the order they were
   printed, its phones, and the one route.
   */
  lemma PrintedFileParses(members: seq<string>, order: seq<string>, phones: map<string, seq<string>>)
    requires MapOk(phones) && phones != map[]
    requires (forall k :: k in members <==> k in phones) && (forall k :: k in order <==> k in phones)
    ensures Parse(Lines(Unlines(Print(members, order, phones)))) ==
            Ok(Policy(map["operators" := members], phones, map["testuser" := "operators"]))
  {
    PrintIsPlain(members, order, phones);
    BareIsPlain(Print(members, order, phones));
    PlainFileParses(Print(members, order, phones), members, order, phones);
  }

  /** Any plain lines that the parser reads as it reads the printed ones. */
  lemma PlainFileParses(raw: seq<string>, members: seq<string>, order: seq<string>, phones: map<string, seq<string>>)
    requires MapOk(phones) && phones != map[] && AllPlain(raw)
    requires (forall k :: k in members <==> k in phones) && (forall k :: k in order <==> k in phones)
    requires ReadLines(ReadLine, INITIAL, raw) == ReadLines(ReadLine, INITIAL, Print(members, order, phones))
    ensures Parse(Lines(Unlines(raw))) ==
            Ok(Policy(map["operators" := members], phones, map["testuser" := "operators"]))
  {
    LinesOfUnlines(raw);
    ReadLineReads();
    FileReadsBack(ReadLine, INITIAL, members, order, phones);
    PolicyIsReturned(raw, members, phones);
  }

  lemma PolicyIsReturned(raw: seq<string>, members: seq<string>, phones: map<string, seq<string>>)
    requires AllPlain(raw)
    requires ReadLines(ReadLine, INITIAL, raw).policy ==
             Policy(INITIAL.policy.sets["operators" := members], phones, INITIAL.policy.routing["testuser" := "operators"])
    ensures Parse(raw) == Ok(Policy(map["operators" := members], phones, map["testuser" := "operators"]))
  {
    assert "testuser" in ReadLines(ReadLine, INITIAL, raw).policy.routing;
  }

  // ----- Recipients -----

  /** The trimmed, non-empty phones of the members, in order, repetitions included. */
  function Trimmed(phones: seq<string>): seq<string> {
    if phones == [] then [] else
      var rest, phone := Trimmed(phones[..|phones| - 1]), TrimSpace(phones[|phones| - 1]);
      if phone == "" then rest else rest + [phone]
  }

  function Candidates(members: seq<string>, phones: map<string, seq<string>>): seq<string> {
    if members == [] then [] else
      Candidates(members[..|members| - 1], phones) + Trimmed(GetList(phones, members[|members| - 1]))
  }

  /** Keeps first occurrences. */
  function FirstSeen(s: seq<string>): seq<string> {
    if s == [] then [] else
      var front, last := s[..|s| - 1], s[|s| - 1];
      if last in front then FirstSeen(front) else FirstSeen(front) + [last]
  }

  function Recipients(policy: Policy, requester: string): seq<string> {
    if requester !in policy.routing || policy.routing[requester] !in policy.sets then []
    else FirstSeen(Candidates(policy.sets[policy.routing[requester]], policy.phones))
  }

  function FirstIndex(s: seq<string>, x: string): (i: nat)
    requires x in s
    ensures i < |s| && s[i] == x && x !in s[..i]
  {
    if s[0] == x then 0 else 1 + FirstIndex(s[1..], x)
  }

  /** The same elements, each once. */
  lemma {:induction false} FirstSeenIsUnion(s: seq<string>)
    ensures forall x :: x in FirstSeen(s) <==> x in s
    ensures forall i, j :: 0 <= i < j < |FirstSeen(s)| ==> FirstSeen(s)[i] != FirstSeen(s)[j]
  {
    if s != [] {
      FirstSeenIsUnion(s[..|s| - 1]);
      assert s == s[..|s| - 1] + [s[|s| - 1]];
    }
  }

  lemma FirstIndexStays(s: seq<string>, t: seq<string>, x: string)
    requires x in s
    ensures x in s + t && FirstIndex(s + t, x) == FirstIndex(s, x)
  {
    var i, j := FirstIndex(s, x), FirstIndex(s + t, x);
    assert (s + t)[i] == x && s[..i] == (s + t)[..i];
  }

  /** And in the order of their first occurrence. */
  lemma {:induction false} FirstSeenKeepsOrder(s: seq<string>, i: nat, j: nat)
    requires i < j < |FirstSeen(s)|
    ensures FirstSeen(s)[i] in s && FirstSeen(s)[j] in s
    ensures FirstIndex(s, FirstSeen(s)[i]) < FirstIndex(s, FirstSeen(s)[j])
  {
    var front, last := s[..|s| - 1], s[|s| - 1];
    var r := FirstSeen(front);
    assert s == front + [last];
    FirstSeenIsUnion(front);
    if j < |r| {
      FirstSeenKeepsOrder(front, i, j);
      FirstIndexStays(front, [last], r[i]);
      FirstIndexStays(front, [last], r[j]);
    } else {
      assert r[i] in front;
      FirstIndexStays(front, [last], r[i]);
      assert last !in front && FirstIndex(s, last) >= |front|;
    }
  }

  lemma FirstSeenAppend(s: seq<string>, x: string)
    ensures FirstSeen(s + [x]) == if x in s then FirstSeen(s) else FirstSeen(s) + [x]
  {
    assert (s + [x])[..|s|] == s;
  }

  // What the candidates are: the phones of the members one after the other, trimmed, without empty ones.

  lemma {:induction false} TrimmedJoin(a: seq<string>, b: seq<string>)
    ensures Trimmed(a + b) == Trimmed(a) + Trimmed(b)
    decreases |b|
  {
    if b == [] {
      assert a + b == a;
    } else {
      var front, last := b[..|b| - 1], b[|b| - 1];
      assert (a + b)[..|a + b| - 1] == a + front;
      TrimmedJoin(a, front);
    }
  }

  lemma TrimmedOne(phone: string)
    ensures Trimmed([phone]) == if TrimSpace(phone) == "" then [] else [TrimSpace(phone)]
  {
    assert [phone][..0] == [];
  }

  lemma CandidatesSplit(members: seq<string>, last: string, phones: map<string, seq<string>>)
    ensures Candidates(members + [last], phones) == Candidates(members, phones) + Trimmed(GetList(phones, last))
  {
    assert (members + [last])[..|members|] == members;
  }

  lemma {:induction false} CandidatesJoin(a: seq<string>, b: seq<string>, phones: map<string, seq<string>>)
    ensures Candidates(a + b, phones) == Candidates(a, phones) + Candidates(b, phones)
    decreases |b|
  {
    if b == [] {
      assert a + b == a;
    } else {
      var front, last := b[..|b| - 1], b[|b| - 1];
      assert b == front + [last] && a + b == (a + front) + [last];
      CandidatesJoin(a, front, phones);
      CandidatesSplit(a + front, last, phones);
      CandidatesSplit(front, last, phones);
      JoinsAgain(Candidates(a, phones), Candidates(front, phones), Trimmed(GetList(phones, last)));
    }
  }

  lemma JoinsAgain(a: seq<string>, b: seq<string>, c: seq<string>)
    ensures a + b + c == a + (b + c)
  {
  }

  lemma CandidatesOne(member: string, phones: map<string, seq<string>>)
    ensures Candidates([member], phones) == if member in phones then Trimmed(phones[member]) else []
  {
    assert [member][..0] == [];
    assert Trimmed([]) == [];
  }

  lemma TrimmedSplits(phones: seq<string>)
    requires phones != []
    ensures
      var t, rest := TrimSpace(phones[|phones| - 1]), Trimmed(phones[..|phones| - 1]);
      Trimmed(phones) == if t == "" then rest else rest + [t]
  {
  }

  /** Some of these phones is `x` once it is trimmed. */
  ghost predicate Holds(phones: seq<string>, x: string) {
    exists p :: p in phones && TrimSpace(p) == x
  }

  lemma HoldsSplits(phones: seq<string>, x: string)
    requires phones != []
    ensures Holds(phones, x) <==> Holds(phones[..|phones| - 1], x) || TrimSpace(phones[|phones| - 1]) == x
  {
    var front, last := phones[..|phones| - 1], phones[|phones| - 1];
    assert forall p :: p in phones <==> p in front || p == last;
  }

  lemma {:induction false} TrimmedMembers(phones: seq<string>, x: string)
    ensures x in Trimmed(phones) <==> x != "" && Holds(phones, x)
  {
    if phones != [] {
      TrimmedMembers(phones[..|phones| - 1], x);
      TrimmedSplits(phones);
      HoldsSplits(phones, x);
    }
  }

  /** The phone is the trimmed form of one listed for this member. */
  ghost predicate ListedFor(phones: map<string, seq<string>>, member: string, x: string) {
    member in phones && exists p :: p in phones[member] && TrimSpace(p) == x
  }

  ghost predicate ListedForSome(phones: map<string, seq<string>>, members: seq<string>, x: string) {
    exists m :: m in members && ListedFor(phones, m, x)
  }

  lemma ListedSplits(phones: map<string, seq<string>>, members: seq<string>, last: string, x: string)
    ensures ListedForSome(phones, members + [last], x) <==> ListedForSome(phones, members, x) || ListedFor(phones, last, x)
  {
    assert forall m :: m in members + [last] <==> m in members || m == last;
  }

  lemma {:induction false} CandidatesMembers(members: seq<string>, phones: map<string, seq<string>>, x: string)
    ensures x in Candidates(members, phones) <==> x != "" && ListedForSome(phones, members, x)
  {
    if members != [] {
      var front, last := members[..|members| - 1], members[|members| - 1];
      assert members == front + [last];
      CandidatesMembers(front, phones, x);
      CandidatesSplit(front, last, phones);
      TrimmedMembers(GetList(phones, last), x);
      ListedSplits(phones, front, last, x);
    }
  }

  /** Some member of the set the requester is routed to has this phone. */
  ghost predicate Reaches(policy: Policy, requester: string, x: string) {
    && requester in policy.routing && policy.routing[requester] in policy.sets
    && exists m :: m in policy.sets[policy.routing[requester]] && ListedFor(policy.phones, m, x)
  }

  lemma RecipientsReach(policy: Policy, requester: string, x: string)
    ensures x in Recipients(policy, requester) <==> x != "" && Reaches(policy, requester, x)
  {
    if requester in policy.routing && policy.routing[requester] in policy.sets {
      var members := policy.sets[policy.routing[requester]];
      FirstSeenIsUnion(Candidates(members, policy.phones));
      CandidatesMembers(members, policy.phones, x);
    }
  }

  /** `LookupRecipients`. */
  method LookupRecipients(policy: Policy, requester: string) returns (out: seq<string>)
    ensures out == Recipients(policy, requester)
    ensures forall x :: x in out <==> x != "" && Reaches(policy, requester, x)
    ensures forall i, j :: 0 <= i < j < |out| ==> out[i] != out[j]
  {
    RecipientsAreReached(policy, requester);
    out := FindRecipients(policy, requester);
  }

  lemma RecipientsAreReached(policy: Policy, requester: string)
    ensures forall x :: x in Recipients(policy, requester) <==> x != "" && Reaches(policy, requester, x)
  {
    forall x ensures x in Recipients(policy, requester) <==> x != "" && Reaches(policy, requester, x) {
      RecipientsReach(policy, requester, x);
    }
  }

  /** The loop over the members. */
  method FindRecipients(policy: Policy, requester: string) returns (out: seq<string>)
    ensures out == Recipients(policy, requester)
    ensures forall i, j :: 0 <= i < j < |out| ==> out[i] != out[j]
  {
    if requester !in policy.routing {
      return [];
    }
    var setName := policy.routing[requester];
    if setName !in policy.sets {
      return [];
    }
    var members := policy.sets[setName];
    var seen: set<string> := {};
    out := [];
    for i := 0 to |members|
      invariant out == FirstSeen(Candidates(members[..i], policy.phones))
      invariant forall x :: x in seen <==> x in Candidates(members[..i], policy.phones)
    {
      assert members[..i + 1] == members[..i] + [members[i]];
      CandidatesSplit(members[..i], members[i], policy.phones);
      out, seen := AddPhones(GetList(policy.phones, members[i]), out, seen, Candidates(members[..i], policy.phones));
    }
    assert members[..|members|] == members;
    FirstSeenIsUnion(Candidates(members, policy.phones));
  }

  /** The inner loop of `LookupRecipients`; `met` are the phones met so far. */
  method AddPhones(phones: seq<string>, before: seq<string>, seenBefore: set<string>, ghost met: seq<string>)
    returns (out: seq<string>, seen: set<string>)
    requires before == FirstSeen(met) && forall x :: x in seenBefore <==> x in met
    ensures out == FirstSeen(met + Trimmed(phones)) && forall x :: x in seen <==> x in met + Trimmed(phones)
  {
    out, seen := before, seenBefore;
    assert met + [] == met;
    for j := 0 to |phones|
      invariant out == FirstSeen(met + Trimmed(phones[..j]))
      invariant forall x :: x in seen <==> x in met + Trimmed(phones[..j])
    {
      var phone := TrimSpace(phones[j]);
      TrimmedSnoc(met, phones, j);
      if phone != "" && phone !in seen {
        seen := seen + {phone};
        out := out + [phone];
      }
    }
    assert phones[..|phones|] == phones;
  }

  lemma TrimmedSnoc(met: seq<string>, phones: seq<string>, j: nat)
    requires j < |phones|
    ensures
      var before, after, phone := met + Trimmed(phones[..j]), met + Trimmed(phones[..j + 1]), TrimSpace(phones[j]);
      && after == (if phone == "" then before else before + [phone])
      && FirstSeen(after) == (if phone == "" || phone in before then FirstSeen(before) else FirstSeen(before) + [phone])
  {
    TrimmedNext(phones, j);
    FirstSeenNext(met, Trimmed(phones[..j]), Trimmed(phones[..j + 1]), TrimSpace(phones[j]));
  }

  lemma TrimmedNext(phones: seq<string>, j: nat)
    requires j < |phones|
    ensures Trimmed(phones[..j + 1]) == Trimmed(phones[..j]) + if TrimSpace(phones[j]) == "" then [] else [TrimSpace(phones[j])]
  {
    assert phones[..j + 1] == phones[..j] + [phones[j]];
    TrimmedJoin(phones[..j], [phones[j]]);
    TrimmedOne(phones[j]);
  }

  lemma FirstSeenNext(met: seq<string>, a: seq<string>, b: seq<string>, x: string)
    requires b == a + if x == "" then [] else [x]
    ensures met + b == (if x == "" then met + a else met + a + [x])
    ensures FirstSeen(met + b) == if x == "" || x in met + a then FirstSeen(met + a) else FirstSeen(met + a) + [x]
  {
    if x == "" {
      assert a + [] == a;
    } else {
      JoinsAgain(met, a, [x]);
      FirstSeenAppend(met + a, x);
    }
  }

  /** Printing a map, parsing it and looking up the routed user gives the union of its phones. */
  lemma RoutedUserReachesEveryPhone(members: seq<string>, order: seq<string>, phones: map<string, seq<string>>)
    requires MapOk(phones) && phones != map[]
    requires (forall k :: k in members <==> k in phones) && (forall k :: k in order <==> k in phones)
    ensures
      var r := Parse(Lines(Unlines(Print(members, order, phones))));
      r.Ok? && Recipients(r.value, "testuser") == FirstSeen(Candidates(members, phones))
  {
    PrintedFileParses(members, order, phones);
  }
}
