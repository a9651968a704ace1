/** parseBlocklistDomains: which domain each line of a downloaded list adds, if any. */
module BlocklistParser {
  import opened Text
  import opened Names

  /** A line adds one domain, adds nothing, or indexes an empty list of fields, which ends the whole parse in a panic. */
  datatype Parsed = Skip | Domain(name: string) | Panic

  // ---------------------------------------------------------------- the token expression

  predicate IsLetter(c: char) {
    'a' <= c <= 'z' || 'A' <= c <= 'Z'
  }

  /** [a-z0-9_*.-], ignoring case */
  predicate InClass(c: char) {
    IsLetter(c) || '0' <= c <= '9' || c == '_' || c == '*' || c == '.' || c == '-'
  }

  /** [a-z0-9_*.-]+\. */
  predicate IsGroup(s: string) {
    |s| >= 2 && s[|s| - 1] == '.' && forall i :: 0 <= i < |s| ==> InClass(s[i])
  }

  /** [a-z]{2,} */
  predicate IsTop(s: string) {
    |s| >= 2 && forall i :: 0 <= i < |s| ==> IsLetter(s[i])
  }

  function Flatten(groups: seq<string>): string {
    if groups == [] then "" else groups[0] + Flatten(groups[1..])
  }

  /** The expression as written: one group or more, a top-level domain, and perhaps a dot. */
  ghost predicate RegexMatches(line: string) {
    exists groups: seq<string>, top: string, dot: string :: IsMatch(line, groups, top, dot)
  }

  ghost predicate IsMatch(line: string, groups: seq<string>, top: string, dot: string) {
    && groups != [] && (forall i :: 0 <= i < |groups| ==> IsGroup(groups[i]))
    && IsTop(top) && (dot == "" || dot == ".") && line == Flatten(groups) + top + dot
  }

  /** The position after the last dot, or 0. */
  function AfterLastDot(s: string): (i: nat)
    ensures i <= |s| && (i > 0 ==> s[i - 1] == '.') && forall j :: i <= j < |s| ==> s[j] != '.'
  {
    if s == "" || s[|s| - 1] == '.' then |s| else AfterLastDot(s[..|s| - 1])
  }

  /** The expression as one split, at the last dot that is not the final one. */
  predicate IsToken(line: string) {
    var body := TrimSuffix(line, ".");
    var i := AfterLastDot(body);
    IsGroup(body[..i]) && IsTop(body[i..])
  }

  lemma {:induction false} GroupsAreOneGroup(groups: seq<string>)
    requires groups != [] && forall i :: 0 <= i < |groups| ==> IsGroup(groups[i])
    ensures IsGroup(Flatten(groups))
  {
    if |groups| > 1 {
      GroupsAreOneGroup(groups[1..]);
    } else {
      assert groups[0] + "" == groups[0] && groups[1..] == [];
    }
  }

  lemma {:induction false} SplitIsForced(group: string, top: string)
    requires IsGroup(group) && IsTop(top)
    ensures AfterLastDot(group + top) == |group|
  {
    var i := AfterLastDot(group + top);
    assert (group + top)[|group| - 1] == '.';
    assert forall j :: |group| <= j < |group + top| ==> (group + top)[j] == top[j - |group|];
  }

  /** Repeating the group adds nothing: the expression is its single-split form. */
  lemma {:induction false} RegexIsOneSplit(line: string)
    ensures RegexMatches(line) <==> IsToken(line)
  {
    if IsToken(line) {
      var body := TrimSuffix(line, ".");
      var i := AfterLastDot(body);
      var dot := if HasSuffix(line, ".") then "." else "";
      assert Flatten([body[..i]]) == body[..i] + "" by { assert [body[..i]][1..] == []; }
      assert body[..i] + "" + body[i..] + dot == line;
      assert IsMatch(line, [body[..i]], body[i..], dot);
    }
    if RegexMatches(line) {
      var groups, top, dot :| IsMatch(line, groups, top, dot);
      GroupsAreOneGroup(groups);
      MatchIsToken(line, Flatten(groups), top, dot);
    }
  }

  lemma {:induction false} MatchIsToken(line: string, group: string, top: string, dot: string)
    requires IsGroup(group) && IsTop(top) && (dot == "" || dot == ".") && line == group + top + dot
    ensures IsToken(line)
  {
    var body := group + top;
    assert IsLetter(top[|top| - 1]) && body[|body| - 1] == top[|top| - 1];
    if dot == "" {
      assert line == body && line[|line| - 1] != '.';
    } else {
      assert line[..|line| - 1] == body && line[|line| - 1] == '.';
    }
    assert TrimSuffix(line, ".") == body;
    SplitIsForced(group, top);
    assert body[..|group|] == group && body[|group|..] == top;
  }

  lemma {:induction false} LowerLetters(l: char)
    ensures 'a' <= l <= 'm' <==> l in "abcdefghijklm"
    ensures 'n' <= l <= 'z' <==> l in "nopqrstuvwxyz"
  {
    assert 'a' <= l <= 'm' ==> "abcdefghijklm"[l as int - 'a' as int] == l;
    assert 'n' <= l <= 'z' ==> "nopqrstuvwxyz"[l as int - 'n' as int] == l;
  }

  /** [a-z], with upper-case letters taken as their lower case. */
  lemma {:induction false} LettersAre(c: char)
    ensures IsLetter(c) <==> LowerChar(c) in "abcdefghijklm" || LowerChar(c) in "nopqrstuvwxyz"
  {
    LowerLetters(LowerChar(c));
  }

  lemma {:induction false} ClassIs(c: char)
    ensures InClass(c) <==> IsLetter(c) || c in "0123456789_*.-"
  {
    hide IsLetter;
    assert '0' <= c <= '9' ==> "0123456789_*.-"[c as int - '0' as int] == c;
  }

  /** After a name with its dot, the rest decides: two letters or more, and perhaps a dot. */
  lemma {:induction false} TopDecides(name: string, top: string, dot: string)
    requires name != "" && top != "" && '.' !in top && (dot == "" || dot == ".")
    requires forall i :: 0 <= i < |name| ==> InClass(name[i])
    ensures IsToken(name + "." + top + dot) <==> |top| >= 2 && forall c :: c in top ==> IsLetter(c)
  {
    var line, group := name + "." + top + dot, name + ".";
    assert line == group + top + dot;
    assert (forall c :: c in top ==> IsLetter(c)) <==> forall i :: 0 <= i < |top| ==> IsLetter(top[i]);
    assert IsGroup(group);
    if IsTop(top) {
      MatchIsToken(line, group, top, dot);
    }
    TopIsLast(group, top, dot);
  }

  lemma {:induction false} TopIsLast(group: string, top: string, dot: string)
    requires group != "" && group[|group| - 1] == '.' && top != "" && '.' !in top && (dot == "" || dot == ".")
    ensures IsToken(group + top + dot) ==> IsTop(top)
  {
    var line, body := group + top + dot, group + top;
    assert body[|body| - 1] == top[|top| - 1];
    assert dot == "." ==> line[..|line| - 1] == body;
    assert line[|line| - 1..] == [line[|line| - 1]];
    assert TrimSuffix(line, ".") == body;
    assert body[|group| - 1] == '.' && forall j :: |group| <= j < |body| ==> body[j] == top[j - |group|];
    assert AfterLastDot(body) == |group|;
    assert body[|group|..] == top;
  }

  // ---------------------------------------------------------------- one line

  /** The length of the first word. */
  function WordLength(s: string): (n: nat)
    ensures n <= |s| && (forall i :: 0 <= i < n ==> !IsSpace(s[i])) && (n < |s| ==> IsSpace(s[n]))
  {
    if s == "" || IsSpace(s[0]) then 0 else 1 + WordLength(s[1..])
  }

  /** strings.Fields */
  function Words(s: string): (ws: seq<string>)
    ensures forall i :: 0 <= i < |ws| ==> ws[i] != ""
    decreases |s|
  {
    var t := s[Leading(s)..];
    if t == "" then [] else [t[..WordLength(t)]] + Words(t[WordLength(t)..])
  }

  predicate IsComment(line: string) {
    line == "" || line[0] == '#' || line[0] == '!' || line[0] == '['
  }

  /** "||" and everything from the first of "^/$" on. */
  function DropAnchors(line: string): string {
    if !HasPrefix(line, "||") then line else
      var rest := line[2..];
      rest[..IndexAny(rest, "^/$")]
  }

  /** Of several words the first, or the second when the first is an address. */
  function PickWord(line: string, isIP: string -> bool): Option<string> {
    if ' ' !in line && '\t' !in line then Some(line) else
      var ws := Words(line);
      if |ws| >= 2 && (isIP(ws[0]) || ws[0] == "0.0.0.0" || ws[0] == "::") then Some(ws[1])
      else if ws == [] then None
      else Some(ws[0])
  }

  /** The part before the first slash, if something precedes it and a dot follows it. */
  function DropPath(line: string): string {
    var i := IndexAny(line, "/");
    if 0 < i < |line| && '.' in line[i + 1..] then line[..i] else line
  }

  function DropPrefixes(line: string): string {
    TrimSpace(TrimPrefix(TrimPrefix(DropPath(TrimPrefix(line, "address=/")), "*."), "."))
  }

  predicate Refused(token: string) {
    ContainsAny(token, "/:") || '$' in token || Contains(token, "@@") || !IsToken(token)
  }

  function ParseToken(token: string): Parsed {
    if Refused(token) then Skip else
      var d := NormalizeName(token);
      if d == "" then Skip else Domain(d)
  }

  /** The other tests refuse nothing that the expression takes. */
  lemma {:induction false} TokensAreTaken(token: string)
    ensures ParseToken(token) == if RegexMatches(token) && NormalizeName(token) != "" then Domain(NormalizeName(token)) else Skip
  {
    hide IsToken, RegexMatches, NormalizeName, ContainsAny, Contains;
    RegexIsOneSplit(token);
    if IsToken(token) {
      TokenChars(token);
      TokenHoldsNoMark(token);
    }
  }

  lemma {:induction false} TokenHoldsNoMark(token: string)
    requires forall c :: c in token ==> InClass(c)
    ensures !ContainsAny(token, "/:") && '$' !in token && !Contains(token, "@@")
  {
    ContainsAnyIff(token, "/:");
    ContainsIff(token, "@@");
    assert !InClass('@');
    hide *;
    forall before: string, after: string
      ensures token == before + "@@" + after ==> '@' in token
    {
      MarkIsIn(before, after);
    }
  }

  lemma {:induction false} MarkIsIn(before: string, after: string)
    ensures '@' in before + "@@" + after
  {
    assert (before + "@@" + after)[|before|] == '@';
  }

  lemma {:induction false} TokenChars(token: string)
    requires IsToken(token)
    ensures forall c :: c in token ==> InClass(c)
  {
    var body := TrimSuffix(token, ".");
    var i := AfterLastDot(body);
    assert body == body[..i] + body[i..];
    assert token == body || token == body + ".";
  }

  function ParseLine(text: string, isIP: string -> bool): Parsed {
    var line := TrimSpace(text);
    if IsComment(line) then Skip else
      var word := PickWord(DropAnchors(line), isIP);
      if word.None? then Panic else ParseToken(DropPrefixes(word.value))
  }

  // ---------------------------------------------------------------- a whole list

  /** The scanner's buffer: a line must be shorter, without its line break. */
  const MAX_LINE: nat := 0x10_0000

  /** bufio.ScanLines before the final '\r' is dropped: the text between line breaks, and what follows the last one. */
  function Lines(body: string): (ls: seq<string>)
    decreases |body|
  {
    if body == "" then [] else
      var n := IndexAny(body, "\n");
      if n == |body| then [body] else [body[..n]] + Lines(body[n + 1..])
  }

  /** What a line adds, its '\r' dropped. */
  function ParseScanned(line: string, isIP: string -> bool): Parsed {
    ParseLine(TrimSuffix(line, "\r"), isIP)
  }

  predicate TooLong(line: string) {
    |line| >= MAX_LINE
  }

  predicate Fine(line: string, isIP: string -> bool) {
    !TooLong(line) && ParseScanned(line, isIP) != Panic
  }

  /** The first line that ends the parse early, or |lines|. */
  function FirstBad(lines: seq<string>, isIP: string -> bool): (n: nat)
    ensures n <= |lines|
  {
    if lines == [] || !Fine(lines[0], isIP) then 0 else 1 + FirstBad(lines[1..], isIP)
  }

  lemma {:induction false} FirstBadAt(lines: seq<string>, n: nat, isIP: string -> bool)
    requires n <= |lines| && (forall j :: 0 <= j < n ==> Fine(lines[j], isIP)) && (n < |lines| ==> !Fine(lines[n], isIP))
    ensures FirstBad(lines, isIP) == n
  {
    hide Fine;
    if n > 0 {
      forall j | 0 <= j < n - 1 ensures Fine(lines[1..][j], isIP) { assert lines[1..][j] == lines[j + 1]; }
      FirstBadAt(lines[1..], n - 1, isIP);
    }
  }

  /** The domains of a list, one of the scanner's two errors, or a panic. */
  datatype Outcome = Domains(names: set<string>) | LineTooLong | ReadFailed | Panicked

  function Added(lines: seq<string>, isIP: string -> bool): set<string> {
    set i | 0 <= i < |lines| && ParseScanned(lines[i], isIP).Domain? :: ParseScanned(lines[i], isIP).name
  }

  /** `readOk` says whether the lines end with the text or with an error of reading it. */
  function ParseAll(lines: seq<string>, readOk: bool, isIP: string -> bool): Outcome {
    var n := FirstBad(lines, isIP);
    if n < |lines| then (if TooLong(lines[n]) then LineTooLong else Panicked)
    else if readOk then Domains(Added(lines, isIP))
    else ReadFailed
  }

  lemma {:induction false} BadLineDecides(before: seq<string>, line: string, rest: seq<string>, readOk: bool,
                                          isIP: string -> bool)
    requires (forall j :: 0 <= j < |before| ==> Fine(before[j], isIP)) && !Fine(line, isIP)
    ensures ParseAll(before + [line] + rest, readOk, isIP) == if TooLong(line) then LineTooLong else Panicked
  {
    hide ParseScanned, Added, TooLong, Fine, FirstBad;
    var lines := before + [line] + rest;
    assert lines[|before|] == line && forall j :: 0 <= j < |before| ==> lines[j] == before[j];
    FirstBadAt(lines, |before|, isIP);
  }

  lemma {:induction false} AddedSnoc(before: seq<string>, line: string, isIP: string -> bool)
    ensures var p := ParseScanned(line, isIP);
            Added(before + [line], isIP) == Added(before, isIP) + if p.Domain? then {p.name} else {}
  {
    hide ParseScanned;
    var lines, p := before + [line], ParseScanned(line, isIP);
    assert lines[|before|] == line && forall j :: 0 <= j < |before| ==> lines[j] == before[j];
    forall d | d in Added(before, isIP)
      ensures d in Added(lines, isIP)
    {
      var j :| 0 <= j < |before| && ParseScanned(before[j], isIP) == Domain(d);
      assert ParseScanned(lines[j], isIP) == Domain(d);
    }
    if p.Domain? {
      assert ParseScanned(lines[|before|], isIP) == p;
    }
  }

  /** A line of 1 MiB or more ends the parse, whatever it holds. */
  lemma {:induction false} LineLimit(line: string, isIP: string -> bool)
    ensures ParseAll([line], true, isIP) == LineTooLong <==> |line| >= 1024 * 1024
  {
    hide ParseScanned, Added;
    FirstBadAt([line], if Fine(line, isIP) then 1 else 0, isIP);
  }

  lemma {:induction false} NextLine(body: string)
    requires body != ""
    ensures var n := IndexAny(body, "\n"); Lines(body) == [body[..n]] + Lines(if n < |body| then body[n + 1..] else "")
  {
    hide IndexAny;
    var n := IndexAny(body, "\n");
    assert n == |body| ==> body[..n] == body && Lines("") == [];
  }

  /** `body` is what could be read; the scanner hands out its lines also when the reading ends in an error. */
  method ParseBlocklistDomains(body: string, readOk: bool, isIP: string -> bool) returns (r: Outcome)
    ensures r == ParseAll(Lines(body), readOk, isIP)
  {
    hide Lines, ParseScanned, ParseAll, Added, FirstBad, IndexAny;
    var out: set<string>, rest := {}, body;
    ghost var read: seq<string> := [];
    assert Added([], isIP) == {} by { NothingAdded(isIP); }
    assert [] + Lines(body) == Lines(body);
    while rest != ""
      invariant Lines(body) == read + Lines(rest)
      invariant forall j :: 0 <= j < |read| ==> Fine(read[j], isIP)
      invariant out == Added(read, isIP)
      decreases |rest|
    {
      var n := IndexAny(rest, "\n");
      var line, after := rest[..n], if n < |rest| then rest[n + 1..] else "";
      NextLine(rest);
      assert Lines(body) == read + [line] + Lines(after);
      var p := ParseScanned(line, isIP);
      if TooLong(line) || p == Panic {
        BadLineDecides(read, line, Lines(after), readOk, isIP);
        return if TooLong(line) then LineTooLong else Panicked;
      }
      AddedSnoc(read, line, isIP);
      assert Fine(line, isIP);
      if p.Domain? {
        out := out + {p.name};
      }
      read, rest := read + [line], after;
    }
    AllFine(read, readOk, isIP);
    assert Lines(body) == read by { NoLines(); }
    r := if readOk then Domains(out) else ReadFailed;
  }

  lemma {:induction false} NothingAdded(isIP: string -> bool)
    ensures Added([], isIP) == {}
  {
  }

  lemma {:induction false} NoLines()
    ensures Lines("") == []
  {
  }

  lemma {:induction false} AllFine(lines: seq<string>, readOk: bool, isIP: string -> bool)
    requires forall j :: 0 <= j < |lines| ==> Fine(lines[j], isIP)
    ensures ParseAll(lines, readOk, isIP) == if readOk then Domains(Added(lines, isIP)) else ReadFailed
  {
    hide Fine, Added, FirstBad;
    FirstBadAt(lines, |lines|, isIP);
  }

  predicate HasBlank(s: string) {
    ' ' in s || '\t' in s
  }

  lemma {:induction false} NoWords(s: string)
    ensures Words(s) == [] <==> AllBlank(s)
  {
    assert Leading(s) == |s| <==> AllBlank(s);
  }

  lemma {:induction false} PicksNothing(line: string, isIP: string -> bool)
    ensures PickWord(line, isIP).None? <==> HasBlank(line) && AllBlank(line)
  {
    NoWords(line);
    hide Words, AllBlank;
  }

  lemma {:induction false} TrimmedIsNotBlank(line: string)
    requires Trimmed(line) && !IsComment(line)
    ensures !AllBlank(line) && (!HasPrefix(line, "||") ==> DropAnchors(line) == line)
  {
  }

  /** The lines that panic: anchored ones with nothing but blanks, and some, before the first separator. */
  lemma {:induction false} PanicsIff(text: string, isIP: string -> bool)
    ensures ParseLine(text, isIP) == Panic <==>
            var line := TrimSpace(text);
            HasPrefix(line, "||") && HasBlank(DropAnchors(line)) && AllBlank(DropAnchors(line))
  {
    hide Refused, NormalizeName, DropPrefixes, PickWord, DropAnchors, AllBlank, HasBlank, HasPrefix, TrimSpace;
    var line := TrimSpace(text);
    PicksNothing(DropAnchors(line), isIP);
    if IsComment(line) {
      CommentHasNoAnchor(line);
    } else {
      TrimmedIsNotBlank(line);
    }
  }

  /** A family that panics: "||", blanks, a separator, and anything, such as "|| ^". */
  lemma {:induction false} BlankAnchorPanics(lead: string, blanks: string, separator: char, rest: string,
                                             isIP: string -> bool)
    requires lead == "||" && AllBlank(blanks) && HasBlank(blanks) && separator in "^/$"
    requires var text := lead + blanks + [separator] + rest; Trimmed(text)
    ensures ParseLine(lead + blanks + [separator] + rest, isIP) == Panic
  {
    var text := lead + blanks + [separator] + rest;
    var after := blanks + [separator] + rest;
    assert text == lead + after && text[2..] == after && HasPrefix(text, lead);
    IndexAt(blanks, separator, rest, "^/$");
    assert DropAnchors(text) == blanks;
    hide AllBlank, HasBlank, DropAnchors, ParseLine, HasPrefix;
    PanicsIff(text, isIP);
  }

  /** Nothing after the blanks: TrimSpace leaves "||", which adds nothing. */
  lemma {:induction false} AnchorAloneIsSkipped(lead: string, blanks: string, isIP: string -> bool)
    requires lead == "||" && AllBlank(blanks)
    ensures ParseLine(lead + blanks, isIP) == Skip
  {
    var text := lead + blanks;
    assert text[0] == lead[0] && text[1] == lead[1] && forall i :: 0 <= i < |blanks| ==> text[2 + i] == blanks[i];
    assert Leading(text) == 0 && Printed(text) == 2;
    assert TrimSpace(text) == lead && DropAnchors(lead) == "";
    assert !HasPrefix("", "address=/") && !HasPrefix("", "*.") && !HasPrefix("", ".");
    assert DropPrefixes("") == "";
    assert !IsToken("");
  }

  lemma {:induction false} CommentHasNoAnchor(line: string)
    requires IsComment(line)
    ensures !HasPrefix(line, "||")
  {
    var lead := "||";
    assert lead[0] == '|';
  }

  // ---------------------------------------------------------------- rendered lists

  /** What the parser's author can rely on of net.ParseIP: the texts it accepts. */
  ghost predicate PlausibleIPs(isIP: string -> bool) {
    forall s :: isIP(s) ==> s != "" && forall i :: 0 <= i < |s| ==> IsAddressChar(s[i])
  }

  predicate IsAddressChar(c: char) {
    '0' <= c <= '9' || 'a' <= c <= 'f' || 'A' <= c <= 'F' || c == '.' || c == ':'
  }

  /** A domain the shapes can carry: a token that starts with no dot and no wildcard label. */
  predicate Listable(d: string) {
    IsToken(d) && !HasPrefix(d, ".") && !HasPrefix(d, "*.")
  }

  datatype Shape = Bare | Hosts(ip: string, blanks: string) | Anchored | Wildcard | Dotted | Address(ipv4: string) | Located(path: string)

  /** A line of a list: white space, a comment, or a domain in some shape, indented, with more text behind it. */
  datatype Item =
    | Blank(blanks: string)
    | Comment(indent: string, mark: char, text: string)
    | Entry(indent: string, domain: string, shape: Shape, tail: string)

  predicate IsAddress(s: string, isIP: string -> bool) {
    isIP(s) || s == "0.0.0.0" || s == "::"
  }

  /** Nothing, or text that a blank sets off. */
  predicate SetOff(tail: string) {
    tail == "" || tail[0] == ' ' || tail[0] == '\t'
  }

  /** What may follow a shape; a word before more words must not itself be an address. */
  predicate GoodTail(d: string, shape: Shape, tail: string, isIP: string -> bool) {
    match shape
    case Hosts(_, _) => SetOff(tail)
    case Anchored => (SetOff(tail) && (tail != "" ==> !isIP(d))) || (tail != "" && tail[0] in "^/$")
    case _ => SetOff(tail) && (tail != "" ==> !isIP(RenderDomain(d, shape)))
  }

  predicate GoodShape(shape: Shape, isIP: string -> bool) {
    match shape
    case Hosts(ip, blanks) => IsAddress(ip, isIP) && AllBlank(blanks) && HasBlank(blanks)
    case Address(ipv4) => isIP(ipv4) && '.' in ipv4
    case Located(path) => '.' in path && forall i :: 0 <= i < |path| ==> !IsSpace(path[i])
    case _ => true
  }

  predicate GoodItem(item: Item, isIP: string -> bool) {
    match item
    case Blank(blanks) => AllBlank(blanks)
    case Comment(indent, mark, _) => AllBlank(indent) && (mark == '#' || mark == '!' || mark == '[')
    case Entry(indent, d, shape, tail) => AllBlank(indent) && Listable(d) && GoodShape(shape, isIP) && GoodTail(d, shape, tail, isIP)
  }

  function Render(item: Item): string {
    match item
    case Blank(blanks) => blanks
    case Comment(indent, mark, text) => indent + [mark] + text
    case Entry(indent, d, shape, tail) => indent + RenderDomain(d, shape) + tail
  }

  function RenderDomain(d: string, shape: Shape): string {
    match shape
    case Bare => d
    case Hosts(ip, blanks) => ip + blanks + d
    case Anchored => "||" + d
    case Wildcard => "*." + d
    case Dotted => "." + d
    case Address(ipv4) => "address=/" + d + "/" + ipv4
    case Located(path) => d + "/" + path
  }

  /** No blank and none of the characters the parser looks for. */
  predicate Plain(s: string) {
    s != "" && forall i :: 0 <= i < |s| ==> InClass(s[i])
  }

  lemma {:induction false} TokensArePlain(d: string)
    requires IsToken(d)
    ensures Plain(d) && d != "."
  {
    var body := TrimSuffix(d, ".");
    var i := AfterLastDot(body);
    forall j | 0 <= j < |d|
      ensures InClass(d[j])
    {
      if j < i {
        assert d[j] == body[..i][j];
      } else if j < |body| {
        assert d[j] == body[i..][j - i];
      }
    }
  }

  lemma {:induction false} PlainIsTrimmed(s: string)
    requires Plain(s)
    ensures TrimSpace(s) == s && ' ' !in s && '\t' !in s && !IsComment(s)
  {
    assert InClass(s[0]) && InClass(s[|s| - 1]);
    assert Trimmed(s);
  }

  lemma {:induction false} PlainIsAccepted(d: string)
    requires Plain(d) && IsToken(d)
    ensures !Refused(d)
  {
    forall i | 0 <= i <= |d|
      ensures !HasPrefix(d[i..], "@@")
    {
      if i < |d| {
        assert d[i..][..1] == [d[i]] && InClass(d[i]);
      }
    }
    hide IsToken;
  }

  lemma {:induction false} TokenParses(d: string)
    requires Listable(d)
    ensures ParseToken(d) == Domain(NormalizeName(d))
  {
    assert IsToken(d) && d != "" && d[0] != '.';
    TokensArePlain(d);
    hide Refused, IsToken, Plain;
    PlainIsAccepted(d);
    PlainIsTrimmed(d);
    assert |ToLower(d)| > 0;
  }

  lemma {:induction false} NothingToDrop(d: string)
    requires Listable(d)
    ensures DropPrefixes(d) == d
  {
    TokensArePlain(d);
    PlainIsTrimmed(d);
    hide IsToken;
    NoPath(d);
    hide DropPath;
  }

  lemma {:induction false} NotAnAddressLine(d: string)
    requires Plain(d)
    ensures !HasPrefix(d, "address=/")
  {
    var lead := "address=/";
    assert lead[7] == '=';
    assert |d| > 7 ==> InClass(d[7]);
  }

  // ---------------------------------------------------------------- one rendered line

  lemma {:induction false} LineParses(line: string, word: string, d: string, isIP: string -> bool)
    requires Trimmed(line) && !IsComment(line) && PickWord(DropAnchors(line), isIP) == Some(word)
    requires DropPrefixes(word) == d && Listable(d)
    ensures ParseLine(line, isIP) == Domain(NormalizeName(d))
  {
    hide PickWord, DropAnchors, DropPrefixes, ParseToken, IsComment;
    TokenParses(d);
  }

  predicate NoAnchor(line: string) {
    line != "" && line[0] != '|'
  }

  lemma {:induction false} NothingToCut(line: string)
    requires NoAnchor(line)
    ensures DropAnchors(line) == line
  {
    var lead := "||";
    assert lead[0] == '|';
  }

  predicate OneWord(s: string) {
    s != "" && forall i :: 0 <= i < |s| ==> !IsSpace(s[i])
  }

  lemma {:induction false} FirstWord(a: string, rest: string)
    requires OneWord(a) && (rest != "" ==> IsSpace(rest[0]))
    ensures Words(a + rest) == [a] + Words(rest)
  {
    var s := a + rest;
    assert !IsSpace(a[0]) && s[0] == a[0];
    assert Leading(s) == 0 && s[0..] == s;
    var n := WordLength(s);
    assert forall i :: 0 <= i < |a| ==> s[i] == a[i];
    assert rest != "" ==> s[|a|] == rest[0];
    assert n == |a| && s[..n] == a && s[n..] == rest;
  }

  lemma {:induction false} Associates(a: string, b: string, c: string)
    ensures a + b + c == a + (b + c)
  {
  }

  lemma {:induction false} BlankInside(a: string, blanks: string, b: string)
    requires HasBlank(blanks)
    ensures HasBlank(a + blanks + b) && blanks != ""
  {
    var i :| 0 <= i < |blanks| && (blanks[i] == ' ' || blanks[i] == '\t');
    assert (a + blanks + b)[|a| + i] == blanks[i];
  }

  lemma {:induction false} PlainIsOneWord(d: string)
    requires Plain(d)
    ensures OneWord(d)
  {
    forall i | 0 <= i < |d| ensures !IsSpace(d[i]) { assert InClass(d[i]); }
  }

  lemma {:induction false} AddressIsOneWord(ip: string, isIP: string -> bool)
    requires PlausibleIPs(isIP) && isIP(ip)
    ensures OneWord(ip) && !IsComment(ip) && ip[0] != '|' && Trimmed(ip)
  {
    forall i | 0 <= i < |ip| ensures !IsSpace(ip[i]) { assert IsAddressChar(ip[i]); }
    assert IsAddressChar(ip[0]);
  }

  lemma {:induction false} PicksOneWord(s: string, isIP: string -> bool)
    requires OneWord(s)
    ensures PickWord(s, isIP) == Some(s)
  {
    hide Words;
  }

  lemma {:induction false} OneWordsConcat(a: string, b: string)
    requires OneWord(a) && OneWord(b)
    ensures OneWord(a + b)
  {
  }

  /** A line of one word, or of several the first of which is no address: the first word is picked. */
  lemma {:induction false} PicksFirstWord(w: string, rest: string, isIP: string -> bool)
    requires OneWord(w) && SetOff(rest) && (rest != "" ==> !IsAddress(w, isIP))
    ensures PickWord(w + rest, isIP) == Some(w)
  {
    if rest == "" {
      assert w + rest == w;
      PicksOneWord(w, isIP);
    } else {
      assert (w + rest)[|w|] == rest[0];
      hide OneWord;
      FirstWord(w, rest);
      hide Words;
    }
  }

  /** Of a line that starts with an address the second word is picked, whatever follows it. */
  lemma {:induction false} PicksSecondWord(ip: string, blanks: string, w: string, rest: string, isIP: string -> bool)
    requires OneWord(ip) && OneWord(w) && IsAddress(ip, isIP) && AllBlank(blanks) && HasBlank(blanks) && SetOff(rest)
    ensures PickWord(ip + blanks + (w + rest), isIP) == Some(w)
  {
    hide Words, OneWord, AllBlank, IsSpace, HasBlank;
    BlankInside(ip, blanks, w + rest);
    BlankFirst(blanks, w + rest);
    Associates(ip, blanks, w + rest);
    FirstWord(ip, blanks + (w + rest));
    LaterWords(blanks, w, rest);
  }

  lemma {:induction false} BlankFirst(blanks: string, rest: string)
    requires AllBlank(blanks) && HasBlank(blanks)
    ensures blanks != "" && IsSpace((blanks + rest)[0])
  {
  }

  lemma {:induction false} LaterWords(blanks: string, w: string, rest: string)
    requires AllBlank(blanks) && blanks != "" && OneWord(w) && SetOff(rest)
    ensures Words(blanks + (w + rest)) == [w] + Words(rest)
  {
    var s := blanks + (w + rest);
    assert Leading(s) == |blanks| by {
      assert s[|blanks|] == w[0] && !IsSpace(w[0]) && forall i :: 0 <= i < |blanks| ==> s[i] == blanks[i];
    }
    assert s[|blanks|..] == w + rest;
    FirstWord(w, rest);
    assert Leading(w + rest) == 0 by { assert (w + rest)[0] == w[0]; }
    assert (w + rest)[0..] == w + rest;
  }

  lemma {:induction false} FirstWordParses(w: string, rest: string, d: string, isIP: string -> bool)
    requires OneWord(w) && NoAnchor(w) && !IsComment(w) && SetOff(rest) && (rest != "" ==> !IsAddress(w, isIP))
    requires Trimmed(w + rest) && DropPrefixes(w) == d && Listable(d)
    ensures ParseLine(w + rest, isIP) == Domain(NormalizeName(d))
  {
    var line := w + rest;
    assert line[0] == w[0];
    assert NoAnchor(line) && !IsComment(line);
    hide *;
    NothingToCut(line);
    PicksFirstWord(w, rest, isIP);
    LineParses(line, w, d, isIP);
  }

  lemma {:induction false} TokenIsNoAddress(d: string, w: string)
    requires IsToken(d) && |w| >= |d| && w[|w| - |d|..] == d
    ensures w != "0.0.0.0" && w != "::"
  {
    LastOfToken(d);
    assert w[|w| - 1] == d[|d| - 1];
    hide IsToken;
    var zero, colons := "0.0.0.0", "::";
    assert zero[6] == '0' && colons[1] == ':';
  }

  lemma {:induction false} LastOfToken(d: string)
    requires IsToken(d)
    ensures d != "" && (IsLetter(d[|d| - 1]) || d[|d| - 1] == '.')
  {
    var body := TrimSuffix(d, ".");
    var i := AfterLastDot(body);
    assert body[i..][|body| - i - 1] == body[|body| - 1];
  }

  lemma {:induction false} PlainHasNoAnchor(d: string)
    requires Plain(d)
    ensures NoAnchor(d)
  {
    assert InClass(d[0]);
  }

  lemma {:induction false} BareFacts(d: string, isIP: string -> bool)
    requires Listable(d)
    ensures OneWord(d) && NoAnchor(d) && !IsComment(d) && DropPrefixes(d) == d
    ensures !isIP(d) ==> !IsAddress(d, isIP)
  {
    hide DropPrefixes, OneWord, IsToken, Plain, NoAnchor, IsComment, TrimSpace;
    TokensArePlain(d);
    PlainIsTrimmed(d);
    PlainIsOneWord(d);
    PlainHasNoAnchor(d);
    TokenIsNoAddress(d, d);
    NothingToDrop(d);
  }

  lemma {:induction false} BareParses(d: string, rest: string, isIP: string -> bool)
    requires Listable(d) && SetOff(rest) && (rest != "" ==> !isIP(d)) && Trimmed(d + rest)
    ensures ParseLine(d + rest, isIP) == Domain(NormalizeName(d))
  {
    hide *;
    BareFacts(d, isIP);
    FirstWordParses(d, rest, d, isIP);
  }

  lemma {:induction false} HostsParses(ip: string, blanks: string, d: string, rest: string, isIP: string -> bool)
    requires PlausibleIPs(isIP) && IsAddress(ip, isIP) && Listable(d) && AllBlank(blanks) && HasBlank(blanks) && SetOff(rest)
    requires Trimmed(ip + blanks + (d + rest))
    ensures ParseLine(ip + blanks + (d + rest), isIP) == Domain(NormalizeName(d))
  {
    var line := ip + blanks + (d + rest);
    assert IsToken(d);
    TokensArePlain(d);
    NothingToDrop(d);
    PlainIsOneWord(d);
    AddressWord(ip, isIP);
    assert line[0] == ip[0];
    assert NoAnchor(line) && !IsComment(line);
    hide *;
    NothingToCut(line);
    PicksSecondWord(ip, blanks, d, rest, isIP);
    LineParses(line, d, d, isIP);
  }

  lemma {:induction false} AddressWord(ip: string, isIP: string -> bool)
    requires PlausibleIPs(isIP) && IsAddress(ip, isIP)
    ensures OneWord(ip) && !IsComment(ip) && ip[0] != '|' && Trimmed(ip)
  {
    if isIP(ip) {
      AddressIsOneWord(ip, isIP);
    }
  }

  /** What the parser keeps of a text behind an anchored domain. */
  function BeforeSeparator(rest: string): string {
    rest[..IndexAny(rest, "^/$")]
  }

  lemma {:induction false} AnchorsAreCut(lead: string, d: string, rest: string)
    requires Plain(d) && lead == "||"
    ensures DropAnchors(lead + d + rest) == d + BeforeSeparator(rest)
  {
    var line, after, cut := lead + d + rest, d + rest, IndexAny(rest, "^/$");
    assert line == lead + after && line[2..] == after;
    forall i | 0 <= i < |d| ensures d[i] !in "^/$" { assert InClass(d[i]); }
    var n := IndexAny(after, "^/$");
    assert forall i :: 0 <= i < |d| ==> after[i] == d[i];
    assert forall i :: 0 <= i < |rest| ==> after[|d| + i] == rest[i];
    assert n == |d| + cut;
    assert after[..n] == d + rest[..cut];
  }

  lemma {:induction false} AnchoredParses(lead: string, d: string, rest: string, isIP: string -> bool)
    requires Listable(d) && lead == "||" && Trimmed(lead + d + rest)
    requires (SetOff(rest) && (rest != "" ==> !isIP(d))) || (rest != "" && rest[0] in "^/$")
    ensures ParseLine(lead + d + rest, isIP) == Domain(NormalizeName(d))
  {
    var line := lead + d + rest;
    assert line[0] == lead[0] && !IsComment(line);
    assert IsToken(d);
    TokensArePlain(d);
    PlainIsOneWord(d);
    TokenIsNoAddress(d, d);
    var cut := BeforeSeparator(rest);
    assert SetOff(cut) && (cut != "" ==> SetOff(rest) && rest != "");
    NothingToDrop(d);
    AnchorsAreCut(lead, d, rest);
    assert cut != "" ==> !IsAddress(d, isIP);
    hide *;
    PicksFirstWord(d, cut, isIP);
    LineParses(line, d, d, isIP);
  }

  lemma {:induction false} NoPath(line: string)
    requires Plain(line)
    ensures DropPath(TrimPrefix(line, "address=/")) == line
  {
    NotAnAddressLine(line);
    forall i | 0 <= i < |line| ensures line[i] !in "/" { assert InClass(line[i]); }
  }

  lemma {:induction false} MarkIsDropped(mark: string, d: string)
    requires Plain(mark + d) && Plain(d) && (mark == "*." || mark == ".") && !HasPrefix(d, ".")
    ensures DropPrefixes(mark + d) == d
  {
    var line := mark + d;
    NoPath(line);
    PlainIsTrimmed(d);
    assert line[|mark|..] == d;
    assert mark == "." ==> line[0] == '.' && !HasPrefix(line, "*.");
    hide DropPath;
  }

  /** A mark before the domain that DropPrefixes takes off. */
  lemma {:induction false} MarkedParses(mark: string, d: string, rest: string, isIP: string -> bool)
    requires Listable(d) && (mark == "*." || mark == ".") && SetOff(rest) && (rest != "" ==> !isIP(mark + d)) && Trimmed(mark + d + rest)
    ensures ParseLine(mark + d + rest, isIP) == Domain(NormalizeName(d))
  {
    var w := mark + d;
    assert IsToken(d);
    TokensArePlain(d);
    TokenIsNoAddress(d, w);
    assert forall i :: 0 <= i < |w| ==> InClass(w[i]);
    PlainIsTrimmed(w);
    PlainIsOneWord(w);
    MarkIsDropped(mark, d);
    assert InClass(w[0]);
    hide IsToken, DropPrefixes, Listable, Plain, ParseLine, PickWord, OneWord;
    FirstWordParses(w, rest, d, isIP);
  }

  lemma {:induction false} PathIsDropped(d: string, path: string)
    requires Plain(d) && '.' in path
    ensures DropPath(d + "/" + path) == d
  {
    assert forall i :: 0 <= i < |d| ==> InClass(d[i]) && d[i] !in "/";
    IndexAt(d, '/', path, "/");
    assert (d + ['/'] + path)[|d| + 1..] == path && (d + ['/'] + path)[..|d|] == d;
    assert d + ['/'] + path == d + "/" + path;
  }

  lemma {:induction false} PrefixedPathIsDropped(lead: string, d: string, path: string)
    requires Listable(d) && '.' in path && lead == "address=/"
    ensures DropPrefixes(lead + d + "/" + path) == d
  {
    var line, rest := lead + d + "/" + path, d + "/" + path;
    TokensArePlain(d);
    assert line == lead + rest;
    assert TrimPrefix(line, lead) == rest;
    PathIsDropped(d, path);
    NothingToDropAgain(d);
    hide DropPath, Listable;
  }

  lemma {:induction false} NothingToDropAgain(d: string)
    requires Listable(d)
    ensures TrimSpace(TrimPrefix(TrimPrefix(d, "*."), ".")) == d
  {
    TokensArePlain(d);
    PlainIsTrimmed(d);
  }

  lemma {:induction false} AddressParses(lead: string, d: string, slash: string, ipv4: string, rest: string,
                                         isIP: string -> bool)
    requires PlausibleIPs(isIP) && isIP(ipv4) && '.' in ipv4 && Listable(d) && lead == "address=/" && slash == "/"
    requires SetOff(rest) && (rest != "" ==> !isIP(lead + d + slash + ipv4)) && Trimmed(lead + d + slash + ipv4 + rest)
    ensures ParseLine(lead + d + slash + ipv4 + rest, isIP) == Domain(NormalizeName(d))
  {
    var w := lead + d + slash + ipv4;
    assert OneWord(lead) && OneWord(slash) && !IsComment(lead) && lead[0] != '|';
    assert w[0] == lead[0] && lead[0] == 'a';
    assert NoAnchor(w) && !IsComment(w);
    StartsOtherwise(w);
    assert IsToken(d);
    AddressIsOneWord(ipv4, isIP);
    assert rest != "" ==> !IsAddress(w, isIP);
    hide *;
    TokensArePlain(d);
    PlainIsOneWord(d);
    OneWordsConcat(lead, d);
    OneWordsConcat(lead + d, slash);
    OneWordsConcat(lead + d + slash, ipv4);
    PrefixedPathIsDropped(lead, d, ipv4);
    FirstWordParses(w, rest, d, isIP);
  }

  lemma {:induction false} StartsOtherwise(w: string)
    requires w != "" && w[0] == 'a'
    ensures w != "0.0.0.0" && w != "::"
  {
    var zero, colons := "0.0.0.0", "::";
    assert zero[0] == '0' && colons[0] == ':';
  }

  lemma {:induction false} LocatedIsNoAddressLine(d: string, slash: string, path: string)
    requires Plain(d) && slash == "/"
    ensures !HasPrefix(d + slash + path, "address=/")
  {
    var lead, w := "address=/", d + slash + path;
    assert lead[7] == '=' && forall i :: 0 <= i < 8 ==> lead[i] != '/';
    assert w[|d|] == '/';
    if |d| >= 8 {
      assert w[7] == d[7] && InClass(d[7]);
    } else {
      assert lead[|d|] != w[|d|];
    }
  }

  lemma {:induction false} LocatedIsDropped(d: string, slash: string, path: string)
    requires Listable(d) && slash == "/" && '.' in path
    ensures DropPrefixes(d + slash + path) == d
  {
    TokensArePlain(d);
    LocatedIsNoAddressLine(d, slash, path);
    PathIsDropped(d, path);
    NothingToDropAgain(d);
    hide DropPath, Listable;
  }

  lemma {:induction false} SlashIsNoAddress(d: string, slash: string, path: string)
    requires slash == "/"
    ensures d + slash + path != "0.0.0.0" && d + slash + path != "::"
  {
    var w, zero, colons := d + slash + path, "0.0.0.0", "::";
    assert w[|d|] == '/';
    assert forall i :: 0 <= i < 7 ==> zero[i] != '/';
    assert forall i :: 0 <= i < 2 ==> colons[i] != '/';
  }

  /** A domain with a path behind it that holds a dot: the path is dropped. */
  lemma {:induction false} LocatedParses(d: string, slash: string, path: string, rest: string, isIP: string -> bool)
    requires Listable(d) && slash == "/" && '.' in path && (forall i :: 0 <= i < |path| ==> !IsSpace(path[i]))
    requires SetOff(rest) && (rest != "" ==> !isIP(d + slash + path)) && Trimmed(d + slash + path + rest)
    ensures ParseLine(d + slash + path + rest, isIP) == Domain(NormalizeName(d))
  {
    var w := d + slash + path;
    assert IsToken(d) && OneWord(path) && OneWord(slash);
    TokensArePlain(d);
    PlainIsTrimmed(d);
    assert InClass(d[0]) && w[0] == d[0];
    assert NoAnchor(w) && !IsComment(w);
    SlashIsNoAddress(d, slash, path);
    assert rest != "" ==> !IsAddress(w, isIP);
    hide *;
    PlainIsOneWord(d);
    OneWordsConcat(d, slash);
    OneWordsConcat(d + slash, path);
    LocatedIsDropped(d, slash, path);
    FirstWordParses(w, rest, d, isIP);
  }

  lemma {:induction false} PathIsKept(d: string, path: string)
    requires Plain(d) && '.' !in path
    ensures DropPath(d + "/" + path) == d + "/" + path
  {
    assert forall i :: 0 <= i < |d| ==> InClass(d[i]) && d[i] !in "/";
    IndexAt(d, '/', path, "/");
    assert (d + ['/'] + path)[|d| + 1..] == path;
    assert d + ['/'] + path == d + "/" + path;
  }

  lemma {:induction false} NoMarkBeforePath(d: string, w: string)
    requires IsToken(d) && !HasPrefix(d, ".") && !HasPrefix(d, "*.") && |w| >= |d| && w[..|d|] == d
    ensures TrimPrefix(TrimPrefix(w, "*."), ".") == w
  {
    var body := TrimSuffix(d, ".");
    assert |d| >= |body| >= 2;
    assert d[0] == w[0] && d[1] == w[1];
    assert w[..2] == d[..2] && w[..1] == d[..1];
  }

  lemma {:induction false} SlashIsRefused(w: string, i: nat)
    requires i < |w| && w[i] == '/'
    ensures ParseToken(w) == Skip
  {
    hide IsToken, Contains, NormalizeName;
    assert w[i] in "/:";
  }

  lemma {:induction false} SameStart(d: string, rest: string)
    requires d != ""
    ensures NoAnchor(d + rest) == NoAnchor(d) && IsComment(d + rest) == IsComment(d)
  {
  }

  lemma {:induction false} OneWordGrows(w: string, rest: string)
    requires OneWord(w) && forall i :: 0 <= i < |rest| ==> !IsSpace(rest[i])
    ensures OneWord(w + rest) && Trimmed(w + rest)
  {
    hide IsSpace;
  }

  lemma {:induction false} PathedWord(d: string, rest: string, isIP: string -> bool)
    requires Listable(d) && forall i :: 0 <= i < |rest| ==> !IsSpace(rest[i])
    ensures var w := d + rest; OneWord(w) && NoAnchor(w) && !IsComment(w) && Trimmed(w)
  {
    hide *;
    BareFacts(d, isIP);
    OneWordEnds(d);
    SameStart(d, rest);
    OneWordGrows(d, rest);
  }

  lemma {:induction false} NoBlankInPath(slash: string, path: string)
    requires slash == "/" && forall i :: 0 <= i < |path| ==> !IsSpace(path[i])
    ensures forall i :: 0 <= i < |slash + path| ==> !IsSpace((slash + path)[i])
  {
    assert !IsSpace(slash[0]);
    hide IsSpace;
  }

  lemma {:induction false} PathedIsKept(d: string, slash: string, path: string)
    requires Listable(d) && slash == "/" && '.' !in path && Trimmed(d + slash + path)
    ensures DropPrefixes(d + slash + path) == d + slash + path
  {
    var w := d + slash + path;
    TokensArePlain(d);
    hide IsToken, Plain, DropPath, Trimmed;
    PathIsKept(d, path);
    LocatedIsNoAddressLine(d, slash, path);
    NoMarkBeforePath(d, w);
    assert TrimSpace(w) == w;
  }

  lemma {:induction false} LineOfWord(w: string, isIP: string -> bool)
    requires OneWord(w) && NoAnchor(w) && !IsComment(w) && Trimmed(w)
    ensures ParseLine(w, isIP) == ParseToken(DropPrefixes(w))
  {
    hide OneWord, NoAnchor, IsComment, Trimmed, DropAnchors, PickWord, DropPrefixes, ParseToken;
    NothingToCut(w);
    PicksOneWord(w, isIP);
  }

  /** A path without a dot is not cut, and such a line adds nothing. */
  lemma {:induction false} PathWithoutDotAddsNothing(d: string, slash: string, path: string, isIP: string -> bool)
    requires Listable(d) && slash == "/" && '.' !in path && forall i :: 0 <= i < |path| ==> !IsSpace(path[i])
    ensures ParseLine(d + slash + path, isIP) == Skip
  {
    hide *;
    var w := d + slash + path;
    assert w[|d|] == '/' && w == d + (slash + path);
    NoBlankInPath(slash, path);
    PathedWord(d, slash + path, isIP);
    PathedIsKept(d, slash, path);
    LineOfWord(w, isIP);
    SlashIsRefused(w, |d|);
  }

  /** The text starts and ends with a printable character. */
  predicate PrintedEnds(w: string) {
    w != "" && !IsSpace(w[0]) && !IsSpace(w[|w| - 1])
  }

  lemma {:induction false} EndsOfConcat(a: string, b: string)
    requires a != "" && !IsSpace(a[0]) && b != "" && !IsSpace(b[|b| - 1])
    ensures PrintedEnds(a + b) && (a + b)[0] == a[0]
  {
  }

  lemma {:induction false} PlainEnds(d: string)
    requires Plain(d)
    ensures PrintedEnds(d)
  {
    assert InClass(d[0]) && InClass(d[|d| - 1]);
  }

  lemma {:induction false} OneWordEnds(w: string)
    requires OneWord(w)
    ensures PrintedEnds(w) && w != ""
  {
  }

  lemma {:induction false} RenderedIsPrinted(d: string, shape: Shape, isIP: string -> bool)
    requires PlausibleIPs(isIP) && Listable(d) && GoodShape(shape, isIP)
    ensures PrintedEnds(RenderDomain(d, shape))
  {
    TokensArePlain(d);
    PlainEnds(d);
    hide IsToken, Plain, IsSpace, PlausibleIPs, IsAddress, AllBlank, HasBlank;
    match shape {
      case Hosts(ip, blanks) =>
        AddressWord(ip, isIP);
        OneWordEnds(ip);
        hide OneWord, IsComment, Trimmed;
        assert (ip + blanks)[0] == ip[0];
        EndsOfConcat(ip + blanks, d);
      case Address(ipv4) =>
        AddressIsOneWord(ipv4, isIP);
        OneWordEnds(ipv4);
        hide OneWord;
        MarkIsPrinted('a');
        EndsOfConcat("address=/" + d + "/", ipv4);
      case Located(path) => EndsOfConcat(d + "/", path);
      case Bare =>
      case Anchored =>
        MarkIsPrinted('|');
        EndsOfConcat("||", d);
      case Wildcard =>
        MarkIsPrinted('*');
        EndsOfConcat("*.", d);
      case Dotted =>
        MarkIsPrinted('.');
        EndsOfConcat(".", d);
    }
  }

  lemma {:induction false} MarkIsPrinted(c: char)
    requires c == 'a' || c == '|' || c == '*' || c == '.'
    ensures !IsSpace(c)
  {
  }

  /** The line without the white space at its end. */
  lemma {:induction false} ShapeParses(d: string, shape: Shape, rest: string, isIP: string -> bool)
    requires PlausibleIPs(isIP) && Listable(d) && GoodShape(shape, isIP) && GoodTail(d, shape, rest, isIP)
    requires Trimmed(RenderDomain(d, shape) + rest)
    ensures ParseLine(RenderDomain(d, shape) + rest, isIP) == Domain(NormalizeName(d))
  {
    hide ParseLine, Listable, NormalizeName, Trimmed;
    match shape {
      case Bare => BareParses(d, rest, isIP);
      case Hosts(ip, blanks) =>
        Associates(ip + blanks, d, rest);
        HostsParses(ip, blanks, d, rest, isIP);
      case Anchored => AnchoredParses("||", d, rest, isIP);
      case Wildcard => MarkedParses("*.", d, rest, isIP);
      case Dotted => MarkedParses(".", d, rest, isIP);
      case Address(ipv4) => AddressParses("address=/", d, "/", ipv4, rest, isIP);
      case Located(path) => LocatedParses(d, "/", path, rest, isIP);
    }
  }

  lemma {:induction false} TrimmedTail(w: string, tail: string) returns (rest: string, after: string)
    requires w != "" && !IsSpace(w[0]) && !IsSpace(w[|w| - 1])
    ensures tail == rest + after && AllBlank(after) && Trimmed(w + rest) && (rest != "" ==> rest[0] == tail[0])
  {
    rest, after := tail[..Printed(tail)], tail[Printed(tail)..];
    var line := w + rest;
    assert line[0] == w[0] && line[|line| - 1] == if rest == "" then w[|w| - 1] else rest[|rest| - 1];
  }

  lemma {:induction false} TailShrinks(d: string, shape: Shape, tail: string, rest: string, isIP: string -> bool)
    requires GoodTail(d, shape, tail, isIP) && (rest != "" ==> tail != "" && rest[0] == tail[0])
    ensures GoodTail(d, shape, rest, isIP)
  {
    hide RenderDomain;
  }

  lemma {:induction false} ParsedAsTrimmed(text: string, line: string, isIP: string -> bool)
    requires TrimSpace(text) == line
    ensures ParseLine(text, isIP) == ParseLine(line, isIP)
  {
    hide IsComment, PickWord, DropAnchors, ParseToken, DropPrefixes;
  }

  /** A domain in any of the seven shapes, indented, and with text behind it, adds just that domain. */
  lemma {:induction false} EntryParses(indent: string, d: string, shape: Shape, tail: string, isIP: string -> bool)
    requires PlausibleIPs(isIP) && GoodItem(Entry(indent, d, shape, tail), isIP)
    ensures ParseLine(indent + RenderDomain(d, shape) + tail, isIP) == Domain(NormalizeName(d))
  {
    var w := RenderDomain(d, shape);
    hide RenderDomain, Listable, GoodShape, GoodTail, PlausibleIPs, ParseLine, Trimmed, AllBlank, TrimSpace;
    RenderedIsPrinted(d, shape, isIP);
    var rest, after := TrimmedTail(w, tail);
    TailShrinks(d, shape, tail, rest, isIP);
    assert indent + w + tail == indent + (w + rest) + after;
    TrimSpaceIs(indent, w + rest, after);
    ShapeParses(d, shape, rest, isIP);
    ParsedAsTrimmed(indent + w + tail, w + rest, isIP);
  }

  lemma {:induction false} CommentsAreSkipped(item: Item, isIP: string -> bool)
    requires GoodItem(item, isIP) && !item.Entry?
    ensures ParseLine(Render(item), isIP) == Skip
  {
    var text := Render(item);
    if item.Blank? {
      assert Leading(text) == |text|;
    } else {
      var n := |item.indent|;
      assert text[n] == item.mark && forall i :: 0 <= i < n ==> text[i] == item.indent[i];
      assert Leading(text) == n < Printed(text);
    }
    assert IsComment(TrimSpace(text));
    hide PickWord, DropAnchors, ParseToken, DropPrefixes;
  }

  /** The domains a list of items names. */
  ghost function Named(items: seq<Item>): set<string> {
    set i | 0 <= i < |items| && items[i].Entry? :: NormalizeName(items[i].domain)
  }

  lemma {:induction false} ItemParses(item: Item, isIP: string -> bool)
    requires PlausibleIPs(isIP) && GoodItem(item, isIP)
    ensures ParseLine(Render(item), isIP) == if item.Entry? then Domain(NormalizeName(item.domain)) else Skip
  {
    hide ParseLine, NormalizeName, RenderDomain;
    if item.Entry? {
      EntryParses(item.indent, item.domain, item.shape, item.tail, isIP);
    } else {
      CommentsAreSkipped(item, isIP);
    }
  }

  lemma {:induction false} LastBlankIsDropped(t: string, blank: char)
    requires IsSpace(blank)
    ensures TrimSpace(t + [blank]) == TrimSpace(t)
  {
    var s := t + [blank];
    assert s[..|s| - 1] == t && Printed(s) == Printed(t);
    assert forall i :: 0 <= i < |t| ==> t[i] == s[i];
    assert Leading(s) == |s| <==> Leading(t) == |t|;
    assert Leading(s) < |s| ==> Leading(s) == Leading(t);
  }

  lemma {:induction false} ReturnIsDropped(s: string, mark: string)
    requires mark == "\r"
    ensures TrimSpace(TrimSuffix(s, mark)) == TrimSpace(s)
  {
    hide TrimSpace;
    if HasSuffix(s, mark) {
      var t := s[..|s| - 1];
      assert s == t + [mark[0]];
      LastBlankIsDropped(t, mark[0]);
    }
  }

  lemma {:induction false} ScannedParses(line: string, isIP: string -> bool)
    ensures ParseScanned(line, isIP) == ParseLine(line, isIP)
  {
    hide IsComment, PickWord, DropAnchors, ParseToken, DropPrefixes, TrimSpace, TrimSuffix;
    ReturnIsDropped(line, "\r");
  }

  /** The text of a list: every line and its line break. */
  function Body(lines: seq<string>): string {
    if lines == [] then "" else lines[0] + ['\n'] + Body(lines[1..])
  }

  lemma {:induction false} FirstLine(line: string, rest: string, lineBreak: char, breaks: string)
    requires lineBreak == '\n' && breaks == "\n" && lineBreak !in line
    ensures Lines(line + [lineBreak] + rest) == [line] + Lines(rest)
  {
    var body := line + [lineBreak] + rest;
    assert lineBreak in breaks && forall i :: 0 <= i < |line| ==> line[i] !in breaks;
    hide IndexAny, Lines;
    IndexAt(line, lineBreak, rest, breaks);
    NextLine(body);
    assert body[..|line|] == line && body[|line| + 1..] == rest;
  }

  lemma {:induction false} LinesOfBody(lines: seq<string>)
    requires forall i :: 0 <= i < |lines| ==> '\n' !in lines[i]
    ensures Lines(Body(lines)) == lines
  {
    hide Lines, IndexAny;
    if lines == [] {
      NoLines();
    } else {
      LinesOfBody(lines[1..]);
      FirstLine(lines[0], Body(lines[1..]), '\n', "\n");
    }
  }

  /**
   * Parsing undoes rendering: domains in any of the seven shapes, mixed with comments and blank lines, come back exactly
   * from the text of the list.
   */
  lemma {:induction false} ParsingUndoesRendering(items: seq<Item>, lines: seq<string>, isIP: string -> bool)
    requires PlausibleIPs(isIP) && forall i :: 0 <= i < |items| ==> GoodItem(items[i], isIP)
    requires |lines| == |items| && forall i :: 0 <= i < |items| ==> lines[i] == Render(items[i])
    requires forall i :: 0 <= i < |lines| ==> '\n' !in lines[i] && !TooLong(lines[i])
    ensures ParseAll(Lines(Body(lines)), true, isIP) == Domains(Named(items))
  {
    hide ParseLine, ParseScanned, Render, NormalizeName, GoodItem, TooLong, Lines, Body, ParseAll;
    LinesOfBody(lines);
    forall i | 0 <= i < |items|
      ensures Fine(lines[i], isIP)
      ensures ParseScanned(lines[i], isIP) == if items[i].Entry? then Domain(NormalizeName(items[i].domain)) else Skip
    {
      ItemParses(items[i], isIP);
      ScannedParses(lines[i], isIP);
    }
    AllFine(lines, true, isIP);
    assert Added(lines, isIP) == Named(items);
  }

  // ---------------------------------------------------------------- exception lines

  predicate IsException(s: string) {
    |s| >= 2 && s[0] == '@' && s[1] == '@'
  }

  lemma {:induction false} ExceptionIsRefused(token: string)
    requires IsException(token)
    ensures ParseToken(token) == Skip
  {
    assert HasPrefix(token[0..], "@@");
    assert Contains(token, "@@");
  }

  lemma {:induction false} PathKeepsException(word: string)
    requires IsException(word)
    ensures IsException(DropPath(word))
  {
    var i := IndexAny(word, "/");
    assert i < |word| ==> word[i] == '/';
  }

  lemma {:induction false} ExceptionHasNoPrefix(word: string)
    requires IsException(word)
    ensures !HasPrefix(word, "address=/") && !HasPrefix(word, "*.") && !HasPrefix(word, ".")
    ensures TrimSpace(word) != "" && IsException(TrimSpace(word))
  {
    var lead, star := "address=/", "*.";
    assert lead[0] == 'a' && star[0] == '*';
    assert Leading(word) == 0 && Printed(word) >= 2;
  }

  lemma {:induction false} ExceptionStays(word: string)
    requires IsException(word)
    ensures IsException(DropPrefixes(word))
  {
    hide TrimSpace, DropPath, HasPrefix, IsException;
    ExceptionHasNoPrefix(word);
    PathKeepsException(word);
    ExceptionHasNoPrefix(DropPath(word));
  }

  lemma {:induction false} ExceptionWord(line: string, isIP: string -> bool)
    requires PlausibleIPs(isIP) && IsException(line)
    ensures PickWord(line, isIP).Some? && IsException(PickWord(line, isIP).value)
  {
    assert Leading(line) == 0 && line[0..] == line;
    var n := WordLength(line);
    assert n >= 2;
    var w := line[..n];
    assert Words(line) == [w] + Words(line[n..]);
    assert isIP(w) ==> IsAddressChar(w[0]);
    assert w[0] == '@' && "0.0.0.0"[0] == '0' && "::"[0] == ':';
  }

  /** A line that starts with "@@" adds nothing. */
  lemma {:induction false} ExceptionsAddNothing(text: string, isIP: string -> bool)
    requires PlausibleIPs(isIP) && IsException(TrimSpace(text))
    ensures ParseLine(text, isIP) == Skip
  {
    var line := TrimSpace(text);
    NothingToCut(line);
    ExceptionWord(line, isIP);
    hide PickWord, DropAnchors, ParseToken, DropPrefixes;
    var word := PickWord(line, isIP).value;
    ExceptionStays(word);
    ExceptionIsRefused(DropPrefixes(word));
  }
}
