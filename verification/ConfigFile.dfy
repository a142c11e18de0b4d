/**
 The configuration file: what `saveConfig` writes (src/confighttp.cpp) and what `parse_config`
 makes of any text (src/config.cpp `to_string`, `skip_list`, `parse_option`, `parse_config`).
 */
module ConfigFiles {
  import opened Wrappers

  // ----- Searches -----

  predicate IsEnd(c: char) {
    c == '\r' || c == '\n'
  }

  predicate IsBlank(c: char) {
    c == ' ' || c == '\t'
  }

  predicate IsSpace(c: char) {
    IsBlank(c) || IsEnd(c)
  }

  function Find(s: string, c: char): (i: nat)
    ensures i <= |s| && (forall j :: 0 <= j < i ==> s[j] != c) && (i < |s| ==> s[i] == c)
  {
    if s == "" || s[0] == c then 0 else 1 + Find(s[1..], c)
  }

  function FindEnd(s: string): (i: nat)
    ensures i <= |s| && (forall j :: 0 <= j < i ==> !IsEnd(s[j])) && (i < |s| ==> IsEnd(s[i]))
  {
    if s == "" || IsEnd(s[0]) then 0 else 1 + FindEnd(s[1..])
  }

  function SkipSpace(s: string): (i: nat)
    ensures i <= |s| && (forall j :: 0 <= j < i ==> IsSpace(s[j])) && (i < |s| ==> !IsSpace(s[i]))
  {
    if s == "" || !IsSpace(s[0]) then 0 else 1 + SkipSpace(s[1..])
  }

  function SkipBlank(s: string): (i: nat)
    ensures i <= |s| && (forall j :: 0 <= j < i ==> IsBlank(s[j])) && (i < |s| ==> !IsBlank(s[i]))
  {
    if s == "" || !IsBlank(s[0]) then 0 else 1 + SkipBlank(s[1..])
  }

  /** The length without the white space at the end. */
  function TrimSpace(s: string): (n: nat)
    ensures n <= |s| && (forall j :: n <= j < |s| ==> IsSpace(s[j])) && (n > 0 ==> !IsSpace(s[n - 1]))
  {
    if s == "" || !IsSpace(s[|s| - 1]) then |s| else TrimSpace(s[..|s| - 1])
  }

  function TrimBlank(s: string): (n: nat)
    ensures n <= |s| && (forall j :: n <= j < |s| ==> IsBlank(s[j])) && (n > 0 ==> !IsBlank(s[n - 1]))
  {
    if s == "" || !IsBlank(s[|s| - 1]) then |s| else TrimBlank(s[..|s| - 1])
  }

  // ----- Comments and lists -----

  /** The end of the line that the first comment is on. */
  function CommentEnd(s: string): (end: nat)
    requires s != ""
    ensures Find(s, '#') <= end <= |s| && end > 0
  {
    var comment := Find(s, '#');
    assert comment < |s| ==> s[comment..][0] == '#';
    comment + FindEnd(s[comment..])
  }

  /** A text without its comments; line ends are kept. */
  function Uncommented(s: string): (r: string)
    ensures forall j :: 0 <= j < |r| ==> r[j] != '#'
    ensures (forall j :: 0 <= j < |s| ==> s[j] != '#') ==> r == s
    decreases |s|
  {
    if s == "" then ""
    else
      s[..Find(s, '#')] + Uncommented(s[CommentEnd(s)..])
  }

  function Nest(stack: nat, c: char): nat
    requires stack > 0
  {
    if c == '[' then stack + 1 else if c == ']' then stack - 1 else stack
  }

  /** How far a list reaches: past the bracket that closes the `stack` open ones, or to the end. */
  function SkipList(s: string, stack: nat): (n: nat)
    ensures n <= |s|
  {
    if s == "" || stack == 0 then 0 else 1 + SkipList(s[1..], Nest(stack, s[0]))
  }

  /** The last character closes the last open bracket, and none before does. */
  predicate ClosesAtEnd(s: string, stack: nat) {
    if s == "" then stack == 0 else stack > 0 && ClosesAtEnd(s[1..], Nest(stack, s[0]))
  }

  lemma {:induction false} SkipsExactlyIff(s: string, stack: nat, t: string)
    requires t != ""
    ensures SkipList(s + t, stack) == |s| <==> ClosesAtEnd(s, stack)
  {
    if s == "" {
      assert s + t == t;
    } else if stack > 0 {
      assert (s + t)[1..] == s[1..] + t;
      SkipsExactlyIff(s[1..], Nest(stack, s[0]), t);
    }
  }

  lemma UncommentedStep(result: string, t: string)
    requires t != ""
    ensures result + Uncommented(t) == (result + t[..Find(t, '#')]) + Uncommented(t[CommentEnd(t)..])
  {
    hide Find, CommentEnd;
    Regroup(result, t[..Find(t, '#')], Uncommented(t[CommentEnd(t)..]));
  }

  lemma Regroup(a: string, b: string, c: string)
    ensures a + (b + c) == (a + b) + c
  {
  }

  method ToString(s: string) returns (result: string)
    ensures result == Uncommented(s)
  {
    hide Uncommented, Find, FindEnd;
    result := "";
    var pos := 0;
    ghost var left := s;
    while pos != |s|
      invariant 0 <= pos <= |s| && left == s[pos..]
      invariant Uncommented(s) == result + Uncommented(left)
      decreases |s| - pos
    {
      UncommentedStep(result, left);
      var comment := pos + Find(s[pos..], '#');
      var end := comment + FindEnd(s[comment..]);
      assert s[comment..] == left[comment - pos..];
      assert s[pos..comment] == left[..comment - pos];
      result := result + s[pos..comment];
      left := left[end - pos..];
      pos := end;
    }
    NoText();
  }

  lemma NoText()
    ensures Uncommented("") == ""
  {
  }

  method SkipListFrom(s: string, begin: nat) returns (skipper: nat)
    requires begin <= |s|
    ensures skipper == begin + SkipList(s[begin..], 1)
  {
    var stack: nat := 1;
    skipper := begin;
    while skipper != |s| && stack != 0
      invariant begin <= skipper <= |s|
      invariant begin + SkipList(s[begin..], 1) == skipper + SkipList(s[skipper..], stack)
      decreases |s| - skipper
    {
      assert s[skipper..][1..] == s[skipper + 1..];
      if s[skipper] == '[' {
        stack := stack + 1;
      }
      if s[skipper] == ']' {
        stack := stack - 1;
      }
      skipper := skipper + 1;
    }
  }

  // ----- One option -----

  /** The positions `parse_option` finds on the first line that is not white space. */
  datatype Marks = Marks(begin: nat, line: nat, body: string, eq: nat)

  lemma Within(s: string, begin: nat, line: nat, n: nat)
    requires begin <= line <= |s| && n <= line - begin
    ensures s[begin..line][..n] == s[begin..begin + n]
  {
  }

  function MarksOf(s: string): (m: Marks)
    ensures m.begin <= m.line <= |s| && m.begin + |m.body| <= m.line && m.eq <= |m.body|
    ensures m.body == s[m.begin..m.begin + |m.body|]
  {
    var begin := SkipSpace(s);
    var line := begin + FindEnd(s[begin..]);
    var text := s[begin..line];
    var n := TrimSpace(text[..Find(text, '#')]);
    Within(s, begin, line, n);
    var body := text[..n];
    Marks(begin, line, body, Find(body, '='))
  }

  function ValueStart(m: Marks): nat
    requires m.eq < |m.body|
  {
    m.begin + m.eq + 1 + SkipBlank(m.body[m.eq + 1..])
  }

  /** Where the text after the option goes on, and the option, if the line holds one. */
  function ParseOption(s: string): (r: (nat, Option<(string, string)>))
    ensures r.0 <= |s|
  {
    var m := MarksOf(s);
    if m.eq == |m.body| || m.eq == 0 then (m.line, None)
    else
      var name := m.body[..TrimBlank(m.body[..m.eq])];
      var value := ValueStart(m);
      if value == m.line then (m.line, None)
      else if s[value] != '[' then (m.line, Some((Uncommented(name), Uncommented(s[value..m.line]))))
      else
        var next := value + 1 + SkipList(s[value + 1..], 1);
        if next == |s| && |s| == value + 1 then (next, None)
        else (next, Some((Uncommented(name), Uncommented(s[value..next]))))
  }

  /** What follows an option: one character is skipped, two after a carriage return. */
  function Rest(s: string, next: nat): (r: string)
    requires next <= |s|
    ensures s != "" ==> |r| < |s|
  {
    if next == |s| then ""
    else if s[next] != '\r' then s[next + 1..]
    else if next + 2 <= |s| then s[next + 2..] else ""
  }

  /** A whole file. The first value of a key counts. */
  function Parse(s: string): map<string, string>
    decreases |s|
  {
    if s == "" then map[]
    else
      var (next, option) := ParseOption(s);
      var rest := Parse(Rest(s, next));
      if option.None? then rest else rest[option.value.0 := option.value.1]
  }

  /** `emplace` does not overwrite: a key that is known keeps its value. */
  lemma FirstWins(rest: map<string, string>, vars: map<string, string>, k: string, v: string)
    ensures rest[k := v] + vars == rest + (if k in vars then vars else vars[k := v])
  {
  }

  lemma ParseStep(s: string, vars: map<string, string>)
    requires s != ""
    ensures var (next, option) := ParseOption(s);
      Parse(s) + vars == Parse(Rest(s, next))
        + (if option.None? || option.value.0 in vars then vars else vars[option.value.0 := option.value.1])
  {
    hide ParseOption;
    var (next, option) := ParseOption(s);
    if option.Some? {
      FirstWins(Parse(Rest(s, next)), vars, option.value.0, option.value.1);
    }
  }

  function Skip(c: char): nat {
    if c == '\r' then 2 else 1
  }

  lemma RestIs(content: string, pos: nat, next: nat)
    requires pos + next <= |content|
    ensures var end := pos + next;
      var after := if end == |content| then end else end + Skip(content[end]);
      Rest(content[pos..], next) == if after <= |content| then content[after..] else ""
  {
  }

  /** What is left of the text; nothing once the loop has stepped past its end. */
  function LeftOf(content: string, pos: nat): string {
    if pos <= |content| then content[pos..] else ""
  }

  method ParseNext(content: string, pos: nat, vars: map<string, string>) returns (after: nat, more: map<string, string>)
    requires pos < |content|
    ensures after > pos
    ensures Parse(LeftOf(content, pos)) + vars == Parse(LeftOf(content, after)) + more
  {
    hide Parse, ParseOption, Rest, MarksOf;
    ParseStep(content[pos..], vars);
    var (next, option) := ParseOption(content[pos..]);
    RestIs(content, pos, next);
    after := pos + next;
    if after != |content| {
      after := after + Skip(content[after]);
    }
    more := vars;
    if option.Some? && option.value.0 !in vars {
      more := vars[option.value.0 := option.value.1];
    }
  }

  lemma ParseEnds(content: string, pos: nat, vars: map<string, string>)
    ensures pos >= |content| ==> Parse(LeftOf(content, pos)) + vars == vars
    ensures Parse(LeftOf(content, 0)) + map[] == Parse(content)
  {
    hide ParseOption, Rest, MarksOf;
    assert content[0..] == content;
    NothingParsed();
  }

  lemma NothingParsed()
    ensures Parse("") == map[]
  {
  }

  /** The loop ends on every text, also when a carriage return at the very end makes it step past it. */
  method ParseConfig(content: string) returns (vars: map<string, string>)
    ensures vars == Parse(content)
  {
    hide Parse, LeftOf;
    vars := map[];
    var pos: nat := 0;
    ParseEnds(content, 0, vars);
    while pos < |content|
      invariant Parse(content) == Parse(LeftOf(content, pos)) + vars
      decreases |content| - pos
    {
      pos, vars := ParseNext(content, pos, vars);
    }
    ParseEnds(content, pos, vars);
  }

  // ----- Writing -----

  /** A null or empty value is not written. */
  function Line(key: string, value: Option<string>): string {
    if value == None || value == Some("") then "" else key + " = " + value.value + "\n"
  }

  function Print(entries: seq<(string, Option<string>)>): string {
    if entries == [] then "" else Line(entries[0].0, entries[0].1) + Print(entries[1..])
  }

  method SaveConfig(entries: seq<(string, Option<string>)>) returns (stream: string)
    ensures stream == Print(entries)
  {
    stream := "";
    assert entries[0..] == entries && "" + Print(entries) == Print(entries);
    hide Print;
    for i := 0 to |entries|
      invariant Print(entries) == stream + Print(entries[i..])
    {
      PrintStep(entries[i..], stream);
      assert entries[i..][1..] == entries[i + 1..];
      var (k, v) := entries[i];
      if v == None || v == Some("") {
        continue;
      }
      stream := stream + k + " = " + v.value + "\n";
    }
    PrintsNothing();
    assert entries[|entries|..] == [] && stream + "" == stream;
  }

  lemma PrintStep(entries: seq<(string, Option<string>)>, stream: string)
    requires entries != []
    ensures stream + Print(entries)
         == (var (k, v) := entries[0];
             if v == None || v == Some("") then stream else stream + k + " = " + v.value + "\n") + Print(entries[1..])
  {
    var (k, v) := entries[0];
    Regroup(stream, Line(k, v), Print(entries[1..]));
    if v == None || v == Some("") {
      assert stream + "" == stream;
    } else {
      FourParts(stream, k, " = ", v.value, "\n");
    }
  }

  lemma FourParts(stream: string, a: string, b: string, c: string, d: string)
    ensures stream + (a + b + c + d) == stream + a + b + c + d
  {
  }

  lemma PrintsNothing()
    ensures Print([]) == ""
  {
  }

  // ----- What can be written -----

  predicate Plain(s: string) {
    forall j :: 0 <= j < |s| ==> s[j] != '#'
  }

  predicate GoodKey(k: string) {
    && k != "" && !IsBlank(k[0]) && !IsBlank(k[|k| - 1])
    && forall j :: 0 <= j < |k| ==> k[j] != '=' && k[j] != '#' && !IsEnd(k[j])
  }

  /** A list may span lines; any other value is one line that does not start with a blank. */
  predicate GoodValue(v: string) {
    && v != "" && Plain(v)
    && if v[0] == '[' then ClosesAtEnd(v[1..], 1)
       else !IsBlank(v[0]) && forall j :: 0 <= j < |v| ==> !IsEnd(v[j])
  }

  // ----- Round trip -----

  lemma FindIs(s: string, c: char, k: nat)
    requires k <= |s| && (forall j :: 0 <= j < k ==> s[j] != c) && (k < |s| ==> s[k] == c)
    ensures Find(s, c) == k
  {
  }

  lemma FindEndIs(s: string, k: nat)
    requires k <= |s| && (forall j :: 0 <= j < k ==> !IsEnd(s[j])) && (k < |s| ==> IsEnd(s[k]))
    ensures FindEnd(s) == k
  {
  }

  /** The first line of a text that starts with a good key and " = ". */
  function Assigned(k: string, v: string): string {
    k + " = " + v
  }

  lemma AssignedAt(k: string, v: string)
    ensures |Assigned(k, v)| == |k| + 3 + |v|
    ensures forall j :: 0 <= j < |k| ==> Assigned(k, v)[j] == k[j]
    ensures forall j :: 0 <= j < |v| ==> Assigned(k, v)[|k| + 3 + j] == v[j]
    ensures Assigned(k, v)[|k|] == ' ' && Assigned(k, v)[|k| + 1] == '=' && Assigned(k, v)[|k| + 2] == ' '
    ensures Assigned(k, v)[|k| + 3..] == v && Assigned(k, v)[..|k|] == k
  {
  }

  /** The line starts at the key and reaches past the equals sign. */
  lemma LineStarts(k: string, v: string)
    requires GoodKey(k)
    ensures SkipSpace(Assigned(k, v)) == 0
    ensures FindEnd(Assigned(k, v)) == |k| + 3 + FindEnd(v)
  {
    AssignedAt(k, v);
    var s := Assigned(k, v);
    hide Assigned;
    FindEndIs(s, |k| + 3 + FindEnd(v));
  }

  function BodyOf(line: string): string {
    line[..TrimSpace(line)]
  }

  lemma MarksAre(s: string, line: nat)
    requires SkipSpace(s) == 0 && FindEnd(s) == line && Find(s[..line], '#') == line
    ensures MarksOf(s) == Marks(0, line, BodyOf(s[..line]), Find(BodyOf(s[..line]), '='))
  {
    hide Find, FindEnd, SkipSpace, TrimSpace;
    assert s[0..] == s && s[0..line] == s[..line];
    assert s[..line][..line] == s[..line];
  }

  /** Without a comment, the body of the line is the line without white space at its end. */
  lemma BodyIs(k: string, v: string)
    requires GoodKey(k) && Plain(v)
    ensures var s := Assigned(k, v);
      var line := |k| + 3 + FindEnd(v);
      line <= |s| && MarksOf(s) == Marks(0, line, BodyOf(s[..line]), Find(BodyOf(s[..line]), '='))
  {
    hide Find, FindEnd, SkipSpace, TrimSpace, MarksOf, BodyOf;
    LineStarts(k, v);
    AssignedAt(k, v);
    NoComment(k, v);
    var s := Assigned(k, v);
    var line := |k| + 3 + FindEnd(v);
    FindIs(s[..line], '#', line);
    MarksAre(s, line);
  }

  lemma NoComment(k: string, v: string)
    requires GoodKey(k) && Plain(v)
    ensures Plain(Assigned(k, v))
  {
  }

  /** The key ends at the first equals sign. */
  lemma EqualsSign(k: string, v: string)
    requires GoodKey(k) && Plain(v)
    ensures var s := Assigned(k, v);
      var line := |k| + 3 + FindEnd(v);
      var n := TrimSpace(s[..line]);
      line <= |s| && |k| + 1 < n <= line && MarksOf(s) == Marks(0, line, s[..n], |k| + 1)
  {
    hide Assigned, MarksOf, Find, FindEnd, TrimSpace, GoodKey;
    BodyIs(k, v);
    var s := Assigned(k, v);
    var line := |k| + 3 + FindEnd(v);
    EqualsAt(k, v, line);
    TrimKeeps(s[..line], |k| + 1);
    var n := TrimSpace(s[..line]);
    SamePrefix(s, line, n);
    EqualsAt(k, v, n);
  }

  lemma TrimKeeps(line: string, i: nat)
    requires i < |line| && !IsSpace(line[i])
    ensures i < TrimSpace(line) <= |line|
  {
  }

  lemma SamePrefix(s: string, line: nat, n: nat)
    requires n <= line <= |s|
    ensures s[..line][..n] == s[..n]
  {
  }

  lemma EqualsAt(k: string, v: string, n: nat)
    requires GoodKey(k) && |k| + 1 < n <= |Assigned(k, v)|
    ensures Assigned(k, v)[..n][|k| + 1] == '='
    ensures Find(Assigned(k, v)[..n], '=') == |k| + 1
  {
    AssignedAt(k, v);
    var s := Assigned(k, v)[..n];
    hide Assigned, Find;
    FindIs(s, '=', |k| + 1);
  }

  lemma TrimmedKey(s: string, n: nat)
    requires 0 < n < |s| && !IsBlank(s[n - 1]) && forall j :: n <= j < |s| ==> IsBlank(s[j])
    ensures TrimBlank(s) == n
  {
  }

  lemma NameIs(k: string, t: string, n: nat)
    requires GoodKey(k) && |k| + 1 < n <= |Assigned(k, t)|
    ensures var body := Assigned(k, t)[..n];
      var end := TrimBlank(body[..|k| + 1]);
      end == |k| && body[..end] == k && Uncommented(k) == k
  {
    AssignedAt(k, t);
    var s := Assigned(k, t);
    hide Assigned, Uncommented;
    assert s[..n][..|k| + 1] == k + " ";
    TrimmedKey(k + " ", |k|);
    assert s[..n][..|k|] == k;
  }

  /** Where the value is taken to start: right after the separator, unless the value itself starts with white space. */
  function StartOf(k: string, t: string): (start: nat)
    requires GoodKey(k) && Plain(t)
  {
    EqualsSign(k, t);
    var s := Assigned(k, t);
    |k| + 2 + SkipBlank(s[|k| + 2..TrimSpace(s[..|k| + 3 + FindEnd(t)])])
  }

  lemma AfterEquals(k: string, t: string, n: nat)
    requires |k| + 2 <= n <= |Assigned(k, t)| && t != ""
    ensures var u := Assigned(k, t)[|k| + 2..n];
      && (|u| > 0 ==> u[0] == ' ')
      && (|u| > 1 ==> u[1] == t[0] && u[|u| - 1] == Assigned(k, t)[..n][n - 1])
      && (|u| > 1 ==> forall i :: 0 <= i < |u| ==> u[i] == Assigned(k, t)[|k| + 2 + i])
  {
  }

  lemma StartIs(k: string, t: string)
    requires GoodKey(k) && Plain(t) && t != ""
    ensures var s := Assigned(k, t);
      var start := StartOf(k, t);
      && start < |k| + 3 + FindEnd(t) <= |s|
      && (!IsSpace(t[0]) ==> start == |k| + 3)
      && (IsSpace(t[0]) ==> start == |k| + 2 || (start > |k| + 3 && !IsBlank(s[start])))
  {
    hide Assigned, MarksOf, TrimSpace, SkipBlank, FindEnd, IsSpace, GoodKey;
    EqualsSign(k, t);
    var s := Assigned(k, t);
    var line := |k| + 3 + FindEnd(t);
    var n := TrimSpace(s[..line]);
    var u := s[|k| + 2..n];
    AfterEquals(k, t, n);
    SamePrefix(s, line, n);
    if !IsSpace(t[0]) {
      FirstOfValue(k, t, line);
      TrimKeeps(s[..line], |k| + 3);
      SpaceIs(t[0]);
      BlankOne(u);
    } else if n > |k| + 2 {
      TrimEnds(s[..line]);
      assert s[..line][n - 1] == s[..n][n - 1];
      if |u| == 1 {
        OnlySeparator(k, t, n);
        assert false;
      }
      EndFirst(t);
      SpaceIs(t[0]);
      BlankMore(u);
    } else {
      assert u == "";
    }
  }

  lemma OnlySeparator(k: string, t: string, n: nat)
    requires n == |k| + 3 && n <= |Assigned(k, t)|
    ensures IsSpace(Assigned(k, t)[..n][n - 1])
  {
  }

  lemma SpaceIs(c: char)
    ensures IsSpace(c) <==> IsBlank(c) || IsEnd(c)
  {
  }

  lemma TrimEnds(line: string)
    requires TrimSpace(line) > 0
    ensures !IsSpace(line[TrimSpace(line) - 1])
  {
  }

  lemma EndFirst(t: string)
    requires t != ""
    ensures IsEnd(t[0]) ==> FindEnd(t) == 0
    ensures !IsEnd(t[0]) ==> FindEnd(t) > 0
  {
  }

  lemma FirstOfValue(k: string, t: string, line: nat)
    requires t != "" && !IsSpace(t[0]) && line == |k| + 3 + FindEnd(t)
    ensures |k| + 3 < line <= |Assigned(k, t)| && Assigned(k, t)[..line][|k| + 3] == t[0]
  {
  }

  lemma BlankOne(u: string)
    requires |u| > 1 && IsBlank(u[0]) && !IsBlank(u[1])
    ensures SkipBlank(u) == 1
  {
  }

  lemma BlankMore(u: string)
    requires |u| > 1 && IsBlank(u[0]) && IsBlank(u[1]) && !IsSpace(u[|u| - 1])
    ensures 1 < SkipBlank(u) < |u|
  {
  }

  function NextAfter(s: string, start: nat, line: nat): nat
    requires start < |s|
  {
    if s[start] != '[' then line else start + 1 + SkipList(s[start + 1..], 1)
  }

  lemma OptionFrom(s: string, line: nat, n: nat, eq: nat, k: string, start: nat)
    requires line <= |s| && 0 < eq < n <= line && MarksOf(s) == Marks(0, line, s[..n], eq)
    requires s[..n][..TrimBlank(s[..n][..eq])] == k && Uncommented(k) == k
    requires Plain(s) && start == eq + 1 + SkipBlank(s[eq + 1..n]) && start < line && start + 1 < |s|
    ensures start <= NextAfter(s, start, line) <= |s|
    ensures ParseOption(s) == (NextAfter(s, start, line), Some((k, s[start..NextAfter(s, start, line)])))
  {
    hide MarksOf, Uncommented, TrimBlank, SkipBlank, SkipList;
    assert s[..n][eq + 1..] == s[eq + 1..n];
    NothingCut(s[start..NextAfter(s, start, line)]);
  }

  /** What a line with a good key and no comment gives, whatever stands behind the separator. */
  lemma OptionIs(k: string, t: string)
    requires GoodKey(k) && Plain(t) && t != "" && t[|t| - 1] == '\n'
    ensures var s := Assigned(k, t);
      var start := StartOf(k, t);
      var line := |k| + 3 + FindEnd(t);
      && start < line < |s|
      && start <= NextAfter(s, start, line) <= |s|
      && ParseOption(s) == (NextAfter(s, start, line), Some((k, s[start..NextAfter(s, start, line)])))
  {
    hide Assigned, FindEnd, MarksOf, TrimSpace, Uncommented, TrimBlank, SkipBlank, SkipList, ParseOption, GoodKey, Plain, NextAfter;
    var s := Assigned(k, t);
    var line := |k| + 3 + FindEnd(t);
    LineEndsBefore(k, t);
    NoComment(k, t);
    StartIs(k, t);
    EqualsSign(k, t);
    var n := TrimSpace(s[..line]);
    NameIs(k, t, n);
    assert StartOf(k, t) == |k| + 2 + SkipBlank(s[|k| + 2..n]);
    OptionFrom(s, line, n, |k| + 1, k, StartOf(k, t));
  }

  lemma LineEndsBefore(k: string, t: string)
    requires t != "" && t[|t| - 1] == '\n'
    ensures |k| + 3 + FindEnd(t) < |Assigned(k, t)|
  {
  }

  lemma NothingCut(s: string)
    requires forall j :: 0 <= j < |s| ==> s[j] != '#'
    ensures Uncommented(s) == s
  {
  }

  lemma ValueAt(k: string, v: string, rest: string)
    ensures var s := Assigned(k, v + "\n" + rest);
      && |s| == |k| + 4 + |v| + |rest|
      && s[|k| + 3..|k| + 3 + |v|] == v
      && (v != "" ==> s[|k| + 3] == v[0] && s[|k| + 4..] == v[1..] + ("\n" + rest))
      && Rest(s, |k| + 3 + |v|) == rest
  {
    var s := Assigned(k, v + "\n" + rest);
    assert s == (k + " = " + v) + ("\n" + rest);
    assert s[|k| + 3 + |v|] == '\n';
    assert s[|k| + 4 + |v|..] == rest;
  }

  lemma FirstLineEnd(v: string, rest: string)
    requires forall j :: 0 <= j < |v| ==> !IsEnd(v[j])
    ensures FindEnd(v + "\n" + rest) == |v|
  {
    FindEndIs(v + "\n" + rest, |v|);
  }

  lemma PlainText(v: string, rest: string)
    requires Plain(v) && Plain(rest)
    ensures Plain(v + "\n" + rest)
  {
  }

  predicate EndsLine(s: string) {
    s == "" || s[|s| - 1] == '\n'
  }

  /** A good line is read back, and reading goes on behind its line end. */
  lemma LineRoundTrip(k: string, v: string, rest: string)
    requires GoodKey(k) && GoodValue(v) && Plain(rest) && EndsLine(rest)
    ensures Parse(Assigned(k, v + "\n" + rest)) == Parse(rest)[k := v]
  {
    hide Assigned, ParseOption, FindEnd, GoodKey, Plain, Rest, SkipList, StartOf, NextAfter, Parse;
    var t := v + "\n" + rest;
    var s := Assigned(k, t);
    PlainText(v, rest);
    assert t[0] == v[0] && t[|t| - 1] == '\n';
    OptionIs(k, t);
    StartIs(k, t);
    ValueAt(k, v, rest);
    NextIs(k, v, rest);
    ParseOnce(s);
  }

  lemma ParseOnce(s: string)
    requires s != "" && ParseOption(s).1.Some?
    ensures Parse(s) == Parse(Rest(s, ParseOption(s).0))[ParseOption(s).1.value.0 := ParseOption(s).1.value.1]
  {
    hide ParseOption, Rest;
  }

  lemma NextIs(k: string, v: string, rest: string)
    requires GoodValue(v)
    ensures var s := Assigned(k, v + "\n" + rest);
      |k| + 3 < |s| && NextAfter(s, |k| + 3, |k| + 3 + FindEnd(v + "\n" + rest)) == |k| + 3 + |v|
  {
    ValueAt(k, v, rest);
    hide Assigned, FindEnd, Rest;
    if v[0] == '[' {
      SkipsExactlyIff(v[1..], 1, "\n" + rest);
    } else {
      FirstLineEnd(v, rest);
    }
  }

  lemma {:induction false} PrintIsPlain(entries: seq<(string, Option<string>)>)
    requires AllGood(entries)
    ensures Plain(Print(entries)) && EndsLine(Print(entries))
  {
    if entries != [] {
      PrintIsPlain(entries[1..]);
      var (k, v) := entries[0];
      if v != None && v != Some("") {
        PlainLine(k, v.value, Print(entries[1..]));
      }
    }
  }

  lemma PlainLine(k: string, v: string, rest: string)
    requires GoodKey(k) && GoodValue(v) && Plain(rest) && EndsLine(rest)
    ensures Plain((k + " = " + v + "\n") + rest) && EndsLine((k + " = " + v + "\n") + rest)
    ensures (k + " = " + v + "\n") + rest == Assigned(k, v + "\n" + rest)
  {
  }

  /** Everything that is written is a good key with a good value. */
  ghost predicate AllGood(entries: seq<(string, Option<string>)>) {
    forall i :: 0 <= i < |entries| && Kept(entries[i].1) ==> GoodKey(entries[i].0) && GoodValue(entries[i].1.value)
  }

  predicate Kept(v: Option<string>) {
    v != None && v != Some("")
  }

  /** The settings that are written. */
  function Settings(entries: seq<(string, Option<string>)>): map<string, string> {
    if entries == [] then map[]
    else
      var (k, v) := entries[0];
      if Kept(v) then Settings(entries[1..])[k := v.value] else Settings(entries[1..])
  }

  /** What `saveConfig` writes, `parse_config` reads back. */
  lemma {:induction false} RoundTrip(entries: seq<(string, Option<string>)>)
    requires AllGood(entries)
    ensures Parse(Print(entries)) == Settings(entries)
  {
    hide Parse, GoodKey, GoodValue, Plain;
    if entries == [] {
      NothingParsed();
    } else {
      var (k, v) := entries[0];
      RoundTrip(entries[1..]);
      PrintIsPlain(entries[1..]);
      if Kept(v) {
        PlainLine(k, v.value, Print(entries[1..]));
        LineRoundTrip(k, v.value, Print(entries[1..]));
      } else {
        assert Print(entries) == Print(entries[1..]);
      }
    }
  }

  /** The members of an object have different names: then exactly the members that are not null or empty are settings. */
  lemma {:induction false} SettingsAre(entries: seq<(string, Option<string>)>, key: string)
    requires forall i, j :: 0 <= i < j < |entries| ==> entries[i].0 != entries[j].0
    ensures forall i :: 0 <= i < |entries| && Kept(entries[i].1) ==>
      entries[i].0 in Settings(entries) && Settings(entries)[entries[i].0] == entries[i].1.value
    ensures key in Settings(entries) ==> exists i :: 0 <= i < |entries| && entries[i].0 == key && Kept(entries[i].1)
  {
    if entries != [] {
      var rest := entries[1..];
      SettingsAre(rest, key);
      forall i | 0 <= i < |entries| && Kept(entries[i].1)
        ensures entries[i].0 in Settings(entries) && Settings(entries)[entries[i].0] == entries[i].1.value
      {
        if i > 0 {
          assert entries[i] == rest[i - 1];
        }
      }
      if key in Settings(entries) && !(entries[0].0 == key && Kept(entries[0].1)) {
        var i :| 0 <= i < |rest| && rest[i].0 == key && Kept(rest[i].1);
        assert entries[i + 1] == rest[i];
      }
    }
  }

  // ----- Exactly the good entries come back -----

  lemma BodyFacts(s: string)
    ensures var m := MarksOf(s);
      && (forall j :: 0 <= j < |m.body| ==> !IsEnd(m.body[j]) && m.body[j] != '#')
      && (m.body != "" ==> !IsSpace(m.body[0]))
      && m.eq == Find(m.body, '=')
  {
    var begin := SkipSpace(s);
    var line := begin + FindEnd(s[begin..]);
    var text := s[begin..line];
    assert forall j :: 0 <= j < |text| ==> text[j] == s[begin..][j];
  }

  lemma NameIsGood(body: string, eq: nat)
    requires forall j :: 0 <= j < |body| ==> !IsEnd(body[j]) && body[j] != '#'
    requires 0 < eq < |body| && !IsSpace(body[0]) && eq == Find(body, '=')
    ensures GoodKey(Uncommented(body[..TrimBlank(body[..eq])]))
  {
    var n := TrimBlank(body[..eq]);
    KeyTrimmed(body, eq);
    GoodPrefix(body, n);
    hide TrimBlank, Find, Uncommented, GoodKey;
    NothingCut(body[..n]);
  }

  lemma GoodPrefix(body: string, n: nat)
    requires forall j :: 0 <= j < n ==> j < |body| && !IsEnd(body[j]) && body[j] != '#' && body[j] != '='
    requires 0 < n <= |body| && !IsBlank(body[0]) && !IsBlank(body[n - 1])
    ensures GoodKey(body[..n]) && Plain(body[..n])
  {
  }

  lemma KeyTrimmed(body: string, eq: nat)
    requires 0 < eq < |body| && !IsSpace(body[0])
    ensures 0 < TrimBlank(body[..eq]) <= eq && !IsBlank(body[TrimBlank(body[..eq]) - 1])
  {
    assert body[..eq][0] == body[0];
    assert TrimBlank(body[..eq]) > 0;
  }

  lemma PlainResult(s: string)
    ensures Plain(Uncommented(s))
  {
  }

  /** Whatever the text: every option that is read has a good key, and no comment in its value. */
  lemma OptionIsClean(s: string)
    ensures ParseOption(s).1.Some? ==> GoodKey(ParseOption(s).1.value.0) && Plain(ParseOption(s).1.value.1)
  {
    hide MarksOf, GoodKey, Plain, Uncommented, TrimBlank, SkipBlank, SkipList, Find;
    BodyFacts(s);
    var m := MarksOf(s);
    if 0 < m.eq < |m.body| {
      NameIsGood(m.body, m.eq);
      var value := ValueStart(m);
      if value < |s| {
        PlainResult(s[value..m.line]);
        PlainResult(s[value..value + 1 + SkipList(s[value + 1..], 1)]);
      }
    }
  }

  lemma {:induction false} ParseIsClean(s: string)
    ensures forall k :: k in Parse(s) ==> GoodKey(k) && Plain(Parse(s)[k])
    decreases |s|
  {
    hide ParseOption, GoodKey, Plain, Rest;
    if s != "" {
      OptionIsClean(s);
      ParseIsClean(Rest(s, ParseOption(s).0));
    }
  }

  lemma EndChars(v: string, end: nat)
    requires end == FindEnd(v + "\n")
    ensures end <= |v| && (end < |v| ==> IsEnd(v[end])) && (end > 0 ==> !IsEnd(v[end - 1]))
  {
    var t := v + "\n";
    assert t[|v|] == '\n';
    assert end < |v| ==> t[end] == v[end];
    assert end > 0 ==> t[end - 1] == v[end - 1];
  }

  /** A value read from right behind the equals sign is not the one that was written. */
  lemma TooLong(v: string, end: nat)
    requires end <= |v| && (end < |v| ==> IsEnd(v[end])) && (end > 0 ==> !IsEnd(v[end - 1]))
    ensures " " + v[..end] != v
  {
    var u := " " + v[..end];
    assert u[end] == if end == 0 then ' ' else v[end - 1];
  }

  lemma BehindEquals(k: string, v: string, end: nat)
    requires end <= |v|
    ensures |k| + 3 + end < |Assigned(k, v + "\n")|
    ensures Assigned(k, v + "\n")[|k| + 2] == ' '
    ensures Assigned(k, v + "\n")[|k| + 2..|k| + 3 + end] == " " + v[..end]
  {
    var s := Assigned(k, v + "\n");
    assert s == (k + " =") + (" " + v[..end]) + (v[end..] + "\n");
  }

  lemma FromValue(k: string, v: string, end: nat)
    requires end <= |v|
    ensures |k| + 3 + end < |Assigned(k, v + "\n")|
    ensures Assigned(k, v + "\n")[|k| + 3..|k| + 3 + end] == v[..end]
    ensures v != "" ==> Assigned(k, v + "\n")[|k| + 3] == v[0] && Assigned(k, v + "\n")[|k| + 4..] == v[1..] + "\n"
  {
    var s := Assigned(k, v + "\n");
    assert s == (k + " = ") + v[..end] + (v[end..] + "\n");
  }

  /** `v` is what was read from `start` on. */
  predicate ReadFrom(k: string, v: string, t: string, start: nat) {
    var s := Assigned(k, t);
    var line := |k| + 3 + FindEnd(t);
    start < line < |s| && start <= NextAfter(s, start, line) <= |s| && s[start..NextAfter(s, start, line)] == v
  }

  predicate StartsAt(k: string, t: string, start: nat) {
    var s := Assigned(k, t);
    && t != "" && start < |s|
    && (!IsSpace(t[0]) ==> start == |k| + 3)
    && (IsSpace(t[0]) ==> start == |k| + 2 || (start > |k| + 3 && !IsBlank(s[start])))
  }

  /** A value that came back under its own key was a good one. */
  lemma ValueWasGood(k: string, v: string, start: nat)
    requires Plain(v) && v != "" && ReadFrom(k, v, v + "\n", start) && StartsAt(k, v + "\n", start)
    ensures GoodValue(v)
  {
    var end := FindEnd(v + "\n");
    var s := Assigned(k, v + "\n");
    EndChars(v, end);
    BehindEquals(k, v, end);
    FromValue(k, v, end);
    SpaceIs(v[0]);
    EndFirst(v + "\n");
    assert (v + "\n")[0] == v[0];
    assert s[start..NextAfter(s, start, |k| + 3 + end)][0] == s[start];
    hide Assigned, GoodKey, Plain, FindEnd;
    if start == |k| + 2 {
      TooLong(v, end);
      assert false;
    } else if start > |k| + 3 {
      assert false;
    } else if v[0] == '[' {
      SkipsExactlyIff(v[1..], 1, "\n");
    } else {
      NoEndWithin(v, end);
    }
  }

  lemma NoEndWithin(v: string, end: nat)
    requires end == FindEnd(v + "\n") && end == |v|
    ensures forall j :: 0 <= j < |v| ==> !IsEnd(v[j])
  {
    assert forall j :: 0 <= j < |v| ==> v[j] == (v + "\n")[j];
  }

  /** A single setting survives saving and loading exactly when its key and its value are good. */
  lemma SettingSurvivesIff(k: string, v: string)
    requires v != ""
    ensures Parse(Print([(k, Some(v))])) == map[k := v] <==> GoodKey(k) && GoodValue(v)
  {
    PrintOne(k, v);
    hide Assigned, GoodKey, GoodValue, Parse, Print;
    if GoodKey(k) && GoodValue(v) {
      NothingPlain();
      LineRoundTrip(k, v, "");
      NothingParsed();
      assert v + "\n" + "" == v + "\n";
    }
    if Parse(Assigned(k, v + "\n")) == map[k := v] {
      SurvivorWasGood(k, v);
    }
  }

  /** The first line decides what its key is set to. */
  lemma FirstOption(k: string, t: string)
    requires GoodKey(k) && Plain(t) && t != "" && t[|t| - 1] == '\n'
    ensures var s := Assigned(k, t);
      var start := StartOf(k, t);
      && start < |k| + 3 + FindEnd(t) < |s|
      && start <= NextAfter(s, start, |k| + 3 + FindEnd(t)) <= |s|
      && k in Parse(s) && Parse(s)[k] == s[start..NextAfter(s, start, |k| + 3 + FindEnd(t))]
  {
    hide Assigned, ParseOption, FindEnd, GoodKey, Plain, Rest, SkipList, StartOf, NextAfter, Parse;
    OptionIs(k, t);
    ParseOnce(Assigned(k, t));
  }

  lemma SurvivorWasGood(k: string, v: string)
    requires v != "" && k in Parse(Assigned(k, v + "\n")) && Parse(Assigned(k, v + "\n"))[k] == v
    ensures GoodKey(k) && GoodValue(v)
  {
    CleanAt(Assigned(k, v + "\n"), k);
    AddNewline(v);
    GoodIfFirst(k, v, v + "\n");
  }

  lemma CleanAt(s: string, k: string)
    requires k in Parse(s)
    ensures GoodKey(k) && Plain(Parse(s)[k])
  {
    hide GoodKey, Plain, Parse;
    ParseIsClean(s);
  }

  lemma GoodIfFirst(k: string, v: string, t: string)
    requires v != "" && t == v + "\n" && GoodKey(k) && Plain(v) && Plain(t)
    requires k in Parse(Assigned(k, t)) && Parse(Assigned(k, t))[k] == v
    ensures GoodValue(v)
  {
    hide Assigned, GoodKey, GoodValue, Plain, StartOf, Parse, ReadFrom, StartsAt;
    ReadsFirst(k, v, t);
    StartsWhere(k, t);
    ValueWasGood(k, v, StartOf(k, t));
  }

  lemma ReadsFirst(k: string, v: string, t: string)
    requires GoodKey(k) && Plain(t) && t != "" && t[|t| - 1] == '\n'
    requires k in Parse(Assigned(k, t)) && Parse(Assigned(k, t))[k] == v
    ensures ReadFrom(k, v, t, StartOf(k, t))
  {
    hide Assigned, FindEnd, GoodKey, Plain, StartOf, NextAfter, Parse;
    FirstOption(k, t);
  }

  lemma StartsWhere(k: string, t: string)
    requires GoodKey(k) && Plain(t) && t != ""
    ensures StartsAt(k, t, StartOf(k, t))
  {
    hide Assigned, FindEnd, GoodKey, Plain, StartOf, IsSpace, IsBlank;
    StartIs(k, t);
  }

  lemma AddNewline(v: string)
    requires Plain(v)
    ensures Plain(v + "\n")
  {
  }

  lemma NothingPlain()
    ensures Plain("") && EndsLine("")
  {
  }

  lemma PrintOne(k: string, v: string)
    requires v != ""
    ensures Print([(k, Some(v))]) == Assigned(k, v + "\n") != ""
  {
    var entries := [(k, Some(v))];
    assert entries[1..] == [];
  }

  lemma OneBracket(s: string, line: nat, n: nat, eq: nat)
    requires line == |s| && 0 < eq < n <= line && MarksOf(s) == Marks(0, line, s[..n], eq)
    requires eq + 1 + SkipBlank(s[eq + 1..n]) == |s| - 1 && s[|s| - 1] == '['
    ensures ParseOption(s) == (|s|, None)
  {
    hide MarksOf, Uncommented, TrimBlank, SkipBlank;
    assert s[..n][eq + 1..] == s[eq + 1..n];
    assert s[|s|..] == "";
  }

  /** The one case the check for a missing bracket sees: an opening bracket that ends the text. */
  lemma LoneBracketIsDropped(k: string)
    requires GoodKey(k)
    ensures Parse(Assigned(k, "[")) == map[]
  {
    hide Assigned, MarksOf, TrimSpace, FindEnd, SkipBlank, ParseOption, GoodKey, Parse;
    var s := Assigned(k, "[");
    AssignedAt(k, "[");
    EqualsSign(k, "[");
    StartIs(k, "[");
    NoEnd('[');
    OneBracket(s, |k| + 4, TrimSpace(s[..|k| + 3 + FindEnd("[")]), |k| + 1);
    ParseNone(s);
  }

  lemma NoEnd(c: char)
    requires !IsEnd(c)
    ensures FindEnd([c]) == 1
  {
  }

  lemma ParseNone(s: string)
    requires s != "" && ParseOption(s) == (|s|, None)
    ensures Parse(s) == map[]
  {
    hide ParseOption;
    assert Parse("") == map[];
  }

  /** A list that is never closed swallows every line after it. */
  lemma UnclosedListSwallows(k: string, t: string)
    requires GoodKey(k) && Plain(t) && t != "" && t[0] == '[' && t[|t| - 1] == '\n'
    requires SkipList(t[1..], 1) == |t| - 1
    ensures Parse(Assigned(k, t)) == map[k := t]
  {
    hide Assigned, ParseOption, FindEnd, GoodKey, Plain, SkipList, StartOf, Parse, NextAfter, Rest;
    UnclosedNext(k, t);
    StartsWhere(k, t);
    UnclosedOption(k, t, StartOf(k, t));
    ParseOnce(Assigned(k, t));
    NothingParsed();
  }

  lemma UnclosedNext(k: string, t: string)
    requires t != "" && t[0] == '[' && SkipList(t[1..], 1) == |t| - 1
    ensures var s := Assigned(k, t);
      && |s| > |k| + 3 && s != "" && NextAfter(s, |k| + 3, |k| + 3 + FindEnd(t)) == |s|
      && s[|k| + 3..|s|] == t && Rest(s, |s|) == ""
  {
    var s := Assigned(k, t);
    AssignedAt(k, t);
    hide Assigned, FindEnd, SkipList;
    assert s[|k| + 4..] == t[1..];
    assert s[|k| + 3] == '[';
    assert s[|k| + 3..|s|] == s[|k| + 3..];
  }

  lemma UnclosedOption(k: string, t: string, start: nat)
    requires GoodKey(k) && Plain(t) && t != "" && t[0] == '[' && t[|t| - 1] == '\n'
    requires start == StartOf(k, t) && StartsAt(k, t, start)
    requires var s := Assigned(k, t);
      && |s| > |k| + 3 && NextAfter(s, |k| + 3, |k| + 3 + FindEnd(t)) == |s| && s[|k| + 3..|s|] == t
    ensures ParseOption(Assigned(k, t)) == (|Assigned(k, t)|, Some((k, t)))
  {
    assert start == |k| + 3;
    hide Assigned, ParseOption, FindEnd, GoodKey, Plain, StartOf, StartsAt, NextAfter;
    OptionIs(k, t);
  }

  // ----- Comments and carriage returns -----

  predicate OneLine(s: string) {
    forall j :: 0 <= j < |s| ==> !IsEnd(s[j])
  }

  /** A line with a comment: the comment runs to the end of the line. */
  function Commented(v: string, comment: string, rest: string): string {
    v + "#" + comment + "\n" + rest
  }

  lemma CommentedLine(k: string, v: string, comment: string, rest: string)
    requires GoodKey(k) && Plain(v) && OneLine(v) && OneLine(comment)
    ensures var s := Assigned(k, Commented(v, comment, rest));
      var line := |k| + 4 + |v| + |comment|;
      && line < |s| && SkipSpace(s) == 0 && FindEnd(s) == line && Find(s[..line], '#') == |k| + 3 + |v|
      && s[..|k| + 3 + |v|] == Assigned(k, v) && s[line] == '\n' && s[line + 1..] == rest
      && s[|k| + 3..line] == v + "#" + comment
  {
    var t := Commented(v, comment, rest);
    var s := Assigned(k, t);
    var line := |k| + 4 + |v| + |comment|;
    LineStarts(k, t);
    FirstLineEnd(v + "#" + comment, rest);
    CommentedParts(k, v, comment, rest);
    NoComment(k, v);
    hide Assigned, Find, FindEnd, SkipSpace, GoodKey;
    FindIs(s[..line], '#', |k| + 3 + |v|);
  }

  lemma CommentedParts(k: string, v: string, comment: string, rest: string)
    ensures var s := Assigned(k, Commented(v, comment, rest));
      var line := |k| + 4 + |v| + |comment|;
      && line < |s| && s[..line] == Assigned(k, v) + ("#" + comment) && |Assigned(k, v)| == |k| + 3 + |v|
      && s[..|k| + 3 + |v|] == Assigned(k, v) && s[line] == '\n' && s[line + 1..] == rest
      && s[|k| + 3..line] == v + "#" + comment
  {
    var s := Assigned(k, Commented(v, comment, rest));
    assert s == (Assigned(k, v) + ("#" + comment)) + ("\n" + rest);
  }

  lemma CommentSplit(v: string, comment: string)
    requires Plain(v)
    ensures var s := v + "#" + comment;
      Find(s, '#') == |v| && s[..|v|] == v && s[|v|..] == "#" + comment && s[|s|..] == "" && |s| == |v| + 1 + |comment|
  {
    var s := v + "#" + comment;
    FindIs(s, '#', |v|);
  }

  lemma WholeLine(comment: string)
    requires OneLine(comment)
    ensures FindEnd("#" + comment) == 1 + |comment|
  {
    FindEndIs("#" + comment, 1 + |comment|);
  }

  /** The comment is cut off; the blanks before it stay with the value. */
  lemma CommentIsCut(v: string, comment: string)
    requires Plain(v) && OneLine(comment)
    ensures Uncommented(v + "#" + comment) == v
  {
    CommentSplit(v, comment);
    WholeLine(comment);
    CutOnce(v + "#" + comment, v);
  }

  lemma CutOnce(s: string, v: string)
    requires s != "" && Find(s, '#') == |v| <= |s| && s[..|v|] == v && |v| + FindEnd(s[|v|..]) == |s|
    ensures Uncommented(s) == v
  {
    hide Find, FindEnd;
    assert CommentEnd(s) == |s|;
    assert s[|s|..] == "";
    NoText();
    hide CommentEnd;
    assert Uncommented(s) == s[..Find(s, '#')] + Uncommented(s[CommentEnd(s)..]);
  }

  lemma MarksCommented(k: string, v: string, comment: string, rest: string)
    requires GoodKey(k) && Plain(v) && v != "" && !IsSpace(v[0])
    requires OneLine(v) && OneLine(comment)
    ensures var s := Assigned(k, Commented(v, comment, rest));
      var n := TrimSpace(Assigned(k, v));
      && |k| + 3 < n <= |k| + 3 + |v| <= |s| && n <= |Assigned(k, v)| && s[..n] == Assigned(k, v)[..n]
      && MarksOf(s) == Marks(0, |k| + 4 + |v| + |comment|, s[..n], |k| + 1)
  {
    hide Find, FindEnd, SkipSpace, TrimSpace, Commented, Assigned, GoodKey, Plain;
    var s := Assigned(k, Commented(v, comment, rest));
    var line := |k| + 4 + |v| + |comment|;
    CommentedLine(k, v, comment, rest);
    ValueFirst(k, v);
    TrimKeeps(Assigned(k, v), |k| + 3);
    var n := TrimSpace(Assigned(k, v));
    EqualsAt(k, v, n);
    SamePrefix(s, |k| + 3 + |v|, n);
    SamePrefix(s, line, |k| + 3 + |v|);
    SamePrefix(s, line, n);
    assert s[0..] == s && s[0..line] == s[..line];
  }

  lemma ValueFirst(k: string, v: string)
    requires v != ""
    ensures |Assigned(k, v)| == |k| + 3 + |v| && Assigned(k, v)[|k| + 3] == v[0] && Assigned(k, v)[|k| + 2] == ' '
  {
  }

  /** `k = v # comment` reads as `v` with the blanks before the comment, and reading goes on at the next line. */
  lemma CommentedRoundTrip(k: string, v: string, comment: string, rest: string)
    requires GoodKey(k) && Plain(v) && v != "" && !IsSpace(v[0]) && v[0] != '['
    requires OneLine(v) && OneLine(comment)
    ensures Parse(Assigned(k, Commented(v, comment, rest))) == Parse(rest)[k := v]
  {
    hide Find, FindEnd, SkipSpace, TrimSpace, TrimBlank, SkipBlank, Commented, Assigned, GoodKey, Plain, OneLine, MarksOf, Uncommented, Parse, ParseOption;
    var s := Assigned(k, Commented(v, comment, rest));
    CommentedOption(k, v, comment, rest);
    CommentedLine(k, v, comment, rest);
    RestAfter(s, |k| + 4 + |v| + |comment|);
    ParseOnce(s);
  }

  lemma RestAfter(s: string, line: nat)
    requires line < |s| && s[line] == '\n'
    ensures Rest(s, line) == s[line + 1..]
  {
  }

  /** A value with its comment. */
  function Tagged(v: string, comment: string): string {
    v + "#" + comment
  }

  lemma CommentedOption(k: string, v: string, comment: string, rest: string)
    requires GoodKey(k) && Plain(v) && v != "" && !IsSpace(v[0]) && v[0] != '[' && OneLine(v) && OneLine(comment)
    ensures ParseOption(Assigned(k, Commented(v, comment, rest))) == (|k| + 4 + |v| + |comment|, Some((k, v)))
  {
    hide Find, FindEnd, SkipSpace, TrimSpace, TrimBlank, SkipBlank, Commented, Assigned, GoodKey, Plain, OneLine, MarksOf, Uncommented, ParseOption, IsSpace, Tagged;
    SomeKey(k);
    var s, n := Assigned(k, Commented(v, comment, rest)), TrimSpace(Assigned(k, v));
    MarksCommented(k, v, comment, rest);
    CommentedValue(k, v, comment, rest);
    OptionAt(k, v, Tagged(v, comment), s, |k| + 4 + |v| + |comment|, n);
  }

  lemma SomeKey(k: string)
    requires GoodKey(k)
    ensures k != ""
  {
  }

  lemma OptionAt(k: string, v: string, u: string, s: string, line: nat, n: nat)
    requires GoodKey(k) && k != "" && v != "" && !IsSpace(v[0]) && v[0] != '['
    requires |k| + 3 < n <= |k| + 3 + |v| && n <= line < |s| && n <= |Assigned(k, v)| && s[..n] == Assigned(k, v)[..n]
    requires MarksOf(s) == Marks(0, line, s[..n], |k| + 1)
    requires s[|k| + 3..line] == u && s[|k| + 3] == v[0] && Uncommented(u) == v
    ensures ParseOption(s) == (line, Some((k, v)))
  {
    hide TrimSpace, TrimBlank, SkipBlank, Assigned, GoodKey, MarksOf, Uncommented, ParseOption, IsSpace;
    CommentedName(k, v, s, n);
    OptionCommented(k, v, u, s, line, n);
  }

  lemma CommentedName(k: string, v: string, s: string, n: nat)
    requires GoodKey(k) && v != "" && !IsSpace(v[0])
    requires |k| + 3 < n <= |k| + 3 + |v| && n <= |s| && n <= |Assigned(k, v)| && s[..n] == Assigned(k, v)[..n]
    ensures TrimBlank(s[..n][..|k| + 1]) == |k| && s[..n][..|k|] == k && Uncommented(k) == k
    ensures SkipBlank(s[..n][|k| + 2..]) == 1
  {
    hide TrimBlank, SkipBlank, Assigned, GoodKey, Uncommented, IsSpace;
    NameIs(k, v, n);
    StartCommented(k, v, s, n);
  }

  lemma CommentedValue(k: string, v: string, comment: string, rest: string)
    requires GoodKey(k) && Plain(v) && v != "" && OneLine(v) && OneLine(comment)
    ensures var s := Assigned(k, Commented(v, comment, rest));
      var line := |k| + 4 + |v| + |comment|;
      && line < |s| && s[|k| + 3..line] == Tagged(v, comment) && s[|k| + 3] == v[0] && Uncommented(Tagged(v, comment)) == v
  {
    hide Find, FindEnd, SkipSpace, Commented, Assigned, GoodKey, Plain, OneLine, Uncommented;
    CommentedLine(k, v, comment, rest);
    CommentIsCut(v, comment);
    SamePoint(Assigned(k, Commented(v, comment, rest)), |k| + 3, |k| + 4 + |v| + |comment|, v + "#" + comment, v[0]);
  }

  lemma StartCommented(k: string, v: string, s: string, n: nat)
    requires |k| + 3 < n <= |Assigned(k, v)| && n <= |s| && s[..n] == Assigned(k, v)[..n] && v != "" && !IsSpace(v[0])
    ensures SkipBlank(s[..n][|k| + 2..]) == 1
  {
    var u := s[..n][|k| + 2..];
    assert u[0] == Assigned(k, v)[..n][|k| + 2] == ' ';
    assert u[1] == Assigned(k, v)[..n][|k| + 3] == v[0];
    BlankOne(u);
  }

  lemma SamePoint(s: string, i: nat, j: nat, u: string, c: char)
    requires i < j <= |s| && s[i..j] == u && u[0] == c
    ensures s[i] == c
  {
  }

  lemma OptionCommented(k: string, v: string, u: string, s: string, line: nat, n: nat)
    requires line < |s| && |k| + 3 < n <= line && k != "" && MarksOf(s) == Marks(0, line, s[..n], |k| + 1)
    requires TrimBlank(s[..n][..|k| + 1]) == |k| && s[..n][..|k|] == k && Uncommented(k) == k
    requires SkipBlank(s[..n][|k| + 2..]) == 1 && s[|k| + 3] != '['
    requires s[|k| + 3..line] == u && Uncommented(u) == v
    ensures ParseOption(s) == (line, Some((k, v)))
  {
    hide MarksOf, Uncommented, TrimBlank, SkipBlank, SkipList;
  }

  /** Lines may end in a carriage return and a line feed: both are skipped. */
  lemma CarriageReturnRoundTrip(k: string, v: string, rest: string)
    requires GoodKey(k) && GoodValue(v) && v[0] != '[' && Plain(rest) && EndsLine(rest)
    ensures Parse(Assigned(k, v + "\r\n" + rest)) == Parse(rest)[k := v]
  {
    ReturnParts(k, v, rest);
    ReturnLine(v, rest);
    hide Assigned, FindEnd, GoodKey, GoodValue, Plain, Rest, Parse;
    ReadLine(k, v, v + "\r\n" + rest, rest);
  }

  /** A value that fills its line is read whole, whatever ends the line. */
  lemma ReadLine(k: string, v: string, t: string, rest: string)
    requires GoodKey(k) && Plain(t) && t != "" && t[|t| - 1] == '\n' && !IsSpace(t[0]) && t[0] != '['
    requires FindEnd(t) == |v| && |Assigned(k, t)| > |k| + 3 + |v|
    requires var s := Assigned(k, t);
      s[|k| + 3] == t[0] && s[|k| + 3..|k| + 3 + |v|] == v && Rest(s, |k| + 3 + |v|) == rest
    ensures Parse(Assigned(k, t)) == Parse(rest)[k := v]
  {
    hide Assigned, ParseOption, FindEnd, GoodKey, Plain, Rest, SkipList, StartOf, Parse, IsSpace;
    var s := Assigned(k, t);
    StartIs(k, t);
    OptionIs(k, t);
    assert NextAfter(s, |k| + 3, |k| + 3 + |v|) == |k| + 3 + |v|;
    hide NextAfter;
    ParseOnce(s);
  }

  lemma ReturnLine(v: string, rest: string)
    requires GoodValue(v) && v[0] != '[' && Plain(rest) && EndsLine(rest)
    ensures var t := v + "\r\n" + rest;
      t != "" && Plain(t) && t[|t| - 1] == '\n' && t[0] == v[0] && !IsSpace(t[0]) && FindEnd(t) == |v|
  {
    FindEndIs(v + "\r\n" + rest, |v|);
  }

  lemma ReturnParts(k: string, v: string, rest: string)
    requires v != ""
    ensures var s := Assigned(k, v + "\r\n" + rest);
      && |s| > |k| + 3 && s[|k| + 3] == v[0] && s[|k| + 3..|k| + 3 + |v|] == v
      && Rest(s, |k| + 3 + |v|) == rest
  {
    var s := Assigned(k, v + "\r\n" + rest);
    assert s == (k + " = " + v) + ("\r\n" + rest);
    assert s[|k| + 3 + |v|] == '\r' && s[|k| + 5 + |v|..] == rest;
  }
}
