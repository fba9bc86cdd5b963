/** The configuration reader: one `key: value` a line, with one level of sections, and every other YAML
    construct refused. */
module SimpleYaml {
  import opened Common

  type Values = map<string, string>

  datatype Fault =
    | Tab | ManyDocuments | Sequence | FlowCollection | Anchor | OneSpace | NoColon | EmptyKey | DeepIndent
    | NoSection | EmptyScalar | DuplicateKey(key: string)

  /** The line a text is refused at, counted from one, and why. */
  datatype ParseError = ParseError(line: nat, fault: Fault)

  /** What has been read: the values, and the section that nested keys belong to. */
  datatype Reading = Reading(values: Values, section: string)

  // ----- comments and quotes -----

  /** Where the scan stands: inside which quote, and whether the next character is escaped. */
  datatype Scan = Scan(quote: char, escaped: bool)

  const NO_QUOTE := '\0'

  function Scanned(scan: Scan, c: char): Scan {
    if scan.escaped then scan.(escaped := false)
    else if scan.quote == '"' && c == '\\' then scan.(escaped := true)
    else if c == '\'' || c == '"' then
      if scan.quote == NO_QUOTE then scan.(quote := c) else if scan.quote == c then scan.(quote := NO_QUOTE) else scan
    else scan
  }

  /** A hash outside quotes starts a comment. */
  predicate StartsComment(scan: Scan, c: char) {
    !scan.escaped && scan.quote == NO_QUOTE && c == '#'
  }

  function CommentAt(line: string, i: nat, scan: Scan): (end: nat)
    requires i <= |line|
    ensures i <= end <= |line|
    decreases |line| - i
  {
    if i == |line| || StartsComment(scan, line[i]) then i else CommentAt(line, i + 1, Scanned(scan, line[i]))
  }

  function TrimTail(s: string): string {
    if s != "" && (s[|s| - 1] == ' ' || s[|s| - 1] == '\t') then TrimTail(s[..|s| - 1]) else s
  }

  function WithoutComment(line: string): string {
    var end := CommentAt(line, 0, Scan(NO_QUOTE, false));
    if end < |line| then TrimTail(line[..end]) else line
  }

  method StripConfigComment(line: string) returns (r: string)
    ensures r == WithoutComment(line)
  {
    var quote, escaped := NO_QUOTE, false;
    for i := 0 to |line|
      invariant CommentAt(line, 0, Scan(NO_QUOTE, false)) == CommentAt(line, i, Scan(quote, escaped))
    {
      var c := line[i];
      if escaped {
        escaped := false;
        continue;
      }
      if quote == '"' && c == '\\' {
        escaped := true;
        continue;
      }
      if c == '\'' || c == '"' {
        if quote == NO_QUOTE {
          quote := c;
        } else if quote == c {
          quote := NO_QUOTE;
        }
        continue;
      }
      if c == '#' && quote == NO_QUOTE {
        return TrimTail(line[..i]);
      }
    }
    return line;
  }

  function Unquote(value: string): string {
    if |value| >= 2 && value[0] == value[|value| - 1] && (value[0] == '"' || value[0] == '\'')
    then value[1..|value| - 1] else value
  }

  // ----- one line -----

  /** The position of the first colon, or the length. */
  function Colon(s: string): (k: nat)
    ensures k <= |s| && (k < |s| ==> s[k] == ':')
  {
    if s == "" || s[0] == ':' then 0 else 1 + Colon(s[1..])
  }

  predicate HasAny(s: string, chars: set<char>) {
    exists i :: 0 <= i < |s| && s[i] in chars
  }

  /** What the shape of a line, comment stripped and not blank, is refused for. */
  function ShapeFault(line: string): Option<Fault> {
    var trimmed := TrimSpace(line);
    if HasAny(line, {'\t'}) then Some(Tab)
    else if trimmed == "---" || trimmed == "..." then Some(ManyDocuments)
    else if "-" <= trimmed then Some(Sequence)
    else if HasAny(trimmed, {'[', ']', '{', '}'}) then Some(FlowCollection)
    else if HasAny(trimmed, {'&', '*'}) then Some(Anchor)
    else if " " <= line && !("  " <= line) then Some(OneSpace)
    else if Colon(trimmed) == |trimmed| then Some(NoColon)
    else if KeyOf(line) == "" then Some(EmptyKey)
    else None
  }

  function KeyOf(line: string): string {
    TrimSpace(TrimSpace(line)[..Colon(TrimSpace(line))])
  }

  /** What stands after the colon. */
  function ScalarOf(line: string): string {
    var trimmed := TrimSpace(line);
    if Colon(trimmed) < |trimmed| then TrimSpace(trimmed[Colon(trimmed) + 1..]) else ""
  }

  predicate Skipped(line: string) {
    TrimSpace(line) == "" || "#" <= TrimSpace(line)
  }

  function Entered(p: Reading, key: string, scalar: string): Result<Values, Fault> {
    if key in p.values then Err(DuplicateKey(key)) else Ok(p.values[key := Unquote(scalar)])
  }

  /** One line more. */
  function ReadLine(p: Reading, raw: string): Result<Reading, Fault> {
    var line := WithoutComment(raw);
    if Skipped(line) then Ok(p)
    else if ShapeFault(line).Some? then Err(ShapeFault(line).value)
    else
      var key, scalar := KeyOf(line), ScalarOf(line);
      if "  " <= line then
        if "   " <= line then Err(DeepIndent)
        else if p.section == "" then Err(NoSection)
        else if scalar == "" then Err(EmptyScalar)
        else
          var values := Entered(p, p.section + "." + key, scalar);
          if values.Err? then Err(values.error) else Ok(Reading(values.value, p.section))
      else if scalar == "" then Ok(Reading(p.values, key))
      else
        var values := Entered(p, key, scalar);
        if values.Err? then Err(values.error) else Ok(Reading(values.value, ""))
  }

  /** The reading of the lines from `i` on. */
  function ReadLines(lines: seq<string>, i: nat, p: Reading): Result<Values, ParseError>
    requires i <= |lines|
    decreases |lines| - i
  {
    if i == |lines| then Ok(p.values)
    else
      var next := ReadLine(p, lines[i]);
      if next.Err? then Err(ParseError(i + 1, next.error)) else ReadLines(lines, i + 1, next.value)
  }

  function Parsed(raw: string): Result<Values, ParseError> {
    ReadLines(Split(raw, '\n'), 0, Reading(map[], ""))
  }

  method ParseSimpleYAML(raw: string) returns (r: Result<Values, ParseError>)
    ensures r == Parsed(raw)
  {
    var lines := Split(raw, '\n');
    var out: Values, section := map[], "";
    for i := 0 to |lines|
      invariant Parsed(raw) == ReadLines(lines, i, Reading(out, section))
    {
      var line := StripConfigComment(lines[i]);
      var trimmed := TrimSpace(line);
      if trimmed == "" || "#" <= trimmed {
        continue;
      }
      var fault := ShapeFault(line);
      if fault.Some? {
        return Err(ParseError(i + 1, fault.value));
      }
      var key, value := TrimSpace(trimmed[..Colon(trimmed)]), TrimSpace(trimmed[Colon(trimmed) + 1..]);
      if "  " <= line {
        if "   " <= line {
          return Err(ParseError(i + 1, DeepIndent));
        }
        if section == "" {
          return Err(ParseError(i + 1, NoSection));
        }
        if value == "" {
          return Err(ParseError(i + 1, EmptyScalar));
        }
        var fullKey := section + "." + key;
        if fullKey in out {
          return Err(ParseError(i + 1, DuplicateKey(fullKey)));
        }
        out := out[fullKey := Unquote(value)];
        continue;
      }
      if value == "" {
        section := key;
        continue;
      }
      section := "";
      if key in out {
        return Err(ParseError(i + 1, DuplicateKey(key)));
      }
      out := out[key := Unquote(value)];
    }
    return Ok(out);
  }

  // ----- where empty values come from -----

  /** A line, comment aside, that gives its key nothing between two quotes. */
  predicate GivesEmpty(raw: string) {
    var line := WithoutComment(raw);
    !Skipped(line) && (ScalarOf(line) == "\"\"" || ScalarOf(line) == "''")
  }

  predicate HasEmpty(values: Values) {
    exists key :: key in values && values[key] == ""
  }

  lemma UnquoteEmpty(value: string)
    requires value != ""
    ensures Unquote(value) == "" <==> value == "\"\"" || value == "''"
  {
    if |value| == 2 {
      assert value == [value[0], value[1]];
    }
  }

  lemma LineGivesEmpty(p: Reading, raw: string)
    requires ReadLine(p, raw).Ok?
    ensures HasEmpty(ReadLine(p, raw).value.values) <==> HasEmpty(p.values) || GivesEmpty(raw)
  {
    var line := WithoutComment(raw);
    if !Skipped(line) && ScalarOf(line) != "" {
      UnquoteEmpty(ScalarOf(line));
      var key := if "  " <= line then p.section + "." + KeyOf(line) else KeyOf(line);
      OneMoreValue(p.values, key, Unquote(ScalarOf(line)));
    }
  }

  lemma OneMoreValue(values: Values, key: string, value: string)
    requires key !in values
    ensures HasEmpty(values[key := value]) <==> HasEmpty(values) || value == ""
  {
    if HasEmpty(values) {
      var k :| k in values && values[k] == "";
      assert values[key := value][k] == "";
    }
    assert values[key := value][key] == value;
  }

  lemma {:induction false} LinesGiveEmpty(lines: seq<string>, i: nat, p: Reading)
    requires i <= |lines| && ReadLines(lines, i, p).Ok?
    ensures HasEmpty(ReadLines(lines, i, p).value) <==>
            HasEmpty(p.values) || exists k :: i <= k < |lines| && GivesEmpty(lines[k])
    decreases |lines| - i
  {
    if i < |lines| {
      LineGivesEmpty(p, lines[i]);
      LinesGiveEmpty(lines, i + 1, ReadLine(p, lines[i]).value);
    }
  }

  predicate QuotesNothing(raw: string) {
    var lines := Split(raw, '\n');
    exists k :: 0 <= k < |lines| && GivesEmpty(lines[k])
  }

  /** A text that can be read has a key with an empty value exactly when one of its lines gives its key
      a pair of quotes with nothing in it: an empty scalar without quotes opens a section or is refused. */
  lemma EmptyValueExactlyWhen(raw: string)
    requires Parsed(raw).Ok?
    ensures HasEmpty(Parsed(raw).value) <==> QuotesNothing(raw)
  {
    var nothing: Values := map[];
    assert !HasEmpty(nothing);
    LinesGiveEmpty(Split(raw, '\n'), 0, Reading(nothing, ""));
  }

  // ----- texts of one line -----

  predicate PlainChar(c: char) {
    'a' <= c <= 'z' || 'A' <= c <= 'Z' || '0' <= c <= '9' || c == '_' || c == '.'
  }

  /** A key of letters, digits, underscores and dots that does not start with a dot. */
  predicate PlainKey(key: string) {
    key != "" && (forall i :: 0 <= i < |key| ==> PlainChar(key[i])) && key[0] != '.'
  }

  function QuotedNothing(key: string): string { key + ": \"\"" }

  lemma {:induction false} NoCommentIn(line: string, n: nat, i: nat)
    requires i <= n <= |line| && forall k :: i <= k < n ==> line[k] !in {'#', '"', '\''}
    ensures CommentAt(line, i, Scan(NO_QUOTE, false)) == CommentAt(line, n, Scan(NO_QUOTE, false))
    decreases n - i
  {
    if i < n {
      NoCommentIn(line, n, i + 1);
    }
  }

  lemma {:induction false} ColonAfter(key: string, rest: string)
    requires ':' !in key
    ensures Colon(key + ":" + rest) == |key|
  {
    var s := key + ":" + rest;
    if key != "" {
      assert key == [key[0]] + key[1..] && s[1..] == key[1..] + ":" + rest;
      ColonAfter(key[1..], rest);
    }
  }

  lemma TrimmedAlready(s: string)
    requires s != "" && !Space(s[0]) && !Space(s[|s| - 1])
    ensures TrimSpace(s) == s
  {
  }

  lemma QuotedLine(key: string)
    requires PlainKey(key)
    ensures var line := QuotedNothing(key);
            && WithoutComment(line) == line && TrimSpace(line) == line
            && KeyOf(line) == key && ScalarOf(line) == "\"\""
  {
    var line := QuotedNothing(key);
    var n := |key| + 2;
    forall k | 0 <= k < n ensures line[k] !in {'#', '"', '\''} {
      assert k < |key| ==> line[k] == key[k] && PlainChar(key[k]);
    }
    NoCommentIn(line, n, 0);
    assert line[n] == '"' && line[n + 1] == '"' && |line| == n + 2;
    assert CommentAt(line, n, Scan(NO_QUOTE, false)) == CommentAt(line, n + 1, Scan('"', false));
    assert CommentAt(line, n + 1, Scan('"', false)) == CommentAt(line, n + 2, Scan(NO_QUOTE, false));
    assert PlainChar(key[0]) && PlainChar(key[|key| - 1]) && line[0] == key[0];
    TrimmedAlready(line);
    TrimmedAlready(key);
    assert line == key + ":" + " \"\"";
    assert ':' !in key;
    ColonAfter(key, " \"\"");
    assert line[..|key|] == key && line[|key| + 1..] == " \"\"";
    TrimQuotes();
  }

  lemma TrimQuotes()
    ensures TrimSpace(" \"\"") == "\"\""
  {
    assert " \"\""[1..] == "\"\"";
  }

  lemma QuotedShape(key: string)
    requires PlainKey(key) && TrimSpace(QuotedNothing(key)) == QuotedNothing(key) && KeyOf(QuotedNothing(key)) == key
    requires Colon(QuotedNothing(key)) < |QuotedNothing(key)|
    ensures ShapeFault(QuotedNothing(key)).None? && !Skipped(QuotedNothing(key)) && !(" " <= QuotedNothing(key))
    ensures '\n' !in QuotedNothing(key)
  {
    var line := QuotedNothing(key);
    assert PlainChar(key[0]) && line[0] == key[0];
    forall i | 0 <= i < |line| ensures PlainChar(line[i]) || line[i] in {':', ' ', '"'} {
      assert i < |key| ==> line[i] == key[i] && PlainChar(key[i]);
    }
    assert line[|line| - 1] == '"';
  }

  /** The text `key: ""` is read as a policy with that key and an empty value. */
  lemma QuotedNothingIsEmpty(key: string)
    requires PlainKey(key)
    ensures Parsed(QuotedNothing(key)) == Ok(map[key := ""])
  {
    var line := QuotedNothing(key);
    QuotedLine(key);
    assert ':' !in key;
    ColonAfter(key, " \"\"");
    assert line == key + ":" + " \"\"";
    QuotedShape(key);
    SplitOne(line, '\n');
    var p := Reading(map[], "");
    assert Unquote("\"\"") == "";
    assert ReadLine(p, line) == Ok(Reading(map[key := ""], ""));
    assert ReadLines([line], 1, Reading(map[key := ""], "")) == Ok(map[key := ""]);
  }

  lemma NothingIsRead()
    ensures Parsed("") == Ok(map[])
  {
    assert Split("", '\n') == [""];
    assert CommentAt("", 0, Scan(NO_QUOTE, false)) == 0;
    assert ReadLine(Reading(map[], ""), "") == Ok(Reading(map[], ""));
  }
}
