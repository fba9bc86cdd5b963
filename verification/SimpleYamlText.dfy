/** Documents for the configuration reader: how they are written, and what they mean. */
module SimpleYamlText {
  import opened Common
  import opened SimpleYaml

  // ----- what is written -----

  /** A character refused wherever it stands, comments aside. */
  predicate Refused(c: char) {
    c in ['\n', '\t', '[', ']', '{', '}', '&', '*']
  }

  /** One character between quotes, by itself or after a backslash. */
  datatype Piece = Itself(c: char) | Escaped(c: char)

  datatype Scalar = Plain(text: string) | Quoted(quote: char, pieces: seq<Piece>)

  function PieceText(p: Piece): (s: string)
    ensures s != ""
  {
    match p
    case Itself(c) => [c]
    case Escaped(c) => ['\\', c]
  }

  function PiecesText(pieces: seq<Piece>): string {
    if pieces == [] then "" else PieceText(pieces[0]) + PiecesText(pieces[1..])
  }

  function ScalarText(s: Scalar): string {
    match s
    case Plain(text) => text
    case Quoted(quote, pieces) => [quote] + PiecesText(pieces) + [quote]
  }

  /** What a value means: itself, or what stands between its quotes. */
  function Meant(s: Scalar): string {
    match s
    case Plain(text) => text
    case Quoted(_, pieces) => PiecesText(pieces)
  }

  /** Nothing between quotes ends them, and backslashes count in double quotes alone. */
  predicate PieceFits(quote: char, p: Piece) {
    !Refused(p.c) && (if p.Itself? then p.c != quote && !(quote == '"' && p.c == '\\') else quote == '"')
  }

  predicate ScalarFits(s: Scalar) {
    match s
    case Plain(text) =>
      && text != "" && !Space(text[0]) && !Space(text[|text| - 1])
      && forall i :: 0 <= i < |text| ==> !Refused(text[i]) && text[i] !in ['#', '"', '\'']
    case Quoted(quote, pieces) =>
      (quote == '"' || quote == '\'') && forall i :: 0 <= i < |pieces| ==> PieceFits(quote, pieces[i])
  }

  /** White space within a line; carriage returns may stand at its end. */
  predicate Gap(s: string) {
    forall i :: 0 <= i < |s| ==> Space(s[i]) && s[i] != '\t' && s[i] != '\n'
  }

  /** What may follow on a line: white space, and a comment. */
  datatype Tail = Tail(gap: string, comment: Option<string>)

  function TailText(t: Tail): string {
    t.gap + if t.comment.Some? then ['#'] + t.comment.value else []
  }

  predicate TailFits(t: Tail) {
    Gap(t.gap) && (t.comment.Some? ==> '\n' !in t.comment.value)
  }

  datatype Line =
    | Empty(tail: Tail)
    | Section(key: string, before: string, tail: Tail)
    | Setting(nested: bool, key: string, before: string, after: string, scalar: Scalar, tail: Tail)

  /** A line up to its tail, the indent aside. */
  function Body(l: Line): string {
    match l
    case Empty(_) => ""
    case Section(key, before, _) => key + before + ":"
    case Setting(_, key, before, after, scalar, _) => key + before + ":" + (after + ScalarText(scalar))
  }

  function Indent(l: Line): string {
    if l.Setting? && l.nested then "  " else ""
  }

  function LineText(l: Line): string {
    Indent(l) + Body(l) + TailText(l.tail)
  }

  predicate LineFits(l: Line) {
    && TailFits(l.tail)
    && (!l.Empty? ==> PlainKey(l.key) && Gap(l.before))
    && (l.Setting? ==> Gap(l.after) && ScalarFits(l.scalar))
  }

  // ----- what is meant -----

  /** The section in force before a line. */
  function SectionAt(doc: seq<Line>, i: nat): string
    requires i <= |doc|
  {
    if i == 0 then ""
    else
      match doc[i - 1]
      case Empty(_) => SectionAt(doc, i - 1)
      case Section(key, _, _) => key
      case Setting(nested, _, _, _, _, _) => if nested then SectionAt(doc, i - 1) else ""
  }

  predicate Sets(doc: seq<Line>, i: int) {
    0 <= i < |doc| && doc[i].Setting?
  }

  /** The key a setting is known by. */
  function FullKey(doc: seq<Line>, i: nat): string
    requires Sets(doc, i)
  {
    if doc[i].nested then SectionAt(doc, i) + "." + doc[i].key else doc[i].key
  }

  /** Lines in form, nested settings in a section, and no key set twice. */
  ghost predicate DocumentFits(doc: seq<Line>) {
    && (forall i :: 0 <= i < |doc| ==> LineFits(doc[i]))
    && (forall i: nat :: Sets(doc, i) && doc[i].nested ==> SectionAt(doc, i) != "")
    && (forall i: nat, j: nat :: Sets(doc, i) && Sets(doc, j) && i < j ==> FullKey(doc, i) != FullKey(doc, j))
  }

  /** The values of a policy are those its first `n` lines set. */
  ghost predicate Means(doc: seq<Line>, n: nat, values: Values) {
    && (forall i: nat :: Sets(doc, i) && i < n ==> FullKey(doc, i) in values && values[FullKey(doc, i)] == Meant(doc[i].scalar))
    && (forall key :: key in values ==> exists i: nat :: Sets(doc, i) && i < n && FullKey(doc, i) == key)
  }

  function Texts(doc: seq<Line>): (r: seq<string>)
    ensures |r| == |doc| && forall i :: 0 <= i < |r| ==> r[i] == LineText(doc[i])
  {
    seq(|doc|, i requires 0 <= i < |doc| => LineText(doc[i]))
  }

  function DocumentText(doc: seq<Line>): string
    requires doc != []
  {
    Join(Texts(doc), '\n')
  }

  // ----- where a comment starts -----

  const OUTSIDE := Scan(NO_QUOTE, false)

  /** Text without hashes and quotes does not move the scan. */
  predicate Quiet(s: string) {
    forall i :: 0 <= i < |s| ==> s[i] !in ['#', '"', '\'']
  }

  lemma {:induction false} PiecesPass(line: string, i: nat, quote: char, pieces: seq<Piece>, n: nat)
    requires quote == '"' || quote == '\''
    requires n == i + |PiecesText(pieces)| <= |line| && line[i..n] == PiecesText(pieces)
    requires forall k :: 0 <= k < |pieces| ==> PieceFits(quote, pieces[k])
    ensures CommentAt(line, i, Scan(quote, false)) == CommentAt(line, n, Scan(quote, false))
    decreases pieces
  {
    if pieces != [] {
      var head, rest := PieceText(pieces[0]), PiecesText(pieces[1..]);
      var m := i + |head|;
      assert line[i..m] == head && line[m..n] == rest;
      assert line[i] == head[0];
      if pieces[0].Escaped? {
        assert line[i + 1] == head[1];
        assert CommentAt(line, i, Scan(quote, false)) == CommentAt(line, i + 1, Scan(quote, true));
      }
      assert CommentAt(line, i, Scan(quote, false)) == CommentAt(line, m, Scan(quote, false));
      PiecesPass(line, m, quote, pieces[1..], n);
    }
  }

  lemma Window(line: string, i: nat, n: nat)
    requires i + 2 <= n <= |line|
    ensures var whole := line[i..n];
            && line[i] == whole[0] && line[n - 1] == whole[|whole| - 1]
            && line[i + 1..n - 1] == whole[1..|whole| - 1]
  {
    var whole := line[i..n];
    var a, b := line[i + 1..n - 1], whole[1..|whole| - 1];
    forall k | 0 <= k < |a| ensures a[k] == b[k] {
      assert b[k] == whole[1 + k] == line[i + (1 + k)];
    }
  }

  lemma ScalarPasses(line: string, i: nat, s: Scalar, n: nat)
    requires ScalarFits(s) && n == i + |ScalarText(s)| <= |line| && line[i..n] == ScalarText(s)
    ensures CommentAt(line, i, OUTSIDE) == CommentAt(line, n, OUTSIDE)
  {
    match s
    case Plain(text) => {
      assert forall k :: i <= k < n ==> line[k] == line[i..n][k - i];
      NoCommentIn(line, n, i);
    }
    case Quoted(quote, pieces) => {
      var text := PiecesText(pieces);
      var whole := line[i..n];
      assert whole == [quote] + text + [quote];
      Window(line, i, n);
      assert whole[1..|whole| - 1] == text;
      assert CommentAt(line, i, OUTSIDE) == CommentAt(line, i + 1, Scan(quote, false));
      PiecesPass(line, i + 1, quote, pieces, n - 1);
      assert CommentAt(line, n - 1, Scan(quote, false)) == CommentAt(line, n, OUTSIDE);
    }
  }

  lemma GapIsQuiet(s: string)
    requires Gap(s)
    ensures Quiet(s) && Blank(s)
  {
  }

  lemma KeyIsQuiet(key: string)
    requires PlainKey(key)
    ensures Quiet(key) && ':' !in key && !Space(key[0]) && !Space(key[|key| - 1])
  {
    assert PlainChar(key[0]) && PlainChar(key[|key| - 1]);
  }

  lemma QuietJoin(a: string, b: string)
    requires Quiet(a) && Quiet(b)
    ensures Quiet(a + b)
  {
  }

  /** What stands before the scalar of a setting. */
  function Head(l: Line): string
    requires l.Setting?
  {
    Indent(l) + l.key + l.before + ":" + l.after
  }

  lemma HeadIsQuiet(l: Line)
    requires l.Setting? && LineFits(l)
    ensures Quiet(Head(l)) && Indent(l) + Body(l) == Head(l) + ScalarText(l.scalar)
  {
    KeyIsQuiet(l.key);
    GapIsQuiet(l.before);
    GapIsQuiet(l.after);
    QuietJoin(Indent(l), l.key);
    QuietJoin(Indent(l) + l.key, l.before);
    QuietJoin(Indent(l) + l.key + l.before, ":");
    QuietJoin(Indent(l) + l.key + l.before + ":", l.after);
  }

  /** The scan reaches the tail of a line outside any quotes. */
  lemma BodyPasses(l: Line)
    requires LineFits(l)
    ensures var n := |Indent(l) + Body(l)|; CommentAt(LineText(l), 0, OUTSIDE) == CommentAt(LineText(l), n, OUTSIDE)
  {
    match l
    case Empty(_) =>
    case Section(key, before, _) => {
      KeyIsQuiet(key);
      GapIsQuiet(before);
      QuietJoin(key, before);
      QuietJoin(key + before, ":");
      StartPasses(LineText(l), Body(l), "", TailText(l.tail));
    }
    case Setting(_, _, _, _, _, _) => SettingPasses(l);
  }

  lemma SettingPasses(l: Line)
    requires LineFits(l) && l.Setting?
    ensures var n := |Indent(l) + Body(l)|; CommentAt(LineText(l), 0, OUTSIDE) == CommentAt(LineText(l), n, OUTSIDE)
  {
    HeadIsQuiet(l);
    StartPasses(LineText(l), Head(l), ScalarText(l.scalar), TailText(l.tail));
    MiddlePasses(LineText(l), Head(l), l.scalar, TailText(l.tail));
  }

  lemma StartPasses(line: string, head: string, text: string, tail: string)
    requires line == head + text + tail && Quiet(head)
    ensures CommentAt(line, 0, OUTSIDE) == CommentAt(line, |head|, OUTSIDE)
  {
    assert forall k :: 0 <= k < |head| ==> line[k] == head[k];
    NoCommentIn(line, |head|, 0);
  }

  lemma MiddlePasses(line: string, head: string, scalar: Scalar, tail: string)
    requires line == head + ScalarText(scalar) + tail && ScalarFits(scalar)
    ensures var n := |head + ScalarText(scalar)|; CommentAt(line, |head|, OUTSIDE) == CommentAt(line, n, OUTSIDE)
  {
    assert line[|head|..|head| + |ScalarText(scalar)|] == ScalarText(scalar);
    ScalarPasses(line, |head|, scalar, |head| + |ScalarText(scalar)|);
  }

  lemma {:induction false} TailIsTrimmed(s: string, gap: string) returns (rest: string)
    requires Gap(gap) && (s == "" || !Space(s[|s| - 1]))
    ensures TrimTail(s + gap) == s + rest && Gap(rest)
    decreases gap
  {
    if gap == "" {
      rest := "";
      assert s + gap == s;
    } else if gap[|gap| - 1] == ' ' {
      assert (s + gap)[..|s + gap| - 1] == s + gap[..|gap| - 1];
      rest := TailIsTrimmed(s, gap[..|gap| - 1]);
    } else {
      rest := gap;
    }
  }

  /** Without its comment a line is its body and white space. */
  lemma CommentGoes(l: Line) returns (gap: string)
    requires LineFits(l)
    ensures WithoutComment(LineText(l)) == Indent(l) + Body(l) + gap && Gap(gap)
  {
    BodyPasses(l);
    BodyEnds(l);
    gap := TailGoes(LineText(l), Indent(l) + Body(l), l.tail);
  }

  lemma TailGoes(line: string, body: string, tail: Tail) returns (gap: string)
    requires line == body + TailText(tail) && TailFits(tail) && (body == "" || !Space(body[|body| - 1]))
    requires CommentAt(line, 0, OUTSIDE) == CommentAt(line, |body|, OUTSIDE)
    ensures WithoutComment(line) == body + gap && Gap(gap)
  {
    var n, m := |body|, |body| + |tail.gap|;
    GapIsQuiet(tail.gap);
    assert m <= |line| && forall k :: n <= k < m ==> line[k] == tail.gap[k - n];
    NoCommentIn(line, m, n);
    if tail.comment.Some? {
      assert line[m] == '#' && line[..m] == body + tail.gap;
      gap := TailIsTrimmed(body, tail.gap);
    } else {
      assert line == body + tail.gap;
      gap := tail.gap;
    }
  }

  lemma BodyEnds(l: Line)
    requires LineFits(l)
    ensures var b := Indent(l) + Body(l); l.Empty? || (b != "" && !Space(b[|b| - 1]))
    ensures l.Empty? ==> Indent(l) + Body(l) == ""
  {
    if l.Setting? {
      var scalar := ScalarText(l.scalar);
      assert (Indent(l) + Body(l))[|Indent(l) + Body(l)| - 1] == scalar[|scalar| - 1];
    }
  }

  // ----- what the reader makes of a line -----

  lemma EmptyIsSkipped(l: Line)
    requires LineFits(l) && l.Empty?
    ensures Skipped(WithoutComment(LineText(l)))
  {
    var gap := CommentGoes(l);
    BodyEnds(l);
    assert "" + gap == gap;
    GapIsQuiet(gap);
    BlankTrims(gap);
  }

  /** The parts of a trimmed line around its first colon. */
  lemma PartsAround(key: string, before: string, back: string)
    requires PlainKey(key) && Gap(before)
    ensures var body, n := key + before + ":" + back, |key + before|;
            Colon(body) == n < |body| && TrimSpace(body[..n]) == key && body[n + 1..] == back
  {
    var front := key + before;
    KeyIsQuiet(key);
    GapIsQuiet(before);
    assert forall c :: c in before ==> Space(c);
    ColonAfter(front, back);
    Trims("", key, before);
    assert "" + key + before == front;
    assert (front + ":" + back)[..|front|] == front;
  }

  lemma BodyTrims(l: Line, gap: string)
    requires LineFits(l) && !l.Empty? && Gap(gap)
    ensures TrimSpace(Indent(l) + Body(l) + gap) == Body(l)
  {
    KeyIsQuiet(l.key);
    BodyEnds(l);
    GapIsQuiet(gap);
    EndsOf(Indent(l), Body(l), l.key);
    Trims(Indent(l), Body(l), gap);
  }

  lemma EndsOf(indent: string, body: string, key: string)
    requires body != "" && key != "" && key <= body
    ensures body[0] == key[0] && (indent + body)[|indent + body| - 1] == body[|body| - 1]
  {
  }

  /** What stands after the colon of a line. */
  function Back(l: Line): string {
    if l.Setting? then l.after + ScalarText(l.scalar) else ""
  }

  lemma PartsOf(l: Line, gap: string)
    requires LineFits(l) && !l.Empty? && Gap(gap)
    ensures var line := Indent(l) + Body(l) + gap;
            && TrimSpace(line) == Body(l) && Colon(Body(l)) < |Body(l)|
            && KeyOf(line) == l.key && ScalarOf(line) == TrimSpace(Back(l))
  {
    BodyTrims(l, gap);
    PartsAround(l.key, l.before, Back(l));
    assert Body(l) == l.key + l.before + ":" + Back(l);
  }

  lemma ScalarTrims(after: string, s: Scalar)
    requires Gap(after) && ScalarFits(s)
    ensures TrimSpace(after + ScalarText(s)) == ScalarText(s) != ""
    ensures Unquote(ScalarText(s)) == Meant(s)
  {
    var text := ScalarText(s);
    GapIsQuiet(after);
    Trims(after, text, "");
    assert after + text + "" == after + text;
    if s.Quoted? {
      assert text[1..|text| - 1] == PiecesText(s.pieces);
    }
  }

  /** No character of a text is refused. */
  predicate Clean(s: string) {
    forall i :: 0 <= i < |s| ==> !Refused(s[i])
  }

  lemma CleanJoin(a: string, b: string)
    requires Clean(a) && Clean(b)
    ensures Clean(a + b)
  {
  }

  lemma GapIsClean(s: string)
    requires Gap(s)
    ensures Clean(s)
  {
  }

  lemma KeyIsClean(key: string)
    requires PlainKey(key)
    ensures Clean(key)
  {
    assert forall c :: PlainChar(c) ==> !Refused(c);
  }

  lemma {:induction false} PiecesAreClean(quote: char, pieces: seq<Piece>)
    requires forall i :: 0 <= i < |pieces| ==> PieceFits(quote, pieces[i])
    ensures Clean(PiecesText(pieces))
  {
    if pieces != [] {
      PiecesAreClean(quote, pieces[1..]);
      CleanJoin(PieceText(pieces[0]), PiecesText(pieces[1..]));
    }
  }

  lemma ScalarIsClean(s: Scalar)
    requires ScalarFits(s)
    ensures Clean(ScalarText(s))
  {
    if s.Quoted? {
      PiecesAreClean(s.quote, s.pieces);
      CleanJoin([s.quote], PiecesText(s.pieces));
      CleanJoin([s.quote] + PiecesText(s.pieces), [s.quote]);
    }
  }

  lemma BodyIsClean(l: Line)
    requires LineFits(l) && !l.Empty?
    ensures Clean(Body(l)) && Clean(Indent(l))
  {
    KeyIsClean(l.key);
    GapIsClean(l.before);
    CleanJoin(l.key, l.before);
    CleanJoin(l.key + l.before, ":");
    if l.Setting? {
      GapIsClean(l.after);
      ScalarIsClean(l.scalar);
      CleanJoin(l.after, ScalarText(l.scalar));
      CleanJoin(l.key + l.before + ":", l.after + ScalarText(l.scalar));
    }
  }

  lemma CleanHasNone(s: string)
    requires Clean(s)
    ensures !HasAny(s, {'\t'}) && !HasAny(s, {'[', ']', '{', '}'}) && !HasAny(s, {'&', '*'}) && '\n' !in s
  {
  }

  /** How a line starts. */
  lemma StartOf(l: Line, gap: string)
    requires LineFits(l) && !l.Empty?
    ensures var line := Indent(l) + Body(l) + gap;
            && ("  " <= line <==> Indent(l) != "") && !("   " <= line) && (" " <= line ==> "  " <= line)
    ensures Body(l) != "---" && Body(l) != "..." && !("-" <= Body(l)) && !("#" <= Body(l)) && Body(l) != ""
  {
    var line, c := Indent(l) + Body(l) + gap, l.key[0];
    assert PlainChar(c) && Body(l)[0] == c;
    assert line[|Indent(l)|] == c;
  }

  /** A line in form is refused for nothing in its shape. */
  lemma ShapeIsFine(l: Line, gap: string)
    requires LineFits(l) && !l.Empty? && Gap(gap)
    ensures var line := Indent(l) + Body(l) + gap; ShapeFault(line).None? && !Skipped(line)
  {
    PartsOf(l, gap);
    StartOf(l, gap);
    BodyIsClean(l);
    GapIsClean(gap);
    CleanJoin(Indent(l), Body(l));
    CleanJoin(Indent(l) + Body(l), gap);
    CleanHasNone(Body(l));
    CleanHasNone(Indent(l) + Body(l) + gap);
  }

  /** What a line in form does to what was read so far. */
  function Reads(p: Reading, l: Line): Result<Reading, Fault> {
    match l
    case Empty(_) => Ok(p)
    case Section(key, _, _) => Ok(Reading(p.values, key))
    case Setting(nested, key, _, _, scalar, _) =>
      var full := if nested then p.section + "." + key else key;
      if nested && p.section == "" then Err(NoSection)
      else if full in p.values then Err(DuplicateKey(full))
      else Ok(Reading(p.values[full := Meant(scalar)], if nested then p.section else ""))
  }

  lemma LineReads(p: Reading, l: Line)
    requires LineFits(l)
    ensures ReadLine(p, LineText(l)) == Reads(p, l)
  {
    if l.Empty? {
      EmptyIsSkipped(l);
    } else {
      var gap := CommentGoes(l);
      ShapeIsFine(l, gap);
      PartsOf(l, gap);
      StartOf(l, gap);
      BackTrims(l);
    }
  }

  lemma BackTrims(l: Line)
    requires LineFits(l)
    ensures !l.Setting? ==> TrimSpace(Back(l)) == ""
    ensures l.Setting? ==> TrimSpace(Back(l)) != "" && Unquote(TrimSpace(Back(l))) == Meant(l.scalar)
  {
    if l.Setting? {
      ScalarTrims(l.after, l.scalar);
    } else {
      BlankTrims("");
    }
  }

  // ----- whole documents -----

  lemma NotSetBefore(doc: seq<Line>, n: nat, values: Values)
    requires DocumentFits(doc) && Sets(doc, n) && Means(doc, n, values)
    ensures FullKey(doc, n) !in values && (doc[n].nested ==> SectionAt(doc, n) != "")
  {
  }

  lemma MeansOneMore(doc: seq<Line>, n: nat, values: Values)
    requires Sets(doc, n) && Means(doc, n, values) && FullKey(doc, n) !in values
    ensures Means(doc, n + 1, values[FullKey(doc, n) := Meant(doc[n].scalar)])
  {
    var full := FullKey(doc, n);
    var more := values[full := Meant(doc[n].scalar)];
    forall i: nat | Sets(doc, i) && i < n + 1
      ensures FullKey(doc, i) in more && more[FullKey(doc, i)] == Meant(doc[i].scalar)
    {
      if i < n {
        assert FullKey(doc, i) in values && values[FullKey(doc, i)] == Meant(doc[i].scalar);
      }
    }
    forall key | key in more ensures exists i: nat :: Sets(doc, i) && i < n + 1 && FullKey(doc, i) == key {
      if key == full {
        assert Sets(doc, n) && FullKey(doc, n) == key;
      } else {
        var i: nat :| Sets(doc, i) && i < n && FullKey(doc, i) == key;
      }
    }
  }

  lemma MeansTheSame(doc: seq<Line>, n: nat, values: Values)
    requires !Sets(doc, n) && Means(doc, n, values)
    ensures Means(doc, n + 1, values)
  {
    forall key | key in values ensures exists i: nat :: Sets(doc, i) && i < n + 1 && FullKey(doc, i) == key {
      var i: nat :| Sets(doc, i) && i < n && FullKey(doc, i) == key;
    }
  }

  lemma OneMoreMeans(doc: seq<Line>, n: nat, values: Values)
    requires DocumentFits(doc) && n < |doc| && Means(doc, n, values)
    ensures var r := Reads(Reading(values, SectionAt(doc, n)), doc[n]);
            r.Ok? && r.value.section == SectionAt(doc, n + 1) && Means(doc, n + 1, r.value.values)
  {
    if Sets(doc, n) {
      NotSetBefore(doc, n, values);
      MeansOneMore(doc, n, values);
    } else {
      MeansTheSame(doc, n, values);
    }
  }

  lemma {:induction false} ReadsOn(doc: seq<Line>, texts: seq<string>, n: nat, values: Values)
    requires DocumentFits(doc) && n <= |doc| && Means(doc, n, values)
    requires |doc| <= |texts| && forall i :: 0 <= i < |doc| ==> texts[i] == LineText(doc[i])
    ensures exists all ::
              && Means(doc, |doc|, all)
              && ReadLines(texts, n, Reading(values, SectionAt(doc, n)))
                 == ReadLines(texts, |doc|, Reading(all, SectionAt(doc, |doc|)))
    decreases |doc| - n
  {
    if n < |doc| {
      LineReads(Reading(values, SectionAt(doc, n)), doc[n]);
      OneMoreMeans(doc, n, values);
      ReadsOn(doc, texts, n + 1, Reads(Reading(values, SectionAt(doc, n)), doc[n]).value.values);
    } else {
      assert Means(doc, |doc|, values);
    }
  }

  lemma LineHasNoBreak(l: Line)
    requires LineFits(l)
    ensures '\n' !in LineText(l)
  {
    if !l.Empty? {
      BodyIsClean(l);
    }
    GapIsClean(l.tail.gap);
  }

  /** Main result: a document in form is read as exactly what it means, whatever the comments, the quotes and
      the white space it is written with. */
  lemma DocumentReads(doc: seq<Line>)
    requires doc != [] && DocumentFits(doc)
    ensures Parsed(DocumentText(doc)).Ok? && Means(doc, |doc|, Parsed(DocumentText(doc)).value)
  {
    var texts := Texts(doc);
    forall i | 0 <= i < |doc| ensures '\n' !in texts[i] {
      LineHasNoBreak(doc[i]);
    }
    SplitJoined(texts, '\n');
    ReadsOn(doc, texts, 0, map[]);
  }

  /** A text that goes wrong after a document is refused at that line, and for what one line more is refused
      for. */
  lemma DocumentIsRefusedAt(doc: seq<Line>, texts: seq<string>, values: Values)
    requires DocumentFits(doc) && Means(doc, |doc|, values)
    requires |doc| < |texts| && forall i :: 0 <= i < |doc| ==> texts[i] == LineText(doc[i])
    requires forall i :: 0 <= i < |texts| ==> '\n' !in texts[i]
    ensures var r := ReadLine(Reading(values, SectionAt(doc, |doc|)), texts[|doc|]);
            r.Err? ==> Parsed(Join(texts, '\n')) == Err(ParseError(|doc| + 1, r.error))
  {
    SplitJoined(texts, '\n');
    StopsAt(doc, texts, values);
  }

  lemma StopsAt(doc: seq<Line>, texts: seq<string>, values: Values)
    requires DocumentFits(doc) && Means(doc, |doc|, values)
    requires |doc| <= |texts| && forall i :: 0 <= i < |doc| ==> texts[i] == LineText(doc[i])
    ensures ReadLines(texts, 0, Reading(map[], "")) == ReadLines(texts, |doc|, Reading(values, SectionAt(doc, |doc|)))
  {
    ReadsOn(doc, texts, 0, map[]);
    var all :| Means(doc, |doc|, all) && ReadLines(texts, 0, Reading(map[], "")) ==
               ReadLines(texts, |doc|, Reading(all, SectionAt(doc, |doc|)));
    MeaningIsOne(doc, values, all);
  }

  lemma SetBy(doc: seq<Line>, values: Values, key: string) returns (i: nat)
    requires Means(doc, |doc|, values) && key in values
    ensures Sets(doc, i) && FullKey(doc, i) == key && values[key] == Meant(doc[i].scalar)
  {
    i :| Sets(doc, i) && i < |doc| && FullKey(doc, i) == key;
  }

  lemma MeaningIsOne(doc: seq<Line>, a: Values, b: Values)
    requires Means(doc, |doc|, a) && Means(doc, |doc|, b)
    ensures a == b
  {
    KeysOfMeaning(doc, a, b);
    KeysOfMeaning(doc, b, a);
  }

  lemma KeysOfMeaning(doc: seq<Line>, a: Values, b: Values)
    requires Means(doc, |doc|, a) && Means(doc, |doc|, b)
    ensures forall key :: key in a ==> key in b && b[key] == a[key]
  {
    forall key | key in a ensures key in b && b[key] == a[key] {
      var i := SetBy(doc, a, key);
    }
  }

  // ----- what is refused -----

  lemma {:induction false} TrimLeftStarts(s: string)
    ensures TrimLeft(s) != "" ==> !Space(TrimLeft(s)[0])
    ensures s != "" && !Space(s[|s| - 1]) ==> TrimLeft(s) != "" && TrimLeft(s)[|TrimLeft(s)| - 1] == s[|s| - 1]
  {
    if s != "" && Space(s[0]) {
      TrimLeftStarts(s[1..]);
    }
  }

  lemma {:induction false} TrimmedEnds(s: string)
    ensures TrimSpace(s) != "" ==> !Space(TrimSpace(s)[0]) && !Space(TrimSpace(s)[|TrimSpace(s)| - 1])
  {
    if s != "" && Space(s[|s| - 1]) {
      TrimmedEnds(s[..|s| - 1]);
    } else {
      TrimLeftStarts(s);
    }
  }

  lemma {:induction false} ColonIsFirst(s: string)
    ensures ':' !in s[..Colon(s)] && (Colon(s) == |s| <==> ':' !in s)
  {
    if s != "" && s[0] != ':' {
      ColonIsFirst(s[1..]);
      assert s == [s[0]] + s[1..];
      assert s[..Colon(s)] == [s[0]] + s[1..][..Colon(s[1..])];
    }
  }

  /** Trimming leaves nothing of what is blank, and of nothing else. */
  lemma {:induction false} TrimsToNothing(s: string)
    ensures TrimSpace(s) == "" <==> Blank(s)
  {
    if s != "" && Space(s[|s| - 1]) {
      TrimsToNothing(s[..|s| - 1]);
      assert s == s[..|s| - 1] + [s[|s| - 1]];
    } else {
      TrimLeftStarts(s);
    }
  }

  /** Of a trimmed line, the key is empty when the line starts with its colon, and the scalar is when it ends
      with it. */
  lemma EmptyParts(line: string)
    requires var t := TrimSpace(line); t != "" && ':' in t
    ensures var t := TrimSpace(line);
            && Colon(t) < |t|
            && (KeyOf(line) == "" <==> t[0] == ':')
            && (ScalarOf(line) == "" <==> Colon(t) == |t| - 1)
  {
    var t := TrimSpace(line);
    var n := Colon(t);
    TrimmedEnds(line);
    ColonIsFirst(t);
    TrimsToNothing(t[..n]);
    TrimsToNothing(t[n + 1..]);
    assert n > 0 ==> t[..n][0] == t[0];
    assert n < |t| - 1 ==> t[n + 1..][|t| - n - 2] == t[|t| - 1];
  }

  /** What the shape of a line is refused for, first of all that apply. */
  lemma ShapeRefusals(line: string)
    requires !Skipped(line)
    ensures var t, r := TrimSpace(line), ShapeFault(line);
            t != "" &&
            if '\t' in line then r == Some(Tab)
            else if t == "---" || t == "..." then r == Some(ManyDocuments)
            else if t[0] == '-' then r == Some(Sequence)
            else if '[' in t || ']' in t || '{' in t || '}' in t then r == Some(FlowCollection)
            else if '&' in t || '*' in t then r == Some(Anchor)
            else if " " <= line && !("  " <= line) then r == Some(OneSpace)
            else if ':' !in t then r == Some(NoColon)
            else r == if t[0] == ':' then Some(EmptyKey) else None
  {
    var t := TrimSpace(line);
    ColonIsFirst(t);
    if ':' in t {
      EmptyParts(line);
    }
  }

  /** And what a line that has shape does: it is refused for its indent, for want of a section or a scalar, or
      for a key set before; otherwise it opens a section or sets a value. */
  lemma LineRefusals(p: Reading, raw: string)
    ensures var line, r := WithoutComment(raw), ReadLine(p, raw);
            var t := TrimSpace(line);
            if t == "" || t[0] == '#' then r == Ok(p)
            else if ShapeFault(line).Some? then r == Err(ShapeFault(line).value)
            else
              var nested, bare := " " <= line, Colon(t) == |t| - 1;
              var key := if nested then p.section + "." + KeyOf(line) else KeyOf(line);
              if "   " <= line then r == Err(DeepIndent)
              else if nested && p.section == "" then r == Err(NoSection)
              else if nested && bare then r == Err(EmptyScalar)
              else if bare then r == Ok(Reading(p.values, KeyOf(line)))
              else if key in p.values then r == Err(DuplicateKey(key))
              else r == Ok(Reading(p.values[key := Unquote(ScalarOf(line))], if nested then p.section else ""))
  {
    var line := WithoutComment(raw);
    var t := TrimSpace(line);
    if !Skipped(line) {
      ShapeRefusals(line);
      if ShapeFault(line).None? {
        EmptyParts(line);
      }
    }
  }
}
