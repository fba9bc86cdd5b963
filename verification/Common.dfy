/** Small vocabulary shared by every module of the model. */
module Common {

  datatype Option<+T> = None | Some(value: T)

  datatype Result<+T, +E> = Ok(value: T) | Err(error: E)

  // ----- text, over ASCII white space -----

  predicate Space(c: char) { c in {' ', '\t', '\n', '\U{0B}', '\U{0C}', '\r'} }

  /** What `strings.TrimSpace(s) == ""` tests. */
  predicate Blank(s: string) {
    forall i :: 0 <= i < |s| ==> Space(s[i])
  }

  function TrimLeft(s: string): string {
    if s != "" && Space(s[0]) then TrimLeft(s[1..]) else s
  }

  function TrimSpace(s: string): string {
    if s != "" && Space(s[|s| - 1]) then TrimSpace(s[..|s| - 1]) else TrimLeft(s)
  }

  lemma {:induction false} TrimsAfter(s: string, after: string)
    requires s != "" && !Space(s[|s| - 1]) && Blank(after)
    ensures TrimSpace(s + after) == TrimLeft(s)
    decreases after
  {
    var whole := s + after;
    if after == "" {
      assert whole == s;
    } else {
      assert whole[|whole| - 1] == after[|after| - 1];
      assert whole[..|whole| - 1] == s + after[..|after| - 1];
      TrimsAfter(s, after[..|after| - 1]);
    }
  }

  lemma {:induction false} TrimsBefore(before: string, item: string)
    requires Blank(before) && item != "" && !Space(item[0])
    ensures TrimLeft(before + item) == item
  {
    var whole := before + item;
    if before == "" {
      assert whole == item;
    } else {
      assert whole[0] == before[0] && whole[1..] == before[1..] + item;
      TrimsBefore(before[1..], item);
    }
  }

  /** White space around a text that has none at its ends is what trimming removes. */
  lemma Trims(before: string, s: string, after: string)
    requires Blank(before) && Blank(after) && s != "" && !Space(s[0]) && !Space(s[|s| - 1])
    ensures TrimSpace(before + s + after) == s
  {
    var t := before + s;
    assert t[|t| - 1] == s[|s| - 1];
    TrimsAfter(t, after);
    TrimsBefore(before, s);
  }

  lemma {:induction false} BlankTrims(s: string)
    requires Blank(s)
    ensures TrimSpace(s) == ""
    decreases s
  {
    if s != "" {
      BlankTrims(s[..|s| - 1]);
    }
  }

  /** `strings.Split` at a one-character separator. */
  function Split(s: string, separator: char): (parts: seq<string>)
    ensures |parts| >= 1
  {
    if s == "" then [""]
    else
      var rest := Split(s[1..], separator);
      if s[0] == separator then [""] + rest else [[s[0]] + rest[0]] + rest[1..]
  }

  lemma {:induction false} SplitOne(s: string, separator: char)
    requires separator !in s
    ensures Split(s, separator) == [s]
  {
    if s != "" {
      assert s == [s[0]] + s[1..];
      SplitOne(s[1..], separator);
    }
  }

  lemma {:induction false} SplitAtFirst(head: string, tail: string, separator: char)
    requires separator !in head
    ensures Split(head + [separator] + tail, separator) == [head] + Split(tail, separator)
  {
    var whole := head + [separator] + tail;
    if head == "" {
      assert whole[1..] == tail;
    } else {
      assert whole[1..] == head[1..] + [separator] + tail;
      assert head == [head[0]] + head[1..];
      SplitAtFirst(head[1..], tail, separator);
    }
  }

  function Join(parts: seq<string>, separator: char): string
    requires parts != []
  {
    if |parts| == 1 then parts[0] else parts[0] + [separator] + Join(parts[1..], separator)
  }

  lemma {:induction false} SplitJoined(parts: seq<string>, separator: char)
    requires parts != [] && forall i :: 0 <= i < |parts| ==> separator !in parts[i]
    ensures Split(Join(parts, separator), separator) == parts
  {
    if |parts| == 1 {
      SplitOne(parts[0], separator);
    } else {
      SplitJoined(parts[1..], separator);
      SplitAtFirst(parts[0], Join(parts[1..], separator), separator);
    }
  }

  lemma JoinLonger(c: char, parts: seq<string>, separator: char)
    requires parts != []
    ensures Join([[c] + parts[0]] + parts[1..], separator) == [c] + Join(parts, separator)
  {
    var longer := [[c] + parts[0]] + parts[1..];
    assert longer[1..] == parts[1..];
    if |parts| > 1 {
      var rest := Join(parts[1..], separator);
      assert [c] + (parts[0] + [separator] + rest) == [c] + parts[0] + [separator] + rest;
    }
  }

  lemma {:induction false} JoinInvertsSplit(s: string, separator: char)
    ensures Join(Split(s, separator), separator) == s
  {
    if s != "" {
      var rest := Split(s[1..], separator);
      JoinInvertsSplit(s[1..], separator);
      if s[0] == separator {
        assert ([""] + rest)[1..] == rest;
      } else {
        JoinLonger(s[0], rest, separator);
      }
    }
  }

  /** A subset of a finite set is no larger. */
  lemma SubsetCardinality<T>(a: set<T>, b: set<T>)
    requires a <= b
    ensures |a| <= |b|
  {
    if a != {} {
      var x :| x in a;
      SubsetCardinality(a - {x}, b - {x});
    }
  }
}
