/** Reading a JSONL ledger back: one record a line, a torn final line dropped. */
module DeliveryLedger {
  import opened Common

  /** How records are written and read: one line each, and a record cut short does not decode. */
  datatype Codec<!T> = Codec(encode: T -> string, decode: string -> Option<T>, valid: T -> bool)

  ghost predicate RoundTrips<T(!new)>(codec: Codec<T>) {
    forall r: T {:trigger codec.encode(r)} ::
      && codec.decode(codec.encode(r)) == Some(r)
      && '\n' !in codec.encode(r) && !Blank(codec.encode(r))
  }

  ghost predicate CutsFail<T(!new)>(codec: Codec<T>) {
    forall r: T, k: nat :: k < |codec.encode(r)| ==> codec.decode(codec.encode(r)[..k]) == None
  }

  datatype LedgerError = Undecodable(line: nat) | Invalid(line: nat)

  // ----- lines -----

  /** `bytes.Split(data, "\n")`. */
  function Lines(data: string): (lines: seq<string>)
    ensures |lines| >= 1
  {
    if data == "" then [""]
    else
      var rest := Lines(data[1..]);
      if data[0] == '\n' then [""] + rest else [[data[0]] + rest[0]] + rest[1..]
  }

  lemma {:induction false} LineThenRest(line: string, rest: string)
    requires '\n' !in line
    ensures Lines(line + "\n" + rest) == [line] + Lines(rest)
  {
    var data := line + "\n" + rest;
    if line == "" {
      assert data[1..] == rest;
    } else {
      assert line == [line[0]] + line[1..];
      assert data[1..] == line[1..] + "\n" + rest;
      LineThenRest(line[1..], rest);
    }
  }

  lemma {:induction false} OneLine(line: string)
    requires '\n' !in line
    ensures Lines(line) == [line]
  {
    if line != "" {
      assert line == [line[0]] + line[1..];
      OneLine(line[1..]);
    }
  }

  // ----- reading -----

  /** What the lines from `i` on give, after the records read so far. */
  function ReadFrom<T>(codec: Codec<T>, lines: seq<string>, i: nat, sofar: seq<T>): Result<seq<T>, LedgerError>
    requires i <= |lines|
    decreases |lines| - i
  {
    if i == |lines| then Ok(sofar)
    else if Blank(lines[i]) then ReadFrom(codec, lines, i + 1, sofar)
    else
      match codec.decode(lines[i])
      case None => if i == |lines| - 1 then Ok(sofar) else Err(Undecodable(i + 1))
      case Some(rec) =>
        if !codec.valid(rec) then Err(Invalid(i + 1)) else ReadFrom(codec, lines, i + 1, sofar + [rec])
  }

  method ReadLedger<T>(codec: Codec<T>, data: string) returns (r: Result<seq<T>, LedgerError>)
    ensures r == ReadFrom(codec, Lines(data), 0, [])
  {
    var lines := Lines(data);
    var out: seq<T> := [];
    for i := 0 to |lines|
      invariant ReadFrom(codec, lines, 0, []) == ReadFrom(codec, lines, i, out)
    {
      if !Blank(lines[i]) {
        var rec := codec.decode(lines[i]);
        if rec.None? {
          if i == |lines| - 1 {
            return Ok(out);
          }
          return Err(Undecodable(i + 1));
        }
        if !codec.valid(rec.value) {
          return Err(Invalid(i + 1));
        }
        out := out + [rec.value];
      }
    }
    return Ok(out);
  }

  /** The bytes of a ledger that was appended to record by record. */
  function Written<T>(codec: Codec<T>, recs: seq<T>): string {
    if recs == [] then "" else codec.encode(recs[0]) + "\n" + Written(codec, recs[1..])
  }

  lemma {:induction false} AppendWrites<T>(codec: Codec<T>, recs: seq<T>, rec: T)
    ensures Written(codec, recs + [rec]) == Written(codec, recs) + codec.encode(rec) + "\n"
  {
    if recs == [] {
      assert [rec][1..] == [];
    } else {
      assert (recs + [rec])[1..] == recs[1..] + [rec];
      AppendWrites(codec, recs[1..], rec);
    }
  }

  lemma FirstLine<T(!new)>(codec: Codec<T>, recs: seq<T>, tail: string)
    requires RoundTrips(codec) && recs != []
    ensures Lines(Written(codec, recs) + tail) == [codec.encode(recs[0])] + Lines(Written(codec, recs[1..]) + tail)
  {
    var line := codec.encode(recs[0]);
    var rest := Written(codec, recs[1..]) + tail;
    assert Written(codec, recs) + tail == line + "\n" + rest;
    LineThenRest(line, rest);
  }

  lemma ReadsOne<T(!new)>(codec: Codec<T>, lines: seq<string>, i: nat, sofar: seq<T>, rec: T, rest: seq<string>)
    requires RoundTrips(codec) && codec.valid(rec)
    requires i <= |lines| && lines[i..] == [codec.encode(rec)] + rest
    ensures i < |lines| && lines[i + 1..] == rest
    ensures ReadFrom(codec, lines, i, sofar) == ReadFrom(codec, lines, i + 1, sofar + [rec])
  {
  }

  /** The complete lines give back their records, whatever follows them. */
  lemma {:induction false} ReadsBack<T(!new)>(codec: Codec<T>, lines: seq<string>, i: nat, sofar: seq<T>,
                                              recs: seq<T>, tail: string)
    requires RoundTrips(codec) && (forall r :: r in recs ==> codec.valid(r))
    requires i <= |lines| && lines[i..] == Lines(Written(codec, recs) + tail)
    ensures i + |recs| <= |lines| && lines[i + |recs|..] == Lines(tail)
    ensures ReadFrom(codec, lines, i, sofar) == ReadFrom(codec, lines, i + |recs|, sofar + recs)
    decreases |recs|
  {
    if recs == [] {
      assert Written(codec, recs) + tail == tail && sofar + recs == sofar;
    } else {
      FirstLine(codec, recs, tail);
      ReadsOne(codec, lines, i, sofar, recs[0], Lines(Written(codec, recs[1..]) + tail));
      ReadsBack(codec, lines, i + 1, sofar + [recs[0]], recs[1..], tail);
      assert sofar + [recs[0]] + recs[1..] == sofar + recs && i + 1 + |recs[1..]| == i + |recs|;
    }
  }

  /** The reading of a ledger is the reading of what follows its complete lines. */
  lemma ReadsRest<T(!new)>(codec: Codec<T>, recs: seq<T>, tail: string)
    requires RoundTrips(codec) && (forall r :: r in recs ==> codec.valid(r))
    ensures var lines := Lines(Written(codec, recs) + tail);
            && |recs| <= |lines| && lines[|recs|..] == Lines(tail)
            && ReadFrom(codec, lines, 0, []) == ReadFrom(codec, lines, |recs|, recs)
  {
    var lines := Lines(Written(codec, recs) + tail);
    assert lines[0..] == lines && [] + recs == recs;
    ReadsBack(codec, lines, 0, [], recs, tail);
  }

  lemma LastLine(lines: seq<string>, n: nat, tail: string)
    requires n <= |lines| && lines[n..] == [tail]
    ensures |lines| == n + 1 && lines[n] == tail
  {
    assert lines[n] == lines[n..][0];
  }

  /** What is read of a ledger with one line more, complete or not. */
  lemma ReadsWithTail<T(!new)>(codec: Codec<T>, recs: seq<T>, tail: string)
    requires RoundTrips(codec) && (forall r :: r in recs ==> codec.valid(r)) && '\n' !in tail
    ensures ReadFrom(codec, Lines(Written(codec, recs) + tail), 0, []) ==
            if Blank(tail) || codec.decode(tail).None? then Ok(recs)
            else if codec.valid(codec.decode(tail).value) then Ok(recs + [codec.decode(tail).value])
            else Err(Invalid(|recs| + 1))
  {
    ReadsRest(codec, recs, tail);
    OneLine(tail);
    var lines := Lines(Written(codec, recs) + tail);
    LastLine(lines, |recs|, tail);
    ReadsLast(codec, lines, |recs|, recs);
  }

  lemma ReadsLast<T>(codec: Codec<T>, lines: seq<string>, n: nat, sofar: seq<T>)
    requires |lines| == n + 1
    ensures ReadFrom(codec, lines, n, sofar) ==
            if Blank(lines[n]) || codec.decode(lines[n]).None? then Ok(sofar)
            else if codec.valid(codec.decode(lines[n]).value) then Ok(sofar + [codec.decode(lines[n]).value])
            else Err(Invalid(n + 1))
  {
  }

  /** A ledger read whole gives back what was appended. */
  lemma WholeLedgerReadsBack<T(!new)>(codec: Codec<T>, recs: seq<T>)
    requires RoundTrips(codec) && (forall r :: r in recs ==> codec.valid(r))
    ensures ReadFrom(codec, Lines(Written(codec, recs)), 0, []) == Ok(recs)
  {
    ReadsWithTail(codec, recs, "");
    assert Written(codec, recs) + "" == Written(codec, recs);
  }

  /** An append cut after any number of bytes leaves the earlier records or those and the new one,
      never an error and never a damaged record. */
  lemma CutAppendReads<T(!new)>(codec: Codec<T>, recs: seq<T>, rec: T, k: nat)
    requires RoundTrips(codec) && CutsFail(codec) && codec.valid(rec)
    requires forall r :: r in recs ==> codec.valid(r)
    requires k <= |codec.encode(rec) + "\n"|
    ensures ReadFrom(codec, Lines(Written(codec, recs) + (codec.encode(rec) + "\n")[..k]), 0, []) ==
            Ok(if k < |codec.encode(rec)| then recs else recs + [rec])
  {
    var line := codec.encode(rec);
    if k <= |line| {
      assert (line + "\n")[..k] == line[..k];
      if k == |line| {
        assert line[..k] == line;
      }
      ReadsWithTail(codec, recs, line[..k]);
    } else {
      assert (line + "\n")[..k] == line + "\n";
      AppendWrites(codec, recs, rec);
      assert Written(codec, recs) + (line + "\n") == Written(codec, recs + [rec]);
      WholeLedgerReadsBack(codec, recs + [rec]);
    }
  }

  /** Two records run together on one line, the first whole or cut, do not decode. */
  ghost predicate GluedFail<T(!new)>(codec: Codec<T>) {
    forall r: T, s: T, k: nat :: 0 < k <= |codec.encode(r)| ==>
      codec.decode(codec.encode(r)[..k] + codec.encode(s)) == None
  }

  /** The next append after a cut goes through, but the ledger it leaves can be read exactly when the
      cut fell before the first byte of the record or after its newline: otherwise every later reading
      fails, for the torn line is no longer the last. */
  lemma AppendAfterCutReads<T(!new)>(codec: Codec<T>, recs: seq<T>, rec: T, k: nat, next: T)
    requires RoundTrips(codec) && GluedFail(codec) && codec.valid(rec) && codec.valid(next)
    requires forall r :: r in recs ==> codec.valid(r)
    requires k <= |codec.encode(rec) + "\n"|
    ensures var data := Written(codec, recs) + (codec.encode(rec) + "\n")[..k] + (codec.encode(next) + "\n");
            ReadFrom(codec, Lines(data), 0, []) ==
            if k == 0 then Ok(recs + [next])
            else if k > |codec.encode(rec)| then Ok(recs + [rec] + [next])
            else Err(Undecodable(|recs| + 1))
  {
    var line, more := codec.encode(rec), codec.encode(next);
    var data := Written(codec, recs) + (line + "\n")[..k] + (more + "\n");
    CutText(line, k);
    if k == 0 {
      assert data == Written(codec, recs) + (more + "\n");
      WholeAppendReads(codec, recs, next);
    } else if k > |line| {
      assert data == Written(codec, recs) + (line + "\n") + (more + "\n");
      AppendWrites(codec, recs, rec);
      assert data == Written(codec, recs + [rec]) + (more + "\n");
      WholeAppendReads(codec, recs + [rec], next);
    } else {
      assert data == Written(codec, recs) + (line[..k] + more + "\n");
      NotBlankAfter(line[..k], more);
      GluedLineFails(codec, recs, line[..k] + more);
    }
  }

  lemma CutText(line: string, k: nat)
    requires k <= |line + "\n"|
    ensures (line + "\n")[..k] == if k <= |line| then line[..k] else line + "\n"
  {
  }

  lemma WholeAppendReads<T(!new)>(codec: Codec<T>, recs: seq<T>, rec: T)
    requires RoundTrips(codec) && codec.valid(rec) && forall r :: r in recs ==> codec.valid(r)
    ensures ReadFrom(codec, Lines(Written(codec, recs) + (codec.encode(rec) + "\n")), 0, []) == Ok(recs + [rec])
  {
    AppendWrites(codec, recs, rec);
    assert Written(codec, recs) + (codec.encode(rec) + "\n") == Written(codec, recs + [rec]);
    WholeLedgerReadsBack(codec, recs + [rec]);
  }

  lemma NotBlankAfter(a: string, b: string)
    requires !Blank(b)
    ensures !Blank(a + b)
  {
    if Blank(a + b) {
      forall i | 0 <= i < |b| ensures Space(b[i]) {
        assert (a + b)[|a| + i] == b[i];
      }
    }
  }

  lemma GluedLineFails<T(!new)>(codec: Codec<T>, recs: seq<T>, glued: string)
    requires RoundTrips(codec) && (forall r :: r in recs ==> codec.valid(r))
    requires '\n' !in glued && !Blank(glued) && codec.decode(glued) == None
    ensures ReadFrom(codec, Lines(Written(codec, recs) + (glued + "\n")), 0, []) == Err(Undecodable(|recs| + 1))
  {
    ReadsRest(codec, recs, glued + "\n");
    LineThenRest(glued, "");
    assert glued + "\n" + "" == glued + "\n";
    var lines := Lines(Written(codec, recs) + (glued + "\n"));
    assert lines[|recs|] == lines[|recs|..][0] && |lines| == |recs| + 2;
  }
}
