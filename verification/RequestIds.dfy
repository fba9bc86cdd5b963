/** The replay key of a delegated approval and the slugs it is built from. */
module RequestIds {
  import opened Common

  const INT64_MIN: int := -0x8000_0000_0000_0000
  const INT64_MAX: int := 0x7FFF_FFFF_FFFF_FFFF

  type Int64 = v: int | INT64_MIN <= v <= INT64_MAX

  // ----- slugs -----

  predicate SlugChar(c: char) {
    'a' <= c <= 'z' || '0' <= c <= '9' || c == '-'
  }

  /** A slug is groups of lower-case letters and digits joined by single hyphens. */
  predicate SlugForm(s: string) {
    && s != ""
    && (forall i :: 0 <= i < |s| ==> SlugChar(s[i]))
    && s[0] != '-' && s[|s| - 1] != '-'
    && (forall j, i :: 0 <= j < |s| && 0 <= i < j && j == i + 1 ==> !(s[i] == '-' && s[j] == '-'))
  }

  /** In ASCII: the hyphen, the ten digits and the twenty-six lower-case letters. */
  lemma SlugCharacters(c: char)
    ensures SlugChar(c) <==> c as int == 45 || 48 <= c as int < 48 + 10 || 97 <= c as int < 97 + 26
  {
  }

  /** The character scan. */
  method ValidSlug(slug: string) returns (ok: bool)
    ensures ok <==> SlugForm(slug)
  {
    if slug == "" {
      return false;
    }
    var lastHyphen := false;
    for i := 0 to |slug|
      invariant lastHyphen <==> i > 0 && slug[i - 1] == '-'
      invariant forall k :: 0 <= k < i ==> SlugChar(slug[k])
      invariant i > 0 ==> slug[0] != '-'
      invariant forall j, k :: 0 <= j < k < i && k == j + 1 ==> !(slug[j] == '-' && slug[k] == '-')
    {
      var r := slug[i];
      if !SlugChar(r) {
        return false;
      }
      if i == 0 && r == '-' {
        return false;
      }
      if r == '-' && lastHyphen {
        return false;
      }
      lastHyphen := r == '-';
    }
    return !lastHyphen;
  }

  /** What the refusal's wording asks for: `^[a-z0-9][a-z0-9-]*$`. */
  predicate MatchesMessage(s: string) {
    s != "" && s[0] != '-' && forall i :: 0 <= i < |s| ==> SlugChar(s[i])
  }

  predicate PartAt(s: string, part: string, i: nat) {
    i + |part| <= |s| && s[i..i + |part|] == part
  }

  ghost predicate Contains(s: string, part: string) {
    exists i :: PartAt(s, part, i)
  }

  /** The scan accepts less than its wording promises: exactly the spellings with two hyphens in a
      row, and those that end with a hyphen, are refused although they match. */
  lemma SlugIsNarrowerThanItsMessage(s: string)
    ensures SlugForm(s) <==> MatchesMessage(s) && !Contains(s, "--") && s[|s| - 1] != '-'
  {
    if i :| 0 < i < |s| && s[i - 1] == '-' && s[i] == '-' {
      assert PartAt(s, "--", i - 1);
    }
    if Contains(s, "--") {
      var i: nat :| PartAt(s, "--", i);
      assert s[i] == s[i..i + 2][0] && s[i + 1] == s[i..i + 2][1];
    }
  }

  lemma RefusedAlthoughMatching()
    ensures MatchesMessage("a--b") && !SlugForm("a--b")
    ensures MatchesMessage("a-") && !SlugForm("a-")
  {
    assert "a--b"[1] == '-' && "a--b"[2] == '-';
    assert "a-"[|"a-"| - 1] == '-';
  }

  // ----- decimal numerals -----

  predicate Digit(c: char) { '0' <= c <= '9' }

  predicate AllDigits(s: string) { forall i :: 0 <= i < |s| ==> Digit(s[i]) }

  function DigitChar(d: nat): (c: char)
    requires d < 10
    ensures Digit(c) && c as int - '0' as int == d
  {
    ('0' as int + d) as char
  }

  function Numeral(n: nat): (s: string)
    ensures s != "" && AllDigits(s)
  {
    if n < 10 then [DigitChar(n)] else Numeral(n / 10) + [DigitChar(n % 10)]
  }

  function Magnitude(s: string): nat
    requires AllDigits(s)
  {
    if s == "" then 0 else 10 * Magnitude(s[..|s| - 1]) + (s[|s| - 1] as int - '0' as int)
  }

  /** `%d` of an int64. */
  function FormatInt(v: Int64): (s: string)
    ensures s != "" && ':' !in s
  {
    if v < 0 then
      var digits := Numeral(0 - v);
      assert forall c :: c in "-" + digits ==> c == '-' || Digit(c);
      "-" + digits
    else Numeral(v)
  }

  /** `strconv.ParseInt(s, 10, 64)`: an optional sign, at least one digit, and the int64 range. */
  function ParseInt(s: string): Option<int>
  {
    if s == "" then None
    else
      var digits := if s[0] == '-' || s[0] == '+' then s[1..] else s;
      if digits == "" || !AllDigits(digits) then None
      else
        var v := if s[0] == '-' then 0 - Magnitude(digits) else Magnitude(digits);
        if INT64_MIN <= v <= INT64_MAX then Some(v) else None
  }

  /** A text is a number exactly when it is digits, at least one, after at most one sign, and in range. */
  lemma ParsesExactlyWhen(s: string, sign: string, digits: string)
    requires s == sign + digits && (sign == "" || sign == "+" || sign == "-")
    requires sign == "" && digits != "" ==> digits[0] != '+' && digits[0] != '-'
    ensures var v := if AllDigits(digits) then (if sign == "-" then 0 - Magnitude(digits) else Magnitude(digits)) else 0;
            ParseInt(s) == if digits != "" && AllDigits(digits) && INT64_MIN <= v <= INT64_MAX then Some(v) else None
  {
    if sign == "" {
      assert s == digits;
    } else {
      assert s[0] == sign[0] && s[1..] == digits;
    }
  }

  lemma {:induction false} NumeralReadsBack(n: nat)
    ensures Magnitude(Numeral(n)) == n
  {
    if n < 10 {
      assert Numeral(n)[..0] == "";
    } else {
      NumeralReadsBack(n / 10);
      assert Numeral(n)[..|Numeral(n)| - 1] == Numeral(n / 10);
    }
  }

  lemma ParseIntInvertsFormatInt(v: Int64)
    ensures ParseInt(FormatInt(v)) == Some(v)
  {
    if v < 0 {
      NumeralReadsBack(0 - v);
      assert FormatInt(v)[1..] == Numeral(0 - v);
    } else {
      NumeralReadsBack(v);
      assert Digit(Numeral(v)[0]);
    }
  }

  // ----- the request id -----

  function GrantRequestID(slug: string, gate: string, revision: Int64): string {
    slug + ":" + gate + ":" + FormatInt(revision)
  }

  datatype RequestKey = RequestKey(slug: string, gate: string, revision: int)

  function ParseGrantRequestID(id: string): Option<RequestKey> {
    var parts := Split(id, ':');
    if |parts| != 3 then None
    else
      match ParseInt(parts[2])
      case None => None
      case Some(v) => Some(RequestKey(parts[0], parts[1], v))
  }

  lemma SplitThree(a: string, b: string, c: string)
    requires ':' !in a && ':' !in b && ':' !in c
    ensures Split(a + ":" + b + ":" + c, ':') == [a, b, c]
  {
    assert a + ":" + b + ":" + c == a + ":" + (b + ":" + c);
    SplitAtFirst(a, b + ":" + c, ':');
    SplitAtFirst(b, c, ':');
    SplitOne(c, ':');
  }

  lemma SlugHasNoColon(slug: string)
    requires SlugForm(slug)
    ensures ':' !in slug
  {
  }

  /** Reading back the recovery key gives the very transition it was minted for. */
  lemma ParseInvertsMint(slug: string, gate: string, revision: Int64)
    requires SlugForm(slug) && ':' !in gate
    ensures ParseGrantRequestID(GrantRequestID(slug, gate, revision)) == Some(RequestKey(slug, gate, revision))
  {
    SlugHasNoColon(slug);
    SplitThree(slug, gate, FormatInt(revision));
    ParseIntInvertsFormatInt(revision);
  }

  /** Two different transitions never share a replay key. */
  lemma MintIsInjective(slug1: string, gate1: string, rev1: Int64, slug2: string, gate2: string, rev2: Int64)
    requires SlugForm(slug1) && SlugForm(slug2) && ':' !in gate1 && ':' !in gate2
    requires GrantRequestID(slug1, gate1, rev1) == GrantRequestID(slug2, gate2, rev2)
    ensures slug1 == slug2 && gate1 == gate2 && rev1 == rev2
  {
    ParseInvertsMint(slug1, gate1, rev1);
    ParseInvertsMint(slug2, gate2, rev2);
  }

  // ----- what reads back without having been minted -----

  /** No plus sign, no leading zero, no negative zero. */
  predicate Canonical(text: string) {
    var digits := if text != "" && text[0] == '-' then text[1..] else text;
    && digits != "" && AllDigits(digits)
    && (|digits| > 1 ==> digits[0] != '0')
    && (digits == "0" ==> text == "0")
  }

  lemma {:induction false} NumeralStarts(n: nat)
    ensures n > 0 ==> Numeral(n)[0] != '0'
    ensures Numeral(0) == "0"
  {
    if n >= 10 {
      NumeralStarts(n / 10);
    }
  }

  lemma {:induction false} MagnitudeIsPositive(digits: string)
    requires digits != "" && AllDigits(digits) && digits[0] != '0'
    ensures Magnitude(digits) > 0
  {
    if |digits| > 1 {
      MagnitudeIsPositive(digits[..|digits| - 1]);
    }
  }

  lemma {:induction false} CanonicalReadsBack(digits: string)
    requires digits != "" && AllDigits(digits) && (|digits| > 1 ==> digits[0] != '0')
    ensures Numeral(Magnitude(digits)) == digits
  {
    var front, last := digits[..|digits| - 1], digits[|digits| - 1];
    if front == "" {
      LastDigit(0, last);
      assert digits == [last];
    } else {
      MagnitudeIsPositive(front);
      CanonicalReadsBack(front);
      LastDigit(Magnitude(front), last);
      assert digits == front + [last];
    }
  }

  /** Writing one more digit. */
  lemma LastDigit(n: nat, last: char)
    requires Digit(last)
    ensures Numeral(10 * n + (last as int - '0' as int)) == if n == 0 then [last] else Numeral(n) + [last]
  {
  }

  /** Formatting gives back the text a number was read from exactly when that text is canonical. */
  lemma FormatsBackExactlyWhenCanonical(text: string)
    requires ParseInt(text).Some?
    ensures FormatInt(ParseInt(text).value) == text <==> Canonical(text)
  {
    var v := ParseInt(text).value;
    if Canonical(text) {
      var digits := if text[0] == '-' then text[1..] else text;
      CanonicalReadsBack(digits);
      assert text[0] == '-' ==> text == "-" + digits;
      if digits != "0" {
        MagnitudeIsPositive(digits);
      }
    }
    FormatIsCanonical(v);
  }

  lemma FormatIsCanonical(v: Int64)
    ensures Canonical(FormatInt(v))
  {
    var digits := Numeral(if v < 0 then 0 - v else v);
    NumeralStarts(if v < 0 then 0 - v else v);
    assert Digit(digits[0]);
    if v < 0 {
      assert FormatInt(v)[1..] == digits;
    }
  }

  lemma {:induction false} PartsHaveNoColon(s: string)
    ensures forall i :: 0 <= i < |Split(s, ':')| ==> ':' !in Split(s, ':')[i]
  {
    if s != "" {
      PartsHaveNoColon(s[1..]);
    }
  }

  /** The ids an approval of some spec mints. */
  ghost predicate Mintable(id: string) {
    exists slug, gate, revision: Int64 ::
      SlugForm(slug) && ':' !in gate && id == GrantRequestID(slug, gate, revision)
  }

  lemma IdFromParts(id: string)
    requires |Split(id, ':')| == 3
    ensures var parts := Split(id, ':');
            && id == parts[0] + ":" + parts[1] + ":" + parts[2]
            && ':' !in parts[0] && ':' !in parts[1]
  {
    var parts := Split(id, ':');
    JoinInvertsSplit(id, ':');
    PartsHaveNoColon(id);
    assert parts[1..][1..] == [parts[2]];
    assert Join(parts[1..], ':') == parts[1] + ":" + parts[2];
    assert id == parts[0] + ":" + (parts[1] + ":" + parts[2]);
  }

  /** Reading an id is more lenient than minting it: among the ids that read back, those minted are
      exactly the ones with a slug in the first place and a canonical number in the last. */
  lemma MintableExactlyWhen(id: string)
    ensures Mintable(id) <==>
            && ParseGrantRequestID(id).Some?
            && SlugForm(ParseGrantRequestID(id).value.slug) && Canonical(Split(id, ':')[2])
  {
    if Mintable(id) {
      var slug, gate, revision: Int64 :| SlugForm(slug) && ':' !in gate && id == GrantRequestID(slug, gate, revision);
      ParseInvertsMint(slug, gate, revision);
      SlugHasNoColon(slug);
      SplitThree(slug, gate, FormatInt(revision));
      FormatIsCanonical(revision);
    }
    if ParseGrantRequestID(id).Some? {
      IdFromParts(id);
      FormatsBackExactlyWhenCanonical(Split(id, ':')[2]);
      var key := ParseGrantRequestID(id).value;
      var revision: Int64 := key.revision;
      assert Canonical(Split(id, ':')[2]) ==> id == GrantRequestID(key.slug, key.gate, revision);
    }
  }

  /** Three spellings of a revision that read back and are never minted. */
  lemma ParseAcceptsForeignSpellings(slug: string, gate: string, text: string)
    requires SlugForm(slug) && ':' !in gate && (text == "+5" || text == "05" || text == "-0")
    ensures var id := slug + ":" + gate + ":" + text;
            && ParseGrantRequestID(id) == Some(RequestKey(slug, gate, if text == "-0" then 0 else 5))
            && !Mintable(id)
  {
    SlugHasNoColon(slug);
    SplitThree(slug, gate, text);
    SmallNumbers();
    MintableExactlyWhen(slug + ":" + gate + ":" + text);
  }

  lemma SmallNumbers()
    ensures ParseInt("+5") == Some(5) && ParseInt("05") == Some(5) && ParseInt("-0") == Some(0)
    ensures !Canonical("+5") && !Canonical("05") && !Canonical("-0")
  {
    assert "+5"[1..] == "5" && "-0"[1..] == "0";
    assert "5"[..0] == "" && "0"[..0] == "" && "05"[..1] == "0";
    assert Magnitude("5") == 5 && Magnitude("0") == 0 && Magnitude("05") == 5;
  }
}
