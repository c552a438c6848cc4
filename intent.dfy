/** The rule-based request classifier of intent.py and its combination with an
    optional external classifier. */
module Intent {
  import opened Wrappers
  import opened Text
  import opened Json

  /** The three intents the rules produce. */
  datatype Intent =
    | LicenseExpiry(days: nat)
    | OldLaptops(years: nat)
    | UserOrAssetLookup(query: string)

  const LicenseKeywords: seq<string> := ["license", "licence", "到期", "過期", "expire", "expiring"]
  const LaptopKeywords: seq<string> := ["laptop", "notebook", "筆電", "電腦"]
  const AgeQualifiers: seq<string> := ["old", "over", "older", "超過", ">", "大於"]
  const DefaultDays: nat := 30
  const DefaultYears: nat := 3

  /** A pattern `(\d+)S*(u1|u2|...)` where the separator class `S` is `[\s\-]` when
      `hyphen` holds and `\s` otherwise. */
  datatype Pattern = Pattern(hyphen: bool, units: seq<string>)

  /** `(\d+)[\s\-]*(day|days|天)` */
  const DaysPattern: Pattern := Pattern(true, ["day", "days", "天"])
  /** `(\d+)\s*(year|years|年)` */
  const YearsPattern: Pattern := Pattern(false, ["year", "years", "年"])

  predicate IsSep(c: char, p: Pattern) {
    IsSpace(c) || (p.hyphen && c == '-')
  }

  predicate AllSep(s: string, p: Pattern) {
    forall x :: 0 <= x < |s| ==> IsSep(s[x], p)
  }

  /** One of the pattern's unit words starts at position `k`. */
  predicate UnitAt(t: string, k: int, p: Pattern) {
    exists n :: 0 <= n < |p.units| && OccursAt(t, p.units[n], k)
  }

  /** Every unit word begins with a character that is neither a digit nor a separator. */
  predicate UnitsDelimited(p: Pattern) {
    forall n :: 0 <= n < |p.units| ==> |p.units[n]| > 0 && !IsDigit(p.units[n][0]) && !IsSep(p.units[n][0], p)
  }

  /** The regular expression matches `t[i..]` with group 1 = `t[i..j]`, separators
      `t[j..k]` and a unit word at `k`. */
  predicate RegexMatch(t: string, p: Pattern, i: int, j: int, k: int) {
    0 <= i < j <= k <= |t| && AllDigits(t[i..j]) && AllSep(t[j..k], p) && UnitAt(t, k, p)
  }

  /** End of the run of digits starting at `i`. */
  function DigitRunEnd(t: string, i: nat): (j: nat)
    requires i <= |t|
    ensures i <= j <= |t| && AllDigits(t[i..j])
    ensures j < |t| ==> !IsDigit(t[j])
    decreases |t| - i
  {
    if i < |t| && IsDigit(t[i]) then DigitRunEnd(t, i + 1) else i
  }

  /** End of the run of separators starting at `j`. */
  function SepRunEnd(t: string, j: nat, p: Pattern): (k: nat)
    requires j <= |t|
    ensures j <= k <= |t| && AllSep(t[j..k], p)
    ensures k < |t| ==> !IsSep(t[k], p)
    decreases |t| - j
  {
    if j < |t| && IsSep(t[j], p) then SepRunEnd(t, j + 1, p) else j
  }

  /** Whether the backtracking matcher succeeds when started at position `i`: the
      greedy runs are the only ones that can be followed by a unit word. */
  predicate MatchesAt(t: string, i: nat, p: Pattern) {
    i < |t| && IsDigit(t[i]) && UnitAt(t, SepRunEnd(t, DigitRunEnd(t, i), p), p)
  }

  /** `re.search(pattern, t[i..])`, reduced to `int(m.group(1))`. */
  function SearchFrom(t: string, i: nat, p: Pattern): Option<nat>
    requires i <= |t|
    decreases |t| - i
  {
    if i == |t| then None
    else if MatchesAt(t, i, p) then Some(Number(t[i..DigitRunEnd(t, i)]))
    else SearchFrom(t, i + 1, p)
  }

  /** The greedy runs are the only way to match from a given start. */
  lemma MatchIsGreedy(t: string, p: Pattern, i: int, j: int, k: int)
    requires UnitsDelimited(p)
    requires RegexMatch(t, p, i, j, k)
    ensures j == DigitRunEnd(t, i) && k == SepRunEnd(t, j, p)
  {
    var e := DigitRunEnd(t, i);
    var s := SepRunEnd(t, j, p);
    assert forall x :: i <= x < j ==> t[x] == t[i..j][x - i];
    assert forall x :: i <= x < e ==> t[x] == t[i..e][x - i];
    assert forall x :: j <= x < k ==> t[x] == t[j..k][x - j];
    assert forall x :: j <= x < s ==> t[x] == t[j..s][x - j];
    var n :| 0 <= n < |p.units| && OccursAt(t, p.units[n], k);
    assert t[k] == p.units[n][0];
  }

  lemma MatchesAtIsMatch(t: string, i: nat, p: Pattern)
    requires MatchesAt(t, i, p)
    ensures RegexMatch(t, p, i, DigitRunEnd(t, i), SepRunEnd(t, DigitRunEnd(t, i), p))
  {
    assert t[i..DigitRunEnd(t, i)][0] == t[i];
  }

  lemma {:induction false} SearchFromFindsLeftmost(t: string, i: nat, p: Pattern)
    requires i <= |t| && UnitsDelimited(p)
    ensures SearchFrom(t, i, p).None? ==>
              forall a, b, c :: i <= a && RegexMatch(t, p, a, b, c) ==> false
    ensures SearchFrom(t, i, p).Some? ==>
              exists a :: i <= a < |t| && MatchesAt(t, a, p)
                          && SearchFrom(t, i, p).value == Number(t[a..DigitRunEnd(t, a)])
                          && forall a', b, c :: i <= a' && RegexMatch(t, p, a', b, c) ==> a <= a'
    decreases |t| - i
  {
    forall b, c | RegexMatch(t, p, i, b, c) ensures MatchesAt(t, i, p) {
      MatchIsGreedy(t, p, i, b, c);
    }
    if i < |t| && !MatchesAt(t, i, p) {
      SearchFromFindsLeftmost(t, i + 1, p);
    }
  }

  /** `re.search(pattern, t)` then `int(m.group(1))`. */
  function Search(t: string, p: Pattern): Option<nat> {
    SearchFrom(t, 0, p)
  }

  /** The search is the leftmost match of the regular expression, and the number it
      returns is the digit run of that match; it finds nothing exactly when the
      expression matches nowhere. */
  lemma SearchIsLeftmostMatch(t: string, p: Pattern)
    requires UnitsDelimited(p)
    ensures Search(t, p).None? <==> forall i, j, k :: RegexMatch(t, p, i, j, k) ==> false
    ensures Search(t, p).Some? ==>
              exists i, j, k :: RegexMatch(t, p, i, j, k)
                                && Search(t, p).value == Number(t[i..j])
                                && forall i', j', k' :: RegexMatch(t, p, i', j', k') ==> i <= i'
  {
    SearchFromFindsLeftmost(t, 0, p);
    if Search(t, p).Some? {
      var a :| 0 <= a < |t| && MatchesAt(t, a, p)
               && Search(t, p).value == Number(t[a..DigitRunEnd(t, a)])
               && forall a', b, c :: 0 <= a' && RegexMatch(t, p, a', b, c) ==> a <= a';
      MatchesAtIsMatch(t, a, p);
    }
  }

  lemma PatternsDelimited()
    ensures UnitsDelimited(DaysPattern) && UnitsDelimited(YearsPattern)
  {
  }

  /** The text the rules test: `text.strip().lower()`. */
  function Normalize(text: string): string {
    Lower(Strip(text))
  }

  /** The number the pattern captures in `t`, or `dflt` when it matches nowhere. */
  function CountIn(t: string, p: Pattern, dflt: nat): nat {
    match Search(t, p)
    case Some(n) => n
    case None => dflt
  }

  function DaysIn(t: string): nat {
    CountIn(t, DaysPattern, DefaultDays)
  }

  function YearsIn(t: string): nat {
    CountIn(t, YearsPattern, DefaultYears)
  }

  /** The count is the number in the leftmost match, or the default when there is none. */
  lemma CountIsLeftmost(t: string, p: Pattern, dflt: nat)
    requires UnitsDelimited(p)
    ensures (forall i, j, k :: RegexMatch(t, p, i, j, k) ==> false) ==> CountIn(t, p, dflt) == dflt
    ensures forall i, j, k :: RegexMatch(t, p, i, j, k)
                              && (forall i', j', k' :: RegexMatch(t, p, i', j', k') ==> i <= i')
                              ==> CountIn(t, p, dflt) == Number(t[i..j])
  {
    SearchIsLeftmostMatch(t, p);
    forall i, j, k | RegexMatch(t, p, i, j, k)
                     && (forall i', j', k' :: RegexMatch(t, p, i', j', k') ==> i <= i')
      ensures CountIn(t, p, dflt) == Number(t[i..j])
    {
      var i0, j0, k0 :| RegexMatch(t, p, i0, j0, k0)
                        && Search(t, p).value == Number(t[i0..j0])
                        && forall i', j', k' :: RegexMatch(t, p, i', j', k') ==> i0 <= i';
      MatchIsGreedy(t, p, i, j, k);
      MatchIsGreedy(t, p, i0, j0, k0);
    }
  }

  /** `parse_intent_rules`: license keywords first, then a laptop keyword together
      with an age qualifier, else a lookup of the stripped text. */
  function ParseIntentRules(text: string): (r: Intent)
    ensures r.UserOrAssetLookup? ==> r.query == Strip(text)
  {
    var t := Normalize(text);
    if ContainsAny(t, LicenseKeywords) then LicenseExpiry(DaysIn(t))
    else if ContainsAny(t, LaptopKeywords) && ContainsAny(t, AgeQualifiers) then OldLaptops(YearsIn(t))
    else UserOrAssetLookup(Strip(text))
  }

  /** Which intent the rules choose, as a function of which keyword lists occur in
      the normalized text; the license test wins over every laptop keyword. */
  lemma RulesPrecedence(text: string)
    ensures var t := Normalize(text); var r := ParseIntentRules(text);
            && (r.LicenseExpiry? <==> ContainsAny(t, LicenseKeywords))
            && (r.OldLaptops? <==> !ContainsAny(t, LicenseKeywords)
                                   && ContainsAny(t, LaptopKeywords) && ContainsAny(t, AgeQualifiers))
            && (r.UserOrAssetLookup? <==> !ContainsAny(t, LicenseKeywords)
                                          && !(ContainsAny(t, LaptopKeywords) && ContainsAny(t, AgeQualifiers)))
  {
  }

  /** The day count is the number in the leftmost `N day`/`N-days`/`N天` of the
      normalized text, or 30 when there is none. */
  lemma DaysAreLeftmost(text: string)
    requires ParseIntentRules(text).LicenseExpiry?
    ensures var t := Normalize(text);
            && ((forall i, j, k :: RegexMatch(t, DaysPattern, i, j, k) ==> false) ==> ParseIntentRules(text).days == DefaultDays)
            && forall i, j, k :: RegexMatch(t, DaysPattern, i, j, k)
                                 && (forall i', j', k' :: RegexMatch(t, DaysPattern, i', j', k') ==> i <= i')
                                 ==> ParseIntentRules(text).days == Number(t[i..j])
  {
    var t := Normalize(text);
    assert ParseIntentRules(text).days == CountIn(t, DaysPattern, DefaultDays);
    PatternsDelimited();
    CountIsLeftmost(t, DaysPattern, DefaultDays);
  }


  /** The year count is the number in the leftmost `N year`/`N years`/`N年`, or 3. */
  lemma YearsAreLeftmost(text: string)
    requires ParseIntentRules(text).OldLaptops?
    ensures var t := Normalize(text);
            && ((forall i, j, k :: RegexMatch(t, YearsPattern, i, j, k) ==> false) ==> ParseIntentRules(text).years == DefaultYears)
            && forall i, j, k :: RegexMatch(t, YearsPattern, i, j, k)
                                 && (forall i', j', k' :: RegexMatch(t, YearsPattern, i', j', k') ==> i <= i')
                                 ==> ParseIntentRules(text).years == Number(t[i..j])
  {
    var t := Normalize(text);
    assert ParseIntentRules(text).years == CountIn(t, YearsPattern, DefaultYears);
    PatternsDelimited();
    CountIsLeftmost(t, YearsPattern, DefaultYears);
  }


  lemma SpaceIgnoresCase(c: char, d: char)
    requires LowerChar(c) == LowerChar(d)
    ensures IsSpace(c) <==> IsSpace(d)
  {
  }

  lemma {:induction false} LeadingSpacesIgnoreCase(a: string, b: string)
    requires Lower(a) == Lower(b)
    ensures LeadingSpaces(a) == LeadingSpaces(b)
  {
    if a != [] {
      SpaceIgnoresCase(a[0], b[0]);
      assert Lower(a[1..]) == Lower(b[1..]) by {
        assert forall x :: 0 <= x < |a| - 1 ==> Lower(a[1..])[x] == Lower(a)[x + 1];
        assert forall x :: 0 <= x < |b| - 1 ==> Lower(b[1..])[x] == Lower(b)[x + 1];
      }
      LeadingSpacesIgnoreCase(a[1..], b[1..]);
    }
  }

  lemma {:induction false} TrailingSpacesIgnoreCase(a: string, b: string)
    requires Lower(a) == Lower(b)
    ensures TrailingSpaces(a) == TrailingSpaces(b)
  {
    if a != [] {
      var n := |a| - 1;
      SpaceIgnoresCase(a[n], b[n]);
      assert Lower(a[..n]) == Lower(b[..n]) by {
        assert forall x :: 0 <= x < n ==> Lower(a[..n])[x] == Lower(a)[x];
        assert forall x :: 0 <= x < n ==> Lower(b[..n])[x] == Lower(b)[x];
      }
      TrailingSpacesIgnoreCase(a[..n], b[..n]);
    }
  }

  /** The keyword tests and the number extraction ignore the case of ASCII letters:
      texts that agree once lower-cased get the same intent, except that a lookup
      keeps each text's own spelling. */
  lemma RulesIgnoreAsciiCase(a: string, b: string)
    requires Lower(a) == Lower(b)
    ensures Normalize(a) == Normalize(b)
    ensures ParseIntentRules(a).UserOrAssetLookup? == ParseIntentRules(b).UserOrAssetLookup?
    ensures !ParseIntentRules(a).UserOrAssetLookup? ==> ParseIntentRules(a) == ParseIntentRules(b)
  {
    NormalizeIgnoresCase(a, b);
  }

  /** Texts that agree once lower-cased normalize alike. */
  lemma NormalizeIgnoresCase(a: string, b: string)
    requires Lower(a) == Lower(b)
    ensures Normalize(a) == Normalize(b)
  {
    LeadingSpacesIgnoreCase(a, b);
    TrailingSpacesIgnoreCase(a, b);
    var i, j := LeadingSpaces(a), |a| - TrailingSpaces(a);
    assert |a| == |b| by {
      assert |a| == |Lower(a)| && |b| == |Lower(b)|;
    }
    StripSlice(a, i, j);
    StripSlice(b, i, j);
    if i < j {
      LowerSlice(a, i, j);
      LowerSlice(b, i, j);
    }
  }

  lemma StripSlice(s: string, i: int, j: int)
    requires i == LeadingSpaces(s) && j == |s| - TrailingSpaces(s)
    ensures j <= i ==> Normalize(s) == []
    ensures i < j ==> 0 <= i <= j <= |s| && Normalize(s) == Lower(s[i..j])
  {
  }

  /** What `parse_intent` returns: the rules' own result, or the external
      classifier's decoded JSON verbatim. */
  datatype Parsed = Rules(intent: Intent) | External(reply: Value)

  const LookupName: string := "user_or_asset_lookup"

  /** `parse_intent`. `useGpt` is the `USE_GPT` setting; `gptReply` is what
      `parse_intent_gpt` obtained from the external classifier: the decoded JSON, or
      `None` when the call or the decoding raised and it fell back to the rules.
      Calling `.get` on a decoded reply that is not a JSON object raises. */
  function ParseIntent(text: string, useGpt: bool, gptReply: Option<Value>): (r: Result<Parsed>)
    ensures !useGpt ==> r == Ok(Rules(ParseIntentRules(text)))
    ensures !ParseIntentRules(text).UserOrAssetLookup? ==> r == Ok(Rules(ParseIntentRules(text)))
    ensures r.Err? <==> useGpt && ParseIntentRules(text).UserOrAssetLookup?
                        && gptReply.Some? && !gptReply.value.Obj?
    ensures r.Err? ==> r.error == AttributeError
    ensures r.Ok? && r.value.Rules? ==> r.value.intent == ParseIntentRules(text)
    ensures r.Ok? && r.value.External? <==>
              useGpt && ParseIntentRules(text).UserOrAssetLookup? && gptReply.Some?
              && gptReply.value.Obj? && Get(gptReply.value, "intent") != Str(LookupName)
    ensures r.Ok? && r.value.External? ==> gptReply == Some(r.value.reply)
  {
    var base := ParseIntentRules(text);
    if base.UserOrAssetLookup? && useGpt then
      match gptReply
      case None => Ok(Rules(base))
      case Some(g) =>
        if !g.Obj? then Err(AttributeError)
        else if Get(g, "intent") != Str(LookupName) then Ok(External(g))
        else Ok(Rules(base))
    else Ok(Rules(base))
  }

  /** Any text holding a license keyword asks for expiring licenses, whatever laptop
      keywords or qualifiers it also holds. */
  lemma LicenseKeywordWins(text: string)
    requires ContainsAny(Normalize(text), LicenseKeywords)
    ensures ParseIntentRules(text) == LicenseExpiry(DaysIn(Normalize(text)))
  {
  }

  /** A number with no day unit after it leaves the default. */
  lemma LicenseWithBareNumber(s: string)
    requires s == "license 45"
    ensures ParseIntentRules(s) == LicenseExpiry(DefaultDays)
  {
    AlreadyNormal(s);
    assert Contains(s, LicenseKeywords[0]) by {
      assert OccursAt(s, LicenseKeywords[0], 0);
    }
    LicenseKeywordWins(s);
    NoDaysIn(s);
  }

  lemma AlreadyNormal(s: string)
    requires s == "license 45"
    ensures Normalize(s) == s
  {
    assert LeadingSpaces(s) == 0 && TrailingSpaces(s) == 0;
    assert Strip(s) == s;
    forall x | 0 <= x < |s| ensures Lower(s)[x] == s[x] {}
  }

  lemma NoDaysIn(s: string)
    requires s == "license 45"
    ensures forall i, j, k :: !RegexMatch(s, DaysPattern, i, j, k)
    ensures DaysIn(s) == DefaultDays
  {
    assert !UnitAt(s, 10, DaysPattern);
    assert DigitRunEnd(s, 9) == 10 && DigitRunEnd(s, 8) == 10 && SepRunEnd(s, 10, DaysPattern) == 10;
    assert forall x :: 0 <= x < |s| ==> !MatchesAt(s, x, DaysPattern);
    PatternsDelimited();
    SearchFromFindsLeftmost(s, 0, DaysPattern);
  }
}
