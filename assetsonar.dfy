/** The query logic of assetsonar.py over the remote results, which are passed in:
    the lenient date parser, the user-then-asset lookup, the expiring-license
    filter and the old-laptop filter. */
module AssetSonar {
  import opened Wrappers
  import opened Text
  import opened Json
  import opened Dates
  import opened Sorting

  /** `parse_date(value)`. `parser` stands for `dateutil.parser.parse(s).date()`,
      giving `None` where that call raises. */
  function ParseDate(value: Value, parser: string -> Option<Date>): (r: Option<Date>)
    ensures r.Some? ==> Truthy(value) && value.Str? && parser(value.s) == r
    ensures value.Str? && value.s != "" ==> r == parser(value.s)
  {
    if !Truthy(value) then None
    else if value.Str? then parser(value.s)
    else None  // dateutil raises TypeError on anything but a string
  }

  /** The elements visited by `for x in v or []`: nothing for a falsy value, a list's
      items, a string's characters, a dict's keys; a truthy number or boolean is not
      iterable. */
  function Iterated(v: Value): (r: Result<seq<Value>>)
    ensures !Truthy(v) ==> r == Ok([])
    ensures r.Err? ==> r.error == TypeError
    ensures Truthy(v) && (v.Int? || v.Bool?) ==> r == Err(TypeError)
    ensures v.Arr? ==> r == Ok(v.items)
    ensures v.Str? ==> r.Ok? && |r.value| == |v.s| && forall i :: 0 <= i < |v.s| ==> r.value[i] == Str([v.s[i]])
    ensures v.Obj? ==> r.Ok? && |r.value| == |v.fields|
                       && forall i :: 0 <= i < |v.fields| ==> r.value[i] == Str(v.fields[i].key)
  {
    if !Truthy(v) then Ok([])
    else match Elements(v)
      case Some(xs) => Ok(xs)
      case None => Err(TypeError)
  }

  predicate AllRecords(items: seq<Value>) {
    forall i :: 0 <= i < |items| ==> items[i].Obj?
  }

  // ---------------------------------------------------------------------------
  // The filtering loops: `for x in items: if keep(x): results.append(entry(x))`
  // ---------------------------------------------------------------------------

  /** The list such a loop builds. */
  function Collected(items: seq<Value>, keep: Value -> bool, entry: Value -> Value): seq<Value> {
    if items == [] then []
    else
      var x := items[|items| - 1];
      Collected(items[..|items| - 1], keep, entry) + (if keep(x) then [entry(x)] else [])
  }

  /** One more iteration of the loop. */
  lemma CollectedStep(items: seq<Value>, i: nat, keep: Value -> bool, entry: Value -> Value)
    requires i < |items|
    ensures Collected(items[..i + 1], keep, entry)
            == Collected(items[..i], keep, entry) + (if keep(items[i]) then [entry(items[i])] else [])
  {
    assert items[..i + 1][..i] == items[..i];
    assert items[..i + 1][i] == items[i];
  }

  /** A value is in the list exactly when it is the entry of a kept item. */
  lemma {:induction false} CollectedMembers(items: seq<Value>, keep: Value -> bool, entry: Value -> Value, x: Value)
    ensures x in Collected(items, keep, entry) <==>
            exists i :: 0 <= i < |items| && keep(items[i]) && x == entry(items[i])
  {
    if items != [] {
      var n := |items| - 1;
      CollectedStep(items, n, keep, entry);
      assert items[..n + 1] == items;
      CollectedMembers(items[..n], keep, entry, x);
      if x in Collected(items[..n], keep, entry) {
        var i :| 0 <= i < n && keep(items[..n][i]) && x == entry(items[..n][i]);
        assert items[..n][i] == items[i];
      }
      if exists i :: 0 <= i < |items| && keep(items[i]) && x == entry(items[i]) {
        var i :| 0 <= i < |items| && keep(items[i]) && x == entry(items[i]);
        if i < n {
          assert items[..n][i] == items[i];
        }
      }
    }
  }

  /** The loop keeps input order: the list for a concatenation is the concatenation
      of the lists. */
  lemma {:induction false} CollectedAppend(xs: seq<Value>, ys: seq<Value>, keep: Value -> bool, entry: Value -> Value)
    ensures Collected(xs + ys, keep, entry) == Collected(xs, keep, entry) + Collected(ys, keep, entry)
  {
    if ys == [] {
      assert xs + ys == xs;
    } else {
      var n := |ys| - 1;
      CollectedAppend(xs, ys[..n], keep, entry);
      assert (xs + ys)[..|xs + ys| - 1] == xs + ys[..n];
    }
  }

  /** At most one entry per item. */
  lemma {:induction false} CollectedLength(items: seq<Value>, keep: Value -> bool, entry: Value -> Value)
    ensures |Collected(items, keep, entry)| <= |items|
  {
    if items != [] {
      CollectedLength(items[..|items| - 1], keep, entry);
    }
  }

  /** The loop itself, over records: `x.get(...)` on an item that is not a dict raises
      AttributeError before anything else happens to it. */
  method CollectRecords(items: seq<Value>, keep: Value -> bool, entry: Value -> Value)
    returns (r: Result<seq<Value>>)
    ensures r == if AllRecords(items) then Ok(Collected(items, keep, entry)) else Err(AttributeError)
  {
    var results: seq<Value> := [];
    var i := 0;
    while i < |items|
      invariant 0 <= i <= |items|
      invariant forall k :: 0 <= k < i ==> items[k].Obj?
      invariant results == Collected(items[..i], keep, entry)
    {
      var x := items[i];
      if !x.Obj? {
        return Err(AttributeError);
      }
      CollectedStep(items, i, keep, entry);
      if keep(x) {
        results := results + [entry(x)];
      }
      i := i + 1;
    }
    assert items[..i] == items;
    return Ok(results);
  }

  // ---------------------------------------------------------------------------
  // find_user_assets
  // ---------------------------------------------------------------------------

  /** The dict `find_user_assets` returns; `user` is `Null` for Python's `None`. */
  datatype Lookup = Lookup(user: Value, assets: Value)

  /** `x or []`. */
  function OrEmptyList(v: Value): Value {
    if Truthy(v) then v else Arr([])
  }

  /** `find_user_assets(query)`, given what `search_users(query)` returned, what
      `assets_by_user_id` returns for each id, and what `search_assets(query)` returned. */
  function FindUserAssets(users: Value, assetsOf: Value -> Value, searched: Value): (r: Result<Lookup>)
    ensures r.Err? <==> users.Arr? && users.items != [] && !users.items[0].Obj?
    ensures r.Err? ==> r.error == AttributeError
    ensures r.Ok? && users.Arr? && users.items != [] ==>
              r.value.user == users.items[0]
              && r.value.assets == OrEmptyList(assetsOf(Get(users.items[0], "id")))
    ensures r.Ok? && !(users.Arr? && users.items != []) ==>
              r.value.user == Null && r.value.assets == OrEmptyList(searched)
    ensures r.Ok? ==> Truthy(r.value.assets) || r.value.assets == Arr([])
  {
    if users.Arr? && users.items != [] then
      var user := users.items[0];
      if !user.Obj? then Err(AttributeError)
      else Ok(Lookup(user, OrEmptyList(assetsOf(Get(user, "id")))))
    else
      Ok(Lookup(Null, OrEmptyList(searched)))
  }

  // ---------------------------------------------------------------------------
  // licenses_expiring_within
  // ---------------------------------------------------------------------------

  const ExpiryKeys: seq<string> := ["expiry_date", "expires_on", "end_date"]

  /** The license's expiry date, read from the first non-empty of its expiry keys. */
  function ExpiryOf(lic: Value, parser: string -> Option<Date>): Option<Date>
    requires lic.Obj?
  {
    ParseDate(GetFirst(lic, ExpiryKeys), parser)
  }

  /** `lic.get("name") or lic.get("title") or lic.get("product_name") or "(unknown)"`. */
  function LicenseName(lic: Value): (r: Value)
    requires lic.Obj?
    ensures Truthy(r)
    ensures r in [Get(lic, "name"), Get(lic, "title"), Get(lic, "product_name"), Str("(unknown)")]
  {
    FirstTruthy([Get(lic, "name"), Get(lic, "title"), Get(lic, "product_name"), Str("(unknown)")])
  }

  /** The recorded name is the name, else the title, else the product name, else
      "(unknown)". */
  lemma LicenseNameFallback(lic: Value)
    requires lic.Obj?
    ensures Truthy(Get(lic, "name")) ==> LicenseName(lic) == Get(lic, "name")
    ensures !Truthy(Get(lic, "name")) && Truthy(Get(lic, "title")) ==> LicenseName(lic) == Get(lic, "title")
    ensures !Truthy(Get(lic, "name")) && !Truthy(Get(lic, "title")) && Truthy(Get(lic, "product_name"))
            ==> LicenseName(lic) == Get(lic, "product_name")
    ensures !Truthy(Get(lic, "name")) && !Truthy(Get(lic, "title")) && !Truthy(Get(lic, "product_name"))
            ==> LicenseName(lic) == Str("(unknown)")
  {
    var vs := [Get(lic, "name"), Get(lic, "title"), Get(lic, "product_name"), Str("(unknown)")];
    assert vs[1..] == [Get(lic, "title"), Get(lic, "product_name"), Str("(unknown)")];
    assert vs[1..][1..] == [Get(lic, "product_name"), Str("(unknown)")];
    assert vs[1..][1..][1..] == [Str("(unknown)")];
    assert FirstTruthy(vs[1..][1..][1..]) == Str("(unknown)");
    assert FirstTruthy(vs[1..][1..]) == if Truthy(vs[2]) then vs[2] else FirstTruthy(vs[1..][1..][1..]);
    assert FirstTruthy(vs[1..]) == if Truthy(vs[1]) then vs[1] else FirstTruthy(vs[1..][1..]);
  }

  /** The dict appended for a license that expires on `d`. */
  function LicenseEntry(lic: Value, d: Date): Value
    requires lic.Obj?
  {
    Obj([Field("name", LicenseName(lic)), Field("expires_on", Str(Iso(d))), Field("raw", lic)])
  }

  /** The license is kept: its expiry date parses and is on or before the cutoff. */
  predicate ExpiresBy(lic: Value, cutoff: Date, parser: string -> Option<Date>) {
    lic.Obj? && ExpiryOf(lic, parser).Some? && OnOrBefore(ExpiryOf(lic, parser).value, cutoff)
  }

  /** The entry of a license whose expiry date parses. */
  function ExpiringEntry(lic: Value, parser: string -> Option<Date>): Value {
    if lic.Obj? && ExpiryOf(lic, parser).Some? then LicenseEntry(lic, ExpiryOf(lic, parser).value) else Null
  }

  /** The loop's test `if exp and exp <= cutoff`. */
  function KeepExpiring(cutoff: Date, parser: string -> Option<Date>): Value -> bool {
    lic => ExpiresBy(lic, cutoff, parser)
  }

  /** The dict the loop appends. */
  function ExpiringEntryOf(parser: string -> Option<Date>): Value -> Value {
    lic => ExpiringEntry(lic, parser)
  }

  /** The entries the loop appends, in input order. */
  function Expiring(items: seq<Value>, cutoff: Date, parser: string -> Option<Date>): seq<Value> {
    Collected(items, KeepExpiring(cutoff, parser), ExpiringEntryOf(parser))
  }

  /** The sort key `x["expires_on"]`. */
  function ExpiresOnKey(x: Value): string {
    if x.Obj? && Get(x, "expires_on").Str? then Get(x, "expires_on").s else ""
  }

  /** What `licenses_expiring_within(days)` returns or raises, given the result of
      `list_licenses()` and the current date. */
  function ExpiringLicenses(days: int, listed: Value, today: Date, parser: string -> Option<Date>): Result<seq<Value>> {
    match AddDays(today, days)
    case Err(e) => Err(e)
    case Ok(cutoff) =>
      match Iterated(listed)
      case Err(e) => Err(e)
      case Ok(items) =>
        if !AllRecords(items) then Err(AttributeError)
        else Ok(SortBy(Expiring(items, cutoff, parser), ExpiresOnKey))
  }

  /** `licenses_expiring_within(days)`. */
  method LicensesExpiringWithin(days: int, listed: Value, today: Date, parser: string -> Option<Date>)
    returns (r: Result<seq<Value>>)
    ensures r == ExpiringLicenses(days, listed, today, parser)
  {
    var c := AddDays(today, days);
    if c.Err? {
      return Err(c.error);
    }
    var it := Iterated(listed);
    if it.Err? {
      return Err(it.error);
    }
    var results := CollectRecords(it.value, KeepExpiring(c.value, parser), ExpiringEntryOf(parser));
    if results.Err? {
      return Err(results.error);
    }
    return Ok(SortBy(results.value, ExpiresOnKey));
  }

  // Properties of licenses_expiring_within

  /** A dict is in the loop's result exactly when it is the entry of some listed
      license whose expiry date parses and is on or before the cutoff. */
  lemma ExpiringMembers(items: seq<Value>, cutoff: Date, parser: string -> Option<Date>, x: Value)
    ensures x in Expiring(items, cutoff, parser) <==>
            exists i :: 0 <= i < |items| && ExpiresBy(items[i], cutoff, parser)
                        && x == LicenseEntry(items[i], ExpiryOf(items[i], parser).value)
  {
    CollectedMembers(items, KeepExpiring(cutoff, parser), ExpiringEntryOf(parser), x);
  }

  /** The cutoff is `days` days after today: a license is kept exactly when its expiry
      date parses and lies at most `days` days after today, so licenses that have
      already expired are kept as well. */
  lemma ExpiresWithinDays(days: int, today: Date, lic: Value, parser: string -> Option<Date>)
    requires lic.Obj? && AddDays(today, days).Ok?
    ensures ExpiresBy(lic, AddDays(today, days).value, parser) <==>
            ExpiryOf(lic, parser).Some? && Ordinal(ExpiryOf(lic, parser).value) - Ordinal(today) <= days
  {
    if ExpiryOf(lic, parser).Some? {
      WithinDays(today, days, ExpiryOf(lic, parser).value);
    }
  }

  /** A day count as long as the calendar, or longer, either way, raises OverflowError
      whatever today is, before the licenses are looked at. */
  lemma ExpiringOverflow(days: int, listed: Value, today: Date, parser: string -> Option<Date>)
    requires days >= 3652059 || days <= -3652059
    ensures ExpiringLicenses(days, listed, today, parser) == Err(OverflowError)
  {
    AddDaysOffCalendar(today, days);
  }

  /** The sort key of an entry is the ISO form of its expiry date. */
  lemma EntryKey(lic: Value, d: Date)
    requires lic.Obj?
    ensures ExpiresOnKey(LicenseEntry(lic, d)) == Iso(d)
  {
    var f := LicenseEntry(lic, d).fields;
    assert |f[0].key| == 4;
    assert FieldValue(f, "expires_on") == FieldValue(f[1..], "expires_on");
    assert f[1..][0] == Field("expires_on", Str(Iso(d)));
  }

  /** Sorting by the ISO strings puts the entries in calendar order of their dates. */
  lemma SortedEntriesChronological(s: seq<Value>, i: nat, j: nat, li: Value, di: Date, lj: Value, dj: Date)
    requires SortedBy(s, ExpiresOnKey) && i < j < |s|
    requires li.Obj? && lj.Obj? && s[i] == LicenseEntry(li, di) && s[j] == LicenseEntry(lj, dj)
    ensures OnOrBefore(di, dj)
  {
    EntryKey(li, di);
    EntryKey(lj, dj);
    IsoOrder(dj, di);
  }

  /** What `licenses_expiring_within` returns when it succeeds: the entries of the
      listed licenses that expire within `days` days of today, each exactly as often
      as the loop appended it, in calendar order of expiry, and with entries that
      share an expiry date in the order the licenses were listed. */
  lemma ExpiringLicensesResult(days: int, listed: Value, today: Date, parser: string -> Option<Date>, k: string)
    requires ExpiringLicenses(days, listed, today, parser).Ok?
    ensures AddDays(today, days).Ok? && Iterated(listed).Ok? && AllRecords(Iterated(listed).value)
    ensures var r := ExpiringLicenses(days, listed, today, parser).value;
            var e := Expiring(Iterated(listed).value, AddDays(today, days).value, parser);
            multiset(r) == multiset(e) && |r| <= |Iterated(listed).value|
            && SortedBy(r, ExpiresOnKey)
            && WithKey(r, ExpiresOnKey, k) == WithKey(e, ExpiresOnKey, k)
  {
    var items := Iterated(listed).value;
    var e := Expiring(items, AddDays(today, days).value, parser);
    CollectedLength(items, KeepExpiring(AddDays(today, days).value, parser), ExpiringEntryOf(parser));
    SortByPermutes(e, ExpiresOnKey);
    SortBySorted(e, ExpiresOnKey);
    SortByStable(e, ExpiresOnKey, k);
    var r := ExpiringLicenses(days, listed, today, parser).value;
    assert |r| == |multiset(r)| == |multiset(e)| == |e|;
  }

  // ---------------------------------------------------------------------------
  // laptops_older_than
  // ---------------------------------------------------------------------------

  const PurchaseKeys: seq<string> := ["purchase_date", "purchased_on", "acquired_on"]
  const SerialKeys: seq<string> := ["serial_number", "serial", "sn"]
  const AinKeys: seq<string> := ["asset_number", "ain", "tag", "id"]

  /** `a.get("name") or ""`. */
  function AssetName(a: Value): Value
    requires a.Obj?
  {
    FirstTruthy([Get(a, "name"), Str("")])
  }

  /** The category: its `name` when it is a dict, the value itself otherwise. */
  function CategoryOf(a: Value): Value
    requires a.Obj?
  {
    var c := Get(a, "category");
    if c.Obj? then Get(c, "name") else c
  }

  /** `s and "laptop" in str(s).lower()`. */
  predicate MentionsLaptop(s: Value) {
    Truthy(s) && Contains(Lower(Render(s)), "laptop")
  }

  /** `is_laptopish`: "laptop" occurs in the category's text, the name, the asset
      type or the asset class. */
  predicate IsLaptopish(a: Value)
    requires a.Obj?
  {
    MentionsLaptop(Str(Render(CategoryOf(a)))) || MentionsLaptop(AssetName(a))
    || MentionsLaptop(Get(a, "asset_type")) || MentionsLaptop(Get(a, "asset_class"))
  }

  /** An asset whose name mentions "laptop", in any letter case, is laptop-ish. */
  lemma LaptopishByName(a: Value)
    requires a.Obj? && Get(a, "name").Str? && Contains(Lower(Get(a, "name").s), "laptop")
    ensures IsLaptopish(a)
  {
    var n := Get(a, "name");
    assert Truthy(n);
    assert AssetName(a) == n;
  }

  /** So is an asset whose category is a dict whose name mentions "laptop". */
  lemma LaptopishByCategory(a: Value)
    requires a.Obj? && Get(a, "category").Obj?
    requires Get(Get(a, "category"), "name").Str?
    requires Contains(Lower(Get(Get(a, "category"), "name").s), "laptop")
    ensures IsLaptopish(a)
  {
    assert CategoryOf(a) == Get(Get(a, "category"), "name");
  }

  /** A missing category is rendered as the text "None", which never mentions a laptop. */
  lemma MissingCategoryNotLaptop(a: Value)
    requires a.Obj? && Get(a, "category") == Null
    ensures !MentionsLaptop(Str(Render(CategoryOf(a))))
  {
    assert Render(CategoryOf(a)) == "None";
  }

  function PurchasedOn(a: Value, parser: string -> Option<Date>): Option<Date>
    requires a.Obj?
  {
    ParseDate(GetFirst(a, PurchaseKeys), parser)
  }

  /** The asset is kept: its purchase date parses and is on or before the cutoff,
      and it is laptop-ish. */
  predicate IsOldLaptop(a: Value, cutoff: Date, parser: string -> Option<Date>) {
    a.Obj? && PurchasedOn(a, parser).Some? && IsLaptopish(a) && OnOrBefore(PurchasedOn(a, parser).value, cutoff)
  }

  /** The dict appended for a kept asset purchased on `d`. */
  function LaptopEntry(a: Value, d: Date): Value
    requires a.Obj?
  {
    Obj([Field("name", AssetName(a)),
         Field("serial", GetFirst(a, SerialKeys)),
         Field("purchased_on", Str(Iso(d))),
         Field("ain", GetFirst(a, AinKeys)),
         Field("raw", a)])
  }

  /** The entry of an asset whose purchase date parses. */
  function OldLaptopEntry(a: Value, parser: string -> Option<Date>): Value {
    if a.Obj? && PurchasedOn(a, parser).Some? then LaptopEntry(a, PurchasedOn(a, parser).value) else Null
  }

  /** The loop's tests: a parsed purchase date, laptop-ish, and `pd <= cutoff`. */
  function KeepOldLaptop(cutoff: Date, parser: string -> Option<Date>): Value -> bool {
    a => IsOldLaptop(a, cutoff, parser)
  }

  /** The dict the loop appends. */
  function OldLaptopEntryOf(parser: string -> Option<Date>): Value -> Value {
    a => OldLaptopEntry(a, parser)
  }

  /** The entries the loop appends, in input order. */
  function OldLaptopEntries(items: seq<Value>, cutoff: Date, parser: string -> Option<Date>): seq<Value> {
    Collected(items, KeepOldLaptop(cutoff, parser), OldLaptopEntryOf(parser))
  }

  /** What `laptops_older_than(years)` returns or raises, given the result of
      `_get("/assets")` and the current date. */
  function OldLaptops(years: int, assets: Value, today: Date, parser: string -> Option<Date>): Result<seq<Value>> {
    match ReplaceYear(today, today.year - years)
    case Err(e) => Err(e)
    case Ok(cutoff) =>
      match Iterated(assets)
      case Err(e) => Err(e)
      case Ok(items) =>
        if !AllRecords(items) then Err(AttributeError)
        else Ok(OldLaptopEntries(items, cutoff, parser))
  }

  /** `laptops_older_than(years)`. */
  method LaptopsOlderThan(years: int, assets: Value, today: Date, parser: string -> Option<Date>)
    returns (r: Result<seq<Value>>)
    ensures r == OldLaptops(years, assets, today, parser)
  {
    var c := ReplaceYear(today, today.year - years);
    if c.Err? {
      return Err(c.error);
    }
    var it := Iterated(assets);
    if it.Err? {
      return Err(it.error);
    }
    r := CollectRecords(it.value, KeepOldLaptop(c.value, parser), OldLaptopEntryOf(parser));
  }

  // Properties of laptops_older_than

  /** A dict is in the result exactly when it is the entry of some asset that is
      laptop-ish and whose purchase date parses and is on or before the cutoff. */
  lemma OldLaptopMembers(items: seq<Value>, cutoff: Date, parser: string -> Option<Date>, x: Value)
    ensures x in OldLaptopEntries(items, cutoff, parser) <==>
            exists i :: 0 <= i < |items| && IsOldLaptop(items[i], cutoff, parser)
                        && x == LaptopEntry(items[i], PurchasedOn(items[i], parser).value)
  {
    CollectedMembers(items, KeepOldLaptop(cutoff, parser), OldLaptopEntryOf(parser), x);
  }

  /** The filter keeps input order: the result for a concatenation of asset lists is
      the concatenation of the results, and there is at most one entry per asset. */
  lemma OldLaptopsInOrder(xs: seq<Value>, ys: seq<Value>, cutoff: Date, parser: string -> Option<Date>)
    ensures OldLaptopEntries(xs + ys, cutoff, parser)
            == OldLaptopEntries(xs, cutoff, parser) + OldLaptopEntries(ys, cutoff, parser)
    ensures |OldLaptopEntries(xs, cutoff, parser)| <= |xs|
  {
    CollectedAppend(xs, ys, KeepOldLaptop(cutoff, parser), OldLaptopEntryOf(parser));
    CollectedLength(xs, KeepOldLaptop(cutoff, parser), OldLaptopEntryOf(parser));
  }

  /** The cutoff is today's month and day `years` years earlier. A target year that
      does not fit a C `int` raises OverflowError; one that fits but leaves 1..9999,
      or a 29 February moved into a common year, raises ValueError. Either happens
      before any asset is looked at. */
  lemma OldLaptopsCutoff(years: int, assets: Value, today: Date, parser: string -> Option<Date>)
    ensures var y := today.year - years;
            !(MinCInt <= y <= MaxCInt) ==> OldLaptops(years, assets, today, parser) == Err(OverflowError)
    ensures var y := today.year - years;
            MinCInt <= y <= MaxCInt && (!(1 <= y <= 9999) || (today.month == 2 && today.day == 29 && !IsLeap(y)))
            ==> OldLaptops(years, assets, today, parser) == Err(ValueError)
    ensures OldLaptops(years, assets, today, parser).Ok? ==>
              ReplaceYear(today, today.year - years) == Ok(CalDate(today.year - years, today.month, today.day))
  {
    var y := today.year - years;
    if 1 <= y <= 9999 {
      ReplaceYearFailsOnlyOnLeapDay(today, y);
    }
  }

  /** A kept laptop was bought no later than the year `years` years before today, and
      so, for a non-negative `years`, no later than today. */
  lemma OldLaptopBoughtBefore(years: int, today: Date, a: Value, parser: string -> Option<Date>)
    requires a.Obj? && ReplaceYear(today, today.year - years).Ok?
    requires IsOldLaptop(a, ReplaceYear(today, today.year - years).value, parser)
    ensures PurchasedOn(a, parser).value.year <= today.year - years
    ensures years >= 0 ==> OnOrBefore(PurchasedOn(a, parser).value, today)
  {
    var cutoff := ReplaceYear(today, today.year - years).value;
    if years >= 0 {
      ReplaceYearBackwards(today, years);
    }
    OrdinalOrder(PurchasedOn(a, parser).value, cutoff);
    OrdinalOrder(cutoff, today);
    OrdinalOrder(PurchasedOn(a, parser).value, today);
  }
}
