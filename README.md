# as-slack-bot request core, in Dafny

A Slack bot that answers questions about an AssetSonar (EZOfficeInventory) inventory.
This project models the three Python modules that decide what a message asks for,
compute the answer from what the inventory API returned, and lay the answer out as
Slack blocks plus a CSV report:

- **intent.py**: `parse_intent_rules` classifies a message. A license keyword means
  "licenses expiring within N days", where N comes from the leftmost
  `(\d+)[\s\-]*(day|days|天)` and defaults to 30. A laptop keyword together with an
  age qualifier means "laptops older than N years", where N comes from
  `(\d+)\s*(year|years|年)` and defaults to 3. Anything else is a user-or-asset lookup
  of the stripped text. `parse_intent` may replace a lookup with the external
  classifier's JSON reply.
- **assetsonar.py**:
  - `parse_date` is the lenient date parser.
  - `find_user_assets` looks up a user first and falls back to an asset search.
  - `licenses_expiring_within` filters and sorts the licenses by their expiry
    dates (the cutoff is today plus N days).
  - `laptops_older_than` filters laptop-ish assets by purchase date (the cutoff is
    the same day N years ago).
- **formatting.py**: `_pair`, `format_user_assets`, `format_licenses_expiring` and
  `format_old_laptops`. These build the Slack blocks, cap the lists at 10 assets or
  20 licenses/laptops, and produce the CSV header and rows.

The Dafny modules are:
- `Json`: decoded JSON values with Python's truthiness, `dict.get`, `or` chains,
  iteration, slicing and `str`/`repr`.
- `Text`: ASCII `strip`, `lower`, `in`, digits, `join` and string `<`.
- `Dates`: `datetime.date` with ordinals, `+ timedelta`, `replace(year=)` and
  `isoformat`.
- `Sorting`: the stable `sorted` with a string key.
- `Intent`, `AssetSonar` and `Formatting`: one module per source file.

Python exceptions become `Err(TypeError | AttributeError | OverflowError |
ValueError)` of a `Result`. Loops that the source runs over a list are `method`s with
loop invariants. Each is proved equal to a specification function (`ExpiringLicenses`,
`OldLaptops`, `UserAssetsReply`, `LicensesReply`, `LaptopsReply`), and the lemmas
state the properties of those functions.

## Model

| member | source | states |
|---|---|---|
| Intent.Normalize | intent.py:11 | definition of `text.strip().lower()`; properties in NormalizeIgnoresCase, Text.Strip, Text.Lower |
| Intent.ParseIntentRules | intent.py:10-28 | a lookup's query is the input with surrounding whitespace removed |
| Intent.RulesPrecedence | intent.py:13-28 | the intent is a license query iff a license keyword occurs; old laptops iff no license keyword, a laptop keyword and a qualifier; a lookup otherwise |
| Intent.LicenseKeywordWins | intent.py:14-18 | a license keyword wins whatever laptop keywords or qualifiers the text also holds |
| Intent.DaysAreLeftmost | intent.py:16-17 | the day count is the number of the leftmost match of the days pattern, or 30 when it matches nowhere |
| Intent.YearsAreLeftmost | intent.py:22-23 | the year count is the number of the leftmost match of the years pattern, or 3 when it matches nowhere |
| Intent.CountIsLeftmost | intent.py:16-23 | for either pattern, the extracted count is the leftmost match's digits, or the default when nothing matches |
| Intent.RegexMatch | intent.py:16-22 | definition of a match of `(\d+)SEP*(unit)` spanning digits i..j, separators j..k and a unit at k; used by SearchIsLeftmostMatch |
| Intent.SearchFrom | intent.py:16-22 | definition of the left-to-right scan for a match from position i; properties in SearchFromFindsLeftmost |
| Intent.Search | intent.py:16-22 | definition of `re.search` followed by `int(m.group(1))`; properties in SearchIsLeftmostMatch |
| Intent.CountIn | intent.py:16-23 | definition of `int(m.group(1)) if m else default`; properties in CountIsLeftmost |
| Intent.DaysIn | intent.py:16-17 | definition of the days count; properties in DaysAreLeftmost |
| Intent.YearsIn | intent.py:22-23 | definition of the years count; properties in YearsAreLeftmost |
| Intent.SearchIsLeftmostMatch | intent.py:16 | the scan finds nothing iff no (digits, separators, unit) match exists; otherwise it returns the digits of a match no other match starts before |
| Intent.SearchFromFindsLeftmost | intent.py:16 | scanning from position i finds the leftmost match at or after i |
| Intent.MatchIsGreedy | intent.py:16 | every match from a given start uses the maximal digit run and the maximal separator run, so backtracking never yields another |
| Intent.PatternsDelimited | intent.py:16-22 | no unit word of either pattern starts with a digit or a separator |
| Intent.DigitRunEnd | intent.py:16 | `\d+` consumes exactly the digits from the start position |
| Intent.SepRunEnd | intent.py:16 | `[\s\-]*` or `\s*` consumes exactly the separators from the position |
| Intent.RulesIgnoreAsciiCase | intent.py:11 | texts equal after lower-casing get the same intent, days and years; a lookup keeps each text's own spelling |
| Intent.NormalizeIgnoresCase | intent.py:11 | `strip().lower()` maps texts with equal lower-case forms to the same text |
| Intent.LicenseWithBareNumber | intent.py:14-18 | "license 45" asks for licenses within the default 30 days, since no day unit follows the number |
| Intent.NoDaysIn | intent.py:16-17 | the days pattern has no match anywhere in "license 45", so the day count is the default 30 |
| Intent.ParseIntent | intent.py:60-68 | without the external classifier, or for a non-lookup, the rules' result; for a lookup, the classifier's object when its "intent" differs from the lookup name; AttributeError iff that reply is not an object |
| AssetSonar.ParseDate | assetsonar.py:40-46 | a date only for a truthy string the parser accepts; any non-empty string goes to the parser |
| AssetSonar.Iterated | assetsonar.py:71 | `x or []` iterates nothing for a falsy value, a list's items, a string's one-character strings, a dict's keys, and raises TypeError for a truthy number or boolean (the only error it raises) |
| AssetSonar.OrEmptyList | assetsonar.py:59 | definition of `x or []`; its result is truthy or the empty list, as FindUserAssets states |
| AssetSonar.FindUserAssets | assetsonar.py:50-67 | a non-empty user list gives its first user and that user's assets (or []); otherwise no user and the asset search (or []); AttributeError iff the first user is not a dict |
| AssetSonar.Collected | assetsonar.py:75-85 | definition of the list a filtering loop builds; properties in CollectedMembers, CollectedAppend, CollectedLength |
| AssetSonar.CollectRecords | assetsonar.py:75-85 | the filtering loop returns the kept entries in input order, or AttributeError when an item is not a dict |
| AssetSonar.CollectedMembers | assetsonar.py:76-85 | a value is in the result iff it is the entry of some kept item |
| AssetSonar.CollectedAppend | assetsonar.py:94-113 | the result for a concatenation is the concatenation of the results |
| AssetSonar.CollectedLength | assetsonar.py:75-85 | at most one entry per item |
| AssetSonar.LicensesExpiringWithin | assetsonar.py:70-86 | the method returns what `ExpiringLicenses` specifies: OverflowError past the calendar, the iteration's TypeError, AttributeError for a non-dict, else the sorted entries |
| AssetSonar.LicenseName | assetsonar.py:82 | the recorded name is one of name, title, product_name or "(unknown)", and is never falsy |
| AssetSonar.ExpiryOf | assetsonar.py:78-79 | definition of the parsed expiry date; properties in ExpiringMembers, ExpiresWithinDays |
| AssetSonar.LicenseNameFallback | assetsonar.py:82 | the recorded name is the name if truthy, else the title if truthy, else the product name if truthy, else "(unknown)" |
| AssetSonar.LicenseEntry | assetsonar.py:81-85 | definition of the appended dict; properties in EntryKey, Formatting.LicenseRowOfEntry |
| AssetSonar.ExpiresBy | assetsonar.py:79-80 | definition of the test `d and d <= cutoff`; properties in ExpiresWithinDays, ExpiringMembers |
| AssetSonar.Expiring | assetsonar.py:75-85 | definition of the entries the license loop appends; properties in ExpiringMembers |
| AssetSonar.ExpiresOnKey | assetsonar.py:86 | definition of the sort key `x["expires_on"]`; properties in EntryKey |
| AssetSonar.ExpiringLicenses | assetsonar.py:70-86 | definition of what `licenses_expiring_within` returns or raises; properties in ExpiringLicensesResult, ExpiringMembers, ExpiresWithinDays, ExpiringOverflow |
| AssetSonar.ExpiringMembers | assetsonar.py:76-85 | an entry is in the result iff some license's first non-empty expiry key parses to a date on or before the cutoff |
| AssetSonar.ExpiresWithinDays | assetsonar.py:72-80 | a license is kept iff its expiry parses and lies at most `days` days after today (already expired ones included) |
| AssetSonar.ExpiringOverflow | assetsonar.py:72-73 | a day count of 3652059 or more, either way, raises OverflowError whatever today is |
| AssetSonar.EntryKey | assetsonar.py:81-86 | an entry's sort key is the ISO form of its expiry date |
| AssetSonar.SortedEntriesChronological | assetsonar.py:86 | entries sorted by key are in calendar order of expiry |
| AssetSonar.ExpiringLicensesResult | assetsonar.py:70-86 | the result is a permutation of the loop's entries, no longer than the list, sorted by expiry, and stable among equal dates |
| AssetSonar.LaptopsOlderThan | assetsonar.py:89-113 | the method returns what `OldLaptops` specifies: OverflowError or ValueError from the cutoff, the iteration's TypeError, AttributeError for a non-dict, else the laptop entries in input order |
| AssetSonar.AssetName | assetsonar.py:97 | definition of `a.get("name") or ""`; used by LaptopishByName |
| AssetSonar.PurchasedOn | assetsonar.py:104 | definition of the parsed purchase date; properties in OldLaptopMembers, OldLaptopBoughtBefore |
| AssetSonar.IsOldLaptop | assetsonar.py:105 | definition of the test `pd and is_laptopish and pd <= cutoff`; properties in OldLaptopMembers, OldLaptopBoughtBefore |
| AssetSonar.OldLaptopEntries | assetsonar.py:94-113 | definition of the entries the laptop loop appends; properties in OldLaptopMembers, OldLaptopsInOrder |
| AssetSonar.LaptopishByName | assetsonar.py:97-101 | an asset whose name mentions "laptop" in any letter case is laptop-ish |
| AssetSonar.LaptopishByCategory | assetsonar.py:98-101 | so is one whose category dict's name mentions "laptop" |
| AssetSonar.MissingCategoryNotLaptop | assetsonar.py:98-100 | a missing category becomes the text "None", which never mentions a laptop |
| AssetSonar.IsLaptopish | assetsonar.py:97-101 | definition of `is_laptopish`; properties in LaptopishByName, LaptopishByCategory, MissingCategoryNotLaptop, OldLaptopMembers |
| AssetSonar.MentionsLaptop | assetsonar.py:100 | definition of the test `s and "laptop" in str(s).lower()`; properties in LaptopishByName |
| AssetSonar.CategoryOf | assetsonar.py:98 | definition of the category value; properties in LaptopishByCategory, MissingCategoryNotLaptop |
| AssetSonar.LaptopEntry | assetsonar.py:106-112 | definition of the appended dict; properties in Formatting.LaptopRowOfEntry, OldLaptopMembers |
| AssetSonar.OldLaptops | assetsonar.py:89-113 | definition of what `laptops_older_than` returns or raises; properties in OldLaptopsCutoff, OldLaptopMembers, OldLaptopsInOrder, OldLaptopBoughtBefore |
| AssetSonar.OldLaptopMembers | assetsonar.py:95-112 | an entry is in the result iff some asset is laptop-ish and its purchase date parses to a date on or before the cutoff |
| AssetSonar.OldLaptopsInOrder | assetsonar.py:94-113 | the filter keeps input order (concatenation) and yields at most one entry per asset |
| AssetSonar.OldLaptopsCutoff | assetsonar.py:92 | the call raises OverflowError when the target year does not fit a C int, and ValueError when it fits but leaves 1..9999 or today is 29 February and the target year is common; on success the cutoff is today's month and day in that year |
| AssetSonar.OldLaptopBoughtBefore | assetsonar.py:92-105 | for any `years`, a kept laptop was bought in or before the target year; for non-negative `years`, also on or before today |
| Dates.OnOrBefore | assetsonar.py:80 | definition of `a <= b` on dates; properties in OrdinalOrder |
| Dates.Before | assetsonar.py:86 | definition of `a < b` on dates; properties in IsoOrder |
| Dates.Ordinal | assetsonar.py:73 | definition of `toordinal()`; properties in OrdinalOrder, OrdinalRange, MaxOrdinalValue |
| Dates.AddDays | assetsonar.py:73 | `today + timedelta(days=n)` is the date n days later, and OverflowError iff that leaves the calendar |
| Dates.AddDaysOffCalendar | assetsonar.py:73 | adding 3652059 days or more, either way, overflows from any date |
| Dates.WithinDays | assetsonar.py:73-80 | `x <= today + n days` iff x is at most n days after today |
| Dates.NextDay | assetsonar.py:73 | the next day's ordinal is one more |
| Dates.FromOrdinal | assetsonar.py:73 | the date of a given ordinal has that ordinal |
| Dates.OrdinalOrder | assetsonar.py:80 | date comparison agrees with ordinal comparison, equality included |
| Dates.OrdinalInYear | assetsonar.py:80 | a date's ordinal lies within its year's range |
| Dates.YearsApart | assetsonar.py:80 | every day of an earlier year has a smaller ordinal than any day of a later year |
| Dates.MonthsApart | assetsonar.py:80 | the same for months within a year |
| Dates.YearStep | assetsonar.py:73 | consecutive years are one year-length apart |
| Dates.OrdinalRange | assetsonar.py:73 | every date's ordinal is between 1 and the last date's |
| Dates.MaxOrdinalValue | assetsonar.py:73 | the last date, 9999-12-31, is day 3652059 |
| Dates.ReplaceYear | assetsonar.py:92 | `replace(year=y)` keeps month and day, or raises: OverflowError exactly when y does not fit a C int, else ValueError; it always raises outside 1..9999 |
| Dates.ReplaceYearFailsOnlyOnLeapDay | assetsonar.py:92 | for years 1..9999 it fails iff the date is 29 February and y is not a leap year |
| Dates.ReplaceYearBackwards | assetsonar.py:92 | moving back a non-negative number of years never moves the date later |
| Dates.Pad | assetsonar.py:83 | a zero-padded number has exactly the width and only digits |
| Dates.PadValue | assetsonar.py:83 | the padded digits read back as the number |
| Dates.Iso | assetsonar.py:83 | `isoformat()` is ten characters long |
| Dates.IsoSpells | assetsonar.py:83 | `isoformat()` is the year's four digits, a dash, the month's two digits, a dash and the day's two digits |
| Dates.PadOrder | assetsonar.py:86 | padded numbers of one width compare as strings as the numbers compare, and are equal iff the numbers are |
| Dates.IsoOrder | assetsonar.py:86 | ISO strings compare as the dates do, and are equal iff the dates are |
| Dates.DashedOrder | assetsonar.py:86 | `y-m-d` strings with equal field widths compare field by field |
| Dates.DashedEqual | assetsonar.py:86 | such strings are equal iff all fields are |
| Sorting.SortedBy | assetsonar.py:86 | definition of ascending key order; properties in SortBySorted |
| Sorting.WithKey | assetsonar.py:86 | definition of the elements with one key, in order; properties in SortByStable |
| Sorting.Insert | assetsonar.py:86 | definition of one insertion step; properties in InsertPermutes, InsertSorted, WithKeyInsert |
| Sorting.SortBy | assetsonar.py:86 | definition of `sorted` as insertion of each element in input order; properties in SortByPermutes, SortBySorted, SortByStable |
| Sorting.SortByPermutes | assetsonar.py:86 | `sorted` returns a permutation of its input |
| Sorting.SortBySorted | assetsonar.py:86 | `sorted` returns the elements in ascending key order |
| Sorting.SortByStable | assetsonar.py:86 | `sorted` keeps the input order of elements that share a key |
| Sorting.InsertPermutes | assetsonar.py:86 | one insertion step adds exactly the inserted element |
| Sorting.InsertSorted | assetsonar.py:86 | one insertion step keeps the sequence sorted |
| Sorting.WithKeyInsert | assetsonar.py:86 | one insertion step appends the element to the run of its key and leaves other runs unchanged |
| Sorting.WithKeyAppend | assetsonar.py:86 | the elements with a key in a concatenation are those of each part, in order |
| Text.IsSpace | intent.py:11 | definition of the ASCII whitespace `str.isspace` accepts; used by Strip |
| Text.LeadingSpaces | intent.py:11 | the count of leading characters that are all whitespace, stopping at the first that is not |
| Text.TrailingSpaces | intent.py:11 | the count of trailing characters that are all whitespace, stopping at the last that is not |
| Text.LowerChar | intent.py:11 | definition of ASCII `lower()` on one character; properties in Lower |
| Text.Strip | intent.py:11 | `strip()` is the slice between the leading and trailing whitespace runs, with no whitespace at either end |
| Text.Lower | intent.py:11 | `lower()` keeps the length and lower-cases each character |
| Text.LowerSlice | intent.py:11 | lower-casing commutes with slicing |
| Text.Contains | intent.py:14 | `k in t` iff k occurs at some position of t |
| Text.ContainsAny | intent.py:14 | definition of `any(k in t for k in kws)`; properties in Intent.RulesPrecedence |
| Text.LexLess | assetsonar.py:86 | definition of `<` on strings; properties in LexLessIrreflexive, LexLessTransitive, LexLessTrichotomy, LexLessConcat |
| Text.LexLessIrreflexive | assetsonar.py:86 | no string sorts before itself |
| Text.LexLessTransitive | assetsonar.py:86 | string order is transitive |
| Text.LexLessTrichotomy | assetsonar.py:86 | any two strings are equal or ordered |
| Text.LexLessConcat | assetsonar.py:86 | strings with equally long heads compare on the heads first |
| Text.Number | intent.py:17 | definition of `int(s)` on a digit string; properties in NatToString, Dates.PadValue |
| Text.IntToString | formatting.py:80 | definition of `str(i)` for any integer; properties in NatToString |
| Text.Join | formatting.py:60 | definition of `sep.join(parts)`; used by Formatting.AssetSection |
| Text.NatToString | formatting.py:80 | `str(n)` is a non-empty digit string whose value is n, with no leading zero (only 0 is spelt "0", and nothing longer starts with "0") |
| Json.Truthy | assetsonar.py:41 | definition of Python truthiness; properties in FirstTruthy, Formatting.PairDash |
| Json.Render | assetsonar.py:100 | definition of `str()` (and of an f-string field); used by MentionsLaptop and the block texts |
| Json.Repr | assetsonar.py:100 | definition of `repr()`, which `str()` of a list or dict applies to its elements |
| Json.Get | assetsonar.py:55 | definition of `d.get(key)`; properties in FieldValueFound, FirstWithKey |
| Json.GetFirst | assetsonar.py:78 | definition of `d.get(k0) or d.get(k1) or ...`; properties in GetFirstHit |
| Json.Elements | assetsonar.py:95 | definition of what a `for` loop visits; properties in AssetSonar.Iterated |
| Json.SliceElements | formatting.py:54 | definition of iterating `v[:n]`; properties in Formatting.UserAssetsShape, UserAssetsFailure |
| Json.QuoteString | assetsonar.py:100 | definition of `repr()` of a string, with its choice of quote |
| Json.FirstTruthy | assetsonar.py:78 | `a or b or c` is the first truthy operand, or the last one |
| Json.FieldValueFound | assetsonar.py:78 | `d.get(k)` is a value stored under k, or None when no key is k |
| Json.GetFirstHit | assetsonar.py:104 | an `or` chain of lookups gives the value of the first key whose value is truthy, or the last key's value when none is |
| Json.FirstWithKey | assetsonar.py:81-84 | a lookup returns the value of the first field with the key |
| Formatting.Take | formatting.py:88 | `items[:n]` is the prefix of length min(len, n) |
| Formatting.QueryHeader | formatting.py:33 | definition of the query header text; properties in HeadersEmbedRequest |
| Formatting.UserName | formatting.py:37 | definition of `user.get("name") or user.get("full_name") or user.get("email")`; properties in UserNameFallback |
| Formatting.AssetSerial | formatting.py:56 | definition of `a.get("serial_number") or a.get("serial")`; used by AssetSection and AssetRow |
| Formatting.AssetPurchase | formatting.py:57 | definition of `a.get("purchase_date") or a.get("purchased_on")`; used by AssetSection and AssetRow |
| Formatting.AssetAin | formatting.py:58 | definition of the AIN fallback chain; used by AssetSection and AssetRow |
| Formatting.AssetSection | formatting.py:60-67 | definition of one asset's four labelled lines; properties in UserAssetsShape |
| Formatting.AssetRow | formatting.py:70 | definition of one asset's CSV row; properties in UserAssetsShape |
| Formatting.LicensesHeader | formatting.py:80 | definition of the license header text; properties in HeadersEmbedRequest |
| Formatting.LicenseSection | formatting.py:89-94 | definition of one license's line; properties in LicensesShape |
| Formatting.LicenseRow | formatting.py:95 | definition of one license's CSV row; properties in LicensesShape, LicenseRowOfEntry |
| Formatting.LaptopsHeader | formatting.py:105 | definition of the laptop header text; properties in HeadersEmbedRequest |
| Formatting.LaptopPurchase | formatting.py:116 | definition of `a.get("purchased_on") or a.get("purchased_date") or a.get("purchase_date")`; properties in LaptopRowOfEntry |
| Formatting.LaptopSection | formatting.py:114-121 | definition of one laptop's line; properties in LaptopsShape |
| Formatting.LaptopRow | formatting.py:122 | definition of one laptop's CSV row; properties in LaptopsShape, LaptopRowOfEntry |
| Formatting.Pair | formatting.py:8-10 | definition of `_pair`; properties in PairDash |
| Formatting.PairDash | formatting.py:8-10 | a pair shows "-" iff the value is falsy or renders as "-" |
| Formatting.UserBlock | formatting.py:36-46 | definition of the user block; properties in UserNameFallback, UserAssetsFailure |
| Formatting.UserNameFallback | formatting.py:36-41 | the user is named by name, else full name, else e-mail |
| Formatting.UserAssetsReply | formatting.py:27-73 | definition of what `format_user_assets` returns or raises; properties in UserAssetsWithoutAssets, UserAssetsShape, UserAssetsFailure |
| Formatting.FormatUserAssets | formatting.py:27-73 | the method returns what `UserAssetsReply` specifies |
| Formatting.AppendDividedSections | formatting.py:54-70 | the asset loop appends one section and one divider per asset and one row per asset, in order, or raises AttributeError for a non-dict |
| Formatting.AppendSections | formatting.py:88-95 | the license and laptop loops append one section and one row per item, in order, or raise AttributeError for a non-dict |
| Formatting.UserAssetsWithoutAssets | formatting.py:48-49 | with falsy assets the reply is header, user block and "no assets" note, with no CSV |
| Formatting.UserAssetsShape | formatting.py:51-73 | 3 + 2·min(n, 10) blocks: header, user block, divider, then section and divider per listed asset; one 4-cell row per listed asset |
| Formatting.WithDividersAfter | formatting.py:67-68 | position 2i after the prefix is the i-th section and 2i+1 is a divider |
| Formatting.UserAssetsFailure | formatting.py:27-73 | it raises iff the user is truthy and not a dict, the assets cannot be sliced, or one of the first ten is not a dict |
| Formatting.LicensesReply | formatting.py:79-98 | definition of what `format_licenses_expiring` returns or raises; properties in LicensesShape, LicensesFailure |
| Formatting.FormatLicensesExpiring | formatting.py:79-98 | the method returns what `LicensesReply` specifies |
| Formatting.LicensesShape | formatting.py:79-98 | none: two blocks and no CSV; else 2 + min(n, 20) blocks and one 2-cell row per listed license, in order |
| Formatting.LicensesFailure | formatting.py:88-90 | it raises iff one of the first twenty items is not a dict |
| Formatting.LaptopsReply | formatting.py:104-125 | definition of what `format_old_laptops` returns or raises; properties in LaptopsShape, LaptopsFailure |
| Formatting.FormatOldLaptops | formatting.py:104-125 | the method returns what `LaptopsReply` specifies |
| Formatting.LaptopsShape | formatting.py:104-125 | none: two blocks and no CSV; else 2 + min(n, 20) blocks and one 4-cell row per listed laptop, in order |
| Formatting.LaptopsFailure | formatting.py:113-117 | it raises iff one of the first twenty items is not a dict |
| Formatting.HeadersEmbedRequest | formatting.py:80 | the headers contain the query, the number of days and the number of years |
| Formatting.LicenseRowOfEntry | formatting.py:89-95 | a license report row is the name and ISO expiry date that `licenses_expiring_within` recorded |
| Formatting.LaptopRowOfEntry | formatting.py:114-122 | a laptop report row is the name, serial, ISO purchase date and AIN that `laptops_older_than` recorded |

Helpers without rows of their own (`Formatting.Each` and `Formatting.WithDividers`, the
block and row lists the loops build; `AssetSonar.KeepExpiring`, `ExpiringEntry`,
`KeepOldLaptop` and `OldLaptopEntry`, the loop tests and entries; `Dates.IsLeap` and
`DaysInMonth`; `Json.EscapeChar` and `FieldValue`; `Intent.MatchesAt`) are covered by
the rows of the members that use them.

## Left out

- The HTTP layer (`_get`, `search_users`, `search_assets`, `assets_by_user_id`,
  `list_licenses`): their decoded JSON results are parameters.
- `dateutil.parser.parse(value).date()`: a `parser` parameter that gives a date or
  nothing. What strings dateutil accepts is not modelled.
- `datetime.utcnow()`: a `today` parameter. `laptops_older_than` reads the clock twice
  (once for the date, once for the year). The model uses one reading, so a call that
  straddles New Year's midnight is not covered.
- The OpenAI call inside `parse_intent_gpt`: the `gptReply` parameter (the decoded
  reply, or nothing when the call or decoding raised). `USE_GPT` is the `useGpt`
  parameter.
- `_write_csv`'s temporary file and csv quoting: a report is its prefix, header and
  row values. The file path is not modelled.
- Slack block dicts: only the section text or the divider is kept. The fixed "type"
  and "mrkdwn" keys are dropped.
- app.py, slack_upload.py and debug_licenses.py are not part of this model.
- The default arguments `days=30` of `licenses_expiring_within`, `years=3` of
  `laptops_older_than` and `prefix="report"` of `_write_csv` are not modelled: every
  caller passes these values explicitly, so the parameters are always given.
- Unicode: `strip`, `lower`, `\s` and `\d` are modelled on ASCII (the ASCII
  whitespace `str.isspace` accepts, ASCII letters, ASCII digits). Unicode whitespace,
  non-ASCII case mappings (some of which change length) and non-ASCII digits are not.
- JSON numbers are integers. Floats and their `str` are not modelled.
- `repr` escapes for non-printable non-ASCII characters are not modelled. Control
  characters and DEL are escaped as Python does.
- Slicing a dict is an error in the model (TypeError). Python 3.12 and later raise
  KeyError instead.
- Decoded objects are assumed to have distinct keys. With duplicate keys Python keeps
  the last value, while the model's lookup returns the first.
- `int()`'s 4300-digit limit on decimal strings is not modelled. Numbers of any
  length convert.
- Intent.ParseIntentRules: returns a datatype, not the `{"intent": ..., "days": ...}`
  dict, so the intent's name string is not part of the model.
