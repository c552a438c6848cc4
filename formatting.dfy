/** The Slack replies of formatting.py: each `format_*` builds a list of blocks and,
    when there is something to list, the header and rows of a CSV report. */
module Formatting {
  import opened Wrappers
  import opened Text
  import opened Json
  import opened Dates
  import opened AssetSonar

  /** A Slack block: a mrkdwn section with its text, or a divider. */
  datatype Block = Section(text: string) | Divider

  /** What `_write_csv(headers, rows, prefix)` writes: the file name prefix, the
      header row and the data rows, in order. */
  datatype Csv = Csv(prefix: string, header: seq<string>, rows: seq<seq<Value>>)

  /** The pair a `format_*` function returns: its blocks, and the CSV report or
      `None` when the list is empty. */
  datatype Reply = Reply(blocks: seq<Block>, csv: Option<Csv>)

  /** At most this many assets are listed for a user or asset query. */
  const AssetCap: nat := 10
  /** At most this many licenses or laptops are listed. */
  const ListCap: nat := 20

  function Min(a: nat, b: nat): nat {
    if a <= b then a else b
  }

  /** `items[:n]` on a list. */
  function Take(items: seq<Value>, n: nat): (r: seq<Value>)
    ensures |r| == Min(|items|, n) && r == items[..|r|]
  {
    if |items| <= n then items else items[..n]
  }

  /** `_pair(label, value)`: the bold label `title`, a full-width colon, then the value, or
      "-" when the value is falsy. */
  function Pair(title: string, value: Value): string {
    "*" + title + "*：" + (if Truthy(value) then Render(value) else "-")
  }

  /** `[f(x) for x in xs]`, for a per-item `f` that needs dict items. */
  function Each<T>(xs: seq<Value>, f: Value --> T): (r: seq<T>)
    requires forall i :: 0 <= i < |xs| ==> f.requires(xs[i])
  {
    seq(|xs|, i requires 0 <= i < |xs| => f(xs[i]))
  }

  /** One more iteration of a loop that appends `f(x)` for each item `x`. */
  lemma EachStep<T>(xs: seq<Value>, i: nat, f: Value --> T)
    requires i < |xs| && forall j :: 0 <= j <= i ==> f.requires(xs[j])
    ensures Each(xs[..i + 1], f) == Each(xs[..i], f) + [f(xs[i])]
  {
    assert forall j :: 0 <= j < i ==> xs[..i + 1][j] == xs[..i][j];
  }

  /** `f(x)` followed by a divider, for each item `x`. */
  function WithDividers(xs: seq<Value>, f: Value --> Block): (r: seq<Block>)
    requires forall i :: 0 <= i < |xs| ==> f.requires(xs[i])
  {
    seq(2 * |xs|, k requires 0 <= k < 2 * |xs| => if k % 2 == 0 then f(xs[k / 2]) else Divider)
  }

  /** One more iteration of a loop that appends `f(x)` and a divider for each item `x`. */
  lemma WithDividersStep(xs: seq<Value>, i: nat, f: Value --> Block)
    requires i < |xs| && forall j :: 0 <= j <= i ==> f.requires(xs[j])
    ensures WithDividers(xs[..i + 1], f) == WithDividers(xs[..i], f) + [f(xs[i]), Divider]
  {
    var b, b' := WithDividers(xs[..i], f), WithDividers(xs[..i + 1], f);
    forall k | 0 <= k < 2 * i + 2 ensures b'[k] == (b + [f(xs[i]), Divider])[k] {
      var j := k / 2;
      assert k == 2 * j || k == 2 * j + 1;
      if j < i {
        assert xs[..i + 1][j] == xs[..i][j];
      }
    }
  }

  /** The loop `for x in xs: blocks.append(section(x)); rows.append(row(x))` over
      dicts, started on `blocks`; a non-dict item raises AttributeError. */
  method AppendSections(blocks: seq<Block>, xs: seq<Value>, section: Value --> Block, row: Value --> seq<Value>)
    returns (r: Result<(seq<Block>, seq<seq<Value>>)>)
    requires forall x: Value :: x.Obj? ==> section.requires(x) && row.requires(x)
    ensures r == if AllRecords(xs) then Ok((blocks + Each(xs, section), Each(xs, row))) else Err(AttributeError)
  {
    var bs := blocks;
    var rows: seq<seq<Value>> := [];
    var i := 0;
    while i < |xs|
      invariant 0 <= i <= |xs|
      invariant AllRecords(xs[..i])
      invariant bs == blocks + Each(xs[..i], section)
      invariant rows == Each(xs[..i], row)
    {
      if !xs[i].Obj? {
        return Err(AttributeError);
      }
      EachStep(xs, i, section);
      EachStep(xs, i, row);
      bs := bs + [section(xs[i])];
      rows := rows + [row(xs[i])];
      i := i + 1;
    }
    assert xs[..i] == xs;
    return Ok((bs, rows));
  }

  /** The same loop with a divider appended after each section. */
  method AppendDividedSections(blocks: seq<Block>, xs: seq<Value>, section: Value --> Block, row: Value --> seq<Value>)
    returns (r: Result<(seq<Block>, seq<seq<Value>>)>)
    requires forall x: Value :: x.Obj? ==> section.requires(x) && row.requires(x)
    ensures r == if AllRecords(xs) then Ok((blocks + WithDividers(xs, section), Each(xs, row))) else Err(AttributeError)
  {
    var bs := blocks;
    var rows: seq<seq<Value>> := [];
    var i := 0;
    while i < |xs|
      invariant 0 <= i <= |xs|
      invariant AllRecords(xs[..i])
      invariant bs == blocks + WithDividers(xs[..i], section)
      invariant rows == Each(xs[..i], row)
    {
      if !xs[i].Obj? {
        return Err(AttributeError);
      }
      WithDividersStep(xs, i, section);
      EachStep(xs, i, row);
      bs := bs + [section(xs[i]), Divider];
      rows := rows + [row(xs[i])];
      i := i + 1;
    }
    assert xs[..i] == xs;
    return Ok((bs, rows));
  }

  // ---------------------------------------------------------------------------
  // format_user_assets
  // ---------------------------------------------------------------------------

  function QueryHeader(query: string): string {
    "查詢：`" + query + "`"
  }

  const NoUserText: string := "未找到對應使用者，改以資產匹配。"
  const NoAssetsText: string := "找不到資產。"
  const AssetColumns: seq<string> := ["Asset Name", "Serial Number", "Purchased On", "AIN"]

  /** `user.get("name") or user.get("full_name") or user.get("email")`. */
  function UserName(user: Value): Value
    requires user.Obj?
  {
    FirstTruthy([Get(user, "name"), Get(user, "full_name"), Get(user, "email")])
  }

  /** The second block: the user's name, or the note that no user was found. A truthy
      user that is not a dict has no `get`. */
  function UserBlock(user: Value): Result<Block> {
    if !Truthy(user) then Ok(Section(NoUserText))
    else if !user.Obj? then Err(AttributeError)
    else Ok(Section("\U{1F464} *User Name*：" + Render(UserName(user))))
  }

  function AssetSerial(a: Value): Value
    requires a.Obj?
  {
    GetFirst(a, ["serial_number", "serial"])
  }

  function AssetPurchase(a: Value): Value
    requires a.Obj?
  {
    GetFirst(a, ["purchase_date", "purchased_on"])
  }

  function AssetAin(a: Value): Value
    requires a.Obj?
  {
    GetFirst(a, ["asset_number", "ain", "tag", "id"])
  }

  /** The section of one asset: four labelled lines. */
  function AssetSection(a: Value): Block
    requires a.Obj?
  {
    Section(Join("\n", [Pair("\U{1F4BB} Asset Name", Get(a, "name")),
                Pair("\U{1F511} Serial Number", AssetSerial(a)),
                Pair("\U{1F4C5} Purchased On", AssetPurchase(a)),
                Pair("\U{1F3F7}\U{FE0F} AIN", AssetAin(a))]))
  }

  function AssetRow(a: Value): seq<Value>
    requires a.Obj?
  {
    [Get(a, "name"), AssetSerial(a), AssetPurchase(a), AssetAin(a)]
  }

  /** What `format_user_assets(query, data)` returns or raises. */
  function UserAssetsReply(query: string, data: Lookup): Result<Reply> {
    var assets := OrEmptyList(data.assets);
    var header := Section(QueryHeader(query));
    match UserBlock(data.user)
    case Err(e) => Err(e)
    case Ok(ublock) =>
      if !Truthy(assets) then Ok(Reply([header, ublock, Section(NoAssetsText)], None))
      else match SliceElements(assets, AssetCap)
        case None => Err(TypeError)
        case Some(xs) =>
          if !AllRecords(xs) then Err(AttributeError)
          else Ok(Reply([header, ublock, Divider] + WithDividers(xs, AssetSection),
                        Some(Csv("assets", AssetColumns, Each(xs, AssetRow)))))
  }

  /** `format_user_assets(query, data)`. */
  method FormatUserAssets(query: string, data: Lookup) returns (r: Result<Reply>)
    ensures r == UserAssetsReply(query, data)
  {
    var user := data.user;
    var assets := OrEmptyList(data.assets);
    var header := Section(QueryHeader(query));
    var ublock := UserBlock(user);
    if ublock.Err? {
      return Err(ublock.error);
    }
    if !Truthy(assets) {
      return Ok(Reply([header, ublock.value, Section(NoAssetsText)], None));
    }
    var sliced := SliceElements(assets, AssetCap);
    if sliced.None? {
      return Err(TypeError);
    }
    var loop := AppendDividedSections([header, ublock.value, Divider], sliced.value, AssetSection, AssetRow);
    if loop.Err? {
      return Err(loop.error);
    }
    return Ok(Reply(loop.value.0, Some(Csv("assets", AssetColumns, loop.value.1))));
  }

  // ---------------------------------------------------------------------------
  // format_licenses_expiring
  // ---------------------------------------------------------------------------

  function LicensesHeader(days: int): string {
    "\U{26A0}\U{FE0F} *以下 License 將於 " + IntToString(days) + " 天內到期*"
  }

  const NoLicensesText: string := "沒有快到期的 license。"
  const LicenseColumns: seq<string> := ["License Name", "Expires On"]

  function LicenseSection(lic: Value): Block
    requires lic.Obj?
  {
    Section("• *" + Render(Get(lic, "name")) + "*（到期日：" + Render(Get(lic, "expires_on")) + ")")
  }

  function LicenseRow(lic: Value): seq<Value>
    requires lic.Obj?
  {
    [Get(lic, "name"), Get(lic, "expires_on")]
  }

  /** What `format_licenses_expiring(days, items)` returns or raises. */
  function LicensesReply(days: int, items: seq<Value>): Result<Reply> {
    var header := Section(LicensesHeader(days));
    if items == [] then Ok(Reply([header, Section(NoLicensesText)], None))
    else
      var xs := Take(items, ListCap);
      if !AllRecords(xs) then Err(AttributeError)
      else Ok(Reply([header, Divider] + Each(xs, LicenseSection),
                    Some(Csv("licenses", LicenseColumns, Each(xs, LicenseRow)))))
  }

  /** `format_licenses_expiring(days, items)`. */
  method FormatLicensesExpiring(days: int, items: seq<Value>) returns (r: Result<Reply>)
    ensures r == LicensesReply(days, items)
  {
    var header := Section(LicensesHeader(days));
    if items == [] {
      return Ok(Reply([header, Section(NoLicensesText)], None));
    }
    var loop := AppendSections([header, Divider], Take(items, ListCap), LicenseSection, LicenseRow);
    if loop.Err? {
      return Err(loop.error);
    }
    return Ok(Reply(loop.value.0, Some(Csv("licenses", LicenseColumns, loop.value.1))));
  }

  // ---------------------------------------------------------------------------
  // format_old_laptops
  // ---------------------------------------------------------------------------

  function LaptopsHeader(years: int): string {
    "\U{1F5A5}\U{FE0F} *以下筆電已超過 " + IntToString(years) + " 年*"
  }

  const NoLaptopsText: string := "沒有符合條件的筆電。"

  /** `a.get("purchased_on") or a.get("purchased_date") or a.get("purchase_date")`. */
  const LaptopPurchaseKeys: seq<string> := ["purchased_on", "purchased_date", "purchase_date"]

  function LaptopPurchase(a: Value): Value
    requires a.Obj?
  {
    GetFirst(a, LaptopPurchaseKeys)
  }

  function LaptopSection(a: Value): Block
    requires a.Obj?
  {
    Section("• *" + Render(Get(a, "name")) + "* — Serial: `" + Render(Get(a, "serial"))
    + "`，購買日：" + Render(LaptopPurchase(a)) + "，AIN：`" + Render(Get(a, "ain")) + "`")
  }

  function LaptopRow(a: Value): seq<Value>
    requires a.Obj?
  {
    [Get(a, "name"), Get(a, "serial"), LaptopPurchase(a), Get(a, "ain")]
  }

  /** What `format_old_laptops(years, items)` returns or raises. */
  function LaptopsReply(years: int, items: seq<Value>): Result<Reply> {
    var header := Section(LaptopsHeader(years));
    if items == [] then Ok(Reply([header, Section(NoLaptopsText)], None))
    else
      var xs := Take(items, ListCap);
      if !AllRecords(xs) then Err(AttributeError)
      else Ok(Reply([header, Divider] + Each(xs, LaptopSection),
                    Some(Csv("old_laptops", AssetColumns, Each(xs, LaptopRow)))))
  }

  /** `format_old_laptops(years, items)`. */
  method FormatOldLaptops(years: int, items: seq<Value>) returns (r: Result<Reply>)
    ensures r == LaptopsReply(years, items)
  {
    var header := Section(LaptopsHeader(years));
    if items == [] {
      return Ok(Reply([header, Section(NoLaptopsText)], None));
    }
    var loop := AppendSections([header, Divider], Take(items, ListCap), LaptopSection, LaptopRow);
    if loop.Err? {
      return Err(loop.error);
    }
    return Ok(Reply(loop.value.0, Some(Csv("old_laptops", AssetColumns, loop.value.1))));
  }

  // ---------------------------------------------------------------------------
  // Properties
  // ---------------------------------------------------------------------------

  /** A pair shows "-" exactly when its value is falsy or is itself the text "-". */
  lemma PairDash(title: string, v: Value)
    ensures Pair(title, v) == "*" + title + "*：-" <==> !Truthy(v) || Render(v) == "-"
  {
    var p := "*" + title + "*：";
    var shown := if Truthy(v) then Render(v) else "-";
    assert Pair(title, v) == p + shown;
    if p + shown == p + "-" {
      assert shown == (p + shown)[|p|..] == (p + "-")[|p|..] == "-";
    }
  }

  /** The user block names the user by name, else by full name, else by e-mail
      (whatever that holds, even when it is empty). */
  lemma UserNameFallback(user: Value)
    requires user.Obj?
    ensures Truthy(Get(user, "name")) ==> UserName(user) == Get(user, "name")
    ensures !Truthy(Get(user, "name")) && Truthy(Get(user, "full_name")) ==> UserName(user) == Get(user, "full_name")
    ensures !Truthy(Get(user, "name")) && !Truthy(Get(user, "full_name")) ==> UserName(user) == Get(user, "email")
  {
    var vs := [Get(user, "name"), Get(user, "full_name"), Get(user, "email")];
    assert vs[1..] == [Get(user, "full_name"), Get(user, "email")];
    assert vs[1..][1..] == [Get(user, "email")];
    assert FirstTruthy(vs[1..][1..]) == Get(user, "email");
    assert FirstTruthy(vs[1..]) == if Truthy(vs[1]) then vs[1] else FirstTruthy(vs[1..][1..]);
  }

  /** Blocks `pre` followed by `f(y)` and a divider for each `y` of `ys`, by position. */
  lemma WithDividersAfter(pre: seq<Block>, ys: seq<Value>, f: Value --> Block)
    requires forall j :: 0 <= j < |ys| ==> f.requires(ys[j])
    ensures |pre + WithDividers(ys, f)| == |pre| + 2 * |ys|
    ensures (pre + WithDividers(ys, f))[..|pre|] == pre
    ensures forall i :: 0 <= i < |ys| ==>
              (pre + WithDividers(ys, f))[|pre| + 2 * i] == f(ys[i])
              && (pre + WithDividers(ys, f))[|pre| + 2 * i + 1] == Divider
  {
    forall i | 0 <= i < |ys|
      ensures WithDividers(ys, f)[2 * i] == f(ys[i]) && WithDividers(ys, f)[2 * i + 1] == Divider
    {
      assert (2 * i) / 2 == i && (2 * i) % 2 == 0;
      assert (2 * i + 1) / 2 == i && (2 * i + 1) % 2 == 1;
    }
    assert (pre + WithDividers(ys, f))[..|pre|] == pre;
  }

  /** With no assets (missing, `None` or empty), the reply is the header, the user
      block and a "no assets" note, and there is no CSV. */
  lemma UserAssetsWithoutAssets(query: string, data: Lookup)
    requires !Truthy(data.assets) && UserBlock(data.user).Ok?
    ensures UserAssetsReply(query, data)
            == Ok(Reply([Section(QueryHeader(query)), UserBlock(data.user).value, Section(NoAssetsText)], None))
  {
    assert OrEmptyList(data.assets) == Arr([]);
  }

  /** For a list of `n` assets the reply holds 3 + 2·min(n, 10) blocks: the header, the
      user block, a divider, then a section and a divider for each of the first ten
      assets in order; the CSV has one 4-cell row per listed asset, in the same order,
      under the 4-column header. */
  lemma UserAssetsShape(query: string, data: Lookup)
    requires data.assets.Arr? && data.assets.items != [] && UserAssetsReply(query, data).Ok?
    ensures var xs := data.assets.items;
            var n := Min(|xs|, AssetCap);
            var r := UserAssetsReply(query, data).value;
            |r.blocks| == 3 + 2 * n
            && r.blocks[..3] == [Section(QueryHeader(query)), UserBlock(data.user).value, Divider]
            && (forall i :: 0 <= i < n ==>
                  xs[i].Obj? && r.blocks[3 + 2 * i] == AssetSection(xs[i]) && r.blocks[4 + 2 * i] == Divider)
            && r.csv.Some? && r.csv.value.header == AssetColumns && |r.csv.value.rows| == n
            && (forall i :: 0 <= i < n ==>
                  r.csv.value.rows[i] == AssetRow(xs[i]) && |r.csv.value.rows[i]| == |AssetColumns|)
  {
    var xs := data.assets.items;
    var ys := SliceElements(data.assets, AssetCap).value;
    var n := Min(|xs|, AssetCap);
    assert |ys| == n && forall i :: 0 <= i < n ==> ys[i] == xs[i];
    var pre := [Section(QueryHeader(query)), UserBlock(data.user).value, Divider];
    assert UserAssetsReply(query, data).value
           == Reply(pre + WithDividers(ys, AssetSection), Some(Csv("assets", AssetColumns, Each(ys, AssetRow))));
    WithDividersAfter(pre, ys, AssetSection);
  }

  /** `format_user_assets` raises exactly when the user is truthy but not a dict, or
      the assets are truthy but cannot be sliced, or one of the first ten assets is
      not a dict; later assets are never looked at. */
  lemma UserAssetsFailure(query: string, data: Lookup)
    ensures UserAssetsReply(query, data).Err? <==>
            UserBlock(data.user).Err?
            || (Truthy(data.assets) && SliceElements(data.assets, AssetCap).None?)
            || (Truthy(data.assets) && SliceElements(data.assets, AssetCap).Some?
                && exists i :: 0 <= i < |SliceElements(data.assets, AssetCap).value|
                               && !SliceElements(data.assets, AssetCap).value[i].Obj?)
  {
    assert Truthy(data.assets) ==> OrEmptyList(data.assets) == data.assets;
    assert !Truthy(data.assets) ==> !Truthy(OrEmptyList(data.assets));
  }

  /** For `n` licenses the reply holds 2 + min(n, 20) blocks: the header, a divider
      and one section per listed license in order; the CSV has one 2-cell row per
      listed license under the 2-column header. With none, there are two blocks and
      no CSV. */
  lemma LicensesShape(days: int, items: seq<Value>)
    requires LicensesReply(days, items).Ok?
    ensures items == [] ==>
              LicensesReply(days, items).value
              == Reply([Section(LicensesHeader(days)), Section(NoLicensesText)], None)
    ensures items != [] ==>
              var n := Min(|items|, ListCap);
              var r := LicensesReply(days, items).value;
              |r.blocks| == 2 + n && r.blocks[..2] == [Section(LicensesHeader(days)), Divider]
              && (forall i :: 0 <= i < n ==> items[i].Obj? && r.blocks[2 + i] == LicenseSection(items[i]))
              && r.csv.Some? && r.csv.value.header == LicenseColumns && |r.csv.value.rows| == n
              && (forall i :: 0 <= i < n ==>
                    r.csv.value.rows[i] == LicenseRow(items[i]) && |r.csv.value.rows[i]| == |LicenseColumns|)
  {
    if items != [] {
      var xs := Take(items, ListCap);
      assert forall i :: 0 <= i < |xs| ==> xs[i] == items[i];
    }
  }

  /** `format_licenses_expiring` raises exactly when one of the first twenty items is
      not a dict. */
  lemma LicensesFailure(days: int, items: seq<Value>)
    ensures LicensesReply(days, items).Err? <==> exists i :: 0 <= i < Min(|items|, ListCap) && !items[i].Obj?
  {
    var xs := Take(items, ListCap);
    assert forall i :: 0 <= i < |xs| ==> xs[i] == items[i];
  }

  /** For `n` laptops the reply holds 2 + min(n, 20) blocks: the header, a divider and
      one section per listed laptop in order; the CSV has one 4-cell row per listed
      laptop under the 4-column header. With none, there are two blocks and no CSV. */
  lemma LaptopsShape(years: int, items: seq<Value>)
    requires LaptopsReply(years, items).Ok?
    ensures items == [] ==>
              LaptopsReply(years, items).value
              == Reply([Section(LaptopsHeader(years)), Section(NoLaptopsText)], None)
    ensures items != [] ==>
              var n := Min(|items|, ListCap);
              var r := LaptopsReply(years, items).value;
              |r.blocks| == 2 + n && r.blocks[..2] == [Section(LaptopsHeader(years)), Divider]
              && (forall i :: 0 <= i < n ==> items[i].Obj? && r.blocks[2 + i] == LaptopSection(items[i]))
              && r.csv.Some? && r.csv.value.header == AssetColumns && |r.csv.value.rows| == n
              && (forall i :: 0 <= i < n ==>
                    r.csv.value.rows[i] == LaptopRow(items[i]) && |r.csv.value.rows[i]| == |AssetColumns|)
  {
    if items != [] {
      var xs := Take(items, ListCap);
      assert forall i :: 0 <= i < |xs| ==> xs[i] == items[i];
    }
  }

  /** `format_old_laptops` raises exactly when one of the first twenty items is not
      a dict. */
  lemma LaptopsFailure(years: int, items: seq<Value>)
    ensures LaptopsReply(years, items).Err? <==> exists i :: 0 <= i < Min(|items|, ListCap) && !items[i].Obj?
  {
    var xs := Take(items, ListCap);
    assert forall i :: 0 <= i < |xs| ==> xs[i] == items[i];
  }

  /** Each header shows what was asked for: the query, the number of days, the
      number of years. */
  lemma HeadersEmbedRequest(query: string, days: int, years: int)
    ensures Contains(QueryHeader(query), query)
    ensures Contains(LicensesHeader(days), IntToString(days))
    ensures Contains(LaptopsHeader(years), IntToString(years))
  {
    var q := "查詢：`";
    assert QueryHeader(query)[|q|..|q| + |query|] == query;
    assert OccursAt(QueryHeader(query), query, |q|);
    var l := "\U{26A0}\U{FE0F} *以下 License 將於 ";
    var ds := IntToString(days);
    assert LicensesHeader(days)[|l|..|l| + |ds|] == ds;
    assert OccursAt(LicensesHeader(days), ds, |l|);
    var o := "\U{1F5A5}\U{FE0F} *以下筆電已超過 ";
    var ys := IntToString(years);
    assert LaptopsHeader(years)[|o|..|o| + |ys|] == ys;
    assert OccursAt(LaptopsHeader(years), ys, |o|);
  }

  /** A row of the license report shows the license's name and its expiry date in ISO
      form, as `licenses_expiring_within` recorded them. */
  lemma LicenseRowOfEntry(lic: Value, d: Date)
    requires lic.Obj?
    ensures LicenseRow(LicenseEntry(lic, d)) == [LicenseName(lic), Str(Iso(d))]
  {
    LicenseRowOfFields(LicenseName(lic), Str(Iso(d)), lic);
  }

  lemma LicenseRowOfFields(name: Value, expires: Value, raw: Value)
    ensures LicenseRow(Obj([Field("name", name), Field("expires_on", expires), Field("raw", raw)]))
            == [name, expires]
  {
    var f := [Field("name", name), Field("expires_on", expires), Field("raw", raw)];
    FirstWithKey(f, 0, "name");
    FirstWithKey(f, 1, "expires_on");
  }

  /** A row of the laptop report shows the name, serial, ISO purchase date and AIN
      that `laptops_older_than` recorded for the asset. */
  lemma LaptopRowOfEntry(a: Value, d: Date)
    requires a.Obj?
    ensures LaptopRow(LaptopEntry(a, d)) == [AssetName(a), GetFirst(a, SerialKeys), Str(Iso(d)), GetFirst(a, AinKeys)]
  {
    LaptopRowOfFields(AssetName(a), GetFirst(a, SerialKeys), Iso(d), GetFirst(a, AinKeys), a);
  }

  lemma LaptopRowOfFields(name: Value, serial: Value, purchased: string, ain: Value, raw: Value)
    requires purchased != ""
    ensures var e := Obj([Field("name", name), Field("serial", serial), Field("purchased_on", Str(purchased)),
                          Field("ain", ain), Field("raw", raw)]);
            LaptopRow(e) == [name, serial, Str(purchased), ain]
  {
    var f := [Field("name", name), Field("serial", serial), Field("purchased_on", Str(purchased)),
              Field("ain", ain), Field("raw", raw)];
    assert Get(Obj(f), "name") == name by { FirstWithKey(f, 0, "name"); }
    assert Get(Obj(f), "serial") == serial by { FirstWithKey(f, 1, "serial"); }
    assert LaptopPurchase(Obj(f)) == Str(purchased) by {
      FirstWithKey(f, 2, "purchased_on");
      GetFirstHit(Obj(f), LaptopPurchaseKeys, 0);
    }
    assert Get(Obj(f), "ain") == ain by { FirstWithKey(f, 3, "ain"); }
  }
}
