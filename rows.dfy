/** Row normalisation and permission masking: how `fetchData` turns each raw
    feed row into a transaction (src/App.tsx:549-570). Each field takes the
    first truthy cell among its column aliases, text fields are cleaned, the
    amount is cleaned into a number, and the amount is zeroed for users whose
    permissions do not include it. */
module Rows {
  import opened Text
  import opened Cells

  /** A raw feed row: column header to cell. A column the row lacks reads as
      `undefined`. */
  type RawRow = map<string, Cell>

  function Get(row: RawRow, column: string): Cell {
    if column in row then row[column] else Missing
  }

  /** `row[a1] || row[a2] || ... || row[an]`: the first truthy cell in alias
      order, or the last alias's cell when none is truthy. */
  function Pick(row: RawRow, aliases: seq<string>): (r: Cell)
    requires aliases != []
    ensures exists i :: 0 <= i < |aliases| && r == Get(row, aliases[i]) &&
              (forall j :: 0 <= j < i ==> !Truthy(Get(row, aliases[j]))) &&
              (Truthy(r) || i == |aliases| - 1)
  {
    if |aliases| == 1 || Truthy(Get(row, aliases[0])) then Get(row, aliases[0])
    else
      var r := Pick(row, aliases[1..]);
      ghost var i :| 0 <= i < |aliases[1..]| && r == Get(row, aliases[1..][i]) &&
        (forall j :: 0 <= j < i ==> !Truthy(Get(row, aliases[1..][j]))) &&
        (Truthy(r) || i == |aliases[1..]| - 1);
      assert forall j :: 0 <= j < i + 1 ==> !Truthy(Get(row, aliases[j])) by {
        forall j | 0 <= j < i + 1
          ensures !Truthy(Get(row, aliases[j]))
        {
          if j > 0 {
            assert aliases[j] == aliases[1..][j - 1];
          }
        }
      }
      assert r == Get(row, aliases[i + 1]);
      r
  }

  /** The result is truthy exactly when one of the aliased cells is. */
  lemma PickTruthy(row: RawRow, aliases: seq<string>)
    requires aliases != []
    ensures Truthy(Pick(row, aliases)) <==> exists i :: 0 <= i < |aliases| && Truthy(Get(row, aliases[i]))
  {
    var r := Pick(row, aliases);
    var i :| 0 <= i < |aliases| && r == Get(row, aliases[i]) &&
      (forall j :: 0 <= j < i ==> !Truthy(Get(row, aliases[j]))) &&
      (Truthy(r) || i == |aliases| - 1);
    if !Truthy(r) {
      assert forall j :: 0 <= j < |aliases| ==> !Truthy(Get(row, aliases[j]));
    }
  }

  /** A falsy first alias (a 0, an empty string, a missing column) falls
      through to the next one: `0 || 5` is 5. */
  lemma PickFallsThrough(row: RawRow)
    requires "金額" in row && row["金額"] == Num(0.0, "0")
    requires "Amount" in row && row["Amount"] == Num(5.0, "5")
    ensures Pick(row, AmountAliases) == Num(5.0, "5")
  {
    assert AmountAliases[1..] == ["Amount", "總金額"];
  }

  const DateAliases: seq<string> := ["日期", "Date", "進件日期"]
  const AmountAliases: seq<string> := ["金額", "Amount", "總金額"]
  const CurrencyAliases: seq<string> := ["幣別", "Currency"]
  const AgentAliases: seq<string> := ["業務", "Agent", "業務姓名"]
  const BrandAliases: seq<string> := ["品牌", "Brand", "品牌名稱"]
  const ProjectAliases: seq<string> := ["專案", "Project", "專案名稱"]
  const IndustryAliases: seq<string> := ["產業", "Industry", "產業分類"]
  const StatusAliases: seq<string> := ["狀態", "Status", "客戶狀態"]
  const CountryAliases: seq<string> := ["國家", "Country", "國別"]

  /** The keys of `DATA_FIELDS` (src/App.tsx:27-37). */
  const FieldKeys: seq<string> :=
    ["date", "amount", "currency", "agentName", "brandName", "projectName", "industry", "status", "country"]

  /** A normalised row. The date is kept as the raw text the feed supplied;
      every other text field is cleaned. */
  datatype Transaction = Transaction(
    date: string,
    amount: real,
    currency: string,
    agentName: string,
    brandName: string,
    projectName: string,
    industry: string,
    status: string,
    country: string)

  /** The date cell as the later stages read it: its text, or `""` when it
      is absent. A numeric date is read as `""` too. */
  function DateText(c: Cell): (r: string)
    ensures r != [] ==> c == Str(r)
  {
    match c
    case Str(s) => s
    case _ => ""
  }

  /** The fields a user may see: every field for `all`, otherwise the
      lower-cased permission list split at commas and trimmed. */
  function AllowedFields(permissions: string): (r: seq<string>)
    ensures Lower(permissions) == "all" ==> r == FieldKeys
    ensures Lower(permissions) != "all" ==>
              |r| == |Split(Lower(permissions), ',')| &&
              forall i :: 0 <= i < |r| ==> r[i] == Trim(Split(Lower(permissions), ',')[i])
  {
    var perms := Lower(permissions);
    if perms == "all" then FieldKeys
    else
      var parts := Split(perms, ',');
      seq(|parts|, i requires 0 <= i < |parts| => Trim(parts[i]))
  }

  /** Whether `fetchData` zeroes the amount for these permissions. */
  predicate AmountMasked(permissions: string) {
    Lower(permissions) != "all" && "amount" !in AllowedFields(permissions)
  }

  /** The amount is hidden exactly when the user may not see the `amount`
      field: `all` always sees it. */
  lemma AmountMaskedIff(permissions: string)
    ensures AmountMasked(permissions) <==> "amount" !in AllowedFields(permissions)
  {
    if Lower(permissions) == "all" {
      AllSeesAmount();
    }
  }

  lemma AllSeesAmount()
    ensures "amount" in FieldKeys
  {
    assert FieldKeys[1] == "amount";
  }

  /** A permission list sees the amount when one of its trimmed,
      lower-cased entries is `amount`. */
  lemma AmountMaskedList(permissions: string)
    requires Lower(permissions) != "all"
    ensures AmountMasked(permissions) <==> !Lists(Split(Lower(permissions), ','), "amount")
  {
    TrimmedMember(AllowedFields(permissions), Split(Lower(permissions), ','), "amount");
  }

  /** Some entry of the comma-separated list, trimmed, is `field`. */
  predicate Lists(parts: seq<string>, field: string) {
    exists i :: 0 <= i < |parts| && Trim(parts[i]) == field
  }

  lemma TrimmedMember(r: seq<string>, parts: seq<string>, field: string)
    requires |r| == |parts| && forall i :: 0 <= i < |r| ==> r[i] == Trim(parts[i])
    ensures field in r <==> Lists(parts, field)
  {
    if field in r {
      var i :| 0 <= i < |r| && r[i] == field;
      assert Trim(parts[i]) == field;
    }
  }

  /** `fetchData`'s mapping of one raw row for a user with these permissions. */
  function MapRow(row: RawRow, permissions: string): (t: Transaction)
    ensures t.amount == if AmountMasked(permissions) then 0.0 else CleanNumber(Pick(row, AmountAliases))
  {
    Transaction(
      DateText(Pick(row, DateAliases)),
      if AmountMasked(permissions) then 0.0 else CleanNumber(Pick(row, AmountAliases)),
      CleanText(Pick(row, CurrencyAliases)),
      CleanText(Pick(row, AgentAliases)),
      CleanText(Pick(row, BrandAliases)),
      CleanText(Pick(row, ProjectAliases)),
      CleanText(Pick(row, IndustryAliases)),
      CleanText(Pick(row, StatusAliases)),
      CleanText(Pick(row, CountryAliases)))
  }

  /** The full mapping as a user with every permission sees it. */
  function FullRow(row: RawRow): Transaction {
    MapRow(row, "all")
  }

  /** Masking touches the amount and nothing else; a user who may see the
      amount gets exactly the full row. */
  lemma MaskingOnlyTouchesAmount(row: RawRow, permissions: string)
    ensures MapRow(row, permissions) ==
              FullRow(row).(amount := if AmountMasked(permissions) then 0.0 else FullRow(row).amount)
    ensures !AmountMasked(permissions) ==> MapRow(row, permissions) == FullRow(row)
  {
    AllLower();
  }

  lemma AllLower()
    ensures Lower("all") == "all"
    ensures !AmountMasked("all")
  {
  }

  /** The mapped rows: one transaction per raw row, in order. */
  function FetchRows(rows: seq<RawRow>, permissions: string): (ts: seq<Transaction>)
    ensures |ts| == |rows|
    ensures forall i :: 0 <= i < |rows| ==> ts[i] == MapRow(rows[i], permissions)
  {
    seq(|rows|, i requires 0 <= i < |rows| => MapRow(rows[i], permissions))
  }

  /** A user with an empty permission list sees every amount as 0. */
  lemma EmptyPermissionsMask()
    ensures AmountMasked("")
  {
    assert Lower("") == "";
    assert Split("", ',') == [""];
    assert AllowedFields("") == [Trim("")];
  }
}
