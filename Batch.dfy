/**
 * The row accounting of `scrape_propstream_data`: which spreadsheet rows are
 * searched, and what row each of them contributes to the result table. The
 * browser is abstracted: login and readiness are given as booleans, and the
 * search of one address is an oracle from the row's position and address to
 * what `search_and_extract_property_data` returned.
 */
module Batch {
  import opened Wrappers
  import opened Text
  import opened Normalize
  import opened Details

  /** A spreadsheet cell: a value, as `str()` renders it, or a missing one (NaN). */
  datatype Cell = Value(text: string) | Missing

  /** `str(cell)`: a missing cell renders as "nan". */
  function CellString(c: Cell): (s: string)
    ensures c.Value? ==> s == c.text
    ensures c.Missing? ==> s == "nan"
  {
    match c
    case Value(t) => t
    case Missing => "nan"
  }

  /** One row of the table, column name to cell: `row.to_dict()`. */
  type Row = map<string, Cell>

  /** Every row has the address column (it is chosen among the table's columns). */
  predicate HasColumn(rows: seq<Row>, column: string) {
    forall i :: 0 <= i < |rows| ==> column in rows[i]
  }

  /** `str(row[address_column]).strip()`. */
  function Address(row: Row, column: string): string
    requires column in row
  {
    Strip(CellString(row[column]))
  }

  /**
   * A missing address is not skipped: "nan" is not blank, and `pd.isna` on a
   * string is never true, so the scraper searches for "nan".
   */
  lemma MissingAddressSearched(row: Row, column: string)
    requires column in row && row[column].Missing?
    ensures Address(row, column) == "nan"
  {
    StripUnpadded("nan");
  }

  /** How many leading rows are processed: all of them when the maximum is 0, else at most the maximum. */
  function EffectiveCount(rowCount: nat, maxProperties: nat): (n: nat)
    ensures maxProperties == 0 ==> n == rowCount
    ensures n <= rowCount
    ensures maxProperties > 0 ==> n <= maxProperties
    ensures n == rowCount || n == maxProperties
  {
    if maxProperties == 0 then rowCount
    else if maxProperties < rowCount then maxProperties
    else rowCount
  }

  /** The stripped address of every row. */
  function Addresses(rows: seq<Row>, column: string): seq<string>
    requires HasColumn(rows, column)
  {
    seq(|rows|, i requires 0 <= i < |rows| => Address(rows[i], column))
  }

  /** The address of row i, as the loop reads it. */
  lemma AddressAt(rows: seq<Row>, column: string, i: nat)
    requires HasColumn(rows, column) && i < |rows|
    ensures |Addresses(rows, column)| == |rows|
    ensures Addresses(rows, column)[i] == Address(rows[i], column)
  {
  }

  /** The positions, among the first `count` rows, whose address is not blank: the rows searched. */
  function Attempted(addresses: seq<string>, count: nat): seq<nat>
    requires count <= |addresses|
  {
    if count == 0 then []
    else if addresses[count - 1] != "" then Attempted(addresses, count - 1) + [count - 1]
    else Attempted(addresses, count - 1)
  }

  /** Every position listed is among the first `count` rows and has a non-blank address. */
  lemma {:induction false} AttemptedSound(addresses: seq<string>, count: nat)
    requires count <= |addresses|
    ensures forall j :: 0 <= j < |Attempted(addresses, count)| ==>
              Attempted(addresses, count)[j] < count && addresses[Attempted(addresses, count)[j]] != ""
  {
    if count > 0 {
      AttemptedSound(addresses, count - 1);
    }
  }

  /** Every non-blank address among the first `count` rows is listed. */
  lemma {:induction false} AttemptedComplete(addresses: seq<string>, count: nat)
    requires count <= |addresses|
    ensures forall i :: 0 <= i < count && addresses[i] != "" ==> i in Attempted(addresses, count)
  {
    if count > 0 {
      AttemptedComplete(addresses, count - 1);
    }
  }

  /** The positions are listed in increasing order, so each row is searched once. */
  lemma {:induction false} AttemptedIncreasing(addresses: seq<string>, count: nat)
    requires count <= |addresses|
    ensures forall j, k :: 0 <= j < k < |Attempted(addresses, count)| ==>
              Attempted(addresses, count)[j] < Attempted(addresses, count)[k]
  {
    if count > 0 {
      AttemptedIncreasing(addresses, count - 1);
      AttemptedSound(addresses, count - 1);
    }
  }

  /** Blank rows count toward the cap: no row at or past a positive maximum is searched. */
  lemma CapCountsBlankRows(addresses: seq<string>, maxProperties: nat)
    requires maxProperties > 0
    ensures forall j :: 0 <= j < |Attempted(addresses, EffectiveCount(|addresses|, maxProperties))| ==>
              Attempted(addresses, EffectiveCount(|addresses|, maxProperties))[j] < maxProperties
  {
    AttemptedSound(addresses, EffectiveCount(|addresses|, maxProperties));
  }

  const Prefix: string := "propstream_"

  /** The extracted keys, each under the `propstream_` prefix. */
  function PrefixedKeys(data: map<string, string>): set<string> {
    set k | k in data.Keys :: Prefix + k
  }

  /** A prefixed key names the extracted key after the prefix. */
  lemma PrefixedKey(data: map<string, string>, k: string)
    ensures k in PrefixedKeys(data) <==> Prefix <= k && k[|Prefix|..] in data
  {
    if k in PrefixedKeys(data) {
      var x :| x in data && k == Prefix + x;
      assert k[|Prefix|..] == x;
    }
    if Prefix <= k && k[|Prefix|..] in data {
      assert k == Prefix + k[|Prefix|..];
    }
  }

  /**
   * The original row with every extracted entry written under its prefixed
   * key; an original column of the same name is overwritten.
   */
  function Merged(row: Row, data: map<string, string>): Row {
    forall k ensures k in PrefixedKeys(data) <==> Prefix <= k && k[|Prefix|..] in data {
      PrefixedKey(data, k);
    }
    map k | k in row.Keys + PrefixedKeys(data) ::
      if Prefix <= k && k[|Prefix|..] in data then Value(data[k[|Prefix|..]]) else row[k]
  }

  /**
   * The merged row has the original columns and the prefixed keys; each
   * extracted entry is under its prefixed key, and every other original
   * column keeps its cell.
   */
  lemma MergedSpec(row: Row, data: map<string, string>)
    ensures Merged(row, data).Keys == row.Keys + PrefixedKeys(data)
    ensures forall k :: k in data ==> Prefix + k in Merged(row, data) && Merged(row, data)[Prefix + k] == Value(data[k])
    ensures forall k :: k in row && k !in PrefixedKeys(data) ==> Merged(row, data)[k] == row[k]
  {
    forall k | k in data
      ensures Prefix + k in PrefixedKeys(data) && (Prefix + k)[|Prefix|..] == k
    {
      assert (Prefix + k)[|Prefix|..] == k;
    }
    forall k | k in row && k !in PrefixedKeys(data)
      ensures !(Prefix <= k && k[|Prefix|..] in data)
    {
      PrefixedKey(data, k);
    }
  }

  /** The entries of `data` whose keys are not in `pending`. */
  function Without(data: map<string, string>, pending: set<string>): (r: map<string, string>)
    ensures r.Keys == data.Keys - pending
    ensures forall k :: k in r ==> r[k] == data[k]
  {
    map k | k in data && k !in pending :: data[k]
  }

  /** Writing one more extracted entry is merging a dictionary with one more entry. */
  lemma MergedStep(row: Row, part: map<string, string>, key: string, value: string)
    ensures Merged(row, part[key := value]) == Merged(row, part)[Prefix + key := Value(value)]
  {
    var a, b := Merged(row, part[key := value]), Merged(row, part)[Prefix + key := Value(value)];
    assert PrefixedKeys(part[key := value]) == PrefixedKeys(part) + {Prefix + key};
    forall k | k in a
      ensures a[k] == b[k]
    {
      PrefixedKey(part[key := value], k);
      PrefixedKey(part, k);
      if k != Prefix + key && Prefix <= k && k[|Prefix|..] in part {
        assert k == Prefix + k[|Prefix|..];
        assert a[Prefix + k[|Prefix|..]] == b[Prefix + k[|Prefix|..]];
      }
    }
  }

  /** The merge loop of `scrape_propstream_data`: `result_row[f'propstream_{key}'] = value` for every entry. */
  method MergeRow(row: Row, data: map<string, string>) returns (merged: Row)
    ensures merged == Merged(row, data)
  {
    merged := row;
    var pending := data.Keys;
    MergeStart(row, data);
    while pending != {}
      invariant pending <= data.Keys
      invariant merged == Merged(row, Without(data, pending))
      decreases |pending|
    {
      var key :| key in pending;
      MergeOne(row, data, pending, key);
      merged := merged[Prefix + key := Value(data[key])];
      pending := pending - {key};
    }
    assert Without(data, {}) == data;
  }

  /** Before the merge loop nothing has been written. */
  lemma MergeStart(row: Row, data: map<string, string>)
    ensures Merged(row, Without(data, data.Keys)) == row
  {
    assert Without(data, data.Keys) == map[];
    assert PrefixedKeys(map[]) == {};
  }

  /** One pass of the merge loop writes the entry of `key`. */
  lemma MergeOne(row: Row, data: map<string, string>, pending: set<string>, key: string)
    requires key in pending && pending <= data.Keys
    ensures Merged(row, Without(data, pending - {key})) == Merged(row, Without(data, pending))[Prefix + key := Value(data[key])]
  {
    assert Without(data, pending - {key}) == Without(data, pending)[key := data[key]];
    MergedStep(row, Without(data, pending), key, data[key]);
  }

  /**
   * The row one searched address contributes: a dictionary that is not empty
   * is merged, and a failed (or empty) one is replaced by the failure fields.
   */
  function OutputRow(row: Row, extracted: Option<map<string, string>>): Row {
    match extracted
    case Some(data) => if data != map[] then Merged(row, data) else Merged(row, FailureFields())
    case None => Merged(row, FailureFields())
  }

  /** The body of the row loop for a searched address: `if property_data:` merge it, else merge the failure fields. */
  method MakeRow(row: Row, extracted: Option<map<string, string>>) returns (out: Row)
    ensures out == OutputRow(row, extracted)
  {
    if extracted.Some? && extracted.value != map[] {
      out := MergeRow(row, extracted.value);
    } else {
      out := MergeRow(row, FailureFields());
    }
  }

  /** A failed search yields the original row plus the seventeen prefixed default keys, all holding the sentinel. */
  lemma FailedRow(row: Row)
    ensures OutputRow(row, None).Keys == row.Keys + PrefixedKeys(FailureFields())
    ensures forall k :: k in DefaultKeys() ==> Prefix + k in OutputRow(row, None) && OutputRow(row, None)[Prefix + k] == Value(NA)
  {
    FailureFieldsDefaults();
    MergedSpec(row, FailureFields());
  }

  /**
   * A search that returns a non-empty dictionary puts each of its entries
   * under the prefixed key and keeps every original column that does not
   * start with the prefix.
   */
  lemma SucceededRow(row: Row, data: map<string, string>)
    requires data != map[]
    ensures forall k :: k in data ==> Prefix + k in OutputRow(row, Some(data)) && OutputRow(row, Some(data))[Prefix + k] == Value(data[k])
    ensures forall k :: k in row && !(Prefix <= k) ==> k in OutputRow(row, Some(data)) && OutputRow(row, Some(data))[k] == row[k]
  {
    MergedSpec(row, data);
    forall k | k in row && !(Prefix <= k)
      ensures k !in PrefixedKeys(data)
    {
      PrefixedKey(data, k);
    }
  }

  /** One item per position with a non-blank address among the first `count`, in position order. */
  function Collect<T>(addresses: seq<string>, count: nat, make: nat -> T): seq<T>
    requires count <= |addresses|
  {
    if count == 0 then []
    else if addresses[count - 1] != "" then Collect(addresses, count - 1, make) + [make(count - 1)]
    else Collect(addresses, count - 1, make)
  }

  /** The j-th collected item is made from the j-th position listed by Attempted. */
  lemma {:induction false} CollectPerSearch<T>(addresses: seq<string>, count: nat, make: nat -> T)
    requires count <= |addresses|
    ensures |Collect(addresses, count, make)| == |Attempted(addresses, count)|
    ensures forall j :: 0 <= j < |Attempted(addresses, count)| ==>
              Collect(addresses, count, make)[j] == make(Attempted(addresses, count)[j])
  {
    if count > 0 {
      CollectPerSearch(addresses, count - 1, make);
    }
  }

  /** The result row of the row at position `p`, built from what its search returned. */
  function SearchedRow(rows: seq<Row>, addresses: seq<string>,
                       extract: (nat, string) -> Option<map<string, string>>, p: nat): Row
  {
    if p < |rows| && p < |addresses| then OutputRow(rows[p], extract(p, addresses[p])) else map[]
  }

  /**
   * The result rows of the first `count` rows: one per row whose address is
   * not blank, in row order, built from what its search returned.
   */
  function Outputs(rows: seq<Row>, addresses: seq<string>, count: nat,
                   extract: (nat, string) -> Option<map<string, string>>): seq<Row>
    requires count <= |rows| == |addresses|
  {
    Collect(addresses, count, p => SearchedRow(rows, addresses, extract, p))
  }

  /** Exactly one result row per searched position, the j-th from the j-th searched row. */
  lemma OutputsPerSearch(rows: seq<Row>, addresses: seq<string>, count: nat,
                         extract: (nat, string) -> Option<map<string, string>>)
    requires count <= |rows| == |addresses|
    ensures |Outputs(rows, addresses, count, extract)| == |Attempted(addresses, count)|
    ensures forall j :: 0 <= j < |Attempted(addresses, count)| ==>
              Attempted(addresses, count)[j] < count &&
              Outputs(rows, addresses, count, extract)[j]
                == OutputRow(rows[Attempted(addresses, count)[j]],
                             extract(Attempted(addresses, count)[j], addresses[Attempted(addresses, count)[j]]))
  {
    CollectPerSearch(addresses, count, p => SearchedRow(rows, addresses, extract, p));
    AttemptedSound(addresses, count);
  }

  /** No result table is produced exactly when no address among the first `count` rows is non-blank. */
  lemma NoOutputs(rows: seq<Row>, addresses: seq<string>, count: nat,
                  extract: (nat, string) -> Option<map<string, string>>)
    requires count <= |rows| == |addresses|
    ensures Outputs(rows, addresses, count, extract) == [] <==> forall i :: 0 <= i < count ==> addresses[i] == ""
  {
    OutputsPerSearch(rows, addresses, count, extract);
    AttemptedSound(addresses, count);
    AttemptedComplete(addresses, count);
    if Attempted(addresses, count) != [] {
      assert Attempted(addresses, count)[0] in Attempted(addresses, count);
    }
  }

  /** One pass of the row loop: a row with a blank address is skipped, any other is searched and appended. */
  method ProcessRow(results: seq<Row>, rows: seq<Row>, column: string, ghost addresses: seq<string>, i: nat,
                    extract: (nat, string) -> Option<map<string, string>>)
    returns (next: seq<Row>)
    requires HasColumn(rows, column) && addresses == Addresses(rows, column) && i < |rows|
    requires results == Outputs(rows, addresses, i, extract)
    ensures next == Outputs(rows, addresses, i + 1, extract)
  {
    var address := Address(rows[i], column);
    AddressAt(rows, column, i);
    next := results;
    if address != "" {
      var row := MakeRow(rows[i], extract(i, address));
      next := results + [row];
    }
  }

  /**
   * `scrape_propstream_data` with the browser abstracted: None when login or
   * the wait for the search input fails, or when no row was searched;
   * otherwise the result rows of the first EffectiveCount rows.
   */
  method ScrapeBatch(rows: seq<Row>, column: string, maxProperties: nat, loggedIn: bool, ready: bool,
                     extract: (nat, string) -> Option<map<string, string>>)
    returns (result: Option<seq<Row>>)
    requires HasColumn(rows, column)
    ensures !loggedIn || !ready ==> result.None?
    ensures loggedIn && ready ==>
              var produced := Outputs(rows, Addresses(rows, column), EffectiveCount(|rows|, maxProperties), extract);
              result == if produced == [] then None else Some(produced)
  {
    if !loggedIn || !ready {
      return None;
    }
    ghost var addresses := Addresses(rows, column);
    var total := EffectiveCount(|rows|, maxProperties);
    var results: seq<Row> := [];
    var i := 0;
    assert results == Outputs(rows, addresses, 0, extract);
    while i < total
      invariant 0 <= i <= total <= |rows| == |addresses|
      invariant results == Outputs(rows, addresses, i, extract)
    {
      results := ProcessRow(results, rows, column, addresses, i, extract);
      i := i + 1;
    }
    assert i == total;
    assert results == Outputs(rows, Addresses(rows, column), EffectiveCount(|rows|, maxProperties), extract);
    result := if results == [] then None else Some(results);
  }
}
