/**
 * `extract_mortgage_data`: numbering the lenders read from the mortgage
 * history grid into the keys `lender_{n}_name` / `lender_{n}_rate`.
 *
 * The primary strategy walks the grid rows and numbers only the rows whose
 * two cells are both non-blank, so its numbers are contiguous. The secondary
 * strategy, used only when the primary one numbered nothing, pairs the
 * name cells with the rate cells by position and numbers each pair by that
 * position, so a blank pair leaves a gap.
 */
module Mortgage {
  import opened Text

  /** `f'lender_{n}_name'`. */
  function NameKey(n: nat): string {
    "lender_" + NatToString(n) + "_name"
  }

  /** `f'lender_{n}_rate'`. */
  function RateKey(n: nat): string {
    "lender_" + NatToString(n) + "_rate"
  }

  /** Both keys of every slot 1..n. */
  ghost function LenderKeys(n: nat): set<string> {
    (set j | 1 <= j <= n :: NameKey(j)) + (set j | 1 <= j <= n :: RateKey(j))
  }

  /** Different slots have different keys, and a name key is never a rate key. */
  lemma LenderKeysDistinct(a: nat, b: nat)
    ensures NameKey(a) == NameKey(b) ==> a == b
    ensures RateKey(a) == RateKey(b) ==> a == b
    ensures NameKey(a) != RateKey(b)
  {
    var sa, sb := NatToString(a), NatToString(b);
    if NameKey(a) == NameKey(b) || RateKey(a) == RateKey(b) {
      var ka := if NameKey(a) == NameKey(b) then NameKey(a) else RateKey(a);
      var kb := if NameKey(a) == NameKey(b) then NameKey(b) else RateKey(b);
      assert |sa| == |sb|;
      assert sa == ka[7..7 + |sa|] == kb[7..7 + |sb|] == sb;
      NatToStringInjective(a, b);
    }
    if |sa| == |sb| {
      assert NameKey(a)[|NameKey(a)| - 4] == 'n';
      assert RateKey(b)[|RateKey(b)| - 4] == 'r';
    }
  }

  /** One grid row: a cell is missing, or the raw text of its lender-name and interest-rate cells. */
  datatype GridRow = MissingCell | Cells(name: string, rate: string)

  /** Both cells after `.strip()`. */
  function StripRow(row: GridRow): GridRow {
    match row
    case MissingCell => MissingCell
    case Cells(name, rate) => Cells(Strip(name), Strip(rate))
  }

  /** Every row after `.strip()`, in order. */
  function StripRows(rows: seq<GridRow>): (r: seq<GridRow>)
    ensures |r| == |rows|
  {
    if rows == [] then [] else StripRows(rows[..|rows| - 1]) + [StripRow(rows[|rows| - 1])]
  }

  lemma {:induction false} StripRowsAt(rows: seq<GridRow>, i: nat)
    requires i < |rows|
    ensures StripRows(rows)[i] == StripRow(rows[i])
  {
    if i < |rows| - 1 {
      StripRowsAt(rows[..|rows| - 1], i);
    }
  }

  /** Stripping one more row extends the stripped rows by that row. */
  lemma StripRowsPrefix(rows: seq<GridRow>, i: nat)
    requires i < |rows|
    ensures StripRows(rows[..i + 1]) == StripRows(rows[..i]) + [StripRow(rows[i])]
  {
    assert rows[..i + 1][..i] == rows[..i];
  }

  /** `if lender_name and interest_rate`, on stripped cell texts. */
  predicate IsEntry(name: string, rate: string) {
    name != "" && rate != ""
  }

  predicate IsLenderRow(row: GridRow) {
    row.Cells? && IsEntry(row.name, row.rate)
  }

  /** How many of the rows the primary strategy numbers. */
  function LenderRowCount(rows: seq<GridRow>): (n: nat)
    ensures n <= |rows|
  {
    if rows == [] then 0
    else LenderRowCount(rows[..|rows| - 1]) + if IsLenderRow(rows[|rows| - 1]) then 1 else 0
  }

  /** Counting lender rows over a longer prefix never gives less. */
  lemma {:induction false} LenderRowCountMonotone(rows: seq<GridRow>, i: nat, j: nat)
    requires i <= j <= |rows|
    ensures LenderRowCount(rows[..i]) <= LenderRowCount(rows[..j])
    decreases j - i
  {
    if i < j {
      assert rows[..j][..j - 1] == rows[..j - 1];
      LenderRowCountMonotone(rows, i, j - 1);
    }
  }

  /**
   * The outcome of the primary strategy: slots 1..count exactly, and the
   * lender row at position i sits in slot 1 + (number of lender rows before it).
   */
  ghost predicate CompactNumbering(data: map<string, string>, rows: seq<GridRow>) {
    data.Keys == LenderKeys(LenderRowCount(rows)) && RowsInSlots(data, rows)
  }

  /** The slot of row i: one more than the number of lender rows before it. */
  ghost function Slot(rows: seq<GridRow>, i: nat): nat
    requires i <= |rows|
  {
    LenderRowCount(rows[..i]) + 1
  }

  /** Slot n of `data` holds the texts of `row`. */
  ghost predicate Holds(data: map<string, string>, n: nat, row: GridRow)
    requires row.Cells?
  {
    NameKey(n) in data && RateKey(n) in data && data[NameKey(n)] == row.name && data[RateKey(n)] == row.rate
  }

  /** Every lender row is in the slot its position among the lender rows gives it. */
  ghost predicate RowsInSlots(data: map<string, string>, rows: seq<GridRow>) {
    forall i :: 0 <= i < |rows| && IsLenderRow(rows[i]) ==> Holds(data, Slot(rows, i), rows[i])
  }

  /** An empty grid numbers nothing. */
  lemma CompactEmpty()
    ensures CompactNumbering(map[], [])
  {
    assert LenderKeys(0) == {};
  }

  /** Slot n + 1 adds exactly its two keys to the slots 1..n. */
  lemma LenderKeysSucc(n: nat)
    ensures LenderKeys(n + 1) == LenderKeys(n) + {NameKey(n + 1), RateKey(n + 1)}
  {
  }

  /** The keys of later slots differ from those of slots 1..n. */
  lemma FreshSlot(data: map<string, string>, n: nat)
    requires data.Keys == LenderKeys(n)
    ensures NameKey(n + 1) !in data && RateKey(n + 1) !in data
  {
    forall j | 1 <= j <= n
      ensures NameKey(j) != NameKey(n + 1) && NameKey(j) != RateKey(n + 1)
      ensures RateKey(j) != NameKey(n + 1) && RateKey(j) != RateKey(n + 1)
    {
      LenderKeysDistinct(j, n + 1);
      LenderKeysDistinct(n + 1, j);
    }
  }

  /** Writing slot n + 1 into slots 1..n gives slots 1..n + 1. */
  lemma SlotKeys(data: map<string, string>, n: nat, name: string, rate: string)
    requires data.Keys == LenderKeys(n)
    ensures data[NameKey(n + 1) := name][RateKey(n + 1) := rate].Keys == LenderKeys(n + 1)
  {
    LenderKeysSucc(n);
  }

  lemma LenderRowCountAppend(rows: seq<GridRow>, row: GridRow)
    ensures LenderRowCount(rows + [row]) == LenderRowCount(rows) + if IsLenderRow(row) then 1 else 0
  {
    assert (rows + [row])[..|rows|] == rows;
  }

  /** Writing the next slot keeps every earlier lender row where it was. */
  lemma EarlierRowsKept(data: map<string, string>, rows: seq<GridRow>, name: string, rate: string)
    requires data.Keys == LenderKeys(LenderRowCount(rows))
    requires RowsInSlots(data, rows)
    ensures RowsInSlots(data[NameKey(LenderRowCount(rows) + 1) := name][RateKey(LenderRowCount(rows) + 1) := rate], rows)
  {
    var n := LenderRowCount(rows);
    var data' := data[NameKey(n + 1) := name][RateKey(n + 1) := rate];
    FreshSlot(data, n);
    forall i | 0 <= i < |rows| && IsLenderRow(rows[i])
      ensures Holds(data', Slot(rows, i), rows[i])
    {
      assert Holds(data, Slot(rows, i), rows[i]);
    }
  }

  /** Appending a row keeps every earlier row's slot. */
  lemma SlotAppend(rows: seq<GridRow>, row: GridRow, i: nat)
    requires i <= |rows|
    ensures Slot(rows + [row], i) == Slot(rows, i)
  {
    assert (rows + [row])[..i] == rows[..i];
  }

  /** Slot n of the updated map holds the row just written there. */
  lemma NewSlotHolds(data: map<string, string>, n: nat, row: GridRow)
    requires row.Cells?
    ensures Holds(data[NameKey(n) := row.name][RateKey(n) := row.rate], n, row)
  {
    LenderKeysDistinct(n, n);
  }

  /** The slots of the rows before the appended one, and of the appended one. */
  lemma RowsInSlotsTake(data': map<string, string>, rows: seq<GridRow>, row: GridRow)
    requires RowsInSlots(data', rows) && IsLenderRow(row)
    requires Holds(data', LenderRowCount(rows) + 1, row)
    ensures RowsInSlots(data', rows + [row])
  {
    var rows' := rows + [row];
    forall i | 0 <= i < |rows'| && IsLenderRow(rows'[i])
      ensures Holds(data', Slot(rows', i), rows'[i])
    {
      SlotAppend(rows, row, i);
      if i < |rows| {
        assert rows'[i] == rows[i];
      } else {
        assert rows[..|rows|] == rows;
      }
    }
  }

  /** A lender row takes the next slot and leaves the earlier slots untouched. */
  lemma CompactTake(data: map<string, string>, rows: seq<GridRow>, row: GridRow, n: nat)
    requires CompactNumbering(data, rows) && n == LenderRowCount(rows)
    requires IsLenderRow(row)
    ensures CompactNumbering(data[NameKey(n + 1) := row.name][RateKey(n + 1) := row.rate], rows + [row])
  {
    var data' := data[NameKey(n + 1) := row.name][RateKey(n + 1) := row.rate];
    LenderRowCountAppend(rows, row);
    SlotKeys(data, n, row.name, row.rate);
    EarlierRowsKept(data, rows, row.name, row.rate);
    NewSlotHolds(data, n + 1, row);
    RowsInSlotsTake(data', rows, row);
  }

  /** A row that is not a lender row leaves the numbering as it was. */
  lemma CompactSkip(data: map<string, string>, rows: seq<GridRow>, row: GridRow)
    requires CompactNumbering(data, rows)
    requires !IsLenderRow(row)
    ensures CompactNumbering(data, rows + [row])
  {
    LenderRowCountAppend(rows, row);
    var rows' := rows + [row];
    forall i | 0 <= i < |rows'| && IsLenderRow(rows'[i])
      ensures Holds(data, Slot(rows', i), rows'[i])
    {
      SlotAppend(rows, row, i);
      assert rows'[i] == rows[i];
    }
  }

  /** The first loop of `extract_mortgage_data`, over the `.ag-row` rows. */
  method NumberGridRows(rows: seq<GridRow>) returns (data: map<string, string>, count: nat)
    ensures count == LenderRowCount(StripRows(rows))
    ensures CompactNumbering(data, StripRows(rows))
  {
    data, count := map[], 0;
    ghost var done: seq<GridRow> := [];
    CompactEmpty();
    assert rows[..0] == [];
    var i := 0;
    while i < |rows|
      invariant 0 <= i <= |rows|
      invariant done == StripRows(rows[..i])
      invariant count == LenderRowCount(done)
      invariant CompactNumbering(data, done)
    {
      StripRowsPrefix(rows, i);
      var row := StripRow(rows[i]);
      LenderRowCountAppend(done, row);
      if row.Cells? && row.name != "" && row.rate != "" {
        CompactTake(data, done, row, count);
        count := count + 1;
        data := data[NameKey(count) := row.name][RateKey(count) := row.rate];
      } else {
        CompactSkip(data, done, row);
      }
      done := done + [row];
      i := i + 1;
    }
    assert rows[..i] == rows;
  }

  /** `zip(lender_cells, rate_cells)`: one row per position below the shorter list. */
  function Zip(names: seq<string>, rates: seq<string>): (r: seq<GridRow>)
    ensures |r| == if |names| < |rates| then |names| else |rates|
    ensures forall i :: 0 <= i < |r| ==> r[i] == Cells(names[i], rates[i])
  {
    var n := if |names| < |rates| then |names| else |rates|;
    seq(n, i requires 0 <= i < n => Cells(names[i], rates[i]))
  }

  /** The slots of the lender rows when each row is numbered by its position. */
  ghost function PositionKeys(rows: seq<GridRow>): set<string> {
    if rows == [] then {}
    else
      var last := if IsLenderRow(rows[|rows| - 1]) then {NameKey(|rows|), RateKey(|rows|)} else {};
      PositionKeys(rows[..|rows| - 1]) + last
  }

  /** Every key in PositionKeys(rows) belongs to a slot 1..|rows|. */
  lemma {:induction false} PositionKeysBelow(rows: seq<GridRow>, m: nat)
    requires m > |rows|
    ensures NameKey(m) !in PositionKeys(rows) && RateKey(m) !in PositionKeys(rows)
  {
    if rows != [] {
      PositionKeysBelow(rows[..|rows| - 1], m);
      LenderKeysDistinct(m, |rows|);
      LenderKeysDistinct(|rows|, m);
    }
  }

  /**
   * The outcome of the secondary strategy: slot i + 1 is filled exactly when
   * row i is a lender row, and then holds that row's texts.
   */
  ghost predicate PositionalNumbering(data: map<string, string>, rows: seq<GridRow>) {
    && data.Keys == PositionKeys(rows)
    && forall i :: 0 <= i < |rows| && IsLenderRow(rows[i]) ==> Holds(data, i + 1, rows[i])
  }

  /** Appending a row that is not a lender row adds no slot. */
  lemma PositionalSkip(data: map<string, string>, rows: seq<GridRow>, row: GridRow)
    requires PositionalNumbering(data, rows)
    requires !IsLenderRow(row)
    ensures PositionalNumbering(data, rows + [row])
  {
    assert (rows + [row])[..|rows|] == rows;
    assert forall i :: 0 <= i < |rows| ==> (rows + [row])[i] == rows[i];
  }

  /** Appending a lender row fills its own slot and keeps the others. */
  lemma PositionalTake(data: map<string, string>, rows: seq<GridRow>, row: GridRow, n: nat)
    requires PositionalNumbering(data, rows) && n == |rows|
    requires IsLenderRow(row)
    ensures PositionalNumbering(data[NameKey(n + 1) := row.name][RateKey(n + 1) := row.rate], rows + [row])
  {
    var data' := data[NameKey(n + 1) := row.name][RateKey(n + 1) := row.rate];
    var rows' := rows + [row];
    assert rows'[..n] == rows;
    LenderKeysDistinct(n + 1, n + 1);
    PositionKeysBelow(rows, n + 1);
    forall i | 0 <= i < |rows'| && IsLenderRow(rows'[i])
      ensures Holds(data', i + 1, rows'[i])
    {
      if i < n {
        assert rows'[i] == rows[i];
        assert Holds(data, i + 1, rows[i]);
      }
    }
  }

  /** The fallback loop of `extract_mortgage_data`: `enumerate(zip(lender_cells, rate_cells), 1)`. */
  method NumberByPosition(names: seq<string>, rates: seq<string>) returns (data: map<string, string>)
    ensures PositionalNumbering(data, StripRows(Zip(names, rates)))
  {
    var pairs := Zip(names, rates);
    data := map[];
    ghost var done: seq<GridRow> := [];
    assert pairs[..0] == [];
    var i := 0;
    while i < |pairs|
      invariant 0 <= i <= |pairs|
      invariant done == StripRows(pairs[..i]) && |done| == i
      invariant PositionalNumbering(data, done)
    {
      StripRowsPrefix(pairs, i);
      var row := StripRow(pairs[i]);
      if row.Cells? && row.name != "" && row.rate != "" {
        PositionalTake(data, done, row, i);
        data := data[NameKey(i + 1) := row.name][RateKey(i + 1) := row.rate];
      } else {
        PositionalSkip(data, done, row);
      }
      done := done + [row];
      i := i + 1;
    }
    assert pairs[..i] == pairs;
  }

  /** Every key of slots 1..n starts with `lender_`. */
  lemma LenderKeysPrefixed(n: nat)
    ensures forall k :: k in LenderKeys(n) ==> "lender_" <= k
  {
    forall k | k in LenderKeys(n)
      ensures "lender_" <= k
    {
      var j :| 1 <= j <= n && (k == NameKey(j) || k == RateKey(j));
    }
  }

  /** Every key of PositionKeys(rows) starts with `lender_`. */
  lemma {:induction false} PositionKeysPrefixed(rows: seq<GridRow>)
    ensures forall k :: k in PositionKeys(rows) ==> "lender_" <= k
  {
    if rows != [] {
      PositionKeysPrefixed(rows[..|rows| - 1]);
    }
  }

  /**
   * What `extract_mortgage_data` returns: nothing when the grid did not
   * load, the compact numbering when some grid row is a lender row, and the
   * positional numbering otherwise.
   */
  ghost predicate MortgageOutcome(data: map<string, string>, gridLoaded: bool, rows: seq<GridRow>, names: seq<string>, rates: seq<string>) {
    && (!gridLoaded ==> data == map[])
    && (gridLoaded && LenderRowCount(StripRows(rows)) > 0 ==> CompactNumbering(data, StripRows(rows)))
    && (gridLoaded && LenderRowCount(StripRows(rows)) == 0 ==> PositionalNumbering(data, StripRows(Zip(names, rates))))
  }

  /**
   * `extract_mortgage_data`. `gridLoaded` is whether the grid container
   * appeared within the wait; when it did not, nothing is read. The second
   * strategy runs only when the first numbered no row.
   */
  method ExtractMortgageData(gridLoaded: bool, rows: seq<GridRow>, names: seq<string>, rates: seq<string>)
    returns (data: map<string, string>)
    ensures MortgageOutcome(data, gridLoaded, rows, names, rates)
    ensures forall k :: k in data ==> "lender_" <= k
  {
    if !gridLoaded {
      return map[];
    }
    var count;
    data, count := NumberGridRows(rows);
    LenderKeysPrefixed(count);
    if count == 0 {
      data := NumberByPosition(names, rates);
      PositionKeysPrefixed(StripRows(Zip(names, rates)));
    }
  }

  /** A map with four distinct keys is the display of those keys and values. */
  lemma FourEntries<K, V>(m: map<K, V>, k1: K, k2: K, k3: K, k4: K)
    requires m.Keys == {k1, k2, k3, k4}
    requires k1 != k2 && k1 != k3 && k1 != k4 && k2 != k3 && k2 != k4 && k3 != k4
    ensures m == map[k1 := m[k1], k2 := m[k2], k3 := m[k3], k4 := m[k4]]
  {
  }

  /** The four keys of slots a and b, for a != b, are distinct. */
  lemma TwoSlotKeysDistinct(a: nat, b: nat)
    requires a != b
    ensures NameKey(a) != RateKey(a) && NameKey(a) != NameKey(b) && NameKey(a) != RateKey(b)
    ensures RateKey(a) != NameKey(b) && RateKey(a) != RateKey(b) && NameKey(b) != RateKey(b)
  {
    LenderKeysDistinct(a, b);
    LenderKeysDistinct(b, a);
    LenderKeysDistinct(a, a);
    LenderKeysDistinct(b, b);
  }

  lemma LenderKeysTwo()
    ensures LenderKeys(2) == {NameKey(1), RateKey(1), NameKey(2), RateKey(2)}
  {
    assert LenderKeys(0) == {};
    LenderKeysSucc(0);
    LenderKeysSucc(1);
  }

  /** Two filled slots determine the whole map. */
  lemma TwoSlots(data: map<string, string>, first: GridRow, second: GridRow)
    requires first.Cells? && second.Cells?
    requires data.Keys == LenderKeys(2) && Holds(data, 1, first) && Holds(data, 2, second)
    ensures data == map[NameKey(1) := first.name, RateKey(1) := first.rate, NameKey(2) := second.name, RateKey(2) := second.rate]
  {
    LenderKeysTwo();
    TwoSlotKeysDistinct(1, 2);
    FourEntries(data, NameKey(1), RateKey(1), NameKey(2), RateKey(2));
  }

  /** Lender rows at positions 0 and 2 around a blank row take slots 1 and 2. */
  lemma SlotsAroundBlankRow(data: map<string, string>, rows: seq<GridRow>)
    requires |rows| == 3 && IsLenderRow(rows[0]) && !IsLenderRow(rows[1]) && IsLenderRow(rows[2])
    requires CompactNumbering(data, rows)
    ensures data == map[NameKey(1) := rows[0].name, RateKey(1) := rows[0].rate, NameKey(2) := rows[2].name, RateKey(2) := rows[2].rate]
  {
    assert rows[..0] == [] && rows[..2][..1] == rows[..1] && rows[..1][..0] == rows[..0];
    assert rows[..3][..2] == rows[..2] && rows[..3] == rows;
    assert LenderRowCount(rows[..2]) == 1;
    assert LenderRowCount(rows) == 2;
    assert Holds(data, Slot(rows, 0), rows[0]) && Holds(data, Slot(rows, 2), rows[2]);
    TwoSlots(data, rows[0], rows[2]);
  }

  /** A blank row between two lenders does not consume a slot in the primary strategy. */
  method BlankRowExample(nameA: string, rateA: string, nameB: string, rateB: string) returns (data: map<string, string>)
    requires Unpadded(nameA) && Unpadded(rateA) && Unpadded(nameB) && Unpadded(rateB)
    ensures data == map[NameKey(1) := nameA, RateKey(1) := rateA, NameKey(2) := nameB, RateKey(2) := rateB]
  {
    var rows := [Cells(nameA, rateA), Cells("", ""), Cells(nameB, rateB)];
    var count;
    data, count := NumberGridRows(rows);
    UnpaddedRowsStripped(rows);
    SlotsAroundBlankRow(data, rows);
  }

  /** Rows whose cells are unpadded or empty are unchanged by stripping. */
  lemma UnpaddedRowsStripped(rows: seq<GridRow>)
    requires forall i :: 0 <= i < |rows| ==> rows[i].Cells?
    requires forall i :: 0 <= i < |rows| ==> (rows[i].name == "" || Unpadded(rows[i].name))
    requires forall i :: 0 <= i < |rows| ==> (rows[i].rate == "" || Unpadded(rows[i].rate))
    ensures StripRows(rows) == rows
  {
    forall i | 0 <= i < |rows|
      ensures StripRows(rows)[i] == rows[i]
    {
      StripRowsAt(rows, i);
      if rows[i].name != "" {
        StripUnpadded(rows[i].name);
      }
      if rows[i].rate != "" {
        StripUnpadded(rows[i].rate);
      }
    }
  }

  /** Filled slots 1 and 3 determine the whole map. */
  lemma SlotsOneAndThree(data: map<string, string>, rows: seq<GridRow>)
    requires |rows| == 3 && IsLenderRow(rows[0]) && !IsLenderRow(rows[1]) && IsLenderRow(rows[2])
    requires PositionalNumbering(data, rows)
    ensures data == map[NameKey(1) := rows[0].name, RateKey(1) := rows[0].rate, NameKey(3) := rows[2].name, RateKey(3) := rows[2].rate]
  {
    assert rows[..3] == rows && rows[..3][..2] == rows[..2] && rows[..2][..1] == rows[..1] && rows[..1][..0] == [];
    assert PositionKeys(rows[..0]) == {};
    assert PositionKeys(rows[..1]) == {NameKey(1), RateKey(1)};
    assert PositionKeys(rows[..2]) == {NameKey(1), RateKey(1)};
    assert PositionKeys(rows) == {NameKey(1), RateKey(1), NameKey(3), RateKey(3)};
    assert Holds(data, 1, rows[0]) && Holds(data, 3, rows[2]);
    TwoSlotKeysDistinct(1, 3);
    FourEntries(data, NameKey(1), RateKey(1), NameKey(3), RateKey(3));
  }

  /**
   * When no grid row is a lender row, a blank pair between two lenders
   * leaves slot 2 empty in the positional strategy.
   */
  method PositionalGapExample(nameA: string, rateA: string, nameC: string, rateC: string) returns (data: map<string, string>)
    requires Unpadded(nameA) && Unpadded(rateA) && Unpadded(nameC) && Unpadded(rateC)
    ensures data == map[NameKey(1) := nameA, RateKey(1) := rateA, NameKey(3) := nameC, RateKey(3) := rateC]
  {
    var names, rates := [nameA, "", nameC], [rateA, "", rateC];
    assert StripRows([]) == [];
    data := ExtractMortgageData(true, [], names, rates);
    ghost var pairs := Zip(names, rates);
    assert pairs == [Cells(nameA, rateA), Cells("", ""), Cells(nameC, rateC)];
    UnpaddedRowsStripped(pairs);
    SlotsOneAndThree(data, pairs);
  }
}
