/**
 * `extract_property_details` and `extract_financial_data`: reading the
 * fields of the property popup into one dictionary. The page is given as
 * the texts the locators would return, element by element; what is modelled
 * is which text is picked, how it is cleaned, and which defaults are filled.
 */
module Details {
  import opened Wrappers
  import opened Text
  import opened Normalize
  import opened Mortgage

  /** The eleven scalar fields of the detail dictionary, in the order of `default_keys`. */
  datatype Field =
    | EstimatedValue | LastSalePublicRecord | LastSaleDate | MlsValue | DocumentType
    | Beds | Baths | OpenMortgages | EstimatedBalance | InvoluntaryLiens | InvoluntaryAmount
  {
    /** The dictionary key of the field. */
    function Key(): string {
      match this
      case EstimatedValue => "estimated_value"
      case LastSalePublicRecord => "last_sale_public_record"
      case LastSaleDate => "last_sale_date"
      case MlsValue => "mls_value"
      case DocumentType => "document_type"
      case Beds => "beds"
      case Baths => "baths"
      case OpenMortgages => "open_mortgages"
      case EstimatedBalance => "estimated_balance"
      case InvoluntaryLiens => "involuntary_liens"
      case InvoluntaryAmount => "involuntary_amount"
    }
  }

  /** `default_keys`. */
  const ScalarFields: seq<Field> := [
    EstimatedValue, LastSalePublicRecord, Field.LastSaleDate, MlsValue, DocumentType,
    Beds, Baths, OpenMortgages, EstimatedBalance, InvoluntaryLiens, InvoluntaryAmount
  ]

  /** Different fields have different keys, and no field key starts like a lender key. */
  lemma FieldKeys(f: Field, g: Field)
    ensures f.Key() == g.Key() ==> f == g
    ensures !("lender_" <= f.Key())
  {
    KeyFieldInverts(f);
    KeyFieldInverts(g);
    var k := f.Key();
    assert k[0] != 'l' || k[1] != 'e';
  }

  /** The field a key names, if any: the inverse of Key. */
  function KeyField(k: string): Option<Field> {
    if k == "estimated_value" then Some(EstimatedValue)
    else if k == "last_sale_public_record" then Some(LastSalePublicRecord)
    else if k == "last_sale_date" then Some(Field.LastSaleDate)
    else if k == "mls_value" then Some(MlsValue)
    else if k == "document_type" then Some(DocumentType)
    else if k == "beds" then Some(Beds)
    else if k == "baths" then Some(Baths)
    else if k == "open_mortgages" then Some(OpenMortgages)
    else if k == "estimated_balance" then Some(EstimatedBalance)
    else if k == "involuntary_liens" then Some(InvoluntaryLiens)
    else if k == "involuntary_amount" then Some(InvoluntaryAmount)
    else None
  }

  lemma KeyFieldInverts(f: Field)
    ensures KeyField(f.Key()) == Some(f)
  {
  }

  /** The scalar keys. */
  ghost function ScalarKeys(): set<string> {
    set f: Field :: f.Key()
  }

  /** Every key the dictionary is guaranteed to hold: the scalar keys and lender slots 1..3. */
  ghost function DefaultKeys(): set<string> {
    ScalarKeys() + LenderKeys(3)
  }

  /** The position of `f` in `default_keys`. */
  function FieldIndex(f: Field): (j: nat)
    ensures j < |ScalarFields| && ScalarFields[j] == f
  {
    match f
    case EstimatedValue => 0
    case LastSalePublicRecord => 1
    case LastSaleDate => 2
    case MlsValue => 3
    case DocumentType => 4
    case Beds => 5
    case Baths => 6
    case OpenMortgages => 7
    case EstimatedBalance => 8
    case InvoluntaryLiens => 9
    case InvoluntaryAmount => 10
  }

  /** The keys of the first i entries of `default_keys`. */
  ghost function Listed(i: nat): set<string>
    requires i <= |ScalarFields|
  {
    set j | 0 <= j < i :: ScalarFields[j].Key()
  }

  lemma ListedSucc(i: nat)
    requires i < |ScalarFields|
    ensures Listed(i + 1) == Listed(i) + {ScalarFields[i].Key()}
  {
  }

  /** Adding the key of entry i of `default_keys` to those of the entries before it. */
  lemma ListedAdded(keys: set<string>, i: nat)
    requires i < |ScalarFields|
    ensures keys + Listed(i) + {ScalarFields[i].Key()} == keys + Listed(i + 1)
  {
    ListedSucc(i);
  }

  /** `default_keys` lists every scalar key. */
  lemma ListedAll()
    ensures Listed(|ScalarFields|) == ScalarKeys()
  {
    forall f: Field
      ensures f.Key() in Listed(|ScalarFields|)
    {
      var j := FieldIndex(f);
      assert ScalarFields[j].Key() in Listed(|ScalarFields|);
    }
  }

  /** Slots 1..3 have exactly these six keys. */
  lemma LenderKeysThree()
    ensures LenderKeys(3) == {NameKey(1), RateKey(1), NameKey(2), RateKey(2), NameKey(3), RateKey(3)}
  {
    LenderKeysSucc(0);
    LenderKeysSucc(1);
    LenderKeysSucc(2);
    assert LenderKeys(0) == {};
  }

  /** Always true: the label searches take the first label of the first element that has one. */
  predicate AnyText(t: string) {
    true
  }

  /** `text.isdigit()` on ASCII text: non-empty and all digits. */
  predicate IsBedsText(t: string) {
    |t| > 0 && All(t, IsDigit)
  }

  /** `re.match(r'\d+\.?\d*', text)` succeeds: the text starts with a digit. */
  predicate IsBathsText(t: string) {
    |t| > 0 && IsDigit(t[0])
  }

  /** The first text of `group` satisfying `p`. */
  function FirstInGroup(group: seq<string>, p: string -> bool): (r: Option<string>)
    ensures r.None? <==> forall k :: 0 <= k < |group| ==> !p(group[k])
    ensures r.Some? ==> p(r.value)
  {
    if group == [] then None
    else if p(group[0]) then Some(group[0])
    else
      assert forall k :: 1 <= k < |group| ==> group[1..][k - 1] == group[k];
      FirstInGroup(group[1..], p)
  }

  /**
   * The first text satisfying `p`, scanning the groups in order and each
   * group in order: what the nested `for elem ... for span ... break` loops pick.
   */
  function FirstSpan(groups: seq<seq<string>>, p: string -> bool): (r: Option<string>)
    ensures r.None? <==> forall a, k :: 0 <= a < |groups| && 0 <= k < |groups[a]| ==> !p(groups[a][k])
    ensures r.Some? ==> p(r.value)
  {
    if groups == [] then None
    else
      match FirstInGroup(groups[0], p)
      case Some(t) => Some(t)
      case None =>
        assert forall a :: 1 <= a < |groups| ==> groups[1..][a - 1] == groups[a];
        FirstSpan(groups[1..], p)
  }

  /** The text at position k of group a is found when no earlier text satisfies `p`. */
  lemma {:induction false} FirstInGroupIsFirst(group: seq<string>, p: string -> bool, k: nat)
    requires k < |group| && p(group[k])
    requires forall k' :: 0 <= k' < k ==> !p(group[k'])
    ensures FirstInGroup(group, p) == Some(group[k])
  {
    if k > 0 {
      assert forall k' :: 0 <= k' < k - 1 ==> group[1..][k'] == group[k' + 1];
      FirstInGroupIsFirst(group[1..], p, k - 1);
    }
  }

  /** The first text satisfying `p`, in reading order over all groups, is what FirstSpan returns. */
  lemma {:induction false} FirstSpanIsFirst(groups: seq<seq<string>>, p: string -> bool, a: nat, k: nat)
    requires a < |groups| && k < |groups[a]| && p(groups[a][k])
    requires forall a', k' :: 0 <= a' < a && 0 <= k' < |groups[a']| ==> !p(groups[a'][k'])
    requires forall k' :: 0 <= k' < k ==> !p(groups[a][k'])
    ensures FirstSpan(groups, p) == Some(groups[a][k])
  {
    if a == 0 {
      FirstInGroupIsFirst(groups[0], p, k);
    } else {
      assert FirstInGroup(groups[0], p).None?;
      assert forall a', k' :: 0 <= a' < a - 1 && 0 <= k' < |groups[1..][a']| ==> groups[1..][a'][k'] == groups[a' + 1][k'];
      FirstSpanIsFirst(groups[1..], p, a - 1, k);
    }
  }

  /** The nested search loops of `extract_property_details`, stopping at the first text satisfying `p`. */
  method FindFirst(groups: seq<seq<string>>, p: string -> bool) returns (found: Option<string>)
    ensures found == FirstSpan(groups, p)
  {
    found := None;
    var a := 0;
    while a < |groups| && found.None?
      invariant 0 <= a <= |groups|
      invariant found.None? ==> FirstSpan(groups, p) == FirstSpan(groups[a..], p)
      invariant found.Some? ==> found == FirstSpan(groups, p)
    {
      var group := groups[a];
      var k := 0;
      while k < |group| && found.None?
        invariant 0 <= k <= |group|
        invariant found.None? ==> FirstInGroup(group, p) == FirstInGroup(group[k..], p)
        invariant found.Some? ==> found == FirstInGroup(group, p)
      {
        if p(group[k]) {
          found := Some(group[k]);
        }
        assert group[k..][1..] == group[k + 1..];
        k := k + 1;
      }
      assert k == |group| ==> group[k..] == [];
      assert groups[a..][1..] == groups[a + 1..];
      a := a + 1;
    }
    assert a == |groups| ==> groups[a..] == [];
  }

  /** The text of the first element whose label is visible. */
  function FirstVisible(labels: seq<Option<string>>): (r: Option<string>)
    ensures r.None? <==> forall i :: 0 <= i < |labels| ==> labels[i].None?
  {
    if labels == [] then None
    else if labels[0].Some? then labels[0]
    else
      assert forall i :: 1 <= i < |labels| ==> labels[1..][i - 1] == labels[i];
      FirstVisible(labels[1..])
  }

  /** The label of element i is used when no earlier element has a visible label. */
  lemma {:induction false} FirstVisibleIsFirst(labels: seq<Option<string>>, i: nat)
    requires i < |labels| && labels[i].Some?
    requires forall i' :: 0 <= i' < i ==> labels[i'].None?
    ensures FirstVisible(labels) == labels[i]
  {
    if i > 0 {
      assert forall i' :: 0 <= i' < i - 1 ==> labels[1..][i'] == labels[i' + 1];
      FirstVisibleIsFirst(labels[1..], i - 1);
    }
  }

  /**
   * `extract_financial_data`: `labels[i]` is the text of the first label
   * next to the i-th element showing `fieldName`, or None when that label is
   * not visible. The first visible label is cleaned; none gives the sentinel.
   */
  method ExtractFinancialData(fieldName: string, labels: seq<Option<string>>) returns (value: string)
    ensures value == FinancialValue(fieldName, FirstVisible(labels))
  {
    var i := 0;
    while i < |labels|
      invariant 0 <= i <= |labels|
      invariant FirstVisible(labels) == FirstVisible(labels[i..])
    {
      if labels[i].Some? {
        var text := Strip(labels[i].value);
        if IsCurrencyField(fieldName) {
          return CleanCurrency(text);
        } else {
          return CleanNumeric(text);
        }
      }
      assert labels[i..][1..] == labels[i + 1..];
      i := i + 1;
    }
    assert labels[i..] == [];
    return NA;
  }

  /** `filled` keeps every entry of `data`, and every entry it adds is the sentinel. */
  predicate Defaulted(filled: map<string, string>, data: map<string, string>) {
    && (forall k :: k in data ==> k in filled && filled[k] == data[k])
    && (forall k :: k in filled && k !in data ==> filled[k] == NA)
  }

  /** `if key not in data: data[key] = 'N/A'`. */
  function WithDefault(m: map<string, string>, key: string): (r: map<string, string>)
    ensures r.Keys == m.Keys + {key}
    ensures forall k :: k in m ==> r[k] == m[k]
    ensures key !in m ==> r[key] == NA
  {
    if key in m then m else m[key := NA]
  }

  /** Adding a default keeps the entries of `data` and adds only the sentinel. */
  lemma DefaultedAdd(filled: map<string, string>, data: map<string, string>, key: string)
    requires Defaulted(filled, data)
    ensures Defaulted(WithDefault(filled, key), data)
  {
  }

  /** The first default loop: every scalar key missing from `data` gets the sentinel. */
  method FillScalarDefaults(data: map<string, string>) returns (filled: map<string, string>)
    ensures filled.Keys == data.Keys + ScalarKeys()
    ensures Defaulted(filled, data)
  {
    filled := data;
    var i := 0;
    while i < |ScalarFields|
      invariant 0 <= i <= |ScalarFields|
      invariant filled.Keys == data.Keys + Listed(i)
      invariant Defaulted(filled, data)
    {
      var key := ScalarFields[i].Key();
      DefaultedAdd(filled, data, key);
      filled := WithDefault(filled, key);
      ListedAdded(data.Keys, i);
      i := i + 1;
    }
    ListedAll();
  }

  /** The second default loop: the name and rate keys of slots 1..3 missing from `data` get the sentinel. */
  method FillLenderDefaults(data: map<string, string>) returns (filled: map<string, string>)
    ensures filled.Keys == data.Keys + LenderKeys(3)
    ensures Defaulted(filled, data)
  {
    filled := data;
    var n := 1;
    assert LenderKeys(0) == {};
    while n < 4
      invariant 1 <= n <= 4
      invariant filled.Keys == data.Keys + LenderKeys(n - 1)
      invariant Defaulted(filled, data)
    {
      filled := FillSlot(filled, data, n);
      n := n + 1;
    }
  }

  /** One pass of the second default loop: the name and then the rate key of slot n. */
  method FillSlot(filled: map<string, string>, data: map<string, string>, n: nat) returns (r: map<string, string>)
    requires n >= 1
    requires filled.Keys == data.Keys + LenderKeys(n - 1) && Defaulted(filled, data)
    ensures r.Keys == data.Keys + LenderKeys(n)
    ensures Defaulted(r, data)
  {
    DefaultedAdd(filled, data, NameKey(n));
    r := WithDefault(filled, NameKey(n));
    DefaultedAdd(r, data, RateKey(n));
    r := WithDefault(r, RateKey(n));
    SlotKeysAdded(data.Keys, n);
  }

  /** Adding both keys of slot n to the keys of slots 1..n-1. */
  lemma SlotKeysAdded(keys: set<string>, n: nat)
    requires n >= 1
    ensures keys + LenderKeys(n - 1) + {NameKey(n)} + {RateKey(n)} == keys + LenderKeys(n)
  {
    LenderKeysSucc(n - 1);
  }

  /** Filling the scalar defaults and then the lender defaults keeps `data` and adds only sentinels. */
  lemma DefaultedTrans(c: map<string, string>, b: map<string, string>, a: map<string, string>)
    requires Defaulted(b, a) && Defaulted(c, b)
    ensures Defaulted(c, a)
  {
  }

  /**
   * The two default loops at the end of `extract_property_details`: every
   * scalar key and the name and rate keys of lender slots 1..3 that are
   * missing get the sentinel, and nothing that is present changes.
   */
  method FillDefaults(data: map<string, string>) returns (filled: map<string, string>)
    ensures filled.Keys == data.Keys + DefaultKeys()
    ensures Defaulted(filled, data)
  {
    var scalars := FillScalarDefaults(data);
    filled := FillLenderDefaults(scalars);
    DefaultedTrans(filled, scalars, data);
  }

  /** The dictionary returned when reading the popup fails: every scalar key and lender slots 1..3, all sentinels. */
  function FailureFields(): map<string, string> {
    map[
      EstimatedValue.Key() := NA, LastSalePublicRecord.Key() := NA, Field.LastSaleDate.Key() := NA,
      MlsValue.Key() := NA, DocumentType.Key() := NA, Beds.Key() := NA, Baths.Key() := NA,
      OpenMortgages.Key() := NA, EstimatedBalance.Key() := NA, InvoluntaryLiens.Key() := NA,
      InvoluntaryAmount.Key() := NA,
      NameKey(1) := NA, RateKey(1) := NA, NameKey(2) := NA, RateKey(2) := NA,
      NameKey(3) := NA, RateKey(3) := NA
    ]
  }

  /** The failure dictionary has exactly the default keys, each holding the sentinel. */
  lemma FailureFieldsDefaults()
    ensures FailureFields().Keys == DefaultKeys()
    ensures forall k :: k in FailureFields() ==> FailureFields()[k] == NA
  {
    LenderKeysThree();
    ScalarKeysListed();
  }

  /** The eleven scalar keys, written out. */
  lemma ScalarKeysListed()
    ensures ScalarKeys() == {
      EstimatedValue.Key(), LastSalePublicRecord.Key(), Field.LastSaleDate.Key(), MlsValue.Key(),
      DocumentType.Key(), Beds.Key(), Baths.Key(), OpenMortgages.Key(), EstimatedBalance.Key(),
      InvoluntaryLiens.Key(), InvoluntaryAmount.Key()
    }
  {
    ListedAll();
    forall i | 0 <= i < 11 { ListedSucc(i); }
    assert Listed(0) == {};
  }

  /** What the Mortgage tab shows: whether the grid loaded, its rows, and the bare name and rate cells. */
  datatype MortgageGrid = MortgageGrid(gridLoaded: bool, rows: seq<GridRow>, names: seq<string>, rates: seq<string>)

  /**
   * The popup as the locators see it. Each label field lists, per element
   * showing the field's caption, the texts of the labels beside it; `beds`
   * and `baths` list the texts of the spans beside each caption; each
   * financial field lists, per caption element, its first label's text when
   * visible. `mortgageTab` is None when the Mortgage tab could not be clicked.
   */
  datatype DetailPage = DetailPage(
    estimatedValue: seq<seq<string>>,
    publicRecord: seq<seq<string>>,
    mls: seq<seq<string>>,
    documentType: seq<seq<string>>,
    beds: seq<seq<string>>,
    baths: seq<seq<string>>,
    openMortgages: seq<Option<string>>,
    estimatedBalance: seq<Option<string>>,
    involuntaryLiens: seq<Option<string>>,
    involuntaryAmount: seq<Option<string>>,
    mortgageTab: Option<MortgageGrid>)

  /** The text found, cleaned, or the sentinel when nothing was found. */
  function Found(found: Option<string>, clean: string -> string): string {
    match found
    case Some(t) => clean(t)
    case None => NA
  }

  /** The span text as read, for the fields stored without cleaning. */
  function Verbatim(t: string): string {
    t
  }

  function SaleAmount(t: string): string {
    SplitLastSale(t).amount
  }

  function SaleDate(t: string): string {
    SplitLastSale(t).date
  }

  /**
   * The value `extract_property_details` gives a scalar field: the first label
   * (or matching span) found, cleaned as that field's block does, else the
   * sentinel of the defaults loop.
   */
  function FieldValue(page: DetailPage, f: Field): string {
    match f
    case EstimatedValue => Found(FirstSpan(page.estimatedValue, AnyText), CleanCurrency)
    case LastSalePublicRecord => Found(FirstSpan(page.publicRecord, AnyText), SaleAmount)
    case LastSaleDate => Found(FirstSpan(page.publicRecord, AnyText), SaleDate)
    case MlsValue => Found(FirstSpan(page.mls, AnyText), Strip)
    case DocumentType => Found(FirstSpan(page.documentType, AnyText), Strip)
    case Beds => FirstSpan(page.beds, IsBedsText).GetOr(NA)
    case Baths => FirstSpan(page.baths, IsBathsText).GetOr(NA)
    case OpenMortgages => FinancialValue("Open Mortgages", FirstVisible(page.openMortgages))
    case EstimatedBalance => FinancialValue("Estimated Balance", FirstVisible(page.estimatedBalance))
    case InvoluntaryLiens => FinancialValue("Involuntary Liens", FirstVisible(page.involuntaryLiens))
    case InvoluntaryAmount => FinancialValue("Involuntary Amount", FirstVisible(page.involuntaryAmount))
  }

  /** FieldValue as a function of the field alone. */
  function Values(page: DetailPage): Field -> string {
    f => FieldValue(page, f)
  }

  /** The lender entries merged from the Mortgage tab, as `extract_mortgage_data` numbers them. */
  ghost predicate LendersRead(lenders: map<string, string>, tab: Option<MortgageGrid>) {
    match tab
    case None => lenders == map[]
    case Some(g) => MortgageOutcome(lenders, g.gridLoaded, g.rows, g.names, g.rates)
  }

  /**
   * `extract_property_details` on a popup that reads without error. The
   * dictionary holds every scalar key with its FieldValue, the lender entries
   * read from the Mortgage tab, and the sentinel in every slot 1..3 key the
   * tab did not fill.
   */
  method ExtractPropertyDetails(page: DetailPage) returns (data: map<string, string>, lenders: map<string, string>)
    ensures LendersRead(lenders, page.mortgageTab)
    ensures data.Keys == ScalarKeys() + LenderKeys(3) + lenders.Keys
    ensures forall f: Field :: data[f.Key()] == FieldValue(page, f)
    ensures forall k :: k in lenders ==> data[k] == lenders[k]
    ensures forall k :: k in LenderKeys(3) && k !in lenders ==> data[k] == NA
  {
    var scalars := ReadScalars(page);
    lenders := map[];
    if page.mortgageTab.Some? {
      var g := page.mortgageTab.value;
      lenders := ExtractMortgageData(g.gridLoaded, g.rows, g.names, g.rates);
    }
    var keyed := Keyed(scalars);
    data := FillDefaults(keyed + lenders);
    MergeKeys(scalars, keyed, lenders, data);
    MergeScalars(scalars, keyed, lenders, data, page);
    MergeLenders(scalars, keyed, lenders, data);
  }

  /**
   * A dictionary shaped as ExtractPropertyDetails returns it is never empty,
   * so the batch loop's `if property_data:` takes the success branch for it.
   */
  lemma DetailsNeverEmpty(data: map<string, string>, lenders: map<string, string>)
    requires data.Keys == ScalarKeys() + LenderKeys(3) + lenders.Keys
    ensures data != map[] && EstimatedValue.Key() in data
  {
    assert EstimatedValue.Key() in ScalarKeys();
  }

  /** The eleven scalar blocks of `extract_property_details`, in source order. */
  method ReadScalars(page: DetailPage) returns (scalars: map<Field, string>)
    ensures forall f: Field :: Agrees(scalars, f, FieldValue(page, f))
  {
    ghost var done: set<Field> := {};
    scalars := map[];
    scalars := ReadEstimatedValue(scalars, page, done);
    done := done + {EstimatedValue};
    scalars := ReadLastSale(scalars, page, done);
    done := done + {LastSalePublicRecord, Field.LastSaleDate};
    scalars := ReadMls(scalars, page, done);
    done := done + {MlsValue};
    scalars := ReadDocumentType(scalars, page, done);
    done := done + {DocumentType};
    scalars := ReadBeds(scalars, page, done);
    done := done + {Beds};
    scalars := ReadBaths(scalars, page, done);
    done := done + {Baths};
    scalars := ReadFinancials(scalars, page, done);
    done := done + {OpenMortgages, EstimatedBalance, InvoluntaryLiens, InvoluntaryAmount};
    AllRead(done);
    forall f: Field
      ensures Agrees(scalars, f, FieldValue(page, f))
    {
      assert Agrees(scalars, f, Values(page)(f));
    }
  }

  /** After the eleven blocks every field has been read. */
  lemma AllRead(done: set<Field>)
    requires {EstimatedValue, LastSalePublicRecord, Field.LastSaleDate, MlsValue, DocumentType, Beds, Baths} <= done
    requires {OpenMortgages, EstimatedBalance, InvoluntaryLiens, InvoluntaryAmount} <= done
    ensures forall f: Field :: f in done
  {
    forall f: Field
      ensures f in done
    {
      match f
      case EstimatedValue =>
      case LastSalePublicRecord =>
      case LastSaleDate =>
      case MlsValue =>
      case DocumentType =>
      case Beds =>
      case Baths =>
      case OpenMortgages =>
      case EstimatedBalance =>
      case InvoluntaryLiens =>
      case InvoluntaryAmount =>
    }
  }

  /** The estimated-value block: the first label, cleaned as currency. */
  method ReadEstimatedValue(scalars: map<Field, string>, page: DetailPage, ghost done: set<Field>) returns (stored: map<Field, string>)
    requires Filled(scalars, Values(page), done) && EstimatedValue !in done
    ensures Filled(stored, Values(page), done + {EstimatedValue})
  {
    var estimated := FindFirst(page.estimatedValue, AnyText);
    stored := StoreFound(scalars, Values(page), done, EstimatedValue, estimated, CleanCurrency);
  }

  /** The public-record block: the first label, split into the sale amount and the sale date. */
  method ReadLastSale(scalars: map<Field, string>, page: DetailPage, ghost done: set<Field>) returns (stored: map<Field, string>)
    requires Filled(scalars, Values(page), done) && LastSalePublicRecord !in done && Field.LastSaleDate !in done
    ensures Filled(stored, Values(page), done + {LastSalePublicRecord, Field.LastSaleDate})
  {
    var record := FindFirst(page.publicRecord, AnyText);
    stored := StoreFound(scalars, Values(page), done, LastSalePublicRecord, record, SaleAmount);
    stored := StoreFound(stored, Values(page), done + {LastSalePublicRecord}, Field.LastSaleDate, record, SaleDate);
  }

  /** The MLS block: the first label, stripped. */
  method ReadMls(scalars: map<Field, string>, page: DetailPage, ghost done: set<Field>) returns (stored: map<Field, string>)
    requires Filled(scalars, Values(page), done) && MlsValue !in done
    ensures Filled(stored, Values(page), done + {MlsValue})
  {
    var mls := FindFirst(page.mls, AnyText);
    stored := StoreFound(scalars, Values(page), done, MlsValue, mls, Strip);
  }

  /** The document-type block: the first label, stripped. */
  method ReadDocumentType(scalars: map<Field, string>, page: DetailPage, ghost done: set<Field>) returns (stored: map<Field, string>)
    requires Filled(scalars, Values(page), done) && DocumentType !in done
    ensures Filled(stored, Values(page), done + {DocumentType})
  {
    var document := FindFirst(page.documentType, AnyText);
    stored := StoreFound(scalars, Values(page), done, DocumentType, document, Strip);
  }

  /** The beds block: the first span whose text is all digits, as read. */
  method ReadBeds(scalars: map<Field, string>, page: DetailPage, ghost done: set<Field>) returns (stored: map<Field, string>)
    requires Filled(scalars, Values(page), done) && Beds !in done
    ensures Filled(stored, Values(page), done + {Beds})
  {
    var beds := FindFirst(page.beds, IsBedsText);
    stored := StoreFound(scalars, Values(page), done, Beds, beds, Verbatim);
  }

  /** The baths block: the first span whose text starts with a digit, as read. */
  method ReadBaths(scalars: map<Field, string>, page: DetailPage, ghost done: set<Field>) returns (stored: map<Field, string>)
    requires Filled(scalars, Values(page), done) && Baths !in done
    ensures Filled(stored, Values(page), done + {Baths})
  {
    var baths := FindFirst(page.baths, IsBathsText);
    stored := StoreFound(scalars, Values(page), done, Baths, baths, Verbatim);
  }

  /** The four `extract_financial_data` calls, in source order. */
  method ReadFinancials(scalars: map<Field, string>, page: DetailPage, ghost done: set<Field>) returns (stored: map<Field, string>)
    requires Filled(scalars, Values(page), done)
    requires OpenMortgages !in done && EstimatedBalance !in done && InvoluntaryLiens !in done && InvoluntaryAmount !in done
    ensures Filled(stored, Values(page), done + {OpenMortgages, EstimatedBalance, InvoluntaryLiens, InvoluntaryAmount})
  {
    stored := ReadFinancial(scalars, page, done, OpenMortgages);
    stored := ReadFinancial(stored, page, done + {OpenMortgages}, EstimatedBalance);
    stored := ReadFinancial(stored, page, done + {OpenMortgages, EstimatedBalance}, InvoluntaryLiens);
    stored := ReadFinancial(stored, page, done + {OpenMortgages, EstimatedBalance, InvoluntaryLiens}, InvoluntaryAmount);
    assert done + {OpenMortgages, EstimatedBalance, InvoluntaryLiens} + {InvoluntaryAmount}
        == done + {OpenMortgages, EstimatedBalance, InvoluntaryLiens, InvoluntaryAmount};
  }

  /** The four fields read by `extract_financial_data`. */
  predicate IsFinancial(f: Field) {
    f.OpenMortgages? || f.EstimatedBalance? || f.InvoluntaryLiens? || f.InvoluntaryAmount?
  }

  /** The caption `extract_financial_data` is called with for a financial field. */
  function Caption(f: Field): string
    requires IsFinancial(f)
  {
    match f
    case OpenMortgages => "Open Mortgages"
    case EstimatedBalance => "Estimated Balance"
    case InvoluntaryLiens => "Involuntary Liens"
    case InvoluntaryAmount => "Involuntary Amount"
  }

  /** The labels beside the caption of a financial field. */
  function CaptionLabels(page: DetailPage, f: Field): seq<Option<string>>
    requires IsFinancial(f)
  {
    match f
    case OpenMortgages => page.openMortgages
    case EstimatedBalance => page.estimatedBalance
    case InvoluntaryLiens => page.involuntaryLiens
    case InvoluntaryAmount => page.involuntaryAmount
  }

  /** One `extract_financial_data` call, its result stored unconditionally. */
  method ReadFinancial(scalars: map<Field, string>, page: DetailPage, ghost done: set<Field>, f: Field)
    returns (stored: map<Field, string>)
    requires Filled(scalars, Values(page), done) && f !in done && IsFinancial(f)
    ensures Filled(stored, Values(page), done + {f})
  {
    var value := ExtractFinancialData(Caption(f), CaptionLabels(page, f));
    assert value == FieldValue(page, f) by {
      match f
      case OpenMortgages =>
      case EstimatedBalance =>
      case InvoluntaryLiens =>
      case InvoluntaryAmount =>
    }
    stored := StoreFound(scalars, Values(page), done, f, Some(value), Verbatim);
  }

  /** Field f has `value` in `scalars`, or is absent and `value` is the sentinel the defaults give it. */
  ghost predicate Agrees(scalars: map<Field, string>, f: Field, value: string) {
    if f in scalars then scalars[f] == value else value == NA
  }

  /** Only fields already read are stored, and every field already read agrees with `values`. */
  ghost predicate Filled(scalars: map<Field, string>, values: Field -> string, done: set<Field>) {
    && scalars.Keys <= done
    && forall f: Field {:trigger Agrees(scalars, f, values(f))} :: f in done ==> Agrees(scalars, f, values(f))
  }

  /**
   * One block of `extract_property_details`: when its search found a text,
   * the cleaned text is stored under the field; otherwise nothing is stored
   * and the defaults loop later supplies the sentinel.
   */
  method StoreFound(scalars: map<Field, string>, ghost values: Field -> string, ghost done: set<Field>,
                    f: Field, found: Option<string>, clean: string -> string)
    returns (stored: map<Field, string>)
    requires Filled(scalars, values, done) && f !in done
    requires Found(found, clean) == values(f)
    ensures found.Some? ==> stored == scalars[f := clean(found.value)]
    ensures found.None? ==> stored == scalars
    ensures Filled(stored, values, done + {f})
  {
    if found.Some? {
      stored := scalars[f := clean(found.value)];
    } else {
      stored := scalars;
    }
    forall g: Field | g in done + {f}
      ensures Agrees(stored, g, values(g))
    {
      if g != f {
        assert Agrees(scalars, g, values(g));
      }
    }
  }

  /** The stored fields under their dictionary keys. */
  function Keyed(scalars: map<Field, string>): (r: map<string, string>)
    ensures forall k :: k in r ==> !("lender_" <= k) && exists f: Field :: f in scalars && f.Key() == k
    ensures forall f: Field :: f in scalars ==> f.Key() in r && r[f.Key()] == scalars[f]
    ensures forall f: Field :: f !in scalars ==> f.Key() !in r
  {
    KeysInjective();
    map f: Field | f in scalars :: f.Key() := scalars[f]
  }

  lemma KeysInjective()
    ensures forall f: Field, g: Field :: f.Key() == g.Key() ==> f == g
    ensures forall f: Field :: !("lender_" <= f.Key())
  {
    forall f: Field, g: Field
      ensures f.Key() == g.Key() ==> f == g
      ensures !("lender_" <= f.Key())
    {
      FieldKeys(f, g);
    }
  }

  /** The merged dictionary has the scalar keys, the slot 1..3 keys and the lender keys read. */
  lemma MergeKeys(scalars: map<Field, string>, keyed: map<string, string>, lenders: map<string, string>, data: map<string, string>)
    requires keyed == Keyed(scalars)
    requires data.Keys == (keyed + lenders).Keys + DefaultKeys()
    ensures data.Keys == ScalarKeys() + LenderKeys(3) + lenders.Keys
  {
    assert keyed.Keys <= ScalarKeys();
  }

  /** Every scalar field ends up with its value: lender keys never hide one. */
  lemma MergeScalars(scalars: map<Field, string>, keyed: map<string, string>, lenders: map<string, string>,
                     data: map<string, string>, page: DetailPage)
    requires keyed == Keyed(scalars)
    requires forall f: Field :: Agrees(scalars, f, FieldValue(page, f))
    requires forall k :: k in lenders ==> "lender_" <= k
    requires data.Keys == (keyed + lenders).Keys + DefaultKeys()
    requires Defaulted(data, keyed + lenders)
    ensures forall f: Field :: data[f.Key()] == FieldValue(page, f)
  {
    forall f: Field
      ensures data[f.Key()] == FieldValue(page, f)
    {
      FieldKeys(f, f);
      assert f.Key() !in lenders;
      assert Agrees(scalars, f, FieldValue(page, f));
    }
  }

  /** Lender entries read are kept, and slot 1..3 keys not read hold the sentinel. */
  lemma MergeLenders(scalars: map<Field, string>, keyed: map<string, string>, lenders: map<string, string>, data: map<string, string>)
    requires keyed == Keyed(scalars)
    requires data.Keys == (keyed + lenders).Keys + DefaultKeys()
    requires Defaulted(data, keyed + lenders)
    ensures forall k :: k in lenders ==> data[k] == lenders[k]
    ensures forall k :: k in LenderKeys(3) && k !in lenders ==> data[k] == NA
  {
    LenderKeysPrefixed(3);
  }
}
