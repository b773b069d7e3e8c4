# Propstream scraper: a verified model of its deterministic core

`app.py` is a Streamlit tool. It logs into Propstream with Playwright,
searches for each address of an uploaded table, reads the property-details
popup and the mortgage grid, and returns the table with the scraped fields
added. Between the browser calls sits a small amount of plain string, list
and dictionary logic. This project models that logic in Dafny and proves
what it guarantees:

- **Text normalisers** (`Normalize.dfy`, over `Text.dfy`).
  - `clean_currency_value` and `clean_numeric_value` are written as
    leftmost-match scanners with greedy runs, as `re.search` works.
  - `extract_financial_data` chooses between the two normalisers.
  - The last-sale text is split into an amount and a date.
- **Mortgage numbering** (`Mortgage.dfy`). `extract_mortgage_data` has two
  strategies.
  - The primary one numbers only complete grid rows, so its numbers are
    contiguous 1..k.
  - The fallback runs only when k = 0. It numbers name/rate pairs by their
    position, so a blank pair leaves a gap.
- **Popup assembly** (`Details.dfy`). `extract_property_details` is
  modelled block by block:
  - which label or span each block picks, and how that text is cleaned;
  - merging in the mortgage data;
  - the two default loops, which fill the missing keys with `'N/A'`.
- **Selector chains** (`Locators.dfy`). Each chain is a first-match loop over
  a fixed list of selectors. The page is an abstract predicate on the
  candidates. The chains are:
  - the Proceed button;
  - the search input;
  - the suggestion list, with its fallback to Enter;
  - the details button;
  - the mortgage tab.
- **Batch accounting** (`Batch.dfy`). `scrape_propstream_data` reads only
  the first `max == 0 ? len : min(max, len)` rows and skips blank
  addresses. Each searched row yields exactly one output row: the original
  columns plus the `propstream_` fields, or the seventeen `'N/A'` defaults
  when the search fails. No output row at all gives None.

Python dictionaries are `map<string, string>`. A table row is a map from
column name to `Cell`, where a missing (NaN) cell renders as `"nan"`. The
browser functions that the core calls are taken as parameters:

- the login and readiness outcomes are booleans;
- what a search returned for row i is an oracle `(nat, string) -> Option<map>`;
- "this selector is visible/enabled" is a predicate;
- the popup is the texts its locators would return.

Where the code and its descriptions disagree, the model follows the code.
The pandas NaN check is an example. `pd.isna` is applied to the *stringified*
address, so it never fires, and a missing address is searched as `"nan"`
(`Batch.MissingAddressSearched`).

## Model

| member | source | states |
|---|---|---|
| `Text.TrimLeft` | app.py:343 | the result is a suffix of the input, everything dropped is whitespace, and the result does not start with whitespace |
| `Text.TrimRight` | app.py:343 | the result is a prefix of the input, everything dropped is whitespace, and the result does not end with whitespace |
| `Text.Strip` | app.py:343 | `str.strip()`: the result is empty or neither starts nor ends with whitespace |
| `Text.StripTrims` | app.py:343 | `str.strip()` returns a slice of the text, and everything cut off before and after it is whitespace |
| `Text.StripUnpadded` | app.py:596-597 | stripping a text that has no surrounding whitespace leaves it unchanged |
| `Text.Lower` | app.py:516 | `str.lower()` keeps the length of the text |
| `Text.LowerIdempotent` | app.py:516-517 | lowering twice is the same as lowering once |
| `Text.ContainsOccurrence` | app.py:517 | `sub in s` holds exactly when `sub` occurs in `s` at some index |
| `Text.NatToString` | app.py:602-603 | `str(n)` is a non-empty string of digits, of length 2 or more exactly when n >= 10 |
| `Text.NatToStringInjective` | app.py:602-603 | different slot numbers give different decimal renderings, so different lender keys |
| `Normalize.RunLength` | app.py:57-58 | the greedy run from i is as long as possible: every character in it matches, and the next one does not |
| `Normalize.RunLengthIsMaximalRun` | app.py:57-58 | any run that cannot be extended has exactly the length RunLength finds |
| `Normalize.Search` | app.py:57-63 | `re.search` scanning: it returns the leftmost position at or after `from` where the pattern matches, and None when there is none |
| `Normalize.SearchFindsLeftmost` | app.py:57-63 | a match with no earlier match is the one the search returns |
| `Normalize.FirstDollarRun` | app.py:57-59 | None exactly when no `$` is followed by a digit or comma; otherwise the result is a currency token |
| `Normalize.FirstDollarRunIsLeftmostMaximal` | app.py:57-59 | the first `$` match, extended over its whole digit/comma run, is what is returned |
| `Normalize.CurrencyMatch` | app.py:56-66 | once the guard has passed, the result is `'N/A'` exactly when the text has no digit or comma, and is otherwise a currency token |
| `Normalize.CleanCurrency` | app.py:51-66 | a blank or "n/a"/"na" input gives `'N/A'`; every other result is `$` followed by digits and commas; `'N/A'` occurs exactly when the guard fires or the text has no digit or comma |
| `Normalize.CurrencyDollarWins` | app.py:51-59 | for every text, a `$`-run anywhere wins, even over an earlier bare number; the result is that first maximal run, verbatim |
| `Normalize.CurrencyBareRun` | app.py:51-64 | for every text with no `$` match, the result is `$` followed by the first maximal digit/comma run |
| `Normalize.BareRunMatch` | app.py:62-64 | the same, for the search part alone |
| `Normalize.SentinelIsNaMarker` | app.py:53-54 | `'N/A'` itself passes the blank-or-"n/a" guard |
| `Normalize.LiteralSentinelIsNaMarker` | app.py:53-54 | the literal "N/A" passes the guard |
| `Normalize.NotNaByFirstChar` | app.py:53-54 | a text with no surrounding whitespace whose first character is not n or N does not trigger the guard |
| `Normalize.DigitCommaNotNa` | app.py:53-54 | a text holding a digit or comma anywhere never triggers the blank-or-"n/a" guard |
| `Normalize.CurrencyTokenNotNa` | app.py:53-54 | a cleaned currency value never triggers the guard |
| `Normalize.CurrencyTokenFixed` | app.py:51-66 | cleaning a currency token returns it unchanged |
| `Normalize.CurrencyIdempotent` | app.py:51-66 | cleaning a cleaned currency value changes nothing |
| `Normalize.DigitsWithDot` | app.py:74 | digits with at most one dot, and a digit first, form a numeric token |
| `Normalize.DottedRun` | app.py:74 | digits, one dot, then digits form a numeric token that the next character cannot extend |
| `Normalize.PlainRun` | app.py:74 | a digit run not followed by a digit or dot is a numeric token that cannot be extended |
| `Normalize.NumberEnd` | app.py:74-76 | the greedy match of `\d+\.?\d*` from a digit is a numeric token, and one more character would not be |
| `Normalize.NumericTokenPrefix` | app.py:74 | every non-empty prefix of a numeric token is a numeric token |
| `Normalize.NumericSlicePrefix` | app.py:74 | the same, for slices of one text |
| `Normalize.NumberEndIsLongest` | app.py:74-76 | the greedy end is the only end of a numeric token from i that cannot be extended |
| `Normalize.NumericMatch` | app.py:73-78 | once the guard has passed, the result is `'N/A'` exactly when the text has no digit, and is otherwise a numeric token |
| `Normalize.CleanNumeric` | app.py:68-78 | a blank or "n/a"/"na" input gives `'N/A'`; every other result starts with a digit and is digits with at most one dot; `'N/A'` occurs exactly when the guard fires or there is no digit |
| `Normalize.NumericLongestToken` | app.py:68-76 | for every text with a digit, the result is the longest numeric token starting at the first digit, e.g. "3.5" from "3.5 baths" |
| `Normalize.NumericTokenNotNa` | app.py:70-71 | a cleaned numeric value never triggers the guard |
| `Normalize.NumericTokenFixed` | app.py:68-78 | cleaning a numeric token returns it unchanged |
| `Normalize.NumericIdempotent` | app.py:68-78 | cleaning a cleaned numeric value changes nothing |
| `Normalize.FinancialValue` | app.py:665-676 | with no visible label the result is `'N/A'`; for "Estimated Balance" and "Involuntary Amount" it is `'N/A'` or a currency token, and for all other fields `'N/A'` or a numeric token |
| `Normalize.FirstDate` | app.py:715-716 | None exactly when no `DD/DD/DDDD` occurs; otherwise the ten characters of the match |
| `Normalize.SplitLastSale` | app.py:708-716 | the amount is `'N/A'` exactly when no `$`-run occurs, and is otherwise a currency token; the date is `'N/A'` exactly when no date occurs; each falls back on its own |
| `Normalize.LastSaleAmount` | app.py:711-712 | the amount is the leftmost `$` match with its maximal run |
| `Normalize.LastSaleDate` | app.py:715-716 | the date is the leftmost date match |
| `Mortgage.LenderKeysDistinct` | app.py:602-603 | `lender_{n}_name` and `lender_{n}_rate` determine n, and a name key is never a rate key |
| `Mortgage.StripRows` | app.py:596-597 | stripping keeps the number of rows |
| `Mortgage.StripRowsAt` | app.py:596-597 | row i of the stripped grid is row i with both cells stripped |
| `Mortgage.StripRowsPrefix` | app.py:588-597 | stripping one more row extends the stripped prefix by that row |
| `Mortgage.LenderRowCount` | app.py:599-601 | the number of complete rows is at most the number of rows |
| `Mortgage.LenderRowCountMonotone` | app.py:599-601 | a longer prefix never has fewer complete rows |
| `Mortgage.LenderRowCountAppend` | app.py:599-601 | one more row adds 1 exactly when it is complete |
| `Mortgage.CompactEmpty` | app.py:585-587 | an empty grid numbers nothing |
| `Mortgage.FreshSlot` | app.py:600-603 | the keys of slot n + 1 are not among those of slots 1..n |
| `Mortgage.EarlierRowsKept` | app.py:600-603 | writing the next slot leaves every earlier lender's slot as it was |
| `Mortgage.NewSlotHolds` | app.py:602-603 | the slot just written holds that row's name and rate |
| `Mortgage.CompactTake` | app.py:599-603 | a complete row takes the next slot, and the numbering stays compact |
| `Mortgage.CompactSkip` | app.py:599 | an incomplete or missing row consumes no slot |
| `Mortgage.NumberGridRows` | app.py:585-609 | the primary loop: the keys are exactly those of slots 1..k, where k is the number of complete stripped rows, and each such row is in slot 1 + (complete rows before it) |
| `Mortgage.Zip` | app.py:621 | `zip` pairs names and rates position by position, up to the shorter list |
| `Mortgage.PositionKeysBelow` | app.py:621-628 | positional numbering over r rows uses no slot above r |
| `Mortgage.PositionalSkip` | app.py:626 | a blank pair fills no slot |
| `Mortgage.PositionalTake` | app.py:626-628 | a complete pair at position i fills slot i + 1 and keeps the others |
| `Mortgage.NumberByPosition` | app.py:617-636 | the fallback loop: slot i + 1 is filled exactly when pair i is complete, and then holds that pair |
| `Mortgage.LenderKeysPrefixed` | app.py:602-603 | every slot key starts with `lender_` |
| `Mortgage.PositionKeysPrefixed` | app.py:627-628 | every positional key starts with `lender_` |
| `Mortgage.ExtractMortgageData` | app.py:567-645 | no grid gives `{}`; the compact numbering is used when some grid row is complete, and the positional one exactly when none is; every key starts with `lender_` |
| `Mortgage.TwoSlots` | app.py:602-603 | two filled slots determine the whole dictionary |
| `Mortgage.SlotsAroundBlankRow` | app.py:588-603 | the rows (A), blank, (B) give lender_1 = A and lender_2 = B under the primary strategy |
| `Mortgage.BlankRowExample` | app.py:588-609 | running the primary loop on ("Bank A","4.5%"), ("",""), ("Bank B","3.9%")-shaped rows yields exactly lender_1 and lender_2 |
| `Mortgage.UnpaddedRowsStripped` | app.py:596-597 | rows whose cells are empty or unpadded are unchanged by stripping |
| `Mortgage.SlotsOneAndThree` | app.py:621-628 | positionally, the pairs (A), blank, (C) fill exactly slots 1 and 3 |
| `Mortgage.PositionalGapExample` | app.py:613-637 | with no complete grid row, names [A, "", C] and rates [a, "", c] give lender_1 and lender_3 with a gap at 2 |
| `Details.FieldKeys` | app.py:806-808 | the eleven scalar keys are pairwise distinct, and none starts with `lender_` |
| `Details.KeyFieldInverts` | app.py:806-808 | KeyField inverts the key of each field |
| `Details.FieldIndex` | app.py:806-808 | every field occurs in `default_keys` |
| `Details.ListedAll` | app.py:806-809 | the `default_keys` loop visits every scalar key |
| `Details.ScalarKeysListed` | app.py:806-808 | the scalar keys are exactly the eleven listed |
| `Details.LenderKeysThree` | app.py:814-818 | `range(1, 4)` gives exactly the six name and rate keys of lenders 1..3 |
| `Details.FirstInGroup` | app.py:762-766 | the first span text satisfying the test; None exactly when no span does |
| `Details.FirstSpan` | app.py:757-768 | the first matching text over all groups in reading order; None exactly when no text matches |
| `Details.FirstInGroupIsFirst` | app.py:762-766 | a matching span with no earlier match is the one picked |
| `Details.FirstSpanIsFirst` | app.py:757-768 | the first match in reading order over all groups is the one picked |
| `Details.FindFirst` | app.py:755-790 | the nested `for elem … for span … break` loops return exactly FirstSpan |
| `Details.FirstVisible` | app.py:660-667 | None exactly when no element's label is visible |
| `Details.FirstVisibleIsFirst` | app.py:660-667 | the first element whose label is visible is the one used |
| `Details.ExtractFinancialData` | app.py:651-676 | the loop returns FinancialValue of the first visible label, so `'N/A'` when there is none |
| `Details.WithDefault` | app.py:809-811 | `if key not in data: data[key] = 'N/A'` adds just that key, keeps every present value, and gives a new key `'N/A'` |
| `Details.DefaultedAdd` | app.py:809-811 | one default step keeps the original entries and adds only `'N/A'` |
| `Details.FillScalarDefaults` | app.py:806-811 | after the first loop, the keys are the original keys plus the eleven scalar keys; present values are unchanged and added ones are `'N/A'` |
| `Details.FillSlot` | app.py:815-818 | one pass adds the name and rate keys of slot n, defaulted |
| `Details.SlotKeysAdded` | app.py:815-818 | the keys of slots 1..n-1 plus both keys of slot n are the keys of slots 1..n |
| `Details.FillLenderDefaults` | app.py:814-818 | after the second loop, the keys are the original keys plus those of lenders 1..3; lenders 4 and above and every present value are kept; only `'N/A'` is added |
| `Details.DefaultedTrans` | app.py:806-818 | two defaulting steps in a row still keep the original entries and add only `'N/A'` |
| `Details.FillDefaults` | app.py:805-818 | both loops: the keys are exactly the original keys plus the 11 scalar and 6 lender-slot keys; nothing present changes |
| `Details.FailureFieldsDefaults` | app.py:822-833 | the dictionary returned on an exception has exactly the 17 default keys, each `'N/A'` |
| `Details.ExtractPropertyDetails` | app.py:682-820 | each scalar key holds what its block reads and cleans, or `'N/A'`; the mortgage entries are those `extract_mortgage_data` produces when the tab opens; lender keys 1..3 not read are `'N/A'`; no other key appears |
| `Details.DetailsNeverEmpty` | app.py:682-820 | that dictionary is never empty, so the batch loop always takes its success branch for it |
| `Details.ReadScalars` | app.py:687-798 | the eleven blocks in order: every field is stored with its value, or is absent when its value is `'N/A'` from the defaults |
| `Details.AllRead` | app.py:687-798 | the blocks together cover every scalar field |
| `Details.ReadEstimatedValue` | app.py:687-700 | the first label of an "Estimated Value" element, cleaned as currency |
| `Details.ReadLastSale` | app.py:702-722 | the first "Public Record" label, split into the sale amount and the sale date |
| `Details.ReadMls` | app.py:724-737 | the first "MLS" label, stripped |
| `Details.ReadDocumentType` | app.py:739-752 | the first "Document Type" label, stripped |
| `Details.ReadBeds` | app.py:754-772 | the first span that is all digits, verbatim |
| `Details.ReadBaths` | app.py:774-792 | the first span that starts with a digit, verbatim (the whole text, not the match) |
| `Details.ReadFinancials` | app.py:795-798 | the four `extract_financial_data` calls in order |
| `Details.ReadFinancial` | app.py:795-798 | one such call, its result always stored |
| `Details.StoreFound` | app.py:693-696 | a found text is stored cleaned under its field; without one nothing is stored |
| `Details.Keyed` | app.py:695-798 | the stored fields under their string keys: one entry per stored field, never a `lender_` key |
| `Details.KeysInjective` | app.py:806-808 | field keys are injective and never start with `lender_` |
| `Details.MergeKeys` | app.py:803-818 | after `data.update(mortgage_data)` and the defaults, the keys are the scalar keys, lender keys 1..3 and the lender keys read |
| `Details.MergeScalars` | app.py:801-811 | mortgage keys never overwrite a scalar field |
| `Details.MergeLenders` | app.py:801-818 | the lender entries read are kept, and slot keys 1..3 not read are `'N/A'` |
| `Locators.FirstAccepted` | app.py:93-105 | None exactly when no candidate is accepted; otherwise an accepted position with no accepted candidate before it |
| `Locators.FirstAcceptedIsFirst` | app.py:93-105 | an accepted candidate with none accepted before it is the one chosen |
| `Locators.FindFirstAccepted` | app.py:199-219 | the `for` loop with early return computes FirstAccepted |
| `Locators.Chosen` | app.py:199-219 | None exactly when no candidate is accepted; otherwise an accepted candidate from the list |
| `Locators.CheckAndClickProceed` | app.py:80-107 | true exactly when some Proceed selector shows a visible button |
| `Locators.FindSearchInput` | app.py:179-219 | the Proceed check runs first; the input is the first usable search selector, or None |
| `Locators.BareInputLast` | app.py:187-197 | the bare `input[type="text"]` is chosen only when none of the eight specific selectors is usable |
| `Locators.SubmitSearch` | app.py:448-470 | Enter is pressed exactly when no suggestion selector is visible; otherwise the first visible one is clicked |
| `Locators.ClickMortgageTab` | app.py:529-560 | true exactly when some tab selector shows a visible tab |
| `Locators.DetailsTextIgnoresCase` | app.py:516-517 | the "details" test gives the same answer for a text and its lowered form |
| `Locators.DetailsTextOccurs` | app.py:516-517 | the test holds exactly when "details" occurs in the lowered text |
| `Locators.ClickDetailsButton` | app.py:508-523 | the position of the first button or span whose readable text contains "details" in any case; None exactly when there is none |
| `Locators.SearchAndExtract` | app.py:423-506 | the popup's dictionary is returned exactly when a usable search input exists and a details button is found; otherwise None |
| `Batch.CellString` | app.py:343 | `str(cell)`: a value renders as itself and a missing cell as "nan" |
| `Batch.MissingAddressSearched` | app.py:343-346 | a missing address is not skipped: it is searched as "nan" |
| `Batch.EffectiveCount` | app.py:332 | all rows when the maximum is 0; otherwise at most the number of rows, at most the maximum, and equal to one of the two, i.e. their minimum |
| `Batch.AddressAt` | app.py:343 | row i's address is its stripped cell text |
| `Batch.AttemptedSound` | app.py:342-346 | every searched position is below the count and has a non-blank address |
| `Batch.AttemptedComplete` | app.py:342-346 | every non-blank address below the count is searched |
| `Batch.AttemptedIncreasing` | app.py:342-346 | positions are searched in increasing order, each once |
| `Batch.CapCountsBlankRows` | app.py:332-346 | blank rows count toward the cap: no row at or past a positive maximum is searched |
| `Batch.PrefixedKey` | app.py:359-360 | a key is a prefixed extracted key exactly when it is `propstream_` followed by an extracted key |
| `Batch.MergedSpec` | app.py:356-360 | the merged row has the original columns plus the prefixed keys; each extracted entry is under its prefixed key; other original columns are unchanged |
| `Batch.Without` | app.py:359-360 | the entries not yet written |
| `Batch.MergedStep` | app.py:359-360 | writing one more entry is merging a dictionary with one more entry |
| `Batch.MergeRow` | app.py:356-360 | the merge loop produces exactly the merged row |
| `Batch.MergeStart` | app.py:356 | before the loop the result row is the original row |
| `Batch.MergeOne` | app.py:360 | one pass writes the entry of one key |
| `Batch.MakeRow` | app.py:354-394 | a non-empty dictionary is merged; None or `{}` merges the failure fields |
| `Batch.FailedRow` | app.py:378-394 | a failed search keeps the original columns and adds the 17 prefixed default keys, all `'N/A'` |
| `Batch.SucceededRow` | app.py:354-362 | a successful search puts each extracted entry under `propstream_` and keeps every original column without that prefix |
| `Batch.CollectPerSearch` | app.py:342-394 | exactly one item per searched position, the j-th made from the j-th searched position |
| `Batch.OutputsPerSearch` | app.py:342-394 | exactly one result row per searched row, in row order, each built from what that row's search returned |
| `Batch.NoOutputs` | app.py:342-409 | the result list is empty exactly when every address among the counted rows is blank |
| `Batch.ProcessRow` | app.py:342-394 | one loop pass: a blank address is skipped, and any other row appends its result row |
| `Batch.ScrapeBatch` | app.py:292-409 | a failed login or failed wait gives None; otherwise the result rows of the first EffectiveCount rows, or None when there are none |

## Left out

- Streamlit UI, file upload, CSV reading, the download button and the help text: presentation and I/O.
- Playwright launch, navigation, clicks, key presses, `wait_for*` and `time.sleep`: browser I/O and real time. Each visibility or usability test is an oracle predicate.
- The polling loop of `wait_for_search_input` and the whole login flow: network and real time. Their outcomes are the booleans `loggedIn` and `ready` of `Batch.ScrapeBatch`.
- DOM traversal (`xpath=..`, `.all()`, `inner_text`): the popup and grid are given as the texts the locators would return. A locator that raises mid-loop is not modelled separately; it behaves like an element that yields no text.
- The per-row search is an oracle from the row's position and address to what `search_and_extract_property_data` returned. `Locators.SearchAndExtract` and `Details.ExtractPropertyDetails` model that function, but the batch does not call them.
- The `except` branches of `scrape_propstream_data`, both the per-row one and the outer "critical error" one: nothing in the modelled core raises. A row whose processing raised would add no result row.
- The `except` branches of `extract_property_details` and of each of its blocks: `Details.ExtractPropertyDetails` models a popup that reads without error. The dictionary of the outer branch is `Details.FailureFields`; an inner block's branch stores `'N/A'`, as the defaults would.
- `click_mortgage_tab` and `click_details_button` as seen from the page: what the click does to the page is not modelled, because the page is an input. The same holds for the Proceed click in `Locators.FindSearchInput`; the search selectors see the page after it through their own oracle.
- `pd.DataFrame(results)`: the result is the list of row dictionaries. The NaN filling of columns that only some rows have is not modelled.
- Internally, the scalars of `Details.ExtractPropertyDetails` are kept in a map keyed by the `Field` enumeration and then converted to their string keys (`Details.Keyed`). Insertion order of Python dictionaries is not modelled, because maps are unordered.
- Unicode: `isdigit`, `\d`, `strip` and `lower` are modelled on ASCII (`strip` as `str.isspace` on ASCII, including \x1c-\x1f).
- Progress bar, status messages and debug logging, `DEBUG_MODE`/`debug_print`, hardcoded credentials, and the browser install command: output only.
- `Locators.SearchAndExtract`: the typed address and the suggestion click are not modelled. The contract describes only when a dictionary comes back, and that it is the popup's dictionary given as a parameter.
