/**
 * The selector fallback chains of the scraper. Each chain tries a fixed list
 * of candidates in order and acts on the first one the page accepts; the page
 * is abstracted as a predicate on candidates (visible, visible and enabled,
 * or readable with a matching text), and a call that raises counts as not
 * accepted, as the chains' `except: continue` does.
 */
module Locators {
  import opened Wrappers
  import opened Text

  /** The Proceed-button selectors of `check_and_click_proceed_button`. */
  const ProceedSelectors: seq<string> := [
    "button:has-text(\"Proceed\")",
    "button[class*=\"button\"]:has-text(\"Proceed\")",
    ".src-components-Button-style__cuWaY__button:has-text(\"Proceed\")",
    "button[type=\"button\"]:has-text(\"Proceed\")"
  ]

  /** The search-input selectors of `find_search_input`, the bare text input last. */
  const SearchSelectors: seq<string> := [
    "input[placeholder*=\"County\" i]",
    "input[placeholder*=\"City\" i]",
    "input[placeholder*=\"Zip Code\" i]",
    "input[placeholder*=\"APN\" i]",
    "input[aria-controls*=\"react-autowhatever\"]",
    "input[type=\"text\"][autocomplete=\"off\"]",
    "input[aria-autocomplete=\"list\"]",
    "input[id*=\"application_id\"]",
    "input[type=\"text\"]"
  ]

  /** The first-suggestion selectors of `search_and_extract_property_data`. */
  const SuggestionSelectors: seq<string> := [
    "li[role=\"option\"]:first-child",
    ".react-autosuggest__suggestion:first-child",
    "li[data-suggestion-index=\"0\"]",
    "[class*=\"suggestion\"]:first-child"
  ]

  /** The Mortgage & Transaction History tab selectors of `click_mortgage_tab`. */
  const MortgageTabSelectors: seq<string> := [
    "li[role=\"tab\"]:has-text(\"Mortgage\")",
    "li.react-tabs__tab:has-text(\"Mortgage\")",
    "[data-rttab=\"true\"]:has-text(\"Mortgage\")",
    "li:has-text(\"Mortgage & Transaction History\")",
    ".src-app-Property-Detail-style__adoa___tab:has-text(\"Mortgage\")"
  ]

  /** The position of the first candidate `accepts` holds for, if any. */
  function FirstAccepted<T>(candidates: seq<T>, accepts: T -> bool): (r: Option<nat>)
    ensures r.None? <==> forall i :: 0 <= i < |candidates| ==> !accepts(candidates[i])
    ensures r.Some? ==> r.value < |candidates| && accepts(candidates[r.value])
    ensures r.Some? ==> forall i :: 0 <= i < r.value ==> !accepts(candidates[i])
  {
    if |candidates| == 0 then None
    else if accepts(candidates[0]) then Some(0)
    else match FirstAccepted(candidates[1..], accepts)
      case None => None
      case Some(i) => Some(i + 1)
  }

  /** An accepted candidate with no accepted one before it is the one chosen. */
  lemma FirstAcceptedIsFirst<T>(candidates: seq<T>, accepts: T -> bool, i: nat)
    requires i < |candidates| && accepts(candidates[i])
    requires forall j :: 0 <= j < i ==> !accepts(candidates[j])
    ensures FirstAccepted(candidates, accepts) == Some(i)
  {
  }

  /** The `for` loop with early return shared by every chain. */
  method FindFirstAccepted<T>(candidates: seq<T>, accepts: T -> bool) returns (r: Option<nat>)
    ensures r == FirstAccepted(candidates, accepts)
  {
    var i := 0;
    while i < |candidates|
      invariant 0 <= i <= |candidates|
      invariant forall j :: 0 <= j < i ==> !accepts(candidates[j])
    {
      if accepts(candidates[i]) {
        FirstAcceptedIsFirst(candidates, accepts, i);
        return Some(i);
      }
      i := i + 1;
    }
    return None;
  }

  /** The candidate at the first accepted position. */
  function Chosen<T>(candidates: seq<T>, accepts: T -> bool): (r: Option<T>)
    ensures r.None? <==> forall i :: 0 <= i < |candidates| ==> !accepts(candidates[i])
    ensures r.Some? ==> r.value in candidates && accepts(r.value)
  {
    match FirstAccepted(candidates, accepts)
    case None => None
    case Some(i) => Some(candidates[i])
  }

  /** `check_and_click_proceed_button`: true exactly when some Proceed selector shows a visible button. */
  method CheckAndClickProceed(visible: string -> bool) returns (clicked: bool)
    ensures clicked <==> exists i :: 0 <= i < |ProceedSelectors| && visible(ProceedSelectors[i])
  {
    var found := FindFirstAccepted(ProceedSelectors, visible);
    clicked := found.Some?;
  }

  /**
   * `find_search_input`: the Proceed check runs first, then the first search
   * selector whose element is visible and enabled on the page after it.
   */
  method FindSearchInput(proceedVisible: string -> bool, usable: string -> bool)
    returns (proceeded: bool, input: Option<string>)
    ensures proceeded <==> exists i :: 0 <= i < |ProceedSelectors| && proceedVisible(ProceedSelectors[i])
    ensures input == Chosen(SearchSelectors, usable)
  {
    proceeded := CheckAndClickProceed(proceedVisible);
    var found := FindFirstAccepted(SearchSelectors, usable);
    input := if found.Some? then Some(SearchSelectors[found.value]) else None;
  }

  /** The bare text-input selector is the last resort: it is chosen only when no specific one is usable. */
  lemma BareInputLast(usable: string -> bool)
    requires Chosen(SearchSelectors, usable) == Some("input[type=\"text\"]")
    ensures forall i :: 0 <= i < 8 ==> !usable(SearchSelectors[i])
  {
  }

  /** How the typed address is submitted: by clicking a suggestion, or by pressing Enter. */
  datatype Submission = ClickSuggestion(selector: string) | PressEnter

  /** The suggestion loop of `search_and_extract_property_data`, falling back to Enter. */
  method SubmitSearch(visible: string -> bool) returns (submission: Submission)
    ensures submission.PressEnter? <==> forall i :: 0 <= i < |SuggestionSelectors| ==> !visible(SuggestionSelectors[i])
    ensures submission.ClickSuggestion? ==> Chosen(SuggestionSelectors, visible) == Some(submission.selector)
  {
    var found := FindFirstAccepted(SuggestionSelectors, visible);
    submission := if found.Some? then ClickSuggestion(SuggestionSelectors[found.value]) else PressEnter;
  }

  /** `click_mortgage_tab`: true exactly when some tab selector shows a visible tab. */
  method ClickMortgageTab(visible: string -> bool) returns (clicked: bool)
    ensures clicked <==> exists i :: 0 <= i < |MortgageTabSelectors| && visible(MortgageTabSelectors[i])
  {
    var found := FindFirstAccepted(MortgageTabSelectors, visible);
    clicked := found.Some?;
  }

  /** A button or span whose text, lowered, contains "details". */
  predicate IsDetailsText(text: string) {
    Contains(Lower(text), "details")
  }

  /** A button whose text could be read and names the details popup; None is an `inner_text` that raised. */
  predicate ReadsDetails(text: Option<string>) {
    text.Some? && IsDetailsText(text.value)
  }

  /** The test ignores letter case: the text and its lowered form are both details texts or neither. */
  lemma DetailsTextIgnoresCase(text: string)
    ensures IsDetailsText(Lower(text)) <==> IsDetailsText(text)
  {
    LowerIdempotent(text);
  }

  /** "details" occurs in the lowered text at some position. */
  lemma DetailsTextOccurs(text: string)
    ensures IsDetailsText(text) <==> exists i :: OccursAt(Lower(text), "details", i)
  {
    ContainsOccurrence(Lower(text), "details");
  }

  /**
   * `click_details_button`: the position of the first button or span, in
   * page order, whose text names the details popup; None when there is none.
   */
  method ClickDetailsButton(texts: seq<Option<string>>) returns (clicked: Option<nat>)
    ensures clicked.None? <==> forall i :: 0 <= i < |texts| ==> !ReadsDetails(texts[i])
    ensures clicked.Some? ==> clicked.value < |texts| && ReadsDetails(texts[clicked.value])
    ensures clicked.Some? ==> forall i :: 0 <= i < clicked.value ==> !ReadsDetails(texts[i])
  {
    clicked := FindFirstAccepted(texts, ReadsDetails);
  }

  /** The parts of the page the search step reads, each as its oracle. */
  datatype SearchPage = SearchPage(
    proceedVisible: string -> bool,
    inputUsable: string -> bool,
    suggestionVisible: string -> bool,
    buttonTexts: seq<Option<string>>)

  /**
   * `search_and_extract_property_data`: no usable search input, or no details
   * button after submitting, gives None; otherwise the popup's dictionary
   * `details` is returned.
   */
  method SearchAndExtract(page: SearchPage, details: map<string, string>) returns (data: Option<map<string, string>>)
    ensures data.Some? <==> Chosen(SearchSelectors, page.inputUsable).Some? && FirstAccepted(page.buttonTexts, ReadsDetails).Some?
    ensures data.Some? ==> data.value == details
  {
    var _, input := FindSearchInput(page.proceedVisible, page.inputUsable);
    if input.None? {
      return None;
    }
    var _ := SubmitSearch(page.suggestionVisible);
    var button := ClickDetailsButton(page.buttonTexts);
    if button.None? {
      return None;
    }
    return Some(details);
  }
}
