/** The validity rule of valueDetector.js and the page update it drives
    (`validateAndUpdate`, `updateVisualFeedback`). A role is valid when it has
    a selection and its field holds some non-blank text; the text is NOT
    compared with the selected location's name. */
module Validity {
  import opened Collections
  import opened Text
  import opened Catalog
  import opened Page

  /** `selections.selectedX && value.trim()`, read as a boolean. */
  predicate IsValidRole(selected: Option<Location>, text: string) {
    selected.Some? && JsTrim(text) != ""
  }

  /** Both roles valid: the condition under which the button is enabled. */
  predicate BothValid(sel: Selections, texts: PerRole<string>) {
    IsValidRole(sel.selectedStart, texts.start) && IsValidRole(sel.selectedEnd, texts.end)
  }

  /** The intended wrapper styling: 'valid' alone, 'invalid' alone, or neither. */
  function FieldStyle(text: string, isValid: bool): set<Mark>
  {
    if JsTrim(text) != "" && isValid then {ValidMark}
    else if JsTrim(text) != "" then {InvalidMark}
    else {}
  }

  /** updateVisualFeedback as class-list operations on the wrapper's current
      classes: whatever classes the wrapper had, the result is the tri-state
      style, so 'valid' and 'invalid' are never both present. */
  function WrapperClasses(current: set<Mark>, text: string, isValid: bool): (r: set<Mark>)
    ensures r == FieldStyle(text, isValid)
    ensures !(ValidMark in r && InvalidMark in r)
  {
    MarksAreTwo(current);
    if JsTrim(text) != "" && isValid then (current + {ValidMark}) - {InvalidMark}
    else if JsTrim(text) != "" && !isValid then (current + {InvalidMark}) - {ValidMark}
    else current - {ValidMark, InvalidMark}
  }

  lemma MarksAreTwo(s: set<Mark>)
    ensures s <= {ValidMark, InvalidMark}
  {
    forall m | m in s ensures m in {ValidMark, InvalidMark} {
      match m
      case ValidMark =>
      case InvalidMark =>
    }
  }

  /** The page as validateAndUpdate leaves it for the given selections: the
      button disabled iff some role is invalid, each wrapper styled from its
      own field. */
  ghost predicate Validated(page: Page, sel: Selections)
    reads page
  {
    page.routeDisabled == !BothValid(sel, page.texts) && Styled(page, sel)
  }

  /** Each wrapper styled from its own field and the role's selection. */
  ghost predicate Styled(page: Page, sel: Selections)
    reads page
  {
    && page.wrappers.start == FieldStyle(page.texts.start, IsValidRole(sel.selectedStart, page.texts.start))
    && page.wrappers.end == FieldStyle(page.texts.end, IsValidRole(sel.selectedEnd, page.texts.end))
  }

  /** validateAndUpdate: reads the fields and the selections, sets the
      button's disabled flag and both wrappers' classes, and changes nothing
      else (in particular, never the selections, which it only receives). */
  method ValidateAndUpdate(page: Page, sel: Selections)
    modifies page`routeDisabled, page`wrappers
    ensures Validated(page, sel)
  {
    var startValue := JsTrim(page.texts.start);
    var endValue := JsTrim(page.texts.end);
    var hasValidStart := sel.selectedStart.Some? && startValue != "";
    var hasValidEnd := sel.selectedEnd.Some? && endValue != "";
    page.routeDisabled := !(hasValidStart && hasValidEnd);
    page.wrappers := PerRole(WrapperClasses(page.wrappers.start, page.texts.start, hasValidStart),
                             WrapperClasses(page.wrappers.end, page.texts.end, hasValidEnd));
  }

  /** The text is not compared with the selected name: after a commit, typing
      one more character keeps the role valid although the field no longer
      names the selected location. */
  lemma EditedTextStaysValid(loc: Location, c: char)
    requires !IsJsSpace(c)
    ensures loc.name + [c] != loc.name
    ensures IsValidRole(Some(loc), loc.name + [c])
  {
    var s := loc.name + [c];
    TrimEmptyIffAllSpace(s, IsJsSpace);
    assert s[|s| - 1] == c;
  }

  /** A role is valid exactly when it is selected and its field is not all white space. */
  lemma ValidIffSelectedAndNotBlank(selected: Option<Location>, text: string)
    ensures IsValidRole(selected, text) <==>
            selected.Some? && exists k :: 0 <= k < |text| && !IsJsSpace(text[k])
  {
    TrimEmptyIffAllSpace(text, IsJsSpace);
  }
}
