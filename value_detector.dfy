/** valueDetector.js: keeps the find-route button and the field styling in
    step with the fields. Its timers and observers are explicit calls here:
    `OnFieldEvent` is any of the seven field events (which schedule the 50 ms
    debounce), `DebounceElapsed` is that timer firing, `CheckForChanges` is
    one tick of the 500 ms poll, and `OnValueAttributeChanged` is a
    MutationObserver callback. */
module Detector {
  import opened Collections
  import opened Text
  import opened Catalog
  import opened Page
  import opened Validity
  import opened Locations

  /** The trimmed texts of both fields, as checkForChanges compares them. */
  function Trimmed(texts: PerRole<string>): (r: PerRole<string>)
    ensures r.start == JsTrim(texts.start) && r.end == JsTrim(texts.end)
  {
    PerRole(JsTrim(texts.start), JsTrim(texts.end))
  }

  class ValueDetector {
    const page: Page
    const lm: LocationManager
    var isInitialized: bool
    /** The fields whose MutationObserver is connected, in creation order. */
    var observers: seq<Role>
    var lastValues: PerRole<string>
    /** A debounced validation is scheduled. */
    var debouncePending: bool
    /** How many times the field listeners were attached and the poll started:
        destroy removes neither, so each init adds another set. */
    var listenerSets: nat
    var polls: nat

    /** Once initialised, the store's wrappers are installed. */
    ghost predicate Valid()
      reads this, lm
    {
      isInitialized ==> lm.validationHooked
    }

    constructor (lm: LocationManager)
      ensures page == lm.page && this.lm == lm && Valid()
      ensures !isInitialized && observers == [] && lastValues == PerRole("", "")
      ensures !debouncePending && listenerSets == 0 && polls == 0
    {
      this.lm := lm;
      this.page := lm.page;
      isInitialized := false;
      observers := [];
      lastValues := PerRole("", "");
      debouncePending := false;
      listenerSets := 0;
      polls := 0;
    }

    /** init: the first call (or the first after destroy) attaches the field
        listeners, connects one observer per field, starts the poll and
        installs the validating wrappers on the selection store; a call while
        initialised does nothing. */
    method Init()
      requires Valid()
      modifies this, lm`validationHooked
      ensures Valid() && isInitialized
      ensures old(isInitialized) ==> unchanged(this) && unchanged(lm)
      ensures !old(isInitialized) ==>
                && isInitialized && lm.validationHooked
                && observers == old(observers) + [Start, End]
                && listenerSets == old(listenerSets) + 1 && polls == old(polls) + 1
                && lastValues == old(lastValues) && debouncePending == old(debouncePending)
    {
      if isInitialized {
        return;
      }
      listenerSets := listenerSets + 1;
      observers := observers + [Start, End];
      polls := polls + 1;
      SetupValidationTriggers();
      isInitialized := true;
    }

    /** setupValidationTriggers: from now on selectLocation, clearSelection
        and swapLocations revalidate after running and return what the
        original returned (see LocationManager.Revalidate). */
    method SetupValidationTriggers()
      modifies lm`validationHooked
      ensures lm.validationHooked
    {
      lm.validationHooked := true;
    }

    /** validateAndUpdate on the detector's page and the store's current
        selections, which it reads and does not change. */
    method Validate()
      modifies page`routeDisabled, page`wrappers
      ensures Validated(page, lm.GetSelections())
    {
      ValidateAndUpdate(page, lm.GetSelections());
    }

    /** checkForChanges: when a trimmed field differs from the last one seen,
        both trimmed texts are remembered and the page is revalidated;
        otherwise nothing happens. */
    method CheckForChanges()
      modifies this`lastValues, page`routeDisabled, page`wrappers
      ensures lastValues == Trimmed(page.texts)
      ensures old(lastValues) == Trimmed(page.texts) ==> unchanged(page)
      ensures old(lastValues) != Trimmed(page.texts) ==> Validated(page, lm.GetSelections())
    {
      var currentValues := PerRole(JsTrim(page.texts.start), JsTrim(page.texts.end));
      if currentValues.start != lastValues.start || currentValues.end != lastValues.end {
        lastValues := currentValues;
        Validate();
      }
    }

    /** An input, change, paste, keyup, keydown, blur or focus event on a
        field: any scheduled validation is replaced by a new one. */
    method OnFieldEvent()
      modifies this`debouncePending
      ensures debouncePending
    {
      debouncePending := true;
    }

    /** The debounce timer fires: the scheduled validation runs once. */
    method DebounceElapsed()
      modifies this`debouncePending, page`routeDisabled, page`wrappers
      ensures !debouncePending
      ensures old(debouncePending) ==> Validated(page, lm.GetSelections())
      ensures !old(debouncePending) ==> unchanged(page)
    {
      if debouncePending {
        debouncePending := false;
        Validate();
      }
    }

    /** A change of a field's `value` attribute, seen by its observer when
        that observer is connected. */
    method OnValueAttributeChanged(role: Role)
      modifies page`routeDisabled, page`wrappers
      ensures role in observers ==> Validated(page, lm.GetSelections())
      ensures role !in observers ==> unchanged(page)
    {
      if role in observers {
        Validate();
      }
    }

    /** forceValidation. */
    method ForceValidation()
      modifies page`routeDisabled, page`wrappers
      ensures Validated(page, lm.GetSelections())
    {
      Validate();
    }

    /** destroy: disconnects the observers, cancels a scheduled validation and
        clears the flag so init can run again. The field listeners, the poll
        and the wrappers stay in place. */
    method Destroy()
      modifies this`observers, this`debouncePending, this`isInitialized
      ensures Valid()
      ensures observers == [] && !debouncePending && !isInitialized
    {
      observers := [];
      debouncePending := false;
      isInitialized := false;
    }
  }

  /** init twice is init once. */
  method InitTwice(d: ValueDetector)
    requires d.Valid()
    modifies d, d.lm`validationHooked
    ensures d.isInitialized && d.lm.validationHooked
    ensures old(d.isInitialized) ==> unchanged(d)
    ensures !old(d.isInitialized) ==> d.observers == old(d.observers) + [Start, End] && d.polls == old(d.polls) + 1
  {
    d.Init();
    d.Init();
  }
}
