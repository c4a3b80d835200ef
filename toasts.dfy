/**
 * The `Toasts` object: it holds the popup style sheet, composes the alerts
 * and drives their delivery to the active tab.
 *
 * Each public call returns the trace of effects that it and the retries it
 * schedules perform (see `ToastDelivery`); the retries, which the source
 * chains through `setTimeout`, are the iterations of a loop here.
 */
module ToastsApi {
  import opened Wrappers
  import opened FilterSort
  import opened ToastMessages
  import opened ToastDelivery

  class Toasts {
    /** The path `init` fetches the style sheet from, before `browser.runtime.getURL`. */
    static const StylesPath := "/assets/css/alert-popup.css"

    /** The style sheet text; `None` until `Init` has run. */
    var styles: Option<string>

    constructor ()
      ensures styles == None
    {
      styles := None;
    }

    /** `init()`: fetches the style sheet and keeps its text. */
    method Init(getUrl: string -> string, fetchText: string -> string)
      modifies this
      ensures styles == Some(fetchText(getUrl(StylesPath)))
    {
      var response := fetchText(getUrl(StylesPath));
      styles := Some(response);
    }

    /**
     * The `try` block shared by both deliveries: look up the active tab and,
     * when it has an id, send it the message of `job`; `failed` says whether
     * the block threw, which is what schedules a retry.
     */
    static method SendToActiveTab(outcome: Outcome, job: Job) returns (effects: seq<Effect>, failed: bool)
      ensures effects == TryDelivery(outcome, job)
      ensures failed == Fails(outcome)
    {
      effects := [GetActiveTab];
      failed := false;
      if outcome.LookupFails? {
        failed := true;
      } else if HasId(outcome.tab) {
        var tab := outcome.tab.value;
        effects := effects + [SendMessage(tab.id.value, MessageFor(job, tab))];
        failed := !outcome.sendResolves;
      }
    }

    /**
     * One call of `showAlertMessage` with the counter at `tries`, after the
     * effects `done` of the earlier calls: the ceiling, then the attempt to
     * deliver. `retry` says whether it schedules the next call, whose
     * effects then follow `trace`.
     */
    static method AlertCall(
      styles: Option<string>, title: string, text: AlertText, tries: int, env: int -> Outcome, done: seq<Effect>)
      returns (trace: seq<Effect>, retry: bool)
      ensures retry ==> tries <= MaxTries
      ensures retry ==> done + AlertRun(styles, title, text, tries, env)
                        == trace + AlertRun(styles, title, text, tries + 1, env)
      ensures !retry ==> trace == done + AlertRun(styles, title, text, tries, env)
    {
      if tries > MaxTries {
        AlertGivesUp(styles, title, text, tries, env);
        return done + [Warn(AlertGiveUpWarning)], false;
      }
      var sent, failed := SendToActiveTab(env(tries), AlertJob(title, text, styles));
      if !failed {
        AlertEndsWithoutFailure(styles, title, text, tries, env);
        return done + sent, false;
      }
      AlertRetriesOnFailure(styles, title, text, tries, env);
      ghost var rest := AlertRun(styles, title, text, tries + 1, env);
      assert done + (sent + [SetTimeout(TriesTimeout)] + rest) == (done + sent + [SetTimeout(TriesTimeout)]) + rest;
      trace := done + sent + [SetTimeout(TriesTimeout)];
      retry := true;
    }

    /**
     * `showAlertMessage(title, text, triesCount)`: each iteration is one
     * call; a thrown lookup or send schedules the next call with the
     * counter one higher.
     */
    method ShowAlertMessage(title: string, text: AlertText, triesCount: int, env: int -> Outcome)
      returns (trace: seq<Effect>)
      ensures trace == AlertRun(styles, title, text, triesCount, env)
    {
      var st := styles;
      var tries := triesCount;
      trace := [];
      while true
        invariant trace + AlertRun(st, title, text, tries, env) == AlertRun(st, title, text, triesCount, env)
        decreases Remaining(tries)
      {
        var retry;
        trace, retry := AlertCall(st, title, text, tries, env, trace);
        if !retry {
          break;
        }
        tries := tries + 1;
      }
    }

    /**
     * `getFiltersEnabledResultMessage(enabledFilters)`: sorts the caller's
     * array by display number and returns the fixed title with one line
     * per filter.
     */
    static method GetFiltersEnabledResultMessage(tr: Translator, enabledFilters: array<FilterMetadata>)
      returns (m: AlertMessage)
      modifies enabledFilters
      ensures enabledFilters[..] == SortSeq(ByDisplayNumber, old(enabledFilters[..]))
      ensures m == FiltersEnabledResult(tr, old(enabledFilters[..]))
    {
      var title := tr(FilterEnabledTitleKey, NoParams);
      SortInPlace(enabledFilters, ByDisplayNumber);
      var text := EnabledLines(tr, enabledFilters[..]);
      m := AlertMessage(title, Lines(text));
    }

    /**
     * `getFiltersUpdateResultMessage(success, updatedFilters)`; a `null`
     * array is the missing list. Only a non-empty list of a successful
     * update is sorted in place.
     */
    static method GetFiltersUpdateResultMessage(tr: Translator, success: bool, updatedFilters: array?<FilterMetadata>)
      returns (m: AlertMessage)
      modifies updatedFilters
      ensures updatedFilters != null ==>
        updatedFilters[..] == (if success then SortSeq(ByGroupThenDisplayNumber, old(updatedFilters[..]))
                               else old(updatedFilters[..]))
      ensures m == FiltersUpdateResult(tr, success, if updatedFilters == null then None else Some(old(updatedFilters[..])))
    {
      if !success || updatedFilters == null {
        return AlertMessage(tr(UpdateTitleErrorKey, NoParams), Line(tr(UpdateErrorKey, NoParams)));
      }
      var title := "";
      if updatedFilters.Length == 0 {
        return AlertMessage(title, Line(tr(UpdateNotFoundKey, NoParams)));
      }
      SortInPlace(updatedFilters, ByGroupThenDisplayNumber);
      var text := Join(Names(updatedFilters[..]), ", ");
      if updatedFilters.Length > 1 {
        text := text + " " + tr(UpdateFiltersKey, NoParams);
      } else {
        text := text + " " + tr(UpdateFilterKey, NoParams);
      }
      m := AlertMessage(title, Line(text));
    }

    /** `showFiltersEnabledAlertMessage(filters)`: composes the alert, then delivers it from the first try. */
    method ShowFiltersEnabledAlertMessage(tr: Translator, filters: array<FilterMetadata>, env: int -> Outcome)
      returns (trace: seq<Effect>)
      modifies filters
      ensures filters[..] == SortSeq(ByDisplayNumber, old(filters[..]))
      ensures var m := FiltersEnabledResult(tr, old(filters[..]));
        trace == AlertRun(styles, m.title, m.text, 1, env)
    {
      var m := GetFiltersEnabledResultMessage(tr, filters);
      trace := ShowAlertMessage(m.title, m.text, 1, env);
    }

    /** `showFiltersUpdatedAlertMessage(success, filters)`: composes the alert, then delivers it from the first try. */
    method ShowFiltersUpdatedAlertMessage(tr: Translator, success: bool, filters: array?<FilterMetadata>, env: int -> Outcome)
      returns (trace: seq<Effect>)
      modifies filters
      ensures filters != null ==>
        filters[..] == (if success then SortSeq(ByGroupThenDisplayNumber, old(filters[..])) else old(filters[..]))
      ensures var m := FiltersUpdateResult(tr, success, if filters == null then None else Some(old(filters[..])));
        trace == AlertRun(styles, m.title, m.text, 1, env)
    {
      var m := GetFiltersUpdateResultMessage(tr, success, filters);
      trace := ShowAlertMessage(m.title, m.text, 1, env);
    }

    /**
     * One call of `showApplicationUpdatedPopup` with the counter at `tries`,
     * after the effects `done` of the earlier calls: the promotion lookup,
     * the suppression rule, the ceiling, and the attempt to deliver. `retry`
     * says whether it schedules the next call, whose effects then follow
     * `trace`.
     */
    static method UpdateCall(
      tr: Translator, v: VersionNumbers, st: Option<string>, currentVersion: string, previousVersion: string,
      tries: int, env: int -> UpdateAttempt, done: seq<Effect>)
      returns (trace: seq<Effect>, retry: bool)
      ensures var compose := PopupComposer(tr, v, st, currentVersion, previousVersion);
        && (retry ==> tries <= MaxTries)
        && (retry ==> done + UpdateRun(compose, tries, env) == trace + UpdateRun(compose, tries + 1, env))
        && (!retry ==> trace == done + UpdateRun(compose, tries, env))
    {
      ghost var compose := PopupComposer(tr, v, st, currentVersion, previousVersion);
      var attempt := env(tries);
      var message := ApplicationUpdatedMessage(tr, v, st, attempt.promo, currentVersion, previousVersion);
      assert compose(attempt.promo) == message;
      if message.None? {
        UpdateSuppressed(compose, tries, env);
        return done + [GetCurrentNotification], false;
      }
      if tries > MaxTries {
        UpdateGivesUp(compose, tries, env);
        return done + [GetCurrentNotification, Warn(UpdateGiveUpWarning)], false;
      }
      var sent, failed := SendToActiveTab(attempt.outcome, VersionJob(message.value));
      if !failed {
        UpdateEndsWithoutFailure(compose, tries, env, message.value);
        return done + ([GetCurrentNotification] + sent), false;
      }
      UpdateRetriesOnFailure(compose, tries, env, message.value);
      ghost var rest := UpdateRun(compose, tries + 1, env);
      assert done + ([GetCurrentNotification] + (sent + ([SetTimeout(TriesTimeout)] + rest)))
          == (done + [GetCurrentNotification] + sent + [SetTimeout(TriesTimeout)]) + rest;
      trace := done + [GetCurrentNotification] + sent + [SetTimeout(TriesTimeout)];
      retry := true;
    }

    /**
     * `showApplicationUpdatedPopup(currentVersion, previousVersion, triesCount)`:
     * each iteration is one call, which looks up the promotion, may return
     * without sending, composes the popup, and then tries to deliver it.
     */
    method ShowApplicationUpdatedPopup(
      tr: Translator, v: VersionNumbers, currentVersion: string, previousVersion: string,
      triesCount: int, env: int -> UpdateAttempt)
      returns (trace: seq<Effect>)
      ensures trace == UpdateRun(PopupComposer(tr, v, styles, currentVersion, previousVersion), triesCount, env)
    {
      var st := styles;
      ghost var compose := PopupComposer(tr, v, st, currentVersion, previousVersion);
      var tries := triesCount;
      trace := [];
      while true
        invariant trace + UpdateRun(compose, tries, env) == UpdateRun(compose, triesCount, env)
        decreases Remaining(tries)
      {
        var retry;
        trace, retry := UpdateCall(tr, v, st, currentVersion, previousVersion, tries, env, trace);
        if !retry {
          break;
        }
        tries := tries + 1;
      }
    }
  }
}
