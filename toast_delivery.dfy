/**
 * The delivery half of the toasts: one attempt looks up the active tab and
 * sends the message to it; a failure of either step schedules the next
 * attempt, with the tries counter one higher, after a fixed delay; past the
 * ceiling the call gives up with a warning.
 *
 * A run is described by the trace of effects it performs on the browser,
 * the timer and the log. The browser is an environment that tells, for each
 * value of the tries counter, what that attempt meets; the timer is a
 * `SetTimeout` effect followed by the next attempt.
 */
module ToastDelivery {
  import opened Wrappers
  import opened ToastMessages

  /** The ceiling on the tries counter. */
  const MaxTries := 500

  /** Milliseconds between a failed attempt and the next one. */
  const TriesTimeout := 5000

  const AlertGiveUpWarning := "Reached max tries on attempts to show alert popup"
  const UpdateGiveUpWarning := "Reached max tries on attempts to show application update popup"

  /** The active tab as the browser reports it, with the extension's verdict on it. */
  datatype Tab = Tab(id: Option<int>, isAdguardExtensionTab: bool)

  /** `tab?.id` is truthy: there is a tab, it has an id, and the id is not 0. */
  predicate HasId(tab: Option<Tab>) {
    tab.Some? && tab.value.id.Some? && tab.value.id.value != 0
  }

  /** What one attempt meets. */
  datatype Outcome =
    | LookupFails                                     // TabsApi.getActive() rejects
    | Resolved(tab: Option<Tab>, sendResolves: bool)  // the active tab, if any; whether sendMessage would resolve

  /** The attempt throws: the lookup rejects, or there was a tab to send to and the send rejects. */
  predicate Fails(o: Outcome) {
    o.LookupFails? || (HasId(o.tab) && !o.sendResolves)
  }

  /** The attempt hands the message to a tab. */
  predicate Delivers(o: Outcome) {
    o.Resolved? && HasId(o.tab) && o.sendResolves
  }

  /** The message handed to the tab's content script. */
  datatype Message =
    | AlertPopup(isAdguardTab: bool, title: string, text: AlertText, alertStyles: Option<string>)
    | VersionUpdatedPopup(popup: VersionPopup)
  {
    /** The `type` field of the message. */
    function Type(): string {
      match this
      case AlertPopup(_, _, _, _) => "show-alert-popup"
      case VersionUpdatedPopup(_) => "show-version-updated-popup"
    }
  }

  /** The content script tells the two popups apart by the `type` field alone. */
  lemma TypeTellsPopupsApart(m: Message, n: Message)
    ensures m.Type() == n.Type() <==> m.AlertPopup? == n.AlertPopup?
  {
  }

  /** What is sent, before the tab is known. */
  datatype Job =
    | AlertJob(title: string, text: AlertText, styles: Option<string>)
    | VersionJob(popup: VersionPopup)

  /** The message of `job` for `tab`: only the alert says whether the tab is the extension's own. */
  function MessageFor(job: Job, tab: Tab): Message {
    match job
    case AlertJob(title, text, styles) => AlertPopup(tab.isAdguardExtensionTab, title, text, styles)
    case VersionJob(popup) => VersionUpdatedPopup(popup)
  }

  datatype Effect =
    | GetCurrentNotification         // notificationApi.getCurrentNotification()
    | GetActiveTab                   // TabsApi.getActive()
    | SendMessage(tabId: int, message: Message)
    | SetTimeout(delay: int)         // the retry, fired after `delay` ms
    | Warn(text: string)             // log.warn

  datatype EffectKind = NotificationLookup | TabLookup | Send | Timer | Warning

  function KindOf(e: Effect): EffectKind {
    match e
    case GetCurrentNotification => NotificationLookup
    case GetActiveTab => TabLookup
    case SendMessage(_, _) => Send
    case SetTimeout(_) => Timer
    case Warn(_) => Warning
  }

  /** How many effects of kind `k` the trace holds. */
  function Count(trace: seq<Effect>, k: EffectKind): nat
    decreases |trace|
  {
    if trace == [] then 0
    else (if KindOf(trace[0]) == k then 1 else 0) + Count(trace[1..], k)
  }

  lemma {:induction false} CountAppend(a: seq<Effect>, b: seq<Effect>, k: EffectKind)
    ensures Count(a + b, k) == Count(a, k) + Count(b, k)
    decreases |a|
  {
    if a != [] {
      assert (a + b)[0] == a[0];
      assert (a + b)[1..] == a[1..] + b;
      CountAppend(a[1..], b, k);
    } else {
      assert a + b == b;
    }
  }

  /** Counting through one failed attempt and the retry it schedules. */
  lemma CountRetry(first: seq<Effect>, rest: seq<Effect>, k: EffectKind)
    ensures Count(first + ([SetTimeout(TriesTimeout)] + rest), k)
         == Count(first, k) + (if k == Timer then 1 else 0) + Count(rest, k)
  {
    CountAppend(first, [SetTimeout(TriesTimeout)] + rest, k);
    CountAppend([SetTimeout(TriesTimeout)], rest, k);
  }

  /** Counting through the promotion lookup that opens every update attempt. */
  lemma CountNotificationFirst(rest: seq<Effect>, k: EffectKind)
    ensures Count([GetCurrentNotification] + rest, k)
         == (if k == NotificationLookup then 1 else 0) + Count(rest, k)
  {
    CountAppend([GetCurrentNotification], rest, k);
  }

  /** A property of single effects that the lemmas below claim of whole traces. */
  datatype Claim =
    | DelayIs(ms: int)                                                    // every timer waits `ms`
    | SendsAlert(title: string, text: AlertText, styles: Option<string>)  // every send is this alert
    | SendsVersionPopup(description: string, styles: Option<string>)      // every send is a version popup like this

  predicate Holds(c: Claim, e: Effect) {
    match c
    case DelayIs(ms) => e.SetTimeout? ==> e.delay == ms
    case SendsAlert(title, text, styles) =>
      e.SendMessage? ==>
        e.message.AlertPopup? && e.message.title == title && e.message.text == text && e.message.alertStyles == styles
    case SendsVersionPopup(description, styles) =>
      e.SendMessage? ==>
        e.message.VersionUpdatedPopup? && e.message.popup.description == description
        && e.message.popup.alertStyles == styles
  }

  /** `c` holds of every effect of the trace, stated by recursion on the trace. */
  predicate Every(trace: seq<Effect>, c: Claim)
    decreases |trace|
  {
    trace == [] || (Holds(c, trace[0]) && Every(trace[1..], c))
  }

  /** `Every` is the universally quantified statement it abbreviates. */
  lemma {:induction false} EveryMeans(trace: seq<Effect>, c: Claim)
    ensures Every(trace, c) <==> forall e :: e in trace ==> Holds(c, e)
    decreases |trace|
  {
    if trace != [] {
      EveryMeans(trace[1..], c);
      assert forall e :: e in trace <==> e == trace[0] || e in trace[1..];
    }
  }

  lemma {:induction false} EveryAppend(a: seq<Effect>, b: seq<Effect>, c: Claim)
    ensures Every(a + b, c) <==> Every(a, c) && Every(b, c)
    decreases |a|
  {
    if a != [] {
      assert (a + b)[0] == a[0];
      assert (a + b)[1..] == a[1..] + b;
      EveryAppend(a[1..], b, c);
    } else {
      assert a + b == b;
    }
  }

  /** `c` through one failed attempt and the retry it schedules. */
  lemma EveryRetry(first: seq<Effect>, rest: seq<Effect>, c: Claim)
    requires Every(first, c) && Every(rest, c) && Holds(c, SetTimeout(TriesTimeout))
    ensures Every(first + ([SetTimeout(TriesTimeout)] + rest), c)
  {
    EveryAppend(first, [SetTimeout(TriesTimeout)] + rest, c);
    EveryAppend([SetTimeout(TriesTimeout)], rest, c);
  }

  /** `c` through the promotion lookup that opens every update attempt. */
  lemma EveryNotificationFirst(rest: seq<Effect>, c: Claim)
    requires Every(rest, c)
    ensures Every([GetCurrentNotification] + rest, c)
  {
    EveryAppend([GetCurrentNotification], rest, c);
  }

  /** The attempts still allowed when the tries counter is `tries`. */
  function Remaining(tries: int): nat {
    if tries > MaxTries then 0 else MaxTries + 1 - tries
  }

  /** The last value of the tries counter a run from `tries` can reach: the first one past the ceiling. */
  function LastTry(tries: int): (r: int)
    ensures r >= tries && r > MaxTries
    ensures tries <= MaxTries ==> r == MaxTries + 1
  {
    if tries > MaxTries then tries else MaxTries + 1
  }

  /** The effects of one attempt below the ceiling, before any retry is scheduled. */
  function TryDelivery(o: Outcome, job: Job): (r: seq<Effect>)
    ensures Count(r, TabLookup) == 1 && Count(r, Timer) == 0 && Count(r, Warning) == 0
    ensures Count(r, NotificationLookup) == 0
    ensures Count(r, Send) == (if o.Resolved? && HasId(o.tab) then 1 else 0)
  {
    match o
    case LookupFails => [GetActiveTab]
    case Resolved(tab, _) =>
      if HasId(tab) then
        var send := SendMessage(tab.value.id.value, MessageFor(job, tab.value));
        assert [GetActiveTab, send][1..] == [send];
        assert [send][1..] == [];
        assert forall k :: Count([send], k) == (if k == Send then 1 else 0);
        [GetActiveTab, send]
      else [GetActiveTab]
  }

  /** One attempt meets a claim when the send it may make does. */
  lemma EveryTryDelivery(o: Outcome, job: Job, c: Claim)
    requires Holds(c, GetActiveTab)
    requires o.Resolved? && HasId(o.tab) ==> Holds(c, SendMessage(o.tab.value.id.value, MessageFor(job, o.tab.value)))
    ensures Every(TryDelivery(o, job), c)
  {
  }

  // ----- showAlertMessage -----

  /** The effects of `showAlertMessage(title, text, tries)` and of the retries it schedules. */
  function AlertRun(styles: Option<string>, title: string, text: AlertText, tries: int, env: int -> Outcome): (r: seq<Effect>)
    ensures |r| > 0 && r[0] == (if tries > MaxTries then Warn(AlertGiveUpWarning) else GetActiveTab)
    decreases Remaining(tries)
  {
    if tries > MaxTries then [Warn(AlertGiveUpWarning)]
    else
      TryDelivery(env(tries), AlertJob(title, text, styles))
      + if Fails(env(tries)) then [SetTimeout(TriesTimeout)] + AlertRun(styles, title, text, tries + 1, env) else []
  }

  /** Past the ceiling the call only warns: nothing is sent and nothing is scheduled. */
  lemma AlertGivesUp(styles: Option<string>, title: string, text: AlertText, tries: int, env: int -> Outcome)
    requires tries > MaxTries
    ensures AlertRun(styles, title, text, tries, env) == [Warn(AlertGiveUpWarning)]
  {
  }

  /** Without a tab that has an id the call ends at once: no send, no retry. */
  lemma AlertNoTarget(styles: Option<string>, title: string, text: AlertText, tries: int, env: int -> Outcome)
    requires tries <= MaxTries && env(tries).Resolved? && !HasId(env(tries).tab)
    ensures AlertRun(styles, title, text, tries, env) == [GetActiveTab]
  {
  }

  /** An attempt that does not throw ends the run: the alert was sent, or there was no tab to send it to. */
  lemma AlertEndsWithoutFailure(styles: Option<string>, title: string, text: AlertText, tries: int, env: int -> Outcome)
    requires tries <= MaxTries && !Fails(env(tries))
    ensures AlertRun(styles, title, text, tries, env) == TryDelivery(env(tries), AlertJob(title, text, styles))
  {
  }

  /** A failed attempt schedules exactly one retry, after 5000 ms, with the counter one higher. */
  lemma AlertRetriesOnFailure(styles: Option<string>, title: string, text: AlertText, tries: int, env: int -> Outcome)
    requires tries <= MaxTries && Fails(env(tries))
    ensures AlertRun(styles, title, text, tries, env)
         == TryDelivery(env(tries), AlertJob(title, text, styles))
            + [SetTimeout(TriesTimeout)] + AlertRun(styles, title, text, tries + 1, env)
  {
  }

  /**
   * Whatever the browser does, a run makes at most as many attempts as the
   * ceiling leaves and schedules at most one retry per attempt.
   */
  lemma {:induction false} AlertRunBounds(styles: Option<string>, title: string, text: AlertText, tries: int, env: int -> Outcome)
    ensures var trace := AlertRun(styles, title, text, tries, env);
      && Count(trace, TabLookup) <= Remaining(tries)
      && Count(trace, Timer) <= Count(trace, TabLookup)
    decreases Remaining(tries)
  {
    if tries <= MaxTries {
      var first := TryDelivery(env(tries), AlertJob(title, text, styles));
      if Fails(env(tries)) {
        var rest := AlertRun(styles, title, text, tries + 1, env);
        AlertRunBounds(styles, title, text, tries + 1, env);
        AlertRetriesOnFailure(styles, title, text, tries, env);
        CountRetry(first, rest, TabLookup);
        CountRetry(first, rest, Timer);
      } else {
        AlertEndsWithoutFailure(styles, title, text, tries, env);
      }
    }
  }

  /** Every retry of the alert waits 5000 ms, and every send carries the alert the run was asked to show. */
  lemma {:induction false} AlertRunContents(styles: Option<string>, title: string, text: AlertText, tries: int, env: int -> Outcome)
    ensures Every(AlertRun(styles, title, text, tries, env), DelayIs(TriesTimeout))
    ensures Every(AlertRun(styles, title, text, tries, env), SendsAlert(title, text, styles))
    decreases Remaining(tries)
  {
    if tries <= MaxTries {
      var job := AlertJob(title, text, styles);
      var first := TryDelivery(env(tries), job);
      EveryTryDelivery(env(tries), job, DelayIs(TriesTimeout));
      EveryTryDelivery(env(tries), job, SendsAlert(title, text, styles));
      if Fails(env(tries)) {
        var rest := AlertRun(styles, title, text, tries + 1, env);
        AlertRunContents(styles, title, text, tries + 1, env);
        AlertRetriesOnFailure(styles, title, text, tries, env);
        EveryRetry(first, rest, DelayIs(TriesTimeout));
        EveryRetry(first, rest, SendsAlert(title, text, styles));
      } else {
        AlertEndsWithoutFailure(styles, title, text, tries, env);
      }
    } else {
      AlertGivesUp(styles, title, text, tries, env);
    }
  }

  /**
   * When every attempt fails, the run makes one attempt for each value of
   * the counter up to the ceiling, schedules a retry after each, and ends
   * with the give-up warning.
   */
  lemma {:induction false} AlertAlwaysFailing(styles: Option<string>, title: string, text: AlertText, tries: int, env: int -> Outcome)
    requires forall k :: tries <= k <= MaxTries ==> Fails(env(k))
    ensures var trace := AlertRun(styles, title, text, tries, env);
      && Count(trace, TabLookup) == Remaining(tries)
      && Count(trace, Timer) == Remaining(tries)
      && trace[|trace| - 1] == Warn(AlertGiveUpWarning)
    decreases Remaining(tries)
  {
    if tries <= MaxTries {
      var first := TryDelivery(env(tries), AlertJob(title, text, styles));
      var rest := AlertRun(styles, title, text, tries + 1, env);
      AlertAlwaysFailing(styles, title, text, tries + 1, env);
      AlertRetriesOnFailure(styles, title, text, tries, env);
      CountRetry(first, rest, TabLookup);
      CountRetry(first, rest, Timer);
    }
  }

  /** A browser that never accepts the alert sees exactly 500 attempts, then the warning. */
  lemma AlertAlwaysFailingFromFirstTry(styles: Option<string>, title: string, text: AlertText, env: int -> Outcome)
    requires forall k :: 1 <= k <= MaxTries ==> Fails(env(k))
    ensures Count(AlertRun(styles, title, text, 1, env), TabLookup) == 500
    ensures Count(AlertRun(styles, title, text, 1, env), Timer) == 500
  {
    AlertAlwaysFailing(styles, title, text, 1, env);
  }

  /**
   * `k` failures below the ceiling followed by a delivery: `k + 1` attempts,
   * `k` retries and no warning.
   */
  lemma {:induction false} AlertFailThenDeliver(styles: Option<string>, title: string, text: AlertText, tries: int, k: nat, env: int -> Outcome)
    requires tries + k <= MaxTries
    requires forall j :: tries <= j < tries + k ==> Fails(env(j))
    requires Delivers(env(tries + k))
    ensures var trace := AlertRun(styles, title, text, tries, env);
      && Count(trace, TabLookup) == k + 1
      && Count(trace, Timer) == k
      && Count(trace, Warning) == 0
    decreases k
  {
    var first := TryDelivery(env(tries), AlertJob(title, text, styles));
    if k > 0 {
      var rest := AlertRun(styles, title, text, tries + 1, env);
      AlertFailThenDeliver(styles, title, text, tries + 1, k - 1, env);
      AlertRetriesOnFailure(styles, title, text, tries, env);
      CountRetry(first, rest, TabLookup);
      CountRetry(first, rest, Timer);
      CountRetry(first, rest, Warning);
    } else {
      AlertEndsWithoutFailure(styles, title, text, tries, env);
    }
  }

  /** An alert run that retries ends as the retry ends. */
  lemma AlertLastThroughRetry(first: seq<Effect>, rest: seq<Effect>)
    requires |rest| > 0
    ensures var trace := first + [SetTimeout(TriesTimeout)] + rest;
      trace[|trace| - 1] == rest[|rest| - 1]
  {
  }

  /**
   * Under the assumptions of `AlertFailThenDeliver` the run ends with the
   * send that went through.
   */
  lemma {:induction false} AlertFailThenDeliverEnds(styles: Option<string>, title: string, text: AlertText, tries: int, k: nat, env: int -> Outcome)
    requires tries + k <= MaxTries
    requires forall j :: tries <= j < tries + k ==> Fails(env(j))
    requires Delivers(env(tries + k))
    ensures var trace := AlertRun(styles, title, text, tries, env);
      trace[|trace| - 1]
      == SendMessage(env(tries + k).tab.value.id.value, MessageFor(AlertJob(title, text, styles), env(tries + k).tab.value))
    decreases k
  {
    if k > 0 {
      var first := TryDelivery(env(tries), AlertJob(title, text, styles));
      var rest := AlertRun(styles, title, text, tries + 1, env);
      AlertFailThenDeliverEnds(styles, title, text, tries + 1, k - 1, env);
      AlertRetriesOnFailure(styles, title, text, tries, env);
      AlertLastThroughRetry(first, rest);
    } else {
      AlertEndsWithoutFailure(styles, title, text, tries, env);
    }
  }

  // ----- showApplicationUpdatedPopup -----

  /** What one call of `showApplicationUpdatedPopup` meets: the promotion, then the browser. */
  datatype UpdateAttempt = UpdateAttempt(promo: Option<PromoNotification>, outcome: Outcome)

  /**
   * The effects of `showApplicationUpdatedPopup(current, previous, tries)`
   * and of its retries, for the composition `compose` of the popup from the
   * promotion found (`PopupComposer` of the two versions). Each retry calls
   * the whole function again, so the promotion is looked up and the popup
   * composed on every try, and the suppression rule comes before the ceiling.
   */
  function UpdateRun(compose: Composer, tries: int, env: int -> UpdateAttempt): (r: seq<Effect>)
    ensures |r| > 0 && r[0] == GetCurrentNotification
    decreases Remaining(tries)
  {
    [GetCurrentNotification]
    + match compose(env(tries).promo)
      case None => []
      case Some(popup) =>
        if tries > MaxTries then [Warn(UpdateGiveUpWarning)]
        else
          TryDelivery(env(tries).outcome, VersionJob(popup))
          + if Fails(env(tries).outcome) then [SetTimeout(TriesTimeout)] + UpdateRun(compose, tries + 1, env) else []
  }

  /**
   * A composed popup, below the ceiling, whose attempt fails: the promotion
   * lookup, the attempt, one retry after 5000 ms with the counter one higher.
   */
  lemma UpdateRetriesOnFailure(compose: Composer, tries: int, env: int -> UpdateAttempt, popup: VersionPopup)
    requires compose(env(tries).promo) == Some(popup)
    requires tries <= MaxTries && Fails(env(tries).outcome)
    ensures UpdateRun(compose, tries, env)
         == [GetCurrentNotification]
            + (TryDelivery(env(tries).outcome, VersionJob(popup))
               + ([SetTimeout(TriesTimeout)] + UpdateRun(compose, tries + 1, env)))
  {
  }

  /** Past the ceiling a composed popup is not sent: the call only warns. */
  lemma UpdateGivesUp(compose: Composer, tries: int, env: int -> UpdateAttempt)
    requires compose(env(tries).promo).Some? && tries > MaxTries
    ensures UpdateRun(compose, tries, env) == [GetCurrentNotification, Warn(UpdateGiveUpWarning)]
  {
  }

  /** An attempt that does not throw ends the run: the popup was sent, or there was no tab to send it to. */
  lemma UpdateEndsWithoutFailure(compose: Composer, tries: int, env: int -> UpdateAttempt, popup: VersionPopup)
    requires compose(env(tries).promo) == Some(popup)
    requires tries <= MaxTries && !Fails(env(tries).outcome)
    ensures UpdateRun(compose, tries, env) == [GetCurrentNotification] + TryDelivery(env(tries).outcome, VersionJob(popup))
  {
  }

  /** Nothing composed: the call ends after the promotion lookup, whatever the counter. */
  lemma UpdateSuppressed(compose: Composer, tries: int, env: int -> UpdateAttempt)
    requires compose(env(tries).promo).None?
    ensures UpdateRun(compose, tries, env) == [GetCurrentNotification]
  {
  }

  /**
   * No promotion and the same major and minor numbers: the call ends after
   * the promotion lookup, with no send, no retry and no warning, even past
   * the ceiling.
   */
  lemma SameReleaseSuppressed(
    tr: Translator, v: VersionNumbers, styles: Option<string>,
    currentVersion: string, previousVersion: string, tries: int, env: int -> UpdateAttempt)
    requires env(tries).promo.None? && SameRelease(v, currentVersion, previousVersion)
    ensures UpdateRun(PopupComposer(tr, v, styles, currentVersion, previousVersion), tries, env) == [GetCurrentNotification]
  {
    UpdateSuppressed(PopupComposer(tr, v, styles, currentVersion, previousVersion), tries, env);
  }

  /** The bounds of `UpdateRunBounds` carried through one failed update attempt. */
  lemma UpdateBoundsThroughRetry(first: seq<Effect>, rest: seq<Effect>, tries: int)
    requires tries <= MaxTries
    requires Count(first, TabLookup) == 1 && Count(first, Timer) == 0
    requires Count(rest, TabLookup) <= Remaining(tries + 1) && Count(rest, Timer) <= Count(rest, TabLookup)
    ensures var trace := [GetCurrentNotification] + (first + ([SetTimeout(TriesTimeout)] + rest));
      && Count(trace, TabLookup) <= Remaining(tries)
      && Count(trace, Timer) <= Count(trace, TabLookup)
  {
    CountNotificationFirst(first + ([SetTimeout(TriesTimeout)] + rest), TabLookup);
    CountNotificationFirst(first + ([SetTimeout(TriesTimeout)] + rest), Timer);
    CountRetry(first, rest, TabLookup);
    CountRetry(first, rest, Timer);
  }

  /**
   * Whatever the browser and the promotion service do, the run makes at most
   * as many tab lookups as the ceiling leaves and schedules at most one retry
   * per lookup.
   */
  lemma {:induction false} UpdateRunBounds(compose: Composer, tries: int, env: int -> UpdateAttempt)
    ensures var trace := UpdateRun(compose, tries, env);
      && Count(trace, TabLookup) <= Remaining(tries)
      && Count(trace, Timer) <= Count(trace, TabLookup)
    decreases Remaining(tries)
  {
    var m := compose(env(tries).promo);
    if m.Some? && tries <= MaxTries {
      var first := TryDelivery(env(tries).outcome, VersionJob(m.value));
      if Fails(env(tries).outcome) {
        var rest := UpdateRun(compose, tries + 1, env);
        UpdateRunBounds(compose, tries + 1, env);
        UpdateRetriesOnFailure(compose, tries, env, m.value);
        UpdateBoundsThroughRetry(first, rest, tries);
      } else {
        UpdateEndsWithoutFailure(compose, tries, env, m.value);
        CountNotificationFirst(first, TabLookup);
        CountNotificationFirst(first, Timer);
      }
    } else if m.None? {
      UpdateSuppressed(compose, tries, env);
      CountNotificationFirst([], TabLookup);
      CountNotificationFirst([], Timer);
    } else {
      UpdateGivesUp(compose, tries, env);
      CountNotificationFirst([Warn(UpdateGiveUpWarning)], TabLookup);
      CountNotificationFirst([Warn(UpdateGiveUpWarning)], Timer);
    }
  }

  /** A claim carried through one failed update attempt. */
  lemma EveryThroughUpdateRetry(first: seq<Effect>, rest: seq<Effect>, c: Claim)
    requires Every(first, c) && Every(rest, c)
    requires Holds(c, GetCurrentNotification) && Holds(c, SetTimeout(TriesTimeout))
    ensures Every([GetCurrentNotification] + (first + ([SetTimeout(TriesTimeout)] + rest)), c)
  {
    EveryRetry(first, rest, c);
    EveryNotificationFirst(first + ([SetTimeout(TriesTimeout)] + rest), c);
  }

  /** Every retry of the update popup waits 5000 ms. */
  lemma {:induction false} UpdateRunDelays(compose: Composer, tries: int, env: int -> UpdateAttempt)
    ensures Every(UpdateRun(compose, tries, env), DelayIs(TriesTimeout))
    decreases Remaining(tries)
  {
    var c := DelayIs(TriesTimeout);
    var m := compose(env(tries).promo);
    if m.Some? && tries <= MaxTries {
      var first := TryDelivery(env(tries).outcome, VersionJob(m.value));
      EveryTryDelivery(env(tries).outcome, VersionJob(m.value), c);
      if Fails(env(tries).outcome) {
        var rest := UpdateRun(compose, tries + 1, env);
        UpdateRunDelays(compose, tries + 1, env);
        UpdateRetriesOnFailure(compose, tries, env, m.value);
        EveryThroughUpdateRetry(first, rest, c);
      } else {
        UpdateEndsWithoutFailure(compose, tries, env, m.value);
        EveryNotificationFirst(first, c);
      }
    } else if m.Some? {
      UpdateGivesUp(compose, tries, env);
    } else {
      UpdateSuppressed(compose, tries, env);
    }
  }

  /** When every popup that can be composed has `description` and `styles`, so has every popup sent. */
  lemma {:induction false} UpdateRunSends(
    compose: Composer, description: string, styles: Option<string>, tries: int, env: int -> UpdateAttempt)
    requires forall promo :: compose(promo).Some? ==>
      compose(promo).value.description == description && compose(promo).value.alertStyles == styles
    ensures Every(UpdateRun(compose, tries, env), SendsVersionPopup(description, styles))
    decreases Remaining(tries)
  {
    var c := SendsVersionPopup(description, styles);
    var m := compose(env(tries).promo);
    if m.Some? && tries <= MaxTries {
      var first := TryDelivery(env(tries).outcome, VersionJob(m.value));
      EveryTryDelivery(env(tries).outcome, VersionJob(m.value), c);
      if Fails(env(tries).outcome) {
        var rest := UpdateRun(compose, tries + 1, env);
        UpdateRunSends(compose, description, styles, tries + 1, env);
        UpdateRetriesOnFailure(compose, tries, env, m.value);
        EveryThroughUpdateRetry(first, rest, c);
      } else {
        UpdateEndsWithoutFailure(compose, tries, env, m.value);
        EveryNotificationFirst(first, c);
      }
    } else if m.Some? {
      UpdateGivesUp(compose, tries, env);
    } else {
      UpdateSuppressed(compose, tries, env);
    }
  }

  /**
   * Every version-updated popup a run sends carries the description chosen
   * from the two versions and the style sheet held at the call.
   */
  lemma PopupSends(
    tr: Translator, v: VersionNumbers, styles: Option<string>,
    currentVersion: string, previousVersion: string, tries: int, env: int -> UpdateAttempt)
    ensures Every(UpdateRun(PopupComposer(tr, v, styles, currentVersion, previousVersion), tries, env),
                  SendsVersionPopup(GetUpdateDescriptionMessage(tr, v, currentVersion, previousVersion), styles))
  {
    var compose := PopupComposer(tr, v, styles, currentVersion, previousVersion);
    var description := GetUpdateDescriptionMessage(tr, v, currentVersion, previousVersion);
    forall promo | compose(promo).Some?
      ensures compose(promo).value.description == description && compose(promo).value.alertStyles == styles
    {
      VersionPopupFields(tr, v, styles, promo, currentVersion, previousVersion);
    }
    UpdateRunSends(compose, description, styles, tries, env);
  }

  /** The exact counts of `UpdateAlwaysFailing` carried through one failed update attempt. */
  lemma UpdateCountsThroughRetry(first: seq<Effect>, rest: seq<Effect>, tries: int)
    requires tries <= MaxTries
    requires Count(first, TabLookup) == 1 && Count(first, Timer) == 0 && Count(first, NotificationLookup) == 0
    requires && Count(rest, TabLookup) == Remaining(tries + 1)
             && Count(rest, Timer) == Remaining(tries + 1)
             && Count(rest, NotificationLookup) == Remaining(tries + 1) + 1
    ensures var trace := [GetCurrentNotification] + (first + ([SetTimeout(TriesTimeout)] + rest));
      && Count(trace, TabLookup) == Remaining(tries)
      && Count(trace, Timer) == Remaining(tries)
      && Count(trace, NotificationLookup) == Remaining(tries) + 1
  {
    var tail := first + ([SetTimeout(TriesTimeout)] + rest);
    CountNotificationFirst(tail, TabLookup);
    CountNotificationFirst(tail, Timer);
    CountNotificationFirst(tail, NotificationLookup);
    CountRetry(first, rest, TabLookup);
    CountRetry(first, rest, Timer);
    CountRetry(first, rest, NotificationLookup);
  }

  /**
   * When a popup is composed on every try below the ceiling and every
   * attempt fails, the run makes one attempt per value of the counter up to
   * the ceiling and one promotion lookup more than that, whatever the last
   * call past the ceiling composes.
   */
  lemma {:induction false} UpdateAlwaysFailing(compose: Composer, tries: int, env: int -> UpdateAttempt)
    requires forall j :: tries <= j <= MaxTries ==> compose(env(j).promo).Some?
    requires forall k :: tries <= k <= MaxTries ==> Fails(env(k).outcome)
    ensures var trace := UpdateRun(compose, tries, env);
      && Count(trace, TabLookup) == Remaining(tries)
      && Count(trace, Timer) == Remaining(tries)
      && Count(trace, NotificationLookup) == Remaining(tries) + 1
    decreases Remaining(tries)
  {
    var m := compose(env(tries).promo);
    if tries <= MaxTries {
      var first := TryDelivery(env(tries).outcome, VersionJob(m.value));
      var rest := UpdateRun(compose, tries + 1, env);
      UpdateAlwaysFailing(compose, tries + 1, env);
      UpdateRetriesOnFailure(compose, tries, env, m.value);
      UpdateCountsThroughRetry(first, rest, tries);
    } else if m.None? {
      UpdateSuppressed(compose, tries, env);
      CountNotificationFirst([], TabLookup);
      CountNotificationFirst([], Timer);
      CountNotificationFirst([], NotificationLookup);
    } else {
      UpdateGivesUp(compose, tries, env);
      CountNotificationFirst([Warn(UpdateGiveUpWarning)], TabLookup);
      CountNotificationFirst([Warn(UpdateGiveUpWarning)], Timer);
      CountNotificationFirst([Warn(UpdateGiveUpWarning)], NotificationLookup);
    }
  }

  /** A run that retries ends as the retry ends. */
  lemma LastThroughRetry(first: seq<Effect>, rest: seq<Effect>)
    requires |rest| > 0
    ensures var trace := [GetCurrentNotification] + (first + ([SetTimeout(TriesTimeout)] + rest));
      trace[|trace| - 1] == rest[|rest| - 1]
  {
  }

  /** Under the assumptions of `UpdateAlwaysFailing` the run ends with the give-up warning. */
  lemma {:induction false} UpdateAlwaysFailingWarns(compose: Composer, tries: int, env: int -> UpdateAttempt)
    requires forall j :: tries <= j <= LastTry(tries) ==> compose(env(j).promo).Some?
    requires forall k :: tries <= k <= MaxTries ==> Fails(env(k).outcome)
    ensures var trace := UpdateRun(compose, tries, env);
      |trace| > 0 && trace[|trace| - 1] == Warn(UpdateGiveUpWarning)
    decreases Remaining(tries)
  {
    var m := compose(env(tries).promo);
    if tries <= MaxTries {
      var first := TryDelivery(env(tries).outcome, VersionJob(m.value));
      var rest := UpdateRun(compose, tries + 1, env);
      UpdateAlwaysFailingWarns(compose, tries + 1, env);
      UpdateRetriesOnFailure(compose, tries, env, m.value);
      LastThroughRetry(first, rest);
    } else {
      UpdateGivesUp(compose, tries, env);
    }
  }

  /**
   * When the versions differ in major or minor number the popup is never
   * suppressed; a browser that never accepts it sees exactly 500 attempts
   * from the first try, 501 promotion lookups, and the warning.
   */
  lemma NewReleaseAlwaysFailing(
    tr: Translator, v: VersionNumbers, styles: Option<string>,
    currentVersion: string, previousVersion: string, env: int -> UpdateAttempt)
    requires !SameRelease(v, currentVersion, previousVersion)
    requires forall k :: 1 <= k <= MaxTries ==> Fails(env(k).outcome)
    ensures var trace := UpdateRun(PopupComposer(tr, v, styles, currentVersion, previousVersion), 1, env);
      && Count(trace, TabLookup) == 500
      && Count(trace, Timer) == 500
      && Count(trace, NotificationLookup) == 501
      && trace[|trace| - 1] == Warn(UpdateGiveUpWarning)
  {
    var compose := PopupComposer(tr, v, styles, currentVersion, previousVersion);
    forall j | 1 <= j <= LastTry(1) ensures compose(env(j).promo).Some? {
      assert ApplicationUpdatedMessage(tr, v, styles, env(j).promo, currentVersion, previousVersion).Some?;
    }
    UpdateAlwaysFailing(compose, 1, env);
    UpdateAlwaysFailingWarns(compose, 1, env);
  }

  /**
   * A promotion found on every try keeps the popup from being suppressed,
   * whatever the versions; a browser that never accepts it sees exactly 500
   * attempts from the first try, 501 promotion lookups, and the warning.
   */
  lemma PromotedAlwaysFailing(
    tr: Translator, v: VersionNumbers, styles: Option<string>,
    currentVersion: string, previousVersion: string, env: int -> UpdateAttempt)
    requires forall j :: 1 <= j <= MaxTries + 1 ==> env(j).promo.Some?
    requires forall k :: 1 <= k <= MaxTries ==> Fails(env(k).outcome)
    ensures var trace := UpdateRun(PopupComposer(tr, v, styles, currentVersion, previousVersion), 1, env);
      && Count(trace, TabLookup) == 500
      && Count(trace, Timer) == 500
      && Count(trace, NotificationLookup) == 501
      && trace[|trace| - 1] == Warn(UpdateGiveUpWarning)
  {
    var compose := PopupComposer(tr, v, styles, currentVersion, previousVersion);
    forall j | 1 <= j <= LastTry(1) ensures compose(env(j).promo).Some? {
      assert env(j).promo.Some?;
    }
    UpdateAlwaysFailing(compose, 1, env);
    UpdateAlwaysFailingWarns(compose, 1, env);
  }

  /** The exact counts of `UpdateFailThenDeliver` carried through one failed update attempt. */
  lemma UpdateDeliveryCountsThroughRetry(first: seq<Effect>, rest: seq<Effect>, k: nat)
    requires Count(first, TabLookup) == 1 && Count(first, Timer) == 0
    requires Count(first, NotificationLookup) == 0 && Count(first, Warning) == 0
    requires && Count(rest, TabLookup) == k
             && Count(rest, Timer) == k - 1
             && Count(rest, NotificationLookup) == k
             && Count(rest, Warning) == 0
    ensures var trace := [GetCurrentNotification] + (first + ([SetTimeout(TriesTimeout)] + rest));
      && Count(trace, TabLookup) == k + 1
      && Count(trace, Timer) == k
      && Count(trace, NotificationLookup) == k + 1
      && Count(trace, Warning) == 0
  {
    var tail := first + ([SetTimeout(TriesTimeout)] + rest);
    CountNotificationFirst(tail, TabLookup);
    CountNotificationFirst(tail, Timer);
    CountNotificationFirst(tail, NotificationLookup);
    CountNotificationFirst(tail, Warning);
    CountRetry(first, rest, TabLookup);
    CountRetry(first, rest, Timer);
    CountRetry(first, rest, NotificationLookup);
    CountRetry(first, rest, Warning);
  }

  /**
   * A popup composed on every try, `k` failures below the ceiling, then a
   * delivery: `k + 1` promotion lookups and attempts, `k` retries and no
   * warning.
   */
  lemma {:induction false} UpdateFailThenDeliver(compose: Composer, tries: int, k: nat, env: int -> UpdateAttempt)
    requires forall j :: tries <= j <= tries + k ==> compose(env(j).promo).Some?
    requires tries + k <= MaxTries
    requires forall j :: tries <= j < tries + k ==> Fails(env(j).outcome)
    requires Delivers(env(tries + k).outcome)
    ensures var trace := UpdateRun(compose, tries, env);
      && Count(trace, TabLookup) == k + 1
      && Count(trace, Timer) == k
      && Count(trace, NotificationLookup) == k + 1
      && Count(trace, Warning) == 0
    decreases k
  {
    var m := compose(env(tries).promo);
    var first := TryDelivery(env(tries).outcome, VersionJob(m.value));
    if k > 0 {
      var rest := UpdateRun(compose, tries + 1, env);
      UpdateFailThenDeliver(compose, tries + 1, k - 1, env);
      UpdateRetriesOnFailure(compose, tries, env, m.value);
      UpdateDeliveryCountsThroughRetry(first, rest, k);
    } else {
      UpdateEndsWithoutFailure(compose, tries, env, m.value);
      CountNotificationFirst(first, TabLookup);
      CountNotificationFirst(first, Timer);
      CountNotificationFirst(first, NotificationLookup);
      CountNotificationFirst(first, Warning);
    }
  }

  /**
   * Under the assumptions of `UpdateFailThenDeliver` the run ends with the
   * send that went through: the popup composed on that try, to that tab.
   */
  lemma {:induction false} UpdateFailThenDeliverEnds(compose: Composer, tries: int, k: nat, env: int -> UpdateAttempt)
    requires forall j :: tries <= j <= tries + k ==> compose(env(j).promo).Some?
    requires tries + k <= MaxTries
    requires forall j :: tries <= j < tries + k ==> Fails(env(j).outcome)
    requires Delivers(env(tries + k).outcome)
    ensures var trace := UpdateRun(compose, tries, env);
      var o := env(tries + k).outcome;
      && |trace| > 0
      && trace[|trace| - 1] == SendMessage(o.tab.value.id.value, VersionUpdatedPopup(compose(env(tries + k).promo).value))
    decreases k
  {
    var m := compose(env(tries).promo);
    if k > 0 {
      var first := TryDelivery(env(tries).outcome, VersionJob(m.value));
      var rest := UpdateRun(compose, tries + 1, env);
      UpdateFailThenDeliverEnds(compose, tries + 1, k - 1, env);
      UpdateRetriesOnFailure(compose, tries, env, m.value);
      LastThroughRetry(first, rest);
    } else {
      UpdateEndsWithoutFailure(compose, tries, env, m.value);
    }
  }
}
