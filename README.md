# Toasts: alert and version-update popups of the browser extension

This project models the `Toasts` object of the extension's background page and proves properties of the model. `Toasts` does three things:

- It composes the texts of the two filter alerts: "filters enabled" and "filters updated".
- It composes the payload of the "version updated" popup. It chooses the update description from the two version numbers, and it suppresses the popup when no promotion is active and the release is the same.
- It delivers each popup to the active tab's content script. A delivery that throws, either because the tab lookup rejects or because the send rejects, is retried every 5000 ms with the tries counter one higher. Once the counter passes 500, the call gives up with a warning.

The model has four modules:

- `FilterSort`: the filter records and the two comparators the alerts sort them with. `Array.prototype.sort` is an in-place insertion sort on an `array` (`SortInPlace`), proved equal to the functional `SortSeq`. Only what holds for any conforming sort is claimed about `SortSeq`: it is a permutation of its input, and it is ordered under a consistent comparator.
- `ToastMessages`: the pure composition of the alert texts, of the update description and of the popup payload. The payload is `None` when the call returns before composing anything: no promotion is active and the major and minor numbers are the same.
- `ToastDelivery`: the retry behaviour, as traces of effects. The browser is an environment `env` that says, for each value of the tries counter, what that attempt meets. For the update popup it also gives the promotion that is active at that point. An attempt, its retry timer and the next attempt form the trace of a run: `AlertRun` for an alert, `UpdateRun` for the update popup. The update run is stated for any `Composer`, that is, any way of turning the promotion found into a popup. `PopupComposer` is the one `showApplicationUpdatedPopup` uses.
- `ToastsApi`: the class `Toasts`, with its `styles` field and one method per public operation. Each chain of retries, which the source runs through `setTimeout`, is a loop. Each method is proved to produce exactly the trace of the functional run.

The collaborators are function parameters. Their code is not part of this model:

- `translator.getMessage` is `Translator`. Its keys are the `MessageKey` enumeration. `Id` records each key's id for the reader; the translator is given the key itself.
- `BrowserUtils.getMajorVersionNumber` and `getMinorVersionNumber` are `VersionNumbers`.
- `browser.runtime.getURL` and `fetch` are the parameters of `Init`.
- `TabsApi.getActive`, `browser.tabs.sendMessage` and `notificationApi.getCurrentNotification` are the environment's answers.

The major and minor numbers are compared separately, so 5.1.0 → 5.2.0 selects the "major update" description (`MinorBumpSelectsMajorDescription`), and the "minor update" description is left for versions where neither number went up.

## Model

| member | source | states |
|---|---|---|
| ToastsApi.Toasts.constructor | Extension/src/background/api/ui/toasts.ts:17 | a new object holds no style sheet yet |
| ToastsApi.Toasts.Init | Extension/src/background/api/ui/toasts.ts:15-22 | `styles` becomes the text fetched from the runtime URL of `/assets/css/alert-popup.css` |
| ToastsApi.Toasts.SendToActiveTab | Extension/src/background/api/ui/toasts.ts:32-42 | one attempt looks up the active tab and sends only when `tab?.id` is truthy; it throws exactly when the lookup rejects, or when there was a tab to send to and the send rejects |
| ToastsApi.Toasts.AlertCall | Extension/src/background/api/ui/toasts.ts:24-47 | one call: past the ceiling it warns and ends; otherwise it attempts, and only a thrown attempt schedules the next call with the counter one higher |
| ToastsApi.Toasts.ShowAlertMessage | Extension/src/background/api/ui/toasts.ts:24-48 | the effects of the call and of all its retries are exactly `AlertRun` of the styles held, the title, the text and the starting counter |
| ToastsApi.Toasts.GetFiltersEnabledResultMessage | Extension/src/background/api/ui/toasts.ts:134-145 | the caller's array is left sorted in place by display number (`SortSeq`), and the result is `FiltersEnabledResult` of the original contents |
| ToastsApi.Toasts.GetFiltersUpdateResultMessage | Extension/src/background/api/ui/toasts.ts:147-187 | a missing list gives the error pair; the array is sorted in place only for a successful update; the result is `FiltersUpdateResult` of the original contents |
| ToastsApi.Toasts.ShowFiltersEnabledAlertMessage | Extension/src/background/api/ui/toasts.ts:50-54 | sorts the caller's array by display number and delivers the composed alert from the first try |
| ToastsApi.Toasts.ShowFiltersUpdatedAlertMessage | Extension/src/background/api/ui/toasts.ts:56-60 | sorts the caller's array only on success, and delivers the composed alert from the first try |
| ToastsApi.Toasts.UpdateCall | Extension/src/background/api/ui/toasts.ts:71-131 | one call: promotion lookup, suppression, ceiling, attempt; only a thrown attempt below the ceiling schedules the next call with the counter one higher |
| ToastsApi.Toasts.ShowApplicationUpdatedPopup | Extension/src/background/api/ui/toasts.ts:66-132 | the effects of the call and of all its retries are exactly `UpdateRun` of the popup composer for the two versions and the styles held |
| FilterSort.SortInPlace | Extension/src/background/api/ui/toasts.ts:137-138 | the array ends up holding `SortSeq` of what it held, under the comparator given |
| FilterSort.InsertAt | Extension/src/background/api/ui/toasts.ts:137-138 | one pass of the sort puts `a[i]` into the sorted prefix, as `Insert` does, and leaves the rest of the array alone |
| FilterSort.SortPermutation | Extension/src/background/api/ui/toasts.ts:167-173 | `SortSeq`, the model of the sort, rearranges the filters under either comparator and keeps their number |
| FilterSort.SortNames | Extension/src/background/api/ui/toasts.ts:167-175 | the names listed after sorting are the input filters' names, rearranged |
| FilterSort.SortSorted | Extension/src/background/api/ui/toasts.ts:137-138 | under `a.displayNumber - b.displayNumber` the result is in non-decreasing display-number order |
| FilterSort.SortSameGroup | Extension/src/background/api/ui/toasts.ts:168-173 | if every filter is in one group, the group-aware comparator sorts exactly as the display-number comparator, so the result is display-number ordered |
| FilterSort.Names | Extension/src/background/api/ui/toasts.ts:174 | one name per filter |
| FilterSort.NamesAt | Extension/src/background/api/ui/toasts.ts:174 | name `i` is the name of filter `i`, as `.map(filter => `${filter.name}`)` gives |
| FilterSort.Compare | Extension/src/background/api/ui/toasts.ts:138-173 | under either comparator the result is positive exactly when the first filter's display number is larger, except that the group-aware comparator gives 0 for filters of different groups |
| FilterSort.InsertPermutation | Extension/src/background/api/ui/toasts.ts:137-138 | one step of the sort adds the inserted filter to the sorted part and loses nothing |
| FilterSort.InsertSorted | Extension/src/background/api/ui/toasts.ts:137-138 | under the display-number comparator, one step of the sort keeps the sorted part in display-number order |
| ToastMessages.EnabledLines | Extension/src/background/api/ui/toasts.ts:139 | one translated line per filter; line `i` is the translation of the filter-enabled key for filter `i`'s name |
| ToastMessages.FiltersEnabledResult | Extension/src/background/api/ui/toasts.ts:134-145 | the fixed title, and one line per filter given |
| ToastMessages.FiltersEnabledResultSpec | Extension/src/background/api/ui/toasts.ts:134-145 | fixed title; as many lines as filters; the lines follow a rearrangement of the input that is display-number ordered |
| ToastMessages.Join | Extension/src/background/api/ui/toasts.ts:175 | no names give the empty string and one name gives itself; more names begin with the first name and the separator, and end with the last name |
| ToastMessages.FiltersUpdateResult | Extension/src/background/api/ui/toasts.ts:147-187 | a single text line; the error title when the update failed or there is no list, the empty title otherwise |
| ToastMessages.FiltersUpdateFailure | Extension/src/background/api/ui/toasts.ts:151-156 | a failed update, or no list at all, gives the error title and error text |
| ToastMessages.FiltersUpdateNoneFound | Extension/src/background/api/ui/toasts.ts:158-165 | a successful update of an empty list gives an empty title and the "not found" text |
| ToastMessages.FiltersUpdateFound | Extension/src/background/api/ui/toasts.ts:158-186 | empty title; the names joined by `", "`, a space, and the singular suffix for one filter or the plural suffix for more; the names are the input's, rearranged; a single-group list is display-number ordered |
| ToastMessages.FiltersUpdateSingle | Extension/src/background/api/ui/toasts.ts:167-181 | one filter gives its name, a space and the singular suffix |
| ToastMessages.UpdateDescriptionKey | Extension/src/background/api/ui/toasts.ts:192-202 | the key is one of the two description keys, and it is the "major" key if and only if the major number went up or the minor number went up |
| ToastMessages.GetUpdateDescriptionMessage | Extension/src/background/api/ui/toasts.ts:192-202 | the translation of the "major" key when the major or the minor number went up, and of the "minor" key otherwise |
| ToastMessages.MinorBumpSelectsMajorDescription | Extension/src/background/api/ui/toasts.ts:193-198 | the same major number with a higher minor number (5.1 to 5.2) selects the "major" key |
| ToastMessages.DowngradeSelectsMajorDescription | Extension/src/background/api/ui/toasts.ts:193-198 | a lower major number with a higher minor number (6.0 to 5.1) still selects the "major" key |
| ToastMessages.ApplicationUpdatedMessage | Extension/src/background/api/ui/toasts.ts:71-114 | no popup if and only if no promotion is active and both version numbers match; `showPromoNotification` says whether a promotion was found |
| ToastMessages.PopupComposer | Extension/src/background/api/ui/toasts.ts:71-114 | given the promotion a call finds, the composer yields no popup exactly when there is no promotion and the release is the same |
| ToastMessages.VersionPopupFields | Extension/src/background/api/ui/toasts.ts:84-113 | a structured promotion supplies the offer, description and button text, and its URL with `&from=version_popup` as the button link; otherwise the default offer, an empty description, the default button text and link; title, description, changelog link and style sheet as in the source |
| ToastMessages.MinorDescriptionOnlyOnDowngrade | Extension/src/background/api/ui/toasts.ts:72-103 | without a promotion, a shown popup with the "minor" description comes only from a downgrade: neither number went up and one went down |
| ToastDelivery.TryDelivery | Extension/src/background/api/ui/toasts.ts:32-42 | one attempt makes one tab lookup, no timer and no warning, and one send exactly when the lookup found a tab with an id |
| ToastDelivery.TypeTellsPopupsApart | Extension/src/background/api/ui/toasts.ts:36-98 | the `type` field of a message says on its own whether it is the alert or the version popup |
| ToastDelivery.AlertRun | Extension/src/background/api/ui/toasts.ts:24-47 | a run begins with the warning past the ceiling and with the tab lookup below it |
| ToastDelivery.UpdateRun | Extension/src/background/api/ui/toasts.ts:66-131 | every call of the update popup begins by looking up the current promotion |
| ToastDelivery.EveryMeans | Extension/src/background/api/ui/toasts.ts:24-131 | `Every(trace, c)` holds exactly when every effect of the trace satisfies claim `c` |
| ToastDelivery.AlertGivesUp | Extension/src/background/api/ui/toasts.ts:26-30 | past the ceiling the call only warns |
| ToastDelivery.AlertNoTarget | Extension/src/background/api/ui/toasts.ts:32-42 | a lookup that finds no tab with an id ends the run: one lookup, no send, no retry |
| ToastDelivery.AlertEndsWithoutFailure | Extension/src/background/api/ui/toasts.ts:32-42 | an attempt that does not throw ends the run with that attempt |
| ToastDelivery.AlertRetriesOnFailure | Extension/src/background/api/ui/toasts.ts:43-47 | a thrown attempt is followed by exactly one timer of 5000 ms and the run from the counter one higher |
| ToastDelivery.AlertRunBounds | Extension/src/background/api/ui/toasts.ts:24-47 | whatever the browser does, there are at most as many attempts as the ceiling leaves, and at most one retry per attempt |
| ToastDelivery.AlertRunContents | Extension/src/background/api/ui/toasts.ts:35-46 | every retry waits 5000 ms, and every send carries the requested title, text and the styles held |
| ToastDelivery.AlertAlwaysFailing | Extension/src/background/api/ui/toasts.ts:24-47 | if every attempt throws, there is one attempt and one retry per counter value up to 500, and the run ends with the warning |
| ToastDelivery.AlertAlwaysFailingFromFirstTry | Extension/src/background/api/ui/toasts.ts:11-47 | from the first try, a browser that never accepts sees exactly 500 attempts and 500 retries |
| ToastDelivery.AlertFailThenDeliver | Extension/src/background/api/ui/toasts.ts:24-47 | `k` thrown attempts then a delivery give `k + 1` attempts, `k` retries and no warning |
| ToastDelivery.AlertFailThenDeliverEnds | Extension/src/background/api/ui/toasts.ts:32-42 | in the same situation the run ends with the send of the alert to that tab |
| ToastDelivery.UpdateRetriesOnFailure | Extension/src/background/api/ui/toasts.ts:116-131 | a composed popup whose attempt throws below the ceiling is followed by one 5000 ms timer and the whole call again, counter one higher |
| ToastDelivery.UpdateGivesUp | Extension/src/background/api/ui/toasts.ts:117-121 | past the ceiling a composed popup is not sent; the call looks up the promotion and warns |
| ToastDelivery.UpdateEndsWithoutFailure | Extension/src/background/api/ui/toasts.ts:122-126 | an attempt that does not throw ends the run |
| ToastDelivery.UpdateSuppressed | Extension/src/background/api/ui/toasts.ts:71-82 | a call that composes nothing makes only the promotion lookup, whatever the counter |
| ToastDelivery.SameReleaseSuppressed | Extension/src/background/api/ui/toasts.ts:71-82 | with no promotion and the same major and minor numbers, nothing is sent, scheduled or logged, even past the ceiling |
| ToastDelivery.UpdateRunBounds | Extension/src/background/api/ui/toasts.ts:116-131 | for any composer and browser, there are at most as many attempts as the ceiling leaves, and at most one retry per attempt |
| ToastDelivery.UpdateRunDelays | Extension/src/background/api/ui/toasts.ts:128-130 | every retry of the update popup waits 5000 ms |
| ToastDelivery.UpdateRunSends | Extension/src/background/api/ui/toasts.ts:123-126 | when every composable popup has a given description and style sheet, so does every popup that is sent |
| ToastDelivery.PopupSends | Extension/src/background/api/ui/toasts.ts:97-126 | every popup sent carries the description chosen from the two versions and the styles held |
| ToastDelivery.UpdateAlwaysFailing | Extension/src/background/api/ui/toasts.ts:66-131 | a popup composed on every try below the ceiling, with the promotion found on that try, and every attempt throwing, give one attempt and one retry per counter value up to the ceiling, and one promotion lookup more |
| ToastDelivery.UpdateAlwaysFailingWarns | Extension/src/background/api/ui/toasts.ts:117-121 | in the same situation the run ends with the give-up warning |
| ToastDelivery.NewReleaseAlwaysFailing | Extension/src/background/api/ui/toasts.ts:66-131 | for a new release, a browser that never accepts sees 500 attempts, 500 retries, 501 promotion lookups and the warning |
| ToastDelivery.PromotedAlwaysFailing | Extension/src/background/api/ui/toasts.ts:71-131 | with a promotion found on every try, whatever the versions, a browser that never accepts sees 500 attempts, 500 retries, 501 promotion lookups and the warning |
| ToastDelivery.UpdateFailThenDeliver | Extension/src/background/api/ui/toasts.ts:66-131 | a popup composed on each of the tries, `k` thrown attempts then a delivery give `k + 1` lookups and attempts, `k` retries, no warning |
| ToastDelivery.UpdateFailThenDeliverEnds | Extension/src/background/api/ui/toasts.ts:122-126 | in the same situation the run ends with the send of that try's popup to that tab |

## Left out

- Asynchrony and timing: the model does not wait for the 5000 ms timers and does not interleave them with other work. `ShowAlertMessage` and `ShowApplicationUpdatedPopup` return the whole trace, including the effects of every retry. The source returns after the first attempt and leaves the retries to timers.
- An `Init` that finishes while retries are pending: the source reads `this.styles` again on each retry, but the model reads it once per top-level call.
- A rejection of `notificationApi.getCurrentNotification()`: it happens outside the `try` and schedules no retry. The model has the lookup always answer. The environment gives each call's promotion.
- Exceptions thrown by `TabsApi.isAdguardExtensionTab`: its verdict is a field of the tab the environment reports.
- The code of the translator, of the version-number extraction, of `browser.runtime.getURL` and of `fetch`: these are function parameters. A rejection of `fetch` in `init` is not modelled.
- `log.warn` output: it appears only as a `Warn` effect carrying the source's text.
- The algorithm of the engine's `Array.prototype.sort`: the model uses insertion sort. Only properties every conforming sort has are stated: permutation, display-number order under the first comparator, and display-number order within a single group under the second. The second comparator returns 0 across groups, so the model states no order across groups.
- FilterSort.SortInPlace: it states the order of the result only through `SortSeq`, the insertion sort. An engine's own algorithm may order filters of different groups differently.
- The `type` field of the messages is `Message.Type()`. The only property stated about it is `TypeTellsPopupsApart`: the field alone tells the alert from the version popup.
- JavaScript numbers: `displayNumber`, `groupId`, the tab id and the version numbers are unbounded integers in the model. The source's IEEE doubles, with their rounding above 2^53 and their NaN, are not modelled.
- The sort's stability: no property depends on it, and none is stated.
