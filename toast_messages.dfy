/**
 * The pure half of the toasts: the title and text of the two filter alerts,
 * the choice of the version-update description, and the payload of the
 * version-updated popup, including the rule that suppresses it.
 *
 * The translator and the version-number extraction are collaborators whose
 * code is not part of this model; they enter as function parameters.
 */
module ToastMessages {
  import opened Wrappers
  import opened FilterSort

  /** The message ids the toasts pass to `translator.getMessage`; `Id` spells each one. */
  datatype MessageKey =
    | FilterEnabledTitleKey
    | FilterEnabledDescKey
    | UpdateTitleErrorKey
    | UpdateErrorKey
    | UpdateNotFoundKey
    | UpdateFiltersKey
    | UpdateFilterKey
    | DescriptionMajorKey
    | DescriptionMinorKey
    | OfferKey
    | OfferButtonTextKey
    | VersionTitleKey
    | ChangelogTextKey
    | DisableNotificationKey

  /**
   * The id of each key in the locale catalogue. It documents the mapping
   * only: the translator is given the key itself, so no property below
   * depends on how an id is spelled.
   */
  function Id(k: MessageKey): string {
    match k
    case FilterEnabledTitleKey => "alert_popup_filter_enabled_title"
    case FilterEnabledDescKey => "alert_popup_filter_enabled_desc"
    case UpdateTitleErrorKey => "options_popup_update_title_error"
    case UpdateErrorKey => "options_popup_update_error"
    case UpdateNotFoundKey => "options_popup_update_not_found"
    case UpdateFiltersKey => "options_popup_update_filters"
    case UpdateFilterKey => "options_popup_update_filter"
    case DescriptionMajorKey => "options_popup_version_update_description_major"
    case DescriptionMinorKey => "options_popup_version_update_description_minor"
    case OfferKey => "options_popup_version_update_offer"
    case OfferButtonTextKey => "options_popup_version_update_offer_button_text"
    case VersionTitleKey => "options_popup_version_update_title_text"
    case ChangelogTextKey => "options_popup_version_update_changelog_text"
    case DisableNotificationKey => "options_popup_version_update_disable_notification"
  }

  /** `translator.getMessage(key, params)`; a call without params passes `NoParams`. */
  type Translator = (MessageKey, map<string, string>) -> string

  const NoParams: map<string, string> := map[]

  /** `BrowserUtils.getMajorVersionNumber` and `getMinorVersionNumber`. */
  datatype VersionNumbers = VersionNumbers(major: string -> int, minor: string -> int)

  // Fixed links of the version-updated popup
  const DefaultOfferButtonHref :=
    "https://link.adtidy.org/forward.html?action=learn_about_adguard&from=version_popup&app=browser_extension"
  const ChangelogHref :=
    "https://link.adtidy.org/forward.html?action=github_version_popup&from=version_popup&app=browser_extension"
  const PromoHrefSuffix := "&from=version_popup"

  /** An alert's text: `string | string[]`. */
  datatype AlertText = Line(line: string) | Lines(lines: seq<string>)

  /** The `{ title, text }` pair the filter alerts are shown with. */
  datatype AlertMessage = AlertMessage(title: string, text: AlertText)

  // ----- Filters-enabled alert -----

  /** The line shown for one enabled filter. */
  function EnabledLine(tr: Translator, f: FilterMetadata): string {
    tr(FilterEnabledDescKey, map["filter_name" := f.name])
  }

  function EnabledLines(tr: Translator, fs: seq<FilterMetadata>): (r: seq<string>)
    ensures |r| == |fs|
    ensures forall i :: 0 <= i < |fs| ==> r[i] == EnabledLine(tr, fs[i])
  {
    seq(|fs|, i requires 0 <= i < |fs| => EnabledLine(tr, fs[i]))
  }

  /** What `getFiltersEnabledResultMessage` returns for the filters it was given. */
  function FiltersEnabledResult(tr: Translator, filters: seq<FilterMetadata>): (r: AlertMessage)
    ensures r.title == tr(FilterEnabledTitleKey, NoParams)
    ensures r.text.Lines? && |r.text.lines| == |filters|
  {
    SortPermutation(ByDisplayNumber, filters);
    AlertMessage(
      tr(FilterEnabledTitleKey, NoParams),
      Lines(EnabledLines(tr, SortSeq(ByDisplayNumber, filters))))
  }

  /**
   * The filters-enabled alert has the fixed title and one line per filter;
   * the lines name the filters of a rearrangement of the input that is in
   * non-decreasing display-number order.
   */
  lemma FiltersEnabledResultSpec(tr: Translator, filters: seq<FilterMetadata>)
    ensures var m := FiltersEnabledResult(tr, filters);
      var order := SortSeq(ByDisplayNumber, filters);
      && m.title == tr(FilterEnabledTitleKey, NoParams)
      && m.text.Lines?
      && |m.text.lines| == |filters| == |order|
      && multiset(order) == multiset(filters)
      && SortedByDisplayNumber(order)
      && (forall i :: 0 <= i < |order| ==> m.text.lines[i] == EnabledLine(tr, order[i]))
  {
    SortPermutation(ByDisplayNumber, filters);
    SortSorted(filters);
  }

  // ----- Filters-updated alert -----

  /** `names.join(sep)`. */
  function Join(names: seq<string>, sep: string): (r: string)
    ensures names == [] ==> r == ""
    ensures |names| == 1 ==> r == names[0]
    ensures |names| > 1 ==> names[0] + sep <= r
    ensures names != [] ==> |names[|names| - 1]| <= |r| && r[|r| - |names[|names| - 1]|..] == names[|names| - 1]
    decreases |names|
  {
    if names == [] then ""
    else if |names| == 1 then names[0]
    else
      var rest := Join(names[1..], sep);
      var last := names[|names| - 1];
      assert names[1..][|names[1..]| - 1] == last;
      assert (names[0] + sep + rest)[|names[0] + sep + rest| - |last|..] == rest[|rest| - |last|..];
      names[0] + sep + rest
  }

  /** The key of the suffix after the names: singular for one filter, plural for more. */
  function UpdatedSuffixKey(count: nat): MessageKey {
    if count > 1 then UpdateFiltersKey else UpdateFilterKey
  }

  /**
   * What `getFiltersUpdateResultMessage` returns; `filters` is `None` when
   * the caller passed no list.
   */
  function FiltersUpdateResult(tr: Translator, success: bool, filters: Option<seq<FilterMetadata>>): (r: AlertMessage)
    ensures r.text.Line?
    ensures r.title == (if !success || filters.None? then tr(UpdateTitleErrorKey, NoParams) else "")
  {
    if !success || filters.None? then
      AlertMessage(tr(UpdateTitleErrorKey, NoParams), Line(tr(UpdateErrorKey, NoParams)))
    else if |filters.value| == 0 then
      AlertMessage("", Line(tr(UpdateNotFoundKey, NoParams)))
    else
      var names := Names(SortSeq(ByGroupThenDisplayNumber, filters.value));
      AlertMessage("", Line(Join(names, ", ") + " " + tr(UpdatedSuffixKey(|filters.value|), NoParams)))
  }

  /** A failed update, or one without a list, gives the fixed error pair. */
  lemma FiltersUpdateFailure(tr: Translator, success: bool, filters: Option<seq<FilterMetadata>>)
    requires !success || filters.None?
    ensures FiltersUpdateResult(tr, success, filters)
         == AlertMessage(tr(UpdateTitleErrorKey, NoParams), Line(tr(UpdateErrorKey, NoParams)))
  {
  }

  /** A successful update of no filters has an empty title and the "not found" text. */
  lemma FiltersUpdateNoneFound(tr: Translator)
    ensures FiltersUpdateResult(tr, true, Some([])) == AlertMessage("", Line(tr(UpdateNotFoundKey, NoParams)))
  {
  }

  /**
   * A successful update of some filters has an empty title and the text
   * "<names joined by ', '> <suffix>", singular suffix for one filter and
   * plural for more; the names are those of the input filters, rearranged,
   * and when every filter is in one group they follow display-number order.
   * Filters of different groups compare equal, so nothing is said about the
   * order across groups.
   */
  lemma FiltersUpdateFound(tr: Translator, filters: seq<FilterMetadata>)
    requires |filters| > 0
    ensures var m := FiltersUpdateResult(tr, true, Some(filters));
      var order := SortSeq(ByGroupThenDisplayNumber, filters);
      && m.title == ""
      && m.text == Line(Join(Names(order), ", ") + " " + tr(UpdatedSuffixKey(|filters|), NoParams))
      && (|filters| == 1 ==> UpdatedSuffixKey(|filters|) == UpdateFilterKey)
      && (|filters| > 1 ==> UpdatedSuffixKey(|filters|) == UpdateFiltersKey)
      && multiset(order) == multiset(filters)
      && multiset(Names(order)) == multiset(Names(filters))
      && (forall g :: AllInGroup(filters, g) ==> SortedByDisplayNumber(order))
  {
    SortPermutation(ByGroupThenDisplayNumber, filters);
    SortNames(ByGroupThenDisplayNumber, filters);
    forall g | AllInGroup(filters, g)
      ensures SortedByDisplayNumber(SortSeq(ByGroupThenDisplayNumber, filters))
    {
      SortSameGroup(filters, g);
    }
  }

  /** With exactly one filter the text is its name, a space and the singular suffix. */
  lemma FiltersUpdateSingle(tr: Translator, f: FilterMetadata)
    ensures FiltersUpdateResult(tr, true, Some([f])).text == Line(f.name + " " + tr(UpdateFilterKey, NoParams))
  {
    assert [f][..0] == [];
    assert Names(SortSeq(ByGroupThenDisplayNumber, [f])) == [f.name];
  }

  // ----- Version-updated popup -----

  /**
   * The key `getUpdateDescriptionMessage` translates: the "major" key when
   * the major number or the minor number went up, each compared on its own.
   */
  function UpdateDescriptionKey(v: VersionNumbers, currentVersion: string, previousVersion: string): (key: MessageKey)
    ensures key == DescriptionMajorKey || key == DescriptionMinorKey
    ensures key == DescriptionMajorKey <==>
      v.major(currentVersion) > v.major(previousVersion) || v.minor(currentVersion) > v.minor(previousVersion)
  {
    if v.major(currentVersion) > v.major(previousVersion) || v.minor(currentVersion) > v.minor(previousVersion)
    then DescriptionMajorKey
    else DescriptionMinorKey
  }

  /** `getUpdateDescriptionMessage`. */
  function GetUpdateDescriptionMessage(tr: Translator, v: VersionNumbers, currentVersion: string, previousVersion: string): (r: string)
    ensures r == tr(if v.major(currentVersion) > v.major(previousVersion) || v.minor(currentVersion) > v.minor(previousVersion)
                    then DescriptionMajorKey else DescriptionMinorKey, NoParams)
  {
    tr(UpdateDescriptionKey(v, currentVersion, previousVersion), NoParams)
  }

  /**
   * A raised minor number selects the "major" description even when the
   * major number is unchanged (5.1 to 5.2).
   */
  lemma MinorBumpSelectsMajorDescription(v: VersionNumbers, currentVersion: string, previousVersion: string)
    requires v.major(currentVersion) == v.major(previousVersion)
    requires v.minor(currentVersion) > v.minor(previousVersion)
    ensures UpdateDescriptionKey(v, currentVersion, previousVersion) == DescriptionMajorKey
  {
  }

  /**
   * Because the two numbers are compared independently, a downgrade whose
   * minor number is higher (6.0 to 5.1) still selects the "major" description.
   */
  lemma DowngradeSelectsMajorDescription(v: VersionNumbers, currentVersion: string, previousVersion: string)
    requires v.major(currentVersion) < v.major(previousVersion)
    requires v.minor(currentVersion) > v.minor(previousVersion)
    ensures UpdateDescriptionKey(v, currentVersion, previousVersion) == DescriptionMajorKey
  {
  }

  /** The text of a promotional notification: a plain string or a structured offer. */
  datatype PromoText = PlainText(text: string) | OfferText(title: string, desc: string, btn: string)

  /** `notificationApi.getCurrentNotification()` when one is active. */
  datatype PromoNotification = PromoNotification(url: string, text: PromoText)

  /** The fields of the `show-version-updated-popup` message besides its type. */
  datatype VersionPopup = VersionPopup(
    title: string,
    description: string,
    changelogHref: string,
    changelogText: string,
    showPromoNotification: bool,
    offer: string,
    offerDesc: string,
    offerButtonText: string,
    offerButtonHref: string,
    disableNotificationText: string,
    alertStyles: Option<string>)

  /** Same major and same minor number: nothing new to announce. */
  predicate SameRelease(v: VersionNumbers, currentVersion: string, previousVersion: string) {
    v.major(currentVersion) == v.major(previousVersion) && v.minor(currentVersion) == v.minor(previousVersion)
  }

  /**
   * The popup that one call of `showApplicationUpdatedPopup` composes, or
   * `None` when it returns without sending anything: no promotion is active
   * and the release is the same.
   */
  function ApplicationUpdatedMessage(
    tr: Translator, v: VersionNumbers, styles: Option<string>,
    promo: Option<PromoNotification>, currentVersion: string, previousVersion: string): (r: Option<VersionPopup>)
    ensures r.None? <==> promo.None? && SameRelease(v, currentVersion, previousVersion)
    ensures r.Some? ==> r.value.showPromoNotification == promo.Some?
  {
    if promo.None? && SameRelease(v, currentVersion, previousVersion) then None
    else
      var (offer, offerDesc, offerButtonText, offerButtonHref) :=
        if promo.Some? && promo.value.text.OfferText? then
          (promo.value.text.title, promo.value.text.desc, promo.value.text.btn, promo.value.url + PromoHrefSuffix)
        else
          (tr(OfferKey, NoParams), "", tr(OfferButtonTextKey, NoParams), DefaultOfferButtonHref);
      Some(VersionPopup(
        tr(VersionTitleKey, map["current_version" := currentVersion]),
        GetUpdateDescriptionMessage(tr, v, currentVersion, previousVersion),
        ChangelogHref,
        tr(ChangelogTextKey, NoParams),
        promo.Some?,
        offer, offerDesc, offerButtonText, offerButtonHref,
        tr(DisableNotificationKey, NoParams),
        styles))
  }

  /** How one call composes its popup from the promotion it found, or `None` when it returns early. */
  type Composer = Option<PromoNotification> -> Option<VersionPopup>

  /** `ApplicationUpdatedMessage` with all but the promotion fixed: the composer of one run. */
  function PopupComposer(
    tr: Translator, v: VersionNumbers, styles: Option<string>, currentVersion: string, previousVersion: string): (r: Composer)
    ensures forall promo :: r(promo).None? <==> promo.None? && SameRelease(v, currentVersion, previousVersion)
  {
    promo => ApplicationUpdatedMessage(tr, v, styles, promo, currentVersion, previousVersion)
  }

  /**
   * The fields of a composed popup: the offer of a structured promotion,
   * with the campaign link under the promotion's own URL, or else the
   * default offer; the title, the description, the changelog link and the
   * style sheet in every case.
   */
  lemma VersionPopupFields(
    tr: Translator, v: VersionNumbers, styles: Option<string>,
    promo: Option<PromoNotification>, currentVersion: string, previousVersion: string)
    requires ApplicationUpdatedMessage(tr, v, styles, promo, currentVersion, previousVersion).Some?
    ensures var p := ApplicationUpdatedMessage(tr, v, styles, promo, currentVersion, previousVersion).value;
      && (promo.Some? && promo.value.text.OfferText? ==>
            && p.offer == promo.value.text.title
            && p.offerDesc == promo.value.text.desc
            && p.offerButtonText == promo.value.text.btn
            && p.offerButtonHref == promo.value.url + PromoHrefSuffix)
      && (promo.None? || promo.value.text.PlainText? ==>
            && p.offer == tr(OfferKey, NoParams)
            && p.offerDesc == ""
            && p.offerButtonText == tr(OfferButtonTextKey, NoParams)
            && p.offerButtonHref == DefaultOfferButtonHref)
      && p.title == tr(VersionTitleKey, map["current_version" := currentVersion])
      && p.description == GetUpdateDescriptionMessage(tr, v, currentVersion, previousVersion)
      && p.changelogHref == ChangelogHref
      && p.changelogText == tr(ChangelogTextKey, NoParams)
      && p.disableNotificationText == tr(DisableNotificationKey, NoParams)
      && p.alertStyles == styles
  {
  }

  /**
   * Without a promotion, a popup that is shown with the "minor" description
   * can only come from a downgrade: neither number went up and one went down.
   * An actual upgrade is always announced with the "major" description.
   */
  lemma MinorDescriptionOnlyOnDowngrade(
    tr: Translator, v: VersionNumbers, styles: Option<string>, currentVersion: string, previousVersion: string)
    requires ApplicationUpdatedMessage(tr, v, styles, None, currentVersion, previousVersion).Some?
    requires UpdateDescriptionKey(v, currentVersion, previousVersion) == DescriptionMinorKey
    ensures v.major(currentVersion) <= v.major(previousVersion)
    ensures v.minor(currentVersion) <= v.minor(previousVersion)
    ensures v.major(currentVersion) < v.major(previousVersion) || v.minor(currentVersion) < v.minor(previousVersion)
  {
  }
}
