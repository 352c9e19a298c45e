/**
 * The variable transformer of src/utils/transformers.ts: the bag of string
 * variables a server announces is routed key by key into typed fields of a
 * view, dropped, or passed through; the three constructors of a server view
 * fill defaults and then let the processed variables override them.
 *
 * The helpers of src/utils/serverUtils.ts and `Intl.getCanonicalLocales` are
 * not part of this model: they are the fields of a `ServerUtils` value, so
 * every property below holds whatever those helpers compute.
 */
module Transformers {
  import opened Wrappers
  import opened Strings
  import opened Seqs
  import ColorCodes

  const DefaultServerLocale := "root-AQ"
  const DefaultServerLocaleCountry := "AQ"

  /** The foreign helpers the transformer calls. `canonicalLocale` is
      `Intl.getCanonicalLocales(l)[0]`, `None` where that call throws. */
  datatype ServerUtils = ServerUtils(
    filterProjectName: string -> string,
    filterProjectDesc: string -> string,
    filterTag: string -> bool,
    hasPrivateConnectEndpoint: Option<seq<string>> -> bool,
    canonicalLocale: string -> Option<string>,
    normalizeSearchString: string -> string)

  /** `arrayAt(array, index)`: a negative index counts from the end. */
  function ArrayAt<T>(a: seq<T>, index: int): (r: Option<T>)
    ensures r.Some? <==> -|a| <= index < |a|
    ensures r.Some? ==> r.value == a[index % |a|]
  {
    if index < 0 then
      if |a| + index >= 0 then Some(a[|a| + index]) else None
    else if index < |a| then Some(a[index])
    else None
  }

  /** Index `-k` is index `|a| - k`: the two ways of naming an element agree. */
  lemma ArrayAtFromEnd<T>(a: seq<T>, k: int)
    requires 0 < k <= |a|
    ensures ArrayAt(a, -k) == ArrayAt(a, |a| - k) == Some(a[|a| - k])
  {
    assert (-k) % |a| == |a| - k;
  }

  /** `getCanonicalLocale(locale)`: underscores become hyphens before the
      locale is canonicalised, and a locale that cannot be canonicalised
      becomes `root-AQ`. */
  function CanonicalLocale(u: ServerUtils, locale: string): (r: string)
    ensures u.canonicalLocale(ReplaceChar(locale, '_', '-')).None? ==> r == DefaultServerLocale
    ensures u.canonicalLocale(ReplaceChar(locale, '_', '-')).Some? ==>
      r == u.canonicalLocale(ReplaceChar(locale, '_', '-')).value
  {
    match u.canonicalLocale(ReplaceChar(locale, '_', '-'))
    case Some(l) => l
    case None => DefaultServerLocale
  }

  /** `arrayAt(locale.split('-'), -1) || '??'`: the text after the last hyphen,
      or `??` when that text is empty. */
  function LocaleCountry(locale: string): (country: string)
    ensures country != ""
    ensures '-' !in country
    ensures country == "??" || (|country| <= |locale| && country == locale[|locale| - |country|..])
  {
    var parts := Split(locale, '-');
    SplitLast(locale, '-');
    ArrayAtFromEnd(parts, 1);
    var last := ArrayAt(parts, -1);
    if last.Some? && last.value != "" then last.value else "??"
  }

  /** The country is the text after the last hyphen, `??` when that is empty. */
  lemma LocaleCountryAfterHyphen(language: string, rest: string)
    requires '-' !in rest
    ensures LocaleCountry(language + "-" + rest) == if rest == "" then "??" else rest
  {
    SplitSuffix(language, rest, '-');
    var parts := Split(language + "-" + rest, '-');
    ArrayAtFromEnd(parts, 1);
  }

  /** A locale without a hyphen is its own country. */
  lemma LocaleCountryNoHyphen(locale: string)
    requires '-' !in locale
    ensures LocaleCountry(locale) == if locale == "" then "??" else locale
  {
    SplitNoSep(locale, '-');
    ArrayAtFromEnd(Split(locale, '-'), 1);
  }

  /** The default locale names the default country. */
  lemma DefaultLocaleCountry()
    ensures LocaleCountry(DefaultServerLocale) == DefaultServerLocaleCountry
  {
    assert DefaultServerLocale == "root" + "-" + "AQ";
    LocaleCountryAfterHyphen("root", "AQ");
  }

  /** `tag.trim().toLowerCase()`. */
  function NormalizeTag(tag: string): (r: string)
    ensures forall i :: 0 <= i < |r| ==> !IsUpper(r[i])
    ensures r == [] || (!IsJsWhitespace(r[0]) && !IsJsWhitespace(r[|r| - 1]))
  {
    var t := Trim(tag);
    LowerCharWhitespace();
    ToLower(t)
  }

  /** Every comma-separated part of `value`, normalised, in order. */
  function NormalizedParts(value: string): (r: seq<string>)
    ensures |r| == |Split(value, ',')|
    ensures forall k :: 0 <= k < |r| ==> r[k] == NormalizeTag(Split(value, ',')[k])
  {
    var parts := Split(value, ',');
    seq(|parts|, k requires 0 <= k < |parts| => NormalizeTag(parts[k]))
  }

  /** `[...new Set(value.split(',').map(t => t.trim().toLowerCase()).filter(filterServerTag))]`:
      the normalised parts the filter accepts, each once, at its first occurrence. */
  function ParseTags(u: ServerUtils, value: string): (tags: seq<string>)
    ensures NoDuplicates(tags)
    ensures forall t :: t in tags <==> t in NormalizedParts(value) && u.filterTag(t)
    ensures |tags| <= |Split(value, ',')|
  {
    var kept := Filter(NormalizedParts(value), u.filterTag);
    forall t ensures t in kept <==> t in NormalizedParts(value) && u.filterTag(t) {
      FilterMembership(NormalizedParts(value), u.filterTag, t);
    }
    Dedup(kept)
  }

  /** The tags come in the order in which each first appears among the
      normalised parts. */
  lemma ParseTagsOrder(u: ServerUtils, value: string, i: nat, j: nat)
    requires i < j < |ParseTags(u, value)|
    ensures ParseTags(u, value)[i] in NormalizedParts(value)
    ensures ParseTags(u, value)[j] in NormalizedParts(value)
    ensures IndexOf(NormalizedParts(value), ParseTags(u, value)[i])
          < IndexOf(NormalizedParts(value), ParseTags(u, value)[j])
  {
    var parts := NormalizedParts(value);
    var kept := Filter(parts, u.filterTag);
    var tags := ParseTags(u, value);
    assert tags == DedupFrom(kept, {});
    DedupOrder(kept, {}, i, j);
    FilterFirstOrder(parts, u.filterTag, tags[i], tags[j]);
  }

  /** The conversions the `switch` applies to a value before it stores it:
      the canonical form of a locale, the country a canonical locale names,
      and the tag list of a `tags` value. The routing below is stated for
      any conversions; `ConversionsOf` gives the ones the source uses. */
  datatype Conversions = Conversions(
    canonicalLocale: string -> string,
    localeCountry: string -> string,
    parseTags: string -> seq<string>)

  /** `getCanonicalLocale`, `arrayAt(locale.split('-'), -1) || '??'` and the
      tag parser of the source. */
  function ConversionsOf(u: ServerUtils): (c: Conversions)
    ensures forall l :: c.canonicalLocale(l) == CanonicalLocale(u, l)
    ensures forall l :: c.localeCountry(l) == LocaleCountry(l)
    ensures forall t :: c.parseTags(t) == ParseTags(u, t)
  {
    Conversions(l => CanonicalLocale(u, l), LocaleCountry, t => ParseTags(u, t))
  }

  /** The part of a server view that the variables set. A field that is
      `None` is one the variables did not set. */
  datatype VarsView = VarsView(
    projectName: string,
    projectDescription: Option<string>,
    licenseKeyToken: Option<string>,
    scriptHookAllowed: Option<bool>,
    gamename: Option<string>,
    activitypubFeed: Option<string>,
    premium: Option<string>,
    locale: Option<string>,
    localeCountry: Option<string>,
    tags: Option<seq<string>>,
    bannerConnecting: Option<string>,
    bannerDetail: Option<string>,
    canReview: Option<bool>,
    onesyncEnabled: Option<bool>,
    enforceGameBuild: Option<string>,
    pureLevel: Option<string>,
    variables: Option<map<string, string>>)

  /** `{ projectName: '' }`. */
  const EmptyVarsView := VarsView("", None, None, None, None, None, None, None, None,
                                  None, None, None, None, None, None, None, None)

  /** Where the `switch` of `processServerDataVariables` sends a key. */
  datatype KeyRoute =
    | ProjectNameKey | ProjectDescKey | LicenseKeyTokenKey | ScriptHookAllowedKey
    | GameNameKey | ActivitypubFeedKey | PremiumKey | LocaleKey | TagsKey
    | BannerConnectingKey | BannerDetailKey | CanReviewKey | OnesyncEnabledKey
    | EnforceGameBuildKey | PureLevelKey
    | Dropped
    | Passthrough

  /** The keys that set a typed field. */
  const FieldKeys: set<string> := {
    "sv_projectName", "sv_projectDesc", "sv_licenseKeyToken", "sv_scriptHookAllowed",
    "gamename", "activitypubFeed", "premium", "locale", "tags", "banner_connecting",
    "banner_detail", "can_review", "onesync_enabled", "sv_enforceGameBuild", "sv_pureLevel"}

  /** The keys that are dropped by name. */
  const DroppedKeys: set<string> := {
    "sv_disableClientReplays", "onesync", "gametype", "mapname",
    "sv_enhancedHostSupport", "sv_lan", "sv_maxClients"}

  /** The keys that are dropped because their lower-case form contains one of
      four fragments. */
  predicate DroppedByPattern(key: string) {
    var lc := ToLower(key);
    Contains(lc, "banner_") || Contains(lc, "sv_project") || Contains(lc, "version") || Contains(lc, "uuid")
  }

  /** The `switch (true)` over a key: the exact names first, in the order of
      the source, then the dropped names, then the fragments. */
  function RouteOf(key: string): (r: KeyRoute)
    ensures r.Dropped? || r.Passthrough? || key == KeyOf(r)
  {
    if key == "sv_projectName" then ProjectNameKey
    else if key == "sv_projectDesc" then ProjectDescKey
    else if key == "sv_licenseKeyToken" then LicenseKeyTokenKey
    else if key == "sv_scriptHookAllowed" then ScriptHookAllowedKey
    else if key == "gamename" then GameNameKey
    else if key == "activitypubFeed" then ActivitypubFeedKey
    else if key == "premium" then PremiumKey
    else if key == "locale" then LocaleKey
    else if key == "tags" then TagsKey
    else if key == "banner_connecting" then BannerConnectingKey
    else if key == "banner_detail" then BannerDetailKey
    else if key == "can_review" then CanReviewKey
    else if key == "onesync_enabled" then OnesyncEnabledKey
    else if key == "sv_enforceGameBuild" then EnforceGameBuildKey
    else if key == "sv_pureLevel" then PureLevelKey
    else if key in DroppedKeys || DroppedByPattern(key) then Dropped
    else Passthrough
  }

  /** Every key sets a field, is dropped, or is passed through: it is passed
      through exactly when it is neither a field key nor a dropped name and
      matches none of the fragments, and it is dropped exactly when it is not
      a field key but is a dropped name or matches a fragment. */
  lemma RouteOfClassifies(key: string)
    ensures RouteOf(key) == Passthrough <==> key !in FieldKeys && key !in DroppedKeys && !DroppedByPattern(key)
    ensures RouteOf(key) == Dropped <==> key !in FieldKeys && (key in DroppedKeys || DroppedByPattern(key))
  {
  }

  /** The key a field route answers to. */
  function KeyOf(r: KeyRoute): string {
    match r
    case ProjectNameKey => "sv_projectName"
    case ProjectDescKey => "sv_projectDesc"
    case LicenseKeyTokenKey => "sv_licenseKeyToken"
    case ScriptHookAllowedKey => "sv_scriptHookAllowed"
    case GameNameKey => "gamename"
    case ActivitypubFeedKey => "activitypubFeed"
    case PremiumKey => "premium"
    case LocaleKey => "locale"
    case TagsKey => "tags"
    case BannerConnectingKey => "banner_connecting"
    case BannerDetailKey => "banner_detail"
    case CanReviewKey => "can_review"
    case OnesyncEnabledKey => "onesync_enabled"
    case EnforceGameBuildKey => "sv_enforceGameBuild"
    case PureLevelKey => "sv_pureLevel"
    case Dropped => ""
    case Passthrough => ""
  }

  /** The routes that set a typed field. */
  const FieldRoutes: set<KeyRoute> := {
    ProjectNameKey, ProjectDescKey, LicenseKeyTokenKey, ScriptHookAllowedKey, GameNameKey,
    ActivitypubFeedKey, PremiumKey, LocaleKey, TagsKey, BannerConnectingKey, BannerDetailKey,
    CanReviewKey, OnesyncEnabledKey, EnforceGameBuildKey, PureLevelKey}

  /** Each field key is routed to its own field, and only that key is. */
  lemma RouteOfKeyOf(r: KeyRoute, key: string)
    requires r in FieldRoutes
    ensures RouteOf(KeyOf(r)) == r
    ensures RouteOf(key) == r <==> key == KeyOf(r)
  {
    RouteOfOwnKey(r);
  }

  /** The key of a field route is routed back to it. */
  lemma RouteOfOwnKey(r: KeyRoute)
    requires r in FieldRoutes
    ensures RouteOf(KeyOf(r)) == r
  {
    match r
    case ProjectNameKey =>
    case ProjectDescKey =>
    case LicenseKeyTokenKey =>
    case ScriptHookAllowedKey =>
    case GameNameKey =>
    case ActivitypubFeedKey =>
    case PremiumKey =>
    case LocaleKey =>
    case TagsKey =>
    case BannerConnectingKey =>
    case BannerDetailKey =>
    case CanReviewKey =>
    case OnesyncEnabledKey =>
    case EnforceGameBuildKey =>
    case PureLevelKey =>
  }

  /** `Object.entries(vars)`: the bag of variables as its key-value pairs, in
      the order the object lists them. */
  type Entries = seq<(string, string)>

  /** The entries of an object never repeat a key. */
  predicate DistinctKeys(vars: Entries) {
    forall i, j :: 0 <= i < j < |vars| ==> vars[i].0 != vars[j].0
  }

  /** `vars[key]`: the value of the last entry with that key; with distinct
      keys, the value of the only one. */
  function Get(vars: Entries, key: string): Option<string>
    decreases |vars|
  {
    if vars == [] then None
    else if vars[|vars| - 1].0 == key then Some(vars[|vars| - 1].1)
    else Get(vars[..|vars| - 1], key)
  }

  /** The value of the key a field route answers to. */
  function Raw(vars: Entries, r: KeyRoute): Option<string> {
    Get(vars, KeyOf(r))
  }

  /** `view` once the variables are known to exist: `variables` is `{}`. */
  const StartVarsView := EmptyVarsView.(variables := Some(map[]))

  /** `value === 'true'`. */
  predicate IsTrue(value: string) { value == "true" }

  /** `Boolean(value)` for a string: only the empty string is falsy. */
  predicate Truthy(value: string) { value != "" }

  /** One pass of the loop body: the `switch` applied to one entry, whose key
      goes the way `route` says, stated field by field. A field changes only
      when the key is routed to it; `enforceGameBuild` only when the value is
      not empty, and `variables` only for a key that is passed through. */
  function RouteEntry(u: ServerUtils, c: Conversions, view: VarsView, route: KeyRoute, key: string, value: string): (next: VarsView)
    requires view.variables.Some?
    ensures next.variables.Some?
  {
    VarsView(
      projectName := if route == ProjectNameKey then u.filterProjectName(value) else view.projectName,
      projectDescription := if route == ProjectDescKey then Some(u.filterProjectDesc(value)) else view.projectDescription,
      licenseKeyToken := if route == LicenseKeyTokenKey then Some(value) else view.licenseKeyToken,
      scriptHookAllowed := if route == ScriptHookAllowedKey then Some(IsTrue(value)) else view.scriptHookAllowed,
      gamename := if route == GameNameKey then Some(value) else view.gamename,
      activitypubFeed := if route == ActivitypubFeedKey then Some(value) else view.activitypubFeed,
      premium := if route == PremiumKey then Some(value) else view.premium,
      locale := if route == LocaleKey then Some(c.canonicalLocale(value)) else view.locale,
      localeCountry := if route == LocaleKey then Some(c.localeCountry(c.canonicalLocale(value))) else view.localeCountry,
      tags := if route == TagsKey then Some(c.parseTags(value)) else view.tags,
      bannerConnecting := if route == BannerConnectingKey then Some(value) else view.bannerConnecting,
      bannerDetail := if route == BannerDetailKey then Some(value) else view.bannerDetail,
      canReview := if route == CanReviewKey then Some(Truthy(value)) else view.canReview,
      onesyncEnabled := if route == OnesyncEnabledKey then Some(IsTrue(value)) else view.onesyncEnabled,
      enforceGameBuild := if route == EnforceGameBuildKey && Truthy(value) then Some(value) else view.enforceGameBuild,
      pureLevel := if route == PureLevelKey then Some(value) else view.pureLevel,
      variables := if route == Passthrough then Some(view.variables.value[key := value]) else view.variables)
  }

  /** The view after the loop has read the entries `vars`, in order. */
  function ProcessedFrom(u: ServerUtils, c: Conversions, vars: Entries): (view: VarsView)
    ensures view.variables.Some?
    decreases |vars|
  {
    if vars == [] then StartVarsView
    else
      var (key, value) := vars[|vars| - 1];
      RouteEntry(u, c, ProcessedFrom(u, c, vars[..|vars| - 1]), RouteOf(key), key, value)
  }

  /** `processServerDataVariables(vars)` as a value. */
  function ProcessedVars(u: ServerUtils, vars: Option<Entries>): (view: VarsView)
    ensures vars.None? ==> view == EmptyVarsView
    ensures view.variables.Some? <==> vars.Some?
  {
    if vars.None? then EmptyVarsView else ProcessedFrom(u, ConversionsOf(u), vars.value)
  }

  /** `processServerDataVariables(vars)`: `{ projectName: '' }` without
      variables; otherwise `variables` starts empty and the loop over
      `Object.entries(vars)` routes each key. */
  method ProcessServerDataVariables(u: ServerUtils, vars: Option<Entries>) returns (view: VarsView)
    ensures view == ProcessedVars(u, vars)
  {
    view := EmptyVarsView;
    if vars.None? {
      return;
    }
    var entries := vars.value;
    view := view.(variables := Some(map[]));
    for i := 0 to |entries|
      invariant view == ProcessedFrom(u, ConversionsOf(u), entries[..i])
    {
      var (key, value) := entries[i];
      assert entries[..i + 1][..i] == entries[..i];
      ProcessedStep(u, ConversionsOf(u), entries[..i + 1]);
      match RouteOf(key) {
        case ProjectNameKey => view := view.(projectName := u.filterProjectName(value));
        case ProjectDescKey => view := view.(projectDescription := Some(u.filterProjectDesc(value)));
        case LicenseKeyTokenKey => view := view.(licenseKeyToken := Some(value));
        case ScriptHookAllowedKey => view := view.(scriptHookAllowed := Some(IsTrue(value)));
        case GameNameKey => view := view.(gamename := Some(value));
        case ActivitypubFeedKey => view := view.(activitypubFeed := Some(value));
        case PremiumKey => view := view.(premium := Some(value));
        case LocaleKey =>
          var locale := CanonicalLocale(u, value);
          view := view.(locale := Some(locale), localeCountry := Some(LocaleCountry(locale)));
        case TagsKey => view := view.(tags := Some(ParseTags(u, value)));
        case BannerConnectingKey => view := view.(bannerConnecting := Some(value));
        case BannerDetailKey => view := view.(bannerDetail := Some(value));
        case CanReviewKey => view := view.(canReview := Some(Truthy(value)));
        case OnesyncEnabledKey => view := view.(onesyncEnabled := Some(IsTrue(value)));
        case EnforceGameBuildKey =>
          if Truthy(value) {
            view := view.(enforceGameBuild := Some(value));
          }
        case PureLevelKey => view := view.(pureLevel := Some(value));
        case Dropped =>
        case Passthrough => view := view.(variables := Some(view.variables.value[key := value]));
      }
    }
    assert entries[..|entries|] == entries;
  }

  /** The last entry decides `Get` for its own key and leaves the others to
      the entries before it. */
  lemma GetLast(vars: Entries, key: string)
    requires vars != []
    ensures Get(vars, key) ==
      if vars[|vars| - 1].0 == key then Some(vars[|vars| - 1].1) else Get(vars[..|vars| - 1], key)
  {
  }

  /** The loop's view after one more entry. */
  lemma ProcessedStep(u: ServerUtils, c: Conversions, vars: Entries)
    requires vars != []
    ensures ProcessedFrom(u, c, vars) ==
            RouteEntry(u, c, ProcessedFrom(u, c, vars[..|vars| - 1]), RouteOf(vars[|vars| - 1].0), vars[|vars| - 1].0, vars[|vars| - 1].1)
  {
  }

  /** A field key's value after one more entry. */
  lemma RawStep(vars: Entries, r: KeyRoute)
    requires vars != [] && r in FieldRoutes
    ensures Raw(vars, r) == if RouteOf(vars[|vars| - 1].0) == r then Some(vars[|vars| - 1].1) else Raw(vars[..|vars| - 1], r)
  {
    RouteOfKeyOf(r, vars[|vars| - 1].0);
  }

  /** The fields that hold the value of their key as it is. */
  const CopyRoutes: set<KeyRoute> := {
    LicenseKeyTokenKey, GameNameKey, ActivitypubFeedKey, PremiumKey,
    BannerConnectingKey, BannerDetailKey, PureLevelKey}

  /** The copied field of route `r`. */
  function Copied(view: VarsView, r: KeyRoute): Option<string> {
    match r
    case LicenseKeyTokenKey => view.licenseKeyToken
    case GameNameKey => view.gamename
    case ActivitypubFeedKey => view.activitypubFeed
    case PremiumKey => view.premium
    case BannerConnectingKey => view.bannerConnecting
    case BannerDetailKey => view.bannerDetail
    case PureLevelKey => view.pureLevel
    case _ => None
  }

  /** A copied field holds the value of its own key, or nothing when the key
      is absent. */
  lemma {:induction false} ProcessedCopy(u: ServerUtils, c: Conversions, vars: Entries, r: KeyRoute)
    requires r in CopyRoutes
    ensures Copied(ProcessedFrom(u, c, vars), r) == Raw(vars, r)
    decreases |vars|
  {
    if vars != [] {
      var init := vars[..|vars| - 1];
      var (key, value) := vars[|vars| - 1];
      ProcessedCopy(u, c, init, r);
      ProcessedStep(u, c, vars);
      RawStep(vars, r);
      RouteEntryCopied(u, c, ProcessedFrom(u, c, init), RouteOf(key), key, value, r);
    }
  }

  /** `=== 'true'` on the value of a key, if the key is there. */
  function IsTrueOf(raw: Option<string>): Option<bool> {
    if raw.Some? then Some(IsTrue(raw.value)) else None
  }

  /** `Boolean(...)` on the value of a key, if the key is there. */
  function TruthyOf(raw: Option<string>): Option<bool> {
    if raw.Some? then Some(Truthy(raw.value)) else None
  }

  /** `sv_scriptHookAllowed` is `=== 'true'` on its value, and nothing
      without one. */
  lemma {:induction false} ProcessedScriptHook(u: ServerUtils, c: Conversions, vars: Entries)
    ensures ProcessedFrom(u, c, vars).scriptHookAllowed == IsTrueOf(Raw(vars, ScriptHookAllowedKey))
    decreases |vars|
  {
    if vars != [] {
      ProcessedScriptHook(u, c, vars[..|vars| - 1]);
      ProcessedStep(u, c, vars);
      RawStep(vars, ScriptHookAllowedKey);
    }
  }

  /** `can_review` is `Boolean` of its value, and nothing without one. */
  lemma {:induction false} ProcessedCanReview(u: ServerUtils, c: Conversions, vars: Entries)
    ensures ProcessedFrom(u, c, vars).canReview == TruthyOf(Raw(vars, CanReviewKey))
    decreases |vars|
  {
    if vars != [] {
      ProcessedCanReview(u, c, vars[..|vars| - 1]);
      ProcessedStep(u, c, vars);
      RawStep(vars, CanReviewKey);
    }
  }

  /** `onesync_enabled` is `=== 'true'` on its value, and nothing without
      one. */
  lemma {:induction false} ProcessedOnesync(u: ServerUtils, c: Conversions, vars: Entries)
    ensures ProcessedFrom(u, c, vars).onesyncEnabled == IsTrueOf(Raw(vars, OnesyncEnabledKey))
    decreases |vars|
  {
    if vars != [] {
      ProcessedOnesync(u, c, vars[..|vars| - 1]);
      ProcessedStep(u, c, vars);
      RawStep(vars, OnesyncEnabledKey);
    }
  }

  /** The project name is the filtered `sv_projectName`, and `''` without
      one; the description is the filtered `sv_projectDesc`. */
  lemma {:induction false} ProcessedNames(u: ServerUtils, c: Conversions, vars: Entries)
    ensures ProcessedFrom(u, c, vars).projectName ==
      if Raw(vars, ProjectNameKey).Some? then u.filterProjectName(Raw(vars, ProjectNameKey).value) else ""
    ensures ProcessedFrom(u, c, vars).projectDescription ==
      if Raw(vars, ProjectDescKey).Some? then Some(u.filterProjectDesc(Raw(vars, ProjectDescKey).value)) else None
    decreases |vars|
  {
    if vars != [] {
      var init := vars[..|vars| - 1];
      var (key, value) := vars[|vars| - 1];
      ProcessedNames(u, c, init);
      ProcessedStep(u, c, vars);
      RouteOfKeyOf(ProjectNameKey, key);
      RouteOfKeyOf(ProjectDescKey, key);
    }
  }

  /** The locale is the canonical form of the value of `locale`. */
  lemma {:induction false} ProcessedLocale(u: ServerUtils, c: Conversions, vars: Entries)
    ensures var raw := Raw(vars, LocaleKey);
            ProcessedFrom(u, c, vars).locale == if raw.Some? then Some(c.canonicalLocale(raw.value)) else None
    decreases |vars|
  {
    if vars != [] {
      var init := vars[..|vars| - 1];
      var (key, value) := vars[|vars| - 1];
      ProcessedLocale(u, c, init);
      ProcessedStep(u, c, vars);
      RawStep(vars, LocaleKey);
    }
  }

  /** The country is always the one the stored locale names: the two are
      set together, and neither is set without the other. */
  lemma {:induction false} ProcessedCountry(u: ServerUtils, c: Conversions, vars: Entries)
    ensures var locale := ProcessedFrom(u, c, vars).locale;
            ProcessedFrom(u, c, vars).localeCountry == if locale.Some? then Some(c.localeCountry(locale.value)) else None
    decreases |vars|
  {
    if vars != [] {
      var init := vars[..|vars| - 1];
      var (key, value) := vars[|vars| - 1];
      ProcessedCountry(u, c, init);
      ProcessedStep(u, c, vars);
    }
  }

  /** The tags are the tag list of the value of `tags`. */
  lemma {:induction false} ProcessedTags(u: ServerUtils, c: Conversions, vars: Entries)
    ensures var raw := Raw(vars, TagsKey);
            ProcessedFrom(u, c, vars).tags == if raw.Some? then Some(c.parseTags(raw.value)) else None
    decreases |vars|
  {
    if vars != [] {
      var init := vars[..|vars| - 1];
      var (key, value) := vars[|vars| - 1];
      ProcessedTags(u, c, init);
      ProcessedStep(u, c, vars);
      RawStep(vars, TagsKey);
    }
  }

  /** An empty `sv_enforceGameBuild` sets nothing; a non-empty one is kept. */
  lemma {:induction false} ProcessedEnforceGameBuild(u: ServerUtils, c: Conversions, vars: Entries)
    requires DistinctKeys(vars)
    ensures var raw := Raw(vars, EnforceGameBuildKey);
      ProcessedFrom(u, c, vars).enforceGameBuild == if raw.Some? && Truthy(raw.value) then raw else None
    decreases |vars|
  {
    if vars != [] {
      var init := vars[..|vars| - 1];
      var key := vars[|vars| - 1].0;
      assert DistinctKeys(init);
      ProcessedEnforceGameBuild(u, c, init);
      ProcessedStep(u, c, vars);
      RouteOfKeyOf(EnforceGameBuildKey, key);
      if key == KeyOf(EnforceGameBuildKey) {
        GetAbsent(init, key);
      }
    }
  }

  /** A key that no entry has is absent. */
  lemma {:induction false} GetAbsent(vars: Entries, key: string)
    requires forall i :: 0 <= i < |vars| ==> vars[i].0 != key
    ensures Get(vars, key).None?
    decreases |vars|
  {
    if vars != [] {
      GetAbsent(vars[..|vars| - 1], key);
    }
  }

  /** `variables` holds exactly the keys the switch neither recognises nor
      drops, each with its own value. */
  lemma {:induction false} ProcessedVariables(u: ServerUtils, c: Conversions, vars: Entries, key: string)
    ensures key in ProcessedFrom(u, c, vars).variables.value <==>
      Get(vars, key).Some? && RouteOf(key) == Passthrough
    ensures key in ProcessedFrom(u, c, vars).variables.value ==>
      ProcessedFrom(u, c, vars).variables.value[key] == Get(vars, key).value
    decreases |vars|
  {
    if vars != [] {
      ProcessedVariables(u, c, vars[..|vars| - 1], key);
      RouteEntryVariables(u, c, ProcessedFrom(u, c, vars[..|vars| - 1]), RouteOf(vars[|vars| - 1].0), vars[|vars| - 1].0, vars[|vars| - 1].1);
    }
  }

  /** What one entry changes in a copied field. */
  lemma RouteEntryCopied(u: ServerUtils, c: Conversions, view: VarsView, route: KeyRoute, key: string, value: string, r: KeyRoute)
    requires view.variables.Some? && r in CopyRoutes
    ensures Copied(RouteEntry(u, c, view, route, key, value), r) == if route == r then Some(value) else Copied(view, r)
  {
    if r == LicenseKeyTokenKey {
    } else if r == GameNameKey {
    } else if r == ActivitypubFeedKey {
    } else if r == PremiumKey {
    } else if r == BannerConnectingKey {
    } else if r == BannerDetailKey {
    } else {
      assert r == PureLevelKey;
    }
  }

  /** The same for the passed-through variables. */
  lemma RouteEntryVariables(u: ServerUtils, c: Conversions, view: VarsView, r: KeyRoute, key: string, value: string)
    requires view.variables.Some?
    ensures RouteEntry(u, c, view, r, key, value).variables.value ==
      if r == Passthrough then view.variables.value[key := value] else view.variables.value
  {
  }

  /** How much of a server a view was built from. */
  datatype DetailsLevel = Address | MasterList | MasterListFull | Historical

  /** A server view. A field that is `None` is one the view does not have. */
  datatype ServerView = ServerView(
    id: string,
    joinId: Option<string>,
    detailsLevel: DetailsLevel,
    hostname: string,
    projectName: string,
    projectDescription: Option<string>,
    locale: string,
    localeCountry: string,
    rawVariables: Entries,
    variables: Option<map<string, string>>,
    historicalIconURL: Option<string>,
    iconVersion: Option<int>,
    enforceGameBuild: Option<string>,
    gametype: Option<string>,
    mapname: Option<string>,
    server: Option<string>,
    playersMax: Option<int>,
    playersCurrent: Option<int>,
    burstPower: Option<int>,
    upvotePower: Option<int>,
    connectEndPoints: Option<seq<string>>,
    private: Option<bool>,
    ownerID: Option<string>,
    ownerName: Option<string>,
    ownerAvatar: Option<string>,
    ownerProfile: Option<string>,
    supportStatus: Option<string>,
    resources: Option<seq<string>>,
    players: Option<seq<string>>,
    offline: Option<bool>,
    licenseKeyToken: Option<string>,
    scriptHookAllowed: Option<bool>,
    gamename: Option<string>,
    activitypubFeed: Option<string>,
    premium: Option<string>,
    tags: Option<seq<string>>,
    bannerConnecting: Option<string>,
    bannerDetail: Option<string>,
    canReview: Option<bool>,
    onesyncEnabled: Option<bool>,
    pureLevel: Option<string>)

  /** A server as the master list describes it. `iconVersion` is `None` when
      the record has no own property of that name. */
  datatype MasterServerData = MasterServerData(
    vars: Option<Entries>,
    gametype: Option<string>,
    mapname: Option<string>,
    server: Option<string>,
    hostname: Option<string>,
    svMaxclients: Option<int>,
    clients: Option<int>,
    burstPower: Option<int>,
    upvotePower: Option<int>,
    connectEndPoints: Option<seq<string>>,
    iconVersion: Option<int>)

  /** The full record of one server: the master-list data and what only the
      full record has. `resources` and `players` are kept as they come. */
  datatype FullServerData = FullServerData(
    data: MasterServerData,
    private: Option<bool>,
    ownerID: Option<string>,
    ownerName: Option<string>,
    ownerAvatar: Option<string>,
    ownerProfile: Option<string>,
    supportStatus: Option<string>,
    resources: Option<seq<string>>,
    players: Option<seq<string>>,
    fallback: Option<bool>)

  /** A server as the history store keeps it. */
  datatype HistoryServer = HistoryServer(address: string, hostname: string, vars: Entries, rawIcon: Option<string>)

  /** The warning sign the placeholder hostname starts and ends with. */
  const Warning := "\U{26A0}\U{FE0F}"

  /** The hostname of a server that is only known by its address. */
  function FakeHostname(address: string): (h: string)
    ensures Contains(h, address)
  {
    var prefix := Warning + " Server is loading or failed to load (";
    assert ContainsAt(prefix + address + ") " + Warning, address, |prefix|);
    prefix + address + ") " + Warning
  }

  /** `serverAddress2ServerView(address)`: a view that knows nothing but the
      address, in the default locale and without variables. */
  function AddressView(address: string): (v: ServerView)
    ensures v.id == address && v.detailsLevel == Address
    ensures v.projectName == v.hostname && Contains(v.hostname, address)
    ensures v.locale == DefaultServerLocale && v.localeCountry == LocaleCountry(v.locale)
    ensures v.rawVariables == [] && v.variables.None?
  {
    DefaultLocaleCountry();
    ServerView(
      id := address, joinId := None, detailsLevel := Address,
      hostname := FakeHostname(address), projectName := FakeHostname(address), projectDescription := None,
      locale := DefaultServerLocale, localeCountry := DefaultServerLocaleCountry,
      rawVariables := [], variables := None, historicalIconURL := None, iconVersion := None,
      enforceGameBuild := None, gametype := None, mapname := None, server := None,
      playersMax := None, playersCurrent := None, burstPower := None, upvotePower := None,
      connectEndPoints := None, private := None,
      ownerID := None, ownerName := None, ownerAvatar := None, ownerProfile := None,
      supportStatus := None, resources := None, players := None, offline := None,
      licenseKeyToken := None, scriptHookAllowed := None, gamename := None, activitypubFeed := None,
      premium := None, tags := None, bannerConnecting := None, bannerDetail := None,
      canReview := None, onesyncEnabled := None, pureLevel := None)
  }

  /** `o`, or `fallback` when `o` is absent. */
  function Or<T>(o: Option<T>, fallback: Option<T>): Option<T> {
    if o.Some? then o else fallback
  }

  /** `x || 0` for an optional number. */
  function OrZero(x: Option<int>): int { x.GetOr(0) }

  /** `Object.assign(view, vars)`: every field the variables set replaces the
      view's own; the others stay. */
  function Assign(view: ServerView, vars: VarsView): (v: ServerView)
    ensures v.projectName == vars.projectName
    ensures v.id == view.id && v.joinId == view.joinId && v.detailsLevel == view.detailsLevel
    ensures v.hostname == view.hostname && v.rawVariables == view.rawVariables
    ensures v.locale == vars.locale.GetOr(view.locale)
    ensures v.localeCountry == vars.localeCountry.GetOr(view.localeCountry)
  {
    view.(
      projectName := vars.projectName,
      projectDescription := Or(vars.projectDescription, view.projectDescription),
      licenseKeyToken := Or(vars.licenseKeyToken, view.licenseKeyToken),
      scriptHookAllowed := Or(vars.scriptHookAllowed, view.scriptHookAllowed),
      gamename := Or(vars.gamename, view.gamename),
      activitypubFeed := Or(vars.activitypubFeed, view.activitypubFeed),
      premium := Or(vars.premium, view.premium),
      locale := vars.locale.GetOr(view.locale),
      localeCountry := vars.localeCountry.GetOr(view.localeCountry),
      tags := Or(vars.tags, view.tags),
      bannerConnecting := Or(vars.bannerConnecting, view.bannerConnecting),
      bannerDetail := Or(vars.bannerDetail, view.bannerDetail),
      canReview := Or(vars.canReview, view.canReview),
      onesyncEnabled := Or(vars.onesyncEnabled, view.onesyncEnabled),
      enforceGameBuild := Or(vars.enforceGameBuild, view.enforceGameBuild),
      pureLevel := Or(vars.pureLevel, view.pureLevel),
      variables := Or(vars.variables, view.variables))
  }

  /** The fields the two master-list constructors take from the record, laid
      over the address view of `joinId`. */
  function ListedFields(joinId: string, level: DetailsLevel, data: MasterServerData, isPrivate: bool): ServerView {
    AddressView(joinId).(
      joinId := Some(joinId),
      detailsLevel := level,
      enforceGameBuild := if data.vars.Some? then Raw(data.vars.value, EnforceGameBuildKey) else None,
      gametype := data.gametype,
      mapname := data.mapname,
      server := data.server,
      hostname := data.hostname.GetOr(""),
      playersMax := Some(OrZero(data.svMaxclients)),
      playersCurrent := Some(OrZero(data.clients)),
      burstPower := Some(OrZero(data.burstPower)),
      upvotePower := Some(OrZero(data.upvotePower)),
      connectEndPoints := data.connectEndPoints,
      private := Some(isPrivate),
      rawVariables := data.vars.GetOr([]))
  }

  /** The steps after `Object.assign`: `iconVersion` is copied when the
      record has it, and a view without a project name loses its upvotes. */
  function Finish(view: ServerView, data: MasterServerData): ServerView {
    view.(
      iconVersion := Or(data.iconVersion, view.iconVersion),
      upvotePower := if view.projectName == "" then Some(0) else view.upvotePower)
  }

  /** `masterListServerData2ServerView(joinId, data)`. */
  function MasterListView(u: ServerUtils, joinId: string, data: MasterServerData): (v: ServerView)
    ensures v.id == joinId && v.joinId == Some(joinId) && v.detailsLevel == MasterList
    ensures v.playersMax == Some(OrZero(data.svMaxclients))
    ensures v.playersCurrent == Some(OrZero(data.clients))
    ensures v.burstPower == Some(OrZero(data.burstPower))
    ensures v.hostname == data.hostname.GetOr("")
    ensures v.rawVariables == data.vars.GetOr([])
    ensures v.iconVersion == data.iconVersion
    ensures v.private == Some(u.hasPrivateConnectEndpoint(data.connectEndPoints))
    ensures v.projectName == ProcessedVars(u, data.vars).projectName
    ensures v.upvotePower == Some(if v.projectName == "" then 0 else OrZero(data.upvotePower))
  {
    Finish(Assign(ListedFields(joinId, MasterList, data, u.hasPrivateConnectEndpoint(data.connectEndPoints)),
                  ProcessedVars(u, data.vars)), data)
  }

  /** `masterListFullServerData2ServerView(joinId, data)`. */
  function MasterListFullView(u: ServerUtils, joinId: string, full: FullServerData): (v: ServerView)
    ensures v.id == joinId && v.joinId == Some(joinId) && v.detailsLevel == MasterListFull
    ensures v.playersMax == Some(OrZero(full.data.svMaxclients))
    ensures v.playersCurrent == Some(OrZero(full.data.clients))
    ensures v.burstPower == Some(OrZero(full.data.burstPower))
    ensures v.rawVariables == full.data.vars.GetOr([])
    ensures v.iconVersion == full.data.iconVersion
    ensures v.private == Some(full.private.GetOr(false) || u.hasPrivateConnectEndpoint(full.data.connectEndPoints))
    ensures v.supportStatus.Some? && v.supportStatus.value != ""
    ensures full.supportStatus.None? || full.supportStatus.value == "" ==> v.supportStatus == Some("supported")
    ensures v.projectName == ProcessedVars(u, full.data.vars).projectName
    ensures v.upvotePower == Some(if v.projectName == "" then 0 else OrZero(full.data.upvotePower))
    ensures v.offline == if full.fallback == Some(true) then Some(true) else None
  {
    var data := full.data;
    var listed := ListedFields(joinId, MasterListFull, data,
                               full.private.GetOr(false) || u.hasPrivateConnectEndpoint(data.connectEndPoints));
    var base := listed.(
      ownerID := full.ownerID, ownerName := full.ownerName,
      ownerAvatar := full.ownerAvatar, ownerProfile := full.ownerProfile,
      supportStatus := Some(if full.supportStatus.Some? && full.supportStatus.value != "" then full.supportStatus.value else "supported"),
      resources := full.resources, players := full.players);
    var v := Finish(Assign(base, ProcessedVars(u, data.vars)), data);
    v.(offline := if full.fallback == Some(true) then Some(true) else v.offline)
  }

  /** `historyServer2ServerView(historyServer)`. */
  function HistoryView(u: ServerUtils, h: HistoryServer): (v: ServerView)
    ensures v.id == h.address && v.detailsLevel == Historical
    ensures v.hostname == h.hostname && v.rawVariables == h.vars
    ensures v.historicalIconURL == h.rawIcon
    ensures v.projectName == ProcessedVars(u, Some(h.vars)).projectName
    ensures v.variables.Some?
  {
    var base := AddressView(h.address).(
      detailsLevel := Historical, hostname := h.hostname, projectName := h.hostname,
      rawVariables := h.vars, historicalIconURL := h.rawIcon);
    Assign(base, ProcessedVars(u, Some(h.vars)))
  }

  /** A view whose variables name no project ends up with no upvotes: the
      processed variables always set `projectName`, to `''` when
      `sv_projectName` is absent. */
  lemma UpvoteWithoutProjectName(u: ServerUtils, joinId: string, full: FullServerData)
    requires full.data.vars.None? || Raw(full.data.vars.value, ProjectNameKey).None?
    ensures MasterListView(u, joinId, full.data).projectName == ""
    ensures MasterListView(u, joinId, full.data).upvotePower == Some(0)
    ensures MasterListFullView(u, joinId, full).upvotePower == Some(0)
  {
    if full.data.vars.Some? {
      ProcessedNames(u, ConversionsOf(u), full.data.vars.value);
    }
  }

  /** The history view of a server without `sv_projectName` has the project
      name `''`, not its hostname. */
  lemma HistoryWithoutProjectName(u: ServerUtils, h: HistoryServer)
    requires Raw(h.vars, ProjectNameKey).None?
    ensures HistoryView(u, h).projectName == ""
  {
    ProcessedNames(u, ConversionsOf(u), h.vars);
  }

  /** The processed variables carry a country that agrees with their locale. */
  lemma ProcessedLocaleCountry(u: ServerUtils, vars: Option<Entries>)
    ensures ProcessedVars(u, vars).locale.Some? <==> ProcessedVars(u, vars).localeCountry.Some?
    ensures ProcessedVars(u, vars).locale.Some? ==>
      ProcessedVars(u, vars).localeCountry.value == LocaleCountry(ProcessedVars(u, vars).locale.value)
  {
    if vars.Some? {
      ProcessedCountry(u, ConversionsOf(u), vars.value);
    }
  }

  /** Every constructor yields a view whose country is the one its locale
      names, whether the locale came from the variables or is the default. */
  lemma ViewLocaleCountry(u: ServerUtils, joinId: string, full: FullServerData, h: HistoryServer)
    ensures var v := MasterListView(u, joinId, full.data); v.localeCountry == LocaleCountry(v.locale)
    ensures var v := MasterListFullView(u, joinId, full); v.localeCountry == LocaleCountry(v.locale)
    ensures var v := HistoryView(u, h); v.localeCountry == LocaleCountry(v.locale)
  {
    ProcessedLocaleCountry(u, full.data.vars);
    ProcessedLocaleCountry(u, Some(h.vars));
  }

  /** `enforceGameBuild` is the raw `sv_enforceGameBuild`, empty or not: the
      record sets it first, and the variables only override it with the same
      value when it is not empty. */
  lemma ViewEnforceGameBuild(u: ServerUtils, joinId: string, full: FullServerData)
    requires full.data.vars.Some? ==> DistinctKeys(full.data.vars.value)
    ensures MasterListView(u, joinId, full.data).enforceGameBuild ==
      if full.data.vars.Some? then Raw(full.data.vars.value, EnforceGameBuildKey) else None
    ensures MasterListFullView(u, joinId, full).enforceGameBuild ==
      if full.data.vars.Some? then Raw(full.data.vars.value, EnforceGameBuildKey) else None
  {
    if full.data.vars.Some? {
      ProcessedEnforceGameBuild(u, ConversionsOf(u), full.data.vars.value);
    }
  }

  /** `getSearchableName(server)`: the project name, followed by the
      description when there is one, without colour codes, normalised. */
  function SearchableName(u: ServerUtils, view: ServerView): (name: string)
    ensures view.projectDescription.None? || view.projectDescription.value == "" ==>
      name == u.normalizeSearchString(ColorCodes.StripCodes(view.projectName))
    ensures view.projectDescription.Some? && view.projectDescription.value != "" ==>
      name == u.normalizeSearchString(ColorCodes.StripCodes(view.projectName + " " + view.projectDescription.value))
  {
    var text := if view.projectDescription.Some? && view.projectDescription.value != ""
      then view.projectName + " " + view.projectDescription.value
      else view.projectName;
    u.normalizeSearchString(ColorCodes.StripCodes(text))
  }

  /** With a description, the codes of the project name and of the
      description are removed separately, each on its own side of the
      joining space. */
  lemma SearchableNameJoin(u: ServerUtils, view: ServerView)
    requires view.projectDescription.Some? && view.projectDescription.value != ""
    ensures SearchableName(u, view) == u.normalizeSearchString(
      ColorCodes.StripCodes(view.projectName) + " " + ColorCodes.StripCodes(view.projectDescription.value))
  {
    ColorCodes.StripCodesJoin(view.projectName, view.projectDescription.value);
  }

  /** `getSortableName(name)`: the letters and digits, without the leading
      digits, in lower case. */
  function SortableName(name: string): (r: string)
    ensures |r| <= |name|
    ensures forall i :: 0 <= i < |r| ==> IsLower(r[i]) || IsDigit(r[i])
    ensures r == [] || !IsDigit(r[0])
  {
    var kept := Filter(name, IsAlnum);
    var rest := DropLeadingDigits(kept);
    assert forall i :: 0 <= i < |rest| ==> IsAlnum(rest[i]) by {
      forall i | 0 <= i < |rest| ensures IsAlnum(rest[i]) {
        assert rest[i] == kept[|kept| - |rest| + i];
      }
    }
    ToLower(rest)
  }

  /** Sorting names are their own sorting names. */
  lemma SortableNameIdempotent(name: string)
    ensures SortableName(SortableName(name)) == SortableName(name)
  {
    var r := SortableName(name);
    FilterAll(r, IsAlnum);
    assert DropLeadingDigits(r) == r;
    ToLowerNoUpper(r);
  }
}
