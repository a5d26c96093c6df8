/** Decision logic of the `SectionHeader` component: what a press on the
    action control does, how the header is sized for the device, and when the
    action control exists at all. Navigation (`router.push`) and dialogs
    (`Alert.alert`) are returned as values instead of being performed. */
module SectionHeader {
  import opened Wrappers
  import opened Text

  const ProductsPath: string := "/(tabs)/products"
  const WishlistPath: string := "/(tabs)/wishlist"

  /** A `router.push` request: a path and the optional `filter` parameter. */
  datatype Navigation = Navigation(pathname: string, filter: Option<string>)

  const Products: Navigation := Navigation(ProductsPath, None)
  const FlashSaleProducts: Navigation := Navigation(ProductsPath, Some("flash-sale"))
  const FeaturedProducts: Navigation := Navigation(ProductsPath, Some("featured"))
  const Wishlist: Navigation := Navigation(WishlistPath, None)

  /** What pressing one button of an alert does. */
  datatype ChoiceAction =
    | NoAction
    | Push(nav: Navigation)
    | ShowAlert(alertTitle: string)

  /** One alert button: its text, its `onPress`, and whether it has the
      `cancel` style. */
  datatype Choice = Choice(text: string, onPress: ChoiceAction, cancelStyle: bool)

  /** The single effect of one press on the action control. */
  datatype Outcome =
    | InvokeCallback
    | Navigate(nav: Navigation)
    | Prompt(alertTitle: string, choices: seq<Choice>)

  /** The buttons of the fallback "See All" alert, in order. */
  const SeeAllChoices: seq<Choice> := [
    Choice("Browse All", Push(Products), false),
    Choice("Filter Options", ShowAlert("Filters"), false),
    Choice("Cancel", NoAction, true)
  ]

  /** `title.toLowerCase().includes(keyword)`. */
  predicate Mentions(title: string, keyword: string)
    ensures Mentions(title, keyword) <==> exists i :: OccursAt(ToLower(title), keyword, i)
  {
    ContainsIff(ToLower(title), keyword);
    Contains(ToLower(title), keyword)
  }

  /** `handleActionPress`: the caller's callback when there is one, otherwise
      the first keyword rule that the title satisfies, otherwise the
      three-button alert. */
  function Dispatch(title: string, hasCallback: bool): (r: Outcome)
    ensures r.InvokeCallback? <==> hasCallback
    ensures r.Navigate? ==> r.nav in {Products, FlashSaleProducts, FeaturedProducts, Wishlist}
    ensures r.Prompt? ==> r.alertTitle == title + " - See All" && r.choices == SeeAllChoices
  {
    if hasCallback then InvokeCallback
    else if Mentions(title, "categories") || Mentions(title, "popular categories") then Navigate(Products)
    else if Mentions(title, "flash") || Mentions(title, "sale") then Navigate(FlashSaleProducts)
    else if Mentions(title, "featured") then Navigate(FeaturedProducts)
    else if Mentions(title, "wishlist") then Navigate(Wishlist)
    else Prompt(title + " - See All", SeeAllChoices)
  }

  // ---------------------------------------------------------------------
  // The dispatch as an ordered rule table (first match wins)

  /** A rule fires when the lower-cased title contains any of its keywords. */
  datatype Rule = Rule(keywords: seq<string>, target: Navigation)

  const NavigationRules: seq<Rule> := [
    Rule(["categories", "popular categories"], Products),
    Rule(["flash", "sale"], FlashSaleProducts),
    Rule(["featured"], FeaturedProducts),
    Rule(["wishlist"], Wishlist)
  ]

  predicate Fires(rule: Rule, lower: string) {
    exists k :: 0 <= k < |rule.keywords| && Contains(lower, rule.keywords[k])
  }

  /** The target of the first rule that fires, if any. */
  function FirstMatch(rules: seq<Rule>, lower: string): (r: Option<Navigation>)
    ensures r.None? <==> forall i :: 0 <= i < |rules| ==> !Fires(rules[i], lower)
    ensures r.Some? ==>
      exists i :: 0 <= i < |rules| && Fires(rules[i], lower) && rules[i].target == r.value &&
        forall j :: 0 <= j < i ==> !Fires(rules[j], lower)
  {
    if rules == [] then None
    else if Fires(rules[0], lower) then Some(rules[0].target)
    else
      var rest := FirstMatch(rules[1..], lower);
      assert forall i :: 1 <= i < |rules| ==> rules[i] == rules[1..][i - 1];
      rest
  }

  /** The dispatch read off the rule table. */
  function TableDispatch(title: string, hasCallback: bool): Outcome {
    if hasCallback then InvokeCallback
    else match FirstMatch(NavigationRules, ToLower(title))
      case Some(nav) => Navigate(nav)
      case None => Prompt(title + " - See All", SeeAllChoices)
  }

  // ---------------------------------------------------------------------
  // Properties of the dispatch

  lemma CategoriesInPopularCategories()
    ensures Contains("popular categories", "categories")
  {
    ContainsIff("popular categories", "categories");
    assert OccursAt("popular categories", "categories", 8);
  }

  /** The "popular categories" test of the first rule is subsumed by the
      "categories" test: dropping it never changes the outcome. */
  lemma PopularCategoriesSubsumed(title: string)
    ensures Mentions(title, "popular categories") ==> Mentions(title, "categories")
    ensures (Mentions(title, "categories") || Mentions(title, "popular categories"))
        == Mentions(title, "categories")
  {
    if Mentions(title, "popular categories") {
      CategoriesInPopularCategories();
      ContainsTransitive(ToLower(title), "popular categories", "categories");
    }
  }

  /** Without a callback, a title mentioning "categories" opens the product
      list unfiltered, whatever else it mentions; nothing else does. */
  lemma CategoriesRuleFirst(title: string)
    ensures Dispatch(title, false) == Navigate(Products) <==> Mentions(title, "categories")
  {
    PopularCategoriesSubsumed(title);
  }

  /** "flash" or "sale" selects the flash-sale filter only when "categories"
      is absent. */
  lemma FlashSaleRuleSecond(title: string)
    ensures Dispatch(title, false) == Navigate(FlashSaleProducts) <==>
      !Mentions(title, "categories") && (Mentions(title, "flash") || Mentions(title, "sale"))
  {
    PopularCategoriesSubsumed(title);
  }

  /** "featured" selects the featured filter only when none of the earlier
      keywords is present. */
  lemma FeaturedRuleThird(title: string)
    ensures Dispatch(title, false) == Navigate(FeaturedProducts) <==>
      !Mentions(title, "categories") && !Mentions(title, "flash") && !Mentions(title, "sale") &&
      Mentions(title, "featured")
  {
    PopularCategoriesSubsumed(title);
  }

  /** "wishlist" opens the wishlist only when none of the earlier keywords is
      present. */
  lemma WishlistRuleFourth(title: string)
    ensures Dispatch(title, false) == Navigate(Wishlist) <==>
      !Mentions(title, "categories") && !Mentions(title, "flash") && !Mentions(title, "sale") &&
      !Mentions(title, "featured") && Mentions(title, "wishlist")
  {
    PopularCategoriesSubsumed(title);
  }

  /** With no callback and no keyword, the press shows the "See All" alert
      whose three buttons browse all products, open the filter alert, and
      cancel without effect. */
  lemma FallbackPrompt(title: string)
    ensures Dispatch(title, false).Prompt? <==>
      !Mentions(title, "categories") && !Mentions(title, "flash") && !Mentions(title, "sale") &&
      !Mentions(title, "featured") && !Mentions(title, "wishlist")
    ensures Dispatch(title, false).Prompt? ==>
      var choices := Dispatch(title, false).choices;
      |choices| == 3 &&
      choices[0].text == "Browse All" && choices[0].onPress == Push(Products) &&
      choices[1].text == "Filter Options" && choices[1].onPress == ShowAlert("Filters") &&
      choices[2].text == "Cancel" && choices[2].onPress == NoAction && choices[2].cancelStyle
  {
    PopularCategoriesSubsumed(title);
  }

  /** Unfolds `Fires` for a rule with one keyword. */
  lemma FiresOne(rule: Rule, lower: string)
    requires |rule.keywords| == 1
    ensures Fires(rule, lower) <==> Contains(lower, rule.keywords[0])
  {
  }

  /** Unfolds `Fires` for a rule with two keywords. */
  lemma FiresTwo(rule: Rule, lower: string)
    requires |rule.keywords| == 2
    ensures Fires(rule, lower) <==> Contains(lower, rule.keywords[0]) || Contains(lower, rule.keywords[1])
  {
  }

  /** The if/else-if chain agrees with the ordered rule table. */
  lemma {:induction false} DispatchFollowsRules(title: string, hasCallback: bool)
    ensures Dispatch(title, hasCallback) == TableDispatch(title, hasCallback)
  {
    if !hasCallback {
      var lower := ToLower(title);
      var rules := NavigationRules;
      FiresTwo(rules[0], lower);
      FiresTwo(rules[1], lower);
      FiresOne(rules[2], lower);
      FiresOne(rules[3], lower);
      assert rules[1..][1..][1..][1..] == [];
    }
  }

  /** Two titles that lower-case alike are dispatched alike; only the alert
      title, which repeats the caller's title as written, may differ. */
  lemma SameLowerSameDispatch(a: string, b: string, hasCallback: bool)
    requires ToLower(a) == ToLower(b)
    ensures Dispatch(a, hasCallback).Prompt? <==> Dispatch(b, hasCallback).Prompt?
    ensures !Dispatch(a, hasCallback).Prompt? ==> Dispatch(a, hasCallback) == Dispatch(b, hasCallback)
    ensures Dispatch(a, hasCallback).Prompt? ==>
      Dispatch(a, hasCallback).choices == Dispatch(b, hasCallback).choices
  {
  }

  /** Matching is case-insensitive: a title and its lower-case form are
      dispatched alike. */
  lemma CaseInsensitive(title: string, hasCallback: bool)
    ensures Dispatch(title, hasCallback).Prompt? <==> Dispatch(ToLower(title), hasCallback).Prompt?
    ensures !Dispatch(title, hasCallback).Prompt? ==>
      Dispatch(title, hasCallback) == Dispatch(ToLower(title), hasCallback)
  {
    ToLowerIdempotent(title);
    SameLowerSameDispatch(title, ToLower(title), hasCallback);
  }

  // ---------------------------------------------------------------------
  // Responsive sizing

  /** The device class the sizing helpers distinguish; the small flag is
      tested first and "large" is the fallback. */
  datatype SizeClass = Small | Medium | Large

  function Classify(isSmallDevice: bool, isMediumDevice: bool): (c: SizeClass)
    ensures c == Small <==> isSmallDevice
    ensures c == Large <==> !isSmallDevice && !isMediumDevice
  {
    if isSmallDevice then Small else if isMediumDevice then Medium else Large
  }

  function Rank(c: SizeClass): nat {
    match c
    case Small => 0
    case Medium => 1
    case Large => 2
  }

  datatype Sizes = Sizes(titleFont: nat, actionFont: nat, chevron: nat, marginBottom: nat)

  /** The sizing table the component implements, one row per device class. */
  function SizeTable(c: SizeClass): Sizes {
    match c
    case Small => Sizes(16, 12, 14, 12)
    case Medium => Sizes(18, 14, 16, 16)
    case Large => Sizes(20, 15, 18, 20)
  }

  function TitleFontSize(isSmallDevice: bool, isMediumDevice: bool): (r: nat)
    ensures r == SizeTable(Classify(isSmallDevice, isMediumDevice)).titleFont
  {
    if isSmallDevice then 16 else if isMediumDevice then 18 else 20
  }

  function ActionFontSize(isSmallDevice: bool, isMediumDevice: bool): (r: nat)
    ensures r == SizeTable(Classify(isSmallDevice, isMediumDevice)).actionFont
  {
    if isSmallDevice then 12 else if isMediumDevice then 14 else 15
  }

  function ChevronSize(isSmallDevice: bool, isMediumDevice: bool): (r: nat)
    ensures r == SizeTable(Classify(isSmallDevice, isMediumDevice)).chevron
  {
    if isSmallDevice then 14 else if isMediumDevice then 16 else 18
  }

  function MarginBottom(isSmallDevice: bool, isMediumDevice: bool): (r: nat)
    ensures r == SizeTable(Classify(isSmallDevice, isMediumDevice)).marginBottom
  {
    if isSmallDevice then 12 else if isMediumDevice then 16 else 20
  }

  /** All four sizes of the helpers at once. */
  function SizesFor(isSmallDevice: bool, isMediumDevice: bool): Sizes {
    Sizes(TitleFontSize(isSmallDevice, isMediumDevice), ActionFontSize(isSmallDevice, isMediumDevice),
          ChevronSize(isSmallDevice, isMediumDevice), MarginBottom(isSmallDevice, isMediumDevice))
  }

  predicate NoLarger(x: Sizes, y: Sizes) {
    x.titleFont <= y.titleFont && x.actionFont <= y.actionFont &&
    x.chevron <= y.chevron && x.marginBottom <= y.marginBottom
  }

  /** Every size grows (weakly) from small to medium to large devices. */
  lemma SizesGrowWithDevice(small1: bool, medium1: bool, small2: bool, medium2: bool)
    requires Rank(Classify(small1, medium1)) <= Rank(Classify(small2, medium2))
    ensures NoLarger(SizesFor(small1, medium1), SizesFor(small2, medium2))
  {
  }

  /** The small flag wins when both flags are set. */
  lemma SmallFlagWins(isMediumDevice: bool)
    ensures SizesFor(true, isMediumDevice) == Sizes(16, 12, 14, 12)
  {
  }

  // ---------------------------------------------------------------------
  // What the component renders

  /** The props: the title, the optional action label, and whether an
      `onActionPress` callback was supplied. */
  datatype Props = Props(title: string, actionLabel: Option<string>, hasCallback: bool)

  /** JavaScript truthiness of an optional string: absent and "" are falsy. */
  predicate Truthy(s: Option<string>) {
    s.Some? && s.value != ""
  }

  /** The action control: its text, its sizes and what pressing it does. */
  datatype ActionControl = ActionControl(text: string, fontSize: nat, chevronSize: nat, onPress: Outcome)

  /** The decisions a render makes: title, sizes, and the optional action
      control. */
  datatype Header = Header(title: string, titleFontSize: nat, marginBottom: nat, action: Option<ActionControl>)

  function Render(props: Props, isSmallDevice: bool, isMediumDevice: bool): (h: Header)
    ensures h.title == props.title
    ensures h.action.Some? <==> Truthy(props.actionLabel)
    ensures h.action.Some? ==>
      h.action.value.text == props.actionLabel.value &&
      h.action.value.onPress == Dispatch(props.title, props.hasCallback)
    ensures var row := SizeTable(Classify(isSmallDevice, isMediumDevice));
      h.titleFontSize == row.titleFont && h.marginBottom == row.marginBottom &&
      (h.action.Some? ==> h.action.value.fontSize == row.actionFont && h.action.value.chevronSize == row.chevron)
  {
    var action :=
      if Truthy(props.actionLabel) then
        Some(ActionControl(props.actionLabel.value,
                           ActionFontSize(isSmallDevice, isMediumDevice),
                           ChevronSize(isSmallDevice, isMediumDevice),
                           Dispatch(props.title, props.hasCallback)))
      else None;
    Header(props.title, TitleFontSize(isSmallDevice, isMediumDevice), MarginBottom(isSmallDevice, isMediumDevice), action)
  }
}
