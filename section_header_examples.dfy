/** The section header's behaviour on concrete titles. For each title the
    lower-case form and the keyword facts about it are settled first; the
    dispatch then follows from the rule lemmas. */
module SectionHeaderExamples {
  import opened Wrappers
  import opened Text
  import opened SectionHeader

  /** With a callback supplied, every title invokes it and nothing else. */
  lemma CallbackAlwaysWins(title: string)
    ensures Dispatch(title, true) == InvokeCallback
  {
  }

  lemma PopularCategoriesLowered()
    ensures ToLower("Popular Categories") == "popular categories"
  {
  }

  lemma PopularCategoriesOpensProducts()
    ensures Dispatch("Popular Categories", false) == Navigate(Products)
  {
    PopularCategoriesLowered();
    CategoriesInPopularCategories();
    CategoriesRuleFirst("Popular Categories");
  }

  lemma FlashSaleLowered()
    ensures ToLower("Flash Sale") == "flash sale"
  {
  }

  lemma FlashSaleKeywords()
    ensures !Contains("flash sale", "categories") && Contains("flash sale", "flash")
  {
  }

  lemma FlashSaleOpensFlashSaleFilter()
    ensures Dispatch("Flash Sale", false) == Navigate(FlashSaleProducts)
  {
    FlashSaleLowered();
    FlashSaleKeywords();
    FlashSaleRuleSecond("Flash Sale");
  }

  lemma MyWishlistLowered()
    ensures ToLower("My Wishlist") == "my wishlist"
  {
  }

  lemma MyWishlistKeywords()
    ensures !Contains("my wishlist", "categories") && !Contains("my wishlist", "flash")
    ensures !Contains("my wishlist", "sale") && !Contains("my wishlist", "featured")
    ensures Contains("my wishlist", "wishlist")
  {
  }

  lemma MyWishlistOpensWishlist()
    ensures Dispatch("My Wishlist", false) == Navigate(Wishlist)
  {
    MyWishlistLowered();
    MyWishlistKeywords();
    WishlistRuleFourth("My Wishlist");
  }

  lemma NewArrivalsLowered()
    ensures ToLower("New Arrivals") == "new arrivals"
  {
  }

  lemma NewArrivalsKeywords()
    ensures !Contains("new arrivals", "categories") && !Contains("new arrivals", "flash")
    ensures !Contains("new arrivals", "sale") && !Contains("new arrivals", "featured")
    ensures !Contains("new arrivals", "wishlist")
  {
  }

  /** "New Arrivals" matches no rule, so it shows the alert; its Cancel
      button navigates nowhere. */
  lemma NewArrivalsShowsPrompt()
    ensures Dispatch("New Arrivals", false) == Prompt("New Arrivals - See All", SeeAllChoices)
    ensures Dispatch("New Arrivals", false).choices[2].onPress == NoAction
  {
    NewArrivalsLowered();
    NewArrivalsKeywords();
    FallbackPrompt("New Arrivals");
  }

  lemma SaleCategoriesLowered()
    ensures ToLower("Sale Categories") == "sale categories"
  {
  }

  lemma SaleCategoriesKeywords()
    ensures Contains("sale categories", "sale") && Contains("sale categories", "categories")
  {
    var s := "sale categories";
    ContainsIff(s, "sale");
    assert s[0..4] == "sale";
    assert OccursAt(s, "sale", 0);
    ContainsIff(s, "categories");
    assert s[5..15] == "categories";
    assert OccursAt(s, "categories", 5);
  }

  /** A title that mentions both "categories" and "sale" takes the first rule. */
  lemma CategoriesBeatsSale()
    ensures Mentions("Sale Categories", "sale") && Mentions("Sale Categories", "categories")
    ensures Dispatch("Sale Categories", false) == Navigate(Products)
  {
    SaleCategoriesLowered();
    SaleCategoriesKeywords();
    CategoriesRuleFirst("Sale Categories");
  }

  /** An absent or empty action label hides the control, so nothing can be
      pressed. */
  lemma FalsyLabelHidesAction(title: string, hasCallback: bool, isSmallDevice: bool, isMediumDevice: bool)
    ensures Render(Props(title, Some(""), hasCallback), isSmallDevice, isMediumDevice).action == None
    ensures Render(Props(title, None, hasCallback), isSmallDevice, isMediumDevice).action == None
  {
  }
}
