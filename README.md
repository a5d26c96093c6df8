# SectionHeader decision logic, in Dafny

This project models the decisions made by the `SectionHeader` component of a
mobile shopping app (`components/common/SectionHeader.tsx`). The component
shows a section title and, optionally, an action control labelled with the
`actionLabel` prop. It makes three kinds of decision, and the model covers
all three:

- **Action-press dispatch** (`handleActionPress`). If the caller passed an
  `onActionPress` callback, a press invokes it. Otherwise the title is
  lower-cased and tested for keywords in a fixed order, first match wins:
  "categories" (or "popular categories") opens `/(tabs)/products`; "flash" or
  "sale" opens the products list with filter `flash-sale`; "featured" opens it
  with filter `featured`; "wishlist" opens `/(tabs)/wishlist`. Any other
  title shows an alert titled `<title> - See All` with three buttons: "Browse
  All" (opens the products list), "Filter Options" (shows a second alert
  titled "Filters") and "Cancel" (cancel style, no effect).
- **Responsive sizing**. Four helpers map the device flags `isSmallDevice`
  and `isMediumDevice` to the title font size, action font size, chevron size
  and bottom margin. The small flag is tested first, then the medium flag;
  "large" is the fallback.
- **Action-control visibility**. The control is rendered only when
  `actionLabel` is truthy, so an absent or empty label means no control and
  no press.

Navigation (`router.push`) and alerts (`Alert.alert`) are not performed: the
dispatch returns them as an `Outcome` value (`InvokeCallback`,
`Navigate(Navigation(path, filter))` or `Prompt(alertTitle, choices)`). The
device flags are plain boolean parameters, and the callback is represented
only by whether it was supplied.

Files:

- `wrappers.dfy`: module `Wrappers`, the `Option` datatype.
- `text.dfy`: module `Text`, an ASCII model of `toLowerCase` (`ToLower`) and
  of `includes` (`Contains`, a scan over start indices), with the lemma that
  the scan finds exactly the occurrences `s[i..i+|pat|] == pat`.
- `section_header.dfy`: module `SectionHeader`, the dispatch (`Dispatch`),
  the same dispatch read off an ordered rule table (`TableDispatch`), the
  sizing helpers and their table, and `Render`, the decisions one render
  makes.
- `section_header_examples.dfy`: module `SectionHeaderExamples`, the
  behaviour on concrete titles.

## Model

| member | source | states |
|---|---|---|
| `SectionHeader.Dispatch` | components/common/SectionHeader.tsx:16-47 | A press invokes the callback exactly when one was supplied; every navigation goes to one of the four targets (products, products with `flash-sale`, products with `featured`, wishlist); the fallback alert is titled `title + " - See All"` and carries the three buttons in order |
| `SectionHeaderExamples.CallbackAlwaysWins` | components/common/SectionHeader.tsx:17-18 | With a callback supplied, every title gives `InvokeCallback` and no navigation or alert |
| `SectionHeader.PopularCategoriesSubsumed` | components/common/SectionHeader.tsx:21 | A title containing "popular categories" contains "categories", so the second disjunct of the first test never changes its value |
| `SectionHeader.CategoriesRuleFirst` | components/common/SectionHeader.tsx:21-22 | Without a callback, the press opens the unfiltered products list if and only if the lower-cased title contains "categories", whatever other keywords it contains |
| `SectionHeader.FlashSaleRuleSecond` | components/common/SectionHeader.tsx:23-27 | The `flash-sale` filter is chosen if and only if "categories" is absent and "flash" or "sale" is present |
| `SectionHeader.FeaturedRuleThird` | components/common/SectionHeader.tsx:28-32 | The `featured` filter is chosen if and only if none of "categories", "flash", "sale" is present and "featured" is |
| `SectionHeader.WishlistRuleFourth` | components/common/SectionHeader.tsx:33-34 | The wishlist opens if and only if none of the earlier keywords is present and "wishlist" is |
| `SectionHeader.FallbackPrompt` | components/common/SectionHeader.tsx:35-44 | The alert is shown if and only if no keyword is present; its buttons are exactly "Browse All" (products), "Filter Options" (the "Filters" alert) and "Cancel" (cancel style, no action), in that order |
| `SectionHeader.FirstMatch` | components/common/SectionHeader.tsx:21-34 | Over an ordered rule list: no result exactly when no rule fires; otherwise the result is the target of a rule that fires and no earlier rule fires |
| `SectionHeader.DispatchFollowsRules` | components/common/SectionHeader.tsx:16-47 | The if/else-if chain equals the first-match evaluation of the ordered table categories, flash/sale, featured, wishlist, with the alert when nothing matches |
| `SectionHeader.SameLowerSameDispatch` | components/common/SectionHeader.tsx:21-44 | Two titles with the same lower-case form get the same navigation or callback, or both get the alert with the same buttons (only the alert title, which repeats the title as written, may differ) |
| `SectionHeader.CaseInsensitive` | components/common/SectionHeader.tsx:21-33 | A title and its lower-case form are dispatched alike, up to the alert title |
| `Text.LowerChar` | components/common/SectionHeader.tsx:21 | Lower-casing one character yields no upper-case letter, maps `A`-`Z` to `a`-`z` and keeps every other character |
| `Text.ToLower` | components/common/SectionHeader.tsx:21 | The lower-cased title has the same length and no upper-case letter; each `A`-`Z` becomes the corresponding `a`-`z` and every other character is kept |
| `Text.Contains` | components/common/SectionHeader.tsx:21-33 | `includes`: a found pattern is never longer than the string, and the empty pattern is found in every string |
| `SectionHeader.Mentions` | components/common/SectionHeader.tsx:21-33 | `title.toLowerCase().includes(keyword)` holds exactly when the keyword occurs at some index of the lower-cased title |
| `Text.ToLowerIdempotent` | components/common/SectionHeader.tsx:21-33 | Lower-casing twice is lower-casing once |
| `Text.ContainsIff` | components/common/SectionHeader.tsx:21 | The `includes` scan succeeds exactly when the pattern occurs at some index of the string |
| `Text.ContainsTransitive` | components/common/SectionHeader.tsx:21 | If `s` contains `p` and `p` contains `q`, then `s` contains `q` |
| `SectionHeader.Classify` | components/common/SectionHeader.tsx:50-72 | The device class is small exactly when the small flag is set, and large exactly when neither flag is set |
| `SectionHeader.TitleFontSize` | components/common/SectionHeader.tsx:50-54 | The title font size is the table's entry for the device class: 16, 18, 20 |
| `SectionHeader.ActionFontSize` | components/common/SectionHeader.tsx:56-60 | The action font size is the table's entry for the device class: 12, 14, 15 |
| `SectionHeader.ChevronSize` | components/common/SectionHeader.tsx:62-66 | The chevron size is the table's entry for the device class: 14, 16, 18 |
| `SectionHeader.MarginBottom` | components/common/SectionHeader.tsx:68-72 | The bottom margin is the table's entry for the device class: 12, 16, 20 |
| `SectionHeader.SizesGrowWithDevice` | components/common/SectionHeader.tsx:50-72 | Every one of the four sizes is non-decreasing from small to medium to large |
| `SectionHeader.SmallFlagWins` | components/common/SectionHeader.tsx:50-72 | When the small flag is set the sizes are (16, 12, 14, 12), whatever the medium flag |
| `SectionHeader.Render` | components/common/SectionHeader.tsx:74-111 | The header shows the title; the action control exists if and only if `actionLabel` is present and non-empty, shows that label and dispatches the press as `Dispatch` does; all sizes follow the table for the device class |
| `SectionHeaderExamples.FalsyLabelHidesAction` | components/common/SectionHeader.tsx:91-109 | An absent or empty `actionLabel` yields no action control, for every title, callback and device |
| `SectionHeaderExamples.PopularCategoriesOpensProducts` | components/common/SectionHeader.tsx:21-22 | "Popular Categories" opens the unfiltered products list |
| `SectionHeaderExamples.FlashSaleOpensFlashSaleFilter` | components/common/SectionHeader.tsx:23-27 | "Flash Sale" opens the products list with filter `flash-sale` |
| `SectionHeaderExamples.MyWishlistOpensWishlist` | components/common/SectionHeader.tsx:33-34 | "My Wishlist" opens the wishlist |
| `SectionHeaderExamples.NewArrivalsShowsPrompt` | components/common/SectionHeader.tsx:35-44 | "New Arrivals" shows the "New Arrivals - See All" alert, whose "Cancel" button has no action |
| `SectionHeaderExamples.CategoriesBeatsSale` | components/common/SectionHeader.tsx:21-27 | The lower-cased "Sale Categories" mentions both "sale" and "categories", and the press opens the unfiltered products list (the first rule wins) |

## Left out

- Rendering itself (JSX layout, `StyleSheet` styles, colours, fonts, `activeOpacity`, `numberOfLines`, the `minHeight: 32` touch target): presentation with no decision in it. `Render` keeps only the decisions: which texts, which sizes, whether the action control exists and what its press does.
- `router.push`, `Alert.alert`, the `ChevronRight` icon and `useAppContext`: calls into libraries and the app context. Navigation and alerts are returned as values; the device flags are parameters. `isLargeDevice` is read from the context but never used, so it is not a parameter.
- The alert's message body (the "Explore more items in the … section" text and the "Filters" alert's demo text): display strings with no behaviour. The model keeps the alert titles and the buttons.
- The callback itself: it is opaque code of the caller, so the model records only whether it was supplied and that the press invokes it.
- `Text.ToLower`: models ASCII lower-casing only; JavaScript's `toLowerCase` applies full Unicode case mapping (for example the Kelvin sign lower-cases to `k`, and `İ` to two characters), which the model does not capture.
- types/cart.ts is not part of this model: it only declares the `CartItem` record shape, with no operation and no invariant enforced by the code.
