# NextGen sales page: checkout and tabs model

The repository is a single React landing page (`src/App.js`) selling a
trading-strategy PDF. Almost all of it is static markup. What behaves is:

- the checkout modal's three validators: `emailValid` (the unanchored
  regular expression `/\S+@\S+\.\S+/`), `nameValid` (`name.trim().length > 1`)
  and `formValid` (both of those and the modal's consent box);
- the checkout state: `checkoutOpen`, owned by the page, and the modal's
  fields `name`, `email`, payment method and `consent`, owned by the modal,
  which stays mounted and renders `null` while closed;
- the guarded submit, the overlay click that closes only when its target is
  the outer dialog element, and the close buttons;
- the FAQ section's tabs: one active value, starting at `"mission"`, set by
  each trigger, with a panel rendered exactly when its value is the active one;
- the pricing card's own consent flag, which enables "Jetzt kaufen" and is
  independent of the modal's flag.

Modules: `Text` (the ECMAScript whitespace set and `trim`), `Validation`
(the three validators and the inline e-mail error), `Tabs` (the `TabsState`
class and panel rendering), `Checkout` (the `CheckoutModal` class with its
fields and setters) and `Page` (the `SalesPage` class owning `consent`,
`checkoutOpen`, the modal and the tabs, with its handlers).

Four behaviours of the code are easy to misread:

- The e-mail test is unanchored, so `"x y@b.c"` passes although it holds
  whitespace (`Validation.EmailExamples`, `Validation.EmailValidUnanchored`).
- Closing the checkout does not clear the form; reopening shows the old
  values (`Page.CloseThenReopen`).
- The overlay handler closes only when the click's target is the outer
  `role="dialog"` element. The dimmed backdrop and the centering wrapper are
  children of that element, so clicks on them do not close
  (`Page.SalesPage.ClickOverlay`).
- The tab value is any string, as in the code; the page's three triggers
  only ever pass `"mission"`, `"faq"` and `"insights"`.

## Model

| member | source | states |
|---|---|---|
| Text.IsWs | src/App.js:224-225 | the ECMAScript WhiteSpace and LineTerminator characters, the set `\S` excludes and `trim()` removes |
| Text.Utf16Length | src/App.js:225 | JavaScript's `length`: one code unit per character, two for an astral one, so between the character count and twice it |
| Text.Trim | src/App.js:225 | `trim()`: no longer than its input (its full meaning is `Text.TrimSpec`) |
| Text.TrimStartSpec | src/App.js:225 | the leading-whitespace step of `trim()` removes exactly the longest whitespace prefix: what remains is a suffix, everything removed is whitespace, and it is empty or starts with a non-whitespace character |
| Text.TrimEndSpec | src/App.js:225 | the trailing-whitespace step removes exactly the longest whitespace suffix, symmetrically |
| Text.TrimSpec | src/App.js:225 | `trim()` returns a slice of its input with only whitespace around it, empty or starting and ending with non-whitespace |
| Text.TrimIdempotent | src/App.js:225 | trimming twice gives the same as trimming once |
| Text.TrimEmptyIff | src/App.js:225 | the trimmed string is empty exactly when the input is all whitespace |
| Validation.EmailValid | src/App.js:224 | `/\S+@\S+\.\S+/.test(email)`: some slice of the e-mail is in the pattern's language |
| Validation.EmailErrorShown | src/App.js:363 | `!emailValid && email.length > 0` |
| Validation.EmailValidIff | src/App.js:224 | the unanchored test holds exactly when some '@' at p has a non-whitespace character before it, a non-empty whitespace-free run after it up to a '.' at q, and a non-whitespace character after that '.' |
| Validation.MatchGivesShortest | src/App.js:224 | any slice matching the whole pattern yields such a shortest match |
| Validation.ShortestGivesMatch | src/App.js:224 | any shortest match makes the test succeed |
| Validation.EmailValidUnanchored | src/App.js:224 | any text before or after a valid address keeps it valid |
| Validation.EmailValidShape | src/App.js:224 | a valid address has at least five characters, an '@' and a '.' |
| Validation.EmailExamples | src/App.js:224 | `""`, `"a@b"` and `"a.com"` fail; `"max@example.de"` and `"x y@b.c"` pass |
| Validation.EmailErrorShownIff | src/App.js:363-367 | the inline e-mail error shows exactly when the field is non-empty and has no shortest match; never on an empty field |
| Validation.NameValid | src/App.js:225 | `name.trim().length > 1`, with the length in UTF-16 code units |
| Validation.NameValidIff | src/App.js:225 | the trimmed name is longer than one code unit exactly when the name holds two non-whitespace characters or one non-whitespace character outside the Basic Multilingual Plane |
| Validation.NameValidOfAstral | src/App.js:225 | one non-whitespace astral character makes the name valid |
| Validation.NameExampleAstral | src/App.js:225 | a lone emoji, with or without surrounding spaces, is a valid name |
| Validation.NameValidOfPair | src/App.js:225 | two non-whitespace characters anywhere make the name valid |
| Validation.NameValidExtends | src/App.js:225 | typing more before or after a valid name keeps it valid |
| Validation.NameExamplesInvalid | src/App.js:225 | `""`, `" "` and `"a"` are invalid names |
| Validation.NameExamplesValid | src/App.js:225 | `"Al"` and `"Max"` are valid names |
| Validation.NameExampleFull | src/App.js:225 | `"Max Mustermann"` is a valid name |
| Validation.FormValid | src/App.js:226 | `emailValid && nameValid && consent` |
| Validation.FormValidIff | src/App.js:226 | the form is valid exactly when consent is given, the name holds two code units of non-whitespace text and the e-mail has a shortest match |
| Tabs.PanelVisible | src/App.js:123 | a panel renders exactly when its value equals the active one |
| Tabs.TabsState.TriggerActive | src/App.js:102 | a trigger is drawn as selected exactly when its value is the active one |
| Tabs.TabsState.ContentRendered | src/App.js:121-124 | a content panel of this `Tabs` renders exactly when its value is the active one |
| Tabs.Rendered | src/App.js:121-124 | the rendered panels are all the active value, and none renders exactly when the active value is not among them |
| Tabs.RenderedAtMostOne | src/App.js:121-124 | among panels with distinct values exactly the active one renders if present, otherwise none |
| Tabs.PageShowsActiveOnly | src/App.js:810-922 | on the page's three panels, the active one alone renders, and the default `"mission"` is one of them |
| Tabs.TabsState.constructor | src/App.js:73-74 | the active value starts at `defaultValue` |
| Tabs.TabsState.Select | src/App.js:100-105 | a trigger click sets the active value to exactly the trigger's value |
| Checkout.CheckoutModal.constructor | src/App.js:218-221 | the fields start as `""`, `""`, card and unticked |
| Checkout.CheckoutModal.SetName | src/App.js:337 | sets the name and leaves the other fields |
| Checkout.CheckoutModal.SetEmail | src/App.js:353 | sets the e-mail and leaves the other fields |
| Checkout.CheckoutModal.SetMethod | src/App.js:379-394 | sets the payment method and leaves the other fields |
| Checkout.CheckoutModal.SetConsent | src/App.js:411-415 | sets the modal's consent and leaves the other fields |
| Checkout.CheckoutModal.FormValid | src/App.js:226 | `formValid` over the modal's current name, e-mail and consent |
| Checkout.CheckoutModal.SubmitDisabled | src/App.js:443 | the submit button is disabled exactly when the form is not valid |
| Checkout.CheckoutModal.EmailErrorVisible | src/App.js:363-367 | the inline e-mail error for the modal's current e-mail |
| Checkout.CheckoutModal.SubmitEnabledIff | src/App.js:443 | the submit button is enabled exactly when consent is given, the name holds two code units of non-whitespace text and the e-mail has a shortest match |
| Page.SalesPage.constructor | src/App.js:462-464 | the page starts closed with its consent unticked, the modal's fields empty and the tabs on `"mission"` |
| Page.SalesPage.OpenCheckout | src/App.js:466 | opens the checkout, touching nothing else |
| Page.SalesPage.CloseCheckout | src/App.js:467 | closes the checkout, touching nothing else |
| Page.SalesPage.SetConsent | src/App.js:974-978 | sets the pricing card's consent only |
| Page.SalesPage.ClickBuy | src/App.js:986 | "Jetzt kaufen" opens the checkout exactly when the page's consent is ticked |
| Page.SalesPage.Submit | src/App.js:234-239 | submit closes the checkout exactly when it was open with a valid form, and changes nothing else |
| Page.SalesPage.ClickOverlay | src/App.js:246 | an overlay click closes the checkout exactly when its target is the outer dialog element |
| Page.CloseThenReopen | src/App.js:1132 | closing and reopening leaves the modal's fields and the tabs as they were |
| Page.SetPageConsentKeepsModal | src/App.js:976-977 | ticking the pricing card's checkbox sets the page's consent and leaves the modal's consent as it was |
| Page.SetModalConsentKeepsPage | src/App.js:413-414 | ticking the modal's checkbox sets the modal's consent and leaves the page's consent and "Jetzt kaufen" as they were |
| Page.SalesPage.BuyEnabled | src/App.js:986 | "Jetzt kaufen" is enabled exactly when the page's consent is ticked |
| Page.SalesPage.DialogShown | src/App.js:232 | the modal renders its dialog exactly while `checkoutOpen` |
| Page.CheckoutWalkthrough | src/App.js:218-239 | a one-letter name keeps submit disabled, a valid name and e-mail without consent keep the form invalid, consent makes it valid, and submit then closes the checkout with the fields kept |

## Left out

- Styling, layout helpers (`Button`, `Card*`, `Icon`, `Bullet`, `TrustBar`) and section markup: presentation only.
- The `CONFIG` texts, prices, FAQ entries and comparison rows: static data.
- Focusing the first field after opening, smooth scrolling to `#faq`, the `alert` stub and `preventDefault` in submit: DOM side effects; submit is modelled only by its state change.
- The React context carrying the tab state and the error thrown outside `<Tabs>`: panels and triggers take the `TabsState` object directly, so misuse cannot be expressed.
- The newsletter form, the "Beitreten" button, footer links and the copyright year: no logic.
- Hit-testing: which element a click lands on is a parameter of `ClickOverlay`; layout is not modelled.
- Strings are sequences of Unicode scalar values, so strings holding unpaired surrogates are not modelled. JavaScript's `length` counts UTF-16 code units, which `Text.Utf16Length` models, so a lone astral character such as an emoji is a valid name. Every whitespace character is in the Basic Multilingual Plane, so `\S` and `trim()` agree with `IsWs` on each half of a surrogate pair.
- The Zs category in `IsWs` is that of current Unicode; an engine built on an older version may differ (for instance on U+180E).
