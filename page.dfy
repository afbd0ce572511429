/**
 * The sales page's own state (the pricing card's consent flag and whether the
 * checkout is open) together with the always-mounted checkout modal and the
 * FAQ section's tabs, and the handlers that change them.
 */
module Page {
  import opened Validation
  import opened Checkout
  import opened Tabs

  class SalesPage {
    /** The pricing card's consent checkbox; independent of `modal.consent`. */
    var consent: bool
    /** `checkoutOpen`, passed to the modal as its `open` prop. */
    var checkoutOpen: bool
    /** The checkout modal, mounted for the page's whole lifetime. */
    const modal: CheckoutModal
    /** The FAQ section's `<Tabs defaultValue="mission">`. */
    const tabs: TabsState

    constructor ()
      ensures !consent && !checkoutOpen
      ensures fresh(modal) && fresh(tabs)
      ensures modal.name == "" && modal.email == "" && modal.payment == Card && !modal.consent
      ensures tabs.value == DefaultPanel
    {
      consent, checkoutOpen := false, false;
      modal := new CheckoutModal();
      tabs := new TabsState(DefaultPanel);
    }

    /** `openCheckout`, wired to every "buy"-style button on the page. */
    method OpenCheckout()
      modifies this
      ensures checkoutOpen
      ensures consent == old(consent)
      ensures unchanged(modal) && unchanged(tabs)
    {
      checkoutOpen := true;
    }

    /** `closeCheckout`: the modal's close button, its "Abbrechen" link and its `onClose` prop. */
    method CloseCheckout()
      modifies this
      ensures !checkoutOpen
      ensures consent == old(consent)
      ensures unchanged(modal) && unchanged(tabs)
    {
      checkoutOpen := false;
    }

    /** The pricing card's consent checkbox. */
    method SetConsent(c: bool)
      modifies this
      ensures consent == c
      ensures checkoutOpen == old(checkoutOpen)
      ensures unchanged(modal) && unchanged(tabs)
    {
      consent := c;
    }

    /** "Jetzt kaufen" is `disabled={!consent}`, reading the page's flag only. */
    predicate BuyEnabled()
      reads this
    {
      consent
    }

    /** A click on "Jetzt kaufen": a disabled button fires no handler, an enabled one opens the checkout. */
    method ClickBuy()
      modifies this
      ensures checkoutOpen == (old(checkoutOpen) || old(BuyEnabled()))
      ensures consent == old(consent)
      ensures unchanged(modal) && unchanged(tabs)
    {
      if BuyEnabled() {
        OpenCheckout();
      }
    }

    /** The modal draws its dialog exactly while `checkoutOpen`; otherwise it returns `null`. */
    predicate DialogShown()
      reads this
    {
      checkoutOpen
    }

    /**
     * `handleSubmit`: an invalid form changes nothing; a valid one closes the
     * checkout. No field is cleared. The form only exists while the dialog is
     * shown, so a closed checkout stays closed.
     */
    method Submit()
      modifies this
      ensures checkoutOpen == (old(checkoutOpen) && !old(modal.FormValid()))
      ensures consent == old(consent)
      ensures unchanged(modal) && unchanged(tabs)
    {
      if DialogShown() && modal.FormValid() {
        CloseCheckout();
      }
    }

    /**
     * The outer dialog's `onClick`: it closes the checkout only when the
     * click's target is that outer element itself (`e.target === e.currentTarget`);
     * a click on any element inside it, backdrop and wrapper included, leaves it open.
     */
    method ClickOverlay(target: DialogElement)
      modifies this
      ensures checkoutOpen == (old(checkoutOpen) && target != DialogRoot)
      ensures consent == old(consent)
      ensures unchanged(modal) && unchanged(tabs)
    {
      if DialogShown() && target == DialogRoot {
        CloseCheckout();
      }
    }
  }

  /** Closing and reopening the checkout finds every field as it was left. */
  method CloseThenReopen(page: SalesPage)
    modifies page
    ensures page.checkoutOpen && page.consent == old(page.consent)
    ensures unchanged(page.modal) && unchanged(page.tabs)
  {
    page.CloseCheckout();
    page.OpenCheckout();
  }

  /** Ticking the pricing card's checkbox leaves the modal's consent as it was. */
  method SetPageConsentKeepsModal(page: SalesPage, c: bool)
    modifies page
    ensures page.consent == c && page.BuyEnabled() == c
    ensures page.modal.consent == old(page.modal.consent)
  {
    page.SetConsent(c);
  }

  /** Ticking the modal's checkbox leaves the pricing card's consent, and so "Jetzt kaufen", as it was. */
  method SetModalConsentKeepsPage(page: SalesPage, c: bool)
    modifies page.modal
    ensures page.modal.consent == c
    ensures page.consent == old(page.consent) && page.BuyEnabled() == old(page.BuyEnabled())
  {
    page.modal.SetConsent(c);
  }

  /**
   * A walk through the checkout: a one-letter name keeps the form invalid,
   * withheld consent keeps it invalid, and a valid form closes on submit.
   */
  method CheckoutWalkthrough()
  {
    var page := new SalesPage();
    assert !page.DialogShown();
    page.OpenCheckout();
    assert page.tabs.value == "mission";
    page.modal.SetName("M");
    assert !NameValid("M") by { NameValidIff("M"); }
    assert page.modal.SubmitDisabled();
    page.Submit();
    assert page.checkoutOpen;
    page.modal.SetName("Max");
    NameExamplesValid();
    page.modal.SetEmail("max@example.de");
    EmailExamples();
    assert !page.modal.EmailErrorVisible();
    assert !page.modal.FormValid();
    page.modal.SetConsent(true);
    assert page.modal.FormValid();
    page.Submit();
    assert !page.checkoutOpen;
    assert page.modal.name == "Max";
  }
}
