/**
 * The checkout modal's own state: the four form fields, which live as long as
 * the page does (the modal is always mounted and returns `null` only after
 * its state hooks have run, so closing it keeps what was typed).
 */
module Checkout {
  import opened Validation

  /** The two radio buttons of "Zahlungsmethode". */
  datatype PaymentMethod = Card | PayPal

  /**
   * Where a click inside the open dialog lands: the outer `role="dialog"`
   * element itself, the dimmed backdrop layer, the centering wrapper, or the
   * white card (and anything inside it).
   */
  datatype DialogElement = DialogRoot | Backdrop | CenteringWrapper | CardContent

  class CheckoutModal {
    var name: string
    var email: string
    var payment: PaymentMethod
    var consent: bool

    constructor ()
      ensures name == "" && email == "" && payment == Card && !consent
    {
      name, email, payment, consent := "", "", Card, false;
    }

    /** The name field's `onChange`. */
    method SetName(v: string)
      modifies this
      ensures name == v
      ensures email == old(email) && payment == old(payment) && consent == old(consent)
    {
      name := v;
    }

    /** The e-mail field's `onChange`. */
    method SetEmail(v: string)
      modifies this
      ensures email == v
      ensures name == old(name) && payment == old(payment) && consent == old(consent)
    {
      email := v;
    }

    /** Either radio button's `onChange`. */
    method SetMethod(m: PaymentMethod)
      modifies this
      ensures payment == m
      ensures name == old(name) && email == old(email) && consent == old(consent)
    {
      payment := m;
    }

    /** The modal's consent checkbox. */
    method SetConsent(c: bool)
      modifies this
      ensures consent == c
      ensures name == old(name) && email == old(email) && payment == old(payment)
    {
      consent := c;
    }

    /** `formValid` over the current fields. */
    predicate FormValid()
      reads this
    {
      Validation.FormValid(name, email, consent)
    }

    /** "Zahlung fortsetzen" is `disabled={!formValid}`. */
    predicate SubmitDisabled()
      reads this
    {
      !FormValid()
    }

    /** The red "Bitte eine gültige E-Mail eingeben." line under the e-mail field. */
    predicate EmailErrorVisible()
      reads this
    {
      EmailErrorShown(email)
    }

    /**
     * The submit button is enabled exactly when consent is given, the name
     * holds two code units of non-whitespace text and the e-mail has a
     * shortest match.
     */
    lemma SubmitEnabledIff()
      ensures !SubmitDisabled() <==>
        && consent
        && TwoCodeUnitsOfText(name)
        && (exists p, q :: ShortestMatchAt(email, p, q))
    {
      FormValidIff(name, email, consent);
    }
  }
}
