/** The patient's consent screen (components/LegalConsent.tsx): the identity
    document is kept upper-cased, and the consent button is enabled once the
    document looks long enough and the terms box is ticked. */
module LegalConsent {

  import opened Text

  /** The input's `onChange`: what is stored is the typed text upper-cased. */
  function OnDniInput(typed: string): (stored: string)
    ensures |stored| == |typed|
    ensures forall i :: 0 <= i < |stored| ==> !IsLowerLetter(stored[i])
    ensures forall i :: 0 <= i < |typed| ==> !IsLowerLetter(typed[i]) ==> stored[i] == typed[i]
    ensures forall i :: 0 <= i < |typed| ==> LowerChar(stored[i]) == LowerChar(typed[i])
  {
    ToUpper(typed)
  }

  /** `isValidDni`: at least eight characters once surrounding white space is
      dropped. Nothing else about the document is checked. */
  predicate IsValidDni(dni: string) {
    |Trim(dni)| >= 8
  }

  /** `disabled` of the consent button. */
  predicate ButtonDisabled(dni: string, checked: bool) {
    !checked || !IsValidDni(dni)
  }

  /** Whether the button shows its check icon. */
  predicate ShowsCheckIcon(dni: string, checked: bool) {
    IsValidDni(dni) && checked
  }

  /** The icon is shown exactly when the button is enabled, and that is when
      the box is ticked and the document is valid. */
  lemma IconIffEnabled(dni: string, checked: bool)
    ensures ShowsCheckIcon(dni, checked) <==> !ButtonDisabled(dni, checked)
    ensures !ButtonDisabled(dni, checked) <==> checked && |Trim(dni)| >= 8
  {
  }

  /** For a document typed without surrounding white space, validity is a
      length of at least eight. */
  lemma ValidDniLength(dni: string)
    requires dni == [] || (!IsWhitespace(dni[0]) && !IsWhitespace(dni[|dni| - 1]))
    ensures IsValidDni(dni) <==> |dni| >= 8
  {
    assert TrimStart(dni) == dni;
  }

  /** White space around the document does not count towards its length. */
  lemma PaddingIgnored(w1: string, dni: string, w2: string)
    requires AllWhitespace(w1) && AllWhitespace(w2)
    ensures IsValidDni(w1 + dni + w2) <==> IsValidDni(dni)
  {
    TrimIgnoresPadding(w1, dni, w2);
  }

  /** Upper-casing on input never changes whether a document is valid. */
  lemma UpperCasingKeepsValidity(typed: string)
    ensures IsValidDni(OnDniInput(typed)) <==> IsValidDni(typed)
  {
    var stored := OnDniInput(typed);
    forall i | 0 <= i < |typed| ensures IsWhitespace(stored[i]) <==> IsWhitespace(typed[i]) {
      assert stored[i] == UpperChar(typed[i]);
    }
    TrimSameSpacing(stored, typed);
  }
}
