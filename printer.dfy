/** The printer panel: the text being typed, the chosen paper variant and the
    "magic" print that first sends the text to the enhancer. Its two print
    paths decide when a print request reaches the board. */
module PrinterComponent {
  import opened Types
  import opened JsText

  /** The textarea accepts at most this many characters. */
  const MaxLength := 120

  /** A call of the board's print handler with this text and variant. */
  datatype PrintRequest = PrintRequest(text: string, variant: Variant)

  /** How the awaited enhancer call ended: with a string, or by throwing. */
  datatype Enhanced = Resolved(text: string) | Threw

  /** The guard of the PRINT path, `!input.trim()` negated: the input has a
      character that is not whitespace. */
  predicate CanPrint(input: string)
  {
    Truthy(Trim(input))
  }

  /** The PRINT button is disabled exactly when the submit guard would turn the
      input away, that is when the input is whitespace only. */
  lemma PrintDisabledIffGuardRejects(input: string)
    ensures !CanPrint(input) <==> AllWhitespace(input)
    ensures !CanPrint("") && !CanPrint("   ") && CanPrint(" hi ")
  {
    BlankIffAllWhitespace(input);
    BlankIffAllWhitespace("");
    BlankIffAllWhitespace("   ");
    BlankIffAllWhitespace(" hi ");
    assert !IsWhitespace(" hi "[1]);
  }

  /** What the enhancer's result does to the board: a print of it exactly when
      it is a non-empty string. Whitespace-only text passes, since the trim
      guard of the PRINT path is not applied here. */
  function MagicOutcome(result: Enhanced, variant: Variant): (r: Option<PrintRequest>)
    ensures r.Some? <==> result.Resolved? && result.text != ""
    ensures r.Some? ==> r.value == PrintRequest(result.text, variant)
  {
    match result
    case Resolved(t) => if Truthy(t) then Some(PrintRequest(t, variant)) else None
    case Threw => None
  }

  /** The magic path lets through text the PRINT path refuses: every
      non-empty whitespace-only answer of the enhancer is printed as it is. */
  lemma MagicBypassesTrimGuard(s: string, variant: Variant)
    requires s != "" && AllWhitespace(s)
    ensures !CanPrint(s) && MagicOutcome(Resolved(s), variant) == Some(PrintRequest(s, variant))
  {
    BlankIffAllWhitespace(s);
  }

  class Printer {
    var input: string
    var isProcessing: bool
    var selectedVariant: Variant
    /** The variant captured by the magic print in flight: the handler reads
      `selectedVariant` from the render in which it was clicked. */
    var pendingVariant: Option<Variant>

    ghost predicate Valid()
      reads this
    {
      |input| <= MaxLength && (isProcessing <==> pendingVariant.Some?)
    }

    /** The Surprise Me / Vintage Polish button is disabled while a magic print
      is in flight. */
    predicate MagicEnabled()
      reads this
    {
      !isProcessing
    }

    /** The PRINT button is enabled exactly when the input is not blank. */
    predicate PrintEnabled()
      reads this
    {
      CanPrint(input)
    }

    constructor ()
      ensures Valid()
      ensures input == "" && !isProcessing && selectedVariant == Standard
      ensures !PrintEnabled() && MagicEnabled()
    {
      input := "";
      isProcessing := false;
      selectedVariant := Standard;
      pendingVariant := None;
    }

    /** The textarea's change handler; the field never holds more than 120
      characters. */
    method Edit(text: string)
      requires Valid() && |text| <= MaxLength
      modifies this
      ensures Valid()
      ensures input == text
      ensures isProcessing == old(isProcessing) && selectedVariant == old(selectedVariant)
      ensures pendingVariant == old(pendingVariant)
    {
      input := text;
    }

    /** A click on one of the paper buttons: the only way the variant changes. */
    method SelectVariant(v: Variant)
      requires Valid()
      modifies this
      ensures Valid()
      ensures selectedVariant == v
      ensures input == old(input) && isProcessing == old(isProcessing)
      ensures pendingVariant == old(pendingVariant)
    {
      selectedVariant := v;
    }

    /** handlePrint: refuse blank input without touching it; otherwise request
      one print of the untrimmed input with the current variant and clear the
      field. */
    method Submit() returns (request: Option<PrintRequest>)
      requires Valid()
      modifies this
      ensures Valid()
      ensures request.Some? <==> old(PrintEnabled())
      ensures request.Some? ==>
                request.value == PrintRequest(old(input), old(selectedVariant)) && input == ""
      ensures request.None? ==> input == old(input)
      ensures isProcessing == old(isProcessing) && selectedVariant == old(selectedVariant)
      ensures pendingVariant == old(pendingVariant)
    {
      if !CanPrint(input) {
        return None;
      }
      request := Some(PrintRequest(input, selectedVariant));
      input := "";
    }

    /** The click that starts handleMagicPrint: raise the processing flag and
      hand the current input (possibly empty) to the enhancer. A click while
      the flag is up hits a disabled button and does nothing. */
    method ClickMagic() returns (sent: Option<string>)
      requires Valid()
      modifies this
      ensures Valid()
      ensures old(isProcessing) ==> sent.None? && isProcessing && pendingVariant == old(pendingVariant)
      ensures !old(isProcessing) ==>
                sent == Some(old(input)) && isProcessing && pendingVariant == Some(old(selectedVariant))
      ensures input == old(input) && selectedVariant == old(selectedVariant)
    {
      if isProcessing {
        return None;
      }
      isProcessing := true;
      pendingVariant := Some(selectedVariant);
      sent := Some(input);
    }

    /** The rest of handleMagicPrint once the enhancer has answered: print the
      answer with the variant of the click and clear the field when the answer
      is a non-empty string; keep the field otherwise. On every path, thrown
      errors included, the flag is lowered at the end. */
    method CompleteMagic(result: Enhanced) returns (request: Option<PrintRequest>)
      requires Valid() && isProcessing
      modifies this
      ensures Valid()
      ensures request == MagicOutcome(result, old(pendingVariant).value)
      ensures input == if request.Some? then "" else old(input)
      ensures !isProcessing && MagicEnabled()
      ensures selectedVariant == old(selectedVariant)
    {
      request := None;
      match result {
        case Resolved(text) =>
          if Truthy(text) {
            request := Some(PrintRequest(text, pendingVariant.value));
            input := "";
          }
        case Threw =>
      }
      isProcessing := false;
      pendingVariant := None;
    }
  }
}
