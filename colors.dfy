/** The colour constants and `Colorize` of src/colors/colors.go, a second copy
    with fewer constants. */
module Colors {
  import Sgr

  const Red: string := "\U{1B}[31m"
  const Green: string := "\U{1B}[32m"
  const Yellow: string := "\U{1B}[33m"
  const Blue: string := "\U{1B}[34m"
  const Magenta: string := "\U{1B}[35m"
  const Cyan: string := "\U{1B}[36m"
  const White: string := "\U{1B}[37m"
  const Gray: string := "\U{1B}[90m"
  const Reset: string := "\U{1B}[0m"
  const Bold: string := "\U{1B}[1m"
  const Underline: string := "\U{1B}[4m"

  const All: seq<string> := [Red, Green, Yellow, Blue, Magenta, Cyan, White, Gray, Reset, Bold, Underline]

  /** Every constant is an SGR sequence whose parameter is one number. */
  lemma ConstantsAreSequences()
    ensures forall k :: 0 <= k < |All| ==> Sgr.IsSequence(All[k]) && Sgr.DigitParameters(All[k])
    ensures Reset == [Sgr.Esc] + "[0m"
  {
  }

  /** `Colorize(text, colors...)`, the same loop as the helpers copy. */
  method Colorize(text: string, colors: seq<string>) returns (r: string)
    ensures r == Sgr.Wrapped(text, colors, Reset)
    ensures colors == [] ==> r == text
  {
    r := text;
    var i := 0;
    while i < |colors|
      invariant 0 <= i <= |colors|
      invariant r == Sgr.Wrapped(text, colors[..i], Reset)
    {
      assert colors[..i + 1][..i] == colors[..i];
      r := colors[i] + r + Reset;
      i := i + 1;
    }
    assert colors[..i] == colors;
  }
}
