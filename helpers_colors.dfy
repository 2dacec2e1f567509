/** The colour constants and `Colorize` of src/helpers/colors.go, which main.go
    and src/main.go use. */
module HelperColors {
  import Sgr

  const Red: string := "\U{1B}[31m"
  const Green: string := "\U{1B}[32m"
  const GreenBg: string := "\U{1B}[42m"
  const Yellow: string := "\U{1B}[33m"
  const YellowBg: string := "\U{1B}[43m"
  const Blue: string := "\U{1B}[34m"
  const Black: string := "\U{1B}[30m"
  const Magenta: string := "\U{1B}[35m"
  const Cyan: string := "\U{1B}[36m"
  const CyanBg: string := "\U{1B}[46m"
  const White: string := "\U{1B}[37m"
  const Gray: string := "\U{1B}[90m"
  const GrayBg: string := "\U{1B}[100m"
  const Orange: string := "\U{1B}[38;5;208m"
  const Reset: string := "\U{1B}[0m"
  const Bold: string := "\U{1B}[1m"
  const Underline: string := "\U{1B}[4m"

  const All: seq<string> := [Red, Green, GreenBg, Yellow, YellowBg, Blue, Black, Magenta, Cyan,
                             CyanBg, White, Gray, GrayBg, Orange, Reset, Bold, Underline]

  /** Every constant is an SGR sequence with numeric parameters; all but
      `Orange` have a single number. */
  lemma ConstantsAreSequences()
    ensures forall k :: 0 <= k < |All| ==> Sgr.IsSequence(All[k]) && Sgr.NumericParameters(All[k])
    ensures forall k :: 0 <= k < |All| && All[k] != Orange ==> Sgr.DigitParameters(All[k])
    ensures Reset == [Sgr.Esc] + "[0m"
  {
  }

  /** `Colorize(text, colors...)`: each colour in turn wraps the text so far in
      itself and a reset. */
  method Colorize(text: string, colors: seq<string>) returns (r: string)
    ensures r == Sgr.Wrapped(text, colors, Reset)
    ensures colors == [] ==> r == text
  {
    r := text;
    var i := 0;
    while i < |colors|
      invariant 0 <= i <= |colors|
      invariant r == Sgr.Wrapped(text, colors[..i], Reset)
    {
      assert colors[..i + 1][..i] == colors[..i];
      r := colors[i] + r + Reset;
      i := i + 1;
    }
    assert colors[..i] == colors;
  }
}
