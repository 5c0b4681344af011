/** The text part of `drawFrame`: the title and prompt font sizes, the
    prompt laid out with `wrapText` below the title, and the preview
    watermark shown to signed-out users. Gradients, the floating lights and
    the title's vertical bob are painting only and are left out. */
module Frame {
  import opened Wrappers
  import opened Account
  import opened JsString
  import opened WordWrap
  import opened Settings
  import opened Numbers

  /** `Math.round`: halves round up. */
  function Round(x: real): int
  {
    (x + 0.5).Floor
  }

  datatype TextLayout = TextLayout(titleFont: int, promptFont: int, promptLines: seq<TextDraw>, watermark: bool)

  /** The prompt block's geometry for a canvas of width `w` and height `h`:
      centred at `w/2`, first line at `0.56 h`, at most `0.78 w` wide,
      lines `round(min(w/26, 40))` apart. */
  function PromptX(w: nat): real { w as real / 2.0 }
  function PromptY(h: nat): real { h as real * 0.56 }
  function PromptMaxWidth(w: nat): real { w as real * 0.78 }
  function PromptLineHeight(w: nat): int { Round(MinReal(w as real / 26.0, 40.0)) }

  /** The text drawn on one frame. `measure` is `ctx.measureText` under the
      prompt font. */
  method DrawFrameText(measure: string -> real, w: nat, h: nat, prompt: string, user: Option<User>)
    returns (layout: TextLayout)
    ensures layout.watermark <==> !SignedIn(user)
    ensures |layout.promptLines| >= 1
    ensures layout.promptLines
         == Layout(Wrap(measure, PromptMaxWidth(w), Split(prompt)), PromptX(w), PromptY(h), PromptLineHeight(w) as real)
    ensures 0 <= layout.titleFont <= 64 && 0 <= layout.promptFont <= 28
    ensures w >= 896 ==> layout.titleFont == 64
    ensures w >= 1008 ==> layout.promptFont == 28
    ensures layout.titleFont == Round(MinReal(w as real / 14.0, 64.0))
    ensures layout.promptFont == Round(MinReal(w as real / 36.0, 28.0))
  {
    var titleFont := Round(MinReal(w as real / 14.0, 64.0));
    var promptFont := Round(MinReal(w as real / 36.0, 28.0));
    var lines := WrapText(measure, prompt, PromptX(w), PromptY(h), PromptMaxWidth(w), PromptLineHeight(w) as real);
    layout := TextLayout(titleFont, promptFont, lines, !SignedIn(user));
  }

  /** For every size in the aspect table the caps apply: title 64 px,
      prompt 28 px, prompt lines 40 px apart. */
  lemma TableSizesUseCappedFonts(key: string)
    requires AspectSize(key).Some?
    ensures var s := AspectSize(key).value;
      && Round(MinReal(s.w as real / 14.0, 64.0)) == 64
      && Round(MinReal(s.w as real / 36.0, 28.0)) == 28
      && PromptLineHeight(s.w) == 40
  {
  }
}
