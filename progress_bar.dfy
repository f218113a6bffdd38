// The workbook's progress bar: an optional header with a label and the
// percentage, and a bar whose filled width is the progress kept within
// 0 and 100.

module ProgressBar {

  import opened Strings
  import opened Format

  datatype Size = Sm | Md | Lg

  /** The height class of each size. */
  function Height(size: Size): string {
    match size
    case Sm => "h-1.5"
    case Md => "h-2.5"
    case Lg => "h-4"
  }

  /** `Math.min(100, Math.max(0, progress))`. */
  function Clamp(progress: int): (r: int)
    ensures 0 <= r <= 100
    ensures 0 <= progress <= 100 ==> r == progress
    ensures progress < 0 ==> r == 0
    ensures progress > 100 ==> r == 100
  {
    if progress < 0 then 0 else if progress > 100 then 100 else progress
  }

  /** What the bar shows: the header row (when present) with its caption and
    * percentage text, the height class and the filled width in percent. */
  datatype Bar = Bar(header: bool, caption: Option<string>, percentText: Option<string>,
                     height: string, width: int)

  /** The bar for the given props; `showPercentage` defaults to true and
    * `size` to `Md`. */
  function Render(progress: int, labelText: Option<string>, showPercentage: Option<bool>,
                  size: Option<Size>): (r: Bar)
    ensures r.header <==> Truthy(labelText) || showPercentage != Some(false)
    ensures r.caption.Some? <==> Truthy(labelText)
    ensures r.caption.Some? ==> r.caption == labelText
    ensures r.percentText.Some? <==> showPercentage != Some(false)
    ensures r.percentText.Some? ==> ParseInt(r.percentText.value) == Some(progress)
    ensures r.height == Height(if size.Some? then size.value else Md)
    ensures 0 <= r.width <= 100
    ensures 0 <= progress <= 100 ==> r.width == progress
  {
    var show := if showPercentage.Some? then showPercentage.value else true;
    var sz := if size.Some? then size.value else Md;
    var text := IntToString(progress) + "%";
    ParseIntToString(progress, "%");
    Bar(Truthy(labelText) || show,
        if Truthy(labelText) then labelText else None,
        if show then Some(text) else None,
        Height(sz),
        Clamp(progress))
  }

  /** The three sizes give three different heights. */
  lemma HeightsDiffer(a: Size, b: Size)
    requires a != b
    ensures Height(a) != Height(b)
  {
  }

  /** A bar over 100 is drawn full while its text still says the value: the
    * text is not clamped. */
  lemma TextNotClamped(progress: int)
    requires progress > 100
    ensures var r := Render(progress, None, None, None);
            r.width == 100 && r.percentText.Some? && ParseInt(r.percentText.value) == Some(progress)
  {
  }
}
