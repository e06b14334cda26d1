/** The reading-progress bar: how an arbitrary JavaScript number becomes a fraction in
    [0, 1], the bar's size, and when the small bar is hidden. */
module ReadingProgressBar {
  import opened Wrappers

  /** A JavaScript number: NaN, an infinity, or a finite value (as a mathematical real). */
  datatype JsNumber = NaN | PosInfinity | NegInfinity | Finite(value: real)

  /** The two bar sizes; a missing `variant` prop means `Small`. */
  datatype Variant = Small | Large

  /** `variant = 'small'`: the prop's default. */
  function VariantOrDefault(v: Option<Variant>): Variant {
    v.GetOr(Small)
  }

  /** `clampProgress`: NaN and everything below 0 become 0, everything above 1 becomes 1,
      values in [0, 1] pass through. */
  function ClampProgress(v: JsNumber): (r: real)
    ensures 0.0 <= r <= 1.0
    ensures v.NaN? ==> r == 0.0
    ensures v.NegInfinity? || (v.Finite? && v.value < 0.0) ==> r == 0.0
    ensures v.PosInfinity? || (v.Finite? && v.value > 1.0) ==> r == 1.0
    ensures v.Finite? && 0.0 <= v.value <= 1.0 ==> r == v.value
  {
    match v
    case NaN => 0.0
    case NegInfinity => 0.0
    case PosInfinity => 1.0
    case Finite(x) => if x < 0.0 then 0.0 else if x > 1.0 then 1.0 else x
  }

  /** Clamping a clamped value changes nothing. */
  lemma ClampIdempotent(v: JsNumber)
    ensures ClampProgress(Finite(ClampProgress(v))) == ClampProgress(v)
  {
  }

  /** Clamping preserves the order of finite values. */
  lemma ClampMonotone(a: real, b: real)
    requires a <= b
    ensures ClampProgress(Finite(a)) <= ClampProgress(Finite(b))
  {
  }

  /** Track height: 10 for the large bar, 6 otherwise. */
  function BarHeight(variant: Variant): (h: real)
    ensures h > 0.0
    ensures variant.Large? ==> h == 10.0
    ensures variant.Small? ==> h == 6.0
  {
    if variant == Large then 10.0 else 6.0
  }

  /** Corner radius: half the height, so the bar ends are round. */
  function BorderRadius(variant: Variant): (r: real)
    ensures 2.0 * r == BarHeight(variant)
  {
    BarHeight(variant) / 2.0
  }

  /** Whether the bar renders anything: the small bar is hidden at no progress. */
  predicate Renders(variant: Variant, progress: JsNumber) {
    !(variant == Small && ClampProgress(progress) <= 0.0)
  }

  /** The large bar always renders; the small one exactly when there is positive progress. */
  lemma RenderRule(variant: Variant, progress: JsNumber)
    ensures variant == Large ==> Renders(variant, progress)
    ensures variant == Small ==>
              (Renders(variant, progress)
               <==> progress.PosInfinity? || (progress.Finite? && progress.value > 0.0))
  {
  }

  /** Without a `variant` prop the bar is the small one: 6 high, hidden at no progress. */
  lemma MissingVariantIsSmall(progress: JsNumber)
    ensures BarHeight(VariantOrDefault(None)) == 6.0
    ensures Renders(VariantOrDefault(None), progress) <==> ClampProgress(progress) > 0.0
    ensures forall v :: VariantOrDefault(Some(v)) == v
  {
  }
}
