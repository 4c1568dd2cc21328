/** The tour document: defaults and setters applied on creation, the field
    validators, and the query and aggregate hooks that hide secret tours.
    Numbers are JavaScript numbers, modelled as `real` (their rounding is
    not part of the model). */
module TourModel {
  import opened Wrappers
  import opened Strings
  import opened Json
  import opened AppErrors
  import opened Queries

  /** The fields a request supplies. */
  datatype TourInput = TourInput(
    name: Option<string>,
    duration: Option<real>,
    maxGroupSize: Option<real>,
    difficulty: Option<string>,
    ratingsAverage: Option<real>,
    ratingsQuantity: Option<real>,
    price: Option<real>,
    priceDiscount: Option<real>,
    summary: Option<string>,
    imageCover: Option<string>,
    secretTour: Option<bool>)

  /** A tour document after casting, setters and defaults. */
  datatype Tour = Tour(
    name: Option<string>,
    duration: Option<real>,
    maxGroupSize: Option<real>,
    difficulty: Option<string>,
    ratingsAverage: real,
    ratingsQuantity: real,
    price: Option<real>,
    priceDiscount: Option<real>,
    summary: Option<string>,
    imageCover: Option<string>,
    /** `createdAt` is declared as an array of dates, in milliseconds. */
    createdAt: seq<int>,
    secretTour: bool)

  function TrimOpt(o: Option<string>): (r: Option<string>)
    ensures r.Some? <==> o.Some?
    ensures r.Some? ==> r.value == Trim(o.value)
  {
    if o.Some? then Some(Trim(o.value)) else None
  }

  /** Casting and defaults: `name` and `summary` are trimmed;
      `ratingsAverage` defaults to 4.5, `ratingsQuantity` to 0 and
      `secretTour` to false; `createdAt` defaults to `[createdAtDefault]`. */
  function WithDefaults(t: TourInput, createdAtDefault: int): (r: Tour)
    ensures r.name == TrimOpt(t.name) && r.summary == TrimOpt(t.summary)
    ensures t.ratingsAverage.None? ==> r.ratingsAverage == 4.5
    ensures t.ratingsAverage.Some? ==> r.ratingsAverage == t.ratingsAverage.value
    ensures t.ratingsQuantity.None? ==> r.ratingsQuantity == 0.0
    ensures t.ratingsQuantity.Some? ==> r.ratingsQuantity == t.ratingsQuantity.value
    ensures t.secretTour.None? ==> !r.secretTour
    ensures t.secretTour.Some? ==> r.secretTour == t.secretTour.value
    ensures r.createdAt == [createdAtDefault]
    ensures r.duration == t.duration && r.maxGroupSize == t.maxGroupSize && r.difficulty == t.difficulty
    ensures r.price == t.price && r.priceDiscount == t.priceDiscount && r.imageCover == t.imageCover
  {
    Tour(TrimOpt(t.name), t.duration, t.maxGroupSize, t.difficulty,
         t.ratingsAverage.GetOr(4.5), t.ratingsQuantity.GetOr(0.0),
         t.price, t.priceDiscount, TrimOpt(t.summary), t.imageCover,
         [createdAtDefault], t.secretTour.GetOr(false))
  }

  /** A tour created at `now` by the schema as written: `default: Date.now()`
      calls `Date.now` once, when the schema is defined at `loadTime`, so
      that instant is every tour's default. */
  function NewTourAsWritten(t: TourInput, loadTime: int, now: int): Tour {
    WithDefaults(t, loadTime)
  }

  /** A tour created at `now` with `default: Date.now`, evaluated per
      document. */
  function NewTour(t: TourInput, now: int): Tour {
    WithDefaults(t, now)
  }

  /** As written, two tours created at different instants get the same
      creation date, so the default `-createdAt` sort cannot order them. */
  lemma CreatedAtAsWritten(a: TourInput, b: TourInput, loadTime: int, now1: int, now2: int)
    ensures NewTourAsWritten(a, loadTime, now1).createdAt == NewTourAsWritten(b, loadTime, now2).createdAt
    ensures NewTourAsWritten(a, loadTime, now1).createdAt == [loadTime]
  {
  }

  /** As intended, the creation date is the creation instant. */
  lemma CreatedAtIntended(a: TourInput, b: TourInput, now1: int, now2: int)
    requires now1 != now2
    ensures NewTour(a, now1).createdAt == [now1]
    ensures NewTour(a, now1).createdAt != NewTour(b, now2).createdAt
  {
  }

  // ---------------------------------------------------------------------------
  // Validation

  const Difficulties: seq<string> := ["easy", "medium", "difficult"]

  /** The first failing validator of each path, in schema order. `render`
      is JavaScript's rendering of a number, used for `{VALUE}`. */
  function ValidateTour(t: Tour, render: real -> string): (errors: seq<FieldError>)
    ensures errors == [] <==> ValidTour(t)
  {
    NameErrors(t.name) + Required(t.duration.Some?, "duration", "A tour must have a duration")
    + Required(t.maxGroupSize.Some?, "maxGroupSize", "A tour must have a group size")
    + DifficultyErrors(t.difficulty) + RatingErrors(t.ratingsAverage)
    + Required(t.price.Some?, "price", "A tour must have price")
    + DiscountErrors(t.priceDiscount, t.price, render)
    + Required(Present(t.summary), "summary", "A tour must have a summary")
    + Required(Present(t.imageCover), "imageCover", "A tour must have a cover image")
  }

  function Required(given: bool, path: string, message: string): seq<FieldError> {
    if given then [] else [FieldError(path, message)]
  }

  const NameTooLong := "A tour's name must be less than or equal to 40 characters"
  const NameTooShort := "A tour's name must be greater than or equal to 10 characters"

  /** `required`, then `maxlength`, then `minlength`. */
  function NameErrors(name: Option<string>): seq<FieldError> {
    if !Present(name) then [FieldError("name", "A tour must have a name")]
    else if |name.value| > 40 then [FieldError("name", NameTooLong)]
    else if |name.value| < 10 then [FieldError("name", NameTooShort)]
    else []
  }

  function DifficultyErrors(difficulty: Option<string>): seq<FieldError> {
    if !Present(difficulty) then [FieldError("difficulty", "A tour must have a difficulty")]
    else if difficulty.value !in Difficulties then [FieldError("difficulty", "Difficulty is either: difficult,medium or easy")]
    else []
  }

  function RatingErrors(rating: real): seq<FieldError> {
    if rating < 1.0 then [FieldError("ratingsAverage", "Rating must be above 1.0")]
    else if rating > 5.0 then [FieldError("ratingsAverage", "Rating must be below 5.0")]
    else []
  }

  /** `val < this.price`, skipped when there is no discount; comparing
      with an undefined price is false. */
  function DiscountErrors(discount: Option<real>, price: Option<real>, render: real -> string): seq<FieldError> {
    if discount.Some? && !(price.Some? && discount.value < price.value)
    then [FieldError("priceDiscount", DiscountMessage(render(discount.value)))]
    else []
  }

  function DiscountMessage(rendered: string): string {
    "Discount price (" + rendered + ") should be below regular price"
  }

  /** A tour the schema accepts. */
  predicate ValidTour(t: Tour) {
    && Present(t.name) && 10 <= |t.name.value| <= 40
    && t.duration.Some? && t.maxGroupSize.Some?
    && Present(t.difficulty) && t.difficulty.value in Difficulties
    && 1.0 <= t.ratingsAverage <= 5.0
    && t.price.Some?
    && (t.priceDiscount.None? || t.priceDiscount.value < t.price.value)
    && Present(t.summary) && Present(t.imageCover)
  }

  /** What a valid new tour is made of: a name of 10 to 40 characters once
      trimmed, a difficulty from the list, a discount below the price, and
      every required field. */
  lemma ValidNewTour(t: TourInput, createdAtDefault: int)
    requires ValidTour(WithDefaults(t, createdAtDefault))
    ensures t.name.Some? && 10 <= |Trim(t.name.value)| <= 40
    ensures t.difficulty.Some? && t.difficulty.value in ["easy", "medium", "difficult"]
    ensures t.duration.Some? && t.maxGroupSize.Some? && t.price.Some? && t.imageCover.Some?
    ensures t.summary.Some? && Trim(t.summary.value) != ""
    ensures t.priceDiscount.Some? ==> t.priceDiscount.value < t.price.value
    ensures t.ratingsAverage.Some? ==> 1.0 <= t.ratingsAverage.value <= 5.0
  {
  }

  /** The defaults themselves pass their validators: a tour without a
      rating is rated 4.5, within bounds, and is not secret. */
  lemma DefaultsAreValid(t: TourInput, createdAtDefault: int)
    requires t.ratingsAverage.None? && t.secretTour.None?
    ensures RatingErrors(WithDefaults(t, createdAtDefault).ratingsAverage) == []
    ensures !WithDefaults(t, createdAtDefault).secretTour
  {
  }

  /** A name that trims to 9 characters is refused with the minimum-length
      message, however it is padded. */
  lemma ShortNameRefused(t: TourInput, createdAtDefault: int)
    requires t.name.Some? && |Trim(t.name.value)| == 9
    ensures NameErrors(WithDefaults(t, createdAtDefault).name) == [FieldError("name", NameTooShort)]
  {
  }

  // ---------------------------------------------------------------------------
  // Updates

  /** `findByIdAndUpdate(id, body, { new: true, runValidators: true })`
      applied to a stored tour: every field the body gives replaces the
      stored one, through the same trimming setters; defaults are not
      applied again. */
  function ApplyPatch(t: Tour, p: TourInput): (r: Tour)
    ensures p.name.Some? ==> r.name == Some(Trim(p.name.value))
    ensures p.name.None? ==> r.name == t.name
    ensures p.summary.Some? ==> r.summary == Some(Trim(p.summary.value))
    ensures p.summary.None? ==> r.summary == t.summary
    ensures r.price == (if p.price.Some? then p.price else t.price)
    ensures r.priceDiscount == (if p.priceDiscount.Some? then p.priceDiscount else t.priceDiscount)
    ensures r.createdAt == t.createdAt
  {
    Tour(Override(TrimOpt(p.name), t.name),
         Override(p.duration, t.duration),
         Override(p.maxGroupSize, t.maxGroupSize),
         Override(p.difficulty, t.difficulty),
         p.ratingsAverage.GetOr(t.ratingsAverage),
         p.ratingsQuantity.GetOr(t.ratingsQuantity),
         Override(p.price, t.price),
         Override(p.priceDiscount, t.priceDiscount),
         Override(TrimOpt(p.summary), t.summary),
         Override(p.imageCover, t.imageCover),
         t.createdAt,
         p.secretTour.GetOr(t.secretTour))
  }

  /** A path the body gives replaces the stored one. */
  function Override<T>(given: Option<T>, stored: Option<T>): Option<T> {
    if given.Some? then given else stored
  }

  /** An empty body changes nothing. */
  lemma ApplyEmptyPatch(t: Tour)
    ensures ApplyPatch(t, TourInput(None, None, None, None, None, None, None, None, None, None, None)) == t
  {
  }

  /** Update validators: only the validators of the paths the body sets
      run, on the values as cast. Inside them `this` is not the document
      (`updateTour` passes no `context: 'query'`, so there is none), so
      `this.price` is undefined and the discount validator compares with
      undefined. */
  function ValidateUpdate(p: TourInput, render: real -> string): (errors: seq<FieldError>)
    ensures errors == [] <==> ValidUpdate(p)
  {
    NameUpdateErrors(p) + DifficultyUpdateErrors(p) + RatingUpdateErrors(p)
    + DiscountErrors(p.priceDiscount, None, render) + TextUpdateErrors(p)
  }

  function NameUpdateErrors(p: TourInput): (errors: seq<FieldError>)
    ensures errors == [] <==> (p.name.Some? ==> 10 <= |Trim(p.name.value)| <= 40)
  {
    if p.name.Some? then NameErrors(TrimOpt(p.name)) else []
  }

  function DifficultyUpdateErrors(p: TourInput): (errors: seq<FieldError>)
    ensures errors == [] <==> (p.difficulty.Some? ==> p.difficulty.value in Difficulties)
  {
    if p.difficulty.Some? then DifficultyErrors(p.difficulty) else []
  }

  function RatingUpdateErrors(p: TourInput): (errors: seq<FieldError>)
    ensures errors == [] <==> (p.ratingsAverage.Some? ==> 1.0 <= p.ratingsAverage.value <= 5.0)
  {
    if p.ratingsAverage.Some? then RatingErrors(p.ratingsAverage.value) else []
  }

  function TextUpdateErrors(p: TourInput): (errors: seq<FieldError>)
    ensures errors == [] <==> (p.summary.Some? ==> Trim(p.summary.value) != "") && (p.imageCover.Some? ==> p.imageCover.value != "")
  {
    (if p.summary.Some? then Required(Present(TrimOpt(p.summary)), "summary", "A tour must have a summary") else [])
    + (if p.imageCover.Some? then Required(Present(p.imageCover), "imageCover", "A tour must have a cover image") else [])
  }

  /** An update the validators accept. */
  predicate ValidUpdate(p: TourInput) {
    && (p.name.Some? ==> 10 <= |Trim(p.name.value)| <= 40)
    && (p.difficulty.Some? ==> p.difficulty.value in Difficulties)
    && (p.ratingsAverage.Some? ==> 1.0 <= p.ratingsAverage.value <= 5.0)
    && p.priceDiscount.None?
    && (p.summary.Some? ==> Trim(p.summary.value) != "")
    && (p.imageCover.Some? ==> p.imageCover.value != "")
  }

  /** No update may set a discount, however far below the price it is:
      the validator always sees an undefined price. */
  lemma UpdateRefusesDiscount(p: TourInput, render: real -> string)
    requires p.priceDiscount.Some?
    ensures FieldError("priceDiscount", DiscountMessage(render(p.priceDiscount.value))) in ValidateUpdate(p, render)
  {
    var d := DiscountErrors(p.priceDiscount, None, render);
    var before := NameUpdateErrors(p) + DifficultyUpdateErrors(p) + RatingUpdateErrors(p);
    var after := TextUpdateErrors(p);
    assert ValidateUpdate(p, render) == before + d + after;
    assert d[0] == FieldError("priceDiscount", DiscountMessage(render(p.priceDiscount.value)));
    assert (before + d + after)[|before|] == d[0];
  }

  /** An accepted update keeps a valid tour valid, provided a new price
      stays above the stored discount: that is the one rule the update
      validators cannot check. */
  lemma ValidUpdatePreserves(t: Tour, p: TourInput)
    requires ValidTour(t) && ValidUpdate(p)
    requires p.price.Some? && t.priceDiscount.Some? ==> t.priceDiscount.value < p.price.value
    ensures ValidTour(ApplyPatch(t, p))
  {
  }

  /** Lowering the price below the stored discount is accepted and leaves
      a tour the schema would refuse. */
  lemma PriceUpdateBreaksDiscount(t: Tour)
    requires ValidTour(t) && t.priceDiscount == Some(100.0)
    ensures var p := TourInput(None, None, None, None, None, None, Some(50.0), None, None, None, None);
      ValidUpdate(p) && !ValidTour(ApplyPatch(t, p))
  {
  }

  // ---------------------------------------------------------------------------
  // Hooks

  /** `{ secretTour: { $ne: true } }`. */
  const NotSecret: Value := Obj([Field("secretTour", Obj([Field("$ne", Bool(true))]))])

  /** Whether a tour satisfies `NotSecret`. */
  predicate Visible(t: Tour) {
    t.secretTour != true
  }

  /** `pre(/^find/)`: every find-family query also asks for `NotSecret`. */
  method PreFindHook(q: Query)
    modifies q
    ensures q.ops == old(q.ops) + [Find(NotSecret)]
  {
    var self := q.Find(NotSecret);
  }

  /** `pre('aggregate')`: the pipeline starts with a stage matching
      `NotSecret`, the original stages following in order. */
  method PreAggregateHook(a: Aggregate)
    modifies a
    ensures |a.stages| == |old(a.stages)| + 1
    ensures a.stages[0] == Obj([Field("$match", NotSecret)])
    ensures a.stages[1..] == old(a.stages)
  {
    a.Unshift(Obj([Field("$match", NotSecret)]));
  }
}
