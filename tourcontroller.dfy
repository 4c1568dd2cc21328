/** The tour handlers: the top-tours alias, the listing that threads one
    `APIFeatures` builder through its four steps, and the handlers that
    look a tour up by id. The database answers queries through a function
    given as a parameter; a store of tours stands for the collection where
    a handler changes it. */
module TourController {
  import opened Wrappers
  import opened Strings
  import opened Json
  import opened AppErrors
  import opened Queries
  import opened ApiFeatures
  import opened TourModel
  import opened Http
  import opened ErrorController

  /** The `req.query` object the handlers share. */
  class QueryRequest {
    var query: seq<Field>

    constructor (query: seq<Field>)
      ensures this.query == query
    {
      this.query := query;
    }
  }

  /** The `data` of a successful response. */
  datatype TourBody =
    | ToursList(results: int, tours: seq<Tour>)
    | TourData(tour: Tour)
    | NullData

  // ---------------------------------------------------------------------------
  // aliasTopTours

  const TopLimit := "5"
  /** `'-ratingsAverage,price'`, kept as its words. */
  const TopSort := Join(TopSortWords, [','])
  const TopSortWords := ["-ratingsAverage", "price"]
  /** `'name,price,ratingsAverage,summary,difficulty'`, kept as its words. */
  const TopFields := Join(TopFieldsWords, [','])
  const TopFieldsWords := ["name", "price", "ratingsAverage", "summary", "difficulty"]

  /** The sort list, as the string the source writes and as applied. */
  lemma TopSortLiteral()
    ensures TopSort == "-ratingsAverage,price"
    ensures Join(TopSortWords, " ") == "-ratingsAverage price"
  {
    assert TopSortWords[1..] == ["price"];
  }

  /** The query object once the alias has overwritten its three keys. */
  function AliasQuery(qs: seq<Field>): seq<Field> {
    SetField(SetField(SetField(qs, "limit", Str(TopLimit)), "sort", Str(TopSort)), "fields", Str(TopFields))
  }

  /** The alias fixes `limit`, `sort` and `fields` and leaves every other
      key as it was. */
  lemma AliasLookup(qs: seq<Field>, k: string)
    ensures Lookup(AliasQuery(qs), k) ==
      if k == "limit" then Some(Str(TopLimit))
      else if k == "sort" then Some(Str(TopSort))
      else if k == "fields" then Some(Str(TopFields))
      else Lookup(qs, k)
  {
    LookupSetField(qs, "limit", Str(TopLimit), k);
    LookupSetField(SetField(qs, "limit", Str(TopLimit)), "sort", Str(TopSort), k);
    LookupSetField(SetField(SetField(qs, "limit", Str(TopLimit)), "sort", Str(TopSort)), "fields", Str(TopFields), k);
  }

  /** Overwrites three keys of the request's query object and hands the
      request on. */
  method AliasTopTours(req: QueryRequest) returns (o: Outcome<TourBody>)
    modifies req
    ensures req.query == AliasQuery(old(req.query))
    ensures o == Next
  {
    req.query := SetField(req.query, "limit", Str(TopLimit));
    req.query := SetField(req.query, "sort", Str(TopSort));
    req.query := SetField(req.query, "fields", Str(TopFields));
    o := Next;
  }

  // ---------------------------------------------------------------------------
  // getAllTours

  /** The operations `getAllTours` applies to `Tour.find()`, in order:
      filter, sort, field selection, pagination; or the `TypeError` that
      stops the chain at `sort` or `limitFields`. */
  function BuilderOps(qs: seq<Field>): (r: Result<seq<QueryOp>, ErrorRecord>)
    ensures r.Failure? <==> SortSpec(qs).Failure? || FieldsSpec(qs).Failure?
    ensures SortSpec(qs).Failure? ==> r.error == SortSpec(qs).error
  {
    if SortSpec(qs).Failure? then Failure(SortSpec(qs).error)
    else if FieldsSpec(qs).Failure? then Failure(FieldsSpec(qs).error)
    else Success([Find(Obj([])), Find(FilterConditions(qs)), SortBy(SortSpec(qs).value),
                  Select(FieldsSpec(qs).value), Skip((PageOf(qs) - 1) * LimitOf(qs)), Limit(LimitOf(qs))])
  }

  /** Builds the query from the request's query object, lets the find hook
      add its condition as the query runs, and responds with the tours
      `database` returns for it, or hands on the error the query is
      rejected with (a `CastError` for `?duration=abc`, MongoDB's refusal
      of the negative skip that `?page=-1` gives). `executed` is the query
      that ran, empty when the chain threw. */
  method GetAllTours(req: QueryRequest, database: seq<QueryOp> -> Result<seq<Tour>, ErrorRecord>)
    returns (o: Outcome<TourBody>, executed: seq<QueryOp>)
    ensures BuilderOps(req.query).Success? ==>
      && executed == BuilderOps(req.query).value + [Find(NotSecret)]
      && o == match database(executed)
              case Success(tours) => Respond(200, ToursList(|tours|, tours))
              case Failure(error) => NextError(error)
    ensures BuilderOps(req.query).Failure? ==>
      executed == [] && o == NextError(BuilderOps(req.query).error)
  {
    var q := new Query(Obj([]));
    var features := new APIFeatures(q, req.query);
    features := features.Filter();
    assert features.query == q && q.ops == [Find(Obj([])), Find(FilterConditions(req.query))];
    var thrown;
    features, thrown := features.Sort();
    if thrown.Some? {
      return NextError(thrown.value), [];
    }
    assert q.ops == [Find(Obj([])), Find(FilterConditions(req.query)), SortBy(SortSpec(req.query).value)];
    features, thrown := features.LimitFields();
    if thrown.Some? {
      return NextError(thrown.value), [];
    }
    features := features.Paginate();
    assert features.query == q && q.ops == BuilderOps(req.query).value;
    PreFindHook(q);
    executed := q.ops;
    var tours := database(executed);
    if tours.Failure? {
      return NextError(tours.error), executed;
    }
    o := Respond(200, ToursList(|tours.value|, tours.value));
  }

  /** A query object without a `page` listed through the alias: the filter
      is the one the request gave, the best rated first and the cheapest
      among equals, five fields, the first five tours. */
  lemma TopToursQuery(qs: seq<Field>)
    requires Lookup(qs, "page").None?
    ensures BuilderOps(AliasQuery(qs)) == Success([
      Find(Obj([])), Find(FilterConditions(qs)), SortBy(Join(TopSortWords, " ")),
      Select(Join(TopFieldsWords, " ")), Skip(0), Limit(5)])
  {
    var aq := AliasQuery(qs);
    TopAliasSpecs(qs);
    assert PageOf(aq) == 1 by { AliasLookup(qs, "page"); }
    AliasFilter(qs);
    BuilderOpsOf(aq, Join(TopSortWords, " "), Join(TopFieldsWords, " "), 1, 5);
  }

  /** The sort, the fields and the limit the alias writes into the query. */
  lemma TopAliasSpecs(qs: seq<Field>)
    ensures SortSpec(AliasQuery(qs)) == Success(Join(TopSortWords, " "))
    ensures FieldsSpec(AliasQuery(qs)) == Success(Join(TopFieldsWords, " "))
    ensures LimitOf(AliasQuery(qs)) == 5
  {
    var aq := AliasQuery(qs);
    assert SortSpec(aq) == Success(Join(TopSortWords, " ")) by { AliasLookup(qs, "sort"); TopSortSpec(aq); }
    assert FieldsSpec(aq) == Success(Join(TopFieldsWords, " ")) by { AliasLookup(qs, "fields"); TopFieldsSpec(aq); }
    assert LimitOf(aq) == 5 by { AliasLookup(qs, "limit"); TopLimitOf(aq); }
  }

  /** The operations the chain records once each step's outcome is known. */
  lemma BuilderOpsOf(qs: seq<Field>, sort: string, fields: string, page: int, limit: int)
    requires SortSpec(qs) == Success(sort) && FieldsSpec(qs) == Success(fields)
    requires PageOf(qs) == page && LimitOf(qs) == limit
    ensures BuilderOps(qs) == Success([Find(Obj([])), Find(FilterConditions(qs)), SortBy(sort),
                                       Select(fields), Skip((page - 1) * limit), Limit(limit)])
  {
  }

  lemma TopLimitOf(qs: seq<Field>)
    requires Lookup(qs, "limit") == Some(Str(TopLimit))
    ensures LimitOf(qs) == 5
  {
    assert DecimalString(5) == "5";
    OrDefaultOfInteger(5, 100);
  }

  /** With a `page` that reads as a non-zero number `n` the alias pages
      through the top tours five at a time. */
  lemma TopToursPage(qs: seq<Field>, page: string, n: int)
    requires n != 0 && Lookup(qs, "page") == Some(Str(page)) && StringToNumber(page) == Some(n)
    ensures BuilderOps(AliasQuery(qs)) == Success([
      Find(Obj([])), Find(FilterConditions(qs)), SortBy(Join(TopSortWords, " ")),
      Select(Join(TopFieldsWords, " ")), Skip((n - 1) * 5), Limit(5)])
  {
    var aq := AliasQuery(qs);
    TopAliasSpecs(qs);
    assert PageOf(aq) == n by { AliasLookup(qs, "page"); PageOfNumber(aq, page, n); }
    AliasFilter(qs);
    BuilderOpsOf(aq, Join(TopSortWords, " "), Join(TopFieldsWords, " "), n, 5);
  }

  lemma PageOfNumber(qs: seq<Field>, page: string, n: int)
    requires n != 0 && Lookup(qs, "page") == Some(Str(page)) && StringToNumber(page) == Some(n)
    ensures PageOf(qs) == n
  {
  }

  /** The alias only touches reserved keys, so the filter is unchanged. */
  lemma AliasFilter(qs: seq<Field>)
    ensures FilterConditions(AliasQuery(qs)) == FilterConditions(qs)
  {
    var q1 := SetField(qs, "limit", Str(TopLimit));
    var q2 := SetField(q1, "sort", Str(TopSort));
    RemoveKeysSetField(q2, Reserved, "fields", Str(TopFields));
    RemoveKeysSetField(q1, Reserved, "sort", Str(TopSort));
    RemoveKeysSetField(qs, Reserved, "limit", Str(TopLimit));
  }

  lemma TopSortSpec(qs: seq<Field>)
    requires Lookup(qs, "sort") == Some(Str(TopSort))
    ensures SortSpec(qs) == Success(Join(TopSortWords, " "))
  {
    CommaListOfWords(Lookup(qs, "sort"), TopSortWords, "-createdAt", "sort");
  }

  lemma TopFieldsSpec(qs: seq<Field>)
    requires Lookup(qs, "fields") == Some(Str(TopFields))
    ensures FieldsSpec(qs) == Success(Join(TopFieldsWords, " "))
  {
    CommaListOfWords(Lookup(qs, "fields"), TopFieldsWords, "-__v", "fields");
  }

  /** A comma list of words without commas is applied as the space list. */
  lemma CommaListOfWords(v: Option<Value>, words: seq<string>, fallback: string, name: string)
    requires |words| >= 1 && words[0] != []
    requires forall i | 0 <= i < |words| :: ',' !in words[i]
    requires v == Some(Str(Join(words, [','])))
    ensures CommaList(v, fallback, name) == Success(Join(words, " "))
  {
    assert forall i, k | 0 <= i < |words| && 0 <= k < |words[i]| :: words[i][k] != ',' by {
      forall i, k | 0 <= i < |words| && 0 <= k < |words[i]| ensures words[i][k] != ',' {
        assert words[i][k] in words[i];
      }
    }
    assert |Join(words, [','])| >= |words[0]|;
    SplitJoin(words, ',');
  }

  /** A listing never shows a secret tour, whatever the request: the last
      condition of the query that runs is the find hook's. */
  lemma ListingHidesSecret(qs: seq<Field>)
    requires BuilderOps(qs).Success?
    ensures var executed := BuilderOps(qs).value + [Find(NotSecret)];
      |executed| == 7 && executed[6] == Find(NotSecret)
      && executed[1] == Find(FilterConditions(qs))
  {
  }

  // ---------------------------------------------------------------------------
  // The tour collection

  const NotFoundMessage := "No tour found with that ID!"

  /** `new AppError('No tour found with that ID!', 404)`. */
  function NotFound(): (e: ErrorRecord)
    ensures e.isOperational && e.statusCode == Some(404) && e.status == Some("fail")
    ensures e.message == Some(NotFoundMessage)
  {
    StatusExamples(404);
    AppError(NotFoundMessage, 404)
  }

  class TourStore {
    var tours: map<string, Tour>

    constructor (tours: map<string, Tour>)
      ensures this.tours == tours
    {
      this.tours := tours;
    }

    /** What a find-family query by id returns once the find hook has
        added `NotSecret`: a secret tour is not found. */
    function FindById(id: string): (r: Option<Tour>)
      reads this
      ensures r.Some? <==> id in tours && Visible(tours[id])
      ensures r.Some? ==> r.value == tours[id]
    {
      if id in tours && Visible(tours[id]) then Some(tours[id]) else None
    }

    /** The unique index on `name`: no two stored tours share a name. */
    predicate UniqueNames()
      reads this
    {
      forall a, b | a in tours && b in tours && a != b && tours[a].name.Some? :: tours[a].name != tours[b].name
    }

    /** Whether another tour already has this name: `name` is unique. */
    predicate NameTaken(name: Option<string>)
      reads this
    {
      exists k | k in tours :: tours[k].name == name
    }

    /** `Tour.create(req.body)`: the document with its defaults is
        validated and then inserted under a fresh id, unless the unique
        index on `name` refuses it. */
    method CreateTour(id: string, input: TourInput, render: real -> string, now: int)
      returns (o: Outcome<TourBody>)
      requires id !in tours
      modifies this
      ensures var t := NewTour(input, now);
        && (ValidateTour(t, render) != [] ==>
              o == NextError(ValidationError("Tour validation failed", ValidateTour(t, render))) && tours == old(tours))
        && (ValidateTour(t, render) == [] && old(NameTaken(t.name)) ==>
              o == NextError(DuplicateKeyError("natours.tours", "name", t.name.value)) && tours == old(tours))
        && (ValidateTour(t, render) == [] && !old(NameTaken(t.name)) ==>
              o == Respond(201, TourData(t)) && tours == old(tours)[id := t])
      ensures old(UniqueNames()) ==> UniqueNames()
    {
      var t := NewTour(input, now);
      var errors := ValidateTour(t, render);
      if errors != [] {
        return NextError(ValidationError("Tour validation failed", errors));
      }
      if NameTaken(t.name) {
        return NextError(DuplicateKeyError("natours.tours", "name", t.name.value));
      }
      tours := tours[id := t];
      o := Respond(201, TourData(t));
    }

    /** `getTour`: 200 with the tour, or the 404 `AppError`. */
    method GetTour(id: string) returns (o: Outcome<TourBody>)
      ensures FindById(id).Some? ==> o == Respond(200, TourData(tours[id]))
      ensures FindById(id).None? ==> o == NextError(NotFound())
    {
      var tour := FindById(id);
      if tour.None? {
        return NextError(NotFound());
      }
      o := Respond(200, TourData(tour.value));
    }

    /** Whether a tour other than `id` has this name. */
    predicate NameTakenByOther(id: string, name: Option<string>)
      reads this
    {
      exists k | k in tours && k != id :: tours[k].name == name
    }

    /** `updateTour`: the update validators run first; then the tour, if
        found, is patched, unless the unique index on `name` refuses the
        patched name, and returned as it now is. */
    method UpdateTour(id: string, patch: TourInput, render: real -> string) returns (o: Outcome<TourBody>)
      modifies this
      ensures ValidateUpdate(patch, render) != [] ==>
        o == NextError(ValidationError("Validation failed", ValidateUpdate(patch, render))) && tours == old(tours)
      ensures ValidateUpdate(patch, render) == [] && old(FindById(id)).None? ==>
        o == NextError(NotFound()) && tours == old(tours)
      ensures ValidateUpdate(patch, render) == [] && old(FindById(id)).Some? ==>
        var t := ApplyPatch(old(tours)[id], patch);
        if t.name.Some? && old(NameTakenByOther(id, t.name))
        then o == NextError(DuplicateKeyError("natours.tours", "name", t.name.value)) && tours == old(tours)
        else o == Respond(200, TourData(t)) && tours == old(tours)[id := t]
      ensures old(UniqueNames()) ==> UniqueNames()
    {
      var errors := ValidateUpdate(patch, render);
      if errors != [] {
        return NextError(ValidationError("Validation failed", errors));
      }
      var tour := FindById(id);
      if tour.None? {
        return NextError(NotFound());
      }
      var updated := ApplyPatch(tour.value, patch);
      if updated.name.Some? && NameTakenByOther(id, updated.name) {
        return NextError(DuplicateKeyError("natours.tours", "name", updated.name.value));
      }
      tours := tours[id := updated];
      o := Respond(200, TourData(updated));
    }

    /** `deleteTour`: 204 with `data: null` once the tour is gone, or the
        404 `AppError` with nothing removed. */
    method DeleteTour(id: string) returns (o: Outcome<TourBody>)
      modifies this
      ensures old(FindById(id)).Some? ==> o == Respond(204, NullData) && tours == old(tours) - {id}
      ensures old(FindById(id)).None? ==> o == NextError(NotFound()) && tours == old(tours)
    {
      var tour := FindById(id);
      if tour.None? {
        return NextError(NotFound());
      }
      tours := tours - {id};
      o := Respond(204, NullData);
    }
  }

  /** After an accepted update the tour is still valid, and still found,
      unless the update made it secret. */
  lemma UpdateKeepsValid(t: Tour, patch: TourInput, render: real -> string)
    requires ValidTour(t) && Visible(t) && ValidateUpdate(patch, render) == []
    requires patch.price.Some? && t.priceDiscount.Some? ==> t.priceDiscount.value < patch.price.value
    ensures ValidTour(ApplyPatch(t, patch))
    ensures patch.secretTour != Some(true) ==> Visible(ApplyPatch(t, patch))
  {
    ValidUpdatePreserves(t, patch);
  }

  /** In production the client sees a missing tour as a 404 `fail`: with
      no message from the error middleware as written (the body is
      `{"status":"fail"}`), with the handler's message from the intended
      one. */
  lemma NotFoundResponse()
    ensures SendErrorProd(Spread(Defaulted(NotFound()))) == Response(404, ProdBody("fail", None))
    ensures SendErrorProd(Defaulted(NotFound())) == Response(404, ProdBody("fail", Some(NotFoundMessage)))
  {
  }

  /** Creating a second tour under a plain name: the error middleware as
      written throws while handling the duplicate key, the intended one
      answers 400 naming the tour. */
  lemma DuplicateTourName(name: string)
    requires NoQuotes(name)
    ensures var err := DuplicateKeyError("natours.tours", "name", name);
      && DuplicateOutcome(HandleDuplicateFieldsDBAsWritten(err)) == Threw(TypeError(NullIndex))
      && DuplicateOutcome(HandleDuplicateFieldsDB(err))
         == Sent(Response(400, ProdBody("fail", Some(DuplicateMessage(['"'] + name + ['"'])))))
  {
    DuplicateNameAsWritten("natours.tours", name);
  }
}
