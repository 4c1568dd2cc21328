/** `APIFeatures`: turns the request's query-string object into query-builder
    calls. It keeps the query under construction and the query-string object;
    `Filter`, `Sort`, `LimitFields` and `Paginate` each reassign the query
    and hand back the same builder. */
module ApiFeatures {
  import opened Wrappers
  import opened Strings
  import opened Json
  import opened Operators
  import opened AppErrors
  import opened Queries

  /** The keys `filter` leaves to the other methods. */
  const Reserved: seq<string> := ["page", "sort", "limit", "fields"]

  /** The object with the properties named in `keys` deleted, one key after
      the other. */
  function RemoveKeys(fs: seq<Field>, keys: seq<string>): (r: seq<Field>)
    ensures Keys(r) == Keys(fs) - set k | k in keys
    decreases |keys|
  {
    if keys == [] then fs
    else Delete(RemoveKeys(fs, keys[..|keys| - 1]), keys[|keys| - 1])
  }

  lemma {:induction false} LookupRemoveKeys(fs: seq<Field>, keys: seq<string>, k: string)
    ensures Lookup(RemoveKeys(fs, keys), k) == if k in keys then None else Lookup(fs, k)
    decreases |keys|
  {
    if keys != [] {
      var init := keys[..|keys| - 1];
      LookupRemoveKeys(fs, init, k);
      LookupDelete(RemoveKeys(fs, init), keys[|keys| - 1], k);
      assert keys == init + [keys[|keys| - 1]];
    }
  }

  /** Removing a set of keys forgets an earlier assignment to one of them. */
  lemma {:induction false} RemoveKeysSetField(fs: seq<Field>, keys: seq<string>, key: string, v: Value)
    ensures RemoveKeys(SetField(fs, key, v), keys)
      == if key in keys then RemoveKeys(fs, keys) else SetField(RemoveKeys(fs, keys), key, v)
    decreases |keys|
  {
    if keys != [] {
      var init := keys[..|keys| - 1];
      var last := keys[|keys| - 1];
      assert keys == init + [last];
      RemoveKeysSetField(fs, init, key, v);
      if key !in init {
        if last == key {
          DeleteSetFieldSame(RemoveKeys(fs, init), key, v);
        } else {
          DeleteSetFieldOther(RemoveKeys(fs, init), key, v, last);
        }
      }
    }
  }

  /** The conditions `filter` hands to `find`: the query-string object
      without the reserved keys, its operator words rewritten, as
      `JSON.parse` rebuilds it. */
  function FilterConditions(queryString: seq<Field>): Value {
    Normalize(RewriteValue(Obj(RemoveKeys(queryString, Reserved))))
  }

  /** The filter's conditions are an object with no reserved key left at its
      top level; every other property of the query string is kept, under its
      rewritten name. */
  lemma FilterConditionsKeys(queryString: seq<Field>)
    ensures FilterConditions(queryString).Obj?
    ensures var c := FilterConditions(queryString).fields;
      Keys(c) == RewrittenKeys(RemoveKeys(queryString, Reserved))
  {
    var fs := RemoveKeys(queryString, Reserved);
    RewriteFieldsKeys(fs);
    NormalizeFieldsKeys(RewriteFields(fs));
    AssignKeys([], NormalizeFields(RewriteFields(fs)));
  }

  function RewrittenKeys(fs: seq<Field>): set<string> {
    set k | k in Keys(fs) :: RewriteContent(k)
  }

  lemma {:induction false} RewriteFieldsKeys(fs: seq<Field>)
    ensures Keys(RewriteFields(fs)) == RewrittenKeys(fs)
  {
    if fs != [] {
      RewriteFieldsKeys(fs[1..]);
      assert RewriteFields(fs)[1..] == RewriteFields(fs[1..]);
    }
  }

  /** No reserved key survives the filter, whatever the query string holds:
      none of them is an operator word, and none is made of any other word
      that the rewrite could turn into it. */
  lemma FilterDropsReserved(queryString: seq<Field>, k: string)
    requires k in Reserved
    ensures Lookup(RemoveKeys(queryString, Reserved), k).None?
  {
    LookupRemoveKeys(queryString, Reserved, k);
  }

  /** A query string whose non-reserved part holds no operator word reaches
      `find` exactly as it was, minus the reserved keys. */
  lemma FilterOperatorFree(queryString: seq<Field>)
    requires FieldsWellFormed(queryString) && FieldsOperatorFree(queryString)
    ensures FilterConditions(queryString) == Obj(RemoveKeys(queryString, Reserved))
  {
    var fs := RemoveKeys(queryString, Reserved);
    RemoveKeysPreserves(queryString, Reserved);
    RewriteFieldsOperatorFree(fs);
    NormalizeWellFormed(Obj(fs));
  }

  lemma {:induction false} RemoveKeysPreserves(fs: seq<Field>, keys: seq<string>)
    requires FieldsWellFormed(fs) && FieldsOperatorFree(fs)
    ensures FieldsWellFormed(RemoveKeys(fs, keys)) && FieldsOperatorFree(RemoveKeys(fs, keys))
    decreases |keys|
  {
    if keys != [] {
      RemoveKeysPreserves(fs, keys[..|keys| - 1]);
      DeletePreserves(RemoveKeys(fs, keys[..|keys| - 1]), keys[|keys| - 1]);
    }
  }

  lemma {:induction false} DeletePreserves(fs: seq<Field>, key: string)
    requires FieldsWellFormed(fs) && FieldsOperatorFree(fs)
    ensures FieldsWellFormed(Delete(fs, key)) && FieldsOperatorFree(Delete(fs, key))
  {
    if fs != [] {
      DeletePreserves(fs[1..], key);
      if fs[0].key != key {
        var r := [fs[0]] + Delete(fs[1..], key);
        assert r[1..] == Delete(fs[1..], key);
      }
    }
  }

  // ---------------------------------------------------------------------------
  // sort and limitFields

  /** JavaScript truthiness of a query-string property. */
  predicate Truthy(v: Option<Value>) {
    match v
    case None => false
    case Some(Str(s)) => s != ""
    case Some(Bool(b)) => b
    case Some(Obj(_)) => true
  }

  /** `v ? v.split(',').join(' ') : fallback`. Calling `split` on a value
      that is not a string throws a `TypeError`. */
  function CommaList(v: Option<Value>, fallback: string, name: string): Result<string, ErrorRecord> {
    if !Truthy(v) then Success(fallback)
    else if v.value.Str? then Success(Join(Split(v.value.s, ','), " "))
    else Failure(SplitError(name))
  }

  /** What `this.queryString[name].split(...)` throws on a non-string. */
  function SplitError(name: string): ErrorRecord {
    TypeError("this.queryString." + name + ".split is not a function")
  }

  function SortSpec(queryString: seq<Field>): Result<string, ErrorRecord> {
    CommaList(Lookup(queryString, "sort"), "-createdAt", "sort")
  }

  function FieldsSpec(queryString: seq<Field>): Result<string, ErrorRecord> {
    CommaList(Lookup(queryString, "fields"), "-__v", "fields")
  }

  /** A non-empty string is applied with every comma turned into a space; an
      absent, empty or false value gives the fallback; an object fails. */
  lemma CommaListCases(v: Option<Value>, fallback: string, name: string)
    ensures forall s :: v == Some(Str(s)) && s != "" ==>
      CommaList(v, fallback, name) == Success(ReplaceChar(s, ',', " "))
    ensures v.None? || v == Some(Str("")) || v == Some(Bool(false)) ==>
      CommaList(v, fallback, name) == Success(fallback)
    ensures CommaList(v, fallback, name).Failure? <==> v.Some? && (v.value.Obj? || v.value == Bool(true))
  {
    if v.Some? && v.value.Str? {
      JoinSplit(v.value.s, ',', " ");
    }
  }

  /** Whatever list is applied holds no comma when the fallback holds none. */
  lemma CommaListHasNoComma(v: Option<Value>, fallback: string, name: string)
    requires forall k | 0 <= k < |fallback| :: fallback[k] != ','
    ensures CommaList(v, fallback, name).Success? ==>
      forall k | 0 <= k < |CommaList(v, fallback, name).value| :: CommaList(v, fallback, name).value[k] != ','
  {
    CommaListCases(v, fallback, name);
    if v.Some? && v.value.Str? && v.value.s != "" {
      ReplaceCharRemoves(v.value.s, ',', " ");
    }
  }

  lemma {:induction false} ReplaceCharRemoves(s: string, c: char, d: string)
    requires forall k | 0 <= k < |d| :: d[k] != c
    ensures forall k | 0 <= k < |ReplaceChar(s, c, d)| :: ReplaceChar(s, c, d)[k] != c
  {
    if s != [] {
      ReplaceCharRemoves(s[1..], c, d);
    }
  }

  // ---------------------------------------------------------------------------
  // paginate

  /** `v * 1` for a query-string property; `None` is NaN. */
  function NumberValue(v: Option<Value>): Option<int> {
    match v
    case None => None
    case Some(Str(s)) => StringToNumber(s)
    case Some(Bool(b)) => Some(if b then 1 else 0)
    case Some(Obj(_)) => None
  }

  /** `n || fallback` for a number: NaN and 0 are falsy. */
  function OrDefault(n: Option<int>, fallback: int): int {
    if n.Some? && n.value != 0 then n.value else fallback
  }

  function PageOf(queryString: seq<Field>): int {
    OrDefault(NumberValue(Lookup(queryString, "page")), 1)
  }

  function LimitOf(queryString: seq<Field>): int {
    OrDefault(NumberValue(Lookup(queryString, "limit")), 100)
  }

  /** A page or limit written as a non-zero integer is taken as it is,
      negative values included. */
  lemma OrDefaultOfInteger(n: int, fallback: int)
    requires n != 0
    ensures OrDefault(NumberValue(Some(Str(DecimalString(n)))), fallback) == n
  {
    NumberOfDecimalString(n);
  }

  /** Anything absent, non-numeric or zero gives the fallback. */
  lemma OrDefaultFallback(v: Option<Value>, fallback: int)
    requires v.None? || v == Some(Str("0")) || v == Some(Str("")) || (v.Some? && v.value.Obj?)
    ensures OrDefault(NumberValue(v), fallback) == fallback
  {
    if v == Some(Str("0")) {
      assert DecimalString(0) == "0";
      NumberOfDecimalString(0);
    }
  }

  /** The result is the fallback or the number the property denotes. */
  lemma OrDefaultIsNumberOrFallback(v: Option<Value>, fallback: int)
    ensures var r := OrDefault(NumberValue(v), fallback);
      r == fallback || (r != 0 && NumberValue(v) == Some(r))
  {
  }

  /** With neither `page` nor `limit` given, the first 100 documents. */
  lemma PaginateDefaults(queryString: seq<Field>)
    requires Lookup(queryString, "page").None? && Lookup(queryString, "limit").None?
    ensures PageOf(queryString) == 1 && LimitOf(queryString) == 100
    ensures (PageOf(queryString) - 1) * LimitOf(queryString) == 0
  {
  }

  /** Page and limit are never 0, so a page always holds at least one
      position in the ordering. */
  lemma PageAndLimitNonZero(queryString: seq<Field>)
    ensures PageOf(queryString) != 0 && LimitOf(queryString) != 0
  {
  }

  // ---------------------------------------------------------------------------
  // The builder

  class APIFeatures {
    var query: Query
    var queryString: seq<Field>

    constructor (query: Query, queryString: seq<Field>)
      ensures this.query == query && this.queryString == queryString
    {
      this.query := query;
      this.queryString := queryString;
    }

    /** Deletes the reserved keys from a copy of the query string, rewrites
        the operator words of its JSON text and adds the parsed result to
        the query's conditions. */
    method Filter() returns (self: APIFeatures)
      modifies this, query
      ensures self == this && query == old(query) && queryString == old(queryString)
      ensures query.ops == old(query.ops) + [Find(FilterConditions(queryString))]
    {
      var queryObj := queryString;
      var excludedFields := Reserved;
      var i := 0;
      while i < |excludedFields|
        invariant 0 <= i <= |excludedFields|
        invariant queryObj == RemoveKeys(queryString, excludedFields[..i])
      {
        assert excludedFields[..i + 1][..i] == excludedFields[..i];
        queryObj := Delete(queryObj, excludedFields[i]);
        i := i + 1;
      }
      assert excludedFields[..i] == Reserved;
      var queryStr := Serialize(Obj(queryObj));
      queryStr := Rewrite(queryStr);
      var parsed := Parse(queryStr);
      ParseRewritten(Obj(queryObj));
      query := query.Find(parsed.value);
      self := this;
    }

    /** Applies the `sort` list, or `-createdAt`. */
    method Sort() returns (self: APIFeatures, thrown: Option<ErrorRecord>)
      modifies this, query
      ensures self == this && query == old(query) && queryString == old(queryString)
      ensures SortSpec(queryString).Success? ==>
        thrown.None? && query.ops == old(query.ops) + [SortBy(SortSpec(queryString).value)]
      ensures SortSpec(queryString).Failure? ==>
        thrown == Some(SortSpec(queryString).error) && query.ops == old(query.ops)
    {
      self := this;
      thrown := None;
      var sort := Lookup(queryString, "sort");
      if Truthy(sort) {
        if sort.value.Str? {
          var sortBy := Join(Split(sort.value.s, ','), " ");
          query := query.Sort(sortBy);
        } else {
          thrown := Some(SplitError("sort"));
        }
      } else {
        query := query.Sort("-createdAt");
      }
    }

    /** Applies the `fields` list as a projection, or `-__v`. */
    method LimitFields() returns (self: APIFeatures, thrown: Option<ErrorRecord>)
      modifies this, query
      ensures self == this && query == old(query) && queryString == old(queryString)
      ensures FieldsSpec(queryString).Success? ==>
        thrown.None? && query.ops == old(query.ops) + [Select(FieldsSpec(queryString).value)]
      ensures FieldsSpec(queryString).Failure? ==>
        thrown == Some(FieldsSpec(queryString).error) && query.ops == old(query.ops)
    {
      self := this;
      thrown := None;
      var fields := Lookup(queryString, "fields");
      if Truthy(fields) {
        if fields.value.Str? {
          var selected := Join(Split(fields.value.s, ','), " ");
          query := query.Select(selected);
        } else {
          thrown := Some(SplitError("fields"));
        }
      } else {
        query := query.Select("-__v");
      }
    }

    /** Skips `(page - 1) * limit` documents and limits to `limit`. */
    method Paginate() returns (self: APIFeatures)
      modifies this, query
      ensures self == this && query == old(query) && queryString == old(queryString)
      ensures query.ops == old(query.ops)
        + [Skip((PageOf(queryString) - 1) * LimitOf(queryString)), Limit(LimitOf(queryString))]
    {
      var page := OrDefault(NumberValue(Lookup(queryString, "page")), 1);
      var limit := OrDefault(NumberValue(Lookup(queryString, "limit")), 100);
      var skip := (page - 1) * limit;
      query := query.Skip(skip);
      query := query.Limit(limit);
      self := this;
    }
  }
}
