/** The recipe-list hook: defaulted and overlaid options, the query it sends,
    how it reads the rows of a response, how a page joins the data already
    shown, and the hook state one fetch leaves behind. */
module RecipeList {
  import opened Text
  import opened Lists
  import opened JsValues
  import opened Fetch

  /** One property of an options object: left out, set to `undefined`, or
      given. `{ ...a, ...b }` lets a property b sets to `undefined` win, and
      `Object.keys` counts it. */
  datatype Field<+T> = Absent | Undef | Given(value: T)

  datatype SortOrder = Asc | Desc

  datatype Options = Options(
    search: Field<string>,
    limit: Field<int>,
    orderBy: Field<string>,
    order: Field<SortOrder>,
    category: Field<string>,
    featured: Field<bool>,
    popular: Field<bool>,
    append: Field<bool>)

  /** The empty options object; a call without options behaves the same. */
  const NoOptions: Options := Options(Absent, Absent, Absent, Absent, Absent, Absent, Absent, Absent)

  const Defaults: Options := Options(Absent, Given(20), Given("created_at"), Given(Desc), Absent, Absent, Absent, Given(false))

  function Pick<T>(base: Field<T>, over: Field<T>): Field<T>
  {
    if over.Absent? then base else over
  }

  /** `{ ...base, ...over }`. */
  function Overlay(base: Options, over: Options): Options
  {
    Options(
      Pick(base.search, over.search), Pick(base.limit, over.limit),
      Pick(base.orderBy, over.orderBy), Pick(base.order, over.order),
      Pick(base.category, over.category), Pick(base.featured, over.featured),
      Pick(base.popular, over.popular), Pick(base.append, over.append))
  }

  /** `{ limit: 20, orderBy: 'created_at', order: 'desc', append: false, ...(options || {}) }`. */
  function Defaulted(options: Options): Options
  {
    Overlay(Defaults, options)
  }

  /** `Object.keys(o).length > 0`. */
  predicate HasKeys(o: Options)
  {
    !o.search.Absent? || !o.limit.Absent? || !o.orderBy.Absent? || !o.order.Absent?
    || !o.category.Absent? || !o.featured.Absent? || !o.popular.Absent? || !o.append.Absent?
  }

  /** The options the hook keeps after a fetch: the effective ones, stored
      only when the override has a key. */
  function StoredOptions(current: Options, over: Options): Options
  {
    if HasKeys(over) then Overlay(current, over) else current
  }

  // ---------------------------------------------------------------------------
  // Options
  // ---------------------------------------------------------------------------

  /** Every default stands unless the caller's object has that key, in which
      case the caller's entry wins, even an explicit `undefined`. */
  lemma DefaultedFields(o: Options)
    ensures Defaulted(o).limit == (if o.limit.Absent? then Given(20) else o.limit)
    ensures Defaulted(o).orderBy == (if o.orderBy.Absent? then Given("created_at") else o.orderBy)
    ensures Defaulted(o).order == (if o.order.Absent? then Given(Desc) else o.order)
    ensures Defaulted(o).append == (if o.append.Absent? then Given(false) else o.append)
    ensures Defaulted(o).search == o.search && Defaulted(o).category == o.category
    ensures Defaulted(o).featured == o.featured && Defaulted(o).popular == o.popular
  {
  }

  /** Overlaying is a monoid with the empty object as unit, and overlaying the
      same object twice is overlaying it once. */
  lemma OverlayLaws(a: Options, b: Options, c: Options)
    ensures Overlay(a, NoOptions) == a && Overlay(NoOptions, a) == a
    ensures Overlay(Overlay(a, b), c) == Overlay(a, Overlay(b, c))
    ensures Overlay(Overlay(a, b), b) == Overlay(a, b)
  {
  }

  /** An object has a key exactly when it is not the empty object. */
  lemma HasKeysIff(o: Options)
    ensures HasKeys(o) <==> o != NoOptions
  {
  }

  /** Storing only when the override has a key never loses anything: the
      stored options are always the effective ones. */
  lemma StoredIsEffective(current: Options, over: Options)
    ensures StoredOptions(current, over) == Overlay(current, over)
  {
    if !HasKeys(over) {
      HasKeysIff(over);
      OverlayLaws(current, over, over);
    }
  }

  // ---------------------------------------------------------------------------
  // Query parameters and the URL
  // ---------------------------------------------------------------------------

  function OrderText(o: SortOrder): string
  {
    match o
    case Asc => "asc"
    case Desc => "desc"
  }

  /** The value a text option sets: the trimmed string, when it is a string
      that is not blank. */
  function TextValue(f: Field<string>): Option<string>
  {
    if f.Given? && Trim(f.value) != "" then Some(Trim(f.value)) else None
  }

  /** The value a flag sets: "true", only when it is exactly `true`. */
  function FlagValue(f: Field<bool>): Option<string>
  {
    if f == Given(true) then Some("true") else None
  }

  const ParamNames: seq<string> := ["search", "category", "featured", "popular", "orderBy", "order", "limit"]

  /** Every parameter `fetchRecipes` may set, in the order it sets them, with
      the value it sets or None when it leaves the parameter out. */
  function Candidates(e: Options): (cs: seq<(string, Option<string>)>)
    ensures |cs| == |ParamNames| && forall k :: 0 <= k < |cs| ==> cs[k].0 == ParamNames[k]
  {
    [ ("search", TextValue(e.search)),
      ("category", TextValue(e.category)),
      ("featured", FlagValue(e.featured)),
      ("popular", FlagValue(e.popular)),
      ("orderBy", if e.orderBy.Given? && e.orderBy.value != "" then Some(e.orderBy.value) else None),
      ("order", if e.order.Given? then Some(OrderText(e.order.value)) else None),
      ("limit", if e.limit.Given? then Some(IntToString(e.limit.value)) else None) ]
  }

  /** The name-value pairs of the candidates that carry a value, in order. */
  function Present(cs: seq<(string, Option<string>)>): (ps: seq<(string, string)>)
    ensures |ps| <= |cs|
    ensures forall k :: 0 <= k < |ps| ==> (ps[k].0, Some(ps[k].1)) in cs
    decreases |cs|
  {
    if cs == [] then []
    else (if cs[0].1.Some? then [(cs[0].0, cs[0].1.value)] else []) + Present(cs[1..])
  }

  /** The query parameters of the request. */
  function Params(e: Options): seq<(string, string)>
  {
    Present(Candidates(e))
  }

  /** `URLSearchParams.get(name)`: the value of the first pair with that name. */
  function Lookup(ps: seq<(string, string)>, name: string): Option<string>
    decreases |ps|
  {
    if ps == [] then None else if ps[0].0 == name then Some(ps[0].1) else Lookup(ps[1..], name)
  }

  predicate DistinctNames(cs: seq<(string, Option<string>)>)
  {
    forall i, j :: 0 <= i < j < |cs| ==> cs[i].0 != cs[j].0
  }

  /** A name no candidate has is not among the present pairs. */
  lemma {:induction false} LookupAbsent(cs: seq<(string, Option<string>)>, name: string)
    requires forall i :: 0 <= i < |cs| ==> cs[i].0 != name
    ensures Lookup(Present(cs), name) == None
    decreases |cs|
  {
    if cs != [] {
      var rest := cs[1..];
      assert forall i :: 0 <= i < |rest| ==> rest[i] == cs[i + 1];
      LookupAbsent(rest, name);
      var ps := Present(cs);
      if cs[0].1.Some? {
        assert ps[0].0 != name && ps[1..] == Present(rest);
      } else {
        assert ps == Present(rest);
      }
    }
  }

  /** With distinct names, looking a candidate's name up among the present
      pairs gives exactly that candidate's value. */
  lemma {:induction false} LookupPresent(cs: seq<(string, Option<string>)>, k: int)
    requires DistinctNames(cs) && 0 <= k < |cs|
    ensures Lookup(Present(cs), cs[k].0) == cs[k].1
    decreases |cs|
  {
    var ps := Present(cs);
    var rest := cs[1..];
    if k == 0 {
      if cs[0].1.None? {
        forall i | 0 <= i < |rest| ensures rest[i].0 != cs[0].0 {
          assert rest[i] == cs[i + 1];
        }
        LookupAbsent(rest, cs[0].0);
        assert ps == Present(rest);
      }
    } else {
      assert rest[k - 1] == cs[k];
      LookupPresent(rest, k - 1);
      if cs[0].1.Some? {
        assert ps[0].0 != cs[k].0 && ps[1..] == Present(rest);
      } else {
        assert ps == Present(rest);
      }
    }
  }

  lemma CandidateNamesDistinct(e: Options)
    ensures DistinctNames(Candidates(e))
  {
    var cs := Candidates(e);
    forall i, j | 0 <= i < j < |cs| ensures cs[i].0 != cs[j].0 {
      assert cs[i].0 == ParamNames[i] && cs[j].0 == ParamNames[j];
    }
  }

  /** What each parameter of the request is, for every effective options object. */
  lemma ParamsLookup(e: Options)
    ensures Lookup(Params(e), "search") == if e.search.Given? && Trim(e.search.value) != "" then Some(Trim(e.search.value)) else None
    ensures Lookup(Params(e), "category") == if e.category.Given? && Trim(e.category.value) != "" then Some(Trim(e.category.value)) else None
    ensures Lookup(Params(e), "featured") == if e.featured == Given(true) then Some("true") else None
    ensures Lookup(Params(e), "popular") == if e.popular == Given(true) then Some("true") else None
    ensures Lookup(Params(e), "orderBy") == if e.orderBy.Given? && e.orderBy.value != "" then Some(e.orderBy.value) else None
    ensures Lookup(Params(e), "order") == if e.order.Given? then Some(OrderText(e.order.value)) else None
    ensures Lookup(Params(e), "limit") == if e.limit.Given? then Some(IntToString(e.limit.value)) else None
  {
    var cs := Candidates(e);
    CandidateNamesDistinct(e);
    LookupPresent(cs, 0);
    LookupPresent(cs, 1);
    LookupPresent(cs, 2);
    LookupPresent(cs, 3);
    LookupPresent(cs, 4);
    LookupPresent(cs, 5);
    LookupPresent(cs, 6);
  }

  /** The position of a parameter name in the fixed emission order. */
  function Rank(name: string): nat
  {
    if name == "search" then 0 else if name == "category" then 1
    else if name == "featured" then 2 else if name == "popular" then 3
    else if name == "orderBy" then 4 else if name == "order" then 5 else 6
  }

  predicate RanksIncrease(ps: seq<(string, string)>)
  {
    forall i, j :: 0 <= i < j < |ps| ==> Rank(ps[i].0) < Rank(ps[j].0)
  }

  predicate RanksAbove(ps: seq<(string, string)>, r: nat)
  {
    forall i :: 0 <= i < |ps| ==> Rank(ps[i].0) > r
  }

  /** The present pairs have only names the candidates have. */
  lemma {:induction false} PresentRanksAbove(cs: seq<(string, Option<string>)>, r: nat)
    requires forall i :: 0 <= i < |cs| ==> Rank(cs[i].0) > r
    ensures RanksAbove(Present(cs), r)
    decreases |cs|
  {
    if cs != [] {
      var rest := cs[1..];
      assert forall i :: 0 <= i < |rest| ==> rest[i] == cs[i + 1];
      PresentRanksAbove(rest, r);
      var ps := Present(cs);
      if cs[0].1.Some? {
        assert ps[1..] == Present(rest);
        forall i | 0 <= i < |ps| ensures Rank(ps[i].0) > r {
          if i > 0 {
            assert ps[i] == Present(rest)[i - 1];
          }
        }
      } else {
        assert ps == Present(rest);
      }
    }
  }

  /** Keeping only the candidates with a value keeps their order. */
  lemma {:induction false} PresentKeepsOrder(cs: seq<(string, Option<string>)>)
    requires forall i, j :: 0 <= i < j < |cs| ==> Rank(cs[i].0) < Rank(cs[j].0)
    ensures RanksIncrease(Present(cs))
    decreases |cs|
  {
    if cs != [] {
      var rest := cs[1..];
      assert forall i :: 0 <= i < |rest| ==> rest[i] == cs[i + 1];
      PresentKeepsOrder(rest);
      var ps := Present(cs);
      var tail := Present(rest);
      if cs[0].1.Some? {
        PresentRanksAbove(rest, Rank(cs[0].0));
        assert ps == [(cs[0].0, cs[0].1.value)] + tail;
        forall i, j | 0 <= i < j < |ps| ensures Rank(ps[i].0) < Rank(ps[j].0) {
          assert ps[j] == tail[j - 1];
          if i > 0 {
            assert ps[i] == tail[i - 1];
          }
        }
      } else {
        assert ps == tail;
      }
    }
  }

  /** The parameters come in the fixed order search, category, featured,
      popular, orderBy, order, limit, each at most once. */
  lemma ParamsInFixedOrder(e: Options)
    ensures RanksIncrease(Params(e))
  {
    var cs := Candidates(e);
    forall i, j | 0 <= i < j < |cs| ensures Rank(cs[i].0) < Rank(cs[j].0) {
      assert cs[i].0 == ParamNames[i] && cs[j].0 == ParamNames[j];
    }
    PresentKeepsOrder(cs);
  }

  /** The request URL for a list of parameters: the base with one trailing
      slash dropped, `/recipes`, and the query only when there is one. */
  function RequestUrl(base: string, ps: seq<(string, string)>): string
  {
    var query := QueryString(ps);
    StripTrailingSlash(base) + "/recipes" + (if query != "" then "?" + query else "")
  }

  function ListUrl(base: string, e: Options): string
  {
    RequestUrl(base, Params(e))
  }

  /** The URL carries a query exactly when some parameter is set. */
  lemma RequestUrlShape(base: string, ps: seq<(string, string)>)
    ensures ps == [] ==> RequestUrl(base, ps) == StripTrailingSlash(base) + "/recipes"
    ensures ps != [] ==> RequestUrl(base, ps) == StripTrailingSlash(base) + "/recipes" + ("?" + QueryString(ps))
  {
  }

  /** The query holds no '?' or '#', so after the first '?' it is the whole
      rest of the URL. */
  lemma QueryHasNoDelimiters(ps: seq<(string, string)>)
    ensures forall i :: 0 <= i < |QueryString(ps)| ==> QueryString(ps)[i] != '?' && QueryString(ps)[i] != '#'
  {
    var q := QueryString(ps);
    forall i | 0 <= i < |q| ensures q[i] != '?' && q[i] != '#' {
      assert IsFormOutput(q[i]) || q[i] == '=' || q[i] == '&';
    }
  }

  const DefaultParams: seq<(string, string)> := [("orderBy", "created_at"), ("order", "desc"), ("limit", "20")]

  lemma DefaultCandidates()
    ensures Candidates(Defaults) == [("search", None), ("category", None), ("featured", None), ("popular", None),
                                     ("orderBy", Some("created_at")), ("order", Some("desc")), ("limit", Some("20"))]
  {
    assert NatToString(20) == "20";
  }

  /** With no options at all the hook asks for the 20 newest recipes: its
      only parameters are orderBy=created_at, order=desc and limit=20. */
  lemma DefaultRequest(base: string)
    ensures Params(Defaulted(NoOptions)) == DefaultParams
    ensures ListUrl(base, Defaulted(NoOptions))
         == StripTrailingSlash(base) + "/recipes" + ("?" + QueryString(DefaultParams))
  {
    assert Defaulted(NoOptions) == Defaults;
    DefaultCandidates();
    var cs := Candidates(Defaults);
    assert Present(cs[6..]) == [("limit", "20")];
    assert cs[5..][1..] == cs[6..];
    assert Present(cs[5..]) == [("order", "desc"), ("limit", "20")];
    assert cs[4..][1..] == cs[5..];
    assert Present(cs[4..]) == DefaultParams;
    assert cs[3..][1..] == cs[4..];
    assert Present(cs[3..]) == DefaultParams;
    assert cs[2..][1..] == cs[3..];
    assert Present(cs[2..]) == DefaultParams;
    assert cs[1..][1..] == cs[2..];
    assert Present(cs[1..]) == DefaultParams;
    assert Present(cs) == DefaultParams;
    RequestUrlShape(base, DefaultParams);
  }

  // ---------------------------------------------------------------------------
  // Reading the response
  // ---------------------------------------------------------------------------

  /** `Array.isArray(json?.data) ? json.data : Array.isArray(json) ? json : []`. */
  function Rows(json: Value): seq<Value>
  {
    var data := if IsNullish(json) then Undefined else Prop(json, "data");
    if data.Arr? then data.items else if json.Arr? then json.items else []
  }

  /** Rows come from a `data` array envelope, else from a bare array, and are
      empty for every other body. */
  lemma RowsShapes(json: Value, rows: seq<Value>, others: Object)
    ensures Rows(Obj(others["data" := Arr(rows)])) == rows
    ensures Rows(Arr(rows)) == rows
    ensures !json.Arr? && !(json.Obj? && Get(json.fields, "data").Arr?) ==> Rows(json) == []
  {
  }

  /** `mapDbRowToRecipe`: list fields with their fallbacks, then every own
      property of the row spread over them. Reading `row.id` of a null row throws. */
  function MapDbRowToRecipe(row: Value): Result<Object>
  {
    if IsNullish(row) then Err(NullRead("id"))
    else
      Ok(map[
        "id" := Prop(row, "id"),
        "title" := Prop(row, "title"),
        "time" := Coalesce(Coalesce(Prop(row, "time"), Prop(row, "cooking_time")), Undefined),
        "difficulty" := Coalesce(Prop(row, "difficulty"), Undefined),
        "rating" := (if Prop(row, "rating").Num? then Prop(row, "rating") else Undefined),
        "image" := Coalesce(Coalesce(Prop(row, "image"), Prop(row, "image_url")), Undefined),
        "isFavorite" := Coalesce(Coalesce(Prop(row, "is_favorite"), Prop(row, "isFavorite")), Bool(false))
      ] + Spread(row))
  }

  /** A mapped list row keeps every property of an object row as it is, and
      has an `id` of the row's id. */
  lemma MapDbRowToRecipeKeepsRow(fields: Object, key: string)
    ensures MapDbRowToRecipe(Obj(fields)).Ok?
    ensures key in fields ==> MapDbRowToRecipe(Obj(fields)).value[key] == fields[key]
    ensures Get(MapDbRowToRecipe(Obj(fields)).value, "id") == Get(fields, "id")
  {
    assert Spread(Obj(fields)) == fields;
  }

  /** Without its own `time`, a mapped list row takes `cooking_time`; without
      its own `isFavorite`, a set `is_favorite` wins. */
  lemma MapDbRowToRecipeFallbacks(fields: Object)
    ensures MapDbRowToRecipe(Obj(fields)).Ok?
    ensures "time" !in fields ==>
              MapDbRowToRecipe(Obj(fields)).value["time"] == Coalesce(Get(fields, "cooking_time"), Undefined)
    ensures "isFavorite" !in fields && !IsNullish(Get(fields, "is_favorite")) ==>
              MapDbRowToRecipe(Obj(fields)).value["isFavorite"] == fields["is_favorite"]
  {
    assert Spread(Obj(fields)) == fields;
  }

  /** `rows.map(mapDbRowToRecipe)`: the first null row throws. */
  function MapRows(rows: seq<Value>): (r: Result<seq<Object>>)
    ensures r.Ok? <==> forall i :: 0 <= i < |rows| ==> !IsNullish(rows[i])
    ensures r.Ok? ==> |r.value| == |rows| && forall i :: 0 <= i < |rows| ==> Ok(r.value[i]) == MapDbRowToRecipe(rows[i])
    ensures r.Err? ==> r.failure == NullRead("id")
    decreases |rows|
  {
    if rows == [] then Ok([])
    else
      var head :- MapDbRowToRecipe(rows[0]);
      var tail :- MapRows(rows[1..]);
      Ok([head] + tail)
  }

  // ---------------------------------------------------------------------------
  // Joining a page to the data already shown
  // ---------------------------------------------------------------------------

  function IdOf(item: Object): Value
  {
    Get(item, "id")
  }

  /** `prevData.map(item => item.id)`: a value is among the ids exactly when
      some item carries it. */
  function Ids(items: seq<Object>): (r: seq<Value>)
    ensures |r| == |items|
    ensures forall v :: v in r <==> exists i :: 0 <= i < |items| && IdOf(items[i]) == v
  {
    var r := seq(|items|, i requires 0 <= i < |items| => IdOf(items[i]));
    assert forall v :: v in r ==> exists i :: 0 <= i < |items| && IdOf(items[i]) == v by {
      forall v | v in r ensures exists i :: 0 <= i < |items| && IdOf(items[i]) == v {
        var j :| 0 <= j < |r| && r[j] == v;
        assert IdOf(items[j]) == v;
      }
    }
    assert forall i :: 0 <= i < |items| ==> IdOf(items[i]) in r by {
      forall i | 0 <= i < |items| ensures IdOf(items[i]) in r {
        assert r[i] == IdOf(items[i]);
      }
    }
    r
  }

  /** `existingIds.has(id)` for the Set of earlier ids: primitive ids are
      compared by value; an object or array id of a freshly decoded page is
      never the same object as an earlier one. */
  predicate IsKnownId(ids: seq<Value>, id: Value)
  {
    IsPrimitive(id) && id in ids
  }

  /** Append mode: the earlier items, then the page items whose id is not
      already among them. */
  function AppendPage(prev: seq<Object>, page: seq<Object>): seq<Object>
  {
    prev + Filter(page, (item: Object) => !IsKnownId(Ids(prev), IdOf(item)))
  }

  /** Append mode applies when the effective options ask for it and the
      override does not carry a (non-empty) search. */
  predicate AppendMode(effective: Options, over: Options)
  {
    effective.append == Given(true) && !(over.search.Given? && over.search.value != "")
  }

  function NextData(prev: seq<Object>, page: seq<Object>, effective: Options, over: Options): seq<Object>
  {
    if AppendMode(effective, over) then AppendPage(prev, page) else page
  }

  /** In append mode the earlier data is an unchanged prefix, followed by
      exactly the page items whose id is new, in page order. */
  lemma AppendPageExactly(prev: seq<Object>, page: seq<Object>)
    ensures var r := AppendPage(prev, page);
      && |r| >= |prev| && r[..|prev|] == prev
      && (forall i :: |prev| <= i < |r| ==> r[i] in page && !IsKnownId(Ids(prev), IdOf(r[i])))
      && (forall i :: 0 <= i < |page| && !IsKnownId(Ids(prev), IdOf(page[i])) ==> page[i] in r[|prev|..])
  {
    var r := AppendPage(prev, page);
    assert r[|prev|..] == Filter(page, (item: Object) => !IsKnownId(Ids(prev), IdOf(item)));
  }

  /** No two items share a primitive id. */
  predicate DistinctIds(items: seq<Object>)
  {
    forall i, j :: 0 <= i < j < |items| ==> !(IsPrimitive(IdOf(items[i])) && IdOf(items[i]) == IdOf(items[j]))
  }

  lemma {:induction false} FilterKeepsDistinctIds(page: seq<Object>, keep: Object -> bool)
    requires DistinctIds(page)
    ensures DistinctIds(Filter(page, keep))
    decreases |page|
  {
    if page != [] {
      var rest := page[1..];
      assert DistinctIds(rest) by {
        forall i, j | 0 <= i < j < |rest| ensures !(IsPrimitive(IdOf(rest[i])) && IdOf(rest[i]) == IdOf(rest[j])) {
          assert rest[i] == page[i + 1] && rest[j] == page[j + 1];
        }
      }
      FilterKeepsDistinctIds(rest, keep);
      var fr := Filter(rest, keep);
      var r := Filter(page, keep);
      if keep(page[0]) {
        assert r == [page[0]] + fr;
        forall j | 0 <= j < |fr| ensures !(IsPrimitive(IdOf(page[0])) && IdOf(page[0]) == IdOf(fr[j])) {
          assert fr[j] in rest;
          var k :| 0 <= k < |rest| && rest[k] == fr[j];
          assert page[k + 1] == fr[j];
        }
      }
    }
  }

  /** Paging never introduces a duplicate id: if the shown data and the page
      each have distinct ids, so does the joined list. */
  lemma AppendPageKeepsIdsDistinct(prev: seq<Object>, page: seq<Object>)
    requires DistinctIds(prev) && DistinctIds(page)
    ensures DistinctIds(AppendPage(prev, page))
  {
    var keep := (item: Object) => !IsKnownId(Ids(prev), IdOf(item));
    var newItems := Filter(page, keep);
    FilterKeepsDistinctIds(page, keep);
    var r := prev + newItems;
    forall i, j | 0 <= i < j < |r| ensures !(IsPrimitive(IdOf(r[i])) && IdOf(r[i]) == IdOf(r[j])) {
      if j >= |prev| && i < |prev| {
        var x := r[j];
        assert x == newItems[j - |prev|];
        assert keep(x);
        assert Ids(prev)[i] == IdOf(r[i]);
      } else if i >= |prev| {
        assert r[i] == newItems[i - |prev|] && r[j] == newItems[j - |prev|];
      }
    }
  }

  /** `effective.limit || 20`. */
  function PageSize(limit: Field<int>): int
  {
    if limit.Given? && limit.value != 0 then limit.value else 20
  }

  /** hasMore: the page was full. */
  predicate HasMore(count: nat, limit: Field<int>)
  {
    count >= PageSize(limit)
  }

  /** There may be more exactly when the page has at least `limit` items,
      where a zero, omitted or undefined limit counts as 20. */
  lemma HasMoreIff(count: nat, limit: Field<int>)
    ensures limit.Given? && limit.value != 0 ==> (HasMore(count, limit) <==> count >= limit.value)
    ensures !limit.Given? || limit.value == 0 ==> (HasMore(count, limit) <==> count >= 20)
    ensures HasMore(count, limit) ==> HasMore(count + 1, limit)
  {
  }

  // ---------------------------------------------------------------------------
  // One fetch
  // ---------------------------------------------------------------------------

  function StatusFailure(status: int): Failure
  {
    Message("Request failed: " + IntToString(status))
  }

  /** The rows of a response, or the error the fetch throws. */
  function ResponseRows(r: Response): (res: Result<seq<Value>>)
    ensures r.Answered? && !IsOkStatus(r.status) ==> res == Err(StatusFailure(r.status))
    ensures r.Answered? && IsOkStatus(r.status) && r.body.Json? ==> res == Ok(Rows(r.body.value))
  {
    match r
    case NetworkError(f) => Err(f)
    case Answered(status, body) =>
      if !IsOkStatus(status) then Err(StatusFailure(status))
      else match body
        case Unparsable(f) => Err(f)
        case Json(v) => Ok(Rows(v))
  }

  const MissingBase: Failure := Message("Missing EXPO_PUBLIC_API_URL")

  datatype ListState = ListState(
    data: seq<Object>,
    loading: bool,
    error: Option<Failure>,
    hasMore: bool,
    currentOptions: Options)

  /** The result of the request itself: the page, or the error thrown. */
  function FetchPage(current: Options, over: Options, apiBase: Option<string>, server: string -> Response): Result<seq<Object>>
  {
    if FalsyText(apiBase) then Err(MissingBase)
    else
      var rows :- ResponseRows(server(ListUrl(apiBase.value, Overlay(current, over))));
      MapRows(rows)
  }

  /** The hook state after `fetchRecipes(over)` has run to the end, with the
      server's answer to each URL given by `server`; `mounted` gates the
      updates after the request as `mountedRef` does. */
  function Refetch(s: ListState, mounted: bool, over: Options, apiBase: Option<string>, server: string -> Response): ListState
  {
    var effective := Overlay(s.currentOptions, over);
    var options := if FalsyText(apiBase) then s.currentOptions else StoredOptions(s.currentOptions, over);
    match FetchPage(s.currentOptions, over, apiBase, server)
    case Err(f) =>
      ListState(s.data, !mounted, if mounted then Some(f) else None, s.hasMore, options)
    case Ok(page) =>
      if mounted then ListState(NextData(s.data, page, effective, over), false, None, HasMore(|page|, effective.limit), options)
      else ListState(s.data, true, None, s.hasMore, options)
  }

  /** Without a base URL nothing is requested: the error says so and the
      data, the paging flag and the stored options stay. */
  lemma RefetchWithoutBase(s: ListState, over: Options, apiBase: Option<string>, server: string -> Response)
    requires FalsyText(apiBase)
    ensures var t := Refetch(s, true, over, apiBase, server);
      t == s.(loading := false, error := Some(Message("Missing EXPO_PUBLIC_API_URL")))
  {
  }

  /** A response that is not ok leaves the data as it was and reports its status. */
  lemma RefetchFailedStatus(s: ListState, over: Options, base: string, server: string -> Response)
    requires base != ""
    requires var r := server(ListUrl(base, Overlay(s.currentOptions, over))); r.Answered? && !IsOkStatus(r.status)
    ensures var t := Refetch(s, true, over, Some(base), server);
      var r := server(ListUrl(base, Overlay(s.currentOptions, over)));
      t.data == s.data && t.hasMore == s.hasMore && !t.loading
      && t.error == Some(Message("Request failed: " + IntToString(r.status)))
      && t.currentOptions == Overlay(s.currentOptions, over)
  {
    StoredIsEffective(s.currentOptions, over);
  }

  /** A successful page clears the error and loading flag, replaces or
      extends the data, and sets hasMore from the page length. */
  lemma RefetchSucceeded(s: ListState, over: Options, base: string, server: string -> Response)
    requires base != ""
    requires var r := server(ListUrl(base, Overlay(s.currentOptions, over)));
      r.Answered? && IsOkStatus(r.status) && r.body.Json?
      && forall i :: 0 <= i < |Rows(r.body.value)| ==> !IsNullish(Rows(r.body.value)[i])
    ensures var t := Refetch(s, true, over, Some(base), server);
      var e := Overlay(s.currentOptions, over);
      var rows := Rows(server(ListUrl(base, e)).body.value);
      && t.error == None && !t.loading
      && MapRows(rows).Ok?
      && t.data == (if AppendMode(e, over) then AppendPage(s.data, MapRows(rows).value) else MapRows(rows).value)
      && (AppendMode(e, over) ==> t.data[..|s.data|] == s.data)
      && (!AppendMode(e, over) ==> |t.data| == |rows|)
      && (t.hasMore <==> |rows| >= PageSize(e.limit))
      && t.currentOptions == e
  {
    StoredIsEffective(s.currentOptions, over);
    var e := Overlay(s.currentOptions, over);
    var r := server(ListUrl(base, e));
    var page := MapRows(Rows(r.body.value));
    if AppendMode(e, over) {
      AppendPageExactly(s.data, page.value);
    }
  }

  /** A page holding a null row throws while it is mapped: the data and the
      paging flag stay and the error is the failed property read. */
  lemma RefetchNullRow(s: ListState, over: Options, base: string, server: string -> Response)
    requires base != ""
    requires var r := server(ListUrl(base, Overlay(s.currentOptions, over)));
      r.Answered? && IsOkStatus(r.status) && r.body.Json?
      && exists i :: 0 <= i < |Rows(r.body.value)| && IsNullish(Rows(r.body.value)[i])
    ensures var t := Refetch(s, true, over, Some(base), server);
      && t.data == s.data && t.hasMore == s.hasMore && !t.loading
      && t.error == Some(NullRead("id"))
      && t.currentOptions == Overlay(s.currentOptions, over)
  {
    StoredIsEffective(s.currentOptions, over);
  }

  /** After unmounting, a fetch changes nothing it reads back except the
      flags it sets before the request. */
  lemma RefetchUnmounted(s: ListState, over: Options, apiBase: Option<string>, server: string -> Response)
    ensures var t := Refetch(s, false, over, apiBase, server);
      t.data == s.data && t.hasMore == s.hasMore && t.loading && t.error == None
  {
  }

  /** The hook's state, updated step by step by `fetchRecipes`. */
  class RecipesHook {
    var data: seq<Object>
    var loading: bool
    var error: Option<Failure>
    var hasMore: bool
    var currentOptions: Options
    var mounted: bool

    function State(): ListState
      reads this
    {
      ListState(data, loading, error, hasMore, currentOptions)
    }

    /** The first render: no data yet, more assumed, options defaulted. */
    constructor (options: Options)
      ensures State() == ListState([], false, None, true, Defaulted(options))
      ensures mounted
    {
      data, loading, error, hasMore := [], false, None, true;
      currentOptions := Defaulted(options);
      mounted := true;
    }

    method Unmount()
      modifies this
      ensures !mounted && State() == old(State())
    {
      mounted := false;
    }

    /** `fetchRecipes(over)`, with `server` answering the request. */
    method FetchRecipes(over: Options, apiBase: Option<string>, server: string -> Response)
      modifies this
      ensures mounted == old(mounted)
      ensures State() == Refetch(old(State()), old(mounted), over, apiBase, server)
    {
      loading := true;
      error := None;
      var failure: Option<Failure> := None;
      if FalsyText(apiBase) {
        failure := Some(MissingBase);
      } else {
        var effective := Overlay(currentOptions, over);
        var page := FetchPage(currentOptions, over, apiBase, server);
        if HasKeys(over) {
          currentOptions := effective;
        }
        if page.Err? {
          failure := Some(page.failure);
        } else if mounted {
          data := NextData(data, page.value, effective, over);
          hasMore := HasMore(|page.value|, effective.limit);
        }
      }
      if failure.Some? && mounted {
        error := failure;
      }
      if mounted {
        loading := false;
      }
    }
  }
}
