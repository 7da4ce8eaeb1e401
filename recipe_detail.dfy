/** The recipe-detail hook: the id guard, the request, the status errors,
    the payload it accepts, and the detail record `mapDbRowToRecipeDetail`
    builds from a row, whose own properties are spread last. */
module RecipeDetail {
  import opened Text
  import opened JsValues
  import opened Fetch

  /** The `id` option: a string or a number. */
  datatype RecipeId = IdText(text: string) | IdNumber(number: int)

  /** `!id`: the empty string and zero. */
  predicate IdMissing(id: RecipeId)
  {
    id == IdText("") || id == IdNumber(0)
  }

  /** `${id}`. */
  function IdString(id: RecipeId): string
  {
    match id
    case IdText(s) => s
    case IdNumber(n) => IntToString(n)
  }

  /** The request URL: the base with one trailing slash dropped, then
      `/recipes/` and the id as it is written, without escaping. */
  function DetailUrl(base: string, id: RecipeId): string
  {
    StripTrailingSlash(base) + "/recipes/" + IdString(id)
  }

  /** The URL splits back into the stripped base, `/recipes/` and the id: the
      join changes none of the parts, and a numeric id reads back as its value. */
  lemma DetailUrlRoundTrip(base: string, id: RecipeId)
    ensures var url, p := DetailUrl(base, id), StripTrailingSlash(base);
      && |url| == |p| + 9 + |IdString(id)|
      && url[..|p|] == p && url[|p|..|p| + 9] == "/recipes/" && url[|p| + 9..] == IdString(id)
    ensures var tail := DetailUrl(base, id)[|StripTrailingSlash(base)| + 9..];
      id.IdNumber? && id.number >= 0 ==> DecimalValue(tail) == id.number
  {
    var url, p := DetailUrl(base, id), StripTrailingSlash(base);
    assert url == (p + "/recipes/") + IdString(id);
    assert url[..|p|] == p;
    assert url[|p|..|p| + 9] == "/recipes/";
    assert url[|p| + 9..] == IdString(id);
  }

  /** The error a response that is not ok raises. */
  function StatusFailure(status: int): (f: Failure)
    ensures status == 404 <==> f == Message("Recipe not found")
  {
    if status == 404 then Message("Recipe not found")
    else Message("Request failed: " + IntToString(status))
  }

  /** Random draws for `String(Math.random())`: the id text drawn for the
      item at a position of the images, reviews or notes list that has none. */
  datatype RandomIds = RandomIds(images: nat -> string, reviews: nat -> string, notes: nat -> string)

  // ---------------------------------------------------------------------------
  // Mapping one row
  // ---------------------------------------------------------------------------

  /** `xs.slice(from).map(f)`, with f seeing each element's index; the first
      element f rejects makes the whole map fail with its error. */
  function MapIndexed(xs: seq<Value>, f: (Value, nat, RandomIds) -> Result<Value>, ids: RandomIds, from: nat): (r: Result<seq<Value>>)
    requires from <= |xs|
    ensures r.Ok? <==> forall i :: from <= i < |xs| ==> f(xs[i], i, ids).Ok?
    ensures r.Ok? ==> |r.value| == |xs| - from && forall i :: from <= i < |xs| ==> f(xs[i], i, ids) == Ok(r.value[i - from])
    ensures r.Err? ==> exists i :: from <= i < |xs| && f(xs[i], i, ids) == Err(r.failure)
    decreases |xs| - from
  {
    if from == |xs| then Ok([])
    else
      var head :- f(xs[from], from, ids);
      var tail :- MapIndexed(xs, f, ids, from + 1);
      Ok([head] + tail)
  }

  /** `Array.isArray(row[key]) ? row[key].map(f) : []`. */
  function MapListField(row: Value, key: string, f: (Value, nat, RandomIds) -> Result<Value>, ids: RandomIds): Result<Value>
  {
    var v := Prop(row, key);
    if v.Arr? then
      var items :- MapIndexed(v.items, f, ids, 0);
      Ok(Arr(items))
    else Ok(Arr([]))
  }

  /** Reading `x.id` of a null or undefined list element throws. */
  function ElementGuard(x: Value): Result<()>
  {
    if IsNullish(x) then Err(NullRead("id")) else Ok(())
  }

  function MapImage(image: Value, i: nat, ids: RandomIds): Result<Value>
  {
    var _ :- ElementGuard(image);
    Ok(Obj(map[
      "id" := Coalesce(Prop(image, "id"), Str(ids.images(i))),
      "image_path" := Coalesce(Coalesce(Coalesce(Prop(image, "image_path"), Prop(image, "image")), Prop(image, "image_url")), Str(""))
    ]))
  }

  function MapIngredient(ing: Value, i: nat, ids: RandomIds): Result<Value>
  {
    var _ :- ElementGuard(ing);
    Ok(Obj(map[
      "id" := Coalesce(Prop(ing, "id"), Str(NatToString(i + 1))),
      "name" := Coalesce(Coalesce(Prop(ing, "name"), Prop(ing, "ingredient")), Str("")),
      "amount" := Coalesce(Coalesce(Prop(ing, "amount"), Prop(ing, "quantity")), Str("")),
      "checked" := Bool(false)
    ]))
  }

  function StepId(i: nat): string
  {
    "step-" + NatToString(i + 1)
  }

  function MapStep(step: Value, i: nat, ids: RandomIds): Result<Value>
  {
    var _ :- ElementGuard(step);
    Ok(Obj(map[
      "id" := Coalesce(Prop(step, "id"), Str(StepId(i))),
      "instruction" := Coalesce(Coalesce(Prop(step, "instruction"), Prop(step, "step")), Str("")),
      "ingredients" := (if Prop(step, "ingredients").Arr? then Prop(step, "ingredients") else Arr([])),
      "duration" := Prop(step, "duration"),
      "timerName" := Coalesce(Prop(step, "timer_name"), Prop(step, "timerName"))
    ]))
  }

  function MapReview(review: Value, i: nat, ids: RandomIds): Result<Value>
  {
    var _ :- ElementGuard(review);
    Ok(Obj(map[
      "id" := Coalesce(Prop(review, "id"), Str(ids.reviews(i))),
      "user" := Coalesce(Coalesce(Prop(review, "user"), Prop(review, "username")), Str("Anonymous")),
      "rating" := (if Prop(review, "rating").Num? then Prop(review, "rating") else Num(5)),
      "comment" := Coalesce(Coalesce(Prop(review, "comment"), Prop(review, "text")), Str(""))
    ]))
  }

  function MapNote(note: Value, i: nat, ids: RandomIds): Result<Value>
  {
    var _ :- ElementGuard(note);
    Ok(Obj(map[
      "id" := Coalesce(Prop(note, "id"), Str(ids.notes(i))),
      "note_text" := Coalesce(Coalesce(Prop(note, "note_text"), Prop(note, "note")), Str(""))
    ]))
  }

  /** The five mapped lists of a detail record. */
  datatype MappedLists = MappedLists(images: Value, ingredients: Value, steps: Value, reviews: Value, notes: Value)

  /** The lists, mapped in the order the object literal evaluates them. */
  function MapLists(row: Value, ids: RandomIds): Result<MappedLists>
  {
    var images :- MapListField(row, "images", MapImage, ids);
    var ingredients :- MapListField(row, "ingredients", MapIngredient, ids);
    var steps :- MapListField(row, "cooking_steps", MapStep, ids);
    var reviews :- MapListField(row, "reviews", MapReview, ids);
    var notes :- MapListField(row, "notes", MapNote, ids);
    Ok(MappedLists(images, ingredients, steps, reviews, notes))
  }

  /** The record built before the row is spread over it. */
  function DetailRecord(row: Value, lists: MappedLists): Object
  {
    map[
      "id" := Prop(row, "id"),
      "title" := Prop(row, "title"),
      "thumbnail" := Coalesce(Coalesce(Coalesce(Prop(row, "thumbnail"), Prop(row, "image")), Prop(row, "image_url")), Str("")),
      "images" := lists.images,
      "cookingTime" := Coalesce(Coalesce(Prop(row, "cooking_time"), Prop(row, "time")), Str("30m")),
      "servings" := Coalesce(Prop(row, "servings"), Num(4)),
      "rating" := (if Prop(row, "rating").Num? then Prop(row, "rating") else Num(0)),
      "reviewCount" := Coalesce(Coalesce(Prop(row, "review_count"), Prop(row, "reviewCount")), Num(0)),
      "isFavorite" := Coalesce(Coalesce(Prop(row, "is_favorite"), Prop(row, "isFavorite")), Bool(false)),
      "ingredients" := lists.ingredients,
      "directions" := (if Prop(row, "directions").Arr? then Prop(row, "directions") else Arr([])),
      "cookingSteps" := lists.steps,
      "reviews" := lists.reviews,
      "notes" := lists.notes
    ]
  }

  /** `mapDbRowToRecipeDetail(row)`: the mapped record with every own
      property of the row spread over it. */
  function MapDbRowToRecipeDetail(row: Value, ids: RandomIds): Result<Object>
  {
    if IsNullish(row) then Err(NullRead("id"))
    else
      var lists :- MapLists(row, ids);
      Ok(DetailRecord(row, lists) + Spread(row))
  }

  /** The list at `key` of the row, if it is one, holds no null or undefined element. */
  predicate ListOk(row: Value, key: string)
  {
    Prop(row, key).Arr? ==> forall i :: 0 <= i < |Prop(row, key).items| ==> !IsNullish(Prop(row, key).items[i])
  }

  /** No list the mapping walks holds a null or undefined element. */
  predicate ListsHaveNoNullish(row: Value)
  {
    ListOk(row, "images") && ListOk(row, "ingredients") && ListOk(row, "cooking_steps")
    && ListOk(row, "reviews") && ListOk(row, "notes")
  }

  lemma MapListFieldOk(row: Value, key: string, f: (Value, nat, RandomIds) -> Result<Value>, ids: RandomIds)
    requires forall x, i :: f(x, i, ids).Ok? <==> !IsNullish(x)
    requires forall x, i :: f(x, i, ids).Err? ==> f(x, i, ids).failure == NullRead("id")
    ensures MapListField(row, key, f, ids).Ok? <==> ListOk(row, key)
    ensures MapListField(row, key, f, ids).Err? ==> MapListField(row, key, f, ids).failure == NullRead("id")
  {
  }

  /** Mapping a row fails exactly when the row itself, or an element of one
      of its mapped lists, is null or undefined, and always with the
      `TypeError` of reading `id`. */
  lemma MapDetailOkIff(row: Value, ids: RandomIds)
    ensures MapDbRowToRecipeDetail(row, ids).Ok? <==> !IsNullish(row) && ListsHaveNoNullish(row)
    ensures MapDbRowToRecipeDetail(row, ids).Err? ==> MapDbRowToRecipeDetail(row, ids).failure == NullRead("id")
  {
    MapListFieldOk(row, "images", MapImage, ids);
    MapListFieldOk(row, "ingredients", MapIngredient, ids);
    MapListFieldOk(row, "cooking_steps", MapStep, ids);
    MapListFieldOk(row, "reviews", MapReview, ids);
    MapListFieldOk(row, "notes", MapNote, ids);
  }

  /** Spread last: every own property of an object row ends up in the detail
      record as the row has it, whatever the mapping computed for that key. */
  lemma RowPropertiesWin(fields: Object, ids: RandomIds, key: string)
    requires MapDbRowToRecipeDetail(Obj(fields), ids).Ok?
    requires key in fields
    ensures MapDbRowToRecipeDetail(Obj(fields), ids).value[key] == fields[key]
  {
  }

  /** Consequences of spreading last: a raw `rating` that is not a number, a
      `servings` of null and a raw `images` list all replace the mapped
      values. */
  lemma SpreadQuirks(fields: Object, ids: RandomIds)
    requires MapDbRowToRecipeDetail(Obj(fields), ids).Ok?
    ensures var d := MapDbRowToRecipeDetail(Obj(fields), ids).value;
      && ("rating" in fields ==> d["rating"] == fields["rating"])
      && (Get(fields, "servings") == Null ==> d["servings"] == Null)
      && ("images" in fields ==> d["images"] == fields["images"])
  {
    if "rating" in fields {
      RowPropertiesWin(fields, ids, "rating");
    }
    if "servings" in fields {
      RowPropertiesWin(fields, ids, "servings");
    }
    if "images" in fields {
      RowPropertiesWin(fields, ids, "images");
    }
  }

  /** The mapped steps come from `cooking_steps` and are stored as
      `cookingSteps`, so the spread replaces them only when the row itself
      has a `cookingSteps` property. */
  lemma CookingStepsKept(fields: Object, ids: RandomIds)
    requires MapDbRowToRecipeDetail(Obj(fields), ids).Ok?
    requires "cookingSteps" !in fields
    ensures MapLists(Obj(fields), ids).Ok?
    ensures MapDbRowToRecipeDetail(Obj(fields), ids).value["cookingSteps"] == MapLists(Obj(fields), ids).value.steps
    ensures MapListField(Obj(fields), "cooking_steps", MapStep, ids) == Ok(MapLists(Obj(fields), ids).value.steps)
  {
    DetailOfObject(fields, ids);
    MapListsParts(Obj(fields), ids);
    RecordListFields(fields, MapLists(Obj(fields), ids).value);
  }

  /** A mapped object row is its record with the row's fields over it. */
  lemma DetailOfObject(fields: Object, ids: RandomIds)
    requires MapDbRowToRecipeDetail(Obj(fields), ids).Ok?
    ensures MapLists(Obj(fields), ids).Ok?
    ensures MapDbRowToRecipeDetail(Obj(fields), ids).value == DetailRecord(Obj(fields), MapLists(Obj(fields), ids).value) + fields
  {
  }

  lemma RecordScalarDefaults(fields: Object, lists: MappedLists)
    ensures var d := DetailRecord(Obj(fields), lists) + fields;
      && ("thumbnail" !in fields && "image" !in fields && "image_url" !in fields ==> d["thumbnail"] == Str(""))
      && ("cooking_time" !in fields && "time" !in fields && "cookingTime" !in fields ==> d["cookingTime"] == Str("30m"))
      && ("servings" !in fields ==> d["servings"] == Num(4))
      && ("rating" !in fields ==> d["rating"] == Num(0))
      && ("review_count" !in fields && "reviewCount" !in fields ==> d["reviewCount"] == Num(0))
      && ("is_favorite" !in fields && "isFavorite" !in fields ==> d["isFavorite"] == Bool(false))
      && ("directions" !in fields ==> d["directions"] == Arr([]))
  {
    RecordTimeDefaults(fields, lists);
    RecordCountDefaults(fields, lists);
  }

  /** The picture and time defaults of the record. */
  lemma RecordTimeDefaults(fields: Object, lists: MappedLists)
    ensures var d := DetailRecord(Obj(fields), lists) + fields;
      && ("thumbnail" !in fields && "image" !in fields && "image_url" !in fields ==> d["thumbnail"] == Str(""))
      && ("cooking_time" !in fields && "time" !in fields && "cookingTime" !in fields ==> d["cookingTime"] == Str("30m"))
      && ("directions" !in fields ==> d["directions"] == Arr([]))
  {
  }

  /** The numeric and flag defaults of the record. */
  lemma RecordCountDefaults(fields: Object, lists: MappedLists)
    ensures var d := DetailRecord(Obj(fields), lists) + fields;
      && ("servings" !in fields ==> d["servings"] == Num(4))
      && ("rating" !in fields ==> d["rating"] == Num(0))
      && ("review_count" !in fields && "reviewCount" !in fields ==> d["reviewCount"] == Num(0))
      && ("is_favorite" !in fields && "isFavorite" !in fields ==> d["isFavorite"] == Bool(false))
  {
  }

  /** Each list of a successful mapping is that list field mapped on its own. */
  lemma MapListsParts(row: Value, ids: RandomIds)
    requires MapLists(row, ids).Ok?
    ensures var l := MapLists(row, ids).value;
      && MapListField(row, "images", MapImage, ids) == Ok(l.images)
      && MapListField(row, "ingredients", MapIngredient, ids) == Ok(l.ingredients)
      && MapListField(row, "cooking_steps", MapStep, ids) == Ok(l.steps)
      && MapListField(row, "reviews", MapReview, ids) == Ok(l.reviews)
      && MapListField(row, "notes", MapNote, ids) == Ok(l.notes)
  {
  }

  lemma RecordListFields(fields: Object, lists: MappedLists)
    ensures var d := DetailRecord(Obj(fields), lists) + fields;
      && ("images" !in fields ==> d["images"] == lists.images)
      && ("ingredients" !in fields ==> d["ingredients"] == lists.ingredients)
      && ("cookingSteps" !in fields ==> d["cookingSteps"] == lists.steps)
      && ("reviews" !in fields ==> d["reviews"] == lists.reviews)
      && ("notes" !in fields ==> d["notes"] == lists.notes)
  {
  }

  /** A list the row does not carry maps to the empty array. */
  lemma AbsentListIsEmpty(fields: Object, key: string, f: (Value, nat, RandomIds) -> Result<Value>, ids: RandomIds)
    requires key !in fields
    ensures MapListField(Obj(fields), key, f, ids) == Ok(Arr([]))
  {
  }

  /** The scalar defaults, for any object row: a field falls back to its
      default when the row has neither the field nor any of its alternative
      spellings. */
  lemma DetailScalarDefaults(fields: Object, ids: RandomIds)
    requires MapDbRowToRecipeDetail(Obj(fields), ids).Ok?
    ensures var d := MapDbRowToRecipeDetail(Obj(fields), ids).value;
      && ("thumbnail" !in fields && "image" !in fields && "image_url" !in fields ==> d["thumbnail"] == Str(""))
      && ("cooking_time" !in fields && "time" !in fields && "cookingTime" !in fields ==> d["cookingTime"] == Str("30m"))
      && ("servings" !in fields ==> d["servings"] == Num(4))
      && ("rating" !in fields ==> d["rating"] == Num(0))
      && ("review_count" !in fields && "reviewCount" !in fields ==> d["reviewCount"] == Num(0))
      && ("is_favorite" !in fields && "isFavorite" !in fields ==> d["isFavorite"] == Bool(false))
      && ("directions" !in fields ==> d["directions"] == Arr([]))
  {
    DetailOfObject(fields, ids);
    RecordScalarDefaults(fields, MapLists(Obj(fields), ids).value);
  }

  /** The picture and time fallback chains of the record. */
  lemma RecordPictureTimeFallbacks(fields: Object, lists: MappedLists)
    ensures var d := DetailRecord(Obj(fields), lists) + fields;
      && ("thumbnail" !in fields ==>
            d["thumbnail"] == Coalesce(Coalesce(Get(fields, "image"), Get(fields, "image_url")), Str("")))
      && ("cookingTime" !in fields ==>
            d["cookingTime"] == Coalesce(Coalesce(Get(fields, "cooking_time"), Get(fields, "time")), Str("30m")))
  {
  }

  /** The review-count and favourite fallback chains of the record. */
  lemma RecordCountFallbacks(fields: Object, lists: MappedLists)
    ensures var d := DetailRecord(Obj(fields), lists) + fields;
      && ("reviewCount" !in fields ==> d["reviewCount"] == Coalesce(Get(fields, "review_count"), Num(0)))
      && ("isFavorite" !in fields ==> d["isFavorite"] == Coalesce(Get(fields, "is_favorite"), Bool(false)))
  {
  }

  /** The fallback chains: a field the row does not carry under the record's
      own name comes from the first of its other spellings that is set
      (`image`, then `image_url`; `cooking_time`, then `time`;
      `review_count`; `is_favorite`), and only then from the default. */
  lemma DetailFallbacks(fields: Object, ids: RandomIds)
    requires MapDbRowToRecipeDetail(Obj(fields), ids).Ok?
    ensures var d := MapDbRowToRecipeDetail(Obj(fields), ids).value;
      && ("thumbnail" !in fields ==>
            d["thumbnail"] == Coalesce(Coalesce(Get(fields, "image"), Get(fields, "image_url")), Str("")))
      && ("cookingTime" !in fields ==>
            d["cookingTime"] == Coalesce(Coalesce(Get(fields, "cooking_time"), Get(fields, "time")), Str("30m")))
      && ("reviewCount" !in fields ==> d["reviewCount"] == Coalesce(Get(fields, "review_count"), Num(0)))
      && ("isFavorite" !in fields ==> d["isFavorite"] == Coalesce(Get(fields, "is_favorite"), Bool(false)))
  {
    DetailOfObject(fields, ids);
    RecordPictureTimeFallbacks(fields, MapLists(Obj(fields), ids).value);
    RecordCountFallbacks(fields, MapLists(Obj(fields), ids).value);
  }

  /** The list defaults: a list the row does not carry is empty in the record. */
  lemma DetailListDefaults(fields: Object, ids: RandomIds)
    requires MapDbRowToRecipeDetail(Obj(fields), ids).Ok?
    ensures var d := MapDbRowToRecipeDetail(Obj(fields), ids).value;
      && ("images" !in fields ==> d["images"] == Arr([]))
      && ("ingredients" !in fields ==> d["ingredients"] == Arr([]))
      && ("cooking_steps" !in fields && "cookingSteps" !in fields ==> d["cookingSteps"] == Arr([]))
      && ("reviews" !in fields ==> d["reviews"] == Arr([]))
      && ("notes" !in fields ==> d["notes"] == Arr([]))
  {
    DetailOfObject(fields, ids);
    MapListsParts(Obj(fields), ids);
    RecordListFields(fields, MapLists(Obj(fields), ids).value);
    if "images" !in fields {
      AbsentListIsEmpty(fields, "images", MapImage, ids);
    }
    if "ingredients" !in fields {
      AbsentListIsEmpty(fields, "ingredients", MapIngredient, ids);
    }
    if "cooking_steps" !in fields {
      AbsentListIsEmpty(fields, "cooking_steps", MapStep, ids);
    }
    if "reviews" !in fields {
      AbsentListIsEmpty(fields, "reviews", MapReview, ids);
    }
    if "notes" !in fields {
      AbsentListIsEmpty(fields, "notes", MapNote, ids);
    }
  }

  /** One mapped step: its own id if it has one, else `step-<position+1>`;
      its timer name from `timer_name`, else `timerName`; its ingredients
      always an array. */
  lemma StepMapped(step: Value, i: nat, ids: RandomIds)
    requires !IsNullish(step)
    ensures MapStep(step, i, ids).Ok?
    ensures var m := MapStep(step, i, ids).value;
      && Prop(m, "id") == (if IsNullish(Prop(step, "id")) then Str(StepId(i)) else Prop(step, "id"))
      && Prop(m, "timerName") == (if IsNullish(Prop(step, "timer_name")) then Prop(step, "timerName") else Prop(step, "timer_name"))
      && Prop(m, "ingredients").Arr?
  {
  }

  /** The k-th mapped step of a `cooking_steps` list is the k-th step mapped
      at position k. */
  lemma StepsMapped(steps: seq<Value>, k: int, ids: RandomIds)
    requires 0 <= k < |steps|
    requires forall j :: 0 <= j < |steps| ==> !IsNullish(steps[j])
    ensures MapIndexed(steps, MapStep, ids, 0).Ok?
    ensures MapIndexed(steps, MapStep, ids, 0).value[k] == MapStep(steps[k], k, ids).value
  {
    assert forall j :: 0 <= j < |steps| ==> MapStep(steps[j], j, ids).Ok?;
  }

  /** The generated step ids are pairwise distinct, so steps without their
      own ids never collide with each other. */
  lemma StepIdsDistinct(i: nat, j: nat)
    requires i != j
    ensures StepId(i) != StepId(j)
  {
    if StepId(i) == StepId(j) {
      assert StepId(i)[5..] == NatToString(i + 1);
      assert StepId(j)[5..] == NatToString(j + 1);
      NatToStringInjective(i + 1, j + 1);
    }
  }

  /** An ingredient without an id is numbered by its position from 1, so two
      such ingredients at different positions get different ids. */
  lemma IngredientIdsDistinct(a: Value, b: Value, i: nat, j: nat, ids: RandomIds)
    requires i != j && !IsNullish(a) && !IsNullish(b)
    requires IsNullish(Prop(a, "id")) && IsNullish(Prop(b, "id"))
    ensures MapIngredient(a, i, ids).Ok? && MapIngredient(b, j, ids).Ok?
    ensures Prop(MapIngredient(a, i, ids).value, "id") == Str(NatToString(i + 1))
    ensures Prop(MapIngredient(a, i, ids).value, "id") != Prop(MapIngredient(b, j, ids).value, "id")
  {
    if NatToString(i + 1) == NatToString(j + 1) {
      NatToStringInjective(i + 1, j + 1);
    }
  }

  // ---------------------------------------------------------------------------
  // One fetch
  // ---------------------------------------------------------------------------

  /** `json?.data ?? json`. */
  function Payload(json: Value): Value
  {
    Coalesce(if IsNullish(json) then Undefined else Prop(json, "data"), json)
  }

  /** The payload is the `data` of an envelope when that is set, and the body
      itself otherwise. */
  lemma PayloadShapes(json: Value, data: Value, others: Object)
    ensures !IsNullish(data) ==> Payload(Obj(others["data" := data])) == data
    ensures json.Obj? && IsNullish(Get(json.fields, "data")) ==> Payload(json) == json
    ensures !json.Obj? ==> Payload(json) == json
  {
  }

  const InvalidData: Failure := Message("Invalid recipe data received")

  /** The detail record of a decoded body, or the error the fetch throws:
      every falsy payload is rejected, not only a missing one. */
  function DetailFromBody(json: Value, ids: RandomIds): (r: Result<Object>)
    ensures !Truthy(Payload(json)) <==> r == Err(InvalidData)
  {
    var payload := Payload(json);
    if !Truthy(payload) then Err(InvalidData)
    else
      MapDetailOkIff(payload, ids);
      MapDbRowToRecipeDetail(payload, ids)
  }

  /** The request and what becomes of its answer. */
  function FetchDetail(id: RecipeId, apiBase: Option<string>, server: string -> Response, ids: RandomIds): Result<Object>
  {
    if FalsyText(apiBase) then Err(Message("Missing EXPO_PUBLIC_API_URL"))
    else
      match server(DetailUrl(apiBase.value, id))
      case NetworkError(f) => Err(f)
      case Answered(status, body) =>
        if !IsOkStatus(status) then Err(StatusFailure(status))
        else match body
          case Unparsable(f) => Err(f)
          case Json(json) => DetailFromBody(json, ids)
  }

  datatype DetailState = DetailState(data: Option<Object>, loading: bool, error: Option<Failure>)

  /** The hook state after `fetchRecipe()` has run to the end. */
  function Reload(s: DetailState, mounted: bool, id: RecipeId, apiBase: Option<string>, server: string -> Response, ids: RandomIds): DetailState
  {
    if IdMissing(id) then s.(error := Some(Message("Recipe ID is required")))
    else match FetchDetail(id, apiBase, server, ids)
      case Err(f) => DetailState(s.data, !mounted, if mounted then Some(f) else None)
      case Ok(d) => if mounted then DetailState(Some(d), false, None) else DetailState(s.data, true, None)
  }

  /** Without an id nothing is requested and only the error changes. */
  lemma ReloadWithoutId(s: DetailState, mounted: bool, id: RecipeId, apiBase: Option<string>, server: string -> Response, ids: RandomIds)
    requires IdMissing(id)
    ensures Reload(s, mounted, id, apiBase, server, ids) == s.(error := Some(Message("Recipe ID is required")))
  {
  }

  /** The status errors: 404 says the recipe was not found, every other
      failing status is reported with its number, and the data stays. */
  lemma ReloadFailedStatus(s: DetailState, id: RecipeId, base: string, server: string -> Response, ids: RandomIds)
    requires !IdMissing(id) && base != ""
    requires server(DetailUrl(base, id)).Answered? && !IsOkStatus(server(DetailUrl(base, id)).status)
    ensures var t := Reload(s, true, id, Some(base), server, ids);
      var status := server(DetailUrl(base, id)).status;
      && t.data == s.data && !t.loading
      && t.error == Some(if status == 404 then Message("Recipe not found") else Message("Request failed: " + IntToString(status)))
  {
  }

  /** A good answer replaces the data with the mapped record and clears the
      error and the loading flag; a falsy payload, or a list holding null
      that the mapping reads a property of, is an error instead. */
  lemma ReloadSucceeded(s: DetailState, id: RecipeId, base: string, server: string -> Response, ids: RandomIds)
    requires !IdMissing(id) && base != ""
    requires var r := server(DetailUrl(base, id)); r.Answered? && IsOkStatus(r.status) && r.body.Json?
    ensures var t := Reload(s, true, id, Some(base), server, ids);
      var payload := Payload(server(DetailUrl(base, id)).body.value);
      && !t.loading
      && (!Truthy(payload) ==> t.data == s.data && t.error == Some(Message("Invalid recipe data received")))
      && (Truthy(payload) && ListsHaveNoNullish(payload) ==>
            t.error == None && t.data == Some(MapDbRowToRecipeDetail(payload, ids).value))
      && (Truthy(payload) && !ListsHaveNoNullish(payload) ==>
            t.data == s.data && t.error == Some(NullRead("id")))
  {
    var json := server(DetailUrl(base, id)).body.value;
    MapDetailOkIff(Payload(json), ids);
  }

  /** The hook's state, updated step by step by `fetchRecipe`. */
  class RecipeHook {
    var data: Option<Object>
    var loading: bool
    var error: Option<Failure>
    var mounted: bool

    function State(): DetailState
      reads this
    {
      DetailState(data, loading, error)
    }

    constructor ()
      ensures State() == DetailState(None, false, None) && mounted
    {
      data, loading, error, mounted := None, false, None, true;
    }

    method Unmount()
      modifies this
      ensures !mounted && State() == old(State())
    {
      mounted := false;
    }

    /** `fetchRecipe()` for the hook's id, with `server` answering the request. */
    method FetchRecipe(id: RecipeId, apiBase: Option<string>, server: string -> Response, ids: RandomIds)
      modifies this
      ensures mounted == old(mounted)
      ensures State() == Reload(old(State()), old(mounted), id, apiBase, server, ids)
    {
      if IdMissing(id) {
        error := Some(Message("Recipe ID is required"));
        return;
      }
      loading := true;
      error := None;
      var outcome := FetchDetail(id, apiBase, server, ids);
      if outcome.Ok? && mounted {
        data := Some(outcome.value);
      }
      if outcome.Err? && mounted {
        error := Some(outcome.failure);
      }
      if mounted {
        loading := false;
      }
    }
  }
}
