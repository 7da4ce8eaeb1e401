# Cook Mate core, modelled in Dafny

Cook Mate is a React Native recipe app. Its screens sit on top of a small core:

- **Cooking timers.** `TimerProvider` in `lib/TimerContext.tsx` keeps the list of active timers. A one-second interval lowers every running timer that has time left by one second and raises a "Timer Finished!" alert for each timer that reaches zero. It also derives a count of running timers and a has-timers flag.
- **Shopping list.** `ShoppingProvider` in `lib/ShoppingContext.tsx` keeps the shopping items. Its operations are add one item, add a recipe's ingredients (these replace the earlier items of the same recipe), toggle the check mark, remove one item, remove a recipe's items, clear the list and replace the list.
- **Recipe list.** `useRecipes` in `hooks/useRecipes.ts` pages through the recipe list. It merges the stored options with the overrides and builds the query string in a fixed order with URL form encoding. It maps each database row and then either replaces the data or appends only the rows whose id is new. Finally it sets `hasMore` from the page length.
- **Recipe detail.** `useRecipe` in `hooks/useRecipe.ts` loads one recipe. It maps the database row into a detail record, with a default for each absent field, its lists mapped element by element, and the row's own properties spread over the result.
- **Image URL.** `getImageUrl` in `utils/index.ts` joins the storage base URL and an image path.

Modules, one file each:

| file | module | models |
|---|---|---|
| `values.dfy` | `JsValues` | JavaScript values as decoded from JSON, `??`, property reads, object spread, truthiness |
| `text.dfy` | `Text` | `String(n)` for integers, `trim()`, the trailing-slash strip, `URLSearchParams` form encoding |
| `lists.dfy` | `Lists` | `Array.prototype.filter` and the facts the list operations use |
| `fetch.dfy` | `Fetch` | the answer to an HTTP request: a network error, or a status with a body that is JSON or fails to parse |
| `timers.dfy` | `Timers` | `TimerContext.tsx` |
| `shopping.dfy` | `Shopping` | `ShoppingContext.tsx` |
| `recipe_list.dfy` | `RecipeList` | `useRecipes.ts` |
| `recipe_detail.dfy` | `RecipeDetail` | `useRecipe.ts` |
| `image_url.dfy` | `ImageUrl` | `utils/index.ts` |

How the model is built:

- **The two providers are classes.** Each provider's state is a field that its methods reassign. Each method is specified by a pure function of the old state, and the lemmas beside the functions state what the source promises.
- **The two hooks are also classes.** Their fields are the React state variables and `mountedRef`. Each fetch method ends in the state that a pure function (`Refetch`, `Reload`) gives for the old state.
- **The fetch's inputs are parameters.** These are:
  - the environment variable;
  - the server, a function from URL to `Response`;
  - the clock (`Date.now`);
  - the random ids (`Math.random`).
- **A thrown error is a `Failure` value.** `Message(text)` is an `Error` thrown with that text. `NullRead(property)` is the `TypeError` of reading a property of `null` or `undefined`.

## Model

| member | source | states |
|---|---|---|
| Timers.TickTimers | lib/TimerContext.tsx:44-54 | one tick keeps the list's length and steps each timer in place |
| Timers.Step | lib/TimerContext.tsx:45-53 | no contract of its own: one timer after one tick, stated by `TickDecrementsRunning`, `TickKeepsIdentity` and `IdleTimerRaisesNothing` |
| Timers.Alerts | lib/TimerContext.tsx:45-50 | exactly one alert per timer of the old list that completes on the tick, in list order; the k-th alert names the k-th completing timer |
| Timers.Finished | lib/TimerContext.tsx:45-51 | no contract of its own: the timers that reach zero on the tick, stated by `FinishedIsFilter` and `FinishedExactly` |
| Timers.FinishedIsFilter | lib/TimerContext.tsx:45-51 | the finished timers are the completing timers of the old list, in list order and each once, every one after its tick |
| Timers.TickN | lib/TimerContext.tsx:43-55 | repeated ticks keep the list's length |
| Timers.TickDecrementsRunning | lib/TimerContext.tsx:45-53 | a running timer with time left loses exactly one second and never drops below zero; every other timer is unchanged |
| Timers.TickKeepsIdentity | lib/TimerContext.tsx:51 | a tick changes no field except the remaining seconds |
| Timers.CompletesIff | lib/TimerContext.tsx:45-47 | a timer completes on a tick exactly when it is running with one second left, and it then reads zero |
| Timers.FinishedExactly | lib/TimerContext.tsx:47-50 | the finished timers are exactly the completing timers after the tick, and each reads zero |
| Timers.IdleTimerRaisesNothing | lib/TimerContext.tsx:45-53 | a paused, stopped or expired timer neither completes nor changes |
| Timers.CompletionIsOnce | lib/TimerContext.tsx:45-50 | after a timer completes, no later tick completes it again, so its alert is raised once |
| Timers.CompletionStaysDone | lib/TimerContext.tsx:45-53 | a timer at zero stays exactly as it is under any number of ticks |
| Timers.RunningTimersCount | lib/TimerContext.tsx:39 | no contract of its own: the number of running timers, stated by `RunningCountBounds` and `TickKeepsRunningCount` |
| Timers.RunningCountBounds | lib/TimerContext.tsx:39 | the running count is at most the list length; it is zero iff no timer runs, and the full length iff every timer runs |
| Timers.TickKeepsRunningCount | lib/TimerContext.tsx:39-54 | a tick leaves the running count unchanged |
| Timers.HasActiveTimersIff | lib/TimerContext.tsx:40 | the has-timers flag holds iff the list is non-empty, and a tick preserves it |
| Timers.TimerProvider.constructor | lib/TimerContext.tsx:32-34 | the provider starts with no timers |
| Timers.TimerProvider.RunningCount | lib/TimerContext.tsx:39 | the derived count is the number of running timers and at most the list length |
| Timers.TimerProvider.HasActive | lib/TimerContext.tsx:40 | the derived flag holds iff some timer is in the list |
| Timers.TimerProvider.SetActiveTimers | lib/TimerContext.tsx:16 | the list becomes the given list |
| Timers.TimerProvider.UpdateActiveTimers | lib/TimerContext.tsx:16 | the list becomes the updater applied to the old list |
| Timers.TimerProvider.OnInterval | lib/TimerContext.tsx:43-55 | the list becomes the ticked old list; the alerts are those of the completing timers; the running count and the has-timers flag are preserved |
| Shopping.BatchIdsDistinct | lib/ShoppingContext.tsx:82 | ids at different positions of a recipe batch differ, whatever the clock reads at each position |
| Shopping.ItemAdded | lib/ShoppingContext.tsx:71-77 | the old items stay as a prefix; one item with the draft's fields and the clock's id follows |
| Shopping.RecipeBatch | lib/ShoppingContext.tsx:80-85 | one item per draft, and every item has category recipe and the recipe title as its source |
| Shopping.DraftOf | lib/ShoppingContext.tsx:16-17 | no contract of its own: an item without its id (`Omit<ShoppingItem, 'id'>`), stated by `DraftRoundTrip` |
| Shopping.DraftRoundTrip | lib/ShoppingContext.tsx:71-75 | giving a draft an id and dropping the id again are inverse, in both orders |
| Shopping.RecipeBatchItems | lib/ShoppingContext.tsx:80-85 | the k-th item is the k-th draft relabelled with category recipe and the title as its source, and its id is `<clock>-<k>` |
| Shopping.RecipeBatchIgnoresLabels | lib/ShoppingContext.tsx:80-85 | the batch does not depend on the drafts' own category or source: drafts that agree on name, quantity and check mark give the same batch |
| Shopping.AddThenRemoveItem | lib/ShoppingContext.tsx:71-77 | removing an item just added, when no other item has its id, restores the list |
| Shopping.AddRecipeItemsShape | lib/ShoppingContext.tsx:79-94 | the result is the items from other sources, in order, followed by the new batch |
| Shopping.RecipeItemsAdded | lib/ShoppingContext.tsx:79-93 | no contract of its own: the list after `addRecipeItems`, stated by `AddRecipeItemsShape`, `AddRecipeItemsReplaces` and `RemoveAfterAddRecipeItems` |
| Shopping.RecipeBatchIdsDistinct | lib/ShoppingContext.tsx:80-85 | the ids within one batch are pairwise distinct |
| Shopping.AddRecipeItemsReplaces | lib/ShoppingContext.tsx:87-93 | adding a recipe's items twice leaves only the second batch of that recipe |
| Shopping.RemoveAfterAddRecipeItems | lib/ShoppingContext.tsx:79-108 | removing a recipe's items after adding them equals removing them from the original list |
| Shopping.CheckToggled | lib/ShoppingContext.tsx:96-100 | no item moves, appears or disappears, and every item keeps its id |
| Shopping.ToggleChangesOnlyChecked | lib/ShoppingContext.tsx:96-100 | a toggle changes only the check mark, and flips it exactly for the matching id |
| Shopping.ToggleTwice | lib/ShoppingContext.tsx:96-100 | toggling the same id twice restores the list |
| Shopping.ItemRemoved | lib/ShoppingContext.tsx:102-104 | no contract of its own: the list after `removeItem`, stated by `RemoveItemExactly` and `RemoveItemIdempotent` |
| Shopping.RemoveItemExactly | lib/ShoppingContext.tsx:102-104 | the result holds the original items that lack the id, and only those |
| Shopping.RemoveItemIdempotent | lib/ShoppingContext.tsx:102-104 | removing twice equals removing once; removing an absent id changes nothing |
| Shopping.RecipeItemsRemoved | lib/ShoppingContext.tsx:106-108 | no contract of its own: the list after `removeRecipeItems`, stated by `RemoveRecipeItemsExactly` and `RemoveRecipeItemsCount` |
| Shopping.RemoveRecipeItemsExactly | lib/ShoppingContext.tsx:106-108 | the result holds the items of other sources, manual items included, and only those |
| Shopping.RemoveRecipeItemsCount | lib/ShoppingContext.tsx:106-108 | the kept items plus the removed items number exactly the original list |
| Shopping.ShoppingProvider.constructor | lib/ShoppingContext.tsx:30 | the list starts empty |
| Shopping.ShoppingProvider.AddItem | lib/ShoppingContext.tsx:71-77 | the items become the old items with the new item appended |
| Shopping.ShoppingProvider.AddRecipeItems | lib/ShoppingContext.tsx:79-94 | the items become the old items of other recipes followed by the new batch |
| Shopping.ShoppingProvider.ToggleItemCheck | lib/ShoppingContext.tsx:96-100 | the items become the old items with the matching check marks flipped |
| Shopping.ShoppingProvider.RemoveItem | lib/ShoppingContext.tsx:102-104 | the items become the old items without the id |
| Shopping.ShoppingProvider.RemoveRecipeItems | lib/ShoppingContext.tsx:106-108 | the items become the old items without that source |
| Shopping.ShoppingProvider.ClearAllItems | lib/ShoppingContext.tsx:110-112 | the list becomes empty |
| Shopping.ShoppingProvider.UpdateItems | lib/ShoppingContext.tsx:114-116 | the list becomes the given list |
| RecipeList.DefaultedFields | hooks/useRecipes.ts:49-55 | limit 20, order by `created_at`, order `desc` and append false fill only absent fields; every other field is as given |
| RecipeList.OverlayLaws | hooks/useRecipes.ts:81-84 | the option spread has the empty options as identity on both sides, is associative, and re-applying the same overrides changes nothing |
| RecipeList.HasKeysIff | hooks/useRecipes.ts:86 | the overrides have a key iff they are not the empty options |
| RecipeList.StoredIsEffective | hooks/useRecipes.ts:81-88 | after a fetch the stored options equal the effective options, whether or not they were written |
| RecipeList.Overlay | hooks/useRecipes.ts:81-84 | no contract of its own: the option spread, stated by `OverlayLaws` |
| RecipeList.Defaulted | hooks/useRecipes.ts:49-55 | no contract of its own: the options with their defaults, stated by `DefaultedFields` |
| RecipeList.StoredOptions | hooks/useRecipes.ts:86-88 | no contract of its own: the options kept for the next fetch, stated by `StoredIsEffective` |
| RecipeList.Candidates | hooks/useRecipes.ts:90-97 | seven query slots, named in the order the parameters are set |
| RecipeList.LookupAbsent | hooks/useRecipes.ts:90-97 | a name no slot carries is absent from the parameters |
| RecipeList.LookupPresent | hooks/useRecipes.ts:90-97 | with distinct names, each slot's value is what the parameters return for its name |
| RecipeList.Present | hooks/useRecipes.ts:90-97 | the parameters are at most as many as the slots, and each one is a slot that carries that value |
| RecipeList.CandidateNamesDistinct | hooks/useRecipes.ts:90-97 | the seven parameter names are distinct |
| RecipeList.ParamsLookup | hooks/useRecipes.ts:90-97 | search and category are sent trimmed and only if non-blank; featured and popular only when true; orderBy only when non-empty; order when set; limit when it is a number |
| RecipeList.PresentRanksAbove | hooks/useRecipes.ts:90-97 | dropping empty slots keeps every parameter's rank above a bound that the slots respect |
| RecipeList.PresentKeepsOrder | hooks/useRecipes.ts:90-97 | dropping empty slots keeps the parameters in slot order |
| RecipeList.ParamsInFixedOrder | hooks/useRecipes.ts:90-97 | the parameters always appear in the fixed order search, category, featured, popular, orderBy, order, limit |
| RecipeList.Params | hooks/useRecipes.ts:90-97 | no contract of its own: the query parameters of a fetch, stated by `ParamsLookup` and `ParamsInFixedOrder` |
| RecipeList.RequestUrlShape | hooks/useRecipes.ts:99 | the URL is the base without its trailing slash plus `/recipes`, followed by `?` and the query only when the query is non-empty |
| RecipeList.RequestUrl | hooks/useRecipes.ts:99 | no contract of its own: the request URL, stated by `RequestUrlShape` and `QueryHasNoDelimiters` |
| RecipeList.ListUrl | hooks/useRecipes.ts:81-99 | no contract of its own: the request URL for the effective options, stated by `DefaultRequest` |
| RecipeList.QueryHasNoDelimiters | hooks/useRecipes.ts:99 | the encoded query holds no `?` or `#`, so it cannot end the query part early |
| RecipeList.DefaultCandidates | hooks/useRecipes.ts:49-55 | with the defaults, only orderBy, order and limit carry a value |
| RecipeList.DefaultRequest | hooks/useRecipes.ts:49-99 | with no options the request carries exactly orderBy=created_at, order=desc and limit=20 after `/recipes?` |
| RecipeList.RowsShapes | hooks/useRecipes.ts:106 | the rows are the `data` array of an envelope, a bare array, or nothing |
| RecipeList.Rows | hooks/useRecipes.ts:106 | no contract of its own: the rows of a JSON body, stated by `RowsShapes` |
| RecipeList.MapDbRowToRecipe | hooks/useRecipes.ts:35-46 | no contract of its own: one mapped list row, stated by `MapDbRowToRecipeKeepsRow`, `MapDbRowToRecipeFallbacks` and `MapRows` |
| RecipeList.MapDbRowToRecipeKeepsRow | hooks/useRecipes.ts:35-46 | an object row always maps; its own properties win over the mapped ones; the id is the row's id |
| RecipeList.MapDbRowToRecipeFallbacks | hooks/useRecipes.ts:39-43 | without its own `time` the row takes `cooking_time`; without its own `isFavorite` a set `is_favorite` wins |
| RecipeList.MapRows | hooks/useRecipes.ts:108 | the mapping succeeds iff no row is null or undefined, row by row; otherwise the error is the read of `id` |
| RecipeList.Ids | hooks/useRecipes.ts:114 | one id per item, and a value is among the ids exactly when some item has it as its id |
| RecipeList.AppendPageExactly | hooks/useRecipes.ts:113-117 | appending keeps the earlier data as a prefix, followed by exactly the page items whose id is new |
| RecipeList.FilterKeepsDistinctIds | hooks/useRecipes.ts:115 | filtering keeps ids distinct |
| RecipeList.AppendPageKeepsIdsDistinct | hooks/useRecipes.ts:111-117 | appending a page to data with distinct ids keeps them distinct |
| RecipeList.AppendPage | hooks/useRecipes.ts:113-117 | no contract of its own: the data after an appending fetch, stated by `AppendPageExactly` and `AppendPageKeepsIdsDistinct` |
| RecipeList.NextData | hooks/useRecipes.ts:111-121 | no contract of its own: appended or replaced data, stated by `RefetchSucceeded` |
| RecipeList.HasMoreIff | hooks/useRecipes.ts:124 | more pages exist iff the page is at least the limit, or at least 20 when the limit is unset or zero; the test is monotone in the page length |
| RecipeList.HasMore | hooks/useRecipes.ts:124 | no contract of its own: the more-pages test, stated by `HasMoreIff` |
| RecipeList.ResponseRows | hooks/useRecipes.ts:101-106 | a non-ok status is the error `Request failed: <status>`; an ok JSON answer gives its rows |
| RecipeList.FetchPage | hooks/useRecipes.ts:76-108 | no contract of its own: the mapped page or the error of one fetch, stated by `ResponseRows`, `MapRows` and the `Refetch…` lemmas |
| RecipeList.Refetch | hooks/useRecipes.ts:71-135 | no contract of its own: the hook state after one fetch, stated by `RefetchWithoutBase`, `RefetchFailedStatus`, `RefetchSucceeded`, `RefetchNullRow` and `RefetchUnmounted` |
| RecipeList.RefetchWithoutBase | hooks/useRecipes.ts:76-79 | without a base URL the only changes are the error and the loading flag |
| RecipeList.RefetchFailedStatus | hooks/useRecipes.ts:102-104 | a non-ok answer leaves the data and the paging flag, stores the effective options and reports the status |
| RecipeList.RefetchSucceeded | hooks/useRecipes.ts:108-134 | a good page clears the error and the loading flag; the data becomes the earlier data with the new page items appended in append mode, and the mapped page otherwise; hasMore follows the page length; the options are stored |
| RecipeList.RefetchNullRow | hooks/useRecipes.ts:108 | a page holding a null row leaves the data and the paging flag, and the error is the failed read of `id` |
| RecipeList.RefetchUnmounted | hooks/useRecipes.ts:110-134 | after unmount a fetch sets nothing after the request: data and hasMore stay, and loading stays on |
| RecipeList.RecipesHook.constructor | hooks/useRecipes.ts:57-62 | empty data, not loading, no error, more pages assumed, the defaulted options stored, mounted |
| RecipeList.RecipesHook.Unmount | hooks/useRecipes.ts:64-69 | the hook is marked unmounted and its state is unchanged |
| RecipeList.RecipesHook.FetchRecipes | hooks/useRecipes.ts:71-135 | the new state is the one the fetch decides from the old state, the overrides, the environment and the server's answer |
| RecipeDetail.StatusFailure | hooks/useRecipe.ts:139-144 | a non-ok status is "Recipe not found" iff it is 404 |
| RecipeDetail.IdMissing | hooks/useRecipe.ts:122 | no contract of its own: `!id`, true of the empty string and of zero; used by `ReloadWithoutId` |
| RecipeDetail.DetailUrl | hooks/useRecipe.ts:136 | no contract of its own: the request URL, stated by `DetailUrlRoundTrip` |
| RecipeDetail.DetailUrlRoundTrip | hooks/useRecipe.ts:136 | the URL splits back into the base without its trailing slash, `/recipes/` and the id as written, and a non-negative numeric id reads back as its value |
| RecipeDetail.MapIndexed | hooks/useRecipe.ts:69-101 | a list maps iff every element maps, element by element in order; a failure is some element's failure |
| RecipeDetail.MapImage | hooks/useRecipe.ts:69-72 | no contract of its own: one mapped image, stated through `MapIndexed` and `MapDetailOkIff` |
| RecipeDetail.MapIngredient | hooks/useRecipe.ts:78-83 | no contract of its own: one mapped ingredient, stated by `IngredientIdsDistinct` |
| RecipeDetail.MapStep | hooks/useRecipe.ts:85-91 | no contract of its own: one mapped cooking step, stated by `StepMapped` and `StepsMapped` |
| RecipeDetail.MapReview | hooks/useRecipe.ts:92-97 | no contract of its own: one mapped review, stated through `MapIndexed` and `MapDetailOkIff` |
| RecipeDetail.MapNote | hooks/useRecipe.ts:98-101 | no contract of its own: one mapped note, stated through `MapIndexed` and `MapDetailOkIff` |
| RecipeDetail.MapListFieldOk | hooks/useRecipe.ts:69-101 | a list field maps iff it is not an array or holds no null; the error is the read of `id` |
| RecipeDetail.MapDetailOkIff | hooks/useRecipe.ts:64-104 | a row maps iff it is not nullish and none of its five lists holds a null; otherwise the error is the read of `id` |
| RecipeDetail.MapDbRowToRecipeDetail | hooks/useRecipe.ts:64-104 | no contract of its own: the detail record of a row, stated by `MapDetailOkIff`, `DetailOfObject`, `DetailScalarDefaults`, `DetailFallbacks` and `DetailListDefaults` |
| RecipeDetail.DetailRecord | hooks/useRecipe.ts:65-101 | no contract of its own: the record before the spread, stated by `RecordScalarDefaults`, the two `Record…Fallbacks` lemmas and `RecordListFields` |
| RecipeDetail.RowPropertiesWin | hooks/useRecipe.ts:102 | every property of the row replaces the mapped value of the same name |
| RecipeDetail.SpreadQuirks | hooks/useRecipe.ts:74-75 | a raw rating, a null servings value and a raw image list on the row survive the spread |
| RecipeDetail.CookingStepsKept | hooks/useRecipe.ts:85-91 | the mapped `cooking_steps` are kept under `cookingSteps` unless the row itself has `cookingSteps` |
| RecipeDetail.DetailOfObject | hooks/useRecipe.ts:64-104 | a mapped object row is the record built from its lists with its own fields spread over it |
| RecipeDetail.RecordScalarDefaults | hooks/useRecipe.ts:68-84 | the scalar defaults of the record: thumbnail "", cooking time "30m", servings 4, rating 0, reviews 0, not a favourite, no directions |
| RecipeDetail.RecordPictureTimeFallbacks | hooks/useRecipe.ts:68-73 | without `thumbnail` the record takes `image`, then `image_url`, then ""; without `cookingTime` it takes `cooking_time`, then `time`, then "30m" |
| RecipeDetail.RecordCountFallbacks | hooks/useRecipe.ts:76-77 | without `reviewCount` the record takes `review_count`, then 0; without `isFavorite` it takes `is_favorite`, then false |
| RecipeDetail.MapListsParts | hooks/useRecipe.ts:69-101 | each mapped list is its field mapped on its own |
| RecipeDetail.RecordListFields | hooks/useRecipe.ts:69-102 | each list of the record is the mapped list unless the row carries that property |
| RecipeDetail.AbsentListIsEmpty | hooks/useRecipe.ts:69-101 | an absent list field maps to the empty list |
| RecipeDetail.DetailScalarDefaults | hooks/useRecipe.ts:68-84 | a row without a field gets that field's default in the detail record |
| RecipeDetail.DetailFallbacks | hooks/useRecipe.ts:68-77 | a row without a field under the record's own name gets the first of its other spellings that is set, and only then the default: `image`, `image_url`; `cooking_time`, `time`; `review_count`; `is_favorite` |
| RecipeDetail.DetailListDefaults | hooks/useRecipe.ts:69-101 | a row without a list gets an empty list in the detail record |
| RecipeDetail.StepMapped | hooks/useRecipe.ts:85-91 | any step that is not null or undefined keeps its id or gets `step-<position+1>`; its timer name comes from `timer_name` or else `timerName`; its ingredients are always an array |
| RecipeDetail.StepsMapped | hooks/useRecipe.ts:85-91 | for a list without null or undefined steps, the k-th mapped step is the k-th step mapped at position k |
| RecipeDetail.StepIdsDistinct | hooks/useRecipe.ts:86 | generated step ids of different positions differ |
| RecipeDetail.IngredientIdsDistinct | hooks/useRecipe.ts:79 | any two ingredients without an id get their positions plus one, so two of them never share an id |
| RecipeDetail.PayloadShapes | hooks/useRecipe.ts:147 | the payload is the envelope's `data` when set, and the body itself otherwise |
| RecipeDetail.Payload | hooks/useRecipe.ts:147 | no contract of its own: `json?.data ?? json`, stated by `PayloadShapes` |
| RecipeDetail.FetchDetail | hooks/useRecipe.ts:131-152 | no contract of its own: the mapped record or the error of one fetch, stated by `DetailFromBody` and the `Reload…` lemmas |
| RecipeDetail.Reload | hooks/useRecipe.ts:121-166 | no contract of its own: the hook state after one fetch, stated by `ReloadWithoutId`, `ReloadFailedStatus` and `ReloadSucceeded` |
| RecipeDetail.DetailFromBody | hooks/useRecipe.ts:146-152 | the error "Invalid recipe data received" is raised iff the payload is falsy |
| RecipeDetail.ReloadWithoutId | hooks/useRecipe.ts:122-125 | without an id only the error changes, to "Recipe ID is required" |
| RecipeDetail.ReloadFailedStatus | hooks/useRecipe.ts:139-144 | a non-ok answer keeps the data and reports "Recipe not found" for 404 and `Request failed: <status>` otherwise |
| RecipeDetail.ReloadSucceeded | hooks/useRecipe.ts:146-165 | a good answer stores the mapped record and clears the error; a falsy payload or a null list element keeps the data and reports the error |
| RecipeDetail.RecipeHook.constructor | hooks/useRecipe.ts:109-112 | no data, not loading, no error, mounted |
| RecipeDetail.RecipeHook.Unmount | hooks/useRecipe.ts:114-119 | the hook is marked unmounted and its state is unchanged |
| RecipeDetail.RecipeHook.FetchRecipe | hooks/useRecipe.ts:121-166 | the new state is the one the fetch decides from the old state, the id, the environment and the server's answer |
| ImageUrl.GetImageUrl | utils/index.ts:1-13 | no image gives the empty string before the variable is read; an image without a storage base is the error "Missing EXPO_PUBLIC_STORAGE_URL" |
| ImageUrl.GetImageUrlCases | utils/index.ts:2-9 | the URL is empty iff there is no image; it is an error iff there is an image and no storage base |
| ImageUrl.GetImageUrlRoundTrip | utils/index.ts:11 | the URL splits back, at the base's length, into the base, one `/` and the image path |
| ImageUrl.NoSlashNormalisation | utils/index.ts:11 | a base ending in `/` and a path starting with `/` give three slashes in a row |
| JsValues.Coalesce | hooks/useRecipes.ts:39-43 | `a ?? b` is one of its two operands, and it is null or undefined exactly when both are |
| JsValues.CoalesceLaws | hooks/useRecipe.ts:68-77 | a chain of `??` picks its first operand that is set however it is grouped; undefined and null in front are skipped; a repeated operand changes nothing |
| JsValues.SpreadOverrides | hooks/useRecipes.ts:44 | after `...row` a key of the row takes the row's value, and every other key keeps the mapped value |
| JsValues.SpreadCases | hooks/useRecipe.ts:102 | an object spreads exactly its own fields; undefined, null, booleans and numbers spread nothing |
| JsValues.IndexEntriesExactly | hooks/useRecipe.ts:102 | the index entries hold each element under the decimal text of its index, and no other key |
| JsValues.SpreadArray | hooks/useRecipe.ts:102 | an array spreads each element under its index, and nothing else |
| JsValues.SpreadString | hooks/useRecipe.ts:102 | a string spreads each character under its index, and nothing else |
| Text.Digit | lib/ShoppingContext.tsx:74 | a decimal digit character has the given value |
| Text.DigitValue | lib/ShoppingContext.tsx:74 | a digit character's value turns back into that character |
| Text.NatToString | lib/ShoppingContext.tsx:74 | the decimal text of a natural is a non-empty string of digits, one digit long iff the number is below 10 |
| Text.DecimalRoundTrip | lib/ShoppingContext.tsx:74 | reading the decimal text back gives the number |
| Text.NatToStringInjective | lib/ShoppingContext.tsx:82 | different naturals have different decimal texts |
| Text.IntToString | hooks/useRecipes.ts:97 | a non-negative integer gives digits that read back as the number; a negative one gives `-` and digits that read back as its magnitude |
| Text.IntToStringSign | hooks/useRecipes.ts:103 | the text starts with `-` iff the number is negative |
| Text.IntToStringInjective | hooks/useRecipes.ts:97 | different integers have different texts |
| Text.SplitAtSeparator | lib/ShoppingContext.tsx:82 | joining two texts by a separator that the first text lacks is unambiguous |
| Text.SeparatorPosition | lib/ShoppingContext.tsx:82 | the first separator stands right after the first text |
| Text.LeadingSpace | hooks/useRecipes.ts:91-92 | the count of leading characters dropped by trim(): all are white space, and the next character is not |
| Text.KeptLength | hooks/useRecipes.ts:91-92 | the length kept once trailing white space is dropped: everything after it is white space, and the last kept character is not |
| Text.Trim | hooks/useRecipes.ts:91-92 | no contract of its own: `trim()`, stated by `TrimIsSlice` and `TrimNonEmptyIff` |
| Text.TrimIsSlice | hooks/useRecipes.ts:91-92 | the trimmed text is a slice of the original with non-whitespace at both ends |
| Text.TrimNonEmptyIff | hooks/useRecipes.ts:91-92 | the trimmed text is non-empty iff the text has a non-whitespace character |
| Text.StripTrailingSlash | hooks/useRecipes.ts:99 | exactly one trailing `/` is removed, and only when there is one |
| Text.HexDigit | hooks/useRecipes.ts:90-99 | a hexadecimal digit is an ASCII letter or digit |
| Text.Utf8 | hooks/useRecipes.ts:90-99 | a character encodes to one to four bytes |
| Text.PercentEncode | hooks/useRecipes.ts:90-99 | each byte becomes three characters of form output |
| Text.FormEncode | hooks/useRecipes.ts:90-99 | the encoding is at least as long as the text and uses only form-output characters |
| Text.FormEncodeUnreserved | hooks/useRecipes.ts:90-99 | text made only of unreserved characters is sent unchanged |
| Text.FormEncodeHasNoDelimiters | hooks/useRecipes.ts:90-99 | an encoded name or value holds no `=`, `&`, `?` or `#` |
| Text.QueryString | hooks/useRecipes.ts:99 | the query is empty iff there are no parameters, and holds only form output, `=` and `&` |
| Lists.Filter | lib/ShoppingContext.tsx:103 | the result is no longer than the input, its elements are input elements that pass, and every passing element is kept |
| Lists.FilterConcat | lib/ShoppingContext.tsx:89-92 | filtering a concatenation filters each part |
| Lists.FilterKeepsAll | lib/ShoppingContext.tsx:107 | a filter that keeps every element is the identity |
| Lists.FilterKeepsNone | lib/ShoppingContext.tsx:107 | a filter that keeps nothing gives the empty list |
| Lists.FilterIdempotent | lib/ShoppingContext.tsx:103 | filtering twice with the same test equals filtering once |
| Lists.FilterSameTest | hooks/useRecipes.ts:115 | tests that agree on every element filter alike |
| Lists.FilterPartition | lib/TimerContext.tsx:39 | an element either passes or fails, so the two filters split the list |

## Left out

- Persistence of the shopping list is not modelled: loading from, saving to and clearing AsyncStorage (`lib/ShoppingContext.tsx:34-69`, `clearStorage` at 118-125), and the `isLoaded` flag. Storage is I/O outside the list logic.
- The interval's scheduling and its cleanup on unmount are not modelled. `OnInterval` is one firing of the interval.
- `Alert.alert` is not called. `OnInterval` returns the alerts it would show, in list order.
- The `useTimer` and `useShopping` guards are not modelled. These throw when used outside their providers; React context lookup is runtime plumbing.
- The effects that fetch on mount and on a change of `id` are not modelled. Neither is the returned `refetch` closure; a fetch is called directly.
- Async interleaving is not modelled. A fetch runs to the end as one step, and `mountedRef` is read once for all its updates; an unmount in the middle of an `await` is not modelled.
- A stale `currentOptions` captured by an older closure is not modelled.
- Numbers are integers. Floating-point values, `NaN`, exponents and the text of non-integer numbers are left out.
- Strings are sequences of `char`. UTF-16 surrogate pairs are not told apart from code points in the form encoding.
- Property reads on values other than objects are simplified: arrays, strings and numbers have no named properties in the model, and prototype members are not modelled.
- RecipeList.RecipesHook.FetchRecipes: the `'Failed to fetch recipes'` fallback of `err?.message ?? …` is not modelled. Every error the model can raise has a message.
- RecipeDetail.RecipeHook.FetchRecipe: the `'Failed to fetch recipe'` fallback is not modelled, for the same reason.
- The engine's text for a `TypeError`, e.g. "Cannot read properties of null", is not modelled. `NullRead(property)` stands for it as a `Failure` value.
- RecipeDetail.MapDbRowToRecipeDetail: `String(Math.random())` is a parameter `RandomIds`, indexed by list and position. The model does not state that the random ids are distinct or that they look like numbers.
- ImageUrl.GetImageUrl: the image is a string or nothing. A non-string truthy image is interpolated by `String(…)` in the source, and that case is not modelled.
- The `console` logging is not modelled, and neither are the screens, components and styling outside these five files.
