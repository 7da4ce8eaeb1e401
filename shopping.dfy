/** The shopping-list provider: the list operations the screens call, each of
    which replaces the whole list with a new one. */
module Shopping {
  import opened Text
  import opened Lists
  import opened JsValues

  datatype Category = Recipe | Manual

  datatype ShoppingItem = ShoppingItem(
    id: string,
    name: string,
    quantity: string,
    checked: bool,
    category: Category,
    recipeSource: Option<string>)

  /** An item as callers hand it in, before it has an id (`Omit<ShoppingItem, 'id'>`). */
  datatype ItemDraft = ItemDraft(
    name: string,
    quantity: string,
    checked: bool,
    category: Category,
    recipeSource: Option<string>)

  function WithId(d: ItemDraft, id: string): ShoppingItem
  {
    ShoppingItem(id, d.name, d.quantity, d.checked, d.category, d.recipeSource)
  }

  /** The id of the item at `index` of a recipe batch, `${Date.now()}-${index}`. */
  function BatchId(now: nat, index: nat): string
  {
    NatToString(now) + "-" + NatToString(index)
  }

  /** Ids of different positions in a batch differ, whatever the clock reads
      at each position. */
  lemma BatchIdsDistinct(now1: nat, i: nat, now2: nat, j: nat)
    requires i != j
    ensures BatchId(now1, i) != BatchId(now2, j)
  {
    if BatchId(now1, i) == BatchId(now2, j) {
      SplitAtSeparator(NatToString(now1), NatToString(i), NatToString(now2), NatToString(j), '-');
      NatToStringInjective(i, j);
    }
  }

  /** `addItem`: the draft, with the clock reading as its id, goes at the end. */
  function ItemAdded(items: seq<ShoppingItem>, draft: ItemDraft, now: nat): (r: seq<ShoppingItem>)
    ensures |r| == |items| + 1
    ensures r[..|items|] == items
    ensures r[|items|] == WithId(draft, NatToString(now))
  {
    items + [WithId(draft, NatToString(now))]
  }

  /** The items of a recipe batch: every draft relabelled as a recipe item of
      `title`, with the id built from its position and the clock reading
      `clock(index)` taken while mapping that position. */
  function RecipeBatch(drafts: seq<ItemDraft>, title: string, clock: nat -> nat): (r: seq<ShoppingItem>)
    ensures |r| == |drafts|
    ensures forall i :: 0 <= i < |r| ==> r[i].category == Recipe && r[i].recipeSource == Some(title)
  {
    seq(|drafts|, i requires 0 <= i < |drafts| =>
      ShoppingItem(BatchId(clock(i), i), drafts[i].name, drafts[i].quantity, drafts[i].checked, Recipe, Some(title)))
  }

  predicate NotFrom(item: ShoppingItem, source: string)
  {
    item.recipeSource != Some(source)
  }

  /** `removeRecipeItems`: the items whose source is not `source`. */
  function RecipeItemsRemoved(items: seq<ShoppingItem>, source: string): seq<ShoppingItem>
  {
    Filter(items, (it: ShoppingItem) => NotFrom(it, source))
  }

  /** `addRecipeItems`: the previous items of the same recipe give way to the new batch. */
  function RecipeItemsAdded(items: seq<ShoppingItem>, drafts: seq<ItemDraft>, title: string, clock: nat -> nat): seq<ShoppingItem>
  {
    RecipeItemsRemoved(items, title) + RecipeBatch(drafts, title, clock)
  }

  function ToggleIfId(item: ShoppingItem, id: string): ShoppingItem
  {
    if item.id == id then item.(checked := !item.checked) else item
  }

  /** `toggleItemCheck`: no item moves, appears or disappears, and every
      item keeps its id. */
  function CheckToggled(items: seq<ShoppingItem>, id: string): (r: seq<ShoppingItem>)
    ensures |r| == |items|
    ensures forall i :: 0 <= i < |items| ==> r[i].id == items[i].id
  {
    seq(|items|, i requires 0 <= i < |items| => ToggleIfId(items[i], id))
  }

  /** `removeItem`. */
  function ItemRemoved(items: seq<ShoppingItem>, id: string): seq<ShoppingItem>
  {
    Filter(items, (it: ShoppingItem) => it.id != id)
  }

  // ---------------------------------------------------------------------------
  // addItem
  // ---------------------------------------------------------------------------

  /** Adding an item whose id is new and removing that id again gives the
      list back. */
  lemma AddThenRemoveItem(items: seq<ShoppingItem>, draft: ItemDraft, now: nat)
    requires forall i :: 0 <= i < |items| ==> items[i].id != NatToString(now)
    ensures ItemRemoved(ItemAdded(items, draft, now), NatToString(now)) == items
  {
    var id := NatToString(now);
    var keep := (it: ShoppingItem) => it.id != id;
    FilterConcat(items, [WithId(draft, id)], keep);
    FilterKeepsAll(items, keep);
    assert Filter([WithId(draft, id)], keep) == [];
  }

  // ---------------------------------------------------------------------------
  // addRecipeItems
  // ---------------------------------------------------------------------------

  /** The result is the old items not from this recipe, in their order,
      followed by the batch in input order; every batch item is a recipe item
      of this recipe whatever the draft said. */
  lemma AddRecipeItemsShape(items: seq<ShoppingItem>, drafts: seq<ItemDraft>, title: string, clock: nat -> nat)
    ensures var r := RecipeItemsAdded(items, drafts, title, clock);
      var kept := RecipeItemsRemoved(items, title);
      && r[..|kept|] == kept
      && r[|kept|..] == RecipeBatch(drafts, title, clock)
      && (forall i :: 0 <= i < |kept| ==> kept[i] in items && kept[i].recipeSource != Some(title))
      && (forall i :: 0 <= i < |items| && items[i].recipeSource != Some(title) ==> items[i] in kept)
      && (forall i :: |kept| <= i < |r| ==> r[i].category == Recipe && r[i].recipeSource == Some(title))
  {
  }

  /** The fields an item had before it got its id (`Omit<ShoppingItem, 'id'>`). */
  function DraftOf(item: ShoppingItem): ItemDraft
  {
    ItemDraft(item.name, item.quantity, item.checked, item.category, item.recipeSource)
  }

  /** Giving a draft an id and dropping it again are inverse. */
  lemma DraftRoundTrip(d: ItemDraft, item: ShoppingItem, id: string)
    ensures DraftOf(WithId(d, id)) == d && WithId(d, id).id == id
    ensures WithId(DraftOf(item), item.id) == item
  {
  }

  /** Each batch item is its draft relabelled as an item of this recipe,
      with the id of its position. */
  lemma RecipeBatchItems(drafts: seq<ItemDraft>, title: string, clock: nat -> nat)
    ensures var b := RecipeBatch(drafts, title, clock);
      forall i :: 0 <= i < |b| ==>
        DraftOf(b[i]) == drafts[i].(category := Recipe, recipeSource := Some(title))
        && b[i].id == BatchId(clock(i), i)
  {
  }

  /** The batch does not depend on the category or source the drafts carry:
      drafts that agree on name, quantity and check mark give the same batch. */
  lemma RecipeBatchIgnoresLabels(a: seq<ItemDraft>, b: seq<ItemDraft>, title: string, clock: nat -> nat)
    requires |a| == |b|
    requires forall i :: 0 <= i < |a| ==>
      a[i].name == b[i].name && a[i].quantity == b[i].quantity && a[i].checked == b[i].checked
    ensures RecipeBatch(a, title, clock) == RecipeBatch(b, title, clock)
  {
  }

  /** Within one batch the ids are pairwise distinct. */
  lemma RecipeBatchIdsDistinct(drafts: seq<ItemDraft>, title: string, clock: nat -> nat)
    ensures var b := RecipeBatch(drafts, title, clock);
      forall i, j :: 0 <= i < j < |b| ==> b[i].id != b[j].id
  {
    var b := RecipeBatch(drafts, title, clock);
    forall i, j | 0 <= i < j < |b| ensures b[i].id != b[j].id {
      BatchIdsDistinct(clock(i), i, clock(j), j);
    }
  }

  /** Adding a recipe's items again replaces the earlier batch of that recipe. */
  lemma AddRecipeItemsReplaces(items: seq<ShoppingItem>, first: seq<ItemDraft>, second: seq<ItemDraft>,
                               title: string, clock1: nat -> nat, clock2: nat -> nat)
    ensures RecipeItemsAdded(RecipeItemsAdded(items, first, title, clock1), second, title, clock2)
         == RecipeItemsAdded(items, second, title, clock2)
  {
    var keep := (it: ShoppingItem) => NotFrom(it, title);
    var kept := RecipeItemsRemoved(items, title);
    var batch := RecipeBatch(first, title, clock1);
    RemoveAfterAddRecipeItems(items, first, title, clock1);
    assert RecipeItemsRemoved(RecipeItemsAdded(items, first, title, clock1), title) == kept;
  }

  /** Removing a recipe's items undoes adding them. */
  lemma RemoveAfterAddRecipeItems(items: seq<ShoppingItem>, drafts: seq<ItemDraft>, title: string, clock: nat -> nat)
    ensures RecipeItemsRemoved(RecipeItemsAdded(items, drafts, title, clock), title) == RecipeItemsRemoved(items, title)
  {
    var keep := (it: ShoppingItem) => NotFrom(it, title);
    var batch := RecipeBatch(drafts, title, clock);
    FilterConcat(RecipeItemsRemoved(items, title), batch, keep);
    FilterIdempotent(items, keep);
    FilterKeepsNone(batch, keep);
  }

  // ---------------------------------------------------------------------------
  // toggleItemCheck
  // ---------------------------------------------------------------------------

  /** Only the `checked` flag of the items with that id changes. */
  lemma ToggleChangesOnlyChecked(items: seq<ShoppingItem>, id: string, i: int)
    requires 0 <= i < |items|
    ensures var t := CheckToggled(items, id)[i];
      t == items[i].(checked := t.checked)
      && (t.checked == !items[i].checked <==> items[i].id == id)
  {
  }

  /** Toggling twice restores the list. */
  lemma ToggleTwice(items: seq<ShoppingItem>, id: string)
    ensures CheckToggled(CheckToggled(items, id), id) == items
  {
    var once := CheckToggled(items, id);
    var twice := CheckToggled(once, id);
    assert forall i :: 0 <= i < |items| ==> twice[i] == items[i];
  }

  // ---------------------------------------------------------------------------
  // removeItem / removeRecipeItems
  // ---------------------------------------------------------------------------

  /** removeItem keeps exactly the items with another id: nothing with that
      id remains, every other item stays, and the list is a filter of the
      old one. */
  lemma RemoveItemExactly(items: seq<ShoppingItem>, id: string)
    ensures var r := ItemRemoved(items, id);
      (forall i :: 0 <= i < |r| ==> r[i].id != id && r[i] in items)
      && (forall i :: 0 <= i < |items| && items[i].id != id ==> items[i] in r)
  {
  }

  /** Removing twice is removing once, and an unknown id changes nothing. */
  lemma RemoveItemIdempotent(items: seq<ShoppingItem>, id: string)
    ensures ItemRemoved(ItemRemoved(items, id), id) == ItemRemoved(items, id)
    ensures (forall i :: 0 <= i < |items| ==> items[i].id != id) ==> ItemRemoved(items, id) == items
  {
    FilterIdempotent(items, (it: ShoppingItem) => it.id != id);
    if forall i :: 0 <= i < |items| ==> items[i].id != id {
      FilterKeepsAll(items, (it: ShoppingItem) => it.id != id);
    }
  }

  /** removeRecipeItems keeps exactly the items of other or no source, so
      manual items without a source always survive. */
  lemma RemoveRecipeItemsExactly(items: seq<ShoppingItem>, source: string)
    ensures var r := RecipeItemsRemoved(items, source);
      (forall i :: 0 <= i < |r| ==> r[i].recipeSource != Some(source) && r[i] in items)
      && (forall i :: 0 <= i < |items| && items[i].recipeSource != Some(source) ==> items[i] in r)
      && (forall i :: 0 <= i < |items| && items[i].recipeSource == None ==> items[i] in r)
  {
  }

  /** The items removed and the items kept account for the whole list. */
  lemma RemoveRecipeItemsCount(items: seq<ShoppingItem>, source: string)
    ensures |RecipeItemsRemoved(items, source)| + |Filter(items, (it: ShoppingItem) => !NotFrom(it, source))| == |items|
  {
    FilterPartition(items, (it: ShoppingItem) => NotFrom(it, source), (it: ShoppingItem) => !NotFrom(it, source));
  }

  /** The provider's list state; persistence to device storage is not part of
      this model. */
  class ShoppingProvider {
    var items: seq<ShoppingItem>

    constructor ()
      ensures items == []
    {
      items := [];
    }

    method AddItem(draft: ItemDraft, now: nat)
      modifies this
      ensures items == ItemAdded(old(items), draft, now)
    {
      items := ItemAdded(items, draft, now);
    }

    method AddRecipeItems(drafts: seq<ItemDraft>, title: string, clock: nat -> nat)
      modifies this
      ensures items == RecipeItemsAdded(old(items), drafts, title, clock)
    {
      items := RecipeItemsAdded(items, drafts, title, clock);
    }

    method ToggleItemCheck(id: string)
      modifies this
      ensures items == CheckToggled(old(items), id)
    {
      items := CheckToggled(items, id);
    }

    method RemoveItem(id: string)
      modifies this
      ensures items == ItemRemoved(old(items), id)
    {
      items := ItemRemoved(items, id);
    }

    method RemoveRecipeItems(source: string)
      modifies this
      ensures items == RecipeItemsRemoved(old(items), source)
    {
      items := RecipeItemsRemoved(items, source);
    }

    method ClearAllItems()
      modifies this
      ensures items == []
    {
      items := [];
    }

    method UpdateItems(newItems: seq<ShoppingItem>)
      modifies this
      ensures items == newItems
    {
      items := newItems;
    }
  }
}
