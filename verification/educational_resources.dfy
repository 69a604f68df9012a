/**
 The educational resources page: expanding and collapsing categories,
 checking off one-shot items, keeping the checklist in storage, and how each
 item is marked and styled.
 */
module EducationalResources {
  import opened Wrappers
  import Membership
  import opened CheckedJson
  import opened ResourceCatalogue

  /** The browser's key/value storage. */
  type Storage = map<string, string>

  const StorageKey: string := "educationalResources"

  /** The page's state: the expanded categories, in the order they were opened, and the
      checklist keyed by item id. */
  datatype Page = Page(expanded: seq<string>, checked: Checked)

  /** `toggleSection`: collapse an expanded category, expand a collapsed one. */
  function ToggleSection(p: Page, id: string): (r: Page)
    ensures id in r.expanded <==> id !in p.expanded
    ensures forall x :: x != id ==> (x in r.expanded <==> x in p.expanded)
    ensures Membership.NoDuplicates(p.expanded) ==> Membership.NoDuplicates(r.expanded)
    ensures r.checked == p.checked
  {
    assert Membership.NoDuplicates(p.expanded) ==> Membership.NoDuplicates(Membership.Toggle(p.expanded, id)) by {
      if Membership.NoDuplicates(p.expanded) {
        Membership.ToggleKeepsNoDuplicates(p.expanded, id);
      }
    }
    p.(expanded := Membership.Toggle(p.expanded, id))
  }

  /** A category's items are shown exactly while it is expanded. */
  predicate Expanded(p: Page, c: Category) {
    c.id in p.expanded
  }

  /** `checkedItems[id]` as a condition: a missing id reads as unchecked. */
  predicate IsChecked(checked: Checked, id: string) {
    Lookup(checked, id) == Some(true)
  }

  /** `toggleCheckItem`: the item's entry becomes the negation of what it read as. */
  function ToggleCheckItem(p: Page, id: string): (r: Page)
    ensures IsChecked(r.checked, id) <==> !IsChecked(p.checked, id)
    ensures Lookup(r.checked, id).Some?
    ensures forall k :: k != id ==> Lookup(r.checked, k) == Lookup(p.checked, k)
    ensures DistinctKeys(p.checked) ==> DistinctKeys(r.checked)
    ensures r.expanded == p.expanded
  {
    var value := !IsChecked(p.checked, id);
    var checked := Set(p.checked, id, value);
    SetLookup(p.checked, id, value);
    assert forall k :: k != id ==> Lookup(checked, k) == Lookup(p.checked, k) by {
      forall k | k != id ensures Lookup(checked, k) == Lookup(p.checked, k) {
        SetOther(p.checked, id, value, k);
      }
    }
    assert DistinctKeys(p.checked) ==> DistinctKeys(checked) by {
      if DistinctKeys(p.checked) {
        SetKeepsDistinct(p.checked, id, value);
      }
    }
    p.(checked := checked)
  }

  /** Toggling an item twice leaves every item reading as it did. */
  lemma ToggleCheckItemTwice(p: Page, id: string)
    ensures forall k :: IsChecked(ToggleCheckItem(ToggleCheckItem(p, id), id).checked, k) <==> IsChecked(p.checked, k)
  {
  }

  /** The save effect: the checklist written under its key, nothing else touched. */
  function Save(storage: Storage, checked: Checked): (r: Storage)
    ensures StorageKey in r && r[StorageKey] == Stringify(checked)
    ensures forall k :: k != StorageKey ==> (k in r <==> k in storage) && (k in storage ==> r[k] == storage[k])
  {
    storage[StorageKey := Stringify(checked)]
  }

  /** The load effect on mount. A missing or empty value is skipped; a value that does not
      parse is logged and the checklist stays empty. */
  function LoadChecked(storage: Storage): (r: Checked)
    ensures DistinctKeys(r)
    ensures StorageKey !in storage || storage[StorageKey] == "" ==> r == []
    ensures r != [] ==> StorageKey in storage && Parse(storage[StorageKey]) == Some(r)
    ensures StorageKey in storage && Parse(storage[StorageKey]).Some? ==> r == Parse(storage[StorageKey]).value
  {
    if StorageKey !in storage || storage[StorageKey] == "" then []
    else
      match Parse(storage[StorageKey])
      case Some(m) => m
      case None => []
  }

  /** Opening the page: nothing expanded, the checklist loaded, and storage holding the
      loaded checklist once both effects have run (the save effect first writes `{}`
      for the initial empty state, then the loaded one). */
  function Mount(storage: Storage): (r: (Page, Storage))
    ensures r.0.expanded == [] && r.0.checked == LoadChecked(storage)
    ensures r.1 == Save(storage, r.0.checked)
  {
    var checked := LoadChecked(storage);
    (Page([], checked), Save(storage, checked))
  }

  /** What the page saves, a later visit loads back unchanged. */
  lemma SaveThenMount(storage: Storage, p: Page)
    requires DistinctKeys(p.checked)
    ensures Mount(Save(storage, p.checked)).0.checked == p.checked
  {
    StringifyRoundTrip(p.checked);
  }

  /** Opening the page twice is the same as opening it once. */
  lemma MountIdempotent(storage: Storage)
    ensures Mount(Mount(storage).1) == Mount(storage)
  {
    var checked := LoadChecked(storage);
    StringifyRoundTrip(checked);
    assert Save(Save(storage, checked), checked) == Save(storage, checked);
  }

  /** A stored value that does not parse is replaced by `{}`: the checklist it held is lost. */
  lemma UnreadableIsErased(storage: Storage)
    requires StorageKey in storage && storage[StorageKey] != "" && Parse(storage[StorageKey]).None?
    ensures Mount(storage).0.checked == []
    ensures Mount(storage).1[StorageKey] == "{}"
  {
  }

  /** The marker in front of an item. */
  datatype Marker = Box(glyph: string) | Bullet

  const CheckedGlyph: string := "\U{2705}"
  const UncheckedGlyph: string := "\U{2610}"

  /** A one-shot item has a checkbox showing whether it is checked; any other item has a
      bullet. */
  function MarkerOf(item: Item, checked: Checked): (r: Marker)
    ensures r.Box? <==> item.kind == OneShot
    ensures r.Box? ==> (r.glyph == CheckedGlyph <==> IsChecked(checked, item.id))
    ensures r.Box? ==> (r.glyph == UncheckedGlyph <==> !IsChecked(checked, item.id))
  {
    if item.kind == OneShot then Box(if IsChecked(checked, item.id) then CheckedGlyph else UncheckedGlyph)
    else Bullet
  }

  datatype TextStyle = HeaderStyle | Struck | Plain

  /** Headers are always styled as headers; other items are struck through exactly when
      checked. */
  function StyleOf(item: Item, checked: Checked): (r: TextStyle)
    ensures r == HeaderStyle <==> item.header
    ensures !item.header ==> (r == Struck <==> IsChecked(checked, item.id))
  {
    if item.header then HeaderStyle
    else if IsChecked(checked, item.id) then Struck
    else Plain
  }

  /** No header on the page ever shows a checkbox. */
  lemma HeadersHaveBullets(i: int, checked: Checked)
    requires 0 <= i < |AllItems(Categories)| && AllItems(Categories)[i].header
    ensures MarkerOf(AllItems(Categories)[i], checked) == Bullet
  {
    CatalogueHeaders();
  }

  /** Checking off one item of the page changes how no other item is marked or styled. */
  lemma ToggleTouchesOneItem(p: Page, i: int, j: int)
    requires 0 <= i < |AllItems(Categories)| && 0 <= j < |AllItems(Categories)| && i != j
    ensures var items := AllItems(Categories);
      var r := ToggleCheckItem(p, items[i].id);
      MarkerOf(items[j], r.checked) == MarkerOf(items[j], p.checked)
      && StyleOf(items[j], r.checked) == StyleOf(items[j], p.checked)
  {
    var items := AllItems(Categories);
    CatalogueIdsDistinct();
    if i < j {
      assert Ids(items)[i] != Ids(items)[j];
    } else {
      assert Ids(items)[j] != Ids(items)[i];
    }
  }
}
