/** The packing page: packing items, the item form's rules, the checkbox
    toggle, the item count and the page's view controller. */
module Packing {
  import opened Wrappers
  import Api
  import Views

  /** A packing item as the server returns it. The page reads and writes
      `isChecked`, which the declared row type does not have (it declares
      `is_packed`); either may be absent from a record. */
  datatype PackingItem = PackingItem(id: int, name: string, category: string, quantity: int,
                                     isPacked: Option<bool>, isChecked: Option<bool>)

  /** The item form: a name and the "Packed" checkbox. */
  datatype PackingForm = PackingForm(name: string, isChecked: bool)

  /** What the page's mutations carry: the form's data, or a whole record
      sent back by the checkbox toggle. */
  datatype PackingPayload = FormData(form: PackingForm) | Record(item: PackingItem)

  /** The declared rules: the name is required, the checkbox is optional. */
  predicate ValidPackingForm(p: PackingPayload) {
    p.FormData? && p.form.name != ""
  }

  function PackingId(item: PackingItem): int {
    item.id
  }

  /** The checkbox shows an item as checked only when `isChecked` is true. */
  predicate Checked(item: PackingItem) {
    item.isChecked == Some(true)
  }

  /** `{ ...item, isChecked: !item.isChecked }`: the same record with the
      checkbox flipped; an absent flag negates to true. */
  function Toggled(item: PackingItem): (r: PackingItem)
    ensures r.id == item.id && r.name == item.name && r.category == item.category
    ensures r.quantity == item.quantity && r.isPacked == item.isPacked
    ensures r.isChecked.Some?
    ensures Checked(r) <==> !Checked(item)
  {
    item.(isChecked := Some(!Checked(item)))
  }

  /** Toggling twice restores the record exactly when it carried a flag; a
      record without one comes back with `isChecked` false. */
  lemma ToggleTwice(item: PackingItem)
    ensures Toggled(Toggled(item)) == item <==> item.isChecked.Some?
    ensures item.isChecked.None? ==> Toggled(Toggled(item)) == item.(isChecked := Some(false))
  {
    if item.isChecked.Some? {
      assert Checked(item) == item.isChecked.value;
      assert Toggled(Toggled(item)).isChecked == Some(Checked(item));
    } else {
      assert Toggled(Toggled(item)).isChecked != item.isChecked;
    }
  }

  /** The checkbox's change handler: `update({ id: item.id, data: … })`
      through the same update mutation the form uses. */
  function ToggleCall(item: PackingItem): (call: Views.Mutation<PackingPayload>)
    ensures call.UpdateCall? && call.id == item.id
    ensures call.data == Record(Toggled(item))
  {
    Views.UpdateCall(item.id, Record(Toggled(item)))
  }

  /** The toggle is sent as a PUT to the item's path, with the toggled
      record as the body. */
  lemma ToggleEndpoint(item: PackingItem)
    ensures Views.CallEndpoint(Api.PackingApi, ToggleCall(item))
            == Some(Api.Endpoint(Api.Put, "/packing/" + Api.IdString(item.id)))
  {
    Api.RouteLaws(Api.PackingApi, Api.Update(item.id));
    assert Api.ItemPath(Api.PackingApi, item.id) == "/packing/" + Api.IdString(item.id);
  }

  /** "Total Items": the number of loaded items, 0 while the response is
      missing. */
  function ItemCount(response: Option<seq<PackingItem>>): (n: nat)
    ensures response.None? ==> n == 0
    ensures response.Some? ==> n == |response.value|
  {
    |Views.Loaded(response)|
  }

  /** The page's controller: key `'packing'`, mutations through
      `packingAPI`, form submissions gated by the item form's rules. */
  method NewPackingView(cache: Views.QueryCache)
    returns (v: Views.ResourceView<PackingItem, PackingPayload>)
    ensures fresh(v)
    ensures v.key == "packing" && v.api == Api.PackingApi && v.cache == cache
    ensures v.idOf == PackingId && v.accepts == ValidPackingForm
    ensures !v.isCreating && v.editingItem == None
  {
    v := new Views.ResourceView("packing", Api.PackingApi, cache, PackingId, ValidPackingForm);
  }

  /** A toggle that succeeds marks `'packing'` stale and, since it shares the
      update mutation, also closes an open edit form. */
  method ToggleSettles(v: Views.ResourceView<PackingItem, PackingPayload>, item: PackingItem)
    requires v.key == "packing"
    modifies v`isCreating, v`editingItem, v.cache
    ensures v.cache.stale == old(v.cache.stale) + {"packing"}
    ensures v.editingItem == None && v.isCreating == old(v.isCreating)
  {
    v.Settle(ToggleCall(item), true);
  }
}
