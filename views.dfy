/** The view-controller state machine every resource page shares: the
    `isCreating` and `editingItem` state, the submit/cancel/delete handlers
    and the mutation success callbacks, with the server-state cache reduced
    to the set of query keys marked stale. */
module Views {
  import opened Wrappers
  import Api

  /** The query client: which cached collections have been invalidated. */
  class QueryCache {
    var stale: set<string>

    constructor ()
      ensures stale == {}
    {
      stale := {};
    }

    /** `invalidateQueries({ queryKey: [key] })` */
    method Invalidate(key: string)
      modifies this
      ensures stale == old(stale) + {key}
    {
      stale := stale + {key};
    }
  }

  /** The mutation a handler fires, if any: `create(data)`,
      `update({ id, data })` or `delete(id)`. */
  datatype Mutation<D> =
    | NoCall
    | CreateCall(data: D)
    | UpdateCall(id: int, data: D)
    | DeleteCall(id: int)

  /** `response?.data || []`: the loaded items, empty while the response is
      missing. */
  function Loaded<T>(response: Option<seq<T>>): (items: seq<T>)
    ensures response.None? ==> items == []
    ensures response.Some? ==> items == response.value
  {
    response.GetOr([])
  }

  /** The verb and path a fired mutation is sent to by a resource object. */
  function CallEndpoint<D>(r: Api.Resource, call: Mutation<D>): (e: Option<Api.Endpoint>)
    requires r != Api.ItineraryActivityApi
    ensures e.None? <==> call.NoCall?
    ensures call.CreateCall? ==> e == Some(Api.Endpoint(Api.Post, "/" + Api.Collection(r)))
    ensures call.UpdateCall? ==>
              e == Some(Api.Endpoint(if r == Api.ItineraryApi || r == Api.CulinaryApi then Api.Patch else Api.Put,
                                     Api.ItemPath(r, call.id)))
    ensures call.DeleteCall? ==> e == Some(Api.Endpoint(Api.Delete, Api.ItemPath(r, call.id)))
  {
    match call
    case NoCall => None
    case CreateCall(_) => Api.RouteLaws(r, Api.Create); Api.Route(r, Api.Create)
    case UpdateCall(id, _) => Api.RouteLaws(r, Api.Update(id)); Api.Route(r, Api.Update(id))
    case DeleteCall(id) => Api.RouteLaws(r, Api.Remove(id)); Api.Route(r, Api.Remove(id))
  }

  /** One resource page. `T` is the item type, `D` the payload its mutations
      carry. */
  class ResourceView<T, D> {
    /** The query key the page reads and invalidates. */
    const key: string
    /** The resource object its mutations go through. */
    const api: Api.Resource
    const cache: QueryCache
    /** The item's `id` field. */
    const idOf: T -> int
    /** The form's declared `required`/`min`/`max` rules. */
    const accepts: D -> bool

    var isCreating: bool
    var editingItem: Option<T>
    /** How many times the form has been reset. */
    var resets: nat

    constructor (key: string, api: Api.Resource, cache: QueryCache, idOf: T -> int, accepts: D -> bool)
      ensures this.key == key && this.api == api && this.cache == cache
      ensures this.idOf == idOf && this.accepts == accepts
      ensures !isCreating && editingItem == None && resets == 0
    {
      this.key := key;
      this.api := api;
      this.cache := cache;
      this.idOf := idOf;
      this.accepts := accepts;
      isCreating := false;
      editingItem := None;
      resets := 0;
    }

    /** The create/edit form is rendered. */
    predicate FormShown()
      reads this
    {
      isCreating || editingItem.Some?
    }

    /** The "Add" button. */
    method StartCreate()
      modifies this`isCreating
      ensures isCreating && FormShown()
    {
      isCreating := true;
    }

    /** The "Edit" button of an item. */
    method StartEdit(item: T)
      modifies this`editingItem
      ensures editingItem == Some(item) && FormShown()
    {
      editingItem := Some(item);
    }

    /** The "Cancel" button: leaves both form states and resets the form. */
    method Cancel()
      modifies this`isCreating, this`editingItem, this`resets
      ensures !isCreating && editingItem == None && !FormShown()
      ensures resets == old(resets) + 1
    {
      isCreating := false;
      editingItem := None;
      resets := resets + 1;
    }

    /** `handleSubmit(onSubmit)`: a form that breaks a rule fires nothing and
        is not reset; otherwise the edited item is updated when there is one
        (it takes precedence over `isCreating`), a new item is created when
        there is none, and the form is reset in both branches. The form state
        itself changes only when the mutation succeeds. */
    method Submit(data: D) returns (call: Mutation<D>)
      modifies this`resets
      ensures !accepts(data) ==> call == NoCall && resets == old(resets)
      ensures accepts(data) && editingItem.Some? ==> call == UpdateCall(idOf(editingItem.value), data)
      ensures accepts(data) && editingItem.None? ==> call == CreateCall(data)
      ensures accepts(data) ==> resets == old(resets) + 1
    {
      if !accepts(data) {
        return NoCall;
      }
      if editingItem.Some? {
        call := UpdateCall(idOf(editingItem.value), data);
      } else {
        call := CreateCall(data);
      }
      resets := resets + 1;
    }

    /** The "Delete" button: `window.confirm` answered `confirmed`. */
    method ConfirmDelete(item: T, confirmed: bool) returns (call: Mutation<D>)
      ensures call.DeleteCall? <==> confirmed
      ensures call.DeleteCall? ==> call.id == idOf(item)
      ensures !confirmed ==> call == NoCall
    {
      if confirmed {
        call := DeleteCall(idOf(item));
      } else {
        call := NoCall;
      }
    }

    /** A fired mutation settles. On success its callback invalidates the
        page's own key and nothing else; create then clears `isCreating`,
        update clears `editingItem`, and delete touches neither. A failed
        mutation changes nothing. */
    method Settle(call: Mutation<D>, succeeded: bool)
      modifies this`isCreating, this`editingItem, cache
      ensures !succeeded || call.NoCall? ==>
                cache.stale == old(cache.stale) && isCreating == old(isCreating)
                && editingItem == old(editingItem)
      ensures succeeded && !call.NoCall? ==> cache.stale == old(cache.stale) + {key}
      ensures succeeded && call.CreateCall? ==> !isCreating && editingItem == old(editingItem)
      ensures succeeded && call.UpdateCall? ==> editingItem == None && isCreating == old(isCreating)
      ensures succeeded && call.DeleteCall? ==>
                isCreating == old(isCreating) && editingItem == old(editingItem)
    {
      if !succeeded {
        return;
      }
      match call
      case NoCall =>
      case CreateCall(_) =>
        cache.Invalidate(key);
        isCreating := false;
      case UpdateCall(_, _) =>
        cache.Invalidate(key);
        editingItem := None;
      case DeleteCall(_) =>
        cache.Invalidate(key);
    }
  }
}
