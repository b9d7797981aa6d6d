// The to-do store (TodoManager in src/todo.py).  The JSON document is the
// sequence field `items`; every operation is scoped by owner.  The clock and
// the id generator are not modelled: the current time and the new id are
// passed in by the caller.

module Todo {
  import opened Models

  /** A partial update: a field is changed exactly when it is present. */
  datatype Patch = Patch(
    title: Option<string>,
    details: Option<string>,
    priority: Option<Priority>,
    status: Option<Status>)

  /** The patch that changes no field (it still refreshes the timestamp). */
  const NoChange: Patch := Patch(None, None, None, None)

  /** The patch mark-completed sends. */
  const CompletePatch: Patch := Patch(None, None, None, Some(COMPLETED))

  function Override<T>(change: Option<T>, current: T): T
  {
    match change
    case Some(v) => v
    case None => current
  }

  /**
   * The record update_item writes back for `item`: the same item (same id,
   * owner and creation time) stamped with `now`.
   */
  function ApplyPatch(item: TodoItem, patch: Patch, now: string): (u: TodoItem)
    ensures u.id == item.id && u.owner == item.owner && u.createdAt == item.createdAt
    ensures u.updatedAt == now
  {
    item.(title := Override(patch.title, item.title),
          details := Override(patch.details, item.details),
          priority := Override(patch.priority, item.priority),
          status := Override(patch.status, item.status),
          updatedAt := now)
  }

  /** Both the id and the owner match: the ownership-scoped lookup key. */
  predicate Matches(item: TodoItem, id: string, owner: string)
  {
    item.id == id && item.owner == owner
  }

  /** No two stored items share an id. */
  ghost predicate DistinctIds(items: seq<TodoItem>)
  {
    forall i, j :: 0 <= i < j < |items| ==> items[i].id != items[j].id
  }

  /** `id` is a usable id for a new item: non-empty and not yet stored. */
  predicate FreshId(items: seq<TodoItem>, id: string)
  {
    id != "" && forall j :: 0 <= j < |items| ==> items[j].id != id
  }

  /** The items `owner` sees, in stored order (list_items). */
  function Owned(items: seq<TodoItem>, owner: string): (r: seq<TodoItem>)
    ensures |r| <= |items|
    ensures forall x :: x in r ==> x in items && x.owner == owner
    ensures forall x :: x in items && x.owner == owner ==> x in r
  {
    if items == [] then []
    else if items[0].owner == owner then [items[0]] + Owned(items[1..], owner)
    else Owned(items[1..], owner)
  }

  /** The first item matching id and owner (get_item). */
  function Lookup(items: seq<TodoItem>, id: string, owner: string): (r: Option<TodoItem>)
    ensures r.Some? ==> r.value in items && Matches(r.value, id, owner)
    ensures r.None? ==> forall j :: 0 <= j < |items| ==> !Matches(items[j], id, owner)
  {
    if items == [] then None
    else if Matches(items[0], id, owner) then Some(items[0])
    else Lookup(items[1..], id, owner)
  }

  /** The index of the first item matching id and owner (update_item's scan). */
  function FindIndex(items: seq<TodoItem>, id: string, owner: string): (r: Option<nat>)
    ensures r.Some? ==> r.value < |items| && Matches(items[r.value], id, owner)
    ensures r.Some? ==> forall j :: 0 <= j < r.value ==> !Matches(items[j], id, owner)
    ensures r.None? ==> forall j :: 0 <= j < |items| ==> !Matches(items[j], id, owner)
  {
    if items == [] then None
    else if Matches(items[0], id, owner) then Some(0)
    else match FindIndex(items[1..], id, owner)
      case None => None
      case Some(k) => Some(k + 1)
  }

  class TodoManager {
    /** The contents of todos.json, in stored (append) order. */
    var items: seq<TodoItem>

    /** A store whose file does not exist yet loads as empty. */
    constructor ()
      ensures items == []
    {
      items := [];
    }

    function ListItems(owner: string): seq<TodoItem>
      reads this
    {
      Owned(items, owner)
    }

    function GetItem(id: string, owner: string): Option<TodoItem>
      reads this
    {
      Lookup(items, id, owner)
    }

    /** add_item: append a new PENDING item stamped with `now`. */
    method AddItem(owner: string, title: string, details: string, priority: Priority,
                   id: string, now: string)
      returns (item: TodoItem)
      requires FreshId(items, id)
      modifies this
      ensures item == TodoItem(id, title, details, priority, PENDING, owner, now, now)
      ensures items == old(items) + [item]
      ensures DistinctIds(old(items)) ==> DistinctIds(items)
    {
      item := TodoItem(id, title, details, priority, PENDING, owner, now, now);
      items := items + [item];
    }

    /** update_item: patch the first record matching id and owner. */
    method UpdateItem(id: string, owner: string, patch: Patch, now: string)
      returns (r: Option<TodoItem>)
      modifies this
      ensures FindIndex(old(items), id, owner).None? ==> r == None && items == old(items)
      ensures FindIndex(old(items), id, owner).Some? ==>
        var k := FindIndex(old(items), id, owner).value;
        r == Some(ApplyPatch(old(items)[k], patch, now)) && items == old(items)[k := r.value]
    {
      var i := 0;
      while i < |items|
        invariant 0 <= i <= |items|
        invariant items == old(items)
        invariant forall j :: 0 <= j < i ==> !Matches(items[j], id, owner)
      {
        if Matches(items[i], id, owner) {
          var updated := ApplyPatch(items[i], patch, now);
          items := items[i := updated];
          return Some(updated);
        }
        i := i + 1;
      }
      return None;
    }

    /** mark_completed: update_item with the status-only patch. */
    method MarkCompleted(id: string, owner: string, now: string) returns (r: Option<TodoItem>)
      modifies this
      ensures FindIndex(old(items), id, owner).None? ==> r == None && items == old(items)
      ensures FindIndex(old(items), id, owner).Some? ==>
        var k := FindIndex(old(items), id, owner).value;
        r == Some(ApplyPatch(old(items)[k], CompletePatch, now)) && items == old(items)[k := r.value]
      ensures r.Some? ==> r.value.status == COMPLETED
    {
      r := UpdateItem(id, owner, CompletePatch, now);
    }
  }

  // ---------------------------------------------------------------------
  // Properties of a single patch.

  /** A field changes to the patch's value when present and is kept when absent. */
  lemma ApplyPatchFields(item: TodoItem, patch: Patch, now: string)
    ensures var u := ApplyPatch(item, patch, now);
      u.updatedAt == now &&
      (patch.title.Some? ==> u.title == patch.title.value) &&
      (patch.title.None? ==> u.title == item.title) &&
      (patch.details.Some? ==> u.details == patch.details.value) &&
      (patch.details.None? ==> u.details == item.details) &&
      (patch.priority.Some? ==> u.priority == patch.priority.value) &&
      (patch.priority.None? ==> u.priority == item.priority) &&
      (patch.status.Some? ==> u.status == patch.status.value) &&
      (patch.status.None? ==> u.status == item.status)
  {
  }

  /** An empty patch still refreshes the timestamp and changes nothing else. */
  lemma EmptyPatchOnlyTouches(item: TodoItem, now: string)
    ensures ApplyPatch(item, NoChange, now) == item.(updatedAt := now)
  {
  }

  // ---------------------------------------------------------------------
  // Listing.

  /** Listing distributes over concatenation of the stored sequence. */
  lemma {:induction false} OwnedAppend(a: seq<TodoItem>, b: seq<TodoItem>, owner: string)
    ensures Owned(a + b, owner) == Owned(a, owner) + Owned(b, owner)
  {
    if a == [] {
      assert a + b == b;
    } else {
      assert (a + b)[1..] == a[1..] + b;
      OwnedAppend(a[1..], b, owner);
    }
  }

  /** After add_item the owner's list gains the new item at its end; nobody else's changes. */
  lemma ListAfterAdd(items: seq<TodoItem>, item: TodoItem, owner: string)
    ensures Owned(items + [item], owner) ==
      if item.owner == owner then Owned(items, owner) + [item] else Owned(items, owner)
  {
    OwnedAppend(items, [item], owner);
    assert Owned([item], owner) == (if item.owner == owner then [item] else []) by {
      assert [item][1..] == [];
    }
  }

  /**
   * Replacing one record by one with the same owner leaves every other
   * owner's list unchanged and the owner's list the same length.
   */
  lemma {:induction false} ListAfterReplace(items: seq<TodoItem>, k: nat, u: TodoItem, owner: string)
    requires k < |items| && u.owner == items[k].owner
    ensures |Owned(items[k := u], owner)| == |Owned(items, owner)|
    ensures items[k].owner != owner ==> Owned(items[k := u], owner) == Owned(items, owner)
  {
    if k == 0 {
      assert items[k := u][1..] == items[1..];
    } else {
      assert items[k := u][1..] == items[1..][k - 1 := u];
      ListAfterReplace(items[1..], k - 1, u, owner);
    }
  }

  // ---------------------------------------------------------------------
  // Lookup and the first-match index.

  /** get_item and update_item's scan pick the same record. */
  lemma {:induction false} LookupIsFirstMatch(items: seq<TodoItem>, id: string, owner: string)
    ensures Lookup(items, id, owner) ==
      match FindIndex(items, id, owner)
      case None => None
      case Some(k) => Some(items[k])
  {
    if items != [] && !Matches(items[0], id, owner) {
      LookupIsFirstMatch(items[1..], id, owner);
    }
  }

  /** With distinct ids, any matching position is the one found. */
  lemma FindIndexUnique(items: seq<TodoItem>, id: string, owner: string, j: nat)
    requires DistinctIds(items)
    requires j < |items| && Matches(items[j], id, owner)
    ensures FindIndex(items, id, owner) == Some(j)
  {
  }

  /** The item add_item appends is found by its id and owner. */
  lemma GetAfterAdd(items: seq<TodoItem>, item: TodoItem)
    requires FreshId(items, item.id)
    ensures FindIndex(items + [item], item.id, item.owner) == Some(|items|)
    ensures Lookup(items + [item], item.id, item.owner) == Some(item)
  {
    var all := items + [item];
    assert Matches(all[|items|], item.id, item.owner);
    LookupIsFirstMatch(all, item.id, item.owner);
  }

  /** After an update, get_item on the same key returns the updated record. */
  lemma GetAfterUpdate(items: seq<TodoItem>, id: string, owner: string, patch: Patch, now: string)
    requires FindIndex(items, id, owner).Some?
    ensures var k := FindIndex(items, id, owner).value;
      var u := ApplyPatch(items[k], patch, now);
      FindIndex(items[k := u], id, owner) == Some(k) &&
      Lookup(items[k := u], id, owner) == Some(u)
  {
    var k := FindIndex(items, id, owner).value;
    var u := ApplyPatch(items[k], patch, now);
    assert Matches(items[k := u][k], id, owner);
    LookupIsFirstMatch(items[k := u], id, owner);
  }

  // ---------------------------------------------------------------------
  // The id-uniqueness invariant.

  lemma AddPreservesDistinctIds(items: seq<TodoItem>, item: TodoItem)
    requires DistinctIds(items) && FreshId(items, item.id)
    ensures DistinctIds(items + [item])
  {
  }

  lemma UpdatePreservesDistinctIds(items: seq<TodoItem>, k: nat, patch: Patch, now: string)
    requires DistinctIds(items) && k < |items|
    ensures DistinctIds(items[k := ApplyPatch(items[k], patch, now)])
  {
  }

  // ---------------------------------------------------------------------
  // The scenarios of the store's tests, on a fresh store.

  /** Add one item for alice: alice lists exactly it, bob lists nothing. */
  method AddAndListScenario(id: string, now: string)
    returns (item: TodoItem, alice: seq<TodoItem>, bob: seq<TodoItem>)
    requires id != ""
    ensures item.status == PENDING && item.createdAt == item.updatedAt && item.id != ""
    ensures alice == [item] && bob == []
    ensures item.title == "Buy milk" && item.details == "2 liters" && item.priority == HIGH
  {
    var store := new TodoManager();
    item := store.AddItem("alice", "Buy milk", "2 liters", HIGH, id, now);
    ListAfterAdd([], item, "alice");
    ListAfterAdd([], item, "bob");
    alice := store.ListItems("alice");
    bob := store.ListItems("bob");
  }

  /**
   * Add, fetch, update every field, then update a missing id: the fetch
   * sees the item, the update returns the new fields with the new time, and
   * the missing id gives None.
   */
  method GetAndUpdateScenario(id: string, created: string, later: string)
    returns (fetched: Option<TodoItem>, updated: Option<TodoItem>, missing: Option<TodoItem>)
    requires id != "" && id != "missing"
    ensures fetched.Some? && fetched.value.title == "Initial"
    ensures updated.Some? && updated.value.title == "Updated" && updated.value.details == "Updated details"
    ensures updated.Some? && updated.value.priority == LOW && updated.value.status == COMPLETED
    ensures updated.Some? && updated.value.updatedAt == later && updated.value.createdAt == created
    ensures missing == None
  {
    var store := new TodoManager();
    var item := store.AddItem("alice", "Initial", "Details", MID, id, created);
    GetAfterAdd([], item);
    fetched := store.GetItem(id, "alice");
    updated := store.UpdateItem(id, "alice",
      Patch(Some("Updated"), Some("Updated details"), Some(LOW), Some(COMPLETED)), later);
    missing := store.UpdateItem("missing", "alice", Patch(Some("X"), None, None, None), later);
  }
}
