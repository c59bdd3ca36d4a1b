/**
 * The wishlist store: a reducer over an ordered list of saved items, and the
 * provider that wraps it with a membership guard, a membership query, a count
 * and a notification for each action.
 */
module Wishlist {
  import opened Wrappers
  import Seqs

  datatype Item = Item(
    id: string,
    name: string,
    brand: string,
    price: int,
    imageUrl: string,
    inStock: Option<bool>)

  datatype State = State(items: seq<Item>)

  datatype Action =
    | AddToWishlist(payload: Item)
    | RemoveFromWishlist(id: string)
    | ClearWishlist

  /** The toast the provider raises for an action. */
  datatype Notice = Added(name: string) | Removed | Cleared

  /** `items.some(item => item.id === id)`. */
  function AnyHasId(items: seq<Item>, id: string): (r: bool)
    ensures r <==> exists i :: 0 <= i < |items| && items[i].id == id
  {
    if items == [] then false
    else items[0].id == id || AnyHasId(items[1..], id)
  }

  /** The store's invariant: no two items share an id. */
  ghost predicate IdsDistinct(items: seq<Item>)
  {
    forall i, j :: 0 <= i < j < |items| ==> items[i].id != items[j].id
  }

  /** The set of ids held. */
  ghost function Ids(items: seq<Item>): set<string>
  {
    set i | 0 <= i < |items| :: items[i].id
  }

  /** The callback `item => item.id !== id`. */
  function OtherId(id: string): Item -> bool
  {
    (it: Item) => it.id != id
  }

  /** `items.filter(item => item.id !== id)`. */
  function Without(items: seq<Item>, id: string): seq<Item>
  {
    Seqs.Filter(items, OtherId(id))
  }

  /** `wishlistReducer`. */
  function Reduce(state: State, action: Action): State
  {
    match action
    case AddToWishlist(item) =>
      if AnyHasId(state.items, item.id) then state
      else state.(items := state.items + [item])
    case RemoveFromWishlist(id) =>
      state.(items := Without(state.items, id))
    case ClearWishlist =>
      State([])
  }

  /** Dispatching a list of actions in turn, starting from `state`. */
  function ReduceAll(state: State, actions: seq<Action>): State
    decreases |actions|
  {
    if actions == [] then state else ReduceAll(Reduce(state, actions[0]), actions[1..])
  }

  // ---------------------------------------------------------------------
  // Properties of the reducer

  /** ADD of an id already present returns the state unchanged. */
  lemma AddPresentUnchanged(state: State, item: Item)
    requires exists i :: 0 <= i < |state.items| && state.items[i].id == item.id
    ensures Reduce(state, AddToWishlist(item)) == state
    ensures |Reduce(state, AddToWishlist(item)).items| == |state.items|
  {
  }

  /** ADD of an absent id appends the item; earlier items are untouched. */
  lemma AddAbsentAppends(state: State, item: Item)
    requires forall i :: 0 <= i < |state.items| ==> state.items[i].id != item.id
    ensures var r := Reduce(state, AddToWishlist(item)).items;
      && |r| == |state.items| + 1
      && r[..|state.items|] == state.items
      && r[|state.items|] == item
      && Ids(r) == Ids(state.items) + {item.id}
  {
    var r := Reduce(state, AddToWishlist(item)).items;
    assert r == state.items + [item];
    assert r[..|state.items|] == state.items;
    forall x | x in Ids(state.items) + {item.id} ensures x in Ids(r) {
      if x == item.id {
        assert r[|state.items|].id == x;
      } else {
        var i :| 0 <= i < |state.items| && state.items[i].id == x;
        assert r[i].id == x;
      }
    }
  }

  /** ADD is idempotent: adding the same item twice is adding it once. */
  lemma {:induction false} AddIdempotent(state: State, item: Item)
    ensures Reduce(Reduce(state, AddToWishlist(item)), AddToWishlist(item))
         == Reduce(state, AddToWishlist(item))
  {
    var once := Reduce(state, AddToWishlist(item));
    if !AnyHasId(state.items, item.id) {
      assert once.items[|state.items|].id == item.id;
    }
    assert AnyHasId(once.items, item.id);
  }

  /**
   * REMOVE leaves no item with that id, keeps every other item in its
   * relative order, and changes nothing when the id is absent.
   */
  lemma RemoveFilters(state: State, id: string)
    ensures var r := Reduce(state, RemoveFromWishlist(id)).items;
      && (forall i :: 0 <= i < |r| ==> r[i].id != id)
      && (forall x :: x in state.items && x.id != id ==> x in r)
      && Seqs.IsSubsequence(r, state.items)
      && ((forall i :: 0 <= i < |state.items| ==> state.items[i].id != id) ==>
            Reduce(state, RemoveFromWishlist(id)) == state)
  {
    var keep := OtherId(id);
    var r := Reduce(state, RemoveFromWishlist(id)).items;
    Seqs.FilterIsSubsequence(state.items, keep);
    forall i | 0 <= i < |r| ensures r[i].id != id {
      assert r[i] in r;
    }
    if forall i :: 0 <= i < |state.items| ==> state.items[i].id != id {
      Seqs.FilterKeepsAll(state.items, keep);
    }
  }

  /**
   * With distinct ids, removing the id of the item at position `k` deletes
   * exactly that position.
   */
  lemma RemoveAt(state: State, k: nat)
    requires IdsDistinct(state.items)
    requires k < |state.items|
    ensures Reduce(state, RemoveFromWishlist(state.items[k].id)).items
         == state.items[..k] + state.items[k + 1..]
  {
    var s := state.items;
    var keep := OtherId(s[k].id);
    var before, after := s[..k], s[k + 1..];
    assert s == (before + [s[k]]) + after;
    forall i | 0 <= i < |before| ensures keep(before[i]) {
      assert before[i] == s[i];
    }
    forall i | 0 <= i < |after| ensures keep(after[i]) {
      assert after[i] == s[k + 1 + i];
    }
    calc {
      Seqs.Filter(s, keep);
      { Seqs.FilterAppend(before + [s[k]], after, keep); }
      Seqs.Filter(before + [s[k]], keep) + Seqs.Filter(after, keep);
      { Seqs.FilterAppend(before, [s[k]], keep); }
      Seqs.Filter(before, keep) + Seqs.Filter([s[k]], keep) + Seqs.Filter(after, keep);
      { Seqs.FilterKeepsAll(before, keep); Seqs.FilterKeepsAll(after, keep); }
      before + Seqs.Filter([s[k]], keep) + after;
      { assert !keep(s[k]); assert Seqs.Filter([s[k]], keep) == []; }
      before + after;
    }
  }

  /** REMOVE is idempotent. */
  lemma RemoveIdempotent(state: State, id: string)
    ensures Reduce(Reduce(state, RemoveFromWishlist(id)), RemoveFromWishlist(id))
         == Reduce(state, RemoveFromWishlist(id))
  {
    var once := Reduce(state, RemoveFromWishlist(id));
    RemoveFilters(state, id);
    RemoveFilters(once, id);
  }

  /** CLEAR empties the list, so no id is a member afterwards. */
  lemma ClearEmpties(state: State, id: string)
    ensures Reduce(state, ClearWishlist).items == []
    ensures !AnyHasId(Reduce(state, ClearWishlist).items, id)
  {
  }

  /** A filter of a list with distinct ids has distinct ids. */
  lemma {:induction false} FilterKeepsDistinct(items: seq<Item>, keep: Item -> bool)
    requires IdsDistinct(items)
    ensures IdsDistinct(Seqs.Filter(items, keep))
  {
    if items != [] {
      var rest := Seqs.Filter(items[1..], keep);
      FilterKeepsDistinct(items[1..], keep);
      forall x | x in rest ensures x.id != items[0].id {
        var j :| 0 <= j < |items[1..]| && items[1..][j] == x;
        assert items[j + 1] == x;
      }
      if keep(items[0]) {
        assert Seqs.Filter(items, keep) == [items[0]] + rest;
        DistinctCons(items[0], rest);
      } else {
        assert Seqs.Filter(items, keep) == rest;
      }
    }
  }

  /** Putting an item with a fresh id in front of a distinct list keeps it distinct. */
  lemma DistinctCons(x: Item, rest: seq<Item>)
    requires IdsDistinct(rest)
    requires forall y :: y in rest ==> y.id != x.id
    ensures IdsDistinct([x] + rest)
  {
    var r := [x] + rest;
    forall i, j | 0 <= i < j < |r| ensures r[i].id != r[j].id {
      assert r[j] == rest[j - 1];
      if i == 0 {
        assert r[j] in rest;
      } else {
        assert r[i] == rest[i - 1];
      }
    }
  }

  /** Every transition keeps the ids pairwise distinct. */
  lemma ReducePreservesDistinct(state: State, action: Action)
    requires IdsDistinct(state.items)
    ensures IdsDistinct(Reduce(state, action).items)
  {
    match action
    case AddToWishlist(item) =>
      if !AnyHasId(state.items, item.id) {
        var r := state.items + [item];
        forall i, j | 0 <= i < j < |r| ensures r[i].id != r[j].id {
          if j == |state.items| {
            assert r[i] == state.items[i];
          }
        }
      }
    case RemoveFromWishlist(id) =>
      FilterKeepsDistinct(state.items, OtherId(id));
    case ClearWishlist =>
  }

  /** Any sequence of dispatches from a distinct state stays distinct. */
  lemma {:induction false} ReduceAllPreservesDistinct(state: State, actions: seq<Action>)
    requires IdsDistinct(state.items)
    ensures IdsDistinct(ReduceAll(state, actions).items)
    decreases |actions|
  {
    if actions != [] {
      ReducePreservesDistinct(state, actions[0]);
      ReduceAllPreservesDistinct(Reduce(state, actions[0]), actions[1..]);
    }
  }

  /** With distinct ids the count equals the number of different ids held. */
  lemma {:induction false} CountIsNumberOfIds(items: seq<Item>)
    requires IdsDistinct(items)
    ensures |Ids(items)| == |items|
  {
    if items != [] {
      CountIsNumberOfIds(items[1..]);
      assert Ids(items) == {items[0].id} + Ids(items[1..]) by {
        forall x | x in Ids(items) ensures x in {items[0].id} + Ids(items[1..]) {
          var i :| 0 <= i < |items| && items[i].id == x;
          if i > 0 { assert items[1..][i - 1].id == x; }
        }
        forall x | x in Ids(items[1..]) ensures x in Ids(items) {
          var i :| 0 <= i < |items[1..]| && items[1..][i].id == x;
          assert items[i + 1].id == x;
        }
      }
      assert items[0].id !in Ids(items[1..]);
    }
  }

  /**
   * Start empty, add "Oud Noir" (id "1"), add it again, remove it: the list
   * holds one item after each add and none after the remove.
   */
  lemma OudNoirScenario()
    ensures var oud := Item("1", "Oud Noir", "Premium Brand", 210, "", Some(true));
      var s1 := Reduce(State([]), AddToWishlist(oud));
      var s2 := Reduce(s1, AddToWishlist(oud));
      var s3 := Reduce(s2, RemoveFromWishlist("1"));
      && |s1.items| == 1 && AnyHasId(s1.items, "1")
      && |s2.items| == 1
      && s3.items == []
      && Reduce(State([]), RemoveFromWishlist("nonexistent")) == State([])
  {
    var oud := Item("1", "Oud Noir", "Premium Brand", 210, "", Some(true));
    var s1 := Reduce(State([]), AddToWishlist(oud));
    assert s1.items == [oud];
    assert s1.items[0].id == "1";
    RemoveAt(s1, 0);
  }

  // ---------------------------------------------------------------------
  // The provider

  /**
   * `WishlistProvider`: holds the current items, applies every change by
   * dispatching to `Reduce`, and records the toast it shows in `notices`.
   */
  class WishlistStore {
    var items: seq<Item>
    ghost var notices: seq<Notice>

    ghost predicate Valid()
      reads this
    {
      IdsDistinct(items)
    }

    /** `useReducer(wishlistReducer, { items: [] })`. */
    constructor ()
      ensures Valid()
      ensures items == [] && notices == []
    {
      items := [];
      notices := [];
    }

    /** `isInWishlist`: some held item has this id. */
    function IsInWishlist(id: string): (r: bool)
      reads this
      ensures r <==> exists i :: 0 <= i < |items| && items[i].id == id
    {
      AnyHasId(items, id)
    }

    /**
     * `wishlistCount`: the number of items held, which under the store's
     * invariant is the number of different products saved.
     */
    function WishlistCount(): (n: nat)
      reads this
      requires Valid()
      ensures n == |items| && n == |Ids(items)|
    {
      CountIsNumberOfIds(items);
      |items|
    }

    /**
     * `addToWishlist`: dispatches ADD, and announces it, only when the id is
     * absent. The guard agrees with the reducer's own check, so the new list
     * is what the reducer gives for the same item in every case.
     */
    method AddToWishlist(item: Item)
      requires Valid()
      modifies this
      ensures Valid()
      ensures items == Reduce(State(old(items)), Action.AddToWishlist(item)).items
      ensures notices == if old(IsInWishlist(item.id)) then old(notices)
                         else old(notices) + [Added(item.name)]
    {
      var present := IsInWishlist(item.id);
      if !present {
        ReducePreservesDistinct(State(items), Action.AddToWishlist(item));
        items := Reduce(State(items), Action.AddToWishlist(item)).items;
        notices := notices + [Added(item.name)];
      }
    }

    /** `removeFromWishlist`: dispatches REMOVE and announces it, present or not. */
    method RemoveFromWishlist(id: string)
      requires Valid()
      modifies this
      ensures Valid()
      ensures items == Reduce(State(old(items)), Action.RemoveFromWishlist(id)).items
      ensures !IsInWishlist(id)
      ensures notices == old(notices) + [Removed]
    {
      ReducePreservesDistinct(State(items), Action.RemoveFromWishlist(id));
      RemoveFilters(State(items), id);
      items := Reduce(State(items), Action.RemoveFromWishlist(id)).items;
      notices := notices + [Removed];
    }

    /** `clearWishlist`: dispatches CLEAR and announces it. */
    method ClearWishlist()
      requires Valid()
      modifies this
      ensures Valid()
      ensures items == [] && WishlistCount() == 0
      ensures forall id :: !IsInWishlist(id)
      ensures notices == old(notices) + [Cleared]
    {
      items := Reduce(State(items), Action.ClearWishlist).items;
      notices := notices + [Cleared];
    }
  }
}
