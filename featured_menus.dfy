/**
 * The featured-menus admin page: the featured list shown in order, drag-and-drop
 * reordering with the updates it sends, and the update sent when a menu is
 * featured or unfeatured. The updates are recorded in the order they are sent;
 * the requests themselves and their replies are not modelled.
 */
module FeaturedMenus {
  import opened Outcomes
  import opened Seqs
  import opened Sorting

  /** The product fields the page reads. */
  datatype Product = Product(id: int, featured: bool, featuredOrder: Option<int>)

  /** One `PATCH /api/menus/:id/featured` request; an absent order is `undefined`. */
  datatype FeaturedUpdate = FeaturedUpdate(id: int, featured: bool, order: Option<int>)

  predicate IsFeatured(p: Product)
  {
    p.featured
  }

  /** `a.featuredOrder || 0`: a missing order counts as 0. */
  function OrderOf(p: Product): int
  {
    if p.featuredOrder.Some? then p.featuredOrder.value else 0
  }

  predicate ByOrder(a: Product, b: Product)
  {
    OrderOf(a) <= OrderOf(b)
  }

  lemma ByOrderIsTotalPreorder()
    ensures TotalPreorder(ByOrder)
  {
  }

  /** The featured menus, by ascending order; equal orders keep their loading order. */
  function FeaturedList(menus: seq<Product>): (r: seq<Product>)
    ensures forall p :: p in r <==> p in menus && p.featured
    ensures multiset(r) == multiset(Filter(menus, IsFeatured))
    ensures forall i, j :: 0 <= i < j < |r| ==> OrderOf(r[i]) <= OrderOf(r[j])
  {
    var featured := Filter(menus, IsFeatured);
    ByOrderIsTotalPreorder();
    SortBySorted(featured, ByOrder);
    var r := SortBy(featured, ByOrder);
    assert forall p :: p in featured <==> p in menus && p.featured;
    assert forall p :: p in r <==> p in multiset(featured);
    r
  }

  /**
   * Featured menus with the same order as `p` (tied under `ByOrder`) are shown in
   * the order they were loaded.
   */
  lemma FeaturedTiesKeepLoadOrder(menus: seq<Product>, p: Product)
    ensures TiedWith(FeaturedList(menus), p, ByOrder) == TiedWith(Filter(menus, IsFeatured), p, ByOrder)
  {
    ByOrderIsTotalPreorder();
    SortByStable(Filter(menus, IsFeatured), p, ByOrder);
  }

  /** `s` without its element at `i`. */
  function RemoveAt<T>(s: seq<T>, i: nat): (r: seq<T>)
    requires i < |s|
    ensures |r| == |s| - 1
    ensures multiset(r) + multiset{s[i]} == multiset(s)
  {
    assert s == s[..i] + [s[i]] + s[i + 1..];
    s[..i] + s[i + 1..]
  }

  /**
   * The two splices of `handleDragEnd`: the element at `from` taken out and put back
   * at `to`, or at the end when `to` is past it. Every other element keeps its
   * relative order.
   */
  function Move<T>(s: seq<T>, from: nat, to: nat): (r: seq<T>)
    requires from < |s|
    ensures |r| == |s| && multiset(r) == multiset(s)
    ensures var at := if to < |s| then to else |s| - 1;
      r[at] == s[from] && RemoveAt(r, at) == RemoveAt(s, from)
  {
    var rest := RemoveAt(s, from);
    var at := if to <= |rest| then to else |rest|;
    var r := rest[..at] + [s[from]] + rest[at..];
    assert rest == rest[..at] + rest[at..];
    assert r[..at] + r[at + 1..] == rest;
    r
  }

  /** The two splices written out are `Move`. */
  lemma SplicesMove<T>(s: seq<T>, from: nat, to: nat)
    requires from < |s|
    ensures var rest := s[..from] + s[from + 1..];
      var at := if to <= |rest| then to else |rest|;
      rest[..at] + [s[from]] + rest[at..] == Move(s, from, to)
  {
  }

  /** Moving the element at `at` to `from` inside the list puts it between the first `from` others and the rest. */
  lemma MoveWithin<T>(t: seq<T>, at: nat, from: nat)
    requires at < |t| && from < |t|
    ensures Move(t, at, from) == RemoveAt(t, at)[..from] + [t[at]] + RemoveAt(t, at)[from..]
  {
  }

  /** Putting the element at `from` back between the others restores the list. */
  lemma SpliceBack<T>(s: seq<T>, from: nat)
    requires from < |s|
    ensures RemoveAt(s, from)[..from] + [s[from]] + RemoveAt(s, from)[from..] == s
  {
    var rest := RemoveAt(s, from);
    assert rest[..from] == s[..from] && rest[from..] == s[from + 1..];
    assert s == s[..from] + [s[from]] + s[from + 1..];
  }

  /** Dropping the element back where it came from restores the list. */
  lemma MoveBack<T>(s: seq<T>, from: nat, to: nat)
    requires from < |s|
    ensures var at := if to < |s| then to else |s| - 1;
      Move(Move(s, from, to), at, from) == s
  {
    var at := if to < |s| then to else |s| - 1;
    var moved := Move(s, from, to);
    MoveWithin(moved, at, from);
    SpliceBack(s, from);
  }

  /** The updates sent after a reorder: every item featured, with its position as its order. */
  function Renumber(items: seq<Product>): (r: seq<FeaturedUpdate>)
    ensures |r| == |items|
    ensures forall i :: 0 <= i < |r| ==> r[i].id == items[i].id && r[i].featured && r[i].order == Some(i)
  {
    seq(|items|, i requires 0 <= i < |items| => FeaturedUpdate(items[i].id, true, Some(i)))
  }

  /** Renumbering one more item sends one more update at the end. */
  lemma RenumberExtends(items: seq<Product>, i: nat)
    requires i < |items|
    ensures Renumber(items[..i + 1]) == Renumber(items[..i]) + [FeaturedUpdate(items[i].id, true, Some(i))]
  {
    var a, b := Renumber(items[..i + 1]), Renumber(items[..i]) + [FeaturedUpdate(items[i].id, true, Some(i))];
    assert |a| == |b|;
    forall k | 0 <= k < |a|
      ensures a[k] == b[k]
    {
    }
  }

  /** The order the server stores for an update: an absent order is stored as 0. */
  function StoredOrder(u: FeaturedUpdate): int
  {
    if u.order.Some? then u.order.value else 0
  }

  /** The products once the server has stored the `featured` flag and order of each update. */
  function Applied(items: seq<Product>, updates: seq<FeaturedUpdate>): (r: seq<Product>)
    requires |updates| == |items|
    ensures |r| == |items|
    ensures forall i :: 0 <= i < |r| ==>
      r[i].id == items[i].id && r[i].featured == updates[i].featured && r[i].featuredOrder == Some(StoredOrder(updates[i]))
  {
    seq(|items|, i requires 0 <= i < |items| => items[i].(featured := updates[i].featured, featuredOrder := Some(StoredOrder(updates[i]))))
  }

  /**
   * Two lists holding the same menus, the first with strictly ascending orders and
   * the second with ascending ones, are the same list.
   */
  lemma {:induction false} SameMenusInOrder(a: seq<Product>, b: seq<Product>)
    requires multiset(a) == multiset(b)
    requires forall i, j :: 0 <= i < j < |a| ==> OrderOf(a[i]) < OrderOf(a[j])
    requires forall i, j :: 0 <= i < j < |b| ==> OrderOf(b[i]) <= OrderOf(b[j])
    ensures a == b
  {
    assert |a| == |multiset(a)| == |multiset(b)| == |b|;
    if a != [] {
      SameFirst(a, b);
      assert a == [a[0]] + a[1..] && b == [b[0]] + b[1..];
      assert multiset(a[1..]) == multiset(a) - multiset{a[0]} == multiset(b[1..]);
      SameMenusInOrder(a[1..], b[1..]);
    }
  }

  /** Under the conditions of `SameMenusInOrder`, both lists start with the same menu. */
  lemma SameFirst(a: seq<Product>, b: seq<Product>)
    requires a != [] && multiset(a) == multiset(b)
    requires forall i, j :: 0 <= i < j < |a| ==> OrderOf(a[i]) < OrderOf(a[j])
    requires forall i, j :: 0 <= i < j < |b| ==> OrderOf(b[i]) <= OrderOf(b[j])
    ensures b != [] && a[0] == b[0]
  {
    assert a[0] in multiset(b);
    var m :| 0 <= m < |b| && b[m] == a[0];
    assert b[0] in multiset(a);
    var k :| 0 <= k < |a| && a[k] == b[0];
    assert OrderOf(a[k]) <= OrderOf(a[0]);
    assert k == 0;
  }

  /**
   * Once the renumbering is stored, reloading the page shows the featured menus in
   * the order they were dragged into, whatever order the reload returns them in and
   * whatever unfeatured menus it also returns.
   */
  lemma ReorderSurvivesReload(items: seq<Product>, loaded: seq<Product>)
    requires multiset(Filter(loaded, IsFeatured)) == multiset(Applied(items, Renumber(items)))
    ensures FeaturedList(loaded) == Applied(items, Renumber(items))
  {
    var stored := Applied(items, Renumber(items));
    StoredOrders(items);
    SameMenusInOrder(stored, FeaturedList(loaded));
  }

  /** `handleFeaturedChange`: featuring takes the next order, unfeaturing sends none. */
  function FeaturedChange(product: Product, featured: bool, featuredCount: nat): (r: FeaturedUpdate)
    ensures r.id == product.id && r.featured == featured
    ensures r.order.Some? <==> featured
    ensures featured ==> r.order.value == featuredCount
  {
    FeaturedUpdate(product.id, featured, if featured then Some(featuredCount) else None)
  }

  /** A menu featured after a reorder is stored behind the others and so shows last. */
  lemma NewlyFeaturedShowsLast(items: seq<Product>, product: Product)
    ensures var stored := Applied(items, Renumber(items));
      var u := FeaturedChange(product, true, |stored|);
      var added := product.(featured := u.featured, featuredOrder := Some(StoredOrder(u)));
      FeaturedList(stored + [added]) == stored + [added]
  {
    var stored := Applied(items, Renumber(items));
    var u := FeaturedChange(product, true, |stored|);
    var added := product.(featured := u.featured, featuredOrder := Some(StoredOrder(u)));
    var all := stored + [added];
    StoredOrders(items);
    assert forall i :: 0 <= i < |all| ==> all[i].featured && OrderOf(all[i]) == i;
    FilterAll(all, IsFeatured);
    assert SortedBy(all, ByOrder);
    SortByIdentity(all, ByOrder);
  }

  /** The stored renumbering features every item, with its position as its order. */
  lemma StoredOrders(items: seq<Product>)
    ensures forall i :: 0 <= i < |items| ==>
      Applied(items, Renumber(items))[i].featured && OrderOf(Applied(items, Renumber(items))[i]) == i
  {
  }

  /** The page's featured list and the updates it has sent, oldest first. */
  class Page {
    var featuredMenus: seq<Product>
    var sent: seq<FeaturedUpdate>

    constructor()
      ensures featuredMenus == [] && sent == []
    {
      featuredMenus := [];
      sent := [];
    }

    /** The effect on loaded menus: show the featured ones in order. */
    method MenusLoaded(menus: Option<seq<Product>>)
      modifies this
      ensures featuredMenus == if menus.Some? then FeaturedList(menus.value) else old(featuredMenus)
      ensures sent == old(sent)
    {
      if menus.Some? {
        featuredMenus := FeaturedList(menus.value);
      }
    }

    /** `handleFeaturedChange`: one update, the list stays as it is until the reload. */
    method HandleFeaturedChange(product: Product, featured: bool)
      modifies this
      ensures sent == old(sent) + [FeaturedChange(product, featured, |featuredMenus|)]
      ensures featuredMenus == old(featuredMenus)
    {
      sent := sent + [FeaturedChange(product, featured, |featuredMenus|)];
    }

    /**
     * `handleDragEnd`: without a destination nothing happens; otherwise the dragged
     * menu moves to the destination and every menu is sent with its new position.
     * The drag library only reports a source inside the list.
     */
    method HandleDragEnd(source: nat, destination: Option<nat>)
      requires destination.Some? ==> source < |featuredMenus|
      modifies this
      ensures destination.None? ==> featuredMenus == old(featuredMenus) && sent == old(sent)
      ensures destination.Some? ==> featuredMenus == Move(old(featuredMenus), source, destination.value)
      ensures destination.Some? ==> sent == old(sent) + Renumber(featuredMenus)
    {
      if destination.None? {
        return;
      }
      var items := featuredMenus;
      var reordered := items[source];
      items := items[..source] + items[source + 1..];
      var at := if destination.value <= |items| then destination.value else |items|;
      items := items[..at] + [reordered] + items[at..];
      SplicesMove(featuredMenus, source, destination.value);
      featuredMenus := items;
      SendPositions(items);
    }

    /** The update loop of `handleDragEnd`: each item is sent featured, with its position as its order. */
    method SendPositions(items: seq<Product>)
      modifies this
      ensures sent == old(sent) + Renumber(items)
      ensures featuredMenus == old(featuredMenus)
    {
      var i := 0;
      while i < |items|
        invariant 0 <= i <= |items|
        invariant featuredMenus == old(featuredMenus)
        invariant sent == old(sent) + Renumber(items[..i])
      {
        sent := sent + [FeaturedUpdate(items[i].id, true, Some(i))];
        RenumberExtends(items, i);
        i := i + 1;
      }
      assert items[..i] == items;
    }
  }
}
