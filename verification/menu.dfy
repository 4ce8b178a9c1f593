/** The catalogue page of the public menu (static/menu/menu.js): adding a product
    to the cart kept in the browser's storage, the count on the floating cart
    button, and the per-tenant filter applied before the product cards are drawn.
    Reading the cart is `Cart.GetCart`, which this page shares with the cart page. */
module Menu {
  import opened Wrappers
  import opened Cart

  /** A product of `products.json` as the page reads it. */
  datatype Listed = Listed(id: int, name: string, priceCents: Option<int>, imageUrl: Option<string>,
                           sku: Option<string>, tenantSlug: Option<string>)

  // ---------------------------------------------------------------- cart count

  /** The count on the cart button: the sum of the quantities, a missing one read as 0. */
  function CartCount(items: seq<Item>): int {
    if items == [] then 0 else CartCount(items[..|items| - 1]) + Or(items[|items| - 1].qty, 0)
  }

  /** `updateCartCount`: the `reduce` over the items. */
  method UpdateCartCount(items: seq<Item>) returns (count: int)
    ensures count == CartCount(items)
  {
    count := 0;
    var i := 0;
    while i < |items|
      invariant 0 <= i <= |items|
      invariant count == CartCount(items[..i])
    {
      assert items[..i + 1][..i] == items[..i];
      count := count + Or(items[i].qty, 0);
      i := i + 1;
    }
    assert items[..i] == items;
  }

  lemma {:induction false} CartCountAppend(a: seq<Item>, b: seq<Item>)
    ensures CartCount(a + b) == CartCount(a) + CartCount(b)
    decreases |b|
  {
    if b == [] {
      assert a + b == a;
    } else {
      assert (a + b)[..|a + b| - 1] == a + b[..|b| - 1];
      assert (a + b)[|a + b| - 1] == b[|b| - 1];
      CartCountAppend(a, b[..|b| - 1]);
    }
  }

  lemma CartCountSingle(it: Item)
    ensures CartCount([it]) == Or(it.qty, 0)
  {
    assert [it][..0] == [];
  }

  // -------------------------------------------------------------- add to cart

  /** `findIndex`: the first entry with the product's id. */
  function FindIndex(items: seq<Item>, id: int): (k: Option<nat>)
    ensures k.Some? ==> k.value < |items| && items[k.value].id == id
                        && forall j :: 0 <= j < k.value ==> items[j].id != id
    ensures k.None? ==> forall j :: 0 <= j < |items| ==> items[j].id != id
  {
    if items == [] then None
    else if items[0].id == id then Some(0)
    else match FindIndex(items[1..], id)
      case None => None
      case Some(k) => Some(k + 1)
  }

  /** The entry `addToCart` appends for a product not yet in the cart: one unit, with
      an empty image and sku when the product has none. */
  function NewEntry(p: Listed): Item {
    Item(p.id, p.name, p.priceCents, p.imageUrl.GetOr(""), p.sku.GetOr(""), Some(1))
  }

  /** `addToCart`: one more unit of the entry with the same id, or a new entry at the end. */
  function AddToCart(items: seq<Item>, p: Listed): (r: seq<Item>)
    ensures |r| == |items| || |r| == |items| + 1
    ensures r[..|items|] == items || |r| == |items|
  {
    match FindIndex(items, p.id)
    case Some(k) => items[k := items[k].(qty := Some(Or(items[k].qty, 0) + 1))]
    case None => items + [NewEntry(p)]
  }

  /** A product already in the cart: the first entry with its id gains one unit and
      nothing else changes. */
  lemma AddExisting(items: seq<Item>, p: Listed, k: nat)
    requires k < |items| && items[k].id == p.id
    requires forall j :: 0 <= j < k ==> items[j].id != p.id
    ensures var r := AddToCart(items, p);
            && |r| == |items|
            && r[k] == items[k].(qty := Some(Or(items[k].qty, 0) + 1))
            && forall j :: 0 <= j < |items| && j != k ==> r[j] == items[j]
  {
  }

  /** A product not in the cart: one entry is appended, with quantity 1 and the
      product's id, name and price. */
  lemma AddNew(items: seq<Item>, p: Listed)
    requires forall j :: 0 <= j < |items| ==> items[j].id != p.id
    ensures var r := AddToCart(items, p);
            && r == items + [r[|items|]]
            && r[|items|].id == p.id && r[|items|].name == p.name && r[|items|].priceCents == p.priceCents
            && r[|items|].qty == Some(1)
            && r[|items|].imageUrl == p.imageUrl.GetOr("") && r[|items|].sku == p.sku.GetOr("")
  {
  }

  /** No two entries share an id. */
  predicate DistinctIds(items: seq<Item>) {
    forall i, j :: 0 <= i < j < |items| ==> items[i].id != items[j].id
  }

  /** Adding keeps the ids of the cart distinct. */
  lemma AddKeepsDistinct(items: seq<Item>, p: Listed)
    requires DistinctIds(items)
    ensures DistinctIds(AddToCart(items, p))
  {
    var r := AddToCart(items, p);
    match FindIndex(items, p.id)
    case Some(k) =>
      assert forall j :: 0 <= j < |r| ==> r[j].id == items[j].id;
    case None =>
      assert forall j :: 0 <= j < |items| ==> r[j] == items[j];
  }

  /** Every click of "+ Adicionar" raises the cart count by exactly one. */
  lemma AddCountsOne(items: seq<Item>, p: Listed)
    ensures CartCount(AddToCart(items, p)) == CartCount(items) + 1
  {
    match FindIndex(items, p.id)
    case Some(k) =>
      var it := items[k];
      var it' := it.(qty := Some(Or(it.qty, 0) + 1));
      assert items == items[..k] + [it] + items[k + 1..];
      assert AddToCart(items, p) == items[..k] + [it'] + items[k + 1..];
      CartCountAppend(items[..k] + [it], items[k + 1..]);
      CartCountAppend(items[..k], [it]);
      CartCountAppend(items[..k] + [it'], items[k + 1..]);
      CartCountAppend(items[..k], [it']);
      CartCountSingle(it);
      CartCountSingle(it');
    case None =>
      CartCountAppend(items, [NewEntry(p)]);
      CartCountSingle(NewEntry(p));
  }

  // ------------------------------------------------------------ tenant filter

  /** A card is drawn unless the product names another tenant: a missing or empty
      `tenant_slug` passes. */
  predicate Shown(p: Listed, tenant: string) {
    !(p.tenantSlug.Some? && p.tenantSlug.value != "" && p.tenantSlug.value != tenant)
  }

  /** The products `renderProducts` draws, in order. */
  function Visible(ps: seq<Listed>, tenant: string): (r: seq<Listed>)
    ensures |r| <= |ps|
    ensures forall i :: 0 <= i < |r| ==> Shown(r[i], tenant)
  {
    if ps == [] then [] else (if Shown(ps[0], tenant) then [ps[0]] else []) + Visible(ps[1..], tenant)
  }

  /** A product is drawn exactly when it is listed and does not name another tenant. */
  lemma {:induction false} VisibleMembers(ps: seq<Listed>, tenant: string, p: Listed)
    ensures p in Visible(ps, tenant) <==> p in ps && Shown(p, tenant)
  {
    if ps != [] {
      VisibleMembers(ps[1..], tenant, p);
      assert ps == [ps[0]] + ps[1..];
    }
  }

  /** Products that name the page's tenant are all drawn, in their listed order. */
  lemma {:induction false} VisibleKeepsOwn(ps: seq<Listed>, tenant: string)
    requires forall i :: 0 <= i < |ps| ==> ps[i].tenantSlug == Some(tenant)
    ensures Visible(ps, tenant) == ps
  {
    if ps != [] {
      VisibleKeepsOwn(ps[1..], tenant);
      assert ps == [ps[0]] + ps[1..];
    }
  }
}
