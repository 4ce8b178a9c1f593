/** The shopping cart page of the public menu (static/menu/cart.js): the cart kept
    in the browser's storage, its totals in integer cents, the quantity buttons and
    field, the remove button, and the WhatsApp link. Items are the JSON objects the
    menu page stores; a number that is missing or null is None. */
module Cart {
  import opened Wrappers

  /** One cart entry as stored: `id`, `name`, `price_cents`, `image_url`, `sku`, `qty`. */
  datatype Item = Item(id: int, name: string, priceCents: Option<int>, imageUrl: string, sku: string, qty: Option<int>)

  /** What the storage holds under the cart key: nothing, text that is not JSON,
      JSON that is not an array, or an array of items. */
  datatype Stored = Missing | Malformed | NotArray | Array(items: seq<Item>)

  /** `getCart`: the stored array, or the empty cart for anything else. */
  function GetCart(v: Stored): (items: seq<Item>)
    ensures v.Array? ==> items == v.items
    ensures !v.Array? ==> items == []
  {
    if v.Array? then v.items else []
  }

  /** `setCart` writes the array as JSON. */
  function SetCart(items: seq<Item>): Stored {
    Array(items)
  }

  /** Reading back what `setCart` wrote gives the same cart. */
  lemma GetSetCart(items: seq<Item>)
    ensures GetCart(SetCart(items)) == items
  {
  }

  function Max(a: int, b: int): int {
    if a >= b then a else b
  }

  /** `x || d` on a stored number: a missing value or 0 reads as `d`. */
  function Or(x: Option<int>, d: int): int {
    if x.None? || x.value == 0 then d else x.value
  }

  // -------------------------------------------------------------------- totals

  /** One term of the sum in `computeTotals`: price times quantity, each read as 0
      when missing. */
  function LineCents(it: Item): int {
    Or(it.priceCents, 0) * Or(it.qty, 0)
  }

  /** The reference sum of `computeTotals`, element by element from the left. */
  function Subtotal(items: seq<Item>): int {
    if items == [] then 0 else Subtotal(items[..|items| - 1]) + LineCents(items[|items| - 1])
  }

  datatype Totals = Totals(subtotalCents: int, totalCents: int)

  /** `computeTotals`: the `reduce` over the items; the total is the subtotal, as
      there is no shipping fee. */
  method ComputeTotals(items: seq<Item>) returns (t: Totals)
    ensures t.subtotalCents == Subtotal(items)
    ensures t.totalCents == t.subtotalCents
  {
    var acc := 0;
    var i := 0;
    while i < |items|
      invariant 0 <= i <= |items|
      invariant acc == Subtotal(items[..i])
    {
      assert items[..i + 1][..i] == items[..i];
      acc := acc + LineCents(items[i]);
      i := i + 1;
    }
    assert items[..i] == items;
    return Totals(acc, acc);
  }

  /** The subtotal of two carts side by side is the sum of their subtotals. */
  lemma {:induction false} SubtotalAppend(a: seq<Item>, b: seq<Item>)
    ensures Subtotal(a + b) == Subtotal(a) + Subtotal(b)
    decreases |b|
  {
    if b == [] {
      assert a + b == a;
    } else {
      assert (a + b)[..|a + b| - 1] == a + b[..|b| - 1];
      assert (a + b)[|a + b| - 1] == b[|b| - 1];
      SubtotalAppend(a, b[..|b| - 1]);
    }
  }

  /** A cart with no negative price or quantity has no negative subtotal. */
  lemma {:induction false} SubtotalNonNegative(items: seq<Item>)
    requires forall i :: 0 <= i < |items| ==> Or(items[i].priceCents, 0) >= 0 && Or(items[i].qty, 0) >= 0
    ensures Subtotal(items) >= 0
  {
    if items != [] {
      SubtotalNonNegative(items[..|items| - 1]);
    }
  }

  /** Changing one entry changes the subtotal by the difference of its line amounts. */
  lemma {:induction false} SubtotalUpdate(items: seq<Item>, i: int, it: Item)
    requires 0 <= i < |items|
    ensures Subtotal(items[i := it]) == Subtotal(items) - LineCents(items[i]) + LineCents(it)
  {
    var r := items[i := it];
    assert items == items[..i] + [items[i]] + items[i + 1..];
    assert r == items[..i] + [it] + items[i + 1..];
    SubtotalAppend(items[..i] + [items[i]], items[i + 1..]);
    SubtotalAppend(items[..i], [items[i]]);
    SubtotalAppend(items[..i] + [it], items[i + 1..]);
    SubtotalAppend(items[..i], [it]);
    assert Subtotal([items[i]]) == LineCents(items[i]) by { assert [items[i]][..0] == []; }
    assert Subtotal([it]) == LineCents(it) by { assert [it][..0] == []; }
  }

  /** The amount shown on an item's row: price times quantity, the price read as 0
      and the quantity as 1 when missing. */
  function RowCents(it: Item): int {
    Or(it.priceCents, 0) * Or(it.qty, 1)
  }

  /** The row and the totals disagree only on a missing (or zero) quantity, where
      the row shows one unit and the totals count none. */
  lemma RowVersusLine(it: Item)
    ensures RowCents(it) == LineCents(it) <==> (Or(it.qty, 0) != 0 || Or(it.priceCents, 0) == 0)
    ensures Or(it.qty, 0) == 0 ==> RowCents(it) == Or(it.priceCents, 0) && LineCents(it) == 0
  {
  }

  // --------------------------------------------------------------- qty buttons

  /** The quantity after a press of "+" (`inc`) or "−": one more or one less than the
      quantity read as 1 when missing, and never below 1. */
  function Pressed(qty: Option<int>, inc: bool): (q: int)
    ensures q >= 1
    ensures inc && Or(qty, 1) >= 0 ==> q == Or(qty, 1) + 1
    ensures !inc && Or(qty, 1) >= 2 ==> q == Or(qty, 1) - 1
    ensures !inc && Or(qty, 1) <= 2 ==> q == 1
  {
    Max(1, Or(qty, 1) + (if inc then 1 else -1))
  }

  /** The click handler for "+" and "−" on the row with index `i`: only an index that
      names an item changes anything, and only that item's quantity. */
  function Bump(items: seq<Item>, i: int, inc: bool): (r: seq<Item>)
    ensures |r| == |items|
    ensures forall j :: 0 <= j < |items| && j != i ==> r[j] == items[j]
    ensures 0 <= i < |items| ==> r[i] == items[i].(qty := Some(Pressed(items[i].qty, inc)))
    ensures !(0 <= i < |items|) ==> r == items
  {
    if 0 <= i < |items| then items[i := items[i].(qty := Some(Pressed(items[i].qty, inc)))] else items
  }

  /** "+" then "−" on an item with a positive quantity restores the cart. */
  lemma IncThenDec(items: seq<Item>, i: int)
    requires 0 <= i < |items| && items[i].qty.Some? && items[i].qty.value >= 1
    ensures Bump(Bump(items, i, true), i, false) == items
  {
    assert Bump(Bump(items, i, true), i, false)[i] == items[i];
  }

  /** "−" on a quantity of 1 leaves it at 1. */
  lemma DecAtOneStays(items: seq<Item>, i: int)
    requires 0 <= i < |items| && items[i].qty == Some(1)
    ensures Bump(items, i, false) == items
  {
    assert Bump(items, i, false)[i] == items[i];
  }

  /** "+" on an item with a positive quantity adds its price to the subtotal. */
  lemma IncAddsPrice(items: seq<Item>, i: int)
    requires 0 <= i < |items| && items[i].qty.Some? && items[i].qty.value >= 1
    ensures Subtotal(Bump(items, i, true)) == Subtotal(items) + Or(items[i].priceCents, 0)
  {
    var it := items[i];
    var q := it.qty.value;
    var p := Or(it.priceCents, 0);
    var it' := it.(qty := Some(q + 1));
    assert Bump(items, i, true) == items[i := it'] by {
      assert Pressed(it.qty, true) == q + 1;
    }
    assert LineCents(it') == LineCents(it) + p by {
      assert Or(it'.qty, 0) == q + 1 && Or(it.qty, 0) == q;
      assert p * (q + 1) == p * q + p;
    }
    SubtotalUpdate(items, i, it');
  }

  // ------------------------------------------------------------------- remove

  /** The start position `splice(i, 1)` uses: a negative index counts from the end. */
  function SpliceStart(n: int, i: int): (k: int)
    requires n >= 0
    ensures 0 <= k
    ensures i >= 0 ==> k == i
    ensures i < 0 && n + i >= 0 ==> k == n + i
    ensures n + i < 0 ==> k == 0
  {
    if i < 0 then Max(n + i, 0) else i
  }

  /** The click handler of "Remover": `items.splice(i, 1)`. */
  function Remove(items: seq<Item>, i: int): (r: seq<Item>)
    ensures SpliceStart(|items|, i) < |items| ==> |r| == |items| - 1
    ensures SpliceStart(|items|, i) >= |items| ==> r == items
  {
    var k := SpliceStart(|items|, i);
    if k < |items| then items[..k] + items[k + 1..] else items
  }

  /** Removing a listed index deletes exactly that item: the ones before it keep their
      places, the ones after it move up by one, and nothing else is lost. */
  lemma RemoveExactly(items: seq<Item>, i: int)
    requires 0 <= i < |items|
    ensures var r := Remove(items, i);
            && |r| == |items| - 1
            && (forall j :: 0 <= j < i ==> r[j] == items[j])
            && (forall j :: i <= j < |r| ==> r[j] == items[j + 1])
            && multiset(r) + multiset{items[i]} == multiset(items)
  {
    assert items == items[..i] + [items[i]] + items[i + 1..];
  }

  /** An index of -1 removes the last item. */
  lemma RemoveMinusOne(items: seq<Item>)
    requires items != []
    ensures Remove(items, -1) == items[..|items| - 1]
  {
  }

  /** Removing an item takes its line out of the subtotal. */
  lemma RemoveSubtotal(items: seq<Item>, i: int)
    requires 0 <= i < |items|
    ensures Subtotal(Remove(items, i)) == Subtotal(items) - LineCents(items[i])
  {
    var pre, x, post := items[..i], items[i], items[i + 1..];
    assert items == (pre + [x]) + post;
    assert Remove(items, i) == pre + post;
    SubtotalAppend(pre + [x], post);
    SubtotalAppend(pre, [x]);
    SubtotalAppend(pre, post);
    assert Subtotal([x]) == LineCents(x) by { assert [x][..0] == []; }
  }

  // ------------------------------------------------------------ typed quantity

  /** JavaScript's StrWhiteSpaceChar: TAB, LF, VT, FF, CR, space, NBSP, the line and
      paragraph separators, the BOM and the Unicode space separators. */
  predicate JsSpace(c: char) {
    || ('\t' <= c <= '\r') || c == ' ' || c == '\U{A0}' || c == '\U{1680}'
    || ('\U{2000}' <= c <= '\U{200A}') || c == '\U{2028}' || c == '\U{2029}'
    || c == '\U{202F}' || c == '\U{205F}' || c == '\U{3000}' || c == '\U{FEFF}'
  }

  predicate IsDigit(c: char) {
    '0' <= c <= '9'
  }

  /** `s` without its leading JavaScript whitespace. */
  function SkipSpace(s: string): (r: string)
    ensures |r| <= |s|
    ensures r == [] || !JsSpace(r[0])
  {
    if s != [] && JsSpace(s[0]) then SkipSpace(s[1..]) else s
  }

  /** The longest prefix of decimal digits. */
  function LeadingDigits(s: string): (r: string)
    ensures |r| <= |s| && r == s[..|r|]
    ensures forall i :: 0 <= i < |r| ==> IsDigit(r[i])
    ensures |r| < |s| ==> !IsDigit(s[|r|])
  {
    if s != [] && IsDigit(s[0]) then [s[0]] + LeadingDigits(s[1..]) else []
  }

  /** The value of a string of decimal digits. */
  function DigitsValue(ds: string): (n: nat)
    requires forall i :: 0 <= i < |ds| ==> IsDigit(ds[i])
  {
    if ds == [] then 0
    else
      var last := ds[|ds| - 1];
      assert IsDigit(last);
      DigitsValue(ds[..|ds| - 1]) * 10 + (last as int - '0' as int)
  }

  /** `parseInt(s, 10)`: leading whitespace, an optional sign, then as many decimal
      digits as there are; no digit at all is NaN, the None result. */
  function ParseInt(s: string): (r: Option<int>)
    ensures r.None? <==> LeadingDigits(SignFree(SkipSpace(s))) == []
  {
    var t := SkipSpace(s);
    var ds := LeadingDigits(SignFree(t));
    if ds == [] then None
    else
      var n: int := DigitsValue(ds);
      if t[0] == '-' then Some(-n) else Some(n)
  }

  /** The text after an optional leading sign. */
  function SignFree(t: string): string {
    if t != [] && (t[0] == '-' || t[0] == '+') then t[1..] else t
  }

  /** The decimal rendering of a natural number, the reference for `parseInt`. */
  function Decimal(n: nat): (s: string)
    ensures s != [] && forall i :: 0 <= i < |s| ==> IsDigit(s[i])
  {
    if n < 10 then [('0' as int + n) as char] else Decimal(n / 10) + [('0' as int + n % 10) as char]
  }

  lemma {:induction false} DecimalValue(n: nat)
    ensures DigitsValue(Decimal(n)) == n
  {
    if n >= 10 {
      DecimalValue(n / 10);
      var s := Decimal(n);
      assert s[..|s| - 1] == Decimal(n / 10);
    } else {
      assert Decimal(n)[..0] == [];
    }
  }

  lemma {:induction false} AllDigitsLead(s: string)
    requires forall i :: 0 <= i < |s| ==> IsDigit(s[i])
    ensures LeadingDigits(s) == s
  {
    if s != [] {
      AllDigitsLead(s[1..]);
    }
  }

  /** `parseInt` reads back the decimal rendering of every natural number. */
  lemma ParseIntDecimal(n: nat)
    ensures ParseInt(Decimal(n)) == Some(n)
  {
    var s := Decimal(n);
    assert SkipSpace(s) == s;
    assert SignFree(s) == s;
    AllDigitsLead(s);
    DecimalValue(n);
  }

  /** The quantity stored after typing `value`: `Math.max(1, parseInt(value || "1"))`.
      NaN survives `Math.max` and is written to JSON as null, the None result. */
  function Typed(value: string): (q: Option<int>)
    ensures q.Some? ==> q.value >= 1
  {
    match ParseInt(if value == "" then "1" else value)
    case None => None
    case Some(n) => Some(Max(1, n))
  }

  /** An empty field counts as "1". */
  lemma TypedEmpty()
    ensures Typed("") == Some(1)
  {
    ParseIntDecimal(1);
    assert Decimal(1) == "1";
  }

  /** Typing the decimal rendering of a positive number stores that number. */
  lemma TypedNumber(n: nat)
    requires n >= 1
    ensures Typed(Decimal(n)) == Some(n)
  {
    ParseIntDecimal(n);
  }

  /** Typing text with no digit after the optional sign stores null, which the
      totals then read as no units. */
  lemma TypedGarbage(items: seq<Item>, i: int, value: string)
    requires value != "" && LeadingDigits(SignFree(SkipSpace(value))) == []
    requires 0 <= i < |items|
    ensures LineCents(OnQtyInput(items, i, value)[i]) == 0
  {
  }

  /** The input handler of the quantity field on the row with index `i`. */
  function OnQtyInput(items: seq<Item>, i: int, value: string): (r: seq<Item>)
    ensures |r| == |items|
    ensures forall j :: 0 <= j < |items| && j != i ==> r[j] == items[j]
    ensures 0 <= i < |items| ==> r[i] == items[i].(qty := Typed(value))
    ensures !(0 <= i < |items|) ==> r == items
  {
    if 0 <= i < |items| then items[i := items[i].(qty := Typed(value))] else items
  }

  // ------------------------------------------------------------ WhatsApp link

  /** The send button: its `href` and whether it is enabled. */
  datatype Link = Link(href: string, enabled: bool)

  /** `replace(/\D/g, "")`: the decimal digits of `s`, in order. */
  function DigitsOnly(s: string): (r: string)
    ensures |r| <= |s|
    ensures forall i :: 0 <= i < |r| ==> IsDigit(r[i])
  {
    if s == [] then [] else (if IsDigit(s[0]) then [s[0]] else []) + DigitsOnly(s[1..])
  }

  /** A string of digits only is kept whole. */
  lemma {:induction false} DigitsOnlyKeeps(s: string)
    requires forall i :: 0 <= i < |s| ==> IsDigit(s[i])
    ensures DigitsOnly(s) == s
  {
    if s != [] {
      DigitsOnlyKeeps(s[1..]);
    }
  }

  /** Filtering twice is filtering once. */
  lemma DigitsOnlyIdempotent(s: string)
    ensures DigitsOnly(DigitsOnly(s)) == DigitsOnly(s)
  {
    DigitsOnlyKeeps(DigitsOnly(s));
  }

  /** `updateWhatsAppLink`: a disabled "#" for an empty cart; otherwise a wa.me link
      to the stored phone's digits (or to no number when it has none) carrying the
      encoded order text. */
  function SendLink(items: seq<Item>, storedPhone: Option<string>, text: string): (l: Link)
    ensures l.enabled <==> items != []
    ensures l.href == "#" <==> items == []
    ensures items != [] && DigitsOnly(storedPhone.GetOr("")) != "" ==>
              l.href == "https://wa.me/" + DigitsOnly(storedPhone.GetOr("")) + "?text=" + text
    ensures items != [] && DigitsOnly(storedPhone.GetOr("")) == "" ==> l.href == "https://wa.me/?text=" + text
  {
    var phone := DigitsOnly(storedPhone.GetOr(""));
    if items == [] then Link("#", false)
    else if phone != "" then Link("https://wa.me/" + phone + "?text=" + text, true)
    else Link("https://wa.me/?text=" + text, true)
  }
}
