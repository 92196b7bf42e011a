/**
 * The cart page: the cart map flattened into display lines, the lines shown
 * (those whose product is in the catalog), and the two controls on a line —
 * the quantity input and the bin icon — both of which call `updateQuantity`.
 */
module CartPage {
  import opened Wrappers
  import opened Seqs
  import opened Sums
  import opened Text
  import opened Catalog
  import opened ShopCart

  datatype LineItem = LineItem(id: string, size: string, quantity: int)

  /** The sum of the lines' quantities. */
  function SumLines(lines: seq<LineItem>): int {
    if lines == [] then 0 else SumLines(lines[..|lines| - 1]) + lines[|lines| - 1].quantity
  }

  /** A line for every stored quantity above zero, and only those. */
  function PositiveTerm(size: string, quantity: int): int {
    if quantity > 0 then quantity else 0
  }

  ghost function PositiveSizesTerm(id: string, sizes: Sizes): int {
    SumBy(sizes, PositiveTerm)
  }

  /** The units the flattened lines account for: every positive quantity. */
  ghost function PositiveCount(cart: Cart): int {
    SumBy(cart, PositiveSizesTerm)
  }

  /** In a well-formed cart every quantity is positive, so the lines account for every unit. */
  lemma PositiveCountOfWellFormed(cart: Cart)
    requires WellFormed(cart)
    ensures PositiveCount(cart) == CartCount(cart)
  {
    forall id | id in cart
      ensures PositiveSizesTerm(id, cart[id]) == CountTerm(id, cart[id])
    {
      SumByCongruent(cart[id], PositiveTerm, QtyTerm);
    }
    SumByCongruent(cart, PositiveSizesTerm, CountTerm);
  }

  /** The line is the stored entry it claims to be, with a positive quantity. */
  ghost predicate LineOf(cart: Cart, line: LineItem) {
    line.id in cart && line.size in cart[line.id] && line.quantity == cart[line.id][line.size] && line.quantity > 0
  }

  /** No (id, size) pair has two lines. */
  ghost predicate OneLinePerEntry(lines: seq<LineItem>) {
    forall i, j :: 0 <= i < j < |lines| ==> lines[i].id != lines[j].id || lines[i].size != lines[j].size
  }

  /**
   * The effect that builds the cart page's lines: one line
   * `{id, size, quantity}` for every entry whose quantity is above zero.
   */
  method FlattenCart(cart: Cart) returns (lines: seq<LineItem>)
    ensures forall i :: 0 <= i < |lines| ==> LineOf(cart, lines[i])
    ensures forall id, size :: id in cart && size in cart[id] && cart[id][size] > 0 ==> LineItem(id, size, cart[id][size]) in lines
    ensures OneLinePerEntry(lines)
    ensures SumLines(lines) == PositiveCount(cart)
    ensures WellFormed(cart) ==> SumLines(lines) == CartCount(cart)
  {
    lines := [];
    var rest := cart;
    while rest != map[]
      invariant forall id :: id in rest ==> id in cart && rest[id] == cart[id]
      invariant forall i :: 0 <= i < |lines| ==> LineOf(cart, lines[i]) && lines[i].id !in rest
      invariant forall id, size :: id in cart && id !in rest && size in cart[id] && cart[id][size] > 0 ==> LineItem(id, size, cart[id][size]) in lines
      invariant OneLinePerEntry(lines)
      invariant SumLines(lines) + PositiveCount(rest) == PositiveCount(cart)
      decreases |rest|
    {
      var id :| id in rest;
      SumByRemove(rest, PositiveSizesTerm, id);
      RemoveSize(rest, id);
      lines := FlattenSizes(cart, id, rest - {id}, lines);
      rest := rest - {id};
    }
    if WellFormed(cart) {
      PositiveCountOfWellFormed(cart);
    }
  }

  /**
   * What the inner loop keeps while `sizes` of product `id` remain to visit:
   * every line is a stored entry of an already visited product or size, every
   * visited positive entry has its line, and no entry has two.
   */
  ghost predicate SizesVisited(cart: Cart, id: string, rest: Cart, sizes: Sizes, out: seq<LineItem>) {
    && id in cart
    && (forall i :: 0 <= i < |out| ==> LineOf(cart, out[i]) && out[i].id !in rest && (out[i].id == id ==> out[i].size !in sizes))
    && (forall other, size :: other in cart && other !in rest && other != id && size in cart[other] && cart[other][size] > 0 ==> LineItem(other, size, cart[other][size]) in out)
    && (forall size :: size in cart[id] && size !in sizes && cart[id][size] > 0 ==> LineItem(id, size, cart[id][size]) in out)
    && OneLinePerEntry(out)
  }

  /** The line emitted for one size of product `id`: none when its quantity is not positive. */
  function SizeLines(id: string, size: string, quantity: int): seq<LineItem> {
    if quantity > 0 then [LineItem(id, size, quantity)] else []
  }

  /** Visiting one more size keeps the inner loop's invariant and adds its positive quantity. */
  lemma VisitSize(cart: Cart, id: string, rest: Cart, sizes: Sizes, out: seq<LineItem>, size: string)
    requires SizesVisited(cart, id, rest, sizes, out)
    requires id !in rest && size in sizes
    requires forall s :: s in sizes ==> s in cart[id] && sizes[s] == cart[id][s]
    ensures SizesVisited(cart, id, rest, sizes - {size}, out + SizeLines(id, size, sizes[size]))
    ensures SumLines(out + SizeLines(id, size, sizes[size])) == SumLines(out) + PositiveTerm(size, sizes[size])
  {
    if sizes[size] > 0 {
      var line := LineItem(id, size, sizes[size]);
      AppendLine(out, line);
      assert line in out + [line];
    } else {
      assert out + SizeLines(id, size, sizes[size]) == out;
    }
  }

  /** The inner loop of the flattening: the lines of product `id`, appended to `lines`. */
  method FlattenSizes(cart: Cart, id: string, rest: Cart, lines: seq<LineItem>) returns (out: seq<LineItem>)
    requires id in cart && id !in rest
    requires forall other :: other in rest ==> other in cart && rest[other] == cart[other]
    requires forall i :: 0 <= i < |lines| ==> LineOf(cart, lines[i]) && lines[i].id !in rest && lines[i].id != id
    requires forall other, size :: other in cart && other !in rest && other != id && size in cart[other] && cart[other][size] > 0 ==> LineItem(other, size, cart[other][size]) in lines
    requires OneLinePerEntry(lines)
    ensures forall i :: 0 <= i < |out| ==> LineOf(cart, out[i]) && out[i].id !in rest
    ensures forall other, size :: other in cart && other !in rest && size in cart[other] && cart[other][size] > 0 ==> LineItem(other, size, cart[other][size]) in out
    ensures OneLinePerEntry(out)
    ensures SumLines(out) == SumLines(lines) + SumBy(cart[id], PositiveTerm)
  {
    out := lines;
    var sizes := cart[id];
    while sizes != map[]
      invariant forall size :: size in sizes ==> size in cart[id] && sizes[size] == cart[id][size]
      invariant SizesVisited(cart, id, rest, sizes, out)
      invariant SumLines(out) + SumBy(sizes, PositiveTerm) == SumLines(lines) + SumBy(cart[id], PositiveTerm)
      decreases |sizes|
    {
      var size :| size in sizes;
      SumByRemove(sizes, PositiveTerm, size);
      RemoveSize(sizes, size);
      VisitSize(cart, id, rest, sizes, out, size);
      out := out + SizeLines(id, size, sizes[size]);
      sizes := sizes - {size};
    }
  }

  /** Appending a line for a new (id, size) pair keeps one line per entry and adds its quantity. */
  lemma AppendLine(lines: seq<LineItem>, line: LineItem)
    requires OneLinePerEntry(lines)
    requires forall i :: 0 <= i < |lines| ==> lines[i].id != line.id || lines[i].size != line.size
    ensures OneLinePerEntry(lines + [line])
    ensures SumLines(lines + [line]) == SumLines(lines) + line.quantity
    ensures forall i :: 0 <= i < |lines| ==> (lines + [line])[i] == lines[i]
  {
    assert (lines + [line])[..|lines|] == lines;
  }

  // ---------------------------------------------------------------------------
  // Which lines are shown

  function HasProduct(catalog: seq<Product>): LineItem -> bool {
    (line: LineItem) => FindById(catalog, ParseNumber(line.id)).Some?
  }

  /** The lines rendered: a line whose id matches no catalog product is skipped. */
  function VisibleLines(lines: seq<LineItem>, catalog: seq<Product>): (shown: seq<LineItem>)
    ensures forall i :: 0 <= i < |shown| ==> shown[i] in lines && FindById(catalog, ParseNumber(shown[i].id)).Some?
    ensures forall i :: 0 <= i < |lines| && FindById(catalog, ParseNumber(lines[i].id)).Some? ==> lines[i] in shown
  {
    Filter(lines, HasProduct(catalog))
  }

  // ---------------------------------------------------------------------------
  // The controls on a line

  /** What a change of the quantity input leads to. */
  datatype QuantityInput =
    | Ignored                    // the value is "" or "0"
    | SetQuantity(quantity: int) // `updateQuantity(id, size, Number(value))`
    | NonInteger                 // `Number(value)` is not an integer: not modelled further

  function OnQuantityInput(value: string): (e: QuantityInput)
    ensures e.Ignored? <==> value == "" || value == "0"
    ensures e.SetQuantity? ==> ParseNumber(value) == Some(e.quantity)
    ensures e.NonInteger? ==> ParseNumber(value).None?
  {
    if value == "" || value == "0" then Ignored
    else
      match ParseNumber(value)
      case Some(quantity) => SetQuantity(quantity)
      case None => NonInteger
  }

  /** The cart after a quantity-input change on `line`. */
  function ApplyQuantityInput(cart: Cart, line: LineItem, value: string): (r: Cart)
    ensures value == "" || value == "0" ==> r == cart
    ensures OnQuantityInput(value).SetQuantity? ==> r == UpdateQuantity(cart, line.id, line.size, OnQuantityInput(value).quantity)
    ensures OnQuantityInput(value).NonInteger? ==> r == cart
    ensures WellFormed(cart) ==> WellFormed(r)
  {
    match OnQuantityInput(value)
    case SetQuantity(quantity) =>
      UpdatePreservesWellFormed(cart, line.id, line.size, quantity);
      UpdateQuantity(cart, line.id, line.size, quantity)
    case _ => cart
  }

  /** The bin icon: `updateQuantity(id, size, 0)`. */
  function BinClick(cart: Cart, line: LineItem): (r: Cart)
    ensures r == RemoveFromCart(cart, line.id, line.size)
    ensures Removable(cart, line.id, line.size) ==> Qty(r, line.id, line.size) == cart[line.id][line.size] - 1
    ensures WellFormed(cart) ==> WellFormed(r)
  {
    UpdatePreservesWellFormed(cart, line.id, line.size, 0);
    UpdateQuantity(cart, line.id, line.size, 0)
  }

  /** A bin click takes away one unit of the line, not the whole line. */
  lemma BinClickRemovesOneUnit(cart: Cart, line: LineItem)
    requires LineOf(cart, line)
    ensures CartCount(BinClick(cart, line)) == CartCount(cart) - 1
  {
    RemoveFromCartCount(cart, line.id, line.size);
  }

  /** On a line of two units the bin leaves a line of one unit. */
  lemma BinClickOnTwoUnits()
    ensures BinClick(map["7" := map["M" := 2]], LineItem("7", "M", 2)) == map["7" := map["M" := 1]]
  {
    ScenarioRemoveTwice();
    assert RemoveFromCart(map["7" := map["M" := 2]], "7", "M") == map["7" := map["M" := 1]] by {
      assert Decrement(map["M" := 2], "M") == map["M" := 1];
    }
  }

  /** Typing "00" is not caught by the "0" guard: `Number("00")` is 0, which removes one unit. */
  lemma DoubleZeroRemovesOneUnit(cart: Cart, line: LineItem)
    ensures ApplyQuantityInput(cart, line, "00") == RemoveFromCart(cart, line.id, line.size)
  {
    assert AllDigits("00");
    assert DigitsValue("00") == 0 by {
      assert "00"[..1] == "0";
      assert "0"[..0] == "";
    }
  }
}
