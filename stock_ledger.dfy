/**
 * The stock ledger of order creation (the first loop of `createOrder` in
 * src/app/modules/order/order.service.ts): line by line, the product must
 * exist, be active and hold at least the requested quantity, and its stock is
 * then decremented by that quantity. A later line for the same product sees the
 * stock already decremented by the earlier ones.
 *
 * `Reserve` is the reference definition the service's loop is proved against;
 * the lemmas say what it takes from the stock and when it succeeds.
 */
module StockLedger {
  import opened Wrappers
  import opened Domain
  import opened OrderModel

  /** The total quantity the lines request of one product. */
  function Demand(lines: seq<Line>, product: Id): int {
    if |lines| == 0 then 0
    else (if lines[0].product == product then lines[0].quantity else 0) + Demand(lines[1..], product)
  }

  /** The checks and the decrement for one line, against the stock as it stands. */
  function ReserveLine(products: map<Id, Product>, line: Line): Result<map<Id, Product>, Error> {
    if line.product !in products then Err(ProductNotFound)
    else
      var p := products[line.product];
      if !p.isActive then Err(ProductInactive)
      else if p.stock < line.quantity then Err(InsufficientStock)
      else Ok(products[line.product := p.(stock := p.stock - line.quantity)])
  }

  /** All the lines in order; the first line that fails decides the error. */
  function Reserve(products: map<Id, Product>, lines: seq<Line>): Result<map<Id, Product>, Error>
    decreases |lines|
  {
    if |lines| == 0 then Ok(products)
    else
      match ReserveLine(products, lines[0])
      case Err(e) => Err(e)
      case Ok(next) => Reserve(next, lines[1..])
  }

  /**
   * Whether a cart can be served from the stock: every line's product exists
   * and is active, and no product is asked for more than it holds in total.
   */
  predicate Orderable(products: map<Id, Product>, lines: seq<Line>) {
    && (forall i :: 0 <= i < |lines| ==> lines[i].product in products && products[lines[i].product].isActive)
    && (forall id :: id in products && Demand(lines, id) > 0 ==> Demand(lines, id) <= products[id].stock)
  }

  /** Reserving touches only stock: no product appears or disappears, and prices, offers, shops and flags stay. */
  lemma {:induction false} ReserveKeepsCatalogue(products: map<Id, Product>, lines: seq<Line>)
    requires Reserve(products, lines).Ok?
    ensures var after := Reserve(products, lines).value;
      && after.Keys == products.Keys
      && forall id :: id in products ==> after[id] == products[id].(stock := after[id].stock)
    decreases |lines|
  {
    if |lines| > 0 {
      var next := ReserveLine(products, lines[0]).value;
      ReserveKeepsCatalogue(next, lines[1..]);
    }
  }

  /** Each product's stock drops by exactly the total quantity the lines request of it. */
  lemma {:induction false} ReserveTakesDemand(products: map<Id, Product>, lines: seq<Line>)
    requires Reserve(products, lines).Ok?
    ensures var after := Reserve(products, lines).value;
      forall id :: id in products ==> id in after && after[id].stock == products[id].stock - Demand(lines, id)
    decreases |lines|
  {
    if |lines| > 0 {
      var next := ReserveLine(products, lines[0]).value;
      ReserveTakesDemand(next, lines[1..]);
      ReserveKeepsCatalogue(next, lines[1..]);
    }
  }

  /** Stock never goes negative: every decrement was checked against the stock it came from. */
  lemma {:induction false} ReserveKeepsStockNonNegative(products: map<Id, Product>, lines: seq<Line>)
    requires forall id :: id in products ==> products[id].stock >= 0
    requires Reserve(products, lines).Ok?
    ensures var after := Reserve(products, lines).value;
      forall id :: id in after ==> after[id].stock >= 0
    decreases |lines|
  {
    if |lines| > 0 {
      var next := ReserveLine(products, lines[0]).value;
      ReserveKeepsStockNonNegative(next, lines[1..]);
    }
  }

  /** A cart whose stock can be taken names only existing products. */
  lemma {:induction false} ReserveNeedsProducts(products: map<Id, Product>, lines: seq<Line>)
    requires Reserve(products, lines).Ok?
    ensures Catalogued(lines, products)
    decreases |lines|
  {
    if |lines| > 0 {
      var next := ReserveLine(products, lines[0]).value;
      ReserveNeedsProducts(next, lines[1..]);
      forall i | 0 < i < |lines| ensures lines[i].product in products {
        assert lines[i] == lines[1..][i - 1];
      }
    }
  }

  lemma {:induction false} DemandNonNegative(lines: seq<Line>, id: Id)
    requires forall i :: 0 <= i < |lines| ==> lines[i].quantity >= 1
    ensures Demand(lines, id) >= 0
  {
    if |lines| > 0 {
      DemandNonNegative(lines[1..], id);
    }
  }

  /**
   * When every quantity is at least 1, reserving succeeds exactly when the cart
   * is orderable: line by line checking is the same as checking each product's
   * total demand against its stock.
   */
  lemma {:induction false} ReserveSucceedsIff(products: map<Id, Product>, lines: seq<Line>)
    requires forall i :: 0 <= i < |lines| ==> lines[i].quantity >= 1
    ensures Reserve(products, lines).Ok? <==> Orderable(products, lines)
    decreases |lines|
  {
    if |lines| > 0 {
      var line, rest := lines[0], lines[1..];
      var p, q := line.product, line.quantity;
      assert forall i :: 0 <= i < |rest| ==> rest[i] == lines[i + 1];
      assert forall id :: Demand(lines, id) == (if id == p then q else 0) + Demand(rest, id);
      forall id ensures Demand(rest, id) >= 0 {
        DemandNonNegative(rest, id);
      }
      if p in products && products[p].isActive {
        var m := products;
        var m' := m[p := m[p].(stock := m[p].stock - q)];
        ReserveSucceedsIff(m', rest);
        if Orderable(m, lines) {
          assert Demand(lines, p) > 0;
          assert q <= m[p].stock;
          assert ReserveLine(m, line) == Ok(m');
          assert forall i :: 0 <= i < |rest| ==> rest[i].product in m' && m'[rest[i].product].isActive;
          assert Orderable(m', rest);
        }
        if Reserve(m, lines).Ok? {
          assert ReserveLine(m, line) == Ok(m');
          assert Orderable(m', rest);
          forall id | id in m && Demand(lines, id) > 0
            ensures Demand(lines, id) <= m[id].stock
          {
            if id != p {
              assert Demand(lines, id) == Demand(rest, id);
            } else if Demand(rest, p) > 0 {
              assert Demand(rest, p) <= m'[p].stock;
            }
          }
          assert forall i :: 0 <= i < |lines| ==> lines[i].product in m && m[lines[i].product].isActive by {
            forall i | 0 <= i < |lines|
              ensures lines[i].product in m && m[lines[i].product].isActive
            {
              if i > 0 {
                assert lines[i] == rest[i - 1];
              }
            }
          }
        }
      } else {
        assert !Orderable(products, lines) by {
          assert lines[0].product == p;
        }
      }
    }
  }
}
