/**
 * Null-conditional member access from the language-feature tour: `customer?.Orders?.Add(x)`
 * appends to the customer's order list when both the customer and the list are non-null, and
 * otherwise does nothing and throws nothing.
 */
module NullConditional {

  /** A `List<string>`: a heap object whose contents `Add` extends in place. */
  class OrderList {
    var items: seq<string>

    constructor (items: seq<string>)
      ensures this.items == items
    {
      this.items := items;
    }

    /** `List<string>.Add`: appends one element at the end. */
    method Add(x: string)
      modifies this
      ensures items == old(items) + [x]
    {
      items := items + [x];
    }
  }

  class Customer {
    var name: string
    /** `Orders` is a settable reference and so may be null. */
    var orders: OrderList?

    /** The property initialisers: `Name = ""` and `Orders = []`. */
    constructor ()
      ensures name == "" && orders != null && fresh(orders) && orders.items == []
    {
      name := "";
      orders := new OrderList([]);
    }
  }

  /** The object that `customer?.Orders` denotes, or null when either link is null. */
  function OrdersOf(customer: Customer?): (r: OrderList?)
    reads customer
    ensures r != null ==> customer != null && r == customer.orders
    ensures customer != null && customer.orders != null ==> r == customer.orders
  {
    if customer == null then null else customer.orders
  }

  /**
   * `customer?.Orders?.Add(order)`: exactly one element appended at the end of the customer's
   * list when the chain is non-null; nothing is modified otherwise.
   */
  method AddOrderIfPresent(customer: Customer?, order: string)
    modifies OrdersOf(customer)
    ensures OrdersOf(customer) == old(OrdersOf(customer))
    ensures OrdersOf(customer) != null ==> OrdersOf(customer).items == old(OrdersOf(customer).items) + [order]
  {
    if customer != null {
      var list := customer.orders;
      if list != null {
        list.Add(order);
      }
    }
  }

  /** `customer?.Orders ?? []`: the orders to print, or none when the chain is null. */
  function OrdersOrEmpty(customer: Customer?): (r: seq<string>)
    reads customer, OrdersOf(customer)
    ensures OrdersOf(customer) == null ==> r == []
    ensures OrdersOf(customer) != null ==> r == OrdersOf(customer).items
  {
    var list := OrdersOf(customer);
    if list == null then [] else list.items
  }

  /**
   * The tour's scenario: Alice's orders go from ["Order1", "Order2"] to three orders, and the
   * same call on a null customer returns normally with nothing to show.
   */
  method NullConditionalRun() returns (before: seq<string>, after: seq<string>, nullOrders: seq<string>)
    ensures before == ["Order1", "Order2"]
    ensures after == ["Order1", "Order2", "Order3"]
    ensures nullOrders == []
  {
    var customer := new Customer();
    customer.name := "Alice";
    customer.orders := new OrderList(["Order1", "Order2"]);
    before := OrdersOrEmpty(customer);
    AddOrderIfPresent(customer, "Order3");
    after := OrdersOrEmpty(customer);
    var nullCustomer: Customer? := null;
    AddOrderIfPresent(nullCustomer, "Order4");
    nullOrders := OrdersOrEmpty(nullCustomer);
  }
}
