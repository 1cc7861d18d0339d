/**
 Placing an order under a request id: concurrent and repeated calls create one order and answer alike.
 The orders table is append-only for everything an order was placed with; its status and paid amount move on.
 */
module Checkout {
  import opened Wrappers
  import opened Money
  import opened Pricing
  import opened Cart
  import Text
  import T = Trade

  datatype Address = Address(
    id: nat, name: string, phone: string, province: string, city: string, district: string, detail: string)

  datatype Order = Order(no: T.Id, user: nat, request: string, total: string, shipping: Address, items: seq<OrderItem>)

  datatype Row = Row(order: Order, status: T.Status, paid: string)

  const NO_ADDRESS: Address := Address(0, "", "", "", "", "", "")

  /** The shipping columns do not hold the address id. */
  function Stored(o: Order): Order {
    o.(shipping := o.shipping.(id := 0))
  }

  /** The UNIQUE keys of the orders table. */
  predicate Clashes(o: Order, p: Order) {
    o.no == p.no || (o.user == p.user && o.request == p.request)
  }

  predicate Keyed(row: Row, user: nat, request: string) {
    row.order.user == user && row.order.request == request
  }

  predicate KeyTaken(rows: seq<Row>, no: T.Id, user: nat, request: string) {
    exists i | 0 <= i < |rows| :: rows[i].order.no == no || Keyed(rows[i], user, request)
  }

  predicate Taken(rows: seq<Row>, o: Order) {
    KeyTaken(rows, o.no, o.user, o.request)
  }

  datatype Action = Place(order: Order) | Update(i: nat, status: T.Status, paid: string)

  function Apply(rows: seq<Row>, action: Action): seq<Row> {
    match action
    case Place(o) => if Taken(rows, o) then rows else rows + [Row(Stored(o), T.PendingPayment, "0.00")]
    case Update(i, status, paid) =>
      if i < |rows| then rows[i := rows[i].(status := status, paid := paid)] else rows
  }

  function Run(rows: seq<Row>, actions: seq<Action>): seq<Row>
    decreases |actions|
  {
    if actions == [] then rows else Apply(Run(rows, actions[..|actions| - 1]), actions[|actions| - 1])
  }

  ghost predicate Unique(rows: seq<Row>) {
    forall i, j | 0 <= i < j < |rows| :: !Clashes(rows[i].order, rows[j].order)
  }

  /** Rows are only added, and what an order was placed with never changes. */
  ghost predicate Grows(rows: seq<Row>, rows': seq<Row>) {
    |rows| <= |rows'| && forall i | 0 <= i < |rows| :: rows'[i].order == rows[i].order
  }

  lemma {:induction false} RunKeeps(rows: seq<Row>, actions: seq<Action>)
    ensures Grows(rows, Run(rows, actions))
    ensures Unique(rows) ==> Unique(Run(rows, actions))
    decreases |actions|
  {
    if actions != [] {
      RunKeeps(rows, actions[..|actions| - 1]);
      ApplyKeeps(Run(rows, actions[..|actions| - 1]), actions[|actions| - 1]);
    }
  }

  lemma ApplyKeeps(rows: seq<Row>, action: Action)
    ensures Grows(rows, Apply(rows, action))
    ensures Unique(rows) ==> Unique(Apply(rows, action))
  {
    if action.Place? && Unique(rows) && !Taken(rows, action.order) {
      forall i | 0 <= i < |rows| ensures !Clashes(rows[i].order, Stored(action.order)) {
        assert !Clashes(rows[i].order, action.order);
      }
    }
  }

  lemma {:induction false} RunAppends(rows: seq<Row>, actions: seq<Action>, more: seq<Action>)
    ensures Run(rows, actions + more) == Run(Run(rows, actions), more)
    decreases |more|
  {
    var all := actions + more;
    if more == [] {
      assert all == actions;
    } else {
      var n := |more| - 1;
      assert all[..|all| - 1] == actions + more[..n] && all[|all| - 1] == more[n];
      RunAppends(rows, actions, more[..n]);
    }
  }

  /** The order placed under this key, as the table has it. */
  ghost predicate Replies(rows: seq<Row>, user: nat, request: string, o: Order) {
    && o.user == user && o.request == request
    && exists i | 0 <= i < |rows| :: rows[i].order == Stored(o)
  }

  lemma RepliesStand(rows: seq<Row>, actions: seq<Action>, user: nat, request: string, o: Order)
    requires Replies(rows, user, request, o)
    ensures Replies(Run(rows, actions), user, request, o)
  {
    RunKeeps(rows, actions);
    var i :| 0 <= i < |rows| && rows[i].order == Stored(o);
    assert Run(rows, actions)[i].order == Stored(o);
  }

  /** At most one order per request: two replies, however far apart, name the same order with the same contents. */
  lemma OneOrderPerRequest(rows: seq<Row>, actions: seq<Action>, user: nat, request: string, o: Order, p: Order)
    requires Unique(rows)
    requires Replies(rows, user, request, o) && Replies(Run(rows, actions), user, request, p)
    ensures Stored(o) == Stored(p)
  {
    RunKeeps(rows, actions);
    RepliesStand(rows, actions, user, request, o);
    var rows' := Run(rows, actions);
    var i :| 0 <= i < |rows'| && rows'[i].order == Stored(o);
    var j :| 0 <= j < |rows'| && rows'[j].order == Stored(p);
    assert i != j ==> Clashes(rows'[i].order, rows'[j].order);
  }

  predicate ReadableAddress(a: Address) {
    forall part | part in [a.name, a.phone, a.province, a.city, a.district, a.detail] :: Text.Trim(part) != ""
  }

  predicate ValidPromotion(p: Promotion) {
    && p.id != 0 && p.ruleType != ""
    && (p.threshold == "" || CentsOf(p.threshold).Some?)
    && (p.discount == "" || CentsOf(p.discount).Some?)
  }

  predicate StorableItem(item: OrderItem) {
    && ReadsBack(item)
    && (item.applied.Some? ==> item.applied.value in item.candidates)
    && forall p | p in item.candidates :: ValidPromotion(p)
  }

  predicate Storable(o: Order) {
    CentsOf(o.total).Some? && forall item | item in o.items :: StorableItem(item)
  }

  datatype Reply<T> = Got(value: T) | Absent | Unavailable

  datatype Code = InvalidArgument | NotFound | Dependency | Internal

  datatype Result = Success(order: Order, status: T.Status, paid: string) | Failed(code: Code)

  class OrderTable {
    var rows: seq<Row>

    constructor ()
      ensures rows == []
    {
      rows := [];
    }

    /** Any actions of any other processes. */
    method Others(actions: seq<Action>)
      modifies this
      ensures rows == Run(old(rows), actions)
    {
      rows := Run(rows, actions);
    }

    /** Reads the order of a request; a stored address with a blank part makes the row unreadable. */
    method FindOrderByRequest(user: nat, request: string, answered: bool) returns (r: Reply<Row>)
      ensures r.Got? ==>
        && r.value in rows && r.value.order.user == user && r.value.order.request == request
        && ReadableAddress(r.value.order.shipping)
      ensures r.Absent? ==> forall row | row in rows :: !(row.order.user == user && row.order.request == request)
      ensures r.Unavailable? ==> !answered || exists row | row in rows ::
        row.order.user == user && row.order.request == request && !ReadableAddress(row.order.shipping)
    {
      if !answered {
        return Unavailable;
      }
      for i := 0 to |rows|
        invariant forall row | row in rows[..i] :: !(row.order.user == user && row.order.request == request)
      {
        if rows[i].order.user == user && rows[i].order.request == request {
          return if ReadableAddress(rows[i].order.shipping) then Got(rows[i]) else Unavailable;
        }
        assert rows[..i + 1] == rows[..i] + [rows[i]];
      }
      assert rows[..|rows|] == rows;
      return Absent;
    }

    method Insert(o: Order) returns (ok: bool)
      modifies this
      ensures rows == Apply(old(rows), Place(o))
      ensures ok <==> !Taken(old(rows), o)
    {
      ok := !Taken(rows, o);
      if ok {
        rows := rows + [Row(Stored(o), T.PendingPayment, "0.00")];
      }
    }
  }

  /** Rows as the table stores them: no address id. */
  ghost predicate NoAddressIds(rows: seq<Row>) {
    forall i | 0 <= i < |rows| :: rows[i].order == Stored(rows[i].order)
  }

  lemma {:induction false} RunKeepsNoAddressIds(rows: seq<Row>, actions: seq<Action>)
    requires NoAddressIds(rows)
    ensures NoAddressIds(Run(rows, actions))
    decreases |actions|
  {
    if actions != [] {
      RunKeepsNoAddressIds(rows, actions[..|actions| - 1]);
    }
  }

  function Answer(found: Reply<Row>): Result {
    match found
    case Got(row) => Success(row.order, row.status, row.paid)
    case Absent => Failed(NotFound)
    case Unavailable => Failed(Internal)
  }

  /** The reply shows a row as the table has it: its order, status and paid amount. */
  ghost predicate Shows(rows: seq<Row>, r: Result) {
    r.Success? ==>
      exists i | 0 <= i < |rows| ::
        rows[i].order == Stored(r.order) && rows[i].status == r.status && rows[i].paid == r.paid
  }

  /** What a call may have done: created its own order, or found the one there was. */
  ghost predicate Sound(rows: seq<Row>, user: nat, request: string, address: Address, created: bool, r: Result) {
    && Shows(rows, r)
    && (r.Success? ==>
          && r.order.user == user && r.order.request == request
          && r.order.shipping == if created then address else r.order.shipping.(id := 0))
  }

  lemma FoundIsSound(rows: seq<Row>, user: nat, request: string, address: Address, found: Reply<Row>)
    requires NoAddressIds(rows)
    requires found.Got? ==>
      found.value in rows && found.value.order.user == user && found.value.order.request == request
    ensures Sound(rows, user, request, address, false, Answer(found))
  {
    if found.Got? {
      var i :| 0 <= i < |rows| && rows[i] == found.value;
      assert rows[i].order == Stored(found.value.order);
    }
  }

  /** The request has its order already. */
  ghost predicate Has(rows: seq<Row>, user: nat, request: string) {
    exists i | 0 <= i < |rows| :: Keyed(rows[i], user, request)
  }

  predicate ReadableRows(rows: seq<Row>, user: nat, request: string) {
    forall row | row in rows && Keyed(row, user, request) :: ReadableAddress(row.order.shipping)
  }

  lemma HasStands(rows: seq<Row>, actions: seq<Action>, user: nat, request: string)
    requires Has(rows, user, request)
    ensures Has(Run(rows, actions), user, request)
  {
    RunKeeps(rows, actions);
    var i :| 0 <= i < |rows| && Keyed(rows[i], user, request);
    assert Keyed(Run(rows, actions)[i], user, request);
  }

  /** The insert itself; on a duplicate key the order there is. */
  method InsertOrFind(table: OrderTable, o: Order, insert: Fate, findAgain: bool, others: seq<Action>)
    returns (r: Result, created: bool, ghost trace: seq<Action>)
    requires NoAddressIds(table.rows) && Storable(o)
    modifies table
    ensures table.rows == Run(old(table.rows), trace) && NoAddressIds(table.rows)
    ensures Sound(table.rows, o.user, o.request, o.shipping, created, r)
    ensures created ==> Replies(table.rows, o.user, o.request, o)
    ensures r.Success? && created ==> r == Success(o, T.PendingPayment, "0.00")
    ensures r.Success? ==> (created <==> !Taken(old(table.rows), o))
    ensures r.Failed? ==> r.code != InvalidArgument
    ensures insert == Answered && !Taken(old(table.rows), o) ==>
      created && r.Success? && table.rows == old(table.rows) + [Row(Stored(o), T.PendingPayment, "0.00")]
    ensures insert == Answered && Taken(old(table.rows), o) && !Has(old(table.rows), o.user, o.request)
            && others == [] && findAgain ==>
      r == Failed(NotFound) && !created && table.rows == old(table.rows)
  {
    created, trace := false, [];
    if insert == Rejected {
      return Failed(Internal), created, trace;
    }
    ghost var rows := table.rows;
    created := table.Insert(o);
    trace := [Place(o)];
    assert [Place(o)][..0] == [];
    RunKeepsNoAddressIds(rows, trace);
    if created {
      assert table.rows[|rows|].order == Stored(o);
      r := if insert == AnswerLost then Failed(Internal) else Success(o, T.PendingPayment, "0.00");
    } else if insert == AnswerLost {
      r := Failed(Internal);
    } else {
      RunAppends(rows, trace, others);
      table.Others(others);
      trace := trace + others;
      RunKeepsNoAddressIds(rows, trace);
      var found := table.FindOrderByRequest(o.user, o.request, findAgain);
      FoundIsSound(table.rows, o.user, o.request, o.shipping, found);
      r := Answer(found);
    }
  }

  /** The answer about an order that is there: its row as it is, unless its address cannot be read. */
  ghost predicate AnswersFound(rows: seq<Row>, rows': seq<Row>, user: nat, request: string, r: Result, created: bool) {
    && !created && rows' == rows
    && exists row | row in rows && Keyed(row, user, request) ::
         r == if ReadableAddress(row.order.shipping) then Success(row.order, row.status, row.paid) else Failed(Internal)
  }

  /** Undisturbed and with every call answered, the table alone decides what becomes of an assembled order. */
  ghost predicate CreatesAlone(rows: seq<Row>, rows': seq<Row>, o: Order, r: Result, created: bool) {
    if Has(rows, o.user, o.request) then AnswersFound(rows, rows', o.user, o.request, r, created)
    else if !Storable(o) then r == Failed(Internal) && !created && rows' == rows
    else if KeyTaken(rows, o.no, o.user, o.request) then r == Failed(NotFound) && !created && rows' == rows
    else
      created && r == Success(o, T.PendingPayment, "0.00")
      && rows' == rows + [Row(Stored(o), T.PendingPayment, "0.00")]
  }

  lemma FoundAnswers(rows: seq<Row>, user: nat, request: string, found: Reply<Row>)
    requires !found.Absent?
    requires found.Got? ==>
      found.value in rows && Keyed(found.value, user, request) && ReadableAddress(found.value.order.shipping)
    requires found.Unavailable? ==> exists row | row in rows ::
      Keyed(row, user, request) && !ReadableAddress(row.order.shipping)
    ensures Has(rows, user, request) && AnswersFound(rows, rows, user, request, Answer(found), false)
  {
    var row :| row in rows && Keyed(row, user, request)
      && if found.Got? then row == found.value else !ReadableAddress(row.order.shipping);
    var i :| 0 <= i < |rows| && rows[i] == row;
    assert Keyed(rows[i], user, request);
  }

  lemma AbsentHasNone(rows: seq<Row>, user: nat, request: string)
    requires forall row | row in rows :: !Keyed(row, user, request)
    ensures !Has(rows, user, request)
  {
    forall i | 0 <= i < |rows| ensures !Keyed(rows[i], user, request) {
      assert rows[i] in rows;
    }
  }

  /**
   Inserts unless the request already has an order; a duplicate key means another call came first. A successful
   call created the order exactly when none of the table's keys was taken at its insert.
   */
  method CreateOrder(
    table: OrderTable, o: Order, find: bool, insert: Fate, findAgain: bool, before: seq<Action>, after: seq<Action>)
    returns (r: Result, created: bool, ghost trace: seq<Action>)
    requires NoAddressIds(table.rows)
    modifies table
    ensures table.rows == Run(old(table.rows), trace) && NoAddressIds(table.rows)
    ensures Sound(table.rows, o.user, o.request, o.shipping, created, r)
    ensures created ==> Storable(o) && Replies(table.rows, o.user, o.request, o)
    ensures r.Success? && created ==> r == Success(o, T.PendingPayment, "0.00")
    ensures r.Success? ==> (created <==> !Taken(Run(old(table.rows), before), o))
    ensures r.Failed? ==> r.code != InvalidArgument
    ensures find && insert == Answered && findAgain && before == after == [] ==>
      CreatesAlone(old(table.rows), table.rows, o, r, created)
  {
    created, trace := false, [];
    ghost var rows := table.rows;
    var found := table.FindOrderByRequest(o.user, o.request, find);
    if !found.Absent? {
      FoundIsSound(rows, o.user, o.request, o.shipping, found);
      FoundIsTaken(rows, o, found, before);
      if find {
        FoundAnswers(rows, o.user, o.request, found);
      }
      return Answer(found), created, trace;
    }
    AbsentHasNone(rows, o.user, o.request);
    if !Storable(o) {
      return Failed(Internal), created, trace;
    }
    table.Others(before);
    trace := before;
    RunKeepsNoAddressIds(rows, trace);
    ghost var rest;
    r, created, rest := InsertOrFind(table, o, insert, findAgain, after);
    RunAppends(rows, trace, rest);
    trace := trace + rest;
  }

  lemma FoundIsTaken(rows: seq<Row>, o: Order, found: Reply<Row>, others: seq<Action>)
    requires found.Got? ==> found.value in rows && Keyed(found.value, o.user, o.request)
    ensures found.Got? ==> Taken(Run(rows, others), o)
  {
    if found.Got? {
      var i :| 0 <= i < |rows| && rows[i] == found.value;
      HasStands(rows, others, o.user, o.request);
    }
  }

  /** The request's row shows the same status and paid amount in both states. */
  ghost predicate Unmoved(rows: seq<Row>, rows': seq<Row>, user: nat, request: string) {
    forall i | 0 <= i < |rows| && i < |rows'| && Keyed(rows[i], user, request) ::
      rows'[i].status == rows[i].status && rows'[i].paid == rows[i].paid
  }

  lemma ShownRow(rows: seq<Row>, user: nat, request: string, address: Address, created: bool, r: Result, i: nat)
    requires Unique(rows) && Sound(rows, user, request, address, created, r) && r.Success?
    requires i < |rows| && Keyed(rows[i], user, request)
    ensures rows[i] == Row(Stored(r.order), r.status, r.paid)
  {
    var k :| 0 <= k < |rows| && rows[k].order == Stored(r.order) && rows[k].status == r.status
      && rows[k].paid == r.paid;
    assert i < k ==> Clashes(rows[i].order, rows[k].order);
    assert k < i ==> Clashes(rows[k].order, rows[i].order);
  }

  /**
   When two successful replies to one request are equal: the first call found the order, or placed it with no
   address id, and the row's status and paid amount are at the second reply what they were at the first.
   */
  lemma RepliesAgreeIff(
    rows: seq<Row>, more: seq<Action>, user: nat, request: string, address: Address, created: bool, first: Result,
    address': Address, second: Result)
    requires Unique(rows)
    requires Sound(rows, user, request, address, created, first) && first.Success?
    requires Sound(Run(rows, more), user, request, address', false, second) && second.Success?
    ensures Stored(first.order) == Stored(second.order)
    ensures first == second <==>
      (!created || address.id == 0) && Unmoved(rows, Run(rows, more), user, request)
  {
    var rows' := Run(rows, more);
    RunKeeps(rows, more);
    var i :| 0 <= i < |rows| && rows[i].order == Stored(first.order);
    ShownRow(rows, user, request, address, created, first, i);
    ShownRow(rows', user, request, address', false, second, i);
    forall k | 0 <= k < |rows| && Keyed(rows[k], user, request) ensures k == i {
      assert k < i ==> Clashes(rows[k].order, rows[i].order);
      assert i < k ==> Clashes(rows[i].order, rows[k].order);
    }
    assert Keyed(rows[i], user, request);
  }

  predicate ValidInput(user: nat, addressId: nat, request: string) {
    user != 0 && addressId != 0 && Text.Trim(request) != "" && |request| <= 128
  }

  /** The order charges precisely the chosen cart lines, at their best prices, and their exact total. */
  ghost predicate Bills(o: Order, cart: seq<CartItem>, products: seq<Product>, amounts: seq<nat>) {
    && Orderable(Lines(cart), products)
    && PricedLines(Lines(cart), products, o.items, amounts)
    && o.total == Format(SumOf(amounts))
  }

  /** The total is the exact sum of the item amounts and never exceeds 9999999999.99. */
  lemma BilledTotalIsExact(o: Order, cart: seq<CartItem>, products: seq<Product>, amounts: seq<nat>)
    requires Bills(o, cart, products, amounts)
    ensures CentsOf(o.total) == Some(StoredTotal(o.items)) && StoredTotal(o.items) <= MAX_CENTS
    ensures StoredTotal(o.items) == Total(Lines(cart), products)
  {
    TotalIsTheSum(Lines(cart), products, o.items, amounts);
    AmountsAreTheLines(Lines(cart), products, o.items, amounts);
    FormatIsExact(Total(Lines(cart), products));
  }

  predicate Named(item: OrderItem) {
    forall p | p in item.candidates :: p.id != 0 && p.ruleType != ""
  }

  lemma PricedIsStorable(product: Product, quantity: nat, item: OrderItem, amount: nat)
    requires Priceable(product, quantity) && Priced(product, quantity, item, amount)
    ensures StorableItem(item) <==> Named(item)
  {
    PricedLineReadsBack(product, quantity, item, amount);
    forall p | p in item.candidates
      ensures ValidPromotion(p) <==> p.id != 0 && p.ruleType != ""
    {
      assert Readable(p);
    }
  }

  /** The repository's own checks can only fail on a candidate without an id or a rule type. */
  lemma BilledIsStorable(o: Order, cart: seq<CartItem>, products: seq<Product>, amounts: seq<nat>)
    requires Bills(o, cart, products, amounts)
    ensures Storable(o) <==> forall item | item in o.items :: Named(item)
  {
    BilledTotalIsExact(o, cart, products, amounts);
    var lines := Lines(cart);
    forall item | item in o.items ensures StorableItem(item) <==> Named(item) {
      var i :| 0 <= i < |o.items| && o.items[i] == item;
      assert LinePriced(lines[i], products, o.items[i], amounts[i]);
      PricedIsStorable(Lookup(products, lines[i].sku).value, lines[i].quantity, item, amounts[i]);
    }
  }

  datatype Fates = Fates(find: bool, findAgain: bool, insert: Fate, findLast: bool)

  function Shipping(address: Reply<Address>): Address {
    if address.Got? then address.value else NO_ADDRESS
  }

  /** The table at the insert of a call others interrupt before it assembles its order and before it inserts. */
  function AtInsert(rows: seq<Row>, others: nat -> seq<Action>): seq<Row> {
    Run(Run(rows, others(0)), others(1))
  }

  lemma FoundStays(rows: seq<Row>, found: Reply<Row>, no: T.Id, user: nat, request: string, others: nat -> seq<Action>)
    requires found.Got? ==> found.value in rows && Keyed(found.value, user, request)
    ensures found.Got? ==> KeyTaken(AtInsert(rows, others), no, user, request)
  {
    if found.Got? {
      var i :| 0 <= i < |rows| && rows[i] == found.value;
      HasStands(rows, others(0), user, request);
      HasStands(Run(rows, others(0)), others(1), user, request);
    }
  }

  datatype Assembled = Ready(order: Order) | Unready(code: Code)

  /** Which of the other services' answers an order can be assembled from, and what the others mean. */
  ghost predicate Assembles(
    address: Reply<Address>, cart: Reply<seq<CartItem>>, products: Reply<seq<Product>>, r: Assembled)
  {
    if address.Absent? || (address.Got? && cart.Absent?) then r == Unready(NotFound)
    else if address.Unavailable? then r == Unready(Dependency)
    else if cart.Unavailable? then r == Unready(Internal)
    else if Lines(cart.value) == [] then r == Unready(InvalidArgument)
    else if !products.Got? then r == Unready(Dependency)
    else if !Orderable(Lines(cart.value), products.value) then r == Unready(InvalidArgument)
    else r.Ready?
  }

  /** The order a call assembles from what the other services answer. */
  method Assemble(
    user: nat, request: string, no: T.Id, address: Reply<Address>, cart: Reply<seq<CartItem>>,
    products: Reply<seq<Product>>)
    returns (r: Assembled, ghost amounts: seq<nat>)
    ensures r.Ready? ==>
      && address.Got? && cart.Got? && products.Got?
      && r.order.no == no && r.order.user == user && r.order.request == request
      && r.order.shipping == address.value && Bills(r.order, cart.value, products.value, amounts)
    ensures Assembles(address, cart, products, r)
  {
    amounts := [];
    match address {
      case Absent => return Unready(NotFound), amounts;
      case Unavailable => return Unready(Dependency), amounts;
      case Got(_) =>
    }
    if !cart.Got? {
      return Unready(if cart.Absent? then NotFound else Internal), amounts;
    }
    if Lines(cart.value) == [] {
      return Unready(InvalidArgument), amounts;
    }
    if !products.Got? {
      return Unready(Dependency), amounts;
    }
    var priced;
    priced, amounts := PriceCart(cart.value, products.value);
    if priced.None? {
      return Unready(InvalidArgument), amounts;
    }
    return Ready(Order(no, user, request, priced.value.1, address.value, priced.value.0)), amounts;
  }

  predicate Acceptable(user: nat, addressId: nat, request: string) {
    user != 0 && addressId != 0 && Text.Visible(request) != "" && |request| <= 128
  }

  /** Every candidate promotion of the lines' products has an id and a rule type. */
  predicate AllNamed(lines: seq<CartItem>, products: seq<Product>) {
    forall i, p | 0 <= i < |lines| && Lookup(products, lines[i].sku).Some?
      && p in Lookup(products, lines[i].sku).value.promotions :: p.id != 0 && p.ruleType != ""
  }

  lemma NamedLines(o: Order, cart: seq<CartItem>, products: seq<Product>, amounts: seq<nat>)
    requires Bills(o, cart, products, amounts)
    ensures Storable(o) <==> AllNamed(Lines(cart), products)
  {
    BilledIsStorable(o, cart, products, amounts);
    NamedItems(Lines(cart), products, o.items, amounts);
  }

  lemma NamedItems(lines: seq<CartItem>, products: seq<Product>, items: seq<OrderItem>, amounts: seq<nat>)
    requires PricedLines(lines, products, items, amounts)
    ensures (forall item | item in items :: Named(item)) <==> AllNamed(lines, products)
  {
    forall i | 0 <= i < |lines|
      ensures Lookup(products, lines[i].sku).Some?
        && items[i].candidates == Lookup(products, lines[i].sku).value.promotions && items[i] in items
    {
      assert LinePriced(lines[i], products, items[i], amounts[i]);
    }
    if forall item | item in items :: Named(item) {
      forall i | 0 <= i < |lines| ensures Named(items[i]) {}
    }
  }

  /** The one order a call places: it names its caller, request, number and address, and bills the cart. */
  ghost predicate Places(
    rows: seq<Row>, rows': seq<Row>, user: nat, request: string, no: T.Id, address: Address, cart: seq<CartItem>,
    products: seq<Product>, r: Result, created: bool, amounts: seq<nat>)
  {
    && created && r.Success? && r.status == T.PendingPayment && r.paid == "0.00"
    && r.order.no == no && r.order.user == user && r.order.request == request && r.order.shipping == address
    && Bills(r.order, cart, products, amounts)
    && rows' == rows + [Row(r.order.(shipping := address.(id := 0)), T.PendingPayment, "0.00")]
  }

  /** Undisturbed and with every call answered: what becomes of the call, by what it is given and the table. */
  ghost predicate PlacesAlone(
    rows: seq<Row>, rows': seq<Row>, user: nat, addressId: nat, request: string, no: T.Id, address: Reply<Address>,
    cart: Reply<seq<CartItem>>, products: Reply<seq<Product>>, r: Result, created: bool, amounts: seq<nat>)
  {
    if !Acceptable(user, addressId, request) then r == Failed(InvalidArgument) && !created && rows' == rows
    else if Has(rows, user, request) then AnswersFound(rows, rows', user, request, r, created)
    else if address.Got? && cart.Got? && products.Got? && Orderable(Lines(cart.value), products.value)
            && AllNamed(Lines(cart.value), products.value)
            && forall i | 0 <= i < |rows| :: rows[i].order.no != no then
      Places(rows, rows', user, request, no, address.value, cart.value, products.value, r, created, amounts)
    else
      && !created && rows' == rows
      && r == Failed(
           if address.Absent? then NotFound
           else if address.Unavailable? then Dependency
           else if cart.Absent? then NotFound
           else if cart.Unavailable? then Internal
           else if Lines(cart.value) == [] then InvalidArgument
           else if !products.Got? then Dependency
           else if !Orderable(Lines(cart.value), products.value) then InvalidArgument
           else if !AllNamed(Lines(cart.value), products.value) then Internal
           else NotFound)
  }

  /** What was assembled and what became of it decide what becomes of the call. */
  lemma CreatedIsPlaced(
    rows: seq<Row>, rows': seq<Row>, user: nat, addressId: nat, request: string, o: Order, address: Reply<Address>,
    cart: Reply<seq<CartItem>>, products: Reply<seq<Product>>, r: Result, created: bool, amounts: seq<nat>)
    requires Acceptable(user, addressId, request) && !Has(rows, user, request)
    requires address.Got? && cart.Got? && products.Got? && Bills(o, cart.value, products.value, amounts)
    requires o.user == user && o.request == request && o.shipping == address.value
    requires CreatesAlone(rows, rows', o, r, created)
    ensures PlacesAlone(rows, rows', user, addressId, request, o.no, address, cart, products, r, created, amounts)
  {
    NamedLines(o, cart.value, products.value, amounts);
    HasIsTaken(rows, o.no, user, request);
  }

  lemma HasIsTaken(rows: seq<Row>, no: T.Id, user: nat, request: string)
    requires !Has(rows, user, request)
    ensures KeyTaken(rows, no, user, request) <==> exists i | 0 <= i < |rows| :: rows[i].order.no == no
  {
    forall i | 0 <= i < |rows| ensures !Keyed(rows[i], user, request) {}
  }

  predicate AllAnswered(fates: Fates) {
    fates == Fates(true, true, Answered, true)
  }

  lemma AcceptableIsValid(user: nat, addressId: nat, request: string)
    ensures ValidInput(user, addressId, request) <==> Acceptable(user, addressId, request)
  {
    Text.TrimKeeps(request);
  }

  /**
   Places an order for the selected cart lines. Whatever others do meanwhile, a successful reply names the
   one order of its request, and an order this call created bills exactly the cart and prices it read.
   Undisturbed, it is placed whenever it can be.
   */
  method PlaceOrder(
    table: OrderTable, user: nat, addressId: nat, request: string, no: T.Id, address: Reply<Address>,
    cart: Reply<seq<CartItem>>, products: Reply<seq<Product>>, fates: Fates, others: nat -> seq<Action>)
    returns (r: Result, created: bool, ghost amounts: seq<nat>, ghost trace: seq<Action>)
    requires NoAddressIds(table.rows)
    modifies table
    ensures table.rows == Run(old(table.rows), trace) && NoAddressIds(table.rows)
    ensures r.Success? ==> ValidInput(user, addressId, request) && Replies(table.rows, user, request, r.order)
    ensures Sound(table.rows, user, request, Shipping(address), created, r)
    ensures r.Success? ==> (created <==> !KeyTaken(AtInsert(old(table.rows), others), no, user, request))
    ensures created ==> address.Got? && cart.Got? && products.Got? && Orderable(Lines(cart.value), products.value)
    ensures created && r.Success? ==>
      && r.order.no == no && Bills(r.order, cart.value, products.value, amounts)
      && r.status == T.PendingPayment && r.paid == "0.00"
    ensures r == Failed(InvalidArgument) && ValidInput(user, addressId, request) ==>
      cart.Got? && (Lines(cart.value) == [] || (products.Got? && !Orderable(Lines(cart.value), products.value)))
    ensures AllAnswered(fates) && (forall i :: others(i) == []) ==>
      PlacesAlone(old(table.rows), table.rows, user, addressId, request, no, address, cart, products, r, created,
                  amounts)
  {
    created, amounts, trace := false, [], [];
    AcceptableIsValid(user, addressId, request);
    if !ValidInput(user, addressId, request) {
      return Failed(InvalidArgument), created, amounts, trace;
    }
    var found := table.FindOrderByRequest(user, request, fates.find);
    if !found.Absent? {
      FoundIsSound(table.rows, user, request, Shipping(address), found);
      FoundStays(table.rows, found, no, user, request, others);
      if fates.find {
        FoundAnswers(table.rows, user, request, found);
      }
      return Answer(found), created, amounts, trace;
    }
    AbsentHasNone(table.rows, user, request);
    var assembled;
    assembled, amounts := Assemble(user, request, no, address, cart, products);
    if assembled.Unready? {
      return Failed(assembled.code), created, amounts, trace;
    }
    var o := assembled.order;
    ghost var rows := table.rows;
    table.Others(others(0));
    RunKeepsNoAddressIds(rows, others(0));
    r, created, trace := CreateOrder(table, o, fates.findAgain, fates.insert, fates.findLast, others(1), others(2));
    RunAppends(rows, others(0), trace);
    if AllAnswered(fates) && (forall i :: others(i) == []) {
      CreatedIsPlaced(rows, table.rows, user, addressId, request, o, address, cart, products, r, created, amounts);
    }
    trace := others(0) + trace;
  }

  /** Everything one call is given or gets to see of other services. */
  datatype Placing = Placing(
    addressId: nat, no: T.Id, address: Reply<Address>, cart: Reply<seq<CartItem>>, products: Reply<seq<Product>>,
    fates: Fates)

  /**
   Two calls of one request, anything in between. Successful replies name one order, and are equal exactly
   when the first call's keys were taken at its insert or its address has no id, and nothing between the
   replies moved the order's status or paid amount. `answered` is the table at the first reply.
   */
  method PlaceTwice(
    table: OrderTable, user: nat, request: string, p: Placing, q: Placing, others: nat -> seq<Action>,
    between: seq<Action>, othersAgain: nat -> seq<Action>)
    returns (first: Result, second: Result, ghost answered: seq<Row>, ghost more: seq<Action>)
    requires NoAddressIds(table.rows) && Unique(table.rows)
    modifies table
    ensures table.rows == Run(answered, more)
    ensures first.Success? && second.Success? ==>
      && Stored(first.order) == Stored(second.order)
      && (first == second <==>
            && (KeyTaken(AtInsert(old(table.rows), others), p.no, user, request) || Shipping(p.address).id == 0)
            && Unmoved(answered, table.rows, user, request))
  {
    var created, again;
    ghost var amounts, trace;
    ghost var before := table.rows;
    first, created, amounts, trace :=
      PlaceOrder(table, user, p.addressId, request, p.no, p.address, p.cart, p.products, p.fates, others);
    RunKeeps(before, trace);
    answered := table.rows;
    table.Others(between);
    RunKeepsNoAddressIds(answered, between);
    second, again, amounts, trace :=
      PlaceOrder(table, user, q.addressId, request, q.no, q.address, q.cart, q.products, q.fates, othersAgain);
    RunAppends(answered, between, trace);
    more := between + trace;
    if first.Success? && second.Success? {
      PlacedStays(answered, user, request, first, between, q.no, othersAgain);
      RepliesAgreeIff(answered, more, user, request, Shipping(p.address), created, first, Shipping(q.address), second);
    }
  }

  /** After a successful reply, no later call of the request creates another order. */
  lemma PlacedStays(
    rows: seq<Row>, user: nat, request: string, first: Result, between: seq<Action>, no: T.Id,
    others: nat -> seq<Action>)
    requires first.Success? && Replies(rows, user, request, first.order)
    ensures KeyTaken(AtInsert(Run(rows, between), others), no, user, request)
  {
    var i :| 0 <= i < |rows| && rows[i].order == Stored(first.order);
    assert Keyed(rows[i], user, request);
    HasStands(rows, between, user, request);
    HasStands(Run(rows, between), others(0), user, request);
    HasStands(Run(Run(rows, between), others(0)), others(1), user, request);
  }

  /** An order that names its address, as a call assembles it. */
  const NAMED: Order := Order(1, 1, "r-1", "0.00", Address(7, "A", "1", "P", "C", "D", "S"), [])

  lemma NamedIsPlaceable()
    ensures Storable(NAMED) && ReadableAddress(NAMED.shipping) && NAMED.shipping.id != 0
  {
    FormatIsExact(0);
    assert Format(0) == "0.00";
  }

  lemma PlacedAlone(rows: seq<Row>, o: Order)
    requires rows == [Row(Stored(o), T.PendingPayment, "0.00")]
    ensures Has(rows, o.user, o.request) && NoAddressIds(rows)
    ensures forall status, paid :: Run(rows, [Update(0, status, paid)]) == [Row(Stored(o), status, paid)]
    ensures ReadableAddress(o.shipping) ==>
      forall status, paid :: ReadableRows([Row(Stored(o), status, paid)], o.user, o.request)
  {
    assert Keyed(rows[0], o.user, o.request);
    forall status, paid ensures Run(rows, [Update(0, status, paid)]) == [Row(Stored(o), status, paid)] {
      assert [Update(0, status, paid)][..0] == [];
    }
  }

  /** The first reply names the address, the answer to a retry does not, with every call answered. */
  method RetryNamesNoAddress(o: Order) returns (first: Result, second: Result)
    requires Storable(o) && ReadableAddress(o.shipping) && o.shipping.id != 0
    ensures first == Success(o, T.PendingPayment, "0.00")
    ensures second == Success(Stored(o), T.PendingPayment, "0.00") && second != first
  {
    var created;
    ghost var trace;
    var table := new OrderTable();
    first, created, trace := CreateOrder(table, o, true, Answered, true, [], []);
    PlacedAlone(table.rows, o);
    second, created, trace := CreateOrder(table, o, true, Answered, true, [], []);
  }

  /** One such order. */
  method NamedRetryDiffers() returns (first: Result, second: Result)
    ensures first == Success(NAMED, T.PendingPayment, "0.00") && first.order.shipping.id == 7
    ensures second == Success(Stored(NAMED), T.PendingPayment, "0.00") && second.order.shipping.id == 0
  {
    NamedIsPlaceable();
    first, second := RetryNamesNoAddress(NAMED);
  }

  /** A payment between two calls shows in the second reply, whether or not the address has an id. */
  method RetryShowsPayment(o: Order) returns (first: Result, second: Result)
    requires Storable(o) && ReadableAddress(o.shipping)
    ensures first == Success(o, T.PendingPayment, "0.00")
    ensures second == Success(Stored(o), T.Paid, o.total) && second != first
  {
    var created;
    ghost var trace;
    var table := new OrderTable();
    first, created, trace := CreateOrder(table, o, true, Answered, true, [], []);
    PlacedAlone(table.rows, o);
    table.Others([Update(0, T.Paid, o.total)]);
    second, created, trace := CreateOrder(table, o, true, Answered, true, [], []);
  }
}
