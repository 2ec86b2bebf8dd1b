/**
 * The "Create Proforma Order" form of the sales page: a customer id and a
 * list of order lines, each with a book id, a quantity and a discount
 * percentage, and the request payload built from them on submit.
 * `parseFloat` is a given function (`None` for `NaN`); sending the request
 * and the alerts are not part of the model.
 */
module Sales {
  import opened Wrappers
  import opened JsStrings
  import opened FormLines

  /** A new line: empty book id and quantity, discount 0 */
  const BlankLine: map<string, Value> :=
    map["bookTitleId" := Text(""), "quantity" := Text(""), "discountPercent" := Number(0)]

  /** One item of the proforma request */
  datatype PayloadItem = PayloadItem(bookTitleId: Option<int>, quantity: Option<int>, discountPercent: Option<real>)

  /** The proforma request body */
  datatype Payload = Payload(customerId: Option<int>, items: seq<PayloadItem>)

  class SalesOrderForm {
    var customerId: Value
    var items: seq<Line>

    /** There is always a first line, and no line object is listed twice. */
    ghost predicate Valid()
      reads this
    {
      |items| >= 1 && Distinct(items)
    }

    /** The form starts with no customer and exactly one blank line. */
    constructor ()
      ensures Valid()
      ensures customerId == Text("")
      ensures Contents(items) == [BlankLine]
    {
      var line := new Line(BlankLine);
      customerId := Text("");
      items := [line];
    }

    /** The customer id input */
    method SetCustomer(value: string)
      modifies this
      ensures customerId == Text(value)
      ensures items == old(items)
    {
      customerId := Text(value);
    }

    /** `handleAddItem`: one new blank line at the end; the existing lines
        are the same objects with the same contents. */
    method AddItem()
      requires Valid()
      modifies this
      ensures Valid()
      ensures customerId == old(customerId)
      ensures |items| == |old(items)| + 1 && items[..|old(items)|] == old(items)
      ensures fresh(items[|items| - 1])
      ensures Contents(items) == old(Contents(items)) + [BlankLine]
    {
      var line := new Line(BlankLine);
      items := items + [line];
    }

    /** `updateItem(index, field, value)`: assigns one property of one line
        object in place. The list holds the same objects afterwards, and
        every other line and every other property is unchanged. */
    method UpdateItem(index: nat, field: string, value: string)
      requires Valid() && index < |items|
      modifies items[index]
      ensures Valid()
      ensures Contents(items) == old(Contents(items))[index := old(items[index].fields)[field := Text(value)]]
    {
      var updated := items;
      updated[index].fields := updated[index].fields[field := Text(value)];
    }

    /** The remove control of line `index`, offered only for lines after the
        first: the list loses exactly that line, the others keep their order
        and contents, and the first line stays. */
    method RemoveItem(index: nat)
      requires Valid() && 0 < index < |items|
      modifies this
      ensures Valid()
      ensures customerId == old(customerId)
      ensures items == WithoutIndex(old(items), index)
      ensures items[0] == old(items[0])
      ensures Contents(items) == old(Contents(items))[..index] + old(Contents(items))[index + 1..]
    {
      DistinctWithoutIndex(items, index);
      WithoutIndexRemovesOne(items, index);
      items := WithoutIndex(items, index);
    }
  }

  /** `parseFloat(item.discountPercent || 0)`: a missing, empty or zero
      discount is 0, a number is kept, and typed text is parsed. */
  function Discount(fields: map<string, Value>, parseFloat: string -> Option<real>): (d: Option<real>)
    ensures !Truthy(Get(fields, "discountPercent")) ==> d == Some(0.0)
    ensures Get(fields, "discountPercent").Some? && Get(fields, "discountPercent").value.Number? ==>
      d == Some(Get(fields, "discountPercent").value.n as real)
    ensures Truthy(Get(fields, "discountPercent")) && Get(fields, "discountPercent").value.Text? ==>
      d == parseFloat(Get(fields, "discountPercent").value.s)
  {
    match Get(fields, "discountPercent")
    case None => Some(0.0)
    case Some(Number(n)) => Some(n as real)
    case Some(Text(s)) => if s == "" then Some(0.0) else parseFloat(s)
  }

  /** One item of the payload: a number is only sent for a property the line
      has, and a line without a discount sends 0. */
  function ItemPayload(fields: map<string, Value>, parseFloat: string -> Option<real>): (item: PayloadItem)
    ensures item.bookTitleId.Some? ==> "bookTitleId" in fields
    ensures item.quantity.Some? ==> "quantity" in fields
    ensures "discountPercent" !in fields ==> item.discountPercent == Some(0.0)
  {
    PayloadItem(ParseIntField(fields, "bookTitleId"), ParseIntField(fields, "quantity"), Discount(fields, parseFloat))
  }

  /** The payload of `handleSubmitOrder`: the parsed customer id and one item
      per line, in line order. */
  function OrderPayload(customerId: Value, lines: seq<map<string, Value>>,
                        parseFloat: string -> Option<real>): (p: Payload)
    ensures p.customerId == ParseIntValue(customerId)
    ensures |p.items| == |lines|
  {
    Payload(ParseIntValue(customerId), Map(lines, line => ItemPayload(line, parseFloat)))
  }

  /** A line left blank sends no book id and no quantity (`NaN`) and a
      discount of 0. */
  lemma BlankLinePayload(parseFloat: string -> Option<real>)
    ensures ItemPayload(BlankLine, parseFloat) == PayloadItem(None, None, Some(0.0))
  {
    assert "bookTitleId" in BlankLine && BlankLine["bookTitleId"] == Text("");
    assert "quantity" in BlankLine && BlankLine["quantity"] == Text("");
    assert Get(BlankLine, "discountPercent") == Some(Number(0));
  }

  /** A line filled in with decimal integers and no discount sends those
      numbers and a discount of 0. */
  lemma FilledLinePayload(bookTitleId: int, quantity: int, parseFloat: string -> Option<real>)
    ensures ItemPayload(BlankLine["bookTitleId" := Text(IntToString(bookTitleId))]
                                 ["quantity" := Text(IntToString(quantity))], parseFloat)
            == PayloadItem(Some(bookTitleId), Some(quantity), Some(0.0))
  {
    var line := BlankLine["bookTitleId" := Text(IntToString(bookTitleId))]["quantity" := Text(IntToString(quantity))];
    assert line["bookTitleId"] == Text(IntToString(bookTitleId));
    assert line["quantity"] == Text(IntToString(quantity));
    assert Get(line, "discountPercent") == Some(Number(0));
    ParseIntFieldOfDecimal(line, "bookTitleId", bookTitleId);
    ParseIntFieldOfDecimal(line, "quantity", quantity);
  }

  /** Each line gives the item at its own position. */
  lemma PayloadItems(customerId: Value, lines: seq<map<string, Value>>, parseFloat: string -> Option<real>)
    ensures forall k :: 0 <= k < |lines| ==>
      OrderPayload(customerId, lines, parseFloat).items[k] == ItemPayload(lines[k], parseFloat)
  {
  }

  /** Adding a line adds one blank item at the end of the payload. */
  lemma PayloadAfterAdd(customerId: Value, lines: seq<map<string, Value>>, parseFloat: string -> Option<real>)
    ensures OrderPayload(customerId, lines + [BlankLine], parseFloat).items ==
      OrderPayload(customerId, lines, parseFloat).items + [PayloadItem(None, None, Some(0.0))]
  {
    MapAppend(lines, BlankLine, line => ItemPayload(line, parseFloat));
    BlankLinePayload(parseFloat);
  }

  /** Removing a line removes exactly its item from the payload. */
  lemma PayloadAfterRemove(customerId: Value, lines: seq<map<string, Value>>, index: nat,
                           parseFloat: string -> Option<real>)
    requires index < |lines|
    ensures OrderPayload(customerId, lines[..index] + lines[index + 1..], parseFloat).items ==
      OrderPayload(customerId, lines, parseFloat).items[..index]
      + OrderPayload(customerId, lines, parseFloat).items[index + 1..]
  {
    MapRemove(lines, index, line => ItemPayload(line, parseFloat));
  }

  /** Editing one line changes only that line's item of the payload. */
  lemma PayloadAfterUpdate(customerId: Value, lines: seq<map<string, Value>>, index: nat,
                           fields: map<string, Value>, parseFloat: string -> Option<real>)
    requires index < |lines|
    ensures OrderPayload(customerId, lines[index := fields], parseFloat).items ==
      OrderPayload(customerId, lines, parseFloat).items[index := ItemPayload(fields, parseFloat)]
  {
    MapUpdate(lines, index, fields, line => ItemPayload(line, parseFloat));
  }
}
