/**
 * The customer's "Place Bulk Order" form: a list of lines with a book id and
 * a quantity, the request payload built from them, and the title lookup
 * shown next to each book id. Loading the catalog, sending the request and
 * the navigation afterwards are not part of the model.
 */
module PlaceOrder {
  import opened Wrappers
  import opened JsStrings
  import opened FormLines

  /** A new line: empty book id and quantity */
  const BlankLine: map<string, Value> := map["bookTitleId" := Text(""), "quantity" := Text("")]

  /** One item of the bulk-order request: a book id and a quantity, nothing
      else */
  datatype BulkItem = BulkItem(bookTitleId: Option<int>, quantity: Option<int>)

  class BulkOrderForm {
    var items: seq<Line>

    /** There is always at least one line, and no line object is listed
        twice. */
    ghost predicate Valid()
      reads this
    {
      |items| >= 1 && Distinct(items)
    }

    /** The form starts with exactly one blank line. */
    constructor ()
      ensures Valid()
      ensures Contents(items) == [BlankLine]
    {
      var line := new Line(BlankLine);
      items := [line];
    }

    /** `handleAddItem`: one new blank line at the end; the existing lines
        are the same objects with the same contents. */
    method AddItem()
      requires Valid()
      modifies this
      ensures Valid()
      ensures |items| == |old(items)| + 1 && items[..|old(items)|] == old(items)
      ensures fresh(items[|items| - 1])
      ensures Contents(items) == old(Contents(items)) + [BlankLine]
    {
      var line := new Line(BlankLine);
      items := items + [line];
    }

    /** `updateItem(index, field, value)`: assigns one property of one line
        object in place; every other line and property is unchanged. */
    method UpdateItem(index: nat, field: string, value: string)
      requires Valid() && index < |items|
      modifies items[index]
      ensures Valid()
      ensures Contents(items) == old(Contents(items))[index := old(items[index].fields)[field := Text(value)]]
    {
      var updated := items;
      updated[index].fields := updated[index].fields[field := Text(value)];
    }

    /** The remove control of line `index`, offered only while there is more
        than one line: exactly that line goes, the others keep their order
        and contents, and the list never becomes empty. */
    method RemoveItem(index: nat)
      requires Valid() && |items| > 1 && index < |items|
      modifies this
      ensures Valid()
      ensures items == WithoutIndex(old(items), index)
      ensures Contents(items) == old(Contents(items))[..index] + old(Contents(items))[index + 1..]
    {
      DistinctWithoutIndex(items, index);
      WithoutIndexRemovesOne(items, index);
      items := WithoutIndex(items, index);
    }
  }

  /** One item of the payload: a number is only sent for a property the line
      has. */
  function ItemPayload(fields: map<string, Value>): (item: BulkItem)
    ensures item.bookTitleId.Some? ==> "bookTitleId" in fields
    ensures item.quantity.Some? ==> "quantity" in fields
  {
    BulkItem(ParseIntField(fields, "bookTitleId"), ParseIntField(fields, "quantity"))
  }

  /** The payload of `handleSubmit`: one item per line, in line order */
  function BulkPayload(lines: seq<map<string, Value>>): (p: seq<BulkItem>)
    ensures |p| == |lines|
  {
    Map(lines, ItemPayload)
  }

  /** Each line gives the item at its own position: its parsed book id and
      quantity, and any other property of the line is not sent. */
  lemma BulkPayloadItems(lines: seq<map<string, Value>>, k: nat, extra: string, v: Value)
    requires k < |lines|
    requires extra != "bookTitleId" && extra != "quantity"
    ensures BulkPayload(lines)[k] == BulkItem(ParseIntField(lines[k], "bookTitleId"), ParseIntField(lines[k], "quantity"))
    ensures BulkPayload(lines[k := lines[k][extra := v]]) == BulkPayload(lines)
  {
    var changed := lines[k][extra := v];
    assert ParseIntField(changed, "bookTitleId") == ParseIntField(lines[k], "bookTitleId");
    assert ParseIntField(changed, "quantity") == ParseIntField(lines[k], "quantity");
    MapUpdate(lines, k, changed, ItemPayload);
  }

  /** A blank line sends no book id and no quantity (`NaN`). */
  lemma BlankLinePayload()
    ensures ItemPayload(BlankLine) == BulkItem(None, None)
  {
    assert "bookTitleId" in BlankLine && BlankLine["bookTitleId"] == Text("");
    assert "quantity" in BlankLine && BlankLine["quantity"] == Text("");
  }

  /** A line filled in with decimal integers sends those numbers. */
  lemma FilledLinePayload(bookTitleId: int, quantity: int)
    ensures ItemPayload(map["bookTitleId" := Text(IntToString(bookTitleId)), "quantity" := Text(IntToString(quantity))])
            == BulkItem(Some(bookTitleId), Some(quantity))
  {
    var line := map["bookTitleId" := Text(IntToString(bookTitleId)), "quantity" := Text(IntToString(quantity))];
    assert line["bookTitleId"] == Text(IntToString(bookTitleId));
    assert line["quantity"] == Text(IntToString(quantity));
    ParseIntFieldOfDecimal(line, "bookTitleId", bookTitleId);
    ParseIntFieldOfDecimal(line, "quantity", quantity);
  }

  /** Adding a line adds one blank item at the end of the payload. */
  lemma BulkPayloadAfterAdd(lines: seq<map<string, Value>>)
    ensures BulkPayload(lines + [BlankLine]) == BulkPayload(lines) + [BulkItem(None, None)]
  {
    MapAppend(lines, BlankLine, ItemPayload);
    BlankLinePayload();
  }

  /** Removing a line removes exactly its item from the payload. */
  lemma BulkPayloadAfterRemove(lines: seq<map<string, Value>>, index: nat)
    requires index < |lines|
    ensures BulkPayload(lines[..index] + lines[index + 1..]) == BulkPayload(lines)[..index] + BulkPayload(lines)[index + 1..]
  {
    MapRemove(lines, index, ItemPayload);
  }

  /** Editing one line changes only that line's item of the payload. */
  lemma BulkPayloadAfterUpdate(lines: seq<map<string, Value>>, index: nat, fields: map<string, Value>)
    requires index < |lines|
    ensures BulkPayload(lines[index := fields]) == BulkPayload(lines)[index := ItemPayload(fields)]
  {
    MapUpdate(lines, index, fields, ItemPayload);
  }

  // ---------------------------------------------------------------------------
  // getBookTitle
  // ---------------------------------------------------------------------------

  /** A catalog entry as the book list returns it: its `bookTitleId` and `id`
      when they are numbers, `bookTitle?.title` and `title` (absent is
      `None`). */
  datatype Book = Book(bookTitleId: Option<int>, id: Option<int>, nestedTitle: Option<string>, title: Option<string>)

  /** `b.bookTitleId === n || b.id === n`; `NaN` equals nothing. */
  predicate Matches(b: Book, n: Option<int>) {
    n.Some? && (b.bookTitleId == n || b.id == n)
  }

  /** `books.find(...)`, as the index of the first matching entry */
  function FindBook(books: seq<Book>, n: Option<int>): (k: Option<nat>)
    ensures k.Some? ==> k.value < |books| && Matches(books[k.value], n)
                        && forall j :: 0 <= j < k.value ==> !Matches(books[j], n)
    ensures k.None? <==> forall j :: 0 <= j < |books| ==> !Matches(books[j], n)
    decreases |books|
  {
    if |books| == 0 then None
    else if Matches(books[0], n) then Some(0)
    else match FindBook(books[1..], n)
      case None => None
      case Some(k) => Some(k + 1)
  }

  /** `book.bookTitle?.title || book.title`, with `None` for `undefined` */
  function TitleOf(b: Book): (t: Option<string>)
    ensures b.nestedTitle.Some? && b.nestedTitle.value != "" ==> t == b.nestedTitle
    ensures !(b.nestedTitle.Some? && b.nestedTitle.value != "") ==> t == b.title
  {
    if b.nestedTitle.Some? && b.nestedTitle.value != "" then b.nestedTitle else b.title
  }

  /** `getBookTitle(id)`: the title of the first catalog entry whose
      `bookTitleId` or `id` equals `parseInt(id)`, and '' when none does
      (in particular when `id` does not parse). */
  function GetBookTitle(books: seq<Book>, id: string): (t: Option<string>)
    ensures ParseInt(id).None? ==> t == Some("")
    ensures (forall j :: 0 <= j < |books| ==> !Matches(books[j], ParseInt(id))) ==> t == Some("")
    ensures (exists j :: 0 <= j < |books| && Matches(books[j], ParseInt(id))) ==>
      exists k :: 0 <= k < |books| && Matches(books[k], ParseInt(id)) && t == TitleOf(books[k])
                  && forall j :: 0 <= j < k ==> !Matches(books[j], ParseInt(id))
  {
    match FindBook(books, ParseInt(id))
    case None => Some("")
    case Some(k) => TitleOf(books[k])
  }

  /** A match in a list is found at the same place after more entries are
      appended. */
  lemma {:induction false} FindBookAppend(books: seq<Book>, more: seq<Book>, n: Option<int>)
    requires FindBook(books, n).Some?
    ensures FindBook(books + more, n) == FindBook(books, n)
    decreases |books|
  {
    assert (books + more)[0] == books[0];
    if !Matches(books[0], n) {
      assert (books + more)[1..] == books[1..] + more;
      FindBookAppend(books[1..], more, n);
    }
  }

  /** An entry listed first wins over any later entry with the same id, so
      appending entries never changes a title that is already found. */
  lemma FirstEntryWins(books: seq<Book>, more: seq<Book>, id: string)
    requires exists j :: 0 <= j < |books| && Matches(books[j], ParseInt(id))
    ensures GetBookTitle(books + more, id) == GetBookTitle(books, id)
  {
    FindBookAppend(books, more, ParseInt(id));
    var k := FindBook(books, ParseInt(id)).value;
    assert (books + more)[k] == books[k];
  }

  /** The first matching entry is the one `find` returns. */
  lemma FindBookFirst(books: seq<Book>, n: Option<int>, k: nat)
    requires k < |books| && Matches(books[k], n)
    requires forall j :: 0 <= j < k ==> !Matches(books[j], n)
    ensures FindBook(books, n) == Some(k)
  {
  }

  /** A book id typed in decimal finds the first entry that carries that
      id, as `bookTitleId` or as `id`. */
  lemma TitleOfTypedId(books: seq<Book>, n: int, k: nat)
    requires k < |books| && Matches(books[k], Some(n))
    requires forall j :: 0 <= j < k ==> !Matches(books[j], Some(n))
    ensures GetBookTitle(books, IntToString(n)) == TitleOf(books[k])
  {
    ParseIntOfIntToString(n);
    FindBookFirst(books, Some(n), k);
  }
}
