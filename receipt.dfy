/**
 * Field extraction and total reconciliation for an analysed receipt
 * (`parseItems` in app/api/ocr/route.ts).
 *
 * The document-analysis result is loosely structured; every property that
 * the source reaches with optional chaining is an `Option` here.
 * Amounts are whole pence.
 */
module Receipt {
  import opened Wrappers

  // ---------------------------------------------------------------------
  // The consumed part of the analysis result, one datatype per level
  // ---------------------------------------------------------------------

  /** `valueCurrency`: an amount in pence and an ISO currency code. */
  datatype CurrencyValue = CurrencyValue(amount: Option<int>, currencyCode: Option<string>)

  /** A field whose value is text (`valueString`). */
  datatype StringField = StringField(valueString: Option<string>)

  /** A field whose value is a currency amount (`valueCurrency`). */
  datatype CurrencyField = CurrencyField(valueCurrency: Option<CurrencyValue>)

  /** The object inside one line-item entry. */
  datatype ItemObject = ItemObject(description: Option<StringField>, totalPrice: Option<CurrencyField>)

  /** One element of `Items.valueArray`. */
  datatype ItemEntry = ItemEntry(valueObject: Option<ItemObject>)

  /** The `Items` field. */
  datatype ItemsField = ItemsField(valueArray: Option<seq<ItemEntry>>)

  /** The `fields` of a receipt document. */
  datatype Fields = Fields(merchantName: Option<StringField>, items: Option<ItemsField>, total: Option<CurrencyField>)

  datatype Document = Document(docType: Option<string>, fields: Option<Fields>)

  datatype AnalyzeResult = AnalyzeResult(documents: Option<seq<Document>>)

  /** What the analysis step hands to the parser: `{ analyzeResult }`. */
  datatype AnalysisResult = AnalysisResult(analyzeResult: Option<AnalyzeResult>)

  /** An extracted line item. */
  datatype LineItem = LineItem(name: string, price: int)

  /** The parser's output `{ items, total }`. */
  datatype Parsed = Parsed(items: seq<LineItem>, total: int)

  const UnknownItem: string := "Unknown Item"

  // ---------------------------------------------------------------------
  // Accessors with the source's fallbacks
  // ---------------------------------------------------------------------

  /** `result?.analyzeResult?.documents`, with a missing list read as empty. */
  function Documents(r: AnalysisResult): (ds: seq<Document>)
    ensures r.analyzeResult.Some? && r.analyzeResult.value.documents.Some? ==> ds == r.analyzeResult.value.documents.value
    ensures r.analyzeResult.None? || r.analyzeResult.value.documents.None? ==> ds == []
  {
    match r.analyzeResult
    case None => []
    case Some(a) => a.documents.GetOr([])
  }

  /** `document.fields || {}` */
  function FieldsOf(d: Document): (f: Fields)
    ensures d.fields.Some? ==> f == d.fields.value
    ensures d.fields.None? ==> f.merchantName.None? && f.items.None? && f.total.None?
  {
    d.fields.GetOr(Fields(None, None, None))
  }

  /** `fields.Items?.valueArray || []` */
  function ItemEntries(d: Document): (es: seq<ItemEntry>)
    ensures FieldsOf(d).items.Some? && FieldsOf(d).items.value.valueArray.Some? ==>
              es == FieldsOf(d).items.value.valueArray.value
    ensures FieldsOf(d).items.None? || FieldsOf(d).items.value.valueArray.None? ==> es == []
  {
    match FieldsOf(d).items
    case None => []
    case Some(f) => f.valueArray.GetOr([])
  }

  /** A text field that holds a non-empty string (JavaScript truthiness). */
  predicate HasText(f: Option<StringField>) {
    f.Some? && Truthy(f.value.valueString)
  }

  /** `f?.valueString || fallback` */
  function TextOr(f: Option<StringField>, fallback: string): (s: string)
    ensures HasText(f) ==> s == f.value.valueString.value
    ensures !HasText(f) ==> s == fallback
  {
    match f
    case Some(StringField(Some(v))) => if v != "" then v else fallback
    case _ => fallback
  }

  /** `f?.valueCurrency?.amount || 0`; an amount of 0 and a missing one are the same here. */
  function AmountOf(f: Option<CurrencyField>): (a: int)
    ensures f.Some? && f.value.valueCurrency.Some? && f.value.valueCurrency.value.amount.Some? ==>
              a == f.value.valueCurrency.value.amount.value
    ensures a != 0 ==> f.Some? && f.value.valueCurrency.Some? && f.value.valueCurrency.value.amount == Some(a)
  {
    match f
    case Some(CurrencyField(Some(CurrencyValue(Some(a), _)))) => a
    case _ => 0
  }

  /** The item name: the description, or "Unknown Item" when it is missing or empty. */
  function ItemName(o: ItemObject): (name: string)
    ensures name != ""
    ensures HasText(o.description) ==> name == o.description.value.valueString.value
    ensures !HasText(o.description) ==> name == UnknownItem
  {
    TextOr(o.description, UnknownItem)
  }

  /** The item price: the total price's amount, or 0 when missing. */
  function ItemPrice(o: ItemObject): (price: int)
    ensures o.totalPrice.None? ==> price == 0
    ensures var f := o.totalPrice;
            f.Some? && f.value.valueCurrency.Some? && f.value.valueCurrency.value.amount.Some? ==>
              price == f.value.valueCurrency.value.amount.value
    ensures price != 0 ==> o.totalPrice.Some? && o.totalPrice.value.valueCurrency.Some? &&
                           o.totalPrice.value.valueCurrency.value.amount == Some(price)
  {
    AmountOf(o.totalPrice)
  }

  /**
   * The condition under which an entry yields an item: it has an object and `name && price > 0`.
   * The name test never fails, because the name has a non-empty fallback.
   */
  predicate Qualifies(e: ItemEntry): (q: bool)
    ensures q <==> e.valueObject.Some? && ItemPrice(e.valueObject.value) > 0
  {
    e.valueObject.Some? && ItemName(e.valueObject.value) != "" && ItemPrice(e.valueObject.value) > 0
  }

  /** The item an entry contributes. */
  function ExtractItem(o: ItemObject): (it: LineItem)
    ensures it.name != ""
    ensures HasText(o.description) ==> it.name == o.description.value.valueString.value
    ensures !HasText(o.description) ==> it.name == UnknownItem
    ensures o.totalPrice.None? ==> it.price == 0
    ensures var f := o.totalPrice;
            f.Some? && f.value.valueCurrency.Some? && f.value.valueCurrency.value.amount.Some? ==>
              it.price == f.value.valueCurrency.value.amount.value
  {
    LineItem(ItemName(o), ItemPrice(o))
  }

  /** What one entry contributes to the item list: one item or nothing. */
  function KeptOf(e: ItemEntry): seq<LineItem> {
    if Qualifies(e) then [ExtractItem(e.valueObject.value)] else []
  }

  /** Every item is priced above zero and named. */
  predicate WellFormedItems(items: seq<LineItem>) {
    forall k :: 0 <= k < |items| ==> items[k].price > 0 && items[k].name != ""
  }

  /** The items kept from a list of entries, in entry order. */
  function KeptItems(es: seq<ItemEntry>): (items: seq<LineItem>)
    ensures |items| <= |es|
    ensures WellFormedItems(items)
  {
    if es == [] then [] else KeptOf(es[0]) + KeptItems(es[1..])
  }

  /** `items.reduce((sum, item) => sum + item.price, 0)`: a left fold. */
  function SumPrices(items: seq<LineItem>): (total: int)
    ensures (forall k :: 0 <= k < |items| ==> items[k].price >= 0) ==> total >= 0
    ensures (forall k :: 0 <= k < |items| ==> items[k].price > 0) && items != [] ==> total > 0
  {
    if items == [] then 0 else SumPrices(items[..|items| - 1]) + items[|items| - 1].price
  }

  /** `fields.Total?.valueCurrency?.amount || 0` */
  function ReportedTotal(d: Document): (t: int)
    ensures FieldsOf(d).total.None? ==> t == 0
    ensures var f := FieldsOf(d).total;
            f.Some? && f.value.valueCurrency.Some? && f.value.valueCurrency.value.amount.Some? ==>
              t == f.value.valueCurrency.value.amount.value
    ensures t != 0 ==> FieldsOf(d).total.Some? && FieldsOf(d).total.value.valueCurrency.Some? &&
                       FieldsOf(d).total.value.valueCurrency.value.amount == Some(t)
  {
    AmountOf(FieldsOf(d).total)
  }

  /** `documents[0].fields.MerchantName.valueString`, when it is there. */
  function MerchantName(r: AnalysisResult): (m: Option<string>)
    ensures Documents(r) == [] ==> m.None?
    ensures Documents(r) != [] && FieldsOf(Documents(r)[0]).merchantName.Some? ==>
              m == FieldsOf(Documents(r)[0]).merchantName.value.valueString
    ensures m.Some? ==> FieldsOf(Documents(r)[0]).merchantName == Some(StringField(m))
  {
    if Documents(r) == [] then None
    else
      match FieldsOf(Documents(r)[0]).merchantName
      case Some(StringField(Some(m))) => Some(m)
      case _ => None
  }

  // ---------------------------------------------------------------------
  // Specification of parseItems
  // ---------------------------------------------------------------------

  /** What `parseItems` returns for an analysis result. */
  function Parse(r: AnalysisResult): (p: Parsed)
    ensures Documents(r) == [] ==> p == Parsed([], 0)
    ensures WellFormedItems(p.items)
    ensures Documents(r) != [] && ReportedTotal(Documents(r)[0]) > 0 ==>
              p.total == ReportedTotal(Documents(r)[0])
    ensures (Documents(r) == [] || ReportedTotal(Documents(r)[0]) <= 0) ==>
              p.total == SumPrices(p.items) && p.total >= 0 && (p.total == 0 <==> p.items == [])
  {
    if Documents(r) == [] then Parsed([], 0)
    else
      var d := Documents(r)[0];
      var items := KeptItems(ItemEntries(d));
      var reported := ReportedTotal(d);
      if reported > 0 then Parsed(items, reported)
      else
        SumOfWellFormed(items);
        Parsed(items, SumPrices(items))
  }

  // ---------------------------------------------------------------------
  // Lemmas
  // ---------------------------------------------------------------------

  /** Extraction distributes over concatenation of the entry list. */
  lemma {:induction false} KeptItemsAppend(a: seq<ItemEntry>, b: seq<ItemEntry>)
    ensures KeptItems(a + b) == KeptItems(a) + KeptItems(b)
  {
    if a == [] {
      assert a + b == b;
    } else {
      assert (a + b)[0] == a[0];
      assert (a + b)[1..] == a[1..] + b;
      KeptItemsAppend(a[1..], b);
    }
  }

  /** One turn of the loop: an entry without an object adds nothing, otherwise `{name, price}` when `name && price > 0`. */
  lemma PushStep(a: seq<ItemEntry>, e: ItemEntry)
    ensures e.valueObject.None? ==> KeptItems(a + [e]) == KeptItems(a)
    ensures e.valueObject.Some? ==>
              var o := e.valueObject.value;
              KeptItems(a + [e]) == KeptItems(a) + if ItemName(o) != "" && ItemPrice(o) > 0
                                                   then [LineItem(ItemName(o), ItemPrice(o))] else []
  {
    KeptItemsAppend(a, [e]);
    assert KeptItems([e]) == KeptOf(e) + KeptItems([]);
  }

  /** An entry that does not qualify (no object, or a price that is not positive) is skipped. */
  lemma SkipsUnqualified(a: seq<ItemEntry>, e: ItemEntry, b: seq<ItemEntry>)
    requires !Qualifies(e)
    ensures KeptItems(a + [e] + b) == KeptItems(a) + KeptItems(b)
  {
    assert [e][1..] == [];
    assert KeptItems([e]) == [];
    KeptItemsAppend(a, [e]);
    assert KeptItems(a + [e]) == KeptItems(a);
    KeptItemsAppend(a + [e], b);
  }

  /** A qualifying entry yields exactly its item, in its place. */
  lemma KeepsQualified(a: seq<ItemEntry>, e: ItemEntry, b: seq<ItemEntry>)
    requires Qualifies(e)
    ensures KeptItems(a + [e] + b) == KeptItems(a) + [ExtractItem(e.valueObject.value)] + KeptItems(b)
  {
    assert [e][1..] == [];
    assert KeptItems([e]) == [ExtractItem(e.valueObject.value)];
    KeptItemsAppend(a, [e]);
    assert KeptItems(a + [e]) == KeptItems(a) + [ExtractItem(e.valueObject.value)];
    KeptItemsAppend(a + [e], b);
  }

  /** Every kept item comes from a qualifying entry, and every qualifying entry gives a kept item. */
  lemma {:induction false} KeptItemsMembership(es: seq<ItemEntry>, x: LineItem)
    ensures x in KeptItems(es) <==>
              exists i :: 0 <= i < |es| && Qualifies(es[i]) && ExtractItem(es[i].valueObject.value) == x
  {
    if es != [] {
      KeptItemsMembership(es[1..], x);
      if x in KeptItems(es[1..]) {
        var i :| 0 <= i < |es[1..]| && Qualifies(es[1..][i]) && ExtractItem(es[1..][i].valueObject.value) == x;
        assert es[i + 1] == es[1..][i];
      }
      if exists i :: 0 <= i < |es| && Qualifies(es[i]) && ExtractItem(es[i].valueObject.value) == x {
        var i :| 0 <= i < |es| && Qualifies(es[i]) && ExtractItem(es[i].valueObject.value) == x;
        if i > 0 {
          assert es[1..][i - 1] == es[i];
        }
      }
    }
  }

  /** Item names fall back to "Unknown Item"; a missing price becomes 0 and the entry is dropped. */
  lemma ItemFallbacks(o: ItemObject)
    ensures !HasText(o.description) ==> ExtractItem(o).name == UnknownItem
    ensures HasText(o.description) ==> ExtractItem(o).name == o.description.value.valueString.value
    ensures o.totalPrice.None? ==> ExtractItem(o).price == 0 && KeptOf(ItemEntry(Some(o))) == []
    ensures KeptOf(ItemEntry(None)) == []
  {
  }

  /** The reduce over a concatenation is the sum of the two reduces. */
  lemma {:induction false} SumPricesAppend(a: seq<LineItem>, b: seq<LineItem>)
    ensures SumPrices(a + b) == SumPrices(a) + SumPrices(b)
    decreases |b|
  {
    if b == [] {
      assert a + b == a;
    } else {
      var b' := b[..|b| - 1];
      assert (a + b)[..|a + b| - 1] == a + b';
      assert (a + b)[|a + b| - 1] == b[|b| - 1];
      SumPricesAppend(a, b');
    }
  }

  /** With positive prices the sum is non-negative, and zero exactly for the empty list. */
  lemma {:induction false} SumOfWellFormed(items: seq<LineItem>)
    requires WellFormedItems(items)
    ensures SumPrices(items) >= 0
    ensures SumPrices(items) == 0 <==> items == []
  {
    if items != [] {
      var init := items[..|items| - 1];
      assert WellFormedItems(init) by {
        forall k | 0 <= k < |init| ensures init[k].price > 0 && init[k].name != "" {
          assert init[k] == items[k];
        }
      }
      SumOfWellFormed(init);
    }
  }

  /** Only `documents[0]` is consulted: any later documents change nothing. */
  lemma FirstDocumentOnly(r: AnalysisResult, d: Document, rest: seq<Document>)
    requires Documents(r) == [d] + rest
    ensures Parse(r) == Parse(AnalysisResult(Some(AnalyzeResult(Some([d])))))
    ensures MerchantName(r) == MerchantName(AnalysisResult(Some(AnalyzeResult(Some([d])))))
  {
  }

  /** A document without fields, without `Items`, or whose `Items` has no array yields no items. */
  lemma MissingItemsAreEmpty(r: AnalysisResult)
    requires Documents(r) != []
    requires var f := FieldsOf(Documents(r)[0]); f.items.None? || f.items.value.valueArray.None?
    ensures Parse(r).items == []
    ensures ReportedTotal(Documents(r)[0]) <= 0 ==> Parse(r).total == 0
  {
  }

  /** The parsed items are the qualifying entries of the first document, in order. */
  lemma ParsedItemsAreKept(r: AnalysisResult)
    requires Documents(r) != []
    ensures Parse(r).items == KeptItems(ItemEntries(Documents(r)[0]))
  {
  }

  // ---------------------------------------------------------------------
  // The parser as the source writes it: a loop that pushes items
  // ---------------------------------------------------------------------

  /** `parseItems(result)` */
  method ParseItems(r: AnalysisResult) returns (p: Parsed)
    ensures p == Parse(r)
  {
    var documents := Documents(r);
    if |documents| == 0 {
      return Parsed([], 0);
    }
    var document := documents[0];
    var itemsArray := ItemEntries(document);
    var parsedItems: seq<LineItem> := [];
    for i := 0 to |itemsArray|
      invariant parsedItems == KeptItems(itemsArray[..i])
    {
      var entry := itemsArray[i];
      assert itemsArray[..i + 1] == itemsArray[..i] + [entry];
      PushStep(itemsArray[..i], entry);
      if entry.valueObject.None? {
        continue;
      }
      var item := entry.valueObject.value;
      var name := ItemName(item);
      var price := ItemPrice(item);
      if name != "" && price > 0 {
        parsedItems := parsedItems + [LineItem(name, price)];
      }
    }
    assert itemsArray[..|itemsArray|] == itemsArray;
    assert parsedItems == Parse(r).items;
    var total := ReportedTotal(document);
    if total <= 0 {
      total := SumPrices(parsedItems);
    }
    return Parsed(parsedItems, total);
  }

  // ---------------------------------------------------------------------
  // Worked scenarios (amounts in pence)
  // ---------------------------------------------------------------------

  function SampleEntry(description: string, amount: int): ItemEntry {
    ItemEntry(Some(ItemObject(Some(StringField(Some(description))),
                              Some(CurrencyField(Some(CurrencyValue(Some(amount), Some("GBP"))))))))
  }

  function SampleReceipt(entries: seq<ItemEntry>, total: Option<int>): AnalysisResult {
    var totalField := match total
      case None => None
      case Some(t) => Some(CurrencyField(Some(CurrencyValue(Some(t), Some("GBP")))));
    AnalysisResult(Some(AnalyzeResult(Some([
      Document(Some("receipt.retailMeal"), Some(Fields(None, Some(ItemsField(Some(entries))), totalField)))]))))
  }

  /** Milk at 1.50 and Bread at 0 with no total: Bread is dropped and the total is reconciled. */
  lemma MilkAndBread()
    ensures Parse(SampleReceipt([SampleEntry("Milk", 150), SampleEntry("Bread", 0)], None)) == Parsed([LineItem("Milk", 150)], 150)
  {
    var es := [SampleEntry("Milk", 150), SampleEntry("Bread", 0)];
    var r := SampleReceipt(es, None);
    assert Qualifies(es[0]) && !Qualifies(es[1]);
    assert es[1..] == [es[1]] && es[1..][1..] == [];
    assert KeptItems(es[1..]) == KeptOf(es[1]) + KeptItems([]) == [];
    assert KeptItems(es) == [LineItem("Milk", 150)];
    assert ItemEntries(Documents(r)[0]) == es;
    assert ReportedTotal(Documents(r)[0]) == 0;
    assert SumPrices([LineItem("Milk", 150)]) == SumPrices([]) + 150;
  }

  /** A positive reported total (12.00) wins over the item sum (9.50). */
  lemma ReportedTotalWins()
    ensures Parse(SampleReceipt([SampleEntry("Wine", 950)], Some(1200))).total == 1200
  {
  }
}
