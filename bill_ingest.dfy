/**
 * The OCR endpoint (`POST` in app/api/ocr/route.ts): request validation,
 * the default bill name, and one atomic batch that creates the bill and
 * one record per extracted item under
 * communities/{communityId}/bills/{billId}[/items/{itemId}].
 *
 * Downloading the image and running the document analysis are one
 * parameter, `analysis`, holding either the analysis result or the
 * message of the error either step raised. The bill id (`uuidv4`), the
 * clock (`Date.now`, `toLocaleString`) and the item keys generated by
 * `itemsCol.doc()` are parameters too.
 */
module BillIngest {
  import opened Wrappers
  import opened Receipt

  /** The JSON body; `None` is a property that is absent. */
  datatype Request = Request(
    communityId: Option<string>,
    storagePath: Option<string>,
    createdBy: Option<string>,
    exchangeRateGBPToCNY: Option<real>)

  /** A body that passed validation, with the exchange rate defaulted. */
  datatype ValidRequest = ValidRequest(
    communityId: string,
    storagePath: string,
    createdBy: string,
    exchangeRateGBPToCNY: real)

  datatype Bill = Bill(
    id: string,
    communityId: string,
    createdBy: string,
    createdAt: int,
    billName: string,
    currency: string,
    exchangeRateGBPToCNY: real,
    participants: seq<string>,
    total: int,
    storagePath: string)

  /** A persisted line item; `claimedBy == None` means shared. */
  datatype Item = Item(id: string, name: string, price: int, claimedBy: Option<string>)

  datatype Record = BillRecord(bill: Bill) | ItemRecord(item: Item)

  /** Document paths of the store. */
  datatype DocPath =
    | BillDoc(communityId: string, billId: string)
    | ItemDoc(communityId: string, billId: string, itemId: string)

  /** One `batch.set(ref, data)`. */
  datatype Write = Write(path: DocPath, record: Record)

  type Docs = map<DocPath, Record>

  datatype Response =
    | Created(billId: string, itemsCount: nat, total: int)
    | BadRequest(error: string)
    | ServerError(error: string)

  const DefaultExchangeRate: real := 9.0
  const BillCurrency: string := "GBP"
  const MissingFieldsMessage: string := "Missing communityId, storagePath or createdBy"
  const InternalErrorMessage: string := "Internal error"

  /** HTTP status of a response: `{ status: 400 }`, `{ status: 500 }`, or the default 200 of `NextResponse.json`. */
  function Status(resp: Response): (s: int)
    ensures resp.Created? <==> s == 200
    ensures resp.BadRequest? <==> s == 400
    ensures resp.ServerError? <==> s == 500
  {
    match resp
    case Created(_, _, _) => 200
    case BadRequest(_) => 400
    case ServerError(_) => 500
  }

  /** The check on the required fields and the default for the exchange rate. */
  function ValidateRequest(body: Request): (v: Option<ValidRequest>)
    ensures v.Some? <==> Truthy(body.communityId) && Truthy(body.storagePath) && Truthy(body.createdBy)
    ensures v.Some? ==>
              && v.value.communityId == body.communityId.value
              && v.value.storagePath == body.storagePath.value
              && v.value.createdBy == body.createdBy.value
    ensures v.Some? && body.exchangeRateGBPToCNY.None? ==> v.value.exchangeRateGBPToCNY == DefaultExchangeRate
    ensures v.Some? && body.exchangeRateGBPToCNY.Some? ==>
              v.value.exchangeRateGBPToCNY == body.exchangeRateGBPToCNY.value
  {
    if !Truthy(body.communityId) || !Truthy(body.storagePath) || !Truthy(body.createdBy) then None
    else Some(ValidRequest(body.communityId.value, body.storagePath.value, body.createdBy.value,
                           body.exchangeRateGBPToCNY.GetOr(DefaultExchangeRate)))
  }

  /** The message of a 500 response: the error's message, or "Internal error" when it has none. */
  function ErrorMessage(message: string): (m: string)
    ensures m != ""
    ensures message != "" ==> m == message
    ensures message == "" ==> m == InternalErrorMessage
  {
    if message != "" then message else InternalErrorMessage
  }

  /** The default bill name: "<merchant> Receipt", or "Bill <time>" when there is no merchant name. */
  function BillName(r: AnalysisResult, localeNow: string): (name: string)
    ensures Truthy(MerchantName(r)) ==> name == MerchantName(r).value + " Receipt"
    ensures !Truthy(MerchantName(r)) ==> name == "Bill " + localeNow
  {
    match MerchantName(r)
    case Some(m) => if m != "" then m + " Receipt" else "Bill " + localeNow
    case None => "Bill " + localeNow
  }

  /** The bill record written for a validated request and a parse. */
  function NewBill(v: ValidRequest, p: Parsed, billId: string, createdAt: int, billName: string): (b: Bill)
    ensures b.id == billId && b.communityId == v.communityId && b.storagePath == v.storagePath
    ensures b.createdBy == v.createdBy && b.participants == [v.createdBy]
    ensures b.currency == "GBP" && b.exchangeRateGBPToCNY == v.exchangeRateGBPToCNY
    ensures b.total == p.total && b.billName == billName && b.createdAt == createdAt
  {
    Bill(billId, v.communityId, v.createdBy, createdAt, billName, BillCurrency,
         v.exchangeRateGBPToCNY, [v.createdBy], p.total, v.storagePath)
  }

  /** The write that stores one extracted item under the bill. */
  function ItemWrite(communityId: string, billId: string, it: LineItem, key: string): (w: Write)
    ensures w.path.ItemDoc? && w.path.communityId == communityId && w.path.billId == billId
    ensures w.path.itemId == key && w.record.ItemRecord? && w.record.item.id == key
    ensures w.record.item.name == it.name && w.record.item.price == it.price && w.record.item.claimedBy.None?
  {
    Write(ItemDoc(communityId, billId, key), ItemRecord(Item(key, it.name, it.price, None)))
  }

  /** The whole batch: the bill first, then one item write per parsed item, in order. */
  function BillBatch(v: ValidRequest, p: Parsed, billId: string, createdAt: int, billName: string,
                     itemKey: nat -> string): (batch: seq<Write>)
    ensures |batch| == 1 + |p.items|
    ensures batch[0] == Write(BillDoc(v.communityId, billId), BillRecord(NewBill(v, p, billId, createdAt, billName)))
    ensures forall k :: 1 <= k < |batch| ==> batch[k] == ItemWrite(v.communityId, billId, p.items[k - 1], itemKey(k - 1))
  {
    [Write(BillDoc(v.communityId, billId), BillRecord(NewBill(v, p, billId, createdAt, billName)))]
      + seq(|p.items|, k requires 0 <= k < |p.items| => ItemWrite(v.communityId, billId, p.items[k], itemKey(k)))
  }

  /** The store after the batch's writes, applied in order (a later write to a path wins). */
  function ApplyWrites(docs: Docs, batch: seq<Write>): (after: Docs)
    ensures batch != [] ==> batch[|batch| - 1].path in after && after[batch[|batch| - 1].path] == batch[|batch| - 1].record
    ensures forall q :: q in docs ==> q in after
    decreases |batch|
  {
    if batch == [] then docs else ApplyWrites(docs[batch[0].path := batch[0].record], batch[1..])
  }

  /** The paths a batch writes. */
  function PathsOf(batch: seq<Write>): set<DocPath> {
    set i | 0 <= i < |batch| :: batch[i].path
  }

  predicate DistinctPaths(batch: seq<Write>) {
    forall i, j :: 0 <= i < j < |batch| ==> batch[i].path != batch[j].path
  }

  /** The generated item keys `itemKey(0) .. itemKey(n - 1)` are pairwise different. */
  predicate DistinctKeys(itemKey: nat -> string, n: nat) {
    forall i: nat, j: nat :: i < j < n ==> itemKey(i) != itemKey(j)
  }

  /** The documents that belong to one bill: the bill itself and its items. */
  function DocsOfBill(docs: Docs, communityId: string, billId: string): set<DocPath> {
    set q | q in docs && q.communityId == communityId && q.billId == billId
  }

  // ---------------------------------------------------------------------
  // The store and its atomic commit
  // ---------------------------------------------------------------------

  /** The document database, as the map from paths to records. */
  class Store {
    var docs: Docs

    constructor (initial: Docs)
      ensures docs == initial
    {
      docs := initial;
    }

    /** `batch.commit()`: all writes land together, or, when the store reports `failure`, none does. */
    method Commit(batch: seq<Write>, failure: Option<string>) returns (error: Option<string>)
      modifies this
      ensures error == failure
      ensures failure.None? ==> docs == ApplyWrites(old(docs), batch)
      ensures failure.Some? ==> docs == old(docs)
    {
      if failure.Some? {
        return failure;
      }
      docs := ApplyWrites(docs, batch);
      return None;
    }
  }

  /** The endpoint. `commitFailure` is the error the store reports on commit, if any. */
  method Post(store: Store, body: Request, analysis: Result<AnalysisResult, string>, billId: string,
              now: int, localeNow: string, itemKey: nat -> string, commitFailure: Option<string>)
    returns (resp: Response)
    modifies store
    ensures Status(resp) == (if ValidateRequest(body).None? then 400
                             else if analysis.Failure? || commitFailure.Some? then 500
                             else 200)
    ensures ValidateRequest(body).None? ==>
              resp == BadRequest(MissingFieldsMessage) && store.docs == old(store.docs)
    ensures ValidateRequest(body).Some? && analysis.Failure? ==>
              resp == ServerError(ErrorMessage(analysis.error)) && store.docs == old(store.docs)
    ensures ValidateRequest(body).Some? && analysis.Success? && commitFailure.Some? ==>
              resp == ServerError(ErrorMessage(commitFailure.value)) && store.docs == old(store.docs)
    ensures ValidateRequest(body).Some? && analysis.Success? && commitFailure.None? ==>
              var p := Parse(analysis.value);
              && resp == Created(billId, |p.items|, p.total)
              && store.docs == ApplyWrites(old(store.docs),
                                           BillBatch(ValidateRequest(body).value, p, billId, now,
                                                     BillName(analysis.value, localeNow), itemKey))
  {
    var v := ValidateRequest(body);
    if v.None? {
      return BadRequest(MissingFieldsMessage);
    }
    var req := v.value;
    if analysis.Failure? {
      return ServerError(ErrorMessage(analysis.error));
    }
    var result := analysis.value;
    var parsed := ParseItems(result);
    var billName := BillName(result, localeNow);
    var billWrite := Write(BillDoc(req.communityId, billId), BillRecord(NewBill(req, parsed, billId, now, billName)));
    var batch := [billWrite];
    for idx := 0 to |parsed.items|
      invariant |batch| == 1 + idx
      invariant batch[0] == billWrite
      invariant forall k :: 1 <= k < |batch| ==> batch[k] == ItemWrite(req.communityId, billId, parsed.items[k - 1], itemKey(k - 1))
    {
      var it := parsed.items[idx];
      var key := itemKey(idx);
      batch := batch + [Write(ItemDoc(req.communityId, billId, key), ItemRecord(Item(key, it.name, it.price, None)))];
    }
    BatchByElements(batch, req, parsed, billId, now, billName, itemKey);
    var err := store.Commit(batch, commitFailure);
    if err.Some? {
      return ServerError(ErrorMessage(err.value));
    }
    return Created(billId, |parsed.items|, parsed.total);
  }

  /** The bill write followed by the item writes, position by position, is the batch. */
  lemma BatchByElements(batch: seq<Write>, v: ValidRequest, p: Parsed, billId: string, createdAt: int,
                        billName: string, itemKey: nat -> string)
    requires |batch| == 1 + |p.items|
    requires batch[0] == Write(BillDoc(v.communityId, billId), BillRecord(NewBill(v, p, billId, createdAt, billName)))
    requires forall k :: 1 <= k < |batch| ==> batch[k] == ItemWrite(v.communityId, billId, p.items[k - 1], itemKey(k - 1))
    ensures batch == BillBatch(v, p, billId, createdAt, billName, itemKey)
  {
    var b := BillBatch(v, p, billId, createdAt, billName, itemKey);
    assert |b| == |batch|;
    assert forall i :: 0 <= i < |batch| ==> batch[i] == b[i];
  }

  // ---------------------------------------------------------------------
  // Lemmas about the batch and the committed store
  // ---------------------------------------------------------------------

  /** Applying a batch adds exactly its paths and leaves every other document as it was. */
  lemma {:induction false} ApplyWritesFrame(docs: Docs, batch: seq<Write>)
    ensures ApplyWrites(docs, batch).Keys == docs.Keys + PathsOf(batch)
    ensures forall q :: q in docs && q !in PathsOf(batch) ==> ApplyWrites(docs, batch)[q] == docs[q]
    decreases |batch|
  {
    if batch != [] {
      var rest := batch[1..];
      ApplyWritesFrame(docs[batch[0].path := batch[0].record], rest);
      assert PathsOf(batch) == {batch[0].path} + PathsOf(rest) by {
        forall q | q in PathsOf(batch) ensures q in {batch[0].path} + PathsOf(rest) {
          var i :| 0 <= i < |batch| && batch[i].path == q;
          if i > 0 { assert rest[i - 1] == batch[i]; }
        }
        forall q | q in PathsOf(rest) ensures q in PathsOf(batch) {
          var i :| 0 <= i < |rest| && rest[i].path == q;
          assert batch[i + 1] == rest[i];
        }
      }
    }
  }

  /** With distinct paths, every write of the batch is what the store holds at its path afterwards. */
  lemma {:induction false} ApplyWritesDistinct(docs: Docs, batch: seq<Write>, i: nat)
    requires DistinctPaths(batch)
    requires i < |batch|
    ensures batch[i].path in ApplyWrites(docs, batch)
    ensures ApplyWrites(docs, batch)[batch[i].path] == batch[i].record
    decreases |batch|
  {
    var next := docs[batch[0].path := batch[0].record];
    var rest := batch[1..];
    ApplyWritesFrame(next, rest);
    if i == 0 {
      forall j | 0 <= j < |rest| ensures rest[j].path != batch[0].path {
        assert rest[j] == batch[j + 1];
      }
    } else {
      assert DistinctPaths(rest) by {
        forall a, b | 0 <= a < b < |rest| ensures rest[a].path != rest[b].path {
          assert rest[a] == batch[a + 1] && rest[b] == batch[b + 1];
        }
      }
      assert rest[i - 1] == batch[i];
      ApplyWritesDistinct(next, rest, i - 1);
    }
  }

  /** A batch with distinct paths writes as many documents as it has writes. */
  lemma {:induction false} PathsOfDistinctCard(batch: seq<Write>)
    requires DistinctPaths(batch)
    ensures |PathsOf(batch)| == |batch|
    decreases |batch|
  {
    if batch != [] {
      var init := batch[..|batch| - 1];
      var last := batch[|batch| - 1];
      assert DistinctPaths(init) by {
        forall a, b | 0 <= a < b < |init| ensures init[a].path != init[b].path {
          assert init[a] == batch[a] && init[b] == batch[b];
        }
      }
      PathsOfDistinctCard(init);
      assert PathsOf(batch) == PathsOf(init) + {last.path} by {
        forall q | q in PathsOf(batch) ensures q in PathsOf(init) + {last.path} {
          var i :| 0 <= i < |batch| && batch[i].path == q;
          if i < |batch| - 1 { assert init[i] == batch[i]; }
        }
        forall q | q in PathsOf(init) ensures q in PathsOf(batch) {
          var i :| 0 <= i < |init| && init[i].path == q;
          assert batch[i] == init[i];
        }
      }
      forall i | 0 <= i < |init| ensures init[i].path != last.path {
        assert init[i] == batch[i];
      }
    }
  }

  /** Distinct item keys give the batch distinct paths, all of them under the new bill. */
  lemma BatchPaths(v: ValidRequest, p: Parsed, billId: string, createdAt: int, billName: string,
                   itemKey: nat -> string)
    requires DistinctKeys(itemKey, |p.items|)
    ensures var batch := BillBatch(v, p, billId, createdAt, billName, itemKey);
            && DistinctPaths(batch)
            && forall q :: q in PathsOf(batch) ==> q.communityId == v.communityId && q.billId == billId
  {
    var batch := BillBatch(v, p, billId, createdAt, billName, itemKey);
    forall i, j | 0 <= i < j < |batch| ensures batch[i].path != batch[j].path {
      assert batch[j].path == ItemDoc(v.communityId, billId, itemKey(j - 1));
      if i > 0 {
        assert batch[i].path == ItemDoc(v.communityId, billId, itemKey(i - 1));
        var a: nat, b: nat := i - 1, j - 1;
        assert itemKey(a) != itemKey(b);
      }
    }
    forall q | q in PathsOf(batch) ensures q.communityId == v.communityId && q.billId == billId {
      var i :| 0 <= i < |batch| && batch[i].path == q;
    }
  }

  /**
   * A successful request on a store with nothing under the new bill id leaves
   * exactly 1 + itemsCount documents under it: the bill and its items.
   */
  lemma CommitWritesBillAndItems(docs: Docs, v: ValidRequest, p: Parsed, billId: string, createdAt: int,
                                 billName: string, itemKey: nat -> string)
    requires DistinctKeys(itemKey, |p.items|)
    requires DocsOfBill(docs, v.communityId, billId) == {}
    ensures var after := ApplyWrites(docs, BillBatch(v, p, billId, createdAt, billName, itemKey));
            |DocsOfBill(after, v.communityId, billId)| == 1 + |p.items|
  {
    var batch := BillBatch(v, p, billId, createdAt, billName, itemKey);
    BatchPaths(v, p, billId, createdAt, billName, itemKey);
    FreshDocsOfBill(docs, batch, v.communityId, billId);
  }

  /** A batch of distinct paths under one bill, applied where that bill has no documents, leaves exactly its writes under it. */
  lemma FreshDocsOfBill(docs: Docs, batch: seq<Write>, communityId: string, billId: string)
    requires DistinctPaths(batch)
    requires forall q :: q in PathsOf(batch) ==> q.communityId == communityId && q.billId == billId
    requires DocsOfBill(docs, communityId, billId) == {}
    ensures |DocsOfBill(ApplyWrites(docs, batch), communityId, billId)| == |batch|
  {
    var after := ApplyWrites(docs, batch);
    ApplyWritesFrame(docs, batch);
    PathsOfDistinctCard(batch);
    var under := DocsOfBill(after, communityId, billId);
    forall q | q in under ensures q in PathsOf(batch) {
      assert q !in DocsOfBill(docs, communityId, billId);
    }
    forall q | q in PathsOf(batch) ensures q in under {
      assert q in after;
    }
    assert under == PathsOf(batch);
  }

  /** What the store holds afterwards: the bill as the request and the parse describe it, and the items unclaimed. */
  lemma CommittedRecords(docs: Docs, v: ValidRequest, p: Parsed, billId: string, createdAt: int,
                         billName: string, itemKey: nat -> string)
    requires DistinctKeys(itemKey, |p.items|)
    ensures var after := ApplyWrites(docs, BillBatch(v, p, billId, createdAt, billName, itemKey));
            && BillDoc(v.communityId, billId) in after
            && after[BillDoc(v.communityId, billId)].BillRecord?
            && var b := after[BillDoc(v.communityId, billId)].bill;
            && b.id == billId && b.communityId == v.communityId && b.createdBy == v.createdBy
            && b.participants == [v.createdBy] && b.currency == "GBP"
            && b.exchangeRateGBPToCNY == v.exchangeRateGBPToCNY && b.total == p.total
            && b.billName == billName && b.storagePath == v.storagePath && b.createdAt == createdAt
    ensures var after := ApplyWrites(docs, BillBatch(v, p, billId, createdAt, billName, itemKey));
            forall k :: 0 <= k < |p.items| ==>
              && ItemDoc(v.communityId, billId, itemKey(k)) in after
              && after[ItemDoc(v.communityId, billId, itemKey(k))] ==
                 ItemRecord(Item(itemKey(k), p.items[k].name, p.items[k].price, None))
  {
    var batch := BillBatch(v, p, billId, createdAt, billName, itemKey);
    BatchPaths(v, p, billId, createdAt, billName, itemKey);
    ApplyWritesDistinct(docs, batch, 0);
    forall k | 0 <= k < |p.items|
      ensures ItemDoc(v.communityId, billId, itemKey(k)) in ApplyWrites(docs, batch)
      ensures ApplyWrites(docs, batch)[ItemDoc(v.communityId, billId, itemKey(k))] ==
              ItemRecord(Item(itemKey(k), p.items[k].name, p.items[k].price, None))
    {
      ApplyWritesDistinct(docs, batch, 1 + k);
    }
  }

  /** The merchant "Tesco" names the bill "Tesco Receipt". */
  lemma TescoReceipt(localeNow: string)
    ensures BillName(AnalysisResult(Some(AnalyzeResult(Some([
              Document(None, Some(Fields(Some(StringField(Some("Tesco"))), None, None)))])))), localeNow)
            == "Tesco Receipt"
  {
  }
}
