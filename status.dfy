/**
  The content status aggregator of the API's `statusGet` handler
  (packages/api/src/status.js): once the database has returned the raw
  record for a CID, it is turned into a flat view of the content's pins and
  of the storage deals of every batch that holds it.
 */
module Status {
  import opened Wrappers
  import opened Seqs

  /** Deal states that are shown; any other deal is dropped (allow-list `DEAL_STATUS`). */
  const DealStatuses: set<string> := {"Queued", "Published", "Active"}

  /** Pin states that are shown; any other pin is dropped (allow-list `PIN_STATUS`). */
  const PinStatuses: set<string> := {"Pinned", "Pinning", "PinQueued"}

  // ---------------------------------------------------------------------------
  // The raw record, as the database query returns it

  /** The storage node holding a pin. */
  datatype Location = Location(peerId: string, peerName: Option<string>, region: Option<string>)

  datatype RawPin = RawPin(status: string, updated: string, location: Location)

  /** A storage deal of a batch; `chainDealId` is unset until the deal is on chain. */
  datatype RawDeal = RawDeal(
    chainDealId: Option<nat>,
    miner: Option<string>,
    status: string,
    activation: Option<string>,
    created: string,
    updated: string)

  /** An aggregation unit: its own CID, the piece CID (once known) and its deals. */
  datatype Batch = Batch(cid: string, pieceCid: Option<string>, deals: seq<RawDeal>)

  /** Membership of the content in one batch, with the selector that locates it there. */
  datatype RawBatchEntry = RawBatchEntry(dataModelSelector: Option<string>, batch: Batch)

  /** The `findContentByCid` record. */
  datatype RawContent = RawContent(
    created: string,
    dagSize: Option<nat>,
    pins: seq<RawPin>,
    batchEntries: seq<RawBatchEntry>)

  // ---------------------------------------------------------------------------
  // The status view returned to the client

  /** A pin with its location fields inlined next to `status` and `updated`. */
  datatype PinView = PinView(
    status: string,
    updated: string,
    peerId: string,
    peerName: Option<string>,
    region: Option<string>)

  /**
    A deal of one batch, with `chainDealId` renamed to `dealId` and the batch's
    `cid` renamed to `dataCid`. Fields that the view leaves unset are `None`.
   */
  datatype DealView = DealView(
    dealId: Option<nat>,
    miner: Option<string>,
    status: string,
    pieceCid: Option<string>,
    dataCid: string,
    dataModelSelector: Option<string>,
    activation: Option<string>,
    created: Option<string>,
    updated: Option<string>)

  datatype StatusView = StatusView(
    cid: string,
    created: string,
    dagSize: Option<nat>,
    pins: seq<PinView>,
    deals: seq<DealView>)

  /** What the handler answers: not found, or the JSON status view. */
  datatype Response = NotFound | Found(view: StatusView)

  // ---------------------------------------------------------------------------
  // Pins

  predicate IsShownPin(p: RawPin) { p.status in PinStatuses }

  /** `({ status, updated, location }) => ({ status, updated, ...location })` */
  function PinOf(p: RawPin): PinView
  {
    PinView(p.status, p.updated, p.location.peerId, p.location.peerName, p.location.region)
  }

  /** The pins of the view: the recognised raw pins, projected, in their original order. */
  function Pins(pins: seq<RawPin>): (r: seq<PinView>)
    ensures |r| <= |pins|
    ensures forall v :: v in r ==> v.status in PinStatuses
  {
    var kept := Filter(IsShownPin, pins);
    assert forall i :: 0 <= i < |kept| ==> kept[i] in kept;
    Map(PinOf, kept)
  }

  /** A view pin comes from a recognised raw pin, and every recognised raw pin appears. */
  lemma PinsExactly(pins: seq<RawPin>, v: PinView)
    ensures v in Pins(pins) <==>
      exists p :: p in pins && p.status in PinStatuses &&
        v == PinView(p.status, p.updated, p.location.peerId, p.location.peerName, p.location.region)
  {
    MapMembership(PinOf, Filter(IsShownPin, pins), v);
  }

  /** The pin projection is order-preserving: it distributes over concatenation of the raw pins. */
  lemma PinsAppend(a: seq<RawPin>, b: seq<RawPin>)
    ensures Pins(a + b) == Pins(a) + Pins(b)
  {
    FilterAppend(IsShownPin, a, b);
    MapAppend(PinOf, Filter(IsShownPin, a), Filter(IsShownPin, b));
  }

  /** One raw pin yields one view pin with the same status and update time and its location inlined, or none. */
  lemma PinsSingle(p: RawPin)
    ensures Pins([p]) ==
      if p.status in PinStatuses
      then [PinView(p.status, p.updated, p.location.peerId, p.location.peerName, p.location.region)]
      else []
  {
    assert [p][1..] == [];
  }

  /** When every pin is recognised, the view keeps all of them, position by position. */
  lemma PinsAllShown(pins: seq<RawPin>)
    requires forall i :: 0 <= i < |pins| ==> pins[i].status in PinStatuses
    ensures |Pins(pins)| == |pins|
    ensures forall i :: 0 <= i < |pins| ==> Pins(pins)[i] == PinOf(pins[i])
  {
    FilterKeepsAll(IsShownPin, pins);
  }

  // ---------------------------------------------------------------------------
  // Deals of one batch entry

  predicate IsShownDeal(d: RawDeal) { d.status in DealStatuses }

  /** The synthetic deal of a batch that has no deal yet. */
  function QueuedDeal(entry: RawBatchEntry): DealView
  {
    DealView(None, None, "Queued", entry.batch.pieceCid, entry.batch.cid, entry.dataModelSelector,
             None, None, None)
  }

  /** The view of a raw deal of `entry`'s batch. */
  function DealOf(entry: RawBatchEntry, d: RawDeal): DealView
  {
    DealView(d.chainDealId, d.miner, d.status, entry.batch.pieceCid, entry.batch.cid,
             entry.dataModelSelector, d.activation, Some(d.created), Some(d.updated))
  }

  /** The recognised deals among `ds`, projected for `entry`, in their original order. */
  function ShownDeals(entry: RawBatchEntry, ds: seq<RawDeal>): (r: seq<DealView>)
    ensures |r| <= |ds|
    ensures forall v :: v in r ==>
      && v.status in DealStatuses
      && v.pieceCid == entry.batch.pieceCid
      && v.dataCid == entry.batch.cid
      && v.dataModelSelector == entry.dataModelSelector
  {
    var kept := Filter(IsShownDeal, ds);
    assert forall i :: 0 <= i < |kept| ==> kept[i] in kept;
    Map((d: RawDeal) => DealOf(entry, d), kept)
  }

  /**
    The contribution of one batch entry: one synthetic `Queued` deal when the
    batch has no deals, otherwise its recognised deals.
   */
  function BatchDeals(entry: RawBatchEntry): (r: seq<DealView>)
    ensures forall v :: v in r ==>
      && v.status in DealStatuses
      && v.pieceCid == entry.batch.pieceCid
      && v.dataCid == entry.batch.cid
      && v.dataModelSelector == entry.dataModelSelector
    ensures |entry.batch.deals| == 0 ==> |r| == 1
    ensures |entry.batch.deals| > 0 ==> |r| <= |entry.batch.deals|
  {
    if |entry.batch.deals| == 0 then [QueuedDeal(entry)]
    else ShownDeals(entry, entry.batch.deals)
  }

  /** A batch with an empty deal list contributes exactly one `Queued` deal with no deal fields. */
  lemma EmptyBatchIsQueued(entry: RawBatchEntry)
    requires entry.batch.deals == []
    ensures BatchDeals(entry) ==
      [DealView(None, None, "Queued", entry.batch.pieceCid, entry.batch.cid, entry.dataModelSelector,
                None, None, None)]
  {
  }

  /** A batch with deals contributes exactly the recognised ones, projected for the entry. */
  lemma NonEmptyBatchExactly(entry: RawBatchEntry, v: DealView)
    requires entry.batch.deals != []
    ensures v in BatchDeals(entry) <==>
      exists d :: d in entry.batch.deals && d.status in DealStatuses &&
        v == DealView(d.chainDealId, d.miner, d.status, entry.batch.pieceCid, entry.batch.cid,
                      entry.dataModelSelector, d.activation, Some(d.created), Some(d.updated))
  {
    MapMembership((d: RawDeal) => DealOf(entry, d), Filter(IsShownDeal, entry.batch.deals), v);
  }

  /** Within a batch the deal projection is order-preserving. */
  lemma ShownDealsAppend(entry: RawBatchEntry, a: seq<RawDeal>, b: seq<RawDeal>)
    ensures ShownDeals(entry, a + b) == ShownDeals(entry, a) + ShownDeals(entry, b)
  {
    FilterAppend(IsShownDeal, a, b);
    MapAppend((d: RawDeal) => DealOf(entry, d), Filter(IsShownDeal, a), Filter(IsShownDeal, b));
  }

  /** Each raw deal becomes one view deal with the renamed fields, or none when its status is not recognised. */
  lemma ShownDealsSingle(entry: RawBatchEntry, d: RawDeal)
    ensures ShownDeals(entry, [d]) ==
      if d.status in DealStatuses
      then [DealView(d.chainDealId, d.miner, d.status, entry.batch.pieceCid, entry.batch.cid,
                     entry.dataModelSelector, d.activation, Some(d.created), Some(d.updated))]
      else []
  {
    assert [d][1..] == [];
  }

  /** A batch with deals contributes its recognised deals: `ShownDeals` of its whole deal list. */
  lemma NonEmptyBatchIsShownDeals(entry: RawBatchEntry)
    requires entry.batch.deals != []
    ensures BatchDeals(entry) == ShownDeals(entry, entry.batch.deals)
  {
  }

  /**
    A batch contributes nothing exactly when it has deals but none of them is
    recognised: unrecognised deals do not trigger the synthetic `Queued` deal.
   */
  lemma BatchContributesNothing(entry: RawBatchEntry)
    ensures BatchDeals(entry) == [] <==>
      entry.batch.deals != [] && forall d :: d in entry.batch.deals ==> d.status !in DealStatuses
  {
    var ds := entry.batch.deals;
    if ds != [] {
      var kept := Filter(IsShownDeal, ds);
      if kept != [] {
        assert kept[0] in kept;
      }
    }
  }

  // ---------------------------------------------------------------------------
  // All deals, and the assembled view

  /** The per-batch contributions, flattened in batch order. */
  function Deals(entries: seq<RawBatchEntry>): (r: seq<DealView>)
    ensures forall v :: v in r ==> v.status in DealStatuses
  {
    var perBatch := Map(BatchDeals, entries);
    assert forall i :: 0 <= i < |perBatch| ==> perBatch[i] == BatchDeals(entries[i]);
    Flatten(perBatch)
  }

  /** The first batch's contribution comes first, followed by the rest's. */
  lemma DealsCons(entry: RawBatchEntry, entries: seq<RawBatchEntry>)
    ensures Deals([entry] + entries) == BatchDeals(entry) + Deals(entries)
  {
    MapAppend(BatchDeals, [entry], entries);
    FlattenCons(BatchDeals(entry), Map(BatchDeals, entries));
  }

  /** The deal list is the order-preserving concatenation of the batches' contributions. */
  lemma DealsAppend(a: seq<RawBatchEntry>, b: seq<RawBatchEntry>)
    ensures Deals(a + b) == Deals(a) + Deals(b)
  {
    MapAppend(BatchDeals, a, b);
    FlattenAppend(Map(BatchDeals, a), Map(BatchDeals, b));
  }

  /** The length of the deal list is the sum of the per-batch contribution lengths. */
  lemma DealsLength(entries: seq<RawBatchEntry>)
    ensures |Deals(entries)| == SumLengths(Map(BatchDeals, entries))
  {
    FlattenLength(Map(BatchDeals, entries));
  }

  /** Every deal of the view was contributed by some batch entry, and every contribution appears. */
  lemma DealsExactly(entries: seq<RawBatchEntry>, v: DealView)
    ensures v in Deals(entries) <==> exists i :: 0 <= i < |entries| && v in BatchDeals(entries[i])
  {
    var perBatch := Map(BatchDeals, entries);
    assert forall i :: 0 <= i < |perBatch| ==> perBatch[i] == BatchDeals(entries[i]);
  }

  /** The status view of a found record; `cid` comes from the request. */
  function Aggregate(cid: string, raw: RawContent): (r: StatusView)
    ensures r.cid == cid && r.created == raw.created && r.dagSize == raw.dagSize
    ensures |r.pins| <= |raw.pins|
    ensures forall v :: v in r.pins ==> v.status in PinStatuses
    ensures forall v :: v in r.deals ==> v.status in DealStatuses
    ensures r.pins == Pins(raw.pins) && r.deals == Deals(raw.batchEntries)
  {
    StatusView(cid, raw.created, raw.dagSize, Pins(raw.pins), Deals(raw.batchEntries))
  }

  /**
    The handler after the lookup: no record means not found and nothing is
    aggregated; otherwise the aggregated view of the record.
   */
  function StatusGet(cid: string, record: Option<RawContent>): (r: Response)
    ensures r.NotFound? <==> record.None?
    ensures r.Found? ==>
      && r.view.cid == cid
      && r.view.created == record.value.created
      && r.view.dagSize == record.value.dagSize
      && r.view.pins == Pins(record.value.pins)
      && r.view.deals == Deals(record.value.batchEntries)
  {
    match record
    case None => NotFound
    case Some(raw) => Found(Aggregate(cid, raw))
  }

  // ---------------------------------------------------------------------------
  // Worked examples

  /** An unrecognised pin is dropped, and a batch without deals shows one `Queued` deal. */
  lemma ExampleQueuedBatch()
    ensures var here := Location("peer-1", Some("node-a"), None);
      var raw := RawContent("2021-01-01", Some(12),
        [RawPin("Pinning", "t1", here), RawPin("Unpinned", "t2", here)],
        [RawBatchEntry(Some("Links/0"), Batch("batch-1", Some("piece-1"), []))]);
      Aggregate("content-1", raw) == StatusView("content-1", "2021-01-01", Some(12),
        [PinView("Pinning", "t1", "peer-1", Some("node-a"), None)],
        [DealView(None, None, "Queued", Some("piece-1"), "batch-1", Some("Links/0"), None, None, None)])
  {
    var here := Location("peer-1", Some("node-a"), None);
    var p1, p2 := RawPin("Pinning", "t1", here), RawPin("Unpinned", "t2", here);
    PinsAppend([p1], [p2]);
    assert [p1, p2] == [p1] + [p2];
    PinsSingle(p1);
    PinsSingle(p2);
    var e := RawBatchEntry(Some("Links/0"), Batch("batch-1", Some("piece-1"), []));
    DealsCons(e, []);
  }

  /**
    A rejected deal is dropped without a synthetic deal taking its place, and
    a later batch without deals still gets its `Queued` deal, after the first batch's.
   */
  lemma ExampleRejectedDealThenEmptyBatch()
    ensures var active := RawDeal(Some(7), Some("f01"), "Active", Some("t3"), "t1", "t2");
      var rejected := RawDeal(None, Some("f02"), "Rejected", None, "t1", "t2");
      var first := RawBatchEntry(None, Batch("batch-1", Some("piece-1"), [active, rejected]));
      var second := RawBatchEntry(None, Batch("batch-2", None, []));
      Deals([first, second]) == [
        DealView(Some(7), Some("f01"), "Active", Some("piece-1"), "batch-1", None, Some("t3"), Some("t1"), Some("t2")),
        DealView(None, None, "Queued", None, "batch-2", None, None, None, None)]
  {
    var active := RawDeal(Some(7), Some("f01"), "Active", Some("t3"), "t1", "t2");
    var rejected := RawDeal(None, Some("f02"), "Rejected", None, "t1", "t2");
    var first := RawBatchEntry(None, Batch("batch-1", Some("piece-1"), [active, rejected]));
    var second := RawBatchEntry(None, Batch("batch-2", None, []));
    assert [active, rejected] == [active] + [rejected];
    ShownDealsAppend(first, [active], [rejected]);
    ShownDealsSingle(first, active);
    ShownDealsSingle(first, rejected);
    assert [first, second] == [first] + [second];
    DealsCons(first, [second]);
    DealsCons(second, []);
  }
}
