# Content status aggregation and user tag predicates

A Dafny model of two pure pieces of the web3.storage API package:

- the status aggregator of the `statusGet` handler (`packages/api/src/status.js`):
  given the raw record the database returns for a CID, it builds the flat
  status view — the pins whose status is `Pinned`, `Pinning` or `PinQueued`,
  with their location fields inlined, and the deals of every batch holding the
  content, where a batch with an empty deal list shows one synthetic `Queued`
  deal and a batch with deals shows those whose status is `Queued`,
  `Published` or `Active`, with `chainDealId` renamed `dealId` and the batch
  `cid` renamed `dataCid`;
- the user tag predicates (`packages/api/src/utils/tags.js`): `getTagValue`,
  `hasTag` and `hasPendingTagProposal`, first-match searches over a user's tags
  and tag proposals.

Files:

- `wrappers.dfy` — `Option`, standing for both `null` and `undefined`.
- `seqs.dfy` — the JavaScript array operations the core uses (`filter`, `map`,
  `reduce` with `concat`, `find`) as functions on sequences, and their laws.
- `status.dfy` — module `Status`: the raw record, the view, and the aggregation.
- `tags.dfy` — module `Tags`: users, tags, proposals and the three predicates.

Modelling choices:

- Statuses, timestamps and CIDs are strings; the two allow-lists are
  `set<string>` constants. Nullable fields are `Option`.
- The flatten step, `reduce((a, b) => a.concat(b), [])`, is modelled as written:
  a fold from the left starting at the empty sequence (`Seqs.Flatten`). Its
  cons-wise reading is proved (`Seqs.FlattenCons`).
- The object spread `...location` is an explicit field-by-field copy; the keys
  of a location never clash with `status` and `updated`.
- A value is falsy for the tag predicates when it is `None` (`null` or
  `undefined`) or the empty string (`Tags.Truthy`).
- The record lookup is an `Option<RawContent>` argument of `Status.StatusGet`:
  `None` stands for the query finding no record.
- The aggregation is a function, so aggregating the same record twice gives the
  same view by construction.

## Model

| member | source | states |
|---|---|---|
| Seqs.Filter | packages/api/src/status.js:72 | `filter` keeps no more elements than it is given; an element is in the result exactly when it is in the input and accepted |
| Seqs.FilterAppend | packages/api/src/status.js:72 | filtering distributes over concatenation, so kept elements stay in their input order |
| Seqs.FilterKeepsAll | packages/api/src/status.js:72 | when every element is accepted, `filter` returns its input unchanged |
| Seqs.Map | packages/api/src/status.js:73 | `map` yields one image per element, at the same position |
| Seqs.MapMembership | packages/api/src/status.js:73 | a value is in the mapped sequence iff it is the image of some input element |
| Seqs.MapAppend | packages/api/src/status.js:73 | mapping distributes over concatenation |
| Seqs.Flatten | packages/api/src/status.js:98 | the left fold with `concat` from `[]` contains exactly the elements of the inner sequences |
| Seqs.FlattenAppend | packages/api/src/status.js:98 | flattening distributes over concatenation of the outer sequence |
| Seqs.FlattenCons | packages/api/src/status.js:98 | the fold puts the first inner sequence first, followed by the flattened rest |
| Seqs.FlattenLength | packages/api/src/status.js:98 | the flattened length is the sum of the inner lengths |
| Seqs.FindIndex | packages/api/src/utils/tags.js:3 | the search returns the first position whose element matches, or none when no position matches |
| Seqs.Find | packages/api/src/utils/tags.js:3 | `find` returns the first element of the list that matches, and nothing exactly when no element matches |
| Seqs.FindIndexIsFirst | packages/api/src/utils/tags.js:3 | a matching position with no earlier match is the one the search returns |
| Seqs.FindSkipsRejected | packages/api/src/utils/tags.js:3 | inserting a non-matching element anywhere leaves the result of `find` unchanged |
| Status.Pins | packages/api/src/status.js:71-73 | the view has no more pins than the record, and every view pin has status `Pinned`, `Pinning` or `PinQueued` |
| Status.PinsExactly | packages/api/src/status.js:71-73 | a view pin is exactly a recognised raw pin with `status`/`updated` kept and `peerId`/`peerName`/`region` copied from its location |
| Status.PinsAppend | packages/api/src/status.js:71-73 | the pin projection preserves the order of the raw pins |
| Status.PinsSingle | packages/api/src/status.js:72-73 | one raw pin yields its projected view pin if its status is recognised and nothing otherwise |
| Status.PinsAllShown | packages/api/src/status.js:71-73 | when all pins are recognised, the view holds the projection of each, position by position |
| Status.ShownDeals | packages/api/src/status.js:85-97 | the recognised deals of a batch number no more than its deals, and each has a recognised status, the batch's `pieceCid`, the batch `cid` as `dataCid` and the entry's `dataModelSelector` |
| Status.BatchDeals | packages/api/src/status.js:75-97 | every deal of a batch has a recognised status and the batch's `pieceCid`, `cid` as `dataCid` and the entry's `dataModelSelector`; an empty deal list gives exactly one deal, a non-empty one at most as many deals as it has |
| Status.EmptyBatchIsQueued | packages/api/src/status.js:77-84 | a batch with an empty deal list contributes exactly one `Queued` deal with the batch's piece CID, CID and selector and no `dealId`, `miner`, `activation`, `created` or `updated` |
| Status.NonEmptyBatchExactly | packages/api/src/status.js:85-97 | a batch with deals contributes exactly its recognised deals, each with `dealId = chainDealId`, `dataCid = batch.cid`, the batch's `pieceCid` and selector, and the other fields copied |
| Status.ShownDealsAppend | packages/api/src/status.js:85-86 | within a batch the recognised deals keep their original order |
| Status.ShownDealsSingle | packages/api/src/status.js:86-97 | one raw deal yields its renamed projection if its status is recognised and nothing otherwise |
| Status.NonEmptyBatchIsShownDeals | packages/api/src/status.js:77-86 | a batch whose deal list is not empty takes the filter-and-project branch, never the synthetic one |
| Status.BatchContributesNothing | packages/api/src/status.js:77-86 | a batch contributes no deal iff its deal list is non-empty and none of its deals is recognised, so no `Queued` deal is synthesised then |
| Status.Deals | packages/api/src/status.js:75-98 | every deal of the view has status `Queued`, `Published` or `Active` |
| Status.DealsCons | packages/api/src/status.js:75-98 | the first batch's contribution comes first, followed by the remaining batches' deals |
| Status.DealsAppend | packages/api/src/status.js:75-98 | the deal list is the order-preserving concatenation of the per-batch contributions |
| Status.DealsLength | packages/api/src/status.js:75-98 | the number of deals is the sum of the lengths of the per-batch contributions |
| Status.DealsExactly | packages/api/src/status.js:75-98 | a deal is in the view iff some batch entry contributes it |
| Status.Aggregate | packages/api/src/status.js:100-108 | the view takes `cid` from the request and `created`/`dagSize` from the record, its pins are the record's projected pins and its deals the flattened batch contributions, so only recognised pin and deal statuses appear |
| Status.StatusGet | packages/api/src/status.js:65-69 | a missing record yields not found and nothing else; a found record yields its aggregated view |
| Status.ExampleQueuedBatch | packages/api/src/status.js:71-108 | an `Unpinned` pin is dropped and a batch without deals shows one `Queued` deal, in a complete view |
| Status.ExampleRejectedDealThenEmptyBatch | packages/api/src/status.js:75-98 | an `Active` and a `Rejected` deal give only the `Active` one, followed by the next batch's synthetic `Queued` deal |
| Tags.FindTag | packages/api/src/utils/tags.js:3 | `user.tags?.find` returns the first tag of the user's list that matches, and nothing exactly when the list is missing or no tag matches |
| Tags.GetTagValue | packages/api/src/utils/tags.js:1-6 | the result is the default or the truthy value of a live tag with that name |
| Tags.HasTag | packages/api/src/utils/tags.js:8-14 | true iff the tag list exists and some live tag has that name and exactly that value |
| Tags.HasPendingTagProposal | packages/api/src/utils/tags.js:16-25 | true iff the proposal list exists and some proposal for that tag has no admin decision and is not deleted |
| Tags.GetTagValueFirstMatch | packages/api/src/utils/tags.js:3-4 | the first live tag with that name decides: its value if truthy, otherwise the default even when a later tag of that name has a truthy value |
| Tags.GetTagValueAbsent | packages/api/src/utils/tags.js:2-5 | with no tag list or no live tag of that name the default is returned |
| Tags.EmptyFirstValueHidesLater | packages/api/src/utils/tags.js:3-4 | a first tag with an empty value makes `getTagValue` return the default while `hasTag` finds the later truthy one |
| Tags.DeletedTagIgnored | packages/api/src/utils/tags.js:1-14 | adding or removing a deleted tag anywhere leaves `getTagValue` and `hasTag` unchanged |
| Tags.SettledProposalIgnored | packages/api/src/utils/tags.js:19-22 | adding or removing a deleted or decided proposal leaves `hasPendingTagProposal` unchanged |
| Tags.HasTagGivesValue | packages/api/src/utils/tags.js:3-12 | when `hasTag` holds for a non-empty value and no earlier live tag has that name, `getTagValue` returns that value |

## Left out

- The GraphQL query and the database call (packages/api/src/status.js:26-63): I/O; the lookup's outcome is the `Option` argument of `Status.StatusGet`.
- Building the HTTP responses with `JSONResponse` and `notFound` (packages/api/src/status.js:68,110): foreign library calls; the response is the `Status.Response` datatype.
- The difference between `null` and `undefined`, and between a key set to `undefined` and a missing key in the JSON view: both are `None`. In particular the synthetic `Queued` deal's missing fields and a raw deal's null fields look the same.
- JavaScript truthiness beyond `null`, `undefined` and the empty string, and strict equality on non-string values: tag values, deletion times and admin decisions are strings.
- Raw deal timestamps: `created` and `updated` of a raw deal are taken to be always present (database timestamps).
- Date ordering and CID validity: timestamps and CIDs are opaque strings.
