/** Transfer ranges per wallet pair and asset, and how hop slots follow from them. */
module TransferRanges {
  import opened Domain
  import opened Ordering
  import opened HopSearch

  datatype RangeKey = RangeKey(source: string, destination: string, kind: WalletAssetKind, assetId: string)

  datatype WalletTransferRange = WalletTransferRange(
    asOfSlot: int,
    key: RangeKey,
    firstSlot: int,
    lastSlot: int,
    transferCount: int,
    amountBaseUnits: int,
    evidenceIds: seq<string>)

  function KeyOf(t: CanonicalTransfer): RangeKey {
    RangeKey(t.sourceWallet, t.destinationWallet, t.assetKind, t.assetId)
  }

  function KindName(kind: WalletAssetKind): string {
    match kind case Native => "native" case Token => "token" case Quote => "quote"
  }

  function KeyParts(key: RangeKey): seq<string> {
    [key.source, key.destination, KindName(key.kind), key.assetId]
  }

  predicate KeyLess(a: RangeKey, b: RangeKey) {
    StringsLess(KeyParts(a), KeyParts(b))
  }

  predicate KeyLe(a: RangeKey, b: RangeKey) {
    !KeyLess(b, a)
  }

  lemma KeyOrder()
    ensures TotalPreorder(KeyLe)
    ensures forall a, b :: KeyLess(a, b) || a == b || KeyLess(b, a)
  {
    StringsOrder();
    forall a, b ensures KeyLess(a, b) || a == b || KeyLess(b, a) {
      if KeyParts(a) == KeyParts(b) {
        assert a.source == KeyParts(a)[0] == KeyParts(b)[0] == b.source;
        assert a.destination == KeyParts(a)[1] == KeyParts(b)[1] == b.destination;
        assert KindName(a.kind) == KeyParts(a)[2] == KeyParts(b)[2] == KindName(b.kind);
        assert KindName(a.kind)[0] == KindName(b.kind)[0];
        assert a.assetId == KeyParts(a)[3] == KeyParts(b)[3] == b.assetId;
      }
    }
  }

  function Group(transfers: seq<CanonicalTransfer>, key: RangeKey): seq<CanonicalTransfer> {
    Filter((t: CanonicalTransfer) => KeyOf(t) == key, transfers)
  }

  function Amounts(items: seq<CanonicalTransfer>): seq<int> {
    MapSeq((t: CanonicalTransfer) => t.amountBaseUnits, items)
  }

  function RangeFor(key: RangeKey, items: seq<CanonicalTransfer>, asOfSlot: int): WalletTransferRange
    requires items != []
  {
    WalletTransferRange(asOfSlot, key, MinOf(Slots(items)), MaxOf(Slots(items)), |items|,
                        Sum(Amounts(items)), EvidenceOf(items))
  }

  ghost predicate KeysOrdered(ranges: seq<WalletTransferRange>) {
    forall i, j :: 0 <= i < j < |ranges| ==> KeyLess(ranges[i].key, ranges[j].key)
  }

  /** The row aggregates all transfers with its key. */
  ghost predicate Aggregates(r: WalletTransferRange, transfers: seq<CanonicalTransfer>, asOfSlot: int) {
    Group(transfers, r.key) != [] && r == RangeFor(r.key, Group(transfers, r.key), asOfSlot)
  }

  ghost predicate RowsAggregate(ranges: seq<WalletTransferRange>, transfers: seq<CanonicalTransfer>, asOfSlot: int) {
    forall k :: 0 <= k < |ranges| ==> Aggregates(ranges[k], transfers, asOfSlot)
  }

  ghost predicate KeysCovered(ranges: seq<WalletTransferRange>, transfers: seq<CanonicalTransfer>) {
    forall k :: 0 <= k < |transfers| ==> HasKey(ranges, KeyOf(transfers[k]))
  }

  /** One range per key that occurs, in key order, built from all transfers with that key. */
  ghost predicate RangesOf(ranges: seq<WalletTransferRange>, transfers: seq<CanonicalTransfer>, asOfSlot: int) {
    KeysOrdered(ranges) && RowsAggregate(ranges, transfers, asOfSlot) && KeysCovered(ranges, transfers)
  }

  ghost predicate HasKey(ranges: seq<WalletTransferRange>, key: RangeKey) {
    exists k :: 0 <= k < |ranges| && ranges[k].key == key
  }

  method GroupTransfers(transfers: seq<CanonicalTransfer>)
    returns (grouped: map<RangeKey, seq<CanonicalTransfer>>, keys: seq<RangeKey>)
    ensures forall key :: key in grouped <==> Group(transfers, key) != []
    ensures forall key :: key in grouped ==> grouped[key] == Group(transfers, key)
    ensures Distinct(keys) && forall key :: key in keys <==> key in grouped
  {
    grouped, keys := map[], [];
    for i := 0 to |transfers|
      invariant forall key :: key in grouped <==> Group(transfers[..i], key) != []
      invariant forall key :: key in grouped ==> grouped[key] == Group(transfers[..i], key)
      invariant Distinct(keys) && forall key :: key in keys <==> key in grouped
    {
      var t := transfers[i];
      forall key
        ensures Group(transfers[..i + 1], key) == Group(transfers[..i], key) + if key == KeyOf(t) then [t] else []
      {
        assert transfers[..i + 1] == transfers[..i] + [t];
        FilterAppend((x: CanonicalTransfer) => KeyOf(x) == key, transfers[..i], t);
      }
      if KeyOf(t) !in grouped {
        keys := keys + [KeyOf(t)];
        grouped := grouped[KeyOf(t) := [t]];
      } else {
        grouped := grouped[KeyOf(t) := grouped[KeyOf(t)] + [t]];
      }
    }
    assert transfers[..|transfers|] == transfers;
  }

  /** The rows so far aggregate the first keys of the sorted list. */
  ghost predicate RowsFor(
    ranges: seq<WalletTransferRange>, sorted: seq<RangeKey>, transfers: seq<CanonicalTransfer>, asOfSlot: int)
  {
    && |ranges| <= |sorted|
    && (forall k :: 0 <= k < |ranges| ==> ranges[k].key == sorted[k])
    && RowsAggregate(ranges, transfers, asOfSlot)
  }

  lemma RowAppended(
    ranges: seq<WalletTransferRange>, sorted: seq<RangeKey>, row: WalletTransferRange,
    transfers: seq<CanonicalTransfer>, asOfSlot: int)
    requires RowsFor(ranges, sorted, transfers, asOfSlot) && |ranges| < |sorted|
    requires row.key == sorted[|ranges|] && Aggregates(row, transfers, asOfSlot)
    ensures RowsFor(ranges + [row], sorted, transfers, asOfSlot)
  {
  }

  lemma RowsComplete(
    ranges: seq<WalletTransferRange>, sorted: seq<RangeKey>, transfers: seq<CanonicalTransfer>, asOfSlot: int)
    requires RowsFor(ranges, sorted, transfers, asOfSlot) && |ranges| == |sorted|
    requires forall i, j :: 0 <= i < j < |sorted| ==> KeyLess(sorted[i], sorted[j])
    requires forall k :: 0 <= k < |transfers| ==> KeyOf(transfers[k]) in sorted
    ensures RangesOf(ranges, transfers, asOfSlot)
  {
    forall k | 0 <= k < |transfers| ensures HasKey(ranges, KeyOf(transfers[k])) {
      var j :| 0 <= j < |sorted| && sorted[j] == KeyOf(transfers[k]);
      assert ranges[j].key == KeyOf(transfers[k]);
    }
  }

  lemma KeysListed(transfers: seq<CanonicalTransfer>, keys: seq<RangeKey>, sorted: seq<RangeKey>)
    requires forall key :: key in keys <==> Group(transfers, key) != []
    requires multiset(sorted) == multiset(keys)
    ensures forall k :: 0 <= k < |transfers| ==> KeyOf(transfers[k]) in sorted
  {
    forall k | 0 <= k < |transfers| ensures KeyOf(transfers[k]) in sorted {
      assert transfers[k] in Group(transfers, KeyOf(transfers[k]));
      assert KeyOf(transfers[k]) in multiset(sorted);
    }
  }

  method BuildTransferRanges(transfers: seq<CanonicalTransfer>, asOfSlot: int)
    returns (ranges: seq<WalletTransferRange>)
    ensures RangesOf(ranges, transfers, asOfSlot)
  {
    var grouped, keys := GroupTransfers(transfers);
    var sorted := SortBy(KeyLe, keys);
    SortedKeys(keys);
    KeysListed(transfers, keys, sorted);
    ranges := [];
    for i := 0 to |sorted|
      invariant |ranges| == i && RowsFor(ranges, sorted, transfers, asOfSlot)
    {
      assert sorted[i] in keys;
      var row := RangeFor(sorted[i], grouped[sorted[i]], asOfSlot);
      RowAppended(ranges, sorted, row, transfers, asOfSlot);
      ranges := ranges + [row];
    }
    RowsComplete(ranges, sorted, transfers, asOfSlot);
  }

  lemma SortedKeys(keys: seq<RangeKey>)
    requires Distinct(keys)
    ensures var sorted := SortBy(KeyLe, keys);
            && multiset(sorted) == multiset(keys)
            && (forall k :: 0 <= k < |sorted| ==> sorted[k] in keys)
            && forall i, j :: 0 <= i < j < |sorted| ==> KeyLess(sorted[i], sorted[j])
  {
    KeyOrder();
    var sorted := SortBy(KeyLe, keys);
    SortOrdered(KeyLe, keys);
    SortMultiset(KeyLe, keys);
    DistinctMultiset(keys, sorted);
    forall k | 0 <= k < |sorted| ensures sorted[k] in keys {
      assert sorted[k] in multiset(keys);
    }
  }

  // ---------- conservation ----------

  function Counts(ranges: seq<WalletTransferRange>): seq<int> {
    MapSeq((r: WalletTransferRange) => r.transferCount, ranges)
  }

  function RangeAmounts(ranges: seq<WalletTransferRange>): seq<int> {
    MapSeq((r: WalletTransferRange) => r.amountBaseUnits, ranges)
  }

  /** Transfers whose key is not `key`. */
  function Others(transfers: seq<CanonicalTransfer>, key: RangeKey): seq<CanonicalTransfer> {
    Filter((t: CanonicalTransfer) => KeyOf(t) != key, transfers)
  }

  lemma {:induction false} GroupSplits(transfers: seq<CanonicalTransfer>, key: RangeKey)
    ensures |Group(transfers, key)| + |Others(transfers, key)| == |transfers|
    ensures Sum(Amounts(Group(transfers, key))) + Sum(Amounts(Others(transfers, key))) == Sum(Amounts(transfers))
  {
    if transfers != [] {
      var rest := transfers[1..];
      GroupSplits(rest, key);
      AmountsHead(transfers);
      AmountsHead(Group(transfers, key));
      AmountsHead(Others(transfers, key));
    }
  }

  lemma AmountsHead(items: seq<CanonicalTransfer>)
    ensures items != [] ==> Sum(Amounts(items)) == items[0].amountBaseUnits + Sum(Amounts(items[1..]))
  {
    if items != [] {
      assert Amounts(items)[1..] == Amounts(items[1..]);
    }
  }

  lemma {:induction false} GroupWithin(transfers: seq<CanonicalTransfer>, key: RangeKey, other: RangeKey)
    requires key != other
    ensures Group(Others(transfers, key), other) == Group(transfers, other)
  {
    if transfers != [] {
      GroupWithin(transfers[1..], key, other);
    }
  }

  lemma SomeRange(ranges: seq<WalletTransferRange>, transfers: seq<CanonicalTransfer>, asOfSlot: int)
    requires RangesOf(ranges, transfers, asOfSlot) && transfers != []
    ensures ranges != []
  {
    assert HasKey(ranges, KeyOf(transfers[0]));
  }

  /** The ranges account for every transfer and every base unit exactly once. */
  lemma {:induction false} Conserved(ranges: seq<WalletTransferRange>, transfers: seq<CanonicalTransfer>, asOfSlot: int)
    requires RangesOf(ranges, transfers, asOfSlot)
    ensures Sum(Counts(ranges)) == |transfers|
    ensures Sum(RangeAmounts(ranges)) == Sum(Amounts(transfers))
    decreases |ranges|
  {
    if transfers != [] {
      SomeRange(ranges, transfers, asOfSlot);
    }
    if ranges != [] {
      var key := ranges[0].key;
      GroupSplits(transfers, key);
      RangesOfRest(ranges, transfers, asOfSlot);
      Conserved(ranges[1..], Others(transfers, key), asOfSlot);
      HeadTotals(ranges);
    }
  }

  lemma HeadTotals(ranges: seq<WalletTransferRange>)
    requires ranges != []
    ensures Sum(Counts(ranges)) == ranges[0].transferCount + Sum(Counts(ranges[1..]))
    ensures Sum(RangeAmounts(ranges)) == ranges[0].amountBaseUnits + Sum(RangeAmounts(ranges[1..]))
  {
    assert Counts(ranges)[1..] == Counts(ranges[1..]);
    assert RangeAmounts(ranges)[1..] == RangeAmounts(ranges[1..]);
  }

  lemma LaterKeysDiffer(ranges: seq<WalletTransferRange>, k: nat)
    requires KeysOrdered(ranges) && 0 < k < |ranges|
    ensures ranges[k].key != ranges[0].key
  {
    StringsOrder();
    assert KeyLess(ranges[0].key, ranges[k].key);
  }

  lemma OtherKeyInTail(
    ranges: seq<WalletTransferRange>, transfers: seq<CanonicalTransfer>, t: CanonicalTransfer)
    requires KeysCovered(ranges, transfers) && ranges != []
    requires t in transfers && KeyOf(t) != ranges[0].key
    ensures HasKey(ranges[1..], KeyOf(t))
  {
    var i :| 0 <= i < |transfers| && transfers[i] == t;
    assert HasKey(ranges, KeyOf(transfers[i]));
    var j :| 0 <= j < |ranges| && ranges[j].key == KeyOf(t);
    assert ranges[1..][j - 1].key == KeyOf(t);
  }

  lemma RowsOfRest(ranges: seq<WalletTransferRange>, transfers: seq<CanonicalTransfer>, asOfSlot: int)
    requires KeysOrdered(ranges) && RowsAggregate(ranges, transfers, asOfSlot) && ranges != []
    ensures RowsAggregate(ranges[1..], Others(transfers, ranges[0].key), asOfSlot)
  {
    var key, tail := ranges[0].key, ranges[1..];
    forall k | 0 <= k < |tail| ensures Aggregates(tail[k], Others(transfers, key), asOfSlot) {
      assert tail[k] == ranges[k + 1] && Aggregates(ranges[k + 1], transfers, asOfSlot);
      LaterKeysDiffer(ranges, k + 1);
      GroupWithin(transfers, key, tail[k].key);
    }
  }

  lemma RangesOfRest(ranges: seq<WalletTransferRange>, transfers: seq<CanonicalTransfer>, asOfSlot: int)
    requires RangesOf(ranges, transfers, asOfSlot) && ranges != []
    ensures RangesOf(ranges[1..], Others(transfers, ranges[0].key), asOfSlot)
  {
    RowsOfRest(ranges, transfers, asOfSlot);
    var tail, rest := ranges[1..], Others(transfers, ranges[0].key);
    assert KeysOrdered(tail);
    forall k | 0 <= k < |rest| ensures HasKey(tail, KeyOf(rest[k])) {
      assert rest[k] in rest;
      OtherKeyInTail(ranges, transfers, rest[k]);
    }
  }

  // ---------- hop slots ----------

  predicate OnEdge(r: WalletTransferRange, source: string, destination: string) {
    r.key.source == source && r.key.destination == destination
  }

  /** `slot` is the latest slot among the asset ranges of one edge. */
  ghost predicate LatestOnEdge(ranges: seq<WalletTransferRange>, source: string, destination: string, slot: int) {
    && (exists k :: 0 <= k < |ranges| && OnEdge(ranges[k], source, destination) && ranges[k].lastSlot == slot)
    && (forall k :: 0 <= k < |ranges| && OnEdge(ranges[k], source, destination) ==> ranges[k].lastSlot <= slot)
  }

  lemma RangeWithinEdge(
    transfers: seq<CanonicalTransfer>, key: RangeKey, source: string, destination: string)
    requires Group(transfers, key) != [] && key.source == source && key.destination == destination
    requires EdgeTransfers(transfers, source, destination) != []
    ensures MaxOf(Slots(Group(transfers, key))) <= Latest(EdgeTransfers(transfers, source, destination)).slot
  {
    var candidates, items := EdgeTransfers(transfers, source, destination), Group(transfers, key);
    LatestIsMaximal(candidates);
    var i :| 0 <= i < |items| && Slots(items)[i] == MaxOf(Slots(items));
    assert items[i] in items;
    assert items[i] in transfers && KeyOf(items[i]) == key;
    assert items[i] in candidates;
  }

  lemma GroupReaches(transfers: seq<CanonicalTransfer>, t: CanonicalTransfer)
    requires t in transfers
    ensures Group(transfers, KeyOf(t)) != [] && t.slot <= MaxOf(Slots(Group(transfers, KeyOf(t))))
  {
    var items := Group(transfers, KeyOf(t));
    assert t in items;
    var j :| 0 <= j < |items| && items[j] == t;
    assert Slots(items)[j] == t.slot;
    assert t.slot in Slots(items);
  }

  lemma SomeRangeHolds(ranges: seq<WalletTransferRange>, transfers: seq<CanonicalTransfer>, t: CanonicalTransfer)
    returns (k: nat)
    requires KeysCovered(ranges, transfers) && t in transfers
    ensures k < |ranges| && ranges[k].key == KeyOf(t)
  {
    var i :| 0 <= i < |transfers| && transfers[i] == t;
    assert HasKey(ranges, KeyOf(transfers[i]));
    k :| 0 <= k < |ranges| && ranges[k].key == KeyOf(t);
  }

  lemma PickIsLatestOnEdge(
    ranges: seq<WalletTransferRange>, transfers: seq<CanonicalTransfer>, asOfSlot: int,
    source: string, destination: string)
    requires RangesOf(ranges, transfers, asOfSlot) && EdgeTransfers(transfers, source, destination) != []
    ensures LatestOnEdge(ranges, source, destination, Latest(EdgeTransfers(transfers, source, destination)).slot)
  {
    var pick := Latest(EdgeTransfers(transfers, source, destination));
    assert pick in transfers && Joins(pick, source, destination);
    forall k | 0 <= k < |ranges| && OnEdge(ranges[k], source, destination) ensures ranges[k].lastSlot <= pick.slot {
      assert Aggregates(ranges[k], transfers, asOfSlot);
      RangeWithinEdge(transfers, ranges[k].key, source, destination);
    }
    var k := SomeRangeHolds(ranges, transfers, pick);
    assert Aggregates(ranges[k], transfers, asOfSlot);
    GroupReaches(transfers, pick);
    assert OnEdge(ranges[k], source, destination);
  }

  /** The slots a hop reports are the greatest and the least, over the edges of its
      path, of each edge's latest slot. */
  ghost predicate SlotsFromEdges(ranges: seq<WalletTransferRange>, hop: WalletHop, edgeSlots: seq<int>) {
    && EdgeSlots(ranges, hop.path, edgeSlots) && edgeSlots != []
    && hop.lastSlot == MaxOf(edgeSlots) && hop.firstSlot == MinOf(edgeSlots)
  }

  lemma EdgeSlotIsLatest(
    ranges: seq<WalletTransferRange>, transfers: seq<CanonicalTransfer>, asOfSlot: int,
    path: seq<string>, i: nat, t: CanonicalTransfer)
    requires RangesOf(ranges, transfers, asOfSlot) && PickedFor(transfers, path, i, t)
    ensures LatestOnEdge(ranges, path[i], path[i + 1], t.slot)
  {
    PickIsLatestOnEdge(ranges, transfers, asOfSlot, path[i], path[i + 1]);
  }

  /** `slots` are the latest slots of the edges of a path. */
  ghost predicate EdgeSlots(ranges: seq<WalletTransferRange>, path: seq<string>, slots: seq<int>) {
    |slots| == |path| - 1 && forall i :: 0 <= i < |slots| ==> LatestOnEdge(ranges, path[i], path[i + 1], slots[i])
  }

  lemma PicksGiveSlots(
    ranges: seq<WalletTransferRange>, transfers: seq<CanonicalTransfer>, asOfSlot: int,
    path: seq<string>, picked: seq<CanonicalTransfer>)
    requires RangesOf(ranges, transfers, asOfSlot) && Picks(transfers, path, picked, |path| - 1)
    ensures EdgeSlots(ranges, path, Slots(picked))
  {
    forall i | 0 <= i < |picked| ensures LatestOnEdge(ranges, path[i], path[i + 1], Slots(picked)[i]) {
      EdgeSlotIsLatest(ranges, transfers, asOfSlot, path, i, picked[i]);
    }
  }

  lemma SlotsOfPicks(
    ranges: seq<WalletTransferRange>, transfers: seq<CanonicalTransfer>, asOfSlot: int,
    hop: WalletHop, picked: seq<CanonicalTransfer>)
    requires RangesOf(ranges, transfers, asOfSlot) && picked != []
    requires Picks(transfers, hop.path, picked, |hop.path| - 1)
    requires hop.firstSlot == MinOf(Slots(picked)) && hop.lastSlot == MaxOf(Slots(picked))
    ensures SlotsFromEdges(ranges, hop, Slots(picked))
  {
    PicksGiveSlots(ranges, transfers, asOfSlot, hop.path, picked);
  }

  lemma HopSlotsFromRanges(
    ranges: seq<WalletTransferRange>, transfers: seq<CanonicalTransfer>, target: string, asOfSlot: int,
    maxHops: nat, hop: WalletHop)
    requires RangesOf(ranges, transfers, asOfSlot)
    ensures Reports(transfers, target, asOfSlot, maxHops, hop) ==>
              SlotsFromEdges(ranges, hop, Slots(SelectedAlong(hop.path, transfers, |hop.path| - 1)))
  {
    if Reports(transfers, target, asOfSlot, maxHops, hop) {
      var picked := HopRow(transfers, target, asOfSlot, maxHops, hop);
      SlotsOfPicks(ranges, transfers, asOfSlot, hop, picked);
    }
  }
}
