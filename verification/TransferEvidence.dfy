/** What the rows built from transfers report: hops within the cutoff, and ranges measured
    on the transfers of their own pair and asset. */
module TransferEvidence {
  import opened Domain
  import opened Ordering
  import opened HopSearch
  import opened TransferRanges

  predicate NonBlankIds(ids: seq<string>) {
    ids != [] && Distinct(ids) && forall k :: 0 <= k < |ids| ==> NonBlank(ids[k])
  }

  function TransferError(t: CanonicalTransfer, asOfSlot: int): Option<AbstainReason> {
    if t.asOfSlot < 0 || t.slot < 0 || t.asOfSlot > asOfSlot || t.slot > t.asOfSlot then Some(StaleState)
    else if !NonBlank(t.sourceWallet) || !NonBlank(t.destinationWallet) || t.sourceWallet == t.destinationWallet then
      Some(MissingFeature)
    else if !NonBlank(t.assetId) || t.amountBaseUnits <= 0 then Some(MissingFeature)
    else if t.signature == [] || !NonBlankIds(t.evidenceIds) then Some(MissingFeature)
    else None
  }

  ghost predicate AllValid(transfers: seq<CanonicalTransfer>, asOfSlot: int) {
    forall k :: 0 <= k < |transfers| ==> TransferError(transfers[k], asOfSlot).None?
  }

  lemma SlotsWithin(items: seq<CanonicalTransfer>, asOfSlot: int)
    requires items != [] && AllValid(items, asOfSlot)
    ensures 0 <= MinOf(Slots(items)) <= MaxOf(Slots(items)) <= asOfSlot
  {
    var slots := Slots(items);
    var i :| 0 <= i < |slots| && slots[i] == MinOf(slots);
    var j :| 0 <= j < |slots| && slots[j] == MaxOf(slots);
    assert slots[i] in slots;
  }

  lemma EvidenceCollects(items: seq<CanonicalTransfer>)
    ensures ListsEvidence(EvidenceOf(items), items)
  {
    var lists := MapSeq((t: CanonicalTransfer) => t.evidenceIds, items);
    SortDistinctIsTheSet(Flatten(lists));
    forall e ensures e in EvidenceOf(items) <==> exists k :: 0 <= k < |items| && e in items[k].evidenceIds {
      if e in Flatten(lists) {
        var k :| 0 <= k < |lists| && e in lists[k];
        assert e in items[k].evidenceIds;
      }
      if k :| 0 <= k < |items| && e in items[k].evidenceIds {
        assert e in lists[k];
      }
    }
  }

  lemma PickValid(
    transfers: seq<CanonicalTransfer>, asOfSlot: int, path: seq<string>, i: nat, t: CanonicalTransfer)
    requires AllValid(transfers, asOfSlot) && PickedFor(transfers, path, i, t)
    ensures TransferError(t, asOfSlot).None?
  {
    assert t in EdgeTransfers(transfers, path[i], path[i + 1]);
    assert t in transfers;
    var k :| 0 <= k < |transfers| && transfers[k] == t;
  }

  lemma PicksValid(
    transfers: seq<CanonicalTransfer>, asOfSlot: int, path: seq<string>, picked: seq<CanonicalTransfer>, n: int)
    requires AllValid(transfers, asOfSlot) && Picks(transfers, path, picked, n)
    ensures AllValid(picked, asOfSlot)
  {
    forall k | 0 <= k < |picked| ensures TransferError(picked[k], asOfSlot).None? {
      PickValid(transfers, asOfSlot, path, k, picked[k]);
    }
  }

  /** `ids` lists the evidence of `items`, each identifier once, in increasing order. */
  ghost predicate ListsEvidence(ids: seq<string>, items: seq<CanonicalTransfer>) {
    && (forall e :: e in ids <==> exists k :: 0 <= k < |items| && e in items[k].evidenceIds)
    && (forall i, j :: 0 <= i < j < |ids| ==> StringLess(ids[i], ids[j]))
  }

  /** A hop reported from validated transfers lies within the cutoff, and its evidence
      is that of the transfers picked along its path. */
  ghost predicate Evidenced(hop: WalletHop, picked: seq<CanonicalTransfer>, asOfSlot: int) {
    && 0 <= hop.firstSlot <= hop.lastSlot <= asOfSlot
    && hop.evidenceIds != []
    && ListsEvidence(hop.evidenceIds, picked)
  }

  lemma PicksEvidenced(hop: WalletHop, picked: seq<CanonicalTransfer>, asOfSlot: int)
    requires picked != [] && AllValid(picked, asOfSlot)
    requires hop.firstSlot == MinOf(Slots(picked)) && hop.lastSlot == MaxOf(Slots(picked))
    requires hop.evidenceIds == EvidenceOf(picked)
    ensures Evidenced(hop, picked, asOfSlot)
  {
    SlotsWithin(picked, asOfSlot);
    EvidenceCollects(picked);
    SomeEvidence(picked, asOfSlot);
  }

  lemma HopFromValidTransfers(
    transfers: seq<CanonicalTransfer>, target: string, asOfSlot: int, maxHops: nat, hop: WalletHop)
    requires AllValid(transfers, asOfSlot)
    ensures Reports(transfers, target, asOfSlot, maxHops, hop) ==>
              Evidenced(hop, SelectedAlong(hop.path, transfers, |hop.path| - 1), asOfSlot)
  {
    if Reports(transfers, target, asOfSlot, maxHops, hop) {
      var picked := HopRow(transfers, target, asOfSlot, maxHops, hop);
      PicksValid(transfers, asOfSlot, hop.path, picked, |hop.path| - 1);
      PicksEvidenced(hop, picked, asOfSlot);
    }
  }

  lemma SomeEvidence(items: seq<CanonicalTransfer>, asOfSlot: int)
    requires items != [] && AllValid(items, asOfSlot)
    ensures EvidenceOf(items) != []
  {
    EvidenceCollects(items);
    assert TransferError(items[0], asOfSlot).None?;
    assert items[0].evidenceIds[0] in items[0].evidenceIds;
    assert items[0].evidenceIds[0] in EvidenceOf(items);
  }

  // ---------- ranges ----------

  /** The transfer runs between the wallets of the row, in its asset. */
  ghost predicate InRange(t: CanonicalTransfer, r: WalletTransferRange) {
    && t.sourceWallet == r.key.source && t.destinationWallet == r.key.destination
    && t.assetKind == r.key.kind && t.assetId == r.key.assetId
  }

  ghost function CountInRange(transfers: seq<CanonicalTransfer>, r: WalletTransferRange): nat {
    if transfers == [] then 0
    else (if InRange(transfers[0], r) then 1 else 0) + CountInRange(transfers[1..], r)
  }

  ghost function AmountInRange(transfers: seq<CanonicalTransfer>, r: WalletTransferRange): int {
    if transfers == [] then 0
    else (if InRange(transfers[0], r) then transfers[0].amountBaseUnits else 0) + AmountInRange(transfers[1..], r)
  }

  lemma {:induction false} GroupMeasures(transfers: seq<CanonicalTransfer>, r: WalletTransferRange)
    ensures |Group(transfers, r.key)| == CountInRange(transfers, r)
    ensures Sum(Amounts(Group(transfers, r.key))) == AmountInRange(transfers, r)
  {
    if transfers != [] {
      GroupMeasures(transfers[1..], r);
      AmountsHead(Group(transfers, r.key));
    }
  }

  lemma GroupMembers(transfers: seq<CanonicalTransfer>, r: WalletTransferRange)
    ensures forall t :: t in Group(transfers, r.key) <==> t in transfers && InRange(t, r)
  {
  }

  /** The row's slots are the first and the last of its transfers', and its count and
      amount are theirs. */
  ghost predicate RangeMeasures(r: WalletTransferRange, transfers: seq<CanonicalTransfer>) {
    && (forall k :: 0 <= k < |transfers| && InRange(transfers[k], r) ==>
          r.firstSlot <= transfers[k].slot <= r.lastSlot)
    && (exists k :: 0 <= k < |transfers| && InRange(transfers[k], r) && transfers[k].slot == r.firstSlot)
    && (exists k :: 0 <= k < |transfers| && InRange(transfers[k], r) && transfers[k].slot == r.lastSlot)
    && r.transferCount == CountInRange(transfers, r)
    && r.amountBaseUnits == AmountInRange(transfers, r)
  }

  /** Its evidence is the increasing list of their identifiers. */
  ghost predicate RangeEvidence(r: WalletTransferRange, transfers: seq<CanonicalTransfer>) {
    && (forall i, j :: 0 <= i < j < |r.evidenceIds| ==> StringLess(r.evidenceIds[i], r.evidenceIds[j]))
    && (forall e :: e in r.evidenceIds <==>
          exists k :: 0 <= k < |transfers| && InRange(transfers[k], r) && e in transfers[k].evidenceIds)
  }

  lemma RowMeasures(r: WalletTransferRange, transfers: seq<CanonicalTransfer>, asOfSlot: int)
    requires Aggregates(r, transfers, asOfSlot)
    ensures RangeMeasures(r, transfers) && r.asOfSlot == asOfSlot
  {
    var items := Group(transfers, r.key);
    GroupMembers(transfers, r);
    GroupMeasures(transfers, r);
    var slots := Slots(items);
    forall k | 0 <= k < |transfers| && InRange(transfers[k], r) ensures r.firstSlot <= transfers[k].slot <= r.lastSlot {
      assert transfers[k] in items;
      var i :| 0 <= i < |items| && items[i] == transfers[k];
      assert slots[i] in slots;
    }
    var i :| 0 <= i < |slots| && slots[i] == MinOf(slots);
    var j :| 0 <= j < |slots| && slots[j] == MaxOf(slots);
    SlotOfTransfer(items, transfers, r, i);
    SlotOfTransfer(items, transfers, r, j);
  }

  lemma SlotOfTransfer(
    items: seq<CanonicalTransfer>, transfers: seq<CanonicalTransfer>, r: WalletTransferRange, i: nat)
    requires i < |items| && items == Group(transfers, r.key)
    ensures exists k :: 0 <= k < |transfers| && InRange(transfers[k], r) && transfers[k].slot == Slots(items)[i]
  {
    GroupMembers(transfers, r);
    assert items[i] in items;
    var k :| 0 <= k < |transfers| && transfers[k] == items[i];
    assert InRange(transfers[k], r);
  }

  lemma RowEvidence(r: WalletTransferRange, transfers: seq<CanonicalTransfer>, asOfSlot: int)
    requires Aggregates(r, transfers, asOfSlot)
    ensures RangeEvidence(r, transfers)
  {
    var items := Group(transfers, r.key);
    EvidenceCollects(items);
    GroupMembers(transfers, r);
    forall e
      ensures e in r.evidenceIds <==>
                exists k :: 0 <= k < |transfers| && InRange(transfers[k], r) && e in transfers[k].evidenceIds
    {
      if k :| 0 <= k < |transfers| && InRange(transfers[k], r) && e in transfers[k].evidenceIds {
        assert transfers[k] in items;
        var i :| 0 <= i < |items| && items[i] == transfers[k];
      }
      if i :| 0 <= i < |items| && e in items[i].evidenceIds {
        assert items[i] in items;
        var k :| 0 <= k < |transfers| && transfers[k] == items[i];
        assert InRange(transfers[k], r);
      }
    }
  }

  ghost predicate HasRange(ranges: seq<WalletTransferRange>, t: CanonicalTransfer) {
    exists i :: 0 <= i < |ranges| && InRange(t, ranges[i])
  }

  /** Every range measures the transfers of its own pair and asset, every transfer is in
      the range of its pair and asset, and no two ranges share both. */
  lemma RangesMeasure(ranges: seq<WalletTransferRange>, transfers: seq<CanonicalTransfer>, asOfSlot: int)
    requires RangesOf(ranges, transfers, asOfSlot)
    ensures forall i :: 0 <= i < |ranges| ==>
              RangeMeasures(ranges[i], transfers) && RangeEvidence(ranges[i], transfers)
    ensures forall k :: 0 <= k < |transfers| ==> HasRange(ranges, transfers[k])
    ensures forall i, j :: 0 <= i < j < |ranges| ==> ranges[i].key != ranges[j].key
  {
    forall i | 0 <= i < |ranges| ensures RangeMeasures(ranges[i], transfers) && RangeEvidence(ranges[i], transfers) {
      assert Aggregates(ranges[i], transfers, asOfSlot);
      RowMeasures(ranges[i], transfers, asOfSlot);
      RowEvidence(ranges[i], transfers, asOfSlot);
    }
    forall k | 0 <= k < |transfers| ensures HasRange(ranges, transfers[k]) {
      assert HasKey(ranges, KeyOf(transfers[k]));
      var i :| 0 <= i < |ranges| && ranges[i].key == KeyOf(transfers[k]);
      assert InRange(transfers[k], ranges[i]);
    }
    forall i, j | 0 <= i < j < |ranges| ensures ranges[i].key != ranges[j].key {
      StringsOrder();
      assert KeyLess(ranges[i].key, ranges[j].key);
    }
  }
}
