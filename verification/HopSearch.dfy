/** Observed transfer paths out of one wallet: a worklist without a visited set,
    and the paths it reports. */
module HopSearch {
  import opened Domain
  import opened Ordering

  datatype WalletHop = WalletHop(
    asOfSlot: int,
    path: seq<string>,
    hopCount: int,
    firstSlot: int,
    lastSlot: int,
    evidenceIds: seq<string>)

  // ---------- which transfer stands for an edge ----------

  /** Order by slot, then by evidence identifiers. */
  predicate LaterThan(a: CanonicalTransfer, b: CanonicalTransfer) {
    b.slot < a.slot || (b.slot == a.slot && StringsLess(b.evidenceIds, a.evidenceIds))
  }

  /** The first of the latest transfers. */
  function Latest(candidates: seq<CanonicalTransfer>): (r: CanonicalTransfer)
    requires candidates != []
    ensures r in candidates
  {
    if |candidates| == 1 then candidates[0]
    else
      var best := Latest(candidates[..|candidates| - 1]);
      var last := candidates[|candidates| - 1];
      if LaterThan(last, best) then last else best
  }

  lemma {:induction false} LatestIsMaximal(candidates: seq<CanonicalTransfer>)
    requires candidates != []
    ensures forall c :: c in candidates ==> !LaterThan(c, Latest(candidates))
  {
    StringsOrder();
    if |candidates| > 1 {
      var front, last := candidates[..|candidates| - 1], candidates[|candidates| - 1];
      LatestIsMaximal(front);
      assert candidates == front + [last];
      forall c | c in candidates ensures !LaterThan(c, Latest(candidates)) {
        if c != last {
          assert c in front;
        }
      }
    }
  }

  predicate Joins(t: CanonicalTransfer, source: string, destination: string) {
    t.sourceWallet == source && t.destinationWallet == destination
  }

  function EdgeTransfers(transfers: seq<CanonicalTransfer>, source: string, destination: string)
    : seq<CanonicalTransfer>
  {
    Filter((t: CanonicalTransfer) => Joins(t, source, destination), transfers)
  }

  /** The transfers selected along the first `n` edges of a path. */
  function SelectedAlong(path: seq<string>, transfers: seq<CanonicalTransfer>, n: nat): seq<CanonicalTransfer>
    requires n < |path| || n == 0
  {
    if n == 0 then []
    else
      var candidates := EdgeTransfers(transfers, path[n - 1], path[n]);
      SelectedAlong(path, transfers, n - 1) + if candidates == [] then [] else [Latest(candidates)]
  }

  method PathTransfers(path: seq<string>, transfers: seq<CanonicalTransfer>)
    returns (selected: seq<CanonicalTransfer>)
    requires path != []
    ensures selected == SelectedAlong(path, transfers, |path| - 1)
  {
    selected := [];
    for i := 0 to |path| - 1
      invariant selected == SelectedAlong(path, transfers, i)
    {
      var candidates := EdgeTransfers(transfers, path[i], path[i + 1]);
      if candidates != [] {
        selected := selected + [Latest(candidates)];
      }
    }
  }

  function Slots(items: seq<CanonicalTransfer>): seq<int> {
    MapSeq((t: CanonicalTransfer) => t.slot, items)
  }

  function EvidenceOf(items: seq<CanonicalTransfer>): seq<string> {
    SortDistinct(Flatten(MapSeq((t: CanonicalTransfer) => t.evidenceIds, items)))
  }

  // ---------- what a hop path is ----------

  ghost predicate HasTransfer(transfers: seq<CanonicalTransfer>, source: string, destination: string) {
    exists t :: t in transfers && Joins(t, source, destination)
  }

  /** Some transfer goes from the path's wallet number `i` to the next one. */
  ghost predicate Edge(transfers: seq<CanonicalTransfer>, path: seq<string>, i: nat) {
    i + 1 < |path| && HasTransfer(transfers, path[i], path[i + 1])
  }

  /** A simple path along observed transfers, starting at the target. */
  ghost predicate TransferPath(transfers: seq<CanonicalTransfer>, target: string, path: seq<string>) {
    && path != [] && path[0] == target
    && Distinct(path)
    && Linked(transfers, path)
  }

  ghost predicate HopPath(transfers: seq<CanonicalTransfer>, target: string, maxHops: nat, path: seq<string>) {
    TransferPath(transfers, target, path) && 2 <= |path| - 1 <= maxHops
  }

  function HopFor(path: seq<string>, transfers: seq<CanonicalTransfer>, asOfSlot: int): WalletHop
    requires path != [] && SelectedAlong(path, transfers, |path| - 1) != []
  {
    var selected := SelectedAlong(path, transfers, |path| - 1);
    WalletHop(asOfSlot, path, |path| - 1, MinOf(Slots(selected)), MaxOf(Slots(selected)), EvidenceOf(selected))
  }

  lemma EdgeHasTransfers(transfers: seq<CanonicalTransfer>, source: string, destination: string)
    requires HasTransfer(transfers, source, destination)
    ensures EdgeTransfers(transfers, source, destination) != []
  {
    var t :| t in transfers && Joins(t, source, destination);
    assert t in EdgeTransfers(transfers, source, destination);
  }

  ghost predicate PickedFor(transfers: seq<CanonicalTransfer>, path: seq<string>, i: nat, t: CanonicalTransfer) {
    && i + 1 < |path|
    && EdgeTransfers(transfers, path[i], path[i + 1]) != []
    && t == Latest(EdgeTransfers(transfers, path[i], path[i + 1]))
  }

  /** Every edge of the path has a transfer. */
  ghost predicate Linked(transfers: seq<CanonicalTransfer>, path: seq<string>) {
    forall i :: 0 <= i < |path| - 1 ==> Edge(transfers, path, i)
  }

  /** The picks of the first `n` edges of a path, one per edge. */
  ghost predicate Picks(
    transfers: seq<CanonicalTransfer>, path: seq<string>, picked: seq<CanonicalTransfer>, n: int)
  {
    |picked| == n && forall i :: 0 <= i < n ==> PickedFor(transfers, path, i, picked[i])
  }

  lemma PickAppended(
    transfers: seq<CanonicalTransfer>, path: seq<string>, picked: seq<CanonicalTransfer>, n: nat,
    t: CanonicalTransfer)
    requires Picks(transfers, path, picked, n) && PickedFor(transfers, path, n, t)
    ensures Picks(transfers, path, picked + [t], n + 1)
  {
  }

  lemma PickEdge(transfers: seq<CanonicalTransfer>, path: seq<string>, n: nat)
    requires 0 < n < |path| && Edge(transfers, path, n - 1)
    ensures EdgeTransfers(transfers, path[n - 1], path[n]) != []
    ensures SelectedAlong(path, transfers, n)
            == SelectedAlong(path, transfers, n - 1) + [Latest(EdgeTransfers(transfers, path[n - 1], path[n]))]
  {
    EdgeHasTransfers(transfers, path[n - 1], path[n]);
  }

  /** On a transfer path, one transfer is selected per edge. */
  lemma {:induction false} SelectedOnPath(transfers: seq<CanonicalTransfer>, path: seq<string>, n: nat)
    requires n < |path| && Linked(transfers, path)
    ensures Picks(transfers, path, SelectedAlong(path, transfers, n), n)
  {
    if n > 0 {
      SelectedOnPath(transfers, path, n - 1);
      PickEdge(transfers, path, n);
      PickAppended(transfers, path, SelectedAlong(path, transfers, n - 1), n - 1,
                   Latest(EdgeTransfers(transfers, path[n - 1], path[n])));
    }
  }

  // ---------- adjacency ----------

  /** Sort order of a wallet's outgoing transfers: destination, slot, evidence. */
  predicate OutgoingLess(a: CanonicalTransfer, b: CanonicalTransfer) {
    || StringLess(a.destinationWallet, b.destinationWallet)
    || (a.destinationWallet == b.destinationWallet
        && (a.slot < b.slot || (a.slot == b.slot && StringsLess(a.evidenceIds, b.evidenceIds))))
  }

  predicate OutgoingLe(a: CanonicalTransfer, b: CanonicalTransfer) {
    !OutgoingLess(b, a)
  }

  function Outgoing(transfers: seq<CanonicalTransfer>, wallet: string): seq<CanonicalTransfer> {
    Filter((t: CanonicalTransfer) => t.sourceWallet == wallet, transfers)
  }

  lemma {:induction false} FilterAppend<T>(keep: T -> bool, xs: seq<T>, x: T)
    ensures Filter(keep, xs + [x]) == Filter(keep, xs) + if keep(x) then [x] else []
  {
    if xs != [] {
      assert (xs + [x])[0] == xs[0] && (xs + [x])[1..] == xs[1..] + [x];
      FilterAppend(keep, xs[1..], x);
    }
  }

  method Adjacency(transfers: seq<CanonicalTransfer>) returns (adjacency: map<string, seq<CanonicalTransfer>>)
    ensures forall w :: w in adjacency <==> Outgoing(transfers, w) != []
    ensures forall w :: w in adjacency ==> adjacency[w] == SortBy(OutgoingLe, Outgoing(transfers, w))
  {
    var grouped: map<string, seq<CanonicalTransfer>> := map[];
    for i := 0 to |transfers|
      invariant forall w :: w in grouped <==> Outgoing(transfers[..i], w) != []
      invariant forall w :: w in grouped ==> grouped[w] == Outgoing(transfers[..i], w)
    {
      var t := transfers[i];
      var w := t.sourceWallet;
      forall v ensures Outgoing(transfers[..i + 1], v) == Outgoing(transfers[..i], v) + if v == w then [t] else [] {
        assert transfers[..i + 1] == transfers[..i] + [t];
        FilterAppend((x: CanonicalTransfer) => x.sourceWallet == v, transfers[..i], t);
      }
      grouped := grouped[w := (if w in grouped then grouped[w] else []) + [t]];
    }
    assert transfers[..|transfers|] == transfers;
    adjacency := map w | w in grouped :: SortBy(OutgoingLe, grouped[w]);
  }

  // ---------- the worklist ----------

  function Pow(b: nat, e: nat): (r: nat)
    ensures b > 0 ==> r > 0
  {
    if e == 0 then 1 else b * Pow(b, e - 1)
  }

  /** Work still reachable from the queue: a path with r hops left is worth (D+1)^r. */
  ghost function Weight(queue: seq<seq<string>>, maxHops: nat, degree: nat): nat {
    if queue == [] then 0
    else Pow(degree + 1, if |queue[0]| <= maxHops then maxHops + 1 - |queue[0]| else 0)
         + Weight(queue[1..], maxHops, degree)
  }

  lemma WeightHead(path: seq<string>, waiting: seq<seq<string>>, maxHops: nat, degree: nat)
    requires |path| - 1 <= maxHops
    ensures Weight([path] + waiting, maxHops, degree)
            == Pow(degree + 1, maxHops + 1 - |path|) + Weight(waiting, maxHops, degree)
  {
    assert ([path] + waiting)[1..] == waiting;
    if |path| == maxHops + 1 {
      assert Pow(degree + 1, 0) == 1;
    }
  }

  lemma {:induction false} WeightAppend(queue: seq<seq<string>>, path: seq<string>, maxHops: nat, degree: nat)
    requires |path| - 1 <= maxHops
    ensures Weight(queue + [path], maxHops, degree)
            == Weight(queue, maxHops, degree) + Pow(degree + 1, maxHops + 1 - |path|)
  {
    if queue == [] {
      assert queue + [path] == [path] + [];
      WeightHead(path, [], maxHops, degree);
    } else {
      assert (queue + [path])[0] == queue[0] && (queue + [path])[1..] == queue[1..] + [path];
      WeightAppend(queue[1..], path, maxHops, degree);
    }
  }

  ghost function Repeat(n: nat, step: nat): nat {
    if n == 0 then 0 else Repeat(n - 1, step) + step
  }

  lemma {:induction false} RepeatIsProduct(n: nat, step: nat)
    ensures Repeat(n, step) == n * step
  {
    if n > 0 {
      RepeatIsProduct(n - 1, step);
    }
  }

  /** At most D continuations weigh less than the path they replace. */
  lemma ChildrenWeighLess(degree: nat, edges: nat, r: nat)
    requires edges <= degree
    ensures Repeat(edges, Pow(degree + 1, r)) < Pow(degree + 1, r + 1)
  {
    var p := Pow(degree + 1, r);
    RepeatIsProduct(edges, p);
    assert edges * p <= degree * p;
    assert (degree + 1) * p == degree * p + p;
  }

  /** Some proper prefix of the path is still waiting. */
  ghost predicate PrefixQueued(path: seq<string>, queue: seq<seq<string>>) {
    exists k :: 1 <= k < |path| && path[..k] in queue
  }

  predicate HopLess(a: WalletHop, b: WalletHop) {
    a.hopCount < b.hopCount || (a.hopCount == b.hopCount && StringsLess(a.path, b.path))
  }

  ghost predicate StrictlyOrdered(hops: seq<WalletHop>) {
    forall i, j :: 0 <= i < j < |hops| ==> HopLess(hops[i], hops[j])
  }

  predicate HopLe(a: WalletHop, b: WalletHop) {
    !HopLess(b, a)
  }

  /** The row is the evidence of a path that must be reported. */
  ghost predicate Reports(
    transfers: seq<CanonicalTransfer>, target: string, asOfSlot: int, maxHops: nat, hop: WalletHop)
  {
    && HopPath(transfers, target, maxHops, hop.path)
    && SelectedAlong(hop.path, transfers, |hop.path| - 1) != []
    && hop == HopFor(hop.path, transfers, asOfSlot)
  }

  ghost predicate SoundMap(
    transfers: seq<CanonicalTransfer>, target: string, asOfSlot: int, maxHops: nat,
    discovered: map<seq<string>, WalletHop>)
  {
    forall p :: p in discovered ==>
      discovered[p].path == p && Reports(transfers, target, asOfSlot, maxHops, discovered[p])
  }

  ghost predicate SoundQueue(
    transfers: seq<CanonicalTransfer>, target: string, maxHops: nat, queue: seq<seq<string>>)
  {
    forall k :: 0 <= k < |queue| ==>
      TransferPath(transfers, target, queue[k]) && |queue[k]| - 1 <= maxHops
  }

  /** The queued path `path`, whose edges from `i` on are not yet expanded, is a
      proper prefix of `p` along one of those edges. */
  ghost predicate Pending(p: seq<string>, path: seq<string>, edges: seq<CanonicalTransfer>, i: nat) {
    |path| < |p| && path == p[..|path|]
    && exists j :: i <= j < |edges| && edges[j].destinationWallet == p[|path|]
  }

  lemma ExtendPath(transfers: seq<CanonicalTransfer>, target: string, path: seq<string>, t: CanonicalTransfer)
    requires TransferPath(transfers, target, path) && t in transfers
    requires t.sourceWallet == path[|path| - 1] && t.destinationWallet !in path
    ensures TransferPath(transfers, target, path + [t.destinationWallet])
  {
    var next := path + [t.destinationWallet];
    forall i | 0 <= i < |next| - 1 ensures Edge(transfers, next, i) {
      if i < |path| - 1 {
        assert Edge(transfers, path, i);
      } else {
        assert Joins(t, next[i], next[i + 1]);
      }
    }
  }

  /** The path has been reported, or will be: a proper prefix of it still waits. */
  ghost predicate Covered(p: seq<string>, discovered: map<seq<string>, WalletHop>, queue: seq<seq<string>>) {
    p in discovered || PrefixQueued(p, queue)
  }

  lemma CoveredStays(
    p: seq<string>, discovered: map<seq<string>, WalletHop>, queue: seq<seq<string>>,
    discovered': map<seq<string>, WalletHop>, queue': seq<seq<string>>)
    requires Covered(p, discovered, queue)
    requires discovered.Keys <= discovered'.Keys && queue <= queue'
    ensures Covered(p, discovered', queue')
  {
    if p !in discovered {
      var k :| 1 <= k < |p| && p[..k] in queue;
      assert p[..k] in queue';
    }
  }

  ghost predicate EdgesOf(transfers: seq<CanonicalTransfer>, wallet: string, edges: seq<CanonicalTransfer>) {
    && |edges| <= |transfers|
    && (forall k :: 0 <= k < |edges| ==> edges[k] in transfers && edges[k].sourceWallet == wallet)
    && (forall k :: 0 <= k < |transfers| && transfers[k].sourceWallet == wallet ==> transfers[k] in edges)
  }

  /** A path through `path` leaves it along one of the outgoing edges. */
  lemma PendingAtStart(
    transfers: seq<CanonicalTransfer>, target: string, path: seq<string>, edges: seq<CanonicalTransfer>,
    p: seq<string>)
    requires TransferPath(transfers, target, p) && path != [] && |path| < |p| && path == p[..|path|]
    requires EdgesOf(transfers, path[|path| - 1], edges)
    ensures Pending(p, path, edges, 0)
  {
    var n := |path|;
    assert Edge(transfers, p, n - 1);
    var t :| t in transfers && Joins(t, p[n - 1], p[n]);
    var k :| 0 <= k < |transfers| && transfers[k] == t;
    assert transfers[k] in edges;
    var j :| 0 <= j < |edges| && edges[j] == t;
  }

  /** Handling edge `i` either keeps the path pending on a later edge or covers it. */
  lemma EdgeHandled(
    p: seq<string>, path: seq<string>, edges: seq<CanonicalTransfer>, i: nat,
    discovered: map<seq<string>, WalletHop>, queue: seq<seq<string>>)
    requires Pending(p, path, edges, i) && i < |edges| && path != [] && Distinct(p)
    requires edges[i].destinationWallet !in path ==>
               var next := path + [edges[i].destinationWallet];
               next in queue && (|next| >= 3 ==> next in discovered)
    requires |p| >= 3
    ensures Pending(p, path, edges, i + 1) || Covered(p, discovered, queue)
  {
    var j :| i <= j < |edges| && edges[j].destinationWallet == p[|path|];
    if j == i {
      var next := path + [edges[i].destinationWallet];
      assert forall k :: 0 <= k < |path| ==> path[k] == p[k];
      assert edges[i].destinationWallet !in path;
      assert next == p[..|path| + 1];
      if |p| == |next| {
        assert p == next;
      }
    }
  }

  lemma SoundInsert(
    transfers: seq<CanonicalTransfer>, target: string, asOfSlot: int, maxHops: nat,
    found: map<seq<string>, WalletHop>, path: seq<string>, hop: WalletHop)
    requires SoundMap(transfers, target, asOfSlot, maxHops, found)
    requires hop.path == path && Reports(transfers, target, asOfSlot, maxHops, hop)
    ensures SoundMap(transfers, target, asOfSlot, maxHops, found[path := hop])
  {
  }

  lemma PushNext(
    transfers: seq<CanonicalTransfer>, target: string, maxHops: nat, queue: seq<seq<string>>,
    path: seq<string>, t: CanonicalTransfer)
    requires SoundQueue(transfers, target, maxHops, queue) && |path| <= maxHops
    requires TransferPath(transfers, target, path + [t.destinationWallet])
    ensures SoundQueue(transfers, target, maxHops, queue + [path + [t.destinationWallet]])
    ensures Weight(queue + [path + [t.destinationWallet]], maxHops, |transfers|)
            == Weight(queue, maxHops, |transfers|) + Pow(|transfers| + 1, maxHops - |path|)
  {
    var next := path + [t.destinationWallet];
    WeightAppend(queue, next, maxHops, |transfers|);
    assert maxHops + 1 - |next| == maxHops - |path|;
  }

  /** The evidence row of one path. */
  method HopAlong(path: seq<string>, transfers: seq<CanonicalTransfer>, target: string, asOfSlot: int)
    returns (hop: WalletHop)
    requires TransferPath(transfers, target, path) && |path| >= 2
    ensures SelectedAlong(path, transfers, |path| - 1) != [] && hop == HopFor(path, transfers, asOfSlot)
  {
    SelectedOnPath(transfers, path, |path| - 1);
    var selected := PathTransfers(path, transfers);
    hop := WalletHop(asOfSlot, path, |path| - 1, MinOf(Slots(selected)), MaxOf(Slots(selected)),
                     EvidenceOf(selected));
  }

  /** Handle one outgoing transfer of a path. */
  method FollowEdge(
    transfers: seq<CanonicalTransfer>, target: string, asOfSlot: int, maxHops: nat,
    path: seq<string>, t: CanonicalTransfer, waiting: seq<seq<string>>, found: map<seq<string>, WalletHop>)
    returns (queue: seq<seq<string>>, discovered: map<seq<string>, WalletHop>)
    requires TransferPath(transfers, target, path) && |path| <= maxHops
    requires t in transfers && t.sourceWallet == path[|path| - 1]
    requires SoundQueue(transfers, target, maxHops, waiting) && SoundMap(transfers, target, asOfSlot, maxHops, found)
    ensures waiting <= queue && found.Keys <= discovered.Keys
    ensures SoundQueue(transfers, target, maxHops, queue)
    ensures SoundMap(transfers, target, asOfSlot, maxHops, discovered)
    ensures t.destinationWallet !in path ==>
              var next := path + [t.destinationWallet];
              next in queue && (|next| >= 3 ==> next in discovered)
    ensures Weight(queue, maxHops, |transfers|)
            <= Weight(waiting, maxHops, |transfers|) + Pow(|transfers| + 1, maxHops - |path|)
  {
    queue, discovered := waiting, found;
    if t.destinationWallet !in path {
      var next := path + [t.destinationWallet];
      ExtendPath(transfers, target, path, t);
      if |next| >= 3 {
        var hop := HopAlong(next, transfers, target, asOfSlot);
        SoundInsert(transfers, target, asOfSlot, maxHops, discovered, next, hop);
        discovered := discovered[next := hop];
      }
      PushNext(transfers, target, maxHops, queue, path, t);
      queue := queue + [next];
    }
  }

  /** Expand one path along its outgoing edges. */
  method ExpandPath(
    transfers: seq<CanonicalTransfer>, target: string, asOfSlot: int, maxHops: nat,
    path: seq<string>, edges: seq<CanonicalTransfer>,
    waiting: seq<seq<string>>, found: map<seq<string>, WalletHop>)
    returns (queue: seq<seq<string>>, discovered: map<seq<string>, WalletHop>)
    requires TransferPath(transfers, target, path) && |path| <= maxHops
    requires EdgesOf(transfers, path[|path| - 1], edges)
    requires SoundQueue(transfers, target, maxHops, waiting) && SoundMap(transfers, target, asOfSlot, maxHops, found)
    ensures SoundQueue(transfers, target, maxHops, queue)
    ensures SoundMap(transfers, target, asOfSlot, maxHops, discovered)
    ensures forall p :: HopPath(transfers, target, maxHops, p) && Covered(p, found, [path] + waiting) ==>
              Covered(p, discovered, queue)
    ensures Weight(queue, maxHops, |transfers|)
            < Weight([path] + waiting, maxHops, |transfers|)
  {
    queue, discovered := waiting, found;
    WeightHead(path, waiting, maxHops, |transfers|);
    ChildrenWeighLess(|transfers|, |edges|, maxHops - |path|);
    ghost var step := Pow(|transfers| + 1, maxHops - |path|);
    forall p | HopPath(transfers, target, maxHops, p) && Covered(p, found, [path] + waiting)
      ensures Pending(p, path, edges, 0) || Covered(p, found, waiting)
    {
      CoveredOrThrough(transfers, target, path, edges, waiting, found, p);
    }
    for i := 0 to |edges|
      invariant SoundQueue(transfers, target, maxHops, queue)
      invariant SoundMap(transfers, target, asOfSlot, maxHops, discovered)
      invariant forall p :: HopPath(transfers, target, maxHops, p) && Covered(p, found, [path] + waiting) ==>
                  Pending(p, path, edges, i) || Covered(p, discovered, queue)
      invariant Weight(queue, maxHops, |transfers|) <= Weight(waiting, maxHops, |transfers|) + Repeat(i, step)
    {
      ghost var queue0, discovered0 := queue, discovered;
      queue, discovered :=
        FollowEdge(transfers, target, asOfSlot, maxHops, path, edges[i], queue, discovered);
      forall p | HopPath(transfers, target, maxHops, p) && Covered(p, found, [path] + waiting)
        ensures Pending(p, path, edges, i + 1) || Covered(p, discovered, queue)
      {
        if Pending(p, path, edges, i) {
          EdgeHandled(p, path, edges, i, discovered, queue);
        } else {
          CoveredStays(p, discovered0, queue0, discovered, queue);
        }
      }
    }
  }

  lemma CoveredOrThrough(
    transfers: seq<CanonicalTransfer>, target: string, path: seq<string>, edges: seq<CanonicalTransfer>,
    waiting: seq<seq<string>>, found: map<seq<string>, WalletHop>, p: seq<string>)
    requires TransferPath(transfers, target, p) && path != []
    requires EdgesOf(transfers, path[|path| - 1], edges)
    requires Covered(p, found, [path] + waiting)
    ensures Pending(p, path, edges, 0) || Covered(p, found, waiting)
  {
    if p !in found {
      var k :| 1 <= k < |p| && p[..k] in [path] + waiting;
      if p[..k] == path {
        PendingAtStart(transfers, target, path, edges, p);
      } else {
        assert p[..k] in waiting;
      }
    }
  }

  /** The worklist. Parallel transfers queue a path repeatedly; the weight of the
      queue still falls, since a path has at most D continuations of weight
      (D+1)^(r-1) each. */
  method Explore(transfers: seq<CanonicalTransfer>, target: string, asOfSlot: int, maxHops: nat)
    returns (discovered: map<seq<string>, WalletHop>)
    ensures SoundMap(transfers, target, asOfSlot, maxHops, discovered)
    ensures forall p :: HopPath(transfers, target, maxHops, p) ==> p in discovered
  {
    var adjacency := Adjacency(transfers);
    discovered := map[];
    var queue: seq<seq<string>> := [[target]];
    forall p | HopPath(transfers, target, maxHops, p) ensures Covered(p, discovered, queue) {
      assert p[..1] == [target];
    }
    while queue != []
      invariant SoundQueue(transfers, target, maxHops, queue)
      invariant SoundMap(transfers, target, asOfSlot, maxHops, discovered)
      invariant forall p :: HopPath(transfers, target, maxHops, p) ==> Covered(p, discovered, queue)
      decreases Weight(queue, maxHops, |transfers|)
    {
      var path, waiting := queue[0], queue[1..];
      ghost var before := Weight(queue, maxHops, |transfers|);
      assert queue == [path] + waiting;
      assert TransferPath(transfers, target, path) && |path| - 1 <= maxHops;
      assert SoundQueue(transfers, target, maxHops, waiting);
      WeightHead(path, waiting, maxHops, |transfers|);
      if |path| - 1 >= maxHops {
        forall p | HopPath(transfers, target, maxHops, p) ensures Covered(p, discovered, waiting) {
          DeepPathCoversNothing(p, path, waiting, discovered);
        }
        queue := waiting;
      } else {
        var wallet := path[|path| - 1];
        var edges := if wallet in adjacency then adjacency[wallet] else [];
        assert edges == SortBy(OutgoingLe, Outgoing(transfers, wallet));
        EdgesAreOutgoing(transfers, wallet, edges);
        queue, discovered := ExpandPath(transfers, target, asOfSlot, maxHops, path, edges, waiting, discovered);
      }
      assert Weight(queue, maxHops, |transfers|) < before;
    }
  }

  lemma DeepPathCoversNothing(
    p: seq<string>, path: seq<string>, waiting: seq<seq<string>>, discovered: map<seq<string>, WalletHop>)
    requires Covered(p, discovered, [path] + waiting) && |p| <= |path|
    ensures Covered(p, discovered, waiting)
  {
    if p !in discovered {
      var k :| 1 <= k < |p| && p[..k] in [path] + waiting;
      assert p[..k] in waiting;
    }
  }

  lemma EdgesAreOutgoing(transfers: seq<CanonicalTransfer>, wallet: string, edges: seq<CanonicalTransfer>)
    requires edges == SortBy(OutgoingLe, Outgoing(transfers, wallet))
    ensures EdgesOf(transfers, wallet, edges)
  {
    var outgoing := Outgoing(transfers, wallet);
    SameMembers(OutgoingLe, outgoing);
    forall k | 0 <= k < |edges| ensures edges[k] in transfers && edges[k].sourceWallet == wallet {
      assert edges[k] in edges;
      assert edges[k] in outgoing;
    }
    forall k | 0 <= k < |transfers| && transfers[k].sourceWallet == wallet ensures transfers[k] in edges {
      assert transfers[k] in outgoing;
    }
  }

  /** All simple transfer paths of 2 to `maxHops` hops from the target, each exactly
      once, ordered by hop count and path, and nothing else. */
  method MultiHops(transfers: seq<CanonicalTransfer>, target: string, asOfSlot: int, maxHops: nat)
    returns (hops: seq<WalletHop>)
    ensures StrictlyOrdered(hops)
    ensures forall h :: h in hops ==> Reports(transfers, target, asOfSlot, maxHops, h)
    ensures forall p :: HopPath(transfers, target, maxHops, p) ==> exists h :: h in hops && h.path == p
  {
    var discovered := Explore(transfers, target, asOfSlot, maxHops);
    var values := Values(discovered);
    hops := SortBy(HopLe, values);
    SortedHops(values);
    SameMembers(HopLe, values);
    forall h | h in hops ensures Reports(transfers, target, asOfSlot, maxHops, h) {
      assert h in values;
      var k :| 0 <= k < |values| && values[k] == h;
      assert h.path in discovered;
    }
    forall p | HopPath(transfers, target, maxHops, p) ensures exists h :: h in hops && h.path == p {
      assert discovered[p] in values;
      assert discovered[p] in hops;
    }
  }

  /** The values of the table in some order; the sort that follows has unique keys,
      so the order does not matter. */
  method Values(discovered: map<seq<string>, WalletHop>) returns (values: seq<WalletHop>)
    requires forall p :: p in discovered ==> discovered[p].path == p
    ensures forall k :: 0 <= k < |values| ==>
              values[k].path in discovered && values[k] == discovered[values[k].path]
    ensures forall p :: p in discovered ==> discovered[p] in values
    ensures forall i, j :: 0 <= i < j < |values| ==> values[i].path != values[j].path
  {
    values := [];
    var keys := discovered.Keys;
    while keys != {}
      invariant keys <= discovered.Keys
      invariant forall k :: 0 <= k < |values| ==>
                  && values[k].path in discovered && values[k].path !in keys
                  && values[k] == discovered[values[k].path]
      invariant forall p :: p in discovered && p !in keys ==> discovered[p] in values
      invariant forall i, j :: 0 <= i < j < |values| ==> values[i].path != values[j].path
      decreases |keys|
    {
      var p :| p in keys;
      values := values + [discovered[p]];
      keys := keys - {p};
    }
  }

  lemma HopOrder()
    ensures TotalPreorder(HopLe)
    ensures forall a, b :: HopLess(a, b) || HopLess(b, a) || (a.hopCount == b.hopCount && a.path == b.path)
  {
    StringsOrder();
  }

  lemma SortedHops(values: seq<WalletHop>)
    requires forall i, j :: 0 <= i < j < |values| ==> values[i].path != values[j].path
    ensures StrictlyOrdered(SortBy(HopLe, values))
  {
    HopOrder();
    var hops := SortBy(HopLe, values);
    SortOrdered(HopLe, values);
    SortMultiset(HopLe, values);
    assert Distinct(values);
    DistinctMultiset(values, hops);
    forall i, j | 0 <= i < j < |hops| ensures HopLess(hops[i], hops[j]) {
      assert hops[i] in multiset(values) && hops[j] in multiset(values);
      var a :| 0 <= a < |values| && values[a] == hops[i];
      var b :| 0 <= b < |values| && values[b] == hops[j];
      assert values[a].path != values[b].path;
    }
  }

  /** A hop row reports the slots and the evidence of one pick per edge of its path. */
  lemma HopRow(
    transfers: seq<CanonicalTransfer>, target: string, asOfSlot: int, maxHops: nat, hop: WalletHop)
    returns (picked: seq<CanonicalTransfer>)
    requires Reports(transfers, target, asOfSlot, maxHops, hop)
    ensures hop.path != [] && picked == SelectedAlong(hop.path, transfers, |hop.path| - 1) != []
    ensures Picks(transfers, hop.path, picked, |hop.path| - 1)
    ensures hop.firstSlot == MinOf(Slots(picked)) && hop.lastSlot == MaxOf(Slots(picked))
    ensures hop.evidenceIds == EvidenceOf(picked)
    ensures hop.hopCount == |picked| == |hop.path| - 1 && hop.asOfSlot == asOfSlot
  {
    picked := SelectedAlong(hop.path, transfers, |hop.path| - 1);
    SelectedOnPath(transfers, hop.path, |hop.path| - 1);
  }
}
