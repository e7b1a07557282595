/**
 The parent graph of observed pages in scripts/peer-assisted-benchmark.ts: the memoised depth
 search `peerDepths` and the breadth-first search `descendantsOf`. Pages may repeat a peer,
 name an absent parent, or form cycles.
 */
module OverlayGraph {
  import opened Common

  type PeerId = string

  /** The parts of a page observation the two searches read. An absent assignment has no upstream. */
  datatype Page = Page(peerId: Option<PeerId>, host: bool, upstream: Upstream)

  /** A page counts as a peer when its id is neither null nor empty. */
  predicate Identified(page: Page) {
    page.peerId.Some? && page.peerId.value != ""
  }

  type Peers = map<PeerId, Page>

  // ---------------------------------------------------------------- depth

  /** The uncached meaning of a depth: `n` upstream hops lead from `id` to a host. */
  ghost predicate HostAt(peers: Peers, id: PeerId, n: nat)
    decreases n
  {
    id in peers &&
    if peers[id].host then n == 0
    else peers[id].upstream.Peer? && n > 0 && HostAt(peers, peers[id].upstream.peerId, n - 1)
  }

  /** `k` hops over peers that are no hosts lead from `id` to `target`. */
  ghost predicate Climbs(peers: Peers, id: PeerId, k: nat, target: PeerId)
    decreases k
  {
    if k == 0 then id == target
    else id in peers && !peers[id].host && peers[id].upstream.Peer? && Climbs(peers, peers[id].upstream.peerId, k - 1, target)
  }

  /** `id` climbs to `target` in at least one hop. */
  ghost predicate Below(peers: Peers, id: PeerId, target: PeerId) {
    exists k: nat :: k > 0 && Climbs(peers, id, k, target)
  }

  lemma {:induction false} DepthUnique(peers: Peers, id: PeerId, m: nat, n: nat)
    requires HostAt(peers, id, m) && HostAt(peers, id, n)
    ensures m == n
    decreases m
  {
    if m > 0 && n > 0 {
      DepthUnique(peers, peers[id].upstream.peerId, m - 1, n - 1);
    }
  }

  /** Climbing towards a host uses up depth. */
  lemma {:induction false} ClimbLowersDepth(peers: Peers, id: PeerId, n: nat, k: nat, target: PeerId)
    returns (rest: nat)
    requires HostAt(peers, id, n) && Climbs(peers, id, k, target)
    ensures n == k + rest && HostAt(peers, target, rest)
    decreases k
  {
    rest := n;
    if k > 0 {
      rest := ClimbLowersDepth(peers, peers[id].upstream.peerId, n - 1, k - 1, target);
    }
  }

  /** A peer that climbs to itself has no depth. */
  lemma CycleHasNoDepth(peers: Peers, id: PeerId, n: nat)
    requires Below(peers, id, id)
    ensures !HostAt(peers, id, n)
  {
    if HostAt(peers, id, n) {
      var k: nat :| k > 0 && Climbs(peers, id, k, id);
      var rest := ClimbLowersDepth(peers, id, n, k, id);
      DepthUnique(peers, id, n, rest);
    }
  }

  /** The peers on the way from `id` to its host. */
  ghost function Path(peers: Peers, id: PeerId, n: nat): (path: seq<PeerId>)
    requires HostAt(peers, id, n)
    ensures |path| == n + 1 && path[0] == id
    ensures forall i | 0 <= i <= n :: path[i] in peers && HostAt(peers, path[i], n - i)
    decreases n
  {
    if n == 0 then [id] else [id] + Path(peers, peers[id].upstream.peerId, n - 1)
  }

  lemma {:induction false} DistinctWithin(s: seq<PeerId>, keys: set<PeerId>)
    requires forall i | 0 <= i < |s| :: s[i] in keys
    requires forall i, j | 0 <= i < j < |s| :: s[i] != s[j]
    ensures |s| <= |keys|
  {
    if s != [] {
      DistinctWithin(s[1..], keys - {s[0]});
    }
  }

  /** A depth is smaller than the number of peers. */
  lemma DepthBounded(peers: Peers, id: PeerId, n: nat)
    requires HostAt(peers, id, n)
    ensures n < |peers|
  {
    var path := Path(peers, id, n);
    forall i, j | 0 <= i < j < |path| ensures path[i] != path[j] {
      if path[i] == path[j] {
        DepthUnique(peers, path[i], n - i, n - j);
      }
    }
    DistinctWithin(path, peers.Keys);
  }

  /** Every entry of a depth cache is a depth. */
  ghost predicate Sound(peers: Peers, depths: map<PeerId, nat>) {
    forall id | id in depths :: HostAt(peers, id, depths[id])
  }

  /** The whole result: exactly the peers that reach a host, with their hop counts. */
  ghost predicate IsDepthMap(peers: Peers, depths: map<PeerId, nat>) {
    forall id: PeerId, n: nat :: id in depths && depths[id] == n <==> HostAt(peers, id, n)
  }

  /** The pages by peer; the last page of a peer wins. */
  function ByPeer(pages: seq<Page>): Peers {
    if pages == [] then map[]
    else
      var page, rest := pages[|pages| - 1], ByPeer(pages[..|pages| - 1]);
      if Identified(page) then rest[page.peerId.value := page] else rest
  }

  /** A peer's page is the last of the pages that name it, and a page without an id, or an empty one, is no peer's. */
  lemma {:induction false} ByPeerIsLast(pages: seq<Page>, id: PeerId)
    ensures id in ByPeer(pages) <==> id != "" && exists page | page in pages :: page.peerId == Some(id)
    ensures id in ByPeer(pages) ==> exists i | 0 <= i < |pages| :: IsLastPage(pages, id, i) && ByPeer(pages)[id] == pages[i]
  {
    if pages != [] {
      var n := |pages| - 1;
      assert pages == pages[..n] + [pages[n]];
      ByPeerIsLast(pages[..n], id);
      if pages[n].peerId == Some(id) {
        assert IsLastPage(pages, id, n);
      } else if id in ByPeer(pages[..n]) {
        var i :| 0 <= i < n && IsLastPage(pages[..n], id, i) && ByPeer(pages[..n])[id] == pages[..n][i];
        assert IsLastPage(pages, id, i);
      }
    }
  }

  ghost predicate IsLastPage(pages: seq<Page>, id: PeerId, i: nat) {
    i < |pages| && pages[i].peerId == Some(id) && forall j | i < j < |pages| :: pages[j].peerId != Some(id)
  }

  class DepthSearch {
    const peers: Peers
    var depths: map<PeerId, nat>

    constructor (peers: Peers)
      ensures this.peers == peers && depths == map[]
    {
      this.peers := peers;
      depths := map[];
    }

    /** `resolveDepth`: every visited peer climbs to `id`, so meeting one again is a cycle. */
    method Resolve(id: PeerId, visiting: set<PeerId>) returns (depth: Option<nat>)
      requires Sound(peers, depths)
      requires visiting <= peers.Keys
      requires forall v | v in visiting :: Below(peers, v, id)
      modifies this
      ensures Sound(peers, depths)
      ensures forall p | p in old(depths) :: p in depths && depths[p] == old(depths)[p]
      ensures depth.Some? ==> HostAt(peers, id, depth.value) && id in depths
      ensures depth.None? ==> forall n: nat :: !HostAt(peers, id, n)
      decreases peers.Keys - visiting
    {
      if id in depths {
        return Some(depths[id]);
      }
      if id !in peers || id in visiting {
        if id in visiting {
          forall n: nat ensures !HostAt(peers, id, n) {
            CycleHasNoDepth(peers, id, n);
          }
        }
        return None;
      }
      var page := peers[id];
      if page.host {
        depths := depths[id := 0];
        return Some(0);
      }
      if !page.upstream.Peer? {
        return None;
      }
      forall v | v in visiting + {id} ensures Below(peers, v, page.upstream.peerId) {
        ClimbsOn(peers, v, id);
      }
      var parentDepth := Resolve(page.upstream.peerId, visiting + {id});
      if parentDepth.None? {
        return None;
      }
      depths := depths[id := parentDepth.value + 1];
      return Some(parentDepth.value + 1);
    }
  }

  lemma {:induction false} ClimbStep(peers: Peers, v: PeerId, k: nat, id: PeerId)
    requires Climbs(peers, v, k, id)
    requires id in peers && !peers[id].host && peers[id].upstream.Peer?
    ensures Climbs(peers, v, k + 1, peers[id].upstream.peerId)
    decreases k
  {
    if k > 0 {
      ClimbStep(peers, peers[v].upstream.peerId, k - 1, id);
    } else {
      assert Climbs(peers, peers[id].upstream.peerId, 0, peers[id].upstream.peerId);
    }
  }

  lemma ClimbsOn(peers: Peers, v: PeerId, id: PeerId)
    requires id in peers && !peers[id].host && peers[id].upstream.Peer?
    requires v == id || Below(peers, v, id)
    ensures Below(peers, v, peers[id].upstream.peerId)
  {
    if v == id {
      assert Climbs(peers, v, 0, id);
      ClimbStep(peers, v, 0, id);
    } else {
      var k: nat :| k > 0 && Climbs(peers, v, k, id);
      ClimbStep(peers, v, k, id);
    }
  }

  /**
   `peerDepths`: the keys are visited in any order that lists them all, and the result is
   the one depth map of the pages whatever that order.
   */
  method PeerDepths(pages: seq<Page>, keys: seq<PeerId>) returns (depths: map<PeerId, nat>)
    requires forall id :: id in keys <==> id in ByPeer(pages)
    ensures IsDepthMap(ByPeer(pages), depths)
    ensures forall id | id in depths :: id in keys && depths[id] < |ByPeer(pages)|
  {
    var peers := ByPeer(pages);
    var search := new DepthSearch(peers);
    for i := 0 to |keys|
      invariant search.peers == peers && Sound(peers, search.depths)
      invariant forall j: nat, n: nat | j < i && HostAt(peers, keys[j], n) :: keys[j] in search.depths
    {
      var _ := search.Resolve(keys[i], {});
    }
    depths := search.depths;
    forall id: PeerId, n: nat | HostAt(peers, id, n) ensures id in depths && depths[id] == n && n < |peers| {
      var j :| 0 <= j < |keys| && keys[j] == id;
      assert id in depths;
      DepthUnique(peers, id, n, depths[id]);
      DepthBounded(peers, id, n);
    }
  }

  /** Two searches of the same pages agree, in whatever order they visited the peers. */
  lemma DepthMapUnique(peers: Peers, a: map<PeerId, nat>, b: map<PeerId, nat>)
    requires IsDepthMap(peers, a) && IsDepthMap(peers, b)
    ensures a == b
  {
    forall id | id in a ensures id in b && b[id] == a[id] {
      assert HostAt(peers, id, a[id]);
    }
    forall id | id in b ensures id in a {
      assert HostAt(peers, id, b[id]);
    }
  }

  // ---------------------------------------------------------------- descendants

  /** One page names `parent` as the route parent of `id`; its role does not matter. */
  predicate Names(page: Page, parent: PeerId, id: PeerId) {
    Identified(page) && page.peerId.value == id && page.upstream == Peer(parent)
  }

  ghost predicate ChildOf(pages: seq<Page>, id: PeerId, parent: PeerId) {
    exists page | page in pages :: Names(page, parent, id)
  }

  /** A chain of `k >= 1` parents leads from `id` to `root`. */
  ghost predicate Reaches(pages: seq<Page>, id: PeerId, k: nat, root: PeerId)
    decreases k
  {
    if k == 0 then false
    else if k == 1 then ChildOf(pages, id, root)
    else exists parent :: ChildOf(pages, id, parent) && Reaches(pages, parent, k - 1, root)
  }

  ghost predicate Descends(pages: seq<Page>, id: PeerId, root: PeerId) {
    exists k: nat :: Reaches(pages, id, k, root)
  }

  /** Entries are found through entries before them, in order. */
  ghost predicate Ordered(via: seq<nat>) {
    && (forall j | 0 <= j < |via| :: via[j] <= j)
    && (forall i, j | 0 <= i < j < |via| :: via[i] <= via[j])
  }

  /** The root, then the entries found. */
  function Entry(root: PeerId, found: seq<PeerId>, i: nat): PeerId
    requires i <= |found|
  {
    if i == 0 then root else found[i - 1]
  }

  /**
   The shape a breadth-first search leaves behind. `found[j]` was found through entry `via[j]`,
   entries are found in the order of the entries they were found through, and every child of the
   first `done` entries was found through that entry or an earlier one.
   */
  ghost predicate Search(pages: seq<Page>, root: PeerId, found: seq<PeerId>, via: seq<nat>, done: nat) {
    && NoRepeats(found) && |via| == |found| && done <= |found| + 1
    && Ordered(via)
    && (forall j | 0 <= j < |found| :: LinkedAt(pages, root, found, via, j))
    && (forall i | 0 <= i < done :: ExpandedAt(pages, root, found, via, i))
  }

  ghost predicate LinkedAt(pages: seq<Page>, root: PeerId, found: seq<PeerId>, via: seq<nat>, j: nat)
    requires |via| == |found| && Ordered(via) && j < |found|
  {
    ChildOf(pages, found[j], Entry(root, found, via[j]))
  }

  ghost predicate ExpandedAt(pages: seq<Page>, root: PeerId, found: seq<PeerId>, via: seq<nat>, i: nat)
    requires |via| == |found| && i <= |found|
  {
    forall id | ChildOf(pages, id, Entry(root, found, i)) :: FoundBy(found, via, id, i)
  }

  /** A search whose every entry has been expanded. */
  ghost predicate Complete(pages: seq<Page>, root: PeerId, found: seq<PeerId>, via: seq<nat>) {
    Search(pages, root, found, via, |found| + 1)
  }

  function Position(s: seq<PeerId>, id: PeerId): (i: nat)
    requires id in s
    ensures i < |s| && s[i] == id
  {
    if s[0] == id then 0 else Position(s[1..], id) + 1
  }

  /** `id` was found through entry `i` or an earlier one. */
  ghost predicate FoundBy(found: seq<PeerId>, via: seq<nat>, id: PeerId, i: nat)
    requires |via| == |found|
  {
    id in found && via[Position(found, id)] <= i
  }

  /** The number of hops by which entry `j` was found. */
  ghost function Hops(via: seq<nat>, j: nat): (k: nat)
    requires j < |via| && Ordered(via)
    ensures k > 0
  {
    if via[j] == 0 then 1 else Hops(via, via[j] - 1) + 1
  }

  lemma {:induction false} HopsMonotone(via: seq<nat>, i: nat, j: nat)
    requires i <= j < |via| && Ordered(via)
    ensures Hops(via, i) <= Hops(via, j)
    decreases j
  {
    if via[i] > 0 {
      assert via[i] <= via[j];
      HopsMonotone(via, via[i] - 1, via[j] - 1);
    }
  }

  lemma HopsThrough(via: seq<nat>, j: nat, p: nat)
    requires j < |via| && p < |via| && Ordered(via) && via[j] <= p + 1
    ensures Hops(via, j) <= Hops(via, p) + 1
  {
    if via[j] > 0 {
      HopsMonotone(via, via[j] - 1, p);
    }
  }

  lemma {:induction false} FoundReaches(pages: seq<Page>, root: PeerId, found: seq<PeerId>, via: seq<nat>, done: nat, j: nat)
    requires Search(pages, root, found, via, done) && j < |found|
    ensures Reaches(pages, found[j], Hops(via, j), root)
  {
    assert LinkedAt(pages, root, found, via, j);
    if via[j] > 0 {
      FoundReaches(pages, root, found, via, done, via[j] - 1);
    }
  }

  lemma ChildIsFound(pages: seq<Page>, root: PeerId, found: seq<PeerId>, via: seq<nat>, i: nat, id: PeerId)
    returns (j: nat)
    requires Complete(pages, root, found, via) && i <= |found| && ChildOf(pages, id, Entry(root, found, i))
    ensures j < |found| && found[j] == id && via[j] <= i
  {
    assert ExpandedAt(pages, root, found, via, i);
    j := Position(found, id);
  }

  /** Whatever reaches the root was found, and by no more hops. */
  lemma {:induction false} ReachingIsFound(pages: seq<Page>, root: PeerId, found: seq<PeerId>, via: seq<nat>,
                                           id: PeerId, k: nat) returns (j: nat)
    requires Complete(pages, root, found, via) && Reaches(pages, id, k, root)
    ensures j < |found| && found[j] == id && Hops(via, j) <= k
    decreases k
  {
    if k == 1 {
      j := ChildIsFound(pages, root, found, via, 0, id);
    } else {
      var parent :| ChildOf(pages, id, parent) && Reaches(pages, parent, k - 1, root);
      var p := ReachingIsFound(pages, root, found, via, parent, k - 1);
      j := ChildIsFound(pages, root, found, via, p + 1, id);
      HopsThrough(via, j, p);
    }
  }

  /** The least number of hops from `id` up to `root`. */
  ghost predicate NearestAt(pages: seq<Page>, id: PeerId, k: nat, root: PeerId) {
    Reaches(pages, id, k, root) && forall m: nat | Reaches(pages, id, m, root) :: k <= m
  }

  ghost function PeerIds(pages: seq<Page>): set<PeerId> {
    set page | page in pages && Identified(page) :: page.peerId.value
  }

  /** The inner loop: appends the children of `parent`, entry `done` of the search, not yet found. */
  method Expand(root: PeerId, pages: seq<Page>, parent: PeerId, before: seq<PeerId>, queueBefore: seq<PeerId>,
                ghost viaBefore: seq<nat>, ghost done: nat)
    returns (descendants: seq<PeerId>, queue: seq<PeerId>, ghost via: seq<nat>)
    requires Search(pages, root, before, viaBefore, done) && done <= |before| && Entry(root, before, done) == parent
    requires forall j | 0 <= j < |viaBefore| :: viaBefore[j] < done
    requires queueBefore == before[done..]
    ensures Search(pages, root, descendants, via, done + 1)
    ensures forall j | 0 <= j < |via| :: via[j] <= done
    ensures queue == descendants[done..]
    ensures |descendants| > |before| || (descendants == before && queue == queueBefore)
  {
    descendants, queue, via := before, queueBefore, viaBefore;
    for p := 0 to |pages|
      invariant Search(pages, root, descendants, via, done) && done <= |descendants|
      invariant Entry(root, descendants, done) == parent
      invariant forall j | 0 <= j < |via| :: via[j] <= done
      invariant queue == descendants[done..]
      invariant |descendants| > |before| || (descendants == before && queue == queueBefore)
      invariant forall q, id | 0 <= q < p && Names(pages[q], parent, id) :: FoundBy(descendants, via, id, done)
    {
      var page := pages[p];
      if Identified(page) && page.upstream == Peer(parent) {
        if page.peerId.value !in descendants {
          SearchGrows(pages, root, descendants, via, done, page, parent);
          descendants := descendants + [page.peerId.value];
          queue := queue + [page.peerId.value];
          via := via + [done];
        }
      }
    }
    forall id | ChildOf(pages, id, parent) ensures FoundBy(descendants, via, id, done) {
      var page :| page in pages && Names(page, parent, id);
      var q :| 0 <= q < |pages| && pages[q] == page;
    }
  }

  /**
   `descendantsOf`, on any pages: duplicate-free, exactly the peers whose parent chain passes
   through the root, nearest first.
   */
  method DescendantsOf(root: PeerId, pages: seq<Page>) returns (descendants: seq<PeerId>)
    ensures NoRepeats(descendants)
    ensures forall id :: id in descendants <==> Descends(pages, id, root)
    ensures exists via :: Complete(pages, root, descendants, via)
  {
    descendants := [];
    var queue := [root];
    ghost var via: seq<nat>, done: nat := [], 0;
    while |queue| > 0
      invariant Search(pages, root, descendants, via, done)
      invariant forall j | 0 <= j < |via| :: via[j] < done
      invariant queue == if done == 0 then [root] + descendants else descendants[done - 1..]
      invariant |descendants| <= |PeerIds(pages)|
      decreases |PeerIds(pages)| - |descendants|, |queue|
    {
      var parent := queue[0];
      descendants, queue, via := Expand(root, pages, parent, descendants, queue[1..], via, done);
      done := done + 1;
      FoundArePeers(pages, root, descendants, via, done);
    }
    assert Complete(pages, root, descendants, via);
    FoundIffDescends(pages, root, descendants, via);
  }

  lemma FoundIffDescends(pages: seq<Page>, root: PeerId, found: seq<PeerId>, via: seq<nat>)
    requires Complete(pages, root, found, via)
    ensures forall id :: id in found <==> Descends(pages, id, root)
  {
    forall id | Descends(pages, id, root) ensures id in found {
      var k: nat :| Reaches(pages, id, k, root);
      var j := ReachingIsFound(pages, root, found, via, id, k);
    }
    forall id | id in found ensures Descends(pages, id, root) {
      var j :| 0 <= j < |found| && found[j] == id;
      FoundReaches(pages, root, found, via, |found| + 1, j);
    }
  }

  /** Only pages with an id that is not empty make a child, and they name its parent as their upstream peer. */
  lemma ChildOfIff(pages: seq<Page>, id: PeerId, parent: PeerId)
    ensures ChildOf(pages, id, parent) <==>
            id != "" && exists i | 0 <= i < |pages| :: pages[i].peerId == Some(id) && pages[i].upstream == Peer(parent)
  {
    if ChildOf(pages, id, parent) {
      var page :| page in pages && Names(page, parent, id);
      var i :| 0 <= i < |pages| && pages[i] == page;
      assert pages[i].peerId == Some(id);
    }
    if id != "" {
      if i :| 0 <= i < |pages| && pages[i].peerId == Some(id) && pages[i].upstream == Peer(parent) {
        assert Names(pages[i], parent, id);
      }
    }
  }

  lemma FoundArePeers(pages: seq<Page>, root: PeerId, found: seq<PeerId>, via: seq<nat>, done: nat)
    requires Search(pages, root, found, via, done)
    ensures |found| <= |PeerIds(pages)|
  {
    forall j | 0 <= j < |found| ensures found[j] in PeerIds(pages) {
      assert LinkedAt(pages, root, found, via, j);
      var page :| page in pages && Names(page, Entry(root, found, via[j]), found[j]);
    }
    DistinctWithin(found, PeerIds(pages));
  }

  lemma SearchGrows(pages: seq<Page>, root: PeerId, found: seq<PeerId>, via: seq<nat>, done: nat,
                    page: Page, parent: PeerId)
    requires Search(pages, root, found, via, done) && done <= |found| && Entry(root, found, done) == parent
    requires page in pages && Identified(page) && Names(page, parent, page.peerId.value)
    requires page.peerId.value !in found && forall j | 0 <= j < |via| :: via[j] <= done
    ensures Search(pages, root, found + [page.peerId.value], via + [done], done)
    ensures forall id, i: nat | FoundBy(found, via, id, i) :: FoundBy(found + [page.peerId.value], via + [done], id, i)
    ensures FoundBy(found + [page.peerId.value], via + [done], page.peerId.value, done)
  {
    var found', via' := found + [page.peerId.value], via + [done];
    forall id | id in found ensures id in found' && Position(found', id) == Position(found, id) {
      var i, j := Position(found, id), Position(found', id);
      assert found'[i] == id && found'[j] == id;
    }
    forall i | 0 <= i < done ensures ExpandedAt(pages, root, found', via', i) {
      assert ExpandedAt(pages, root, found, via, i) && Entry(root, found', i) == Entry(root, found, i);
    }
    forall j | 0 <= j < |found'| ensures LinkedAt(pages, root, found', via', j) {
      assert j < |found| ==> LinkedAt(pages, root, found, via, j);
    }
  }

  /** The search order is by least distance from the root. */
  lemma NearestFirst(pages: seq<Page>, root: PeerId, found: seq<PeerId>, via: seq<nat>, i: nat, j: nat)
    requires Complete(pages, root, found, via) && i <= j < |found|
    ensures NearestAt(pages, found[i], Hops(via, i), root) && NearestAt(pages, found[j], Hops(via, j), root)
    ensures Hops(via, i) <= Hops(via, j)
  {
    HopsMonotone(via, i, j);
    FoundIsNearest(pages, root, found, via, i);
    FoundIsNearest(pages, root, found, via, j);
  }

  lemma FoundIsNearest(pages: seq<Page>, root: PeerId, found: seq<PeerId>, via: seq<nat>, j: nat)
    requires Complete(pages, root, found, via) && j < |found|
    ensures NearestAt(pages, found[j], Hops(via, j), root)
  {
    FoundReaches(pages, root, found, via, |found| + 1, j);
    forall m: nat | Reaches(pages, found[j], m, root) ensures Hops(via, j) <= m {
      var i := ReachingIsFound(pages, root, found, via, found[j], m);
      assert i == j;
    }
  }

  // ---------------------------------------------------------------- both searches together

  ghost predicate OnePagePerPeer(pages: seq<Page>) {
    forall i, j | 0 <= i < j < |pages| && Identified(pages[i]) && Identified(pages[j]) ::
      pages[i].peerId != pages[j].peerId
  }

  /** What a room promises of its pages: one page per peer, and hosts without a peer upstream. */
  ghost predicate Rooted(pages: seq<Page>) {
    OnePagePerPeer(pages) && forall page | page in pages && page.host :: !page.upstream.Peer?
  }

  lemma {:induction false} ByPeerFinds(pages: seq<Page>, page: Page)
    requires OnePagePerPeer(pages) && page in pages && Identified(page)
    ensures page.peerId.value in ByPeer(pages) && ByPeer(pages)[page.peerId.value] == page
  {
    var n := |pages| - 1;
    if page != pages[n] {
      assert page in pages[..n];
      ByPeerFinds(pages[..n], page);
      var i :| 0 <= i < n && pages[i] == page;
    }
  }

  /** A chain of parents adds its length to the depth of where it ends. */
  lemma {:induction false} ReachingAddsDepth(pages: seq<Page>, id: PeerId, k: nat, root: PeerId, d: nat)
    requires Rooted(pages) && Reaches(pages, id, k, root) && HostAt(ByPeer(pages), root, d)
    ensures HostAt(ByPeer(pages), id, d + k)
    decreases k
  {
    var parent := root;
    if k > 1 {
      parent :| ChildOf(pages, id, parent) && Reaches(pages, parent, k - 1, root);
      ReachingAddsDepth(pages, parent, k - 1, root, d);
    }
    var page :| page in pages && Names(page, parent, id);
    ByPeerFinds(pages, page);
  }

  /**
   With one page per peer and hosts without a peer upstream, descendants of a root at depth `d`
   lie at `d` plus their distance, come in order of depth, and do not include the root.
   */
  lemma DescendantDepths(pages: seq<Page>, root: PeerId, d: nat, found: seq<PeerId>, via: seq<nat>,
                         depths: map<PeerId, nat>)
    requires Rooted(pages) && IsDepthMap(ByPeer(pages), depths) && root in depths && depths[root] == d
    requires Complete(pages, root, found, via)
    ensures root !in found
    ensures forall id | id in found :: id in depths
    ensures forall j, k: nat | 0 <= j < |found| && Reaches(pages, found[j], k, root) :: depths[found[j]] == d + k
    ensures forall i, j | 0 <= i <= j < |found| :: depths[found[i]] <= depths[found[j]]
  {
    var peers := ByPeer(pages);
    assert HostAt(peers, root, d);
    forall j, k: nat | 0 <= j < |found| && Reaches(pages, found[j], k, root)
      ensures found[j] in depths && depths[found[j]] == d + k
    {
      ReachingAddsDepth(pages, found[j], k, root, d);
    }
    forall j | 0 <= j < |found| ensures found[j] in depths && depths[found[j]] == d + Hops(via, j) && found[j] != root {
      FoundReaches(pages, root, found, via, |found| + 1, j);
    }
    forall i, j | 0 <= i <= j < |found| ensures depths[found[i]] <= depths[found[j]] {
      HopsMonotone(via, i, j);
    }
  }

  // ---------------------------------------------------------------- when a root descends from itself

  /** The page of a peer decides its parent. */
  lemma ParentIsUpstream(pages: seq<Page>, id: PeerId, parent: PeerId)
    requires OnePagePerPeer(pages) && ChildOf(pages, id, parent)
    ensures id in ByPeer(pages) && ByPeer(pages)[id].upstream == Peer(parent)
  {
    var page :| page in pages && Names(page, parent, id);
    ByPeerFinds(pages, page);
  }

  /** A chain of parents goes on with the parent of its end. */
  lemma {:induction false} ReachesOn(pages: seq<Page>, id: PeerId, k: nat, end: PeerId, parent: PeerId)
    requires Reaches(pages, id, k, end) && ChildOf(pages, end, parent)
    ensures Reaches(pages, id, k + 1, parent)
    decreases k
  {
    if k == 1 {
      assert Reaches(pages, end, 1, parent);
    } else {
      var next :| ChildOf(pages, id, next) && Reaches(pages, next, k - 1, end);
      ReachesOn(pages, next, k - 1, end, parent);
    }
  }

  /** A root with a depth that descends from itself passes this on to its parent, up to its host. */
  lemma {:induction false} SelfDescentReachesHost(pages: seq<Page>, root: PeerId, d: nat, k: nat) returns (host: PeerId)
    requires OnePagePerPeer(pages) && HostAt(ByPeer(pages), root, d) && Reaches(pages, root, k, root)
    ensures HostAt(ByPeer(pages), host, 0) && Descends(pages, host, host)
    decreases d
  {
    if d == 0 {
      host := root;
    } else {
      var parent := ByPeer(pages)[root].upstream.peerId;
      LeavesByParent(pages, root, d, k);
      ByPeerNames(pages, root);
      ReachesOn(pages, parent, k - 1, root, parent);
      host := SelfDescentReachesHost(pages, parent, d - 1, k);
    }
  }

  /** With one page per peer, some root with a depth descends from itself if and only if some host does. */
  lemma SelfDescentIff(pages: seq<Page>)
    requires OnePagePerPeer(pages)
    ensures (exists root, d: nat :: HostAt(ByPeer(pages), root, d) && Descends(pages, root, root))
       <==> (exists host :: HostAt(ByPeer(pages), host, 0) && Descends(pages, host, host))
  {
    if root, d: nat :| HostAt(ByPeer(pages), root, d) && Descends(pages, root, root) {
      var k: nat :| Reaches(pages, root, k, root);
      var host := SelfDescentReachesHost(pages, root, d, k);
    }
  }

  lemma {:induction false} ReachesThrough(pages: seq<Page>, id: PeerId, k: nat, middle: PeerId, m: nat, end: PeerId)
    requires Reaches(pages, id, k, middle) && Reaches(pages, middle, m, end)
    ensures Reaches(pages, id, k + m, end)
    decreases k
  {
    if k > 1 {
      var next :| ChildOf(pages, id, next) && Reaches(pages, next, k - 1, middle);
      ReachesThrough(pages, next, k - 1, middle, m, end);
    }
  }

  /** The upstream hops of `peerDepths` are route parents. */
  lemma {:induction false} ByPeerNames(pages: seq<Page>, id: PeerId)
    requires id in ByPeer(pages) && ByPeer(pages)[id].upstream.Peer?
    ensures ChildOf(pages, id, ByPeer(pages)[id].upstream.peerId)
  {
    var n := |pages| - 1;
    if !(Identified(pages[n]) && pages[n].peerId.value == id) {
      ByPeerNames(pages[..n], id);
      var page :| page in pages[..n] && Names(page, ByPeer(pages)[id].upstream.peerId, id);
      assert page in pages;
    } else {
      assert Names(pages[n], ByPeer(pages)[id].upstream.peerId, id);
    }
  }

  /** With one page per peer, a root with a depth descends from itself if and only if its host descends from it. */
  lemma {:induction false} RootDescendsIff(pages: seq<Page>, root: PeerId, d: nat, host: PeerId)
    requires OnePagePerPeer(pages) && HostAt(ByPeer(pages), root, d)
    requires Climbs(ByPeer(pages), root, d, host) && HostAt(ByPeer(pages), host, 0)
    ensures Descends(pages, root, root) <==> Descends(pages, host, root)
    decreases d
  {
    if d > 0 {
      var parent := ByPeer(pages)[root].upstream.peerId;
      ByPeerNames(pages, root);
      RootDescendsIff(pages, parent, d - 1, host);
      if k: nat :| Reaches(pages, root, k, root) {
        LeavesByParent(pages, root, d, k);
        ReachesOn(pages, parent, k - 1, root, parent);
        var m: nat :| Reaches(pages, host, m, parent);
        ReachesThrough(pages, host, m, parent, k - 1, root);
      }
      if m: nat :| Reaches(pages, host, m, root) {
        ClimbReaches(pages, root, d, host);
        ReachesThrough(pages, root, d, host, m, root);
      }
    }
  }

  lemma {:induction false} SelfParentHasNoDepth(peers: Peers, id: PeerId, d: nat)
    requires id in peers && peers[id].upstream == Peer(id) && d > 0
    ensures !HostAt(peers, id, d)
  {
    if d > 1 {
      SelfParentHasNoDepth(peers, id, d - 1);
    }
  }

  /** A chain from a peer with a depth back to itself goes through its parent, which is another peer. */
  lemma LeavesByParent(pages: seq<Page>, root: PeerId, d: nat, k: nat)
    requires OnePagePerPeer(pages) && d > 0 && HostAt(ByPeer(pages), root, d) && Reaches(pages, root, k, root)
    ensures k > 1 && Reaches(pages, ByPeer(pages)[root].upstream.peerId, k - 1, root)
  {
    if k == 1 {
      ParentIsUpstream(pages, root, root);
      SelfParentHasNoDepth(ByPeer(pages), root, d);
    } else {
      var next :| ChildOf(pages, root, next) && Reaches(pages, next, k - 1, root);
      ParentIsUpstream(pages, root, next);
    }
  }

  lemma {:induction false} ClimbReaches(pages: seq<Page>, id: PeerId, k: nat, target: PeerId)
    requires k > 0 && Climbs(ByPeer(pages), id, k, target)
    ensures Reaches(pages, id, k, target)
    decreases k
  {
    var parent := ByPeer(pages)[id].upstream.peerId;
    ByPeerNames(pages, id);
    if k > 1 {
      ClimbReaches(pages, parent, k - 1, target);
    } else {
      assert parent == target;
    }
  }

  /** A peer at depth 0 is one whose page is a host's. */
  lemma HostsHaveDepthZero(peers: Peers, id: PeerId)
    ensures HostAt(peers, id, 0) <==> id in peers && peers[id].host
  {
  }

  /** A root without a depth can descend from itself even in a room that keeps its promise. */
  lemma ViewersCanNameEachOther(a: PeerId, b: PeerId)
    requires a != "" && b != "" && a != b
    ensures var pages := [Page(Some(a), false, Peer(b)), Page(Some(b), false, Peer(a))];
      Rooted(pages) && Descends(pages, a, a) && forall d: nat :: !HostAt(ByPeer(pages), a, d)
  {
    var pages := [Page(Some(a), false, Peer(b)), Page(Some(b), false, Peer(a))];
    assert pages[0] in pages && Names(pages[0], b, a) && pages[1] in pages && Names(pages[1], a, b);
    assert ChildOf(pages, a, b) && Reaches(pages, b, 1, a);
    assert Reaches(pages, a, 2, a);
    forall d: nat ensures !HostAt(ByPeer(pages), a, d) {
      if HostAt(ByPeer(pages), a, d) {
        var host := SelfDescentReachesHost(pages, a, d, 2);
        NoHostPage(pages, host);
      }
    }
  }

  lemma {:induction false} NoHostPage(pages: seq<Page>, id: PeerId)
    requires forall page | page in pages :: !page.host
    ensures !HostAt(ByPeer(pages), id, 0)
  {
    if pages != [] {
      NoHostPage(pages[..|pages| - 1], id);
    }
  }

  /** Without that promise a root can descend from itself: a host that names itself as its parent. */
  lemma SelfParentDescends(host: PeerId)
    requires host != ""
    ensures var pages := [Page(Some(host), true, Peer(host))];
      !Rooted(pages) && HostAt(ByPeer(pages), host, 0) && Reaches(pages, host, 1, host)
  {
  }
}
