/**
 * `computeGossipSummary`: which NPCs hold which gossip items. The network lists, for each NPC id
 * in `Object.entries` order, that NPC's items; every item is filed under its key, and each key
 * collects the NPCs that hold it and the sources it came from.
 *
 * JavaScript falsiness is modelled on the optional fields: `None` stands for a missing, `null`,
 * `0` or `false` value, and an empty string is falsy as well.
 */
module ReportScreen {
  import opened Wrappers
  import opened Text
  import opened Seqs

  /** A gossip item as the summary reads it; `json` is what `JSON.stringify(it)` returns. */
  datatype Item = Item(id: Option<string>, summary: Option<string>, text: Option<string>, source: Option<string>, json: string)

  /** A JavaScript value that is a truthy string. */
  predicate Truthy(o: Option<string>) {
    o.Some? && o.value != ""
  }

  /** `o || fallback`. */
  function OrElse(o: Option<string>, fallback: string): (r: string)
    ensures Truthy(o) ==> r == o.value
    ensures !Truthy(o) ==> r == fallback
  {
    if Truthy(o) then o.value else fallback
  }

  /** `it.id || it.summary || JSON.stringify(it).slice(0, 40)`. */
  function Key(it: Item): string {
    OrElse(it.id, OrElse(it.summary, Truncate(it.json, 40)))
  }

  /** `it.summary || it.text || "(no summary)"`. */
  function Label(it: Item): string {
    OrElse(it.summary, OrElse(it.text, "(no summary)"))
  }

  /** One item in the hands of one NPC. */
  datatype Holding = Holding(npcId: string, item: Item)

  /** The items of one NPC, in list order. */
  function Holdings(npcId: string, items: seq<Item>): (r: seq<Holding>)
    ensures |r| == |items|
    ensures forall j | 0 <= j < |items| :: r[j] == Holding(npcId, items[j])
  {
    seq(|items|, j requires 0 <= j < |items| => Holding(npcId, items[j]))
  }

  /** Every holding the nested loops visit, in visiting order; a missing item list gives none. */
  function Flatten(network: seq<(string, Option<seq<Item>>)>): seq<Holding>
    decreases |network|
  {
    if network == [] then []
    else
      var last := network[|network| - 1];
      Flatten(network[..|network| - 1]) + Holdings(last.0, last.1.GetOr([]))
  }

  /** `map[gid]`: the summary fixed when the key was first seen, and the holder and source sets. */
  datatype Bucket = Bucket(summary: string, holders: seq<string>, sources: seq<string>)

  /** The `map` object: its keys in insertion order and its entries. */
  datatype Acc = Acc(order: seq<string>, buckets: map<string, Bucket>)

  /** One iteration of the inner loop. */
  function Absorb(acc: Acc, h: Holding): Acc {
    var k := Key(h.item);
    var isNew := k !in acc.buckets;
    var b := if isNew then Bucket(Label(h.item), [], []) else acc.buckets[k];
    var holders := AddIfAbsent(b.holders, h.npcId);
    var sources := if Truthy(h.item.source) then AddIfAbsent(b.sources, h.item.source.value) else b.sources;
    Acc(if isNew then acc.order + [k] else acc.order, acc.buckets[k := Bucket(b.summary, holders, sources)])
  }

  /** The `map` object after the loops visit the holdings `hs` in order. */
  function Fold(hs: seq<Holding>): Acc
    decreases |hs|
  {
    if hs == [] then Acc([], map[]) else Absorb(Fold(hs[..|hs| - 1]), hs[|hs| - 1])
  }

  /** One row of the result. */
  datatype Summary = Summary(id: string, summary: string, holders: seq<string>, sources: seq<string>)

  /** `Object.entries(map).map(...)`, with the keys in insertion order. */
  function Project(acc: Acc): (r: seq<Summary>)
    requires forall k | k in acc.order :: k in acc.buckets
    ensures |r| == |acc.order|
    ensures forall a | 0 <= a < |r| ::
      r[a] == Summary(acc.order[a], acc.buckets[acc.order[a]].summary, acc.buckets[acc.order[a]].holders, acc.buckets[acc.order[a]].sources)
  {
    seq(|acc.order|, a requires 0 <= a < |acc.order| =>
      var b := acc.buckets[acc.order[a]];
      Summary(acc.order[a], b.summary, b.holders, b.sources))
  }

  /** The result `computeGossipSummary(network)` returns; a null network gives `[]`. */
  function Summaries(network: Option<seq<(string, Option<seq<Item>>)>>): seq<Summary> {
    match network
    case None => []
    case Some(ns) =>
      var acc := Fold(Flatten(ns));
      KeysInvariant(Flatten(ns));
      Project(acc)
  }

  /** The loops of `computeGossipSummary`, over the map object's keys and entries. */
  method ComputeGossipSummary(network: Option<seq<(string, Option<seq<Item>>)>>) returns (result: seq<Summary>)
    ensures result == Summaries(network)
  {
    if network.None? {
      return [];
    }
    var ns := network.value;
    var order: seq<string> := [];
    var buckets: map<string, Bucket> := map[];
    for i := 0 to |ns|
      invariant Acc(order, buckets) == Fold(Flatten(ns[..i]))
    {
      order, buckets := FileItems(ns[i].0, ns[i].1.GetOr([]), order, buckets, Flatten(ns[..i]));
      FlattenStep(ns, i);
    }
    assert ns[..|ns|] == ns;
    KeysInvariant(Flatten(ns));
    result := Project(Acc(order, buckets));
  }

  /** The inner loop: the items of one NPC, filed one by one into the map object. */
  method FileItems(npcId: string, items: seq<Item>, order0: seq<string>, buckets0: map<string, Bucket>, ghost before: seq<Holding>)
    returns (order: seq<string>, buckets: map<string, Bucket>)
    requires Acc(order0, buckets0) == Fold(before)
    ensures Acc(order, buckets) == Fold(before + Holdings(npcId, items))
  {
    order, buckets := order0, buckets0;
    assert before + Holdings(npcId, items[..0]) == before;
    for j := 0 to |items|
      invariant Acc(order, buckets) == Fold(before + Holdings(npcId, items[..j]))
    {
      var it := items[j];
      ghost var acc := Acc(order, buckets);
      var gid := Key(it);
      // `map[gid]` is one object: created on first sight, then its two sets grow in place.
      var b: Bucket;
      if gid !in buckets {
        b := Bucket(Label(it), [], []);
        order := order + [gid];
      } else {
        b := buckets[gid];
      }
      b := b.(holders := AddIfAbsent(b.holders, npcId));
      if Truthy(it.source) {
        b := b.(sources := AddIfAbsent(b.sources, it.source.value));
      }
      buckets := buckets[gid := b];
      assert Acc(order, buckets) == Absorb(acc, Holding(npcId, it));
      FoldStep(before, npcId, items, j);
    }
    assert items[..|items|] == items;
  }

  /** One more item of the current NPC is one more step of the fold. */
  lemma {:induction false} FoldStep(before: seq<Holding>, npcId: string, items: seq<Item>, j: nat)
    requires j < |items|
    ensures Fold(before + Holdings(npcId, items[..j + 1])) == Absorb(Fold(before + Holdings(npcId, items[..j])), Holding(npcId, items[j]))
  {
    var hs := before + Holdings(npcId, items[..j]);
    var last := Holding(npcId, items[j]);
    assert Holdings(npcId, items[..j + 1]) == Holdings(npcId, items[..j]) + [last];
    assert before + Holdings(npcId, items[..j + 1]) == hs + [last];
    FoldSnoc(hs, last);
  }

  /** The fold of `hs + [h]` absorbs `h` last. */
  lemma FoldSnoc(hs: seq<Holding>, h: Holding)
    ensures Fold(hs + [h]) == Absorb(Fold(hs), h)
  {
    assert (hs + [h])[..|hs|] == hs;
  }

  /** All items of one more NPC. */
  lemma {:induction false} FlattenStep(ns: seq<(string, Option<seq<Item>>)>, i: nat)
    requires i < |ns|
    ensures Flatten(ns[..i + 1]) == Flatten(ns[..i]) + Holdings(ns[i].0, ns[i].1.GetOr([]))
  {
    assert ns[..i + 1][..i] == ns[..i];
  }

  // ---------------------------------------------------------------------------------------------
  // What the map object holds after the loops

  /** Some visited holding files its item under `k`. */
  ghost predicate Seen(hs: seq<Holding>, k: string) {
    exists j | 0 <= j < |hs| :: Key(hs[j].item) == k
  }

  /** The keys: listed once each, and exactly the keys of the visited items. */
  lemma {:induction false} KeysInvariant(hs: seq<Holding>)
    ensures NoDup(Fold(hs).order)
    ensures forall k :: k in Fold(hs).order <==> k in Fold(hs).buckets
    ensures forall k :: k in Fold(hs).buckets <==> Seen(hs, k)
    decreases |hs|
  {
    if hs != [] {
      var init := hs[..|hs| - 1];
      var last := hs[|hs| - 1];
      assert hs == init + [last];
      KeysInvariant(init);
      FoldSnoc(init, last);
      forall k
        ensures Seen(hs, k) <==> Seen(init, k) || k == Key(last.item)
      {
        SeenSnoc(init, last, k);
      }
    }
  }

  /** The keys seen in `init + [last]`. */
  lemma SeenSnoc(init: seq<Holding>, last: Holding, k: string)
    ensures Seen(init + [last], k) <==> Seen(init, k) || k == Key(last.item)
  {
    var hs := init + [last];
    assert forall j | 0 <= j < |init| :: hs[j] == init[j];
    assert hs[|init|] == last;
  }

  /** NPC `n` holds an item filed under `k`. */
  ghost predicate Holds(hs: seq<Holding>, k: string, n: string) {
    exists it :: Holding(n, it) in hs && Key(it) == k
  }

  /** An item filed under `k` names `src` as a truthy source. */
  ghost predicate Cites(hs: seq<Holding>, k: string, src: string) {
    exists h | h in hs :: Key(h.item) == k && Truthy(h.item.source) && h.item.source.value == src
  }

  /** The `j`-th holding is the first one filed under `k`. */
  predicate FirstWith(hs: seq<Holding>, k: string, j: int) {
    0 <= j < |hs| && Key(hs[j].item) == k && forall i | 0 <= i < j :: Key(hs[i].item) != k
  }

  /** What `map[k]` holds: the holders and sources of `k` once each, and the first item's label. */
  ghost predicate BucketOk(hs: seq<Holding>, k: string, b: Bucket) {
    && NoDup(b.holders) && NoDup(b.sources)
    && (forall n :: n in b.holders <==> Holds(hs, k, n))
    && (forall src :: src in b.sources <==> Cites(hs, k, src))
    && (forall j | FirstWith(hs, k, j) :: b.summary == Label(hs[j].item))
  }

  /** A key with a holder or a source has been seen. */
  lemma UsedIsSeen(hs: seq<Holding>, k: string, n: string, src: string)
    ensures Holds(hs, k, n) ==> Seen(hs, k)
    ensures Cites(hs, k, src) ==> Seen(hs, k)
  {
    if Holds(hs, k, n) {
      var it :| Holding(n, it) in hs && Key(it) == k;
      var j :| 0 <= j < |hs| && hs[j] == Holding(n, it);
    }
    if Cites(hs, k, src) {
      var h :| h in hs && Key(h.item) == k && Truthy(h.item.source) && h.item.source.value == src;
      var j :| 0 <= j < |hs| && hs[j] == h;
    }
  }

  /** The first holding of `k` in `init + [last]`. */
  lemma FirstWithSnoc(init: seq<Holding>, last: Holding, k: string, j: int)
    ensures FirstWith(init + [last], k, j) <==>
      FirstWith(init, k, j) || (j == |init| && Key(last.item) == k && !Seen(init, k))
  {
    var hs := init + [last];
    assert forall i | 0 <= i < |init| :: hs[i] == init[i];
    assert hs[|init|] == last;
  }

  /** The holders of `init + [last]`. */
  lemma HoldsSnoc(init: seq<Holding>, last: Holding, k: string, n: string)
    ensures Holds(init + [last], k, n) <==> Holds(init, k, n) || (last.npcId == n && Key(last.item) == k)
  {
    var hs := init + [last];
    if Holds(init, k, n) {
      var it :| Holding(n, it) in init && Key(it) == k;
      assert Holding(n, it) in hs;
    }
    if last.npcId == n && Key(last.item) == k {
      assert Holding(n, last.item) in hs;
    }
  }

  /** The sources of `init + [last]`. */
  lemma CitesSnoc(init: seq<Holding>, last: Holding, k: string, src: string)
    ensures Cites(init + [last], k, src) <==>
      Cites(init, k, src) || (Key(last.item) == k && Truthy(last.item.source) && last.item.source.value == src)
  {
    var hs := init + [last];
    if Cites(init, k, src) {
      var h :| h in init && Key(h.item) == k && Truthy(h.item.source) && h.item.source.value == src;
      assert h in hs;
    }
  }

  /** One step keeps the holders of `k` right. */
  lemma HoldersStep(init: seq<Holding>, last: Holding, acc: Acc, k: string)
    requires forall k1 :: k1 in acc.buckets <==> Seen(init, k1)
    requires k in acc.buckets ==> NoDup(acc.buckets[k].holders) && forall n :: n in acc.buckets[k].holders <==> Holds(init, k, n)
    requires k in Absorb(acc, last).buckets
    ensures NoDup(Absorb(acc, last).buckets[k].holders)
    ensures forall n :: n in Absorb(acc, last).buckets[k].holders <==> Holds(init + [last], k, n)
  {
    var b := Absorb(acc, last).buckets[k];
    forall n ensures n in b.holders <==> Holds(init + [last], k, n) {
      HoldsSnoc(init, last, k, n);
      UsedIsSeen(init, k, n, "");
    }
    if k == Key(last.item) && k in acc.buckets {
      AddIfAbsentKeepsNoDup(acc.buckets[k].holders, last.npcId);
    }
  }

  /** One step keeps the sources of `k` right. */
  lemma SourcesStep(init: seq<Holding>, last: Holding, acc: Acc, k: string)
    requires forall k1 :: k1 in acc.buckets <==> Seen(init, k1)
    requires k in acc.buckets ==> NoDup(acc.buckets[k].sources) && forall src :: src in acc.buckets[k].sources <==> Cites(init, k, src)
    requires k in Absorb(acc, last).buckets
    ensures NoDup(Absorb(acc, last).buckets[k].sources)
    ensures forall src :: src in Absorb(acc, last).buckets[k].sources <==> Cites(init + [last], k, src)
  {
    var b := Absorb(acc, last).buckets[k];
    forall src ensures src in b.sources <==> Cites(init + [last], k, src) {
      CitesSnoc(init, last, k, src);
      UsedIsSeen(init, k, "", src);
    }
    if k == Key(last.item) && k in acc.buckets && Truthy(last.item.source) {
      AddIfAbsentKeepsNoDup(acc.buckets[k].sources, last.item.source.value);
    }
  }

  /** One step keeps the summary of `k` right. */
  lemma SummaryStep(init: seq<Holding>, last: Holding, acc: Acc, k: string)
    requires forall k1 :: k1 in acc.buckets <==> Seen(init, k1)
    requires k in acc.buckets ==> forall j | FirstWith(init, k, j) :: acc.buckets[k].summary == Label(init[j].item)
    requires k in Absorb(acc, last).buckets
    ensures forall j | FirstWith(init + [last], k, j) :: Absorb(acc, last).buckets[k].summary == Label((init + [last])[j].item)
  {
    forall j | FirstWith(init + [last], k, j)
      ensures Absorb(acc, last).buckets[k].summary == Label((init + [last])[j].item)
    {
      FirstWithSnoc(init, last, k, j);
      if j < |init| {
        assert (init + [last])[j] == init[j];
      }
    }
  }

  /** Every entry of the map object, as `BucketOk` says. */
  lemma {:induction false} BucketsInvariant(hs: seq<Holding>)
    ensures forall k | k in Fold(hs).buckets :: BucketOk(hs, k, Fold(hs).buckets[k])
    decreases |hs|
  {
    if hs != [] {
      var init := hs[..|hs| - 1];
      var last := hs[|hs| - 1];
      assert hs == init + [last];
      KeysInvariant(init);
      BucketsInvariant(init);
      FoldSnoc(init, last);
      forall k | k in Fold(hs).buckets
        ensures BucketOk(hs, k, Fold(hs).buckets[k])
      {
        HoldersStep(init, last, Fold(init), k);
        SourcesStep(init, last, Fold(init), k);
        SummaryStep(init, last, Fold(init), k);
      }
    }
  }

  /** Keys appear in the order their first holdings were visited. */
  lemma {:induction false} OrderIsFirstSight(hs: seq<Holding>)
    ensures FirstSightOrder(hs, Fold(hs).order)
    decreases |hs|
  {
    if hs != [] {
      var init := hs[..|hs| - 1];
      var last := hs[|hs| - 1];
      assert hs == init + [last];
      KeysInvariant(init);
      OrderIsFirstSight(init);
      FoldSnoc(init, last);
      var prev := Fold(init).order;
      var order := Fold(hs).order;
      forall a, b, ja, jb | 0 <= a < b < |order| && FirstWith(hs, order[a], ja) && FirstWith(hs, order[b], jb)
        ensures ja < jb
      {
        FirstSightStep(init, last, prev, order, a, b, ja, jb);
      }
    }
  }

  /** Of any two keys of `order`, the earlier one was first seen earlier in `hs`. */
  ghost predicate FirstSightOrder(hs: seq<Holding>, order: seq<string>) {
    forall a, b, ja, jb | 0 <= a < b < |order| && FirstWith(hs, order[a], ja) && FirstWith(hs, order[b], jb) :: ja < jb
  }

  /** Appending one holding to the visit keeps first-sight order. */
  lemma FirstSightStep(init: seq<Holding>, last: Holding, prev: seq<string>, order: seq<string>, a: int, b: int, ja: int, jb: int)
    requires forall k :: k in prev <==> Seen(init, k)
    requires FirstSightOrder(init, prev)
    requires order == prev || (order == prev + [Key(last.item)] && !Seen(init, Key(last.item)))
    requires 0 <= a < b < |order| && FirstWith(init + [last], order[a], ja) && FirstWith(init + [last], order[b], jb)
    ensures ja < jb
  {
    FirstWithSnoc(init, last, order[a], ja);
    FirstWithSnoc(init, last, order[b], jb);
    assert order[a] == prev[a];
    if b < |prev| {
      assert order[b] == prev[b];
    }
  }

  // ---------------------------------------------------------------------------------------------
  // The result, in terms of the network

  /** NPC `n` lists an item filed under `k`. */
  ghost predicate HeldIn(ns: seq<(string, Option<seq<Item>>)>, k: string, n: string) {
    exists i, it | 0 <= i < |ns| && it in ns[i].1.GetOr([]) :: ns[i].0 == n && Key(it) == k
  }

  /** An item filed under `k`, listed by any NPC, names `src` as a truthy source. */
  ghost predicate SourcedIn(ns: seq<(string, Option<seq<Item>>)>, k: string, src: string) {
    exists i, it | 0 <= i < |ns| && it in ns[i].1.GetOr([]) :: Key(it) == k && Truthy(it.source) && it.source.value == src
  }

  /** The loops visit exactly the pairs of an NPC and an item on its list. */
  lemma {:induction false} FlattenHas(ns: seq<(string, Option<seq<Item>>)>, n: string, it: Item)
    ensures Holding(n, it) in Flatten(ns) <==> Listed(ns, n, it)
    decreases |ns|
  {
    if ns != [] {
      var init := ns[..|ns| - 1];
      var last := ns[|ns| - 1];
      FlattenHas(init, n, it);
      HoldingsHas(last.0, last.1.GetOr([]), n, it);
      ListedSnoc(init, last, n, it);
      assert ns == init + [last];
    }
  }

  /** NPC `n` has `it` on its list. */
  ghost predicate Listed(ns: seq<(string, Option<seq<Item>>)>, n: string, it: Item) {
    exists i | 0 <= i < |ns| :: ns[i].0 == n && it in ns[i].1.GetOr([])
  }

  /** One NPC's holdings are its pairs with its items. */
  lemma HoldingsHas(npcId: string, items: seq<Item>, n: string, it: Item)
    ensures Holding(n, it) in Holdings(npcId, items) <==> npcId == n && it in items
  {
    var hs := Holdings(npcId, items);
    if Holding(n, it) in hs {
      var j :| 0 <= j < |hs| && hs[j] == Holding(n, it);
      assert items[j] == it;
    }
    if npcId == n && it in items {
      var j :| 0 <= j < |items| && items[j] == it;
      assert hs[j] == Holding(n, it);
    }
  }

  /** The listed pairs of `init + [last]`. */
  lemma ListedSnoc(init: seq<(string, Option<seq<Item>>)>, last: (string, Option<seq<Item>>), n: string, it: Item)
    ensures Listed(init + [last], n, it) <==> Listed(init, n, it) || (last.0 == n && it in last.1.GetOr([]))
  {
    var ns := init + [last];
    assert forall i | 0 <= i < |init| :: ns[i] == init[i];
    assert ns[|init|] == last;
  }

  /** Holders and sources of the visited holdings are those of the network. */
  lemma HeldInIff(ns: seq<(string, Option<seq<Item>>)>, k: string, n: string, src: string)
    ensures Holds(Flatten(ns), k, n) <==> HeldIn(ns, k, n)
    ensures Cites(Flatten(ns), k, src) <==> SourcedIn(ns, k, src)
  {
    var hs := Flatten(ns);
    if Holds(hs, k, n) {
      var it :| Holding(n, it) in hs && Key(it) == k;
      FlattenHas(ns, n, it);
    }
    if HeldIn(ns, k, n) {
      var i, it :| 0 <= i < |ns| && it in ns[i].1.GetOr([]) && ns[i].0 == n && Key(it) == k;
      FlattenHas(ns, n, it);
    }
    if Cites(hs, k, src) {
      var h :| h in hs && Key(h.item) == k && Truthy(h.item.source) && h.item.source.value == src;
      FlattenHas(ns, h.npcId, h.item);
    }
    if SourcedIn(ns, k, src) {
      var i, it :| 0 <= i < |ns| && it in ns[i].1.GetOr([]) && Key(it) == k && Truthy(it.source) && it.source.value == src;
      FlattenHas(ns, ns[i].0, it);
    }
  }

  /** Each row of the result is one key, listed once, and every key of a listed item has a row. */
  lemma SummariesHaveEachKeyOnce(ns: seq<(string, Option<seq<Item>>)>)
    ensures var r := Summaries(Some(ns));
      && (forall a, b | 0 <= a < b < |r| :: r[a].id != r[b].id)
      && (forall k :: (exists a | 0 <= a < |r| :: r[a].id == k) <==> Seen(Flatten(ns), k))
  {
    var hs := Flatten(ns);
    KeysInvariant(hs);
    var r := Summaries(Some(ns));
    var order := Fold(hs).order;
    forall k | Seen(hs, k) ensures exists a | 0 <= a < |r| :: r[a].id == k {
      var a :| 0 <= a < |order| && order[a] == k;
      assert r[a].id == k;
    }
  }

  /**
   * The holders of row `a` are the NPCs that list an item under its key, and its sources the
   * truthy sources of those items, each once.
   */
  lemma RowHoldersAndSources(ns: seq<(string, Option<seq<Item>>)>, a: nat)
    requires a < |Summaries(Some(ns))|
    ensures var row := Summaries(Some(ns))[a];
      && (forall n :: n in row.holders <==> HeldIn(ns, row.id, n))
      && (forall src :: src in row.sources <==> SourcedIn(ns, row.id, src))
      && NoDup(row.holders) && NoDup(row.sources)
  {
    var hs := Flatten(ns);
    KeysInvariant(hs);
    BucketsInvariant(hs);
    var acc := Fold(hs);
    var k := acc.order[a];
    assert k in acc.buckets;
    assert BucketOk(hs, k, acc.buckets[k]);
    var row := Summaries(Some(ns))[a];
    assert row == Summary(k, acc.buckets[k].summary, acc.buckets[k].holders, acc.buckets[k].sources);
    assert row.id == k;
    var b := acc.buckets[k];
    forall n ensures n in b.holders <==> HeldIn(ns, k, n) {
      HeldInIff(ns, k, n, "");
    }
    forall src ensures src in b.sources <==> SourcedIn(ns, k, src) {
      HeldInIff(ns, k, "", src);
    }
  }

  /** A row's summary is the label of the first listed item filed under its key, and rows follow first sight. */
  lemma SummariesFollowFirstSight(ns: seq<(string, Option<seq<Item>>)>)
    ensures var r := Summaries(Some(ns));
      var hs := Flatten(ns);
      && (forall a, j | 0 <= a < |r| && FirstWith(hs, r[a].id, j) :: r[a].summary == Label(hs[j].item))
      && (forall a, b, ja, jb | 0 <= a < b < |r| && FirstWith(hs, r[a].id, ja) && FirstWith(hs, r[b].id, jb) :: ja < jb)
  {
    var hs := Flatten(ns);
    KeysInvariant(hs);
    BucketsInvariant(hs);
    OrderIsFirstSight(hs);
  }

  /** A missing item list counts as an empty one (`items || []`). */
  lemma {:induction false} MissingItemsAreEmpty(ns: seq<(string, Option<seq<Item>>)>, i: nat)
    requires i < |ns| && ns[i].1.None?
    ensures Summaries(Some(ns)) == Summaries(Some(ns[i := (ns[i].0, Some([]))]))
    decreases |ns|
  {
    FlattenIgnoresMissing(ns, i);
  }

  lemma {:induction false} FlattenIgnoresMissing(ns: seq<(string, Option<seq<Item>>)>, i: nat)
    requires i < |ns| && ns[i].1.None?
    ensures Flatten(ns) == Flatten(ns[i := (ns[i].0, Some([]))])
    decreases |ns|
  {
    var ms := ns[i := (ns[i].0, Some([]))];
    if i < |ns| - 1 {
      assert ms[..|ms| - 1] == ns[..|ns| - 1][i := (ns[i].0, Some([]))];
      FlattenIgnoresMissing(ns[..|ns| - 1], i);
    } else {
      assert ms[..|ms| - 1] == ns[..|ns| - 1];
    }
  }

  // ---------------------------------------------------------------------------------------------
  // The loops as written, on a plain object `{}`

  /** The property names every plain object inherits from `Object.prototype`. */
  const InheritedNames: set<string> := {
    "constructor", "__proto__", "toString", "toLocaleString", "valueOf", "hasOwnProperty",
    "isPrototypeOf", "propertyIsEnumerable", "__defineGetter__", "__defineSetter__",
    "__lookupGetter__", "__lookupSetter__"
  }

  /**
   * One inner-loop step on `{}`: an inherited name reads as a truthy `map[gid]`, so no entry is
   * made and `map[gid].holders.add` throws a `TypeError`, shown as `None`.
   */
  function AbsorbAsWritten(acc: Acc, h: Holding): (r: Option<Acc>)
    ensures r.None? <==> Key(h.item) !in acc.buckets && Key(h.item) in InheritedNames
    ensures r.Some? ==> r.value == Absorb(acc, h)
  {
    if Key(h.item) !in acc.buckets && Key(h.item) in InheritedNames then None else Some(Absorb(acc, h))
  }

  /** The loops as written over the holdings `hs`; `None` when one of the steps throws. */
  function FoldAsWritten(hs: seq<Holding>): Option<Acc>
    decreases |hs|
  {
    if hs == [] then Some(Acc([], map[]))
    else
      match FoldAsWritten(hs[..|hs| - 1])
      case None => None
      case Some(acc) => AbsorbAsWritten(acc, hs[|hs| - 1])
  }

  /** `computeGossipSummary` as written; `None` when it throws. */
  function SummariesAsWritten(network: Option<seq<(string, Option<seq<Item>>)>>): Option<seq<Summary>> {
    match network
    case None => Some([])
    case Some(ns) =>
      match FoldAsWritten(Flatten(ns))
      case None => None
      case Some(acc) => Some(Summaries(network))
  }

  /** Some visited item is filed under an inherited name. */
  ghost predicate HitsInherited(hs: seq<Holding>) {
    exists j | 0 <= j < |hs| :: Key(hs[j].item) in InheritedNames
  }

  /** Whether `init + [last]` hits an inherited name. */
  lemma HitsInheritedSnoc(init: seq<Holding>, last: Holding)
    ensures HitsInherited(init + [last]) <==> HitsInherited(init) || Key(last.item) in InheritedNames
  {
    var hs := init + [last];
    assert forall j | 0 <= j < |init| :: hs[j] == init[j];
    assert hs[|init|] == last;
  }

  /** The loops as written throw exactly when an item is filed under an inherited name, and agree otherwise. */
  lemma {:induction false} AsWrittenThrowsOnInherited(hs: seq<Holding>)
    ensures FoldAsWritten(hs) == if HitsInherited(hs) then None else Some(Fold(hs))
    decreases |hs|
  {
    if hs != [] {
      var init := hs[..|hs| - 1];
      var last := hs[|hs| - 1];
      assert hs == init + [last];
      AsWrittenThrowsOnInherited(init);
      HitsInheritedSnoc(init, last);
      if !HitsInherited(init) && Key(last.item) in InheritedNames {
        KeysInvariant(init);
        assert Key(last.item) !in Fold(init).buckets;
      }
    }
  }

  /** The result in both readings, for every network. */
  lemma AsWrittenAgreesUnlessInherited(ns: seq<(string, Option<seq<Item>>)>)
    ensures SummariesAsWritten(Some(ns)) == if HitsInherited(Flatten(ns)) then None else Some(Summaries(Some(ns)))
  {
    AsWrittenThrowsOnInherited(Flatten(ns));
  }

  /** A gossip item whose id is `"constructor"` makes the code as written throw. */
  lemma ConstructorIdThrows()
    ensures SummariesAsWritten(Some([("npc", Some([ConstructorItem]))])) == None
  {
    var h := ConstructorFlattens();
    assert Key(ConstructorItem) == "constructor";
    assert "constructor" in InheritedNames;
    assert [h][..0] == [];
    assert FoldAsWritten([h]) == None;
  }

  /** The intended summary of the same network has one row for the `"constructor"` key. */
  lemma ConstructorIdSummary()
    ensures Summaries(Some([("npc", Some([ConstructorItem]))])) == [Summary("constructor", "(no summary)", ["npc"], [])]
  {
    var h := ConstructorFlattens();
    assert [h][..0] == [];
    assert Key(ConstructorItem) == "constructor";
    assert Label(ConstructorItem) == "(no summary)";
    var acc := Acc(["constructor"], map["constructor" := Bucket("(no summary)", ["npc"], [])]);
    assert AddIfAbsent([], "npc") == ["npc"];
    assert Absorb(Acc([], map[]), h) == acc;
    assert Fold([h]) == acc;
    assert Project(acc) == [Summary("constructor", "(no summary)", ["npc"], [])];
  }

  /** The item `{ id: "constructor" }`. */
  const ConstructorItem: Item := Item(Some("constructor"), None, None, None, "{\"id\":\"constructor\"}")

  /** The one-NPC network holding that item flattens to one holding. */
  lemma ConstructorFlattens() returns (h: Holding)
    ensures h == Holding("npc", ConstructorItem) && Flatten([("npc", Some([ConstructorItem]))]) == [h]
  {
    var ns := [("npc", Some([ConstructorItem]))];
    h := Holding("npc", ConstructorItem);
    assert ns[..0] == [];
    assert Holdings("npc", [ConstructorItem]) == [h];
  }
}
