/** What is played of a run when only some of its tables have come. */
module PlayedTables {
  import opened RampCheck
  import opened Sequences
  import opened TableController
  import opened RampSafety

  /** A table sent: a transient, which is played once, or a target. */
  datatype Item = Item(table: Table, once: bool)

  function ItemsOf(a: Accepted): seq<Item> {
    var all := match a.transient
      case NoTransient => [Item(a.target, false)]
      case Inserted(tr) => [Item(tr, true), Item(a.target, false)];
    all[..Taken(a.fate, |all|)]
  }

  function AllItems(h: seq<Accepted>): seq<Item> {
    if h == [] then [] else AllItems(h[..|h| - 1]) + ItemsOf(h[|h| - 1])
  }

  function PlayedItem(x: Item, reps: nat): Table {
    if x.once then x.table else Repeat(x.table, reps)
  }

  function PlayedItems(xs: seq<Item>, reps: seq<nat>): Table
    requires |reps| == |xs|
  {
    if xs == [] then [] else PlayedItems(xs[..|xs| - 1], reps[..|xs| - 1]) + PlayedItem(xs[|xs| - 1], reps[|xs| - 1])
  }

  /** Each item is played at least once. */
  predicate Often(reps: seq<nat>, xs: seq<Item>) {
    |reps| == |xs| && forall i | 0 <= i < |reps| :: reps[i] >= 1
  }

  lemma OneMoreItem(xs: seq<Item>, y: Item, rx: seq<nat>, r: nat)
    requires |rx| == |xs|
    ensures PlayedItems(xs + [y], rx + [r]) == PlayedItems(xs, rx) + PlayedItem(y, r)
  {
    assert (xs + [y])[..|xs|] == xs && (rx + [r])[..|xs|] == rx;
  }

  lemma ConcatOneMore(xs: seq<Item>, zs: seq<Item>, y: Item, rx: seq<nat>, rz: seq<nat>, r: nat)
    requires |rx| == |xs| && |rz| == |zs|
    requires PlayedItems(xs + zs, rx + rz) == PlayedItems(xs, rx) + PlayedItems(zs, rz)
    ensures PlayedItems(xs + (zs + [y]), rx + (rz + [r])) == PlayedItems(xs, rx) + PlayedItems(zs + [y], rz + [r])
  {
    OneMoreItem(xs + zs, y, rx + rz, r);
    OneMoreItem(zs, y, rz, r);
    Regroup(xs, zs, [y]);
    Regroup(rx, rz, [r]);
    Regroup(PlayedItems(xs, rx), PlayedItems(zs, rz), PlayedItem(y, r));
  }

  lemma {:induction false} PlayedConcat(xs: seq<Item>, ys: seq<Item>, rx: seq<nat>, ry: seq<nat>)
    requires |rx| == |xs| && |ry| == |ys|
    ensures PlayedItems(xs + ys, rx + ry) == PlayedItems(xs, rx) + PlayedItems(ys, ry)
  {
    if ys == [] {
      assert xs + ys == xs && rx + ry == rx;
    } else {
      var k := |ys| - 1;
      PlayedConcat(xs, ys[..k], rx, ry[..k]);
      ConcatOneMore(xs, ys[..k], ys[k], rx, ry[..k], ry[k]);
      ButLast(ys);
      ButLast(ry);
    }
  }

  lemma OneItem(x: Item, reps: nat)
    ensures PlayedItems([x], [reps]) == PlayedItem(x, reps)
  {
    assert [x][..0] == [] && [reps][..0] == [];
  }

  lemma TwoItems(x: Item, y: Item, rx: nat, ry: nat)
    ensures PlayedItems([x, y], [rx, ry]) == PlayedItem(x, rx) + PlayedItem(y, ry)
  {
    OneItem(x, rx);
    OneItem(y, ry);
    PlayedConcat([x], [y], [rx], [ry]);
    assert [x] + [y] == [x, y] && [rx] + [ry] == [rx, ry];
  }

  /** The items of one update are played as the update is. */
  lemma UpdateItems(a: Accepted, reps: seq<nat>) returns (n: nat)
    requires Often(reps, ItemsOf(a))
    ensures n == (if reps == [] then 1 else reps[|reps| - 1]) && PlayedItems(ItemsOf(a), reps) == Played(a, n)
  {
    var xs := ItemsOf(a);
    n := if reps == [] then 1 else reps[|reps| - 1];
    if |xs| == 1 {
      assert xs == [xs[0]] && reps == [reps[0]];
      OneItem(xs[0], reps[0]);
    } else if |xs| == 2 {
      assert xs == [xs[0], xs[1]] && reps == [reps[0], reps[1]];
      TwoItems(xs[0], xs[1], reps[0], reps[1]);
    }
  }

  lemma {:induction false} HistoryItems(h: seq<Accepted>, reps: seq<nat>) returns (ns: seq<nat>)
    requires Often(reps, AllItems(h))
    ensures AllPlayed(ns, h) && PlayedItems(AllItems(h), reps) == Trace(h, ns)
  {
    ns := [];
    if h != [] {
      var xs, ys := AllItems(h[..|h| - 1]), ItemsOf(h[|h| - 1]);
      var rx, ry := reps[..|xs|], reps[|xs|..];
      TakeDrop(reps, |xs|);
      var ms := HistoryItems(h[..|h| - 1], rx);
      var n := UpdateItems(h[|h| - 1], ry);
      PlayedConcat(xs, ys, rx, ry);
      ns := ms + [n];
      assert ns[..|h| - 1] == ms;
    }
  }

  /** However many of the tables of a strict run have come so far, what they play is safe. */
  lemma PrefixSafety(s: State, ops: seq<Op>, n: nat, wide: Limits, initial: nat, k: nat, reps: seq<nat>)
    requires s.prevTg == [] && s.history == []
    requires n >= 2 && wide.maxDelta1 >= 0.0 && wide.maxDelta2 >= 0.0
    requires AllowedRun(s, ops) && Disciplined(s, ops, n, wide, STRICT)
    requires k <= |AllItems(Run(s, ops).history)| && Often(reps, AllItems(Run(s, ops).history)[..k])
    ensures Safe(Repeat(Zeros(n), initial) + PlayedItems(AllItems(Run(s, ops).history)[..k], reps), wide)
  {
    var h := Run(s, ops).history;
    var xs := AllItems(h);
    var rest := seq(|xs| - k, _ => 1);
    TakeDrop(xs, k);
    var ns := HistoryItems(h, reps + rest);
    WholeRunSafety(s, ops, n, wide, initial, ns);
    PlayedConcat(xs[..k], xs[k..], reps, rest);
    PrefixOfTrace(Repeat(Zeros(n), initial), PlayedItems(xs[..k], reps), PlayedItems(xs[k..], rest), Trace(h, ns), wide);
  }

  lemma PrefixOfTrace(a: Table, b: Table, c: Table, t: Table, wide: Limits)
    requires Safe(a + t, wide) && t == b + c
    ensures Safe(a + b, wide)
  {
    SafeSlice(a + t, 0, |a + b|, wide);
    assert (a + t)[0..|a + b|] == a + b;
  }
}
