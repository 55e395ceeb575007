/** What both worker pools share: slots, how many are in each state, and who holds which item. */
module Workers {

  /** One worker: at the top of its loop, awaiting its item, or returned. */
  datatype Slot = Ready | Busy(item: nat) | Gone

  function BusyCount(ws: seq<Slot>): (n: nat)
    ensures n <= |ws|
  {
    if ws == [] then 0 else BusyCount(ws[1..]) + (if ws[0].Busy? then 1 else 0)
  }

  function GoneCount(ws: seq<Slot>): (n: nat)
    ensures n <= |ws|
  {
    if ws == [] then 0 else GoneCount(ws[1..]) + (if ws[0].Gone? then 1 else 0)
  }

  lemma {:induction false} CountsUpdate(ws: seq<Slot>, w: nat, slot: Slot)
    requires w < |ws|
    ensures BusyCount(ws[w := slot])
         == BusyCount(ws) - (if ws[w].Busy? then 1 else 0) + (if slot.Busy? then 1 else 0)
    ensures GoneCount(ws[w := slot])
         == GoneCount(ws) - (if ws[w].Gone? then 1 else 0) + (if slot.Gone? then 1 else 0)
  {
    if w > 0 {
      assert ws[w := slot][1..] == ws[1..][w - 1 := slot];
      CountsUpdate(ws[1..], w - 1, slot);
    } else {
      assert ws[w := slot][1..] == ws[1..];
    }
  }

  /** A slot that is neither busy nor gone leaves room in both counts. */
  lemma {:induction false} CountsRoom(ws: seq<Slot>, w: nat)
    requires w < |ws|
    ensures ws[w].Ready? ==> BusyCount(ws) + GoneCount(ws) < |ws|
    ensures ws[w].Busy? ==> GoneCount(ws) < |ws|
    ensures BusyCount(ws) + GoneCount(ws) <= |ws|
  {
    if w > 0 {
      CountsRoom(ws[1..], w - 1);
    } else if |ws| > 1 {
      CountsRoom(ws[1..], 0);
    }
  }

  lemma {:induction false} AllGone(ws: seq<Slot>)
    requires forall w :: 0 <= w < |ws| ==> ws[w].Gone?
    ensures GoneCount(ws) == |ws| && BusyCount(ws) == 0
  {
    if ws != [] {
      AllGone(ws[1..]);
    }
  }

  function AllReady(n: nat): (ws: seq<Slot>)
    ensures |ws| == n && BusyCount(ws) == 0 && GoneCount(ws) == 0
    ensures forall w :: 0 <= w < n ==> ws[w].Ready?
  {
    if n == 0 then [] else
      var rest := AllReady(n - 1);
      assert ([Ready] + rest)[1..] == rest;
      [Ready] + rest
  }

  predicate DistinctItems(s: seq<nat>) {
    forall i, j :: 0 <= i < j < |s| ==> s[i] != s[j]
  }

  /** Items below `taken` have been dequeued in order: each is held by one worker or finished once. */
  ghost predicate Accounted(ws: seq<Slot>, finished: seq<nat>, taken: nat) {
    && DistinctItems(finished)
    && (forall i :: i in finished ==> i < taken)
    && (forall w :: 0 <= w < |ws| && ws[w].Busy? ==> ws[w].item < taken && ws[w].item !in finished)
    && (forall v, w :: 0 <= v < w < |ws| && ws[v].Busy? && ws[w].Busy? ==> ws[v].item != ws[w].item)
    && |finished| + BusyCount(ws) == taken
  }

  lemma AccountTake(ws: seq<Slot>, finished: seq<nat>, taken: nat, w: nat)
    requires Accounted(ws, finished, taken) && w < |ws| && ws[w].Ready?
    ensures Accounted(ws[w := Busy(taken)], finished, taken + 1)
  {
    CountsUpdate(ws, w, Busy(taken));
  }

  lemma AccountFinish(ws: seq<Slot>, finished: seq<nat>, taken: nat, w: nat)
    requires Accounted(ws, finished, taken) && w < |ws| && ws[w].Busy?
    ensures Accounted(ws[w := Ready], finished + [ws[w].item], taken)
  {
    CountsUpdate(ws, w, Ready);
  }

  lemma AccountLeave(ws: seq<Slot>, finished: seq<nat>, taken: nat, w: nat)
    requires Accounted(ws, finished, taken) && w < |ws| && ws[w].Ready?
    ensures Accounted(ws[w := Gone], finished, taken)
  {
    CountsUpdate(ws, w, Gone);
  }

  function UpTo(n: nat): (s: set<nat>)
    ensures |s| == n && forall i: nat :: i in s <==> i < n
  {
    if n == 0 then {} else UpTo(n - 1) + {n - 1}
  }

  function Items(s: seq<nat>): (items: set<nat>)
    ensures forall i :: i in items <==> i in s
  {
    set i | i in s
  }

  lemma {:induction false} ItemsOfDistinct(s: seq<nat>)
    requires DistinctItems(s)
    ensures |Items(s)| == |s|
  {
    if s != [] {
      var n := |s| - 1;
      ItemsOfDistinct(s[..n]);
      assert s == s[..n] + [s[n]];
      assert Items(s) == Items(s[..n]) + {s[n]};
    }
  }

  /** `taken` distinct numbers below `taken` are all of them. */
  lemma Pigeonhole(finished: seq<nat>, taken: nat)
    requires DistinctItems(finished) && |finished| == taken && forall i :: i in finished ==> i < taken
    ensures forall i: nat :: i < taken ==> i in finished
  {
    ItemsOfDistinct(finished);
    SubsetSize(Items(finished), UpTo(taken));
  }

  lemma SubsetSize(a: set<nat>, b: set<nat>)
    requires a <= b && |a| == |b|
    ensures a == b
  {
    assert b == a + (b - a);
  }
}
