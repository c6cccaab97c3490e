/** The deadline heap: sift-up and sift-down on the slice that holds it. */
module ExpiryHeap {
  import opened Leases

  datatype Entry = Entry(key: Key, expiresAt: int, generation: nat)

  function Parent(i: nat): (p: nat)
    requires i > 0
    ensures p < i
  {
    (i - 1) / 2
  }

  ghost predicate IsHeap(h: seq<Entry>) {
    forall i :: 0 < i < |h| ==> h[Parent(i)].expiresAt <= h[i].expiresAt
  }

  /** A heap except that the entry at `j` may be earlier than its parent. */
  ghost predicate HeapButUp(h: seq<Entry>, j: nat) {
    && (forall i :: 0 < i < |h| && i != j ==> h[Parent(i)].expiresAt <= h[i].expiresAt)
    && (forall i :: 0 < i < |h| && 0 < j < |h| && Parent(i) == j ==> h[Parent(j)].expiresAt <= h[i].expiresAt)
  }

  /** A heap except that the entry at `j` may be later than its children. */
  ghost predicate HeapButDown(h: seq<Entry>, j: nat) {
    && (forall i :: 0 < i < |h| && Parent(i) != j ==> h[Parent(i)].expiresAt <= h[i].expiresAt)
    && (forall i :: 0 < i < |h| && 0 < j < |h| && Parent(i) == j ==> h[Parent(j)].expiresAt <= h[i].expiresAt)
  }

  /** The root has the earliest deadline. */
  lemma {:induction false} RootIsEarliest(h: seq<Entry>, i: nat)
    requires IsHeap(h) && i < |h|
    ensures h[0].expiresAt <= h[i].expiresAt
  {
    if i > 0 {
      RootIsEarliest(h, Parent(i));
    }
  }

  function Swapped(h: seq<Entry>, i: nat, j: nat): (s: seq<Entry>)
    requires i < |h| && j < |h|
    ensures |s| == |h|
    ensures multiset(s) == multiset(h)
  {
    h[i := h[j]][j := h[i]]
  }

  lemma SiftUpStep(h: seq<Entry>, j: nat)
    requires HeapButUp(h, j) && 0 < j < |h| && h[j].expiresAt < h[Parent(j)].expiresAt
    ensures HeapButUp(Swapped(h, Parent(j), j), Parent(j))
  {
    hide Parent;
  }

  /** One step down, to the earlier child `j` of `i`. */
  lemma SiftDownStep(h: seq<Entry>, i: nat, j: nat)
    requires HeapButDown(h, i) && 0 < j < |h| && Parent(j) == i && h[j].expiresAt < h[i].expiresAt
    requires forall c :: 0 < c < |h| && Parent(c) == i ==> h[j].expiresAt <= h[c].expiresAt
    ensures HeapButDown(Swapped(h, i, j), j)
  {
    var s := Swapped(h, i, j);
    forall c | 0 < c < |s| && Parent(c) != j ensures s[Parent(c)].expiresAt <= s[c].expiresAt {
      if c == i {
        assert h[Parent(i)].expiresAt <= h[j].expiresAt;
      }
    }
  }

  /** The earlier of the two children of `i`. */
  function EarlierChild(h: seq<Entry>, i: nat): (j: nat)
    requires 2 * i + 1 < |h|
    ensures 0 < j < |h| && Parent(j) == i
    ensures forall c :: 0 < c < |h| && Parent(c) == i ==> h[j].expiresAt <= h[c].expiresAt
  {
    var j := 2 * i + 1;
    if j + 1 < |h| && h[j + 1].expiresAt < h[j].expiresAt then j + 1 else j
  }

  method Push(h: seq<Entry>, e: Entry) returns (out: seq<Entry>)
    requires IsHeap(h)
    ensures IsHeap(out) && multiset(out) == multiset(h) + multiset{e}
  {
    out := h + [e];
    out := SiftUp(out, |h|);
  }

  method SiftUp(h: seq<Entry>, start: nat) returns (out: seq<Entry>)
    requires start < |h| && HeapButUp(h, start)
    ensures IsHeap(out) && multiset(out) == multiset(h)
  {
    hide Swapped;
    out := h;
    var j := start;
    while j > 0 && out[j].expiresAt < out[Parent(j)].expiresAt
      invariant 0 <= j < |out| && HeapButUp(out, j)
      invariant multiset(out) == multiset(h)
    {
      SiftUpStep(out, j);
      out, j := Swapped(out, Parent(j), j), Parent(j);
    }
  }

  method Pop(h: seq<Entry>) returns (least: Entry, out: seq<Entry>)
    requires IsHeap(h) && h != []
    ensures IsHeap(out) && multiset(h) == multiset(out) + multiset{least}
    ensures least == h[0]
  {
    var n := |h| - 1;
    least := h[0];
    var swapped := Swapped(h, 0, n);
    assert swapped == swapped[..n] + [least];
    assert HeapButDown(swapped[..n], 0);
    out := SiftDown(swapped[..n]);
  }

  method SiftDown(h: seq<Entry>) returns (out: seq<Entry>)
    requires HeapButDown(h, 0)
    ensures IsHeap(out) && multiset(out) == multiset(h)
  {
    hide Swapped, EarlierChild;
    out := h;
    var i := 0;
    while 2 * i + 1 < |out|
      invariant 0 <= i && HeapButDown(out, i)
      invariant multiset(out) == multiset(h)
    {
      var j := EarlierChild(out, i);
      if !(out[j].expiresAt < out[i].expiresAt) {
        return;
      }
      SiftDownStep(out, i, j);
      out, i := Swapped(out, i, j), j;
    }
  }
}
