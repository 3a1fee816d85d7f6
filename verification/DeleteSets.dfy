/**
  Deletions per client as ranges of clocks (internal/crdt/deleteset.go).
*/
module DeleteSets {
  import opened Ids

  datatype Range = Range(clock: nat, len: nat)
  {
    function End(): nat {
      clock + len
    }

    predicate Has(k: nat) {
      clock <= k < clock + len
    }
  }

  /** Some range names clock `k`. */
  ghost predicate Names(rs: seq<Range>, k: nat) {
    exists i | 0 <= i < |rs| :: rs[i].Has(k)
  }

  ghost predicate SameClocks(a: seq<Range>, b: seq<Range>) {
    forall k: nat :: Names(a, k) <==> Names(b, k)
  }

  predicate Sorted(rs: seq<Range>) {
    forall i, j | 0 <= i < j < |rs| :: rs[i].clock <= rs[j].clock
  }

  /** Normal form: non-empty ranges in order, with a gap between each and the next. */
  ghost predicate Normal(rs: seq<Range>) {
    && (forall i | 0 <= i < |rs| :: rs[i].len > 0)
    && (forall i, j | 0 <= i < j < |rs| :: rs[i].End() < rs[j].clock)
  }

  /** Ranges in normal form that name the same clocks are the same ranges. */
  lemma {:induction false} NormalIsCanonical(a: seq<Range>, b: seq<Range>)
    requires Normal(a) && Normal(b) && SameClocks(a, b)
    ensures a == b
  {
    if a != [] { assert a[0].Has(a[0].clock) && Names(a, a[0].clock); }
    if b != [] { assert b[0].Has(b[0].clock) && Names(b, b[0].clock); }
    if a != [] {
      FirstRanges(a, b);
      FirstRanges(b, a);
      DropFirst(a, b);
      NormalIsCanonical(a[1..], b[1..]);
      assert a == [a[0]] + a[1..] && b == [b[0]] + b[1..];
    }
  }

  /** The first range of `a` starts no earlier and ends no later than that of `b`. */
  lemma FirstRanges(a: seq<Range>, b: seq<Range>)
    requires Normal(a) && Normal(b) && SameClocks(a, b) && a != [] && b != []
    ensures a[0].clock >= b[0].clock && a[0].End() <= b[0].End()
  {
    assert a[0].Has(a[0].clock) && Names(a, a[0].clock) && Names(b, a[0].clock);
    assert b[0].Has(b[0].clock) && Names(b, b[0].clock) && Names(a, b[0].clock);
    assert a[0].Has(b[0].End()) ==> Names(a, b[0].End()) && Names(b, b[0].End());
  }

  lemma DropFirst(a: seq<Range>, b: seq<Range>)
    requires Normal(a) && Normal(b) && SameClocks(a, b) && a != [] && b != [] && a[0] == b[0]
    ensures Normal(a[1..]) && Normal(b[1..]) && SameClocks(a[1..], b[1..])
  {
    forall k: nat
      ensures Names(a[1..], k) <==> Names(b[1..], k)
    {
      NamesRest(a, k);
      NamesRest(b, k);
    }
  }

  lemma NamesRest(a: seq<Range>, k: nat)
    requires Normal(a) && a != []
    ensures Names(a[1..], k) <==> Names(a, k) && !a[0].Has(k)
  {
    if Names(a[1..], k) {
      var i :| 0 <= i < |a[1..]| && a[1..][i].Has(k);
      assert a[i + 1].Has(k);
    }
    if Names(a, k) && !a[0].Has(k) {
      var i :| 0 <= i < |a| && a[i].Has(k);
      assert a[1..][i - 1].Has(k);
    }
  }

  // ---------------------------------------------------------------- adding a range

  lemma NamesPermutation(a: seq<Range>, b: seq<Range>, k: nat)
    requires multiset(a) == multiset(b)
    ensures Names(a, k) == Names(b, k)
  {
    if Names(a, k) {
      var i :| 0 <= i < |a| && a[i].Has(k);
      assert a[i] in multiset(b);
    }
    if Names(b, k) {
      var i :| 0 <= i < |b| && b[i].Has(k);
      assert b[i] in multiset(a);
    }
  }

  /** `sort.Slice` by clock. */
  method SortByClock(a: array<Range>)
    modifies a
    ensures Sorted(a[..]) && multiset(a[..]) == multiset(old(a[..]))
  {
    var i := 0;
    while i < a.Length
      invariant 0 <= i <= a.Length && Sorted(a[..i])
      invariant multiset(a[..]) == multiset(old(a[..]))
    {
      SiftDown(a, i);
      i := i + 1;
    }
    assert a[..] == a[..i];
  }

  method Swap(a: array<Range>, j: nat)
    requires j + 1 < a.Length
    modifies a
    ensures a[j] == old(a[j + 1]) && a[j + 1] == old(a[j])
    ensures forall x | 0 <= x < a.Length && x != j && x != j + 1 :: a[x] == old(a[x])
    ensures multiset(a[..]) == multiset(old(a[..]))
  {
    a[j], a[j + 1] := a[j + 1], a[j];
  }

  /** Move element `i` left to its place among the sorted ones before it. */
  method SiftDown(a: array<Range>, i: nat)
    requires i < a.Length && Sorted(a[..i])
    modifies a
    ensures Sorted(a[..i + 1]) && multiset(a[..]) == multiset(old(a[..]))
  {
    var j := i;
    while j > 0 && a[j].clock < a[j - 1].clock
      invariant 0 <= j <= i
      invariant multiset(a[..]) == multiset(old(a[..]))
      invariant forall x, y | 0 <= x < y <= i && y != j :: a[x].clock <= a[y].clock
    {
      Swap(a, j - 1);
      j := j - 1;
    }
  }

  /** The merge of `Add`: one pass over sorted ranges, writing the merged ones to the front of
      the same array. */
  method Merge(a: array<Range>) returns (n: nat)
    requires a.Length > 0 && Sorted(a[..]) && forall i | 0 <= i < a.Length :: a[i].len > 0
    modifies a
    ensures 0 < n <= a.Length && Normal(a[..n])
    ensures SameClocks(a[..n], old(a[..]))
  {
    hide SameClocks;
    ghost var was := a[..];
    n := 1;
    var i := 1;
    SameAsIs(a[..1]);
    while i < a.Length
      invariant 0 < n <= i <= a.Length && a[i..] == was[i..]
      invariant Normal(a[..n]) && a[n - 1].clock <= was[i - 1].clock
      invariant SameClocks(a[..n], was[..i])
    {
      var r := a[i];
      ghost var before := a[..n];
      if r.clock <= a[n - 1].End() {
        if r.End() > a[n - 1].End() {
          a[n - 1] := Range(a[n - 1].clock, r.End() - a[n - 1].clock);
        }
        Absorb(before, r, a[..n], was[..i], was[..i + 1]);
      } else {
        a[n] := r;
        n := n + 1;
        Extend(before, r, a[..n], was[..i], was[..i + 1]);
      }
      i := i + 1;
    }
    assert was[..i] == was;
  }

  lemma NamesAppend(a: seq<Range>, r: Range, k: nat)
    ensures Names(a + [r], k) <==> Names(a, k) || r.Has(k)
  {
    var t := a + [r];
    if Names(a, k) {
      var i :| 0 <= i < |a| && a[i].Has(k);
      assert t[i].Has(k);
    }
    if r.Has(k) { assert t[|a|].Has(k); }
  }

  lemma SameAsIs(s: seq<Range>)
    ensures SameClocks(s, s)
  {
  }

  lemma Extend(m: seq<Range>, r: Range, m': seq<Range>, s: seq<Range>, s': seq<Range>)
    requires m' == m + [r] && s' == s + [r] && SameClocks(m, s)
    ensures SameClocks(m', s')
  {
    forall k: nat
      ensures Names(m', k) <==> Names(s', k)
    {
      NamesAppend(m, r, k);
      NamesAppend(s, r, k);
    }
  }

  /** Stretching the last range over one that begins inside or right after it. */
  lemma Absorb(m: seq<Range>, r: Range, m': seq<Range>, s: seq<Range>, s': seq<Range>)
    requires m != [] && |m'| == |m| && m'[..|m| - 1] == m[..|m| - 1] && s' == s + [r] && SameClocks(m, s)
    requires var x, y := m[|m| - 1], m'[|m| - 1];
             x.clock <= r.clock <= x.End() && y.clock == x.clock && y.End() == if r.End() > x.End() then r.End()
               else x.End()
    ensures SameClocks(m', s')
  {
    var n := |m| - 1;
    assert m == m[..n] + [m[n]] && m' == m[..n] + [m'[n]];
    forall k: nat
      ensures Names(m', k) <==> Names(s', k)
    {
      NamesAppend(m[..n], m[n], k);
      NamesAppend(m[..n], m'[n], k);
      NamesAppend(s, r, k);
    }
  }

  /** Sorting and merging gives the normal form of some ranges. */
  method SortAndMerge(ranges: seq<Range>) returns (normal: seq<Range>)
    requires ranges != [] && forall i | 0 <= i < |ranges| :: ranges[i].len > 0
    ensures Normal(normal) && SameClocks(normal, ranges)
  {
    var a := new Range[|ranges|](i requires 0 <= i < |ranges| => ranges[i]);
    assert a[..] == ranges;
    SortByClock(a);
    ghost var sorted := a[..];
    PositivePermutation(ranges, sorted);
    var n := Merge(a);
    forall k: nat { NamesPermutation(ranges, sorted, k); }
    return a[..n];
  }

  lemma NamesNothing()
    ensures forall k: nat :: !Names([], k)
  {
  }

  class DeleteSet {
    var clients: map<nat, seq<Range>>

    /** Every client's ranges are in normal form. */
    ghost predicate Valid()
      reads this
    {
      forall c <- clients :: Normal(clients[c]) && clients[c] != []
    }

    ghost predicate Contains(id: ID)
      reads this
    {
      id.client in clients && Names(clients[id.client], id.clock)
    }

    ghost function Ids(): iset<ID>
      reads this
    {
      iset id | Contains(id)
    }

    constructor ()
      ensures clients == map[] && Valid() && forall id :: !Contains(id)
    {
      clients := map[];
    }

    /** `Add`: the units deleted afterwards are those before and the new range's. */
    method Add(client: nat, clock: nat, length: nat)
      requires Valid()
      modifies this
      ensures Valid()
      ensures forall id :: Contains(id) <==>
                old(Contains(id)) || (id.client == client && clock <= id.clock < clock + length)
      ensures length == 0 ==> clients == old(clients)
      ensures length > 0 ==> clients.Keys == old(clients.Keys) + {client}
      ensures forall c <- old(clients) | c != client :: c in clients && clients[c] == old(clients[c])
    {
      if length == 0 {
        return;
      }
      hide Names;
      var was := if client in clients then clients[client] else [];
      var r := Range(clock, length);
      NamesNothing();
      forall k: nat { NamesAppend(was, r, k); }
      var ranges := SortAndMerge(was + [r]);
      assert r.Has(clock) && Names(ranges, clock);
      clients := clients[client := ranges];
    }

    /** `IsDeleted`: binary search for the range that could hold the unit. */
    method IsDeleted(id: ID) returns (b: bool)
      requires Valid()
      ensures b == Contains(id)
    {
      if id.client !in clients {
        return false;
      }
      var ranges := clients[id.client];
      var lo, hi := 0, |ranges|;
      while lo < hi
        invariant 0 <= lo <= hi <= |ranges|
        invariant forall i | 0 <= i < lo :: ranges[i].End() <= id.clock
        invariant forall i | hi <= i < |ranges| :: id.clock < ranges[i].End()
      {
        var h := lo + (hi - lo) / 2;
        if ranges[h].End() > id.clock {
          hi := h;
        } else {
          lo := h + 1;
        }
      }
      return lo < |ranges| && ranges[lo].clock <= id.clock;
    }
  }

  lemma PositivePermutation(a: seq<Range>, b: seq<Range>)
    requires multiset(a) == multiset(b) && forall i | 0 <= i < |a| :: a[i].len > 0
    ensures |a| == |b| && forall i | 0 <= i < |b| :: b[i].len > 0
  {
    assert |multiset(a)| == |a| && |multiset(b)| == |b|;
    forall i | 0 <= i < |b|
      ensures b[i].len > 0
    {
      assert b[i] in multiset(a);
    }
  }
}
