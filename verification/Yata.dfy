/**
  The order that YATA integration gives the units of one list
  (`integrateItem` and `resolveConflict` in internal/crdt/doc.go).

  A unit is described by its id and the two neighbours it was inserted between.  The
  neighbours are kept as whole descriptions, so every definition below is structural
  recursion and none of them mentions when a unit arrived.

  `Before` is the reference order: the pre-order walk of the tree of origins, the
  children of one origin being ordered by `SiblingBefore`.  `Insert` is the conflict scan.
  The theorems say that the scan always finds the place `Before` asks for.
*/
module Yata {
  import opened Ids

  datatype Node = Start | End | Elem(id: ID, origin: Node, right: Node)

  function Size(x: Node): nat {
    match x
    case Elem(_, o, r) => 1 + Size(o) + Size(r)
    case _ => 0
  }

  // ---------------------------------------------------------------- siblings

  /** Smaller clients go left; of two units of one client the later one goes left. */
  predicate KeyBefore(a: ID, b: ID) {
    a.client < b.client || (a.client == b.client && a.clock > b.clock)
  }

  /** The children of one origin.  A unit precedes its right origin, hence everything at
      or after a right origin that is itself a sibling; otherwise the key decides. */
  ghost predicate SiblingBefore(x: Node, y: Node)
    decreases Size(x) + Size(y), 1
  {
    x.Elem? && y.Elem? && x != y && (Anchored(x, y) || (!Anchored(y, x) && KeyBefore(x.id, y.id)))
  }

  /** The right origin of `x` is a sibling of `x` that is `y` or precedes it. */
  ghost predicate Anchored(x: Node, y: Node)
    decreases Size(x) + Size(y), 0
  {
    && x.Elem? && x.right.Elem?
    && x.right.origin == x.origin
    && (x.right == y || SiblingBefore(x.right, y))
  }

  /** A set of units that refers only to itself and names each unit once. */
  ghost predicate Universe(u: set<Node>) {
    && (forall x <- u :: x.Elem?)
    && (forall x {:trigger Closed(u, x)} :: x in u ==> Closed(u, x))
    && (forall x, y {:trigger OneNode(x, y)} :: x in u && y in u ==> OneNode(x, y))
  }

  ghost predicate Closed(u: set<Node>, x: Node) {
    && x.Elem?
    && (x.origin == Start || x.origin in u)
    && (x.right == End || x.right in u)
  }

  predicate OneNode(x: Node, y: Node) {
    x.Elem? && y.Elem? && x.id == y.id ==> x == y
  }

  lemma {:induction false} SiblingTrichotomy(u: set<Node>, x: Node, y: Node)
    requires Universe(u) && x in u && y in u && x != y
    ensures SiblingBefore(x, y) != SiblingBefore(y, x)
    decreases Size(x) + Size(y)
  {
    assert Closed(u, x) && Closed(u, y) && OneNode(x, y);
    if Anchored(x, y) && Anchored(y, x) {
      var a, b := x.right, y.right;
      assert Size(a) < Size(x) && Size(b) < Size(y);
      if a == y {
        assert SiblingBefore(y, b);
        assert SiblingBefore(x, b);
        SiblingTrichotomy(u, b, x);
      } else if b == x {
        assert SiblingBefore(x, a);
        assert SiblingBefore(y, a);
        SiblingTrichotomy(u, a, y);
      } else {
        SiblingTrichotomy(u, a, y);
        SiblingTrichotomy(u, b, x);
        assert !Anchored(x, b) && !Anchored(y, a);
        SiblingTrichotomy(u, a, b);
      }
    }
  }

  lemma {:induction false} SiblingTransitive(u: set<Node>, x: Node, y: Node, z: Node)
    requires Universe(u) && x in u && y in u && z in u
    requires x.origin == y.origin == z.origin
    requires SiblingBefore(x, y) && SiblingBefore(y, z)
    ensures SiblingBefore(x, z)
    decreases Size(x) + Size(y) + Size(z), 1
  {
    SiblingTrichotomy(u, x, y);
    SiblingTrichotomy(u, y, z);
    if Anchored(x, y) {
      AnchoredTransitive(u, x, y, z);
    } else if !SiblingBefore(x, z) {
      // A cycle x, y, z, x: one edge must come from a right origin, and that edge composes.
      SiblingTrichotomy(u, x, z);
      if Anchored(y, z) {
        AnchoredTransitive(u, y, z, x);
      } else if Anchored(z, x) {
        AnchoredTransitive(u, z, x, y);
      }
    }
  }

  lemma {:induction false} AnchoredTransitive(u: set<Node>, x: Node, y: Node, z: Node)
    requires Universe(u) && x in u && y in u && z in u
    requires x.origin == y.origin == z.origin
    requires Anchored(x, y) && SiblingBefore(y, z) && x != z
    ensures SiblingBefore(x, z)
    decreases Size(x) + Size(y) + Size(z), 0
  {
    var a := x.right;
    assert Closed(u, x);
    if a != y && a != z {
      SiblingTransitive(u, a, y, z);
    }
    assert Anchored(x, z);
  }

  // ---------------------------------------------------------------- the whole list

  /** The units from the top of the list's origin tree down to `x`. */
  ghost function Path(x: Node): seq<Node> {
    if x.Elem? then Path(x.origin) + [x] else []
  }

  /** `x` is `a` or was inserted, directly or not, after `a`. */
  predicate Under(a: Node, x: Node) {
    x == a || (x.Elem? && Under(a, x.origin))
  }

  ghost predicate PathBefore(p: seq<Node>, q: seq<Node>) {
    if p == [] || q == [] then p == [] && q != []
    else if p[0] == q[0] then PathBefore(p[1..], q[1..])
    else SiblingBefore(p[0], q[0])
  }

  /** The reference order of the units of one list. */
  ghost predicate Before(x: Node, y: Node) {
    PathBefore(Path(x), Path(y))
  }

  /** A chain of origins hanging from `a`, inside the universe. */
  ghost predicate Chain(u: set<Node>, a: Node, p: seq<Node>)
    decreases |p|
  {
    p == [] || (p[0] in u && p[0].Elem? && p[0].origin == a && Chain(u, p[0], p[1..]))
  }

  lemma {:induction false} ChainExtends(u: set<Node>, a: Node, p: seq<Node>, x: Node)
    requires Chain(u, a, p) && x in u && x.Elem?
    requires x.origin == if p == [] then a else p[|p| - 1]
    ensures Chain(u, a, p + [x])
    decreases |p|
  {
    if p == [] {
      assert [x][1..] == [];
    } else {
      ChainExtends(u, p[0], p[1..], x);
      assert (p + [x])[1..] == p[1..] + [x];
    }
  }

  lemma {:induction false} PathIsChain(u: set<Node>, x: Node)
    requires Universe(u) && (x in u || x == Start)
    ensures Chain(u, Start, Path(x))
  {
    if x.Elem? {
      assert Closed(u, x);
      PathIsChain(u, x.origin);
      ChainExtends(u, Start, Path(x.origin), x);
    }
  }

  lemma {:induction false} PathTrichotomy(u: set<Node>, a: Node, p: seq<Node>, q: seq<Node>)
    requires Universe(u) && Chain(u, a, p) && Chain(u, a, q) && p != q
    ensures PathBefore(p, q) != PathBefore(q, p)
    decreases |p|
  {
    if p != [] && q != [] {
      if p[0] == q[0] {
        assert p == [p[0]] + p[1..] && q == [q[0]] + q[1..];
        PathTrichotomy(u, p[0], p[1..], q[1..]);
      } else {
        SiblingTrichotomy(u, p[0], q[0]);
      }
    }
  }

  lemma {:induction false} PathTransitive(u: set<Node>, a: Node, p: seq<Node>, q: seq<Node>, r: seq<Node>)
    requires Universe(u) && Chain(u, a, p) && Chain(u, a, q) && Chain(u, a, r)
    requires PathBefore(p, q) && PathBefore(q, r)
    ensures PathBefore(p, r)
    decreases |p|
  {
    if p != [] {
      if p[0] == q[0] == r[0] {
        PathTransitive(u, p[0], p[1..], q[1..], r[1..]);
      } else if p[0] != q[0] && q[0] != r[0] {
        SiblingTransitive(u, p[0], q[0], r[0]);
        SiblingTrichotomy(u, p[0], q[0]);
      }
    }
  }

  lemma Trichotomy(u: set<Node>, x: Node, y: Node)
    requires Universe(u) && x in u && y in u && x != y
    ensures Before(x, y) != Before(y, x)
  {
    PathIsChain(u, x);
    PathIsChain(u, y);
    assert Path(x)[|Path(x)| - 1] == x && Path(y)[|Path(y)| - 1] == y;
    PathTrichotomy(u, Start, Path(x), Path(y));
  }

  lemma Transitive(u: set<Node>, x: Node, y: Node, z: Node)
    requires Universe(u) && x in u && y in u && z in u && Before(x, y) && Before(y, z)
    ensures Before(x, z)
  {
    PathIsChain(u, x);
    PathIsChain(u, y);
    PathIsChain(u, z);
    PathTransitive(u, Start, Path(x), Path(y), Path(z));
  }

  // ---------------------------------------------------------------- subtrees

  /** The units from just below `a` down to `x`. */
  ghost function Below(a: Node, x: Node): seq<Node>
    requires Under(a, x)
  {
    if x == a then [] else Below(a, x.origin) + [x]
  }

  /** The child of `a` whose subtree holds `x`. */
  ghost function Branch(a: Node, x: Node): Node
    requires Under(a, x) && x != a
  {
    if x.origin == a then x else Branch(a, x.origin)
  }

  lemma {:induction false} PathSplits(a: Node, x: Node)
    requires Under(a, x)
    ensures Path(x) == Path(a) + Below(a, x)
    ensures x != a ==> Below(a, x) != [] && Below(a, x)[0] == Branch(a, x)
  {
    if x != a { PathSplits(a, x.origin); }
  }

  lemma {:induction false} CommonPrefix(p: seq<Node>, q: seq<Node>, r: seq<Node>)
    ensures PathBefore(p + q, p + r) == PathBefore(q, r)
  {
    if p == [] {
      assert p + q == q && p + r == r;
    } else {
      assert (p + q)[1..] == p[1..] + q && (p + r)[1..] == p[1..] + r;
      CommonPrefix(p[1..], q, r);
    }
  }

  /** A new child of `a` compares with a whole subtree as it compares with its top. */
  lemma {:induction false} CompareWithSubtree(a: Node, x: Node, y: Node)
    requires x.Elem? && x.origin == a && Under(a, y) && y != a && Branch(a, y) != x
    ensures Before(x, y) == SiblingBefore(x, Branch(a, y))
    ensures Before(y, x) == SiblingBefore(Branch(a, y), x)
  {
    PathSplits(a, x);
    PathSplits(a, y);
    CommonPrefix(Path(a), Below(a, x), Below(a, y));
    CommonPrefix(Path(a), Below(a, y), Below(a, x));
  }

  lemma {:induction false} AncestorsFirst(a: Node, x: Node)
    requires Under(a, x) && x != a
    ensures Before(a, x)
  {
    PathSplits(a, x);
    assert Path(a) == Path(a) + [];
    CommonPrefix(Path(a), [], Below(a, x));
  }

  lemma {:induction false} OnPath(x: Node, i: nat)
    requires i < |Path(x)|
    ensures Under(Path(x)[i], x)
  {
    if i < |Path(x)| - 1 { OnPath(x.origin, i); }
  }

  lemma {:induction false} DivergesEarly(p: seq<Node>, q: seq<Node>, w: seq<Node>)
    requires PathBefore(p, q) && !(p <= q)
    ensures PathBefore(p + w, q)
  {
    assert (p + w)[1..] == p[1..] + w;
    if p[0] == q[0] {
      assert p[1..] <= q[1..] ==> p <= q;
      DivergesEarly(p[1..], q[1..], w);
    }
  }

  /** What follows `a` without being under `a` follows all of the subtree of `a`. */
  lemma {:induction false} SubtreeIsContiguous(a: Node, x: Node, y: Node)
    requires a.Elem? && Under(a, x) && !Under(a, y) && Before(a, y)
    ensures Before(x, y)
  {
    PathSplits(a, x);
    if Path(a) <= Path(y) {
      assert Path(a)[|Path(a)| - 1] == a;
      OnPath(y, |Path(a)| - 1);
    }
    DivergesEarly(Path(a), Path(y), Below(a, x));
  }

  // ---------------------------------------------------------------- the conflict scan

  ghost function Elements(s: seq<Node>): set<Node> {
    set x | x in s
  }

  ghost predicate Sorted(s: seq<Node>) {
    forall i, j | 0 <= i < j < |s| :: Before(s[i], s[j])
  }

  /** A list as integration leaves it. */
  ghost predicate Ordered(s: seq<Node>) {
    Universe(Elements(s)) && Sorted(s)
  }

  /** The right origin is outside the subtree of the origin, or a child of the origin. */
  predicate WellPlaced(x: Node) {
    x.Elem? && ((x.right.Elem? && x.right.origin == x.origin) || !Under(x.origin, x.right))
  }

  /** `x` may be integrated into `s`: its neighbours are there, and its clock is next. */
  ghost predicate Ready(s: seq<Node>, x: Node) {
    && x.Elem?
    && (x.origin == Start || x.origin in s)
    && (x.right == End || x.right in s)
    && (forall o <- s :: o.Elem? && o.id.client == x.id.client ==> o.id.clock < x.id.clock)
  }

  /** The index of the unit after `x`; `Start` is before every unit. */
  function After(s: seq<Node>, x: Node): (k: nat)
    requires x == Start || x in s
    ensures k <= |s|
    ensures x == Start ==> k == 0
    ensures x != Start ==> k > 0 && s[k - 1] == x
  {
    if x == Start then 0 else if s[0] == x then 1 else 1 + After(s[1..], x)
  }

  /** One turn of the loop of `resolveConflict`: `None` ends the scan, `Some(d)` goes on with a
      new `dest`.  `dest` is the place after the current `left`, so that `before` is
      `s[from..i + 1]` and `conflicting` is `s[dest..i + 1]` once `s[i]` has been added to both. */
  function Turn(s: seq<Node>, x: Node, from: nat, i: nat, dest: nat): (d: Option<nat>)
    requires x.Elem? && from <= dest <= i <= |s| && forall o <- s :: o.Elem?
    ensures d.Some? ==> i < |s| && (d.value == dest || d.value == i + 1)
  {
    if i == |s| || s[i] == x.right then None
    else if s[i].origin == x.origin then
      if s[i].id.client < x.id.client then Some(i + 1)
      else if s[i].right == x.right then None
      else Some(dest)
    else if s[i].origin in s[from..i + 1] then
      if s[i].origin in s[dest..i + 1] then Some(dest) else Some(i + 1)
    else None
  }

  function Scan(s: seq<Node>, x: Node, from: nat, i: nat, dest: nat): (d: nat)
    requires x.Elem? && from <= dest <= i <= |s| && forall o <- s :: o.Elem?
    ensures dest <= d <= |s|
    decreases |s| - i
  {
    match Turn(s, x, from, i, dest)
    case None => dest
    case Some(d) => Scan(s, x, from, i + 1, d)
  }

  function Place(s: seq<Node>, x: Node): (d: nat)
    requires x.Elem? && (x.origin == Start || x.origin in s) && forall o <- s :: o.Elem?
    ensures d <= |s|
  {
    var from := After(s, x.origin);
    Scan(s, x, from, from, from)
  }

  function Insert(s: seq<Node>, x: Node): (t: seq<Node>)
    requires x.Elem? && (x.origin == Start || x.origin in s) && forall o <- s :: o.Elem?
    ensures |t| == |s| + 1
  {
    var d := Place(s, x);
    s[..d] + [x] + s[d..]
  }

  ghost function With(s: seq<Node>, x: Node): set<Node> {
    Elements(s) + {x}
  }

  lemma ExtendUniverse(s: seq<Node>, x: Node)
    requires Ordered(s) && Ready(s, x)
    ensures Universe(With(s, x)) && x !in s
  {
    var u := With(s, x);
    forall y | y in u
      ensures Closed(u, y)
    {
      assert y in s ==> Closed(Elements(s), y);
    }
    forall y, z | y in u && z in u
      ensures OneNode(y, z)
    {
      assert y in s && z in s ==> OneNode(y, z);
    }
  }

  lemma {:induction false} UnderStart(u: set<Node>, x: Node)
    requires Universe(u) && (x in u || x == Start)
    ensures Under(Start, x)
  {
    if x.Elem? {
      assert Closed(u, x);
      UnderStart(u, x.origin);
    }
  }

  /** Where and into what a scan for `x` starts. */
  ghost predicate Site(s: seq<Node>, x: Node, from: nat) {
    Ordered(s) && Ready(s, x) && WellPlaced(x) && from == After(s, x.origin)
  }

  /** `d` is the place of `x` among the units from `from` on. */
  ghost predicate Found(s: seq<Node>, x: Node, from: nat, d: nat) {
    && from <= d <= |s|
    && (d == from || Before(s[d - 1], x))
    && (d == |s| || Before(x, s[d]))
  }

  /** Everything scanned so far hangs below the origin of `x`, everything left of `dest`
      precedes `x`, and every subtree skipped since then starts with a sibling that the key
      puts right of `x` and whose right origin differs from that of `x`. */
  ghost predicate Scanned(s: seq<Node>, x: Node, from: nat, i: nat, dest: nat) {
    && x.Elem? && from <= dest <= i <= |s|
    && (forall k | from <= k < i :: Under(x.origin, s[k]) && s[k] != x.origin && s[k] != x.right)
    && (dest == from || Before(s[dest - 1], x))
    && (forall k {:trigger Skipped(s, x, dest, i, s[k])} | dest <= k < i :: Skipped(s, x, dest, i, s[k]))
  }

  ghost predicate Skipped(s: seq<Node>, x: Node, dest: nat, i: nat, y: Node)
    requires x.Elem? && dest <= i <= |s| && Under(x.origin, y) && y != x.origin
  {
    var b := Branch(x.origin, y);
    (exists m | dest <= m < i :: s[m] == b) && b.Elem? && KeyBefore(x.id, b.id) && b.right != x.right
  }

  lemma {:induction false} BeforeRightSibling(x: Node)
    requires x.Elem? && x.right.Elem? && x.right.origin == x.origin
    ensures SiblingBefore(x, x.right) && Before(x, x.right)
  {
    assert Size(x.right) < Size(x);
    assert Anchored(x, x.right);
    assert Branch(x.origin, x.right) == x.right;
    CompareWithSubtree(x.origin, x, x.right);
  }

  lemma RightSiblingIsLater(s: seq<Node>, k: nat, m: nat)
    requires Ordered(s) && k < |s| && m < |s|
    requires s[k].right == s[m] && s[m].origin == s[k].origin
    ensures k < m
  {
    BeforeRightSibling(s[k]);
    if k > m { Trichotomy(Elements(s), s[k], s[m]); }
  }

  /** What is met from `s[i]` on follows `x` as soon as `s[i]` does. */
  lemma FollowsFrom(s: seq<Node>, x: Node, i: nat, m: nat)
    requires Ordered(s) && Ready(s, x) && i <= m < |s| && Before(x, s[i])
    ensures Before(x, s[m])
  {
    ExtendUniverse(s, x);
    if i < m { Transitive(With(s, x), x, s[i], s[m]); }
  }

  /** Once something right of `x` is met, every skipped sibling turns out to be right of `x` too:
      a sibling can only precede `x` through its right origin, which would be such a sibling
      further right. */
  lemma {:induction false} SkippedSiblingFollows(s: seq<Node>, x: Node, from: nat, i: nat, dest: nat, k: nat)
    requires Ordered(s) && Ready(s, x) && Scanned(s, x, from, i, dest)
    requires i == |s| || Before(x, s[i])
    requires dest <= k < i && s[k].origin == x.origin
    ensures SiblingBefore(x, s[k])
    decreases |s| - k
  {
    var b := s[k];
    ExtendUniverse(s, x);
    SiblingTrichotomy(With(s, x), x, b);
    assert Skipped(s, x, dest, i, b);
    if Anchored(b, x) {
      assert Closed(Elements(s), b);
      var m :| 0 <= m < |s| && s[m] == b.right;
      RightSiblingIsLater(s, k, m);
      if m < i {
        SkippedSiblingFollows(s, x, from, i, dest, m);
      } else {
        FollowsFrom(s, x, i, m);
        CompareWithSubtree(x.origin, x, s[m]);
      }
      SiblingTrichotomy(With(s, x), x, s[m]);
    }
  }

  lemma {:induction false} StopIsRight(s: seq<Node>, x: Node, from: nat, i: nat, dest: nat)
    requires Ordered(s) && Ready(s, x) && Scanned(s, x, from, i, dest)
    requires i == |s| || Before(x, s[i])
    ensures Found(s, x, from, dest)
  {
    if dest < i {
      assert Skipped(s, x, dest, i, s[dest]);
      var b := Branch(x.origin, s[dest]);
      var k :| dest <= k < i && s[k] == b;
      BranchIsChild(x.origin, s[dest]);
      SkippedSiblingFollows(s, x, from, i, dest, k);
      ExtendUniverse(s, x);
      CompareWithSubtree(x.origin, x, s[dest]);
    }
  }

  lemma {:induction false} BranchIsChild(a: Node, x: Node)
    requires Under(a, x) && x != a
    ensures Branch(a, x).Elem? && Branch(a, x).origin == a && Under(Branch(a, x), x)
  {
    if x.origin != a { BranchIsChild(a, x.origin); }
  }

  lemma {:induction false} Irreflexive(p: seq<Node>)
    ensures !PathBefore(p, p)
  {
    if p != [] { Irreflexive(p[1..]); }
  }

  lemma PositionsDiffer(s: seq<Node>, i: nat, j: nat)
    requires Sorted(s) && i < j < |s|
    ensures s[i] != s[j]
  {
    Irreflexive(Path(s[i]));
  }

  lemma IndexOrder(s: seq<Node>, i: nat, j: nat)
    requires Ordered(s) && i < |s| && j < |s| && Before(s[i], s[j])
    ensures i < j
  {
    if i == j {
      Irreflexive(Path(s[i]));
    } else if j < i {
      PositionsDiffer(s, j, i);
      Trichotomy(Elements(s), s[i], s[j]);
    }
  }

  lemma {:induction false} UnderStays(u: set<Node>, a: Node, x: Node)
    requires Universe(u) && x in u && Under(a, x) && a.Elem?
    ensures a in u
  {
    if x != a {
      assert Closed(u, x);
      UnderStays(u, a, x.origin);
    }
  }

  lemma {:induction false} MeetsOutsider(s: seq<Node>, x: Node, from: nat, i: nat)
    requires Ordered(s) && Ready(s, x) && from == After(s, x.origin) && from <= i < |s|
    requires s[i].origin != x.origin && s[i].origin !in s[from..i + 1]
    ensures !Under(x.origin, s[i]) && Before(x, s[i])
  {
    hide Before, After;
    if Under(x.origin, s[i]) {
      OutsiderIsNotUnder(s, x, from, i);
    } else if x.origin == Start {
      UnderStart(Elements(s), s[i]);
    }
    SubtreeIsContiguous(x.origin, x, s[i]);
  }

  lemma NotInSlice(s: seq<Node>, from: nat, i: nat, o: Node)
    requires from <= i < |s| && o !in s[from..i + 1]
    ensures forall q | from <= q <= i :: s[q] != o
  {
    forall q | from <= q <= i
      ensures s[q] != o
    {
      assert s[from..i + 1][q - from] == s[q];
    }
  }

  lemma OutsiderIsNotUnder(s: seq<Node>, x: Node, from: nat, i: nat)
    requires Ordered(s) && Ready(s, x) && from == After(s, x.origin) && from <= i < |s|
    requires s[i].origin != x.origin && s[i].origin !in s[from..i + 1]
    ensures !Under(x.origin, s[i])
  {
    hide Before, After;
    var o := s[i].origin;
    assert s[i] in Elements(s) && Closed(Elements(s), s[i]);
    if x.origin != Start { PositionsDiffer(s, from - 1, i); }
    if Under(x.origin, s[i]) {
      assert Under(x.origin, o);
      var k :| 0 <= k < |s| && s[k] == o;
      AncestorsFirst(o, s[i]);
      AncestorsFirst(x.origin, o);
      IndexOrder(s, k, i);
      NotInSlice(s, from, i, o);
      if x.origin != Start {
        assert s[from - 1] == x.origin;
        IndexOrder(s, from - 1, k);
      }
    }
  }

  lemma {:induction false} MeetsRightOrigin(s: seq<Node>, x: Node, i: nat)
    requires Ordered(s) && Ready(s, x) && WellPlaced(x)
    requires After(s, x.origin) <= i < |s| && s[i] == x.right
    ensures Before(x, s[i])
  {
    if x.right.origin == x.origin {
      BeforeRightSibling(x);
    } else {
      UnderStart(Elements(s), x.right);
      SubtreeIsContiguous(x.origin, x, x.right);
    }
  }

  /** While the scan has not met the right origin, no sibling met is at or after it. */
  lemma {:induction false} NotYetAnchored(s: seq<Node>, x: Node, from: nat, i: nat, dest: nat)
    requires Ordered(s) && Ready(s, x) && Scanned(s, x, from, i, dest)
    requires from == After(s, x.origin) && i < |s| && s[i] != x.right && s[i].origin == x.origin
    ensures !Anchored(x, s[i])
  {
    if x.right.Elem? && x.right.origin == x.origin {
      var m :| 0 <= m < |s| && s[m] == x.right;
      if x.origin in s {
        AncestorsFirst(x.origin, x.right);
        if m < from - 1 { Trichotomy(Elements(s), x.origin, x.right); }
      }
      assert i < m;
      CompareWithSubtree(x.origin, s[i], x.right);
      SiblingTrichotomy(Elements(s), s[i], x.right);
    }
  }

  lemma {:induction false} MeetsSibling(s: seq<Node>, x: Node, from: nat, i: nat, dest: nat)
    requires Ordered(s) && Ready(s, x) && WellPlaced(x) && Scanned(s, x, from, i, dest)
    requires from == After(s, x.origin) && i < |s| && s[i] != x.right && s[i].origin == x.origin
    ensures s[i].id.client < x.id.client ==> Scanned(s, x, from, i + 1, i + 1)
    ensures s[i].id.client >= x.id.client && s[i].right == x.right ==> Before(x, s[i])
    ensures s[i].id.client >= x.id.client && s[i].right != x.right ==> Scanned(s, x, from, i + 1, dest)
  {
    hide Before;
    NotYetAnchored(s, x, from, i, dest);
    assert Size(x.origin) < Size(s[i]);
    ExtendUniverse(s, x);
    CompareWithSubtree(x.origin, x, s[i]);
    if s[i].id.client >= x.id.client {
      if s[i].right == x.right {
        if Anchored(s[i], x) {
          BeforeRightSibling(x);
          SiblingTrichotomy(With(s, x), x, x.right);
        }
      } else {
        SkippedGrows(s, x, from, i, dest);
      }
    }
  }

  lemma {:induction false} SkippedGrows(s: seq<Node>, x: Node, from: nat, i: nat, dest: nat)
    requires Scanned(s, x, from, i, dest) && i < |s|
    requires Under(x.origin, s[i]) && s[i] != x.origin && s[i] != x.right
    requires Skipped(s, x, dest, i + 1, s[i])
    ensures Scanned(s, x, from, i + 1, dest)
  {
    hide Before, Under, Branch, KeyBefore;
    forall k | dest <= k < i
      ensures Skipped(s, x, dest, i + 1, s[k])
    {
      assert Skipped(s, x, dest, i, s[k]);
      SkippedStays(s, x, dest, i, s[k]);
    }
  }

  lemma SkippedStays(s: seq<Node>, x: Node, dest: nat, i: nat, y: Node)
    requires x.Elem? && dest <= i < |s| && Under(x.origin, y) && y != x.origin
    requires Skipped(s, x, dest, i, y)
    ensures Skipped(s, x, dest, i + 1, y)
  {
    hide Under, Branch;
  }

  lemma {:induction false} DescendsWithin(s: seq<Node>, x: Node, from: nat, i: nat, dest: nat, k: nat)
    requires Scanned(s, x, from, i, dest) && from <= k < i < |s|
    requires s[i].Elem? && s[i].origin == s[k] && s[k] != x.origin
    ensures Under(x.origin, s[i]) && s[i] != x.origin && Branch(x.origin, s[i]) == Branch(x.origin, s[k])
  {
    if s[i] == x.origin {
      assert Under(s[i], s[k]);
      UnderShrinks(s[i], s[k]);
    }
  }

  lemma {:induction false} UnderShrinks(a: Node, x: Node)
    requires Under(a, x)
    ensures Size(a) <= Size(x)
  {
    if x != a { UnderShrinks(a, x.origin); }
  }

  lemma {:induction false} MeetsFollower(s: seq<Node>, x: Node, from: nat, i: nat, dest: nat, k: nat)
    requires Ordered(s) && Ready(s, x) && Scanned(s, x, from, i, dest) && i < |s| && s[i] != x.right
    requires from <= k < dest && s[i].origin == s[k] && s[k] != x.origin
    ensures Scanned(s, x, from, i + 1, i + 1)
  {
    DescendsWithin(s, x, from, i, dest, k);
    var b := Branch(x.origin, s[i]);
    ExtendUniverse(s, x);
    BranchIsChild(x.origin, s[i]);
    UnderStays(Elements(s), b, s[i]);
    if k < dest - 1 { Transitive(With(s, x), s[k], s[dest - 1], x); }
    CompareWithSubtree(x.origin, x, s[k]);
    CompareWithSubtree(x.origin, x, s[i]);
  }

  lemma {:induction false} MeetsDescendant(s: seq<Node>, x: Node, from: nat, i: nat, dest: nat)
    requires Ordered(s) && Ready(s, x) && Scanned(s, x, from, i, dest) && i < |s| && s[i] != x.right
    requires s[i].origin != x.origin && s[i].origin in s[from..i + 1]
    ensures s[i].origin in s[dest..i + 1] ==> Scanned(s, x, from, i + 1, dest)
    ensures s[i].origin !in s[dest..i + 1] ==> Scanned(s, x, from, i + 1, i + 1)
  {
    var k := LastIndex(s, from, i, s[i].origin);
    assert Size(s[k]) < Size(s[i]);
    if k < dest {
      assert s[i].origin !in s[dest..i + 1];
      MeetsFollower(s, x, from, i, dest, k);
    } else {
      assert s[dest..i + 1][k - dest] == s[k];
      DescendsWithin(s, x, from, i, dest, k);
      assert Skipped(s, x, dest, i, s[k]);
      SkippedGrows(s, x, from, i, dest);
    }
  }

  ghost function LastIndex(s: seq<Node>, from: nat, i: nat, y: Node): (k: nat)
    requires from <= i < |s| && y in s[from..i + 1]
    ensures from <= k <= i && s[k] == y && forall m | k < m <= i :: s[m] != y
  {
    if s[i] == y then i else
    assert s[from..i + 1] == s[from..i] + [s[i]];
    LastIndex(s, from, i - 1, y)
  }

  /** Each turn keeps the scan's invariant, or stops with `x` belonging exactly at `dest`. */
  lemma {:induction false} TurnIsRight(s: seq<Node>, x: Node, from: nat, i: nat, dest: nat)
    requires x.Elem? && from <= dest <= i <= |s| && forall o <- s :: o.Elem?
    requires Site(s, x, from) && Scanned(s, x, from, i, dest)
    ensures match Turn(s, x, from, i, dest)
            case Some(d) => Scanned(s, x, from, i + 1, d)
            case None => Found(s, x, from, dest)
  {
    if i == |s| {
      StopIsRight(s, x, from, i, dest);
    } else if s[i] == x.right {
      MeetsRightOrigin(s, x, i);
      StopIsRight(s, x, from, i, dest);
    } else if s[i].origin == x.origin {
      MeetsSibling(s, x, from, i, dest);
      if s[i].id.client >= x.id.client && s[i].right == x.right {
        StopIsRight(s, x, from, i, dest);
      }
    } else if s[i].origin in s[from..i + 1] {
      MeetsDescendant(s, x, from, i, dest);
    } else {
      MeetsOutsider(s, x, from, i);
      StopIsRight(s, x, from, i, dest);
    }
  }

  lemma {:induction false} ScanIsRight(s: seq<Node>, x: Node, from: nat, i: nat, dest: nat)
    requires x.Elem? && from <= dest <= i <= |s| && forall o <- s :: o.Elem?
    requires Site(s, x, from) && Scanned(s, x, from, i, dest)
    ensures Found(s, x, from, Scan(s, x, from, i, dest))
    decreases |s| - i
  {
    hide Site, Scanned, Found, Turn;
    TurnIsRight(s, x, from, i, dest);
    var t := Turn(s, x, from, i, dest);
    if t.Some? { ScanIsRight(s, x, from, i + 1, t.value); }
  }

  // ---------------------------------------------------------------- whole runs

  /** Integrating a unit whose neighbours are present keeps the list in the reference order. */
  lemma InsertKeepsOrder(s: seq<Node>, x: Node)
    requires Ordered(s) && Ready(s, x) && WellPlaced(x)
    ensures Ordered(Insert(s, x)) && Elements(Insert(s, x)) == With(s, x)
  {
    hide Before, Scan;
    var from := After(s, x.origin);
    var d := Place(s, x);
    ExtendUniverse(s, x);
    ScanIsRight(s, x, from, from, from);
    InsertUnits(s, x);
    AncestorsFirst(x.origin, x);
    forall i | 0 <= i < d
      ensures Before(s[i], x)
    {
      if i < d - 1 { Transitive(With(s, x), s[i], s[d - 1], x); }
    }
    forall i | d <= i < |s|
      ensures Before(x, s[i])
    {
      FollowsFrom(s, x, d, i);
    }
    SortedInsert(s, d, x);
  }

  lemma SortedInsert(s: seq<Node>, d: nat, x: Node)
    requires d <= |s| && Sorted(s)
    requires forall i | 0 <= i < d :: Before(s[i], x)
    requires forall i | d <= i < |s| :: Before(x, s[i])
    ensures Sorted(s[..d] + [x] + s[d..])
  {
    hide Before;
  }

  /** An order of integration in which every unit finds its neighbours. */
  ghost predicate Run(log: seq<Node>) {
    forall i {:trigger log[i]} | 0 <= i < |log| :: Ready(log[..i], log[i]) && WellPlaced(log[i])
  }

  lemma RunPrefix(log: seq<Node>, k: nat)
    requires Run(log) && k <= |log|
    ensures Run(log[..k])
  {
    forall i | 0 <= i < k
      ensures Ready(log[..k][..i], log[..k][i]) && WellPlaced(log[..k][i])
    {
      assert log[..k][..i] == log[..i] && log[..k][i] == log[i];
    }
  }

  lemma SameReady(s: seq<Node>, t: seq<Node>, x: Node)
    requires Elements(s) == Elements(t) && Ready(s, x)
    ensures Ready(t, x)
  {
    assert forall y :: y in s <==> y in Elements(s);
    assert forall y :: y in t <==> y in Elements(t);
  }

  /** The list after integrating `log` in order. */
  ghost function Build(log: seq<Node>): (s: seq<Node>)
    requires Run(log)
    ensures Elements(s) == Elements(log)
  {
    if log == [] then [] else
    var n := |log| - 1;
    RunPrefix(log, n);
    var s := Build(log[..n]);
    RunLast(log, s);
    Insert(s, log[n])
  }

  lemma InsertUnits(s: seq<Node>, x: Node)
    requires x.Elem? && (x.origin == Start || x.origin in s) && forall o <- s :: o.Elem?
    ensures Elements(Insert(s, x)) == With(s, x)
  {
    hide Place;
    var d := Place(s, x);
    assert s == s[..d] + s[d..];
  }

  lemma RunLast(log: seq<Node>, s: seq<Node>)
    requires Run(log) && log != [] && Elements(s) == Elements(log[..|log| - 1])
    ensures var x := log[|log| - 1];
            && Ready(s, x) && WellPlaced(x) && (forall o <- s :: o.Elem?)
            && Elements(Insert(s, x)) == Elements(log)
  {
    var n := |log| - 1;
    assert Ready(log[..n], log[n]);
    SameReady(log[..n], s, log[n]);
    forall o | o in s
      ensures o.Elem?
    {
      assert o in Elements(log[..n]);
      var i :| 0 <= i < n && log[i] == o;
    }
    InsertUnits(s, log[n]);
    assert log == log[..n] + [log[n]];
    assert Elements(log) == Elements(log[..n]) + {log[n]};
  }

  lemma {:induction false} BuildIsOrdered(log: seq<Node>)
    requires Run(log)
    ensures Ordered(Build(log))
  {
    if log != [] {
      var n := |log| - 1;
      RunPrefix(log, n);
      BuildIsOrdered(log[..n]);
      RunLast(log, Build(log[..n]));
      InsertKeepsOrder(Build(log[..n]), log[n]);
    }
  }

  lemma BuildStep(log: seq<Node>)
    requires Run(log) && log != []
    ensures var n := |log| - 1;
            && Run(log[..n])
            && var s := Build(log[..n]);
               && Ready(s, log[n]) && WellPlaced(log[n]) && Ordered(s)
               && Build(log) == Insert(s, log[n])
  {
    var n := |log| - 1;
    RunPrefix(log, n);
    RunLast(log, Build(log[..n]));
    BuildIsOrdered(log[..n]);
  }

  lemma {:induction false} SortedListsAgree(u: set<Node>, s: seq<Node>, t: seq<Node>)
    requires Universe(u) && Elements(s) == Elements(t) <= u && Sorted(s) && Sorted(t)
    ensures s == t
  {
    hide Before;
    EmptyUnits(s);
    EmptyUnits(t);
    if s != [] {
      FirstsAgree(u, s, t);
      RestUnits(s);
      RestUnits(t);
      assert Sorted(s[1..]) && Sorted(t[1..]);
      SortedListsAgree(u, s[1..], t[1..]);
      assert s == [s[0]] + s[1..] && t == [t[0]] + t[1..];
    }
  }

  lemma EmptyUnits(s: seq<Node>)
    ensures Elements(s) == {} <==> s == []
  {
    if s != [] { assert s[0] in Elements(s); }
  }

  lemma FirstsAgree(u: set<Node>, s: seq<Node>, t: seq<Node>)
    requires Universe(u) && Elements(s) == Elements(t) <= u && Sorted(s) && Sorted(t) && s != [] && t != []
    ensures s[0] == t[0]
  {
    hide Before;
    assert s[0] in Elements(t) && t[0] in Elements(s);
    var i :| 0 <= i < |t| && t[i] == s[0];
    var j :| 0 <= j < |s| && s[j] == t[0];
    if s[0] != t[0] { Trichotomy(u, s[0], t[0]); }
  }

  lemma RestUnits(s: seq<Node>)
    requires Sorted(s) && s != []
    ensures Elements(s[1..]) == Elements(s) - {s[0]}
  {
    hide Before;
    forall x | x in s[1..]
      ensures x != s[0]
    {
      var i :| 0 < i < |s| && s[i] == x;
      PositionsDiffer(s, 0, i);
    }
  }

  /** Delivery order does not matter: whatever order the units of a list arrive in, as long
      as each finds its neighbours, the list is the same one. */
  lemma Convergence(a: seq<Node>, b: seq<Node>)
    requires Run(a) && Run(b) && Elements(a) == Elements(b)
    ensures Build(a) == Build(b)
  {
    BuildIsOrdered(a);
    BuildIsOrdered(b);
    SortedListsAgree(Elements(a), Build(a), Build(b));
  }

  /** The units of `s` that belong to `u`, in the order of `s`. */
  ghost function Restrict(s: seq<Node>, u: set<Node>): (t: seq<Node>) {
    if s == [] then [] else (if s[0] in u then [s[0]] else []) + Restrict(s[1..], u)
  }

  lemma {:induction false} RestrictAppend(s: seq<Node>, t: seq<Node>, u: set<Node>)
    ensures Restrict(s + t, u) == Restrict(s, u) + Restrict(t, u)
  {
    if s == [] {
      assert s + t == t;
    } else {
      var kept := if s[0] in u then [s[0]] else [];
      assert (s + t)[1..] == s[1..] + t;
      RestrictAppend(s[1..], t, u);
      assert Restrict(s + t, u) == kept + (Restrict(s[1..], u) + Restrict(t, u));
    }
  }

  lemma {:induction false} RestrictAll(s: seq<Node>, u: set<Node>)
    requires Elements(s) <= u
    ensures Restrict(s, u) == s
  {
    if s != [] {
      assert s[0] in Elements(s) && Elements(s[1..]) <= Elements(s);
      RestrictAll(s[1..], u);
    }
  }

  lemma RestrictSkips(x: Node, t: seq<Node>, u: set<Node>)
    requires x !in u
    ensures Restrict([x] + t, u) == Restrict(t, u)
  {
    assert ([x] + t)[1..] == t;
  }

  lemma RestrictInsert(s: seq<Node>, d: nat, x: Node, u: set<Node>)
    requires d <= |s| && x !in u
    ensures Restrict(s[..d] + [x] + s[d..], u) == Restrict(s, u)
  {
    hide Restrict;
    var tail := s[d..];
    RestrictSkips(x, tail, u);
    assert s[..d] + [x] + tail == s[..d] + ([x] + tail);
    RestrictAppend(s[..d], [x] + tail, u);
    RestrictAppend(s[..d], tail, u);
    assert s[..d] + s[d..] == s;
  }

  /** Units are never reordered: a later list, cut down to the units of an earlier moment,
      is the list of that moment. */
  lemma {:induction false} NoReordering(log: seq<Node>, k: nat)
    requires Run(log) && k <= |log|
    ensures Run(log[..k]) && Restrict(Build(log), Elements(log[..k])) == Build(log[..k])
  {
    hide Ordered, Ready, WellPlaced, Before;
    RunPrefix(log, k);
    if k == |log| {
      assert log[..k] == log;
      RestrictAll(Build(log), Elements(log));
    } else {
      var n := |log| - 1;
      RunPrefix(log, n);
      NoReordering(log[..n], k);
      assert log[..n][..k] == log[..k];
      BuildStep(log);
      var s := Build(log[..n]);
      ExtendUniverse(s, log[n]);
      assert Elements(log[..k]) <= Elements(log[..n]) == Elements(s);
      RestrictInsert(s, Place(s, log[n]), log[n], Elements(log[..k]));
    }
  }

  /** The scan goes no further than the right origin. */
  lemma {:induction false} ScanStops(s: seq<Node>, x: Node, from: nat, i: nat, dest: nat, m: nat)
    requires x.Elem? && from <= dest <= i <= m < |s| && s[m] == x.right && forall o <- s :: o.Elem?
    ensures Scan(s, x, from, i, dest) <= m
    decreases m - i
  {
    var t := Turn(s, x, from, i, dest);
    if t.Some? { ScanStops(s, x, from, i + 1, t.value, m); }
  }

  /** Index `d` lies after `o`, and not after `t` where that follows `o`. */
  ghost predicate Flanked(s: seq<Node>, d: nat, o: Node, t: Node) {
    && d <= |s| && (o != Start ==> o in s[..d])
    && (forall m | 0 <= m < |s| && s[m] == t && (o == Start || o in s[..m]) :: d <= m)
  }

  /** In any list, whatever its order, any unit lands after its origin, and before its right origin
      if that follows the origin. */
  lemma LandsBetween(s: seq<Node>, x: Node)
    requires x.Elem? && (x.origin == Start || x.origin in s) && forall o <- s :: o.Elem?
    ensures Flanked(s, Place(s, x), x.origin, x.right)
  {
    hide Turn, Scan;
    var from, d := After(s, x.origin), Place(s, x);
    if x.origin != Start { assert s[..d][from - 1] == x.origin; }
    forall m | 0 <= m < |s| && s[m] == x.right && (x.origin == Start || x.origin in s[..m])
      ensures d <= m
    {
      if x.origin != Start { FirstIsFirst(s, x.origin, m); }
      ScanStops(s, x, from, from, from, m);
    }
  }

  lemma {:induction false} FirstIsFirst(s: seq<Node>, x: Node, m: nat)
    requires m <= |s| && x in s[..m]
    ensures After(s, x) <= m
  {
    if s[0] != x {
      assert s[..m] == [s[0]] + s[1..][..m - 1];
      FirstIsFirst(s[1..], x, m - 1);
    }
  }

  /** So it stands between them afterwards. */
  lemma StandsBetween(s: seq<Node>, x: Node, m: nat)
    requires x.Elem? && (x.origin == Start || x.origin in s) && forall o <- s :: o.Elem?
    requires m < |s| && s[m] == x.right && (x.origin == Start || x.origin in s[..m])
    ensures var d, t := Place(s, x), Insert(s, x);
            t[d] == x && d < m + 1 && t[m + 1] == x.right && (x.origin != Start ==> x.origin in t[..d])
  {
    hide Place;
    LandsBetween(s, x);
    assert Insert(s, x)[..Place(s, x)] == s[..Place(s, x)];
  }

  /** What an author types between two adjacent units is well placed, and stays where it was typed. */
  lemma LocalInsert(s: seq<Node>, k: nat, id: ID)
    requires Ordered(s) && k <= |s|
    ensures var x := Elem(id, if k == 0 then Start else s[k - 1], if k == |s| then End else s[k]);
            WellPlaced(x) && Place(s, x) == k
  {
    hide Before;
    var x := Elem(id, if k == 0 then Start else s[k - 1], if k == |s| then End else s[k]);
    if k > 0 {
      assert s[k - 1] in Elements(s);
      var from := After(s, x.origin);
      if from < k { PositionsDiffer(s, from - 1, k - 1); }
      if from > k { PositionsDiffer(s, k - 1, from - 1); }
    }
    if k < |s| && Under(x.origin, x.right) && x.right.origin != x.origin {
      assert Closed(Elements(s), s[k]);
      if k > 0 { PositionsDiffer(s, k - 1, k); }
      assert Under(x.origin, s[k].origin);
      var m :| 0 <= m < |s| && s[m] == s[k].origin;
      assert Size(s[m]) < Size(s[k]);
      AncestorsFirst(s[m], s[k]);
      IndexOrder(s, m, k);
      if k > 0 {
        AncestorsFirst(s[k - 1], s[m]);
        IndexOrder(s, k - 1, m);
      }
    }
  }

  /** With one right origin for both, siblings go by ascending client. */
  lemma EqualRightOrigins(u: set<Node>, x: Node, y: Node)
    requires Universe(u) && x in u && y in u && x.origin == y.origin && x.right == y.right && x != y
    ensures SiblingBefore(x, y) <==> KeyBefore(x.id, y.id)
  {
    if x.right.Elem? && x.right.origin == x.origin {
      assert Closed(u, x);
      assert Size(x.right) < Size(x) && Size(y.right) < Size(y);
      BeforeRightSibling(x);
      BeforeRightSibling(y);
      SiblingTrichotomy(u, x, x.right);
      SiblingTrichotomy(u, y, x.right);
    }
  }

  /** Two turns of the scan, the second of which ends it. */
  lemma TwoTurns(s: seq<Node>, x: Node, from: nat)
    requires x.Elem? && from < |s| && (forall o <- s :: o.Elem?)
    requires Turn(s, x, from, from, from) == Some(from + 1) && Turn(s, x, from, from + 1, from + 1) == None
    ensures Scan(s, x, from, from, from) == from + 1
  {
    assert Scan(s, x, from, from + 1, from + 1) == from + 1;
  }

  /** The hypothesis `WellPlaced` is needed: when the right origin of `x` lies inside the subtree
      of a sibling, two orders of delivery give different lists. */
  lemma IllPlacedDiverges(p: Node, c: Node, g: Node, x: Node, y: Node)
    requires p == Elem(ID(1, 0), Start, End) && c == Elem(ID(1, 1), p, End) && g == Elem(ID(1, 2), c, End)
    requires x == Elem(ID(2, 0), p, g) && y == Elem(ID(3, 0), c, End)
    ensures Run([p, c, g]) && Ready([p, c, g], x) && Ready([p, c, g], y) && WellPlaced(y) && !WellPlaced(x)
    ensures Insert(Insert([p, c, g], x), y) == [p, c, y, x, g]
    ensures Insert(Insert([p, c, g], y), x) == [p, c, x, g, y]
  {
    hide Scan;
    var s := [p, c, g];
    assert s[..0] == [] && s[..1] == [p] && s[..2] == [p, c];
    TwoTurns(s, x, 1);
    assert Insert(s, x) == [p, c, x, g];
    assert Scan([p, c, x, g], y, 2, 2, 2) == 2 by { StopsAtOnce([p, c, x, g], y, 2); }
    TwoTurns(s, y, 2);
    assert Insert(s, y) == [p, c, g, y];
    TwoTurns([p, c, g, y], x, 1);
  }

  // ---------------------------------------------------------------- runs of units

  /** Consecutive units of one item: each but the first has its predecessor as origin. */
  ghost predicate IsRun(xs: seq<Node>) {
    && (forall x <- xs :: x.Elem?)
    && (forall j {:trigger Follows(xs, j)} | 0 < j < |xs| :: Follows(xs, j))
  }

  predicate Follows(xs: seq<Node>, j: int) {
    0 < j < |xs| && xs[j].Elem? && xs[j].origin == xs[j - 1]
  }

  /** The scan treats the units of one item alike: it stops at the first, or it passes all of
      them, and `left` follows all of them or none. */
  lemma {:induction false} ScanPassesRun(s: seq<Node>, x: Node, from: nat, i: nat, dest: nat, m: nat)
    requires x.Elem? && from <= dest <= i <= i + m <= |s| && m > 0 && (forall o <- s :: o.Elem?)
    requires IsRun(s[i..i + m]) && (forall j, k | 0 <= j < k < |s| :: s[j] != s[k])
    requires forall j | i <= j < i + m :: s[j] != x.origin && (j > i ==> s[j] != x.right)
    ensures match Turn(s, x, from, i, dest)
            case None => Scan(s, x, from, i, dest) == dest
            case Some(d) => Scan(s, x, from, i, dest) == Scan(s, x, from, i + m, if d == dest then dest else i + m)
  {
    var t := Turn(s, x, from, i, dest);
    if t.Some? { FollowersPass(s, x, from, i, t.value, m, 1); }
  }

  lemma {:induction false} FollowersPass(s: seq<Node>, x: Node, from: nat, i: nat, dest: nat, m: nat, j: nat)
    requires x.Elem? && from <= dest <= i + j <= i + m <= |s| && 0 < j && from <= i && (forall o <- s :: o.Elem?)
    requires IsRun(s[i..i + m]) && (forall j, k | 0 <= j < k < |s| :: s[j] != s[k])
    requires forall j | i <= j < i + m :: s[j] != x.origin && (j > i ==> s[j] != x.right)
    requires dest <= i || dest == i + j
    ensures Scan(s, x, from, i + j, dest) == Scan(s, x, from, i + m, if dest <= i then dest else i + m)
    decreases m - j
  {
    hide Turn, IsRun;
    if j < m {
      var k := i + j;
      RunMember(s, i, m, j);
      TurnFollows(s, x, from, k, dest);
      FollowersPass(s, x, from, i, if dest < k then dest else k + 1, m, j + 1);
    }
  }

  lemma RunMember(s: seq<Node>, i: nat, m: nat, j: nat)
    requires i + m <= |s| && 0 < j < m && IsRun(s[i..i + m])
    ensures s[i + j].Elem? && s[i + j].origin == s[i + j - 1]
  {
    assert Follows(s[i..i + m], j);
  }

  lemma TurnFollows(s: seq<Node>, x: Node, from: nat, k: nat, dest: nat)
    requires x.Elem? && from <= dest <= k < |s| && from < k && (forall o <- s :: o.Elem?)
    requires s[k] != x.right && s[k].origin == s[k - 1] && s[k - 1] != x.origin && s[k - 1] != s[k]
    ensures Turn(s, x, from, k, dest) == Some(if dest < k then dest else k + 1)
  {
    assert s[from..k + 1][k - 1 - from] == s[k - 1];
    if dest < k {
      assert s[dest..k + 1][k - 1 - dest] == s[k - 1];
    } else {
      assert s[dest..k + 1] == [s[k]];
    }
  }

  /** Integrating the units of one item one after the other. */
  ghost function InsertAll(s: seq<Node>, xs: seq<Node>): (t: seq<Node>)
    requires (forall o <- s :: o.Elem?) && IsRun(xs)
    requires xs != [] ==> xs[0].origin == Start || xs[0].origin in s
    ensures (forall o <- t :: o.Elem?) && (forall o <- s :: o in t) && (forall o <- xs :: o in t)
    decreases |xs|
  {
    if xs == [] then s else
    var n := |xs| - 1;
    assert IsRun(xs[..n]) by { RunPrefixIsRun(xs, n); }
    var t := InsertAll(s, xs[..n]);
    assert n > 0 ==> Follows(xs, n) && xs[..n][n - 1] == xs[n - 1];
    assert xs == xs[..n] + [xs[n]];
    InsertMembers(t, xs[n]);
    Insert(t, xs[n])
  }

  lemma InsertMembers(s: seq<Node>, x: Node)
    requires x.Elem? && (x.origin == Start || x.origin in s) && forall o <- s :: o.Elem?
    ensures x in Insert(s, x) && (forall o <- s :: o in Insert(s, x)) && (forall o <- Insert(s, x) :: o == x || o in s)
  {
    InsertUnits(s, x);
    hide Insert;
    assert forall o :: o in Insert(s, x) <==> o in Elements(Insert(s, x));
    assert forall o :: o in With(s, x) <==> o in s || o == x;
  }

  lemma RunPrefixIsRun(xs: seq<Node>, n: nat)
    requires IsRun(xs) && n <= |xs|
    ensures IsRun(xs[..n])
  {
    forall j | 0 < j < n
      ensures Follows(xs[..n], j)
    {
      assert Follows(xs, j);
    }
  }

  /** The units of an item stay together: placing the first places them all. */
  lemma {:induction false} RunStaysTogether(s: seq<Node>, xs: seq<Node>)
    requires (forall o <- s :: o.Elem? && o !in xs && (o.origin == Start || o.origin in s)) && IsRun(xs) && xs != []
    requires (xs[0].origin == Start || xs[0].origin in s) && (forall j, k | 0 <= j < k < |xs| :: xs[j] != xs[k])
    ensures var d := Place(s, xs[0]); InsertAll(s, xs) == s[..d] + xs + s[d..]
    decreases |xs|
  {
    var d, n := Place(s, xs[0]), |xs| - 1;
    assert xs[..n] + [xs[n]] == xs;
    RunPrefixIsRun(xs, n);
    if n == 0 {
      assert xs[..n] == [] && xs == [xs[0]];
    } else {
      RunStaysTogether(s, xs[..n]);
      assert Follows(xs, n);
      NextOfRun(s, xs, d);
    }
  }

  lemma NextOfRun(s: seq<Node>, xs: seq<Node>, d: nat)
    requires (forall o <- s :: o.Elem? && o !in xs && (o.origin == Start || o.origin in s)) && IsRun(xs) && |xs| > 1
    requires (forall j, k | 0 <= j < k < |xs| :: xs[j] != xs[k]) && d <= |s|
    ensures var n := |xs| - 1;
            var t := s[..d] + xs[..n] + s[d..];
            && (forall o <- t :: o.Elem?) && xs[n].origin in t
            && Insert(t, xs[n]) == s[..d] + xs + s[d..]
  {
    hide Turn, Scan, After, IsRun;
    var n := |xs| - 1;
    var t := s[..d] + xs[..n] + s[d..];
    RunFollows(xs, n);
    PrefixApart(s, xs, n);
    assert xs[n - 1] in xs && xs[n] in xs;
    OccursOnce(s, xs, n, d);
    var from := After(t, xs[n].origin);
    if from < |t| {
      assert t[from] == s[d] && s[d] in s;
      OriginOutside(s, xs, d);
    }
    OutsiderStops(t, xs[n], from);
    Spliced(s, xs, d);
  }

  lemma PrefixApart(s: seq<Node>, xs: seq<Node>, n: nat)
    requires n <= |xs| && (forall o <- s :: o !in xs) && (forall j, k | 0 <= j < k < |xs| :: xs[j] != xs[k])
    ensures (forall o <- s :: o !in xs[..n]) && (forall o <- xs[..n] :: o in xs)
    ensures forall i, k | 0 <= i < k < |xs[..n]| :: xs[..n][i] != xs[..n][k]
  {
  }

  lemma RunFollows(xs: seq<Node>, n: nat)
    requires IsRun(xs) && 0 < n < |xs|
    ensures Follows(xs, n) && forall x <- xs :: x.Elem?
  {
  }

  /** What stands after a run does not hang off it. */
  lemma OriginOutside(s: seq<Node>, xs: seq<Node>, d: nat)
    requires (forall o <- s :: o.Elem? && o !in xs && (o.origin == Start || o.origin in s)) && d < |s| && xs != []
    requires xs[|xs| - 1].Elem?
    requires |xs| > 1 && xs[|xs| - 1].origin == xs[|xs| - 2] && xs[|xs| - 2] != Start
    ensures s[d].origin != xs[|xs| - 1].origin && s[d].origin != s[d]
  {
    assert s[d] in s && xs[|xs| - 2] in xs;
    assert Size(s[d].origin) < Size(s[d]);
  }

  lemma Spliced(s: seq<Node>, xs: seq<Node>, d: nat)
    requires d <= |s| && xs != []
    ensures var n := |xs| - 1;
            var t := s[..d] + xs[..n] + s[d..];
            t[..d + n] + [xs[n]] + t[d + n..] == s[..d] + xs + s[d..]
  {
    var n := |xs| - 1;
    var t := s[..d] + xs[..n] + s[d..];
    assert t[..d + n] == s[..d] + xs[..n] && t[d + n..] == s[d..];
    assert xs == xs[..n] + [xs[n]];
  }

  lemma StopsAtOnce(s: seq<Node>, x: Node, from: nat)
    requires x.Elem? && from <= |s| && (forall o <- s :: o.Elem?)
    requires Turn(s, x, from, from, from) == None
    ensures Scan(s, x, from, from, from) == from
  {
  }

  /** A unit that hangs off neither `x`'s origin nor anything the scan has passed ends the scan. */
  lemma OutsiderStops(s: seq<Node>, x: Node, from: nat)
    requires x.Elem? && from <= |s| && (forall o <- s :: o.Elem?)
    requires from < |s| ==> s[from].origin != x.origin && s[from].origin != s[from]
    ensures Scan(s, x, from, from, from) == from
  {
    if from < |s| { assert s[from..from + 1] == [s[from]]; }
  }

  /** The last of the first `n` of a run is where it was put. */
  lemma OccursOnce(s: seq<Node>, xs: seq<Node>, n: nat, d: nat)
    requires d <= |s| && 0 < n <= |xs| && (forall o <- s :: o !in xs)
    requires forall j, k | 0 <= j < k < |xs| :: xs[j] != xs[k]
    requires xs[n - 1] != Start
    ensures var t := s[..d] + xs[..n] + s[d..]; xs[n - 1] in t && After(t, xs[n - 1]) == d + n
  {
    SliceMembers(s, d);
    assert xs[..n][n - 1] == xs[n - 1] && xs[n - 1] in xs;
    OccursInMiddle(s[..d], xs[..n], s[d..], n - 1);
  }

  lemma SliceMembers(s: seq<Node>, d: nat)
    requires d <= |s|
    ensures (forall o <- s[..d] :: o in s) && (forall o <- s[d..] :: o in s)
  {
  }

  lemma OccursInMiddle(a: seq<Node>, xs: seq<Node>, b: seq<Node>, j: nat)
    requires j < |xs| && xs[j] !in a && xs[j] !in b && xs[j] != Start
    requires forall i | 0 <= i < |xs| && i != j :: xs[i] != xs[j]
    ensures xs[j] in a + xs + b && After(a + xs + b, xs[j]) == |a| + j + 1
  {
    hide After;
    var t := a + xs + b;
    forall q | 0 <= q < |t| && q != |a| + j
      ensures t[q] != xs[j]
    {
      if q < |a| {
        assert t[q] == a[q] && a[q] in a;
      } else if q < |a| + |xs| {
        assert t[q] == xs[q - |a|];
      } else {
        assert t[q] == b[q - |a| - |xs|] && b[q - |a| - |xs|] in b;
      }
    }
    assert t[|a| + j] == xs[j];
    assert t[After(t, xs[j]) - 1] == xs[j];
  }

  /** Integrating a run leaves the relative order of what was there. */
  lemma {:induction false} RestrictInsertAll(s: seq<Node>, xs: seq<Node>, u: set<Node>)
    requires (forall o <- s :: o.Elem?) && IsRun(xs) && (forall x <- xs :: x !in u)
    requires xs != [] ==> xs[0].origin == Start || xs[0].origin in s
    ensures Restrict(InsertAll(s, xs), u) == Restrict(s, u)
    decreases |xs|
  {
    if xs != [] {
      var n := |xs| - 1;
      RunPrefixIsRun(xs, n);
      RestrictInsertAll(s, xs[..n], u);
      var t := InsertAll(s, xs[..n]);
      assert n > 0 ==> Follows(xs, n) && xs[..n][n - 1] == xs[n - 1];
      RestrictInsert(t, Place(t, xs[n]), xs[n], u);
    }
  }

  lemma {:induction false} RestrictTwice(s: seq<Node>, u: set<Node>, v: set<Node>)
    requires u <= v
    ensures Restrict(Restrict(s, v), u) == Restrict(s, u)
  {
    if s != [] {
      RestrictTwice(s[1..], u, v);
      var kept := if s[0] in v then [s[0]] else [];
      RestrictAppend(kept, Restrict(s[1..], v), u);
      if s[0] in v { RestrictOne(s[0], u); }
    }
  }

  lemma RestrictOne(x: Node, u: set<Node>)
    ensures Restrict([x], u) == if x in u then [x] else []
  {
    assert [x][1..] == [];
  }

  lemma {:induction false} RestrictElements(s: seq<Node>, u: set<Node>)
    ensures Elements(Restrict(s, u)) <= Elements(s)
  {
    if s != [] {
      RestrictElements(s[1..], u);
      assert s == [s[0]] + s[1..];
      assert forall x <- Restrict(s[1..], u) :: x in Elements(Restrict(s[1..], u)) && x in s[1..];
    }
  }

  /** A run whose units are ready one after the other keeps the list in the reference order. */
  lemma {:induction false} RunKeepsOrder(s: seq<Node>, xs: seq<Node>)
    requires Ordered(s) && IsRun(xs) && (forall o <- s :: o.Elem?)
    requires xs != [] ==> Ready(s, xs[0])
    requires forall j | 0 <= j < |xs| :: WellPlaced(xs[j]) && xs[j].right == xs[0].right
    requires forall j | 0 <= j < |xs| :: xs[j].id.client == xs[0].id.client && xs[j].id.clock == xs[0].id.clock + j
    ensures Ordered(InsertAll(s, xs)) && Elements(InsertAll(s, xs)) == Elements(s) + Elements(xs)
    decreases |xs|
  {
    if xs == [] {
      assert Elements(xs) == {};
    } else {
      var n := |xs| - 1;
      RunPrefixIsRun(xs, n);
      RunKeepsOrder(s, xs[..n]);
      var t := InsertAll(s, xs[..n]);
      assert xs == xs[..n] + [xs[n]];
      NextIsReady(s, xs, t);
      InsertKeepsOrder(t, xs[n]);
    }
  }

  lemma NextIsReady(s: seq<Node>, xs: seq<Node>, t: seq<Node>)
    requires xs != [] && IsRun(xs) && Ready(s, xs[0]) && Ordered(t)
    requires Elements(t) == Elements(s) + Elements(xs[..|xs| - 1])
    requires forall j | 0 <= j < |xs| :: xs[j].right == xs[0].right
    requires forall j | 0 <= j < |xs| :: xs[j].id.client == xs[0].id.client && xs[j].id.clock == xs[0].id.clock + j
    ensures Ready(t, xs[|xs| - 1])
  {
    hide Ordered;
    var n := |xs| - 1;
    var x := xs[n];
    assert forall o :: o in t <==> o in Elements(t);
    if n > 0 {
      assert Follows(xs, n);
      assert xs[..n][n - 1] == xs[n - 1];
      assert xs[n - 1] in Elements(xs[..n]);
    }
    forall o | o in t
      ensures o.Elem? && o.id.client == x.id.client ==> o.id.clock < x.id.clock
    {
      if o in xs[..n] {
        var j :| 0 <= j < n && xs[j] == o;
      } else {
        assert o in Elements(s);
      }
    }
  }
}
