/**
  Which write to a key of a map wins.  The writes are the entries of the key's list, in the
  reference order; the value is the rightmost one.
*/
module MapKeys {
  import opened Ids
  import opened Structs
  import opened Yata
  import opened Items
  import opened Histories
  import opened Steps
  import opened Schedules
  import opened Ledgers
  import opened Docs

  /** In every reachable document, if map entries are of length one, every entry of a key but the
      rightmost is deleted. */
  lemma KeyHasOneValue(a: Doc, k: Owner, i: nat)
    requires a.Valid() && AllUnits(a.h, a.l.known) && k.Keyed() && i + 1 < |Order(a.store.W(), k)|
    ensures Order(a.store.W(), k)[i].Elem? && Order(a.store.W(), k)[i].id in a.store.gone
  {
    hide Order, Sane, Agrees, Lawful, Fits, Least, Tallied, Accounted, Listed, Orderly, Honest;
    assert OneValue(a.store.W(), k);
  }

  /** A write by someone who has seen the current value becomes the value. */
  lemma LaterWriteWins(s: seq<Node>, id: ID)
    requires Ordered(s)
    ensures Place(s, Elem(id, if s == [] then Start else s[|s| - 1], End)) == |s|
  {
    LocalInsert(s, |s|, id);
  }

  /** Of two concurrent writes the one of the higher client is further right. */
  lemma HigherClientWins(s: seq<Node>, i: nat, j: nat)
    requires Ordered(s) && i < |s| && j < |s| && s[i].Elem? && s[j].Elem?
    requires s[i].origin == s[j].origin && s[i].right == s[j].right && s[i].id.client < s[j].id.client
    ensures i < j
  {
    hide Before, SiblingBefore;
    var u := Elements(s);
    assert s[i] in u && s[j] in u;
    EqualRightOrigins(u, s[i], s[j]);
    SiblingsInOrder(s[i], s[j]);
    IndexOrder(s, i, j);
  }

  lemma SiblingsInOrder(x: Node, y: Node)
    requires x.Elem? && y.Elem? && x.origin == y.origin && SiblingBefore(x, y) && x != y
    ensures Before(x, y)
  {
    CommonPrefix(Path(x.origin), [x], [y]);
  }
}
