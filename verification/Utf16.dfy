/**
  Text in UTF-16 code units (`UTF16Length` of internal/crdt/lib0/lib0.go and `splitUTF16` of
  internal/crdt/content.go).  A string is a sequence of code points; section 2.1 of RFC 2781
  gives one code unit to those up to U+FFFF and a surrogate pair to those above.
*/
module Utf16 {
  import opened Structs

  type Rune = r: nat | r <= 0x10FFFF

  /** The code units of one code point. */
  function CellsOf(r: Rune): (c: seq<Cell>)
    ensures 1 <= |c| <= 2
  {
    if r > 0xFFFF then [Cell(r, High), Cell(r, Low)] else [Cell(r, Half.Whole)]
  }

  /** The code units of a string. */
  function CellsIn(s: seq<Rune>): seq<Cell> {
    if s == [] then [] else CellsIn(s[..|s| - 1]) + CellsOf(s[|s| - 1])
  }

  lemma {:induction false} CellsConcat(s: seq<Rune>, t: seq<Rune>)
    ensures CellsIn(s + t) == CellsIn(s) + CellsIn(t)
  {
    if t == [] {
      assert s + t == s;
    } else {
      hide CellsOf;
      CellsConcat(s, t[..|t| - 1]);
      assert (s + t)[..|s + t| - 1] == s + t[..|t| - 1] && (s + t)[|s + t| - 1] == t[|t| - 1];
    }
  }

  /** Text never starts or ends with half a pair. */
  lemma {:induction false} TextIsPaired(s: seq<Rune>)
    ensures Paired(CellsIn(s))
  {
    if s != [] { TextIsPaired(s[..|s| - 1]); }
  }

  /** One unit each, and one more for every code point above U+FFFF. */
  lemma {:induction false} Astral(s: seq<Rune>)
    ensures |CellsIn(s)| == |s| + |set i | 0 <= i < |s| && s[i] > 0xFFFF|
  {
    if s != [] {
      var n := |s| - 1;
      Astral(s[..n]);
      var before := set i | 0 <= i < n && s[..n][i] > 0xFFFF;
      assert (set i | 0 <= i < |s| && s[i] > 0xFFFF) == if s[n] > 0xFFFF then before + {n} else before;
    }
  }

  /** `UTF16Length`. */
  method Length(s: seq<Rune>) returns (n: nat)
    ensures n == |CellsIn(s)| == |s| + |set i | 0 <= i < |s| && s[i] > 0xFFFF|
  {
    n := 0;
    Astral(s);
    for i := 0 to |s|
      invariant n == |CellsIn(s[..i])|
    {
      assert s[..i + 1][..i] == s[..i];
      n := n + (if s[i] > 0xFFFF then 2 else 1);
    }
    assert s[..|s|] == s;
  }

  /** `splitUTF16`: cut a string after `n` code units.  It succeeds exactly at the ends and where
      the content can be cut, and the code units of the parts are those before and after. */
  method Split(s: seq<Rune>, n: nat) returns (head: seq<Rune>, tail: seq<Rune>, ok: bool)
    ensures ok <==> n == 0 || n == |CellsIn(s)| || Splits(Content(Plain, CellsIn(s)), n)
    ensures ok ==>
              && s == head + tail && n <= |CellsIn(s)|
              && CellsIn(head) == CellsIn(s)[..n] && CellsIn(tail) == CellsIn(s)[n..]
  {
    hide CellsIn, CellsOf;
    if n == 0 {
      CutHere(s, 0);
      return [], s, true;
    }
    CutHere(s, 0);
    var units := 0;
    for i := 0 to |s|
      invariant units == |CellsIn(s[..i])| && units <= n
    {
      if units == n {
        CutHere(s, i);
        return s[..i], s[i..], true;
      }
      NextRune(s, i);
      units := units + (if s[i] > 0xFFFF then 2 else 1);
      if units > n {
        return [], [], false;
      }
    }
    CutHere(s, |s|);
    if units == n {
      return s, [], true;
    }
    return [], [], false;
  }

  /** A cut between code points does not cut a pair. */
  lemma CutHere(s: seq<Rune>, i: nat)
    requires i <= |s|
    ensures var n := |CellsIn(s[..i])|;
            && s == s[..i] + s[i..] && n <= |CellsIn(s)| && CellsIn(s)[..n] == CellsIn(s[..i]) &&
              CellsIn(s)[n..] == CellsIn(s[i..])
            && (0 < n ==> CellsIn(s)[n - 1].half != High)
    ensures i == 0 ==> CellsIn(s[..i]) == [] && s[i..] == s && s[..i] == []
    ensures i == |s| ==> s[..i] == s && s[i..] == [] && CellsIn(s[i..]) == []
  {
    CellsConcat(s[..i], s[i..]);
    assert s == s[..i] + s[i..];
    TextIsPaired(s[..i]);
  }

  /** A cut inside a code point above U+FFFF cuts a pair. */
  lemma NextRune(s: seq<Rune>, i: nat)
    requires i < |s|
    ensures |CellsIn(s[..i + 1])| == |CellsIn(s[..i])| + (if s[i] > 0xFFFF then 2 else 1) <= |CellsIn(s)|
    ensures var n := |CellsIn(s[..i])|; s[i] > 0xFFFF ==> CellsIn(s)[n].half == High
  {
    hide CellsIn;
    CutHere(s, i + 1);
    var n := |CellsIn(s[..i])|;
    CellsLast(s, i);
    assert CellsIn(s)[..|CellsIn(s[..i + 1])|][n] == CellsIn(s[..i + 1])[n];
  }

  lemma CellsLast(s: seq<Rune>, i: nat)
    requires i < |s|
    ensures CellsIn(s[..i + 1]) == CellsIn(s[..i]) + CellsOf(s[i])
  {
    assert s[..i + 1][..i] == s[..i];
  }
}
