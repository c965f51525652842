/** The string table of Lua 5.1 (lstring.c) */
module GCStrings {
  // A string with given contents exists once at most, and is in the list of its hash.

  import opened GCHeap
  import opened GCInvariant

  type Hash = string -> nat

  // The list for strings with these contents
  function Bucket(strt: seq<seq<Id>>, hash: Hash, s: string): nat
    requires strt != []
  {
    hash(s) % |strt|
  }

  predicate SameContents(contents: map<Id, string>, x: Id, y: Id) {
    x in contents && y in contents && contents[x] == contents[y]
  }

  ghost predicate Unique(strt: seq<seq<Id>>, contents: map<Id, string>, hash: Hash) {
    && strt != []
    && (forall b, x :: 0 <= b < |strt| && x in strt[b] ==> x in contents && Bucket(strt, hash, contents[x]) == b)
    && (forall b, x, y :: 0 <= b < |strt| && x in strt[b] && y in strt[b] && SameContents(contents, x, y) ==> x == y)
  }

  // Strings have been freed.
  ghost predicate Shrinks(strt: seq<seq<Id>>, strt': seq<seq<Id>>) {
    |strt'| == |strt| && forall b, x :: 0 <= b < |strt| && x in strt'[b] ==> x in strt[b]
  }

  lemma ShrinksRefl(strt: seq<seq<Id>>)
    ensures Shrinks(strt, strt)
  {
  }

  lemma ShrinksTrans(a: seq<seq<Id>>, b: seq<seq<Id>>, c: seq<seq<Id>>)
    requires Shrinks(a, b) && Shrinks(b, c)
    ensures Shrinks(a, c)
  {
  }

  lemma OneLess(strt: seq<seq<Id>>, b: nat, i: nat)
    requires b < |strt| && i < |strt[b]|
    ensures Shrinks(strt, strt[b := strt[b][..i] + strt[b][i + 1..]])
  {
  }

  lemma StillUnique(strt: seq<seq<Id>>, strt': seq<seq<Id>>, contents: map<Id, string>, hash: Hash)
    requires Shrinks(strt, strt')
    ensures Unique(strt, contents, hash) ==> Unique(strt', contents, hash)
  {
  }

  lemma AddedUnique(strt: seq<seq<Id>>, contents: map<Id, string>, hash: Hash, s: string, x: Id)
    requires Unique(strt, contents, hash) && forall b :: 0 <= b < |strt| ==> x !in strt[b]
    requires forall y :: y in strt[Bucket(strt, hash, s)] && y in contents ==> contents[y] != s
    ensures var b := Bucket(strt, hash, s);
            Unique(strt[b := [x] + strt[b]], contents[x := s], hash)
  {
    var b := Bucket(strt, hash, s);
    var strt', contents' := strt[b := [x] + strt[b]], contents[x := s];
    forall c, y | 0 <= c < |strt'| && y in strt'[c]
      ensures y in contents' && Bucket(strt', hash, contents'[y]) == c && (y == x || y in strt[c])
    {
      if y != x { assert y in strt[c] && Bucket(strt, hash, contents[y]) == c; }
    }
    forall c, y, z | 0 <= c < |strt'| && y in strt'[c] && z in strt'[c] && SameContents(contents', y, z)
      ensures y == z
    {
      if y != x && z != x { assert SameContents(contents, y, z); }
    }
  }

  /** Two strings of the table with the same contents are the same. */
  lemma SameString(strt: seq<seq<Id>>, contents: map<Id, string>, hash: Hash, b: nat, c: nat, x: Id, y: Id)
    requires Unique(strt, contents, hash) && b < |strt| && c < |strt| && x in strt[b] && y in strt[c]
    ensures x in contents && y in contents && (x == y <==> contents[x] == contents[y])
  {
    assert Bucket(strt, hash, contents[x]) == b && Bucket(strt, hash, contents[y]) == c;
    assert contents[x] == contents[y] ==> SameContents(contents, x, y);
  }

  lemma UniqueHere(strt: seq<seq<Id>>, contents: map<Id, string>, hash: Hash)
    requires Unique(strt, contents, hash)
    ensures strt != [] && forall b, x :: 0 <= b < |strt| && x in strt[b] ==> x in contents
  {
  }

  lemma TableReady(g: Snap)
    requires Valid(g)
    ensures g.strt != [] && forall b, x :: 0 <= b < |g.strt| && x in g.strt[b] ==> x in g.h && g.h[x].Str?
  {
    hide Common, PhaseOk;
    TableHas(g);
  }

  // The search has found nothing: no string has these contents.
  lemma NotThere(g: Snap, contents: map<Id, string>, hash: Hash, s: string)
    requires Valid(g) && Unique(g.strt, contents, hash)
    requires var b := Bucket(g.strt, hash, s);
             forall j :: 0 <= j < |g.strt[b]| ==> g.strt[b][j] in contents && contents[g.strt[b][j]] != s
    ensures forall y :: y in g.h && g.h[y].Str? ==> y in contents && contents[y] != s
    ensures forall b, x :: 0 <= b < |g.strt| && x in g.strt[b] ==> x in g.h
  {
    hide Common, PhaseOk;
    TableHas(g);
    forall y | y in g.h && g.h[y].Str?
      ensures y in contents && contents[y] != s
    {
      assert InTable(g.strt, y);
      var b :| 0 <= b < |g.strt| && y in g.strt[b];
      var j :| 0 <= j < |g.strt[b]| && g.strt[b][j] == y;
      assert Bucket(g.strt, hash, contents[y]) == b;
    }
  }

  lemma TableHas(g: Snap)
    requires Common(g)
    ensures g.strt != [] && forall b, x :: 0 <= b < |g.strt| && x in g.strt[b] ==> x in g.h && g.h[x].Str?
    ensures forall x :: x in g.h && g.h[x].Str? ==> InTable(g.strt, x)
  {
    hide Upvalues, Colors, Live, Covers, RootsLive;
  }
}
