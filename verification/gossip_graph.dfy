/** Who can reach whom, and in how many hops. */
module GossipGraph {
  type Id = string

  type Links = map<Id, set<Id>>

  function Next(g: Links, n: Id): set<Id> {
    if n in g then g[n] else {}
  }

  /** Identifiers within `s` hops of `from`. */
  function Ball(g: Links, from: Id, s: nat): set<Id> {
    if s == 0 then {from}
    else
      var inner := Ball(g, from, s - 1);
      inner + set n, p | n in inner && p in Next(g, n) :: p
  }

  ghost predicate IsPath(g: Links, path: seq<Id>) {
    && |path| >= 1
    && forall i, j {:trigger path[i], path[j]} ::
         0 <= i < j < |path| && j == i + 1 ==> path[j] in Next(g, path[i])
  }

  ghost predicate Connects(g: Links, path: seq<Id>, a: Id, b: Id) {
    IsPath(g, path) && path[0] == a && path[|path| - 1] == b
  }

  /** The ball is what paths of at most `s` hops lead to. */
  lemma BallIsPaths(g: Links, from: Id, s: nat, x: Id)
    ensures x in Ball(g, from, s) <==> exists path :: Connects(g, path, from, x) && |path| <= s + 1
  {
    if x in Ball(g, from, s) {
      var path := PathInto(g, from, s, x);
    }
    if path :| Connects(g, path, from, x) && |path| <= s + 1 {
      PathStays(g, from, s, path);
    }
  }

  lemma {:induction false} PathInto(g: Links, from: Id, s: nat, x: Id) returns (path: seq<Id>)
    requires x in Ball(g, from, s)
    ensures Connects(g, path, from, x) && |path| <= s + 1
    decreases s
  {
    if s == 0 {
      path := [from];
    } else if x in Ball(g, from, s - 1) {
      path := PathInto(g, from, s - 1, x);
    } else {
      var n :| n in Ball(g, from, s - 1) && x in Next(g, n);
      var most := PathInto(g, from, s - 1, n);
      path := most + [x];
    }
  }

  lemma {:induction false} PathStays(g: Links, from: Id, s: nat, path: seq<Id>)
    requires IsPath(g, path) && path[0] == from && |path| <= s + 1
    ensures path[|path| - 1] in Ball(g, from, s)
    decreases s
  {
    var m := |path| - 1;
    if m == 0 {
      if s > 0 { PathStays(g, from, s - 1, path); }
    } else {
      PathStays(g, from, s - 1, path[..m]);
      assert path[m] in Next(g, path[m - 1]);
    }
  }

  /** More links and more hops reach no less. */
  lemma {:induction false} BallGrows(g: Links, g': Links, from: Id, s: nat, s': nat)
    requires s <= s' && forall n, p :: p in Next(g, n) ==> p in Next(g', n)
    ensures Ball(g, from, s) <= Ball(g', from, s')
    decreases s'
  {
    if s' > 0 {
      if s < s' {
        BallGrows(g, g', from, s, s' - 1);
      } else {
        BallGrows(g, g', from, s - 1, s' - 1);
      }
    }
  }
}
