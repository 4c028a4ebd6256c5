/**
 ORDER BY ... LIMIT as a loop: rows come back one at a time, best rank first.
 Ties come back in any order, as they do from the database.
 */
module Ordering {
  import opened Domain
  import opened Support

  /** The two ORDER BY columns of a row, smaller first. */
  datatype Rank = Rank(major: int, minor: int)

  predicate Before(a: Rank, b: Rank) {
    a.major < b.major || (a.major == b.major && a.minor < b.minor)
  }

  predicate Distinct<T(==)>(s: seq<T>) {
    forall i, j :: 0 <= i < j < |s| ==> s[i] != s[j]
  }

  function Elements(s: seq<Id>): set<Id> {
    set id | id in s
  }

  /** s holds the best-ranked members of the candidates, in order, at most limit of them. */
  ghost predicate IsTop(ranks: map<Id, Rank>, limit: nat, s: seq<Id>) {
    && Distinct(s)
    && |s| == Min(limit, |ranks|)
    && (forall id :: id in s ==> id in ranks)
    && (forall i, j :: 0 <= i < j < |s| ==> !Before(ranks[s[j]], ranks[s[i]]))
    && (forall id, chosen :: id in ranks && id !in s && chosen in s ==> !Before(ranks[id], ranks[chosen]))
  }

  method First(ranks: map<Id, Rank>) returns (best: Id)
    requires ranks != map[]
    ensures best in ranks
    ensures forall id :: id in ranks ==> !Before(ranks[id], ranks[best])
  {
    best :| best in ranks;
    var rest := ranks.Keys - {best};
    while rest != {}
      invariant rest <= ranks.Keys && best in ranks
      invariant forall id :: id in ranks && id !in rest ==> !Before(ranks[id], ranks[best])
      decreases rest
    {
      var id :| id in rest;
      if Before(ranks[id], ranks[best]) {
        best := id;
      }
      rest := rest - {id};
    }
  }

  method OrderBy(ranks: map<Id, Rank>, limit: nat) returns (s: seq<Id>)
    ensures IsTop(ranks, limit, s)
  {
    s := [];
    var left := ranks;
    while |s| < limit && left != map[]
      invariant Taken(ranks, s, left) && |s| <= limit
      decreases |left|
    {
      var id := First(left);
      TakeNext(ranks, s, left, id);
      s, left := s + [id], left - {id};
    }
  }

  /** s is what has come back so far, left what has not. */
  ghost predicate Taken(ranks: map<Id, Rank>, s: seq<Id>, left: map<Id, Rank>) {
    && Distinct(s)
    && |s| + |left| == |ranks|
    && (forall id :: id in ranks <==> id in s || id in left)
    && (forall id :: id in left ==> id !in s && left[id] == ranks[id])
    && (forall i, j :: 0 <= i < j < |s| ==> !Before(ranks[s[j]], ranks[s[i]]))
    && (forall id, i :: id in left && 0 <= i < |s| ==> !Before(ranks[id], ranks[s[i]]))
  }

  lemma TakeNext(ranks: map<Id, Rank>, s: seq<Id>, left: map<Id, Rank>, id: Id)
    requires Taken(ranks, s, left) && id in left
    requires forall other :: other in left ==> !Before(left[other], left[id])
    ensures Taken(ranks, s + [id], left - {id})
    ensures |left - {id}| < |left|
  {
    var fewer := left - {id};
    assert left == fewer[id := left[id]];
    assert |left| == |fewer| + 1;
    forall x
      ensures x in ranks <==> x in s + [id] || x in fewer
    {
    }
  }

  lemma {:induction false} DistinctSize(s: seq<Id>)
    requires Distinct(s)
    ensures |Elements(s)| == |s|
  {
    if s == [] {
      assert Elements(s) == {};
    } else {
      var n := |s| - 1;
      DistinctSize(s[..n]);
      assert Elements(s) == Elements(s[..n]) + {s[n]};
      assert s[n] !in Elements(s[..n]);
    }
  }

  /** Within the limit every candidate comes back. */
  lemma AllAreTaken(ranks: map<Id, Rank>, limit: nat, order: seq<Id>)
    requires IsTop(ranks, limit, order) && |ranks| <= limit
    ensures forall id :: id in ranks ==> id in order
  {
    DistinctSize(order);
    assert |ranks.Keys| == |ranks|;
    SubsetSize(Elements(order), ranks.Keys);
    forall id | id in ranks
      ensures id in order
    {
      assert id in Elements(order);
    }
  }
}
