/** SELECT ... ORDER BY rank, id LIMIT n over a set of row ids. */
module Selection {
  import opened Sums

  type Id = int

  predicate Before(rank: Id -> int, a: Id, b: Id) {
    rank(a) < rank(b) || (rank(a) == rank(b) && a < b)
  }

  predicate In(ids: seq<Id>, id: Id) {
    exists i | 0 <= i < |ids| :: ids[i] == id
  }

  /** The first `limit` candidates in order: whatever is left out comes after all of a full batch. */
  ghost predicate IsFirst(ids: seq<Id>, candidates: set<Id>, limit: nat, rank: Id -> int) {
    && |ids| <= limit
    && (forall i | 0 <= i < |ids| :: ids[i] in candidates)
    && (forall i, j | 0 <= i < j < |ids| :: Before(rank, ids[i], ids[j]))
    && (forall id | id in candidates ::
          In(ids, id) || (|ids| == limit && forall i | 0 <= i < limit :: Before(rank, ids[i], id)))
  }

  lemma {:induction false} LeastExists(s: set<Id>, rank: Id -> int)
    requires s != {}
    ensures exists a :: a in s && forall b | b in s :: a == b || Before(rank, a, b)
    decreases s
  {
    var k := Element(s);
    if s == {k} {
      assert forall b | b in s :: k == b;
    } else {
      LeastExists(s - {k}, rank);
      var j :| j in s - {k} && forall b | b in s - {k} :: j == b || Before(rank, j, b);
      var least := if Before(rank, k, j) then k else j;
      forall b | b in s ensures least == b || Before(rank, least, b) {
        assert b == k || b in s - {k};
      }
    }
  }

  lemma InStays(ids: seq<Id>, a: Id)
    ensures In(ids + [a], a)
    ensures forall id | In(ids, id) :: In(ids + [a], id)
  {
    assert (ids + [a])[|ids|] == a;
    forall id | In(ids, id) ensures In(ids + [a], id) {
      var i :| 0 <= i < |ids| && ids[i] == id;
      assert (ids + [a])[i] == id;
    }
  }

  method First(candidates: set<Id>, limit: nat, rank: Id -> int) returns (ids: seq<Id>)
    ensures IsFirst(ids, candidates, limit, rank)
  {
    ids := [];
    var rest := candidates;
    while |ids| < limit && rest != {}
      invariant |ids| <= limit && rest <= candidates
      invariant forall i | 0 <= i < |ids| :: ids[i] in candidates
      invariant forall i, j | 0 <= i < j < |ids| :: Before(rank, ids[i], ids[j])
      invariant forall i, id | 0 <= i < |ids| && id in rest :: Before(rank, ids[i], id)
      invariant forall id | id in candidates :: id in rest || In(ids, id)
      decreases rest
    {
      LeastExists(rest, rank);
      var a :| a in rest && forall b | b in rest :: a == b || Before(rank, a, b);
      InStays(ids, a);
      ids, rest := ids + [a], rest - {a};
    }
  }

  /** What comes first depends on the ranks alone. */
  lemma SameOrder(ids: seq<Id>, candidates: set<Id>, limit: nat, rank: Id -> int, rank': Id -> int)
    requires IsFirst(ids, candidates, limit, rank) && forall id :: rank(id) == rank'(id)
    ensures IsFirst(ids, candidates, limit, rank')
  {
    forall a, b | Before(rank, a, b) ensures Before(rank', a, b) {}
  }
}
