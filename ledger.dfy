/** The score ledger `stats.json` (roboclic.py:140-162): an insertion-ordered
    dictionary from participant id to the number of quizzes made about them,
    its leaderboard and its per-name lookup. */
module Ledger {
  import opened Wrappers
  import opened Registry

  datatype Score = Score(id: string, count: int)

  /** `stats.items()`, in dictionary order. */
  type Stats = seq<Score>

  predicate DistinctIds(s: Stats) {
    Distinct(IdsOf(s))
  }

  /** The stored count of `id`, or 0 when the ledger has no entry for it. */
  function CountOf(s: Stats, id: string): int {
    if s == [] then 0
    else if s[0].id == id then s[0].count
    else CountOf(s[1..], id)
  }

  /** The ids of the ledger, in dictionary order. */
  function IdsOf(s: Stats): (ks: seq<string>)
    ensures |ks| == |s| && forall i :: 0 <= i < |s| ==> ks[i] == s[i].id
  {
    seq(|s|, i requires 0 <= i < |s| => s[i].id)
  }

  /** The dictionary update that adds one point to `u`, counting from 0: an
      existing key keeps its place in the dictionary, a new key goes last. */
  function Bumped(s: Stats, u: string): (r: Stats)
    ensures |r| == (if u in IdsOf(s) then |s| else |s| + 1)
    ensures forall i :: 0 <= i < |s| ==> r[i].id == s[i].id
    ensures u !in IdsOf(s) ==> r[|s|] == Score(u, 1)
  {
    if s == [] then [Score(u, 1)]
    else if s[0].id == u then [Score(u, s[0].count + 1)] + s[1..]
    else
      assert IdsOf(s) == [s[0].id] + IdsOf(s[1..]);
      [s[0]] + Bumped(s[1..], u)
  }

  lemma {:induction false} BumpedCount(s: Stats, u: string, v: string)
    ensures CountOf(Bumped(s, u), v) == CountOf(s, v) + (if v == u then 1 else 0)
  {
    if s != [] && s[0].id != u {
      BumpedCount(s[1..], u, v);
      assert Bumped(s, u)[1..] == Bumped(s[1..], u);
    }
  }

  lemma BumpedDistinct(s: Stats, u: string)
    requires DistinctIds(s)
    ensures DistinctIds(Bumped(s, u))
  {
    var r := Bumped(s, u);
    forall i, j | 0 <= i < j < |r| ensures r[i].id != r[j].id {
      if j == |s| {
        assert IdsOf(s)[i] == s[i].id;
      }
    }
  }

  /** `increment_stats` applied to the ledger's contents: a user who is not a
      registered participant leaves it unchanged; a registered one gains one
      point, counting from 0 when absent; every other count is unchanged and
      ids stay distinct. */
  lemma IncrementSpec(registry: Registry, s: Stats, u: string)
    requires DistinctIds(s)
    ensures var r := if u in Ids(registry) then Bumped(s, u) else s;
      && DistinctIds(r)
      && (u !in Ids(registry) ==> r == s)
      && (u in Ids(registry) ==> CountOf(r, u) == CountOf(s, u) + 1)
      && (forall v :: v != u ==> CountOf(r, v) == CountOf(s, v))
  {
    BumpedDistinct(s, u);
    forall v | v != u ensures CountOf(Bumped(s, u), v) == CountOf(s, v) {
      BumpedCount(s, u, v);
    }
    BumpedCount(s, u, u);
  }

  /** The persisted ledger. The file is read and rewritten as a whole on every
      increment; here it is held in memory. */
  class ScoreLedger {
    var entries: Stats

    ghost predicate Valid()
      reads this
    {
      DistinctIds(entries)
    }

    constructor (initial: Stats)
      requires DistinctIds(initial)
      ensures Valid() && entries == initial
    {
      entries := initial;
    }

    /** `increment_stats` (roboclic.py:140-145). */
    method Increment(registry: Registry, user: string)
      requires Valid()
      modifies this
      ensures Valid()
      ensures user !in Ids(registry) ==> entries == old(entries)
      ensures user in Ids(registry) ==> entries == Bumped(old(entries), user)
      ensures CountOf(entries, user) == CountOf(old(entries), user) + (if user in Ids(registry) then 1 else 0)
      ensures forall v :: v != user ==> CountOf(entries, v) == CountOf(old(entries), v)
    {
      IncrementSpec(registry, entries, user);
      if user !in Ids(registry) {
        return;
      }
      entries := Bumped(entries, user);
    }
  }
}
