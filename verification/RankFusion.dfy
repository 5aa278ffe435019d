/**
 Reciprocal rank fusion: the hybrid index's search, its scores however the arithmetic rounds, and how many indexes'
 agreement outweighs rank.
 */
module RankFusion {
  import opened Wrappers

  datatype Hit<T> = Hit(id: string, document: T)

  datatype Scored<T> = Scored(id: string, document: T, score: real)

  function Ids<T>(hits: seq<Hit<T>>): (ids: seq<string>)
    ensures |ids| == |hits| && forall i :: 0 <= i < |hits| ==> ids[i] == hits[i].id
  {
    seq(|hits|, i requires 0 <= i < |hits| => hits[i].id)
  }

  function AllIds<T>(lists: seq<seq<Hit<T>>>): (all: seq<seq<string>>)
    ensures |all| == |lists| && forall n :: 0 <= n < |lists| ==> all[n] == Ids(lists[n])
  {
    seq(|lists|, n requires 0 <= n < |lists| => Ids(lists[n]))
  }

  // ------------------------------------------------------------------------ scores

  /** How the program divides one by a number and adds two: exactly, or rounded in whatever way. */
  datatype Arithmetic = Arithmetic(inverse: nat -> real, add: (real, real) -> real)

  /** What one index's list, counted from rank one, makes of the score a document has so far. */
  function ListScore(a: Arithmetic, ids: seq<string>, k: nat, id: string, start: real): real {
    if ids == [] then start
    else
      var s := ListScore(a, ids[..|ids| - 1], k, id, start);
      if ids[|ids| - 1] == id then a.add(s, a.inverse(k + |ids|)) else s
  }

  function Score(a: Arithmetic, lists: seq<seq<string>>, k: nat, id: string): real {
    if lists == [] then 0.0
    else ListScore(a, lists[|lists| - 1], k, id, Score(a, lists[..|lists| - 1], k, id))
  }

  /** Ids in the order a dictionary first sees them. */
  function Seen(ids: seq<string>, before: seq<string>): seq<string> {
    if ids == [] then before
    else
      var s := Seen(ids[..|ids| - 1], before);
      if ids[|ids| - 1] in s then s else s + [ids[|ids| - 1]]
  }

  function SeenAll(lists: seq<seq<string>>): seq<string> {
    if lists == [] then [] else Seen(lists[|lists| - 1], SeenAll(lists[..|lists| - 1]))
  }

  // ------------------------------------------------------------------- stable sort

  /** `id` goes behind everything that scores at least as much. */
  function InsertByScore(sorted: seq<string>, id: string, score: string -> real): seq<string> {
    if sorted == [] then [id]
    else if score(sorted[|sorted| - 1]) >= score(id) then sorted + [id]
    else InsertByScore(sorted[..|sorted| - 1], id, score) + [sorted[|sorted| - 1]]
  }

  /** `sorted(..., reverse=True)`: descending, and ties keep the order they came in. */
  function StableDescending(ids: seq<string>, score: string -> real): seq<string> {
    if ids == [] then [] else InsertByScore(StableDescending(ids[..|ids| - 1], score), ids[|ids| - 1], score)
  }

  /** `x` comes before `y` in `ids`. */
  ghost predicate Before(ids: seq<string>, x: string, y: string) {
    exists i, j :: 0 <= i < j < |ids| && ids[i] == x && ids[j] == y
  }

  ghost predicate Precedes(ids: seq<string>, score: string -> real, x: string, y: string) {
    score(x) > score(y) || (score(x) == score(y) && Before(ids, x, y))
  }

  /** The order fusion promises: a higher score first, ties in the order first seen. */
  ghost predicate Ordered(sorted: seq<string>, ids: seq<string>, score: string -> real) {
    forall i, j :: 0 <= i < j < |sorted| ==> Precedes(ids, score, sorted[i], sorted[j])
  }

  lemma BeforeGrows(ids: seq<string>, id: string)
    ensures forall x, y :: Before(ids, x, y) ==> Before(ids + [id], x, y)
    ensures forall x :: x in ids ==> Before(ids + [id], x, id)
  {
    forall x, y | Before(ids, x, y) ensures Before(ids + [id], x, y) {
      var i, j :| 0 <= i < j < |ids| && ids[i] == x && ids[j] == y;
      assert (ids + [id])[i] == x && (ids + [id])[j] == y;
    }
    forall x | x in ids ensures Before(ids + [id], x, id) {
      var i :| 0 <= i < |ids| && ids[i] == x;
      assert (ids + [id])[i] == x && (ids + [id])[|ids|] == id;
    }
  }

  lemma {:induction false} InsertMembers(sorted: seq<string>, id: string, score: string -> real)
    ensures multiset(InsertByScore(sorted, id, score)) == multiset(sorted) + multiset{id}
    ensures forall x :: x in InsertByScore(sorted, id, score) <==> x in sorted || x == id
  {
    if sorted != [] {
      var front, last := sorted[..|sorted| - 1], sorted[|sorted| - 1];
      assert sorted == front + [last];
      InsertMembers(front, id, score);
    }
  }

  lemma {:induction false} InsertKeepsOrder(sorted: seq<string>, ids: seq<string>, id: string, score: string -> real)
    requires Ordered(sorted, ids, score) && (forall x :: x in sorted ==> x in ids)
    ensures Ordered(InsertByScore(sorted, id, score), ids + [id], score)
  {
    hide Before;
    BeforeGrows(ids, id);
    var inserted := InsertByScore(sorted, id, score);
    if sorted != [] {
      var front, last := sorted[..|sorted| - 1], sorted[|sorted| - 1];
      if score(last) < score(id) {
        InsertKeepsOrder(front, ids, id, score);
        InsertMembers(front, id, score);
        forall i | 0 <= i < |inserted| - 1 ensures Precedes(ids + [id], score, inserted[i], last) {
          assert inserted[i] in InsertByScore(front, id, score);
          if inserted[i] in front {
            var n :| 0 <= n < |front| && front[n] == inserted[i];
            assert Precedes(ids, score, sorted[n], sorted[|front|]);
          }
        }
      } else {
        forall i | 0 <= i < |sorted| ensures Precedes(ids + [id], score, sorted[i], id) {
          assert sorted[i] in ids;
          assert i < |sorted| - 1 ==> Precedes(ids, score, sorted[i], sorted[|sorted| - 1]);
        }
      }
    }
  }

  lemma {:induction false} SortIsStable(ids: seq<string>, score: string -> real)
    ensures Ordered(StableDescending(ids, score), ids, score)
    ensures multiset(StableDescending(ids, score)) == multiset(ids)
  {
    if ids != [] {
      var front, last := ids[..|ids| - 1], ids[|ids| - 1];
      assert ids == front + [last];
      SortIsStable(front, score);
      var sorted := StableDescending(front, score);
      forall x | x in sorted ensures x in front {
        assert multiset(sorted)[x] > 0;
      }
      InsertKeepsOrder(sorted, front, last, score);
      InsertMembers(sorted, last, score);
    }
  }

  // ------------------------------------------------------------------------ search

  lemma SeenMembers(ids: seq<string>, before: seq<string>)
    requires Distinct(before)
    ensures Distinct(Seen(ids, before))
    ensures forall x :: x in Seen(ids, before) <==> x in before || x in ids
  {
    if ids != [] {
      var front, last := ids[..|ids| - 1], ids[|ids| - 1];
      assert ids == front + [last];
      SeenMembers(front, before);
    }
  }

  /** Two dictionaries: scores and documents by id, and the order the ids came in. */
  datatype Fused<T> = Fused(scores: map<string, real>, documents: map<string, T>, order: seq<string>)

  /** The weight of the rank on top of what the id has so far, and the document the hit carries. */
  function Add<T>(a: Arithmetic, f: Fused<T>, hit: Hit<T>, k: nat, rank: nat): Fused<T> {
    var was := if hit.id in f.scores then f.scores[hit.id] else 0.0;
    Fused(f.scores[hit.id := a.add(was, a.inverse(k + rank))], f.documents[hit.id := hit.document],
          if hit.id in f.scores then f.order else f.order + [hit.id])
  }

  /** What the dictionaries hold once some lists, and part of the next, have been added. */
  ghost predicate Holds<T>(a: Arithmetic, f: Fused<T>, done: seq<seq<string>>, part: seq<string>, k: nat) {
    && f.order == Seen(part, SeenAll(done)) && Distinct(f.order)
    && f.scores.Keys == f.documents.Keys && (forall id :: id in f.scores <==> id in f.order)
    && (forall id :: id in f.scores ==> f.scores[id] == ListScore(a, part, k, id, Score(a, done, k, id)))
    && (forall id :: id !in f.scores ==> ListScore(a, part, k, id, Score(a, done, k, id)) == 0.0)
  }

  lemma ListScoreOneMore(a: Arithmetic, part: seq<string>, k: nat, last: string, id: string, start: real)
    ensures var s := ListScore(a, part, k, id, start);
      ListScore(a, part + [last], k, id, start) == if last == id then a.add(s, a.inverse(k + |part| + 1)) else s
  {
    assert (part + [last])[..|part|] == part;
  }

  lemma SeenOneMore(part: seq<string>, before: seq<string>, last: string)
    ensures var was := Seen(part, before); Seen(part + [last], before) == if last in was then was else was + [last]
  {
    assert (part + [last])[..|part|] == part;
  }

  lemma AddHolds<T>(a: Arithmetic, f: Fused<T>, done: seq<seq<string>>, part: seq<string>, hit: Hit<T>, k: nat)
    requires Holds(a, f, done, part, k)
    ensures Holds(a, Add(a, f, hit, k, |part| + 1), done, part + [hit.id], k)
  {
    hide Score, ListScore, Seen;
    var g := Add(a, f, hit, k, |part| + 1);
    SeenOneMore(part, SeenAll(done), hit.id);
    forall id
      ensures ListScore(a, part + [hit.id], k, id, Score(a, done, k, id))
        == (var s := ListScore(a, part, k, id, Score(a, done, k, id));
            if hit.id == id then a.add(s, a.inverse(k + |part| + 1)) else s)
    {
      ListScoreOneMore(a, part, k, hit.id, id, Score(a, done, k, id));
    }
  }

  lemma NextList<T>(a: Arithmetic, f: Fused<T>, done: seq<seq<string>>, part: seq<string>, k: nat)
    requires Holds(a, f, done, part, k)
    ensures Holds(a, f, done + [part], [], k)
  {
    var more := done + [part];
    assert more[..|more| - 1] == done;
  }

  /** The document of the last hit with this id in one list, then in several. */
  function LastIn<T>(hits: seq<Hit<T>>, id: string): Option<T> {
    if hits == [] then None
    else if hits[|hits| - 1].id == id then Some(hits[|hits| - 1].document)
    else LastIn(hits[..|hits| - 1], id)
  }

  function LastInAll<T>(lists: seq<seq<Hit<T>>>, id: string): Option<T> {
    if lists == [] then None
    else
      var last := LastIn(lists[|lists| - 1], id);
      if last.Some? then last else LastInAll(lists[..|lists| - 1], id)
  }

  function LastOf<T>(done: seq<seq<Hit<T>>>, part: seq<Hit<T>>, id: string): Option<T> {
    var last := LastIn(part, id);
    if last.Some? then last else LastInAll(done, id)
  }

  ghost predicate HoldsDocuments<T>(f: Fused<T>, done: seq<seq<Hit<T>>>, part: seq<Hit<T>>) {
    forall id :: id in f.documents ==> LastOf(done, part, id) == Some(f.documents[id])
  }

  lemma AddHoldsDocuments<T>(a: Arithmetic, f: Fused<T>, done: seq<seq<Hit<T>>>, part: seq<Hit<T>>, hit: Hit<T>,
                             k: nat, rank: nat)
    requires HoldsDocuments(f, done, part)
    ensures HoldsDocuments(Add(a, f, hit, k, rank), done, part + [hit])
  {
    assert (part + [hit])[..|part|] == part;
  }

  lemma NextListDocuments<T>(f: Fused<T>, done: seq<seq<Hit<T>>>, part: seq<Hit<T>>)
    requires HoldsDocuments(f, done, part)
    ensures HoldsDocuments(f, done + [part], [])
  {
    assert (done + [part])[..|done|] == done;
  }

  /** The two loops: every hit of every list, by its rank. */
  method Fuse<T>(a: Arithmetic, lists: seq<seq<Hit<T>>>, k: nat) returns (f: Fused<T>)
    ensures Holds(a, f, AllIds(lists), [], k) && HoldsDocuments(f, lists, [])
  {
    hide Holds, HoldsDocuments, Add;
    f := Fused(map[], map[], []);
    ghost var all := AllIds(lists);
    assert Holds(a, f, all[..0], [], k) && HoldsDocuments(f, lists[..0], []) by {
      NothingHeld<T>(a, k);
    }
    for n := 0 to |lists|
      invariant Holds(a, f, all[..n], [], k) && HoldsDocuments(f, lists[..n], [])
    {
      for r := 0 to |lists[n]|
        invariant Holds(a, f, all[..n], all[n][..r], k) && HoldsDocuments(f, lists[..n], lists[n][..r])
      {
        AddHolds(a, f, all[..n], all[n][..r], lists[n][r], k);
        AddHoldsDocuments(a, f, lists[..n], lists[n][..r], lists[n][r], k, r + 1);
        assert all[n][..r] + [lists[n][r].id] == all[n][..r + 1];
        assert lists[n][..r] + [lists[n][r]] == lists[n][..r + 1];
        f := Add(a, f, lists[n][r], k, r + 1);
      }
      assert all[n][..|lists[n]|] == all[n] && lists[n][..|lists[n]|] == lists[n];
      NextList(a, f, all[..n], all[n], k);
      NextListDocuments(f, lists[..n], lists[n]);
      assert all[..n] + [all[n]] == all[..n + 1] && lists[..n] + [lists[n]] == lists[..n + 1];
    }
    assert all[..|lists|] == all && lists[..|lists|] == lists;
  }

  lemma NothingHeld<T>(a: Arithmetic, k: nat)
    ensures var f: Fused<T> := Fused(map[], map[], []); Holds(a, f, [], [], k) && HoldsDocuments(f, [], [])
  {
  }

  ghost function ScoreIn(a: Arithmetic, all: seq<seq<string>>, k: nat): string -> real {
    id => Score(a, all, k, id)
  }

  /** The documents the indexes named, best first. */
  ghost function Ranking(a: Arithmetic, all: seq<seq<string>>, k: nat): seq<string> {
    StableDescending(SeenAll(all), ScoreIn(a, all, k))
  }

  lemma RankedInOrder(a: Arithmetic, all: seq<seq<string>>, k: nat, i: int, j: int)
    requires 0 <= i < j < |Ranking(a, all, k)|
    ensures var x, y := Ranking(a, all, k)[i], Ranking(a, all, k)[j];
      Score(a, all, k, x) > Score(a, all, k, y)
      || (Score(a, all, k, x) == Score(a, all, k, y) && NamedFirst(all, x, y))
  {
    hide Score, NamedFirst, Before, StableDescending;
    SortIsStable(SeenAll(all), ScoreIn(a, all, k));
    var x, y := Ranking(a, all, k)[i], Ranking(a, all, k)[j];
    assert Precedes(SeenAll(all), ScoreIn(a, all, k), x, y);
    if Before(SeenAll(all), x, y) {
      FirstSeenFirstNamed(all, x, y);
    }
  }

  /** Hit `q` of list `m` comes no later than hit `r` of list `n`. */
  predicate NoLater(m: int, q: int, n: int, r: int) {
    m < n || (m == n && q <= r)
  }

  ghost predicate NamedAt(all: seq<seq<string>>, n: int, r: int, id: string) {
    0 <= n < |all| && 0 <= r < |all[n]| && all[n][r] == id
  }

  /** Some hit names `x`, and none up to it names `y`. */
  ghost predicate NamedFirst(all: seq<seq<string>>, x: string, y: string) {
    exists n, r :: NamedAt(all, n, r, x) && NoneUpTo(all, n, r, y)
  }

  ghost predicate NoneUpTo(all: seq<seq<string>>, n: int, r: int, y: string) {
    forall m, q :: NamedAt(all, m, q, y) ==> !NoLater(m, q, n, r)
  }

  /** In one list: `x` is there, or there already, and `y` is neither up to that. */
  ghost predicate NamedFirstIn(ids: seq<string>, before: seq<string>, x: string, y: string) {
    || Before(before, x, y)
    || (x in before && y !in before)
    || (y !in before && exists r :: 0 <= r < |ids| && ids[r] == x && y !in ids[..r + 1])
  }

  lemma {:induction false} SeenInOrder(ids: seq<string>, before: seq<string>, x: string, y: string)
    requires Distinct(before) && Before(Seen(ids, before), x, y)
    ensures NamedFirstIn(ids, before, x, y)
  {
    if ids != [] {
      var front, last := ids[..|ids| - 1], ids[|ids| - 1];
      var s := Seen(front, before);
      assert ids == front + [last];
      SeenMembers(front, before);
      if Before(s, x, y) {
        SeenInOrder(front, before, x, y);
        NamedFirstLater(front, last, before, x, y);
      } else {
        // `y` is the newcomer, and `x` was seen before it.
        NewcomerIsLast(s, last, x, y);
        if x !in before {
          var r :| 0 <= r < |front| && front[r] == x;
          assert ids[r] == x && ids[..r + 1] == front[..r + 1];
        }
      }
    }
  }

  lemma NamedFirstLater(front: seq<string>, last: string, before: seq<string>, x: string, y: string)
    requires NamedFirstIn(front, before, x, y)
    ensures NamedFirstIn(front + [last], before, x, y)
  {
    hide Before;
    if r :| 0 <= r < |front| && front[r] == x && y !in front[..r + 1] {
      assert (front + [last])[r] == x && (front + [last])[..r + 1] == front[..r + 1];
    }
  }

  lemma NewcomerIsLast(s: seq<string>, last: string, x: string, y: string)
    requires Before(if last in s then s else s + [last], x, y) && !Before(s, x, y)
    ensures y == last && last !in s && x in s
  {
    var t := if last in s then s else s + [last];
    var i, j :| 0 <= i < j < |t| && t[i] == x && t[j] == y;
    assert j == |s|;
  }

  /** Ids are seen in the order in which the indexes first name them. */
  lemma {:induction false} FirstSeenFirstNamed(all: seq<seq<string>>, x: string, y: string)
    requires Before(SeenAll(all), x, y)
    ensures NamedFirst(all, x, y)
  {
    if all != [] {
      var front, last := all[..|all| - 1], all[|all| - 1];
      SeenAllMembers(front);
      SeenInOrder(last, SeenAll(front), x, y);
      if Before(SeenAll(front), x, y) {
        FirstSeenFirstNamed(front, x, y);
        var n, r :| NamedAt(front, n, r, x) && NoneUpTo(front, n, r, y);
        assert NamedAt(all, n, r, x);
        StillNoneUpTo(all, n, r, y);
      } else if x in SeenAll(front) {
        var n :| 0 <= n < |front| && x in front[n];
        var r :| 0 <= r < |front[n]| && front[n][r] == x;
        assert NamedAt(all, n, r, x);
        NoneInFront(all, n, r, y);
      } else {
        var r :| 0 <= r < |last| && last[r] == x && y !in last[..r + 1];
        assert NamedAt(all, |all| - 1, r, x);
        NoneInFrontNorSoFar(all, r, y);
      }
    }
  }

  lemma StillNoneUpTo(all: seq<seq<string>>, n: int, r: int, y: string)
    requires all != [] && 0 <= n < |all| - 1 && NoneUpTo(all[..|all| - 1], n, r, y)
    ensures NoneUpTo(all, n, r, y)
  {
    forall m, q | NamedAt(all, m, q, y) ensures !NoLater(m, q, n, r) {
      assert m < |all| - 1 ==> NamedAt(all[..|all| - 1], m, q, y);
    }
  }

  lemma NoneInFront(all: seq<seq<string>>, n: int, r: int, y: string)
    requires all != [] && 0 <= n < |all| - 1 && y !in SeenAll(all[..|all| - 1])
    ensures NoneUpTo(all, n, r, y)
  {
    var front := all[..|all| - 1];
    SeenAllMembers(front);
    forall m | 0 <= m < |front| ensures y !in all[m] {
      assert front[m] == all[m];
    }
  }

  lemma NoneInFrontNorSoFar(all: seq<seq<string>>, r: int, y: string)
    requires all != [] && 0 <= r < |all[|all| - 1]| && y !in all[|all| - 1][..r + 1]
    requires y !in SeenAll(all[..|all| - 1])
    ensures NoneUpTo(all, |all| - 1, r, y)
  {
    var front, last := all[..|all| - 1], all[|all| - 1];
    SeenAllMembers(front);
    forall m | 0 <= m < |front| ensures y !in all[m] {
      assert front[m] == all[m];
    }
    forall q | 0 <= q <= r ensures last[q] != y {
      assert last[..r + 1][q] == last[q];
    }
  }

  ghost predicate HitAt<T>(lists: seq<seq<Hit<T>>>, n: int, r: int, id: string) {
    0 <= n < |lists| && 0 <= r < |lists[n]| && lists[n][r].id == id
  }

  /** The hit with this id that no other comes after. */
  ghost predicate LastHit<T>(lists: seq<seq<Hit<T>>>, n: int, r: int, id: string) {
    HitAt(lists, n, r, id) && forall m, q :: HitAt(lists, m, q, id) ==> NoLater(m, q, n, r)
  }

  /** The document found is that of the last hit with the id; none is found only if there is no hit. */
  lemma {:induction false} LastHitHasTheDocument<T>(lists: seq<seq<Hit<T>>>, id: string)
    ensures LastInAll(lists, id) == None ==> forall n, r :: !HitAt(lists, n, r, id)
    ensures forall n, r :: LastHit(lists, n, r, id) ==> LastInAll(lists, id) == Some(lists[n][r].document)
  {
    if lists != [] {
      var front, last := lists[..|lists| - 1], lists[|lists| - 1];
      LastInOne(last, id);
      LastHitHasTheDocument(front, id);
      forall n, r | HitAt(lists, n, r, id) && n < |front| ensures HitAt(front, n, r, id) {
      }
      forall n, r | LastHit(lists, n, r, id)
        ensures LastInAll(lists, id) == Some(lists[n][r].document)
      {
        if n < |front| {
          assert lists == front + [last];
          LastHitOfTheFront(front, last, n, r, id);
        } else {
          forall q | r < q < |last| ensures last[q].id != id {
            assert HitAt(lists, n, q, id) ==> NoLater(n, q, n, r);
          }
          assert LastOfList(last, r, id);
        }
      }
    }
  }

  lemma LastHitOfTheFront<T>(front: seq<seq<Hit<T>>>, last: seq<Hit<T>>, n: int, r: int, id: string)
    requires LastHit(front + [last], n, r, id) && n < |front|
    ensures LastHit(front, n, r, id)
    ensures forall q :: 0 <= q < |last| ==> last[q].id != id
  {
    var lists := front + [last];
    forall m, q | HitAt(front, m, q, id) ensures NoLater(m, q, n, r) {
      assert HitAt(lists, m, q, id);
    }
    forall q | 0 <= q < |last| ensures last[q].id != id {
      assert HitAt(lists, |front|, q, id) ==> NoLater(|front|, q, n, r);
    }
  }

  ghost predicate LastOfList<T>(hits: seq<Hit<T>>, r: int, id: string) {
    0 <= r < |hits| && hits[r].id == id && forall q :: r < q < |hits| ==> hits[q].id != id
  }

  lemma {:induction false} LastInOne<T>(hits: seq<Hit<T>>, id: string)
    ensures LastIn(hits, id) == None <==> forall r :: 0 <= r < |hits| ==> hits[r].id != id
    ensures forall r :: LastOfList(hits, r, id) ==> LastIn(hits, id) == Some(hits[r].document)
  {
    if hits != [] {
      var front := hits[..|hits| - 1];
      LastInOne(front, id);
      assert forall r :: 0 <= r < |front| ==> hits[r] == front[r];
      forall r | LastOfList(hits, r, id) ensures LastIn(hits, id) == Some(hits[r].document) {
        if r < |front| {
          assert LastOfList(front, r, id);
        }
      }
    }
  }

  /** The ranking has each id the indexes named once, and no other, by score and then by first appearance. */
  lemma RankingMeaning(a: Arithmetic, all: seq<seq<string>>, k: nat)
    ensures Distinct(Ranking(a, all, k)) && Ordered(Ranking(a, all, k), SeenAll(all), ScoreIn(a, all, k))
    ensures forall id :: id in Ranking(a, all, k) <==> exists n :: 0 <= n < |all| && id in all[n]
    ensures forall i, j :: 0 <= i < j < |Ranking(a, all, k)| ==>
      var x, y := Ranking(a, all, k)[i], Ranking(a, all, k)[j];
      Score(a, all, k, x) > Score(a, all, k, y)
      || (Score(a, all, k, x) == Score(a, all, k, y) && NamedFirst(all, x, y))
  {
    forall i, j | 0 <= i < j < |Ranking(a, all, k)|
      ensures var x, y := Ranking(a, all, k)[i], Ranking(a, all, k)[j];
        Score(a, all, k, x) > Score(a, all, k, y)
        || (Score(a, all, k, x) == Score(a, all, k, y) && NamedFirst(all, x, y))
    {
      RankedInOrder(a, all, k, i, j);
    }
    var seen, sorted := SeenAll(all), Ranking(a, all, k);
    SortIsStable(seen, ScoreIn(a, all, k));
    SeenAllMembers(all);
    forall id ensures id in sorted <==> id in seen {
      assert multiset(sorted)[id] == multiset(seen)[id];
    }
    SamePermutationDistinct(seen, sorted);
  }

  lemma {:induction false} SeenAllMembers(all: seq<seq<string>>)
    ensures Distinct(SeenAll(all))
    ensures forall id :: id in SeenAll(all) <==> exists n :: 0 <= n < |all| && id in all[n]
  {
    if all != [] {
      var front := all[..|all| - 1];
      SeenAllMembers(front);
      SeenMembers(all[|all| - 1], SeenAll(front));
      forall id | exists n :: 0 <= n < |all| && id in all[n] ensures id in SeenAll(all) {
        var n :| 0 <= n < |all| && id in all[n];
        assert n < |front| ==> front[n] == all[n];
      }
    }
  }

  lemma {:induction false} DistinctCounts(ids: seq<string>)
    ensures Distinct(ids) <==> forall x :: multiset(ids)[x] <= 1
  {
    if ids != [] {
      var front, last := ids[..|ids| - 1], ids[|ids| - 1];
      assert ids == front + [last];
      DistinctCounts(front);
      assert multiset(ids) == multiset(front) + multiset{last};
      if Distinct(ids) {
        assert last !in front;
      } else if Distinct(front) {
        assert last in front by {
          var i, j :| 0 <= i < j < |ids| && ids[i] == ids[j];
          assert front[i] == ids[i];
          assert j == |front|;
        }
        assert multiset(ids)[last] >= 2;
      } else {
        var x :| multiset(front)[x] > 1;
        assert multiset(ids)[x] > 1;
      }
    }
  }

  lemma SamePermutationDistinct(xs: seq<string>, ys: seq<string>)
    requires Distinct(xs) && multiset(xs) == multiset(ys)
    ensures Distinct(ys)
  {
    DistinctCounts(xs);
    DistinctCounts(ys);
  }

  /**
   `HybridIndex.search`, given what each index returned: the best `limit` documents by the scores the program computes,
   in the order it adds them up, ties in the order the indexes first named them.
   */
  method Search<T>(a: Arithmetic, lists: seq<seq<Hit<T>>>, k: nat, limit: nat) returns (hits: seq<Scored<T>>)
    ensures |hits| == Min(|Ranking(a, AllIds(lists), k)|, limit)
    ensures forall i :: 0 <= i < |hits| ==>
      && hits[i].id == Ranking(a, AllIds(lists), k)[i]
      && hits[i].score == Score(a, AllIds(lists), k, hits[i].id)
      && LastInAll(lists, hits[i].id) == Some(hits[i].document)
      && forall n, r :: LastHit(lists, n, r, hits[i].id) ==> hits[i].document == lists[n][r].document
  {
    forall id ensures forall n, r :: LastHit(lists, n, r, id) ==> LastInAll(lists, id) == Some(lists[n][r].document) {
      LastHitHasTheDocument(lists, id);
    }
    hide LastHit;
    var f := Fuse(a, lists, k);
    hide Score, Seen, SeenAll, StableDescending, LastInAll;
    var scores := f.scores;
    var byScore := id => if id in scores then scores[id] else 0.0;
    var sorted := StableDescending(f.order, byScore);
    FusedRanking(a, f, AllIds(lists), k, byScore);
    var best := if |sorted| <= limit then sorted else sorted[..limit];
    hits := seq(|best|, i requires 0 <= i < |best| => Scored(best[i], f.documents[best[i]], f.scores[best[i]]));
  }

  lemma FusedRanking<T>(a: Arithmetic, f: Fused<T>, all: seq<seq<string>>, k: nat, byScore: string -> real)
    requires Holds(a, f, all, [], k)
    requires forall id :: byScore(id) == if id in f.scores then f.scores[id] else 0.0
    ensures StableDescending(f.order, byScore) == Ranking(a, all, k)
    ensures forall i :: 0 <= i < |Ranking(a, all, k)| ==>
      && Ranking(a, all, k)[i] in f.scores && Ranking(a, all, k)[i] in f.documents
      && f.scores[Ranking(a, all, k)[i]] == Score(a, all, k, Ranking(a, all, k)[i])
  {
    assert f.order == SeenAll(all);
    SameScoresSameSort(f.order, byScore, ScoreIn(a, all, k));
    SortIsStable(f.order, byScore);
    var sorted := Ranking(a, all, k);
    forall i | 0 <= i < |sorted| ensures sorted[i] in f.order {
      assert multiset(sorted)[sorted[i]] > 0;
    }
  }

  lemma {:induction false} SameScoresSameSort(ids: seq<string>, s: string -> real, t: string -> real)
    requires forall id :: s(id) == t(id)
    ensures StableDescending(ids, s) == StableDescending(ids, t)
  {
    if ids != [] {
      SameScoresSameSort(ids[..|ids| - 1], s, t);
      SameScoresSameInsert(StableDescending(ids[..|ids| - 1], s), ids[|ids| - 1], s, t);
    }
  }

  lemma {:induction false} SameScoresSameInsert(sorted: seq<string>, id: string, s: string -> real, t: string -> real)
    requires forall x :: s(x) == t(x)
    ensures InsertByScore(sorted, id, s) == InsertByScore(sorted, id, t)
  {
    if sorted != [] {
      SameScoresSameInsert(sorted[..|sorted| - 1], id, s, t);
    }
  }

  // ------------------------------------------------------ agreement outweighs rank

  /** In how many lists an id is found. */
  function Found(lists: seq<seq<string>>, id: string): nat {
    if lists == [] then 0 else Found(lists[..|lists| - 1], id) + if id in lists[|lists| - 1] then 1 else 0
  }

  /** What the indexes return when asked for `3 * limit` hits each: that many at most, no id twice. */
  ghost predicate Fits(lists: seq<seq<string>>, limit: nat) {
    forall n :: 0 <= n < |lists| ==> Distinct(lists[n]) && |lists[n]| <= 3 * limit
  }

  lemma {:induction false} ListScoreExact(a: Arithmetic, ids: seq<string>, k: nat, id: string, start: real)
    requires Distinct(ids)
    ensures id !in ids ==> ListScore(a, ids, k, id, start) == start
    ensures forall r :: 0 <= r < |ids| && ids[r] == id ==>
      ListScore(a, ids, k, id, start) == a.add(start, a.inverse(k + r + 1))
  {
    if ids != [] {
      var front := ids[..|ids| - 1];
      assert ids == front + [ids[|ids| - 1]];
      ListScoreExact(a, front, k, id, start);
    }
  }

  /** One by a number, exactly. */
  function Weight(n: nat): real
    requires n > 0
  {
    1.0 / n as real
  }

  /** The least and the most that a result of `x` can come to with a relative error of at most `e`. */
  function Down(x: real, e: real): real {
    (1.0 - e) * x
  }

  function Up(x: real, e: real): real {
    (1.0 + e) * x
  }

  predicate Near(x: real, y: real, e: real) {
    Down(y, e) <= x <= Up(y, e)
  }

  lemma ErrorsKeepOrder(x: real, y: real, e: real)
    requires 0.0 <= e < 1.0 && 0.0 <= x <= y
    ensures 0.0 <= Down(x, e) <= Down(y, e) && x <= Up(x, e) <= Up(y, e)
  {
    hide Down, Up;
    DownInOrder(x, y, e);
    UpInOrder(x, y, e);
  }

  lemma DownInOrder(x: real, y: real, e: real)
    requires e < 1.0 && 0.0 <= x <= y
    ensures 0.0 <= Down(x, e) <= Down(y, e)
  {
    ProductSign(1.0 - e, x);
    Larger(1.0 - e, x, y);
  }

  lemma UpInOrder(x: real, y: real, e: real)
    requires 0.0 <= e && 0.0 <= x <= y
    ensures x <= Up(x, e) <= Up(y, e)
  {
    Larger(1.0 + e, x, y);
    UpGrows(x, e);
  }

  lemma UpGrows(x: real, e: real)
    requires 0.0 <= e && 0.0 <= x
    ensures x <= Up(x, e)
  {
    ProductSign(e, x);
    assert Up(x, e) == x + e * x;
  }

  /** Division and addition are right to within a relative error, as floating point's are. */
  ghost predicate Close(a: Arithmetic, e: real) {
    && 0.0 <= e < 1.0
    && (forall n: nat :: n > 0 ==> Near(a.inverse(n), Weight(n), e))
    && forall x: real, y: real :: x >= 0.0 && y >= 0.0 ==> Near(a.add(x, y), x + y, e)
  }

  /** The least and the most that `m` lists can make of a score, when none adds less, or more, than `w`. */
  function Low(m: nat, w: real, e: real): real {
    if m == 0 then 0.0 else Down(Low(m - 1, w, e) + Down(w, e), e)
  }

  function High(m: nat, w: real, e: real): real {
    if m == 0 then 0.0 else Up(High(m - 1, w, e) + Up(w, e), e)
  }

  lemma Larger(c: real, x: real, y: real)
    requires c >= 0.0 && x <= y
    ensures c * x <= c * y
  {
  }

  lemma ProductSign(c: real, x: real)
    requires c >= 0.0 && x >= 0.0
    ensures c * x >= 0.0
  {
  }

  lemma WeightOrder(r: nat, s: nat)
    requires 0 < r <= s
    ensures 0.0 < Weight(s) <= Weight(r)
  {
    assert Weight(r) - Weight(s) == (s as real - r as real) / (r as real * s as real);
  }

  /** One more list, on the way between the least and the most. */
  lemma OneMoreList(a: Arithmetic, e: real, s: real, n: nat, m: nat, low: real, high: real)
    requires Close(a, e) && n > 0 && 0.0 <= low <= Weight(n) <= high
    requires 0.0 <= Low(m, low, e) <= s <= High(m, high, e)
    ensures 0.0 <= Low(m + 1, low, e) <= a.add(s, a.inverse(n)) <= High(m + 1, high, e)
  {
    hide Weight, Down, Up;
    var w := a.inverse(n);
    assert Near(w, Weight(n), e);
    ErrorsKeepOrder(low, Weight(n), e);
    ErrorsKeepOrder(Weight(n), high, e);
    assert Near(a.add(s, w), s + w, e);
    ErrorsKeepOrder(Low(m, low, e) + Down(low, e), s + w, e);
    ErrorsKeepOrder(s + w, High(m, high, e) + Up(high, e), e);
  }

  lemma {:induction false} ScoreBounds(a: Arithmetic, e: real, lists: seq<seq<string>>, k: nat, id: string, limit: nat)
    requires Close(a, e) && Fits(lists, limit) && limit > 0
    ensures 0.0 <= Low(Found(lists, id), Weight(k + 3 * limit), e) <= Score(a, lists, k, id)
    ensures Score(a, lists, k, id) <= High(Found(lists, id), Weight(k + 1), e)
  {
    hide Weight, ListScore, Close;
    if lists != [] {
      var front, last := lists[..|lists| - 1], lists[|lists| - 1];
      ScoreBounds(a, e, front, k, id, limit);
      ListScoreExact(a, last, k, id, Score(a, front, k, id));
      if id in last {
        var r :| 0 <= r < |last| && last[r] == id;
        WeightOrder(k + 1, k + r + 1);
        WeightOrder(k + r + 1, k + 3 * limit);
        OneMoreList(a, e, Score(a, front, k, id), k + r + 1, Found(front, id), Weight(k + 3 * limit), Weight(k + 1));
      }
    }
  }

  lemma {:induction false} HighGrows(n: nat, m: nat, w: real, e: real)
    requires n <= m && w >= 0.0 && 0.0 <= e < 1.0
    ensures 0.0 <= High(n, w, e) <= High(m, w, e)
    decreases m
  {
    hide Up, Down;
    if m > 0 {
      HighGrows(m - 1, m - 1, w, e);
      ErrorsKeepOrder(w, w, e);
      ErrorsKeepOrder(High(m - 1, w, e) + Up(w, e), High(m - 1, w, e) + Up(w, e), e);
      if n < m {
        HighGrows(n, m - 1, w, e);
      }
    }
  }

  /** A document found by exactly `m` indexes outranks every document found by fewer. */
  ghost predicate AgreementWins(a: Arithmetic, k: nat, m: nat, limit: nat) {
    forall lists: seq<seq<string>>, x: string, y: string ::
      Fits(lists, limit) && Found(lists, x) == m && Found(lists, y) < m ==>
        Score(a, lists, k, x) > Score(a, lists, k, y)
  }

  /** If the least of `m` beats the most of one fewer, agreement wins, however the arithmetic rounds. */
  lemma AgreementSuffices(a: Arithmetic, e: real, k: nat, m: nat, limit: nat)
    requires Close(a, e) && limit > 0 && m > 0
    requires Low(m, Weight(k + 3 * limit), e) > High(m - 1, Weight(k + 1), e)
    ensures AgreementWins(a, k, m, limit)
  {
    hide Weight, Score, Fits, Found, Close, Low, High;
    forall lists: seq<seq<string>>, x: string, y: string |
      Fits(lists, limit) && Found(lists, x) == m && Found(lists, y) < m
      ensures Score(a, lists, k, x) > Score(a, lists, k, y)
    {
      ScoreBounds(a, e, lists, k, x, limit);
      ScoreBounds(a, e, lists, k, y, limit);
      WeightOrder(k + 1, k + 1);
      CloseError(a, e);
      HighGrows(Found(lists, y), m - 1, Weight(k + 1), e);
    }
  }

  lemma CloseError(a: Arithmetic, e: real)
    requires Close(a, e)
    ensures 0.0 <= e < 1.0
  {
  }

  // The converse: past the threshold there are lists in which fewer indexes win.

  function Filler(n: nat): (s: string)
    ensures |s| == n + 2
  {
    seq(n + 2, _ => 'x')
  }

  /** `a` last, and `b` first or not at all. */
  function Adversary(size: nat, withB: bool): (ids: seq<string>)
    requires size >= 2
    ensures |ids| == size && Distinct(ids) && ids[size - 1] == "a"
    ensures withB ==> ids[0] == "b"
    ensures !withB ==> "b" !in ids
  {
    seq(size, i requires 0 <= i < size => if i == size - 1 then "a" else if i == 0 && withB then "b" else Filler(i))
  }

  function Adversaries(size: nat, m: nat): seq<seq<string>>
    requires size >= 2
  {
    if m == 0 then [] else Adversaries(size, m - 1) + [Adversary(size, m > 1)]
  }

  /** Adding the same to a score, `m` times. */
  function Repeated(a: Arithmetic, m: nat, n: nat): real {
    if m == 0 then 0.0 else a.add(Repeated(a, m - 1, n), a.inverse(n))
  }

  lemma AdversaryScore(a: Arithmetic, limit: nat, k: nat, withB: bool, x: real, y: real)
    requires limit > 0
    ensures var ids := Adversary(3 * limit, withB);
      && ListScore(a, ids, k, "a", x) == a.add(x, a.inverse(k + 3 * limit))
      && ListScore(a, ids, k, "b", y) == (if withB then a.add(y, a.inverse(k + 1)) else y)
      && "a" in ids && ("b" in ids <==> withB)
  {
    hide ListScore;
    var ids := Adversary(3 * limit, withB);
    ListScoreExact(a, ids, k, "a", x);
    ListScoreExact(a, ids, k, "b", y);
    assert ids[3 * limit - 1] == "a" && (withB ==> ids[0] == "b");
  }

  lemma {:induction false} AdversariesScore(a: Arithmetic, limit: nat, k: nat, m: nat)
    requires limit > 0
    ensures var lists := Adversaries(3 * limit, m); var n := if m == 0 then 0 else m - 1;
      && Fits(lists, limit) && Found(lists, "a") == m && Found(lists, "b") == n
      && Score(a, lists, k, "a") == Repeated(a, m, k + 3 * limit) && Score(a, lists, k, "b") == Repeated(a, n, k + 1)
  {
    hide ListScore, Adversary, Score, Found, Fits;
    if m == 0 {
      NoLists(a, k, limit);
    } else {
      var front, last := Adversaries(3 * limit, m - 1), Adversary(3 * limit, m > 1);
      AdversariesScore(a, limit, k, m - 1);
      OneMoreScore(a, front, last, k, "a", limit);
      OneMoreScore(a, front, last, k, "b", limit);
      AdversaryScore(a, limit, k, m > 1, Score(a, front, k, "a"), Score(a, front, k, "b"));
    }
  }

  lemma NoLists(a: Arithmetic, k: nat, limit: nat)
    ensures Fits([], limit) && forall id :: Found([], id) == 0 && Score(a, [], k, id) == 0.0
  {
  }

  lemma OneMoreScore(a: Arithmetic, front: seq<seq<string>>, last: seq<string>, k: nat, id: string, limit: nat)
    ensures Score(a, front + [last], k, id) == ListScore(a, last, k, id, Score(a, front, k, id))
    ensures Found(front + [last], id) == Found(front, id) + if id in last then 1 else 0
    ensures Fits(front, limit) && Distinct(last) && |last| <= 3 * limit ==> Fits(front + [last], limit)
  {
    hide ListScore;
    assert (front + [last])[..|front|] == front;
  }

  /** If `m` last places make no more than one fewer first places, the adversary's lists defeat agreement. */
  lemma AgreementCanLose(a: Arithmetic, k: nat, m: nat, limit: nat)
    requires limit > 0 && m > 0 && Repeated(a, m, k + 3 * limit) <= Repeated(a, m - 1, k + 1)
    ensures !AgreementWins(a, k, m, limit)
    ensures var lists := Adversaries(3 * limit, m);
      && Fits(lists, limit) && Found(lists, "a") == m && Found(lists, "b") == m - 1
      && Score(a, lists, k, "a") <= Score(a, lists, k, "b")
  {
    hide Score, Fits, Found, Repeated, Adversaries;
    AdversariesScore(a, limit, k, m);
  }

  // ------------------------------------------------------------ with exact fractions

  ghost function Exact(): Arithmetic {
    Arithmetic(n => if n > 0 then Weight(n) else 0.0, (x, y) => x + y)
  }

  lemma ExactIsClose()
    ensures Close(Exact(), 0.0)
  {
    hide Weight;
  }

  function Times(n: nat, x: real): real {
    n as real * x
  }

  lemma {:induction false} ExactSums(m: nat, n: nat)
    requires n > 0
    ensures Low(m, Weight(n), 0.0) == High(m, Weight(n), 0.0) == Repeated(Exact(), m, n) == Times(m, Weight(n))
  {
    hide Weight;
    if m > 0 {
      ExactSums(m - 1, n);
      assert m as real == (m - 1) as real + 1.0;
    }
  }

  lemma FractionOrder(m: real, n: real, p: real, q: real)
    requires p > 0.0 && q > 0.0
    ensures m * (1.0 / p) > n * (1.0 / q) <==> m * q > n * p
  {
    var x, y := m * (1.0 / p), n * (1.0 / q);
    assert x * p == m && y * q == n;
    assert m * q - n * p == (x - y) * (p * q);
    assert p * q > 0.0;
  }

  lemma WeightFraction(m: nat, n: nat, r: nat, s: nat)
    requires r > 0 && s > 0
    ensures Times(m, Weight(r)) > Times(n, Weight(s)) <==> m * s > n * r
  {
    FractionOrder(m as real, n as real, r as real, s as real);
    assert (m * s) as real == m as real * s as real && (n * r) as real == n as real * r as real;
  }

  /** m (k + 1) > (m - 1) (k + c), with the products multiplied out. */
  lemma CrossMultiplied(m: nat, k: nat, c: nat)
    requires m > 0
    ensures m * (k + 1) > (m - 1) * (k + c) <==> (m - 1) * c < k + m
  {
    assert m * (k + 1) == m * k + m;
    assert (m - 1) * (k + c) == (m - 1) * k + (m - 1) * c;
    assert (m - 1) * k == m * k - k;
  }

  /**
   Exactly when agreement outweighs rank: `m` indexes beat any fewer, whatever the ranks, if and only if
   (m - 1) * 3 * limit < k + m.
   */
  lemma AgreementThreshold(k: nat, m: nat, limit: nat)
    requires limit > 0 && m > 0
    ensures AgreementWins(Exact(), k, m, limit) <==> (m - 1) * (3 * limit) < k + m
  {
    hide AgreementWins, Low, High, Repeated, Exact, Times, Weight;
    ExactIsClose();
    ExactSums(m, k + 3 * limit);
    ExactSums(m - 1, k + 1);
    CrossMultiplied(m, k, 3 * limit);
    WeightFraction(m, m - 1, k + 3 * limit, k + 1);
    if (m - 1) * (3 * limit) < k + m {
      AgreementSuffices(Exact(), 0.0, k, m, limit);
    } else {
      AgreementCanLose(Exact(), k, m, limit);
    }
  }

  // ----------------------------------------------------------- with rounded fractions

  const DEFAULT_K := 60

  /** Errors of at most one in a thousand. */
  lemma SmallError(x: real, e: real)
    requires 0.0 <= e <= 0.001 && x >= 0.0
    ensures Down(x, e) >= 0.999 * x && Up(x, e) <= 1.001 * x && Down(x, e) >= 0.0
  {
    Larger(x, e, 0.001);
  }

  /** What one more list can make of what there was, near enough the sum. */
  lemma OneMoreRounded(w: real, low: real, high: real, e: real)
    requires 0.0 <= e <= 0.001 && w >= 0.0 && low >= 0.0 && high >= 0.0
    ensures Down(low + Down(w, e), e) >= 0.999 * (low + 0.999 * w)
    ensures Up(high + Up(w, e), e) <= 1.001 * (high + 1.001 * w)
  {
    hide Down, Up;
    SmallError(w, e);
    SmallError(low + Down(w, e), e);
    ErrorsKeepOrder(w, w, e);
    SmallError(high + Up(w, e), e);
  }

  /** The same, of the least and the most, when they were near enough `c` times the weight. */
  lemma OneMoreWeight(m: nat, w: real, e: real, low: real, high: real)
    requires 0.0 <= e <= 0.001 && w >= 0.0 && low >= 0.0
    requires low * w <= Low(m, w, e) && 0.0 <= High(m, w, e) <= high * w
    ensures 0.999 * (low + 0.999) * w <= Low(m + 1, w, e)
    ensures 0.0 <= High(m + 1, w, e) <= 1.001 * (high + 1.001) * w
  {
    hide Down, Up;
    ProductSign(low, w);
    OneMoreRounded(w, Low(m, w, e), High(m, w, e), e);
    HighGrows(m + 1, m + 1, w, e);
  }

  lemma NoLow(e: real)
    ensures forall w: real :: Low(0, w, e) == 0.0 && High(0, w, e) == 0.0
  {
  }

  /** How often one number's part goes into another's. */
  lemma WeightRatio(x: real, n: nat, y: real, m: nat)
    requires n > 0 && m > 0 && x * m as real > y * n as real
    ensures x * Weight(n) > y * Weight(m)
  {
    FractionOrder(x, y, n as real, m as real);
  }

  lemma RoundedAgreement(a: Arithmetic, e: real, limit: nat)
    requires Close(a, e) && e <= 0.001 && 0 < limit <= 20
    ensures AgreementWins(a, DEFAULT_K, 2, limit)
  {
    hide AgreementWins, Weight, Close, Low, High;
    CloseError(a, e);
    NoLow(e);
    var w, v := Weight(DEFAULT_K + 3 * limit), Weight(DEFAULT_K + 1);
    WeightOrder(DEFAULT_K + 3 * limit, DEFAULT_K + 3 * limit);
    WeightOrder(DEFAULT_K + 1, DEFAULT_K + 1);
    OneMoreWeight(0, w, e, 0.0, 0.0);
    OneMoreWeight(0, v, e, 0.0, 0.0);
    OneMoreWeight(1, w, e, 0.999 * 0.999, 1.001 * 1.001);
    WeightRatio(1.99, DEFAULT_K + 3 * limit, 1.003, DEFAULT_K + 1);
    AgreementSuffices(a, e, DEFAULT_K, 2, limit);
  }

  lemma {:induction false} RepeatedBounds(a: Arithmetic, e: real, m: nat, n: nat)
    requires Close(a, e) && n > 0
    ensures 0.0 <= Low(m, Weight(n), e) <= Repeated(a, m, n) <= High(m, Weight(n), e)
  {
    hide Weight, Close;
    if m > 0 {
      RepeatedBounds(a, e, m - 1, n);
      WeightOrder(n, n);
      OneMoreList(a, e, Repeated(a, m - 1, n), n, m - 1, Weight(n), Weight(n));
    }
  }

  lemma RoundedDefeat(a: Arithmetic, e: real, limit: nat)
    requires Close(a, e) && e <= 0.001 && limit > 20
    ensures !AgreementWins(a, DEFAULT_K, 2, limit)
  {
    hide AgreementWins, Weight, Close, Low, High, Repeated;
    CloseError(a, e);
    NoLow(e);
    var w, v := Weight(DEFAULT_K + 3 * limit), Weight(DEFAULT_K + 1);
    WeightOrder(DEFAULT_K + 3 * limit, DEFAULT_K + 3 * limit);
    WeightOrder(DEFAULT_K + 1, DEFAULT_K + 1);
    OneMoreWeight(0, w, e, 0.0, 0.0);
    OneMoreWeight(0, v, e, 0.0, 0.0);
    OneMoreWeight(1, w, e, 0.999 * 0.999, 1.001 * 1.001);
    RepeatedBounds(a, e, 2, DEFAULT_K + 3 * limit);
    RepeatedBounds(a, e, 1, DEFAULT_K + 1);
    WeightRatio(0.997, DEFAULT_K + 1, 2.006, DEFAULT_K + 3 * limit);
    AgreementCanLose(a, DEFAULT_K, 2, limit);
  }

  /**
   For two indexes and the usual constant, the promise holds for every limit up to twenty and for none above, in exact
   fractions and in any arithmetic that errs by no more than one in a thousand, as floating point does by far less.
   */
  lemma TwoIndexesUpToTwenty(a: Arithmetic, e: real, limit: nat)
    requires Close(a, e) && e <= 0.001 && limit > 0
    ensures AgreementWins(a, DEFAULT_K, 2, limit) <==> limit <= 20
  {
    hide AgreementWins, Close;
    if limit <= 20 {
      RoundedAgreement(a, e, limit);
    } else {
      RoundedDefeat(a, e, limit);
    }
  }
}
