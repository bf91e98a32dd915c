/**
 * The results of one category: every listed answer starts at count 0,
 * each selection naming a listed id adds one to it, selections naming
 * anything else are ignored, and the entries are ranked by descending
 * count with a stable sort (ties keep participant order).
 */
module Tallying {
  import opened Keyed
  import opened Schema

  /** `{id, text, count}` of the results reply. */
  datatype ScoredAnswer = ScoredAnswer(id: string, text: string, count: nat)

  /** How many times `id` occurs in one selection list. */
  function CountIn(selections: seq<string>, id: string): nat {
    if selections == [] then 0
    else CountIn(selections[..|selections| - 1], id) + (if selections[|selections| - 1] == id then 1 else 0)
  }

  /** How many times `id` occurs across all selection lists of a category. */
  function Occurrences(votes: seq<Vote>, id: string): nat {
    if votes == [] then 0
    else Occurrences(votes[..|votes| - 1], id) + CountIn(votes[|votes| - 1].value, id)
  }

  /** The answer list with the count each entry is due, before ranking. */
  function Scored(entries: seq<AnswerEntry>, votes: seq<Vote>): (r: seq<ScoredAnswer>)
    ensures |r| == |entries|
    ensures forall i :: 0 <= i < |r| ==> r[i] == ScoredAnswer(entries[i].id, entries[i].text, Occurrences(votes, entries[i].id))
  {
    seq(|entries|, i requires 0 <= i < |entries| => ScoredAnswer(entries[i].id, entries[i].text, Occurrences(votes, entries[i].id)))
  }

  /** The count map: one key per listed id, valued by the selections that name it. */
  method CountVotes(entries: seq<AnswerEntry>, votes: seq<Vote>) returns (counts: map<string, nat>)
    ensures forall id :: id in counts <==> exists i :: 0 <= i < |entries| && entries[i].id == id
    ensures forall id :: id in counts ==> counts[id] == Occurrences(votes, id)
  {
    ghost var ids := set i | 0 <= i < |entries| :: entries[i].id;
    counts := map[];
    for k := 0 to |entries|
      invariant counts.Keys == set i | 0 <= i < k :: entries[i].id
      invariant forall id :: id in counts ==> counts[id] == 0
    {
      counts := counts[entries[k].id := 0];
    }
    for i := 0 to |votes|
      invariant counts.Keys == ids
      invariant forall id :: id in counts ==> counts[id] == Occurrences(votes[..i], id)
    {
      var selections := votes[i].value;
      for j := 0 to |selections|
        invariant counts.Keys == ids
        invariant forall id :: id in counts ==> counts[id] == Occurrences(votes[..i], id) + CountIn(selections[..j], id)
      {
        assert selections[..j + 1][..j] == selections[..j];
        if selections[j] in counts {
          counts := counts[selections[j] := counts[selections[j]] + 1];
        }
      }
      assert selections[..|selections|] == selections;
      assert votes[..i + 1][..i] == votes[..i];
    }
    assert votes[..|votes|] == votes;
  }

  /** Non-increasing counts. */
  predicate SortedByCount(s: seq<ScoredAnswer>) {
    forall i, j :: 0 <= i < j < |s| ==> s[i].count >= s[j].count
  }

  /** The entries with count `k`, in their order. */
  function WithCount(s: seq<ScoredAnswer>, k: nat): seq<ScoredAnswer> {
    if s == [] then []
    else (if s[0].count == k then [s[0]] else []) + WithCount(s[1..], k)
  }

  /** Places `x` before the first entry whose count is not greater than its own. */
  function InsertByCount(x: ScoredAnswer, s: seq<ScoredAnswer>): (r: seq<ScoredAnswer>)
    ensures |r| == |s| + 1
    ensures forall y :: y in r <==> y == x || y in s
  {
    if s == [] || s[0].count <= x.count then [x] + s
    else [s[0]] + InsertByCount(x, s[1..])
  }

  /** A stable sort by descending count: what `sort((a, b) => b.count - a.count)` yields. */
  function SortByCount(s: seq<ScoredAnswer>): (r: seq<ScoredAnswer>)
    ensures |r| == |s|
    ensures forall y :: y in r <==> y in s
  {
    if s == [] then [] else InsertByCount(s[0], SortByCount(s[1..]))
  }

  lemma {:induction false} InsertByCountPermutation(x: ScoredAnswer, s: seq<ScoredAnswer>)
    ensures multiset(InsertByCount(x, s)) == multiset(s) + multiset{x}
  {
    if s != [] && s[0].count > x.count {
      InsertByCountPermutation(x, s[1..]);
      assert s == [s[0]] + s[1..];
    }
  }

  lemma {:induction false} InsertByCountSorted(x: ScoredAnswer, s: seq<ScoredAnswer>)
    requires SortedByCount(s)
    ensures SortedByCount(InsertByCount(x, s))
  {
    if s != [] && s[0].count > x.count {
      var r := InsertByCount(x, s);
      InsertByCountSorted(x, s[1..]);
      InsertByCountPermutation(x, s[1..]);
      assert r[1..] == InsertByCount(x, s[1..]);
      forall j | 0 < j < |r| ensures r[0].count >= r[j].count {
        assert r[j] in multiset(InsertByCount(x, s[1..]));
        assert r[j] == x || r[j] in s[1..];
      }
    }
  }

  lemma {:induction false} InsertByCountWithCount(x: ScoredAnswer, s: seq<ScoredAnswer>, k: nat)
    ensures WithCount(InsertByCount(x, s), k) == (if x.count == k then [x] else []) + WithCount(s, k)
  {
    var r := InsertByCount(x, s);
    var xs := if x.count == k then [x] else [];
    if s == [] || s[0].count <= x.count {
      assert r[0] == x && r[1..] == s;
    } else {
      InsertByCountWithCount(x, s[1..], k);
      var rest := InsertByCount(x, s[1..]);
      var heads := if s[0].count == k then [s[0]] else [];
      assert r[0] == s[0] && r[1..] == rest;
      assert heads == [] || xs == [];
      calc {
        WithCount(r, k);
        heads + WithCount(rest, k);
        heads + (xs + WithCount(s[1..], k));
        xs + (heads + WithCount(s[1..], k));
        xs + WithCount(s, k);
      }
    }
  }

  /** The ranking is a permutation of its input. */
  lemma {:induction false} SortByCountPermutation(s: seq<ScoredAnswer>)
    ensures multiset(SortByCount(s)) == multiset(s)
  {
    if s != [] {
      SortByCountPermutation(s[1..]);
      InsertByCountPermutation(s[0], SortByCount(s[1..]));
      assert s == [s[0]] + s[1..];
    }
  }

  /** The ranking has non-increasing counts. */
  lemma {:induction false} SortByCountSorted(s: seq<ScoredAnswer>)
    ensures SortedByCount(SortByCount(s))
  {
    if s != [] {
      SortByCountSorted(s[1..]);
      InsertByCountSorted(s[0], SortByCount(s[1..]));
    }
  }

  /** The ranking is stable: the entries sharing a count keep their input order. */
  lemma {:induction false} SortByCountStable(s: seq<ScoredAnswer>, k: nat)
    ensures WithCount(SortByCount(s), k) == WithCount(s, k)
  {
    if s != [] {
      SortByCountStable(s[1..], k);
      InsertByCountWithCount(s[0], SortByCount(s[1..]), k);
    }
  }

  /** What the results reply must be: ranked by count, and stable on the scored answer list. */
  ghost predicate IsRanking(results: seq<ScoredAnswer>, entries: seq<AnswerEntry>, votes: seq<Vote>) {
    && SortedByCount(results)
    && forall k: nat :: WithCount(results, k) == WithCount(Scored(entries, votes), k)
  }

  lemma {:induction false} WithCountMember(s: seq<ScoredAnswer>, i: nat)
    requires i < |s|
    ensures WithCount(s, s[i].count) != []
  {
    if i > 0 {
      WithCountMember(s[1..], i - 1);
    }
  }

  lemma {:induction false} WithCountEmpty(s: seq<ScoredAnswer>)
    requires forall k: nat :: WithCount(s, k) == []
    ensures s == []
  {
    if s != [] {
      WithCountMember(s, 0);
    }
  }

  /** In a ranking, the entries with the leading count come first. */
  lemma {:induction false} WithCountHead(s: seq<ScoredAnswer>, k: nat)
    requires SortedByCount(s) && s != []
    requires WithCount(s, k) != []
    ensures k <= s[0].count
    ensures k == s[0].count ==> WithCount(s, k)[0] == s[0]
  {
    if s[0].count != k {
      var i :| 0 <= i < |s| && s[i].count == k by {
        WithCountSome(s, k);
      }
    }
  }

  lemma {:induction false} WithCountSome(s: seq<ScoredAnswer>, k: nat)
    requires WithCount(s, k) != []
    ensures exists i :: 0 <= i < |s| && s[i].count == k
  {
    if s[0].count != k {
      WithCountSome(s[1..], k);
      var i :| 0 <= i < |s[1..]| && s[1..][i].count == k;
      assert s[i + 1].count == k;
    }
  }

  /**
   * Two rankings of the same scored answers are equal: the order is fully
   * determined, so the results reply does not depend on how it is computed.
   */
  lemma {:induction false} RankingUnique(r1: seq<ScoredAnswer>, r2: seq<ScoredAnswer>)
    requires SortedByCount(r1) && SortedByCount(r2)
    requires forall k: nat :: WithCount(r1, k) == WithCount(r2, k)
    ensures r1 == r2
  {
    if r1 == [] {
      WithCountEmpty(r2);
    } else if r2 == [] {
      WithCountEmpty(r1);
    } else {
      var m1, m2 := r1[0].count, r2[0].count;
      WithCountMember(r1, 0);
      WithCountMember(r2, 0);
      WithCountHead(r2, m1);
      WithCountHead(r1, m2);
      assert m1 == m2;
      WithCountHead(r1, m1);
      WithCountHead(r2, m1);
      assert r1[0] == r2[0];
      forall k: nat ensures WithCount(r1[1..], k) == WithCount(r2[1..], k) {
        var h := if m1 == k then [r1[0]] else [];
        assert WithCount(r1, k) == h + WithCount(r1[1..], k);
        assert WithCount(r2, k) == h + WithCount(r2[1..], k);
        assert WithCount(r1, k) == WithCount(r2, k);
        assert WithCount(r1[1..], k) == (h + WithCount(r1[1..], k))[|h|..];
        assert WithCount(r2[1..], k) == (h + WithCount(r2[1..], k))[|h|..];
      }
      RankingUnique(r1[1..], r2[1..]);
      assert r1 == [r1[0]] + r1[1..] && r2 == [r2[0]] + r2[1..];
    }
  }

  /**
   * The results reply for one category: the answer list with counts, ranked.
   * Each listed answer appears once with the count due to it, nothing else
   * appears, counts do not increase along the list, and equal counts keep
   * participant order.
   */
  method Tally(entries: seq<AnswerEntry>, votes: seq<Vote>) returns (results: seq<ScoredAnswer>)
    ensures |results| == |entries|
    ensures multiset(results) == multiset(Scored(entries, votes))
    ensures forall r :: r in results ==> AnswerEntry(r.id, r.text) in entries && r.count == Occurrences(votes, r.id)
    ensures IsRanking(results, entries, votes)
  {
    var counts := CountVotes(entries, votes);
    var scored := seq(|entries|, i requires 0 <= i < |entries| => ScoredAnswer(entries[i].id, entries[i].text, counts[entries[i].id]));
    assert scored == Scored(entries, votes);
    results := SortByCount(scored);
    SortByCountPermutation(scored);
    SortByCountSorted(scored);
    forall k: nat ensures WithCount(results, k) == WithCount(scored, k) {
      SortByCountStable(scored, k);
    }
    assert |results| == |entries| by {
      assert |multiset(results)| == |multiset(scored)|;
    }
    forall r | r in results ensures AnswerEntry(r.id, r.text) in entries && r.count == Occurrences(votes, r.id) {
      assert r in multiset(scored);
      var i :| 0 <= i < |scored| && scored[i] == r;
      assert entries[i] == AnswerEntry(r.id, r.text);
    }
  }

  /** Selections with no duplicates name an id at most once. */
  lemma {:induction false} CountInDistinct(selections: seq<string>, id: string)
    requires forall i, j :: 0 <= i < j < |selections| ==> selections[i] != selections[j]
    ensures CountIn(selections, id) == if id in selections then 1 else 0
  {
    if selections != [] {
      var init := selections[..|selections| - 1];
      CountInDistinct(init, id);
      assert selections == init + [selections[|selections| - 1]];
    }
  }

  /** The number of votes whose selections name `id`. */
  function VotersSelecting(votes: seq<Vote>, id: string): nat {
    if votes == [] then 0
    else VotersSelecting(votes[..|votes| - 1], id) + (if id in votes[|votes| - 1].value then 1 else 0)
  }

  /** When no vote repeats a selection, a count is the number of votes that select the id. */
  lemma {:induction false} OccurrencesCountVoters(votes: seq<Vote>, id: string)
    requires forall v, i, j :: v in votes && 0 <= i < j < |v.value| ==> v.value[i] != v.value[j]
    ensures Occurrences(votes, id) == VotersSelecting(votes, id)
  {
    if votes != [] {
      var init := votes[..|votes| - 1];
      assert forall v :: v in init ==> v in votes;
      OccurrencesCountVoters(init, id);
      CountInDistinct(votes[|votes| - 1].value, id);
    }
  }

  /** Selections that name no other id leave that id's count alone. */
  lemma {:induction false} CountInIgnores(selections: seq<string>, extra: seq<string>, id: string)
    requires id !in extra
    ensures CountIn(selections + extra, id) == CountIn(selections, id)
  {
    if extra != [] {
      var longer := selections + extra;
      CountInIgnores(selections, extra[..|extra| - 1], id);
      assert longer[..|longer| - 1] == selections + extra[..|extra| - 1];
    } else {
      assert selections + extra == selections;
    }
  }

  lemma {:induction false} OccurrencesIgnores(votes: seq<Vote>, i: nat, extra: seq<string>, id: string)
    requires i < |votes| && id !in extra
    ensures Occurrences(votes[i := Record(votes[i].key, votes[i].value + extra)], id) == Occurrences(votes, id)
  {
    var updated := votes[i := Record(votes[i].key, votes[i].value + extra)];
    var n := |votes| - 1;
    if i == n {
      assert updated[..n] == votes[..n];
      CountInIgnores(votes[i].value, extra, id);
    } else {
      OccurrencesIgnores(votes[..n], i, extra, id);
      assert updated[..n] == votes[..n][i := Record(votes[i].key, votes[i].value + extra)];
    }
  }

  /** Adding selections that name no listed answer changes no count and adds no entry. */
  lemma UnmatchedSelectionsIgnored(entries: seq<AnswerEntry>, votes: seq<Vote>, i: nat, extra: seq<string>)
    requires i < |votes|
    requires forall e :: e in entries ==> e.id !in extra
    ensures Scored(entries, votes[i := Record(votes[i].key, votes[i].value + extra)]) == Scored(entries, votes)
  {
    var updated := votes[i := Record(votes[i].key, votes[i].value + extra)];
    forall k | 0 <= k < |entries| ensures Occurrences(updated, entries[k].id) == Occurrences(votes, entries[k].id) {
      assert entries[k] in entries;
      OccurrencesIgnores(votes, i, extra, entries[k].id);
    }
  }
}
