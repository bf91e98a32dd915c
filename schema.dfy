/**
 * The quiz document of the server: a status, the participants with their
 * four answers, and one vote list per category; and the read-only
 * projections computed from it (category answer lists and summaries).
 */
module Schema {
  import opened Wrappers
  import opened Text
  import opened Categories
  import opened Keyed
  import opened Status

  /** One free-text answer per category; `""` means not answered. */
  type Answers = PerCategory<string>

  /** A participant: `participantId` and its answers. */
  type Participant = Record<Answers>

  /** A vote in one category: `voterId` and the selected participant ids. */
  type Vote = Record<seq<string>>

  /**
   * The stored document. `status` is a string: the schema's enum validator
   * is not run by the status update, so any non-empty string can be stored.
   */
  datatype Quiz = Quiz(status: string, participants: seq<Participant>, votes: PerCategory<seq<Vote>>)

  /** The document `Quizz.create` stores: the schema defaults. */
  function NewQuiz(): (q: Quiz)
    ensures ParseStatus(q.status) == Some(Collecting)
    ensures q.participants == [] && forall c :: q.votes.Get(c) == []
  {
    Quiz(StatusName(Collecting), [], Uniform([]))
  }

  /** The invariant the handlers keep: one record per participant id and per voter id, none with an empty id. */
  ghost predicate WellKeyed(q: Quiz) {
    && UniqueKeys(q.participants)
    && (forall i :: 0 <= i < |q.participants| ==> q.participants[i].key != "")
    && forall c :: UniqueKeys(q.votes.Get(c)) && forall i :: 0 <= i < |q.votes.Get(c)| ==> q.votes.Get(c)[i].key != ""
  }

  /** Every selection of every vote is a non-empty string: the schema marks each element `required`. */
  predicate SelectionsFilled(q: Quiz) {
    forall c: Category, v :: v in q.votes.Get(c) ==> "" !in v.value
  }

  /**
   * The schema checks `save()` runs over the loaded document: the status is
   * one of the enumeration's values and every selection is filled. (The ids
   * are `required` too; `WellKeyed` keeps them non-empty.)
   */
  predicate SaveValid(q: Quiz) {
    ParseStatus(q.status).Some? && SelectionsFilled(q)
  }

  /** Replacing the participants of a filled document leaves only the status to check. */
  lemma SaveValidParticipants(q: Quiz, ps: seq<Participant>)
    requires SelectionsFilled(q)
    ensures SaveValid(q.(participants := ps)) <==> ParseStatus(q.status).Some?
  {
  }

  /**
   * Upserting a vote into a filled document passes the checks exactly when
   * the status is in the enumeration and no selection of the new vote is `""`.
   */
  lemma {:induction false} SaveValidVote(q: Quiz, c: Category, voter: string, selections: seq<string>)
    requires SelectionsFilled(q)
    ensures SaveValid(q.(votes := q.votes.Set(c, Upsert(q.votes.Get(c), voter, selections))))
      <==> ParseStatus(q.status).Some? && "" !in selections
  {
    var vs := Upsert(q.votes.Get(c), voter, selections);
    var q' := q.(votes := q.votes.Set(c, vs));
    assert Record(voter, selections) in q'.votes.Get(c);
  }

  /** The request's answers, each field missing or empty coming out as `""`. */
  function CoerceAnswers(submitted: map<Category, string>): (a: Answers)
    ensures forall c :: c in submitted ==> a.Get(c) == submitted[c]
    ensures forall c :: c !in submitted ==> a.Get(c) == ""
  {
    PerCategory(
      if Explorer in submitted then submitted[Explorer] else "",
      if Introspector in submitted then submitted[Introspector] else "",
      if Comparer in submitted then submitted[Comparer] else "",
      if Recommender in submitted then submitted[Recommender] else "")
  }

  /** `text.trim().length > 0`, which by `Text.TrimEmptyIffBlank` means the text is not blank. */
  predicate HasAnswer(text: string) {
    !IsBlank(text)
  }

  /** At least one of the four trimmed answers is non-empty. */
  function HasSubmitted(a: Answers): (b: bool)
    ensures b <==> exists c :: HasAnswer(a.Get(c))
  {
    assert HasAnswer(a.explorer) ==> HasAnswer(a.Get(Explorer));
    assert HasAnswer(a.introspector) ==> HasAnswer(a.Get(Introspector));
    assert HasAnswer(a.comparer) ==> HasAnswer(a.Get(Comparer));
    assert HasAnswer(a.recommender) ==> HasAnswer(a.Get(Recommender));
    HasAnswer(a.explorer) || HasAnswer(a.introspector) || HasAnswer(a.comparer) || HasAnswer(a.recommender)
  }

  /** The number of participants that have submitted something. */
  function SubmittedCount(ps: seq<Participant>): (n: nat)
    ensures n <= |ps|
    ensures n == |ps| <==> forall i :: 0 <= i < |ps| ==> HasSubmitted(ps[i].value)
    ensures n == 0 <==> forall i :: 0 <= i < |ps| ==> !HasSubmitted(ps[i].value)
  {
    if ps == [] then 0
    else
      var rest := SubmittedCount(ps[1..]);
      assert forall i :: 1 <= i < |ps| ==> ps[i] == ps[1..][i - 1];
      (if HasSubmitted(ps[0].value) then 1 else 0) + rest
  }

  /** An entry of a category's answer list: a participant id and its untrimmed answer. */
  datatype AnswerEntry = AnswerEntry(id: string, text: string)

  /** The participants whose answer for `c` is not blank, in participant order. */
  function AnswerList(ps: seq<Participant>, c: Category): (r: seq<AnswerEntry>)
    ensures |r| <= |ps|
    ensures forall e :: e in r ==> HasAnswer(e.text)
  {
    if ps == [] then []
    else
      var text := ps[0].value.Get(c);
      (if HasAnswer(text) then [AnswerEntry(ps[0].key, text)] else []) + AnswerList(ps[1..], c)
  }

  /** An entry is listed exactly when some participant has that id and that non-blank answer. */
  lemma {:induction false} AnswerListMembers(ps: seq<Participant>, c: Category, e: AnswerEntry)
    ensures e in AnswerList(ps, c) <==>
      !IsBlank(e.text) && exists i :: 0 <= i < |ps| && ps[i].key == e.id && ps[i].value.Get(c) == e.text
  {
    if ps != [] {
      AnswerListMembers(ps[1..], c, e);
      if e in AnswerList(ps[1..], c) {
        var i :| 0 <= i < |ps[1..]| && ps[1..][i].key == e.id && ps[1..][i].value.Get(c) == e.text;
        assert ps[i + 1] == ps[1..][i];
      }
      if exists i :: 0 <= i < |ps| && ps[i].key == e.id && ps[i].value.Get(c) == e.text {
        var i :| 0 <= i < |ps| && ps[i].key == e.id && ps[i].value.Get(c) == e.text;
        if i > 0 {
          assert ps[1..][i - 1] == ps[i];
        }
      }
    }
  }

  /** The answer list of a concatenation is the concatenation of the answer lists: participant order is kept. */
  lemma {:induction false} AnswerListAppend(ps: seq<Participant>, qs: seq<Participant>, c: Category)
    ensures AnswerList(ps + qs, c) == AnswerList(ps, c) + AnswerList(qs, c)
  {
    if ps != [] {
      AnswerListAppend(ps[1..], qs, c);
      assert (ps + qs)[1..] == ps[1..] + qs;
      var head := if HasAnswer(ps[0].value.Get(c)) then [AnswerEntry(ps[0].key, ps[0].value.Get(c))] else [];
      calc {
        AnswerList(ps + qs, c);
        head + AnswerList(ps[1..] + qs, c);
        head + (AnswerList(ps[1..], c) + AnswerList(qs, c));
      }
    } else {
      assert ps + qs == qs;
    }
  }

  /** `{participantsCount, submittedCount}` of the participant summary. */
  datatype ParticipantCounts = ParticipantCounts(participantsCount: nat, submittedCount: nat)

  /** `{participantsCount, votesCount}` of a category's vote summary. */
  datatype VoteCounts = VoteCounts(participantsCount: nat, votesCount: nat)

  function ParticipantSummary(q: Quiz): (r: ParticipantCounts)
    ensures r.submittedCount <= r.participantsCount == |q.participants|
  {
    ParticipantCounts(|q.participants|, SubmittedCount(q.participants))
  }

  /**
   * A category's vote summary. In a well-keyed document, with one record
   * per participant id and one vote per voter id, it counts the distinct
   * participants and the distinct voters of the category.
   */
  function VoteSummary(q: Quiz, c: Category): (r: VoteCounts)
    requires WellKeyed(q)
    ensures r.participantsCount == |set i | 0 <= i < |q.participants| :: q.participants[i].key|
    ensures r.votesCount == |set i | 0 <= i < |q.votes.Get(c)| :: q.votes.Get(c)[i].key|
  {
    KeyImageSize(q.participants, |q.participants|);
    KeyImageSize(q.votes.Get(c), |q.votes.Get(c)|);
    VoteCounts(|q.participants|, |q.votes.Get(c)|)
  }

  /** With unique keys, the first `n` records carry `n` distinct keys. */
  lemma {:induction false} KeyImageSize<V>(vs: seq<Record<V>>, n: nat)
    requires n <= |vs| && UniqueKeys(vs)
    ensures |set i | 0 <= i < n :: vs[i].key| == n
  {
    if n > 0 {
      KeyImageSize(vs, n - 1);
      var before := set i | 0 <= i < n - 1 :: vs[i].key;
      assert (set i | 0 <= i < n :: vs[i].key) == before + {vs[n - 1].key};
      assert vs[n - 1].key !in before;
    }
  }
}
