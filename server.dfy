/**
 * The route handlers of the quiz server, over a store that maps each
 * `quizzId` to its document. Each handler checks the request first
 * (400), then looks the quiz up (404), then reads or updates it.
 */
module Server {
  import opened Wrappers
  import Text
  import opened Categories
  import opened Keyed
  import opened Status
  import opened Schema
  import opened Tallying

  /** The error replies: 400, 404, and 500 when the store refuses a write. */
  datatype Error = BadRequest(message: string) | NotFound(message: string) | StoreFailure(message: string)

  const QuizNotFound: Error := NotFound("Quiz not found")

  /** Upserting a participant with a non-empty id keeps the document well keyed. */
  lemma UpsertParticipantWellKeyed(q: Quiz, pid: string, a: Answers)
    requires WellKeyed(q) && pid != ""
    ensures WellKeyed(q.(participants := Upsert(q.participants, pid, a)))
  {
    var ps := Upsert(q.participants, pid, a);
    UpsertUnique(q.participants, pid, a);
    UpsertKeys(q.participants, pid, a);
    forall i | 0 <= i < |ps| ensures ps[i].key != "" {
      assert Keys(ps)[i] == ps[i].key;
    }
  }

  /** Upserting a vote with a non-empty voter id keeps the document well keyed. */
  lemma UpsertVoteWellKeyed(q: Quiz, c: Category, voter: string, selections: seq<string>)
    requires WellKeyed(q) && voter != ""
    ensures WellKeyed(q.(votes := q.votes.Set(c, Upsert(q.votes.Get(c), voter, selections))))
  {
    var vs := Upsert(q.votes.Get(c), voter, selections);
    UpsertUnique(q.votes.Get(c), voter, selections);
    UpsertKeys(q.votes.Get(c), voter, selections);
    forall i | 0 <= i < |vs| ensures vs[i].key != "" {
      assert Keys(vs)[i] == vs[i].key;
    }
  }

  /** `e` is listed for `c`: some participant has id `e.id` and the non-blank answer `e.text`. */
  ghost predicate ListedAnswer(q: Quiz, c: Category, e: AnswerEntry) {
    HasAnswer(e.text) && exists i :: 0 <= i < |q.participants| && q.participants[i].key == e.id && q.participants[i].value.Get(c) == e.text
  }

  class QuizStore {
    var quizzes: map<string, Quiz>

    ghost predicate Valid()
      reads this
    {
      forall id :: id in quizzes ==> WellKeyed(quizzes[id]) && SelectionsFilled(quizzes[id])
    }

    constructor ()
      ensures Valid() && quizzes == map[]
    {
      quizzes := map[];
    }

    /** `POST /quizz`, with `quizId` the freshly generated id; a duplicate id breaks the unique index. */
    method Create(quizId: string) returns (r: Result<string, Error>)
      requires Valid()
      modifies this
      ensures Valid()
      ensures quizId in old(quizzes) ==> r == Err(StoreFailure("Failed to create quiz")) && quizzes == old(quizzes)
      ensures quizId !in old(quizzes) ==> r == Ok(quizId) && quizzes == old(quizzes)[quizId := NewQuiz()]
    {
      if quizId in quizzes {
        return Err(StoreFailure("Failed to create quiz"));
      }
      quizzes := quizzes[quizId := NewQuiz()];
      r := Ok(quizId);
    }

    /** `GET /quizz/:quizzId/status`. */
    method GetStatus(quizId: string) returns (r: Result<string, Error>)
      ensures quizId in quizzes ==> r == Ok(quizzes[quizId].status)
      ensures quizId !in quizzes ==> r == Err(QuizNotFound)
    {
      if quizId !in quizzes {
        return Err(QuizNotFound);
      }
      r := Ok(quizzes[quizId].status);
    }

    /** `POST /quizz/:quizzId/status`: replaces the status outright, with no check of the phase order. */
    method SetStatus(quizId: string, status: string) returns (r: Result<string, Error>)
      requires Valid()
      modifies this
      ensures Valid()
      ensures status == "" ==> r == Err(BadRequest("status is required")) && quizzes == old(quizzes)
      ensures status != "" && quizId !in old(quizzes) ==> r == Err(QuizNotFound) && quizzes == old(quizzes)
      ensures status != "" && quizId in old(quizzes) ==>
        r == Ok(status) && quizzes == old(quizzes)[quizId := old(quizzes)[quizId].(status := status)]
    {
      if status == "" {
        return Err(BadRequest("status is required"));
      }
      if quizId !in quizzes {
        return Err(QuizNotFound);
      }
      quizzes := quizzes[quizId := quizzes[quizId].(status := status)];
      r := Ok(status);
    }

    /** `GET /quizz/:quizzId/participants/summary`. */
    method ParticipantSummaryOf(quizId: string) returns (r: Result<ParticipantCounts, Error>)
      ensures quizId !in quizzes ==> r == Err(QuizNotFound)
      ensures quizId in quizzes ==> (r.Ok?
        && r.value.participantsCount == |quizzes[quizId].participants|
        && r.value.submittedCount == SubmittedCount(quizzes[quizId].participants)
        && r.value.submittedCount <= r.value.participantsCount)
    {
      if quizId !in quizzes {
        return Err(QuizNotFound);
      }
      r := Ok(ParticipantSummary(quizzes[quizId]));
    }

    /**
     * `POST /quizz/:quizzId/participants`: replaces the answers of the
     * participant with that id, or appends a new participant. `save()`
     * refuses the document when its stored status is not in the enumeration.
     */
    method SubmitAnswers(quizId: string, participantId: string, submitted: map<Category, string>)
      returns (r: Result<(), Error>)
      requires Valid()
      modifies this
      ensures Valid()
      ensures participantId == "" ==> r == Err(BadRequest("participantId is required")) && quizzes == old(quizzes)
      ensures participantId != "" && quizId !in old(quizzes) ==> r == Err(QuizNotFound) && quizzes == old(quizzes)
      ensures participantId != "" && quizId in old(quizzes) && ParseStatus(old(quizzes)[quizId].status).None? ==>
        r == Err(StoreFailure("Failed to save answers")) && quizzes == old(quizzes)
      ensures participantId != "" && quizId in old(quizzes) && ParseStatus(old(quizzes)[quizId].status).Some? ==> (r == Ok(()) &&
        quizzes == old(quizzes)[quizId := old(quizzes)[quizId].(participants :=
          Upsert(old(quizzes)[quizId].participants, participantId, CoerceAnswers(submitted)))])
    {
      if participantId == "" {
        return Err(BadRequest("participantId is required"));
      }
      if quizId !in quizzes {
        return Err(QuizNotFound);
      }
      var quiz := quizzes[quizId];
      var answers := CoerceAnswers(submitted);
      var i := Find(quiz.participants, participantId);
      var participants;
      if i >= 0 {
        participants := quiz.participants[i := Record(participantId, answers)];
        UpsertAt(quiz.participants, participantId, answers, i);
      } else {
        participants := quiz.participants + [Record(participantId, answers)];
        UpsertAbsent(quiz.participants, participantId, answers);
      }
      var saved := quiz.(participants := participants);
      SaveValidParticipants(quiz, participants);
      if !SaveValid(saved) {
        return Err(StoreFailure("Failed to save answers"));
      }
      UpsertParticipantWellKeyed(quiz, participantId, answers);
      quizzes := quizzes[quizId := saved];
      r := Ok(());
    }

    /** `GET /quizz/:quizzId/<category>`: the category's answer list. */
    method AnswersOf(quizId: string, c: Category) returns (r: Result<seq<AnswerEntry>, Error>)
      ensures quizId !in quizzes ==> r == Err(QuizNotFound)
      ensures quizId in quizzes ==> r == Ok(AnswerList(quizzes[quizId].participants, c))
      ensures quizId in quizzes ==> forall e :: e in r.value <==> ListedAnswer(quizzes[quizId], c, e)
    {
      if quizId !in quizzes {
        return Err(QuizNotFound);
      }
      var list := AnswerList(quizzes[quizId].participants, c);
      forall e ensures e in list <==> ListedAnswer(quizzes[quizId], c, e) {
        AnswerListMembers(quizzes[quizId].participants, c, e);
      }
      r := Ok(list);
    }

    /**
     * `POST /quizz/:quizzId/votes/<category>`: replaces the selections of
     * the vote with that voter id, or appends a new vote. `selections` is
     * `None` when the request's field is not an array. `save()` refuses the
     * document when a selection is `""` or the stored status is not in the
     * enumeration.
     */
    method RecordVote(quizId: string, c: Category, voterId: string, selections: Option<seq<string>>)
      returns (r: Result<(), Error>)
      requires Valid()
      modifies this
      ensures Valid()
      ensures (voterId == "" || selections.None?) ==>
        r == Err(BadRequest("voterId and selections are required")) && quizzes == old(quizzes)
      ensures voterId != "" && selections.Some? && quizId !in old(quizzes) ==> r == Err(QuizNotFound) && quizzes == old(quizzes)
      ensures (voterId != "" && selections.Some? && quizId in old(quizzes)
               && ("" in selections.value || ParseStatus(old(quizzes)[quizId].status).None?)) ==>
        r == Err(StoreFailure("Failed to save votes")) && quizzes == old(quizzes)
      ensures (voterId != "" && selections.Some? && quizId in old(quizzes)
               && "" !in selections.value && ParseStatus(old(quizzes)[quizId].status).Some?) ==> (r == Ok(()) &&
        quizzes == old(quizzes)[quizId := old(quizzes)[quizId].(votes := old(quizzes)[quizId].votes.Set(c,
          Upsert(old(quizzes)[quizId].votes.Get(c), voterId, selections.value)))])
    {
      if voterId == "" || selections.None? {
        return Err(BadRequest("voterId and selections are required"));
      }
      if quizId !in quizzes {
        return Err(QuizNotFound);
      }
      var quiz := quizzes[quizId];
      var votes := quiz.votes.Get(c);
      var i := Find(votes, voterId);
      var updated;
      if i >= 0 {
        updated := votes[i := Record(voterId, selections.value)];
        UpsertAt(votes, voterId, selections.value, i);
      } else {
        updated := votes + [Record(voterId, selections.value)];
        UpsertAbsent(votes, voterId, selections.value);
      }
      var saved := quiz.(votes := quiz.votes.Set(c, updated));
      SaveValidVote(quiz, c, voterId, selections.value);
      if !SaveValid(saved) {
        return Err(StoreFailure("Failed to save votes"));
      }
      UpsertVoteWellKeyed(quiz, c, voterId, selections.value);
      quizzes := quizzes[quizId := saved];
      r := Ok(());
    }

    /** `GET /quizz/:quizzId/<category>/results`: the ranked tally of the category. */
    method ResultsOf(quizId: string, c: Category) returns (r: Result<seq<ScoredAnswer>, Error>)
      ensures quizId !in quizzes ==> r == Err(QuizNotFound)
      ensures quizId in quizzes ==> (r.Ok?
        && multiset(r.value) == multiset(Scored(AnswerList(quizzes[quizId].participants, c), quizzes[quizId].votes.Get(c)))
        && IsRanking(r.value, AnswerList(quizzes[quizId].participants, c), quizzes[quizId].votes.Get(c)))
    {
      if quizId !in quizzes {
        return Err(QuizNotFound);
      }
      var quiz := quizzes[quizId];
      var results := Tally(AnswerList(quiz.participants, c), quiz.votes.Get(c));
      r := Ok(results);
    }

    /** `GET /quizz/:quizzId/votes/<category>/summary`. */
    method VoteSummaryOf(quizId: string, c: Category) returns (r: Result<VoteCounts, Error>)
      requires Valid()
      ensures quizId !in quizzes ==> r == Err(QuizNotFound)
      ensures quizId in quizzes ==> (r.Ok?
        && r.value.participantsCount == |quizzes[quizId].participants|
        && r.value.votesCount == |quizzes[quizId].votes.Get(c)|)
    {
      if quizId !in quizzes {
        return Err(QuizNotFound);
      }
      r := Ok(VoteSummary(quizzes[quizId], c));
    }
  }

  /**
   * A session end to end: create, submit one explorer answer, vote for it,
   * and read the list, the results and the status back.
   */
  method ExplorerScenario(store: QuizStore, quizId: string)
    returns (listed: Result<seq<AnswerEntry>, Error>, results: Result<seq<ScoredAnswer>, Error>, status: Result<string, Error>)
    requires store.Valid() && quizId !in store.quizzes
    modifies store
    ensures listed == Ok([AnswerEntry("p1", "A")])
    ensures results == Ok([ScoredAnswer("p1", "A", 1)])
    ensures status == Ok("voting1")
  {
    var created := store.Create(quizId);
    var submitted := store.SubmitAnswers(quizId, "p1", map[Explorer := "A"]);
    ghost var participants := store.quizzes[quizId].participants;
    assert participants == [Record("p1", CoerceAnswers(map[Explorer := "A"]))];
    assert HasAnswer("A") by {
      assert !Text.IsSpace("A"[0]);
    }
    assert participants[0].value.Get(Explorer) == "A";
    assert AnswerList(participants, Explorer) == [AnswerEntry("p1", "A")] + AnswerList(participants[1..], Explorer);
    assert participants[1..] == [];
    listed := store.AnswersOf(quizId, Explorer);
    assert AnswerList(participants[1..], Explorer) == [];
    ghost var list := AnswerList(participants, Explorer);
    assert list == [AnswerEntry("p1", "A")] + [];
    assert list == [AnswerEntry("p1", "A")];
    var voted := store.RecordVote(quizId, Explorer, "v1", Some(["p1"]));
    var updated := store.SetStatus(quizId, "voting1");
    results := store.ResultsOf(quizId, Explorer);
    status := store.GetStatus(quizId);
    ghost var q := store.quizzes[quizId];
    assert q.participants == participants;
    assert q.votes.Get(Explorer) == [Record("v1", ["p1"])];
    ghost var expected := [ScoredAnswer("p1", "A", 1)];
    assert CountIn(["p1"], "p1") == 1 by {
      assert ["p1"][..0] == [];
    }
    assert Occurrences([Record("v1", ["p1"])], "p1") == 1 by {
      assert [Record("v1", ["p1"])][..0] == [];
    }
    assert Scored(AnswerList(q.participants, Explorer), q.votes.Get(Explorer)) == expected;
    RankingUnique(results.value, expected);
  }
}
