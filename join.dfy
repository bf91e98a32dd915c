/**
 * The participant's page: the stage shown for each server status, the
 * selection toggle of a voting round, and the page state the handlers
 * update (answers, stage, selections and the per-round "voted" flags).
 */
module Join {
  import opened Wrappers
  import opened Categories
  import opened Status
  import opened Schema

  /** The participant's stages; `WaitingResults` and `ShowResults` are per round. */
  datatype Stage = Step1 | Waiting | Vote(category: Category) | WaitingResults(category: Category)
                 | ShowResults(category: Category) | Finished

  /** The page's stage strings; round 1's waiting stage has no number. */
  function StageName(st: Stage): string {
    match st
    case Step1 => "step1"
    case Waiting => "waiting"
    case Vote(Explorer) => "vote1"
    case Vote(Introspector) => "vote2"
    case Vote(Comparer) => "vote3"
    case Vote(Recommender) => "vote4"
    case WaitingResults(Explorer) => "waiting-results"
    case WaitingResults(Introspector) => "waiting-results2"
    case WaitingResults(Comparer) => "waiting-results3"
    case WaitingResults(Recommender) => "waiting-results4"
    case ShowResults(Explorer) => "results1"
    case ShowResults(Introspector) => "results2"
    case ShowResults(Comparer) => "results3"
    case ShowResults(Recommender) => "results4"
    case Finished => "finished"
  }

  /** The stages in which the page polls the status every two seconds. */
  const PollingStages: seq<string> := [
    "waiting", "waiting-results", "vote1", "results1",
    "vote2", "waiting-results2", "results2",
    "vote3", "waiting-results3", "results3",
    "vote4", "waiting-results4", "results4",
    "finished"
  ]

  /**
   * `resolveStageForStatus`: the stage for a status string, given the
   * page's answers and per-round vote flags. Total: unknown strings give
   * `step1`; every other stage it returns keeps the page polling.
   */
  function ResolveStageForStatus(status: string, answers: Answers, voteSubmitted: PerCategory<bool>): (st: Stage)
    ensures ParseStatus(status) == Some(Collecting) ==> st == (if HasSubmitted(answers) then Waiting else Step1)
    ensures forall c :: ParseStatus(status) == Some(Voting(c)) ==>
      st == (if voteSubmitted.Get(c) then WaitingResults(c) else Vote(c))
    ensures forall c :: ParseStatus(status) == Some(Results(c)) ==> st == ShowResults(c)
    ensures ParseStatus(status) == Some(Finish) ==> st == Finished
    ensures ParseStatus(status) == None ==> st == Step1
    ensures st != Step1 ==> StageName(st) in PollingStages
  {
    if status == "collecting" then (if HasSubmitted(answers) then Waiting else Step1)
    else if status == "results1" then ShowResults(Explorer)
    else if status == "voting1" then (if voteSubmitted.explorer then WaitingResults(Explorer) else Vote(Explorer))
    else if status == "results2" then ShowResults(Introspector)
    else if status == "voting2" then (if voteSubmitted.introspector then WaitingResults(Introspector) else Vote(Introspector))
    else if status == "results3" then ShowResults(Comparer)
    else if status == "voting3" then (if voteSubmitted.comparer then WaitingResults(Comparer) else Vote(Comparer))
    else if status == "results4" then ShowResults(Recommender)
    else if status == "voting4" then (if voteSubmitted.recommender then WaitingResults(Recommender) else Vote(Recommender))
    else if status == "finish" then Finished
    else Step1
  }

  /** After a successful vote in round `c`, the next poll of that round's status keeps the waiting stage. */
  lemma VotedRoundStaysWaiting(answers: Answers, voteSubmitted: PerCategory<bool>, c: Category)
    ensures ResolveStageForStatus(StatusName(Voting(c)), answers, voteSubmitted.Set(c, true)) == WaitingResults(c)
  {
    ParseStatusName(Voting(c));
  }

  /**
   * After a successful answer submit the page shows `waiting`; the next poll
   * during collecting keeps it only if some answer is non-blank.
   */
  lemma SubmittedStaysWaiting(answers: Answers, voteSubmitted: PerCategory<bool>)
    ensures ResolveStageForStatus(StatusName(Collecting), answers, voteSubmitted) == Waiting <==> HasSubmitted(answers)
  {
  }

  /** The selection toggle: adds `id` when absent, removes it when present. */
  function Toggle(selected: set<string>, id: string): (r: set<string>)
    ensures id in r <==> id !in selected
    ensures forall x :: x != id ==> (x in r <==> x in selected)
  {
    if id in selected then selected - {id} else selected + {id}
  }

  /** Toggling the same id twice restores the selection. */
  lemma ToggleTwice(selected: set<string>, id: string)
    ensures Toggle(Toggle(selected, id), id) == selected
  {
  }

  /** The page state the handlers update. */
  class JoinView {
    var participantId: string
    var answers: Answers
    var stage: Stage
    var selected: PerCategory<set<string>>
    var voteSubmitted: PerCategory<bool>

    /** The initial state, with the participant id read from or written to local storage. */
    constructor (participantId: string)
      ensures this.participantId == participantId && answers == Uniform("") && stage == Step1
      ensures selected == Uniform({}) && voteSubmitted == Uniform(false)
    {
      this.participantId := participantId;
      answers := Uniform("");
      stage := Step1;
      selected := Uniform({});
      voteSubmitted := Uniform(false);
    }

    /** Typing in one answer field. */
    method EditAnswer(c: Category, text: string)
      modifies this
      ensures answers == old(answers).Set(c, text)
      ensures participantId == old(participantId) && stage == old(stage)
      ensures selected == old(selected) && voteSubmitted == old(voteSubmitted)
    {
      answers := answers.Set(c, text);
    }

    /** A status poll answered with `status`. */
    method ApplyStatus(status: string)
      modifies this
      ensures stage == ResolveStageForStatus(status, answers, voteSubmitted)
      ensures participantId == old(participantId) && answers == old(answers)
      ensures selected == old(selected) && voteSubmitted == old(voteSubmitted)
    {
      stage := ResolveStageForStatus(status, answers, voteSubmitted);
    }

    /** A click on answer `id` in round `c`. */
    method ToggleSelection(c: Category, id: string)
      modifies this
      ensures selected == old(selected).Set(c, Toggle(old(selected).Get(c), id))
      ensures participantId == old(participantId) && answers == old(answers)
      ensures stage == old(stage) && voteSubmitted == old(voteSubmitted)
    {
      selected := selected.Set(c, Toggle(selected.Get(c), id));
    }

    /** The "Cast your vote" button of round `c` is enabled. */
    predicate CanCastVote(c: Category)
      reads this
    {
      participantId != "" && !voteSubmitted.Get(c)
    }

    /** The answers were accepted by the server. */
    method SubmitSucceeded()
      modifies this
      ensures stage == Waiting
      ensures participantId == old(participantId) && answers == old(answers)
      ensures selected == old(selected) && voteSubmitted == old(voteSubmitted)
    {
      stage := Waiting;
    }

    /** The vote of round `c` was accepted: the round is marked and its button disabled. */
    method VoteSucceeded(c: Category)
      requires CanCastVote(c)
      modifies this
      ensures voteSubmitted == old(voteSubmitted).Set(c, true) && stage == WaitingResults(c)
      ensures !CanCastVote(c)
      ensures participantId == old(participantId) && answers == old(answers) && selected == old(selected)
    {
      voteSubmitted := voteSubmitted.Set(c, true);
      stage := WaitingResults(c);
    }
  }
}
