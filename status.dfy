/**
 * The quiz status: the ten-value enumeration of the quiz schema, in the
 * order in which the moderator walks through it.
 */
module Status {
  import opened Wrappers
  import opened Categories

  /** `collecting`, then `votingN` and `resultsN` for the N-th category, then `finish`. */
  datatype Status = Collecting | Voting(category: Category) | Results(category: Category) | Finish

  /** The string the schema and the clients use for a status. */
  function StatusName(s: Status): string {
    match s
    case Collecting => "collecting"
    case Voting(Explorer) => "voting1"
    case Voting(Introspector) => "voting2"
    case Voting(Comparer) => "voting3"
    case Voting(Recommender) => "voting4"
    case Results(Explorer) => "results1"
    case Results(Introspector) => "results2"
    case Results(Comparer) => "results3"
    case Results(Recommender) => "results4"
    case Finish => "finish"
  }

  /** The status a string names, if it names one; `None` for any other string. */
  function ParseStatus(name: string): (r: Option<Status>)
    ensures r.Some? ==> StatusName(r.value) == name
  {
    if name == "collecting" then Some(Collecting)
    else if name == "voting1" then Some(Voting(Explorer))
    else if name == "results1" then Some(Results(Explorer))
    else if name == "voting2" then Some(Voting(Introspector))
    else if name == "results2" then Some(Results(Introspector))
    else if name == "voting3" then Some(Voting(Comparer))
    else if name == "results3" then Some(Results(Comparer))
    else if name == "voting4" then Some(Voting(Recommender))
    else if name == "results4" then Some(Results(Recommender))
    else if name == "finish" then Some(Finish)
    else None
  }

  /** Every status name parses back to its status, so the names are distinct. */
  lemma ParseStatusName(s: Status)
    ensures ParseStatus(StatusName(s)) == Some(s)
  {
  }

  /** The schema's order of the ten statuses. */
  const Phases: seq<Status> := [
    Collecting,
    Voting(Explorer), Results(Explorer),
    Voting(Introspector), Results(Introspector),
    Voting(Comparer), Results(Comparer),
    Voting(Recommender), Results(Recommender),
    Finish
  ]

  /** The position of a status in `Phases`: each status occurs exactly once. */
  function PhaseIndex(s: Status): (i: nat)
    ensures i < |Phases| && Phases[i] == s
    ensures forall j :: 0 <= j < |Phases| && Phases[j] == s ==> j == i
  {
    match s
    case Collecting => 0
    case Voting(c) => 2 * Round(c) - 1
    case Results(c) => 2 * Round(c)
    case Finish => 9
  }
}
