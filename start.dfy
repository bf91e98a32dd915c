/**
 * The moderator's page: the phase taken from the route, the phase each
 * advance button posts, the countdown, and which category the results
 * and vote-summary requests of a phase are for.
 */
module Start {
  import opened Wrappers
  import opened Text
  import opened Categories
  import opened Status

  /** The page's list of phases. */
  const PHASES: seq<string> := [
    "collecting", "voting1", "results1", "voting2", "results2",
    "voting3", "results3", "voting4", "results4", "finish"
  ]

  /** The page's list is the schema's enumeration, in the same order. */
  lemma PhasesMatchSchema()
    ensures |PHASES| == |Phases|
    ensures forall i :: 0 <= i < |PHASES| ==> PHASES[i] == StatusName(Phases[i])
  {
  }

  /** The route's phase if it is one of `PHASES`, else `collecting`; an absent route phase gives `collecting`. */
  function NormalizedPhase(route: Option<string>): (p: Status)
    ensures route.Some? && route.value in PHASES ==> StatusName(p) == route.value
    ensures !(route.Some? && route.value in PHASES) ==> p == Collecting
  {
    if route.Some? && route.value in PHASES then
      match ParseStatus(route.value)
      case Some(p) => p
      case None => Collecting
    else Collecting
  }

  /** Navigating to a phase's own route gives back that phase. */
  lemma NormalizedPhaseRoundTrip(p: Status)
    ensures NormalizedPhase(Some(StatusName(p))) == p
  {
    PhasesMatchSchema();
    assert StatusName(p) == PHASES[PhaseIndex(p)];
    ParseStatusName(p);
  }

  /** The status the advance button of phase `p` posts; `finish` has no such button. */
  function AdvanceTarget(p: Status): (next: Option<Status>)
    ensures next == None <==> p == Finish
    ensures next.Some? ==> PhaseIndex(next.value) == PhaseIndex(p) + 1
  {
    match p
    case Collecting => Some(Voting(Explorer))
    case Voting(c) => Some(Results(c))
    case Results(Explorer) => Some(Voting(Introspector))
    case Results(Introspector) => Some(Voting(Comparer))
    case Results(Comparer) => Some(Voting(Recommender))
    case Results(Recommender) => Some(Finish)
    case Finish => None
  }

  /** The category whose results the page loads in phase `p`, if any. */
  function ResultsCategory(p: Status): (c: Option<Category>)
    ensures c == if p.Results? then Some(p.category) else None
  {
    var name := StatusName(p);
    if name in ["results1", "results2", "results3", "results4"] then
      Some(if name == "results1" then Explorer
           else if name == "results2" then Introspector
           else if name == "results3" then Comparer
           else Recommender)
    else None
  }

  /** The category whose vote summary the page polls in phase `p`, if any. */
  function SummaryCategory(p: Status): (c: Option<Category>)
    ensures c == if p.Voting? then Some(p.category) else None
  {
    var name := StatusName(p);
    if name in ["voting1", "voting2", "voting3", "voting4"] then
      Some(if name == "voting1" then Explorer
           else if name == "voting2" then Introspector
           else if name == "voting3" then Comparer
           else Recommender)
    else None
  }

  /** The countdown is shown in every phase but the results phases and `finish`. */
  function ShowsCountdown(p: Status): (shown: bool)
    ensures shown <==> p == Collecting || p.Voting?
  {
    !(StatusName(p) in ["results1", "results2", "results3", "results4", "finish"])
  }

  /** The countdown's starting value, in seconds. */
  const CountdownStart: int := 120

  /**
   * One second of the countdown: it never goes negative, never drops by more
   * than one second, and stands still only once it has reached zero.
   */
  function CountdownTick(secondsLeft: int): (r: int)
    ensures 0 <= r && secondsLeft - 1 <= r
    ensures secondsLeft >= 0 ==> r <= secondsLeft && (r == secondsLeft <==> secondsLeft == 0)
  {
    if secondsLeft > 0 then secondsLeft - 1 else 0
  }

  /** `n` seconds of the countdown: from a value in range it stays between zero and that value. */
  function Ticks(secondsLeft: int, n: nat): (r: int)
    ensures n > 0 ==> 0 <= r
    ensures secondsLeft >= 0 ==> 0 <= r <= secondsLeft
  {
    if n == 0 then secondsLeft else CountdownTick(Ticks(secondsLeft, n - 1))
  }

  /** After `n` ticks the countdown has gone down by `n`, but not below zero. */
  lemma {:induction false} TicksStopAtZero(secondsLeft: int, n: nat)
    requires secondsLeft >= 0
    ensures Ticks(secondsLeft, n) == if secondsLeft >= n then secondsLeft - n else 0
  {
    if n > 0 {
      TicksStopAtZero(secondsLeft, n - 1);
    }
  }

  /** The minutes and the seconds shown for `secondsLeft`. */
  function MinutesSeconds(secondsLeft: nat): (r: (nat, nat))
    ensures r.0 * 60 + r.1 == secondsLeft && r.1 < 60
  {
    (secondsLeft / 60, secondsLeft % 60)
  }

  /** The countdown text `minutes:ss`. */
  function CountdownText(secondsLeft: nat): (text: string)
    ensures |text| >= 4 && text[|text| - 3] == ':'
    ensures IsDigits(text[..|text| - 3]) && IsDigits(text[|text| - 2..])
    ensures 60 * DecimalValue(text[..|text| - 3]) + DecimalValue(text[|text| - 2..]) == secondsLeft
  {
    var (minutes, seconds) := MinutesSeconds(secondsLeft);
    var m := DecimalString(minutes);
    var s := PadTwo(DecimalString(seconds));
    TwoDigits(seconds);
    DecimalRoundTrip(minutes);
    var text := m + ":" + s;
    assert text[..|text| - 3] == m && text[|text| - 2..] == s;
    text
  }

  /** The moderator page's phase and countdown. */
  class ModeratorView {
    var quizId: string
    var phase: Status
    var secondsLeft: int

    ghost predicate Valid()
      reads this
    {
      0 <= secondsLeft <= CountdownStart
    }

    constructor (quizId: string, route: Option<string>)
      ensures Valid() && this.quizId == quizId && phase == NormalizedPhase(route) && secondsLeft == CountdownStart
    {
      this.quizId := quizId;
      phase := NormalizedPhase(route);
      secondsLeft := CountdownStart;
    }

    /** The one-second interval. */
    method Tick()
      requires Valid()
      modifies this
      ensures Valid() && secondsLeft == CountdownTick(old(secondsLeft))
      ensures quizId == old(quizId) && phase == old(phase)
    {
      secondsLeft := if secondsLeft > 0 then secondsLeft - 1 else 0;
    }

    /** `setPhaseAndNavigate`, with the effect that restarts the countdown on entering a voting phase. */
    method SetPhase(next: Status)
      requires Valid()
      modifies this
      ensures Valid() && phase == next && quizId == old(quizId)
      ensures secondsLeft == if next != old(phase) && next.Voting? then CountdownStart else old(secondsLeft)
    {
      var previous := phase;
      phase := next;
      if next != previous && next.Voting? {
        secondsLeft := CountdownStart;
      }
    }

    /**
     * A click on the phase's advance button: posts the next status, and
     * moves to it when the server accepted it. Without a quiz id the button
     * is disabled and nothing is posted.
     */
    method Advance(accepted: bool) returns (posted: Option<Status>)
      requires Valid()
      modifies this
      ensures Valid() && quizId == old(quizId)
      ensures posted == if quizId == "" then None else AdvanceTarget(old(phase))
      ensures phase == if posted.Some? && accepted then posted.value else old(phase)
      ensures secondsLeft == if posted.Some? && accepted && posted.value.Voting? then CountdownStart else old(secondsLeft)
    {
      posted := if quizId == "" then None else AdvanceTarget(phase);
      if posted.Some? && accepted {
        SetPhase(posted.value);
      }
    }
  }
}
