/**
 * The four fixed answer/vote categories. Every per-category field of the
 * quiz (answers, vote lists, client selections and flags) is a
 * `PerCategory` value, so each per-category handler is written once.
 */
module Categories {

  datatype Category = Explorer | Introspector | Comparer | Recommender

  /** The voting round (1..4) in which a category is voted on. */
  function Round(c: Category): (n: nat)
    ensures 1 <= n <= 4
  {
    match c
    case Explorer => 1
    case Introspector => 2
    case Comparer => 3
    case Recommender => 4
  }

  /** One value per category. */
  datatype PerCategory<T> = PerCategory(explorer: T, introspector: T, comparer: T, recommender: T) {

    function Get(c: Category): T {
      match c
      case Explorer => explorer
      case Introspector => introspector
      case Comparer => comparer
      case Recommender => recommender
    }

    /** Replaces the value of one category and keeps the other three. */
    function Set(c: Category, v: T): (r: PerCategory<T>)
      ensures r.Get(c) == v
      ensures forall d :: d != c ==> r.Get(d) == Get(d)
    {
      match c
      case Explorer => this.(explorer := v)
      case Introspector => this.(introspector := v)
      case Comparer => this.(comparer := v)
      case Recommender => this.(recommender := v)
    }
  }

  /** The same value for every category. */
  function Uniform<T>(v: T): (r: PerCategory<T>)
    ensures forall c :: r.Get(c) == v
  {
    PerCategory(v, v, v, v)
  }
}
