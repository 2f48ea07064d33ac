/** Entities shared by every stage of the contest-processing pipeline. */
module Records {

  /** Stable player identifier: the key of the player store. */
  type Srn = string

  /** Name of a contest site, the key under which a player registers a handle. */
  type Site = string

  /** A per-site display identifier. In a rank file it is a whole line, taken verbatim,
      so a trailing newline is part of it. */
  type Handle = string

  /** One stored player record. In the store a record is a single dictionary that holds
      the site handles next to the numeric fields; here the handles are a map of their own. */
  datatype Player = Player(
    handles: map<Site, Handle>,
    rating: real,
    volatility: real,
    timesPlayed: int,
    best: real,
    lastFive: int)

  /** The two entry points of the rating-mathematics module, as opaque pure functions:
      `cf(ratings, volatilities, n)` is the competition factor, and
      `process(rating, volatility, timesPlayed, rank, field, n, cf)` the new (rating, volatility). */
  datatype Elo = Elo(
    cf: (seq<real>, seq<real>, int) -> real,
    process: (real, real, int, int, seq<(real, real)>, int, real) -> (real, real))

  /** The field snapshot one contest is processed against: the participant count, the
      competition factor and the participants' (rating, volatility) pairs. */
  datatype Snapshot = Snapshot(n: int, cf: real, field: seq<(real, real)>)

  /** The pair a participant contributes to the field snapshot. */
  function RatingVol(p: Player): (real, real)
  {
    (p.rating, p.volatility)
  }

  /** No element occurs twice. */
  predicate Distinct<T(==)>(s: seq<T>)
  {
    forall i, j :: 0 <= i < j < |s| ==> s[i] != s[j]
  }
}
