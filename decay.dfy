/** The inactivity countdown of players who skip a contest, and the rating decay it triggers. */
module Decay {
  import opened Records

  /** A non-participant's record after one contest: the countdown drops by one; when it
      reaches 0 for a player who has played before, the rating is multiplied by 0.9 and the
      countdown restarts at 5. */
  function Decayed(p: Player): Player
  {
    var lastFive := p.lastFive - 1;
    if lastFive == 0 && p.timesPlayed > 0 then p.(rating := p.rating * 0.9, lastFive := 5)
    else p.(lastFive := lastFive)
  }

  /** One step of the countdown, field by field: the countdown drops by one unless the decay
      fires, the rating changes only when the decay fires, and nothing else changes. */
  lemma DecayTransition(p: Player)
    ensures Decayed(p).handles == p.handles && Decayed(p).volatility == p.volatility
    ensures Decayed(p).timesPlayed == p.timesPlayed && Decayed(p).best == p.best
    ensures p.lastFive == 1 && p.timesPlayed > 0 ==> Decayed(p).rating == p.rating * 0.9 && Decayed(p).lastFive == 5
    ensures !(p.lastFive == 1 && p.timesPlayed > 0) ==> Decayed(p).rating == p.rating && Decayed(p).lastFive == p.lastFive - 1
  {
  }

  /** The store once the non-participants in `done` have been through one countdown step. */
  function PartlyDecayed(store: map<Srn, Player>, done: set<Srn>, srnRank: map<Srn, int>): map<Srn, Player>
  {
    map s | s in store :: if s in done && s !in srnRank then Decayed(store[s]) else store[s]
  }

  /** The store after the decay pass: every non-participant stepped once, participants untouched. */
  function AfterDecay(store: map<Srn, Player>, srnRank: map<Srn, int>): map<Srn, Player>
  {
    PartlyDecayed(store, store.Keys, srnRank)
  }

  /** What the decay pass does to the store: the key set stays, participants are untouched, and
      no record's play count changes. */
  lemma DecayFrame(store: map<Srn, Player>, srnRank: map<Srn, int>)
    ensures AfterDecay(store, srnRank).Keys == store.Keys
    ensures forall s :: s in store && s in srnRank ==> AfterDecay(store, srnRank)[s] == store[s]
    ensures forall s :: s in store && s !in srnRank ==> AfterDecay(store, srnRank)[s] == Decayed(store[s])
    ensures forall s :: s in store ==> AfterDecay(store, srnRank)[s].timesPlayed == store[s].timesPlayed
  {
  }

  /** A player who has played and whose countdown is in 1..5 keeps it in 1..5 on a skip. */
  lemma CountdownStaysInRange(p: Player)
    requires p.timesPlayed > 0 && 1 <= p.lastFive <= 5
    ensures 1 <= Decayed(p).lastFive <= 5
  {
  }

  /** x to the power k. */
  function Pow(x: real, k: nat): real
  {
    if k == 0 then 1.0 else x * Pow(x, k - 1)
  }

  /** The record after skipping k contests in a row. */
  function Skip(p: Player, k: nat): Player
  {
    if k == 0 then p else Decayed(Skip(p, k - 1))
  }

  /** A player who has never played is never decayed, however many contests it skips, and its
      countdown goes down by one on each of them with no lower bound. */
  lemma {:induction false} SkipNeverPlayed(p: Player, k: nat)
    requires p.timesPlayed == 0
    ensures Skip(p, k).rating == p.rating
    ensures Skip(p, k).lastFive == p.lastFive - k
    ensures Skip(p, k).timesPlayed == 0
  {
    if k > 0 {
      SkipNeverPlayed(p, k - 1);
    }
  }

  /** A player who has played, with countdown L in 1..5, skipping k contests in a row: the
      decay fires after the L-th skip and then after every fifth one, so the rating has been
      multiplied by 0.9 once per firing, and the countdown stays in 1..5. */
  lemma {:induction false} SkipPlayed(p: Player, k: nat)
    requires p.timesPlayed > 0 && 1 <= p.lastFive <= 5
    ensures Skip(p, k).rating == p.rating * Pow(0.9, (k + 5 - p.lastFive) / 5)
    ensures Skip(p, k).lastFive == 5 - (k + 5 - p.lastFive) % 5
    ensures 1 <= Skip(p, k).lastFive <= 5
    ensures Skip(p, k).timesPlayed == p.timesPlayed
  {
    if k > 0 {
      SkipPlayed(p, k - 1);
      var m := k - 1 + 5 - p.lastFive;
      DivModStep(m);
      var q := Skip(p, k - 1);
      if m % 5 == 4 {
        assert q.lastFive == 1;
        calc {
          Skip(p, k).rating;
          q.rating * 0.9;
          p.rating * Pow(0.9, m / 5) * 0.9;
          p.rating * Pow(0.9, m / 5 + 1);
        }
      }
    }
  }

  /** How the floor quotient and remainder by 5 move when the dividend grows by one. */
  lemma DivModStep(m: nat)
    ensures m % 5 == 4 ==> (m + 1) / 5 == m / 5 + 1 && (m + 1) % 5 == 0
    ensures m % 5 != 4 ==> (m + 1) / 5 == m / 5 && (m + 1) % 5 == m % 5 + 1
  {
    var q, r := m / 5, m % 5;
    assert m == 5 * q + r;
    if r == 4 {
      assert m + 1 == 5 * (q + 1) + 0;
    } else {
      assert m + 1 == 5 * q + (r + 1);
    }
  }
}
