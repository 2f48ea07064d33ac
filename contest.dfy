/** Properties of one whole contest: the participant pass followed by the decay pass. */
module Contest {
  import opened Records
  import opened RatingUpdate
  import opened Decay

  /** The store's records are well formed for the countdown: play counts are never negative,
      and a player who has played has a countdown in 1..5. */
  ghost predicate CountdownsInRange(store: map<Srn, Player>)
  {
    forall s :: s in store ==>
      && store[s].timesPlayed >= 0
      && (store[s].timesPlayed > 0 ==> 1 <= store[s].lastFive <= 5)
  }

  /** A contest keeps every countdown in range: participants restart at 5 having played once
      more, and non-participants who have played take a step that stays in 1..5. */
  lemma ContestKeepsCountdowns(store: map<Srn, Player>, srnRank: map<Srn, int>, elo: Elo, snap: Snapshot)
    requires srnRank.Keys <= store.Keys
    requires CountdownsInRange(store)
    ensures CountdownsInRange(AfterDecay(AfterCompetition(store, srnRank, elo, snap), srnRank))
  {
    var mid := AfterCompetition(store, srnRank, elo, snap);
    CompetitionFrame(store, srnRank, elo, snap);
    DecayFrame(mid, srnRank);
    forall s | s in mid
      ensures mid[s].timesPlayed >= 0 && (mid[s].timesPlayed > 0 ==> 1 <= mid[s].lastFive <= 5)
    {
    }
    forall s | s in mid && s !in srnRank && mid[s].timesPlayed > 0
      ensures 1 <= Decayed(mid[s]).lastFive <= 5
    {
      CountdownStaysInRange(mid[s]);
    }
  }

  /** After a contest every participant has played at least once, with a full countdown. */
  lemma ParticipantsRestart(store: map<Srn, Player>, srnRank: map<Srn, int>, elo: Elo, snap: Snapshot)
    requires srnRank.Keys <= store.Keys
    requires CountdownsInRange(store)
    ensures forall s :: s in srnRank ==>
      && AfterDecay(AfterCompetition(store, srnRank, elo, snap), srnRank)[s].timesPlayed > 0
      && AfterDecay(AfterCompetition(store, srnRank, elo, snap), srnRank)[s].lastFive == 5
  {
    CompetitionFrame(store, srnRank, elo, snap);
    DecayFrame(AfterCompetition(store, srnRank, elo, snap), srnRank);
  }
}
