/** Updating every participant against the one field snapshot of the contest. */
module RatingUpdate {
  import opened Records

  /** A participant's record after the contest: rating and volatility from the rating
      algorithm, one more contest played, the best rating raised to the new rating when it
      is higher, and the inactivity countdown reset to 5. */
  function ParticipantUpdate(p: Player, actualRank: int, elo: Elo, snap: Snapshot): (r: Player)
    ensures (r.rating, r.volatility)
         == elo.process(p.rating, p.volatility, p.timesPlayed, actualRank, snap.field, snap.n, snap.cf)
    ensures r.best >= r.rating && r.best >= p.best && (r.best == p.best || r.best == r.rating)
    ensures r.timesPlayed == p.timesPlayed + 1
    ensures r.lastFive == 5
    ensures r.handles == p.handles
  {
    var (newRating, newVolatility) :=
      elo.process(p.rating, p.volatility, p.timesPlayed, actualRank, snap.field, snap.n, snap.cf);
    p.(rating := newRating,
       volatility := newVolatility,
       timesPlayed := p.timesPlayed + 1,
       best := if newRating > p.best then newRating else p.best,
       lastFive := 5)
  }

  /** The store once the participants in `done` have been updated and no one else. */
  function PartlyProcessed(store: map<Srn, Player>, done: set<Srn>, srnRank: map<Srn, int>, elo: Elo, snap: Snapshot)
    : map<Srn, Player>
    requires done <= srnRank.Keys
  {
    map s | s in store :: if s in done then ParticipantUpdate(store[s], srnRank[s], elo, snap) else store[s]
  }

  /** The store after the participant pass: every participant updated once, against snap. */
  function AfterCompetition(store: map<Srn, Player>, srnRank: map<Srn, int>, elo: Elo, snap: Snapshot): map<Srn, Player>
  {
    PartlyProcessed(store, srnRank.Keys, srnRank, elo, snap)
  }

  /** What the participant pass does to the store: the key set stays, each participant gets
      its rank's update computed from its own old record and the shared snapshot, and every
      other record is left as it was. */
  lemma CompetitionFrame(store: map<Srn, Player>, srnRank: map<Srn, int>, elo: Elo, snap: Snapshot)
    requires srnRank.Keys <= store.Keys
    ensures AfterCompetition(store, srnRank, elo, snap).Keys == store.Keys
    ensures forall s :: s in srnRank ==>
      AfterCompetition(store, srnRank, elo, snap)[s] == ParticipantUpdate(store[s], srnRank[s], elo, snap)
    ensures forall s :: s in store && s !in srnRank ==> AfterCompetition(store, srnRank, elo, snap)[s] == store[s]
  {
  }

  /** The participant loop run in one given order: each srn of `order` is updated in turn,
      reading its record from the store as the earlier steps left it. */
  function ApplyInOrder(store: map<Srn, Player>, order: seq<Srn>, srnRank: map<Srn, int>, elo: Elo, snap: Snapshot)
    : map<Srn, Player>
    requires forall s :: s in order ==> s in store && s in srnRank
    decreases |order|
  {
    if order == [] then store
    else
      var s := order[0];
      ApplyInOrder(store[s := ParticipantUpdate(store[s], srnRank[s], elo, snap)], order[1..], srnRank, elo, snap)
  }

  /** Running the loop over distinct participants in any order updates each of them exactly
      once, from its record as it was before the loop. */
  lemma {:induction false} ApplyInOrderUpdatesEachOnce(
    store: map<Srn, Player>, order: seq<Srn>, srnRank: map<Srn, int>, elo: Elo, snap: Snapshot)
    requires forall s :: s in order ==> s in store && s in srnRank
    requires Distinct(order)
    ensures ApplyInOrder(store, order, srnRank, elo, snap)
         == PartlyProcessed(store, (set s | s in order), srnRank, elo, snap)
    decreases |order|
  {
    if order != [] {
      var s, rest := order[0], order[1..];
      var store' := store[s := ParticipantUpdate(store[s], srnRank[s], elo, snap)];
      assert Distinct(rest) by {
        forall i, j | 0 <= i < j < |rest| ensures rest[i] != rest[j] {
          assert rest[i] == order[i + 1] && rest[j] == order[j + 1];
        }
      }
      assert s !in rest by {
        forall j | 0 <= j < |rest| ensures rest[j] != s {
          assert rest[j] == order[j + 1];
        }
      }
      ApplyInOrderUpdatesEachOnce(store', rest, srnRank, elo, snap);
      assert (set x | x in order) == (set x | x in rest) + {s};
    }
  }

  /** Order independence: two runs of the loop over any two enumerations of the participants
      end in the same store, the one the participant pass describes. */
  lemma OrderIndependent(
    store: map<Srn, Player>, order1: seq<Srn>, order2: seq<Srn>, srnRank: map<Srn, int>, elo: Elo, snap: Snapshot)
    requires srnRank.Keys <= store.Keys
    requires Distinct(order1) && (set s | s in order1) == srnRank.Keys
    requires Distinct(order2) && (set s | s in order2) == srnRank.Keys
    ensures ApplyInOrder(store, order1, srnRank, elo, snap) == AfterCompetition(store, srnRank, elo, snap)
    ensures ApplyInOrder(store, order1, srnRank, elo, snap) == ApplyInOrder(store, order2, srnRank, elo, snap)
  {
    ApplyInOrderUpdatesEachOnce(store, order1, srnRank, elo, snap);
    ApplyInOrderUpdatesEachOnce(store, order2, srnRank, elo, snap);
  }
}
