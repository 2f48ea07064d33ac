/** The contest-processing pipeline: rank file, handle join, field snapshot, participant
    updates and decay, run over one in-memory player store. */
module Processor {
  import opened Records
  import opened RankFile
  import opened HandleJoin
  import opened FieldSnapshot
  import opened RatingUpdate
  import opened Decay

  class RatingProcessor {
    /** The player store, srn to record; updated in place by the pipeline. */
    var players: map<Srn, Player>
    /** The number of participants. */
    var n: int
    /** The competition factor of the field. */
    var cf: real
    /** The participants' (rating, volatility) pairs, taken before any update. */
    var rbVbList: seq<(real, real)>
    /** The srn-to-rank map of the contest, which the pipeline builds and then drops. */
    ghost var participants: map<Srn, int>
    /** Whether the duplicate-handle condition was reported for the rank file. */
    ghost var duplicateReported: bool

    /** The snapshot the participants are processed against. */
    function Snap(): Snapshot
      reads this`n, this`cf, this`rbVbList
    {
      Snapshot(n, cf, rbVbList)
    }

    /** Runs the whole pipeline on `store` for the contest whose rank file has the lines
        `rankLines`, resolving handles registered for `contestSite`. */
    constructor (store: map<Srn, Player>, rankLines: seq<Handle>, contestSite: Site, elo: Elo)
      requires forall h :: h in rankLines ==> h in RegisteredHandles(store, contestSite)
      ensures duplicateReported <==> !Distinct(rankLines)
      ensures IsJoin(store, contestSite, Ranks(rankLines), participants)
      ensures n == |participants| == |Ranks(rankLines)|
      ensures |rbVbList| == n && multiset(rbVbList) == FieldBag(store, participants.Keys)
      ensures cf == elo.cf(Ratings(rbVbList), Volatilities(rbVbList), n)
      ensures players == AfterDecay(AfterCompetition(store, participants, elo, Snap()), participants)
    {
      players := store;
      new;
      var handleRank, duplicates := ReadContestRanks(rankLines);
      RanksWithin(rankLines, RegisteredHandles(store, contestSite));
      var joined, unassigned := CreateSrnRankDict(handleRank, contestSite);
      assert unassigned == {};
      var srnRank := joined.srnRank;
      assert IsJoin(store, contestSite, handleRank, srnRank);
      assert srnRank.Keys <= players.Keys;
      var count, factor, field := GetContestDetails(srnRank, elo);
      n, cf, rbVbList := count, factor, field;
      duplicateReported, participants := duplicates, srnRank;
      ProcessCompetition(srnRank, elo);
      DecayRatings(srnRank);
    }

    /** The parsing loop: each line gets the running counter as its rank, the counter
        starting at 1 and advancing once per line. */
    static method RankLines(lines: seq<Handle>) returns (handleRank: map<Handle, int>, rank: int)
      ensures handleRank == Ranks(lines)
      ensures rank == |lines| + 1
    {
      handleRank := map[];
      rank := 1;
      for i := 0 to |lines|
        invariant rank == i + 1
        invariant handleRank == Ranks(lines[..i])
      {
        assert lines[..i + 1][..i] == lines[..i];
        handleRank := handleRank[lines[i] := rank];
        rank := rank + 1;
      }
      assert lines[..|lines|] == lines;
    }

    /** The rank-file reader as the source writes its duplicate check: the map's size is
        compared with the counter, which ends one past the number of lines, so the
        duplicate condition is reported for every rank file. */
    static method ReadContestRanksAsWritten(lines: seq<Handle>) returns (handleRank: map<Handle, int>, duplicateReported: bool)
      ensures handleRank == Ranks(lines)
      ensures duplicateReported
    {
      var rank;
      handleRank, rank := RankLines(lines);
      RanksSize(lines);
      duplicateReported := !(|handleRank| == rank);
    }

    /** The rank-file reader with the duplicate check comparing the map's size with the
        number of lines read: the condition is reported exactly when a line repeats. */
    static method ReadContestRanks(lines: seq<Handle>) returns (handleRank: map<Handle, int>, duplicateReported: bool)
      ensures handleRank == Ranks(lines)
      ensures duplicateReported <==> !Distinct(lines)
    {
      var rank;
      handleRank, rank := RankLines(lines);
      RanksSize(lines);
      duplicateReported := !(|handleRank| == rank - 1);
    }

    /** Inverts the store's handles for the site into handle-to-srn and joins it with the
        rank map. The handles no player registers are reported; if there is any, the lookup
        of one of them fails. */
    method CreateSrnRankDict(handleRank: map<Handle, int>, contestSite: Site)
      returns (result: JoinResult, unassigned: set<Handle>)
      ensures unassigned == handleRank.Keys - RegisteredHandles(players, contestSite)
      ensures result.KeyError? <==> unassigned != {}
      ensures result.KeyError? ==> result.handle in unassigned
      ensures result.Joined? ==> IsJoin(players, contestSite, handleRank, result.srnRank)
    {
      var handleSrn := InvertHandles(contestSite);
      unassigned := handleRank.Keys - handleSrn.Keys;
      result := JoinRanks(handleRank, handleSrn, contestSite);
      if result.KeyError? {
        assert result.handle in unassigned;
      } else {
        assert unassigned == {} by {
          forall h | h in handleRank ensures h in handleSrn {
          }
        }
      }
    }

    /** The joining loop: each ranked handle is looked up in handle-to-srn and its rank is
        given to that srn; the first handle the lookup misses ends the join. */
    method JoinRanks(handleRank: map<Handle, int>, handleSrn: map<Handle, Srn>, contestSite: Site)
      returns (result: JoinResult)
      requires forall h :: h in handleSrn ==> handleSrn[h] in players && Registers(players[handleSrn[h]], contestSite, h)
      ensures result.KeyError? <==> exists h :: h in handleRank && h !in handleSrn
      ensures result.KeyError? ==> result.handle in handleRank && result.handle !in handleSrn
      ensures result.Joined? ==> IsJoin(players, contestSite, handleRank, result.srnRank)
    {
      var srnRank: map<Srn, int> := map[];
      var pending := handleRank.Keys;
      while pending != {}
        invariant pending <= handleRank.Keys
        invariant forall h :: h in handleRank && h !in pending ==> h in handleSrn && handleSrn[h] in srnRank
        invariant JoinSound(players, contestSite, handleRank, srnRank)
        invariant forall s :: s in srnRank ==> players[s].handles[contestSite] !in pending
        invariant |srnRank| + |pending| == |handleRank|
        decreases pending
      {
        var handle :| handle in pending;
        if handle !in handleSrn {
          return KeyError(handle);
        }
        var srn := handleSrn[handle];
        var rank := handleRank[handle];
        srnRank := srnRank[srn := rank];
        pending := pending - {handle};
      }
      result := Joined(srnRank);
      forall h | h in handleRank ensures exists s :: s in srnRank && s in players && Registers(players[s], contestSite, h) {
        assert Registers(players[handleSrn[h]], contestSite, h);
      }
    }

    /** The handle-to-srn half of the join: one registering player per registered handle. */
    method InvertHandles(contestSite: Site) returns (handleSrn: map<Handle, Srn>)
      ensures handleSrn.Keys == RegisteredHandles(players, contestSite)
      ensures forall h :: h in handleSrn ==> handleSrn[h] in players && Registers(players[handleSrn[h]], contestSite, h)
    {
      handleSrn := map[];
      var pending := players.Keys;
      while pending != {}
        invariant pending <= players.Keys
        invariant forall h :: h in handleSrn ==> handleSrn[h] in players && Registers(players[handleSrn[h]], contestSite, h)
        invariant forall s :: s in players && s !in pending && contestSite in players[s].handles ==>
          players[s].handles[contestSite] in handleSrn
        decreases pending
      {
        var srn :| srn in pending;
        if contestSite in players[srn].handles {
          var handle := players[srn].handles[contestSite];
          handleSrn := handleSrn[handle := srn];
        }
        pending := pending - {srn};
      }
    }

    /** Takes the field snapshot: the participant count, the competition factor of the field,
        and the participants' current (rating, volatility) pairs. */
    method GetContestDetails(srnRank: map<Srn, int>, elo: Elo)
      returns (count: int, competitionFactor: real, ratingVolList: seq<(real, real)>)
      requires srnRank.Keys <= players.Keys
      ensures count == |srnRank|
      ensures |ratingVolList| == count
      ensures multiset(ratingVolList) == FieldBag(players, srnRank.Keys)
      ensures competitionFactor == elo.cf(Ratings(ratingVolList), Volatilities(ratingVolList), count)
    {
      var ratingList: seq<real> := [];
      var volList: seq<real> := [];
      var pending := srnRank.Keys;
      while pending != {}
        invariant pending <= srnRank.Keys
        invariant |ratingList| == |volList| == |srnRank| - |pending|
        invariant multiset(Zip(ratingList, volList)) + FieldBag(players, pending) == FieldBag(players, srnRank.Keys)
        decreases pending
      {
        var srn :| srn in pending;
        var rating := players[srn].rating;
        var volatility := players[srn].volatility;
        FieldStep(players, pending, srn, ratingList, volList);
        ratingList := ratingList + [rating];
        volList := volList + [volatility];
        pending := pending - {srn};
      }
      count := |srnRank|;
      competitionFactor := elo.cf(ratingList, volList, count);
      ratingVolList := Zip(ratingList, volList);
      UnzipZip(ratingList, volList);
    }

    /** Updates one participant's record against the snapshot held in the fields. */
    method ProcessPlayer(player: Player, actualRank: int, elo: Elo) returns (updated: Player)
      ensures updated == ParticipantUpdate(player, actualRank, elo, Snap())
    {
      var oldRating := player.rating;
      var oldVolatility := player.volatility;
      var timesPlayed := player.timesPlayed;
      var oldBest := player.best;
      var (newRating, newVolatility) := elo.process(oldRating, oldVolatility, timesPlayed, actualRank, rbVbList, n, cf);
      updated := player.(rating := newRating, volatility := newVolatility, timesPlayed := timesPlayed + 1);
      updated := updated.(best := if newRating > oldBest then newRating else oldBest, lastFive := 5);
    }

    /** The participant pass: every participant's record is replaced by its update, each
        computed against the same snapshot; only the store changes. */
    method ProcessCompetition(srnRank: map<Srn, int>, elo: Elo)
      requires srnRank.Keys <= players.Keys
      modifies this`players
      ensures players == AfterCompetition(old(players), srnRank, elo, Snap())
    {
      var pending := srnRank.Keys;
      while pending != {}
        invariant pending <= srnRank.Keys
        invariant players == PartlyProcessed(old(players), srnRank.Keys - pending, srnRank, elo, Snap())
        decreases pending
      {
        var srn :| srn in pending;
        var actualRank := srnRank[srn];
        var player := players[srn];
        player := ProcessPlayer(player, actualRank, elo);
        players := players[srn := player];
        pending := pending - {srn};
      }
    }

    /** The decay pass: every record not in the contest takes one countdown step; only the
        store changes. */
    method DecayRatings(srnRank: map<Srn, int>)
      modifies this`players
      ensures players == AfterDecay(old(players), srnRank)
    {
      var pending := players.Keys;
      while pending != {}
        invariant pending <= players.Keys == old(players).Keys
        invariant players == PartlyDecayed(old(players), old(players).Keys - pending, srnRank)
        decreases pending
      {
        var srn :| srn in pending;
        if srn !in srnRank {
          var rating := players[srn].rating;
          var timesPlayed := players[srn].timesPlayed;
          var lastFive := players[srn].lastFive - 1;
          if lastFive == 0 && timesPlayed > 0 {
            rating := rating * 0.9;
            lastFive := 5;
          }
          players := players[srn := players[srn].(rating := rating, lastFive := lastFive)];
        }
        pending := pending - {srn};
      }
    }
  }
}
