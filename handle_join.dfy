/** Resolving rank-file handles to players through the handles the players register per site. */
module HandleJoin {
  import opened Records

  /** Player p registers handle h for the site. */
  predicate Registers(p: Player, site: Site, h: Handle)
  {
    site in p.handles && p.handles[site] == h
  }

  /** Every handle some stored player registers for the site. */
  function RegisteredHandles(store: map<Srn, Player>, site: Site): set<Handle>
  {
    set s | s in store && site in store[s].handles :: store[s].handles[site]
  }

  /** The outcome of the join: the player-to-rank map, or the first handle the lookup of
      the handle-to-player map did not find. */
  datatype JoinResult = Joined(srnRank: map<Srn, int>) | KeyError(handle: Handle)

  /** Each key of srnRank is a stored player whose site handle is ranked, and it carries
      exactly that handle's rank. */
  ghost predicate JoinSound(store: map<Srn, Player>, site: Site, handleRank: map<Handle, int>, srnRank: map<Srn, int>)
  {
    forall s :: s in srnRank ==>
      && s in store
      && site in store[s].handles
      && store[s].handles[site] in handleRank
      && srnRank[s] == handleRank[store[s].handles[site]]
  }

  /** Every ranked handle is carried by some key of srnRank. */
  ghost predicate JoinComplete(store: map<Srn, Player>, site: Site, handleRank: map<Handle, int>, srnRank: map<Srn, int>)
  {
    forall h :: h in handleRank ==> exists s :: s in srnRank && s in store && Registers(store[s], site, h)
  }

  /** srnRank joins handleRank with the store's handles for the site: it is sound and
      complete, and it has as many keys as there are ranked handles, so no two keys share a
      handle and no rank is renumbered. */
  ghost predicate IsJoin(store: map<Srn, Player>, site: Site, handleRank: map<Handle, int>, srnRank: map<Srn, int>)
  {
    && JoinSound(store, site, handleRank, srnRank)
    && JoinComplete(store, site, handleRank, srnRank)
    && |srnRank| == |handleRank|
  }

  /** No two stored players register the same handle for the site. */
  ghost predicate UniqueSiteHandles(store: map<Srn, Player>, site: Site)
  {
    forall s, t :: s in store && t in store && s != t && site in store[s].handles && site in store[t].handles ==>
      store[s].handles[site] != store[t].handles[site]
  }

  /** The players whose site handle is ranked, each with that handle's rank. */
  ghost function RankedPlayers(store: map<Srn, Player>, site: Site, handleRank: map<Handle, int>): map<Srn, int>
  {
    map s | s in store && site in store[s].handles && store[s].handles[site] in handleRank
      :: handleRank[store[s].handles[site]]
  }

  /** A ranked handle names a participant (the last clause of IsJoin, as a lemma). */
  lemma JoinCovers(store: map<Srn, Player>, site: Site, handleRank: map<Handle, int>, srnRank: map<Srn, int>, h: Handle)
    requires JoinComplete(store, site, handleRank, srnRank)
    requires h in handleRank
    ensures exists t :: t in srnRank && t in store && Registers(store[t], site, h)
  {
  }

  /** With unique site handles, a stored player whose site handle is ranked takes part. */
  lemma RankedPlayerJoins(store: map<Srn, Player>, site: Site, handleRank: map<Handle, int>, srnRank: map<Srn, int>, s: Srn)
    requires UniqueSiteHandles(store, site)
    requires JoinComplete(store, site, handleRank, srnRank)
    requires s in store && site in store[s].handles && store[s].handles[site] in handleRank
    ensures s in srnRank
  {
    var h := store[s].handles[site];
    JoinCovers(store, site, handleRank, srnRank, h);
    var t :| t in srnRank && t in store && Registers(store[t], site, h);
  }

  /** With unique site handles, the participants are exactly the stored players whose site
      handle is ranked. */
  lemma JoinParticipants(store: map<Srn, Player>, site: Site, handleRank: map<Handle, int>, srnRank: map<Srn, int>)
    requires UniqueSiteHandles(store, site)
    requires JoinSound(store, site, handleRank, srnRank)
    requires JoinComplete(store, site, handleRank, srnRank)
    ensures srnRank.Keys == RankedPlayers(store, site, handleRank).Keys
  {
    forall s | s in RankedPlayers(store, site, handleRank) ensures s in srnRank {
      RankedPlayerJoins(store, site, handleRank, srnRank, s);
    }
  }

  /** When site handles are unique, the join is determined: every stored player whose site
      handle is ranked takes part, with that handle's rank, and nobody else does. */
  lemma JoinDetermined(store: map<Srn, Player>, site: Site, handleRank: map<Handle, int>, srnRank: map<Srn, int>)
    requires UniqueSiteHandles(store, site)
    requires IsJoin(store, site, handleRank, srnRank)
    ensures srnRank == RankedPlayers(store, site, handleRank)
  {
    JoinParticipants(store, site, handleRank, srnRank);
  }
}
