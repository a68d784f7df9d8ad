/** Who keeps a game open and who wins it, told from roles, factions and role states
    (packages/game-engine/src/resolution/victory.ts, roles/). */
module Verdicts {
  import opened Wrappers
  import opened Roles
  import opened Sorting
  import opened GameState
  import opened Victory

  // ---- The lovers ----

  /** The lovers are the pair the cupid has bonded, alive or dead. */
  lemma TheLoversAre(s: GameState, cupid: UserId)
    requires WellFormed(s) && cupid in s.players && s.players[cupid].role == Some(Cupid)
    requires forall u :: u in s.players && s.players[u].role == Some(Cupid) ==> u == cupid
    ensures s.players[cupid].roleState.Linked? ==> LinkPair(s) == s.players[cupid].roleState.pair
    ensures !s.players[cupid].roleState.Linked? ==> LinkPair(s) == None
  {
    var i :| 0 <= i < |s.roster| && s.roster[i] == cupid;
  }

  lemma NobodyIsBonded(s: GameState)
    requires forall u :: u in s.players ==> s.players[u].role != Some(Cupid)
    ensures LinkPair(s) == None
  {
  }

  /** Each of the two is the other's partner, and nobody else has one. */
  lemma PartnersAre(s: GameState, u: UserId, v: UserId)
    ensures PartnerIn(LinkPair(s), u) == Some(v) ==> LinkPair(s) == Some((u, v)) || LinkPair(s) == Some((v, u))
    ensures LinkPair(s) == Some((u, v)) && u != v ==> PartnerIn(LinkPair(s), u) == Some(v) && PartnerIn(LinkPair(s), v) == Some(u)
  {
    hide LinkPair;
  }

  /** Two living players stand together directly exactly when they are of one faction or
      bonded to each other. */
  lemma WhoStandsTogether(s: GameState, u: UserId, v: UserId)
    requires IsAlive(s, u) && IsAlive(s, v)
    ensures SameBloc(s, LinkPair(s), u, v) <==>
            s.players[u].faction == s.players[v].faction || LinkPair(s) == Some((u, v)) || LinkPair(s) == Some((v, u))
    ensures SameBloc(s, LinkPair(s), u, v) ==> Connected(s, u, v) && Connected(s, v, u)
  {
    hide LinkPair;
    if SameBloc(s, LinkPair(s), u, v) {
      assert Path(s, [u, v]) && Path(s, [v, u]);
      assert [u, v][0] == u && [u, v][|[u, v]| - 1] == v;
      assert [v, u][0] == v && [v, u][|[v, u]| - 1] == u;
    }
  }

  // ---- Who keeps the game open ----

  /** A living player who can still turn the game around. */
  predicate HoldsOut(s: GameState, u: UserId) {
    && IsAlive(s, u)
    && var p := s.players[u];
       || p.role == Some(Hunter) || p.role == Some(SerialKiller) || p.role == Some(Werewolf) || p.role == Some(CultLeader)
       || (p.role == Some(Mayor) && p.roleState.MayorState? && !p.roleState.used)
  }

  ghost predicate NobodyHoldsOut(s: GameState, bloc: set<UserId>) { forall u :: u in bloc ==> !HoldsOut(s, u) }

  /** A bloc is doomed exactly when nobody in it holds out and either another bloc has
      at least half of the living, or there is no other and none of them is of the village. */
  lemma DoomedExactlyWhen(s: GameState, bloc: set<UserId>)
    requires bloc in Blocs(s)
    ensures Doomed(s, bloc) <==>
            && NobodyHoldsOut(s, bloc)
            && ((exists other :: other in Blocs(s) && other != bloc && 2 * |other| >= |Living(s)|)
                || (Blocs(s) == {bloc} && forall u :: u in bloc && u in s.players ==> s.players[u].faction != Some(VillageFaction)))
  {
    hide Blocs, Living;
    BlocsAreDisjoint(s, bloc, bloc);
    ContestersHoldOut(s, bloc);
    if exists other :: other in Blocs(s) && other != bloc && 2 * |other| >= |Living(s)| {
      var other :| other in Blocs(s) && other != bloc && 2 * |other| >= |Living(s)|;
      assert Outnumbers(s, other);
    }
  }

  lemma ContestersHoldOut(s: GameState, bloc: set<UserId>)
    requires bloc <= Living(s)
    ensures HasContester(s, bloc) <==> !NobodyHoldsOut(s, bloc)
    ensures bloc <= s.players.Keys
  {
  }

  lemma InSomeBloc(s: GameState, u: UserId)
    requires IsAlive(s, u)
    ensures Bloc(s, u) in Blocs(s) && u in Bloc(s, u)
  {
    assert u in Living(s);
  }

  /** A bloc with somebody who holds out is not doomed. */
  lemma HoldingOutIsNotDoom(s: GameState, u: UserId)
    requires HoldsOut(s, u)
    ensures Bloc(s, u) in Undoomed(s) && u in Bloc(s, u)
  {
    hide Blocs, Bloc, HoldsOut;
    assert IsAlive(s, u) by { HoldersLive(s, u); }
    InSomeBloc(s, u);
    DoomedExactlyWhen(s, Bloc(s, u));
  }

  lemma HoldersLive(s: GameState, u: UserId)
    requires HoldsOut(s, u)
    ensures IsAlive(s, u)
  {
  }

  /** Main result. No faction wins against a living hunter, serial killer, werewolf,
      cult leader or mayor with the power unused: they are all in the one bloc that has
      a member of the winning faction. */
  lemma NobodyIsWonOver(s: GameState, w: VictoryResult, u: UserId)
    requires CheckVictory(s) == Some(w) && w.faction.Some? && HoldsOut(s, u)
    ensures Undoomed(s) == {Bloc(s, u)} && u in Bloc(s, u)
    ensures exists v :: Connected(s, u, v) && v in s.players && s.players[v].faction == w.faction
    ensures forall v :: HoldsOut(s, v) ==> Connected(s, u, v)
  {
    hide Blocs, Bloc, HoldsOut, Undoomed, Connected, CheckVictory;
    HoldingOutIsNotDoom(s, u);
    WinnersComeFromOneBloc(s, w);
    var b :| Undoomed(s) == {b} && HasFaction(s, b, w.faction.value) && b in Blocs(s);
    assert b == Bloc(s, u);
    var v :| v in b && v in s.players && s.players[v].faction == w.faction;
    HoldersLive(s, u);
    BlocIsComponent(s, u, v);
    forall v | HoldsOut(s, v) ensures Connected(s, u, v) {
      HoldingOutIsNotDoom(s, v);
      assert Bloc(s, v) == Bloc(s, u);
      BlocIsComponent(s, u, v);
    }
  }

  lemma BlocIsComponent(s: GameState, u: UserId, v: UserId)
    requires IsAlive(s, u) && v in Bloc(s, u)
    ensures Connected(s, u, v)
  {
    BlocsAreComponents(s, u, v);
  }

  /** Two of them who are not connected keep the game open until the night limit, and
      one of them alone keeps it from being drawn. */
  lemma TheyKeepItOpen(s: GameState, u: UserId, v: UserId)
    requires HoldsOut(s, u) && HoldsOut(s, v) && s.nightsWithoutElimination < STALEMATE_NIGHTS
    ensures CheckVictory(s).Some? ==> CheckVictory(s).value.faction.Some?
    ensures !Connected(s, u, v) ==> CheckVictory(s).None?
  {
    hide Blocs, Bloc, HoldsOut, Undoomed, Connected, WinningFaction;
    HoldingOutIsNotDoom(s, u);
    HoldersLive(s, u);
    assert u in Living(s);
    assert |Undoomed(s)| != 0;
    if CheckVictory(s).Some? && CheckVictory(s).value.faction.Some? { NobodyIsWonOver(s, CheckVictory(s).value, u); }
  }

  // ---- Who wins ----

  ghost predicate HasMember(s: GameState, bloc: set<UserId>, f: FactionId) {
    exists u :: u in bloc && u in s.players && s.players[u].faction == Some(f)
  }

  /** The verdict, in full: with nobody alive nobody wins; a single bloc not doomed wins
      for its serial killer, else its wolves, else its cult, else its village; otherwise
      the game is drawn once every bloc is doomed or five nights have been quiet. */
  lemma TheVerdict(s: GameState, bloc: set<UserId>)
    ensures Living(s) == {} ==> CheckVictory(s) == Some(VictoryResult(None, {}, NoSurvivors))
    ensures Living(s) != {} && Undoomed(s) == {bloc} ==>
              if HasMember(s, bloc, SerialKillerFaction) then Wins(s, SerialKillerFaction, SerialKillerWins)
              else if HasMember(s, bloc, WolvesFaction) then Wins(s, WolvesFaction, WolvesWin)
              else if HasMember(s, bloc, CultFaction) then Wins(s, CultFaction, CultWins)
              else if HasMember(s, bloc, VillageFaction) then Wins(s, VillageFaction, VillageWins)
              else NobodyWins(s)
    ensures Living(s) != {} && |Undoomed(s)| != 1 ==> NobodyWins(s)
  {
    hide Undoomed, Living;
  }

  predicate NobodyWins(s: GameState) {
    CheckVictory(s) == if Undoomed(s) == {} || s.nightsWithoutElimination >= 5 then Some(VictoryResult(None, {}, Stalemate)) else None
  }

  predicate Wins(s: GameState, f: FactionId, reason: VictoryReason) {
    CheckVictory(s).Some? && CheckVictory(s).value.faction == Some(f) && CheckVictory(s).value.reason == reason
  }
}
