/** The lover bond, the blocs of the living and the end of the game
    (packages/game-engine/src/resolution/link.ts, victory.ts). */
module Victory {
  import opened Wrappers
  import opened Sorting
  import opened Roles
  import opened Slices
  import opened GameState

  const STALEMATE_NIGHTS: nat := 5

  // ---- The bond ----

  function CupidFrom(s: GameState, i: nat): (r: Option<UserId>)
    requires i <= |s.roster|
    ensures r.Some? ==> Holds(s, r.value, Cupid)
    ensures r.None? ==> forall j :: i <= j < |s.roster| ==> !Holds(s, s.roster[j], Cupid)
    decreases |s.roster| - i
  {
    if i == |s.roster| then None
    else if Holds(s, s.roster[i], Cupid) then Some(s.roster[i])
    else CupidFrom(s, i + 1)
  }

  /** The lovers, read off whoever holds the cupid's role, alive or dead. */
  function LinkPair(s: GameState): Option<(UserId, UserId)> {
    var cupid := CupidFrom(s, 0);
    if cupid.Some? && s.players[cupid.value].roleState.Linked? then s.players[cupid.value].roleState.pair else None
  }

  function PartnerIn(pair: Option<(UserId, UserId)>, u: UserId): Option<UserId> {
    if pair.None? then None
    else if pair.value.0 == u then Some(pair.value.1)
    else if pair.value.1 == u then Some(pair.value.0)
    else None
  }

  /** The partner who dies along with `u`: alive, and not already among the dead. */
  function LivingPartner(s: GameState, u: UserId, dead: set<UserId>): Option<UserId> {
    var partner := PartnerIn(LinkPair(s), u);
    if partner.Some? && partner.value !in dead && IsAlive(s, partner.value) then partner else None
  }

  // ---- Blocs ----

  function FactionOf(s: GameState, u: UserId): Option<FactionId> {
    if u in s.players then s.players[u].faction else None
  }

  /** The edges of the graph the blocs are grown along. */
  predicate SameBloc(s: GameState, pair: Option<(UserId, UserId)>, u: UserId, v: UserId) {
    FactionOf(s, u) == FactionOf(s, v) || PartnerIn(pair, u) == Some(v)
  }

  ghost predicate Path(s: GameState, path: seq<UserId>) {
    && path != []
    && (forall i :: 0 <= i < |path| ==> IsAlive(s, path[i]))
    && (forall i :: 0 < i < |path| ==> SameBloc(s, LinkPair(s), path[i - 1], path[i]))
  }

  /** `u` and `v` are connected through living players. */
  ghost predicate Connected(s: GameState, u: UserId, v: UserId) {
    exists path :: Path(s, path) && path[0] == u && path[|path| - 1] == v
  }

  /** The lovers bridge two factions only while both of them live. */
  predicate Bridged(s: GameState, pair: Option<(UserId, UserId)>, f: Option<FactionId>) {
    && pair.Some? && IsAlive(s, pair.value.0) && IsAlive(s, pair.value.1)
    && (FactionOf(s, pair.value.0) == f || FactionOf(s, pair.value.1) == f)
  }

  /** Connectedness without paths: one faction, or both factions are those of
      the two living lovers. */
  predicate Together(s: GameState, u: UserId, v: UserId) {
    || FactionOf(s, u) == FactionOf(s, v)
    || (Bridged(s, LinkPair(s), FactionOf(s, u)) && Bridged(s, LinkPair(s), FactionOf(s, v)))
  }

  function Bloc(s: GameState, u: UserId): set<UserId> {
    set v | v in s.players && s.players[v].status == Alive && Together(s, u, v)
  }

  function Blocs(s: GameState): set<set<UserId>> { set u | u in Living(s) :: Bloc(s, u) }

  lemma {:induction false} PathStaysTogether(s: GameState, path: seq<UserId>)
    requires Path(s, path)
    ensures Together(s, path[0], path[|path| - 1])
    decreases |path|
  {
    if |path| > 1 {
      var init := path[..|path| - 1];
      PathStaysTogether(s, init);
      assert SameBloc(s, LinkPair(s), path[|path| - 2], path[|path| - 1]);
    }
  }

  lemma ShortPath(s: GameState, u: UserId, v: UserId)
    requires IsAlive(s, u) && IsAlive(s, v) && Together(s, u, v)
    ensures Connected(s, u, v)
  {
    var pair := LinkPair(s);
    if SameBloc(s, pair, u, v) {
      assert Path(s, [u, v]);
      assert [u, v][0] == u && [u, v][|[u, v]| - 1] == v;
    } else {
      var (a, b) := if FactionOf(s, u) == FactionOf(s, pair.value.0)
                    then pair.value else (pair.value.1, pair.value.0);
      assert SameBloc(s, pair, u, a) && SameBloc(s, pair, a, b) && SameBloc(s, pair, b, v);
      var path := [u, a, b, v];
      assert Path(s, path);
      assert path[0] == u && path[|path| - 1] == v;
    }
  }

  /** The blocs are exactly the connected components of "same faction or
      lovers" over the living. */
  lemma BlocsAreComponents(s: GameState, u: UserId, v: UserId)
    requires IsAlive(s, u)
    ensures v in Bloc(s, u) <==> IsAlive(s, v) && Connected(s, u, v)
  {
    if IsAlive(s, v) {
      if Connected(s, u, v) {
        var path :| Path(s, path) && path[0] == u && path[|path| - 1] == v;
        PathStaysTogether(s, path);
      }
      if Together(s, u, v) { ShortPath(s, u, v); }
    }
  }

  lemma TogetherIsTransitive(s: GameState, u: UserId, v: UserId, w: UserId)
    requires Together(s, u, v) && Together(s, v, w)
    ensures Together(s, u, w)
  {
  }

  /** Two blocs are the same or have nobody in common. */
  lemma BlocsPartition(s: GameState, u: UserId, v: UserId)
    requires IsAlive(s, u) && IsAlive(s, v)
    ensures u in Bloc(s, u)
    ensures v in Bloc(s, u) ==> Bloc(s, u) == Bloc(s, v)
    ensures v !in Bloc(s, u) ==> Bloc(s, u) !! Bloc(s, v)
  {
    hide LinkPair;
    forall w | w in s.players
      ensures Together(s, u, v) ==> (Together(s, u, w) <==> Together(s, v, w))
      ensures Together(s, u, w) && Together(s, v, w) ==> Together(s, u, v)
    {
      if Together(s, u, w) && Together(s, v, w) { TogetherIsTransitive(s, u, w, v); }
      if Together(s, u, v) && Together(s, u, w) { TogetherIsTransitive(s, v, u, w); }
      if Together(s, u, v) && Together(s, v, w) { TogetherIsTransitive(s, u, v, w); }
    }
  }

  // ---- Growing the blocs as the source does ----

  /** Nobody in `bloc` has an edge to anybody in `rest`. */
  ghost predicate Separate(s: GameState, bloc: set<UserId>, rest: seq<UserId>) {
    forall u, i :: u in bloc && 0 <= i < |rest| ==> !SameBloc(s, LinkPair(s), u, rest[i])
  }

  function Without(s: seq<UserId>, u: UserId): (r: seq<UserId>)
    ensures forall x :: x in r <==> x in s && x != u
    ensures |r| <= |s| && (u in s ==> |r| < |s|)
    ensures Distinct(s) ==> Distinct(r)
  {
    if s == [] then []
    else
      var rest := Without(s[1..], u);
      assert forall i :: 0 <= i < |rest| ==> rest[i] in rest;
      if s[0] == u then rest else [s[0]] + rest
  }

  /** A set grown from `seed` with no edge leaving it is the whole bloc. */
  lemma ClosedIsBloc(s: GameState, seed: UserId, bloc: set<UserId>, rest: seq<UserId>)
    requires IsAlive(s, seed) && seed in bloc && bloc <= Bloc(s, seed)
    requires forall i :: 0 <= i < |rest| ==> IsAlive(s, rest[i])
    requires forall v :: v in Bloc(s, seed) ==> v in bloc || v in rest
    requires Separate(s, bloc, rest)
    ensures bloc == Bloc(s, seed)
  {
    var pair := LinkPair(s);
    if Bridged(s, pair, FactionOf(s, seed)) {
      var (a, b) := if FactionOf(s, seed) == FactionOf(s, pair.value.0)
                    then pair.value else (pair.value.1, pair.value.0);
      assert a in Bloc(s, seed) && b in Bloc(s, seed);
      assert SameBloc(s, pair, seed, a) && SameBloc(s, pair, a, b);
      assert a in bloc;
      assert b in bloc;
      forall v | v in Bloc(s, seed) ensures v in bloc {
        assert SameBloc(s, pair, a, v) || SameBloc(s, pair, b, v);
      }
    } else {
      forall v | v in Bloc(s, seed) ensures v in bloc {
        assert SameBloc(s, pair, seed, v);
      }
    }
  }

  /** One bloc: scan the remaining players again and again until a scan adds
      nobody. */
  method GrowBloc(s: GameState, seed: UserId, start: seq<UserId>) returns (bloc: set<UserId>, remaining: seq<UserId>)
    requires IsAlive(s, seed) && seed !in start
    requires Distinct(start) && forall v :: v in start ==> IsAlive(s, v)
    requires forall v :: v in Bloc(s, seed) ==> v == seed || v in start
    ensures bloc == Bloc(s, seed)
    ensures |remaining| <= |start| && Distinct(remaining)
    ensures forall v :: v in remaining <==> v in start && v !in bloc
  {
    bloc, remaining := {seed}, start;
    var changed := true;
    while changed
      invariant seed in bloc && bloc <= Bloc(s, seed) && |remaining| <= |start|
      invariant forall v :: v in remaining <==> v in start && v !in bloc
      invariant Distinct(remaining) && forall i :: 0 <= i < |remaining| ==> IsAlive(s, remaining[i])
      invariant !changed ==> Separate(s, bloc, remaining)
      decreases |remaining|, changed
    {
      changed := false;
      var scan := remaining;
      var i := 0;
      while i < |scan|
        invariant 0 <= i <= |scan|
        invariant seed in bloc && bloc <= Bloc(s, seed)
        invariant forall v :: v in remaining <==> v in start && v !in bloc
        invariant Distinct(remaining) && forall i :: 0 <= i < |remaining| ==> IsAlive(s, remaining[i])
        invariant if changed then |remaining| < |scan| else remaining == scan && Separate(s, bloc, scan[..i])
      {
        var player := scan[i];
        if player in remaining && exists member :: member in bloc && SameBloc(s, LinkPair(s), member, player) {
          ghost var member :| member in bloc && SameBloc(s, LinkPair(s), member, player);
          TogetherIsTransitive(s, seed, member, player);
          bloc, remaining, changed := bloc + {player}, Without(remaining, player), true;
          assert forall i :: 0 <= i < |remaining| ==> remaining[i] in remaining;
        } else {
          assert scan[..i + 1] == scan[..i] + [player];
        }
        i := i + 1;
      }
      assert scan[..i] == scan;
    }
    ClosedIsBloc(s, seed, bloc, remaining);
  }

  ghost predicate Partition(s: GameState, blocs: seq<set<UserId>>, rest: seq<UserId>) {
    && Distinct(blocs)
    && (forall i :: 0 <= i < |blocs| ==> blocs[i] in Blocs(s))
    && (forall u :: u in rest ==> IsAlive(s, u))
    && (forall u :: u in Living(s) ==> u in rest || Bloc(s, u) in blocs)
    && (forall u :: u in rest ==> Bloc(s, u) !in blocs)
  }

  lemma SeedsBlocIsLeft(s: GameState, blocs: seq<set<UserId>>, rest: seq<UserId>)
    requires Partition(s, blocs, rest) && rest != []
    ensures IsAlive(s, rest[0]) && rest[0] in Bloc(s, rest[0])
    ensures forall v :: v in rest[1..] ==> IsAlive(s, v)
    ensures forall v :: v in Bloc(s, rest[0]) ==> v == rest[0] || v in rest[1..]
  {
    assert rest[0] in rest;
    forall v | v in Bloc(s, rest[0]) ensures v in rest {
      BlocsPartition(s, rest[0], v);
    }
    assert forall v :: v in rest <==> v == rest[0] || v in rest[1..];
  }

  lemma PartitionStarts(s: GameState)
    ensures Partition(s, [], SortedIds(Living(s)))
  {
  }

  lemma PartitionEnds(s: GameState, blocs: seq<set<UserId>>)
    requires Partition(s, blocs, [])
    ensures Distinct(blocs)
    ensures forall bloc :: bloc in blocs <==> bloc in Blocs(s)
  {
    hide Bloc;
    forall bloc | bloc in Blocs(s) ensures bloc in blocs {
      var u :| u in Living(s) && bloc == Bloc(s, u);
    }
  }

  lemma PartitionGrows(s: GameState, blocs: seq<set<UserId>>, rest: seq<UserId>, seed: UserId, left: seq<UserId>)
    requires Partition(s, blocs, rest) && seed in rest
    requires forall v :: v in left <==> v in rest && v !in Bloc(s, seed)
    ensures Partition(s, blocs + [Bloc(s, seed)], left)
  {
    var bloc := Bloc(s, seed);
    assert IsAlive(s, seed) && seed in Living(s);
    var more := blocs + [bloc];
    assert bloc in Blocs(s);
    forall u | u in Living(s) ensures u in left || Bloc(s, u) in more {
      BlocsPartition(s, seed, u);
      if u in bloc { assert more[|blocs|] == Bloc(s, u); }
    }
    forall u | u in left ensures Bloc(s, u) !in more {
      BlocsPartition(s, seed, u);
    }
  }

  /** The blocs of the living, each once, and nothing else. */
  method GetBlocs(s: GameState) returns (blocs: seq<set<UserId>>)
    ensures Distinct(blocs)
    ensures forall bloc :: bloc in blocs <==> bloc in Blocs(s)
  {
    hide Bloc, Blocs, Partition;
    PartitionStarts(s);
    blocs := [];
    var remaining := SortedIds(Living(s));
    while remaining != []
      invariant Partition(s, blocs, remaining) && Distinct(remaining)
      decreases |remaining|
    {
      var seed := remaining[0];
      var rest := remaining[1..];
      SeedsBlocIsLeft(s, blocs, remaining);
      var bloc, left := GrowBloc(s, seed, rest);
      PartitionGrows(s, blocs, remaining, seed, left);
      blocs, remaining := blocs + [bloc], left;
    }
    PartitionEnds(s, blocs);
  }

  // ---- Doom ----

  /** Roles that can still decide the game keep their bloc in play. */
  predicate Contests(p: Player) {
    match p.role
    case Some(Hunter) | Some(SerialKiller) | Some(Werewolf) | Some(CultLeader) => true
    case Some(Mayor) => p.roleState.MayorState? && !p.roleState.used
    case _ => false
  }

  predicate HasContester(s: GameState, bloc: set<UserId>) {
    exists u :: u in bloc && u in s.players && Contests(s.players[u])
  }

  predicate HasFaction(s: GameState, bloc: set<UserId>, f: FactionId) {
    exists u :: u in bloc && u in s.players && s.players[u].faction == Some(f)
  }

  predicate Outnumbers(s: GameState, opponent: set<UserId>) { |opponent| * 2 >= |Living(s)| }

  predicate Doomed(s: GameState, bloc: set<UserId>) {
    && !HasContester(s, bloc)
    && ((exists opponent :: opponent in Blocs(s) && opponent != bloc && Outnumbers(s, opponent))
        || (Blocs(s) <= {bloc} && !HasFaction(s, bloc, VillageFaction)))
  }

  method IsDoomed(s: GameState, bloc: set<UserId>, blocs: seq<set<UserId>>) returns (doomed: bool)
    requires forall b :: b in blocs <==> b in Blocs(s)
    ensures doomed == Doomed(s, bloc)
  {
    if HasContester(s, bloc) { return false; }
    var hasOpponent := false;
    for i := 0 to |blocs|
      invariant hasOpponent <==> exists j :: 0 <= j < i && blocs[j] != bloc
      invariant forall j :: 0 <= j < i && blocs[j] != bloc ==> !Outnumbers(s, blocs[j])
    {
      assert blocs[i] in blocs;
      if blocs[i] != bloc {
        hasOpponent := true;
        if |blocs[i]| * 2 >= |Living(s)| { return true; }
      }
    }
    assert forall j :: 0 <= j < |blocs| ==> blocs[j] in blocs;
    forall b | b in Blocs(s) && b != bloc ensures hasOpponent && !Outnumbers(s, b) {
      var j :| 0 <= j < |blocs| && blocs[j] == b;
    }
    return !hasOpponent && !HasFaction(s, bloc, VillageFaction);
  }

  // ---- The verdict ----

  function Undoomed(s: GameState): set<set<UserId>> { set bloc | bloc in Blocs(s) && !Doomed(s, bloc) }

  function WinningFaction(s: GameState, bloc: set<UserId>): Option<FactionId> {
    if HasFaction(s, bloc, SerialKillerFaction) then Some(SerialKillerFaction)
    else if HasFaction(s, bloc, WolvesFaction) then Some(WolvesFaction)
    else if HasFaction(s, bloc, CultFaction) then Some(CultFaction)
    else if HasFaction(s, bloc, VillageFaction) then Some(VillageFaction)
    else None
  }

  function ReasonFor(f: FactionId): VictoryReason {
    match f
    case WolvesFaction => WolvesWin
    case SerialKillerFaction => SerialKillerWins
    case CultFaction => CultWins
    case _ => VillageWins
  }

  function MakeVictory(s: GameState, f: FactionId): VictoryResult {
    VictoryResult(Some(f), (set u | u in s.players && s.players[u].faction == Some(f)), ReasonFor(f))
  }

  /** A winner's lover wins too, whatever their faction. */
  function WithLovers(s: GameState, winners: set<UserId>): set<UserId> {
    winners + (set u | u in winners && PartnerIn(LinkPair(s), u).Some? :: PartnerIn(LinkPair(s), u).value)
  }

  function ApplyLoverRider(s: GameState, result: VictoryResult): VictoryResult {
    result.(players := WithLovers(s, result.players))
  }

  const STALEMATE: VictoryResult := VictoryResult(None, {}, Stalemate)

  function Only<T(==)>(s: set<T>): (x: T)
    requires |s| == 1
    ensures s == {x}
  {
    assert forall x, y | x in s && y in s :: x == y by {
      forall x, y | x in s && y in s ensures x == y {
        assert |s - {x}| == 0;
        assert y !in s - {x};
      }
    }
    assert s != {};
    var x :| x in s;
    x
  }

  function CheckVictory(s: GameState): Option<VictoryResult> {
    if Living(s) == {} then Some(VictoryResult(None, {}, NoSurvivors))
    else if |Undoomed(s)| == 1 && WinningFaction(s, Only(Undoomed(s))).Some? then
      Some(ApplyLoverRider(s, MakeVictory(s, WinningFaction(s, Only(Undoomed(s))).value)))
    else if |Undoomed(s)| == 0 || s.nightsWithoutElimination >= STALEMATE_NIGHTS then Some(STALEMATE)
    else None
  }

  method DecideVictory(s: GameState) returns (verdict: Option<VictoryResult>)
    ensures verdict == CheckVictory(s)
  {
    hide Doomed, Blocs, Living, WinningFaction;
    if Living(s) == {} { return Some(VictoryResult(None, {}, NoSurvivors)); }
    var blocs := GetBlocs(s);
    var undoomed := [];
    for i := 0 to |blocs|
      invariant Distinct(undoomed)
      invariant forall b :: b in undoomed <==> b in blocs[..i] && !Doomed(s, b)
    {
      assert blocs[..i + 1] == blocs[..i] + [blocs[i]];
      var doomed := IsDoomed(s, blocs[i], blocs);
      if !doomed {
        assert blocs[i] !in blocs[..i];
        undoomed := undoomed + [blocs[i]];
      }
    }
    assert blocs[..|blocs|] == blocs;
    DistinctSize(undoomed, Undoomed(s));
    if |undoomed| == 1 {
      assert undoomed[0] in undoomed;
      assert Only(Undoomed(s)) == undoomed[0];
      var faction := WinningFaction(s, undoomed[0]);
      if faction.Some? { return Some(ApplyLoverRider(s, MakeVictory(s, faction.value))); }
    }
    if |undoomed| == 0 { return Some(STALEMATE); }
    if s.nightsWithoutElimination >= STALEMATE_NIGHTS { return Some(STALEMATE); }
    return None;
  }

  // ---- When a game is drawn ----

  lemma BlocsAreDisjoint(s: GameState, b: set<UserId>, c: set<UserId>)
    requires b in Blocs(s) && c in Blocs(s)
    ensures b <= Living(s) && b != {} && (b != c ==> b !! c)
  {
    var u :| u in Living(s) && b == Bloc(s, u);
    var v :| v in Living(s) && c == Bloc(s, v);
    BlocsPartition(s, u, v);
  }

  /** Two blocs that each hold at least half of the living hold exactly half,
      and there is no third. */
  lemma TwoHalves(s: GameState, b: set<UserId>, c: set<UserId>)
    requires b in Blocs(s) && c in Blocs(s) && b != c && Outnumbers(s, b) && Outnumbers(s, c)
    ensures |b| * 2 == |Living(s)| == |c| * 2 && Blocs(s) == {b, c}
  {
    hide Blocs, Living;
    BlocsAreDisjoint(s, b, c);
    BlocsAreDisjoint(s, c, b);
    var rest := Living(s) - (b + c);
    assert |b + c| == |b| + |c|;
    assert Living(s) == (b + c) + rest;
    assert |Living(s)| == |b + c| + |rest|;
    forall d | d in Blocs(s) ensures d in {b, c} {
      BlocsAreDisjoint(s, d, b);
      BlocsAreDisjoint(s, d, c);
      assert d <= b + c;
    }
  }

  ghost predicate OneBlocDraw(s: GameState, b: set<UserId>) {
    Blocs(s) == {b} && !HasContester(s, b) && !HasFaction(s, b, VillageFaction)
  }

  ghost predicate EvenDraw(s: GameState, b: set<UserId>, c: set<UserId>) {
    && b != c && Blocs(s) == {b, c}
    && |b| * 2 == |Living(s)| == |c| * 2
    && !HasContester(s, b) && !HasContester(s, c)
  }

  lemma BlocsExist(s: GameState)
    requires Living(s) != {}
    ensures exists b :: b in Blocs(s)
  {
    var u: UserId := Minimum(Living(s));
    assert Bloc(s, u) in Blocs(s);
  }

  lemma AllDoomedMeansDraw(s: GameState)
    requires Living(s) != {} && Undoomed(s) == {}
    ensures (exists b :: OneBlocDraw(s, b)) || (exists b, c :: EvenDraw(s, b, c))
  {
    hide HasContester, HasFaction, Blocs, Living, Outnumbers;
    BlocsExist(s);
    var b :| b in Blocs(s);
    assert b !in Undoomed(s);
    if Blocs(s) <= {b} {
      assert Blocs(s) == {b};
      assert OneBlocDraw(s, b);
    } else {
      var c :| c in Blocs(s) && c != b && Outnumbers(s, c);
      assert c !in Undoomed(s);
      assert !(Blocs(s) <= {c});
      var d :| d in Blocs(s) && d != c && Outnumbers(s, d);
      TwoHalves(s, c, d);
      assert d !in Undoomed(s);
      assert EvenDraw(s, c, d);
    }
  }

  lemma DrawMeansAllDoomed(s: GameState, b: set<UserId>, c: set<UserId>)
    requires OneBlocDraw(s, b) || EvenDraw(s, b, c)
    ensures Undoomed(s) == {}
  {
    hide HasContester, HasFaction, Blocs;
    forall d | d in Blocs(s) ensures Doomed(s, d) {
      if EvenDraw(s, b, c) { assert Outnumbers(s, b) && Outnumbers(s, c); }
    }
  }

  /** Before the night limit, a game with survivors is drawn exactly when one
      bloc is left with nobody of the village and nobody who contests, or two
      blocs without contesters hold half of the living each. */
  lemma DrawnExactlyWhen(s: GameState)
    requires Living(s) != {} && s.nightsWithoutElimination < STALEMATE_NIGHTS
    ensures CheckVictory(s) == Some(STALEMATE) <==>
            (exists b :: OneBlocDraw(s, b)) || (exists b, c :: EvenDraw(s, b, c))
  {
    hide OneBlocDraw, EvenDraw, Living, Undoomed, WinningFaction, HasFaction;
    if |Undoomed(s)| == 0 { AllDoomedMeansDraw(s); }
    if b :| OneBlocDraw(s, b) { DrawMeansAllDoomed(s, b, b); }
    if b, c :| EvenDraw(s, b, c) { DrawMeansAllDoomed(s, b, c); }
  }

  // ---- The end ----

  function KillAll(ids: seq<UserId>): (r: seq<PlayerPatch>)
    ensures |r| == |ids| && forall i :: 0 <= i < |r| ==> r[i] == PlayerPatch(ids[i], NO_CHANGES.(status := Some(Dead)))
  {
    seq(|ids|, i requires 0 <= i < |ids| => PlayerPatch(ids[i], NO_CHANGES.(status := Some(Dead))))
  }

  lemma KillAllKills(ids: seq<UserId>, u: UserId)
    ensures OnlyKills(KillAll(ids))
    ensures Kills(KillAll(ids), u) <==> u in ids
  {
    var patches := KillAll(ids);
    if u in ids {
      var i :| 0 <= i < |ids| && ids[i] == u;
      assert patches[i].playerId == u;
    }
  }

  function FinishOffLosers(s: GameState, winner: VictoryResult): seq<PlayerPatch> {
    if winner.faction.None? then [] else KillAll(SortedIds(Living(s) - winner.players))
  }

  lemma SurvivorsAfterFinish(s: GameState, winner: VictoryResult)
    requires winner.faction.Some?
    ensures Living(ApplyPatches(s, FinishOffLosers(s, winner))) == Living(s) * winner.players
  {
    var ids := SortedIds(Living(s) - winner.players);
    forall u | u in s.players
      ensures PatchedBy(u, s.players[u], KillAll(ids)).status == if u in ids then Dead else s.players[u].status
    {
      KillAllKills(ids, u);
      StatusAfter(u, s.players[u], KillAll(ids));
    }
  }

  lemma WinnersComeFromOneBloc(s: GameState, w: VictoryResult)
    requires CheckVictory(s) == Some(w) && w.faction.Some?
    ensures exists b :: Undoomed(s) == {b} && HasFaction(s, b, w.faction.value) && b in Blocs(s)
    ensures w.players == WithLovers(s, MakeVictory(s, w.faction.value).players)
  {
    hide Doomed, Blocs, Living, HasFaction, LinkPair;
    var b := Only(Undoomed(s));
    assert b in Undoomed(s);
  }

  /** Alive and of another faction, but bonded to a member of this one who is not alive. */
  predicate LeftBehind(s: GameState, f: FactionId, u: UserId) {
    && IsAlive(s, u) && FactionOf(s, u) != Some(f)
    && exists v :: v in s.players && s.players[v].status != Alive && s.players[v].faction == Some(f) && PartnerIn(LinkPair(s), v) == Some(u)
  }

  /** A living winner is outside the winning bloc exactly when left behind by it. */
  lemma LivingWinnersOutside(s: GameState, b: set<UserId>, f: FactionId, u: UserId)
    requires b in Blocs(s) && HasFaction(s, b, f)
    ensures u in Living(s) * WithLovers(s, MakeVictory(s, f).players) && u !in b <==> LeftBehind(s, f, u)
  {
    hide LinkPair, Together;
    var seed :| seed in Living(s) && b == Bloc(s, seed);
    var member :| member in b && member in s.players && s.players[member].faction == Some(f);
    if IsAlive(s, u) {
      if FactionOf(s, u) == Some(f) {
        SameFaction(s, member, u);
        TogetherIsTransitive(s, seed, member, u);
      } else {
        if v :| v in s.players && s.players[v].faction == Some(f) && PartnerIn(LinkPair(s), v) == Some(u) {
          assert v in MakeVictory(s, f).players;
          if IsAlive(s, v) {
            BridgeReaches(s, f, member, v, u);
            TogetherIsTransitive(s, seed, member, u);
          }
        }
        if LeftBehind(s, f, u) {
          BridgeIsDown(s, f, member, u);
          OutOfReach(s, seed, member, u);
        }
      }
    }
  }

  lemma SameFaction(s: GameState, u: UserId, v: UserId)
    requires FactionOf(s, u) == FactionOf(s, v)
    ensures Together(s, u, v)
  {
  }

  lemma BridgeIsDown(s: GameState, f: FactionId, member: UserId, u: UserId)
    requires LeftBehind(s, f, u) && FactionOf(s, member) == Some(f)
    ensures !Together(s, member, u)
  {
  }

  lemma OutOfReach(s: GameState, seed: UserId, member: UserId, u: UserId)
    requires Together(s, seed, member) && !Together(s, member, u)
    ensures !Together(s, seed, u)
  {
  }

  lemma BridgeReaches(s: GameState, f: FactionId, member: UserId, v: UserId, u: UserId)
    requires FactionOf(s, member) == Some(f) == FactionOf(s, v)
    requires IsAlive(s, u) && IsAlive(s, v) && PartnerIn(LinkPair(s), v) == Some(u)
    ensures Together(s, member, u)
  {
  }

  /** With a faction named, the players left alive are a non-empty set of winners, all
      of the one bloc that was not doomed except those it left behind. */
  lemma WinnersAreLeft(s: GameState, w: VictoryResult, survivors: set<UserId>)
    requires CheckVictory(s) == Some(w) && w.faction.Some?
    requires survivors == Living(ApplyPatches(s, FinishOffLosers(s, w)))
    ensures survivors != {} && survivors == Living(s) * w.players
    ensures exists b :: Undoomed(s) == {b} && b in Blocs(s)
              && forall u :: u in survivors && u !in b <==> LeftBehind(s, w.faction.value, u)
  {
    hide Blocs, LinkPair, LeftBehind, Doomed, CheckVictory;
    WinnersComeFromOneBloc(s, w);
    SurvivorsAfterFinish(s, w);
    var f := w.faction.value;
    var b :| Undoomed(s) == {b} && HasFaction(s, b, f) && b in Blocs(s);
    var u :| u in b && u in s.players && s.players[u].faction == Some(f);
    BlocsAreDisjoint(s, b, b);
    assert u in survivors;
    forall u ensures u in survivors && u !in b <==> LeftBehind(s, f, u) {
      LivingWinnersOutside(s, b, f, u);
    }
  }

  function Holder(role: RoleId, status: PlayerStatus, roleState: RoleState): Player {
    Player([], false, status, Some(role), Some(role), Some(StartingFaction(role)), roleState, FRESH, map[])
  }

  /** The cupid bonded a villager to the sorcerer on the night the villager died: a
      bond formed that night takes nobody along. The pack has fallen. */
  const AFTERMATH: GameState := GameState(
    Running, 2, None, [0, 1, 2, 3],
    map[0 := Holder(Cupid, Alive, Linked(Some((1, 2)))), 1 := Holder(Villager, Dead, Blank),
        2 := Holder(Sorcerer, Alive, Blank), 3 := Holder(Villager, Alive, Blank)],
    Settings(0, 0, 0), 0, None)

  lemma AftermathBlocs()
    ensures Living(AFTERMATH) == {0, 2, 3} && LinkPair(AFTERMATH) == Some((1, 2))
    ensures Bloc(AFTERMATH, 0) == Bloc(AFTERMATH, 3) == {0, 3} && Bloc(AFTERMATH, 2) == {2}
    ensures Blocs(AFTERMATH) == {{0, 3}, {2}}
  {
    var s := AFTERMATH;
    assert CupidFrom(s, 0) == Some(0);
    assert Living(s) == {0, 2, 3};
    forall u: UserId, v: UserId | u in Living(s) && v in Living(s)
      ensures Together(s, u, v) <==> FactionOf(s, u) == FactionOf(s, v)
    {
    }
    forall v: UserId ensures v in Bloc(s, 0) <==> v in {0, 3} {}
    forall v: UserId ensures v in Bloc(s, 3) <==> v in {0, 3} {}
    forall v: UserId ensures v in Bloc(s, 2) <==> v in {2} {}
    assert Blocs(s) == {Bloc(s, 0), Bloc(s, 2), Bloc(s, 3)};
  }

  lemma AftermathUndoomed()
    ensures Undoomed(AFTERMATH) == {{0, 3}}
  {
    hide LinkPair, Bloc, Blocs, Living;
    var s := AFTERMATH;
    AftermathBlocs();
    assert !HasContester(s, {0, 3}) && !HasContester(s, {2});
    assert {0, 3} in Blocs(s) && {2} in Blocs(s) && 3 in {0, 3} && 3 !in {2};
    assert Outnumbers(s, {0, 3}) && !Outnumbers(s, {2});
    assert Doomed(s, {2}) && !Doomed(s, {0, 3});
  }

  lemma AftermathWinners()
    ensures WithLovers(AFTERMATH, MakeVictory(AFTERMATH, VillageFaction).players) == {0, 1, 2, 3}
    ensures LeftBehind(AFTERMATH, VillageFaction, 2)
  {
    hide LinkPair, Bloc, Blocs, Living;
    AftermathBlocs();
    assert MakeVictory(AFTERMATH, VillageFaction).players == {0, 1, 3};
    assert PartnerIn(LinkPair(AFTERMATH), 1) == Some(2);
  }

  /** The village wins there, and the sorcerer is left alive outside its bloc. */
  lemma SomebodyIsLeftBehind()
    ensures CheckVictory(AFTERMATH) == Some(VictoryResult(Some(VillageFaction), {0, 1, 2, 3}, VillageWins))
    ensures Undoomed(AFTERMATH) == {{0, 3}} && LeftBehind(AFTERMATH, VillageFaction, 2)
  {
    hide LinkPair, Blocs, Bloc, Living, Doomed, Undoomed, WithLovers, LeftBehind;
    AftermathBlocs();
    AftermathUndoomed();
    AftermathWinners();
    assert AFTERMATH.players[0].faction == Some(VillageFaction) && 0 in {0, 3};
    assert WinningFaction(AFTERMATH, {0, 3}) == Some(VillageFaction);
  }

  /** The winners are the faction and whoever is bonded to it, and a winner's
      lover is always a winner. */
  lemma WinnersAreClosedUnderTheBond(s: GameState, w: VictoryResult, u: UserId)
    requires CheckVictory(s) == Some(w) && w.faction.Some?
    ensures u in w.players <==>
            (u in s.players && s.players[u].faction == w.faction)
            || exists v :: v in s.players && s.players[v].faction == w.faction && PartnerIn(LinkPair(s), v) == Some(u)
    ensures u in w.players && PartnerIn(LinkPair(s), u).Some? ==> PartnerIn(LinkPair(s), u).value in w.players
  {
    hide LinkPair, CheckVictory;
    WinnersComeFromOneBloc(s, w);
  }
}
