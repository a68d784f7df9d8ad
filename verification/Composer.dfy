/** Dealing the roles of a game (packages/game-engine/src/composer). */
module Composer {
  import opened Wrappers
  import opened Roles
  import opened Slices
  import opened GameState

  // ---- Constraints ----

  function Count(roles: seq<RoleId>, role: RoleId): nat {
    if roles == [] then 0 else (if roles[0] == role then 1 else 0) + Count(roles[1..], role)
  }

  function StartingWolfCount(players: nat): nat {
    var quarter := (players + 1) / 4;
    if quarter < 1 then 1 else quarter
  }

  function WolfCountFor(players: nat, specials: seq<RoleId>): nat {
    if players == 5 && SerialKiller in specials then 0
    else
      var replaced := (if AlphaWolf in specials then 1 else 0) + (if Cub in specials then 1 else 0);
      if StartingWolfCount(players) < replaced then 0 else StartingWolfCount(players) - replaced
  }

  function MinimumVillagers(players: nat): nat {
    var quarter := (players + 3) / 4;
    if quarter < 2 then 2 else quarter
  }

  predicate ValidCardinality(roles: seq<RoleId>) {
    forall role :: Dealt(role) ==> Count(roles, role) == 0 || Count(roles, role) == MaximumCopies(role)
  }

  predicate AvailableAt(roles: seq<RoleId>, players: nat) {
    forall role :: role in roles && Dealt(role) ==> MinimumPlayers(role) <= players
  }

  predicate AllowedTogether(roles: seq<RoleId>, players: nat) {
    && ((players == 5 || players == 6) ==> !(Seer in roles && Princess in roles))
    && ((players == 5 || players == 7) ==> Cursed !in roles)
  }

  predicate RequiredTogether(roles: seq<RoleId>) { LoneWolf in roles ==> AlphaWolf in roles }

  predicate IsValidComposition(roles: seq<RoleId>, players: nat) {
    && |roles| == players
    && ValidCardinality(roles)
    && AvailableAt(roles, players)
    && AllowedTogether(roles, players)
    && RequiredTogether(roles)
    && Count(roles, Villager) >= MinimumVillagers(players)
  }

  // ---- Presets ----

  datatype Preset = Classic | Chaos | Cult

  const CLASSIC_ROLES: seq<RoleId> := [Seer, Harlot, Princess, Hunter, Cursed, Mason, Veteran, SerialKiller, AlphaWolf]

  /** Every role the composer may deal, in the order of the role ids. */
  const CHAOS_ROLES: seq<RoleId> := [
    Mason, Seer, Cursed, Harlot, Hunter, Princess, Veteran, SerialKiller, AlphaWolf,
    Drunk, Mayor, Cupid, Priest, Guardian, Cub, Sorcerer, Detective, CultLeader, LoneWolf]

  const CULT_ROLES: seq<RoleId> := [Seer, Priest, Guardian, Detective, Hunter, Mason, Princess, Drunk, Mayor, Cupid]

  function Guaranteed(preset: Preset): seq<RoleId> { if preset.Cult? then [CultLeader] else [] }

  /** The preset's pool without its guaranteed roles. */
  function Pool(preset: Preset): seq<RoleId> {
    match preset
    case Classic => CLASSIC_ROLES
    case Chaos => CHAOS_ROLES
    case Cult => CULT_ROLES
  }

  /** The special-slot counts a game of this size may draw. */
  function SlotWeights(players: nat): set<nat> {
    if players <= 7 then {0, 1, 2}
    else if players <= 10 then {0, 1, 2, 3, 4}
    else if players <= 14 then {1, 2, 3, 4, 5}
    else {2, 3, 4, 5, 6, 7}
  }

  predicate Drawable(players: nat, drawn: nat) {
    drawn in SlotWeights(players) && StartingWolfCount(players) + MinimumVillagers(players) + drawn <= players
  }

  // ---- The search ----

  /** Masons come in pairs: the pair takes two slots. */
  function Slots(selected: seq<RoleId>): nat { |selected| + if Mason in selected then 1 else 0 }

  function Finish(selected: seq<RoleId>): seq<RoleId> { selected + if Mason in selected then [Mason] else [] }

  function Fill(n: nat, role: RoleId): seq<RoleId> { seq(n, _ => role) }

  /** The whole deal around a choice of special roles. */
  function Deal(players: nat, specials: seq<RoleId>): seq<RoleId>
    requires WolfCountFor(players, specials) + |specials| <= players
  {
    var wolves := WolfCountFor(players, specials);
    Fill(wolves, Werewolf) + specials + Fill(players - wolves - |specials|, Villager)
  }

  /** What one search is about: how many slots, for how many players, from which pool. */
  datatype Search = Search(slots: nat, players: nat, pool: seq<RoleId>)

  predicate Fits(q: Search) { StartingWolfCount(q.players) + q.slots <= q.players }

  predicate Accepts(q: Search, selected: seq<RoleId>)
    requires Fits(q)
  {
    Slots(selected) == q.slots && IsValidComposition(Deal(q.players, Finish(selected)), q.players)
  }

  /** What `choose(start, selected)` adds to the candidates. */
  function Enumerate(q: Search, start: nat, selected: seq<RoleId>): seq<seq<RoleId>>
    requires Fits(q) && start <= |q.pool|
    decreases |q.pool| - start, 1
  {
    if Slots(selected) == q.slots then (if Accepts(q, selected) then [Finish(selected)] else [])
    else if Slots(selected) > q.slots then []
    else EnumerateFrom(q, start, selected)
  }

  /** The loop of `choose`, from `index` on. */
  function EnumerateFrom(q: Search, index: nat, selected: seq<RoleId>): seq<seq<RoleId>>
    requires Fits(q) && index <= |q.pool|
    decreases |q.pool| - index, 0
  {
    if index == |q.pool| then []
    else
      (if q.pool[index] == Mason && Mason in selected then [] else Enumerate(q, index + 1, selected + [q.pool[index]]))
      + EnumerateFrom(q, index + 1, selected)
  }

  method Choose(q: Search, start: nat, selected: seq<RoleId>, before: seq<seq<RoleId>>) returns (candidates: seq<seq<RoleId>>)
    requires Fits(q) && start <= |q.pool|
    ensures candidates == before + Enumerate(q, start, selected)
    decreases |q.pool| - start
  {
    hide IsValidComposition, Deal, WolfCountFor;
    candidates := before;
    if Slots(selected) == q.slots {
      var roles := Finish(selected);
      FinishedFits(q, selected);
      if IsValidComposition(Deal(q.players, roles), q.players) { candidates := candidates + [roles]; }
      return;
    }
    if Slots(selected) > q.slots { return; }
    for index := start to |q.pool|
      invariant candidates + EnumerateFrom(q, index, selected) == before + EnumerateFrom(q, start, selected)
    {
      var role := q.pool[index];
      ghost var sofar := candidates;
      if !(role == Mason && Mason in selected) {
        candidates := Choose(q, index + 1, selected + [role], candidates);
      }
      OneMoreIndex(q, index, selected, sofar, candidates);
    }
  }

  lemma FinishedFits(q: Search, selected: seq<RoleId>)
    requires Fits(q) && Slots(selected) == q.slots
    ensures WolfCountFor(q.players, Finish(selected)) + |Finish(selected)| <= q.players
  {
  }

  lemma OneMoreIndex(q: Search, index: nat, selected: seq<RoleId>, before: seq<seq<RoleId>>, after: seq<seq<RoleId>>)
    requires Fits(q) && index < |q.pool|
    requires after == before + if q.pool[index] == Mason && Mason in selected then [] else Enumerate(q, index + 1, selected + [q.pool[index]])
    ensures after + EnumerateFrom(q, index + 1, selected) == before + EnumerateFrom(q, index, selected)
  {
    hide Enumerate, Fits;
  }

  // ---- The search lists every valid choice once ----

  /** The members of `chosen` among the pool from `start`, in pool order. */
  function Picked(pool: seq<RoleId>, start: nat, chosen: set<RoleId>): (picked: seq<RoleId>)
    requires start <= |pool|
    ensures forall r :: r in picked <==> r in chosen && r in pool[start..]
    decreases |pool| - start
  {
    if start == |pool| then []
    else (if pool[start] in chosen then [pool[start]] else []) + Picked(pool, start + 1, chosen)
  }

  /** Nothing selected so far is still in the pool. */
  ghost predicate Fresh(q: Search, start: nat, selected: seq<RoleId>)
    requires start <= |q.pool|
  {
    Distinct(q.pool) && forall j :: start <= j < |q.pool| ==> q.pool[j] !in selected
  }

  lemma {:induction false} NothingPicked(pool: seq<RoleId>, start: nat)
    requires start <= |pool|
    ensures Picked(pool, start, {}) == []
    decreases |pool| - start
  {
    if start < |pool| { NothingPicked(pool, start + 1); }
  }

  lemma SlotsGrow(selected: seq<RoleId>, more: seq<RoleId>)
    ensures Slots(selected) <= Slots(selected + more)
    ensures more != [] ==> Slots(selected) < Slots(selected + more)
  {
  }

  lemma {:induction false} EnumerateFinds(q: Search, start: nat, selected: seq<RoleId>, chosen: set<RoleId>)
    requires Fits(q) && start <= |q.pool| && Fresh(q, start, selected)
    requires Accepts(q, selected + Picked(q.pool, start, chosen))
    ensures Finish(selected + Picked(q.pool, start, chosen)) in Enumerate(q, start, selected)
    decreases |q.pool| - start, 1
  {
    hide IsValidComposition;
    var picked := Picked(q.pool, start, chosen);
    SlotsGrow(selected, picked);
    if picked == [] {
      assert selected + picked == selected;
    } else {
      EnumerateFromFinds(q, start, selected, chosen);
    }
  }

  lemma {:induction false} EnumerateFromFinds(q: Search, start: nat, selected: seq<RoleId>, chosen: set<RoleId>)
    requires Fits(q) && start <= |q.pool| && Fresh(q, start, selected)
    requires Accepts(q, selected + Picked(q.pool, start, chosen)) && Picked(q.pool, start, chosen) != []
    ensures Finish(selected + Picked(q.pool, start, chosen)) in EnumerateFrom(q, start, selected)
    decreases |q.pool| - start, 0
  {
    hide Accepts, Slots, Finish;
    var role := q.pool[start];
    if role in chosen {
      assert selected + Picked(q.pool, start, chosen) == (selected + [role]) + Picked(q.pool, start + 1, chosen);
      EnumerateFinds(q, start + 1, selected + [role], chosen);
    } else {
      assert Picked(q.pool, start, chosen) == Picked(q.pool, start + 1, chosen);
      EnumerateFromFinds(q, start + 1, selected, chosen);
    }
  }

  /** Conversely, everything found is such a choice. */
  ghost predicate IsChoice(q: Search, start: nat, selected: seq<RoleId>, candidate: seq<RoleId>, chosen: set<RoleId>)
    requires Fits(q) && start <= |q.pool|
  {
    Accepts(q, selected + Picked(q.pool, start, chosen)) && candidate == Finish(selected + Picked(q.pool, start, chosen))
  }

  lemma {:induction false} FoundIsChoice(q: Search, start: nat, selected: seq<RoleId>, candidate: seq<RoleId>) returns (chosen: set<RoleId>)
    requires Fits(q) && start <= |q.pool| && Fresh(q, start, selected)
    requires candidate in Enumerate(q, start, selected)
    ensures IsChoice(q, start, selected, candidate, chosen)
    decreases |q.pool| - start, 1
  {
    hide Accepts, IsValidComposition;
    if Slots(selected) == q.slots {
      chosen := {};
      NothingPicked(q.pool, start);
      assert selected + [] == selected;
    } else {
      chosen := FoundFromIsChoice(q, start, selected, candidate);
    }
  }

  lemma {:induction false} FoundFromIsChoice(q: Search, start: nat, selected: seq<RoleId>, candidate: seq<RoleId>) returns (chosen: set<RoleId>)
    requires Fits(q) && start <= |q.pool| && Fresh(q, start, selected)
    requires candidate in EnumerateFrom(q, start, selected)
    ensures IsChoice(q, start, selected, candidate, chosen)
    ensures Picked(q.pool, start, chosen) != []
    decreases |q.pool| - start, 0
  {
    hide Accepts, Slots, Finish;
    var role := q.pool[start];
    var next := selected + [role];
    if candidate in Enumerate(q, start + 1, next) && !(role == Mason && Mason in selected) {
      var rest := FoundIsChoice(q, start + 1, next, candidate);
      chosen := rest + {role};
      PickedIgnores(q.pool, start + 1, rest, role);
      assert selected + Picked(q.pool, start, chosen) == next + Picked(q.pool, start + 1, rest);
    } else {
      var rest := FoundFromIsChoice(q, start + 1, selected, candidate);
      chosen := rest - {role};
      PickedIgnores(q.pool, start + 1, chosen, role);
      PickedIgnores(q.pool, start + 1, rest, role);
      assert chosen + {role} == rest + {role};
      assert Picked(q.pool, start, chosen) == Picked(q.pool, start + 1, chosen);
    }
  }

  lemma {:induction false} PickedIgnores(pool: seq<RoleId>, start: nat, chosen: set<RoleId>, role: RoleId)
    requires start <= |pool| && forall j :: start <= j < |pool| ==> pool[j] != role
    ensures Picked(pool, start, chosen + {role}) == Picked(pool, start, chosen)
    decreases |pool| - start
  {
    if start < |pool| { PickedIgnores(pool, start + 1, chosen, role); }
  }

  lemma {:induction false} NoRepeats(q: Search, start: nat, selected: seq<RoleId>)
    requires Fits(q) && start <= |q.pool| && Fresh(q, start, selected)
    ensures Distinct(Enumerate(q, start, selected))
    decreases |q.pool| - start, 1
  {
    hide Accepts, Slots, Finish;
    if Slots(selected) < q.slots { NoRepeatsFrom(q, start, selected); }
  }

  lemma {:induction false} NoRepeatsFrom(q: Search, index: nat, selected: seq<RoleId>)
    requires Fits(q) && index <= |q.pool| && Fresh(q, index, selected)
    ensures Distinct(EnumerateFrom(q, index, selected))
    decreases |q.pool| - index, 0
  {
    hide Enumerate;
    if index < |q.pool| {
      var role := q.pool[index];
      NoRepeats(q, index + 1, selected + [role]);
      NoRepeatsFrom(q, index + 1, selected);
      var here, later := Enumerate(q, index + 1, selected + [role]), EnumerateFrom(q, index + 1, selected);
      forall c | c in here ensures c !in later {
        GrownWith(q, index, selected, c);
        if c in later { GrownWithLater(q, index + 1, selected, c); }
      }
      DistinctConcat(if role == Mason && Mason in selected then [] else here, later);
    }
  }

  lemma DistinctConcat<T>(a: seq<T>, b: seq<T>)
    requires Distinct(a) && Distinct(b) && forall x :: x in a ==> x !in b
    ensures Distinct(a + b)
  {
    forall i, j | 0 <= i < j < |a + b| ensures (a + b)[i] != (a + b)[j] {
      if i < |a| <= j { assert a[i] in a && b[j - |a|] in b; }
    }
  }

  /** A candidate shows at the first free place which role it was grown with. */
  lemma GrownWith(q: Search, index: nat, selected: seq<RoleId>, c: seq<RoleId>)
    requires Fits(q) && index < |q.pool| && Fresh(q, index, selected)
    requires c in Enumerate(q, index + 1, selected + [q.pool[index]])
    ensures |selected| < |c| && c[|selected|] == q.pool[index]
  {
    hide Enumerate, Accepts, Slots;
    var chosen := FoundIsChoice(q, index + 1, selected + [q.pool[index]], c);
  }

  lemma GrownWithLater(q: Search, index: nat, selected: seq<RoleId>, c: seq<RoleId>)
    requires Fits(q) && index <= |q.pool| && Fresh(q, index, selected)
    requires c in EnumerateFrom(q, index, selected)
    ensures |selected| < |c| && c[|selected|] in q.pool[index..]
  {
    hide EnumerateFrom, Accepts, Slots;
    var chosen := FoundFromIsChoice(q, index, selected, c);
    var picked := Picked(q.pool, index, chosen);
    assert picked[0] in picked;
  }

  lemma FinishIsInjective(a: seq<RoleId>, b: seq<RoleId>)
    requires Finish(a) == Finish(b)
    ensures a == b
  {
    assert Mason in Finish(a) <==> Mason in a;
    assert Mason in Finish(b) <==> Mason in b;
    assert a == Finish(a)[..|a|] && b == Finish(b)[..|b|];
  }

  /** Every valid choice of the drawn size is listed, exactly once, and nothing
      else is. */
  lemma SearchIsExact(q: Search, guaranteed: seq<RoleId>, chosen: set<RoleId>)
    requires Fits(q) && Fresh(q, 0, guaranteed)
    ensures Distinct(Enumerate(q, 0, guaranteed))
    ensures Accepts(q, guaranteed + Picked(q.pool, 0, chosen))
       <==> Finish(guaranteed + Picked(q.pool, 0, chosen)) in Enumerate(q, 0, guaranteed)
    ensures forall c :: c in Enumerate(q, 0, guaranteed) ==> exists other :: IsChoice(q, 0, guaranteed, c, other)
  {
    hide Enumerate, Accepts, Finish;
    NoRepeats(q, 0, guaranteed);
    var picked := Picked(q.pool, 0, chosen);
    if Accepts(q, guaranteed + picked) { EnumerateFinds(q, 0, guaranteed, chosen); }
    if Finish(guaranteed + picked) in Enumerate(q, 0, guaranteed) {
      var other := FoundIsChoice(q, 0, guaranteed, Finish(guaranteed + picked));
      FinishIsInjective(guaranteed + picked, guaranteed + Picked(q.pool, 0, other));
    }
    forall c | c in Enumerate(q, 0, guaranteed)
      ensures exists other :: IsChoice(q, 0, guaranteed, c, other)
    {
      var other := FoundIsChoice(q, 0, guaranteed, c);
    }
  }

  // ---- Counting ----

  lemma {:induction false} CountConcat(a: seq<RoleId>, b: seq<RoleId>, role: RoleId)
    ensures Count(a + b, role) == Count(a, role) + Count(b, role)
    decreases |a|
  {
    if a == [] {
      assert a + b == b;
    } else {
      assert (a + b)[1..] == a[1..] + b;
      CountConcat(a[1..], b, role);
    }
  }

  lemma {:induction false} CountFill(n: nat, fill: RoleId, role: RoleId)
    ensures Count(Fill(n, fill), role) == if fill == role then n else 0
  {
    if n > 0 {
      assert Fill(n, fill)[1..] == Fill(n - 1, fill);
      CountFill(n - 1, fill, role);
    }
  }

  lemma {:induction false} CountDistinct(roles: seq<RoleId>, role: RoleId)
    requires Distinct(roles)
    ensures Count(roles, role) == if role in roles then 1 else 0
    decreases |roles|
  {
    if roles != [] {
      CountDistinct(roles[1..], role);
      assert role in roles <==> role == roles[0] || role in roles[1..];
    }
  }

  lemma {:induction false} CountedIsIn(roles: seq<RoleId>, role: RoleId)
    ensures Count(roles, role) > 0 <==> role in roles
    decreases |roles|
  {
    if roles != [] {
      CountedIsIn(roles[1..], role);
      assert role in roles <==> role == roles[0] || role in roles[1..];
    }
  }

  lemma CountInDeal(players: nat, specials: seq<RoleId>, role: RoleId)
    requires WolfCountFor(players, specials) + |specials| <= players
    ensures Count(Deal(players, specials), role)
         == Count(specials, role)
            + (if role == Werewolf then WolfCountFor(players, specials) else 0)
            + (if role == Villager then players - WolfCountFor(players, specials) - |specials| else 0)
  {
    hide WolfCountFor, Fill;
    var wolves := WolfCountFor(players, specials);
    var villagers := players - wolves - |specials|;
    CountConcat(Fill(wolves, Werewolf) + specials, Fill(villagers, Villager), role);
    CountConcat(Fill(wolves, Werewolf), specials, role);
    CountFill(wolves, Werewolf, role);
    CountFill(villagers, Villager, role);
  }

  // ---- The pack that is dealt ----

  function PackSize(roles: seq<RoleId>): nat { Count(roles, Werewolf) + Count(roles, AlphaWolf) + Count(roles, Cub) }

  /** A valid deal has exactly the starting number of pack members, unless five
      players face a serial killer. */
  lemma PackIsStartingWolfCount(players: nat, specials: seq<RoleId>)
    requires players >= 5 && WolfCountFor(players, specials) + |specials| <= players
    requires Werewolf !in specials
    requires IsValidComposition(Deal(players, specials), players)
    ensures PackSize(Deal(players, specials)) == if players == 5 && SerialKiller in specials then 0 else StartingWolfCount(players)
  {
    hide AllowedTogether, RequiredTogether, Deal;
    var roles := Deal(players, specials);
    forall role ensures role in roles <==> Count(roles, role) > 0 { CountedIsIn(roles, role); }
    CountInDeal(players, specials, Werewolf);
    CountInDeal(players, specials, AlphaWolf);
    CountInDeal(players, specials, Cub);
    CountedIsIn(specials, Werewolf);
    CountedIsIn(specials, AlphaWolf);
    CountedIsIn(specials, Cub);
    assert Dealt(AlphaWolf) && Dealt(Cub);
  }

  // ---- The search never comes up empty ----

  /** Distinct single-copy roles that this size of game allows together. */
  predicate PlainChoice(players: nat, specials: seq<RoleId>) {
    && Distinct(specials)
    && (forall role :: role in specials ==> SingleCopy(role) && MinimumPlayers(role) <= players)
    && AllowedTogether(specials, players) && RequiredTogether(specials)
    && StartingWolfCount(players) + MinimumVillagers(players) + |specials| <= players
  }

  lemma InDeal(players: nat, specials: seq<RoleId>, role: RoleId)
    requires WolfCountFor(players, specials) + |specials| <= players && Dealt(role)
    ensures role in Deal(players, specials) <==> role in specials
    ensures Count(Deal(players, specials), role) == Count(specials, role)
  {
    hide WolfCountFor, Deal;
    CountInDeal(players, specials, role);
    CountedIsIn(Deal(players, specials), role);
    CountedIsIn(specials, role);
  }

  lemma PlainLeavesRoom(players: nat, specials: seq<RoleId>)
    requires PlainChoice(players, specials)
    ensures WolfCountFor(players, specials) + MinimumVillagers(players) + |specials| <= players
  {
  }

  lemma PlainIsValid(players: nat, specials: seq<RoleId>)
    requires PlainChoice(players, specials)
    ensures IsValidComposition(Deal(players, specials), players)
  {
    hide Distinct, WolfCountFor;
    PlainLeavesRoom(players, specials);
    var roles := Deal(players, specials);
    forall role | Dealt(role)
      ensures role in roles <==> role in specials
      ensures Count(roles, role) == if role in specials then 1 else 0
    {
      InDeal(players, specials, role);
      CountDistinct(specials, role);
    }
    CountInDeal(players, specials, Villager);
    CountedIsIn(specials, Villager);
    assert ValidCardinality(roles) by { hide Deal; }
  }

  lemma {:induction false} PickedDistinct(pool: seq<RoleId>, start: nat, chosen: set<RoleId>)
    requires start <= |pool| && Distinct(pool)
    ensures Distinct(Picked(pool, start, chosen))
    decreases |pool| - start
  {
    if start < |pool| {
      PickedDistinct(pool, start + 1, chosen);
      var rest := Picked(pool, start + 1, chosen);
      forall i | 0 <= i < |rest| ensures rest[i] != pool[start] { assert rest[i] in rest; }
    }
  }

  /** The first `k` of a list of pool roles are picked as they are. */
  lemma PickedFirst(pool: seq<RoleId>, first: seq<RoleId>, k: nat, chosen: set<RoleId>)
    requires Distinct(pool) && Distinct(first) && k <= |first|
    requires forall r :: r in first ==> r in pool
    requires chosen == set r | r in first[..k]
    ensures Distinct(Picked(pool, 0, chosen)) && |Picked(pool, 0, chosen)| == k
    ensures forall r :: r in Picked(pool, 0, chosen) <==> r in first[..k]
  {
    assert pool[0..] == pool;
    PickedDistinct(pool, 0, chosen);
    forall r | r in first[..k] ensures r in pool { assert r in first; }
    DistinctSize(first[..k], chosen);
    DistinctSize(Picked(pool, 0, chosen), chosen);
  }

  const WITNESS: seq<RoleId> := [Seer, Harlot, Veteran, Princess, SerialKiller, Hunter, Cursed]

  const CULT_WITNESS: seq<RoleId> := [Seer, Priest, Guardian, Detective, Hunter, Princess]

  lemma WitnessIsPlain(players: nat, drawn: nat, specials: seq<RoleId>)
    requires players >= 5 && Drawable(players, drawn)
    requires Distinct(specials) && |specials| == drawn && forall r :: r in specials <==> r in WITNESS[..drawn]
    ensures PlainChoice(players, specials) && Mason !in specials
  {
    hide Distinct;
    forall r | r in WITNESS[..drawn]
      ensures SingleCopy(r) && MinimumPlayers(r) <= players
      ensures r == Princess ==> drawn >= 4
      ensures r == Cursed ==> drawn >= 7
    {
      var i :| 0 <= i < drawn && WITNESS[i] == r;
    }
  }

  lemma CultWitnessIsPlain(players: nat, drawn: nat, others: nat, specials: seq<RoleId>)
    requires players >= 9 && Drawable(players, drawn) && others == if drawn == 0 then 0 else drawn - 1
    requires Distinct(specials) && |specials| == others && forall r :: r in specials <==> r in CULT_WITNESS[..others]
    ensures PlainChoice(players, [CultLeader] + specials) && Mason !in [CultLeader] + specials
  {
    forall r | r in CULT_WITNESS[..others] ensures SingleCopy(r) && MinimumPlayers(r) <= players && r != CultLeader && r != Cursed && r != LoneWolf {
      var i :| 0 <= i < others && CULT_WITNESS[i] == r;
    }
    DistinctConcat([CultLeader], specials);
  }

  lemma PlainIsAccepted(q: Search, selected: seq<RoleId>)
    requires Fits(q) && PlainChoice(q.players, selected) && Mason !in selected && |selected| == q.slots
    ensures Accepts(q, selected)
  {
    hide PlainChoice, IsValidComposition;
    PlainIsValid(q.players, selected);
    assert Finish(selected) == selected;
  }

  /** Where a role stands in the chaos pool. */
  function Place(role: RoleId): nat {
    match role
    case Mason => 0 case Seer => 1 case Cursed => 2 case Harlot => 3 case Hunter => 4 case Princess => 5
    case Veteran => 6 case SerialKiller => 7 case AlphaWolf => 8 case Drunk => 9 case Mayor => 10 case Cupid => 11
    case Priest => 12 case Guardian => 13 case Cub => 14 case Sorcerer => 15 case Detective => 16
    case CultLeader => 17 case LoneWolf => 18 case _ => 19
  }

  lemma ChaosIsDistinct()
    ensures Distinct(CHAOS_ROLES)
    ensures forall role :: role in CHAOS_ROLES <==> Dealt(role)
  {
    assert forall i :: 0 <= i < |CHAOS_ROLES| ==> Place(CHAOS_ROLES[i]) == i;
    forall role | Dealt(role) ensures role in CHAOS_ROLES { assert CHAOS_ROLES[Place(role)] == role; }
  }

  lemma PoolIsDistinct(preset: Preset)
    ensures Distinct(Pool(preset))
    ensures forall role :: role in Pool(preset) ==> Dealt(role) && role !in Guaranteed(preset)
  {
    ChaosIsDistinct();
  }

  lemma WitnessesAreInPools(preset: Preset)
    ensures Distinct(WITNESS) && Distinct(CULT_WITNESS)
    ensures !preset.Cult? ==> forall role :: role in WITNESS ==> role in Pool(preset)
    ensures forall role :: role in CULT_WITNESS ==> role in Pool(Cult)
  {
    ChaosIsDistinct();
  }

  function SearchFor(players: nat, preset: Preset, drawn: nat): Search {
    Search(if drawn < |Guaranteed(preset)| then |Guaranteed(preset)| else drawn, players, Pool(preset))
  }

  lemma SearchFits(players: nat, preset: Preset, drawn: nat)
    requires players >= 5 && Drawable(players, drawn)
    ensures Fits(SearchFor(players, preset, drawn))
    ensures Fresh(SearchFor(players, preset, drawn), 0, Guaranteed(preset))
  {
    PoolIsDistinct(preset);
  }

  /** For every drawable count there is a valid choice. */
  lemma SomethingIsFound(players: nat, preset: Preset, drawn: nat)
    requires players >= 5 && Drawable(players, drawn) && (preset.Cult? ==> players >= 9)
    requires Fits(SearchFor(players, preset, drawn))
    ensures Enumerate(SearchFor(players, preset, drawn), 0, Guaranteed(preset)) != []
  {
    hide Enumerate, Accepts, Fits, Picked, Fresh, Drawable;
    var q := SearchFor(players, preset, drawn);
    SearchFits(players, preset, drawn);
    var chosen := SomeChoice(players, preset, drawn);
    SearchIsExact(q, Guaranteed(preset), chosen);
  }

  lemma SomeChoice(players: nat, preset: Preset, drawn: nat) returns (chosen: set<RoleId>)
    requires players >= 5 && Drawable(players, drawn) && (preset.Cult? ==> players >= 9)
    requires Fits(SearchFor(players, preset, drawn))
    ensures Accepts(SearchFor(players, preset, drawn), Guaranteed(preset) + Picked(Pool(preset), 0, chosen))
  {
    if preset.Cult? { chosen := CultChoice(players, drawn); } else { chosen := VillageChoice(players, preset, drawn); }
  }

  lemma VillageChoice(players: nat, preset: Preset, drawn: nat) returns (chosen: set<RoleId>)
    requires players >= 5 && Drawable(players, drawn) && !preset.Cult?
    requires Fits(SearchFor(players, preset, drawn))
    ensures Accepts(SearchFor(players, preset, drawn), Guaranteed(preset) + Picked(Pool(preset), 0, chosen))
  {
    hide Accepts, PlainChoice, Fits, Picked, Pool, Distinct;
    PoolIsDistinct(preset);
    WitnessesAreInPools(preset);
    DrawnFits(players, drawn);
    chosen := set r | r in WITNESS[..drawn];
    PickedFirst(Pool(preset), WITNESS, drawn, chosen);
    var picked := Picked(Pool(preset), 0, chosen);
    assert Guaranteed(preset) + picked == picked;
    WitnessIsPlain(players, drawn, picked);
    PlainIsAccepted(SearchFor(players, preset, drawn), picked);
  }

  lemma CultChoice(players: nat, drawn: nat) returns (chosen: set<RoleId>)
    requires players >= 9 && Drawable(players, drawn) && Fits(SearchFor(players, Cult, drawn))
    ensures Accepts(SearchFor(players, Cult, drawn), Guaranteed(Cult) + Picked(Pool(Cult), 0, chosen))
  {
    hide Accepts, PlainChoice, Fits, Picked, Pool, Distinct;
    PoolIsDistinct(Cult);
    WitnessesAreInPools(Cult);
    DrawnFits(players, drawn);
    var k := if drawn == 0 then 0 else drawn - 1;
    chosen := set r | r in CULT_WITNESS[..k];
    CultWitnessInPool();
    PickedFirst(Pool(Cult), CULT_WITNESS, k, chosen);
    CultWitnessIsPlain(players, drawn, k, Picked(Pool(Cult), 0, chosen));
    PlainIsAccepted(SearchFor(players, Cult, drawn), Guaranteed(Cult) + Picked(Pool(Cult), 0, chosen));
  }

  lemma CultWitnessInPool()
    ensures forall role :: role in CULT_WITNESS ==> role in Pool(Cult)
  {
  }

  lemma DrawnFits(players: nat, drawn: nat)
    requires Drawable(players, drawn)
    ensures drawn <= |WITNESS| && drawn <= |CULT_WITNESS| + 1
  {
  }

  /** The cult preset has no valid choice below nine players. */
  lemma NoCultBelowNine(players: nat, drawn: nat)
    requires 5 <= players < 9 && Drawable(players, drawn) && Fits(SearchFor(players, Cult, drawn))
    ensures Enumerate(SearchFor(players, Cult, drawn), 0, Guaranteed(Cult)) == []
  {
    hide Enumerate, Fits, IsValidComposition, Pool, WolfCountFor, Deal, Fresh, Drawable;
    var q := SearchFor(players, Cult, drawn);
    SearchFits(players, Cult, drawn);
    var candidates := Enumerate(q, 0, Guaranteed(Cult));
    if candidates != [] {
      CandidateDeals(q, Cult, candidates[0]);
      assert CultLeader in Guaranteed(Cult);
      NoLeaderYet(players, candidates[0]);
    }
  }

  lemma NoLeaderYet(players: nat, specials: seq<RoleId>)
    requires WolfCountFor(players, specials) + |specials| <= players < 9 && CultLeader in specials
    ensures !IsValidComposition(Deal(players, specials), players)
  {
    hide WolfCountFor, Deal;
    InDeal(players, specials, CultLeader);
  }

  lemma CandidateDeals(q: Search, preset: Preset, candidate: seq<RoleId>)
    requires Fits(q) && q.pool == Pool(preset) && Fresh(q, 0, Guaranteed(preset))
    requires candidate in Enumerate(q, 0, Guaranteed(preset))
    ensures WolfCountFor(q.players, candidate) + |candidate| <= q.players && |candidate| == q.slots
    ensures IsValidComposition(Deal(q.players, candidate), q.players)
    ensures forall role :: role in Guaranteed(preset) ==> role in candidate
    ensures forall role :: role in candidate ==> role in Pool(preset) || role in Guaranteed(preset)
  {
    hide Enumerate, IsValidComposition, Pool;
    var chosen := FoundIsChoice(q, 0, Guaranteed(preset), candidate);
  }

  /** At every size there is a count to draw: the weights always reach down to one
      that leaves room for the wolves and the villagers. */
  lemma SomethingIsDrawable(players: nat)
    requires players >= 5
    ensures exists drawn :: Drawable(players, drawn)
  {
    assert Drawable(players, if players <= 7 then 0 else 2);
  }

  /** The composition the drawn slot count and the final pick lead to. */
  function Composed(players: nat, preset: Preset, drawn: nat, roll: nat): Option<seq<RoleId>>
    requires players >= 5 ==> Drawable(players, drawn)
  {
    if players < 5 then None
    else
      SearchFits(players, preset, drawn);
      var candidates := Enumerate(SearchFor(players, preset, drawn), 0, Guaranteed(preset));
      if candidates == [] then None
      else
        CandidateDeals(SearchFor(players, preset, drawn), preset, candidates[roll % |candidates|]);
        Some(Deal(players, candidates[roll % |candidates|]))
  }

  /** The drawn slots are filled: all but so many are villagers and werewolves. */
  lemma SlotsAreFilled(players: nat, specials: seq<RoleId>)
    requires WolfCountFor(players, specials) + |specials| <= players && Villager !in specials && Werewolf !in specials
    ensures Count(Deal(players, specials), Villager) + Count(Deal(players, specials), Werewolf) == players - |specials|
  {
    hide WolfCountFor, Deal;
    CountInDeal(players, specials, Villager);
    CountInDeal(players, specials, Werewolf);
    CountedIsIn(specials, Villager);
    CountedIsIn(specials, Werewolf);
  }

  /** One composition. It succeeds at five players and up, and for the cult from nine;
      what it deals is valid, keeps to the preset, has the right pack and fills exactly
      the drawn slots with special roles, one of them at least for the cult. */
  method ComposeBalancedGame(players: nat, preset: Preset, drawn: nat, roll: nat) returns (deal: Option<seq<RoleId>>)
    requires players >= 5 ==> Drawable(players, drawn)
    ensures deal == Composed(players, preset, drawn, roll)
    ensures deal.Some? <==> players >= 5 && (preset.Cult? ==> players >= 9)
    ensures deal.Some? ==>
              && IsValidComposition(deal.value, players)
              && PackSize(deal.value) == (if players == 5 && SerialKiller in deal.value then 0 else StartingWolfCount(players))
              && Count(deal.value, Villager) + Count(deal.value, Werewolf) == players - (if preset.Cult? && drawn == 0 then 1 else drawn)
              && (forall role :: role in Guaranteed(preset) ==> role in deal.value)
              && (forall role :: role in deal.value && Dealt(role) ==> role in Pool(preset) || role in Guaranteed(preset))
  {
    hide Enumerate, Fits, IsValidComposition, Deal, Fresh, Pool, PackSize, Drawable, WolfCountFor;
    if players < 5 { return None; }
    var q := SearchFor(players, preset, drawn);
    SearchFits(players, preset, drawn);
    var candidates := Choose(q, 0, Guaranteed(preset), []);
    if preset.Cult? && players < 9 { NoCultBelowNine(players, drawn); } else { SomethingIsFound(players, preset, drawn); }
    if |candidates| == 0 { return None; }
    var specials := candidates[roll % |candidates|];
    CandidateDeals(q, preset, specials);
    PoolIsDistinct(preset);
    PackIsStartingWolfCount(players, specials);
    SlotsAreFilled(players, specials);
    forall role | Dealt(role) ensures role in Deal(players, specials) <==> role in specials { InDeal(players, specials, role); }
    return Some(Deal(players, specials));
  }
}
