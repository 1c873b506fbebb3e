/** Permanent assignment of every vault to one transport bot, the least loaded when it is made. */
module VaultAssignment {
  import opened Wrappers

  /** Bot ids in the order of their text. */
  type BotId = nat
  type VaultId = string

  datatype Flags = Flags(quarantined: bool, rotating: bool)

  datatype Membership = Pending | Ready | Repair

  datatype Vault = Vault(bot: Option<BotId>, membership: Membership)

  type Bots = map<BotId, Flags>
  type Vaults = map<VaultId, Vault>

  datatype Tables = Tables(bots: Bots, vaults: Vaults)

  datatype Step =
    | Register(vault: VaultId)
    | Sync(bots: Bots)
    | Assign(vault: VaultId)
    | SetMembership(vault: VaultId, membership: Membership, expected: Option<BotId>)

  function AssignedTo(vaults: Vaults, bot: BotId): set<VaultId> {
    set v | v in vaults && vaults[v].bot == Some(bot)
  }

  function Load(vaults: Vaults, bot: BotId): nat {
    |AssignedTo(vaults, bot)|
  }

  predicate Eligible(bots: Bots, bot: BotId) {
    bot in bots && !bots[bot].quarantined && !bots[bot].rotating
  }

  /** ORDER BY count ASC, id ASC */
  predicate ComesFirst(vaults: Vaults, a: BotId, b: BotId) {
    Load(vaults, a) < Load(vaults, b) || (Load(vaults, a) == Load(vaults, b) && a <= b)
  }

  predicate Least(t: Tables, bot: BotId) {
    Eligible(t.bots, bot) && forall other <- t.bots :: Eligible(t.bots, other) ==> ComesFirst(t.vaults, bot, other)
  }

  /** The bot LIMIT 1 returns. */
  ghost function Choice(t: Tables): Option<BotId> {
    if b :| b in t.bots && Least(t, b) then Some(b) else None
  }

  lemma ChoiceIsTheLeast(t: Tables, bot: BotId)
    requires Least(t, bot)
    ensures Choice(t) == Some(bot)
  {
    hide Load;
    assert bot in t.bots;
    if Choice(t).Some? {
      assert ComesFirst(t.vaults, Choice(t).value, bot) && ComesFirst(t.vaults, bot, Choice(t).value);
    }
  }

  ghost function Apply(t: Tables, s: Step): Tables {
    match s
    case Register(vault) => if vault in t.vaults then t else t.(vaults := t.vaults[vault := Vault(None, Pending)])
    case Sync(bots) =>
      if bots == map[] then t
      else t.(bots := map b | b in t.bots.Keys + bots.Keys :: if b in bots then bots[b]
                                                              else t.bots[b].(quarantined := true))
    case Assign(vault) =>
      if vault !in t.vaults || t.vaults[vault].bot.Some? || Choice(t).None? then t
      else t.(vaults := t.vaults[vault := Vault(Some(Choice(t).value), Pending)])
    case SetMembership(vault, membership, expected) =>
      if vault in t.vaults && t.vaults[vault].bot.Some? && (expected.Some? ==> t.vaults[vault].bot == expected)
      then t.(vaults := t.vaults[vault := t.vaults[vault].(membership := membership)]) else t
  }

  ghost function Run(t: Tables, steps: seq<Step>): Tables {
    if steps == [] then t else Apply(Run(t, steps[..|steps| - 1]), steps[|steps| - 1])
  }

  /** An assignment, once made, is never changed: not by other assignments, pool changes, quarantine or repair. */
  lemma {:induction false} AssignmentIsPermanent(t: Tables, steps: seq<Step>, vault: VaultId)
    requires vault in t.vaults && t.vaults[vault].bot.Some?
    ensures vault in Run(t, steps).vaults && Run(t, steps).vaults[vault].bot == t.vaults[vault].bot
  {
    if steps != [] {
      hide Choice;
      AssignmentIsPermanent(t, steps[..|steps| - 1], vault);
    }
  }

  lemma RunOfTwo(t: Tables, a: Step, b: Step)
    ensures Run(t, [a, b]) == Apply(Apply(t, a), b)
  {
    hide Apply;
    assert [a, b][..1] == [a] && [a][..0] == [];
    assert Run(t, [a]) == Apply(t, a);
  }

  /** A new vault that is registered and assigned gets a bot, if any is neither quarantined nor rotating: one of those,
      and none of them has fewer vaults. */
  lemma RegisteredIsAssigned(t: Tables, vault: VaultId, bot: BotId)
    requires vault !in t.vaults && bot in t.bots && !t.bots[bot].quarantined && !t.bots[bot].rotating
    ensures var after := Run(t, [Register(vault), Assign(vault)]);
            && vault in after.vaults && after.vaults[vault].bot.Some? && after.vaults[vault].membership == Pending
            && after.vaults - {vault} == t.vaults && after.bots == t.bots
            && var chosen := after.vaults[vault].bot.value;
               && chosen in t.bots && !t.bots[chosen].quarantined && !t.bots[chosen].rotating
               && |set v | v in t.vaults && t.vaults[v].bot == Some(chosen)|
                  <= |set v | v in t.vaults && t.vaults[v].bot == Some(bot)|
  {
    hide Run;
    var registered := Apply(t, Register(vault));
    RunOfTwo(t, Register(vault), Assign(vault));
    var least := SomeLeast(registered, bot, t.bots.Keys);
    ChoiceIsTheLeast(registered, least);
    assert AssignedTo(registered.vaults, least) == set v | v in t.vaults && t.vaults[v].bot == Some(least);
    assert AssignedTo(registered.vaults, bot) == set v | v in t.vaults && t.vaults[v].bot == Some(bot);
  }

  /** Among bots of which one can be assigned there is a first one. */
  lemma {:induction false} SomeLeastOf(t: Tables, some: set<BotId>) returns (least: BotId)
    requires some <= t.bots.Keys && exists b <- some :: Eligible(t.bots, b)
    ensures least in some && Eligible(t.bots, least)
    ensures forall b <- some :: Eligible(t.bots, b) ==> ComesFirst(t.vaults, least, b)
    decreases some
  {
    hide Load;
    var b :| b in some && Eligible(t.bots, b);
    if other :| other in some - {b} && Eligible(t.bots, other) {
      least := SomeLeastOf(t, some - {b});
      if ComesFirst(t.vaults, b, least) {
        least := b;
      }
    } else {
      least := b;
    }
  }

  lemma SomeLeast(t: Tables, bot: BotId, all: set<BotId>) returns (least: BotId)
    requires all == t.bots.Keys && Eligible(t.bots, bot)
    ensures Least(t, least)
  {
    assert bot in all;
    least := SomeLeastOf(t, all);
  }

  // Loads stay level.

  lemma LoadAfterAssign(vaults: Vaults, vault: VaultId, row: Vault, bot: BotId)
    requires vault in vaults ==> vaults[vault].bot.None?
    ensures Load(vaults[vault := row], bot) == Load(vaults, bot) + if row.bot == Some(bot) then 1 else 0
  {
    if row.bot == Some(bot) {
      assert AssignedTo(vaults[vault := row], bot) == AssignedTo(vaults, bot) + {vault};
    } else {
      assert AssignedTo(vaults[vault := row], bot) == AssignedTo(vaults, bot);
    }
  }

  lemma LoadAfterMembership(vaults: Vaults, vault: VaultId, membership: Membership, bot: BotId)
    requires vault in vaults
    ensures Load(vaults[vault := vaults[vault].(membership := membership)], bot) == Load(vaults, bot)
  {
    assert AssignedTo(vaults[vault := vaults[vault].(membership := membership)], bot) == AssignedTo(vaults, bot);
  }

  lemma StepKeepsLevel(t: Tables, s: Step, a: BotId, b: BotId, spread: nat)
    requires (Eligible(t.bots, a) ==> Eligible(t.bots, b)) && 1 <= spread
    requires Load(t.vaults, a) <= Load(t.vaults, b) + spread
    ensures var after := Apply(t, s).vaults; Load(after, a) <= Load(after, b) + spread
  {
    hide Load;
    match s
    case Register(vault) =>
      if vault !in t.vaults {
        LoadAfterAssign(t.vaults, vault, Vault(None, Pending), a);
        LoadAfterAssign(t.vaults, vault, Vault(None, Pending), b);
      }
    case Sync(_) =>
    case SetMembership(vault, membership, _) =>
      if vault in t.vaults {
        LoadAfterMembership(t.vaults, vault, membership, a);
        LoadAfterMembership(t.vaults, vault, membership, b);
      }
    case Assign(vault) =>
      var chosen := Choice(t);
      if chosen.Some? && vault in t.vaults && t.vaults[vault].bot.None? {
        LoadAfterAssign(t.vaults, vault, Vault(chosen, Pending), a);
        LoadAfterAssign(t.vaults, vault, Vault(chosen, Pending), b);
        if chosen.value == a {
          assert ComesFirst(t.vaults, a, b);
        }
      }
  }

  /** `b` can be assigned at every moment at which `a` can. */
  ghost predicate AssignableWhenever(t: Tables, steps: seq<Step>, a: BotId, b: BotId) {
    forall i | 0 <= i < |steps| :: Eligible(Run(t, steps[..i]).bots, a) ==> Eligible(Run(t, steps[..i]).bots, b)
  }

  /** Whatever the pool is changed to on the way, a bot never gets ahead of one that could be assigned whenever it
      could by more than the larger of one and what it was ahead at the start: from an empty system, by more than one
      vault. */
  lemma {:induction false} LoadsStayLevel(t: Tables, steps: seq<Step>, a: BotId, b: BotId, spread: nat)
    requires AssignableWhenever(t, steps, a, b) && 1 <= spread && Load(t.vaults, a) <= Load(t.vaults, b) + spread
    ensures var end := Run(t, steps).vaults; Load(end, a) <= Load(end, b) + spread
  {
    if steps != [] {
      hide Apply, Load, Eligible;
      var n := |steps| - 1;
      forall i | 0 <= i < n
        ensures Eligible(Run(t, steps[..n][..i]).bots, a) ==> Eligible(Run(t, steps[..n][..i]).bots, b)
      {
        assert steps[..n][..i] == steps[..i];
      }
      LoadsStayLevel(t, steps[..n], a, b, spread);
      StepKeepsLevel(Run(t, steps[..n]), steps[n], a, b, spread);
    }
  }

  // A pool taken over one bot at a time.

  /** Bots outside the pool are quarantined; those `done` have been taken over, the others of the pool not yet. */
  function Synced(before: Bots, pool: Bots, done: set<BotId>): Bots
    requires done <= pool.Keys
  {
    map b | b in before.Keys + done ::
      if b in done then pool[b] else if b in pool then before[b] else before[b].(quarantined := true)
  }

  lemma SyncedOneMore(before: Bots, pool: Bots, done: set<BotId>, b: BotId)
    requires done <= pool.Keys && b in pool
    ensures Synced(before, pool, done + {b}) == Synced(before, pool, done)[b := pool[b]]
  {
  }

  lemma SyncedEnds(before: Bots, pool: Bots)
    ensures Synced(before, pool, pool.Keys - pool.Keys)
         == map b | b in before :: if b in pool.Keys then before[b] else before[b].(quarantined := true)
    ensures var after := Synced(before, pool, pool.Keys - {});
            && after == (map b | b in before.Keys + pool.Keys :: if b in pool then pool[b]
                                                                 else before[b].(quarantined := true))
            && before.Keys <= after.Keys && forall b :: Eligible(after, b) <==> Eligible(pool, b)
  {
  }

  // The store.

  class AssignmentStore {
    var bots: Bots
    var vaults: Vaults

    constructor ()
      ensures State() == Tables(map[], map[])
    {
      bots, vaults := map[], map[];
    }

    function State(): Tables
      reads this
    {
      Tables(bots, vaults)
    }

    method SyncTransportBots(pool: Bots) returns (synced: bool)
      modifies this
      ensures State() == Apply(old(State()), Sync(pool)) && synced == (pool != map[])
      ensures synced ==> forall b :: Eligible(bots, b) <==> Eligible(pool, b)
      ensures vaults == old(vaults) && old(bots).Keys <= bots.Keys
    {
      hide Choice, Synced;
      if pool == map[] {
        return false;
      }
      ghost var before := bots;
      QuarantineOthers(pool.Keys);
      SyncedEnds(before, pool);
      var todo, all := pool.Keys, pool.Keys;
      while todo != {}
        invariant todo <= all && vaults == old(vaults) && bots == Synced(before, pool, all - todo)
        decreases |todo|
      {
        var b :| b in todo;
        SyncedOneMore(before, pool, all - todo, b);
        OneLess(all, todo, b);
        bots := bots[b := pool[b]];
        todo := todo - {b};
      }
      return true;
    }

    /** UPDATE ... WHERE NOT (id = ANY(ids)) */
    method QuarantineOthers(ids: set<BotId>)
      modifies `bots
      ensures bots == map b | b in old(bots) :: if b in ids then old(bots)[b] else old(bots)[b].(quarantined := true)
    {
      bots := map b | b in bots :: if b in ids then bots[b] else bots[b].(quarantined := true);
    }

    /** The eligible bot with the fewest vaults, the first of them by id. */
    method ChooseBot() returns (chosen: Option<BotId>)
      ensures chosen == Choice(State())
      ensures chosen.None? <==> forall b <- bots :: bots[b].quarantined || bots[b].rotating
      ensures chosen.Some? ==>
                && chosen.value in bots && !bots[chosen.value].quarantined && !bots[chosen.value].rotating
                && forall b <- bots :: !bots[b].quarantined && !bots[b].rotating ==>
                     var most := |set v | v in vaults && vaults[v].bot == Some(b)|;
                     var fewest := |set v | v in vaults && vaults[v].bot == chosen|;
                     fewest < most || (fewest == most && chosen.value <= b)
    {
      chosen := None;
      var todo := bots.Keys;
      while todo != {}
        invariant todo <= bots.Keys
        invariant chosen.Some? ==> Eligible(bots, chosen.value)
        invariant forall b <- bots :: b !in todo && Eligible(bots, b) ==> chosen.Some?
                                                                          && ComesFirst(vaults, chosen.value, b)
        decreases |todo|
      {
        var b :| b in todo;
        todo := todo - {b};
        if Eligible(bots, b) && (chosen.None? || ComesFirst(vaults, b, chosen.value)) {
          chosen := Some(b);
        }
      }
      if chosen.Some? {
        ChoiceIsTheLeast(State(), chosen.value);
        forall b <- bots ensures AssignedTo(vaults, b) == set v | v in vaults && vaults[v].bot == Some(b) {
        }
      } else {
        assert forall b <- bots :: !Least(State(), b);
      }
    }

    method AssignIfMissing(vault: VaultId) returns (bot: Option<BotId>)
      modifies this
      ensures State() == Apply(old(State()), Assign(vault))
      ensures bot == if vault in vaults then vaults[vault].bot else None
      ensures vault in old(vaults) && old(vaults)[vault].bot.Some? ==> bot == old(vaults)[vault].bot
      ensures vault in vaults && bot.None? ==> forall b <- bots :: bots[b].quarantined || bots[b].rotating
    {
      if vault !in vaults {
        return None;
      }
      if vaults[vault].bot.Some? {
        return vaults[vault].bot;
      }
      bot := ChooseBot();
      if bot.Some? {
        vaults := vaults[vault := Vault(bot, Pending)];
      }
    }

    method SetMembershipState(vault: VaultId, membership: Membership, expected: Option<BotId>) returns (done: bool)
      modifies this
      ensures State() == Apply(old(State()), SetMembership(vault, membership, expected))
      ensures done <==> vault in old(vaults) && old(vaults)[vault].bot.Some?
                        && expected in {None, old(vaults)[vault].bot}
      ensures done ==> vault in vaults && vaults[vault].membership == membership
      ensures !done ==> State() == old(State())
      ensures forall bot :: AssignedTo(vaults, bot) == AssignedTo(old(vaults), bot)
    {
      hide Choice;
      done := vault in vaults && vaults[vault].bot.Some? && (expected.Some? ==> vaults[vault].bot == expected);
      if done {
        vaults := vaults[vault := vaults[vault].(membership := membership)];
      }
    }
  }
}
