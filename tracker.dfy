/**
 * The tracker's module-level state and every operation that changes it:
 * the action ledger (`actionCounts`), the attack counters (`attackCounts`)
 * and the stored combat pointer (`currentCombatState`).
 *
 * Ledger records are objects: the source mutates them through shared
 * references (`counts.full -= 1` on the object it fetched from the map,
 * and a dialog handler that captured the object when the dialog opened).
 * `ledger` reads their contents as values, and every method is specified
 * by the value-level functions of ActionLedger, CombatRound and ChatCost.
 *
 * Host state arrives as parameters: `controlled` is the list of currently
 * controlled token ids (the acting token is always its first entry),
 * `combatStarted` is `game.combat?.started`, and the roster is the list of
 * combatants of the active combat.
 */
module Tracker {
  import opened Wrappers
  import opened ActionLedger
  import opened Keywords
  import opened CombatRound
  import opened ChatCost
  import opened Text

  /**
   * One ledger record, `{full, quick, reaction}`, shared by reference.
   * `key` is the token it was created for (proof bookkeeping only).
   */
  class Counts {
    var full: int
    var quick: int
    var reaction: int
    ghost const key: TokenId

    /** A record at the per-round baseline, created for token `key`. */
    constructor (ghost key: TokenId)
      ensures Value() == Baseline && this.key == key
    {
      full, quick, reaction := 3, 0, 1;
      this.key := key;
    }

    /**
     * This is token `t`'s record, it holds `r`, and none of its counters is
     * negative.
     */
    ghost predicate Holds(t: TokenId, r: ActionRecord)
      reads this
    {
      key == t && Value() == r && NonNegative(r)
    }

    /** The record's contents as a value. */
    function Value(): ActionRecord
      reads this
    {
      ActionRecord(full, quick, reaction)
    }
  }

  /**
   * What an action dialog's submit and roll-button handlers captured when
   * the dialog opened: the acting token, its record object, and whether the
   * dialog's text marks an attack.
   */
  datatype DialogArm = DialogArm(token: TokenId, record: Counts, isAttack: bool)

  class ActionTracker {
    var counts: map<TokenId, Counts>
    var attacks: map<TokenId, nat>
    var state: CombatPointer

    /** The ledger's contents as values, kept in step with the record objects. */
    ghost var ledger: map<TokenId, ActionRecord>

    /** The record objects the ledger holds. */
    ghost var Repr: set<Counts>

    /**
     * `Repr` holds every record object, `ledger` is their contents, each
     * token's record is the one created for it (so no two tokens share a
     * record object), and no counter of any record is negative.
     */
    ghost predicate Valid()
      reads this`counts, this`ledger, this`Repr, Repr
    {
      && ledger.Keys == counts.Keys
      && (forall t :: t in counts ==> counts[t] in Repr && counts[t].Holds(t, ledger[t]))
    }

    /**
     * No entry of `before` was removed or replaced: every token keeps the
     * very record object it had, so a reference captured earlier is still
     * the ledger's record for that token.
     */
    ghost predicate Keeps(before: map<TokenId, Counts>)
      reads this`counts
    {
      forall t :: t in before ==> t in counts && counts[t] == before[t]
    }

    /**
     * `initializeTracker`: the stored pointer starts from the current
     * combat when there is one (else round 0, turn 0), and every token
     * controlled at start-up is initialized.
     */
    constructor (combat: Option<CombatPointer>, controlled: seq<TokenId>)
      ensures Valid() && fresh(Repr)
      ensures ledger == EnsureAll(map[], controlled)
      ensures attacks == ZeroAttacks(map[], controlled)
      ensures state == combat.GetOr(CombatPointer(0, 0))
    {
      counts := map[];
      ledger := map[];
      Repr := {};
      attacks := map[];
      state := combat.GetOr(CombatPointer(0, 0));
      new;
      var i := 0;
      while i < |controlled|
        invariant 0 <= i <= |controlled|
        invariant Valid() && fresh(Repr)
        invariant ledger == EnsureAll(map[], controlled[..i])
        invariant attacks == ZeroAttacks(map[], controlled[..i])
        invariant state == combat.GetOr(CombatPointer(0, 0))
      {
        assert controlled[..i + 1][..i] == controlled[..i];
        Initialize(controlled[i]);
        i := i + 1;
      }
      assert controlled[..i] == controlled;
    }

    /**
     * `initializeTokenActions`: the token gets a baseline record only when it
     * has none (an existing record, object and contents, is kept), and its
     * attack counter is set to 0 either way.
     */
    method Initialize(t: TokenId)
      requires Valid()
      modifies this
      ensures Valid() && Keeps(old(counts))
      ensures old(Repr) <= Repr && fresh(Repr - old(Repr))
      ensures ledger == Ensure(old(ledger), t)
      ensures attacks == old(attacks)[t := 0]
      ensures state == old(state)
    {
      if t !in counts {
        var c := new Counts(t);
        counts := counts[t := c];
        ledger := ledger[t := Baseline];
        Repr := Repr + {c};
      }
      attacks := attacks[t := 0];
    }

    /**
     * The ledger half of a reset: the token's record becomes the baseline,
     * created when absent and otherwise overwritten in place.
     */
    method ResetRecord(t: TokenId)
      requires Valid()
      modifies this, Repr
      ensures Valid() && Keeps(old(counts))
      ensures old(Repr) <= Repr && fresh(Repr - old(Repr))
      ensures ledger == old(ledger)[t := Baseline]
      ensures attacks == old(attacks) && state == old(state)
    {
      if t !in counts {
        var c := new Counts(t);
        counts := counts[t := c];
        ledger := ledger[t := Baseline];
        Repr := Repr + {c};
      } else {
        var c := counts[t];
        c.full := 3;
        c.quick := 0;
        c.reaction := 1;
        ledger := ledger[t := Baseline];
      }
    }

    /**
     * `resetTokenActions`: the token's record is exactly the baseline and its
     * attack counter 0, whatever they were; other tokens are untouched.
     */
    method Reset(t: TokenId)
      requires Valid()
      modifies this, Repr
      ensures Valid() && Keeps(old(counts))
      ensures old(Repr) <= Repr && fresh(Repr - old(Repr))
      ensures ledger == old(ledger)[t := Baseline]
      ensures attacks == old(attacks)[t := 0]
      ensures state == old(state)
    {
      ResetRecord(t);
      attacks := attacks[t := 0];
    }

    /**
     * `adjustActionCount`: full actions move by `change`, floored at 0; the
     * other two counters are untouched, and without a record nothing
     * happens.
     */
    method AdjustActionCount(t: TokenId, change: int)
      requires Valid()
      modifies this`ledger, Repr
      ensures Valid() && counts == old(counts)
      ensures t in old(ledger) ==> ledger == old(ledger)[t := Adjusted(old(ledger)[t], Full, change)]
      ensures t !in old(ledger) ==> ledger == old(ledger)
    {
      if t in counts {
        var c := counts[t];
        c.full := Max0(c.full + change);
        ledger := ledger[t := c.Value()];
      }
    }

    /**
     * `adjustQuickCount`: quick actions move by `change`, floored at 0; the
     * other two counters are untouched, and without a record nothing
     * happens. The +HASTE button is `adjustQuickCount(t, 1)`.
     */
    method AdjustQuickCount(t: TokenId, change: int)
      requires Valid()
      modifies this`ledger, Repr
      ensures Valid() && counts == old(counts)
      ensures t in old(ledger) ==> ledger == old(ledger)[t := Adjusted(old(ledger)[t], Quick, change)]
      ensures t !in old(ledger) ==> ledger == old(ledger)
    {
      if t in counts {
        var c := counts[t];
        c.quick := Max0(c.quick + change);
        ledger := ledger[t := c.Value()];
      }
    }

    /**
     * `adjustReactionCount`: reactions move by `change`, floored at 0; the
     * other two counters are untouched, and without a record nothing
     * happens.
     */
    method AdjustReactionCount(t: TokenId, change: int)
      requires Valid()
      modifies this`ledger, Repr
      ensures Valid() && counts == old(counts)
      ensures t in old(ledger) ==> ledger == old(ledger)[t := Adjusted(old(ledger)[t], Reaction, change)]
      ensures t !in old(ledger) ==> ledger == old(ledger)
    {
      if t in counts {
        var c := counts[t];
        c.reaction := Max0(c.reaction + change);
        ledger := ledger[t := c.Value()];
      }
    }

    /**
     * `adjustCounter`: `input` is the typed-in value after parsing (None for
     * a cancelled prompt or a non-numeric entry). The chosen counter becomes
     * the value floored at 0 when there is a value and a record; otherwise
     * the ledger is unchanged.
     */
    method SetCounter(t: TokenId, f: Field, input: Option<int>)
      requires Valid()
      modifies this`ledger, Repr
      ensures Valid() && counts == old(counts)
      ensures input.Some? && t in old(ledger) ==>
        ledger == old(ledger)[t := ManuallySet(old(ledger)[t], f, input.value)]
      ensures input.None? || t !in old(ledger) ==> ledger == old(ledger)
    {
      if input.Some? {
        if t in counts {
          var c := counts[t];
          var v := Max0(input.value);
          match f {
            case Full => c.full := v;
            case Quick => c.quick := v;
            case Reaction => c.reaction := v;
          }
          ledger := ledger[t := c.Value()];
        }
      }
    }

    /**
     * The decrement body every single-step trigger shares: only when `t`
     * has a record with a full action left, the attack counter rises for an
     * attack and one full action is spent.
     */
    method Spend(t: TokenId, isAttack: bool)
      requires Valid()
      modifies this, Repr
      ensures Valid() && counts == old(counts) && state == old(state) && Repr == old(Repr)
      ensures ledger == SpendLedger(old(ledger), t)
      ensures attacks == SpendAttacks(old(ledger), old(attacks), t, isAttack)
    {
      if t in counts && counts[t].full > 0 {
        if isAttack {
          attacks := attacks[t := AttackCount(attacks, t) + 1];
        }
        var c := counts[t];
        c.full := c.full - 1;
        ledger := ledger[t := c.Value()];
      }
    }

    /**
     * The `rollAction` wrapper: any rolled action spends one full action of
     * the first controlled token, and counts as an attack when its name
     * mentions "strike" or "attack".
     */
    method RollAction(controlled: seq<TokenId>, actionName: string)
      requires Valid()
      modifies this, Repr
      ensures Valid() && counts == old(counts) && state == old(state) && Repr == old(Repr)
      ensures Triggered(old(ledger), old(attacks), ledger, attacks, controlled, true,
                        RollActionIsAttack(actionName))
    {
      var isAttack := RollActionIsAttack(actionName);
      if |controlled| > 0 {
        Spend(controlled[0], isAttack);
      }
    }

    /** The `rollSkill` wrapper: a skill roll spends one full action, only during a started combat. */
    method RollSkill(controlled: seq<TokenId>, combatStarted: bool)
      requires Valid()
      modifies this, Repr
      ensures Valid() && counts == old(counts) && state == old(state) && Repr == old(Repr)
      ensures Triggered(old(ledger), old(attacks), ledger, attacks, controlled, combatStarted, false)
    {
      if combatStarted && |controlled| > 0 {
        Spend(controlled[0], false);
      }
    }

    /** The item `roll` wrapper: an action or manipulate item spends one full action. */
    method RollItem(controlled: seq<TokenId>, item: Item)
      requires Valid()
      modifies this, Repr
      ensures Valid() && counts == old(counts) && state == old(state) && Repr == old(Repr)
      ensures Triggered(old(ledger), old(attacks), ledger, attacks, controlled,
                        ItemSpends(item), ItemIsAttack(item))
    {
      if |controlled| > 0 {
        var t := controlled[0];
        if t in counts && ItemSpends(item) && counts[t].full > 0 {
          Spend(t, ItemIsAttack(item));
        }
      }
    }

    /**
     * A click on a sheet button: it spends one full action when the
     * button classifier says so, and counts as an attack when it marks one.
     */
    method ClickActionButton(controlled: seq<TokenId>, text: string, title: string, dataAction: string)
      requires Valid()
      modifies this, Repr
      ensures Valid() && counts == old(counts) && state == old(state) && Repr == old(Repr)
      ensures Triggered(old(ledger), old(attacks), ledger, attacks, controlled,
                        ClassifyButton(text, title, dataAction).spends,
                        ClassifyButton(text, title, dataAction).isAttack)
    {
      if |controlled| > 0 {
        var verdict := ClassifyButton(text, title, dataAction);
        if verdict.spends {
          Spend(controlled[0], verdict.isAttack);
        }
      }
    }

    /**
     * A click on a multiple-attack button. The handler is attached only to
     * buttons whose caption or tooltip marks a second or third attack; it
     * spends one full action and leaves the attack counter alone.
     */
    method ClickMapButton(controlled: seq<TokenId>, text: string, title: string)
      requires Valid()
      modifies this, Repr
      ensures Valid() && counts == old(counts) && state == old(state) && Repr == old(Repr)
      ensures Triggered(old(ledger), old(attacks), ledger, attacks, controlled,
                        IsMapButton(text, title), false)
    {
      if IsMapButton(text, title) && |controlled| > 0 {
        Spend(controlled[0], false);
      }
    }

    /** A click on an equip, drop, take, sheathe or draw button spends one full action during a started combat. */
    method ClickInventoryButton(controlled: seq<TokenId>, combatStarted: bool)
      requires Valid()
      modifies this, Repr
      ensures Valid() && counts == old(counts) && state == old(state) && Repr == old(Repr)
      ensures Triggered(old(ledger), old(attacks), ledger, attacks, controlled, combatStarted, false)
    {
      if |controlled| > 0 && combatStarted {
        Spend(controlled[0], false);
      }
    }

    /**
     * The actor `update` wrapper: an update carrying inventory changes
     * (`None` when it carries none) spends one full action during a started
     * combat when some entry changes an item's equipped state.
     */
    method UpdateInventory(controlled: seq<TokenId>, combatStarted: bool,
                           inventory: Option<seq<InventoryChange>>)
      requires Valid()
      modifies this, Repr
      ensures Valid() && counts == old(counts) && state == old(state) && Repr == old(Repr)
      ensures Triggered(old(ledger), old(attacks), ledger, attacks, controlled,
                        combatStarted && inventory.Some? && IsActionWorthyChange(inventory.value), false)
    {
      if inventory.Some? && |controlled| > 0 {
        var t := controlled[0];
        var hasEquipmentChange := HasEquipmentChange(inventory.value);
        if t in counts && hasEquipmentChange && counts[t].full > 0 && combatStarted {
          if IsActionWorthyChange(inventory.value) {
            Spend(t, false);
          }
        }
      }
    }

    /** `trackActionsFromTemplate`: placing a template spends one full action. */
    method CreateTemplate(controlled: seq<TokenId>)
      requires Valid()
      modifies this, Repr
      ensures Valid() && counts == old(counts) && state == old(state) && Repr == old(Repr)
      ensures Triggered(old(ledger), old(attacks), ledger, attacks, controlled, true, false)
    {
      if |controlled| > 0 {
        var t := controlled[0];
        if t in counts {
          Spend(t, false);
        }
      }
    }

    /**
     * `trackActionsFromDialog`, when the dialog renders: an action dialog
     * opened while the first controlled token has a record arms the
     * dialog's submit and roll-button handlers with that record object.
     */
    method OpenDialog(controlled: seq<TokenId>, className: string, title: string, content: string)
      returns (arm: Option<DialogArm>)
      requires Valid()
      ensures arm.Some? <==> |controlled| > 0 && controlled[0] in counts && IsActionDialog(className, title)
      ensures arm.Some? ==>
        arm.value == DialogArm(controlled[0], counts[controlled[0]], DialogIsAttack(content))
    {
      arm := None;
      if |controlled| > 0 {
        var t := controlled[0];
        if t in counts && IsActionDialog(className, title) {
          arm := Some(DialogArm(t, counts[t], DialogIsAttack(content)));
        }
      }
    }

    /**
     * The armed dialog is submitted or its roll button clicked: the
     * captured record object spends one full action if it has one left.
     * Because no operation removes or replaces a record (`Keeps`), the
     * captured object is still the token's ledger record.
     */
    method FireDialog(arm: DialogArm)
      requires Valid()
      requires arm.token in counts && counts[arm.token] == arm.record
      modifies this, Repr
      ensures Valid() && counts == old(counts) && state == old(state) && Repr == old(Repr)
      ensures ledger == SpendLedger(old(ledger), arm.token)
      ensures attacks == SpendAttacks(old(ledger), old(attacks), arm.token, arm.isAttack)
    {
      if arm.record.full > 0 {
        if arm.isAttack {
          attacks := attacks[arm.token := AttackCount(attacks, arm.token) + 1];
        }
        arm.record.full := arm.record.full - 1;
        ledger := ledger[arm.token := arm.record.Value()];
      }
    }

    /**
     * `trackActionsFromMessage`: a message by an active author who is the
     * current user charges the first controlled token's record with the
     * message's cost (the flag, else the glyphs), then floors full actions
     * and reactions at 0.
     */
    method TrackMessage(controlled: seq<TokenId>, authorActive: bool, authorIsUser: bool,
                        flag: Option<ActionCost>, content: string)
      requires Valid()
      modifies this`ledger, Repr
      ensures Valid() && counts == old(counts)
      ensures authorActive && authorIsUser && |controlled| > 0 && controlled[0] in old(ledger) ==>
        ledger == old(ledger)[controlled[0] :=
                                    Charge(old(ledger)[controlled[0]], flag, CountGlyphs(content))]
      ensures !(authorActive && authorIsUser && |controlled| > 0 && controlled[0] in old(ledger)) ==>
        ledger == old(ledger)
    {
      if !authorActive {
        return;
      }
      var g := CountGlyphs(content);
      if authorIsUser && |controlled| > 0 {
        var t := controlled[0];
        if t in counts {
          ChargeRecord(t, flag, g);
        }
      }
    }

    /**
     * The charging half of `trackActionsFromMessage`: a present flag decides
     * the cost, otherwise the glyphs do; then full actions and reactions are
     * floored at 0 and quick actions are left alone.
     */
    method ChargeRecord(t: TokenId, flag: Option<ActionCost>, g: Glyphs)
      requires Valid() && t in counts
      modifies this`ledger, Repr
      ensures Valid() && counts == old(counts)
      ensures ledger == old(ledger)[t := Charge(old(ledger)[t], flag, g)]
    {
      var c := counts[t];
      ghost var r := ledger[t];
      var full, reaction := c.full, c.reaction;
      if flag.Some? {
        var cost := flag.value;
        if cost.kind == ActionKind && cost.value != 0 {
          full := full - cost.value;
        } else if cost.kind == ReactionKind {
          reaction := reaction - 1;
        }
      } else if g.ShowsAny() {
        var total := g.Total();
        if total > 0 {
          full := full - total;
        }
        if g.reactions > 0 {
          reaction := reaction - g.reactions;
        }
      }
      assert Floor(r.(full := full, reaction := reaction)) == Charge(r, flag, g);
      c.full, c.reaction := Max0(full), Max0(reaction);
      ledger := ledger[t := c.Value()];
    }

    /**
     * `handleCombatUpdate`: on a new round every roster token is reset to
     * the baseline (resolvable ones also get a zero attack counter), every
     * controlled token without a record gets one and every controlled
     * token's attack counter becomes 0; then the stored pointer takes the
     * fields the update carries, new round or not.
     */
    method HandleCombatUpdate(update: CombatUpdate, roster: seq<Combatant>, controlled: seq<TokenId>)
      requires Valid()
      modifies this, Repr
      ensures Valid() && Keeps(old(counts))
      ensures old(Repr) <= Repr && fresh(Repr - old(Repr))
      ensures IsNewRound(old(state), update) ==>
        && ledger == NewRoundLedger(old(ledger), roster, controlled)
        && attacks == NewRoundAttacks(old(attacks), roster, controlled)
      ensures !IsNewRound(old(state), update) ==> ledger == old(ledger) && attacks == old(attacks)
      ensures state == Advance(old(state), update)
    {
      if IsNewRound(state, update) {
        ResetRoster(roster);
        ResetControlled(controlled);
      }
      if update.round.Some? {
        state := state.(round := update.round.value);
      }
      if update.turn.Some? {
        state := state.(turn := update.turn.value);
      }
    }

    /** The roster loop of a new round. */
    method ResetRoster(roster: seq<Combatant>)
      requires Valid()
      modifies this, Repr
      ensures Valid() && Keeps(old(counts)) && state == old(state)
      ensures old(Repr) <= Repr && fresh(Repr - old(Repr))
      ensures ledger == RosterLedger(old(ledger), roster)
      ensures attacks == RosterAttacks(old(attacks), roster)
    {
      ghost var l0, a0 := ledger, attacks;
      var i := 0;
      while i < |roster|
        invariant 0 <= i <= |roster|
        invariant Valid() && Keeps(old(counts)) && state == old(state)
        invariant old(Repr) <= Repr && fresh(Repr - old(Repr))
        invariant ledger == RosterLedger(l0, roster[..i])
        invariant attacks == RosterAttacks(a0, roster[..i])
      {
        RosterSnoc(l0, a0, roster, i);
        var c := roster[i];
        if c.tokenId != "" {
          if c.resolvable {
            Reset(c.tokenId);
          } else {
            ResetRecord(c.tokenId);
          }
        }
        i := i + 1;
      }
      assert roster[..i] == roster;
    }

    /**
     * The controlled-token loop of a new round: a token without a record is
     * reset (which creates one), and every controlled token's attack counter
     * becomes 0.
     */
    method ResetControlled(controlled: seq<TokenId>)
      requires Valid()
      modifies this, Repr
      ensures Valid() && Keeps(old(counts)) && state == old(state)
      ensures old(Repr) <= Repr && fresh(Repr - old(Repr))
      ensures ledger == EnsureAll(old(ledger), controlled)
      ensures attacks == ZeroAttacks(old(attacks), controlled)
    {
      ghost var l0, a0 := ledger, attacks;
      var j := 0;
      while j < |controlled|
        invariant 0 <= j <= |controlled|
        invariant Valid() && Keeps(old(counts)) && state == old(state)
        invariant old(Repr) <= Repr && fresh(Repr - old(Repr))
        invariant ledger == EnsureAll(l0, controlled[..j])
        invariant attacks == ZeroAttacks(a0, controlled[..j])
      {
        EnsureAllSnoc(l0, controlled, j);
        ZeroAttacksSnoc(a0, controlled, j);
        ResetControlledToken(controlled[j]);
        j := j + 1;
      }
      assert controlled[..j] == controlled;
    }

    /**
     * One step of the controlled-token loop: a token without a record is
     * reset, and the token's attack counter becomes 0.
     */
    method ResetControlledToken(t: TokenId)
      requires Valid()
      modifies this, Repr
      ensures Valid() && Keeps(old(counts)) && state == old(state)
      ensures old(Repr) <= Repr && fresh(Repr - old(Repr))
      ensures ledger == Ensure(old(ledger), t)
      ensures attacks == old(attacks)[t := 0]
    {
      if t !in counts {
        Reset(t);
      }
      attacks := attacks[t := 0];
    }
  }

  /**
   * Select a token (with a non-empty id, as the roster loop skips an empty
   * one), click a button whose caption mentions "Strike" in any
   * casing, then advance the round: the new record is the baseline, the
   * click spends one full action and counts one attack, and the next
   * round's update restores the baseline and clears the attack counter.
   */
  lemma StrikeThenNewRound(t: TokenId, caption: string, round: int, turn: int)
    requires t != "" && Contains(Lower(caption), "strike")
    ensures var selected := Ensure(map[], t);
      var verdict := ClassifyButton(caption, "", "");
      var spent := SpendLedger(selected, t);
      var attacked := SpendAttacks(selected, map[t := 0], t, verdict.isAttack);
      var roster := [Combatant(t, true)];
      && selected[t] == Baseline
      && verdict.spends && verdict.isAttack
      && spent[t] == ActionRecord(2, 0, 1) && attacked[t] == 1
      && IsNewRound(CombatPointer(round, turn), CombatUpdate(Some(round + 1), Some(0)))
      && NewRoundLedger(spent, roster, [t])[t] == Baseline
      && NewRoundAttacks(attacked, roster, [t])[t] == 0
  {
    var selected := Ensure(map[], t);
    StrikeButtonIsAttack(caption, "", "");
    var spent := SpendLedger(selected, t);
    var attacked := SpendAttacks(selected, map[t := 0], t, true);
    NewRoundOutcome(spent, attacked, [Combatant(t, true)], [t]);
  }

  /**
   * The same scenario run through the tracker itself: a fresh tracker with
   * the token selected, one click on a strike button, then the next
   * round's update. Each method's frame lets the next call follow it.
   */
  method StrikeRoundTrip(t: TokenId, caption: string, round: int, turn: int)
    returns (afterStrike: ActionRecord, attacksAfterStrike: nat, afterRound: ActionRecord, attacksAfterRound: nat)
    requires t != "" && Contains(Lower(caption), "strike")
    ensures afterStrike == ActionRecord(2, 0, 1) && attacksAfterStrike == 1
    ensures afterRound == Baseline && attacksAfterRound == 0
  {
    var tracker := new ActionTracker(Some(CombatPointer(round, turn)), [t]);
    assert [t][..0] == [];
    assert tracker.ledger == map[t := Baseline];
    assert tracker.attacks == map[t := 0];
    StrikeButtonIsAttack(caption, "", "");
    tracker.ClickActionButton([t], caption, "", "");
    afterStrike := tracker.counts[t].Value();
    attacksAfterStrike := tracker.attacks[t];
    var spent, attacked := tracker.ledger, tracker.attacks;
    var roster := [Combatant(t, true)];
    tracker.HandleCombatUpdate(CombatUpdate(Some(round + 1), Some(0)), roster, [t]);
    NewRoundOutcome(spent, attacked, roster, [t]);
    afterRound := tracker.counts[t].Value();
    attacksAfterRound := tracker.attacks[t];
  }

  /**
   * An actor update whose inventory entries set quantities but no equipped
   * state passes the wrapper's first guard, yet its effect leaves both
   * tables unchanged: adjusting quantities never costs an action.
   */
  lemma QuantityOnlyUpdateCostsNothing(l: map<TokenId, ActionRecord>, a: map<TokenId, nat>,
                                       l': map<TokenId, ActionRecord>, a': map<TokenId, nat>,
                                       controlled: seq<TokenId>, combatStarted: bool,
                                       inventory: seq<InventoryChange>)
    requires forall k :: 0 <= k < |inventory| ==> !inventory[k].setsEquipped
    requires Triggered(l, a, l', a', controlled,
                       combatStarted && IsActionWorthyChange(inventory), false)
    ensures (exists k :: 0 <= k < |inventory| && inventory[k].setsQuantity) ==> HasEquipmentChange(inventory)
    ensures l' == l && a' == a
  {
  }
}
