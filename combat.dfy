/**
 * The round-advance policy: when a combat-tracker update counts as a new
 * round, what the stored round/turn pointer becomes, and what a new round
 * does to the ledger and the attack counters.
 */
module CombatRound {
  import opened Wrappers
  import opened ActionLedger

  /** The stored `currentCombatState`. */
  datatype CombatPointer = CombatPointer(round: int, turn: int)

  /** The fields of an `updateCombat` payload; a field the host did not send is `None`. */
  datatype CombatUpdate = CombatUpdate(round: Option<int>, turn: Option<int>)

  /**
   * A new round begins when the reported round is present and larger than
   * the stored one, or when the turn is reported as 0 while the stored turn
   * is not 0.
   */
  function IsNewRound(stored: CombatPointer, update: CombatUpdate): (b: bool)
    ensures update.round.Some? && update.round.value > stored.round ==> b
    ensures update.turn == Some(0) && stored.turn != 0 ==> b
    ensures b ==> update.round.Some? || update.turn == Some(0)
    ensures (!(update.round.Some? && update.round.value > stored.round)
             && !(update.turn == Some(0) && stored.turn != 0)) ==> !b
  {
    (update.round.Some? && update.round.value > stored.round)
    || (update.turn == Some(0) && stored.turn != 0)
  }

  /** The stored pointer after an update: each field the update carries is copied, the others stay. */
  function Advance(stored: CombatPointer, update: CombatUpdate): (next: CombatPointer)
    ensures update.round.Some? ==> next.round == update.round.value
    ensures update.round.None? ==> next.round == stored.round
    ensures update.turn.Some? ==> next.turn == update.turn.value
    ensures update.turn.None? ==> next.turn == stored.turn
  {
    var afterRound := if update.round.Some? then stored.(round := update.round.value) else stored;
    if update.turn.Some? then afterRound.(turn := update.turn.value) else afterRound
  }

  /** The same update delivered twice starts at most one new round. */
  lemma RepeatedUpdateDoesNotFireAgain(stored: CombatPointer, update: CombatUpdate)
    ensures !IsNewRound(Advance(stored, update), update)
  {
  }

  /** The worked examples: stored round 1, turn 2. */
  lemma NewRoundExamples()
    ensures IsNewRound(CombatPointer(1, 2), CombatUpdate(Some(2), Some(0)))
    ensures IsNewRound(CombatPointer(1, 2), CombatUpdate(Some(1), Some(0)))
    ensures !IsNewRound(CombatPointer(1, 2), CombatUpdate(Some(1), Some(1)))
  {
  }

  /**
   * One entry of the combat roster: its `tokenId` ("" when the combatant has
   * none) and whether the host can resolve that id to a token on the canvas.
   */
  datatype Combatant = Combatant(tokenId: TokenId, resolvable: bool)

  /** The token ids the roster names. */
  function RosterIds(roster: seq<Combatant>): set<TokenId> {
    set k | 0 <= k < |roster| && roster[k].tokenId != "" :: roster[k].tokenId
  }

  /** The token ids of roster entries the host resolves to a token. */
  function ResolvedIds(roster: seq<Combatant>): set<TokenId> {
    set k | 0 <= k < |roster| && roster[k].tokenId != "" && roster[k].resolvable :: roster[k].tokenId
  }

  lemma RosterIdsSnoc(roster: seq<Combatant>, c: Combatant)
    ensures RosterIds(roster + [c]) == RosterIds(roster) + (if c.tokenId != "" then {c.tokenId} else {})
    ensures ResolvedIds(roster + [c]) == ResolvedIds(roster) + (if c.tokenId != "" && c.resolvable then {c.tokenId} else {})
  {
    var r := roster + [c];
    assert forall k :: 0 <= k < |roster| ==> r[k] == roster[k];
    assert r[|roster|] == c;
  }

  /**
   * The ledger after the roster loop: entry by entry, every combatant with a
   * token id has that token's record set to the baseline.
   */
  function RosterLedger(l: map<TokenId, ActionRecord>, roster: seq<Combatant>): map<TokenId, ActionRecord>
    decreases |roster|
  {
    if roster == [] then l
    else
      var c := roster[|roster| - 1];
      var before := RosterLedger(l, roster[..|roster| - 1]);
      if c.tokenId != "" then before[c.tokenId := Baseline] else before
  }

  /**
   * After the roster loop every token the roster names holds the baseline
   * (created if absent), and every other record is unchanged.
   */
  lemma {:induction false} RosterLedgerSpec(l: map<TokenId, ActionRecord>, roster: seq<Combatant>)
    ensures var l' := RosterLedger(l, roster);
      && l'.Keys == l.Keys + RosterIds(roster)
      && (forall t :: t in RosterIds(roster) ==> l'[t] == Baseline)
      && (forall t :: t in l && t !in RosterIds(roster) ==> l'[t] == l[t])
    decreases |roster|
  {
    if roster != [] {
      var prefix, c := roster[..|roster| - 1], roster[|roster| - 1];
      assert roster == prefix + [c];
      RosterIdsSnoc(prefix, c);
      RosterLedgerSpec(l, prefix);
    }
  }

  /**
   * The attack counters after the roster loop: only resolvable entries go
   * through the token reset, which zeroes the attack counter.
   */
  function RosterAttacks(a: map<TokenId, nat>, roster: seq<Combatant>): map<TokenId, nat>
    decreases |roster|
  {
    if roster == [] then a
    else
      var c := roster[|roster| - 1];
      var before := RosterAttacks(a, roster[..|roster| - 1]);
      if c.tokenId != "" && c.resolvable then before[c.tokenId := 0] else before
  }

  /** After the roster loop every resolvable roster token has a zero attack counter; the others keep theirs. */
  lemma {:induction false} RosterAttacksSpec(a: map<TokenId, nat>, roster: seq<Combatant>)
    ensures var a' := RosterAttacks(a, roster);
      && a'.Keys == a.Keys + ResolvedIds(roster)
      && (forall t :: t in ResolvedIds(roster) ==> a'[t] == 0)
      && (forall t :: t in a && t !in ResolvedIds(roster) ==> a'[t] == a[t])
    decreases |roster|
  {
    if roster != [] {
      var prefix, c := roster[..|roster| - 1], roster[|roster| - 1];
      assert roster == prefix + [c];
      RosterIdsSnoc(prefix, c);
      RosterAttacksSpec(a, prefix);
    }
  }

  /** The token ids in a list of controlled tokens. */
  function Ids(tokens: seq<TokenId>): set<TokenId> {
    set k | 0 <= k < |tokens| :: tokens[k]
  }

  lemma IdsSnoc(tokens: seq<TokenId>, t: TokenId)
    ensures Ids(tokens + [t]) == Ids(tokens) + {t}
  {
    var r := tokens + [t];
    assert forall k :: 0 <= k < |tokens| ==> r[k] == tokens[k];
    assert r[|tokens|] == t;
  }

  /** The ledger after each of `tokens`, in order, is given a record if it has none. */
  function EnsureAll(l: map<TokenId, ActionRecord>, tokens: seq<TokenId>): map<TokenId, ActionRecord>
    decreases |tokens|
  {
    if tokens == [] then l
    else Ensure(EnsureAll(l, tokens[..|tokens| - 1]), tokens[|tokens| - 1])
  }

  /**
   * After every token has been ensured, existing records are kept as they
   * are and missing ones start at the baseline.
   */
  lemma {:induction false} EnsureAllSpec(l: map<TokenId, ActionRecord>, tokens: seq<TokenId>)
    ensures var l' := EnsureAll(l, tokens);
      && l'.Keys == l.Keys + Ids(tokens)
      && (forall t :: t in l ==> l'[t] == l[t])
      && (forall t :: t in Ids(tokens) && t !in l ==> l'[t] == Baseline)
    decreases |tokens|
  {
    if tokens != [] {
      var prefix, t := tokens[..|tokens| - 1], tokens[|tokens| - 1];
      assert tokens == prefix + [t];
      IdsSnoc(prefix, t);
      EnsureAllSpec(l, prefix);
    }
  }

  /** The attack counters after each of `tokens` has its counter set to 0. */
  function ZeroAttacks(a: map<TokenId, nat>, tokens: seq<TokenId>): map<TokenId, nat>
    decreases |tokens|
  {
    if tokens == [] then a
    else ZeroAttacks(a, tokens[..|tokens| - 1])[tokens[|tokens| - 1] := 0]
  }

  /** After zeroing, the tokens' counters are 0 and every other counter is kept. */
  lemma {:induction false} ZeroAttacksSpec(a: map<TokenId, nat>, tokens: seq<TokenId>)
    ensures var a' := ZeroAttacks(a, tokens);
      && a'.Keys == a.Keys + Ids(tokens)
      && (forall t :: t in Ids(tokens) ==> a'[t] == 0)
      && (forall t :: t in a && t !in Ids(tokens) ==> a'[t] == a[t])
    decreases |tokens|
  {
    if tokens != [] {
      var prefix, t := tokens[..|tokens| - 1], tokens[|tokens| - 1];
      assert tokens == prefix + [t];
      IdsSnoc(prefix, t);
      ZeroAttacksSpec(a, prefix);
    }
  }

  /** The ledger after a new round: the roster loop, then the controlled-token loop. */
  function NewRoundLedger(l: map<TokenId, ActionRecord>, roster: seq<Combatant>, controlled: seq<TokenId>)
    : map<TokenId, ActionRecord>
  {
    EnsureAll(RosterLedger(l, roster), controlled)
  }

  /** The attack counters after a new round. */
  function NewRoundAttacks(a: map<TokenId, nat>, roster: seq<Combatant>, controlled: seq<TokenId>)
    : map<TokenId, nat>
  {
    ZeroAttacks(RosterAttacks(a, roster), controlled)
  }

  /**
   * What a new round guarantees: every roster token is at the baseline,
   * every controlled token has a record and a zero attack counter, no record
   * is lost, and a token neither in the roster nor controlled keeps its
   * record and its attack counter.
   */
  lemma NewRoundOutcome(l: map<TokenId, ActionRecord>, a: map<TokenId, nat>,
                        roster: seq<Combatant>, controlled: seq<TokenId>)
    ensures var l' := NewRoundLedger(l, roster, controlled);
      && l.Keys <= l'.Keys
      && (forall k :: 0 <= k < |roster| && roster[k].tokenId != "" ==>
            roster[k].tokenId in l' && l'[roster[k].tokenId] == Baseline)
      && (forall k :: 0 <= k < |controlled| ==> controlled[k] in l')
      && (forall t :: t in l && t !in RosterIds(roster) ==> l'[t] == l[t])
    ensures var a' := NewRoundAttacks(a, roster, controlled);
      && (forall k :: 0 <= k < |controlled| ==> controlled[k] in a' && a'[controlled[k]] == 0)
      && (forall k :: 0 <= k < |roster| && roster[k].tokenId != "" && roster[k].resolvable ==>
            roster[k].tokenId in a' && a'[roster[k].tokenId] == 0)
      && (forall t :: t in a && t !in ResolvedIds(roster) && t !in Ids(controlled) ==> t in a' && a'[t] == a[t])
  {
    var r := RosterLedger(l, roster);
    RosterLedgerSpec(l, roster);
    EnsureAllSpec(r, controlled);
    var l' := EnsureAll(r, controlled);
    forall k | 0 <= k < |roster| && roster[k].tokenId != ""
      ensures roster[k].tokenId in l' && l'[roster[k].tokenId] == Baseline
    {
      assert roster[k].tokenId in RosterIds(roster);
    }
    forall k | 0 <= k < |controlled| ensures controlled[k] in l' {
      assert controlled[k] in Ids(controlled);
    }
    var ra := RosterAttacks(a, roster);
    RosterAttacksSpec(a, roster);
    ZeroAttacksSpec(ra, controlled);
    var a' := ZeroAttacks(ra, controlled);
    forall k | 0 <= k < |controlled| ensures controlled[k] in a' && a'[controlled[k]] == 0 {
      assert controlled[k] in Ids(controlled);
    }
    forall k | 0 <= k < |roster| && roster[k].tokenId != "" && roster[k].resolvable
      ensures roster[k].tokenId in a' && a'[roster[k].tokenId] == 0
    {
      var t := roster[k].tokenId;
      assert t in ResolvedIds(roster);
      if t !in Ids(controlled) {
        assert a'[t] == ra[t];
      }
    }
  }

  /** Every record a new round leaves behind is non-negative, given that every record was. */
  lemma NewRoundKeepsNonNegative(l: map<TokenId, ActionRecord>, roster: seq<Combatant>, controlled: seq<TokenId>)
    requires forall t :: t in l ==> NonNegative(l[t])
    ensures var l' := NewRoundLedger(l, roster, controlled); forall t :: t in l' ==> NonNegative(l'[t])
  {
    var r := RosterLedger(l, roster);
    RosterLedgerSpec(l, roster);
    EnsureAllSpec(r, controlled);
    assert forall t :: t in r ==> NonNegative(r[t]);
  }

  /** One more roster entry is one more step of the roster loop. */
  lemma RosterSnoc(l: map<TokenId, ActionRecord>, a: map<TokenId, nat>, roster: seq<Combatant>, i: nat)
    requires i < |roster|
    ensures RosterLedger(l, roster[..i + 1]) ==
      (var before := RosterLedger(l, roster[..i]);
       if roster[i].tokenId != "" then before[roster[i].tokenId := Baseline] else before)
    ensures RosterAttacks(a, roster[..i + 1]) ==
      (var before := RosterAttacks(a, roster[..i]);
       if roster[i].tokenId != "" && roster[i].resolvable then before[roster[i].tokenId := 0] else before)
  {
    assert roster[..i + 1][..i] == roster[..i];
  }

  /** One more controlled token is one more step of the ensure loop. */
  lemma EnsureAllSnoc(l: map<TokenId, ActionRecord>, tokens: seq<TokenId>, i: nat)
    requires i < |tokens|
    ensures EnsureAll(l, tokens[..i + 1]) == Ensure(EnsureAll(l, tokens[..i]), tokens[i])
  {
    assert tokens[..i + 1][..i] == tokens[..i];
  }

  /** One more controlled token is one more step of the zeroing loop. */
  lemma ZeroAttacksSnoc(a: map<TokenId, nat>, tokens: seq<TokenId>, i: nat)
    requires i < |tokens|
    ensures ZeroAttacks(a, tokens[..i + 1]) == ZeroAttacks(a, tokens[..i])[tokens[i] := 0]
  {
    assert tokens[..i + 1][..i] == tokens[..i];
  }
}
