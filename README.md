# DS Action Tracker — action ledger model

DS Action Tracker is a browser-side add-on for a virtual tabletop host running
the PF2e rules. It keeps a per-token action economy of three counters: full
actions, quick actions and reactions. It spends from them when it sees signs
that an action was taken, such as a rolled action, a clicked sheet button, a
submitted roll dialog, a placed template, an equipment change or the action
glyphs in a chat message. It resets the counters when the combat tracker
reports a new round.

This project models the add-on's state and every rule that changes it:

- the action ledger `actionCounts` (token id → `{full, quick, reaction}`),
- the attack counters `attackCounts`,
- the stored combat pointer `currentCombatState`,
- record creation and reset, the manual controls, the round-advance policy,
  the single-step spend triggers with their keyword classifiers, and the
  chat-message cost arithmetic.

Modules:

- `Wrappers` (wrappers.dfy): `Option`, for payload fields that may be missing.
- `Text` (text.dfy): lower-casing, `includes`, and counting the matches of a
  literal pattern.
- `ActionLedger` (ledger.dfy): records as values, the baseline `{3, 0, 1}`,
  and the value-level effect of create-if-absent, adjust, set and spend.
  `Triggered` is the shared guard of the single-step triggers: spend for the
  first controlled token when the trigger fires, otherwise change nothing.
- `Keywords` (keywords.dfy): the substring classifiers of each trigger,
  including the two inventory guards `HasEquipmentChange` (main.mjs:114-117)
  and `IsActionWorthyChange` (main.mjs:121-125).
- `CombatRound` (combat.dfy): the new-round test, the pointer update, and what
  a new round does to both tables.
- `ChatCost` (chat.dfy): the cost of a chat message and its effect on one
  record. `Glyphs.Total` is the full actions the glyphs stand for, as at
  main.mjs:550.
- `Tracker` (tracker.dfy): the state itself, as class `ActionTracker`. Its
  records are objects of class `Counts` that are mutated in place. The source
  shares these records by reference: a dialog handler captures one when the
  dialog opens and spends from it later. A ghost map `ledger` holds the
  records' contents as values. `Valid()` ties `ledger` to the objects and
  keeps every counter non-negative. Every method states its new `ledger`,
  `attacks` and `state` through the functions of the modules above. Every
  method also keeps each token's record object, with `counts == old(counts)`
  or `Keeps(old(counts))`, so no entry is ever removed or replaced. Every
  method also says what becomes of `Repr`: it is unchanged, or it keeps every
  old record and gains only fresh ones. That is what lets the methods be called one after another.

Host state is passed in as parameters:

- `controlled`: the controlled tokens, in selection order. The acting token is
  always the first.
- `combatStarted`: `game.combat?.started`.
- `roster`: the combat roster. Each entry has a token id and says whether the
  canvas resolves that id to a token.
- the chat author's flags: active, and the current user.
- the `pf2e.actionCost` flag.
- the inventory part of an actor update.
- the texts a classifier reads (action or item name, button caption and
  tooltip, dialog class name, title and body text, message markup).

## Round-advance details

- The stored pointer takes only the fields the update carries (main.mjs:638-639). A missing round or turn leaves the stored one as it was.
- The round test is strict: `update.round > stored round`. A reported turn of 0 also starts a new round when the stored turn is not 0.
- On a new round, roster tokens that the canvas resolves go through `resetTokenActions`, so their attack counters are zeroed too, not only those of the selected tokens. Roster tokens it does not resolve have their record set to the baseline in place, and their attack counters are left as they were.

## Model

| member | source | states |
|---|---|---|
| `Text.Lower` | main.mjs:213-227 | lower-casing keeps the length and changes exactly the letters A-Z, each to its lower-case letter |
| `Text.Contains` | main.mjs:213-227 | `includes` is true exactly when the needle occurs at some position of the text |
| `Text.CountMatches` | main.mjs:516-519 | the number of glyph matches is at most the text length, and it is positive exactly when the text contains the glyph |
| `Text.CountMatchesFits` | main.mjs:516-519 | the matches are disjoint: their count times the pattern length fits in the text |
| `ActionLedger.Ensure` | main.mjs:667-679 | create-if-absent: the token gains a record, every existing record is kept, and a new one is the baseline `{3, 0, 1}` |
| `ActionLedger.EnsureIdempotent` | main.mjs:667-679 | ensuring a record twice equals ensuring it once |
| `ActionLedger.Adjusted` | main.mjs:856-881 | the chosen counter becomes `max(0, old + change)`, the other two are unchanged, and non-negativity is preserved |
| `ActionLedger.ManuallySet` | main.mjs:845-848 | the chosen counter becomes `max(0, value)`, the other two are unchanged, and non-negativity is preserved |
| `ActionLedger.SpendLedger` | main.mjs:234-243 | only a record with `full > 0` loses exactly one full action; quick, reaction, other tokens and the key set are unchanged; at `full = 0` nothing changes; non-negativity is preserved |
| `ActionLedger.SpendAttacks` | main.mjs:234-240 | the attack counter rises by one only for an attack inside the spend branch; otherwise the counters are unchanged |
| `Keywords.MentionsAny` | main.mjs:213-227 | an `||`-chain of `includes` is true exactly when some word of the list occurs in the text |
| `Keywords.RollActionIsAttack` | main.mjs:212-214 | a rolled action is an attack exactly when its lower-cased name contains "strike" or "attack" |
| `Keywords.StrikeNameIsAttack` | main.mjs:212-214 | any name containing some casing of "strike" is classified as an attack |
| `Keywords.ItemAttackSpendsUnlessTraitOnly` | main.mjs:287-302 | an item classified as an attack also spends, unless only its "attack" trait marks it (no action type, not a spell) |
| `Keywords.ClassifyButton` | main.mjs:337-371 | a button classified as an attack is always one that spends |
| `Keywords.StrikeButtonIsAttack` | main.mjs:341-371 | a button whose caption mentions "strike" in any casing spends an action and counts as an attack |
| `Keywords.ItemIsAction` | main.mjs:287-290 | every spell and every item with an action type is an action; an item that is not one has neither the "action" trait nor "strike" in its name |
| `Keywords.ItemIsAttack` | main.mjs:293-295 | every attack item is an action item or carries the "attack" trait; an item named for a strike is both an attack and an action |
| `Keywords.ItemIsManipulate` | main.mjs:298-300 | an item is a manipulate item exactly when its lower-cased name contains "sheathe", "draw" or "parry" |
| `Keywords.ItemSpends` | main.mjs:302 | the item roll spends for every spell, every item with an action type and every manipulate item; an item that does not spend is neither a spell nor a strike |
| `Keywords.IsMapButton` | main.mjs:172-178 | a button is a multiple-attack button exactly when its lower-cased caption contains "second", "third", "-5" or "-10", or its lower-cased tooltip contains "map", "second" or "third" |
| `Keywords.IsActionDialog` | main.mjs:407-421 | a dialog is action-related exactly when its class is "CheckModifiersDialog" or contains "Action", or its title contains one of the ten capitalised words, case-sensitively |
| `Keywords.DialogIsAttack` | main.mjs:425-451 | a dialog counts as an attack exactly when its lower-cased text contains "second", "third", "-5", "-10", "map", "attack" or "strike" |
| `Tracker.QuantityOnlyUpdateCostsNothing` | main.mjs:114-127 | an update whose entries set quantities but no equipped state passes the first guard, yet leaves the ledger and attack counters unchanged |
| `CombatRound.IsNewRound` | main.mjs:595-598 | a later round, or turn 0 reported while the stored turn is not 0, starts a new round, and nothing else does |
| `CombatRound.Advance` | main.mjs:638-639 | each field the update carries replaces the stored one; a missing field leaves it as it was |
| `CombatRound.RepeatedUpdateDoesNotFireAgain` | main.mjs:594-639 | once an update has been applied, the same update delivered again does not start a new round |
| `CombatRound.NewRoundExamples` | main.mjs:594-598 | from round 1, turn 2: `{2, 0}` and `{1, 0}` start a new round and `{1, 1}` does not |
| `CombatRound.RosterLedgerSpec` | main.mjs:602-625 | after the roster loop every named roster token holds the baseline (created if absent), other records are kept, and the key set grows by the roster ids |
| `CombatRound.RosterAttacksSpec` | main.mjs:603-607 | after the roster loop every resolvable roster token has attack count 0 and the other counters are kept |
| `CombatRound.EnsureAllSpec` | main.mjs:628-631 | after the controlled-token loop every controlled token has a record, existing records are kept and missing ones are the baseline |
| `CombatRound.ZeroAttacksSpec` | main.mjs:628-634 | after the controlled-token loop every controlled token has attack count 0 and the other counters are kept |
| `CombatRound.NewRoundOutcome` | main.mjs:598-635 | a new round keeps every record key, leaves every named roster token at the baseline, gives every controlled token a record and a zero attack count, zeroes resolvable roster tokens' attack counts, and leaves tokens outside both lists unchanged |
| `CombatRound.NewRoundKeepsNonNegative` | main.mjs:598-635 | a new round keeps every counter non-negative |
| `ChatCost.CountGlyphs` | main.mjs:516-519 | each glyph kind is counted exactly when its element occurs in the markup, and markup without the glyph span's opening tag shows no glyph |
| `ChatCost.Charge` | main.mjs:537-563 | quick actions never change; full actions and reactions end non-negative; an "action" flag subtracts its value from full, a "reaction" flag subtracts one reaction, any other flag only clamps |
| `ChatCost.GlyphCharge` | main.mjs:548-563 | without a flag, full drops by `singles + 2·twos + 3·threes` and reaction by the R count, each clamped at 0 |
| `ChatCost.FlagOverridesGlyphs` | main.mjs:539-549 | when a flag is present, the glyphs in the message make no difference |
| `ChatCost.PlainMessageCostsNothing` | main.mjs:515-563 | a message with no flag and no glyph markup leaves a non-negative record unchanged |
| `Tracker.Counts.constructor` | main.mjs:645-649 | a new record holds the baseline `{3, 0, 1}` |
| `Tracker.ActionTracker.constructor` | main.mjs:36-50 | start-up copies the current combat's round and turn (else 0, 0) and initializes every pre-controlled token |
| `Tracker.ActionTracker.Initialize` | main.mjs:667-682 | create-if-absent on the ledger, an existing record object is kept, the attack count becomes 0, validity is preserved |
| `Tracker.ActionTracker.ResetRecord` | main.mjs:608-621 | the token's record becomes exactly the baseline, overwritten in place or created; every other record and the attack counters are unchanged |
| `Tracker.ActionTracker.Reset` | main.mjs:642-658 | after a reset the token's record is exactly `{3, 0, 1}` and its attack count 0, whatever they were; other tokens are unchanged |
| `Tracker.ActionTracker.AdjustActionCount` | main.mjs:856-863 | full actions become `max(0, old + change)`; quick, reaction and other tokens are unchanged; without a record nothing changes |
| `Tracker.ActionTracker.AdjustQuickCount` | main.mjs:865-872 | quick actions become `max(0, old + change)`; the rest is unchanged; without a record nothing changes |
| `Tracker.ActionTracker.AdjustReactionCount` | main.mjs:874-881 | reactions become `max(0, old + change)`; the rest is unchanged; without a record nothing changes |
| `Tracker.ActionTracker.SetCounter` | main.mjs:841-854 | with a numeric input and a record, the chosen counter becomes `max(0, value)`; otherwise the ledger is unchanged |
| `Tracker.ActionTracker.Spend` | main.mjs:234-243 | the shared decrement: the ledger and attack counters change exactly as `SpendLedger` and `SpendAttacks` say |
| `Tracker.ActionTracker.RollAction` | main.mjs:208-256 | any rolled action spends one full action of the first controlled token, counting an attack exactly for "strike"/"attack" names |
| `Tracker.ActionTracker.RollSkill` | main.mjs:260-274 | a skill roll spends one full action only during a started combat, never counting an attack |
| `Tracker.ActionTracker.RollItem` | main.mjs:278-322 | an action or manipulate item spends one full action, counting an attack when the item is an attack |
| `Tracker.ActionTracker.ClickActionButton` | main.mjs:330-390 | a sheet button spends as its classification says and counts an attack for a multiple-attack or strike/attack caption |
| `Tracker.ActionTracker.ClickMapButton` | main.mjs:165-197 | a multiple-attack button spends one full action and leaves the attack counter alone |
| `Tracker.ActionTracker.ClickInventoryButton` | main.mjs:139-157 | an equipment button spends one full action only during a started combat |
| `Tracker.ActionTracker.UpdateInventory` | main.mjs:107-136 | an actor update spends one full action only during a started combat and only when some inventory entry changes an equipped state |
| `Tracker.ActionTracker.CreateTemplate` | main.mjs:572-589 | placing a template spends one full action of the first controlled token |
| `Tracker.ActionTracker.OpenDialog` | main.mjs:394-423 | a dialog is armed exactly when a token is controlled, that token has a record and the dialog is an action dialog; the arm captures that token's own record object and the attack classification of the dialog text |
| `Tracker.ActionTracker.FireDialog` | main.mjs:446-494 | submitting the armed dialog, or clicking its roll button, spends through the captured object, which is still the token's ledger record |
| `Tracker.ActionTracker.TrackMessage` | main.mjs:501-568 | a message from an active author who is the current user charges the first controlled token's record by `Charge`; any other message leaves the ledger unchanged |
| `Tracker.ActionTracker.ChargeRecord` | main.mjs:537-563 | the in-place subtract-then-clamp on one record equals `Charge` on its old contents |
| `Tracker.ActionTracker.HandleCombatUpdate` | main.mjs:591-640 | on a new round both tables become `NewRoundLedger` and `NewRoundAttacks`; otherwise they are unchanged; the pointer always becomes `Advance` of the update |
| `Tracker.ActionTracker.ResetRoster` | main.mjs:602-625 | the roster loop leaves the tables as `RosterLedger` and `RosterAttacks` say |
| `Tracker.ActionTracker.ResetControlled` | main.mjs:628-634 | the controlled-token loop ensures a record for each token and zeroes its attack count |
| `Tracker.ActionTracker.ResetControlledToken` | main.mjs:628-633 | one step of the controlled-token loop: the token gets a record if it has none (an existing record object is kept) and its attack count becomes 0 |
| `Tracker.StrikeThenNewRound` | main.mjs:341-377 | select a token, click a "Strike" button, then advance the round: the baseline is created, full drops to 2 and the attack count reaches 1, then `{round + 1, 0}` restores `{3, 0, 1}` and attack count 0 |
| `Tracker.StrikeRoundTrip` | main.mjs:591-640 | the same scenario run through a fresh tracker's methods in sequence: after the strike the record is `{2, 0, 1}` with one attack, and after the next round's update it is `{3, 0, 1}` with none |

## Left out

- Presentation is not modelled: `createTokenBubble`, `updateBubbleDisplay`, `updateBubbleForToken`, `removeTokenBubble`, `makeDraggable`, and the close button. They only read the ledger or change the page. The default value offered by `adjustCounter`'s prompt is presentation too.
- The `canAdjustCounters` role check is not modelled. It only decides whether the manual controls are shown; the controls themselves are modelled.
- Hook registration, the `game.system.id` check, and the delegating calls of the wrapped host methods are not modelled. Each wrapper is modelled by the ledger work it does before it delegates.
- The 100 ms `setTimeout` delays are not modelled. Each delayed callback is one atomic step.
- `SetCounter` takes the parsed input as `Option<int>`. JavaScript's coercions are not modelled. For example, an empty entry passes `isNaN` and stores `NaN`.
- Numbers are unbounded integers. JavaScript doubles are not modelled, so a fractional or `NaN` cost flag is not covered.
- `Text.Lower` changes only the ASCII letters A-Z. Other Unicode case mappings of `toLowerCase` are not modelled.
- Element selection by jQuery selectors and text extraction from HTML are not modelled. Each handler receives the caption, tooltip, `data-action`, dialog text or message markup as a string, and is assumed to be attached to a matching element.
- Chat glyphs are counted as literal matches of the four glyph elements. These are the same literal patterns as the source's regular expressions.
- `OpenDialog` does not model whether the dialog has a form. Without one the submit handler is not installed, but the roll-button handler is. `FireDialog` models either handler firing.
- Several triggers can fire for one user action, for example a button click, then the dialog, then the chat message. Each is modelled as its own operation. Their combined effect is whatever the sequence of calls does, and no deduplication is modelled. The source has none either: its `recentActions` set is never used.
- `console.log` output is not modelled.
