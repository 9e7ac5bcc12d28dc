/**
 * The values held in the action ledger: one record of three counters per
 * token, and the single-record updates the tracker applies to them.
 * The tracker (module Tracker) keeps these records as objects that it
 * mutates in place; this module describes their contents as values.
 */
module ActionLedger {

  /** The host's opaque token identifier, the join key of every table. */
  type TokenId = string

  /** A token's remaining full actions, quick actions and reactions. */
  datatype ActionRecord = ActionRecord(full: int, quick: int, reaction: int)

  /** The per-round allowance: three actions, no quick action, one reaction. */
  const Baseline: ActionRecord := ActionRecord(3, 0, 1)

  predicate NonNegative(r: ActionRecord) {
    r.full >= 0 && r.quick >= 0 && r.reaction >= 0
  }

  /** The three counter names the manual controls address (`'full'`, `'quick'`, `'reaction'`). */
  datatype Field = Full | Quick | Reaction

  function Get(r: ActionRecord, f: Field): int {
    match f
    case Full => r.full
    case Quick => r.quick
    case Reaction => r.reaction
  }

  /** `counts[type] = v`: the named counter becomes `v`, the other two stay. */
  function Put(r: ActionRecord, f: Field, v: int): (r': ActionRecord)
    ensures Get(r', f) == v
    ensures forall g :: g != f ==> Get(r', g) == Get(r, g)
  {
    match f
    case Full => r.(full := v)
    case Quick => r.(quick := v)
    case Reaction => r.(reaction := v)
  }

  /**
   * Create-if-absent: a token without a record gets the baseline, a token
   * with one keeps it as it is.
   */
  function Ensure(l: map<TokenId, ActionRecord>, t: TokenId): (l': map<TokenId, ActionRecord>)
    ensures l'.Keys == l.Keys + {t}
    ensures forall u :: u in l ==> l'[u] == l[u]
    ensures t !in l ==> l'[t] == Baseline
  {
    if t in l then l else l[t := Baseline]
  }

  /** Ensuring a record twice is the same as ensuring it once. */
  lemma EnsureIdempotent(l: map<TokenId, ActionRecord>, t: TokenId)
    ensures Ensure(Ensure(l, t), t) == Ensure(l, t)
  {
  }

  /** `Math.max(0, x)`. */
  function Max0(x: int): (m: int)
    ensures m >= 0 && m >= x
    ensures m == x || m == 0
  {
    if x > 0 then x else 0
  }

  /** A counter changed by `change` and floored at zero (the +/- buttons and +HASTE). */
  function Adjusted(r: ActionRecord, f: Field, change: int): (r': ActionRecord)
    ensures Get(r', f) >= 0
    ensures Get(r, f) + change >= 0 ==> Get(r', f) == Get(r, f) + change
    ensures Get(r, f) + change < 0 ==> Get(r', f) == 0
    ensures forall g :: g != f ==> Get(r', g) == Get(r, g)
    ensures NonNegative(r) ==> NonNegative(r')
  {
    Put(r, f, Max0(Get(r, f) + change))
  }

  /** A counter set to a typed-in value, floored at zero. */
  function ManuallySet(r: ActionRecord, f: Field, value: int): (r': ActionRecord)
    ensures Get(r', f) >= 0
    ensures value >= 0 ==> Get(r', f) == value
    ensures value < 0 ==> Get(r', f) == 0
    ensures forall g :: g != f ==> Get(r', g) == Get(r, g)
    ensures NonNegative(r) ==> NonNegative(r')
  {
    Put(r, f, Max0(value))
  }

  /**
   * The effect of every single-step spend trigger on the ledger: the acting
   * token loses exactly one full action when it has a record with a full
   * action left; nothing else changes.
   */
  function SpendLedger(l: map<TokenId, ActionRecord>, t: TokenId): (l': map<TokenId, ActionRecord>)
    ensures l'.Keys == l.Keys
    ensures forall u :: u in l && u != t ==> l'[u] == l[u]
    ensures t in l && l[t].full > 0 ==> l'[t] == ActionRecord(l[t].full - 1, l[t].quick, l[t].reaction)
    ensures t in l && l[t].full <= 0 ==> l'[t] == l[t]
    ensures forall u :: u in l && NonNegative(l[u]) ==> NonNegative(l'[u])
  {
    if t in l && l[t].full > 0 then l[t := l[t].(full := l[t].full - 1)] else l
  }

  /** `attackCounts.get(t) || 0`. */
  function AttackCount(a: map<TokenId, nat>, t: TokenId): nat {
    if t in a then a[t] else 0
  }

  /**
   * The effect of a spend trigger on the attack counters: the acting
   * token's count rises by one only inside the spend branch, and only for
   * an attack.
   */
  function SpendAttacks(l: map<TokenId, ActionRecord>, a: map<TokenId, nat>, t: TokenId, isAttack: bool)
    : (a': map<TokenId, nat>)
    ensures forall u :: u != t ==> (u in a' <==> u in a) && (u in a ==> a'[u] == a[u])
    ensures isAttack && t in l && l[t].full > 0 ==> t in a' && a'[t] == AttackCount(a, t) + 1
    ensures !(isAttack && t in l && l[t].full > 0) ==> a' == a
  {
    if isAttack && t in l && l[t].full > 0 then a[t := AttackCount(a, t) + 1] else a
  }

  /**
   * The effect of one single-step spend trigger on both tables: when the
   * trigger fires and some token is controlled, the first controlled token
   * is charged as SpendLedger and SpendAttacks say; otherwise nothing changes.
   */
  predicate Triggered(l: map<TokenId, ActionRecord>, a: map<TokenId, nat>,
                      l': map<TokenId, ActionRecord>, a': map<TokenId, nat>,
                      controlled: seq<TokenId>, fires: bool, isAttack: bool)
  {
    if fires && |controlled| > 0 then
      l' == SpendLedger(l, controlled[0]) && a' == SpendAttacks(l, a, controlled[0], isAttack)
    else
      l' == l && a' == a
  }
}
