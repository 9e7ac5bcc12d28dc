/**
 * The chat-message fallback: the action cost of a message, taken from the
 * game system's cost flag when there is one, otherwise from the action
 * glyphs in the message's markup, and its effect on one ledger record.
 */
module ChatCost {
  import opened Wrappers
  import opened ActionLedger
  import opened Text

  /** The `type` of a cost flag: "action", "reaction", or any other string. */
  datatype CostKind = ActionKind | ReactionKind | OtherKind

  /** `message.flags.pf2e.actionCost`: a cost kind and a value. */
  datatype ActionCost = ActionCost(kind: CostKind, value: int)

  /** How many 1-, 2- and 3-action glyphs and reaction glyphs a message shows. */
  datatype Glyphs = Glyphs(singles: nat, twos: nat, threes: nat, reactions: nat) {
    /** The full actions the glyphs stand for. */
    function Total(): nat {
      singles + 2 * twos + 3 * threes
    }

    /** The message shows at least one glyph of some kind. */
    predicate ShowsAny() {
      singles > 0 || twos > 0 || threes > 0 || reactions > 0
    }
  }

  const GlyphOpen: string := "<span class=\"action-glyph\">"
  const SingleGlyph: string := GlyphOpen + "1</span>"
  const TwoGlyph: string := GlyphOpen + "2</span>"
  const ThreeGlyph: string := GlyphOpen + "3</span>"
  const ReactionGlyph: string := GlyphOpen + "R</span>"

  /**
   * The glyph counts of a message body: matches of each literal glyph
   * element. A kind is counted exactly when its element occurs, and markup
   * without the glyph span's opening tag shows no glyph at all.
   */
  function CountGlyphs(content: string): (g: Glyphs)
    ensures g.singles > 0 <==> Contains(content, SingleGlyph)
    ensures g.twos > 0 <==> Contains(content, TwoGlyph)
    ensures g.threes > 0 <==> Contains(content, ThreeGlyph)
    ensures g.reactions > 0 <==> Contains(content, ReactionGlyph)
    ensures !Contains(content, GlyphOpen) ==> !g.ShowsAny()
  {
    var g := Glyphs(CountMatches(content, SingleGlyph), CountMatches(content, TwoGlyph),
                    CountMatches(content, ThreeGlyph), CountMatches(content, ReactionGlyph));
    assert !Contains(content, GlyphOpen) ==> !g.ShowsAny() by {
      if !Contains(content, GlyphOpen) {
        GlyphNeedsOpenTag(content, SingleGlyph, "1</span>");
        GlyphNeedsOpenTag(content, TwoGlyph, "2</span>");
        GlyphNeedsOpenTag(content, ThreeGlyph, "3</span>");
        GlyphNeedsOpenTag(content, ReactionGlyph, "R</span>");
      }
    }
    g
  }

  /** Clamp full actions and reactions at zero; quick actions are left alone. */
  function Floor(r: ActionRecord): ActionRecord {
    r.(full := Max0(r.full), reaction := Max0(r.reaction))
  }

  /**
   * The record after a chat message is charged: a present flag decides the
   * cost on its own (an "action" flag with a non-zero value takes that many
   * full actions, a "reaction" flag one reaction, any other flag nothing);
   * without a flag the glyphs are charged; then full actions and reactions
   * are clamped at zero.
   */
  function Charge(r: ActionRecord, flag: Option<ActionCost>, g: Glyphs): (r': ActionRecord)
    ensures r'.quick == r.quick
    ensures r'.full >= 0 && r'.reaction >= 0
    ensures flag.Some? && flag.value.kind == ActionKind ==>
      r'.full == Max0(r.full - flag.value.value) && r'.reaction == Max0(r.reaction)
    ensures flag.Some? && flag.value.kind == ReactionKind ==>
      r'.full == Max0(r.full) && r'.reaction == Max0(r.reaction - 1)
    ensures flag.Some? && flag.value.kind == OtherKind ==> r' == Floor(r)
  {
    var charged :=
      match flag
      case Some(cost) =>
        if cost.kind == ActionKind && cost.value != 0 then r.(full := r.full - cost.value)
        else if cost.kind == ReactionKind then r.(reaction := r.reaction - 1)
        else r
      case None =>
        if g.ShowsAny() then
          var full := if g.Total() > 0 then r.full - g.Total() else r.full;
          var reaction := if g.reactions > 0 then r.reaction - g.reactions else r.reaction;
          r.(full := full, reaction := reaction)
        else r;
    Floor(charged)
  }

  /**
   * Without a flag, full actions drop by the glyph total and reactions by
   * the reaction-glyph count, each clamped at zero; the guards the source
   * puts around the two subtractions make no difference.
   */
  lemma {:induction false} GlyphCharge(r: ActionRecord, g: Glyphs)
    ensures Charge(r, None, g) == ActionRecord(Max0(r.full - g.Total()), r.quick, Max0(r.reaction - g.reactions))
  {
    if !g.ShowsAny() {
      assert g.Total() == 0 && g.reactions == 0;
    }
  }

  /** Every glyph element begins with the glyph span's opening tag. */
  lemma GlyphNeedsOpenTag(content: string, glyph: string, mark: string)
    requires glyph == GlyphOpen + mark && |mark| > 0
    requires !Contains(content, GlyphOpen)
    ensures CountMatches(content, glyph) == 0
  {
    if CountMatches(content, glyph) > 0 {
      var i: nat :| OccursAt(content, glyph, i);
      assert content[i..i + |GlyphOpen|] == content[i..i + |glyph|][..|GlyphOpen|];
      assert OccursAt(content, GlyphOpen, i);
    }
  }

  /**
   * A message without a flag and without any glyph markup leaves a
   * non-negative record exactly as it was.
   */
  lemma PlainMessageCostsNothing(r: ActionRecord, content: string)
    requires NonNegative(r)
    requires !Contains(content, GlyphOpen)
    ensures Charge(r, None, CountGlyphs(content)) == r
  {
    var g := CountGlyphs(content);
    assert g.Total() == 0 by {
      assert g.singles == 0 && g.twos == 0 && g.threes == 0;
    }
    ZeroGlyphsCostNothing(r, g);
  }

  lemma ZeroGlyphsCostNothing(r: ActionRecord, g: Glyphs)
    requires NonNegative(r)
    requires g.Total() == 0 && g.reactions == 0
    ensures Charge(r, None, g) == r
  {
    GlyphCharge(r, g);
  }

  /** With a flag present, the glyphs in the message do not matter. */
  lemma FlagOverridesGlyphs(r: ActionRecord, cost: ActionCost, g1: Glyphs, g2: Glyphs)
    ensures Charge(r, Some(cost), g1) == Charge(r, Some(cost), g2)
  {
  }
}
