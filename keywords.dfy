/**
 * The substring classifiers the spend triggers use to decide whether an
 * event costs an action and whether it counts as an attack. Each word list
 * is one of the source's `||`-chains of `includes` calls; a text "mentions"
 * a list when it contains one of its words.
 */
module Keywords {
  import opened Text

  const AttackWords: seq<string> := ["strike", "attack"]
  const ManipulateWords: seq<string> := ["sheathe", "draw", "pick", "drop", "take"]
  const DefensiveWords: seq<string> := ["parry", "raise", "cover", "shield"]
  /** Words that mark a multiple-attack button by its caption. */
  const MapTextWords: seq<string> := ["second", "third", "-5", "-10"]
  /** Words that mark a multiple-attack button by its tooltip. */
  const MapTitleWords: seq<string> := ["map", "second", "third"]
  const ActionButtonWords: seq<string> := ["strike", "attack", "cast", "skill"]
  /** Dialog titles are matched with their original capitalisation. */
  const DialogTitleWords: seq<string> :=
    ["Strike", "Attack", "Cast", "Skill", "Check", "Sheathe", "Draw", "Parry", "Raise", "Cover"]
  const DialogMapWords: seq<string> := ["second", "third", "-5", "-10", "map"]
  const ItemManipulateWords: seq<string> := ["sheathe", "draw", "parry"]

  /** `s` contains at least one of `words`. */
  function MentionsAny(s: string, words: seq<string>): (b: bool)
    ensures b <==> exists k :: 0 <= k < |words| && Contains(s, words[k])
  {
    if words == [] then false
    else Contains(s, words[0]) || MentionsAny(s, words[1..])
  }

  /** Mentioning a word of `a + b` is mentioning a word of `a` or a word of `b`. */
  lemma {:induction false} MentionsAppend(s: string, a: seq<string>, b: seq<string>)
    ensures MentionsAny(s, a + b) <==> MentionsAny(s, a) || MentionsAny(s, b)
  {
    if a != [] {
      assert (a + b)[1..] == a[1..] + b;
      MentionsAppend(s, a[1..], b);
    } else {
      assert a + b == b;
    }
  }

  // Word lists spelled out as the `||`-chains they stand for.

  lemma Mentions2(s: string, w0: string, w1: string)
    ensures MentionsAny(s, [w0, w1]) <==> Contains(s, w0) || Contains(s, w1)
  {
    assert [w0, w1][1..] == [w1];
    assert [w1][1..] == [];
  }

  lemma Mentions3(s: string, w0: string, w1: string, w2: string)
    ensures MentionsAny(s, [w0, w1, w2]) <==> Contains(s, w0) || Contains(s, w1) || Contains(s, w2)
  {
    assert [w0, w1, w2][1..] == [w1, w2];
    Mentions2(s, w1, w2);
  }

  lemma Mentions4(s: string, w0: string, w1: string, w2: string, w3: string)
    ensures MentionsAny(s, [w0, w1, w2, w3]) <==>
      Contains(s, w0) || Contains(s, w1) || Contains(s, w2) || Contains(s, w3)
  {
    assert [w0, w1, w2, w3][1..] == [w1, w2, w3];
    Mentions3(s, w1, w2, w3);
  }

  lemma Mentions5(s: string, w0: string, w1: string, w2: string, w3: string, w4: string)
    ensures MentionsAny(s, [w0, w1, w2, w3, w4]) <==>
      Contains(s, w0) || Contains(s, w1) || Contains(s, w2) || Contains(s, w3) || Contains(s, w4)
  {
    assert [w0, w1, w2, w3, w4][1..] == [w1, w2, w3, w4];
    Mentions4(s, w1, w2, w3, w4);
  }

  // ---- actor.rollAction -------------------------------------------------

  /** A rolled action is an attack exactly when its lower-cased name contains "strike" or "attack". */
  function RollActionIsAttack(actionName: string): (b: bool)
    ensures b <==> Contains(Lower(actionName), "strike") || Contains(Lower(actionName), "attack")
  {
    Mentions2(Lower(actionName), "strike", "attack");
    MentionsAny(Lower(actionName), AttackWords)
  }

  /** Any name in which some casing of "strike" appears is an attack. */
  lemma StrikeNameIsAttack(before: string, word: string, after: string)
    requires Lower(word) == "strike"
    ensures RollActionIsAttack(before + word + after)
  {
    LowerConcat(before + word, after);
    LowerConcat(before, word);
    var low := Lower(before + word + after);
    assert low == Lower(before) + "strike" + Lower(after);
    assert low[|before|..|before| + 6] == "strike";
    assert OccursAt(low, "strike", |before|);
  }

  // ---- item.roll ---------------------------------------------------------

  /**
   * The parts of an item the item-roll wrapper inspects: its name, its
   * `system.actionType` (empty when absent), its trait list and its type.
   */
  datatype Item = Item(name: string, actionType: string, traits: seq<string>, kind: string)

  /**
   * The item roll consumes an action. Trait lists are searched for an exact
   * element. Every spell and every item with some action type is an action;
   * an item that is none of the four kinds is not.
   */
  function ItemIsAction(item: Item): (b: bool)
    ensures item.kind == "spell" || item.actionType != "" ==> b
    ensures !b ==> "action" !in item.traits && !Contains(Lower(item.name), "strike")
  {
    item.actionType != "" || "action" in item.traits
    || Contains(Lower(item.name), "strike") || item.kind == "spell"
  }

  /**
   * The item counts as an attack. Every attack except one marked only by
   * its "attack" trait is also an action, and a strike is both.
   */
  function ItemIsAttack(item: Item): (b: bool)
    ensures b ==> ItemIsAction(item) || "attack" in item.traits
    ensures Contains(Lower(item.name), "strike") ==> b && ItemIsAction(item)
  {
    Contains(Lower(item.name), "strike") || item.actionType == "action" || "attack" in item.traits
  }

  /** The item's name mentions sheathing, drawing or parrying, in any case. */
  function ItemIsManipulate(item: Item): (b: bool)
    ensures b <==> Contains(Lower(item.name), "sheathe") || Contains(Lower(item.name), "draw")
                   || Contains(Lower(item.name), "parry")
  {
    Mentions3(Lower(item.name), "sheathe", "draw", "parry");
    MentionsAny(Lower(item.name), ItemManipulateWords)
  }

  /**
   * The item-roll wrapper spends for an action item or a manipulate item:
   * every spell, every item with an action type, every strike and every
   * sheathe, draw or parry item. An item that does not spend is neither a
   * spell nor a strike.
   */
  function ItemSpends(item: Item): (b: bool)
    ensures item.kind == "spell" || item.actionType != "" || ItemIsManipulate(item) ==> b
    ensures !b ==> item.kind != "spell" && !Contains(Lower(item.name), "strike")
  {
    ItemIsAction(item) || ItemIsManipulate(item)
  }

  /**
   * An item whose name mentions "strike" or whose action type is "action"
   * both spends and counts as an attack; only an "attack" trait alone can
   * mark an attack that does not spend.
   */
  lemma ItemAttackSpendsUnlessTraitOnly(item: Item)
    requires ItemIsAttack(item)
    ensures ItemSpends(item) || ("attack" in item.traits && item.actionType == "" && item.kind != "spell")
  {
  }

  // ---- multiple-attack and sheet buttons --------------------------------

  /** The button is a multiple-attack button, by caption or by tooltip, in any case. */
  function IsMapButton(text: string, title: string): (b: bool)
    ensures b <==>
      Contains(Lower(text), "second") || Contains(Lower(text), "third")
      || Contains(Lower(text), "-5") || Contains(Lower(text), "-10")
      || Contains(Lower(title), "map") || Contains(Lower(title), "second") || Contains(Lower(title), "third")
  {
    Mentions4(Lower(text), "second", "third", "-5", "-10");
    Mentions3(Lower(title), "map", "second", "third");
    MentionsAny(Lower(text), MapTextWords) || MentionsAny(Lower(title), MapTitleWords)
  }

  /** What the sheet-button listener reads off a clicked button. */
  datatype ButtonVerdict = ButtonVerdict(spends: bool, isAttack: bool)

  /** The sheet-button classifier: caption, tooltip and `data-action` attribute. */
  function ClassifyButton(text: string, title: string, dataAction: string): (v: ButtonVerdict)
    ensures v.isAttack ==> v.spends
  {
    var low := Lower(text);
    var isActionButton := MentionsAny(low, ActionButtonWords) || dataAction == "roll" || dataAction == "use";
    var isMap := IsMapButton(text, title);
    var spends := isActionButton || isMap || MentionsAny(low, ManipulateWords) || MentionsAny(low, DefensiveWords);
    var isAttack := isMap || MentionsAny(low, AttackWords);
    AttackWordsAreActionWords(low);
    ButtonVerdict(spends, isAttack)
  }

  /** A button whose caption mentions "strike", in any casing, spends an action as an attack. */
  lemma StrikeButtonIsAttack(text: string, title: string, dataAction: string)
    requires Contains(Lower(text), "strike")
    ensures ClassifyButton(text, title, dataAction).spends
    ensures ClassifyButton(text, title, dataAction).isAttack
  {
    assert AttackWords[0] == "strike";
    assert MentionsAny(Lower(text), AttackWords);
  }

  lemma AttackWordsAreActionWords(s: string)
    ensures MentionsAny(s, AttackWords) ==> MentionsAny(s, ActionButtonWords)
  {
    if MentionsAny(s, AttackWords) {
      var k :| 0 <= k < |AttackWords| && Contains(s, AttackWords[k]);
      assert AttackWords[k] == ActionButtonWords[k];
    }
  }

  // ---- dialogs -----------------------------------------------------------

  /**
   * The dialog is action-related: its class is the check-modifiers dialog or
   * mentions "Action", or its title contains one of ten capitalised words
   * (the title test is case-sensitive).
   */
  function IsActionDialog(className: string, title: string): (b: bool)
    ensures b <==>
      className == "CheckModifiersDialog" || Contains(className, "Action")
      || Contains(title, "Strike") || Contains(title, "Attack") || Contains(title, "Cast")
      || Contains(title, "Skill") || Contains(title, "Check") || Contains(title, "Sheathe")
      || Contains(title, "Draw") || Contains(title, "Parry") || Contains(title, "Raise")
      || Contains(title, "Cover")
  {
    assert DialogTitleWords == ["Strike", "Attack", "Cast", "Skill", "Check"]
                               + ["Sheathe", "Draw", "Parry", "Raise", "Cover"];
    MentionsAppend(title, ["Strike", "Attack", "Cast", "Skill", "Check"],
                   ["Sheathe", "Draw", "Parry", "Raise", "Cover"]);
    Mentions5(title, "Strike", "Attack", "Cast", "Skill", "Check");
    Mentions5(title, "Sheathe", "Draw", "Parry", "Raise", "Cover");
    className == "CheckModifiersDialog" || Contains(className, "Action") || MentionsAny(title, DialogTitleWords)
  }

  /**
   * The dialog body marks an attack: in any case, it mentions "second",
   * "third", "-5", "-10", "map", "attack" or "strike".
   */
  function DialogIsAttack(content: string): (b: bool)
    ensures b <==>
      Contains(Lower(content), "second") || Contains(Lower(content), "third")
      || Contains(Lower(content), "-5") || Contains(Lower(content), "-10")
      || Contains(Lower(content), "map") || Contains(Lower(content), "attack")
      || Contains(Lower(content), "strike")
  {
    var low := Lower(content);
    Mentions5(low, "second", "third", "-5", "-10", "map");
    MentionsAny(low, DialogMapWords) || Contains(low, "attack") || Contains(low, "strike")
  }

  // ---- inventory updates -------------------------------------------------

  /** One entry of `updateData.system.inventory`: which item properties the update sets. */
  datatype InventoryChange = InventoryChange(setsEquipped: bool, setsQuantity: bool)

  /** The first guard: some entry sets `equipped` or `quantity`. */
  predicate HasEquipmentChange(inventory: seq<InventoryChange>) {
    exists k :: 0 <= k < |inventory| && (inventory[k].setsEquipped || inventory[k].setsQuantity)
  }

  /** The second guard: some entry sets `equipped`. */
  predicate IsActionWorthyChange(inventory: seq<InventoryChange>) {
    exists k :: 0 <= k < |inventory| && inventory[k].setsEquipped
  }
}
