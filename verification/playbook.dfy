/**
 The mock retrieval step of the negotiation app: a fixed three-entry sales
 playbook and the keyword resolver that picks advisory text out of it.
 */
module Playbook {
  import opened Text

  /** The three keys of the playbook table. */
  datatype Topic = Objections | Tactics | DealTerms

  /** The advisory text stored under each key. */
  function Advice(t: Topic): (r: string)
    ensures r == ObjectionsText <==> t == Objections
    ensures r == TacticsText <==> t == Tactics
    ensures r == DealTermsText <==> t == DealTerms
  {
    assert ObjectionsText[0] == 'I' && TacticsText[0] == 'E' && DealTermsText[0] == 'M';
    match t
    case Objections => ObjectionsText
    case Tactics => TacticsText
    case DealTerms => DealTermsText
  }

  // The texts are written as short concatenated pieces, which the verifier
  // can index character by character.
  const ObjectionsText := "If the player mentions 'budget', " + "remind them " + "of the ROI of $5M over 3 years."
  const TacticsText := "Effective negotiators use 'anchoring' " + "and 'active listening'. " + "Reject aggressive demands."
  const DealTermsText := "Minimum price is $2.1M. " + "Delivery must be within 6 months."

  /** The input raises money: it mentions "budget" or "price". */
  predicate MentionsMoney(input: string) {
    Mentions(input, "budget") || Mentions(input, "price")
  }

  /** The input raises scheduling: it mentions "when" or "delivery". */
  predicate MentionsSchedule(input: string) {
    Mentions(input, "when") || Mentions(input, "delivery")
  }

  /**
   Builds the context by appending the objections text when money is raised,
   then the deal-terms text when scheduling is raised, and falls back to the
   tactics text when nothing was appended.
   */
  function RagContext(input: string): (r: string)
    ensures r != []
    ensures MentionsMoney(input) && MentionsSchedule(input) ==> r == Advice(Objections) + Advice(DealTerms)
    ensures MentionsMoney(input) && !MentionsSchedule(input) ==> r == Advice(Objections)
    ensures !MentionsMoney(input) && MentionsSchedule(input) ==> r == Advice(DealTerms)
    ensures !MentionsMoney(input) && !MentionsSchedule(input) ==> r == Advice(Tactics)
  {
    var context := (if MentionsMoney(input) then Advice(Objections) else "")
                   + (if MentionsSchedule(input) then Advice(DealTerms) else "");
    if context != "" then context else Advice(Tactics)
  }

  /** `p` is a prefix of `s`. */
  predicate StartsWith(s: string, p: string) {
    |p| <= |s| && s[..|p|] == p
  }

  /** `p` is a suffix of `s`. */
  predicate EndsWith(s: string, p: string) {
    |p| <= |s| && s[|s| - |p|..] == p
  }

  /**
   What the resolved context reveals about its input: it opens with the
   objections text exactly when money was raised, closes with the deal-terms
   text exactly when scheduling was raised, and is the tactics text exactly
   when neither was.
   */
  lemma RagContextSelects(input: string)
    ensures StartsWith(RagContext(input), Advice(Objections)) <==> MentionsMoney(input)
    ensures EndsWith(RagContext(input), Advice(DealTerms)) <==> MentionsSchedule(input)
    ensures RagContext(input) == Advice(Tactics) <==> !MentionsMoney(input) && !MentionsSchedule(input)
  {
    var r := RagContext(input);
    var obj, tac, terms := ObjectionsText, TacticsText, DealTermsText;
    // The three texts differ in their first and in their last characters.
    assert obj[0] == 'I' && tac[0] == 'E' && terms[0] == 'M';
    assert obj[|obj| - 2] == 's' && tac[|tac| - 2] == 's' && terms[|terms| - 2] == 's';
    assert obj[|obj| - 3] == 'r' && tac[|tac| - 3] == 'd' && terms[|terms| - 3] == 'h';
    if MentionsMoney(input) && MentionsSchedule(input) {
      assert r == obj + terms;
      assert r[..|obj|] == obj;
      assert r[|r| - |terms|..] == terms;
      assert r[0] != tac[0];
    } else if MentionsMoney(input) {
      assert r == obj;
      assert |terms| <= |obj| && r[|r| - |terms|..][|terms| - 3] != terms[|terms| - 3];
      assert r[0] != tac[0];
    } else if MentionsSchedule(input) {
      assert r == terms;
      assert |r| < |obj|;
      assert r[0] != tac[0];
    } else {
      assert r == tac;
      assert r[..|obj|][0] != obj[0];
      assert r[|r| - |terms|..][|terms| - 3] != terms[|terms| - 3];
    }
  }

  /** The resolver only sees the case-folded input. */
  lemma RagContextIgnoresCase(input: string)
    ensures RagContext(Lower(input)) == RagContext(input)
  {
    MentionsIgnoresCase(input, "budget");
    MentionsIgnoresCase(input, "price");
    MentionsIgnoresCase(input, "when");
    MentionsIgnoresCase(input, "delivery");
  }
}
