/** Improvement suggestions for missing skills (`suggest_resume_improvements`
    in main.py) and the free-tier cut of the suggestion list. */
module Suggestions {
  import opened Seqs
  import opened Text

  /** The text around the skill name in every suggestion (the light-bulb
      emoji, then Markdown emphasis and bold around the name). */
  const Prefix: string := "\U{1F4A1} _Consider adding a bullet point or project showing experience with **"
  const Suffix: string := "**._"

  /** Number of suggestions a user without the Pro entitlement sees. */
  const FreeSuggestionCount: nat := 2

  /** The suggestion for one missing skill. */
  function Suggest(skill: string): (r: string)
    ensures |r| == |Prefix| + |skill| + |Suffix|
    ensures r[|Prefix|..|Prefix| + |skill|] == skill
  {
    Prefix + skill + Suffix
  }

  /** Reads the skill name back out of a suggestion. */
  function SkillOf(suggestion: string): string
  {
    if |suggestion| < |Prefix| + |Suffix| then ""
    else suggestion[|Prefix|..|suggestion| - |Suffix|]
  }

  /** `SkillOf` undoes `Suggest`, so different skills get different
      suggestions. */
  lemma SuggestRoundTrip(skill: string)
    ensures SkillOf(Suggest(skill)) == skill
  {
  }

  lemma SuggestInjective(a: string, b: string)
    ensures Suggest(a) == Suggest(b) <==> a == b
  {
  }

  /** Every suggestion spells out the skill it is about. */
  lemma SuggestMentionsSkill(skill: string)
    ensures IsSubstring(skill, Suggest(skill))
  {
    assert OccursAt(skill, Suggest(skill), |Prefix|);
  }

  /** `suggest_resume_improvements(missing)`: one suggestion per missing
      skill, in the same order, each naming that skill. */
  function SuggestResumeImprovements(missing: seq<string>): (r: seq<string>)
    ensures |r| == |missing|
    ensures forall i :: 0 <= i < |r| ==> SkillOf(r[i]) == missing[i]
    ensures forall i :: 0 <= i < |r| ==> IsSubstring(missing[i], r[i])
  {
    if |missing| == 0 then []
    else
      SuggestRoundTrip(missing[0]);
      SuggestMentionsSkill(missing[0]);
      [Suggest(missing[0])] + SuggestResumeImprovements(missing[1..])
  }

  /** `SkillOf` applied to every suggestion of a list. */
  function SkillsOf(suggestions: seq<string>): (r: seq<string>)
    ensures |r| == |suggestions|
  {
    seq(|suggestions|, i requires 0 <= i < |suggestions| => SkillOf(suggestions[i]))
  }

  /** Reading the skill names back out of the suggestions gives the missing
      list again, and distinct missing skills give distinct suggestions. */
  lemma SuggestionsRoundTrip(missing: seq<string>)
    ensures SkillsOf(SuggestResumeImprovements(missing)) == missing
    ensures NoDups(missing) ==> NoDups(SuggestResumeImprovements(missing))
  {
  }

  /** `all if pro_user else all[:2]`: the whole list for Pro users, otherwise
      its first two entries. */
  function Visible(all: seq<string>, pro: bool): (r: seq<string>)
    ensures IsPrefix(r, all)
    ensures pro ==> |r| == |all|
    ensures !pro ==> |r| == Min(FreeSuggestionCount, |all|)
  {
    if pro then all else SlicePrefix(all, FreeSuggestionCount)
  }
}
