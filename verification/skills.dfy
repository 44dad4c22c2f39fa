/** The fixed skill vocabulary and the extraction of vocabulary entries from
    a resume's text (`SKILLS` and `extract_skills` in main.py). */
module Skills {
  import opened Seqs
  import opened Text

  /** The controlled vocabulary, in the order results are reported. */
  const SKILLS: seq<string> := [
    "Python", "SQL", "Tableau", "Power BI", "Excel", "R", "Machine Learning",
    "Spark", "Redshift", "Azure", "BigQuery", "Snowflake", "D3.js", "JavaScript"
  ]

  /** Every entry is non-empty and no entry is listed twice. */
  predicate WellFormedVocabulary(vocab: seq<string>)
  {
    NoDups(vocab) && forall i :: 0 <= i < |vocab| ==> |vocab[i]| > 0
  }

  /** The vocabulary satisfies the assumptions the extraction contracts use. */
  lemma SkillsWellFormed()
    ensures |SKILLS| == 14
    ensures WellFormedVocabulary(SKILLS)
  {
  }

  /** A vocabulary entry is reported for `text` when its lower-cased form is a
      substring of the lower-cased text. */
  ghost predicate Mentions(text: string, skill: string)
  {
    IsSubstring(Lower(skill), Lower(text))
  }

  /** `[s for s in vocab if s.lower() in text.lower()]` for any vocabulary:
      the entries the text mentions, in vocabulary order. */
  function ExtractSkillsFrom(vocab: seq<string>, text: string): (r: seq<string>)
    ensures IsSubsequence(r, vocab)
    ensures forall s :: s in r <==> s in vocab && Mentions(text, s)
    ensures NoDups(vocab) ==> NoDups(r)
    decreases |vocab|
  {
    if |vocab| == 0 then []
    else
      var rest := ExtractSkillsFrom(vocab[1..], text);
      if Occurs(Lower(vocab[0]), Lower(text)) then
        assert NoDups(vocab) ==> vocab[0] !in vocab[1..] by {
          if NoDups(vocab) {
            forall i | 0 <= i < |vocab| - 1
              ensures vocab[1..][i] != vocab[0]
            {
              assert vocab[i + 1] != vocab[0];
            }
          }
        }
        [vocab[0]] + rest
      else rest
  }

  /** `extract_skills(text)` over the fixed vocabulary. */
  function ExtractSkills(text: string): (r: seq<string>)
    ensures IsSubsequence(r, SKILLS)
    ensures NoDups(r)
    ensures forall s :: s in r <==> s in SKILLS && Mentions(text, s)
    ensures |r| <= |SKILLS|
  {
    SkillsWellFormed();
    var r := ExtractSkillsFrom(SKILLS, text);
    SubsequenceLength(r, SKILLS);
    r
  }

  /** A subsequence is no longer than the sequence it is drawn from. */
  lemma {:induction false} SubsequenceLength<T>(a: seq<T>, b: seq<T>)
    requires IsSubsequence(a, b)
    ensures |a| <= |b|
    decreases |b|
  {
    if |a| > 0 {
      if a[0] == b[0] && IsSubsequence(a[1..], b[1..]) {
        SubsequenceLength(a[1..], b[1..]);
      } else {
        SubsequenceLength(a, b[1..]);
      }
    }
  }

  /** Empty text mentions no entry of a vocabulary without empty entries. */
  lemma {:induction false} EmptyTextNoSkillsFrom(vocab: seq<string>)
    requires forall i :: 0 <= i < |vocab| ==> |vocab[i]| > 0
    ensures ExtractSkillsFrom(vocab, "") == []
    decreases |vocab|
  {
    if |vocab| > 0 {
      assert Lower("") == "";
      NotSubstringOfEmpty(Lower(vocab[0]));
      EmptyTextNoSkillsFrom(vocab[1..]);
    }
  }

  /** Empty (or absent) text yields no skills, because no vocabulary entry is
      empty. */
  lemma EmptyTextNoSkills()
    ensures ExtractSkills("") == []
  {
    SkillsWellFormed();
    EmptyTextNoSkillsFrom(SKILLS);
  }

  /** Adding text never loses a skill: whatever `a` mentions, `a + b` and
      `b + a` mention too. */
  lemma ExtractSkillsMonotone(a: string, b: string)
    ensures forall s :: s in ExtractSkills(a) ==> s in ExtractSkills(a + b)
    ensures forall s :: s in ExtractSkills(a) ==> s in ExtractSkills(b + a)
  {
    LowerAppend(a, b);
    LowerAppend(b, a);
    forall s | s in ExtractSkills(a)
      ensures s in ExtractSkills(a + b) && s in ExtractSkills(b + a)
    {
      SubstringOfConcat(Lower(s), Lower(a), Lower(b));
      SubstringOfConcat(Lower(s), Lower(b), Lower(a));
    }
  }

  /** With the vocabulary `["Python", "SQL"]`, the text
      "I used Python and Excel" yields `["Python"]`. */
  lemma TwoSkillScenario()
    ensures ExtractSkillsFrom(["Python", "SQL"], "I used Python and Excel") == ["Python"]
  {
    var text := "I used Python and Excel";
    assert Lower(text) == "i used python and excel";
    assert Lower("Python") == "python";
    assert OccursAt("python", Lower(text), 7);
    assert Lower("SQL") == "sql";
    MissingCharNotSubstring("sql", Lower(text), 'q');
  }

  /** Detection is naive containment: the one-letter skill "R" is found
      inside the word "Marketing". */
  lemma OneLetterFalsePositive()
    ensures "R" in ExtractSkills("Marketing")
  {
    assert Lower("R") == "r";
    assert Lower("Marketing") == "marketing";
    assert OccursAt("r", Lower("Marketing"), 2);
  }
}
