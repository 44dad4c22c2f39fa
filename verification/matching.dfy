/** Scoring one job posting against a resume: the body of the loop in
    `get_top_matches_with_feedback` (main.py). */
module Matching {
  import opened Seqs
  import opened Text
  import opened Suggestions

  /** One entry of the job feed. */
  datatype Job = Job(title: string, company: string, location: string, url: string, skills: seq<string>)

  /** The job's own fields (`**job`) extended with the score, the missing
      skills and the visible suggestions. */
  datatype MatchResult = MatchResult(job: Job, matchScore: nat, missingSkills: seq<string>, suggestions: seq<string>)

  /** `set(s.lower() for s in xs)`. */
  function LowerSet(xs: seq<string>): (r: set<string>)
    ensures forall i :: 0 <= i < |xs| ==> Lower(xs[i]) in r
    ensures forall s :: s in r ==> exists i :: 0 <= i < |xs| && Lower(xs[i]) == s
  {
    set x | x in xs :: Lower(x)
  }

  /** Appending one skill adds its lower-cased form to the set. */
  lemma LowerSetSnoc(xs: seq<string>, x: string)
    ensures LowerSet(xs + [x]) == LowerSet(xs) + {Lower(x)}
  {
  }

  /** `resume_set & job_set`: the lower-cased skills both sides name. */
  function Matched(resumeSkills: seq<string>, job: Job): (r: set<string>)
    ensures forall s :: s in r ==>
              && (exists i :: 0 <= i < |resumeSkills| && Lower(resumeSkills[i]) == s)
              && (exists j :: 0 <= j < |job.skills| && Lower(job.skills[j]) == s)
    ensures forall i, j :: 0 <= i < |resumeSkills| && 0 <= j < |job.skills| && Lower(resumeSkills[i]) == Lower(job.skills[j]) ==>
              Lower(job.skills[j]) in r
    ensures |r| <= |LowerSet(job.skills)| && |r| <= |LowerSet(resumeSkills)|
  {
    var resume := LowerSet(resumeSkills);
    var required := LowerSet(job.skills);
    assert resume * required <= required && resume * required <= resume;
    SubsetCardinality(resume * required, required);
    SubsetCardinality(resume * required, resume);
    resume * required
  }

  /** A subset has at most as many members as its superset. */
  lemma SubsetCardinality(a: set<string>, b: set<string>)
    requires a <= b
    ensures |a| <= |b|
  {
    assert b == a + (b - a);
  }

  /** A job's lower-cased skill set has at most as many members as the job
      lists skills (fewer when two entries differ only in case or repeat). */
  lemma {:induction false} LowerSetSize(xs: seq<string>)
    ensures |LowerSet(xs)| <= |xs|
    decreases |xs|
  {
    if |xs| > 0 {
      var init := xs[..|xs| - 1];
      assert xs == init + [xs[|xs| - 1]];
      LowerSetSnoc(init, xs[|xs| - 1]);
      LowerSetSize(init);
    }
  }

  /** `list(job_set - resume_set)`. Python leaves the order of a set's
      elements unspecified; this model lists them in the order their first
      mention appears in the job's skills, and every contract below speaks
      only of which skills are listed, so it holds for any order. */
  function MissingSkills(jobSkills: seq<string>, resume: set<string>): (r: seq<string>)
    ensures NoDups(r)
    ensures forall s :: s in r <==> s in LowerSet(jobSkills) && s !in resume
    decreases |jobSkills|
  {
    if |jobSkills| == 0 then []
    else
      var init := jobSkills[..|jobSkills| - 1];
      var last := jobSkills[|jobSkills| - 1];
      assert jobSkills == init + [last];
      LowerSetSnoc(init, last);
      var rest := MissingSkills(init, resume);
      var l := Lower(last);
      if l in resume || l in rest then rest else rest + [l]
  }

  /** One entry of `results`: the job, its score, its missing skills and the
      suggestions a user with or without Pro sees. */
  function Evaluate(resumeSkills: seq<string>, job: Job, pro: bool): (r: MatchResult)
    ensures r.job == job
    ensures r.matchScore == |Matched(resumeSkills, job)|
    ensures r.matchScore <= |LowerSet(job.skills)| <= |job.skills|
    ensures r.matchScore + |r.missingSkills| == |LowerSet(job.skills)|
    ensures NoDups(r.missingSkills)
    ensures forall s :: s in r.missingSkills <==> s in LowerSet(job.skills) && s !in LowerSet(resumeSkills)
    ensures pro ==> |r.suggestions| == |r.missingSkills|
    ensures !pro ==> |r.suggestions| == Min(FreeSuggestionCount, |r.missingSkills|)
    ensures forall i :: 0 <= i < |r.suggestions| ==> SkillOf(r.suggestions[i]) == r.missingSkills[i]
  {
    var resume := LowerSet(resumeSkills);
    var required := LowerSet(job.skills);
    var missing := MissingSkills(job.skills, resume);
    MatchPartition(resume, required, missing);
    LowerSetSize(job.skills);
    MatchResult(job, |resume * required|, missing, Visible(SuggestResumeImprovements(missing), pro))
  }

  /** The matched and missing skills split the job's lower-cased skill set:
      they are disjoint, together they are the whole set, and so the score
      and the number of missing skills add up to its size. */
  lemma MatchPartition(resume: set<string>, required: set<string>, missing: seq<string>)
    requires NoDups(missing)
    requires forall s :: s in missing <==> s in required && s !in resume
    ensures (resume * required) !! (set s | s in missing)
    ensures (resume * required) + (set s | s in missing) == required
    ensures |resume * required| + |missing| == |required|
  {
    var gone := set s | s in missing;
    assert gone == required - resume;
    NoDupsCardinality(missing);
    assert required == (resume * required) + gone;
  }

  /** With no resume skills nothing matches and every job skill is missing. */
  lemma NoResumeSkillsScoresZero(job: Job, pro: bool)
    ensures Evaluate([], job, pro).matchScore == 0
    ensures |Evaluate([], job, pro).missingSkills| == |LowerSet(job.skills)|
  {
  }

  /** A job requiring "python" and "sql" scored against a resume listing
      "Python": one match, "sql" missing, one suggestion about "sql". */
  lemma PythonSqlScenario(pro: bool)
    ensures var r := Evaluate(["Python"], Job("Data Analyst", "Acme", "Remote", "https://example.com/1", ["python", "sql"]), pro);
      && r.matchScore == 1
      && r.missingSkills == ["sql"]
      && |r.suggestions| == 1
      && SkillOf(r.suggestions[0]) == "sql"
  {
    var job := Job("Data Analyst", "Acme", "Remote", "https://example.com/1", ["python", "sql"]);
    assert Lower("Python") == "python";
    assert Lower("python") == "python";
    assert Lower("sql") == "sql";
    assert LowerSet(["Python"]) == {"python"};
    assert LowerSet(job.skills) == {"python", "sql"};
    assert "python" != "sql";
    var r := Evaluate(["Python"], job, pro);
    assert "sql" in r.missingSkills;
    assert "python" !in r.missingSkills;
  }
}
