# Resume matcher: skill extraction, job scoring and ranking

This project is a Dafny model of the matching pipeline of a small resume-matching
web app (`PycharmProjects/ResumeUpload/main.py`). The pipeline has three steps:

1. **Skill extraction.** `SKILLS` is a fixed list of 14 skill names. `extract_skills`
   keeps, in vocabulary order, each name whose lower-cased form is a substring of
   the lower-cased resume text.
2. **Suggestions.** `suggest_resume_improvements` turns each missing skill into one
   suggestion sentence.
3. **Match, score and rank.** `get_top_matches_with_feedback` works on each job of
   the feed:
   - it lower-cases the resume's skills and the job's skills into sets;
   - the match score is the size of their intersection;
   - the missing skills are the job's skills the resume lacks;
   - Pro users see every suggestion; everyone else sees the first two.

   It then sorts the jobs by score, descending and stably, and keeps the first `top_n`.

Modules, following that structure:

- `Text` (`text.dfy`) has two parts:
  - Python's `str.lower()` restricted to ASCII (`LowerChar`, `Lower`);
  - Python's `needle in hay` on strings: `IsSubstring` is the specification, and
    `Occurs` is an executable search proved to decide it.
- `Seqs` (`seqs.dfy`) holds sequence vocabulary: `NoDups`, `IsPrefix`,
  `IsSubsequence`, and Python's `xs[:n]` as `SlicePrefix`, negative `n` included.
- `Skills` (`skills.dfy`) holds the vocabulary `SKILLS`, plus `extract_skills` as
  `ExtractSkillsFrom` (any vocabulary) and `ExtractSkills` (the fixed one).
- `Suggestions` (`suggestions.dfy`) holds the suggestion text (`Suggest`), its
  inverse `SkillOf`, `SuggestResumeImprovements`, and the free-tier cut `Visible`.
- `Matching` (`matching.dfy`) holds the job record `Job`, the per-job result
  `MatchResult`, and the scoring of one job (`Evaluate`).
- `Ranking` (`ranking.dfy`) has four parts:
  - the stable descending sort `SortByScore`;
  - `WithScore`, the entries of one score in order, which states stability;
  - `TopMatches`, which is `get_top_matches_with_feedback`;
  - a uniqueness lemma showing that the ranking is the only stable descending order.

The resume text, the job feed, the Pro flag and `top_n` are parameters. The model
does no file or network I/O.

## Model

| member | source | states |
|---|---|---|
| Text.Occurs | PycharmProjects/ResumeUpload/main.py:40 | The executable search answers true exactly when some window of the text spells the needle, which is the meaning of Python's `in` on strings. |
| Skills.SkillsWellFormed | PycharmProjects/ResumeUpload/main.py:24-27 | The vocabulary has 14 entries, none empty and none repeated. |
| Skills.ExtractSkillsFrom | PycharmProjects/ResumeUpload/main.py:39-40 | For any vocabulary, the result is an order-preserving subsequence of it. An entry is in the result iff it is in the vocabulary and its lower-cased form occurs in the lower-cased text. A duplicate-free vocabulary gives a duplicate-free result. |
| Skills.ExtractSkills | PycharmProjects/ResumeUpload/main.py:39-40 | Over `SKILLS`, the result follows vocabulary order, has no duplicates and holds at most 14 entries. A skill is in the result iff it is a vocabulary entry the text mentions case-insensitively. |
| Skills.SubsequenceLength | PycharmProjects/ResumeUpload/main.py:40 | A filtered list is no longer than the list it is drawn from. |
| Skills.EmptyTextNoSkills | PycharmProjects/ResumeUpload/main.py:37-40 | Empty text, which is also what an unsupported file type yields, gives no skills. |
| Skills.EmptyTextNoSkillsFrom | PycharmProjects/ResumeUpload/main.py:40 | For any vocabulary without empty entries, empty text gives no skills. |
| Skills.ExtractSkillsMonotone | PycharmProjects/ResumeUpload/main.py:40 | Adding text before or after a resume never loses a detected skill. |
| Skills.TwoSkillScenario | PycharmProjects/ResumeUpload/main.py:40 | With vocabulary `["Python", "SQL"]`, the text "I used Python and Excel" gives exactly `["Python"]`. |
| Skills.OneLetterFalsePositive | PycharmProjects/ResumeUpload/main.py:24-27 | Containment is not word-based: the skill "R" is detected in "Marketing". |
| Suggestions.SuggestRoundTrip | PycharmProjects/ResumeUpload/main.py:44 | The skill name can be read back out of its suggestion. |
| Suggestions.SuggestInjective | PycharmProjects/ResumeUpload/main.py:44 | Two suggestions are equal iff they are about the same skill. |
| Suggestions.SuggestMentionsSkill | PycharmProjects/ResumeUpload/main.py:44 | Each suggestion contains its skill's name as a substring. |
| Suggestions.SuggestResumeImprovements | PycharmProjects/ResumeUpload/main.py:42-46 | There is exactly one suggestion per missing skill. The i-th suggestion names the i-th skill and is about it. |
| Suggestions.SuggestionsRoundTrip | PycharmProjects/ResumeUpload/main.py:42-46 | Reading skill names back out of the suggestion list gives the input list. Distinct skills give distinct suggestions. |
| Suggestions.Visible | PycharmProjects/ResumeUpload/main.py:62 | The visible suggestions are a prefix of all suggestions. Pro users get all of them; others get `min(2, count)`. |
| Matching.LowerSetSnoc | PycharmProjects/ResumeUpload/main.py:53 | Adding one skill to a list adds exactly its lower-cased form to the lower-cased skill set. |
| Matching.MissingSkills | PycharmProjects/ResumeUpload/main.py:55 | The missing list has no duplicates. A skill is on it iff it is a lower-cased job skill the resume lacks. |
| Matching.Evaluate | PycharmProjects/ResumeUpload/main.py:50-63 | The job's fields are carried through unchanged. The score is the size of the lower-cased intersection, at most the number of distinct job skills. Score plus missing count equals the number of distinct job skills. Missing skills are exactly job-set minus resume-set. Pro users see all suggestions and others `min(2, missing)`. Each suggestion is about the missing skill at its position. |
| Matching.MatchPartition | PycharmProjects/ResumeUpload/main.py:53-60 | The matched and missing sets are disjoint and their union is the job's lower-cased skill set. Hence score plus missing count equals its size. |
| Matching.NoResumeSkillsScoresZero | PycharmProjects/ResumeUpload/main.py:50-60 | With no resume skills, the score is 0 and every distinct job skill is missing. |
| Matching.PythonSqlScenario | PycharmProjects/ResumeUpload/main.py:50-62 | A job requiring "python" and "sql", against a resume listing "Python": score 1, missing `["sql"]`, one suggestion about "sql". |
| Ranking.WithScoreAppend | PycharmProjects/ResumeUpload/main.py:65 | Taking the per-score subsequence of a concatenation gives the concatenation of the per-score subsequences. |
| Ranking.Insert | PycharmProjects/ResumeUpload/main.py:65 | Insertion adds exactly one copy of the new entry and keeps the rest. |
| Ranking.InsertSorted | PycharmProjects/ResumeUpload/main.py:65 | Inserting into a descending-sorted list keeps it sorted. |
| Ranking.InsertWithScore | PycharmProjects/ResumeUpload/main.py:65 | The inserted entry goes in front of the entries with equal score. Every other score's entries keep their order. |
| Ranking.SortByScore | PycharmProjects/ResumeUpload/main.py:65 | The output is sorted non-increasing by score and is a permutation of the input. For every score, the entries with that score keep their input order, i.e. the sort is stable. |
| Ranking.TopMatches | PycharmProjects/ResumeUpload/main.py:48-65 | The output has Python's `[:top_n]` length, i.e. `min(top_n, len(feed))` for non-negative `top_n`, and is sorted by score. Every entry is the scored form of some feed job. For every score, the entries kept are the first ones of that score in feed order. A job of score k is left out only if every kept job scores at least k. |
| Ranking.Results | PycharmProjects/ResumeUpload/main.py:52-63 | The scored feed has one entry per job, in feed order, and the entry at position i is the scoring of the i-th job. |
| Ranking.RankResults | PycharmProjects/ResumeUpload/main.py:65 | For any scored list: the result has Python's `[:top_n]` length and is sorted by score. Every entry comes from the input. For every score, the kept entries are the first ones of that score in input order. An entry of score k is dropped only if every kept entry scores at least k. |
| Ranking.PermutationMembers | PycharmProjects/ResumeUpload/main.py:65 | A rearrangement of the scored list has its length and holds only its entries. |
| Ranking.CutSortedResults | PycharmProjects/ResumeUpload/main.py:65 | Cutting a stable descending sort of a list keeps, for every score, a prefix of that score's entries in input order, and drops one only below every kept score. |
| Ranking.FromFeed | PycharmProjects/ResumeUpload/main.py:52-65 | Any entry taken from the scored feed is the scoring of some job of the feed. |
| Ranking.ScoredJobOf | PycharmProjects/ResumeUpload/main.py:52-63 | A member of the scored feed is the scoring of one of the feed's jobs. |
| Ranking.SameHead | PycharmProjects/ResumeUpload/main.py:65 | Two descending-sorted lists with the same per-score orders start with the same entry. |
| Ranking.TailsAgree | PycharmProjects/ResumeUpload/main.py:65 | Removing a shared first entry from two lists keeps their per-score orders equal. |
| Ranking.PrefixWithScore | PycharmProjects/ResumeUpload/main.py:65 | Cutting a sorted list keeps a prefix of each score's entries. It drops an entry of score k only if every kept entry scores at least k. |
| Ranking.WithScoreMembers | PycharmProjects/ResumeUpload/main.py:65 | The per-score subsequence holds only entries of the list that have that score. |
| Ranking.StableSortUnique | PycharmProjects/ResumeUpload/main.py:65 | Two descending-sorted lists with the same per-score order are equal, so a stable descending sort has exactly one possible result. |
| Ranking.TopMatchesIsStableRanking | PycharmProjects/ResumeUpload/main.py:48-65 | The top matches are the first `top_n` entries of every stable descending arrangement of the scored feed. |
| Ranking.EmptyResumeKeepsFeedOrder | PycharmProjects/ResumeUpload/main.py:48-65 | With no resume skills, every score is 0 and the result is the first `top_n` jobs in feed order. |
| Ranking.DefaultCallShape | PycharmProjects/ResumeUpload/main.py:104 | Under the defaults (not Pro, `top_n = 5`), at most five jobs come back, each with at most two suggestions. |
| Seqs.SlicePrefix | PycharmProjects/ResumeUpload/main.py:65 | `xs[:n]` is a prefix of `xs` whose length follows Python's slice rules, including negative `n`. |
| Seqs.NoDupsCardinality | PycharmProjects/ResumeUpload/main.py:55 | A duplicate-free list has as many elements as its set does. This relates the missing list to the missing set. |
| Text.SubstringShift | PycharmProjects/ResumeUpload/main.py:40 | An occurrence in the tail of the text is an occurrence in the text. An occurrence not at position 0 is an occurrence in the tail. |
| Text.SubstringOfConcat | PycharmProjects/ResumeUpload/main.py:40 | A substring of a text stays a substring when more text is added on either side. |
| Text.MissingCharNotSubstring | PycharmProjects/ResumeUpload/main.py:40 | A needle containing a character the text lacks does not occur in the text. |
| Text.NotSubstringOfEmpty | PycharmProjects/ResumeUpload/main.py:40 | A non-empty needle never occurs in the empty string. |
| Text.Lower | PycharmProjects/ResumeUpload/main.py:40 | Lower-casing keeps the length, lower-cases each character in place, and leaves no ASCII capital in the result. |
| Text.LowerAppend | PycharmProjects/ResumeUpload/main.py:40 | Lower-casing a concatenation is the concatenation of the lower-cased parts, so lower-casing is per-character. |
| Text.LowerIdempotent | PycharmProjects/ResumeUpload/main.py:53 | Lower-casing an already lower-cased string changes nothing, so a skill lower-cased twice matches one lower-cased once. |
| Text.IsSubstring | PycharmProjects/ResumeUpload/main.py:40 | As with Python's `in`, the empty string occurs in every string, and a needle longer than the text never occurs in it. |
| Seqs.SliceLength | PycharmProjects/ResumeUpload/main.py:62-65 | The number of elements `xs[:n]` keeps is never more than the list holds. It is `min(n, len)` for non-negative `n`, and for negative `n` it is the length less `-n`, floored at 0. |
| Suggestions.Suggest | PycharmProjects/ResumeUpload/main.py:44 | The suggestion is the fixed text around the skill name, and the name sits intact right after the fixed opening. |
| Matching.LowerSet | PycharmProjects/ResumeUpload/main.py:53 | Every listed skill's lower-cased form is in the set, and every member of the set is the lower-cased form of a listed skill. |
| Matching.LowerSetSize | PycharmProjects/ResumeUpload/main.py:53 | The lower-cased skill set has at most as many members as the list has entries. |
| Matching.Matched | PycharmProjects/ResumeUpload/main.py:54 | A skill is matched only if both the resume and the job list it, up to case. Every skill both list is matched. The match count is at most the number of distinct skills on either side. |
| Matching.SubsetCardinality | PycharmProjects/ResumeUpload/main.py:54 | A subset is no larger than its superset, which bounds the intersection by each side. |
| Text.LowerChar | PycharmProjects/ResumeUpload/main.py:40 | Lower-casing maps ASCII upper-case letters 32 code points up to lower case, leaves every other character alone, and never yields an upper-case letter. |

## Left out

- Text extraction from PDF and DOCX (`extract_text`, main.py:30-37) calls external document libraries. The resume text is a plain `string` parameter. An unsupported extension yields `""`, and `EmptyTextNoSkills` covers that case.
- Loading the job feed from JSON (main.py:18-22) is file I/O. The feed is a `seq<Job>` parameter.
- Only the five fields the app reads are modelled (`title`, `company`, `location`, `url`, `skills`). Any other key in a feed record would be copied through by `**job`; the model does not carry it.
- Text.LowerChar: folds only ASCII letters, while Python's `str.lower()` also folds non-ASCII letters, some of them into ASCII. Detection results and scores can therefore differ from Python's, not only the lower-cased text. For example, Python lower-cases the KELVIN SIGN U+212A to 'k', so it finds "Spark" in "SPAR\u212A" and the model does not. Python also lower-cases "İ" to "i̇", so it finds "Power BI" in "POWER Bİ". The same gap applies to the resume and job-feed skills lower-cased at main.py:50 and main.py:53.
- Matching.MissingSkills: lists the missing skills in first-mention order. Python's `list(job_set - resume_set)` uses unspecified set-iteration order. Every contract states only which skills are listed, so it holds for any order.
- Usage tracking and the daily limit (main.py:67-77) depend on the wall clock and session state.
- The Streamlit UI (main.py:1-15 and 79-132) is presentation only. This includes the sidebar reset, the secrets display and the "no match" warning at line 106.
- The bullet-quality analyzer and the 0-100 strength score are not in this version of `main.py`, so they are not modelled.
