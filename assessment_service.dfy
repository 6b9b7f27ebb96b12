/**
 * The screener scoring engine of the assessment service. The domain mapping
 * table and the assessment criteria table, which the service loads once from
 * its database, are given here as inputs.
 *
 * The executable part (CalculateDomainScores, DetermineAssessments,
 * ScoreAnswers) follows the service's loops; the functions below them
 * (DomainScore, ScoreTable, RecommendedFor, Assessments, Score) say what those
 * loops compute, and the lemmas state what the scoring promises.
 */
module AssessmentService {
  import opened Wrappers
  import opened Interfaces
  import opened OrderedCollections

  // ---------------------------------------------------------------------------
  // Lookups in the reference tables (`Array.prototype.find`)
  // ---------------------------------------------------------------------------

  /** `domainMappings.find(m => m.question_id === questionId)`: the first row for the question. */
  function FindMapping(mappings: seq<DomainMapping>, questionId: string): (r: Option<DomainMapping>)
    ensures r.None? <==> forall i :: 0 <= i < |mappings| ==> mappings[i].questionId != questionId
    ensures r.Some? ==>
      exists i :: 0 <= i < |mappings| && mappings[i] == r.value && mappings[i].questionId == questionId &&
        forall j :: 0 <= j < i ==> mappings[j].questionId != questionId
  {
    if mappings == [] then None
    else if mappings[0].questionId == questionId then Some(mappings[0])
    else
      FindMapping(mappings[1..], questionId)
  }

  /** `assessmentCriteria.find(c => c.domain === domain)`: the first row for the domain. */
  function FindCriteria(criteria: seq<AssessmentCriteria>, domain: string): (r: Option<AssessmentCriteria>)
    ensures r.None? <==> forall i :: 0 <= i < |criteria| ==> criteria[i].domain != domain
    ensures r.Some? ==>
      exists i :: 0 <= i < |criteria| && criteria[i] == r.value && criteria[i].domain == domain &&
        forall j :: 0 <= j < i ==> criteria[j].domain != domain
  {
    if criteria == [] then None
    else if criteria[0].domain == domain then Some(criteria[0])
    else
      FindCriteria(criteria[1..], domain)
  }

  // ---------------------------------------------------------------------------
  // What the scores are
  // ---------------------------------------------------------------------------

  /** The domain column of the mapping table, row by row (repeats included). */
  function MappedDomains(mappings: seq<DomainMapping>): (r: seq<string>) {
    seq(|mappings|, i requires 0 <= i < |mappings| => mappings[i].domain)
  }

  /** What one answer adds to `domain`: its value when its question's first mapping names `domain`. */
  function Contribution(mappings: seq<DomainMapping>, answer: Answer, domain: string): (r: int) {
    match FindMapping(mappings, answer.questionId)
    case Some(m) => if m.domain == domain then answer.value else 0
    case None => 0
  }

  /** The algebraic sum of the contributions of all answers to `domain`. */
  function DomainScore(answers: seq<Answer>, mappings: seq<DomainMapping>, domain: string): (r: int)
    decreases |answers|
  {
    if answers == [] then 0
    else DomainScore(answers[..|answers| - 1], mappings, domain) + Contribution(mappings, answers[|answers| - 1], domain)
  }

  /** The score of every domain named in the mapping table, and of no other. */
  function ScoreTable(answers: seq<Answer>, mappings: seq<DomainMapping>): (r: map<string, int>) {
    map d | d in MappedDomains(mappings) :: DomainScore(answers, mappings, d)
  }

  // ---------------------------------------------------------------------------
  // What is recommended
  // ---------------------------------------------------------------------------

  /**
   * The decision for one domain: the assessment of the domain's first criteria
   * row when the score reaches that row's threshold (inclusive), else nothing.
   */
  function AssessmentFor(criteria: seq<AssessmentCriteria>, domain: string, score: int): (r: Option<string>)
    ensures r.Some? <==> (exists i ::
      && 0 <= i < |criteria| && criteria[i].domain == domain
      && (forall j :: 0 <= j < i ==> criteria[j].domain != domain)
      && score >= criteria[i].threshold)
    ensures forall i ::
      (0 <= i < |criteria| && criteria[i].domain == domain &&
       (forall j :: 0 <= j < i ==> criteria[j].domain != domain) && score >= criteria[i].threshold) ==>
        r == Some(criteria[i].assessment)
  {
    match FindCriteria(criteria, domain)
    case Some(c) => if score >= c.threshold then Some(c.assessment) else None
    case None => None
  }

  /** The assessments pushed while walking `domains` in order. */
  function RecommendedFor(domains: seq<string>, scores: map<string, int>, criteria: seq<AssessmentCriteria>): (r: seq<string>)
    requires forall d :: d in domains ==> d in scores
    decreases |domains|
  {
    if domains == [] then []
    else
      var last := domains[|domains| - 1];
      RecommendedFor(domains[..|domains| - 1], scores, criteria) +
        match AssessmentFor(criteria, last, scores[last])
        case Some(a) => [a]
        case None => []
  }

  /** The domains among `domains` that produce a recommendation, in the same order. */
  function QualifyingDomains(domains: seq<string>, scores: map<string, int>, criteria: seq<AssessmentCriteria>): (q: seq<string>)
    requires forall d :: d in domains ==> d in scores
    ensures forall d :: d in q <==> d in domains && AssessmentFor(criteria, d, scores[d]).Some?
    decreases |domains|
  {
    if domains == [] then []
    else
      var last := domains[|domains| - 1];
      var init := QualifyingDomains(domains[..|domains| - 1], scores, criteria);
      assert forall d :: d in domains <==> d in domains[..|domains| - 1] || d == last;
      if AssessmentFor(criteria, last, scores[last]).Some? then init + [last] else init
  }

  /** The list `determineAssessments` returns for a submission, before deduplication. */
  function Assessments(answers: seq<Answer>, mappings: seq<DomainMapping>, criteria: seq<AssessmentCriteria>): (r: seq<string>) {
    RecommendedFor(Dedup(MappedDomains(mappings)), ScoreTable(answers, mappings), criteria)
  }

  /** The list `scoreAnswers` returns for a submission. */
  function Score(answers: seq<Answer>, mappings: seq<DomainMapping>, criteria: seq<AssessmentCriteria>): (r: seq<string>)
    ensures Distinct(r)
    ensures forall x :: x in r <==> x in Assessments(answers, mappings, criteria)
  {
    Dedup(Assessments(answers, mappings, criteria))
  }

  // ---------------------------------------------------------------------------
  // The service's operations
  // ---------------------------------------------------------------------------

  /**
   * The seeding loop of `calculateDomainScores`: every domain of the mapping
   * table becomes a key with score 0, once, at its first appearance.
   */
  method SeedDomainScores(mappings: seq<DomainMapping>) returns (domainScores: OrderedMap)
    ensures domainScores.Valid()
    ensures domainScores.keys == Dedup(MappedDomains(mappings))
    ensures forall d :: d in domainScores.entries ==> domainScores.entries[d] == 0
  {
    domainScores := EmptyMap();
    var i := 0;
    while i < |mappings|
      invariant 0 <= i <= |mappings|
      invariant Seeded(domainScores, mappings, i)
    {
      ghost var before := domainScores;
      if !domainScores.Has(mappings[i].domain) {
        domainScores := domainScores.Set(mappings[i].domain, 0);
      }
      SeedStep(before, domainScores, mappings, i);
      i := i + 1;
    }
    assert mappings[..i] == mappings;
  }

  /**
   * The accumulation loop of `calculateDomainScores`: each answer adds its
   * value to the domain of its question's first mapping, which must already be
   * a key; answers for unmapped questions are skipped. No key is added.
   */
  method AccumulateAnswers(seeded: OrderedMap, answers: seq<Answer>, mappings: seq<DomainMapping>) returns (domainScores: OrderedMap)
    requires seeded.Valid()
    requires forall i :: 0 <= i < |mappings| ==> mappings[i].domain in seeded.entries
    ensures domainScores.Valid() && domainScores.keys == seeded.keys
    ensures forall d :: d in domainScores.entries <==> d in seeded.entries
    ensures forall d :: d in domainScores.entries ==>
      domainScores.entries[d] == seeded.entries[d] + DomainScore(answers, mappings, d)
  {
    domainScores := seeded;
    var j := 0;
    while j < |answers|
      invariant 0 <= j <= |answers|
      invariant domainScores.Valid() && domainScores.keys == seeded.keys
      invariant forall d :: d in domainScores.entries <==> d in seeded.entries
      invariant forall d :: d in domainScores.entries ==>
        domainScores.entries[d] == seeded.entries[d] + DomainScore(answers[..j], mappings, d)
    {
      assert answers[..j + 1][..j] == answers[..j];
      var mapping := FindMapping(mappings, answers[j].questionId);
      if mapping.Some? {
        var currentScore := domainScores.Get(mapping.value.domain).GetOr(0);
        domainScores := domainScores.Set(mapping.value.domain, currentScore + answers[j].value);
      }
      j := j + 1;
    }
    assert answers[..j] == answers;
  }

  /**
   * `calculateDomainScores`: seed every mapped domain with 0, then add each
   * answer's value to the domain of its question's first mapping.
   */
  method CalculateDomainScores(answers: seq<Answer>, mappings: seq<DomainMapping>) returns (domainScores: OrderedMap)
    ensures domainScores.Valid()
    ensures domainScores.keys == Dedup(MappedDomains(mappings))
    ensures forall d :: d in domainScores.entries ==> domainScores.entries[d] == DomainScore(answers, mappings, d)
  {
    var seeded := SeedDomainScores(mappings);
    forall i | 0 <= i < |mappings|
      ensures mappings[i].domain in seeded.entries
    {
      assert MappedDomains(mappings)[i] == mappings[i].domain;
    }
    domainScores := AccumulateAnswers(seeded, answers, mappings);
  }

  /** `determineAssessments`: walk the scores in key order and push each qualifying domain's assessment. */
  method DetermineAssessments(domainScores: OrderedMap, criteria: seq<AssessmentCriteria>) returns (recommendedAssessments: seq<string>)
    requires domainScores.Valid()
    ensures recommendedAssessments == RecommendedFor(domainScores.keys, domainScores.entries, criteria)
  {
    recommendedAssessments := [];
    var keys := domainScores.keys;
    var i := 0;
    while i < |keys|
      invariant 0 <= i <= |keys|
      invariant recommendedAssessments == RecommendedFor(keys[..i], domainScores.entries, criteria)
    {
      assert keys[..i + 1][..i] == keys[..i];
      var domain := keys[i];
      var score := domainScores.entries[domain];
      var found := FindCriteria(criteria, domain);
      if found.Some? && score >= found.value.threshold {
        recommendedAssessments := recommendedAssessments + [found.value.assessment];
      }
      i := i + 1;
    }
    assert keys[..i] == keys;
  }

  /**
   * `scoreAnswers`: score, decide, hand the undeduplicated list to the
   * response recorder (`recorded`), and return the list without repeats.
   */
  method ScoreAnswers(answers: seq<Answer>, mappings: seq<DomainMapping>, criteria: seq<AssessmentCriteria>)
    returns (results: seq<string>, recorded: seq<string>)
    ensures recorded == Assessments(answers, mappings, criteria)
    ensures results == Score(answers, mappings, criteria)
  {
    var domainScores := CalculateDomainScores(answers, mappings);
    IsScoreTable(domainScores, answers, mappings);
    var assessments := DetermineAssessments(domainScores, criteria);
    recorded := assessments;
    results := Dedup(assessments);
  }

  // ---------------------------------------------------------------------------
  // Properties
  // ---------------------------------------------------------------------------

  /** The score map after seeding the first `i` mapping rows. */
  ghost predicate Seeded(m: OrderedMap, mappings: seq<DomainMapping>, i: nat)
    requires i <= |mappings|
  {
    && m.Valid()
    && m.keys == Dedup(MappedDomains(mappings[..i]))
    && forall d :: d in m.entries ==> m.entries[d] == 0
  }

  /** Seeding row `i` sets its domain to 0 unless the domain is already a key. */
  lemma SeedStep(m: OrderedMap, next: OrderedMap, mappings: seq<DomainMapping>, i: nat)
    requires i < |mappings| && Seeded(m, mappings, i)
    requires next == if m.Has(mappings[i].domain) then m else m.Set(mappings[i].domain, 0)
    ensures Seeded(next, mappings, i + 1)
  {
    assert MappedDomains(mappings[..i + 1])[..i] == MappedDomains(mappings[..i]);
  }

  /** A map keyed by the mapped domains and holding their scores is the score table. */
  lemma IsScoreTable(m: OrderedMap, answers: seq<Answer>, mappings: seq<DomainMapping>)
    requires m.Valid() && m.keys == Dedup(MappedDomains(mappings))
    requires forall d :: d in m.entries ==> m.entries[d] == DomainScore(answers, mappings, d)
    ensures m.entries == ScoreTable(answers, mappings)
  {
    assert m.entries.Keys == ScoreTable(answers, mappings).Keys;
  }

  /** Seeding: with no answers, exactly the mapped domains are scored, each at 0. */
  lemma NoAnswersScoreZero(mappings: seq<DomainMapping>)
    ensures forall d :: d in ScoreTable([], mappings) <==> exists i :: 0 <= i < |mappings| && mappings[i].domain == d
    ensures forall d :: d in ScoreTable([], mappings) ==> ScoreTable([], mappings)[d] == 0
  {
    forall d | exists i :: 0 <= i < |mappings| && mappings[i].domain == d
      ensures d in MappedDomains(mappings)
    {
      var i :| 0 <= i < |mappings| && mappings[i].domain == d;
      assert MappedDomains(mappings)[i] == d;
    }
  }

  /** Scores fold additively: scoring two batches of answers is scoring each and adding. */
  lemma {:induction false} DomainScoreAppend(first: seq<Answer>, second: seq<Answer>, mappings: seq<DomainMapping>, domain: string)
    ensures DomainScore(first + second, mappings, domain) == DomainScore(first, mappings, domain) + DomainScore(second, mappings, domain)
    decreases |second|
  {
    if second == [] {
      assert first + second == first;
    } else {
      var init := second[..|second| - 1];
      var last := second[|second| - 1];
      assert (first + second)[..|first + second| - 1] == first + init;
      DomainScoreAppend(first, init, mappings, domain);
    }
  }


  /** Any reordering of the answers leaves every domain's score unchanged. */
  lemma {:induction false} DomainScorePermutation(a: seq<Answer>, b: seq<Answer>, mappings: seq<DomainMapping>, domain: string)
    requires multiset(a) == multiset(b)
    ensures DomainScore(a, mappings, domain) == DomainScore(b, mappings, domain)
    decreases |a|
  {
    if a == [] {
      assert |b| == |multiset(b)| == 0;
    } else {
      var n := |a| - 1;
      var last := a[n];
      assert last in multiset(b);
      var k :| 0 <= k < |b| && b[k] == last;
      var rest := b[..k] + b[k+1..];
      assert a == a[..n] + [last];
      assert b == b[..k] + [last] + b[k+1..];
      assert multiset(a[..n]) == multiset(rest) by {
        assert multiset(a) == multiset(a[..n]) + multiset{last};
        assert multiset(b) == multiset(rest) + multiset{last};
        assert multiset(a[..n]) == multiset(a) - multiset{last};
        assert multiset(rest) == multiset(b) - multiset{last};
      }
      DomainScorePermutation(a[..n], rest, mappings, domain);
      DomainScoreAppend(a[..n], [last], mappings, domain);
      DomainScoreAppend(b[..k] + [last], b[k+1..], mappings, domain);
      DomainScoreAppend(b[..k], [last], mappings, domain);
      DomainScoreAppend(b[..k], b[k+1..], mappings, domain);
    }
  }

  /** Corollary of `DomainScorePermutation`: swapping two blocks of answers does not change any score. */
  lemma DomainScoreOrderIndependent(first: seq<Answer>, second: seq<Answer>, mappings: seq<DomainMapping>, domain: string)
    ensures DomainScore(first + second, mappings, domain) == DomainScore(second + first, mappings, domain)
  {
    DomainScorePermutation(first + second, second + first, mappings, domain);
  }

  /** An answer whose question has no mapping leaves every score as it was. */
  lemma UnmappedAnswerIgnored(answers: seq<Answer>, answer: Answer, mappings: seq<DomainMapping>)
    requires forall i :: 0 <= i < |mappings| ==> mappings[i].questionId != answer.questionId
    ensures ScoreTable(answers + [answer], mappings) == ScoreTable(answers, mappings)
  {
    assert (answers + [answer])[..|answers|] == answers;
  }

  /** A mapped answer adds its value to its question's first domain and changes no other score. */
  lemma MappedAnswerAddsToItsDomain(answers: seq<Answer>, answer: Answer, mappings: seq<DomainMapping>, i: nat)
    requires i < |mappings| && mappings[i].questionId == answer.questionId
    requires forall j :: 0 <= j < i ==> mappings[j].questionId != answer.questionId
    ensures var d, before := mappings[i].domain, ScoreTable(answers, mappings);
      d in before && ScoreTable(answers + [answer], mappings) == before[d := before[d] + answer.value]
  {
    assert (answers + [answer])[..|answers|] == answers;
    assert MappedDomains(mappings)[i] == mappings[i].domain;
    assert FindMapping(mappings, answer.questionId) == Some(mappings[i]);
  }

  /**
   * `AssessmentFor`'s contract specialised to a known first row `i`: that row's
   * assessment when the score reaches its threshold (inclusive), else nothing.
   */
  lemma AssessmentForFirstRow(criteria: seq<AssessmentCriteria>, domain: string, score: int, i: nat)
    requires i < |criteria| && criteria[i].domain == domain
    requires forall j :: 0 <= j < i ==> criteria[j].domain != domain
    ensures AssessmentFor(criteria, domain, score) ==
      if score >= criteria[i].threshold then Some(criteria[i].assessment) else None
  {
    assert FindCriteria(criteria, domain) == Some(criteria[i]);
  }

  /** The walk pushes one assessment per qualifying domain, in the walk's order. */
  lemma {:induction false} RecommendedPerQualifyingDomain(domains: seq<string>, scores: map<string, int>, criteria: seq<AssessmentCriteria>)
    requires forall d :: d in domains ==> d in scores
    ensures var r := RecommendedFor(domains, scores, criteria);
      var q := QualifyingDomains(domains, scores, criteria);
      |r| == |q| && forall i :: 0 <= i < |q| ==> AssessmentFor(criteria, q[i], scores[q[i]]) == Some(r[i])
    decreases |domains|
  {
    if domains != [] {
      var init := domains[..|domains| - 1];
      var last := domains[|domains| - 1];
      RecommendedPerQualifyingDomain(init, scores, criteria);
      var r0 := RecommendedFor(init, scores, criteria);
      var q0 := QualifyingDomains(init, scores, criteria);
      var r := RecommendedFor(domains, scores, criteria);
      var q := QualifyingDomains(domains, scores, criteria);
      match AssessmentFor(criteria, last, scores[last])
      case Some(a) =>
        assert r == r0 + [a] && q == q0 + [last];
      case None =>
        assert r == r0 && q == q0;
    }
  }

  /** The qualifying domains keep the order of a repeat-free walk. */
  lemma {:induction false} QualifyingDomainsInOrder(domains: seq<string>, scores: map<string, int>, criteria: seq<AssessmentCriteria>)
    requires forall d :: d in domains ==> d in scores
    requires Distinct(domains)
    ensures var q := QualifyingDomains(domains, scores, criteria);
      Distinct(q) && forall i, j :: 0 <= i < j < |q| ==> IndexOf(domains, q[i]) < IndexOf(domains, q[j])
    decreases |domains|
  {
    if domains != [] {
      var init := domains[..|domains| - 1];
      var last := domains[|domains| - 1];
      var q := QualifyingDomains(domains, scores, criteria);
      var qi := QualifyingDomains(init, scores, criteria);
      QualifyingDomainsInOrder(init, scores, criteria);
      assert last !in init;
      forall i, j | 0 <= i < j < |q|
        ensures q[i] != q[j] && IndexOf(domains, q[i]) < IndexOf(domains, q[j])
      {
        assert q[i] == qi[i] && q[i] in init;
        IndexOfPrefix(domains, |domains| - 1, q[i]);
        if j < |qi| {
          assert q[j] == qi[j];
          IndexOfPrefix(domains, |domains| - 1, q[j]);
        } else {
          assert q[j] == last;
          assert IndexOf(domains, last) == |domains| - 1;
        }
      }
    }
  }

  /** A name is pushed iff some walked domain qualifies with that name. */
  /**
   * The pushed list of a submission, in one statement: one entry per qualifying
   * domain, each domain once, in the order the domains first appear in the
   * mapping table, entry `i` being the assessment of the `i`-th such domain.
   */
  lemma AssessmentsInMappingOrder(answers: seq<Answer>, mappings: seq<DomainMapping>, criteria: seq<AssessmentCriteria>)
    ensures var q := QualifyingDomains(Dedup(MappedDomains(mappings)), ScoreTable(answers, mappings), criteria);
      forall d :: d in q <==> d in MappedDomains(mappings) && AssessmentFor(criteria, d, DomainScore(answers, mappings, d)).Some?
    ensures Distinct(QualifyingDomains(Dedup(MappedDomains(mappings)), ScoreTable(answers, mappings), criteria))
    ensures var q := QualifyingDomains(Dedup(MappedDomains(mappings)), ScoreTable(answers, mappings), criteria);
      forall i, j :: 0 <= i < j < |q| ==> IndexOf(MappedDomains(mappings), q[i]) < IndexOf(MappedDomains(mappings), q[j])
    ensures var q := QualifyingDomains(Dedup(MappedDomains(mappings)), ScoreTable(answers, mappings), criteria);
      var r := Assessments(answers, mappings, criteria);
      |r| == |q| && forall i :: 0 <= i < |q| ==> AssessmentFor(criteria, q[i], DomainScore(answers, mappings, q[i])) == Some(r[i])
  {
    var domains := MappedDomains(mappings);
    var walk := Dedup(domains);
    var scores := ScoreTable(answers, mappings);
    var q := QualifyingDomains(walk, scores, criteria);
    assert forall d :: d in walk ==> d in scores;
    QualifyingDomainsInOrder(walk, scores, criteria);
    RecommendedPerQualifyingDomain(walk, scores, criteria);
    DedupFirstOccurrenceOrder(domains);
    forall i, j | 0 <= i < j < |q|
      ensures IndexOf(domains, q[i]) < IndexOf(domains, q[j])
    {
      var x := IndexOf(walk, q[i]);
      var y := IndexOf(walk, q[j]);
      assert IndexOf(walk, q[i]) < IndexOf(walk, q[j]);
      assert walk[x] == q[i] && walk[y] == q[j];
    }
  }

  lemma {:induction false} RecommendedForMembership(domains: seq<string>, scores: map<string, int>, criteria: seq<AssessmentCriteria>, x: string)
    requires forall d :: d in domains ==> d in scores
    ensures x in RecommendedFor(domains, scores, criteria) <==>
      exists d :: d in domains && AssessmentFor(criteria, d, scores[d]) == Some(x)
    decreases |domains|
  {
    if domains != [] {
      var init := domains[..|domains| - 1];
      var last := domains[|domains| - 1];
      RecommendedForMembership(init, scores, criteria, x);
      assert forall d :: d in domains <==> d in init || d == last;
      var r0 := RecommendedFor(init, scores, criteria);
      var r := RecommendedFor(domains, scores, criteria);
      match AssessmentFor(criteria, last, scores[last])
      case Some(a) =>
        assert r == r0 + [a];
        assert x in r <==> x in r0 || x == a;
      case None =>
        assert r == r0;
    }
  }

  /**
   * The returned list: no repeats, and a name is in it iff some mapped domain's
   * score reaches the threshold of that domain's first criteria row naming it.
   */
  lemma ScoreMembership(answers: seq<Answer>, mappings: seq<DomainMapping>, criteria: seq<AssessmentCriteria>, x: string)
    ensures Distinct(Score(answers, mappings, criteria))
    ensures x in Score(answers, mappings, criteria) <==>
      exists d :: d in MappedDomains(mappings) && AssessmentFor(criteria, d, DomainScore(answers, mappings, d)) == Some(x)
  {
    var domains := Dedup(MappedDomains(mappings));
    var scores := ScoreTable(answers, mappings);
    RecommendedForMembership(domains, scores, criteria, x);
    if x in Score(answers, mappings, criteria) {
      var d :| d in domains && AssessmentFor(criteria, d, scores[d]) == Some(x);
      assert d in MappedDomains(mappings);
    }
    if exists d :: d in MappedDomains(mappings) && AssessmentFor(criteria, d, DomainScore(answers, mappings, d)) == Some(x) {
      var d :| d in MappedDomains(mappings) && AssessmentFor(criteria, d, DomainScore(answers, mappings, d)) == Some(x);
      assert d in domains && scores[d] == DomainScore(answers, mappings, d);
    }
  }

  /** With no answers, only domains whose first criteria row has a threshold of at most 0 are recommended. */
  lemma EmptySubmission(mappings: seq<DomainMapping>, criteria: seq<AssessmentCriteria>, x: string)
    ensures x in Score([], mappings, criteria) <==>
      exists d :: d in MappedDomains(mappings) && FindCriteria(criteria, d).Some? &&
        FindCriteria(criteria, d).value.threshold <= 0 && FindCriteria(criteria, d).value.assessment == x
  {
    ScoreMembership([], mappings, criteria, x);
  }

  /** A mapped domain with no criteria row is never the source of a recommendation, whatever the answers. */
  lemma NoCriteriaNoRecommendation(answers: seq<Answer>, mappings: seq<DomainMapping>, criteria: seq<AssessmentCriteria>, domain: string)
    requires FindCriteria(criteria, domain).None?
    ensures forall x :: x in Score(answers, mappings, criteria) ==>
      exists d :: d in MappedDomains(mappings) && d != domain && AssessmentFor(criteria, d, DomainScore(answers, mappings, d)) == Some(x)
  {
    forall x | x in Score(answers, mappings, criteria)
      ensures exists d :: d in MappedDomains(mappings) && d != domain && AssessmentFor(criteria, d, DomainScore(answers, mappings, d)) == Some(x)
    {
      ScoreMembership(answers, mappings, criteria, x);
      var d :| d in MappedDomains(mappings) && AssessmentFor(criteria, d, DomainScore(answers, mappings, d)) == Some(x);
      assert d != domain;
    }
  }

  // ---------------------------------------------------------------------------
  // Worked examples: two questions, one per domain
  // ---------------------------------------------------------------------------

  function ExampleMappings(): (r: seq<DomainMapping>) {
    [DomainMapping("q1", "mood"), DomainMapping("q2", "anxiety")]
  }

  function ExampleCriteria(): (r: seq<AssessmentCriteria>) {
    [AssessmentCriteria("mood", 5, "PHQ-9"), AssessmentCriteria("anxiety", 3, "GAD-7")]
  }

  /** The example tables walk mood, then anxiety. */
  lemma ExampleDomains(mappings: seq<DomainMapping>)
    requires mappings == ExampleMappings() || mappings == ExampleMappings() + [DomainMapping("q3", "mood")]
    ensures Dedup(MappedDomains(mappings)) == ["mood", "anxiety"]
  {
    var two := MappedDomains(ExampleMappings());
    assert two == ["mood", "anxiety"];
    DedupOfDistinct(two);
    if mappings != ExampleMappings() {
      assert MappedDomains(mappings)[..2] == two;
      assert MappedDomains(mappings)[2] == "mood";
    }
  }

  /** Walking mood then anxiety against the example criteria. */
  lemma ExampleWalk(scores: map<string, int>)
    requires "mood" in scores && "anxiety" in scores
    ensures RecommendedFor(["mood", "anxiety"], scores, ExampleCriteria()) ==
      (if scores["mood"] >= 5 then ["PHQ-9"] else []) + (if scores["anxiety"] >= 3 then ["GAD-7"] else [])
  {
    var criteria := ExampleCriteria();
    assert FindCriteria(criteria, "mood") == Some(criteria[0]);
    assert FindCriteria(criteria, "anxiety") == Some(criteria[1]);
    assert ["mood", "anxiety"][..1] == ["mood"] && ["mood"][..0] == [];
  }

  /** Against the example criteria, the result is fixed by the mood and anxiety scores alone. */
  lemma ExampleScore(answers: seq<Answer>, mappings: seq<DomainMapping>)
    requires Dedup(MappedDomains(mappings)) == ["mood", "anxiety"]
    ensures Score(answers, mappings, ExampleCriteria()) ==
      (if DomainScore(answers, mappings, "mood") >= 5 then ["PHQ-9"] else []) +
      (if DomainScore(answers, mappings, "anxiety") >= 3 then ["GAD-7"] else [])
  {
    var criteria := ExampleCriteria();
    var mood, anxiety := DomainScore(answers, mappings, "mood"), DomainScore(answers, mappings, "anxiety");
    var scores := ScoreTable(answers, mappings);
    assert scores["mood"] == mood && scores["anxiety"] == anxiety by {
      assert "mood" in Dedup(MappedDomains(mappings)) && "anxiety" in Dedup(MappedDomains(mappings));
    }
    var expected := (if mood >= 5 then ["PHQ-9"] else []) + (if anxiety >= 3 then ["GAD-7"] else []);
    assert Assessments(answers, mappings, criteria) == expected by { ExampleWalk(scores); }
    assert Score(answers, mappings, criteria) == Dedup(expected);
    DedupOfDistinct(expected);
  }

  /** The score of a two-answer submission, answer by answer. */
  lemma DomainScoreOfPair(first: Answer, second: Answer, mappings: seq<DomainMapping>, domain: string)
    ensures DomainScore([first, second], mappings, domain) ==
      Contribution(mappings, first, domain) + Contribution(mappings, second, domain)
  {
    assert [first, second][..1] == [first] && [first][..0] == [];
    assert DomainScore([first], mappings, domain) == Contribution(mappings, first, domain);
  }

  /** The example mapping table sends q1 to mood, q2 to anxiety, and knows no q9. */
  lemma ExampleLookups()
    ensures FindMapping(ExampleMappings(), "q1") == Some(DomainMapping("q1", "mood"))
    ensures FindMapping(ExampleMappings(), "q2") == Some(DomainMapping("q2", "anxiety"))
    ensures FindMapping(ExampleMappings(), "q9") == None
  {
  }

  /** mood scores 3 (below 5), anxiety scores 4 (reaches 3): only GAD-7. */
  lemma ExampleAnxietyOnly()
    ensures Score([Answer("q1", 3), Answer("q2", 4)], ExampleMappings(), ExampleCriteria()) == ["GAD-7"]
  {
    var a, b := Answer("q1", 3), Answer("q2", 4);
    ExampleDomains(ExampleMappings());
    ExampleScore([a, b], ExampleMappings());
    ExampleLookups();
    DomainScoreOfPair(a, b, ExampleMappings(), "mood");
    DomainScoreOfPair(a, b, ExampleMappings(), "anxiety");
  }

  /** mood scores exactly its threshold 5: PHQ-9 only. */
  lemma ExampleMoodAtThreshold()
    ensures Score([Answer("q1", 5), Answer("q2", 0)], ExampleMappings(), ExampleCriteria()) == ["PHQ-9"]
  {
    var a, b := Answer("q1", 5), Answer("q2", 0);
    ExampleDomains(ExampleMappings());
    ExampleScore([a, b], ExampleMappings());
    ExampleLookups();
    DomainScoreOfPair(a, b, ExampleMappings(), "mood");
    DomainScoreOfPair(a, b, ExampleMappings(), "anxiety");
  }

  /** No answers and thresholds above 0: nothing is recommended. */
  lemma ExampleNoAnswers()
    ensures Score([], ExampleMappings(), ExampleCriteria()) == []
  {
    ExampleDomains(ExampleMappings());
    ExampleScore([], ExampleMappings());
  }

  /** Two mood questions answered 2 and 3 sum to 5 and reach the mood threshold. */
  lemma ExampleTwoMoodQuestions()
    ensures Score([Answer("q1", 2), Answer("q3", 3)],
                  ExampleMappings() + [DomainMapping("q3", "mood")], ExampleCriteria()) == ["PHQ-9"]
  {
    var a, b := Answer("q1", 2), Answer("q3", 3);
    var mappings := ExampleMappings() + [DomainMapping("q3", "mood")];
    ExampleDomains(mappings);
    ExampleScore([a, b], mappings);
    assert FindMapping(mappings, "q1") == Some(mappings[0]);
    assert FindMapping(mappings, "q3") == Some(mappings[2]);
    DomainScoreOfPair(a, b, mappings, "mood");
    DomainScoreOfPair(a, b, mappings, "anxiety");
  }

  /** An answer to an unmapped question contributes nothing and is not an error. */
  lemma ExampleUnmappedQuestion()
    ensures Score([Answer("q9", 100), Answer("q2", 3)], ExampleMappings(), ExampleCriteria()) == ["GAD-7"]
  {
    var a, b := Answer("q9", 100), Answer("q2", 3);
    ExampleDomains(ExampleMappings());
    ExampleScore([a, b], ExampleMappings());
    ExampleLookups();
    DomainScoreOfPair(a, b, ExampleMappings(), "mood");
    DomainScoreOfPair(a, b, ExampleMappings(), "anxiety");
  }
}
