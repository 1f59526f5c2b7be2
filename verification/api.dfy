/**
 * The JSON API: the university and program searches with their page
 * arithmetic, and the two batch updates fed by the mock external sources
 * (rankings and government accreditation).
 */
module Api {
  import opened Wrappers
  import opened Text
  import opened Tables
  import opened Models
  import opened Store

  /** The paging part of a search response: `total`, `page` and `has_next` beside the items. */
  datatype Page<T> = Page(items: seq<T>, total: nat, page: int, hasNext: bool)

  /**
   * One page of a query's results. `None` is the server error a negative
   * offset causes (page < 1).
   */
  function Paginate<T>(results: seq<T>, page: int): (r: Option<Page<T>>)
    ensures r.None? <==> page < 1
    ensures r.Some? ==> r.value.items == PageSlice(results, page).value
    ensures r.Some? ==> r.value.total == |results| && r.value.page == page
    ensures r.Some? ==> (r.value.hasNext <==> PageSlice(results, page + 1).value != [])
  {
    if page < 1 then None
    else
      HasNextMeansMore(results, page);
      Some(Page(PageSlice(results, page).value, |results|, page, |results| > page * PageSize))
  }

  // ---------------------------------------------------------------------
  // search_universities

  predicate IsListed(i: Institution) { i.isActive }

  function HasCountryCode(countryCode: string): Institution -> bool {
    (i: Institution) => i.countryCode == countryCode
  }

  /** `name`, `city` or `description` contains the term (a NULL description contains nothing). */
  predicate Mentions(i: Institution, term: string) {
    Contains(i.name, term) || Contains(i.city, term) || (i.description.Some? && Contains(i.description.value, term))
  }

  function MentionsTerm(term: string): Institution -> bool {
    (i: Institution) => Mentions(i, term)
  }

  /** What a returned university satisfies: active, of the country if one is given, mentioning the term if one is given. */
  predicate MatchesUniversity(i: Institution, country: string, term: string) {
    i.isActive && (country != "" ==> i.countryCode == country) && (term != "" ==> Mentions(i, term))
  }

  function UniversityFilter(country: string, term: string): Institution -> bool {
    (i: Institution) => MatchesUniversity(i, country, term)
  }

  /**
   * The query of `search_universities`, built filter by filter as the
   * handler builds it; it selects exactly the rows `MatchesUniversity` holds of.
   */
  function UniversityResults(institutions: map<int, Institution>, hi: int, country: string, term: string)
    : (r: seq<Keyed<Institution>>)
    ensures r == Filter(Scan(institutions, hi), OnRow(UniversityFilter(country, term)))
  {
    var scan := Scan(institutions, hi);
    var active := Filter(scan, OnRow(IsListed));
    var inCountry := Refine(active, country != "", OnRow(HasCountryCode(country)));
    RefineRows(scan, IsListed, country != "", HasCountryCode(country), UniversityFilter(country, ""));
    var mentioning := Refine(inCountry, term != "", OnRow(MentionsTerm(term)));
    RefineRows(scan, UniversityFilter(country, ""), term != "", MentionsTerm(term), UniversityFilter(country, term));
    mentioning
  }

  /** A matching university with a key below the counter is among the results. */
  lemma UniversityResultsComplete(institutions: map<int, Institution>, hi: int, country: string, term: string, k: int)
    requires 1 <= k < hi && k in institutions && MatchesUniversity(institutions[k], country, term)
    ensures Keyed(k, institutions[k]) in UniversityResults(institutions, hi, country, term)
  {
    ScanComplete(institutions, hi, k);
    FilterComplete(Scan(institutions, hi), OnRow(UniversityFilter(country, term)));
    assert OnRow(UniversityFilter(country, term))(Keyed(k, institutions[k]));
  }

  function ActiveProgramAt(institutionId: int): Program -> bool {
    (p: Program) => p.isActive && p.institutionId == institutionId
  }

  /** One entry of `universities` in the response (the columns this model keeps). */
  datatype UniversityJson = UniversityJson(
    id: int,
    name: string,
    location: string,
    countryCode: string,
    description: Option<string>,
    worldRanking: Option<int>,
    applicationFee: int,
    programCount: nat)

  /** A NULL or zero fee is reported as 0; any other fee as itself. */
  function ReportedFee(fee: Option<int>): (r: int)
    ensures fee.None? ==> r == 0
    ensures fee.Some? ==> r == fee.value
  {
    if fee.Some? && fee.value != 0 then fee.value else 0
  }

  function UniversityJsonOf(u: Keyed<Institution>, programs: map<int, Program>, programHi: int): (r: UniversityJson)
    ensures r.id == u.id && r.name == u.row.name && r.countryCode == u.row.countryCode
    ensures r.location == u.row.city + ", " + u.row.country
    ensures r.applicationFee == ReportedFee(u.row.applicationFee)
    ensures r.programCount == Count(programs, ActiveProgramAt(u.id), programHi)
  {
    UniversityJson(u.id, u.row.name, u.row.city + ", " + u.row.country, u.row.countryCode,
                   u.row.description, u.row.worldRanking, ReportedFee(u.row.applicationFee),
                   Count(programs, ActiveProgramAt(u.id), programHi))
  }

  /** The response entries for a page of universities, in order. */
  function RenderUniversities(rows: seq<Keyed<Institution>>, programs: map<int, Program>, programHi: int)
    : (r: seq<UniversityJson>)
    ensures |r| == |rows|
    ensures forall i :: 0 <= i < |r| ==> r[i] == UniversityJsonOf(rows[i], programs, programHi)
  {
    seq(|rows|, i requires 0 <= i < |rows| => UniversityJsonOf(rows[i], programs, programHi))
  }

  /**
   * `search_universities`: the requested page of matching universities,
   * rendered, with the total number of matches and whether a further page
   * exists. `None` is the server error of a page number below 1.
   */
  function SearchUniversities(institutions: map<int, Institution>, hi: int,
                              programs: map<int, Program>, programHi: int,
                              country: string, term: string, page: int): (r: Option<Page<UniversityJson>>)
    ensures r.None? <==> page < 1
    ensures r.Some? ==> |r.value.items| <= PageSize && r.value.page == page
    ensures r.Some? ==> r.value.total == |UniversityResults(institutions, hi, country, term)|
    ensures r.Some? ==> (r.value.hasNext <==> r.value.total > page * PageSize)
    ensures r.Some? ==>
      r.value.items == RenderUniversities(PageSlice(UniversityResults(institutions, hi, country, term), page).value, programs, programHi)
  {
    match Paginate(UniversityResults(institutions, hi, country, term), page)
    case None => None
    case Some(p) => Some(Page(RenderUniversities(p.items, programs, programHi), p.total, p.page, p.total > page * PageSize))
  }

  /** Every university on a page is an active one of the requested country that mentions the term. */
  lemma SearchUniversitiesSound(institutions: map<int, Institution>, hi: int,
                                programs: map<int, Program>, programHi: int,
                                country: string, term: string, page: int, i: int)
    requires page >= 1
    requires 0 <= i < |SearchUniversities(institutions, hi, programs, programHi, country, term, page).value.items|
    ensures var u := SearchUniversities(institutions, hi, programs, programHi, country, term, page).value.items[i];
      u.id in institutions && MatchesUniversity(institutions[u.id], country, term)
  {
    var results := UniversityResults(institutions, hi, country, term);
    var slice := PageSlice(results, page).value;
    PageSliceItem(results, page, i);
    FilterSubset(Scan(institutions, hi), OnRow(UniversityFilter(country, term)));
    assert slice[i] in Scan(institutions, hi);
    assert OnRow(UniversityFilter(country, term))(slice[i]);
  }

  // ---------------------------------------------------------------------
  // search_programs

  /** The request arguments; a missing number is `None`, a missing string empty. Fees are in cents. */
  datatype ProgramQuery = ProgramQuery(
    universityId: Option<int>,
    field: string,
    degreeType: string,
    minFee: Option<int>,
    maxFee: Option<int>,
    page: int)

  /** `if university_id:` — a missing or zero id adds no filter. */
  predicate NarrowsUniversity(q: ProgramQuery) { q.universityId.Some? && q.universityId.value != 0 }

  /** What a returned program satisfies: every condition whose request argument was given, fee bounds inclusive. */
  predicate MatchesProgram(p: Program, institutions: map<int, Institution>, q: ProgramQuery) {
    && p.isActive
    && p.institutionId in institutions
    && (NarrowsUniversity(q) ==> p.institutionId == q.universityId.value)
    && (q.field != "" ==> Contains(p.fieldOfStudy, q.field))
    && (q.degreeType != "" ==> p.degreeType == q.degreeType)
    && (q.minFee.Some? ==> q.minFee.value <= p.tuitionFee)
    && (q.maxFee.Some? ==> p.tuitionFee <= q.maxFee.value)
  }

  predicate IsOffered(p: Program) { p.isActive }

  /** The inner join with `institutions`. */
  function HasInstitution(institutions: map<int, Institution>): Program -> bool {
    (p: Program) => p.institutionId in institutions
  }

  function AtInstitution(universityId: Option<int>): Program -> bool {
    (p: Program) => universityId == Some(p.institutionId)
  }

  function InField(field: string): Program -> bool {
    (p: Program) => Contains(p.fieldOfStudy, field)
  }

  function OfDegree(degreeType: string): Program -> bool {
    (p: Program) => p.degreeType == degreeType
  }

  /** `tuition_fee >= min_fee` (inclusive). */
  function FeeAtLeast(minFee: Option<int>): Program -> bool {
    (p: Program) => minFee.Some? && minFee.value <= p.tuitionFee
  }

  /** `tuition_fee <= max_fee` (inclusive). */
  function FeeAtMost(maxFee: Option<int>): Program -> bool {
    (p: Program) => maxFee.Some? && p.tuitionFee <= maxFee.value
  }

  function ProgramFilter(institutions: map<int, Institution>, q: ProgramQuery): Program -> bool {
    (p: Program) => MatchesProgram(p, institutions, q)
  }

  /**
   * The query of `search_programs` with every filter on the program's own
   * columns, built filter by filter; it selects exactly the rows
   * `MatchesProgram` holds of. The inner join keeps the programs whose
   * institution exists. Each step is justified against the query whose
   * arguments given so far are those of the request.
   */
  function ProgramResults(programs: map<int, Program>, hi: int, institutions: map<int, Institution>, q: ProgramQuery)
    : (r: seq<Keyed<Program>>)
    ensures r == Filter(Scan(programs, hi), OnRow(ProgramFilter(institutions, q)))
  {
    var scan := Scan(programs, hi);
    var q4 := q.(minFee := None, maxFee := None);
    var q5 := q4.(minFee := q.minFee);
    var ofDegree := ByColumns(scan, institutions, q4);
    var aboveMin := Refine(ofDegree, q.minFee.Some?, OnRow(FeeAtLeast(q.minFee)));
    RefineRows(scan, ProgramFilter(institutions, q4), q.minFee.Some?, FeeAtLeast(q.minFee), ProgramFilter(institutions, q5));
    var belowMax := Refine(aboveMin, q.maxFee.Some?, OnRow(FeeAtMost(q.maxFee)));
    assert q5.(maxFee := q.maxFee) == q;
    RefineRows(scan, ProgramFilter(institutions, q5), q.maxFee.Some?, FeeAtMost(q.maxFee), ProgramFilter(institutions, q));
    belowMax
  }

  /** The first three filters of `search_programs`: offered, joined to an institution, at the asked university. */
  function ByUniversity(scan: seq<Keyed<Program>>, institutions: map<int, Institution>, q: ProgramQuery)
    : (r: seq<Keyed<Program>>)
    requires q.field == "" && q.degreeType == "" && q.minFee.None? && q.maxFee.None?
    ensures r == Filter(scan, OnRow(ProgramFilter(institutions, q)))
  {
    var q1 := q.(universityId := None);
    var active := Filter(scan, OnRow(IsOffered));
    var joined := Refine(active, true, OnRow(HasInstitution(institutions)));
    RefineRows(scan, IsOffered, true, HasInstitution(institutions), ProgramFilter(institutions, q1));
    var atUniversity := Refine(joined, NarrowsUniversity(q), OnRow(AtInstitution(q.universityId)));
    assert q1.(universityId := q.universityId) == q;
    RefineRows(scan, ProgramFilter(institutions, q1), NarrowsUniversity(q), AtInstitution(q.universityId), ProgramFilter(institutions, q));
    atUniversity
  }

  /** The filters of `search_programs` up to the degree type. */
  function ByColumns(scan: seq<Keyed<Program>>, institutions: map<int, Institution>, q: ProgramQuery)
    : (r: seq<Keyed<Program>>)
    requires q.minFee.None? && q.maxFee.None?
    ensures r == Filter(scan, OnRow(ProgramFilter(institutions, q)))
  {
    var q2 := q.(field := "", degreeType := "");
    var q3 := q2.(field := q.field);
    var atUniversity := ByUniversity(scan, institutions, q2);
    var inField := Refine(atUniversity, q.field != "", OnRow(InField(q.field)));
    RefineRows(scan, ProgramFilter(institutions, q2), q.field != "", InField(q.field), ProgramFilter(institutions, q3));
    var ofDegree := Refine(inField, q.degreeType != "", OnRow(OfDegree(q.degreeType)));
    assert q3.(degreeType := q.degreeType) == q;
    RefineRows(scan, ProgramFilter(institutions, q3), q.degreeType != "", OfDegree(q.degreeType), ProgramFilter(institutions, q));
    ofDegree
  }

  /** A matching program with a key below the counter is among the results. */
  lemma ProgramResultsComplete(programs: map<int, Program>, hi: int, institutions: map<int, Institution>,
                               q: ProgramQuery, k: int)
    requires 1 <= k < hi && k in programs && MatchesProgram(programs[k], institutions, q)
    ensures Keyed(k, programs[k]) in ProgramResults(programs, hi, institutions, q)
  {
    ScanComplete(programs, hi, k);
    FilterComplete(Scan(programs, hi), OnRow(ProgramFilter(institutions, q)));
    assert OnRow(ProgramFilter(institutions, q))(Keyed(k, programs[k]));
  }

  /** One entry of `programs` in the response (the columns this model keeps). */
  datatype ProgramJson = ProgramJson(
    id: int,
    name: string,
    institution: string,
    degreeType: string,
    fieldOfStudy: string,
    tuitionFee: int)

  function ProgramJsonOf(p: Keyed<Program>, institutions: map<int, Institution>): (r: ProgramJson)
    requires p.row.institutionId in institutions
    ensures r.id == p.id && r.institution == institutions[p.row.institutionId].name
    ensures r.name == p.row.name && r.tuitionFee == p.row.tuitionFee
  {
    ProgramJson(p.id, p.row.name, institutions[p.row.institutionId].name, p.row.degreeType,
                p.row.fieldOfStudy, p.row.tuitionFee)
  }

  /** Every listed program is a row of the table that satisfies the query, joined to an existing institution. */
  lemma ProgramResultsMatch(programs: map<int, Program>, hi: int, institutions: map<int, Institution>, q: ProgramQuery)
    ensures var results := ProgramResults(programs, hi, institutions, q);
      forall j :: 0 <= j < |results| ==>
        results[j].id in programs && programs[results[j].id] == results[j].row
        && MatchesProgram(results[j].row, institutions, q)
  {
    var results := ProgramResults(programs, hi, institutions, q);
    FilterSubset(Scan(programs, hi), OnRow(ProgramFilter(institutions, q)));
    forall j | 0 <= j < |results|
      ensures results[j].id in programs && programs[results[j].id] == results[j].row
      ensures MatchesProgram(results[j].row, institutions, q)
    {
      assert OnRow(ProgramFilter(institutions, q))(results[j]);
      assert results[j] in Scan(programs, hi);
    }
  }

  /** Every row joins to an existing institution. */
  predicate Joined(rows: seq<Keyed<Program>>, institutions: map<int, Institution>) {
    forall i :: 0 <= i < |rows| ==> rows[i].row.institutionId in institutions
  }

  /** A page of joined rows is joined. */
  lemma PageJoined(rows: seq<Keyed<Program>>, institutions: map<int, Institution>, page: int)
    requires Joined(rows, institutions) && page >= 1
    ensures Joined(PageSlice(rows, page).value, institutions)
  {
  }

  /** The response entries for a page of programs, in order. */
  function RenderPrograms(rows: seq<Keyed<Program>>, institutions: map<int, Institution>): (r: seq<ProgramJson>)
    requires Joined(rows, institutions)
    ensures |r| == |rows|
    ensures forall i :: 0 <= i < |r| ==> r[i] == ProgramJsonOf(rows[i], institutions)
  {
    seq(|rows|, i requires 0 <= i < |rows| => ProgramJsonOf(rows[i], institutions))
  }

  /**
   * `search_programs` with the university and degree filters applied to the
   * program's columns: the requested page of matching programs, the total
   * and whether a further page exists; `None` for a page below 1. Each
   * entry is a matching program.
   */
  function SearchPrograms(programs: map<int, Program>, hi: int, institutions: map<int, Institution>, q: ProgramQuery)
    : (r: Option<Page<ProgramJson>>)
    ensures r.None? <==> q.page < 1
    ensures r.Some? ==> |r.value.items| <= PageSize && r.value.page == q.page
    ensures r.Some? ==> r.value.total == |ProgramResults(programs, hi, institutions, q)|
    ensures r.Some? ==> (r.value.hasNext <==> r.value.total > q.page * PageSize)
    ensures r.Some? ==> |r.value.items| == |PageSlice(ProgramResults(programs, hi, institutions, q), q.page).value|
    ensures r.Some? ==> forall i :: 0 <= i < |r.value.items| ==>
      r.value.items[i].id == PageSlice(ProgramResults(programs, hi, institutions, q), q.page).value[i].id
  {
    var results := ProgramResults(programs, hi, institutions, q);
    match Paginate(results, q.page)
    case None => None
    case Some(p) =>
      ProgramResultsMatch(programs, hi, institutions, q);
      PageJoined(results, institutions, q.page);
      Some(Page(RenderPrograms(p.items, institutions), p.total, p.page, p.total > q.page * PageSize))
  }

  /** Every program on a page is an offered one that satisfies each filter the request gave. */
  lemma SearchProgramsSound(programs: map<int, Program>, hi: int, institutions: map<int, Institution>, q: ProgramQuery, i: int)
    requires q.page >= 1
    requires 0 <= i < |SearchPrograms(programs, hi, institutions, q).value.items|
    ensures var p := SearchPrograms(programs, hi, institutions, q).value.items[i];
      p.id in programs && MatchesProgram(programs[p.id], institutions, q)
  {
    var results := ProgramResults(programs, hi, institutions, q);
    ProgramResultsMatch(programs, hi, institutions, q);
    PageSliceItem(results, q.page, i);
  }

  /**
   * `search_programs` as written: after `.join(Institution)`, `filter_by`
   * names columns of the joined `Institution`, which has neither
   * `institution_id` nor `degree_type`, so asking for either filter fails
   * with a server error (`None`), as does a page below 1.
   */
  function SearchProgramsAsWritten(programs: map<int, Program>, hi: int, institutions: map<int, Institution>, q: ProgramQuery)
    : (r: Option<Page<ProgramJson>>)
    ensures r.None? <==> q.page < 1 || NarrowsUniversity(q) || q.degreeType != ""
    ensures r.Some? ==> r == SearchPrograms(programs, hi, institutions, q)
  {
    if NarrowsUniversity(q) || q.degreeType != "" then None
    else SearchPrograms(programs, hi, institutions, q)
  }

  /**
   * Whatever the tables hold, a request for page 1 of one university's
   * programs, or of one degree type, fails as written and is answered by the
   * corrected search.
   */
  lemma SearchProgramsFilterByFails(programs: map<int, Program>, hi: int, institutions: map<int, Institution>, q: ProgramQuery)
    requires q.page == 1 && (q.universityId == Some(1) || q.degreeType == "Master")
    ensures SearchProgramsAsWritten(programs, hi, institutions, q).None?
    ensures SearchPrograms(programs, hi, institutions, q).Some?
  {
  }

  // ---------------------------------------------------------------------
  // update_rankings

  /** One entry of the ranking feed. */
  datatype Ranking = Ranking(universityName: string, worldRank: int)

  /** `fetch_university_rankings`: the fixed mock feed. */
  const RankingFeed: seq<Ranking> :=
    [Ranking("Harvard University", 1), Ranking("MIT", 2), Ranking("Stanford University", 3)]

  function NamedAs(name: string): Institution -> bool {
    (i: Institution) => i.name == name
  }

  /** Row `k` is the one `.filter_by(name=...).first()` finds for its own name. */
  ghost predicate FirstOfName(m: map<int, Institution>, hi: int, k: int)
    requires k in m
  {
    1 <= k < hi && forall j :: 1 <= j < k && j in m ==> m[j].name != m[k].name
  }

  /**
   * One feed entry: the first institution of that name, if any, takes the
   * rank; every other row is unchanged.
   */
  function ApplyRanking(m: map<int, Institution>, hi: int, r: Ranking): (m': map<int, Institution>)
    ensures m'.Keys == m.Keys
    ensures forall k :: k in m ==>
      m'[k] == if FirstOfName(m, hi, k) && m[k].name == r.universityName
               then m[k].(worldRanking := Some(r.worldRank)) else m[k]
  {
    match FirstKey(m, NamedAs(r.universityName), 1, hi)
    case None => m
    case Some(f) =>
      var m' := m[f := m[f].(worldRanking := Some(r.worldRank))];
      assert forall k :: k in m && k != f && m[k].name == r.universityName ==> !FirstOfName(m, hi, k) by {
        forall k | k in m && k != f && m[k].name == r.universityName
          ensures !FirstOfName(m, hi, k)
        {
          if k < f {
            assert !NamedAs(r.universityName)(m[k]) || k < 1;
          } else {
            assert 1 <= f < k && f in m && m[f].name == m[k].name;
          }
        }
      }
      m'
  }

  /**
   * The feed applied entry after entry: only `world_ranking` changes.
   */
  function ApplyRankings(m: map<int, Institution>, hi: int, feed: seq<Ranking>): (m': map<int, Institution>)
    ensures m'.Keys == m.Keys
    ensures forall k :: k in m ==> m'[k].(worldRanking := m[k].worldRanking) == m[k]
    decreases |feed|
  {
    if feed == [] then m
    else ApplyRanking(ApplyRankings(m, hi, feed[..|feed| - 1]), hi, feed[|feed| - 1])
  }

  /** The rank of the last feed entry carrying `name`, if any. */
  function LastRank(feed: seq<Ranking>, name: string): (r: Option<int>)
    ensures r.None? <==> forall j :: 0 <= j < |feed| ==> feed[j].universityName != name
    ensures r.Some? ==> exists j :: 0 <= j < |feed| && feed[j].universityName == name && r.value == feed[j].worldRank
                                    && forall j' :: j < j' < |feed| ==> feed[j'].universityName != name
    decreases |feed|
  {
    if feed == [] then None
    else if feed[|feed| - 1].universityName == name then Some(feed[|feed| - 1].worldRank)
    else
      var prefix := feed[..|feed| - 1];
      var r := LastRank(prefix, name);
      assert r.Some? ==> exists j :: 0 <= j < |feed| && feed[j].universityName == name && r.value == feed[j].worldRank
                                     && forall j' :: j < j' < |feed| ==> feed[j'].universityName != name by {
        if r.Some? {
          var j :| 0 <= j < |prefix| && prefix[j].universityName == name && r.value == prefix[j].worldRank
                   && forall j' :: j < j' < |prefix| ==> prefix[j'].universityName != name;
          assert feed[j] == prefix[j];
          assert forall j' :: j < j' < |feed| - 1 ==> feed[j'] == prefix[j'];
        }
      }
      assert r.None? ==> forall j :: 0 <= j < |feed| ==> feed[j].universityName != name by {
        assert forall j :: 0 <= j < |prefix| ==> feed[j] == prefix[j];
      }
      r
  }

  /**
   * After the whole feed, the first institution of each name carries the rank
   * of the last feed entry with that name (the later entry overwrites the
   * earlier one); every other row is unchanged.
   */
  lemma {:induction false} RankFromLastEntry(m: map<int, Institution>, hi: int, feed: seq<Ranking>, k: int)
    requires k in m
    ensures ApplyRankings(m, hi, feed)[k] ==
      if FirstOfName(m, hi, k) && LastRank(feed, m[k].name).Some?
      then m[k].(worldRanking := LastRank(feed, m[k].name)) else m[k]
    decreases |feed|
  {
    if feed != [] {
      var n := |feed| - 1;
      var before := ApplyRankings(m, hi, feed[..n]);
      RankFromLastEntry(m, hi, feed[..n], k);
      assert FirstOfName(before, hi, k) <==> FirstOfName(m, hi, k) by {
        assert forall j :: j in m ==> before[j].name == m[j].name;
      }
    }
  }

  /** A ranking that changed is the rank of a feed entry carrying the institution's name. */
  lemma {:induction false} RankedFromFeed(m: map<int, Institution>, hi: int, feed: seq<Ranking>, k: int)
    requires k in m && ApplyRankings(m, hi, feed)[k] != m[k]
    ensures exists j :: 0 <= j < |feed| && feed[j].universityName == m[k].name &&
                        ApplyRankings(m, hi, feed)[k].worldRanking == Some(feed[j].worldRank)
    decreases |feed|
  {
    var n := |feed| - 1;
    var before := ApplyRankings(m, hi, feed[..n]);
    if ApplyRankings(m, hi, feed)[k] == before[k] {
      RankedFromFeed(m, hi, feed[..n], k);
      var j :| 0 <= j < n && feed[..n][j].universityName == m[k].name && before[k].worldRanking == Some(feed[..n][j].worldRank);
      assert feed[j] == feed[..n][j];
    } else {
      assert before[k].name == m[k].name;
    }
  }

  /** An institution whose name no feed entry carries keeps its row. */
  lemma UnrankedUnchanged(m: map<int, Institution>, hi: int, feed: seq<Ranking>, k: int)
    requires k in m && forall j :: 0 <= j < |feed| ==> feed[j].universityName != m[k].name
    ensures ApplyRankings(m, hi, feed)[k] == m[k]
  {
    if ApplyRankings(m, hi, feed)[k] != m[k] {
      RankedFromFeed(m, hi, feed, k);
    }
  }

  /** Applying one more entry of the feed is one more `ApplyRanking`. */
  lemma RankingStep(m: map<int, Institution>, hi: int, feed: seq<Ranking>, i: int)
    requires 0 <= i < |feed|
    ensures ApplyRankings(m, hi, feed[..i + 1]) == ApplyRanking(ApplyRankings(m, hi, feed[..i]), hi, feed[i])
  {
    assert feed[..i + 1][..i] == feed[..i];
  }

  /** One iteration of `update_rankings`: the first institution with the entry's name gets its rank. */
  method SetRanking(db: Database, r: Ranking)
    requires db.Valid()
    modifies db`institutions
    ensures db.Valid()
    ensures db.institutions == ApplyRanking(old(db.institutions), db.nextInstitutionId, r)
  {
    var found := FirstKey(db.institutions, NamedAs(r.universityName), 1, db.nextInstitutionId);
    if found.Some? {
      db.SetInstitution(found.value, db.institutions[found.value].(worldRanking := Some(r.worldRank)));
    }
  }

  /**
   * `update_rankings`: each feed entry sets the world ranking of the first
   * institution with that name; the reported count is the feed's length,
   * however many names matched.
   */
  method UpdateRankings(db: Database, feed: seq<Ranking>) returns (updatedCount: nat)
    requires db.Valid()
    modifies db`institutions
    ensures db.Valid()
    ensures db.institutions == ApplyRankings(old(db.institutions), db.nextInstitutionId, feed)
    ensures updatedCount == |feed|
  {
    ghost var m0 := db.institutions;
    var i := 0;
    while i < |feed|
      invariant 0 <= i <= |feed| && db.Valid()
      invariant db.institutions == ApplyRankings(m0, db.nextInstitutionId, feed[..i])
    {
      SetRanking(db, feed[i]);
      RankingStep(m0, db.nextInstitutionId, feed, i);
      i := i + 1;
    }
    assert feed[..|feed|] == feed;
    updatedCount := |feed|;
  }

  // ---------------------------------------------------------------------
  // verify_accreditation

  /** `fetch_government_accreditation`: the mock lists, keyed by lower-case country code, matched exactly. */
  function GovernmentAccreditation(countryCode: string): (r: seq<string>)
    ensures countryCode != "us" && countryCode != "gb" && countryCode != "ca" ==> r == []
    ensures countryCode == "us" || countryCode == "gb" || countryCode == "ca" ==> |r| == 3
  {
    if countryCode == "us" then ["Harvard University", "MIT", "Stanford University"]
    else if countryCode == "gb" then ["Oxford University", "Cambridge University", "Imperial College"]
    else if countryCode == "ca" then ["University of Toronto", "McGill University", "UBC"]
    else []
  }

  /** The lookup is case-sensitive: an upper-case code finds nothing. */
  lemma AccreditationCaseSensitive()
    ensures GovernmentAccreditation("US") == [] && GovernmentAccreditation("us") != []
  {
  }

  function NameIn(names: seq<string>): Institution -> bool {
    (i: Institution) => i.name in names
  }

  /** An institution of the country whose name is on the country's accreditation list. */
  function AccreditedIn(countryCode: string): Institution -> bool {
    (i: Institution) => i.countryCode == countryCode && i.name in GovernmentAccreditation(countryCode)
  }

  /** The institutions table after the first `i` rows have been walked: each whose name is in `names` is verified. */
  function Walked(m0: map<int, Institution>, names: seq<string>, rows: seq<Keyed<Institution>>, i: nat)
    : map<int, Institution>
    requires i <= |rows|
  {
    if i == 0 then m0
    else
      var m := Walked(m0, names, rows, i - 1);
      var row := rows[i - 1];
      if row.row.name in names then m[row.id := row.row.(isVerified := true)] else m
  }

  /** How many of the first `i` rows have their name in `names`. */
  function NamedCount(rows: seq<Keyed<Institution>>, names: seq<string>, i: nat): nat
    requires i <= |rows|
  {
    if i == 0 then 0 else NamedCount(rows, names, i - 1) + (if rows[i - 1].row.name in names then 1 else 0)
  }

  /** The count is the length of the filtered prefix. */
  lemma {:induction false} NamedCountFilters(rows: seq<Keyed<Institution>>, names: seq<string>, i: nat)
    requires i <= |rows|
    ensures NamedCount(rows, names, i) == |Filter(rows[..i], OnRow(NameIn(names)))|
  {
    if i > 0 {
      NamedCountFilters(rows, names, i - 1);
      PrefixExtend(rows, i - 1);
      FilterAppend(rows[..i - 1], [rows[i - 1]], OnRow(NameIn(names)));
      FilterOne(rows[i - 1], OnRow(NameIn(names)));
      assert OnRow(NameIn(names))(rows[i - 1]) == (rows[i - 1].row.name in names);
    }
  }

  /** Walking changes no key of the table. */
  lemma {:induction false} WalkedKeys(m0: map<int, Institution>, names: seq<string>, rows: seq<Keyed<Institution>>, i: nat)
    requires i <= |rows|
    requires forall j :: 0 <= j < |rows| ==> rows[j].id in m0
    ensures Walked(m0, names, rows, i).Keys == m0.Keys
  {
    if i > 0 {
      WalkedKeys(m0, names, rows, i - 1);
    }
  }

  /**
   * Walking rows with distinct keys, each equal to its table row, verifies
   * exactly the walked rows whose name is in `names` and changes no other row.
   */
  lemma {:induction false} WalkedMeaning(m0: map<int, Institution>, names: seq<string>, rows: seq<Keyed<Institution>>,
                                         i: nat, k: int)
    requires i <= |rows| && Ascending(rows)
    requires forall j :: 0 <= j < |rows| ==> rows[j].id in m0 && m0[rows[j].id] == rows[j].row
    requires k in m0
    ensures k in Walked(m0, names, rows, i)
    ensures Walked(m0, names, rows, i)[k] ==
      if m0[k].name in names && Keyed(k, m0[k]) in rows[..i] then m0[k].(isVerified := true) else m0[k]
  {
    WalkedKeys(m0, names, rows, i);
    if i > 0 {
      WalkedMeaning(m0, names, rows, i - 1, k);
      PrefixExtend(rows, i - 1);
      var row := rows[i - 1];
      var done := rows[..i - 1];
      if k == row.id {
        assert Keyed(k, m0[k]) !in done by {
          forall j | 0 <= j < |done|
            ensures done[j] != row
          {
            assert done[j] == rows[j];
          }
        }
      } else {
        assert Keyed(k, m0[k]) in rows[..i] <==> Keyed(k, m0[k]) in done;
      }
    }
  }

  /** The rows `verify_accreditation` walks: the institutions of the country, in key order. */
  function CountryRows(m0: map<int, Institution>, hi: int, countryCode: string): seq<Keyed<Institution>> {
    Filter(Scan(m0, hi), OnRow(HasCountryCode(countryCode)))
  }

  /** The walked rows are the table's rows of that country, each once, and include every accredited one. */
  lemma CountryRowsListed(m0: map<int, Institution>, hi: int, countryCode: string)
    requires IdsBelow(m0, hi)
    ensures var rows := CountryRows(m0, hi, countryCode);
      && Ascending(rows)
      && (forall j :: 0 <= j < |rows| ==> rows[j].id in m0 && m0[rows[j].id] == rows[j].row && rows[j].row.countryCode == countryCode)
      && (forall k :: k in m0 && AccreditedIn(countryCode)(m0[k]) ==> Keyed(k, m0[k]) in rows)
  {
    var scan := Scan(m0, hi);
    var rows := CountryRows(m0, hi, countryCode);
    FilterAscending(scan, OnRow(HasCountryCode(countryCode)));
    FilterSubset(scan, OnRow(HasCountryCode(countryCode)));
    FilterComplete(scan, OnRow(HasCountryCode(countryCode)));
    forall j | 0 <= j < |rows|
      ensures rows[j].id in m0 && m0[rows[j].id] == rows[j].row && rows[j].row.countryCode == countryCode
    {
      assert rows[j] in scan;
      assert OnRow(HasCountryCode(countryCode))(rows[j]);
    }
    forall k | k in m0 && AccreditedIn(countryCode)(m0[k])
      ensures Keyed(k, m0[k]) in rows
    {
      ScanComplete(m0, hi, k);
      assert OnRow(HasCountryCode(countryCode))(Keyed(k, m0[k]));
    }
  }

  /** The two numbers `verify_accreditation` reports, as counts over the table, and their bound. */
  lemma AccreditationCounts(m0: map<int, Institution>, hi: int, countryCode: string)
    ensures var rows := CountryRows(m0, hi, countryCode);
      && |rows| == Count(m0, HasCountryCode(countryCode), hi)
      && |Filter(rows, OnRow(NameIn(GovernmentAccreditation(countryCode))))| == Count(m0, AccreditedIn(countryCode), hi)
      && Count(m0, AccreditedIn(countryCode), hi) <= Count(m0, HasCountryCode(countryCode), hi)
  {
    var scan := Scan(m0, hi);
    forall x: Keyed<Institution>
      ensures OnRow(AccreditedIn(countryCode))(x)
        == (OnRow(HasCountryCode(countryCode))(x) && OnRow(NameIn(GovernmentAccreditation(countryCode)))(x))
    {
      assert OnRow(AccreditedIn(countryCode))(x) == AccreditedIn(countryCode)(x.row);
      assert OnRow(HasCountryCode(countryCode))(x) == HasCountryCode(countryCode)(x.row);
      assert OnRow(NameIn(GovernmentAccreditation(countryCode)))(x) == NameIn(GovernmentAccreditation(countryCode))(x.row);
    }
    FilterTwice(scan, OnRow(HasCountryCode(countryCode)), OnRow(NameIn(GovernmentAccreditation(countryCode))),
                OnRow(AccreditedIn(countryCode)));
    ScanCount(m0, HasCountryCode(countryCode), hi);
    ScanCount(m0, AccreditedIn(countryCode), hi);
    CountMonotonic(m0, AccreditedIn(countryCode), HasCountryCode(countryCode), hi);
  }

  /** After the walk, exactly the accredited institutions of the country are verified. */
  lemma AccreditationOutcome(m0: map<int, Institution>, hi: int, countryCode: string, k: int)
    requires IdsBelow(m0, hi) && k in m0
    ensures var rows := CountryRows(m0, hi, countryCode);
      var m := Walked(m0, GovernmentAccreditation(countryCode), rows, |rows|);
      k in m && m[k] == if AccreditedIn(countryCode)(m0[k]) then m0[k].(isVerified := true) else m0[k]
  {
    var rows := CountryRows(m0, hi, countryCode);
    var names := GovernmentAccreditation(countryCode);
    CountryRowsListed(m0, hi, countryCode);
    WalkedMeaning(m0, names, rows, |rows|, k);
    assert rows[..|rows|] == rows;
    assert AccreditedIn(countryCode)(m0[k]) == (m0[k].countryCode == countryCode && m0[k].name in names);
    if Keyed(k, m0[k]) in rows && !AccreditedIn(countryCode)(m0[k]) {
      var j :| 0 <= j < |rows| && rows[j] == Keyed(k, m0[k]);
    }
  }

  /**
   * The loop of `verify_accreditation` over the listed rows of the country:
   * each row whose name is on the list is marked verified and counted.
   */
  method WalkAccreditation(db: Database, accredited: seq<string>, rows: seq<Keyed<Institution>>) returns (verifiedCount: nat)
    requires db.Valid()
    requires forall j :: 0 <= j < |rows| ==> rows[j].id in db.institutions
    modifies db`institutions
    ensures db.Valid()
    ensures db.institutions == Walked(old(db.institutions), accredited, rows, |rows|)
    ensures verifiedCount == NamedCount(rows, accredited, |rows|)
  {
    ghost var m0 := db.institutions;
    verifiedCount := 0;
    var i := 0;
    while i < |rows|
      invariant 0 <= i <= |rows| && db.Valid()
      invariant db.institutions.Keys == m0.Keys
      invariant db.institutions == Walked(m0, accredited, rows, i)
      invariant verifiedCount == NamedCount(rows, accredited, i)
    {
      var row := rows[i];
      if row.row.name in accredited {
        db.SetInstitution(row.id, row.row.(isVerified := true));
        verifiedCount := verifiedCount + 1;
      }
      i := i + 1;
    }
  }

  /**
   * `verify_accreditation`: walks the institutions with exactly this country
   * code, marks those on the list verified and counts them. Every other
   * institution keeps its row, and the count never exceeds the total.
   */
  method VerifyAccreditation(db: Database, countryCode: string) returns (verifiedCount: nat, totalInstitutions: nat)
    requires db.Valid()
    modifies db`institutions
    ensures db.Valid()
    ensures db.institutions.Keys == old(db.institutions).Keys
    ensures forall k :: k in old(db.institutions) ==>
      db.institutions[k] == if AccreditedIn(countryCode)(old(db.institutions)[k])
                            then old(db.institutions)[k].(isVerified := true)
                            else old(db.institutions)[k]
    ensures totalInstitutions == Count(old(db.institutions), HasCountryCode(countryCode), db.nextInstitutionId)
    ensures verifiedCount == Count(old(db.institutions), AccreditedIn(countryCode), db.nextInstitutionId)
    ensures verifiedCount <= totalInstitutions
  {
    var accredited := GovernmentAccreditation(countryCode);
    ghost var m0 := db.institutions;
    var rows := CountryRows(db.institutions, db.nextInstitutionId, countryCode);
    CountryRowsListed(m0, db.nextInstitutionId, countryCode);
    AccreditationCounts(m0, db.nextInstitutionId, countryCode);
    NamedCountFilters(rows, accredited, |rows|);
    assert rows[..|rows|] == rows;
    verifiedCount := WalkAccreditation(db, accredited, rows);
    totalInstitutions := |rows|;
    WalkedKeys(m0, accredited, rows, |rows|);
    forall k | k in m0
      ensures db.institutions[k] == if AccreditedIn(countryCode)(m0[k]) then m0[k].(isVerified := true) else m0[k]
    {
      AccreditationOutcome(m0, db.nextInstitutionId, countryCode, k);
    }
  }
}
