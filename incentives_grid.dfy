/**
 * The program catalog of the incentives grid and the filter that selects the
 * records shown for the current sector, stage, size and search text.
 */
module IncentivesGrid {
  import opened JsText

  // ---------------------------------------------------------------------------
  // Data
  // ---------------------------------------------------------------------------

  /** One incentive program of the catalog. `kind` is the record's `type`
      field (`type` is a reserved word here). */
  datatype Program = Program(
    id: string,
    program: string,
    country: string,
    jurisdiction: string,
    kind: string,
    sectors: seq<string>,
    stages: seq<string>,
    sizes: seq<string>,
    headline: string,
    estValue: string,
    useCase: string,
    link: string)

  /** The four inputs of the filter: a tag (or `All`) per selector and the
      free-text search as typed. */
  datatype FilterState = FilterState(sector: string, stage: string, size: string, search: string)

  /** The sentinel that switches a selector off. */
  const All: string := "All"

  const AllSectors: seq<string> :=
    ["EV/AV", "AgTech", "AI", "Life Sciences", "FinTech", "Advanced Manufacturing"]

  const AllStages: seq<string> := ["Startup", "Scale-up", "Enterprise"]

  const AllSizes: seq<string> := ["< $10M", "$10\U{2013}50M", ">$50M+"]

  /** The choices each dropdown offers: `All` first, then exactly the options
      of the list. */
  function Options(list: seq<string>): (r: seq<string>)
    ensures r != [] && r[0] == All
    ensures forall x :: x in r <==> x == All || x in list
  {
    [All] + list
  }

  // The six records of the shipped catalog, then the catalog in display order.

  const Sred: Program := Program(
      "sred",
      "Scientific Research & Experimental Development (SR&ED)",
      "Canada",
      "Federal (Canada)",
      "Tax Credit",
      ["EV/AV", "AgTech", "AI", "Life Sciences", "FinTech", "Advanced Manufacturing"],
      ["Startup", "Scale-up", "Enterprise"],
      ["< $10M", "$10\U{2013}50M", ">$50M+"],
      "Refundable/Non-refundable credits on eligible R&D costs",
      "Up to ~35% refundable (example scenario)",
      "R&D performed in Windsor/Essex; pairs well with university partnerships.",
      "#")

  const Sodf: Program := Program(
      "sodf",
      "Southwestern Ontario Development Fund (SODF)",
      "Canada",
      "Ontario",
      "Grant / Loan (Stackable)",
      ["EV/AV", "AgTech", "Advanced Manufacturing"],
      ["Startup", "Scale-up", "Enterprise"],
      ["< $10M", "$10\U{2013}50M", ">$50M+"],
      "Ontario support for expansions and technology adoption",
      "Example: 15% of project costs (e.g., $90,000 on $600,000)",
      "R&D or pilot production investments on the Ontario side.",
      "#")

  const UsRd: Program := Program(
      "us_rd",
      "U.S. Federal R&D Tax Credit",
      "United States",
      "Federal (U.S.)",
      "Tax Credit",
      ["EV/AV", "AgTech", "AI", "Life Sciences", "FinTech", "Advanced Manufacturing"],
      ["Startup", "Scale-up", "Enterprise"],
      ["< $10M", "$10\U{2013}50M", ">$50M+"],
      "Credit on qualified U.S.-based research expenses",
      "Typical effective range 6\U{2013}8% (varies by method)",
      "Detroit-side prototyping, software, or process R&D.",
      "#")

  const Mcrp: Program := Program(
      "mcrp",
      "Michigan Community Revitalization Program (MCRP)",
      "United States",
      "Michigan",
      "Grant / Loan / Abatement",
      ["EV/AV", "AgTech", "Advanced Manufacturing", "Life Sciences"],
      ["Scale-up", "Enterprise"],
      ["$10\U{2013}50M", ">$50M+"],
      "Support for transformational/brownfield redevelopment projects",
      "Example: ~25% of eligible investment (illustrative from report scenario)",
      "Detroit manufacturing or facility redevelopment to scale production.",
      "#")

  const Brownfield: Program := Program(
      "brownfield",
      "State/Local Brownfield Tools (Detroit/Michigan)",
      "United States",
      "Michigan / Detroit",
      "Tax Abatements / TIF",
      ["EV/AV", "Advanced Manufacturing", "AgTech"],
      ["Scale-up", "Enterprise"],
      ["$10\U{2013}50M", ">$50M+"],
      "Property tax capture, abatements, and site-readiness incentives",
      "Project-specific (stackable with MCRP/MEDC tools)",
      "U.S. manufacturing lines, logistics, and processing capacity.",
      "#")

  const Ftz: Program := Program(
      "ftz",
      "Foreign-Trade Zone (Detroit FTZ) \U{2013} Duty Deferral/Reduction",
      "United States",
      "Detroit Metro",
      "Trade Facilitation",
      ["AgTech", "EV/AV", "Advanced Manufacturing"],
      ["Scale-up", "Enterprise"],
      ["$10\U{2013}50M", ">$50M+"],
      "Reduce duties, improve cross-border logistics on U.S. side",
      "Duty deferral/possible reduction (case-dependent)",
      "Just-in-time imports/exports aligned with binational supply chains.",
      "#")

  /** The shipped catalog, in display order. */
  const Programs: seq<Program> := [Sred, Sodf, UsRd, Mcrp, Brownfield, Ftz]

  // ---------------------------------------------------------------------------
  // The per-record tests
  // ---------------------------------------------------------------------------

  /** A selector accepts a record when it is `All` or names one of the
      record's tags exactly. */
  predicate TagOk(selected: string, tags: seq<string>) {
    selected == All || selected in tags
  }

  /** Program, country, type, headline and use case joined by single spaces. */
  function RawText(p: Program): string {
    p.program + " " + p.country + " " + p.kind + " " + p.headline + " " + p.useCase
  }

  /** The text a search looks in: the joined fields, lower-cased. */
  function SearchText(p: Program): string {
    Lower(RawText(p))
  }

  /** A blank search accepts everything; otherwise the lower-cased search, not
      trimmed, must occur in the search text. */
  predicate SearchOk(p: Program, search: string) {
    IsBlank(search) || Contains(SearchText(p), Lower(search))
  }

  /** The four tests a record must all pass to be shown. */
  predicate Keep(p: Program, f: FilterState) {
    && TagOk(f.sector, p.sectors)
    && TagOk(f.stage, p.stages)
    && TagOk(f.size, p.sizes)
    && SearchOk(p, f.search)
  }

  // ---------------------------------------------------------------------------
  // The filter
  // ---------------------------------------------------------------------------

  /** `s` is `t` with some elements left out, the rest in their order. */
  ghost predicate IsSubsequence<T>(s: seq<T>, t: seq<T>)
    decreases |t|
  {
    if s == [] then true
    else if t == [] then false
    else (s[0] == t[0] && IsSubsequence(s[1..], t[1..])) || IsSubsequence(s, t[1..])
  }

  /** `catalog.filter(keep)`: walks the catalog front to back and keeps the
      records that pass all four tests. It never grows the list; what the
      result holds is stated by the lemmas below. */
  function Filter(catalog: seq<Program>, f: FilterState): (r: seq<Program>)
    ensures |r| <= |catalog|
  {
    if catalog == [] then []
    else if Keep(catalog[0], f) then [catalog[0]] + Filter(catalog[1..], f)
    else Filter(catalog[1..], f)
  }

  // ---------------------------------------------------------------------------
  // Properties of the filter
  // ---------------------------------------------------------------------------

  /** One step of the walk: the first record is kept in front of the filtered
      rest, or dropped. */
  lemma FilterCons(p: Program, rest: seq<Program>, f: FilterState)
    ensures Filter([p] + rest, f) == if Keep(p, f) then [p] + Filter(rest, f) else Filter(rest, f)
  {
    assert ([p] + rest)[1..] == rest;
  }

  /** A record is in the result exactly when it is in the catalog and passes
      all four tests. */
  lemma {:induction false} FilterMembership(catalog: seq<Program>, f: FilterState, p: Program)
    ensures p in Filter(catalog, f) <==> p in catalog && Keep(p, f)
  {
    if catalog != [] {
      FilterMembership(catalog[1..], f, p);
      assert catalog == [catalog[0]] + catalog[1..];
    }
  }

  /** The result holds each passing record as often as the catalog does, and
      no failing record at all. */
  lemma {:induction false} FilterCount(catalog: seq<Program>, f: FilterState, p: Program)
    ensures multiset(Filter(catalog, f))[p] == if Keep(p, f) then multiset(catalog)[p] else 0
  {
    if catalog != [] {
      FilterCount(catalog[1..], f, p);
      assert catalog == [catalog[0]] + catalog[1..];
    }
  }

  /** The result keeps the catalog order: it is the catalog with some records
      left out. */
  lemma {:induction false} FilterIsSubsequence(catalog: seq<Program>, f: FilterState)
    ensures IsSubsequence(Filter(catalog, f), catalog)
  {
    if catalog != [] {
      FilterIsSubsequence(catalog[1..], f);
      var r := Filter(catalog, f);
      if Keep(catalog[0], f) {
        assert r[1..] == Filter(catalog[1..], f);
      } else if r != [] {
        assert r == Filter(catalog[1..], f);
      }
    }
  }

  /** A filter that no record passes returns the empty list. */
  lemma NoneKeptIsEmpty(catalog: seq<Program>, f: FilterState)
    requires forall p | p in catalog :: !Keep(p, f)
    ensures Filter(catalog, f) == []
  {
    if Filter(catalog, f) != [] {
      FilterMembership(catalog, f, Filter(catalog, f)[0]);
    }
  }

  /** A filter that every record passes returns the catalog unchanged. */
  lemma {:induction false} FilterKeepsAllPassing(catalog: seq<Program>, f: FilterState)
    requires forall p :: p in catalog ==> Keep(p, f)
    ensures Filter(catalog, f) == catalog
  {
    if catalog != [] {
      FilterKeepsAllPassing(catalog[1..], f);
    }
  }

  /** With every selector at `All` and a blank search the result is the
      catalog itself, in the same order. */
  lemma FilterAllIsIdentity(catalog: seq<Program>, f: FilterState)
    requires f.sector == All && f.stage == All && f.size == All && IsBlank(f.search)
    ensures Filter(catalog, f) == catalog
  {
    FilterKeepsAllPassing(catalog, f);
  }

  /** Filtering the result again with the same state changes nothing. */
  lemma FilterIdempotent(catalog: seq<Program>, f: FilterState)
    ensures Filter(Filter(catalog, f), f) == Filter(catalog, f)
  {
    forall p | p in Filter(catalog, f) ensures Keep(p, f) {
      FilterMembership(catalog, f, p);
    }
    FilterKeepsAllPassing(Filter(catalog, f), f);
  }

  /** Two states that accept the same records of the catalog give the same
      result. */
  lemma {:induction false} FilterSameVerdicts(catalog: seq<Program>, f: FilterState, g: FilterState)
    requires forall p :: p in catalog ==> Keep(p, f) == Keep(p, g)
    ensures Filter(catalog, f) == Filter(catalog, g)
  {
    if catalog != [] {
      FilterSameVerdicts(catalog[1..], f, g);
    }
  }

  /** A stricter state selects, from the looser state's result, exactly what
      it selects from the whole catalog. */
  lemma {:induction false} FilterStricter(catalog: seq<Program>, f: FilterState, g: FilterState)
    requires forall p :: Keep(p, g) ==> Keep(p, f)
    ensures Filter(Filter(catalog, f), g) == Filter(catalog, g)
  {
    if catalog != [] {
      FilterStricter(catalog[1..], f, g);
    }
  }

  /** `g` agrees with `f` except that some selectors that were `All` in `f`
      name a tag in `g`. */
  predicate Narrows(g: FilterState, f: FilterState) {
    && (f.sector == All || g.sector == f.sector)
    && (f.stage == All || g.stage == f.stage)
    && (f.size == All || g.size == f.size)
    && g.search == f.search
  }

  /** Narrowing selectors from `All` to specific tags can only shrink the
      result: the new result is a subsequence of the old one, and it is what
      the new state selects from the old result. */
  lemma NarrowingShrinks(catalog: seq<Program>, f: FilterState, g: FilterState)
    requires Narrows(g, f)
    ensures IsSubsequence(Filter(catalog, g), Filter(catalog, f))
    ensures Filter(Filter(catalog, f), g) == Filter(catalog, g)
  {
    FilterStricter(catalog, f, g);
    FilterIsSubsequence(Filter(catalog, f), g);
  }

  /** A search is blank exactly when its lower-cased form is, so the search
      test only ever sees the query through `Lower`. */
  lemma SearchSeesOnlyLowerCase(p: Program, q1: string, q2: string)
    requires Lower(q1) == Lower(q2)
    ensures SearchOk(p, q1) == SearchOk(p, q2)
  {
    LowerKeepsBlank(q1);
    LowerKeepsBlank(q2);
  }

  /** Two searches that differ only in letter case give the same result. */
  lemma FilterCaseInsensitive(catalog: seq<Program>, f: FilterState, q1: string, q2: string)
    requires Lower(q1) == Lower(q2)
    ensures Filter(catalog, f.(search := q1)) == Filter(catalog, f.(search := q2))
  {
    forall p | p in catalog ensures Keep(p, f.(search := q1)) == Keep(p, f.(search := q2)) {
      SearchSeesOnlyLowerCase(p, q1, q2);
    }
    FilterSameVerdicts(catalog, f.(search := q1), f.(search := q2));
  }

  /** The search text is the five searched fields, each lower-cased, joined
      by single spaces. */
  lemma SearchTextFields(p: Program)
    ensures SearchText(p) ==
      Lower(p.program) + " " + Lower(p.country) + " " + Lower(p.kind) + " "
      + Lower(p.headline) + " " + Lower(p.useCase)
  {
    var sp := " ";
    assert Lower(sp) == sp;
    LowerAppend(p.program, sp);
    LowerAppend(p.program + sp, p.country);
    LowerAppend(p.program + sp + p.country, sp);
    LowerAppend(p.program + sp + p.country + sp, p.kind);
    LowerAppend(p.program + sp + p.country + sp + p.kind, sp);
    LowerAppend(p.program + sp + p.country + sp + p.kind + sp, p.headline);
    LowerAppend(p.program + sp + p.country + sp + p.kind + sp + p.headline, sp);
    LowerAppend(p.program + sp + p.country + sp + p.kind + sp + p.headline + sp, p.useCase);
  }

  /** A query found, ignoring case, in any one of the five searched fields
      passes the search test. */
  lemma SearchFindsEachField(p: Program, q: string)
    requires
      || Contains(Lower(p.program), Lower(q))
      || Contains(Lower(p.country), Lower(q))
      || Contains(Lower(p.kind), Lower(q))
      || Contains(Lower(p.headline), Lower(q))
      || Contains(Lower(p.useCase), Lower(q))
    ensures SearchOk(p, q)
  {
    SearchTextFields(p);
    var l := Lower(q);
    var s1 := Lower(p.program) + " ";
    var s2 := s1 + Lower(p.country);
    var s3 := s2 + " ";
    var s4 := s3 + Lower(p.kind);
    var s5 := s4 + " ";
    var s6 := s5 + Lower(p.headline);
    var s7 := s6 + " ";
    var s8 := s7 + Lower(p.useCase);
    // Carry the occurrence rightwards, piece by piece, to the whole text.
    if Contains(Lower(p.program), l) { ContainsLeft(Lower(p.program), " ", l); }
    if Contains(s1, l) { ContainsLeft(s1, Lower(p.country), l); }
    else if Contains(Lower(p.country), l) { ContainsRight(s1, Lower(p.country), l); }
    if Contains(s2, l) { ContainsLeft(s2, " ", l); }
    if Contains(s3, l) { ContainsLeft(s3, Lower(p.kind), l); }
    else if Contains(Lower(p.kind), l) { ContainsRight(s3, Lower(p.kind), l); }
    if Contains(s4, l) { ContainsLeft(s4, " ", l); }
    if Contains(s5, l) { ContainsLeft(s5, Lower(p.headline), l); }
    else if Contains(Lower(p.headline), l) { ContainsRight(s5, Lower(p.headline), l); }
    if Contains(s6, l) { ContainsLeft(s6, " ", l); }
    if Contains(s7, l) { ContainsLeft(s7, Lower(p.useCase), l); }
    else if Contains(Lower(p.useCase), l) { ContainsRight(s7, Lower(p.useCase), l); }
    assert SearchText(p) == s8;
  }

  /** With a blank search only the three selectors decide. */
  lemma BlankSearchIgnored(p: Program, f: FilterState)
    requires IsBlank(f.search)
    ensures Keep(p, f) <==> TagOk(f.sector, p.sectors) && TagOk(f.stage, p.stages) && TagOk(f.size, p.sizes)
  {
  }

  /** The joined text starts with the program name, so it is not blank when
      the name is not. */
  lemma RawTextNotBlank(p: Program)
    requires !IsBlank(p.program)
    ensures !IsBlank(RawText(p))
  {
    var t := p.program;
    NotBlankExtends(t, " ");
    NotBlankExtends(t + " ", p.country);
    t := t + " " + p.country;
    NotBlankExtends(t, " ");
    NotBlankExtends(t + " ", p.kind);
    t := t + " " + p.kind;
    NotBlankExtends(t, " ");
    NotBlankExtends(t + " ", p.headline);
    t := t + " " + p.headline;
    NotBlankExtends(t, " ");
    NotBlankExtends(t + " ", p.useCase);
  }

  /** The search is not trimmed: a query equal to the whole joined text
      matches, and the same query with one trailing space matches nothing,
      although trimming would make the two equal. */
  lemma TrailingSpaceCounts(p: Program)
    requires !IsBlank(p.program)
    ensures SearchOk(p, RawText(p))
    ensures !SearchOk(p, RawText(p) + " ")
  {
    assert OccursAt(SearchText(p), Lower(RawText(p)), 0);
    RawTextNotBlank(p);
    NotBlankExtends(RawText(p), " ");
    LongerNotContained(SearchText(p), Lower(RawText(p) + " "));
  }

  /** A query may run across a field boundary: the type, a space and the
      headline together are found. */
  lemma SearchSpansFields(p: Program)
    ensures SearchOk(p, p.kind + " " + p.headline)
  {
    SearchTextFields(p);
    var q := p.kind + " " + p.headline;
    var sp := " ";
    assert Lower(sp) == sp;
    LowerAppend(p.kind, sp);
    LowerAppend(p.kind + sp, p.headline);
    var pre := Lower(p.program) + " " + Lower(p.country) + " ";
    var post := " " + Lower(p.useCase);
    assert SearchText(p) == pre + Lower(q) + post;
    assert OccursAt(SearchText(p), Lower(q), |pre|);
  }

  /** A character that none of the five lower-cased fields holds, and that
      is not a space, is absent from the search text. */
  lemma TextLacksChar(p: Program, c: char)
    requires c != ' '
    requires c !in Lower(p.program) && c !in Lower(p.country) && c !in Lower(p.kind)
    requires c !in Lower(p.headline) && c !in Lower(p.useCase)
    ensures c !in SearchText(p)
  {
    SearchTextFields(p);
  }

  /** A search that, lower-cased, holds a visible character which none of
      the five lower-cased fields holds rejects the record. */
  lemma SearchMissingChar(p: Program, q: string, c: char)
    requires c in Lower(q) && !IsWhitespace(c)
    requires c !in Lower(p.program) && c !in Lower(p.country) && c !in Lower(p.kind)
    requires c !in Lower(p.headline) && c !in Lower(p.useCase)
    ensures !SearchOk(p, q)
  {
    TextLacksChar(p, c);
    MissingCharNoMatch(SearchText(p), Lower(q), c);
    LowerKeepsBlank(q);
    BlankIffAllWhitespace(Lower(q));
    var j :| 0 <= j < |Lower(q)| && Lower(q)[j] == c;
    assert !IsWhitespace(Lower(q)[j]);
  }

  /** The fields that are not searched and not selected on (id, jurisdiction,
      estimated value, link) never change whether a record is kept. */
  lemma UnsearchedFieldsIgnored(p: Program, f: FilterState, id: string, jurisdiction: string, estValue: string, link: string)
    ensures Keep(p.(id := id, jurisdiction := jurisdiction, estValue := estValue, link := link), f) == Keep(p, f)
  {
  }
}
