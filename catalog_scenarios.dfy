/**
 * Concrete scenarios of the filter: on the shipped catalog for the selectors,
 * for letter case and for a search that two of its records answer, and on a
 * small sample record for searches whose outcome depends on the characters of
 * a record.
 */
module CatalogScenarios {
  import opened JsText
  import opened IncentivesGrid

  /** The state the component starts in: every selector at `All`, no search. */
  const Initial: FilterState := FilterState(All, All, All, "")

  /** On first render all six programs are listed, in catalog order. */
  lemma InitialViewShowsAll()
    ensures Filter(Programs, Initial) == Programs
    ensures |Filter(Programs, Initial)| == 6
  {
    FilterAllIsIdentity(Programs, Initial);
  }

  /** Every tag a shipped record carries is offered by the matching dropdown,
      and record ids are distinct. */
  lemma CatalogConsistent()
    ensures forall p, t | p in Programs && t in p.sectors :: t in AllSectors
    ensures forall p, t | p in Programs && t in p.stages :: t in AllStages
    ensures forall p, t | p in Programs && t in p.sizes :: t in AllSizes
    ensures forall i, j | 0 <= i < j < |Programs| :: Programs[i].id != Programs[j].id
  {
  }

  /** Whatever option is picked in each dropdown, with no search, the first
      program (SR&ED) is still listed, so no choice of options empties the
      grid. */
  lemma EveryOptionListsSomething(sector: string, stage: string, size: string)
    requires sector in Options(AllSectors) && stage in Options(AllStages) && size in Options(AllSizes)
    ensures Sred in Filter(Programs, FilterState(sector, stage, size, ""))
    ensures Filter(Programs, FilterState(sector, stage, size, "")) != []
  {
    var f := FilterState(sector, stage, size, "");
    assert IsBlank(f.search);
    BlankSearchIgnored(Sred, f);
    FilterCons(Sred, Programs[1..], f);
    assert Programs == [Sred] + Programs[1..];
  }

  /** With only a stage picked, a record without that stage is dropped. */
  lemma DropUntagged(p: Program, rest: seq<Program>, stage: string)
    requires stage != All && stage !in p.stages
    ensures Filter([p] + rest, FilterState(All, stage, All, "")) == Filter(rest, FilterState(All, stage, All, ""))
  {
    assert SearchOk(p, "");
    FilterCons(p, rest, FilterState(All, stage, All, ""));
  }

  /** With only a stage picked, a record with that stage is kept. */
  lemma KeepTagged(p: Program, rest: seq<Program>, stage: string)
    requires stage in p.stages
    ensures Filter([p] + rest, FilterState(All, stage, All, "")) == [p] + Filter(rest, FilterState(All, stage, All, ""))
  {
    assert SearchOk(p, "");
    FilterCons(p, rest, FilterState(All, stage, All, ""));
  }

  /** Six records of which the first three carry the stage: exactly those
      three are listed, in order. */
  lemma StageSelectsFirstThree(a: Program, b: Program, c: Program, d: Program, e: Program, g: Program, stage: string)
    requires stage != All
    requires stage in a.stages && stage in b.stages && stage in c.stages
    requires stage !in d.stages && stage !in e.stages && stage !in g.stages
    ensures Filter([a, b, c, d, e, g], FilterState(All, stage, All, "")) == [a, b, c]
  {
    DropUntagged(g, [], stage);
    assert [g] + [] == [g];
    DropUntagged(e, [g], stage);
    assert [e] + [g] == [e, g];
    DropUntagged(d, [e, g], stage);
    assert [d] + [e, g] == [d, e, g];
    KeepTagged(c, [d, e, g], stage);
    assert [c] + [d, e, g] == [c, d, e, g];
    KeepTagged(b, [c, d, e, g], stage);
    assert [b] + [c, d, e, g] == [b, c, d, e, g];
    KeepTagged(a, [b, c, d, e, g], stage);
    assert [a] + [b, c, d, e, g] == [a, b, c, d, e, g];
  }

  /** Stage "Startup" keeps exactly the SR&ED, SODF and U.S. R&D credit
      records, in that order. */
  lemma StartupStage()
    ensures Filter(Programs, Initial.(stage := "Startup")) == [Sred, Sodf, UsRd]
  {
    StageSelectsFirstThree(Sred, Sodf, UsRd, Mcrp, Brownfield, Ftz, "Startup");
  }

  /** "BROWNFIELD" and "brownfield" list the same programs, whatever the
      selectors. */
  lemma BrownfieldAnyCase(f: FilterState)
    ensures Filter(Programs, f.(search := "BROWNFIELD")) == Filter(Programs, f.(search := "brownfield"))
  {
    assert Lower("BROWNFIELD") == Lower("brownfield");
    FilterCaseInsensitive(Programs, f, "BROWNFIELD", "brownfield");
  }

  /** The MCRP headline says "brownfield" from its 30th character on. */
  lemma McrpHeadlineNamesBrownfield()
    ensures OccursAt(Mcrp.headline, "brownfield", 29)
  {
    var h, pre := Mcrp.headline, "Support for transformational/brownfield";
    assert h[..39] == pre;
    assert pre[29..] == "brownfield";
    assert h[29..39] == pre[29..];
  }

  /** The brownfield record's program name says "Brownfield" from its 13th
      character on. */
  lemma BrownfieldProgramNamesBrownfield()
    ensures OccursAt(Brownfield.program, "Brownfield", 12)
  {
    var n, pre := Brownfield.program, "State/Local Brownfield";
    assert n[..22] == pre;
    assert pre[12..] == "Brownfield";
    assert n[12..22] == pre[12..];
  }

  /** The search "brownfield" matches the MCRP record through its headline. */
  lemma McrpMatchesBrownfield()
    ensures SearchOk(Mcrp, "brownfield")
  {
    McrpHeadlineNamesBrownfield();
    LowerOccursAt(Mcrp.headline, "brownfield", 29);
    SearchFindsEachField(Mcrp, "brownfield");
  }

  /** The search "brownfield" matches the brownfield record through its
      capitalised program name. */
  lemma BrownfieldMatchesBrownfield()
    ensures SearchOk(Brownfield, "brownfield")
  {
    BrownfieldProgramNamesBrownfield();
    LowerOccursAt(Brownfield.program, "Brownfield", 12);
    assert Lower("Brownfield") == Lower("brownfield");
    SearchFindsEachField(Brownfield, "brownfield");
  }

  /** With every selector at `All`, searching "brownfield" lists both the
      MCRP and the brownfield-tools records. */
  lemma BrownfieldSearchKeeps()
    ensures Mcrp in Filter(Programs, FilterState(All, All, All, "brownfield"))
    ensures Brownfield in Filter(Programs, FilterState(All, All, All, "brownfield"))
  {
    McrpMatchesBrownfield();
    BrownfieldMatchesBrownfield();
    FilterMembership(Programs, FilterState(All, All, All, "brownfield"), Mcrp);
    FilterMembership(Programs, FilterState(All, All, All, "brownfield"), Brownfield);
  }

  /** An AgTech start-up record whose headline mentions greenhouses and that
      lists no investment size. */
  const Greenhouse: Program := Program(
    "agp", "Agri Pilot Fund", "Canada", "Ontario", "Grant",
    ["AgTech"], ["Startup"], [],
    "Greenhouse pilots", "Varies", "Food trials", "#")

  /** "greenhouse" occurs, ignoring case, at the start of the sample
      headline. */
  lemma GreenhouseInHeadline()
    ensures OccursAt(Lower(Greenhouse.headline), Lower("greenhouse"), 0)
  {
    var h := Lower(Greenhouse.headline);
    assert h[0] == 'g' && h[1] == 'r' && h[2] == 'e' && h[3] == 'e' && h[4] == 'n';
    assert h[5] == 'h' && h[6] == 'o' && h[7] == 'u' && h[8] == 's' && h[9] == 'e';
  }

  /** Sector AgTech with search "greenhouse" keeps the sample record. */
  lemma GreenhouseSearchKeeps()
    ensures Filter([Greenhouse], FilterState("AgTech", All, All, "greenhouse")) == [Greenhouse]
  {
    GreenhouseInHeadline();
    SearchFindsEachField(Greenhouse, "greenhouse");
    FilterCons(Greenhouse, [], FilterState("AgTech", All, All, "greenhouse"));
    assert [Greenhouse] + [] == [Greenhouse];
  }

  /** Asking for stage Enterprise as well drops it: the search alone does not
      decide. */
  lemma GreenhouseEnterpriseDrops()
    ensures Filter([Greenhouse], FilterState("AgTech", "Enterprise", All, "greenhouse")) == []
  {
    FilterCons(Greenhouse, [], FilterState("AgTech", "Enterprise", All, "greenhouse"));
    assert [Greenhouse] + [] == [Greenhouse];
  }

  /** A query that matches nothing gives an empty list, not an error. */
  lemma NoMatchIsEmpty()
    ensures Filter([Greenhouse], Initial.(search := "nonexistent-token-xyz")) == []
  {
    var q := "nonexistent-token-xyz";
    assert Lower(q)[20] == 'z';
    SearchMissingChar(Greenhouse, q, 'z');
    NoneKeptIsEmpty([Greenhouse], Initial.(search := q));
  }
}
