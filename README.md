# Incentives grid: the program filter

The incentives grid is a single React component. It lists a fixed catalog of
business-support programs for the Windsor–Detroit region: tax credits, grants,
loans, abatements and trade zones. The user narrows the list with three
dropdowns (sector, company stage, investment size) and a free-text search.

This project models the part of the component that decides which programs
are shown, and proves what that decision does:

- `js_text.dfy` (module `JsText`) models the three JavaScript string
  operations the filter uses:
  - `trim()`, used only to ask whether the search is blank;
  - `toLowerCase()`, on ASCII letters;
  - `includes()`, substring search.
- `incentives_grid.dfy` (module `IncentivesGrid`) holds:
  - the program record and the filter state;
  - the three option lists and the six-record catalog, with the source's
    exact strings;
  - the per-record test `Keep`;
  - `Filter`, which is `PROGRAMS.filter(...)`;
  - the lemmas about `Filter`: membership, order, multiplicity, the
    all-"All" identity, idempotence, narrowing, case-insensitivity, and the
    shape of the text search.
- `catalog_scenarios.dfy` (module `CatalogScenarios`) holds concrete scenarios:
  - on the shipped catalog: the first render, stage "Startup", every
    dropdown choice, "BROWNFIELD" against "brownfield", and the two records
    that "brownfield" finds;
  - on a small sample record: text searches that hit and that miss.

A record is kept when four tests all pass:

- For each of sector, stage and size, the selected value is `"All"` or it
  equals one of the record's tags exactly.
- The search is blank after trimming, or the lower-cased search, not
  trimmed, occurs in a search text. That text is program, country, type,
  headline and use case, joined by single spaces and then lower-cased.

The filter is a function of the catalog and the four inputs. React state and
memoisation play no part in the result.

Two facts about the code:

- Every tag a shipped record carries is offered by its dropdown
  (`CatalogScenarios.CatalogConsistent`).
- The source's `type` field is called `kind` here, because `type` is a
  reserved word in Dafny.

## Model

| member | source | states |
|---|---|---|
| IncentivesGrid.AllSectors | src/IncentivesGrid.tsx:12-19 | The six sector options, in dropdown order. |
| IncentivesGrid.AllStages | src/IncentivesGrid.tsx:21 | The three company-stage options, in dropdown order. |
| IncentivesGrid.AllSizes | src/IncentivesGrid.tsx:23 | The three investment-size options, in dropdown order, with the en dash of the source. |
| IncentivesGrid.Sred | src/IncentivesGrid.tsx:28-41 | The SR&ED record, field for field. |
| IncentivesGrid.Sodf | src/IncentivesGrid.tsx:42-55 | The SODF record, field for field. |
| IncentivesGrid.UsRd | src/IncentivesGrid.tsx:56-69 | The U.S. federal R&D credit record, field for field. |
| IncentivesGrid.Mcrp | src/IncentivesGrid.tsx:70-83 | The MCRP record, field for field. |
| IncentivesGrid.Brownfield | src/IncentivesGrid.tsx:84-97 | The state and local brownfield tools record, field for field. |
| IncentivesGrid.Ftz | src/IncentivesGrid.tsx:98-111 | The foreign-trade zone record, field for field. |
| IncentivesGrid.Programs | src/IncentivesGrid.tsx:27-112 | The catalog: the six records in display order. |
| IncentivesGrid.Options | src/IncentivesGrid.tsx:196-208 | Each dropdown offers "All" first, followed by the entries of its option list, and nothing else. |
| IncentivesGrid.TagOk | src/IncentivesGrid.tsx:156-158 | A selector passes a record when it is "All" or equals one of the record's tags exactly. |
| IncentivesGrid.RawText | src/IncentivesGrid.tsx:159 | Program, country, type, headline and use case joined by single spaces. |
| IncentivesGrid.SearchText | src/IncentivesGrid.tsx:159 | The joined text, lower-cased. |
| IncentivesGrid.SearchOk | src/IncentivesGrid.tsx:160 | The search passes when it is blank after trimming, or when its lower-cased, untrimmed form is included in the search text. |
| IncentivesGrid.Keep | src/IncentivesGrid.tsx:156-161 | A record is kept when the sector, stage, size and search tests all pass. |
| IncentivesGrid.Filter | src/IncentivesGrid.tsx:154-162 | `PROGRAMS.filter(...)` over a catalog and a filter state. Its own contract says the result is never longer than the catalog. What the result holds is stated by `FilterMembership`, `FilterCount` and `FilterIsSubsequence`. |
| IncentivesGrid.NoneKeptIsEmpty | src/IncentivesGrid.tsx:155-161 | When no record of the catalog passes, the result is the empty list. |
| IncentivesGrid.FilterMembership | src/IncentivesGrid.tsx:155-161 | A record is in the result if and only if it is in the catalog and passes the sector, stage, size and search tests. |
| IncentivesGrid.FilterCount | src/IncentivesGrid.tsx:155 | A passing record occurs in the result exactly as often as in the catalog, and a failing record not at all. Nothing is added or duplicated. |
| IncentivesGrid.FilterIsSubsequence | src/IncentivesGrid.tsx:155 | The result is the catalog with some records left out, with the rest in catalog order. |
| IncentivesGrid.FilterKeepsAllPassing | src/IncentivesGrid.tsx:155-161 | When every record passes, the result is the catalog itself. |
| IncentivesGrid.FilterAllIsIdentity | src/IncentivesGrid.tsx:155-161 | With all three selectors at "All" and a blank search, the result equals the catalog element for element. |
| IncentivesGrid.FilterIdempotent | src/IncentivesGrid.tsx:155-162 | Filtering the result again with the same state returns the same sequence. |
| IncentivesGrid.FilterSameVerdicts | src/IncentivesGrid.tsx:155-161 | Two filter states that accept the same catalog records give the same result. |
| IncentivesGrid.FilterStricter | src/IncentivesGrid.tsx:155-161 | A state that accepts only records another state accepts selects the same from that state's result as from the whole catalog. |
| IncentivesGrid.NarrowingShrinks | src/IncentivesGrid.tsx:156-158 | Changing selectors from "All" to specific tags gives a subsequence of the previous result. It is what the new state selects from the previous result. |
| IncentivesGrid.SearchSeesOnlyLowerCase | src/IncentivesGrid.tsx:160 | Two queries with the same lower-cased form get the same search verdict on every record. This covers the blank test too. |
| IncentivesGrid.FilterCaseInsensitive | src/IncentivesGrid.tsx:159-160 | Queries that differ only in letter case give identical results, whatever the selectors. |
| IncentivesGrid.SearchTextFields | src/IncentivesGrid.tsx:159 | The search text is the five lower-cased fields joined by single spaces. |
| IncentivesGrid.SearchFindsEachField | src/IncentivesGrid.tsx:159-160 | A query found, ignoring case, in any one of program, country, type, headline or use case passes the search test. |
| IncentivesGrid.BlankSearchIgnored | src/IncentivesGrid.tsx:160-161 | With a blank search, a record is kept exactly when it passes the three selector tests. |
| IncentivesGrid.RawTextNotBlank | src/IncentivesGrid.tsx:159 | The joined text is not blank when the program name is not. |
| IncentivesGrid.TrailingSpaceCounts | src/IncentivesGrid.tsx:160 | The query is not trimmed. A query equal to the joined text matches, and the same query with one trailing space matches nothing. |
| IncentivesGrid.SearchSpansFields | src/IncentivesGrid.tsx:159-160 | A query that runs across a field boundary matches: the type, a space and the headline. |
| IncentivesGrid.TextLacksChar | src/IncentivesGrid.tsx:159 | A character that is not a space and is absent from all five lower-cased fields is absent from the search text. |
| IncentivesGrid.SearchMissingChar | src/IncentivesGrid.tsx:159-160 | A query that, lower-cased, holds a visible character absent from all five lower-cased fields fails the search test. |
| IncentivesGrid.UnsearchedFieldsIgnored | src/IncentivesGrid.tsx:156-161 | Changing id, jurisdiction, estimated value or link never changes whether a record is kept. |
| JsText.IsWhitespace | src/IncentivesGrid.tsx:160 | The characters `trim()` strips: the WhiteSpace and LineTerminator characters of ECMA-262. |
| JsText.Trim | src/IncentivesGrid.tsx:160 | `trim()`: leading whitespace removed, then trailing whitespace removed. |
| JsText.IsBlank | src/IncentivesGrid.tsx:160 | `!search.trim()`: the trimmed string is empty. |
| JsText.LowerChar | src/IncentivesGrid.tsx:159-160 | `toLowerCase()` on one character: ASCII capitals become lower case, and every other character is unchanged. |
| JsText.Lower | src/IncentivesGrid.tsx:159-160 | `toLowerCase()` applied character by character. |
| JsText.OccursAt | src/IncentivesGrid.tsx:160 | The pattern occurs in the text starting at a given index. |
| JsText.Contains | src/IncentivesGrid.tsx:160 | `includes()`: the pattern occurs at some index of the text. The empty pattern is always included. |
| JsText.TrimStart | src/IncentivesGrid.tsx:160 | The result is the longest suffix that does not start with whitespace, and everything dropped is whitespace. |
| JsText.TrimEnd | src/IncentivesGrid.tsx:160 | The result is the longest prefix that does not end with whitespace, and everything dropped is whitespace. |
| JsText.TrimEndEmptyIff | src/IncentivesGrid.tsx:160 | Trimming the end leaves nothing exactly when every character is whitespace. |
| JsText.TrimStartEmptyIff | src/IncentivesGrid.tsx:160 | Trimming the start leaves nothing exactly when every character is whitespace. |
| JsText.BlankIffAllWhitespace | src/IncentivesGrid.tsx:160 | `!search.trim()` holds exactly when the search is empty or all whitespace. |
| JsText.NotBlankExtends | src/IncentivesGrid.tsx:160 | Appending to a string that is not blank keeps it not blank. |
| JsText.LowerCharMeaning | src/IncentivesGrid.tsx:159-160 | Lower-casing a character yields no ASCII capital, changes exactly the ASCII capitals, and is idempotent. |
| JsText.LowerCharKeepsWhitespace | src/IncentivesGrid.tsx:160 | Lower-casing neither creates nor removes whitespace. |
| JsText.LowerIdempotent | src/IncentivesGrid.tsx:159-160 | Lower-casing a lower-cased string changes nothing. |
| JsText.LowerAppend | src/IncentivesGrid.tsx:159 | Lower-casing a concatenation is the concatenation of the lower-cased parts. |
| JsText.LowerKeepsBlank | src/IncentivesGrid.tsx:160 | A string is blank exactly when its lower-cased form is. |
| JsText.LongerNotContained | src/IncentivesGrid.tsx:160 | A pattern longer than the text is not included in it. |
| JsText.LowerOccursAt | src/IncentivesGrid.tsx:159-160 | An exact occurrence of the search in a field is still an occurrence at the same position after both are lower-cased. |
| JsText.ContainsLeft | src/IncentivesGrid.tsx:160 | An occurrence in a prefix is an occurrence in the whole text. |
| JsText.ContainsRight | src/IncentivesGrid.tsx:160 | An occurrence in a suffix is an occurrence in the whole text. |
| JsText.MissingCharNoMatch | src/IncentivesGrid.tsx:160 | A pattern holding a character that the text lacks is not included in it. |
| CatalogScenarios.InitialViewShowsAll | src/IncentivesGrid.tsx:148-163 | In the initial state (all "All", empty search), all six programs are listed in catalog order. |
| CatalogScenarios.CatalogConsistent | src/IncentivesGrid.tsx:12-112 | Every sector, stage and size tag in the catalog is offered by its dropdown, and record ids are distinct. |
| CatalogScenarios.EveryOptionListsSomething | src/IncentivesGrid.tsx:27-42 | For every choice of dropdown options and an empty search, the SR&ED record is listed, so the grid is never empty. |
| CatalogScenarios.DropUntagged | src/IncentivesGrid.tsx:157 | With only a stage picked, a record without that stage is dropped. |
| CatalogScenarios.KeepTagged | src/IncentivesGrid.tsx:157 | With only a stage picked, a record with that stage is kept. |
| CatalogScenarios.StageSelectsFirstThree | src/IncentivesGrid.tsx:157 | Of six records where only the first three carry the picked stage, exactly those three are listed, in order. |
| CatalogScenarios.StartupStage | src/IncentivesGrid.tsx:27-112 | Stage "Startup" lists exactly sred, sodf and us_rd, in that order. |
| CatalogScenarios.BrownfieldAnyCase | src/IncentivesGrid.tsx:159-160 | On the shipped catalog, "BROWNFIELD" and "brownfield" list the same programs, whatever the selectors. |
| CatalogScenarios.McrpHeadlineNamesBrownfield | src/IncentivesGrid.tsx:79 | The MCRP headline holds "brownfield" at index 29. |
| CatalogScenarios.BrownfieldProgramNamesBrownfield | src/IncentivesGrid.tsx:86 | The brownfield-tools program name holds "Brownfield" at index 12. |
| CatalogScenarios.McrpMatchesBrownfield | src/IncentivesGrid.tsx:159-160 | The search "brownfield" matches the MCRP record. |
| CatalogScenarios.BrownfieldMatchesBrownfield | src/IncentivesGrid.tsx:159-160 | The search "brownfield" matches the brownfield-tools record, although its name is capitalised. |
| CatalogScenarios.BrownfieldSearchKeeps | src/IncentivesGrid.tsx:154-162 | With every selector at "All", the search "brownfield" lists both the MCRP and the brownfield-tools records. |
| CatalogScenarios.GreenhouseInHeadline | src/IncentivesGrid.tsx:159-160 | "greenhouse" occurs, ignoring case, at the start of the sample record's headline. |
| CatalogScenarios.GreenhouseSearchKeeps | src/IncentivesGrid.tsx:156-161 | Sector AgTech with search "greenhouse" keeps the sample record, which is matched through its headline. |
| CatalogScenarios.GreenhouseEnterpriseDrops | src/IncentivesGrid.tsx:157-161 | Adding stage Enterprise drops the sample record even though the search matches. |
| CatalogScenarios.NoMatchIsEmpty | src/IncentivesGrid.tsx:154-162 | On the one-record sample catalog, the query "nonexistent-token-xyz" matches nothing and yields the empty sequence. |

## Left out

- Rendering is not modelled: cards, table, narrative tiles, callouts,
  resource links, footer and icons (src/IncentivesGrid.tsx:165-474). It is
  presentation markup with no bearing on which programs are shown.
- React hooks are not modelled. `useState` holds the four inputs, which are
  parameters of `Filter` here. `useMemo` only caches the result.
- The dropdown open/close state and the card/table view toggle are not
  modelled. They are UI switches that do not affect filtering.
- JsText.Lower: maps only ASCII `A`–`Z` to lower case. JavaScript's
  `toLowerCase()` also maps non-ASCII capitals, such as accented letters,
  Greek and Cyrillic, using the Unicode tables. Those tables are not
  modelled. Every character in the shipped catalog's searched fields is
  ASCII apart from the en dash, which has no case.
- The "brownfield" search on the shipped catalog is proved to keep the MCRP
  and brownfield-tools records (`CatalogScenarios.BrownfieldSearchKeeps`).
  That it drops sred, sodf, us_rd and ftz is not proved. Each drop needs
  "brownfield" to be absent at every position of a search text 150 to 220
  characters long. Every letter of "brownfield" occurs in each of those four
  texts, so no single missing character settles it. That is beyond what the
  verifier settles within its resource limit. The miss is proved generically
  instead (`SearchMissingChar`) and on a short sample record
  (`NoMatchIsEmpty`).
- CatalogScenarios.NoMatchIsEmpty: is proved on the one-record sample
  catalog only, not on the shipped catalog. For each shipped record some
  character of "nonexistent-token-xyz" is missing from its searched fields:
  `z` for sred, sodf, us_rd and brownfield, and `k` for mcrp and ftz, whose
  texts hold a `z` ("Revitalization", "Zone"). Proving such a character
  absent means checking every character of a text 150 to 220 characters
  long. That is beyond what the verifier settles within its resource limit.
  The general claim, that a state no record passes gives the empty list, is
  `IncentivesGrid.NoneKeptIsEmpty`.
- Links (`link` and resource `href`s) are carried as plain strings. They
  are not followed.
