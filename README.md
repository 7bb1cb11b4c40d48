# cr-scraper, modelled in Dafny

cr-scraper collects public information about German companies from the common register portal
(Handelsregister). For each company in an input CSV file it resolves the registry court, searches
the portal with a search policy that gets less strict when nothing is found, fetches the
company's legal-entity page and documents tree, and writes three CSV files: the entity
information, its balance dates and its shareholder lists. All requests go through a session
that keeps a minimum delay between requests and a rate limit per time window.

This project models the core of that program and proves properties of the model:

- `text.dfy`: the string helpers shared by the other modules (`str.strip`, whitespace, digit
  runs, `int()` on decimal text) and HTML tokens, the calls that Python's `HTMLParser` makes. An
  attribute written without a value carries None, as `HTMLParser` passes it.
- `documents.dfy` (module `DocumentsTree`): the documents tree parser of `source/documents.py`.
  The tree elements live in an arena of indices, so the parent links need no aliasing. The
  module also models the shareholder-list dates that `ShareholderLists` extracts by a
  depth-first walk.
- `comreg_documents.dfy` (module `ShareholderListsParsing`): the shareholder-list scanner of
  `comreg/documents.py`.
- `entity_fields.dfy` (module `EntityFields`): the regular expressions of `source/entity.py`.
  Each one is written as a search in Python's backtracking order. The module proves which match
  Python reports and what the fields hold: registry court, type and number; name; legal form;
  capital and currency; dates; address; post code and city.
- `entity.dfy` (module `Entity`): `LegalEntityInformation` and the state machine of
  `LegalEntityInformationParser`.
- `court.dfy` (module `Courts`): `Court`, `CourtList` (with its lookup by name and by
  identifier, and its closest-name match) and `CourtListParser` of `comreg/court.py`.
- `comreg_search.dfy` (module `ComregSearch`): the search request parameters, the search result
  scanner and the older legal-entity parser of `comreg/search.py`.
- `service.dfy` (module `Service`): the session and its rate limiter from `source/service.py`.
- `runtime.dfy` (module `Runtime`): the command-line options, the input row filter, the court
  resolution and the search-policy escalation of `source/__main__.py`.
- `files.dfy` (module `Files`): the CSV row decoding of the input reader and the rows the three
  writers emit (`source/file.py`).

Each `HTMLParser` subclass is modelled in two parts:

- a pure step function over a configuration value (`Step`) and its fold over a token sequence
  (`Run`), about which the lemmas are proved;
- a class with the source's fields, whose handler methods are proved to change the state
  exactly as the step function does (`Snapshot() == Step(old(Snapshot()), …)`). `Feed` is proved
  to agree with `Run`.

Regular expressions are modelled as searches in Python's backtracking order. Each search is
proved to be sound: the reported match has the pattern's shape. It is proved to be complete:
when the search fails, no match exists at all. Most searches are also proved to have priority:
no match is reported that Python would try later. The exceptions are listed under "Left out".

Numbers and times:

- Amounts of money are integers counting hundredths. The source converts them to `float`.
- Clock values are `real`.
- The wall clock (`time()`, `sleep()`) is a `Service.Clock` object that the rate limiter reads
  and advances.

## Model

| member | source | states |
|---|---|---|
| DocumentsTree.LooseDateEndShape | source/documents.py:60 | an end reported for `\d{1,2}.\d{1,2}.\d{2,4}` at a position lies after it, and the text between has the date's shape: 1-2 digits, any character, 1-2 digits, any character, 2-4 digits |
| DocumentsTree.SearchLooseDate | source/documents.py:60 | `re.search` order: the reported start matches and no earlier start does; when there is no match, no start at all matches |
| DocumentsTree.YearEndComplete | source/documents.py:60 | `\d{2,4}` is found wherever two to four digits stand |
| DocumentsTree.MonthYearEndComplete | source/documents.py:60 | `\d{1,2}.\d{2,4}` is found wherever one or two digits, a character other than a line break and two to four digits stand |
| DocumentsTree.LooseDateEndComplete | source/documents.py:60 | wherever a date-shaped text starts, the search at that position reports an end |
| DocumentsTree.NoEndNoDate | source/documents.py:60 | where the search reports no end at any position of a range, no date-shaped text starts in that range |
| DocumentsTree.FirstDate | source/documents.py:60-65 | the date a file name yields is date-shaped and starts where the search reports an end that far on; no date-shaped text starts earlier in the name; there is no date exactly when no part of the name is date-shaped |
| DocumentsTree.Contributing | source/documents.py:55-59 | the files that contribute an entry all carry the "Liste der Gesellschafter" prefix, and there are no more of them than files |
| DocumentsTree.Dates | source/documents.py:60-65 | one entry per contributing file, in order, each the file's first date or None |
| DocumentsTree.ContributingAppend | source/documents.py:52-67 | selecting the contributing files distributes over concatenation of file lists |
| DocumentsTree.DatesAppend | source/documents.py:52-67 | taking dates distributes over concatenation |
| DocumentsTree.ContributionIsDatesOfContributingLeaves | source/documents.py:55-65 | what one element contributes through the recursion equals the dates of its contributing files in depth-first order, with "inside a shareholder-lists folder" inherited downwards |
| DocumentsTree.ExtractIsDatesOfContributingLeaves | source/documents.py:52-67 | `Extract` (`__extract`) over a list of elements equals the dates of the contributing files of the whole forest, in depth-first document order |
| DocumentsTree.NoListsFolderNoContribution | source/documents.py:56-59 | an element with no folder named "Liste der Gesellschafter" at or below it contributes nothing |
| DocumentsTree.NoListsFolderNoDates | source/documents.py:52-67 | a forest with no shareholder-lists folder yields no dates, whatever its files are called |
| DocumentsTree.NewShareholderLists | source/documents.py:47-50 | building the lists fails exactly when the documents root has no children (a file); otherwise it keeps entity and tree, and its dates are those of the contributing files below the root |
| DocumentsTree.DepthIn | source/documents.py:128-135 | the depth of an element counts the elements from the root down to it: at least 1, and exactly 1 for a root |
| DocumentsTree.DepthAppend | source/documents.py:28-36 | adding an element does not change the depth of the elements already in the tree |
| DocumentsTree.ChildDepth | source/documents.py:132-135 | a new child directory is one level deeper than its parent |
| DocumentsTree.ArenaAddChild | source/documents.py:28-36 | `create_child` on a directory keeps the element store well formed: the new element is the directory's last child and records it as its parent |
| DocumentsTree.Arena.constructor | source/documents.py:112-115 | the element store starts empty |
| DocumentsTree.Arena.NewElement | source/documents.py:23-26 | a new parentless element with its name, and children only when it is a directory; nothing else changes |
| DocumentsTree.Arena.CreateChild | source/documents.py:28-36 | the call fails with nothing changed exactly when the parent is not a directory; otherwise the child is new, records the parent, and is appended to the parent's children only |
| DocumentsTree.Arena.SetName | source/documents.py:142-153 | only the element's name changes |
| DocumentsTree.Failed | source/documents.py:117-119 | `error` keeps the parser invariant (the current element directory or file as the state says, the depth counting the open directory's ancestors, a result only once stopped) |
| DocumentsTree.OpenRoot | source/documents.py:125-128 | opening the root, a parentless directory at depth 1, keeps the invariant |
| DocumentsTree.OpenChild | source/documents.py:132-138 | creating a child directory (one level deeper) or file inside an open directory keeps the invariant |
| DocumentsTree.AttributeStep | source/documents.py:123-138 | every attribute of a `<div>` keeps the invariant |
| DocumentsTree.AttributeSteps | source/documents.py:123-138 | so does the whole attribute list, in order |
| DocumentsTree.StartTagStep | source/documents.py:121-138 | every start tag keeps the invariant |
| DocumentsTree.DataStep | source/documents.py:140-142 | every text keeps the invariant |
| DocumentsTree.EndTagStep | source/documents.py:144-161 | every end tag keeps the invariant |
| DocumentsTree.Step | source/documents.py:121-161 | every token keeps the invariant |
| DocumentsTree.Run | source/documents.py:107-161 | every token sequence keeps the invariant |
| DocumentsTree.TreeRootOpensRoot | source/documents.py:124-128 | the `tree-root` identifier acts only in the initial state: it appends an empty-named directory with no parent and no children, makes it current and sets the depth to 1, its depth in the arena; in any other state nothing changes |
| DocumentsTree.TreeNodeOpensDirectory | source/documents.py:132-135 | a `tree-node` class in an open directory's contents appends a new directory as the current element's last child, makes it current, and raises the depth by one to exactly the new directory's depth; no other element's depth changes |
| DocumentsTree.TreeFileOpensFile | source/documents.py:136-138 | a `tree-file` class there appends a new file as the last child and makes it current; the depth stays |
| DocumentsTree.CloseFile | source/documents.py:146-149 | closing a file strips its name and makes its parent directory's contents current; the depth, the arena's shape and the result stay |
| DocumentsTree.CloseDirectory | source/documents.py:152-161 | closing a directory strips its name and lowers the depth; above depth 1 its parent becomes current again, and at depth 1 the parse finishes with that directory, a root, as the result |
| DocumentsTree.AttributeStepsGrow | source/documents.py:123-138 | the attributes of a `<div>` only add elements: every element keeps its parent and kind, and a directory's children only grow at the end |
| DocumentsTree.StepGrows | source/documents.py:121-161 | the same for one token |
| DocumentsTree.RunGrows | source/documents.py:107-161 | the same for every token sequence |
| DocumentsTree.AttributeStepsStopped | source/documents.py:124-138 | in the error and finished states no attribute matches a branch, so nothing changes |
| DocumentsTree.StoppedIsAbsorbing | source/documents.py:107-161 | once the parser has failed or finished, no token sequence changes anything, so a result is final |
| DocumentsTree.ParsedTreeLists | source/documents.py:47-67 | the tree a parse yields is a directory, so `ShareholderLists` accepts it, and its dates are those of the contributing files below its root |
| DocumentsTree.DocumentsTreeParser.constructor | source/documents.py:109-115 | the fields are the initial configuration: state Void, depth 0, no element, no result and an empty element store |
| DocumentsTree.DocumentsTreeParser.Fail | source/documents.py:117-119 | the fields change as `Failed` says, and the invariant is kept |
| DocumentsTree.DocumentsTreeParser.HandleAttribute | source/documents.py:123-138 | one round of the attribute loop changes the fields exactly as `AttributeStep` says |
| DocumentsTree.DocumentsTreeParser.AddChild | source/documents.py:132-138 | the fields change exactly as `OpenChild` says |
| DocumentsTree.DocumentsTreeParser.HandleStartTag | source/documents.py:121-138 | the fields change exactly as `StartTagStep` says: the attributes of a `<div>` are taken in order, each seeing the state the previous one left |
| DocumentsTree.DocumentsTreeParser.HandleData | source/documents.py:140-142 | the fields change exactly as `DataStep` says |
| DocumentsTree.DocumentsTreeParser.HandleEndTag | source/documents.py:144-161 | the fields change exactly as `EndTagStep` says |
| DocumentsTree.DocumentsTreeParser.Feed | source/documents.py:107-161 | feeding tokens leaves the fields at `Run` of the tokens from the old fields, and keeps the invariant |
| DocumentsTree.DocumentsTreeParser.ResultTree | source/documents.py:160 | the finished result is a directory tree |
| ShareholderListsParsing.NewShareholderLists | comreg/documents.py:23-25 | the lists keep the entity; without dates they start empty, otherwise they hold the given dates |
| ShareholderListsParsing.LatestDateStart | comreg/documents.py:118 | the greedy leading `.*`: the latest date start at or before a position, and no later one up to it; None when there is no date start there at all |
| ShareholderListsParsing.FirstLineLength | comreg/documents.py:118 | `.` stops at a line break: the length reaches the first newline or the end |
| ShareholderListsParsing.DateMatchStart | comreg/documents.py:118 | where `.*(\d{2}.\d{2}.\d{4}).*` puts its group: a date start in the first line with no later one there; None exactly when the first line holds no date start |
| ShareholderListsParsing.FileDate | comreg/documents.py:118-121 | a closed file yields a date exactly when its first line holds one; the date is the 10 characters at the date start that comes last in the first line, as the greedy leading `.*` picks |
| ShareholderListsParsing.Initial | comreg/documents.py:70-77 | the scanner starts consistent, with empty lists for its entity |
| ShareholderListsParsing.Failed | comreg/documents.py:79-81 | `error` enters the error state and drops the result |
| ShareholderListsParsing.ErrorIsAbsorbing | comreg/documents.py:83-133 | once in the error state, no token sequence changes anything |
| ShareholderListsParsing.ClassStepsKeepResult | comreg/documents.py:90-97 | the class-attribute loop only moves the state to a tree file or a sub-tree; result and text stay |
| ShareholderListsParsing.StepConsistent | comreg/documents.py:79-133 | `Step`: each token keeps "the result is gone exactly in the error state" |
| ShareholderListsParsing.RunConsistent | comreg/documents.py:79-133 | `Run`: the same for every token sequence |
| ShareholderListsParsing.ClassStepsDepth | comreg/documents.py:90-97 | a tree `<div>` deepens the tree by one per `tree-node` class it carries |
| ShareholderListsParsing.LeaveLevel | comreg/documents.py:125-130 | a closing `</div>` between tree elements leaves one level, or ends the tree (state Void) at level 0 |
| ShareholderListsParsing.StepExtends | comreg/documents.py:83-133 | one token never changes the entity or earlier dates, and appends at most one date |
| ShareholderListsParsing.RunExtends | comreg/documents.py:83-133 | over any token sequence the dates only grow at the end and the entity never changes |
| ShareholderListsParsing.CloseFileAppendsOne | comreg/documents.py:117-124 | closing a file appends exactly its date (or None), clears the collected text and waits for the next element at the same depth |
| ShareholderListsParsing.HeaderRecognised | comreg/documents.py:103-105 | the lists header is recognised exactly when the anchor text, stripped, is "Liste der Gesellschafter"; otherwise nothing changes |
| ShareholderListsParsing.ErrorHeading | comreg/documents.py:108-110 | heading text containing "Fehler" fails the scanner; any other heading text changes nothing |
| ShareholderListsParsing.ShareholderListsParser.constructor | comreg/documents.py:70-77 | the fields are the initial configuration for the entity |
| ShareholderListsParsing.ShareholderListsParser.Fail | comreg/documents.py:79-81 | the fields change as `Failed` says |
| ShareholderListsParsing.ShareholderListsParser.HandleStartTag | comreg/documents.py:83-100 | the fields change exactly as the start-tag transition says |
| ShareholderListsParsing.ShareholderListsParser.HandleData | comreg/documents.py:102-110 | the fields change exactly as the text transition says |
| ShareholderListsParsing.ShareholderListsParser.HandleEndTag | comreg/documents.py:112-133 | the fields change exactly as the end-tag transition says |
| ShareholderListsParsing.ShareholderListsParser.Feed | comreg/documents.py:68-133 | feeding tokens leaves the fields at `Run` of the tokens from the old fields |
| EntityFields.IdLetters | source/entity.py:263 | `[a-zA-Z]{1,2}\s*$` after the identifier's whitespace: a reported split ends the line correctly and keeps the earlier groups; None means no letter count works |
| EntityFields.IdSpaces | source/entity.py:263 | the `\s+` of the optional identifier part: a reported split is valid and uses at most the available whitespace; None means no amount of it works |
| EntityFields.IdTail | source/entity.py:263 | `(?:\s+[a-zA-Z]{1,2})?\s*$` after the digits: a reported tail is valid; None means no tail fits (with the optional part or without) |
| EntityFields.IdDigits | source/entity.py:263 | the lazy `\d*?` from a given count on: a reported identifier is valid and has at least that many digits; None means no larger digit count works |
| EntityFields.TypeSpaces | source/entity.py:263 | the `\s+` after the registry type: a reported split is valid within the available whitespace; None means none within it works |
| EntityFields.TypeAlternatives | source/entity.py:263 | the alternatives `HRA\|HRB\|GnR\|PR\|VR` from the `t`-th on: a reported split uses one of them; None means none of them leads to a match |
| EntityFields.CourtSpaces | source/entity.py:263 | the `\s+` after the court: a reported split is valid; None means no whitespace length works |
| EntityFields.Court | source/entity.py:263 | the lazy court group `(.*?)`: the reported court is the shortest one that lets the rest match; None means no court end works |
| EntityFields.Lead | source/entity.py:263 | the greedy leading `\s*`: the reported match has the longest lead that works, and the shortest court for it; None means no match |
| EntityFields.RegistryMatch | source/entity.py:263 | `re.match` of the registry pattern: a reported match is valid, every other match has a shorter lead or a court no shorter, and there is none exactly when no split matches |
| EntityFields.CollapseWhitespace | source/entity.py:268 | `re.sub(r"\s\s+", " ", …)`: the result is no longer, empty exactly when the input is, starts with whitespace exactly when the input does, and has no two whitespace characters in a row |
| EntityFields.CollapseSingleSpaced | source/entity.py:268 | text without two adjacent whitespace characters is left unchanged |
| EntityFields.CollapseIdempotent | source/entity.py:268 | collapsing twice is collapsing once |
| EntityFields.CollapseLongRun | source/entity.py:268 | a run of two or more whitespace characters becomes one blank |
| EntityFields.CollapseShortRun | source/entity.py:268 | a single whitespace character stays as it is |
| EntityFields.CollapseAppend | source/entity.py:268 | collapsing works piece by piece wherever the pieces do not split a whitespace run |
| EntityFields.NonBlank | source/entity.py:268 | the characters of a text other than whitespace, in order: no more than the text has, and none of them whitespace |
| EntityFields.CollapseKeepsNonBlank | source/entity.py:268 | collapsing keeps every character other than whitespace, in order, and adds none |
| EntityFields.RegistryFields | source/entity.py:262-268 | there are fields exactly when the registry pattern matches; they are the court slice, the known type and the collapsed identifier slice of a match with the lead and the court Python picks, and the identifier is single-spaced |
| EntityFields.TrimsCoverStrip | source/entity.py:277 | any group `^\s*(.*?)\s*$` allows starts no later than the stripped text and covers all of it |
| EntityFields.NoLineGroup | source/entity.py:277 | a line break inside the stripped text makes the pattern fail |
| EntityFields.StrippedLine | source/entity.py:276-280 | `^\s*(.*?)\s*$`: the group starts after the longest leading whitespace and is the shortest that lets the rest match; None means no group at all matches |
| EntityFields.NameLine | source/entity.py:270-274 | a name exists exactly when whitespace, an en dash and a matching line follow each other; the name is the stripped line after the dash |
| EntityFields.LeadIsRun | source/entity.py:290 | leading whitespace that ends before a non-whitespace character is the whole whitespace run |
| EntityFields.LeadingDate | source/entity.py:289-296 | a date exists exactly when the leading whitespace is followed by `\d{2}.\d{2}.\d{4}`; it is those ten characters |
| EntityFields.BalanceDate | source/entity.py:298-302 | a balance date exists exactly when the text is such a date with only whitespace around it; it is those ten characters, the same as the leading date |
| EntityFields.GroupedChars | source/entity.py:283 | a dotted digit grouping starts with a digit and holds only digits and dots |
| EntityFields.AmountChars | source/entity.py:283 | an amount starts with a digit and holds only digits, dots and commas |
| EntityFields.AmountCharsIn | source/entity.py:283 | the same for an amount inside the text |
| EntityFields.TailIsNotAmount | source/entity.py:283 | what follows a matched amount is never a digit, dot or comma |
| EntityFields.CurrencyPosition | source/entity.py:283 | a currency stands right after the whitespace that follows the amount |
| EntityFields.CapitalUnique | source/entity.py:283 | the capital pattern matches in at most one way: lead, amount end and currency are determined |
| EntityFields.CurrencyTail | source/entity.py:283 | `\s*(EUR\|DEM\|€)?\s*$` after the amount: a reported tail is valid; None means no tail fits |
| EntityFields.CurrencyAt | source/entity.py:283 | the first currency from the `c`-th on that occurs here with only whitespace after it; None means none does |
| EntityFields.AmountEnd | source/entity.py:283 | the amount end search: a reported split starts at the given position and matches once the lead is whitespace; None means no later end works |
| EntityFields.CapitalMatch | source/entity.py:283 | a reported capital match is valid, and there is none exactly when the pattern cannot match |
| EntityFields.Normalise | source/entity.py:286 | `replace(".", "").replace(",", ".")`: the result is no longer and holds no comma |
| EntityFields.NormaliseAppend | source/entity.py:286 | normalising distributes over concatenation |
| EntityFields.NormaliseDigits | source/entity.py:286 | digits alone are left unchanged |
| EntityFields.NormaliseIntegerPart | source/entity.py:286 | an integer part (digits, or digit groups separated by dots) becomes a non-empty digit string |
| EntityFields.NormaliseAmount | source/entity.py:283-286 | every amount the pattern accepts normalises to a decimal that `float()` reads |
| EntityFields.NormaliseDecimals | source/entity.py:286 | the decimal comma after an integer part becomes a decimal point |
| EntityFields.CapitalFields | source/entity.py:282-287 | a capital exists exactly when the pattern matches; it is the value of the normalised amount, in hundredths, and the currency is the matched one or None |
| EntityFields.CityName | source/entity.py:311 | the city group `([^\d\n]+)` ending at most at `m`: the longest one that lets `\s*$` match; None means none does |
| EntityFields.CitySpaces | source/entity.py:311 | the `\s+` after the post code, longest first: the reported split is the first in backtracking order; None means none works |
| EntityFields.CityOptional | source/entity.py:311 | the optional `(\d{5})\s+`, tried present before absent: the reported split is the first in backtracking order; None means none works |
| EntityFields.CityLead | source/entity.py:311 | the greedy leading `\s*`: the longest lead that works, then the first split in backtracking order; None means no match |
| EntityFields.CityMatch | source/entity.py:311 | `re.match` of the city pattern: the reported match is the first in backtracking order, and there is none exactly when no split matches |
| EntityFields.CityFields | source/entity.py:310-315 | city fields exist exactly when the pattern matches; they are the post code and city of the match that comes first in backtracking order; the city is non-empty with no digit and no line break, and a post code is five digits |
| EntityFields.CityGroups | source/entity.py:311 | the groups of any city match: a non-empty city without digits or line breaks, and a five-digit post code when present |
| EntityFields.CityWithPostCode | source/entity.py:310-315 | five digits, a blank and a city name parse to that post code and that city |
| EntityFields.CodeLineMatch | source/entity.py:310-315 | a line of five digits, a blank and a city name yields the digits as post code and the rest as city |
| EntityFields.CodeLineSplit | source/entity.py:311 | for such a line the reported match has no lead, the post code, one blank and the city to the end |
| EntityFields.CityOfBlanks | source/entity.py:311 | a text of whitespace only (not ending in a line break) matches with no post code, and the city is its last character, because the greedy lead leaves one character for `[^\d\n]+` |
| EntityFields.NormaliseDotDigits | source/entity.py:286 | a dot before digits disappears, and a comma before digits becomes a dot |
| EntityFields.DigitsValueAppend | source/entity.py:286 | the value of concatenated digit strings is the first one's value shifted by the second one's length, plus the second one's value |
| EntityFields.GroupedExtend | source/entity.py:283 | a group of one to three digits, or digit groups, followed by a dot and three digits are digit groups again |
| EntityFields.NormaliseGroup | source/entity.py:286 | normalising drops the thousands dot before a three-digit group |
| EntityFields.ThousandsValue | source/entity.py:286 | appending a three-digit group multiplies by 1000 and adds the group |
| EntityFields.ThousandsSeparator | source/entity.py:283-286 | a dot before three digits is a thousands separator: the amount stays an integer part and its value is 1000 times the part before plus the group |
| EntityFields.CommaShape | source/entity.py:283 | an integer part, a comma and one or two digits form an amount |
| EntityFields.NormaliseComma | source/entity.py:286 | a comma before digits becomes a decimal point |
| EntityFields.CentsValue | source/entity.py:286 | `float()` of "n.f" in hundredths: 100 times n, plus f counted in tenths (one decimal) or hundredths (two decimals) |
| EntityFields.CentsOneDecimal | source/entity.py:286 | one decimal counts in tenths |
| EntityFields.CentsTwoDecimals | source/entity.py:286 | two decimals count in hundredths |
| EntityFields.DecimalComma | source/entity.py:283-286 | an integer part with a comma and one or two decimals is an amount, and its value is 100 times the integer part plus the decimals in hundredths |
| EntityFields.CapitalOfAmount | source/entity.py:282-287 | an amount on its own parses to its value and no currency |
| EntityFields.CapitalWithCurrencyOk | source/entity.py:283 | an amount, a blank and a currency match the capital pattern |
| EntityFields.CapitalWithCurrency | source/entity.py:282-287 | an amount, a blank and a currency parse to the amount's value and that currency |
| EntityFields.CapitalExample | source/entity.py:282-287 | "1.234.567,89 EUR" parses to 1234567.89 (123456789 hundredths) in EUR |
| EntityFields.AmountExample | source/entity.py:283-286 | "1.234.567,89" is an amount whose normalised value is 123456789 hundredths |
| Entity.NewLegalEntityInformation | source/entity.py:28-65 | construction fails exactly when a registry type outside HRA, HRB, GnR, PR, VR is given, with "Unknown registry type"; otherwise every field is the given one |
| Entity.EmptyRecordIsNew | source/entity.py:28-65 | `LegalEntityInformation()` succeeds with every field None |
| Entity.FirstKeyword | source/entity.py:208-211 | the first label from the `i`-th on that the text starts with: no earlier one matches; None means none from there on matches |
| Entity.KeywordOf | source/entity.py:205-213 | the label of a label cell is the first of KEYWORDS, in list order, that the stripped text starts with; None exactly when it starts with none of them |
| Entity.SetRegistry | source/entity.py:262-268 | only the three registry fields change, and a text the pattern does not match leaves the record; what a match stores is stated by `RegistryLine` |
| Entity.SetName | source/entity.py:270-274 | only the name changes; with whitespace and an en dash before a matching line it is that stripped line, otherwise the record stays |
| Entity.SetStructure | source/entity.py:276-280 | only the legal form changes; when the stripped-line pattern matches it is the group starting after the whole leading whitespace and, there, the shortest one, as the lazy `(.*?)` picks (so trailing whitespace is left out); otherwise the record stays |
| Entity.StructureDropsTrailingBlank | source/entity.py:276-280 | an example: for "GmbH " the pattern allows the groups "GmbH " and "GmbH", and the legal form stored is "GmbH" |
| Entity.SetCapital | source/entity.py:282-287 | only capital and currency change; for a match they are the amount's value in hundredths and the matched currency (None when absent); without a match the record stays |
| Entity.SetDate | source/entity.py:289-296 | only the entry date (or, for a deletion row, the deletion date) changes; it becomes the ten date characters after the leading whitespace; without them the record stays |
| Entity.ProcessBalance | source/entity.py:298-302 | only the balance list changes; a text that is a date with whitespace around it appends those ten characters; any other text leaves the record |
| Entity.SetAddress | source/entity.py:304-308 | only the address changes; when the stripped-line pattern matches it is the group starting after the whole leading whitespace and, there, the shortest one, as the lazy `(.*?)` picks (so trailing whitespace is left out); otherwise the record stays |
| Entity.SetCity | source/entity.py:310-315 | only post code and city change; for a match they are the groups of the match that comes first in backtracking order (no post code when the optional part is absent); without a match the record stays |
| Entity.FindKeyword | source/entity.py:208-213 | the loop finds exactly that label |
| Entity.InitialInv | source/entity.py:156-161 | the initial configuration has a known (absent) registry type |
| Entity.StepInv | source/entity.py:166-260 | `Step`: every token keeps the registry type a known one and keeps a balance list present while options are read |
| Entity.RunInv | source/entity.py:166-260 | `Run`: the same for every token sequence |
| Entity.RunAppend | source/entity.py:166-260 | feeding two pieces one after the other is feeding them together |
| Entity.RunSnoc | source/entity.py:166-260 | feeding one more token is one more transition |
| Entity.RunSnocStart | source/entity.py:166-190 | one more start tag is one start-tag transition |
| Entity.RunSnocData | source/entity.py:192-215 | one more text is one text transition |
| Entity.RunSnocEnd | source/entity.py:239-260 | one more end tag is one end-tag transition |
| Entity.HeadingRestarts | source/entity.py:167-169 | an `<h3>` awaits the header from any state, and changes nothing else |
| Entity.LabelCell | source/entity.py:205-213 | a label cell always moves to the label state; it finds a label exactly when the stripped text starts with one; it never changes the record |
| Entity.RecordChangesOnlyInCells | source/entity.py:183-215 | the record changes only on the registry text, the name text, a value cell's text, or a `<select>` in a value cell |
| Entity.RegistryLine | source/entity.py:262-268 | the registry text changes only the registry fields; without a match the record stays; with one it stores the court slice, the known type and the collapsed identifier of a match with the lead and court Python picks, and the identifier is single-spaced |
| Entity.ValueCellChangesItsFields | source/entity.py:214-237 | a value cell changes only the fields of its row's label (structure; capital and currency; entry; deletion; balance; address, post code and city), and nothing without a label |
| Entity.AddressChain | source/entity.py:229-254 | the address sub-states are entered only from their predecessor (void, await street, street, await city, city); city is left only at the `</div>` that ends the value, or for a `<select>` |
| Entity.AddressCell | source/entity.py:229-254 | an address cell: the first text opens it, the second is the street, the inner `<div>`'s text is post code and city, and its `</div>` ends the value |
| Entity.AddressValueStep | source/entity.py:229-237 | one address text, by the sub-state it arrives in |
| Entity.BalanceDates | source/entity.py:298-302 | the option texts that are balance dates give no more dates than texts |
| Entity.OptionStep | source/entity.py:187-257 | one `<option>` inside the balance `<select>` appends its date, if its text is one, and nothing else changes |
| Entity.OptionRun | source/entity.py:187-257 | the three tokens of an option, fed after others, are the three transitions |
| Entity.OptionsCollectDates | source/entity.py:187-257 | after a run of options the balance list holds their dates in order |
| Entity.SelectCollectsBalance | source/entity.py:183-260 | a whole `<select>` in the balance cell replaces the balance with the list of its option dates, in order, and ends the options |
| Entity.LegalEntityInformationParser.constructor | source/entity.py:156-161 | the fields are the initial configuration |
| Entity.LegalEntityInformationParser.HandleStartTag | source/entity.py:166-190 | the fields change exactly as the start-tag transition says |
| Entity.LegalEntityInformationParser.HandleData | source/entity.py:192-215 | the fields change exactly as the text transition says |
| Entity.LegalEntityInformationParser.HandleValue | source/entity.py:217-237 | the fields change exactly as the value-cell transition says |
| Entity.LegalEntityInformationParser.HandleEndTag | source/entity.py:239-260 | the fields change exactly as the end-tag transition says |
| Entity.LegalEntityInformationParser.Feed | source/entity.py:137-260 | feeding tokens leaves the fields at `Run` of the tokens from the old fields, and keeps the invariant |
| Courts.Insert | comreg/court.py:57-58 | `d[k] = v` on an insertion-ordered dictionary: the value under `k` is replaced, a new key is appended at the end, an existing key keeps its place |
| Courts.IndexBy | comreg/court.py:57-58 | the dictionary built from a list is well formed: its keys are distinct and are exactly its entries |
| Courts.IndexByLastWins | comreg/court.py:57-58 | the dictionary holds a key exactly when some court carries it, and then the last court in the list that carries it |
| Courts.IndexByFirstOccurrence | comreg/court.py:57-58 | the dictionary keeps its keys in insertion order: of two keys, the one whose first carrying court comes earlier in the list comes first (the order the closest-name scan walks) |
| Courts.DistinctCardinality | comreg/court.py:109-110 | a sequence without repetitions has as many distinct elements as positions |
| Courts.NewCourtList | comreg/court.py:50-58 | both indexes of a court list are well-formed dictionaries |
| Courts.GetFromName | comreg/court.py:60-69 | None for a None name; otherwise the court under that name, and None exactly when the name is not a key |
| Courts.GetFromIdentifier | comreg/court.py:99-107 | the court under the identifier (None included as a key), and None exactly when it is not a key |
| Courts.Len | comreg/court.py:109-110 | the length is the number of distinct names |
| Courts.GetFromNameIsLastCourt | comreg/court.py:57-69 | looking a name up in a list built from courts gives the last court with that name |
| Courts.GetFromNameMissing | comreg/court.py:57-69 | a name no court carries gives None |
| Courts.GetFromIdentifierIsLastCourt | comreg/court.py:58 | looking an identifier up gives the last court with that identifier |
| Courts.GetFromIdentifierMissing | comreg/court.py:107 | an identifier no court carries gives None |
| Courts.LenCountsNames | comreg/court.py:109-110 | the length of a list built from courts is the number of distinct names among them |
| Courts.RatiosOf | comreg/court.py:90-91 | one similarity ratio per key, in dictionary order |
| Courts.FirstMaximumUnique | comreg/court.py:90-95 | the first strict maximum of a ratio sequence is unique |
| Courts.BestRatioUnique | comreg/court.py:90-97 | at most one court is the best match by ratio |
| Courts.GetClosestFromName | comreg/court.py:71-97 | None for a None name; at the first key in dictionary order that is None the call raises; at the first key that contains the name in parentheses that key's court is returned; when no key stops the scan, the result is the court with the first highest positive ratio, or None when no ratio is positive; it raises only at such a None key |
| Courts.LastValueIndex | comreg/court.py:179-181 | the loop over the attributes keeps the last `value` attribute: the reported index holds one and no later one does; None means there is none |
| Courts.StepInv | comreg/court.py:168-204 | `Step`: every token keeps a pending court present while its name is awaited, and keeps every court (pending or collected) with an identifier of an upper-case letter and four digits |
| Courts.RunInv | comreg/court.py:168-204 | `Run`: the same for every token sequence |
| Courts.StepAppendsAtMostOne | comreg/court.py:198-204 | a token appends at most one court, and only a closing `</option>` whose name was read appends the pending court |
| Courts.RunExtends | comreg/court.py:159-204 | the collected courts are append-only |
| Courts.OptionOutsideSelect | comreg/court.py:173-175 | an `<option>` outside the court select, or while an option is pending, changes nothing |
| Courts.SelectOpens | comreg/court.py:169-172 | a `<select>` opens the court select exactly when one of its attributes is `name="registergericht"`; any other leaves everything as it is |
| Courts.SelectCloses | comreg/court.py:195-197 | `</select>` closes the court select only while no option is pending |
| Courts.OptionEntry | comreg/court.py:173-204 | one option in the court select adds the court (last `value` attribute, stripped text) exactly when that value is a valid identifier; otherwise nothing is added |
| Courts.ParsedListRejectsInvalidIdentifier | comreg/court.py:183 | a court list read from the form answers no lookup by an identifier that is not a letter followed by four digits |
| Courts.CourtListParser.constructor | comreg/court.py:159-163 | the fields are the initial configuration |
| Courts.CourtListParser.HandleStartTag | comreg/court.py:168-187 | the fields change exactly as the start-tag transition says |
| Courts.CourtListParser.HandleData | comreg/court.py:189-192 | the fields change exactly as the text transition says |
| Courts.CourtListParser.HandleEndTag | comreg/court.py:194-204 | the fields change exactly as the end-tag transition says |
| Courts.CourtListParser.Feed | comreg/court.py:150-204 | feeding tokens leaves the fields at `Run` of the tokens from the old fields, and keeps the invariant |
| ComregSearch.DefaultParamsShape | comreg/search.py:13-47 | the default form parameters are exactly the nine names, with "Suchen", 10 results per page, keyword option 2 and every other one None |
| ComregSearch.CRSearch.constructor | comreg/search.py:35-49 | session and url as given, the given parameters or the defaults, and no result |
| ComregSearch.CRSearch.SetParam | comreg/search.py:51-52 | one parameter is overwritten; session, url and result stay |
| ComregSearch.NewCRSearch | comreg/search.py:28-49 | construction fails exactly when the session or the url is missing, with the source's message for whichever is checked first; otherwise the fields are set as the constructor says |
| ComregSearch.SetParamKeepsOthers | comreg/search.py:51-52 | setting a parameter adds no other key, keeps every other value, and stores the new one |
| ComregSearch.ResultRunStopsAtRaise | comreg/search.py:69-96 | once a handler raises, feeding stops: the later tokens change nothing |
| ComregSearch.EntryAnchorSetsIndex | comreg/search.py:81-84 | an anchor named `Eintrag_<n>` makes `n` the current index |
| ComregSearch.ValuelessNameRaises | comreg/search.py:82-84 | a `name` attribute written without a value raises (`startswith` on None) unless an earlier attribute raised, and leaves the configuration the earlier attributes made |
| ComregSearch.AnchorStopsAtRaise | comreg/search.py:82-84 | once an attribute raises (a valueless `name`, or an index that is not a number), the later attributes are not looked at |
| ComregSearch.AnchorKeepsEntries | comreg/search.py:81-84 | an anchor never changes the entries or the name flag |
| ComregSearch.NameCellRaisesFlag | comreg/search.py:86-89 | a `<td>` raises the name flag exactly when one of its attributes is `class="RegPortErg_FirmaKopf"`; it keeps a raised flag and changes nothing else |
| ComregSearch.ResultStepAppends | comreg/search.py:91-96 | `ResultStep`: a text under the name flag appends one entry with the current index and the text; every other token leaves the entries |
| ComregSearch.ResultRunExtends | comreg/search.py:69-96 | `ResultRun`: the entries are append-only |
| ComregSearch.NameCellEntry | comreg/search.py:86-103 | a name cell holding one text yields exactly one entry (current index, that text), and its end tag lowers the flag |
| ComregSearch.CRSearchResultParser.constructor | comreg/search.py:71-75 | no entries, index -1, flag down |
| ComregSearch.CRSearchResultParser.HandleStartTag | comreg/search.py:80-89 | the fields change as the start-tag transition says, and the method reports whether it raised |
| ComregSearch.CRSearchResultParser.HandleData | comreg/search.py:91-93 | the fields change as the text transition says |
| ComregSearch.CRSearchResultParser.HandleEndTag | comreg/search.py:95-96 | the flag is lowered, nothing else changes |
| ComregSearch.CRSearchResultParser.Feed | comreg/search.py:69-96 | feeding tokens agrees with `ResultRun`, including the stop at the first raise |
| ComregSearch.RegistryEndIsLast | comreg/search.py:239 | in a registry match of the older pattern, the identifier (or, without digits, the type) ends at the last non-whitespace character |
| ComregSearch.RegistryIdentifierUnique | comreg/search.py:239-245 | all matches of the older registry pattern have the same digits as identifier |
| ComregSearch.SetRegistryRaises | comreg/search.py:238-245 | `SetRegistry`: `int()` raises exactly when the pattern matches with an empty identifier; without a match the record stays |
| ComregSearch.SetRegistryOfMatch | comreg/search.py:242-245 | for the match Python reports (its lead and court have priority) court and known type are stored, and the identifier becomes the value of its digits (left as it was when `int()` raises); no other field changes |
| ComregSearch.SetRegistryStores | comreg/search.py:242-245 | for any match of the pattern: the court and type of a match with Python's lead and court, and the value of that match's digits, since all matches agree on them; no other field changes |
| ComregSearch.DetailRunStopsAtRaise | comreg/search.py:185-209 | `DetailRun`: once a handler raises, feeding stops |
| ComregSearch.RegistryCell | comreg/search.py:238-245 | the registry text raises exactly when the pattern matches without digits; otherwise the registry detail state follows, and every match with digits stores their value |
| ComregSearch.RegistrySuffixOnlyInLaterPattern | comreg/search.py:239 | "Berlin HRB 123 X" matches the later pattern with its letter suffix, but not the older one |
| ComregSearch.ValueCellReadsFirstChunk | comreg/search.py:207-209 | the first text of a value cell leaves the value state, so a second text in the same cell is ignored |
| ComregSearch.BalanceConcatenates | comreg/search.py:220-221 | balance values are concatenated as text, starting from the first one |
| ComregSearch.SetName | comreg/search.py:247-252 | only the name changes; with whitespace and an en dash before a matching line it is that stripped line, otherwise the record stays |
| ComregSearch.SetStructure | comreg/search.py:254-259 | only the legal form changes; when the stripped-line pattern matches it is the group starting after the whole leading whitespace and, there, the shortest one, as the lazy `(.*?)` picks (so trailing whitespace is left out); otherwise the record stays |
| ComregSearch.SetDate | comreg/search.py:269-277 | only the entry date (or, for a deletion row, the deletion date) changes; it becomes the ten date characters after the leading whitespace; without them the record stays |
| ComregSearch.SetCapital | comreg/search.py:261-267 | only capital and currency change; for any match of the capital pattern (all agree) the capital is the matched amount text and the currency the matched one, or None when it took no part; without a match the record stays |
| ComregSearch.CapitalTextAgrees | comreg/search.py:261-267 | `SetCapital`: the older parser stores the capital as the matched text: it changes only on a match, and it is an amount whose value is the one the later parser computes, with the same currency |
| ComregSearch.LegalEntityInformationParser.constructor | comreg/search.py:158-163 | the fields are the initial configuration |
| ComregSearch.LegalEntityInformationParser.HandleStartTag | comreg/search.py:168-183 | the fields change as the start-tag transition says |
| ComregSearch.LegalEntityInformationParser.HandleData | comreg/search.py:185-209 | the fields change as the text transition says, and the method reports whether it raised |
| ComregSearch.LegalEntityInformationParser.HandleValue | comreg/search.py:211-223 | the fields change as the value-cell transition says |
| ComregSearch.LegalEntityInformationParser.HandleEndTag | comreg/search.py:225-236 | the fields change as the end-tag transition says |
| ComregSearch.LegalEntityInformationParser.Feed | comreg/search.py:146-236 | feeding tokens agrees with `DetailRun`, including the stop at the first raise |
| Service.Clock.constructor | source/service.py:11 | the clock starts at the given time |
| Service.Clock.Time | source/service.py:11 | `time()` reads the clock |
| Service.Clock.Sleep | source/service.py:11 | `sleep(d)` advances the clock by `d` |
| Service.NoLimitNoWindow | source/service.py:48-63 | without a request limit the limit check never fires and a request leaves the window bookkeeping alone |
| Service.LimitCheckExact | source/service.py:47-60 | `LimitCheck`: with a limit, the check fires exactly while the window has not elapsed and is full; an elapsed window has its count reset, and nothing else changes |
| Service.CheckPredictsSleep | source/service.py:47-79 | right after the limit check, a request at the same moment sleeps in its window part exactly when the limit check said the limit was reached |
| Service.FirstRequestStartsWindow | source/service.py:66-79 | the first request of a window starts the window at the current time and counts 1 |
| Service.FullWindowWaits | source/service.py:69-79 | `RequestWindow`: a request into a full window that has not elapsed waits until the window ends, counts 1 and restarts the window there; every other request counts one more |
| Service.WindowBound | source/service.py:63-79 | after a request the window counts at most the limit, unless the window has already elapsed |
| Service.CheckedRequestKeepsWindow | source/service.py:47-79 | a limit check followed by a request (the record loop) keeps the count between 1 and the limit, and the request is admitted inside a window that has not elapsed |
| Service.DelaySpacing | source/service.py:81-88 | `RequestDelay`: with a delay, a request ends at least `delay` seconds after the previous one ended, and records its own end time |
| Service.RequestMovesClockForward | source/service.py:62-88 | `LimitedRequest`: a request never moves the clock back; without a delay it keeps the delay bookkeeping |
| Service.Session.constructor | source/service.py:26-32 | the settings as given, with the initial bookkeeping (-1, -1, 0) |
| Service.Session.Invalidate | source/service.py:44-45 | only the identifier is forgotten |
| Service.Session.IsLimitReached | source/service.py:47-60 | the verdict and the new bookkeeping are those of the limit check at the clock's time; the settings and identifier stay |
| Service.Session.MakeLimitedRequest | source/service.py:62-88 | the bookkeeping and the clock end as the window part and then the delay part of a request say |
| Service.NewSession | source/service.py:21-32 | construction fails exactly when a request limit is set with a negative interval; otherwise the session has the given identifier and settings and the initial bookkeeping |
| Runtime.FirstComma | source/__main__.py:70 | the first comma from a position on, or the end, with no comma before it |
| Runtime.RowsMatch | source/__main__.py:70 | `^(\d*),(\d*)$`: the two groups are digit strings around the comma, and the value is exactly those (a final line break is allowed by `$`) |
| Runtime.RowsMatchComplete | source/__main__.py:70 | every such value is matched, with those two groups |
| Runtime.NormaliseRowsOrdered | source/__main__.py:76-82 | the normalised range keeps the upper bound and never starts after it: a lower bound above it is lowered to it |
| Runtime.RowsStayOrdered | source/__main__.py:69-84 | whatever `rows` is given, the range never starts after its upper bound; it changes only when the value is accepted, and no other option changes |
| Runtime.RowsFromText | source/__main__.py:69-82 | a well-formed value sets the normalised range read from its two sides (an empty side counts 0) |
| Runtime.RowsWithoutUpperBound | source/__main__.py:76-82 | "5," sets the range (0, 0), which selects every row, because the upper bound 0 is below the lower bound 5 |
| Runtime.CountOptionsPositive | source/__main__.py:85-111 | `SetOptionSpec` with `CountValue`: `delay`, `request-limit` and `limit-interval` are set exactly when the value starts with a digit, reads as an integer and is positive; otherwise nothing changes |
| Runtime.CountOptionFromDecimal | source/__main__.py:85-93 | the decimal text of a number is accepted exactly when the number is positive |
| Runtime.PolicyOption | source/__main__.py:112-116 | `search-policy` accepts exactly "strict", "name" and "keywords", as 1, 2 and 3; any other value is reported invalid and changes nothing |
| Runtime.UnknownOptionIgnored | source/__main__.py:63-124 | an empty or unknown option changes nothing |
| Runtime.RuntimeOptions.constructor | source/__main__.py:49-58 | the defaults: no help, rows (0, 0), delay 10, limit 60 per 3600 seconds, strict policy, no delimiters and no target |
| Runtime.RuntimeOptions.SetOption | source/__main__.py:60-127 | the fields and the outcome are those of `set_option` as a function of the old fields |
| Runtime.RuntimeOptions.ResetUnknownPolicy | source/__main__.py:196-204 | an unknown search policy becomes the strict one; nothing else changes |
| Runtime.InRangeIsOneBased | source/__main__.py:266-271 | the range counts rows from 1, includes both bounds, and an upper bound of 0 means no upper bound |
| Runtime.SelectRecords | source/__main__.py:266-274 | the records searched for are exactly the decoded ones inside the range, in increasing order |
| Runtime.CourtParameter | source/__main__.py:293-305 | as intended: the found court's identifier, else the closest court's, else no court; it fails only when the closest-name lookup raises |
| Runtime.CourtParameterAsWrittenRaises | source/__main__.py:296-305 | as written, the court parameter differs from the intended one exactly when no court is found and there is no closest one; it then raises AttributeError |
| Runtime.ResolveCourtAsWritten | source/__main__.py:293-305 | as written: no name gives no court; an exact name gives its court's identifier; otherwise the closest-name scan raises at a None key before any stop, a key with the name in parentheses gives its court's identifier, and with no stop the court of the first highest positive ratio is taken, with AttributeError when no ratio is positive (an empty list included) |
| Runtime.ResolveCourt | source/__main__.py:293-305 | as intended: the same cases, except that when no ratio is positive (an empty list included) the court stays unset; it fails only where the scan meets a None key first |
| Runtime.PolicyParameters | source/__main__.py:313-344 | the parameters a policy searches with: strict keeps them all; name and keywords drop register type, identifier and court; keywords also matches all keywords; the keywords and the deleted option are kept |
| Runtime.DecideExact | source/__main__.py:346-360 | `Decide`: after the escalation, the record proceeds exactly on one result, has no result exactly on an empty one, too many on more than one, and fails when the request failed |
| Runtime.Escalate | source/__main__.py:310-358 | the searches from the starting policy: one request per policy from it up to the final one, each with that policy's parameters; every request but the last had an empty result; the escalation stops before keywords only on a result that is not empty; the decision is taken on the last result; an unknown policy makes no request and fails |
| Runtime.EscalationEnds | source/__main__.py:353-360 | a record that proceeds had exactly one result |
| Runtime.ProcessRecord | source/__main__.py:286-360 | one record: the resolved court is returned; it is None without a court name, the exact court's identifier for a known name, the tagged court's identifier at the first stop of the closest-name scan, and otherwise the best-ratio court's identifier or None; the first request searches the record's name (and, under the strict policy, its type, identifier and the resolved court; the other policies send no court); requests escalate only on empty results; the record proceeds exactly when the last request had one result; the record fails exactly where the scan meets a None key before any stop |
| Files.RowIdWords | source/file.py:69 | `\w{0,2}\s*$` after the digits, greedy: a reported split uses the most word characters that work; None means no count works |
| Files.RowIdSpace | source/file.py:69 | ` ?` after the digits: the space is tried before its absence; a reported split is the first that works; None means none works |
| Files.RowIdDigits | source/file.py:69 | `\d+`, greedy: a reported split uses the most digits that work, then the first space and word choice; None means none works |
| Files.FirstDigit | source/file.py:69 | `^\D*` ends at the first digit, or at the end |
| Files.RowIdMatch | source/file.py:69 | the identifier pattern's match: a reported match is valid, starts at the first digit and comes first in backtracking order; there is none exactly when no split matches |
| Files.RowRegistryId | source/file.py:69-77 | there is an identifier exactly when the pattern matches, and it is the group of the match Python reports |
| Files.RowRegistryIdExample | source/file.py:69-77 | "HRB 12345 B " yields the identifier "12345 B" |
| Files.ExampleDigits | source/file.py:69 | in "HRB 12345 B " the digits start at 4 and run for 5 characters |
| Files.ExampleWords | source/file.py:69 | after "12345 " one word character, "B", is taken |
| Files.DecodeRow | source/file.py:58-78 | a row of fewer than six fields gives None; otherwise the name is column 0, the court column 5, the type column 3 when it is a known registry type (None otherwise), and the identifier comes from column 2 |
| Files.DecodeRows | source/file.py:58-78 | one record per row |
| Files.DecodeRowsAt | source/file.py:58-78 | the record at each position is the decoded row at that position |
| Files.SearchInputDataFileReader.constructor | source/file.py:39-49 | the reader holds the rows the CSV reader would deliver, and whether a header is expected |
| Files.SearchInputDataFileReader.Next | source/file.py:58-78 | the header row is skipped once, before the first record; the next row is decoded; the end of the rows stops the iteration |
| Files.SearchInputDataFileReader.ReadAll | source/file.py:55-78 | iterating to the end yields one record per data row, in order, and consumes every row |
| Files.EntityRowMatchesHeader | source/file.py:108-121 | the entity row lines up with its header: each cell is the field its column names |
| Files.DateRows | source/file.py:145-149 | one row per date |
| Files.DateRowsAt | source/file.py:147-148 | each row is the entity's name, type, identifier and court, then the date |
| Files.BalanceRowsOnePerDate | source/file.py:144-149 | the balance file gets one row per balance date, in order, and nothing for a missing or empty list |
| Files.ListRows | source/file.py:179-181 | one row per extracted date |
| Files.ListRowsAt | source/file.py:179-181 | each row is the identity cells, the structure, the list index and the date (blank for None) |
| Files.ShareholderRowsIndexed | source/file.py:173-181 | the shareholder file gets one row per date, with list index 0, 1, 2, … in order |
| Files.LegalEntityInformationFileWriter.constructor | source/file.py:105-112 | the file starts with the header row |
| Files.LegalEntityInformationFileWriter.Write | source/file.py:117-122 | one entity row is appended |
| Files.LegalEntityBalanceDatesFileWriter.constructor | source/file.py:134-139 | the file starts with its header row |
| Files.LegalEntityBalanceDatesFileWriter.Write | source/file.py:144-149 | the balance rows of the entity are appended |
| Files.ShareHolderListsFileWriter.constructor | source/file.py:162-168 | the file starts with its header row |
| Files.ShareHolderListsFileWriter.Write | source/file.py:173-181 | the rows of the lists are appended; nothing for None |
| Text.DecimalValue | source/__main__.py:87 | `int()` reads the decimal text of a number back as that number |
| Text.StripNoWhitespace | source/documents.py:147 | `strip()` leaves text without surrounding whitespace as it is |
| Text.Strip | source/documents.py:147 | `str.strip()`: the result is the text after the longest leading whitespace run with only whitespace after it, and it neither starts nor ends with whitespace |
| Text.ParseIntText | comreg/search.py:84 | `ParseInt` (`int()`) reads the text of an integer, sign included, back as that integer |

## Left out

- Network I/O: the portal requests, the fetchers that wrap them and `Session.initialize` (which
  reads the session identifier from a response). The model takes each response's HTML as input.
- The HTML tokenizer of Python's `HTMLParser`. The parsers receive the token sequence (start
  tags with attributes, text, end tags). Each text run arrives in a single `handle_data` call.
- The text of `source/search.py`, which builds the portal's search form. `source/search.py` is
  not part of this model. The search is a function from the search parameters to the number
  of results (None when the request fails).
- Floating point: amounts are integers in hundredths, and clock values are `real`.
- Character classes are ASCII: `\d` is 0-9, `\w` is letters, digits and `_`, and `[A-Z]` is
  A-Z. Whitespace (`\s`, `str.strip`) is a fixed set of ASCII and Unicode space characters.
- `int()` accepts underscores between digits and non-ASCII digits. The model's `ParseInt`
  rejects both.
- The similarity ratio of `difflib.SequenceMatcher` used by the closest-court lookup is a
  parameter of the model.
- At comreg/court.py:87 the court name is pasted into a regular expression unescaped. The
  model reads it as a literal "(name)" inside the court's name; a name holding a regex
  metacharacter can behave differently in the source.
- comreg/search.py keeps an `address_index` that nothing reads, and its private address and
  city setters are never called. They are not modelled.
- The command-line parsing of `sys.argv`, logging, the help text and the count of successful
  searches.
- Opening and closing files (the context managers). The reader is given the rows the CSV module
  would deliver. The writers record the rows they would write, as cell values.
- At source/__main__.py:378 the entity writer is called with two arguments, but its `write`
  takes one, so that call raises TypeError as written. The model writes the entity row once
  with the one-argument `write`.
- The `search` parameter dictionary of the older comreg client can alias between requests.
  The model builds a fresh parameter value for each request.
- EntityFields.RegistryMatch: priority (the match Python reports) is proved only for the
  leading whitespace and the court group. The inner groups are proved sound and complete only,
  so `RegistryFields` is proved to give the fields of a match with Python's lead and court, not
  always the identifier Python's backtracking picks among such matches.
- EntityFields.RegistryFields: for the same reason, the identifier it returns is that of a match
  with Python's lead and court, not proved to be Python's choice for group 3.
- Entity.RegistryLine: the identifier it stores in the record is the one `RegistryFields`
  returns, so it too is a match's identifier with Python's lead and court, not proved to be
  Python's group 3.
- Runtime.RowsWithoutUpperBound: a `rows` value such as "5," is modelled as written. It becomes
  the range (0, 0), which selects every row, not rows from 5 on.
- Service.Clock: `time.time()` and `time.sleep()` are an explicit clock object. The real clock
  also moves while requests run, and the model does not capture that.

## Findings

| source | as written | input that shows it | evidently intended | confidence | as-written member | corrected member |
|---|---|---|---|---|---|---|
| source/__main__.py:293-305 | when the court name is not in the list and there is no closest court, the warning is logged and then `court.identifier` is read on `None`, which raises AttributeError | a record whose court name is not in a non-empty court list, where no key is None or contains the name in parentheses and every similarity ratio is 0 (for instance names sharing no character with it), so the closest-court lookup returns None | after the warning, search without a court | not executed | Runtime.ResolveCourtAsWritten | Runtime.ResolveCourt |
