/** The orchestration rules of the command-line program (source/__main__.py): the runtime options
    and their validation, the row-range filter, the registry-court resolution and the search-policy
    escalation of the record loop.  The search request is an oracle from search parameters to the
    number of results, None standing for a failed request. */
module Runtime {
  import opened Wrappers
  import opened Text
  import Courts
  import Files

  // ---------------------------------------------------------------------------------------------
  // RuntimeOptions

  const PolicyStrict := 1
  const PolicyName := 2
  const PolicyKeywords := 3

  /** The values the `search-policy` option accepts. */
  const PolicyValues: map<string, int> := map["strict" := PolicyStrict, "name" := PolicyName, "keywords" := PolicyKeywords]

  datatype Options = Options(
    help: bool, rows: (nat, nat), delay: int, requestLimit: int, limitInterval: int, searchPolicy: int,
    sourceDelimiter: Option<string>, targetPath: Option<string>, targetDelimiter: Option<string>)

  /** The options before any argument is read. */
  const DefaultOptions := Options(false, (0, 0), 10, 60, 3600, PolicyStrict, None, None, None)

  /** What `set_option` did: set a field, rejected the value (reported as invalid, nothing changes),
      ignored the option, or raised. */
  datatype OptionOutcome = Applied | Invalid | Ignored | Raised(error: string)

  /** The position of the first comma from `i` on, or the end. */
  function FirstComma(s: string, i: nat): (c: nat)
    requires i <= |s|
    ensures i <= c <= |s| && (forall k | i <= k < c :: s[k] != ',') && (c == |s| || s[c] == ',')
    decreases |s| - i
  {
    if i == |s| || s[i] == ',' then i else FirstComma(s, i + 1)
  }

  /** `re.match(r"^(\d*),(\d*)$", raw)`: the two groups.  `$` also matches before a final line
      break. */
  function RowsMatch(raw: string): (r: Option<(string, string)>)
    ensures r.Some? ==> AllDigits(r.value.0) && AllDigits(r.value.1)
                        && (raw == r.value.0 + "," + r.value.1 || raw == r.value.0 + "," + r.value.1 + "\n")
  {
    var c := FirstComma(raw, 0);
    if c == |raw| || !AllDigits(raw[..c]) then None
    else
      var rest := raw[c + 1..];
      if AllDigits(rest) then
        assert raw == raw[..c] + "," + rest;
        Some((raw[..c], rest))
      else if |rest| >= 1 && rest[|rest| - 1] == '\n' && AllDigits(rest[..|rest| - 1]) then
        assert raw == raw[..c] + "," + rest[..|rest| - 1] + "\n";
        Some((raw[..c], rest[..|rest| - 1]))
      else None
  }

  /** The pattern matches every digits-comma-digits text, optionally followed by a line break, and
      reads the two digit strings back. */
  lemma RowsMatchComplete(raw: string, lower: string, upper: string)
    requires AllDigits(lower) && AllDigits(upper)
    requires raw == lower + "," + upper || raw == lower + "," + upper + "\n"
    ensures RowsMatch(raw) == Some((lower, upper))
  {
    var c := FirstComma(raw, 0);
    assert raw[|lower|] == ',';
    assert forall k | 0 <= k < |lower| :: raw[k] == lower[k] && IsDigit(raw[k]);
    assert c == |lower|;
    assert raw[..c] == lower;
    var rest := raw[c + 1..];
    if raw == lower + "," + upper {
      assert rest == upper;
    } else {
      assert rest == upper + "\n";
      assert !AllDigits(rest) by { assert !IsDigit(rest[|rest| - 1]); }
      assert rest[..|rest| - 1] == upper;
    }
  }

  /** `int(group) if group else 0`. */
  function GroupValue(g: string): nat
    requires AllDigits(g)
  {
    if g == [] then 0 else DigitsValue(g)
  }

  /** The row range after `if lower >= 0 and 0 <= upper < lower: lower = upper`. */
  function NormaliseRows(lower: nat, upper: nat): (r: (nat, nat))
  {
    if lower >= 0 && 0 <= upper < lower then (upper, upper) else (lower, upper)
  }

  /** The normalised range keeps the upper bound and never starts after it. */
  lemma NormaliseRowsOrdered(lower: nat, upper: nat)
    ensures NormaliseRows(lower, upper).0 <= NormaliseRows(lower, upper).1 == upper
    ensures NormaliseRows(lower, upper).0 == if lower <= upper then lower else upper
  {
  }

  /** The options that take a positive integer. */
  predicate IsCountOption(option: string)
  {
    option == "delay" || option == "request-limit" || option == "limit-interval"
  }

  /** The options `set_option` knows. */
  predicate IsKnownOption(option: string)
  {
    option == "help" || option == "rows" || IsCountOption(option) || option == "search-policy"
    || option == "source-delimiter" || option == "target" || option == "target-delimiter"
  }

  /** The value of a count option: rejected unless it starts with a digit (`re.match(r"\d+")`), then
      read by int(), which raises on trailing garbage, and accepted only when positive. */
  function CountValue(raw: Option<string>): Result<Option<int>>
  {
    if raw.None? then Failure("TypeError")
    else if |raw.value| == 0 || !IsDigit(raw.value[0]) then Success(None)
    else match ParseInt(raw.value)
      case None => Failure("ValueError")
      case Some(v) => Success(if v > 0 then Some(v) else None)
  }

  /** `set_option(option, raw_value)` as a function of the options before the call. */
  function SetOptionSpec(o: Options, option: string, raw: Option<string>): (Options, OptionOutcome)
  {
    if option == "" then (o, Ignored)
    else if option == "help" then (o.(help := true), Applied)
    else if option == "rows" then
      if raw.None? then (o, Raised("TypeError"))
      else match RowsMatch(raw.value)
        case None => (o, Invalid)
        case Some((g1, g2)) => (o.(rows := NormaliseRows(GroupValue(g1), GroupValue(g2))), Applied)
    else if IsCountOption(option) then
      match CountValue(raw)
      case Failure(e) => (o, Raised(e))
      case Success(None) => (o, Invalid)
      case Success(Some(v)) =>
        if option == "delay" then (o.(delay := v), Applied)
        else if option == "request-limit" then (o.(requestLimit := v), Applied)
        else (o.(limitInterval := v), Applied)
    else if option == "search-policy" then
      if raw.Some? && raw.value in PolicyValues then (o.(searchPolicy := PolicyValues[raw.value]), Applied)
      else (o, Invalid)
    else if option == "source-delimiter" then (o.(sourceDelimiter := raw), Applied)
    else if option == "target" then (o.(targetPath := raw), Applied)
    else if option == "target-delimiter" then (o.(targetDelimiter := raw), Applied)
    else (o, Ignored)
  }

  /** Whatever `rows` is given, the range never starts after its upper bound; it changes only when
      the value is well formed. */
  lemma RowsStayOrdered(o: Options, raw: Option<string>)
    requires o.rows.0 <= o.rows.1
    ensures var (p, out) := SetOptionSpec(o, "rows", raw);
      p.rows.0 <= p.rows.1 && (out != Applied ==> p == o) && p == o.(rows := p.rows)
  {
    if raw.Some? && RowsMatch(raw.value).Some? {
      var (g1, g2) := RowsMatch(raw.value).value;
      NormaliseRowsOrdered(GroupValue(g1), GroupValue(g2));
    }
  }

  /** A well-formed `rows` value sets the normalised range read from its two sides. */
  lemma RowsFromText(o: Options, lower: string, upper: string)
    requires AllDigits(lower) && AllDigits(upper)
    ensures SetOptionSpec(o, "rows", Some(lower + "," + upper))
            == (o.(rows := NormaliseRows(GroupValue(lower), GroupValue(upper))), Applied)
  {
    RowsMatchComplete(lower + "," + upper, lower, upper);
  }

  /** A missing upper bound means "to the last row", and the normalisation then also drops the
      lower bound: "5," reads every row. */
  lemma RowsWithoutUpperBound(o: Options)
    ensures SetOptionSpec(o, "rows", Some("5,")).0.rows == (0, 0)
  {
    RowsMatchComplete("5,", "5", "");
    assert DigitsValue("5") == 5;
  }

  /** A count option is set only to a positive value, and only when int() reads its text; every
      other value leaves all options unchanged. */
  lemma CountOptionsPositive(o: Options, option: string, raw: Option<string>)
    requires IsCountOption(option)
    ensures var (p, out) := SetOptionSpec(o, option, raw);
      (out == Applied <==> raw.Some? && |raw.value| >= 1 && IsDigit(raw.value[0])
                           && ParseInt(raw.value).Some? && ParseInt(raw.value).value > 0)
      && (out != Applied ==> p == o)
      && (out == Applied ==> p == (if option == "delay" then o.(delay := ParseInt(raw.value).value)
                                   else if option == "request-limit" then o.(requestLimit := ParseInt(raw.value).value)
                                   else o.(limitInterval := ParseInt(raw.value).value)))
  {
  }

  /** The decimal text of a number is accepted exactly when the number is positive. */
  lemma CountOptionFromDecimal(o: Options, n: nat)
    ensures SetOptionSpec(o, "delay", Some(Decimal(n))) == if n > 0 then (o.(delay := n), Applied) else (o, Invalid)
  {
    ParseIntText(n);
    assert IntText(n) == Decimal(n);
    assert IsDigit(Decimal(n)[0]);
  }

  /** `search-policy` takes exactly "strict", "name" and "keywords", as 1, 2 and 3. */
  lemma PolicyOption(o: Options, raw: Option<string>)
    ensures var (p, out) := SetOptionSpec(o, "search-policy", raw);
      (out == Applied <==> raw == Some("strict") || raw == Some("name") || raw == Some("keywords"))
      && (out == Applied ==> p == o.(searchPolicy := if raw == Some("strict") then 1 else if raw == Some("name") then 2 else 3))
      && (out != Applied ==> p == o && out == Invalid)
  {
  }

  /** An empty or unknown option changes nothing. */
  lemma UnknownOptionIgnored(o: Options, option: string, raw: Option<string>)
    requires !IsKnownOption(option)
    ensures SetOptionSpec(o, option, raw) == (o, Ignored)
  {
  }

  class RuntimeOptions {
    var help: bool
    var rows: (nat, nat)
    var delay: int
    var requestLimit: int
    var limitInterval: int
    var searchPolicy: int
    var sourceDelimiter: Option<string>
    var targetPath: Option<string>
    var targetDelimiter: Option<string>

    function Snapshot(): Options
      reads this
    {
      Options(help, rows, delay, requestLimit, limitInterval, searchPolicy, sourceDelimiter, targetPath, targetDelimiter)
    }

    constructor ()
      ensures Snapshot() == DefaultOptions
    {
      help, rows, delay, requestLimit, limitInterval := false, (0, 0), 10, 60, 60 * 60;
      searchPolicy := PolicyStrict;
      sourceDelimiter, targetPath, targetDelimiter := None, None, None;
    }

    method SetOption(option: string, raw: Option<string>) returns (out: OptionOutcome)
      modifies this
      ensures (Snapshot(), out) == SetOptionSpec(old(Snapshot()), option, raw)
    {
      if option == "" {
        return Ignored;
      }
      if option == "help" {
        help := true;
      } else if option == "rows" {
        if raw.None? {
          return Raised("TypeError");
        }
        match RowsMatch(raw.value)
        case None =>
          return Invalid;
        case Some((g1, g2)) =>
          var lower := GroupValue(g1);
          var upper := GroupValue(g2);
          if lower >= 0 && 0 <= upper < lower {
            lower := upper;
          }
          rows := (lower, upper);
      } else if IsCountOption(option) {
        if raw.None? {
          return Raised("TypeError");
        }
        var value := raw.value;
        if |value| >= 1 && IsDigit(value[0]) {
          var parsed := ParseInt(value);
          if parsed.None? {
            return Raised("ValueError");
          }
          if parsed.value > 0 {
            if option == "delay" {
              delay := parsed.value;
            } else if option == "request-limit" {
              requestLimit := parsed.value;
            } else {
              limitInterval := parsed.value;
            }
            return Applied;
          }
        }
        return Invalid;
      } else if option == "search-policy" {
        if raw.Some? && raw.value in PolicyValues {
          searchPolicy := PolicyValues[raw.value];
        } else {
          return Invalid;
        }
      } else if option == "source-delimiter" {
        sourceDelimiter := raw;
      } else if option == "target" {
        targetPath := raw;
      } else if option == "target-delimiter" {
        targetDelimiter := raw;
      } else {
        return Ignored;
      }
      return Applied;
    }

    /** An unknown search policy falls back to the strict one before the record loop. */
    method ResetUnknownPolicy()
      modifies this
      ensures Snapshot() == old(Snapshot()).(searchPolicy := if old(searchPolicy) in {1, 2, 3} then old(searchPolicy) else PolicyStrict)
    {
      if searchPolicy != PolicyStrict && searchPolicy != PolicyName && searchPolicy != PolicyKeywords {
        searchPolicy := PolicyStrict;
      }
    }
  }

  // ---------------------------------------------------------------------------------------------
  // The row filter of the record loop

  /** The zero-based row index `i` is inside the range: `i < rows[0] - 1` is skipped, and the loop
      stops at the first `i` with `0 < rows[1] <= i`. */
  predicate InRange(rows: (nat, nat), i: nat)
  {
    !(i < rows.0 - 1) && !(0 < rows.1 <= i)
  }

  /** The range counts rows from 1, includes both bounds, and an upper bound of 0 means no bound. */
  lemma InRangeIsOneBased(rows: (nat, nat), i: nat)
    ensures InRange(rows, i) <==> rows.0 <= i + 1 && (rows.1 == 0 || i + 1 <= rows.1)
  {
  }

  /** The indices of the records the loop goes on to search for, in order: inside the range and
      decoded (a short row is None and skipped). */
  method SelectRecords(rows: (nat, nat), records: seq<Option<Files.SearchInputRecord>>) returns (selected: seq<nat>)
    ensures forall i: nat :: i in selected <==> i < |records| && InRange(rows, i) && records[i].Some?
    ensures forall j, k | 0 <= j < k < |selected| :: selected[j] < selected[k]
  {
    selected := [];
    for i := 0 to |records|
      invariant forall k: nat :: k in selected <==> k < i && InRange(rows, k) && records[k].Some?
      invariant forall j, k | 0 <= j < k < |selected| :: selected[j] < selected[k] < i
      invariant forall j | 0 <= j < |selected| :: selected[j] < i
    {
      if i < rows.0 - 1 {
        continue;
      } else if 0 < rows.1 <= i {
        assert forall k: nat | i <= k :: !InRange(rows, k);
        break;
      }
      if records[i].None? {
        continue;
      }
      selected := selected + [i];
    }
  }

  // ---------------------------------------------------------------------------------------------
  // The search parameters and the registry court (source/search.py is not part of this model)

  datatype KeywordsOption = EqualName | AllKeywords

  datatype SearchParameters = SearchParameters(
    keywords: Option<string>, registryType: Option<string>, registryId: Option<string>,
    registryCourt: Option<string>, searchOptionDeleted: bool, keywordsOption: KeywordsOption)

  /** The parameters the loop starts a record with: its name as keywords, its type and identifier,
      deleted entities included, names matched exactly. */
  function RecordParameters(record: Files.SearchInputRecord): SearchParameters
  {
    SearchParameters(Some(record.name), record.registryType, record.registryId, None, true, EqualName)
  }

  /** The registry court the loop sets, as written: the court found by name, else the closest
      court, whose identifier is then read even when there is none (an AttributeError on None).
      `closest` is the outcome of `get_closest_from_name`. */
  function CourtParameterAsWritten(found: Option<Courts.Court>, closest: Result<Option<Courts.Court>>): Result<Option<string>>
  {
    if found.Some? then Success(found.value.identifier)
    else match closest
      case Failure(e) => Failure(e)
      case Success(None) => Failure("AttributeError")
      case Success(Some(c)) => Success(c.identifier)
  }

  /** The registry court as intended: when no court is found the warning is logged and the search
      goes on without a court. */
  function CourtParameter(found: Option<Courts.Court>, closest: Result<Option<Courts.Court>>): (r: Result<Option<string>>)
    ensures r.Failure? <==> found.None? && closest.Failure?
    ensures found.Some? ==> r == Success(found.value.identifier)
    ensures found.None? && closest.Success? ==> r == Success(if closest.value.Some? then closest.value.value.identifier else None)
  {
    if found.Some? then Success(found.value.identifier)
    else match closest
      case Failure(e) => Failure(e)
      case Success(None) => Success(None)
      case Success(Some(c)) => Success(c.identifier)
  }

  /** The two agree except where no court is found, where the code as written raises. */
  lemma CourtParameterAsWrittenRaises(found: Option<Courts.Court>, closest: Result<Option<Courts.Court>>)
    ensures CourtParameterAsWritten(found, closest) != CourtParameter(found, closest)
            <==> found.None? && closest == Success(None)
    ensures found.None? && closest == Success(None) ==> CourtParameterAsWritten(found, closest) == Failure("AttributeError")
  {
  }

  /** Lines 293-305 as written: a name that is not in the list goes to `get_closest_from_name`;
      its scan stops at the first court whose name holds "(name)" (or raises at a court without a
      name), and otherwise the best ratio decides; when no ratio is positive `court` is None and
      reading its identifier raises. */
  method ResolveCourtAsWritten(l: Courts.CourtList, name: Option<string>, ratio: (string, string) -> real)
    returns (r: Result<Option<string>>)
    requires Courts.WellFormed(l.nameMap)
    ensures name.None? ==> r == Success(None)
    ensures name.Some? && Courts.GetFromName(l, name).Some? ==> r == Success(Courts.GetFromName(l, name).value.identifier)
    ensures name.Some? && Courts.GetFromName(l, name).None? ==>
      forall j | 0 <= j < |l.nameMap.keys| && Courts.NoStopBefore(l.nameMap.keys, j, name.value) && l.nameMap.keys[j].None? ::
        r.Failure?
    ensures name.Some? && Courts.GetFromName(l, name).None? ==>
      forall j | 0 <= j < |l.nameMap.keys| && Courts.NoStopBefore(l.nameMap.keys, j, name.value)
                 && Courts.Stops(l.nameMap.keys[j], name.value) && l.nameMap.keys[j].Some? ::
        r == Success(l.nameMap.values[l.nameMap.keys[j]].identifier)
    ensures name.Some? && Courts.GetFromName(l, name).None? && Courts.NoStopBefore(l.nameMap.keys, |l.nameMap.keys|, name.value) ==>
      exists best: Option<Courts.Court> {:trigger Courts.BestRatio(l.nameMap, name.value, ratio, best)} :: Courts.BestRatio(l.nameMap, name.value, ratio, best)
        && r == (if best.Some? then Success(best.value.identifier) else Failure("AttributeError"))
    ensures name.Some? && l.nameMap.keys == [] ==> r == Failure("AttributeError")
  {
    if name.None? {
      return Success(None);
    }
    var found := Courts.GetFromName(l, name);
    if found.Some? {
      return Success(found.value.identifier);
    }
    var closest := Courts.GetClosestFromName(l, name, ratio);
    r := CourtParameterAsWritten(found, closest);
  }

  /** The registry court the search starts with: None without a court name, the identifier of the
      court found by name or else of the closest court, and None (after the warning) when there is
      no closest court. */
  method ResolveCourt(l: Courts.CourtList, name: Option<string>, ratio: (string, string) -> real)
    returns (r: Result<Option<string>>)
    requires Courts.WellFormed(l.nameMap)
    ensures name.None? ==> r == Success(None)
    ensures name.Some? && Courts.GetFromName(l, name).Some? ==> r == Success(Courts.GetFromName(l, name).value.identifier)
    ensures name.Some? && Courts.GetFromName(l, name).None? ==>
      forall j | 0 <= j < |l.nameMap.keys| && Courts.NoStopBefore(l.nameMap.keys, j, name.value) && l.nameMap.keys[j].None? ::
        r.Failure?
    ensures name.Some? && Courts.GetFromName(l, name).None? ==>
      forall j | 0 <= j < |l.nameMap.keys| && Courts.NoStopBefore(l.nameMap.keys, j, name.value)
                 && Courts.Stops(l.nameMap.keys[j], name.value) && l.nameMap.keys[j].Some? ::
        r == Success(l.nameMap.values[l.nameMap.keys[j]].identifier)
    ensures name.Some? && Courts.GetFromName(l, name).None? && Courts.NoStopBefore(l.nameMap.keys, |l.nameMap.keys|, name.value) ==>
      exists best: Option<Courts.Court> {:trigger Courts.BestRatio(l.nameMap, name.value, ratio, best)} :: Courts.BestRatio(l.nameMap, name.value, ratio, best)
        && r == Success(if best.Some? then best.value.identifier else None)
    ensures name.Some? && l.nameMap.keys == [] ==> r == Success(None)
    ensures r.Failure? ==> (
      && name.Some? && Courts.GetFromName(l, name).None?
      && exists j | 0 <= j < |l.nameMap.keys| :: Courts.NoStopBefore(l.nameMap.keys, j, name.value) && l.nameMap.keys[j].None?)
  {
    if name.None? {
      return Success(None);
    }
    var found := Courts.GetFromName(l, name);
    if found.Some? {
      return Success(found.value.identifier);
    }
    var closest := Courts.GetClosestFromName(l, name, ratio);
    r := CourtParameter(found, closest);
  }

  // ---------------------------------------------------------------------------------------------
  // The search-policy escalation

  /** The parameters a policy searches with: strict keeps them; name and keywords drop the registry
      type, identifier and court; keywords also matches all keywords instead of the exact name. */
  function PolicyParameters(policy: int, p: SearchParameters): (r: SearchParameters)
    ensures policy == PolicyStrict ==> r == p
    ensures policy != PolicyStrict ==> r.registryType.None? && r.registryId.None? && r.registryCourt.None?
    ensures r.keywords == p.keywords && r.searchOptionDeleted == p.searchOptionDeleted
    ensures r.keywordsOption == if policy == PolicyKeywords then AllKeywords else p.keywordsOption
  {
    if policy == PolicyStrict then p
    else
      var cleared := p.(registryType := None, registryId := None, registryCourt := None);
      if policy == PolicyKeywords then cleared.(keywordsOption := AllKeywords) else cleared
  }

  /** What the loop does with a record after the searches. */
  datatype Decision =
    | NoResult    // the keywords search found nothing
    | Failed      // the last request failed
    | TooMany     // more than one result
    | Proceed     // exactly one result: its information is fetched

  /** The decision on the last search result, at the final policy. */
  function Decide(policy: int, result: Option<nat>): (d: Decision)
  {
    if policy == PolicyKeywords && result == Some(0) then NoResult
    else if result.None? then Failed
    else if result.value > 1 then TooMany
    else if result.value == 0 then Failed
    else Proceed
  }

  /** A record goes on to be fetched exactly when the last search had exactly one result; an empty
      result after the keywords search is reported as no result. */
  lemma DecideExact(policy: int, result: Option<nat>)
    requires policy == PolicyKeywords || result != Some(0)
    ensures Decide(policy, result) == Proceed <==> result == Some(1)
    ensures Decide(policy, result) == NoResult <==> result == Some(0)
    ensures Decide(policy, result) == TooMany <==> result.Some? && result.value > 1
    ensures Decide(policy, result) == Failed <==> result.None?
  {
  }

  /** Lines 313-358: the searches made from the starting policy, each moving on to the next policy
      only on an empty (not failed) result, and the decision on the last one. */
  method Escalate(policy: int, params: SearchParameters, search: SearchParameters -> Option<nat>)
    returns (finalPolicy: int, requests: seq<SearchParameters>, result: Option<nat>, decision: Decision)
    ensures policy !in {1, 2, 3} ==> requests == [] && result.None? && decision == Failed && finalPolicy == policy
    ensures policy in {1, 2, 3} ==> policy <= finalPolicy <= PolicyKeywords && |requests| == finalPolicy - policy + 1
    ensures forall k | 0 <= k < |requests| :: requests[k] == PolicyParameters(policy + k, params)
    ensures forall k | 0 <= k < |requests| - 1 :: search(requests[k]) == Some(0)
    ensures requests != [] ==> result == search(requests[|requests| - 1])
    ensures finalPolicy != PolicyKeywords ==> result != Some(0)
    ensures decision == Decide(finalPolicy, result)
  {
    finalPolicy := policy;
    var p := params;
    requests := [];
    result := None;
    if finalPolicy == PolicyStrict {
      requests := requests + [p];
      result := search(p);
      if result == Some(0) {
        finalPolicy := PolicyName;
      }
    }
    if finalPolicy == PolicyName {
      p := p.(registryType := None, registryId := None, registryCourt := None);
      requests := requests + [p];
      result := search(p);
      if result == Some(0) {
        finalPolicy := PolicyKeywords;
      }
    }
    if finalPolicy == PolicyKeywords {
      p := p.(registryType := None, registryId := None, registryCourt := None);
      p := p.(keywordsOption := AllKeywords);
      requests := requests + [p];
      result := search(p);
      if result == Some(0) {
        return finalPolicy, requests, result, NoResult;
      }
    }
    decision := Decide(finalPolicy, result);
  }

  /** A record that proceeds, from any starting policy, had exactly one result. */
  lemma EscalationEnds(policy: int, result: Option<nat>)
    requires policy in {1, 2, 3}
    ensures Decide(policy, result) == Proceed ==> result == Some(1)
  {
  }

  /** One record from its decoded fields to the decision: the court resolved as intended, then the
      escalation from the run's policy.  The result carries the resolved court, which the strict
      request sends.  A court lookup that raises ends the run. */
  method ProcessRecord(record: Files.SearchInputRecord, policy: int, l: Courts.CourtList, ratio: (string, string) -> real,
                       search: SearchParameters -> Option<nat>)
    returns (r: Result<(Option<string>, int, seq<SearchParameters>, Decision)>)
    requires Courts.WellFormed(l.nameMap) && policy in {1, 2, 3}
    ensures r.Success? ==> var (court, finalPolicy, requests, decision) := r.value;
      policy <= finalPolicy <= PolicyKeywords && |requests| == finalPolicy - policy + 1
      && requests[0].keywords == Some(record.name) && requests[0].keywordsOption == (if policy == PolicyKeywords then AllKeywords else EqualName)
      && (policy == PolicyStrict ==> requests[0].registryType == record.registryType && requests[0].registryId == record.registryId)
      && requests[0].registryCourt == (if policy == PolicyStrict then court else None)
      && (forall k | 0 <= k < |requests| - 1 :: search(requests[k]) == Some(0))
      && (decision == Proceed <==> search(requests[|requests| - 1]) == Some(1))
    ensures record.registryCourt.None? ==> r.Success? && r.value.0.None?
    ensures record.registryCourt.Some? && Courts.GetFromName(l, record.registryCourt).Some? ==>
      r.Success? && r.value.0 == Courts.GetFromName(l, record.registryCourt).value.identifier
    ensures record.registryCourt.Some? && Courts.GetFromName(l, record.registryCourt).None? ==>
      forall j | 0 <= j < |l.nameMap.keys| && Courts.NoStopBefore(l.nameMap.keys, j, record.registryCourt.value)
                 && Courts.Stops(l.nameMap.keys[j], record.registryCourt.value) ::
        if l.nameMap.keys[j].None? then r.Failure?
        else r.Success? && r.value.0 == l.nameMap.values[l.nameMap.keys[j]].identifier
    ensures record.registryCourt.Some? && Courts.GetFromName(l, record.registryCourt).None?
            && Courts.NoStopBefore(l.nameMap.keys, |l.nameMap.keys|, record.registryCourt.value) ==>
      r.Success? &&
      exists best: Option<Courts.Court> {:trigger Courts.BestRatio(l.nameMap, record.registryCourt.value, ratio, best)} ::
        Courts.BestRatio(l.nameMap, record.registryCourt.value, ratio, best)
        && r.value.0 == (if best.Some? then best.value.identifier else None)
    ensures r.Failure? ==> (
      && record.registryCourt.Some? && Courts.GetFromName(l, record.registryCourt).None?
      && exists j | 0 <= j < |l.nameMap.keys| ::
           Courts.NoStopBefore(l.nameMap.keys, j, record.registryCourt.value) && l.nameMap.keys[j].None?)
  {
    var params := RecordParameters(record);
    if record.registryCourt.Some? {
      var court := ResolveCourt(l, record.registryCourt, ratio);
      if court.Failure? {
        return Failure(court.error);
      }
      params := params.(registryCourt := court.value);
    }
    var finalPolicy, requests, result, decision := Escalate(policy, params, search);
    DecideExact(finalPolicy, result);
    return Success((params.registryCourt, finalPolicy, requests, decision));
  }
}
