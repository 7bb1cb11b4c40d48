/** The older search client (comreg/search.py): the parameter map of a search request, the scanner
    of the search-result page, and the first revision of the legal-entity detail extractor.  A
    ValueError that Python's int() raises inside a handler ends HTMLParser.feed; the handlers here
    report it as `raised`, and the feed stops there. */
module ComregSearch {
  import opened Wrappers
  import opened Text
  import opened Html
  import opened EntityFields
  import Entity

  // ---------------------------------------------------------------------------------------------
  // CRSearch: the form parameters of one search request.

  const DefaultUrl := "https://www.handelsregister.de/rp_web/search.do"

  const ButtonSearch := "btnSuche"
  const ResultsPerPage := "ergebnisseProSeite"
  const Establishment := "niederlassung"
  const RegisterType := "registerArt"
  const RegisterCourt := "registergericht"
  const RegisterId := "registerNummer"
  const KeywordsParam := "schlagwoerter"
  const KeywordOptions := "schlagwortOptionen"
  const SearchType := "suchTyp"

  /** A parameter value: Python's None, a string or an integer. */
  datatype ParamValue = NoValue | Str(s: string) | Num(n: int)

  /** The parameters of a search when the caller supplies none. */
  const DefaultParams: map<string, ParamValue> := map[
    ButtonSearch := Str("Suchen"), ResultsPerPage := Num(10), Establishment := NoValue,
    RegisterType := NoValue, RegisterCourt := NoValue, RegisterId := NoValue,
    KeywordsParam := NoValue, KeywordOptions := Num(2), SearchType := NoValue]

  /** The default map has exactly the nine form fields; ten results a page and keyword option 2
      are its only set values besides the search button. */
  lemma DefaultParamsShape()
    ensures DefaultParams.Keys == {ButtonSearch, ResultsPerPage, Establishment, RegisterType, RegisterCourt,
                                   RegisterId, KeywordsParam, KeywordOptions, SearchType}
    ensures |DefaultParams.Keys| == 9
    ensures DefaultParams[ButtonSearch] == Str("Suchen")
    ensures DefaultParams[ResultsPerPage] == Num(10) && DefaultParams[KeywordOptions] == Num(2)
    ensures DefaultParams[Establishment] == DefaultParams[RegisterType] == DefaultParams[RegisterCourt] == NoValue
    ensures DefaultParams[RegisterId] == DefaultParams[KeywordsParam] == DefaultParams[SearchType] == NoValue
  {
  }

  datatype SearchResultEntry = SearchResultEntry(index: int, name: string)

  class CRSearch {
    var session: string
    var url: string
    var params: map<string, ParamValue>
    var result: Option<seq<SearchResultEntry>>

    /** The fields of a search whose session and url are present. */
    constructor (session: string, url: string, params: Option<map<string, ParamValue>>)
      ensures this.session == session && this.url == url && result.None?
      ensures this.params == if params.Some? then params.value else DefaultParams
    {
      this.session := session;
      this.url := url;
      this.params := if params.Some? then params.value else DefaultParams;
      result := None;
    }

    /** `set_param`: overwrites one parameter and nothing else. */
    method SetParam(name: string, value: ParamValue)
      modifies this
      ensures params == old(params)[name := value]
      ensures session == old(session) && url == old(url) && result == old(result)
    {
      params := params[name := value];
    }
  }

  /** `CRSearch(session, url, params)`: ValueError for a missing session, then for a missing url. */
  method NewCRSearch(session: Option<string>, url: Option<string>, params: Option<map<string, ParamValue>>)
    returns (r: Result<CRSearch>)
    ensures r.Failure? <==> session.None? || url.None?
    ensures session.None? ==> r.Failure? && r.error == "session must not be None"
    ensures session.Some? && url.None? ==> r.Failure? && r.error == "url must not be None"
    ensures r.Success? ==> fresh(r.value) && r.value.session == session.value && r.value.url == url.value
                           && r.value.params == (if params.Some? then params.value else DefaultParams)
                           && r.value.result.None?
  {
    if session.None? {
      return Failure("session must not be None");
    }
    if url.None? {
      return Failure("url must not be None");
    }
    var s := new CRSearch(session.value, url.value, params);
    return Success(s);
  }

  /** Setting a parameter changes that one only. */
  lemma SetParamKeepsOthers(params: map<string, ParamValue>, name: string, value: ParamValue, k: string)
    requires k != name
    ensures k in params[name := value] <==> k in params
    ensures k in params ==> params[name := value][k] == params[k]
    ensures name in params[name := value] && params[name := value][name] == value
  {
  }

  // ---------------------------------------------------------------------------------------------
  // CRSearchResultParser

  const EntryPrefix := "Eintrag_"
  const NameCellClass := "RegPortErg_FirmaKopf"

  /** The parser's fields: the entries so far, the index of the current entry and the name flag. */
  datatype ResultConfig = ResultConfig(result: seq<SearchResultEntry>, index: int, nameFlag: bool)

  const InitialResult := ResultConfig([], -1, false)

  /** The configuration a handler leaves, and whether it raised. */
  datatype ResultOutcome = ResultOutcome(config: ResultConfig, raised: bool)

  /** One attribute of an `<a>`: `name="Eintrag_<n>"` makes `n` the current index; a `name`
      written without a value raises (`startswith` on None), and so does int() of a suffix that is
      not a number. */
  function AnchorAttribute(c: ResultConfig, a: Attribute): ResultOutcome
  {
    if a.name != "name" then ResultOutcome(c, false)
    else if a.value.None? then ResultOutcome(c, true)
    else if StartsWith(a.value.value, EntryPrefix) then
      match ParseInt(a.value.value[|EntryPrefix|..])
      case None => ResultOutcome(c, true)
      case Some(n) => ResultOutcome(c.(index := n), false)
    else ResultOutcome(c, false)
  }

  /** The attributes of an `<a>`, in order, until one raises. */
  function AnchorAttributes(c: ResultConfig, attrs: seq<Attribute>): ResultOutcome
  {
    if attrs == [] then ResultOutcome(c, false)
    else
      var o := AnchorAttributes(c, attrs[..|attrs| - 1]);
      if o.raised then o else AnchorAttribute(o.config, attrs[|attrs| - 1])
  }

  /** A `<td>` of the name class raises the name flag. */
  predicate NameCell(attrs: seq<Attribute>)
  {
    exists i | 0 <= i < |attrs| :: attrs[i] == Attribute("class", Some(NameCellClass))
  }

  function ResultStartTag(c: ResultConfig, tag: string, attrs: seq<Attribute>): ResultOutcome
  {
    if tag == "a" then AnchorAttributes(c, attrs)
    else if tag == "td" then ResultOutcome(if NameCell(attrs) then c.(nameFlag := true) else c, false)
    else ResultOutcome(c, false)
  }

  /** Each text chunk under a raised flag is one entry, with the current index. */
  function ResultData(c: ResultConfig, data: string): ResultConfig
  {
    if c.nameFlag then c.(result := c.result + [SearchResultEntry(c.index, data)]) else c
  }

  /** Every end tag lowers the flag. */
  function ResultEndTag(c: ResultConfig): ResultConfig
  {
    c.(nameFlag := false)
  }

  function ResultStep(c: ResultConfig, t: Token): ResultOutcome
  {
    match t
    case StartTag(tag, attrs) => ResultStartTag(c, tag, attrs)
    case Data(text) => ResultOutcome(ResultData(c, text), false)
    case EndTag(_) => ResultOutcome(ResultEndTag(c), false)
  }

  /** HTMLParser.feed: the tokens in order, up to the first one whose handler raises. */
  function ResultRun(c: ResultConfig, tokens: seq<Token>): ResultOutcome
  {
    if tokens == [] then ResultOutcome(c, false)
    else
      var o := ResultRun(c, tokens[..|tokens| - 1]);
      if o.raised then o else ResultStep(o.config, tokens[|tokens| - 1])
  }

  /** Once a handler raises, the feed ends: the later tokens are not looked at. */
  lemma {:induction false} ResultRunStopsAtRaise(c: ResultConfig, tokens: seq<Token>, k: nat)
    requires k <= |tokens| && ResultRun(c, tokens[..k]).raised
    ensures ResultRun(c, tokens) == ResultRun(c, tokens[..k])
    decreases |tokens|
  {
    if k < |tokens| {
      var front := tokens[..|tokens| - 1];
      assert front[..k] == tokens[..k];
      ResultRunStopsAtRaise(c, front, k);
    } else {
      assert tokens[..k] == tokens;
    }
  }

  /** An anchor named `Eintrag_<n>` makes `n` the current index. */
  lemma EntryAnchorSetsIndex(c: ResultConfig, n: int)
    ensures ResultStartTag(c, "a", [Attribute("name", Some(EntryPrefix + IntText(n)))]) == ResultOutcome(c.(index := n), false)
  {
    var v := EntryPrefix + IntText(n);
    assert v[..|EntryPrefix|] == EntryPrefix && v[|EntryPrefix|..] == IntText(n);
    assert StartsWith(v, EntryPrefix);
    ParseIntText(n);
    assert ParseInt(v[|EntryPrefix|..]) == Some(n);
    var attrs := [Attribute("name", Some(v))];
    assert attrs[..0] == [];
    assert AnchorAttribute(c, attrs[0]) == ResultOutcome(c.(index := n), false);
    assert AnchorAttributes(c, attrs) == AnchorAttribute(AnchorAttributes(c, attrs[..0]).config, attrs[0]);
  }

  /** A `name` written without a value raises, whatever precedes and follows it, unless an
      earlier attribute raised first; the configuration is then the one before it. */
  lemma ValuelessNameRaises(c: ResultConfig, before: seq<Attribute>, after: seq<Attribute>)
    requires !AnchorAttributes(c, before).raised
    ensures AnchorAttributes(c, before + [Attribute("name", None)] + after)
         == ResultOutcome(AnchorAttributes(c, before).config, true)
  {
    var attrs := before + [Attribute("name", None)] + after;
    var k := |before| + 1;
    assert attrs[..k][..k - 1] == before;
    assert attrs[..k][k - 1] == Attribute("name", None);
    AnchorStopsAtRaise(c, attrs, k);
  }

  /** Once an attribute raises, the later ones are not looked at. */
  lemma {:induction false} AnchorStopsAtRaise(c: ResultConfig, attrs: seq<Attribute>, k: nat)
    requires k <= |attrs| && AnchorAttributes(c, attrs[..k]).raised
    ensures AnchorAttributes(c, attrs) == AnchorAttributes(c, attrs[..k])
    decreases |attrs|
  {
    if k < |attrs| {
      var front := attrs[..|attrs| - 1];
      assert front[..k] == attrs[..k];
      AnchorStopsAtRaise(c, front, k);
    } else {
      assert attrs[..k] == attrs;
    }
  }

  /** Handlers other than the anchor's never raise, and the anchor's leaves the entries and the
      flag alone. */
  lemma {:induction false} AnchorKeepsEntries(c: ResultConfig, attrs: seq<Attribute>)
    ensures AnchorAttributes(c, attrs).config.result == c.result
    ensures AnchorAttributes(c, attrs).config.nameFlag == c.nameFlag
  {
    if attrs != [] {
      AnchorKeepsEntries(c, attrs[..|attrs| - 1]);
    }
  }

  /** A name cell raises the flag; any other `<td>` leaves it. */
  lemma NameCellRaisesFlag(c: ResultConfig, attrs: seq<Attribute>)
    ensures ResultStartTag(c, "td", attrs) == ResultOutcome(c.(nameFlag := c.nameFlag || NameCell(attrs)), false)
  {
  }

  /** A step appends at most one entry: the text of a chunk under the flag, with the current index. */
  lemma ResultStepAppends(c: ResultConfig, t: Token)
    ensures var o := ResultStep(c, t);
      if t.Data? && c.nameFlag then o == ResultOutcome(c.(result := c.result + [SearchResultEntry(c.index, t.text)]), false)
      else o.config.result == c.result
  {
    if t.StartTag? && t.tag == "a" {
      AnchorKeepsEntries(c, t.attrs);
    }
  }

  /** The entries are append-only: feeding more tokens never changes those already there. */
  lemma {:induction false} ResultRunExtends(c: ResultConfig, tokens: seq<Token>)
    ensures c.result <= ResultRun(c, tokens).config.result
  {
    if tokens != [] {
      ResultRunExtends(c, tokens[..|tokens| - 1]);
      var o := ResultRun(c, tokens[..|tokens| - 1]);
      if !o.raised {
        ResultStepAppends(o.config, tokens[|tokens| - 1]);
      }
    }
  }

  /** A name cell holding one text chunk yields exactly one entry, and the flag is down after it. */
  lemma NameCellEntry(c: ResultConfig, attrs: seq<Attribute>, name: string)
    requires NameCell(attrs)
    ensures var d := ResultEndTag(ResultData(ResultStartTag(c, "td", attrs).config, name));
            d == c.(result := c.result + [SearchResultEntry(c.index, name)], nameFlag := false)
  {
  }

  class CRSearchResultParser {
    var result: seq<SearchResultEntry>
    var index: int
    var nameFlag: bool

    function Snapshot(): ResultConfig
      reads this
    {
      ResultConfig(result, index, nameFlag)
    }

    constructor ()
      ensures Snapshot() == InitialResult
    {
      result, index, nameFlag := [], -1, false;
    }

    method HandleStartTag(tag: string, attrs: seq<Attribute>) returns (raised: bool)
      modifies this
      ensures ResultStartTag(old(Snapshot()), tag, attrs) == ResultOutcome(Snapshot(), raised)
    {
      raised := false;
      if tag == "a" {
        ghost var c0 := Snapshot();
        for n := 0 to |attrs|
          invariant AnchorAttributes(c0, attrs[..n]) == ResultOutcome(Snapshot(), false)
        {
          assert attrs[..n + 1][..n] == attrs[..n];
          if attrs[n].name == "name" && attrs[n].value.None? {
            AnchorStopsAtRaise(c0, attrs, n + 1);
            return true;
          }
          if attrs[n].name == "name" && StartsWith(attrs[n].value.value, EntryPrefix) {
            var parsed := ParseInt(attrs[n].value.value[|EntryPrefix|..]);
            if parsed.None? {
              AnchorStopsAtRaise(c0, attrs, n + 1);
              return true;
            }
            index := parsed.value;
          }
        }
        assert attrs[..|attrs|] == attrs;
      }
      if tag == "td" {
        for n := 0 to |attrs|
          invariant result == old(result) && index == old(index)
          invariant nameFlag == (old(nameFlag) || exists i | 0 <= i < n :: attrs[i] == Attribute("class", Some(NameCellClass)))
        {
          if attrs[n].name == "class" && attrs[n].value == Some(NameCellClass) {
            nameFlag := true;
          }
        }
      }
    }

    method HandleData(data: string)
      modifies this
      ensures Snapshot() == ResultData(old(Snapshot()), data)
    {
      if nameFlag {
        result := result + [SearchResultEntry(index, data)];
      }
    }

    method HandleEndTag(tag: string)
      modifies this
      ensures Snapshot() == ResultEndTag(old(Snapshot()))
    {
      nameFlag := false;
    }

    /** HTMLParser.feed: hands each token to its handler until one raises. */
    method Feed(tokens: seq<Token>) returns (raised: bool)
      modifies this
      ensures ResultRun(old(Snapshot()), tokens) == ResultOutcome(Snapshot(), raised)
    {
      ghost var c0 := Snapshot();
      for n := 0 to |tokens|
        invariant ResultRun(c0, tokens[..n]) == ResultOutcome(Snapshot(), false)
      {
        assert tokens[..n + 1][..n] == tokens[..n];
        assert ResultRun(c0, tokens[..n + 1]) == ResultStep(Snapshot(), tokens[n]);
        match tokens[n]
        case StartTag(tag, attrs) =>
          raised := HandleStartTag(tag, attrs);
          if raised {
            ResultRunStopsAtRaise(c0, tokens, n + 1);
            return;
          }
        case Data(text) => HandleData(text);
        case EndTag(tag) => HandleEndTag(tag);
      }
      assert tokens[..|tokens|] == tokens;
      return false;
    }
  }

  // ---------------------------------------------------------------------------------------------
  // The first revision of the legal-entity detail extractor.  Its states, labels and header texts
  // are those of the later one (source/entity.py); it has no sub-state, keeps the identifier as an
  // integer, the capital as the matched text and the balance as one string.

  /** `CRLegalEntityInformation`: every field None unless given. */
  datatype LegalEntityInformation = LegalEntityInformation(
    name: Option<string>, court: Option<string>, registryType: Option<string>, registryId: Option<int>,
    structure: Option<string>, capital: Option<string>, capitalCurrency: Option<string>,
    entry: Option<string>, deletion: Option<string>, balance: Option<string>, address: Option<string>,
    postCode: Option<string>, city: Option<string>)

  const EmptyInformation := LegalEntityInformation(None, None, None, None, None, None, None, None, None, None, None, None, None)

  /** The parser's fields: the state, the label of the current row and the record. */
  datatype DetailConfig = DetailConfig(state: Entity.State, keyword: Option<Entity.Label>, record: LegalEntityInformation)

  const InitialDetail := DetailConfig(Entity.Void, None, EmptyInformation)

  /** The configuration a handler leaves, and whether it raised. */
  datatype DetailOutcome = DetailOutcome(config: DetailConfig, raised: bool)

  /** The last character the registry pattern without the letter part consumes before its
      trailing whitespace: the identifier's last digit, or the type's last letter when the
      identifier is empty. */
  function RegistryEnd(sp: RegistrySplit): int
    requires sp.t < |RegistryTypes|
  {
    if sp.d > 0 then sp.e + sp.d - 1 else sp.c + |RegistryTypes[sp.t]| - 1
  }

  lemma RegistryEndIsLast(s: string, sp: RegistrySplit)
    requires RegistryOk(s, sp, false)
    ensures var p := RegistryEnd(sp);
      0 <= p < |s| && BlankFrom(s, p + 1) && !IsWhitespace(s[p])
      && (sp.d > 0 ==> IsDigit(s[p]))
      && (sp.d == 0 ==> s[p] == RegistryTypes[sp.t][|RegistryTypes[sp.t]| - 1] && !IsDigit(s[p]))
  {
    var g := sp.c + |RegistryTypes[sp.t]|;
    assert s[sp.c..g] == RegistryTypes[sp.t];
    assert s[g - 1] == RegistryTypes[sp.t][|RegistryTypes[sp.t]| - 1];
  }

  /** Every way the pattern without the letter part matches a line yields the same identifier
      (only the court and the type can be split differently). */
  lemma RegistryIdentifierUnique(s: string, x: RegistrySplit, y: RegistrySplit)
    requires RegistryOk(s, x, false) && RegistryOk(s, y, false)
    ensures x.d == y.d && s[x.e..x.e + x.d] == s[y.e..y.e + y.d]
  {
    RegistryEndIsLast(s, x);
    RegistryEndIsLast(s, y);
    var px, py := RegistryEnd(x), RegistryEnd(y);
    assert px == py;
    if x.d > 0 {
      assert x.e - 1 < px;
      assert IsWhitespace(s[x.e - 1]) && IsWhitespace(s[y.e - 1]);
      assert x.e == y.e;
    }
  }

  /** `__set_registry_information`: the court and the type are stored, then int() of the
      identifier, which raises ValueError when the identifier is empty. */
  function SetRegistry(r: LegalEntityInformation, data: string): (LegalEntityInformation, bool)
  {
    match RegistryMatch(data, false)
    case None => (r, false)
    case Some(sp) =>
      var id := data[sp.e..sp.e + sp.d];
      assert AllDigits(id) by {
        assert forall k | 0 <= k < |id| :: id[k] == data[sp.e + k];
      }
      var r1 := r.(court := Some(data[sp.a..sp.b]), registryType := Some(RegistryTypes[sp.t]));
      if id == [] then (r1, true) else (r1.(registryId := Some(DigitsValue(id))), false)
  }

  /** The registry line raises exactly when the pattern matches it with an empty identifier, and
      leaves the record alone when it does not match. */
  lemma SetRegistryRaises(r: LegalEntityInformation, data: string)
    ensures SetRegistry(r, data).1 <==> exists sp: RegistrySplit {:trigger RegistryOk(data, sp, false)} :: RegistryOk(data, sp, false) && sp.d == 0
    ensures (forall sp: RegistrySplit :: !RegistryOk(data, sp, false)) ==> SetRegistry(r, data).0 == r
  {
    match RegistryMatch(data, false)
    case None =>
    case Some(sp) =>
      forall x: RegistrySplit {:trigger RegistryOk(data, x, false)} | RegistryOk(data, x, false) ensures x.d == sp.d {
        RegistryIdentifierUnique(data, x, sp);
      }
  }

  /** What a line stores when the pattern matches it, in terms of the match Python picks: groups 1
      and 2 of that match, and the value of group 3 unless it is empty. */
  lemma SetRegistryOfMatch(r: LegalEntityInformation, data: string, m: RegistrySplit)
    requires RegistryMatch(data, false) == Some(m)
    ensures RegistryFirst(data, m, false)
    ensures var o := SetRegistry(r, data).0;
      && o.court == Some(data[m.a..m.b]) && o.registryType == Some(RegistryTypes[m.t])
      && o.registryId == (if m.d == 0 then r.registryId else Some(DigitsValue(data[m.e..m.e + m.d])))
      && o == r.(court := o.court, registryType := o.registryType, registryId := o.registryId)
  {
    assert RegistryFirst(data, m, false);
  }

  /** A matching line stores groups 1 and 2 of a match with Python's lead and court and, when the
      identifier is not empty, its value (which every split agrees on); the other fields are kept. */
  lemma SetRegistryStores(r: LegalEntityInformation, data: string, sp: RegistrySplit)
    requires RegistryOk(data, sp, false)
    ensures var o := SetRegistry(r, data).0;
      && (exists m: RegistrySplit {:trigger RegistryFirst(data, m, false)} :: RegistryFirst(data, m, false)
            && o.court == Some(data[m.a..m.b]) && o.registryType == Some(RegistryTypes[m.t]))
      && o.registryId == (if sp.d == 0 then r.registryId else Some(DigitsValue(data[sp.e..sp.e + sp.d])))
      && o == r.(court := o.court, registryType := o.registryType, registryId := o.registryId)
  {
    var m := RegistryMatch(data, false).value;
    RegistryIdentifierUnique(data, m, sp);
    SetRegistryOfMatch(r, data, m);
  }

  /** `__set_name`: only the name changes, to the stripped text after the leading whitespace and the
      en dash; a text of another shape keeps the record. */
  function SetName(r: LegalEntityInformation, data: string): (o: LegalEntityInformation)
    ensures o.(name := r.name) == r
    ensures var a := WhitespaceRun(data, 0);
      if a < |data| && data[a] == NameDash && StrippedLine(data[a + 1..]).Some? then o.name == StrippedLine(data[a + 1..])
      else o == r
  {
    match NameLine(data)
    case None => r
    case Some(n) => r.(name := Some(n))
  }

  /** `__set_structure`: only the legal form changes, to the stripped line; a text that is not one
      line keeps the record. */
  function SetStructure(r: LegalEntityInformation, data: string): (o: LegalEntityInformation)
    ensures o.(structure := r.structure) == r
    ensures (exists g, i: nat :: LineGroup(data, g, i)) ==> o.structure.Some? && LineGroup(data, o.structure.value, WhitespaceRun(data, 0))
    ensures (exists g, i: nat :: LineGroup(data, g, i)) ==>
      forall g, i: nat | LineGroup(data, g, i) :: i < WhitespaceRun(data, 0) || (i == WhitespaceRun(data, 0) && |o.structure.value| <= |g|)
    ensures (forall g, i: nat :: !LineGroup(data, g, i)) ==> o == r
  {
    match StrippedLine(data)
    case None => r
    case Some(v) => r.(structure := Some(v))
  }

  /** `__set_capital`: the amount as matched and the currency (None when it took no part); only
      these two fields change, the pattern matches in one way only, and a text it does not match
      keeps the record. */
  function SetCapital(r: LegalEntityInformation, data: string): (o: LegalEntityInformation)
    ensures o.(capital := r.capital, capitalCurrency := r.capitalCurrency) == r
    ensures forall sp: CapitalSplit {:trigger CapitalOk(data, sp)} | CapitalOk(data, sp) ::
      && o.capital == Some(data[sp.a..sp.e]) && AmountShape(o.capital.value)
      && o.capitalCurrency == (if sp.cur.Some? then Some(Currencies[sp.cur.value]) else None)
    ensures (forall sp: CapitalSplit :: !CapitalOk(data, sp)) ==> o == r
  {
    match CapitalMatch(data)
    case None => r
    case Some(sp) =>
      forall x: CapitalSplit {:trigger CapitalOk(data, x)} | CapitalOk(data, x) ensures x.a == sp.a && x.e == sp.e && x.cur == sp.cur {
        CapitalUnique(data, x, sp);
      }
      r.(capital := Some(data[sp.a..sp.e]), capitalCurrency := if sp.cur.Some? then Some(Currencies[sp.cur.value]) else None)
  }

  /** `__set_date`: the entry date when `entry` holds, else the deletion date; only that field
      changes, and a text without a leading date keeps the record. */
  function SetDate(r: LegalEntityInformation, data: string, entry: bool): (o: LegalEntityInformation)
    ensures entry ==> o.(entry := r.entry) == r
    ensures !entry ==> o.(deletion := r.deletion) == r
    ensures forall a: nat | WhitespaceAt(data, 0, a) && DottedDateAt(data, a) ::
      (if entry then o.entry else o.deletion) == Some(data[a..a + 10])
    ensures (forall a: nat :: !(WhitespaceAt(data, 0, a) && DottedDateAt(data, a))) ==> o == r
  {
    match LeadingDate(data)
    case None => r
    case Some(d) => if entry then r.(entry := Some(d)) else r.(deletion := Some(d))
  }

  /** The balance text: the value itself, or appended to what is there. */
  function AppendBalance(balance: Option<string>, value: string): string
  {
    if balance.None? then value else balance.value + value
  }

  /** `__handle_value`: the value cell of the current row, by its label; the address does nothing. */
  function DetailValue(c: DetailConfig, value: string): DetailConfig
  {
    if c.keyword == Some(Entity.LegalStructure) then c.(record := SetStructure(c.record, value))
    else if c.keyword == Some(Entity.Capital) then c.(record := SetCapital(c.record, value))
    else if c.keyword == Some(Entity.EntryDate) then c.(record := SetDate(c.record, value, true))
    else if c.keyword == Some(Entity.DeletionDate) then c.(record := SetDate(c.record, value, false))
    else if c.keyword == Some(Entity.Balance) then c.(record := c.record.(balance := Some(AppendBalance(c.record.balance, value))))
    else c
  }

  function DetailStartTag(c: DetailConfig, tag: string): DetailConfig
  {
    if tag == "h3" then c.(state := Entity.AwaitHeader)
    else if tag == "td" then
      (if c.state == Entity.Header then c.(state := Entity.AwaitCourt)
       else if c.state == Entity.Name || c.state == Entity.Value then c.(state := Entity.AwaitKeyword)
       else if c.state == Entity.Keyword then c.(state := Entity.AwaitValue)
       else c)
    else if tag == "b" then (if c.state == Entity.AwaitRegistrySection then c.(state := Entity.AwaitRegistryDetail) else c)
    else c
  }

  function DetailData(c: DetailConfig, data: string): DetailOutcome
  {
    if c.state == Entity.AwaitHeader then
      DetailOutcome(if Contains(data, Entity.HeaderText) then c.(state := Entity.Header) else c, false)
    else if c.state == Entity.AwaitCourt then
      DetailOutcome(if Contains(data, Entity.CourtText) then c.(state := Entity.AwaitRegistrySection) else c, false)
    else if c.state == Entity.AwaitRegistryDetail then
      var (r, raised) := SetRegistry(c.record, data);
      if raised then DetailOutcome(c.(record := r), true)
      else DetailOutcome(c.(record := r, state := Entity.RegistryDetail), false)
    else if c.state == Entity.AwaitName then DetailOutcome(c.(record := SetName(c.record, data), state := Entity.Name), false)
    else if c.state == Entity.AwaitKeyword then DetailOutcome(c.(state := Entity.Keyword, keyword := Entity.KeywordOf(data)), false)
    else if c.state == Entity.AwaitValue then DetailOutcome(DetailValue(c.(state := Entity.Value), data), false)
    else DetailOutcome(c, false)
  }

  function DetailEndTag(c: DetailConfig, tag: string): DetailConfig
  {
    if tag == "h3" then (if c.state == Entity.AwaitHeader then c.(state := Entity.Void) else c)
    else if tag == "td" then (if c.state == Entity.AwaitCourt then c.(state := Entity.Header) else c)
    else if tag == "b" then (if c.state == Entity.RegistryDetail then c.(state := Entity.AwaitName) else c)
    else c
  }

  function DetailStep(c: DetailConfig, t: Token): DetailOutcome
  {
    match t
    case StartTag(tag, _) => DetailOutcome(DetailStartTag(c, tag), false)
    case Data(text) => DetailData(c, text)
    case EndTag(tag) => DetailOutcome(DetailEndTag(c, tag), false)
  }

  /** HTMLParser.feed: the tokens in order, up to the first one whose handler raises. */
  function DetailRun(c: DetailConfig, tokens: seq<Token>): DetailOutcome
  {
    if tokens == [] then DetailOutcome(c, false)
    else
      var o := DetailRun(c, tokens[..|tokens| - 1]);
      if o.raised then o else DetailStep(o.config, tokens[|tokens| - 1])
  }

  lemma {:induction false} DetailRunStopsAtRaise(c: DetailConfig, tokens: seq<Token>, k: nat)
    requires k <= |tokens| && DetailRun(c, tokens[..k]).raised
    ensures DetailRun(c, tokens) == DetailRun(c, tokens[..k])
    decreases |tokens|
  {
    if k < |tokens| {
      var front := tokens[..|tokens| - 1];
      assert front[..k] == tokens[..k];
      DetailRunStopsAtRaise(c, front, k);
    } else {
      assert tokens[..k] == tokens;
    }
  }

  /** The registry cell raises exactly when the line matches with an empty identifier; otherwise
      the parser moves on, with the identifier's value stored when the line matches. */
  lemma RegistryCell(c: DetailConfig, data: string)
    requires c.state == Entity.AwaitRegistryDetail
    ensures DetailData(c, data).raised <==> exists sp: RegistrySplit {:trigger RegistryOk(data, sp, false)} :: RegistryOk(data, sp, false) && sp.d == 0
    ensures !DetailData(c, data).raised ==> DetailData(c, data).config.state == Entity.RegistryDetail
    ensures forall sp: RegistrySplit {:trigger RegistryOk(data, sp, false)} | RegistryOk(data, sp, false) && sp.d > 0 ::
      DetailData(c, data).config.record.registryId == Some(DigitsValue(data[sp.e..sp.e + sp.d]))
  {
    SetRegistryRaises(c.record, data);
    forall sp: RegistrySplit {:trigger RegistryOk(data, sp, false)} | RegistryOk(data, sp, false) && sp.d > 0
      ensures DetailData(c, data).config.record.registryId == Some(DigitsValue(data[sp.e..sp.e + sp.d]))
    {
      SetRegistryStores(c.record, data, sp);
    }
  }

  /** The letter part tells the two registry patterns apart: the later one accepts a line ending
      in a one-letter suffix, the older one rejects it. */
  lemma RegistrySuffixOnlyInLaterPattern()
    ensures RegistryMatch("Berlin HRB 123 X", true).Some?
    ensures RegistryMatch("Berlin HRB 123 X", false).None?
  {
    var s := "Berlin HRB 123 X";
    assert RegistryOk(s, RegistrySplit(0, 6, 7, 1, 11, 3, 1, 1), true) by {
      assert s[7..10] == RegistryTypes[1];
    }
    assert s[15] == 'X';
    assert forall t | 0 <= t < |RegistryTypes| :: RegistryTypes[t][|RegistryTypes[t]| - 1] != 'X';
    forall sp: RegistrySplit | RegistryOk(s, sp, false) ensures false {
      RegistryEndIsLast(s, sp);
    }
  }

  /** A value cell is read once: a second text chunk in it changes nothing, where the later
      extractor hands every chunk to the value handler. */
  lemma ValueCellReadsFirstChunk(c: DetailConfig, first: string, second: string)
    requires c.state == Entity.AwaitValue
    ensures var o := DetailData(c, first);
      !o.raised && o.config.state == Entity.Value && DetailData(o.config, second) == o
  {
  }

  /** Balance values are concatenated as text, without a separator, starting from the first. */
  lemma BalanceConcatenates(c: DetailConfig, value: string)
    requires c.state == Entity.AwaitValue && c.keyword == Some(Entity.Balance)
    ensures DetailData(c, value) == DetailOutcome(c.(state := Entity.Value,
      record := c.record.(balance := Some(if c.record.balance.None? then value else c.record.balance.value + value))), false)
  {
  }

  /** The older capital text and the later hundredths agree: the later extractor's value is the
      older one's text with its separators normalised. */
  lemma CapitalTextAgrees(r: LegalEntityInformation, data: string)
    requires SetCapital(r, data).capital != r.capital || CapitalMatch(data).Some?
    ensures CapitalMatch(data).Some?
    ensures var x := SetCapital(r, data).capital.value;
      AmountShape(x) && CapitalFields(data).Some? && CapitalFields(data).value.0 == DecimalCents(Normalise(x))
      && CapitalFields(data).value.1 == SetCapital(r, data).capitalCurrency
  {
  }

  /** The first revision of the detail extractor over its three fields. */
  class LegalEntityInformationParser {
    var state: Entity.State
    var keyword: Option<Entity.Label>
    var result: LegalEntityInformation

    function Snapshot(): DetailConfig
      reads this
    {
      DetailConfig(state, keyword, result)
    }

    constructor ()
      ensures Snapshot() == InitialDetail
    {
      state, keyword, result := Entity.Void, None, EmptyInformation;
    }

    method HandleStartTag(tag: string)
      modifies this
      ensures Snapshot() == DetailStartTag(old(Snapshot()), tag)
    {
      if tag == "h3" {
        state := Entity.AwaitHeader;
        return;
      }
      if tag == "td" {
        if state == Entity.Header {
          state := Entity.AwaitCourt;
        } else if state == Entity.Name || state == Entity.Value {
          state := Entity.AwaitKeyword;
        } else if state == Entity.Keyword {
          state := Entity.AwaitValue;
        }
      }
      if tag == "b" && state == Entity.AwaitRegistrySection {
        state := Entity.AwaitRegistryDetail;
      }
    }

    method HandleData(data: string) returns (raised: bool)
      modifies this
      ensures DetailData(old(Snapshot()), data) == DetailOutcome(Snapshot(), raised)
    {
      raised := false;
      if state == Entity.AwaitHeader {
        if Contains(data, Entity.HeaderText) {
          state := Entity.Header;
        }
      } else if state == Entity.AwaitCourt {
        if Contains(data, Entity.CourtText) {
          state := Entity.AwaitRegistrySection;
        }
      } else if state == Entity.AwaitRegistryDetail {
        var stored;
        stored, raised := SetRegistry(result, data).0, SetRegistry(result, data).1;
        result := stored;
        if !raised {
          state := Entity.RegistryDetail;
        }
      } else if state == Entity.AwaitName {
        result := SetName(result, data);
        state := Entity.Name;
      } else if state == Entity.AwaitKeyword {
        state := Entity.Keyword;
        keyword := Entity.FindKeyword(data);
      } else if state == Entity.AwaitValue {
        state := Entity.Value;
        HandleValue(data);
      }
    }

    /** `__handle_value`. */
    method HandleValue(value: string)
      modifies this
      ensures Snapshot() == DetailValue(old(Snapshot()), value)
    {
      if keyword == Some(Entity.LegalStructure) {
        result := SetStructure(result, value);
      } else if keyword == Some(Entity.Capital) {
        result := SetCapital(result, value);
      } else if keyword == Some(Entity.EntryDate) {
        result := SetDate(result, value, true);
      } else if keyword == Some(Entity.DeletionDate) {
        result := SetDate(result, value, false);
      } else if keyword == Some(Entity.Balance) {
        result := result.(balance := Some(AppendBalance(result.balance, value)));
      }
    }

    method HandleEndTag(tag: string)
      modifies this
      ensures Snapshot() == DetailEndTag(old(Snapshot()), tag)
    {
      if tag == "h3" && state == Entity.AwaitHeader {
        state := Entity.Void;
      }
      if tag == "td" && state == Entity.AwaitCourt {
        state := Entity.Header;
      }
      if tag == "b" && state == Entity.RegistryDetail {
        state := Entity.AwaitName;
      }
    }

    /** HTMLParser.feed: hands each token to its handler until one raises. */
    method Feed(tokens: seq<Token>) returns (raised: bool)
      modifies this
      ensures DetailRun(old(Snapshot()), tokens) == DetailOutcome(Snapshot(), raised)
    {
      ghost var c0 := Snapshot();
      for n := 0 to |tokens|
        invariant DetailRun(c0, tokens[..n]) == DetailOutcome(Snapshot(), false)
      {
        assert tokens[..n + 1][..n] == tokens[..n];
        assert DetailRun(c0, tokens[..n + 1]) == DetailStep(Snapshot(), tokens[n]);
        match tokens[n]
        case StartTag(tag, _) => HandleStartTag(tag);
        case Data(text) =>
          raised := HandleData(text);
          if raised {
            DetailRunStopsAtRaise(c0, tokens, n + 1);
            return;
          }
        case EndTag(tag) => HandleEndTag(tag);
      }
      assert tokens[..|tokens|] == tokens;
      return false;
    }
  }
}
