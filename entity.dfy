/** The legal-entity detail extractor (source/entity.py): the LegalEntityInformation record with
    its validating constructor, and the two-level state machine (a state plus a sub-state) that
    fills the record in from the tokens of the detail page.  The transitions are pure functions on
    a configuration; the parser class applies them to its fields. */
module Entity {
  import opened Wrappers
  import opened Text
  import opened Html
  import opened EntityFields

  /** The extracted details; None stands for a field the page did not supply.  The capital is
      kept in hundredths of its currency. */
  datatype LegalEntityInformation = LegalEntityInformation(
    name: Option<string>, registryCourt: Option<string>, registryType: Option<string>,
    registryId: Option<string>, structure: Option<string>, capital: Option<nat>,
    capitalCurrency: Option<string>, entry: Option<string>, deletion: Option<string>,
    balance: Option<seq<string>>, address: Option<string>, postCode: Option<string>,
    city: Option<string>)

  /** A registry type the record accepts: none at all, or one of the five codes. */
  predicate KnownRegistryType(t: Option<string>)
  {
    t.None? || t.value in RegistryTypes
  }

  /** `LegalEntityInformation(...)`: raises ValueError for a registry type outside the list. */
  function NewLegalEntityInformation(
    name: Option<string>, court: Option<string>, registryType: Option<string>,
    registryId: Option<string>, structure: Option<string>, capital: Option<nat>,
    capitalCurrency: Option<string>, entry: Option<string>, deletion: Option<string>,
    balance: Option<seq<string>>, address: Option<string>, postCode: Option<string>,
    city: Option<string>): (r: Result<LegalEntityInformation>)
    ensures r.Failure? <==> !KnownRegistryType(registryType)
    ensures r.Failure? ==> r.error == "Unknown registry type"
    ensures r.Success? ==> KnownRegistryType(r.value.registryType)
    ensures r.Success? ==>
      (r.value.name == name && r.value.registryCourt == court
       && r.value.registryType == registryType && r.value.registryId == registryId
       && r.value.structure == structure && r.value.capital == capital
       && r.value.capitalCurrency == capitalCurrency && r.value.entry == entry
       && r.value.deletion == deletion && r.value.balance == balance && r.value.address == address
       && r.value.postCode == postCode && r.value.city == city)
  {
    if registryType.Some? && registryType.value !in RegistryTypes then Failure("Unknown registry type")
    else
      Success(LegalEntityInformation(name, court, registryType, registryId, structure, capital,
        capitalCurrency, entry, deletion, balance, address, postCode, city))
  }

  /** `LegalEntityInformation()`: every field None. */
  const EmptyRecord := LegalEntityInformation(None, None, None, None, None, None, None, None, None, None, None, None, None)

  lemma EmptyRecordIsNew()
    ensures NewLegalEntityInformation(None, None, None, None, None, None, None, None, None, None, None, None, None)
            == Success(EmptyRecord)
  {
  }

  // ---------------------------------------------------------------------------------------------
  // The labels of the detail table.

  /** The labels of the detail table, KEYWORDS in list order. */
  datatype Label = LegalStructure | Capital | EntryDate | DeletionDate | Balance | Address

  /** The text of a label. */
  function LabelText(l: Label): string
  {
    match l
    case LegalStructure => "Rechtsform"
    case Capital => "Kapital"
    case EntryDate => "Eintragsdatum"
    case DeletionDate => "L\U{F6}schdatum"
    case Balance => "Jahresabschluss"
    case Address => "Anschrift"
  }

  const Keywords: seq<Label> := [LegalStructure, Capital, EntryDate, DeletionDate, Balance, Address]

  /** The index of the first label, from the `i`-th on, that `text` starts with. */
  function FirstKeyword(text: string, i: nat): (r: Option<nat>)
    ensures r.Some? ==> i <= r.value < |Keywords| && StartsWith(text, LabelText(Keywords[r.value]))
    ensures r.Some? ==> forall j | i <= j < r.value :: !StartsWith(text, LabelText(Keywords[j]))
    ensures r.None? ==> forall j | i <= j < |Keywords| :: !StartsWith(text, LabelText(Keywords[j]))
    decreases |Keywords| - i
  {
    if i >= |Keywords| then None
    else if StartsWith(text, LabelText(Keywords[i])) then Some(i)
    else FirstKeyword(text, i + 1)
  }

  /** The label a table cell names: the first of the labels, in list order, that its stripped
      text starts with, or None. */
  function KeywordOf(data: string): (k: Option<Label>)
    ensures k.Some? ==> exists i | 0 <= i < |Keywords| :: Keywords[i] == k.value && StartsWith(Strip(data), LabelText(k.value))
                          && forall j | 0 <= j < i :: !StartsWith(Strip(data), LabelText(Keywords[j]))
    ensures k.None? <==> forall j | 0 <= j < |Keywords| :: !StartsWith(Strip(data), LabelText(Keywords[j]))
  {
    match FirstKeyword(Strip(data), 0)
    case None => None
    case Some(i) => Some(Keywords[i])
  }

  /** The loop over KEYWORDS in `handle_data`. */
  method FindKeyword(data: string) returns (k: Option<Label>)
    ensures k == KeywordOf(data)
    ensures k.Some? ==> k.value in Keywords && StartsWith(Strip(data), LabelText(k.value))
  {
    var text := Strip(data);
    var i := 0;
    while i < |Keywords|
      invariant 0 <= i <= |Keywords|
      invariant FirstKeyword(text, 0) == FirstKeyword(text, i)
    {
      if StartsWith(text, LabelText(Keywords[i])) {
        return Some(Keywords[i]);
      }
      i := i + 1;
    }
    return None;
  }

  // ---------------------------------------------------------------------------------------------
  // The configuration and its transitions.

  datatype State = Void | AwaitHeader | Header | AwaitCourt | AwaitRegistrySection | AwaitRegistryDetail
                 | RegistryDetail | AwaitName | Name | AwaitKeyword | Keyword | AwaitValue | Value

  datatype SubState = SubVoid | AwaitStreet | Street | AwaitCity | City | AwaitBalanceOption | AwaitBalance

  /** The parser's fields: state, sub-state, the label of the current row and the record. */
  datatype Config = Config(state: State, sub: SubState, keyword: Option<Label>, record: LegalEntityInformation)

  const Initial := Config(Void, SubVoid, None, EmptyRecord)

  /** `__set_registry_information`. */
  function SetRegistry(r: LegalEntityInformation, data: string): (o: LegalEntityInformation)
    ensures o.(registryCourt := r.registryCourt, registryType := r.registryType, registryId := r.registryId) == r
    ensures (forall sp: RegistrySplit :: !RegistryOk(data, sp, true)) ==> o == r
  {
    match RegistryFields(data)
    case None => r
    case Some((court, t, id)) => r.(registryCourt := Some(court), registryType := Some(t), registryId := Some(id))
  }

  /** `__set_name`. */
  function SetName(r: LegalEntityInformation, data: string): (o: LegalEntityInformation)
    ensures o.(name := r.name) == r
    ensures var a := WhitespaceRun(data, 0);
      if a < |data| && data[a] == NameDash && StrippedLine(data[a + 1..]).Some? then o.name == StrippedLine(data[a + 1..])
      else o == r
  {
    match NameLine(data)
    case None => r
    case Some(n) => r.(name := Some(n))
  }

  /** `__set_structure`. */
  function SetStructure(r: LegalEntityInformation, data: string): (o: LegalEntityInformation)
    ensures o.(structure := r.structure) == r
    ensures (exists g, i: nat :: LineGroup(data, g, i)) ==> o.structure.Some? && LineGroup(data, o.structure.value, WhitespaceRun(data, 0))
    ensures (exists g, i: nat :: LineGroup(data, g, i)) ==>
      forall g, i: nat | LineGroup(data, g, i) :: i < WhitespaceRun(data, 0) || (i == WhitespaceRun(data, 0) && |o.structure.value| <= |g|)
    ensures (forall g, i: nat :: !LineGroup(data, g, i)) ==> o == r
  {
    match StrippedLine(data)
    case None => r
    case Some(v) => r.(structure := Some(v))
  }

  /** The lazy group leaves trailing whitespace out: "GmbH " stores "GmbH", although the pattern
      also allows the group "GmbH ". */
  lemma StructureDropsTrailingBlank(r: LegalEntityInformation)
    ensures LineGroup("GmbH ", "GmbH ", 0) && LineGroup("GmbH ", "GmbH", 0)
    ensures SetStructure(r, "GmbH ").structure == Some("GmbH")
  {
    var data := "GmbH ";
    assert WhitespaceRun(data, 0) == 0;
    assert data[0..4] == "GmbH" && data[0..5] == data;
  }

  /** `__set_capital`: the currency group is stored even when it did not take part (None). */
  function SetCapital(r: LegalEntityInformation, data: string): (o: LegalEntityInformation)
    ensures o.(capital := r.capital, capitalCurrency := r.capitalCurrency) == r
    ensures forall sp: CapitalSplit {:trigger CapitalOk(data, sp)} | CapitalOk(data, sp) ::
      && DecimalShape(Normalise(data[sp.a..sp.e]))
      && o.capital == Some(DecimalCents(Normalise(data[sp.a..sp.e])))
      && o.capitalCurrency == (if sp.cur.Some? then Some(Currencies[sp.cur.value]) else None)
    ensures (forall sp: CapitalSplit :: !CapitalOk(data, sp)) ==> o == r
  {
    match CapitalFields(data)
    case None => r
    case Some((cents, currency)) => r.(capital := Some(cents), capitalCurrency := currency)
  }

  /** `__set_date`: the entry date when `entry` holds, else the deletion date. */
  function SetDate(r: LegalEntityInformation, data: string, entry: bool): (o: LegalEntityInformation)
    ensures entry ==> o.(entry := r.entry) == r
    ensures !entry ==> o.(deletion := r.deletion) == r
    ensures forall a: nat | WhitespaceAt(data, 0, a) && DottedDateAt(data, a) ::
      (if entry then o.entry else o.deletion) == Some(data[a..a + 10])
    ensures (forall a: nat :: !(WhitespaceAt(data, 0, a) && DottedDateAt(data, a))) ==> o == r
  {
    match LeadingDate(data)
    case None => r
    case Some(d) => if entry then r.(entry := Some(d)) else r.(deletion := Some(d))
  }

  /** `__process_balance`: appends a matching date.  Appending needs a list, which a balance
      sub-state always has (`Inv`); without one the record is left as it is. */
  function ProcessBalance(r: LegalEntityInformation, data: string): (o: LegalEntityInformation)
    ensures o.(balance := r.balance) == r
    ensures forall a: nat | r.balance.Some? && WhitespaceAt(data, 0, a) && DottedDateAt(data, a) && BlankFrom(data, a + 10) ::
      o.balance == Some(r.balance.value + [data[a..a + 10]])
    ensures (forall a: nat :: !(WhitespaceAt(data, 0, a) && DottedDateAt(data, a) && BlankFrom(data, a + 10))) ==> o == r
  {
    match BalanceDate(data)
    case None => r
    case Some(d) => if r.balance.Some? then r.(balance := Some(r.balance.value + [d])) else r
  }

  /** `__set_address`. */
  function SetAddress(r: LegalEntityInformation, data: string): (o: LegalEntityInformation)
    ensures o.(address := r.address) == r
    ensures (exists g, i: nat :: LineGroup(data, g, i)) ==> o.address.Some? && LineGroup(data, o.address.value, WhitespaceRun(data, 0))
    ensures (exists g, i: nat :: LineGroup(data, g, i)) ==>
      forall g, i: nat | LineGroup(data, g, i) :: i < WhitespaceRun(data, 0) || (i == WhitespaceRun(data, 0) && |o.address.value| <= |g|)
    ensures (forall g, i: nat :: !LineGroup(data, g, i)) ==> o == r
  {
    match StrippedLine(data)
    case None => r
    case Some(v) => r.(address := Some(v))
  }

  /** `__set_city`: the post code group is stored even when it did not take part (None). */
  function SetCity(r: LegalEntityInformation, data: string): (o: LegalEntityInformation)
    ensures o.(postCode := r.postCode, city := r.city) == r
    ensures (exists sp: CitySplit :: CityOk(data, sp)) ==> exists sp: CitySplit {:trigger CityFirst(data, sp)} ::
      && CityFirst(data, sp)
      && o.postCode == (if sp.code then Some(data[sp.a..sp.a + 5]) else None)
      && o.city == Some(data[CityStart(sp)..sp.m])
    ensures (forall sp: CitySplit :: !CityOk(data, sp)) ==> o == r
  {
    match CityFields(data)
    case None => r
    case Some((code, city)) => r.(postCode := code, city := Some(city))
  }

  /** `__handle_value`: the value cell of the current row, by its label. */
  function ValueStep(c: Config, value: string): Config
  {
    if c.keyword == Some(LegalStructure) then c.(record := SetStructure(c.record, value))
    else if c.keyword == Some(Capital) then c.(record := SetCapital(c.record, value))
    else if c.keyword == Some(EntryDate) then c.(record := SetDate(c.record, value, true))
    else if c.keyword == Some(DeletionDate) then c.(record := SetDate(c.record, value, false))
    else if c.keyword == Some(Balance) then
      (if c.sub == AwaitBalance then c.(record := ProcessBalance(c.record, value)) else c)
    else if c.keyword == Some(Address) then
      (if c.sub == SubVoid then c.(sub := AwaitStreet)
       else if c.sub == AwaitStreet then c.(record := SetAddress(c.record, value), sub := Street)
       else if c.sub == AwaitCity then c.(record := SetCity(c.record, value), sub := City)
       else c)
    else c
  }

  function StartTagStep(c: Config, tag: string): Config
  {
    if tag == "h3" then c.(state := AwaitHeader)
    else if tag == "td" then
      (if c.state == Header then c.(state := AwaitCourt)
       else if c.state == Name || c.state == Value then c.(state := AwaitKeyword)
       else if c.state == Keyword then c.(state := AwaitValue)
       else c)
    else if tag == "b" then (if c.state == AwaitRegistrySection then c.(state := AwaitRegistryDetail) else c)
    else if tag == "div" then (if c.state == AwaitValue && c.sub == Street then c.(sub := AwaitCity) else c)
    else if tag == "select" then
      (if c.state == AwaitValue then c.(record := c.record.(balance := Some([])), sub := AwaitBalanceOption) else c)
    else if tag == "option" then
      (if c.state == AwaitValue && c.sub == AwaitBalanceOption then c.(sub := AwaitBalance) else c)
    else c
  }

  const HeaderText := "Unternehmenstr\U{E4}gerdaten"
  const CourtText := "Amtsgericht"

  function DataStep(c: Config, data: string): Config
  {
    if c.state == AwaitHeader then (if Contains(data, HeaderText) then c.(state := Header) else c)
    else if c.state == AwaitCourt then (if Contains(data, CourtText) then c.(state := AwaitRegistrySection) else c)
    else if c.state == AwaitRegistryDetail then c.(record := SetRegistry(c.record, data), state := RegistryDetail)
    else if c.state == AwaitName then c.(record := SetName(c.record, data), state := Name)
    else if c.state == AwaitKeyword then c.(state := Keyword, keyword := KeywordOf(data))
    else if c.state == AwaitValue then ValueStep(c, data)
    else c
  }

  function EndTagStep(c: Config, tag: string): Config
  {
    if tag == "h3" then (if c.state == AwaitHeader then c.(state := Void) else c)
    else if tag == "td" then
      (if c.state == AwaitCourt then c.(state := Header)
       else if c.state == AwaitValue then c.(state := Value)
       else c)
    else if tag == "b" then (if c.state == RegistryDetail then c.(state := AwaitName) else c)
    else if tag == "div" then (if c.sub == City then c.(sub := SubVoid, state := Value) else c)
    else if tag == "option" then (if c.sub == AwaitBalance then c.(sub := AwaitBalanceOption) else c)
    else if tag == "select" then (if c.sub == AwaitBalanceOption then c.(sub := SubVoid) else c)
    else c
  }

  function Step(c: Config, t: Token): Config
  {
    match t
    case StartTag(tag, _) => StartTagStep(c, tag)
    case Data(text) => DataStep(c, text)
    case EndTag(tag) => EndTagStep(c, tag)
  }

  /** HTMLParser.feed: the tokens in order. */
  function Run(c: Config, tokens: seq<Token>): Config
  {
    if tokens == [] then c else Step(Run(c, tokens[..|tokens| - 1]), tokens[|tokens| - 1])
  }

  // ---------------------------------------------------------------------------------------------
  // Properties of the transitions.

  /** What every reachable configuration satisfies: the registry type is one the record's
      constructor accepts, and a balance sub-state always has a list to append to. */
  predicate Inv(c: Config)
  {
    KnownRegistryType(c.record.registryType)
    && (c.sub == AwaitBalanceOption || c.sub == AwaitBalance ==> c.record.balance.Some?)
  }

  lemma InitialInv()
    ensures Inv(Initial)
  {
  }

  /** A value cell changes neither the registry type nor the balance sub-state's list. */
  lemma ValueStepInv(c: Config, value: string)
    requires Inv(c)
    ensures Inv(ValueStep(c, value))
  {
    var o := ValueStep(c, value);
    assert o.record.registryType == c.record.registryType;
    assert o.sub == AwaitBalanceOption || o.sub == AwaitBalance ==> o.sub == c.sub && o.record.balance.Some?;
  }

  /** The registry line stores a type from RegistryTypes. */
  lemma RegistryStepInv(c: Config, data: string)
    requires Inv(c)
    ensures KnownRegistryType(SetRegistry(c.record, data).registryType)
    ensures SetRegistry(c.record, data).balance == c.record.balance
  {
    match RegistryFields(data)
    case None =>
    case Some(f) => assert f.1 in RegistryTypes;
  }

  lemma DataStepInv(c: Config, data: string)
    requires Inv(c)
    ensures Inv(DataStep(c, data))
  {
    if c.state == AwaitRegistryDetail {
      RegistryStepInv(c, data);
    } else if c.state == AwaitValue {
      ValueStepInv(c, data);
    }
  }

  lemma StepInv(c: Config, t: Token)
    requires Inv(c)
    ensures Inv(Step(c, t))
  {
    if t.Data? {
      DataStepInv(c, t.text);
    }
  }

  lemma {:induction false} RunInv(c: Config, tokens: seq<Token>)
    requires Inv(c)
    ensures Inv(Run(c, tokens))
  {
    if tokens != [] {
      RunInv(c, tokens[..|tokens| - 1]);
      StepInv(Run(c, tokens[..|tokens| - 1]), tokens[|tokens| - 1]);
    }
  }

  /** Feeding two pieces one after the other is feeding them together. */
  lemma {:induction false} RunAppend(c: Config, a: seq<Token>, b: seq<Token>)
    ensures Run(c, a + b) == Run(Run(c, a), b)
    decreases |b|
  {
    if b == [] {
      assert a + b == a;
    } else {
      assert (a + b)[..|a + b| - 1] == a + b[..|b| - 1];
      RunAppend(c, a, b[..|b| - 1]);
    }
  }

  /** Feeding one more token is one more step. */
  lemma RunSnoc(c: Config, ts: seq<Token>, t: Token)
    ensures Run(c, ts + [t]) == Step(Run(c, ts), t)
  {
    assert (ts + [t])[..|ts|] == ts;
  }

  lemma RunSnocStart(c: Config, ts: seq<Token>, tag: string, attrs: seq<Attribute>)
    ensures Run(c, ts + [StartTag(tag, attrs)]) == StartTagStep(Run(c, ts), tag)
  {
    RunSnoc(c, ts, StartTag(tag, attrs));
  }

  lemma RunSnocData(c: Config, ts: seq<Token>, text: string)
    ensures Run(c, ts + [Data(text)]) == DataStep(Run(c, ts), text)
  {
    RunSnoc(c, ts, Data(text));
  }

  lemma RunSnocEnd(c: Config, ts: seq<Token>, tag: string)
    ensures Run(c, ts + [EndTag(tag)]) == EndTagStep(Run(c, ts), tag)
  {
    RunSnoc(c, ts, EndTag(tag));
  }

  /** An `<h3>` start tag awaits the header from whatever state the parser is in. */
  lemma HeadingRestarts(c: Config, attrs: seq<Attribute>)
    ensures Step(c, StartTag("h3", attrs)) == c.(state := AwaitHeader)
  {
  }

  /** In a label cell, the label is the first of the known labels the stripped text starts with. */
  lemma LabelCell(c: Config, data: string)
    requires c.state == AwaitKeyword
    ensures Step(c, Data(data)).state == Keyword
    ensures Step(c, Data(data)).keyword.Some? <==> exists j | 0 <= j < |Keywords| :: StartsWith(Strip(data), LabelText(Keywords[j]))
    ensures Step(c, Data(data)).record == c.record
  {
    LabelStep(c, data);
  }

  lemma LabelStep(c: Config, data: string)
    requires c.state == AwaitKeyword
    ensures Step(c, Data(data)) == c.(state := Keyword, keyword := KeywordOf(data))
  {
    var d := DataStep(c, data);
    assert d.state == Keyword && d.keyword == KeywordOf(data) && d.sub == c.sub && d.record == c.record;
  }

  /** The record changes only on the text of the registry line, of the name and of a value cell,
      and on a `<select>` in a value cell. */
  lemma RecordChangesOnlyInCells(c: Config, t: Token)
    ensures Step(c, t).record != c.record ==>
      (t.Data? && c.state in {AwaitRegistryDetail, AwaitName, AwaitValue})
      || (t.StartTag? && t.tag == "select" && c.state == AwaitValue)
  {
  }

  /** The registry line: when the registry pattern matches, court, type and identifier are groups
      1, 2 and 3 of a match with Python's lead and court, the identifier with its whitespace runs
      collapsed (so single-spaced); when it does not, the record stays.  No other field changes. */
  lemma RegistryLine(c: Config, data: string)
    requires c.state == AwaitRegistryDetail
    ensures var d := Step(c, Data(data));
      && d.state == RegistryDetail && d.sub == c.sub && d.keyword == c.keyword
      && d.record == c.record.(registryCourt := d.record.registryCourt, registryType := d.record.registryType,
                               registryId := d.record.registryId)
      && ((forall sp: RegistrySplit :: !RegistryOk(data, sp, true)) ==> d.record == c.record)
      && ((exists sp: RegistrySplit :: RegistryOk(data, sp, true)) ==>
            && d.record.registryId.Some? && SingleSpaced(d.record.registryId.value)
            && exists sp: RegistrySplit ::
                 && RegistryFirst(data, sp, true)
                 && var (court, t, id) := RegistryGroups(data, sp);
                    d.record.registryCourt == Some(court) && d.record.registryType == Some(t)
                    && d.record.registryId == Some(id))
  {
    RegistryStep(c, data);
  }

  lemma RegistryStep(c: Config, data: string)
    requires c.state == AwaitRegistryDetail
    ensures Step(c, Data(data)) == c.(record := SetRegistry(c.record, data), state := RegistryDetail)
  {
    var d := DataStep(c, data);
    assert d.state == RegistryDetail && d.keyword == c.keyword && d.sub == c.sub && d.record == SetRegistry(c.record, data);
  }

  /** A value cell changes only the fields of its row's label, and none without a label. */
  lemma ValueCellChangesItsFields(c: Config, value: string)
    requires c.state == AwaitValue
    ensures var d := Step(c, Data(value));
      && d.state == AwaitValue && d.keyword == c.keyword
      && (c.keyword == Some(LegalStructure) ==> d.record == c.record.(structure := d.record.structure))
      && (c.keyword == Some(Capital) ==>
            d.record == c.record.(capital := d.record.capital, capitalCurrency := d.record.capitalCurrency))
      && (c.keyword == Some(EntryDate) ==> d.record == c.record.(entry := d.record.entry))
      && (c.keyword == Some(DeletionDate) ==> d.record == c.record.(deletion := d.record.deletion))
      && (c.keyword == Some(Balance) ==> d.record == c.record.(balance := d.record.balance))
      && (c.keyword == Some(Address) ==>
            d.record == c.record.(address := d.record.address, postCode := d.record.postCode, city := d.record.city))
      && (c.keyword.None? ==> d == c)
  {
    assert Step(c, Data(value)) == ValueStep(c, value);
  }

  /** The address sub-states are entered only from their predecessor in the chain
      VOID, AWAIT_STREET, STREET, AWAIT_CITY, CITY, and CITY is left only for VOID (at the closing
      `</div>`, which ends the value) or for a `<select>`. */
  lemma AddressChain(c: Config, t: Token)
    ensures var d := Step(c, t);
      && (d.sub == AwaitStreet && c.sub != AwaitStreet ==> c.sub == SubVoid)
      && (d.sub == Street && c.sub != Street ==> c.sub == AwaitStreet)
      && (d.sub == AwaitCity && c.sub != AwaitCity ==> c.sub == Street)
      && (d.sub == City && c.sub != City ==> c.sub == AwaitCity)
      && (c.sub == City && d.sub != City ==> (d.sub == SubVoid && d.state == Value) || d.sub == AwaitBalanceOption)
  {
  }

  /** An address value cell: the first text only opens the cell, the second is the street, and
      the text of the inner `<div>` is the post code and city; closing that `<div>` ends the value. */
  lemma AddressCell(c: Config, first: string, street: string, cityLine: string)
    requires c.state == AwaitValue && c.keyword == Some(Address) && c.sub == SubVoid
    ensures var d := EndTagStep(DataStep(StartTagStep(DataStep(DataStep(c, first), street), "div"), cityLine), "div");
      && d.state == Value && d.sub == SubVoid && d.keyword == c.keyword
      && d.record == SetCity(SetAddress(c.record, street), cityLine)
  {
    var c2 := c.(record := SetAddress(c.record, street), sub := Street);
    AddressValueStep(c, first);
    AddressValueStep(c.(sub := AwaitStreet), street);
    AddressValueStep(c2.(sub := AwaitCity), cityLine);
  }

  /** One text of an address value cell, by the sub-state it arrives in. */
  lemma AddressValueStep(c: Config, data: string)
    requires c.state == AwaitValue && c.keyword == Some(Address)
    ensures DataStep(c, data) ==
      if c.sub == SubVoid then c.(sub := AwaitStreet)
      else if c.sub == AwaitStreet then c.(record := SetAddress(c.record, data), sub := Street)
      else if c.sub == AwaitCity then c.(record := SetCity(c.record, data), sub := City)
      else c
  {
    var d := DataStep(c, data);
    assert d == ValueStep(c, data);
    assert d.state == c.state && d.keyword == c.keyword;
    if c.sub == SubVoid {
      assert d.sub == AwaitStreet && d.record == c.record;
    } else if c.sub == AwaitStreet {
      assert d.sub == Street && d.record == SetAddress(c.record, data);
    } else if c.sub == AwaitCity {
      assert d.sub == City && d.record == SetCity(c.record, data);
    } else {
      assert d.sub == c.sub && d.record == c.record;
    }
  }

  /** The tokens of the options of a `<select>`, one text each. */
  function OptionTokens(texts: seq<string>): seq<Token>
  {
    if texts == [] then []
    else OptionTokens(texts[..|texts| - 1]) + [StartTag("option", []), Data(texts[|texts| - 1]), EndTag("option")]
  }

  /** The option texts that hold a balance date, as dates, in order. */
  function BalanceDates(texts: seq<string>): (r: seq<string>)
    ensures |r| <= |texts|
  {
    if texts == [] then []
    else
      var last := BalanceDate(texts[|texts| - 1]);
      BalanceDates(texts[..|texts| - 1]) + (if last.Some? then [last.value] else [])
  }

  /** What one option adds to the list. */
  function OptionDate(text: string): seq<string>
  {
    if BalanceDate(text).Some? then [BalanceDate(text).value] else []
  }

  /** One option inside the `<select>` adds its date, if its text is one. */
  lemma OptionStep(c: Config, t: string)
    requires c.state == AwaitValue && c.keyword == Some(Balance) && c.sub == AwaitBalanceOption
    requires c.record.balance.Some?
    ensures EndTagStep(DataStep(StartTagStep(c, "option"), t), "option")
            == c.(record := c.record.(balance := Some(c.record.balance.value + OptionDate(t))))
  {
    assert c.record.balance.value + [] == c.record.balance.value;
  }

  /** The three tokens of one option. */
  lemma {:induction false} OptionRun(c: Config, ts: seq<Token>, t: string)
    ensures Run(c, ts + [StartTag("option", []), Data(t), EndTag("option")])
            == EndTagStep(DataStep(StartTagStep(Run(c, ts), "option"), t), "option")
  {
    var o := StartTag("option", []);
    RunSnocStart(c, ts, "option", []);
    RunSnocData(c, ts + [o], t);
    RunSnocEnd(c, ts + [o] + [Data(t)], "option");
    assert ts + [o] + [Data(t)] + [EndTag("option")] == ts + [o, Data(t), EndTag("option")];
  }

  /** After the options, still inside the `<select>`, the list holds their dates in order. */
  lemma {:induction false} OptionsCollectDates(c: Config, texts: seq<string>)
    requires c.state == AwaitValue && c.keyword == Some(Balance) && c.sub == AwaitBalanceOption
    requires c.record.balance.Some?
    ensures Run(c, OptionTokens(texts)) == c.(record := c.record.(balance := Some(c.record.balance.value + BalanceDates(texts))))
  {
    if texts == [] {
      assert c.record.balance.value + [] == c.record.balance.value;
    } else {
      var init := texts[..|texts| - 1];
      var t := texts[|texts| - 1];
      OptionsCollectDates(c, init);
      OptionRun(c, OptionTokens(init), t);
      var mid := Run(c, OptionTokens(init));
      OptionStep(mid, t);
      assert BalanceDates(texts) == BalanceDates(init) + OptionDate(t);
      assert c.record.balance.value + BalanceDates(init) + OptionDate(t) == c.record.balance.value + BalanceDates(texts);
    }
  }

  /** A whole `<select>` in the balance row: opening it resets the list, each option whose text
      is a date adds that date in document order, and closing it leaves the balance sub-states. */
  lemma SelectCollectsBalance(c: Config, attrs: seq<Attribute>, texts: seq<string>)
    requires c.state == AwaitValue && c.keyword == Some(Balance)
    ensures var d := Run(c, [StartTag("select", attrs)] + OptionTokens(texts) + [EndTag("select")]);
      && d.state == AwaitValue && d.sub == SubVoid && d.keyword == c.keyword
      && d.record == c.record.(balance := Some(BalanceDates(texts)))
  {
    var open := [StartTag("select", attrs)];
    RunSnocStart(c, [], "select", attrs);
    assert [] + open == open;
    var start := Run(c, open);
    OptionsCollectDates(start, texts);
    RunAppend(c, open, OptionTokens(texts));
    RunSnocEnd(c, open + OptionTokens(texts), "select");
    assert [] + BalanceDates(texts) == BalanceDates(texts);
  }

  // ---------------------------------------------------------------------------------------------
  // LegalEntityInformationParser

  class LegalEntityInformationParser {
    var state: State
    var sub: SubState
    var keyword: Option<Label>
    var result: LegalEntityInformation

    function Snapshot(): Config
      reads this
    {
      Config(state, sub, keyword, result)
    }

    predicate Valid()
      reads this
    {
      Inv(Snapshot())
    }

    constructor ()
      ensures Valid() && Snapshot() == Initial
    {
      state, sub, keyword, result := Void, SubVoid, None, EmptyRecord;
    }

    method HandleStartTag(tag: string, attrs: seq<Attribute>)
      requires Valid()
      modifies this
      ensures Valid() && Snapshot() == Step(old(Snapshot()), StartTag(tag, attrs))
    {
      StepInv(Snapshot(), StartTag(tag, attrs));
      if tag == "h3" {
        state := AwaitHeader;
        return;
      } else if tag == "td" {
        if state == Header {
          state := AwaitCourt;
        } else if state == Name || state == Value {
          state := AwaitKeyword;
        } else if state == Keyword {
          state := AwaitValue;
        }
      } else if tag == "b" {
        if state == AwaitRegistrySection {
          state := AwaitRegistryDetail;
        }
      } else if tag == "div" {
        if state == AwaitValue && sub == Street {
          sub := AwaitCity;
        }
      } else if tag == "select" {
        if state == AwaitValue {
          result := result.(balance := Some([]));
          sub := AwaitBalanceOption;
        }
      } else if tag == "option" {
        if state == AwaitValue {
          if sub == AwaitBalanceOption {
            sub := AwaitBalance;
          }
        }
      }
    }

    method HandleData(data: string)
      requires Valid()
      modifies this
      ensures Valid() && Snapshot() == Step(old(Snapshot()), Data(data))
    {
      StepInv(Snapshot(), Data(data));
      if state == AwaitHeader {
        if Contains(data, HeaderText) {
          state := Header;
        }
      } else if state == AwaitCourt {
        if Contains(data, CourtText) {
          state := AwaitRegistrySection;
        }
      } else if state == AwaitRegistryDetail {
        result := SetRegistry(result, data);
        state := RegistryDetail;
      } else if state == AwaitName {
        result := SetName(result, data);
        state := Name;
      } else if state == AwaitKeyword {
        state := Keyword;
        keyword := FindKeyword(data);
      } else if state == AwaitValue {
        HandleValue(data);
      }
    }

    /** `__handle_value`. */
    method HandleValue(value: string)
      requires Valid()
      modifies this
      ensures Snapshot() == ValueStep(old(Snapshot()), value)
    {
      if keyword == Some(LegalStructure) {
        result := SetStructure(result, value);
      } else if keyword == Some(Capital) {
        result := SetCapital(result, value);
      } else if keyword == Some(EntryDate) {
        result := SetDate(result, value, true);
      } else if keyword == Some(DeletionDate) {
        result := SetDate(result, value, false);
      } else if keyword == Some(Balance) {
        if sub == AwaitBalance {
          result := ProcessBalance(result, value);
        }
      } else if keyword == Some(Address) {
        if sub == SubVoid {
          sub := AwaitStreet;
        } else if sub == AwaitStreet {
          result := SetAddress(result, value);
          sub := Street;
        } else if sub == AwaitCity {
          result := SetCity(result, value);
          sub := City;
        }
      }
    }

    method HandleEndTag(tag: string)
      requires Valid()
      modifies this
      ensures Valid() && Snapshot() == Step(old(Snapshot()), EndTag(tag))
    {
      StepInv(Snapshot(), EndTag(tag));
      if tag == "h3" {
        if state == AwaitHeader {
          state := Void;
        }
      } else if tag == "td" {
        if state == AwaitCourt {
          state := Header;
        } else if state == AwaitValue {
          state := Value;
        }
      } else if tag == "b" {
        if state == RegistryDetail {
          state := AwaitName;
        }
      } else if tag == "div" {
        if sub == City {
          sub := SubVoid;
          state := Value;
        }
      } else if tag == "option" {
        if sub == AwaitBalance {
          sub := AwaitBalanceOption;
        }
      } else if tag == "select" {
        if sub == AwaitBalanceOption {
          sub := SubVoid;
        }
      }
    }

    /** HTMLParser.feed: hands each token to its handler. */
    method Feed(tokens: seq<Token>)
      requires Valid()
      modifies this
      ensures Valid() && Snapshot() == Run(old(Snapshot()), tokens)
    {
      ghost var c0 := Snapshot();
      for n := 0 to |tokens|
        invariant Valid() && Snapshot() == Run(c0, tokens[..n])
      {
        assert tokens[..n + 1][..n] == tokens[..n];
        match tokens[n]
        case StartTag(tag, attrs) => HandleStartTag(tag, attrs);
        case Data(text) => HandleData(text);
        case EndTag(tag) => HandleEndTag(tag);
      }
      assert tokens[..|tokens|] == tokens;
    }
  }
}
