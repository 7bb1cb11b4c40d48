/** The registry-court directory (comreg/court.py): the courts offered by the search form's
    `registergericht` select, indexed by name and by identifier, with exact and closest-match
    lookups, and the state machine that reads them from the form's tokens. */
module Courts {
  import opened Wrappers
  import opened Text
  import opened Html

  /** A Court object; both fields default to None. */
  datatype Court = Court(identifier: Option<string>, name: Option<string>)

  // ---------------------------------------------------------------------------------------------
  // Python dictionaries keep their keys in first-insertion order; a later value for a key already
  // present replaces the value and keeps the key's place.

  datatype OrderedMap = OrderedMap(keys: seq<Option<string>>, values: map<Option<string>, Court>)

  predicate Distinct<K(==)>(s: seq<K>)
  {
    forall i, j | 0 <= i < j < |s| :: s[i] != s[j]
  }

  predicate WellFormed(m: OrderedMap)
  {
    Distinct(m.keys) && m.values.Keys == set i | 0 <= i < |m.keys| :: m.keys[i]
  }

  /** `d[k] = v`. */
  function Insert(m: OrderedMap, k: Option<string>, v: Court): (r: OrderedMap)
    requires WellFormed(m)
    ensures WellFormed(r)
    ensures r.values == m.values[k := v]
    ensures k in m.values ==> r.keys == m.keys
    ensures k !in m.values ==> r.keys == m.keys + [k]
  {
    if k in m.values then OrderedMap(m.keys, m.values[k := v])
    else
      var keys := m.keys + [k];
      assert (set i | 0 <= i < |keys| :: keys[i]) == m.values.Keys + {k} by {
        assert forall i | 0 <= i < |m.keys| :: keys[i] == m.keys[i];
        assert keys[|m.keys|] == k;
      }
      OrderedMap(keys, m.values[k := v])
  }

  /** `dict([(key(x), x) for x in xs])`. */
  function IndexBy(courts: seq<Court>, key: Court -> Option<string>): (m: OrderedMap)
    ensures WellFormed(m)
  {
    if courts == [] then OrderedMap([], map[])
    else Insert(IndexBy(courts[..|courts| - 1], key), key(courts[|courts| - 1]), courts[|courts| - 1])
  }

  /** `courts[i]` is the last court whose key is `k`. */
  predicate LastWithKey(courts: seq<Court>, key: Court -> Option<string>, k: Option<string>, i: int)
  {
    0 <= i < |courts| && key(courts[i]) == k && forall j | i < j < |courts| :: key(courts[j]) != k
  }

  /** The index holds a key exactly when some court carries it, and then the last such court. */
  lemma {:induction false} IndexByLastWins(courts: seq<Court>, key: Court -> Option<string>)
    ensures forall k :: k in IndexBy(courts, key).values <==> exists i | 0 <= i < |courts| :: key(courts[i]) == k
    ensures forall k, i | LastWithKey(courts, key, k, i) :: IndexBy(courts, key).values[k] == courts[i]
  {
    if courts != [] {
      var init := courts[..|courts| - 1];
      var last := courts[|courts| - 1];
      IndexByLastWins(init, key);
      forall k | exists i | 0 <= i < |courts| :: key(courts[i]) == k
        ensures k in IndexBy(courts, key).values
      {
        var i :| 0 <= i < |courts| && key(courts[i]) == k;
        if i < |courts| - 1 {
          assert key(init[i]) == k;
        }
      }
      forall k | k in IndexBy(courts, key).values
        ensures exists i | 0 <= i < |courts| :: key(courts[i]) == k
      {
        if k != key(last) {
          assert k in IndexBy(init, key).values;
          var i :| 0 <= i < |init| && key(init[i]) == k;
          assert key(courts[i]) == k;
        } else {
          assert key(courts[|courts| - 1]) == k;
        }
      }
      forall k, i | LastWithKey(courts, key, k, i)
        ensures IndexBy(courts, key).values[k] == courts[i]
      {
        if i < |courts| - 1 {
          assert LastWithKey(init, key, k, i);
        }
      }
    }
  }

  /** `courts[i]` is the first court whose key is `k`. */
  predicate FirstWithKey(courts: seq<Court>, key: Court -> Option<string>, k: Option<string>, i: int)
  {
    0 <= i < |courts| && key(courts[i]) == k && forall j | 0 <= j < i :: key(courts[j]) != k
  }

  /** A key that already occurs before the last court has its first court there. */
  lemma FirstWithKeyInInit(courts: seq<Court>, key: Court -> Option<string>, k: Option<string>, i: int, i0: nat)
    requires FirstWithKey(courts, key, k, i) && i0 < |courts| - 1 && key(courts[i0]) == k
    ensures FirstWithKey(courts[..|courts| - 1], key, k, i)
  {
    assert i <= i0;
  }

  /** The index keeps its keys in the order in which they first occur in the list: of two keys, the
      one whose first court comes earlier comes first.  This is the dictionary order in which the
      closest-name lookup scans the names. */
  lemma {:induction false} IndexByFirstOccurrence(courts: seq<Court>, key: Court -> Option<string>, p: nat, q: nat, i: int, j: int)
    requires p < q < |IndexBy(courts, key).keys|
    requires FirstWithKey(courts, key, IndexBy(courts, key).keys[p], i) && FirstWithKey(courts, key, IndexBy(courts, key).keys[q], j)
    ensures i < j
  {
    var init := courts[..|courts| - 1];
    var last := courts[|courts| - 1];
    var m0 := IndexBy(init, key);
    var keys := IndexBy(courts, key).keys;
    IndexByLastWins(init, key);
    assert m0.keys <= keys && |keys| <= |m0.keys| + 1;
    var kp := m0.keys[p];
    assert kp in m0.values;
    var i0 :| 0 <= i0 < |init| && key(init[i0]) == kp;
    FirstWithKeyInInit(courts, key, kp, i, i0);
    if q < |m0.keys| {
      var kq := m0.keys[q];
      assert kq in m0.values;
      var j0 :| 0 <= j0 < |init| && key(init[j0]) == kq;
      FirstWithKeyInInit(courts, key, kq, j, j0);
      IndexByFirstOccurrence(init, key, p, q, i, j);
    } else {
      assert keys[q] == key(last) && key(last) !in m0.values;
      assert j == |init|;
    }
  }

  /** A sequence without repetitions is as long as its set of elements. */
  lemma {:induction false} DistinctCardinality<K>(s: seq<K>)
    requires Distinct(s)
    ensures |set i | 0 <= i < |s| :: s[i]| == |s|
  {
    if s != [] {
      var init := s[..|s| - 1];
      DistinctCardinality(init);
      var a := set i | 0 <= i < |init| :: init[i];
      var b := set i | 0 <= i < |s| :: s[i];
      assert b == a + {s[|s| - 1]} by {
        forall x | x in b ensures x in a + {s[|s| - 1]} {
          var i :| 0 <= i < |s| && s[i] == x;
          if i < |s| - 1 { assert init[i] == x; }
        }
        forall x | x in a ensures x in b {
          var i :| 0 <= i < |init| && init[i] == x;
          assert s[i] == x;
        }
      }
      assert s[|s| - 1] !in a;
    }
  }

  // ---------------------------------------------------------------------------------------------
  // CourtList

  datatype CourtList = CourtList(nameMap: OrderedMap, identifierMap: OrderedMap)

  function NameOf(c: Court): Option<string> { c.name }

  function IdentifierOf(c: Court): Option<string> { c.identifier }

  /** `CourtList(court_list)`: both indexes, built from the same list. */
  function NewCourtList(courts: seq<Court>): (l: CourtList)
    ensures WellFormed(l.nameMap) && WellFormed(l.identifierMap)
  {
    CourtList(IndexBy(courts, NameOf), IndexBy(courts, IdentifierOf))
  }

  /** `get_from_name`: None for a None name, otherwise the court indexed under it. */
  function GetFromName(l: CourtList, name: Option<string>): (r: Option<Court>)
    ensures name.None? ==> r.None?
    ensures r.Some? ==> name in l.nameMap.values && r.value == l.nameMap.values[name]
    ensures r.None? && name.Some? ==> name !in l.nameMap.values
  {
    if name.None? || name !in l.nameMap.values then None else Some(l.nameMap.values[name])
  }

  /** `get_from_identifier`: the court indexed under the identifier, None included. */
  function GetFromIdentifier(l: CourtList, identifier: Option<string>): (r: Option<Court>)
    ensures r.Some? ==> identifier in l.identifierMap.values && r.value == l.identifierMap.values[identifier]
    ensures r.None? ==> identifier !in l.identifierMap.values
  {
    if identifier in l.identifierMap.values then Some(l.identifierMap.values[identifier]) else None
  }

  /** `len`: the number of names. */
  function Len(l: CourtList): (n: nat)
    requires WellFormed(l.nameMap)
    ensures n == |l.nameMap.values.Keys|
  {
    assert l.nameMap.values.Keys == set i | 0 <= i < |l.nameMap.keys| :: l.nameMap.keys[i];
    DistinctCardinality(l.nameMap.keys);
    |l.nameMap.keys|
  }

  /** Exact lookup by name finds the last court of that name in the list, and never a court
      without a name. */
  lemma GetFromNameIsLastCourt(courts: seq<Court>, name: string, i: nat)
    requires LastWithKey(courts, NameOf, Some(name), i)
    ensures GetFromName(NewCourtList(courts), Some(name)) == Some(courts[i])
  {
    IndexByLastWins(courts, NameOf);
  }

  lemma GetFromNameMissing(courts: seq<Court>, name: Option<string>)
    requires forall i | 0 <= i < |courts| :: courts[i].name != name
    ensures GetFromName(NewCourtList(courts), name) == None
  {
    IndexByLastWins(courts, NameOf);
    assert forall i | 0 <= i < |courts| :: NameOf(courts[i]) != name;
  }

  /** Exact lookup by identifier finds the last court with that identifier, and None when no
      court carries it. */
  lemma GetFromIdentifierIsLastCourt(courts: seq<Court>, identifier: Option<string>, i: nat)
    requires LastWithKey(courts, IdentifierOf, identifier, i)
    ensures GetFromIdentifier(NewCourtList(courts), identifier) == Some(courts[i])
  {
    IndexByLastWins(courts, IdentifierOf);
  }

  lemma GetFromIdentifierMissing(courts: seq<Court>, identifier: Option<string>)
    requires forall i | 0 <= i < |courts| :: courts[i].identifier != identifier
    ensures GetFromIdentifier(NewCourtList(courts), identifier) == None
  {
    IndexByLastWins(courts, IdentifierOf);
    assert forall i | 0 <= i < |courts| :: IdentifierOf(courts[i]) != identifier;
  }

  /** The length of the list is the number of distinct names among the courts. */
  lemma LenCountsNames(courts: seq<Court>)
    ensures Len(NewCourtList(courts)) == |set i | 0 <= i < |courts| :: courts[i].name|
  {
    IndexByLastWins(courts, NameOf);
    var l := NewCourtList(courts);
    var names := set i | 0 <= i < |courts| :: courts[i].name;
    assert l.nameMap.values.Keys == names by {
      forall k | k in names ensures k in l.nameMap.values {
        var i :| 0 <= i < |courts| && courts[i].name == k;
        assert NameOf(courts[i]) == k;
      }
    }
  }

  // ---------------------------------------------------------------------------------------------
  // get_closest_from_name.  The pattern `.*\(name\).*` is matched from the start of the court's
  // name, so "(name)" must start within its first line.  A court without a name makes re.match
  // raise a TypeError; the similarity ratio of difflib is a parameter.

  predicate Tagged(courtName: string, name: string)
  {
    exists i: nat | i <= |courtName| :: LineAt(courtName, 0, i) && OccursAt(courtName, "(" + name + ")", i)
  }

  /** The first loop stops at this key: a match, or the TypeError of a missing name. */
  predicate Stops(key: Option<string>, name: string)
  {
    key.None? || Tagged(key.value, name)
  }

  predicate NoStopBefore(keys: seq<Option<string>>, j: nat, name: string)
  {
    j <= |keys| && forall i | 0 <= i < j :: !Stops(keys[i], name)
  }

  /** The similarity ratio of `name` to each key, in map order. */
  function RatiosOf(keys: seq<Option<string>>, name: string, ratio: (string, string) -> real): (rs: seq<real>)
    ensures |rs| == |keys|
    ensures forall i | 0 <= i < |keys| && keys[i].Some? :: rs[i] == ratio(name, keys[i].value)
  {
    seq(|keys|, i requires 0 <= i < |keys| => if keys[i].Some? then ratio(name, keys[i].value) else 0.0)
  }

  /** `rs[i]` is positive and the first occurrence of the greatest value. */
  predicate FirstMaximum(rs: seq<real>, i: int)
  {
    && 0 <= i < |rs| && 0.0 < rs[i]
    && (forall k | 0 <= k < i :: rs[k] < rs[i])
    && (forall k | i < k < |rs| :: rs[k] <= rs[i])
  }

  lemma FirstMaximumUnique(rs: seq<real>, i: int, j: int)
    requires FirstMaximum(rs, i) && FirstMaximum(rs, j)
    ensures i == j
  {
  }

  /** `best` is what the ratio loop leaves: None when no ratio is positive, and otherwise the court
      of the first key with the greatest ratio. */
  ghost predicate BestRatio(m: OrderedMap, name: string, ratio: (string, string) -> real, best: Option<Court>)
    requires WellFormed(m)
  {
    var rs := RatiosOf(m.keys, name, ratio);
    (best.None? <==> forall i | 0 <= i < |rs| :: rs[i] <= 0.0)
    && (best.Some? ==> exists i | FirstMaximum(rs, i) :: best.value == m.values[m.keys[i]])
  }

  /** The tie-breaking rule leaves one choice: the closest match is determined by the map, the name
      and the ratio. */
  lemma BestRatioUnique(m: OrderedMap, name: string, ratio: (string, string) -> real, b1: Option<Court>, b2: Option<Court>)
    requires WellFormed(m)
    requires BestRatio(m, name, ratio, b1) && BestRatio(m, name, ratio, b2)
    ensures b1 == b2
  {
    var rs := RatiosOf(m.keys, name, ratio);
    if b1.Some? && b2.Some? {
      var i1 :| FirstMaximum(rs, i1) && b1.value == m.values[m.keys[i1]];
      var i2 :| FirstMaximum(rs, i2) && b2.value == m.values[m.keys[i2]];
      FirstMaximumUnique(rs, i1, i2);
    }
  }

  /** `get_closest_from_name`: the first court whose name holds "(name)", or else the court with
      the strictly greatest similarity ratio; Failure stands for the TypeError raised at a court
      without a name before any match. */
  method GetClosestFromName(l: CourtList, name: Option<string>, ratio: (string, string) -> real) returns (r: Result<Option<Court>>)
    requires WellFormed(l.nameMap)
    ensures name.None? ==> r == Success(None)
    ensures name.Some? ==>
              forall j | 0 <= j < |l.nameMap.keys| && NoStopBefore(l.nameMap.keys, j, name.value) && l.nameMap.keys[j].None? ::
                r.Failure?
    ensures name.Some? ==>
              forall j | 0 <= j < |l.nameMap.keys| && NoStopBefore(l.nameMap.keys, j, name.value) && Stops(l.nameMap.keys[j], name.value) && l.nameMap.keys[j].Some? ::
                r == Success(Some(l.nameMap.values[l.nameMap.keys[j]]))
    ensures name.Some? && NoStopBefore(l.nameMap.keys, |l.nameMap.keys|, name.value) ==>
              r.Success? && BestRatio(l.nameMap, name.value, ratio, r.value)
    ensures r.Failure? ==> (
              && name.Some?
              && exists j | 0 <= j < |l.nameMap.keys| :: NoStopBefore(l.nameMap.keys, j, name.value) && l.nameMap.keys[j].None?)
  {
    if name.None? {
      return Success(None);
    }
    var n := name.value;
    var keys := l.nameMap.keys;
    for j := 0 to |keys|
      invariant NoStopBefore(keys, j, n)
    {
      match keys[j]
      case None =>
        return Failure("expected string or bytes-like object");
      case Some(k) =>
        if Tagged(k, n) {
          return Success(Some(l.nameMap.values[keys[j]]));
        }
    }
    ghost var rs := RatiosOf(keys, n, ratio);
    var best: real := 0.0;
    var court: Option<Court> := None;
    ghost var at: nat := 0;
    for j := 0 to |keys|
      invariant court.None? ==> best == 0.0 && forall i | 0 <= i < j :: rs[i] <= 0.0
      invariant court.Some? ==>
                  && at < j && court.value == l.nameMap.values[keys[at]] && best == rs[at] && 0.0 < best
                  && (forall k | 0 <= k < at :: rs[k] < best)
                  && (forall k | at < k < j :: rs[k] <= best)
    {
      assert !Stops(keys[j], n);
      var rj := ratio(n, keys[j].value);
      if rj > best {
        court := Some(l.nameMap.values[keys[j]]);
        best := rj;
        at := j;
      }
    }
    assert court.Some? ==> FirstMaximum(rs, at);
    return Success(court);
  }

  // ---------------------------------------------------------------------------------------------
  // CourtListParser

  datatype State = Void | AwaitOption | AwaitName | Name

  /** The parser's fields: its state, the court being read and the courts read so far. */
  datatype Config = Config(state: State, court: Option<Court>, result: seq<Court>)

  const Initial := Config(Void, None, [])

  /** An identifier the form offers: `\A[A-Z]\d{4}\Z`, one upper-case letter and four digits. */
  predicate ValidIdentifier(s: string)
  {
    |s| == 5 && IsUpper(s[0]) && AllDigits(s[1..])
  }

  /** A `<select>` names the court select when one of its attributes is `name="registergericht"`. */
  predicate NamesCourtSelect(attrs: seq<Attribute>)
  {
    exists i | 0 <= i < |attrs| :: attrs[i] == Attribute("name", Some("registergericht"))
  }

  /** Where the last `value` attribute is: the loop over the attributes keeps overwriting. */
  function LastValueIndex(attrs: seq<Attribute>): (r: Option<nat>)
    ensures r.None? ==> forall i | 0 <= i < |attrs| :: attrs[i].name != "value"
    ensures r.Some? ==> r.value < |attrs| && attrs[r.value].name == "value"
                        && forall j | r.value < j < |attrs| :: attrs[j].name != "value"
  {
    if attrs == [] then None
    else if attrs[|attrs| - 1].name == "value" then Some(|attrs| - 1)
    else
      assert forall i | 0 <= i < |attrs| - 1 :: attrs[..|attrs| - 1][i] == attrs[i];
      LastValueIndex(attrs[..|attrs| - 1])
  }

  /** The value of the last `value` attribute, if there is one. */
  function LastValue(attrs: seq<Attribute>): Option<string>
  {
    match LastValueIndex(attrs)
    case None => None
    case Some(i) => attrs[i].value
  }

  function StartTagStep(c: Config, tag: string, attrs: seq<Attribute>): Config
  {
    if tag == "select" then (if NamesCourtSelect(attrs) then c.(state := AwaitOption) else c)
    else if tag == "option" then
      (if c.state != AwaitOption then c
       else
         var identifier := LastValue(attrs);
         if identifier.Some? && ValidIdentifier(identifier.value)
         then c.(court := Some(Court(identifier, None)), state := AwaitName)
         else c.(state := Name))
    else c
  }

  /** The text of an option names the court that its start tag created.  (In AwaitName there is
      always such a court: see Inv.) */
  function DataStep(c: Config, data: string): Config
  {
    if c.state == AwaitName && c.court.Some? then c.(court := Some(c.court.value.(name := Some(Strip(data)))), state := Name)
    else c
  }

  /** Closing an option hands its court to the result, once. */
  function EndTagStep(c: Config, tag: string): Config
  {
    if tag == "select" then (if c.state == AwaitOption then c.(state := Void) else c)
    else if tag == "option" then
      (if c.state != Name then c
       else if c.court.Some? then c.(state := AwaitOption, result := c.result + [c.court.value], court := None)
       else c.(state := AwaitOption))
    else c
  }

  function Step(c: Config, t: Token): Config
  {
    match t
    case StartTag(tag, attrs) => StartTagStep(c, tag, attrs)
    case Data(text) => DataStep(c, text)
    case EndTag(tag) => EndTagStep(c, tag)
  }

  function Run(c: Config, tokens: seq<Token>): Config
  {
    if tokens == [] then c else Step(Run(c, tokens[..|tokens| - 1]), tokens[|tokens| - 1])
  }

  // ---------------------------------------------------------------------------------------------
  // Properties of the transitions.

  /** Every court held or read carries a valid identifier, and a court is at hand whenever a name
      is awaited. */
  predicate Inv(c: Config)
  {
    && (c.state == AwaitName ==> c.court.Some?)
    && (c.court.Some? ==> c.court.value.identifier.Some? && ValidIdentifier(c.court.value.identifier.value))
    && (forall i | 0 <= i < |c.result| :: c.result[i].identifier.Some? && ValidIdentifier(c.result[i].identifier.value))
  }

  lemma StepInv(c: Config, t: Token)
    requires Inv(c)
    ensures Inv(Step(c, t))
  {
  }

  lemma {:induction false} RunInv(c: Config, tokens: seq<Token>)
    requires Inv(c)
    ensures Inv(Run(c, tokens))
  {
    if tokens != [] {
      RunInv(c, tokens[..|tokens| - 1]);
      StepInv(Run(c, tokens[..|tokens| - 1]), tokens[|tokens| - 1]);
    }
  }

  /** A step appends at most one court, and only when it closes an option whose name was read. */
  lemma StepAppendsAtMostOne(c: Config, t: Token)
    ensures Step(c, t).result == c.result
            || (t == EndTag("option") && c.state == Name && c.court.Some? && Step(c, t).result == c.result + [c.court.value])
  {
  }

  /** The result is append-only. */
  lemma {:induction false} RunExtends(c: Config, tokens: seq<Token>)
    ensures c.result <= Run(c, tokens).result
  {
    if tokens != [] {
      RunExtends(c, tokens[..|tokens| - 1]);
      StepAppendsAtMostOne(Run(c, tokens[..|tokens| - 1]), tokens[|tokens| - 1]);
    }
  }

  /** Options are looked at only while the court select is open and no option is pending. */
  lemma OptionOutsideSelect(c: Config, attrs: seq<Attribute>)
    requires c.state != AwaitOption
    ensures StartTagStep(c, "option", attrs) == c
  {
  }

  /** A `<select>` opens the court select exactly when it is named so; any other leaves the state. */
  lemma SelectOpens(c: Config, attrs: seq<Attribute>)
    ensures NamesCourtSelect(attrs) ==> StartTagStep(c, "select", attrs) == c.(state := AwaitOption)
    ensures !NamesCourtSelect(attrs) ==> StartTagStep(c, "select", attrs) == c
  {
  }

  /** `</select>` closes the court select only while no option is pending. */
  lemma SelectCloses(c: Config)
    ensures c.state == AwaitOption ==> EndTagStep(c, "select") == c.(state := Void)
    ensures c.state != AwaitOption ==> EndTagStep(c, "select") == c
  {
  }

  /** One option of the court select, `<option value=v>text</option>`: with a valid identifier the
      court (v, stripped text) is appended, otherwise nothing changes. */
  lemma OptionEntry(c: Config, attrs: seq<Attribute>, text: string)
    requires c.state == AwaitOption && c.court.None?
    ensures var d := EndTagStep(DataStep(StartTagStep(c, "option", attrs), text), "option");
            var v := LastValue(attrs);
            if v.Some? && ValidIdentifier(v.value)
            then d == c.(result := c.result + [Court(v, Some(Strip(text)))])
            else d == c
  {
  }

  /** A court list read from the form answers no lookup by an identifier the form could not offer. */
  lemma ParsedListRejectsInvalidIdentifier(tokens: seq<Token>, identifier: string)
    requires !ValidIdentifier(identifier)
    ensures GetFromIdentifier(NewCourtList(Run(Initial, tokens).result), Some(identifier)) == None
  {
    RunInv(Initial, tokens);
    GetFromIdentifierMissing(Run(Initial, tokens).result, Some(identifier));
  }

  class CourtListParser {
    var state: State
    var court: Option<Court>
    var result: seq<Court>

    function Snapshot(): Config
      reads this
    {
      Config(state, court, result)
    }

    ghost predicate Valid()
      reads this
    {
      Inv(Snapshot())
    }

    constructor ()
      ensures Valid() && Snapshot() == Initial
    {
      state, court, result := Void, None, [];
    }

    method HandleStartTag(tag: string, attrs: seq<Attribute>)
      requires Valid()
      modifies this
      ensures Valid() && Snapshot() == StartTagStep(old(Snapshot()), tag, attrs)
    {
      StepInv(Snapshot(), StartTag(tag, attrs));
      if tag == "select" {
        ghost var s0 := state;
        for n := 0 to |attrs|
          invariant court == old(court) && result == old(result)
          invariant state == (if exists i | 0 <= i < n :: attrs[i] == Attribute("name", Some("registergericht")) then AwaitOption else s0)
        {
          if attrs[n].name == "name" && attrs[n].value == Some("registergericht") {
            state := AwaitOption;
          }
        }
      } else if tag == "option" {
        if state != AwaitOption {
          return;
        }
        var identifier: Option<string> := None;
        for n := 0 to |attrs|
          invariant Snapshot() == old(Snapshot())
          invariant identifier == LastValue(attrs[..n])
        {
          assert attrs[..n + 1][..n] == attrs[..n];
          if attrs[n].name == "value" {
            identifier := attrs[n].value;
          }
        }
        assert attrs[..|attrs|] == attrs;
        if identifier.Some? && identifier.value != "" && ValidIdentifier(identifier.value) {
          court := Some(Court(identifier, None));
          state := AwaitName;
        } else {
          state := Name;
        }
      }
    }

    method HandleData(data: string)
      requires Valid()
      modifies this
      ensures Valid() && Snapshot() == DataStep(old(Snapshot()), data)
    {
      if state == AwaitName {
        court := Some(court.value.(name := Some(Strip(data))));
        state := Name;
      }
    }

    method HandleEndTag(tag: string)
      requires Valid()
      modifies this
      ensures Valid() && Snapshot() == EndTagStep(old(Snapshot()), tag)
    {
      if tag == "select" {
        if state == AwaitOption {
          state := Void;
        }
      } else if tag == "option" {
        if state == Name {
          state := AwaitOption;
          if court.Some? {
            result := result + [court.value];
            court := None;
          }
        }
      }
    }

    method Feed(tokens: seq<Token>)
      requires Valid()
      modifies this
      ensures Valid() && Snapshot() == Run(old(Snapshot()), tokens)
    {
      for n := 0 to |tokens|
        invariant Valid() && Snapshot() == Run(old(Snapshot()), tokens[..n])
      {
        assert tokens[..n + 1][..n] == tokens[..n];
        match tokens[n]
        case StartTag(tag, attrs) => HandleStartTag(tag, attrs);
        case Data(text) => HandleData(text);
        case EndTag(tag) => HandleEndTag(tag);
      }
      assert tokens[..|tokens|] == tokens;
    }
  }
}
