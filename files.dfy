/** The input reader and the three output writers (source/file.py).  The CSV library is left out: the
    reader works on the rows it would deliver, and a writer's file is the sequence of rows written
    to it, each row a sequence of cells. */
module Files {
  import opened Wrappers
  import opened Text
  import EntityFields
  import Entity
  import DocumentsTree

  // ---------------------------------------------------------------------------------------------
  // The registry identifier of an input row:  ^\D*(\d+ ?\w{0,2})\s*$

  /** One way the pattern can match: non-digits up to `a`, `d` digits, `sp` spaces (0 or 1) and `w`
      word characters (at most 2), then only whitespace. */
  datatype IdSplit = IdSplit(a: nat, d: nat, sp: nat, w: nat)

  /** `n` word characters (the class \w) start at `i`. */
  predicate WordsAt(s: string, i: nat, n: nat) { i + n <= |s| && forall k | i <= k < i + n :: IsWordChar(s[k]) }

  /** The optional space after the digits. */
  predicate SpaceOk(s: string, x: IdSplit)
  {
    x.a + x.d + x.sp <= |s| && x.sp <= 1 && (x.sp == 1 ==> s[x.a + x.d] == ' ')
  }

  /** The word characters and the trailing whitespace. */
  predicate WordsOk(s: string, x: IdSplit)
  {
    var q := x.a + x.d + x.sp;
    x.w <= 2 && WordsAt(s, q, x.w) && BlankFrom(s, q + x.w)
  }

  predicate RowIdOk(s: string, x: IdSplit)
  {
    x.a <= |s| && (forall k | 0 <= k < x.a :: !IsDigit(s[k])) && 1 <= x.d && DigitsAt(s, x.a, x.d)
    && SpaceOk(s, x) && WordsOk(s, x)
  }

  /** `x` comes no later than `y` in the order Python tries them: more digits first, then the space
      before its absence, then more word characters. */
  predicate TriedFirst(x: IdSplit, y: IdSplit)
  {
    x.d > y.d || (x.d == y.d && (x.sp > y.sp || (x.sp == y.sp && x.w >= y.w)))
  }

  /** `x` is a match and no match is tried before it: the match Python reports. */
  ghost predicate PythonsMatch(s: string, x: IdSplit)
  {
    RowIdOk(s, x) && forall y: IdSplit | RowIdOk(s, y) :: TriedFirst(x, y)
  }

  /** `\w{0,2}\s*$` after `a + d + sp`, greedy: `w`, `w - 1`, ..., 0 word characters. */
  function RowIdWords(s: string, a: nat, d: nat, sp: nat, w: nat): (r: Option<IdSplit>)
    requires w <= 2 && SpaceOk(s, IdSplit(a, d, sp, 0))
    ensures r.Some? ==> r.value == IdSplit(a, d, sp, r.value.w) && r.value.w <= w && WordsOk(s, r.value)
    ensures r.Some? ==> forall v: nat | v <= w && WordsOk(s, IdSplit(a, d, sp, v)) :: v <= r.value.w
    ensures r.None? ==> forall v: nat | v <= w :: !WordsOk(s, IdSplit(a, d, sp, v))
    decreases w
  {
    var q := a + d + sp;
    if WordsAt(s, q, w) && BlankFrom(s, q + w) then Some(IdSplit(a, d, sp, w))
    else if w == 0 then None
    else RowIdWords(s, a, d, sp, w - 1)
  }

  /** ` ?` after `a + d`, greedy: the space when there is one, then its absence. */
  function RowIdSpace(s: string, a: nat, d: nat): (r: Option<IdSplit>)
    requires a + d <= |s|
    ensures r.Some? ==> r.value.a == a && r.value.d == d && SpaceOk(s, r.value) && WordsOk(s, r.value)
    ensures r.Some? ==> forall sp: nat, w: nat | SpaceOk(s, IdSplit(a, d, sp, w)) && WordsOk(s, IdSplit(a, d, sp, w)) ::
      TriedFirst(r.value, IdSplit(a, d, sp, w))
    ensures r.None? ==> forall sp: nat, w: nat | SpaceOk(s, IdSplit(a, d, sp, w)) :: !WordsOk(s, IdSplit(a, d, sp, w))
  {
    var with := if a + d < |s| && s[a + d] == ' ' then RowIdWords(s, a, d, 1, 2) else None;
    if with.Some? then with else RowIdWords(s, a, d, 0, 2)
  }

  /** `\d+` at `a`, greedy: `d`, `d - 1`, ..., 1 digits. */
  function RowIdDigits(s: string, a: nat, d: nat): (r: Option<IdSplit>)
    requires DigitsAt(s, a, d)
    ensures r.Some? ==> r.value.a == a && 1 <= r.value.d <= d && DigitsAt(s, a, r.value.d) && SpaceOk(s, r.value) && WordsOk(s, r.value)
    ensures r.Some? ==> forall e: nat, sp: nat, w: nat | 1 <= e <= d && SpaceOk(s, IdSplit(a, e, sp, w)) && WordsOk(s, IdSplit(a, e, sp, w)) ::
      TriedFirst(r.value, IdSplit(a, e, sp, w))
    ensures r.None? ==> forall e: nat, sp: nat, w: nat | 1 <= e <= d && SpaceOk(s, IdSplit(a, e, sp, w)) :: !WordsOk(s, IdSplit(a, e, sp, w))
    decreases d
  {
    if d == 0 then None
    else
      match RowIdSpace(s, a, d)
      case Some(x) => Some(x)
      case None => RowIdDigits(s, a, d - 1)
  }

  /** The position of the first digit from `i` on, or the end. */
  function FirstDigit(s: string, i: nat): (a: nat)
    requires i <= |s|
    ensures i <= a <= |s| && (forall k | i <= k < a :: !IsDigit(s[k])) && (a == |s| || IsDigit(s[a]))
    decreases |s| - i
  {
    if i == |s| || IsDigit(s[i]) then i else FirstDigit(s, i + 1)
  }

  /** The pattern against `s`: a match exactly when one exists, and then the one Python picks.
      `\D*` cannot pass a digit and `\d+` needs one, so every match starts at the first digit. */
  function RowIdMatch(s: string): (r: Option<IdSplit>)
    ensures r.Some? ==> RowIdOk(s, r.value)
    ensures r.Some? ==> forall x: IdSplit {:trigger RowIdOk(s, x)} | RowIdOk(s, x) :: x.a == r.value.a && TriedFirst(r.value, x)
    ensures r.None? <==> forall x: IdSplit :: !RowIdOk(s, x)
  {
    var a := FirstDigit(s, 0);
    assert forall x: IdSplit {:trigger RowIdOk(s, x)} | RowIdOk(s, x) :: x.a == a && x.d <= DigitRun(s, a) by {
      forall x: IdSplit {:trigger RowIdOk(s, x)} | RowIdOk(s, x) ensures x.a == a && x.d <= DigitRun(s, a) {
        assert IsDigit(s[x.a]);
      }
    }
    if a == |s| then None
    else
      var r := RowIdDigits(s, a, DigitRun(s, a));
      assert forall x: IdSplit {:trigger RowIdOk(s, x)} | RowIdOk(s, x) :: x == IdSplit(a, x.d, x.sp, x.w) && 1 <= x.d <= DigitRun(s, a);
      assert r.Some? ==> RowIdOk(s, r.value);
      r
  }

  /** Group 1 of the pattern, or None when it does not match: the text of the match Python tries
      first. */
  function RowRegistryId(s: string): (r: Option<string>)
    ensures r.None? <==> forall x: IdSplit :: !RowIdOk(s, x)
    ensures r.Some? ==> exists x: IdSplit {:trigger PythonsMatch(s, x)} | PythonsMatch(s, x) :: r.value == s[x.a..x.a + x.d + x.sp + x.w]
  {
    match RowIdMatch(s)
    case None => None
    case Some(m) =>
      assert PythonsMatch(s, m);
      Some(s[m.a..m.a + m.d + m.sp + m.w])
  }

  /** A digit, a space and a letter at the end are kept together; the text before the first digit
      and the whitespace after the match are dropped. */
  lemma RowRegistryIdExample()
    ensures RowRegistryId("HRB 12345 B ") == Some("12345 B")
  {
    var s := "HRB 12345 B ";
    ExampleDigits();
    ExampleWords();
    assert RowIdSpace(s, 4, 5) == Some(IdSplit(4, 5, 1, 1));
    assert RowIdMatch(s) == Some(IdSplit(4, 5, 1, 1));
    assert s[4..11] == "12345 B";
  }

  lemma ExampleDigits()
    ensures FirstDigit("HRB 12345 B ", 0) == 4 && DigitRun("HRB 12345 B ", 4) == 5
  {
    var s := "HRB 12345 B ";
    assert FirstDigit(s, 4) == 4;
    assert !IsDigit(s[0]) && !IsDigit(s[1]) && !IsDigit(s[2]) && !IsDigit(s[3]);
    assert DigitsAt(s, 4, 5) && !IsDigit(s[9]);
  }

  lemma ExampleWords()
    ensures RowIdWords("HRB 12345 B ", 4, 5, 1, 2) == Some(IdSplit(4, 5, 1, 1))
  {
    var s := "HRB 12345 B ";
    assert RowIdWords(s, 4, 5, 1, 1) == Some(IdSplit(4, 5, 1, 1)) by {
      assert WordsAt(s, 10, 1) && BlankFrom(s, 11);
    }
    assert !IsWordChar(s[11]);
  }

  // ---------------------------------------------------------------------------------------------
  // SearchInputDataFileReader

  /** One input record: the name, and the optional type, identifier and court. */
  datatype SearchInputRecord = SearchInputRecord(
    name: string, registryType: Option<string>, registryId: Option<string>, registryCourt: Option<string>)

  /** `__next__` on one row: fewer than six fields give None; the name is column 0, the identifier
      is taken from column 2, the type (column 3) is kept only when it is a known one, and the
      court is column 5. */
  function DecodeRow(raw: seq<string>): (r: Option<SearchInputRecord>)
    ensures r.None? <==> |raw| < 6
    ensures r.Some? ==> r.value.name == raw[0] && r.value.registryCourt == Some(raw[5])
    ensures r.Some? ==> (r.value.registryType.Some? <==> raw[3] in EntityFields.RegistryTypes)
    ensures r.Some? && r.value.registryType.Some? ==> r.value.registryType.value == raw[3]
    ensures r.Some? ==> r.value.registryId == RowRegistryId(raw[2])
  {
    if |raw| < 6 then None
    else
      var t := if raw[3] in EntityFields.RegistryTypes then Some(raw[3]) else None;
      Some(SearchInputRecord(raw[0], t, RowRegistryId(raw[2]), Some(raw[5])))
  }

  /** What one call of `__next__` yields: the end of the input, or a record (None for a short row). */
  datatype ReadStep = Stop | Record(record: Option<SearchInputRecord>)

  /** The records of the data rows, in order. */
  function DecodeRows(rows: seq<seq<string>>): (r: seq<Option<SearchInputRecord>>)
    ensures |r| == |rows|
  {
    if rows == [] then [] else DecodeRows(rows[..|rows| - 1]) + [DecodeRow(rows[|rows| - 1])]
  }

  lemma {:induction false} DecodeRowsAt(rows: seq<seq<string>>, i: nat)
    requires i < |rows|
    ensures DecodeRows(rows)[i] == DecodeRow(rows[i])
  {
    if i < |rows| - 1 {
      DecodeRowsAt(rows[..|rows| - 1], i);
    }
  }

  /** The rows that carry data: all of them, or all but the first when a header is still expected. */
  function DataRows(header: bool, rows: seq<seq<string>>): seq<seq<string>>
  {
    if header && rows != [] then rows[1..] else if header then [] else rows
  }

  class SearchInputDataFileReader {
    var header: bool
    /** The rows the CSV reader has not delivered yet. */
    var rows: seq<seq<string>>

    constructor (rows: seq<seq<string>>, header: bool)
      ensures this.rows == rows && this.header == header
    {
      this.rows := rows;
      this.header := header;
    }

    /** `__next__`: skips the header first if one is expected (and ends, keeping the flag, when there
        is not even a header), then decodes the next row. */
    method Next() returns (r: ReadStep)
      modifies this
      ensures old(header) && old(rows) == [] ==> r == Stop && header && rows == []
      ensures old(header) && old(rows) != [] ==> !header && (if |old(rows)| == 1 then r == Stop && rows == []
                                                              else r == Record(DecodeRow(old(rows)[1])) && rows == old(rows)[2..])
      ensures !old(header) ==> !header && (if old(rows) == [] then r == Stop && rows == []
                                           else r == Record(DecodeRow(old(rows)[0])) && rows == old(rows)[1..])
    {
      if header {
        if rows == [] {
          return Stop;
        }
        rows := rows[1..];
        header := false;
      }
      if rows == [] {
        return Stop;
      }
      var raw := rows[0];
      rows := rows[1..];
      return Record(DecodeRow(raw));
    }

    /** Iterating the reader to its end: one record per data row, in order; the header row is
        consumed once, before the first record. */
    method ReadAll() returns (records: seq<Option<SearchInputRecord>>)
      modifies this
      ensures records == DecodeRows(DataRows(old(header), old(rows)))
      ensures rows == [] && (header <==> old(header) && old(rows) == [])
    {
      ghost var data := DataRows(header, rows);
      records := [];
      var step := Next();
      while step.Record?
        invariant |records| <= |data| && records == DecodeRows(data[..|records|])
        invariant header <==> old(header) && old(rows) == []
        invariant step.Record? ==> |records| < |data| && step.record == DecodeRow(data[|records|]) && rows == data[|records| + 1..]
        invariant step.Stop? ==> |records| == |data| && rows == []
        decreases |rows| + if step.Record? then 1 else 0
      {
        ghost var k := |records|;
        assert data[..k + 1][..k] == data[..k];
        records := records + [step.record];
        step := Next();
      }
      assert data[..|records|] == data;
    }
  }

  // ---------------------------------------------------------------------------------------------
  // The writers.  A cell is what csv.writer writes for a value: nothing for None, a string, a
  // number, a truth value.

  datatype Cell = Blank | Str(s: string) | Hundredths(n: nat) | Flag(b: bool) | Index(i: nat)

  function TextCell(o: Option<string>): Cell
  {
    if o.None? then Blank else Str(o.value)
  }

  function AmountCell(o: Option<nat>): Cell
  {
    if o.None? then Blank else Hundredths(o.value)
  }

  const EntityHeader: seq<string> := ["name", "registry_type", "registry_id", "registry_court", "structure", "capital",
    "capital_currency", "entry", "deletion", "balance", "address", "post_code", "city"]

  /** The balance column: true exactly when the balance is a known, empty list. */
  predicate BalanceFlag(e: Entity.LegalEntityInformation)
  {
    e.balance.Some? && e.balance.value == []
  }

  /** The row `LegalEntityInformationFileWriter.write` writes for an entity. */
  function EntityRow(e: Entity.LegalEntityInformation): seq<Cell>
  {
    [TextCell(e.name), TextCell(e.registryType), TextCell(e.registryId), TextCell(e.registryCourt),
     TextCell(e.structure), AmountCell(e.capital), TextCell(e.capitalCurrency), TextCell(e.entry),
     TextCell(e.deletion), Flag(BalanceFlag(e)), TextCell(e.address), TextCell(e.postCode), TextCell(e.city)]
  }

  /** The cell a column of the entity file holds for an entity, by the column's name. */
  function ColumnCell(e: Entity.LegalEntityInformation, column: string): Cell
  {
    match column
    case "name" => TextCell(e.name)
    case "registry_type" => TextCell(e.registryType)
    case "registry_id" => TextCell(e.registryId)
    case "registry_court" => TextCell(e.registryCourt)
    case "structure" => TextCell(e.structure)
    case "capital" => AmountCell(e.capital)
    case "capital_currency" => TextCell(e.capitalCurrency)
    case "entry" => TextCell(e.entry)
    case "deletion" => TextCell(e.deletion)
    case "balance" => Flag(BalanceFlag(e))
    case "address" => TextCell(e.address)
    case "post_code" => TextCell(e.postCode)
    case "city" => TextCell(e.city)
    case _ => Blank
  }

  /** The entity row lines up with the header: each cell is the field its column names. */
  lemma EntityRowMatchesHeader(e: Entity.LegalEntityInformation)
    ensures |EntityRow(e)| == |EntityHeader|
    ensures forall i | 0 <= i < |EntityHeader| :: EntityRow(e)[i] == ColumnCell(e, EntityHeader[i])
  {
  }

  /** The first four cells of the balance and shareholder rows: name, type, identifier, court. */
  function IdentityCells(e: Entity.LegalEntityInformation): seq<Cell>
  {
    [TextCell(e.name), TextCell(e.registryType), TextCell(e.registryId), TextCell(e.registryCourt)]
  }

  /** One row per date, in order, each the identity cells and the date. */
  function DateRows(e: Entity.LegalEntityInformation, dates: seq<string>): (rows: seq<seq<Cell>>)
    ensures |rows| == |dates|
  {
    if dates == [] then [] else DateRows(e, dates[..|dates| - 1]) + [IdentityCells(e) + [Str(dates[|dates| - 1])]]
  }

  /** The rows `LegalEntityBalanceDatesFileWriter.write` writes: none unless the balance is a
      non-empty list. */
  function BalanceRows(e: Entity.LegalEntityInformation): seq<seq<Cell>>
  {
    if e.balance.Some? && e.balance.value != [] then DateRows(e, e.balance.value) else []
  }

  lemma {:induction false} DateRowsAt(e: Entity.LegalEntityInformation, dates: seq<string>, i: nat)
    requires i < |dates|
    ensures DateRows(e, dates)[i] == IdentityCells(e) + [Str(dates[i])]
  {
    if i < |dates| - 1 {
      DateRowsAt(e, dates[..|dates| - 1], i);
    }
  }

  /** The balance file gets one row per balance date, in order, and nothing for None or []. */
  lemma BalanceRowsOnePerDate(e: Entity.LegalEntityInformation)
    ensures |BalanceRows(e)| == if e.balance.Some? then |e.balance.value| else 0
    ensures forall i | 0 <= i < |BalanceRows(e)| :: BalanceRows(e)[i] == IdentityCells(e) + [Str(e.balance.value[i])]
  {
    forall i | 0 <= i < |BalanceRows(e)| ensures BalanceRows(e)[i] == IdentityCells(e) + [Str(e.balance.value[i])] {
      DateRowsAt(e, e.balance.value, i);
    }
  }

  /** One row per extracted date, numbered from 0 in order; a missing date is a blank cell. */
  function ListRows(e: Entity.LegalEntityInformation, dates: seq<Option<string>>): (rows: seq<seq<Cell>>)
    ensures |rows| == |dates|
  {
    if dates == [] then []
    else ListRows(e, dates[..|dates| - 1]) + [IdentityCells(e) + [TextCell(e.structure), Index(|dates| - 1), TextCell(dates[|dates| - 1])]]
  }

  /** The rows `ShareHolderListsFileWriter.write` writes: none for None. */
  function ShareholderRows(lists: Option<DocumentsTree.ShareholderLists>): seq<seq<Cell>>
  {
    if lists.None? then [] else ListRows(lists.value.entity, lists.value.dates)
  }

  lemma {:induction false} ListRowsAt(e: Entity.LegalEntityInformation, dates: seq<Option<string>>, i: nat)
    requires i < |dates|
    ensures ListRows(e, dates)[i] == IdentityCells(e) + [TextCell(e.structure), Index(i), TextCell(dates[i])]
  {
    if i < |dates| - 1 {
      ListRowsAt(e, dates[..|dates| - 1], i);
    }
  }

  /** The shareholder file gets one row per date with list index 0, 1, 2, ... in order. */
  lemma ShareholderRowsIndexed(lists: DocumentsTree.ShareholderLists)
    ensures |ShareholderRows(Some(lists))| == |lists.dates|
    ensures forall i | 0 <= i < |lists.dates| :: ShareholderRows(Some(lists))[i]
                                                == IdentityCells(lists.entity) + [TextCell(lists.entity.structure), Index(i), TextCell(lists.dates[i])]
  {
    forall i | 0 <= i < |lists.dates|
      ensures ShareholderRows(Some(lists))[i] == IdentityCells(lists.entity) + [TextCell(lists.entity.structure), Index(i), TextCell(lists.dates[i])]
    {
      ListRowsAt(lists.entity, lists.dates, i);
    }
  }

  class LegalEntityInformationFileWriter {
    /** The rows of the file so far. */
    var written: seq<seq<Cell>>

    /** `__enter__`: the file starts with the header row. */
    constructor ()
      ensures written == [seq(|EntityHeader|, i requires 0 <= i < |EntityHeader| => Str(EntityHeader[i]))]
    {
      written := [seq(|EntityHeader|, i requires 0 <= i < |EntityHeader| => Str(EntityHeader[i]))];
    }

    method Write(e: Entity.LegalEntityInformation)
      modifies this
      ensures written == old(written) + [EntityRow(e)]
    {
      written := written + [EntityRow(e)];
    }
  }

  class LegalEntityBalanceDatesFileWriter {
    var written: seq<seq<Cell>>

    constructor ()
      ensures written == [[Str("name"), Str("registry_type"), Str("registry_id"), Str("registry_court"), Str("balance")]]
    {
      written := [[Str("name"), Str("registry_type"), Str("registry_id"), Str("registry_court"), Str("balance")]];
    }

    method Write(e: Entity.LegalEntityInformation)
      modifies this
      ensures written == old(written) + BalanceRows(e)
    {
      if e.balance.Some? && e.balance.value != [] {
        var dates := e.balance.value;
        for n := 0 to |dates|
          invariant written == old(written) + DateRows(e, dates[..n])
        {
          assert dates[..n + 1][..n] == dates[..n];
          written := written + [IdentityCells(e) + [Str(dates[n])]];
        }
        assert dates[..|dates|] == dates;
      }
    }
  }

  class ShareHolderListsFileWriter {
    var written: seq<seq<Cell>>

    constructor ()
      ensures written == [[Str("name"), Str("registry_type"), Str("registry_id"), Str("registry_court"), Str("structure"),
                           Str("list_index"), Str("list_date")]]
    {
      written := [[Str("name"), Str("registry_type"), Str("registry_id"), Str("registry_court"), Str("structure"),
                   Str("list_index"), Str("list_date")]];
    }

    method Write(lists: Option<DocumentsTree.ShareholderLists>)
      modifies this
      ensures written == old(written) + ShareholderRows(lists)
    {
      if lists.None? {
        return;
      }
      var e := lists.value.entity;
      var dates := lists.value.dates;
      for n := 0 to |dates|
        invariant written == old(written) + ListRows(e, dates[..n])
      {
        assert dates[..n + 1][..n] == dates[..n];
        written := written + [IdentityCells(e) + [TextCell(e.structure), Index(n), TextCell(dates[n])]];
      }
      assert dates[..|dates|] == dates;
    }
  }
}
