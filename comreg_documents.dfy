/** The older shareholder-list scanner (comreg/documents.py): a state machine over the tokens of the
    document page that collects one optional date per file of the shareholder-lists folder directly,
    with a depth counter for nested folders and an absorbing error state.  The transitions are pure
    functions on a configuration; the parser class applies them to its fields. */
module ShareholderListsParsing {
  import opened Wrappers
  import opened Text
  import opened Html

  /** The folder the scanner looks for. */
  const ListsHeader := "Liste der Gesellschafter"

  /** A ShareholderLists object; `E` is the entity type, which the scanner only carries along. */
  datatype ShareholderLists<E> = ShareholderLists(entity: E, dates: seq<Option<string>>)

  /** `ShareholderLists(entity, dates=None)`: without dates the list starts empty. */
  function NewShareholderLists<E>(entity: E, dates: Option<seq<Option<string>>>): (r: ShareholderLists<E>)
    ensures r.entity == entity
    ensures dates.None? ==> r.dates == []
    ensures dates.Some? ==> r.dates == dates.value
  {
    ShareholderLists(entity, if dates.None? then [] else dates.value)
  }

  // ---------------------------------------------------------------------------------------------
  // The date of a file: re.match(r".*(\d{2}.\d{2}.\d{4}).*", text).  The leading `.*` is greedy and
  // cannot cross a line break, so the group is the date that starts LAST within the first line.

  /** `s[..p]` holds no line break, so the leading `.*` can span it. */
  predicate InFirstLine(s: string, p: nat)
  {
    p <= |s| && forall k | 0 <= k < p :: s[k] != '\n'
  }

  /** The latest start at or before `p` where a date matches. */
  function LatestDateStart(s: string, p: nat): (r: Option<nat>)
    ensures r.Some? ==> r.value <= p && DottedDateAt(s, r.value)
    ensures r.Some? ==> forall q | r.value < q <= p :: !DottedDateAt(s, q)
    ensures r.None? ==> forall q | 0 <= q <= p :: !DottedDateAt(s, q)
  {
    if DottedDateAt(s, p) then Some(p) else if p == 0 then None else LatestDateStart(s, p - 1)
  }

  /** The length of the first line of `s`. */
  function FirstLineLength(s: string): (n: nat)
    ensures InFirstLine(s, n)
    ensures n == |s| || s[n] == '\n'
  {
    if s == [] || s[0] == '\n' then 0
    else
      var n := 1 + FirstLineLength(s[1..]);
      assert forall k | 1 <= k < n :: s[k] == s[1..][k - 1];
      n
  }

  /** Where the group of the file-date pattern starts, if the pattern matches. */
  function DateMatchStart(s: string): (r: Option<nat>)
    ensures r.Some? ==> InFirstLine(s, r.value) && DottedDateAt(s, r.value)
    ensures r.Some? ==> forall q: nat | r.value < q && InFirstLine(s, q) :: !DottedDateAt(s, q)
    ensures r.None? ==> forall q: nat | InFirstLine(s, q) :: !DottedDateAt(s, q)
  {
    var n := FirstLineLength(s);
    assert forall q: nat | InFirstLine(s, q) :: q <= n;
    LatestDateStart(s, n)
  }

  /** The entry a closed file contributes: the matched date, or None. */
  function FileDate(s: string): (r: Option<string>)
    ensures r.Some? <==> exists q: nat :: InFirstLine(s, q) && DottedDateAt(s, q)
    ensures r.Some? ==> |r.value| == 10 && Contains(s, r.value)
    ensures r.Some? ==> exists q: nat {:trigger DottedDateAt(s, q)} ::
      && InFirstLine(s, q) && DottedDateAt(s, q) && q + 10 <= |s| && r.value == s[q..q + 10]
      && forall q': nat | q < q' && InFirstLine(s, q') :: !DottedDateAt(s, q')
  {
    match DateMatchStart(s)
    case None => None
    case Some(p) =>
      assert OccursAt(s, s[p..p + 10], p);
      assert DottedDateAt(s, p);
      Some(s[p..p + 10])
  }

  // ---------------------------------------------------------------------------------------------
  // The configuration and its transitions.

  datatype State = Void | Error | Heading | AwaitListsHeader | ListsHeaderSeen | AwaitTreeElement | TreeFile | SubTree

  /** The parser's fields: state, tree depth, the text of the open file and the result. */
  datatype Config<E> = Config(state: State, treeDepth: nat, date: string, result: Option<ShareholderLists<E>>)

  /** The result is dropped exactly when the scanner has failed. */
  predicate Consistent<E>(c: Config<E>)
  {
    c.state == Error <==> c.result.None?
  }

  function Initial<E>(entity: E): (c: Config<E>)
    ensures Consistent(c) && c.result == Some(ShareholderLists(entity, []))
  {
    Config(Void, 0, "", Some(NewShareholderLists(entity, None)))
  }

  /** `error`: the error state, and no result. */
  function Failed<E>(c: Config<E>): (d: Config<E>)
    ensures d.state == Error && d.result.None? && Consistent(d)
  {
    c.(state := Error, result := None)
  }

  /** One `class` attribute of a `<div>` inside the tree. */
  function ClassStep<E>(c: Config<E>, a: Attribute): Config<E>
  {
    if a.name != "class" then c
    else if a.value == Some("tree-file") then c.(state := TreeFile)
    else if a.value == Some("tree-node") then c.(state := SubTree, treeDepth := c.treeDepth + 1)
    else c
  }

  /** The attributes of a `<div>` inside the tree, in order; the state is examined once, before. */
  function ClassSteps<E>(c: Config<E>, attrs: seq<Attribute>): Config<E>
  {
    if attrs == [] then c else ClassStep(ClassSteps(c, attrs[..|attrs| - 1]), attrs[|attrs| - 1])
  }

  function StartTagStep<E>(c: Config<E>, tag: string, attrs: seq<Attribute>): Config<E>
  {
    if tag == "a" then (if c.state == Void then c.(state := AwaitListsHeader) else c)
    else if tag == "div" then
      (if c.state == ListsHeaderSeen then c.(state := AwaitTreeElement)
       else if c.state == AwaitTreeElement || c.state == SubTree then ClassSteps(c, attrs)
       else c)
    else if tag == "h3" then (if c.state == Void then c.(state := Heading) else c)
    else c
  }

  function DataStep<E>(c: Config<E>, data: string): Config<E>
  {
    if c.state == AwaitListsHeader then (if Strip(data) == ListsHeader then c.(state := ListsHeaderSeen) else c)
    else if c.state == TreeFile then c.(date := c.date + Strip(data))
    else if c.state == Heading then (if Contains(data, "Fehler") then Failed(c) else c)
    else c
  }

  /** Closing a file appends its date to the result (while there is one) and clears the text. */
  function CloseFile<E>(c: Config<E>): Config<E>
  {
    var result := if c.result.Some? then Some(c.result.value.(dates := c.result.value.dates + [FileDate(c.date)])) else None;
    c.(result := result, date := "", state := AwaitTreeElement)
  }

  function EndTagStep<E>(c: Config<E>, tag: string): Config<E>
  {
    if tag == "a" then (if c.state == AwaitListsHeader then c.(state := Void) else c)
    else if tag == "div" then
      (if c.state == TreeFile then CloseFile(c)
       else if c.state == AwaitTreeElement then
         (if c.treeDepth > 0 then c.(treeDepth := c.treeDepth - 1) else c.(state := Void))
       else c)
    else if tag == "h3" then (if c.state == Heading then c.(state := Void) else c)
    else c
  }

  function Step<E>(c: Config<E>, t: Token): Config<E>
  {
    match t
    case StartTag(tag, attrs) => StartTagStep(c, tag, attrs)
    case Data(text) => DataStep(c, text)
    case EndTag(tag) => EndTagStep(c, tag)
  }

  /** HTMLParser.feed: the tokens in order. */
  function Run<E>(c: Config<E>, tokens: seq<Token>): Config<E>
  {
    if tokens == [] then c else Step(Run(c, tokens[..|tokens| - 1]), tokens[|tokens| - 1])
  }

  // ---------------------------------------------------------------------------------------------
  // Properties of the transitions.

  /** The error state is absorbing: once failed, no token changes anything. */
  lemma {:induction false} ErrorIsAbsorbing<E>(c: Config<E>, tokens: seq<Token>)
    requires c.state == Error
    ensures Run(c, tokens) == c
  {
    if tokens != [] {
      ErrorIsAbsorbing(c, tokens[..|tokens| - 1]);
    }
  }

  lemma {:induction false} ClassStepsKeepResult<E>(c: Config<E>, attrs: seq<Attribute>)
    ensures ClassSteps(c, attrs).result == c.result && ClassSteps(c, attrs).date == c.date
    ensures ClassSteps(c, attrs).state in {c.state, TreeFile, SubTree}
  {
    if attrs != [] {
      ClassStepsKeepResult(c, attrs[..|attrs| - 1]);
    }
  }

  /** Every transition keeps "failed exactly when the result is gone". */
  lemma StepConsistent<E>(c: Config<E>, t: Token)
    requires Consistent(c)
    ensures Consistent(Step(c, t))
  {
    if t.StartTag? && t.tag == "div" && (c.state == AwaitTreeElement || c.state == SubTree) {
      ClassStepsKeepResult(c, t.attrs);
    }
  }

  lemma {:induction false} RunConsistent<E>(c: Config<E>, tokens: seq<Token>)
    requires Consistent(c)
    ensures Consistent(Run(c, tokens))
  {
    if tokens != [] {
      RunConsistent(c, tokens[..|tokens| - 1]);
      StepConsistent(Run(c, tokens[..|tokens| - 1]), tokens[|tokens| - 1]);
    }
  }

  /** The number of `class="tree-node"` attributes. */
  function TreeNodeCount(attrs: seq<Attribute>): nat
  {
    if attrs == [] then 0
    else TreeNodeCount(attrs[..|attrs| - 1])
         + (if attrs[|attrs| - 1] == Attribute("class", Some("tree-node")) then 1 else 0)
  }

  /** A `<div>` inside the tree deepens the tree by one per `tree-node` class it carries. */
  lemma {:induction false} ClassStepsDepth<E>(c: Config<E>, attrs: seq<Attribute>)
    ensures ClassSteps(c, attrs).treeDepth == c.treeDepth + TreeNodeCount(attrs)
  {
    if attrs != [] {
      ClassStepsDepth(c, attrs[..|attrs| - 1]);
    }
  }

  /** A closing `</div>` while waiting for a tree element leaves one level while there is one, and
      otherwise leaves the tree. */
  lemma LeaveLevel<E>(c: Config<E>)
    requires c.state == AwaitTreeElement
    ensures c.treeDepth > 0 ==> EndTagStep(c, "div") == c.(treeDepth := c.treeDepth - 1)
    ensures c.treeDepth == 0 ==> EndTagStep(c, "div") == c.(state := Void)
  {
  }

  /** `dates` extends `before`: the scanner only ever appends. */
  ghost predicate Extends<E>(before: Option<ShareholderLists<E>>, after: Option<ShareholderLists<E>>)
  {
    after.Some? ==> before.Some? && after.value.entity == before.value.entity
                    && before.value.dates <= after.value.dates
  }

  lemma StepExtends<E>(c: Config<E>, t: Token)
    ensures Extends(c.result, Step(c, t).result)
    ensures |Step(c, t).result.value.dates| <= |c.result.value.dates| + 1 <== Step(c, t).result.Some?
  {
    if t.StartTag? && t.tag == "div" && (c.state == AwaitTreeElement || c.state == SubTree) {
      ClassStepsKeepResult(c, t.attrs);
    }
  }

  /** The dates are append-only and the entity never changes. */
  lemma {:induction false} RunExtends<E>(c: Config<E>, tokens: seq<Token>)
    ensures Extends(c.result, Run(c, tokens).result)
  {
    if tokens != [] {
      var mid := Run(c, tokens[..|tokens| - 1]);
      RunExtends(c, tokens[..|tokens| - 1]);
      StepExtends(mid, tokens[|tokens| - 1]);
    }
  }

  /** Closing a file appends exactly one entry, its date or None, and clears the text. */
  lemma CloseFileAppendsOne<E>(c: Config<E>)
    requires Consistent(c) && c.state == TreeFile
    ensures var d := EndTagStep(c, "div");
      && d.result.Some? && d.result.value.entity == c.result.value.entity
      && d.result.value.dates == c.result.value.dates + [FileDate(c.date)]
      && d.date == "" && d.state == AwaitTreeElement && d.treeDepth == c.treeDepth
  {
  }

  /** The lists header is recognised exactly when the anchor's text, stripped, is the folder name. */
  lemma HeaderRecognised<E>(c: Config<E>, data: string)
    requires c.state == AwaitListsHeader
    ensures DataStep(c, data).state == ListsHeaderSeen <==> Strip(data) == ListsHeader
    ensures DataStep(c, data).state != ListsHeaderSeen ==> DataStep(c, data) == c
  {
  }

  /** Text holding "Fehler" in a heading fails the scanner. */
  lemma ErrorHeading<E>(c: Config<E>, data: string)
    requires c.state == Heading
    ensures Contains(data, "Fehler") ==> DataStep(c, data) == Failed(c)
    ensures !Contains(data, "Fehler") ==> DataStep(c, data) == c
  {
  }

  // ---------------------------------------------------------------------------------------------
  // ShareholderListsParser

  class ShareholderListsParser<E(==)> {
    const entity: E
    var state: State
    var treeDepth: nat
    var date: string
    var result: Option<ShareholderLists<E>>

    function Snapshot(): Config<E>
      reads this
    {
      Config(state, treeDepth, date, result)
    }

    ghost predicate Valid()
      reads this
    {
      Consistent(Snapshot()) && (result.Some? ==> result.value.entity == entity)
    }

    constructor (entity: E)
      ensures Valid() && this.entity == entity && Snapshot() == Initial(entity)
    {
      this.entity := entity;
      state, treeDepth, date := Void, 0, "";
      result := Some(NewShareholderLists(entity, None));
    }

    /** `error`. */
    method Fail()
      requires Valid()
      modifies this
      ensures Valid() && Snapshot() == Failed(old(Snapshot()))
    {
      state := Error;
      result := None;
    }

    method HandleStartTag(tag: string, attrs: seq<Attribute>)
      requires Valid()
      modifies this
      ensures Valid() && Snapshot() == StartTagStep(old(Snapshot()), tag, attrs)
    {
      if tag == "a" {
        if state == Void {
          state := AwaitListsHeader;
        }
      } else if tag == "div" {
        if state == ListsHeaderSeen {
          state := AwaitTreeElement;
        } else if state == AwaitTreeElement || state == SubTree {
          ghost var c0 := Snapshot();
          ClassStepsKeepResult(c0, attrs);
          for n := 0 to |attrs|
            invariant Snapshot() == ClassSteps(c0, attrs[..n])
          {
            assert attrs[..n + 1][..n] == attrs[..n];
            if attrs[n].name == "class" {
              if attrs[n].value == Some("tree-file") {
                state := TreeFile;
              } else if attrs[n].value == Some("tree-node") {
                state := SubTree;
                treeDepth := treeDepth + 1;
              }
            }
          }
          assert attrs[..|attrs|] == attrs;
        }
      } else if tag == "h3" {
        if state == Void {
          state := Heading;
        }
      }
    }

    method HandleData(data: string)
      requires Valid()
      modifies this
      ensures Valid() && Snapshot() == DataStep(old(Snapshot()), data)
    {
      if state == AwaitListsHeader {
        if Strip(data) == ListsHeader {
          state := ListsHeaderSeen;
        }
      } else if state == TreeFile {
        date := date + Strip(data);
      } else if state == Heading {
        if Contains(data, "Fehler") {
          Fail();
        }
      }
    }

    method HandleEndTag(tag: string)
      requires Valid()
      modifies this
      ensures Valid() && Snapshot() == EndTagStep(old(Snapshot()), tag)
    {
      if tag == "a" {
        if state == AwaitListsHeader {
          state := Void;
        }
      } else if tag == "div" {
        if state == TreeFile {
          var found := FileDate(date);
          if result.Some? {
            result := Some(result.value.(dates := result.value.dates + [found]));
          }
          date := "";
          state := AwaitTreeElement;
        } else if state == AwaitTreeElement {
          if treeDepth > 0 {
            state := AwaitTreeElement;
            treeDepth := treeDepth - 1;
          } else {
            state := Void;
          }
        }
      } else if tag == "h3" {
        if state == Heading {
          state := Void;
        }
      }
    }

    method Feed(tokens: seq<Token>)
      requires Valid()
      modifies this
      ensures Valid() && Snapshot() == Run(old(Snapshot()), tokens)
    {
      for n := 0 to |tokens|
        invariant Valid() && Snapshot() == Run(old(Snapshot()), tokens[..n])
      {
        assert tokens[..n + 1][..n] == tokens[..n];
        match tokens[n]
        case StartTag(tag, attrs) => HandleStartTag(tag, attrs);
        case Data(text) => HandleData(text);
        case EndTag(tag) => HandleEndTag(tag);
      }
      assert tokens[..|tokens|] == tokens;
    }
  }
}
