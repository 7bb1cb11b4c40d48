/** The document tree of one legal entity (source/documents.py): a parser that builds a rooted tree of
    folders and files from the tokens of the document page, and the shareholder-list dates derived from
    that tree by a depth-first walk. */
module DocumentsTree {
  import opened Wrappers
  import opened Text
  import opened Html
  import Entity

  /** The value of a DocumentsTreeElement: a file (whose children are None) or a directory with its
      children in order. */
  datatype Element = File(name: string) | Directory(name: string, children: seq<Element>)

  /** The folder (and file-name prefix) of the shareholder lists. */
  const ShareholderListsName := "Liste der Gesellschafter"

  // ---------------------------------------------------------------------------------------------
  // The pattern \d{1,2}.\d{1,2}.\d{2,4}, searched as re.search does: the leftmost position that
  // matches, and at that position the first alternative in backtracking order (greedy counts first).

  /** End of `\d{2,4}` at `i`. */
  function YearEnd(s: string, i: nat): Option<nat>
  {
    if DigitsAt(s, i, 4) then Some(i + 4)
    else if DigitsAt(s, i, 3) then Some(i + 3)
    else if DigitsAt(s, i, 2) then Some(i + 2)
    else None
  }

  /** End of `\d{1,2}.\d{2,4}` at `i`. */
  function MonthYearEnd(s: string, i: nat): Option<nat>
  {
    var two := if DigitsAt(s, i, 2) && AnyCharAt(s, i + 2) then YearEnd(s, i + 3) else None;
    if two.Some? then two
    else if DigitsAt(s, i, 1) && AnyCharAt(s, i + 1) then YearEnd(s, i + 2)
    else None
  }

  /** End of `\d{1,2}.\d{1,2}.\d{2,4}` at `i`. */
  function LooseDateEnd(s: string, i: nat): Option<nat>
  {
    var two := if DigitsAt(s, i, 2) && AnyCharAt(s, i + 2) then MonthYearEnd(s, i + 3) else None;
    if two.Some? then two
    else if DigitsAt(s, i, 1) && AnyCharAt(s, i + 1) then MonthYearEnd(s, i + 2)
    else None
  }

  /** `d` has the shape day (`a` digits), any character, month (`b` digits), any character, year. */
  predicate LooseDateShape(d: string, a: nat, b: nat)
  {
    1 <= a <= 2 && 1 <= b <= 2 && 2 <= |d| - (a + b + 2) <= 4 &&
    DigitsAt(d, 0, a) && AnyCharAt(d, a) && DigitsAt(d, a + 1, b) && AnyCharAt(d, a + b + 1) &&
    DigitsAt(d, a + b + 2, |d| - (a + b + 2))
  }

  ghost predicate IsLooseDate(d: string) { exists a: nat, b: nat :: LooseDateShape(d, a, b) }

  lemma LooseDateEndShape(s: string, i: nat)
    requires LooseDateEnd(s, i).Some?
    ensures i < LooseDateEnd(s, i).value <= |s|
    ensures IsLooseDate(s[i..LooseDateEnd(s, i).value])
  {
    var e := LooseDateEnd(s, i).value;
    var d := s[i..e];
    var a := if DigitsAt(s, i, 2) && AnyCharAt(s, i + 2) && MonthYearEnd(s, i + 3).Some? then 2 else 1;
    var m := i + a + 1;
    var b := if DigitsAt(s, m, 2) && AnyCharAt(s, m + 2) && YearEnd(s, m + 3).Some? then 2 else 1;
    assert LooseDateShape(d, a, b);
  }

  /** The leftmost match of the loose date pattern at or after `i`, as (start, end). */
  function SearchLooseDate(s: string, i: nat): (r: Option<(nat, nat)>)
    requires i <= |s|
    ensures r.Some? ==> i <= r.value.0 && LooseDateEnd(s, r.value.0) == Some(r.value.1)
    ensures r.Some? ==> forall j | i <= j < r.value.0 :: LooseDateEnd(s, j).None?
    ensures r.None? ==> forall j | i <= j <= |s| :: LooseDateEnd(s, j).None?
    decreases |s| - i
  {
    if LooseDateEnd(s, i).Some? then Some((i, LooseDateEnd(s, i).value))
    else if i == |s| then None
    else SearchLooseDate(s, i + 1)
  }

  /** `\d{2,4}` matches at `j` whenever some two to four digits stand there. */
  lemma YearEndComplete(s: string, j: nat, y: nat)
    requires 2 <= y <= 4 && DigitsAt(s, j, y)
    ensures YearEnd(s, j).Some?
  {
    assert DigitsAt(s, j, 2);
  }

  /** `\d{1,2}.\d{2,4}` matches at `j` whenever a month, a separator and a year stand there. */
  lemma MonthYearEndComplete(s: string, j: nat, b: nat, y: nat)
    requires 1 <= b <= 2 && DigitsAt(s, j, b) && AnyCharAt(s, j + b)
    requires 2 <= y <= 4 && DigitsAt(s, j + b + 1, y)
    ensures MonthYearEnd(s, j).Some?
  {
    YearEndComplete(s, j + b + 1, y);
    assert DigitsAt(s, j, 1);
  }

  /** The search at `i` misses no match: when a date-shaped text starts at `i`, `LooseDateEnd` reports
      an end. */
  lemma LooseDateEndComplete(s: string, i: nat, e: nat)
    requires i <= e <= |s| && IsLooseDate(s[i..e])
    ensures LooseDateEnd(s, i).Some?
  {
    var a: nat, b: nat :| LooseDateShape(s[i..e], a, b);
    var y := e - i - (a + b + 2);
    LooseDateShapeIn(s, i, e, a, b);
    MonthYearEndComplete(s, i + a + 1, b, y);
    assert DigitsAt(s, i, 1);
  }

  /** The shape of `s[i..e]`, read off in `s`. */
  lemma LooseDateShapeIn(s: string, i: nat, e: nat, a: nat, b: nat)
    requires i <= e <= |s| && LooseDateShape(s[i..e], a, b)
    ensures 1 <= a <= 2 && 1 <= b <= 2 && 2 <= e - i - (a + b + 2) <= 4
    ensures DigitsAt(s, i, a) && AnyCharAt(s, i + a)
    ensures DigitsAt(s, i + a + 1, b) && AnyCharAt(s, i + a + 1 + b)
    ensures DigitsAt(s, i + a + 1 + b + 1, e - i - (a + b + 2))
  {
    var d := s[i..e];
    assert forall k | 0 <= k < |d| :: d[k] == s[i + k];
  }

  /** No date-shaped text of `s` starts before `i`. */
  ghost predicate DateFreeBefore(s: string, i: nat)
  {
    forall j, e | 0 <= j < i && j <= e <= |s| :: !IsLooseDate(s[j..e])
  }

  /** Where `LooseDateEnd` finds nothing, no date-shaped text starts. */
  lemma NoEndNoDate(s: string, lo: nat, hi: nat)
    requires forall j | lo <= j < hi :: LooseDateEnd(s, j).None?
    ensures forall j, e | lo <= j < hi && j <= e <= |s| :: !IsLooseDate(s[j..e])
  {
    forall j, e | lo <= j < hi && j <= e <= |s|
      ensures !IsLooseDate(s[j..e])
    {
      if IsLooseDate(s[j..e]) {
        LooseDateEndComplete(s, j, e);
      }
    }
  }

  /** `re.search(r"(\d{1,2}.\d{1,2}.\d{2,4})", name)`: the first date-shaped substring, if any.  It
      starts where no date-shaped text starts earlier, and it is the one the backtracking order tries
      first there; there is none exactly when no date-shaped text occurs at all. */
  function FirstDate(name: string): (r: Option<string>)
    ensures r.Some? ==> IsLooseDate(r.value)
    ensures r.Some? ==> exists i: nat {:trigger OccursAt(name, r.value, i)} ::
                          OccursAt(name, r.value, i) && LooseDateEnd(name, i) == Some(i + |r.value|) && DateFreeBefore(name, i)
    ensures r.None? <==> DateFreeBefore(name, |name| + 1)
  {
    match SearchLooseDate(name, 0)
    case None =>
      NoDateFound(name);
      None
    case Some((i, e)) =>
      FirstDateFound(name, i, e);
      Some(name[i..e])
  }

  /** When the search finds nothing, no date-shaped text occurs. */
  lemma NoDateFound(name: string)
    requires SearchLooseDate(name, 0).None?
    ensures DateFreeBefore(name, |name| + 1)
  {
    NoEndNoDate(name, 0, |name| + 1);
  }

  /** The first position the search finds a date at gives a date-shaped text with no date-shaped text
      starting earlier. */
  lemma FirstDateFound(name: string, i: nat, e: nat)
    requires SearchLooseDate(name, 0) == Some((i, e))
    ensures i < e <= |name| && IsLooseDate(name[i..e])
    ensures OccursAt(name, name[i..e], i) && LooseDateEnd(name, i) == Some(i + |name[i..e]|)
    ensures DateFreeBefore(name, i) && !DateFreeBefore(name, |name| + 1)
  {
    LooseDateEndShape(name, i);
    NoEndNoDate(name, 0, i);
  }

  // ---------------------------------------------------------------------------------------------
  // ShareholderLists.__extract

  /** The dates one document contributes: a directory contributes what its children do (under a
      shareholder-lists folder from here on if it is named like one), a file its date if it lies under
      such a folder and its name starts with the folder's name. */
  function Contribution(d: Element, inLists: bool): seq<Option<string>>
    decreases d
  {
    if d.Directory? then Extract(d.children, inLists || d.name == ShareholderListsName)
    else if inLists && StartsWith(d.name, ShareholderListsName) then [FirstDate(d.name)]
    else []
  }

  /** `__extract(documents, is_shareholder_lists)`: the contributions of `documents` in order. */
  function Extract(documents: seq<Element>, inLists: bool): seq<Option<string>>
    decreases documents
  {
    if documents == [] then [] else Contribution(documents[0], inLists) + Extract(documents[1..], inLists)
  }

  /** Every file of `d` in depth-first document order, with whether it lies under a shareholder-lists
      folder: the reference walk the extraction is compared against. */
  function LeavesOf(d: Element, inLists: bool): seq<(string, bool)>
    decreases d
  {
    if d.Directory? then Leaves(d.children, inLists || d.name == ShareholderListsName)
    else [(d.name, inLists)]
  }

  function Leaves(documents: seq<Element>, inLists: bool): seq<(string, bool)>
    decreases documents
  {
    if documents == [] then [] else LeavesOf(documents[0], inLists) + Leaves(documents[1..], inLists)
  }

  /** The files that contribute an entry: under a shareholder-lists folder and named with its prefix. */
  function Contributing(leaves: seq<(string, bool)>): (names: seq<string>)
    ensures |names| <= |leaves|
    ensures forall k | 0 <= k < |names| :: StartsWith(names[k], ShareholderListsName)
  {
    if leaves == [] then []
    else
      (if leaves[0].1 && StartsWith(leaves[0].0, ShareholderListsName) then [leaves[0].0] else [])
      + Contributing(leaves[1..])
  }

  function Dates(names: seq<string>): (dates: seq<Option<string>>)
    ensures |dates| == |names|
    ensures forall k | 0 <= k < |names| :: dates[k] == FirstDate(names[k])
  {
    if names == [] then [] else [FirstDate(names[0])] + Dates(names[1..])
  }

  lemma {:induction false} ContributingAppend(a: seq<(string, bool)>, b: seq<(string, bool)>)
    ensures Contributing(a + b) == Contributing(a) + Contributing(b)
  {
    if a != [] {
      assert (a + b)[0] == a[0];
      assert (a + b)[1..] == a[1..] + b;
      ContributingAppend(a[1..], b);
    } else {
      assert a + b == b;
    }
  }

  lemma {:induction false} DatesAppend(a: seq<string>, b: seq<string>)
    ensures Dates(a + b) == Dates(a) + Dates(b)
  {
    if a != [] {
      assert (a + b)[0] == a[0];
      assert (a + b)[1..] == a[1..] + b;
      DatesAppend(a[1..], b);
    }
  }

  /** What one document contributes is the date of each of its contributing files, in order. */
  lemma {:induction false} ContributionIsDatesOfContributingLeaves(d: Element, inLists: bool)
    ensures Contribution(d, inLists) == Dates(Contributing(LeavesOf(d, inLists)))
    decreases d
  {
    if d.Directory? {
      ExtractIsDatesOfContributingLeaves(d.children, inLists || d.name == ShareholderListsName);
    }
  }

  /** The extraction yields, in depth-first document order, one entry per contributing file: that
      file's first date, or None. */
  lemma {:induction false} ExtractIsDatesOfContributingLeaves(documents: seq<Element>, inLists: bool)
    ensures Extract(documents, inLists) == Dates(Contributing(Leaves(documents, inLists)))
    decreases documents
  {
    if documents != [] {
      var here, rest := LeavesOf(documents[0], inLists), Leaves(documents[1..], inLists);
      ContributionIsDatesOfContributingLeaves(documents[0], inLists);
      ExtractIsDatesOfContributingLeaves(documents[1..], inLists);
      ContributingAppend(here, rest);
      DatesAppend(Contributing(here), Contributing(rest));
    }
  }

  /** `d` is, or holds at any depth, a folder named exactly like the shareholder lists. */
  predicate HoldsListsFolder(d: Element)
    decreases d
  {
    d.Directory? && (d.name == ShareholderListsName || HasListsFolder(d.children))
  }

  predicate HasListsFolder(documents: seq<Element>)
    decreases documents
  {
    documents != [] && (HoldsListsFolder(documents[0]) || HasListsFolder(documents[1..]))
  }

  lemma {:induction false} NoListsFolderNoContribution(d: Element)
    requires !HoldsListsFolder(d)
    ensures Contribution(d, false) == []
    decreases d
  {
    if d.Directory? {
      NoListsFolderNoDates(d.children);
    }
  }

  /** Files outside every shareholder-lists folder contribute nothing. */
  lemma {:induction false} NoListsFolderNoDates(documents: seq<Element>)
    requires !HasListsFolder(documents)
    ensures Extract(documents, false) == []
    decreases documents
  {
    if documents != [] {
      NoListsFolderNoContribution(documents[0]);
      NoListsFolderNoDates(documents[1..]);
    }
  }

  /** A ShareholderLists object: the entity, its document tree and the extracted dates. */
  datatype ShareholderLists = ShareholderLists(
    entity: Entity.LegalEntityInformation, documents: Element, dates: seq<Option<string>>)

  /** `ShareholderLists(entity, documents)`: iterating the children of a file raises, so a file is
      refused. */
  function NewShareholderLists(entity: Entity.LegalEntityInformation, documents: Element): (r: Result<ShareholderLists>)
    ensures r.Failure? <==> documents.File?
    ensures r.Success? ==> r.value.entity == entity && r.value.documents == documents
    ensures r.Success? ==> r.value.dates == Dates(Contributing(Leaves(documents.children, false)))
  {
    if documents.File? then Failure("TypeError: 'NoneType' object is not iterable")
    else
      ExtractIsDatesOfContributingLeaves(documents.children, false);
      Success(ShareholderLists(entity, documents, Extract(documents.children, false)))
  }

  // ---------------------------------------------------------------------------------------------
  // The elements, kept in an arena: element `i` has a name, a parent index (-1 for a root) and either
  // a list of child indices (a directory) or None (a file).

  /** Parent indices point backwards, so walking up from any element ends at a root. */
  predicate ParentsOrdered(parents: seq<int>)
  {
    forall i | 0 <= i < |parents| :: -1 <= parents[i] < i
  }

  /** The number of elements from the root down to `i`, both included. */
  function DepthIn(parents: seq<int>, i: nat): (d: nat)
    requires ParentsOrdered(parents) && i < |parents|
    ensures d >= 1
    ensures d == 1 <==> parents[i] == -1
    decreases i
  {
    if parents[i] < 0 then 1 else 1 + DepthIn(parents, parents[i])
  }

  /** Adding an element does not change the depth of the elements already there. */
  lemma {:induction false} DepthAppend(parents: seq<int>, p: int, i: nat)
    requires ParentsOrdered(parents) && ParentsOrdered(parents + [p]) && i < |parents|
    ensures DepthIn(parents + [p], i) == DepthIn(parents, i)
    decreases i
  {
    if parents[i] >= 0 {
      DepthAppend(parents, p, parents[i]);
    }
  }

  /** A new child is one level deeper than its parent. */
  lemma ChildDepth(parents: seq<int>, p: nat)
    requires ParentsOrdered(parents) && p < |parents|
    ensures ParentsOrdered(parents + [p])
    ensures DepthIn(parents + [p], |parents|) == DepthIn(parents, p) + 1
  {
    DepthAppend(parents, p, p);
  }

  /** The arena is well formed: its three columns agree in length, parents point backwards and at
      directories, and every child index names a later element whose parent is that directory. */
  ghost predicate ArenaOk(names: seq<string>, parents: seq<int>, children: seq<Option<seq<nat>>>)
  {
    |names| == |parents| == |children| &&
    ParentsOrdered(parents) &&
    (forall i | 0 <= i < |parents| && 0 <= parents[i] :: children[parents[i]].Some?) &&
    (forall i, k | 0 <= i < |children| && children[i].Some? && 0 <= k < |children[i].value| ::
       i < children[i].value[k] < |parents| && parents[children[i].value[k]] == i)
  }

  /** `create_child` on the directory `p` keeps the arena well formed: the new element is `p`'s last
      child and records `p` as its parent. */
  lemma ArenaAddChild(names: seq<string>, parents: seq<int>, children: seq<Option<seq<nat>>>,
                      p: nat, name: string, directory: bool)
    requires ArenaOk(names, parents, children) && p < |children| && children[p].Some?
    ensures ArenaOk(names + [name], parents + [p],
                    children[p := Some(children[p].value + [|names|])] + [if directory then Some([]) else None])
  {
    var c := |names|;
    var ch := children[p := Some(children[p].value + [c])] + [if directory then Some([]) else None];
    assert forall i, k | 0 <= i < |ch| && ch[i].Some? && 0 <= k < |ch[i].value| ::
      ch[i].value[k] == c || (i < |children| && children[i].Some? && k < |children[i].value|
                              && ch[i].value[k] == children[i].value[k]);
  }

  class Arena {
    var names: seq<string>
    var parents: seq<int>
    var children: seq<Option<seq<nat>>>

    ghost predicate Valid()
      reads this
    {
      ArenaOk(names, parents, children)
    }

    constructor ()
      ensures Valid() && names == [] && parents == [] && children == []
    {
      names, parents, children := [], [], [];
    }

    /** `DocumentsTreeElement(name, as_directory)` with no parent: a new root, a directory with no
        children or a file. */
    method NewElement(name: string, asDirectory: bool) returns (e: nat)
      requires Valid()
      modifies this
      ensures Valid() && e == old(|names|)
      ensures names == old(names) + [name] && parents == old(parents) + [-1]
      ensures children == old(children) + [if asDirectory then Some([]) else None]
    {
      e := |names|;
      names, parents := names + [name], parents + [-1];
      children := children + [if asDirectory then Some([]) else None];
    }

    /** `create_child`: on a directory, a new element whose parent is `p`, appended at the end of
        `p`'s children; on a file it raises (None) and nothing changes. */
    method CreateChild(p: nat, name: string, asDirectory: bool) returns (e: Option<nat>)
      requires Valid() && p < |names|
      modifies this
      ensures Valid()
      ensures e.None? <==> old(children[p]).None?
      ensures e.None? ==> names == old(names) && parents == old(parents) && children == old(children)
      ensures e.Some? ==>
        && e.value == old(|names|)
        && names == old(names) + [name]
        && parents == old(parents) + [p]
        && children == old(children)[p := Some(old(children[p]).value + [e.value])]
                       + [if asDirectory then Some([]) else None]
    {
      if children[p].None? {
        return None;
      }
      var c := |names|;
      ArenaAddChild(names, parents, children, p, name, asDirectory);
      names, parents := names + [name], parents + [p];
      children := children[p := Some(children[p].value + [c])] + [if asDirectory then Some([]) else None];
      e := Some(c);
    }

    method SetName(i: nat, name: string)
      requires Valid() && i < |names|
      modifies this
      ensures Valid()
      ensures names == old(names)[i := name] && parents == old(parents) && children == old(children)
    {
      names := names[i := name];
    }
  }

  // ---------------------------------------------------------------------------------------------
  // DocumentsTreeParser: its fields and the arena it fills, as a configuration, and the transitions
  // of its handlers.

  datatype State = Void | Error | DirectoryRoot | DirectoryContents | FileRoot | Finished

  /** The parser's state, depth, current element and result, with the three columns of its arena. */
  datatype Config = Config(state: State, depth: int, element: Option<nat>, names: seq<string>,
                           parents: seq<int>, children: seq<Option<seq<nat>>>, result: Option<nat>)

  /** The parser's invariant: the current element is a directory while a directory is open and a
      file while a file is open, `depth` counts the elements from the root down to the open
      directory, and a result is a root directory that exists only once the parser has stopped. */
  ghost predicate Inv(c: Config)
  {
    ArenaOk(c.names, c.parents, c.children) && c.depth >= 0 &&
    (c.element.Some? ==> c.element.value < |c.names|) &&
    (c.result.Some? ==> c.result.value < |c.names| && c.parents[c.result.value] == -1
                        && c.children[c.result.value].Some?) &&
    (c.state == Void ==> c.element.None? && c.result.None?) &&
    ((c.state == DirectoryRoot || c.state == DirectoryContents) ==>
       c.element.Some? && c.children[c.element.value].Some?
       && c.depth == DepthIn(c.parents, c.element.value)) &&
    (c.state == FileRoot ==>
       c.element.Some? && c.children[c.element.value].None? && 0 <= c.parents[c.element.value]
       && c.depth == DepthIn(c.parents, c.parents[c.element.value])) &&
    (c.state == Finished ==> c.result.Some? && c.element == c.result && c.depth == 0) &&
    (c.state == Error ==> c.element.None?) &&
    (c.result.Some? ==> c.state == Finished || c.state == Error)
  }

  /** `__init__`: state Void, depth 0, no element, no result, and nothing in the arena. */
  const Initial := Config(Void, 0, None, [], [], [], None)

  /** `error`: the element is forgotten and the state is Error; a finished result stays. */
  function Failed(c: Config): (d: Config)
    requires Inv(c)
    ensures Inv(d)
  {
    c.(element := None, state := Error)
  }

  /** `DocumentsTreeElement("", True)` as the new root directory, at depth 1. */
  function OpenRoot(c: Config): (d: Config)
    requires Inv(c) && c.state == Void
    ensures Inv(d)
  {
    c.(names := c.names + [""], parents := c.parents + [-1], children := c.children + [Some([])],
       element := Some(|c.names|), state := DirectoryRoot, depth := 1)
  }

  /** `self._element.create_child("", directory)` inside an open directory's contents: the child, a
      directory one level deeper or a file, becomes the current element. */
  function OpenChild(c: Config, directory: bool): (d: Config)
    requires Inv(c) && c.state == DirectoryContents
    ensures Inv(d)
  {
    var p := c.element.value;
    ArenaAddChild(c.names, c.parents, c.children, p, "", directory);
    ChildDepth(c.parents, p);
    DepthAppend(c.parents, p, p);
    c.(names := c.names + [""], parents := c.parents + [p],
       children := c.children[p := Some(c.children[p].value + [|c.names|])] + [if directory then Some([]) else None],
       element := Some(|c.names|),
       state := if directory then DirectoryRoot else FileRoot,
       depth := if directory then c.depth + 1 else c.depth)
  }

  /** One round of handle_starttag's loop over the attributes of a `<div>`. */
  function AttributeStep(c: Config, a: Attribute): (d: Config)
    requires Inv(c)
    ensures Inv(d)
  {
    if a.name == "id" then
      (if a.value == Some("tree-root") && c.state == Void then OpenRoot(c) else c)
    else if a.name == "class" then
      (if (a.value == Some("tree-open") || a.value == Some("tree-closed")) && c.state == DirectoryRoot then c.(state := DirectoryContents)
       else if a.value == Some("tree-node") && c.state == DirectoryContents then OpenChild(c, true)
       else if a.value == Some("tree-file") && c.state == DirectoryContents then OpenChild(c, false)
       else c)
    else c
  }

  /** The attributes of a `<div>`, in order; each one sees the state the previous ones left. */
  function AttributeSteps(c: Config, attrs: seq<Attribute>): (d: Config)
    requires Inv(c)
    ensures Inv(d)
  {
    if attrs == [] then c else AttributeStep(AttributeSteps(c, attrs[..|attrs| - 1]), attrs[|attrs| - 1])
  }

  /** `handle_starttag`: only `<div>` tags count. */
  function StartTagStep(c: Config, tag: string, attrs: seq<Attribute>): (d: Config)
    requires Inv(c)
    ensures Inv(d)
  {
    if tag == "div" then AttributeSteps(c, attrs) else c
  }

  /** `handle_data`: the text is appended to the current element's name while its heading is open. */
  function DataStep(c: Config, data: string): (d: Config)
    requires Inv(c)
    ensures Inv(d)
  {
    if c.state == DirectoryRoot || c.state == FileRoot then
      var e := c.element.value;
      c.(names := c.names[e := c.names[e] + data])
    else c
  }

  /** `handle_endtag`: a closing `</div>` closes a file (back to its directory's contents), a
      directory's contents (back to its heading), or a directory (one level up, or the whole tree at
      the root); each closed element's name is stripped. */
  function EndTagStep(c: Config, tag: string): (d: Config)
    requires Inv(c)
    ensures Inv(d)
  {
    if tag != "div" then c
    else if c.state == FileRoot then
      var e := c.element.value;
      c.(names := c.names[e := Strip(c.names[e])], element := Some(c.parents[e] as nat), state := DirectoryContents)
    else if c.state == DirectoryContents then c.(state := DirectoryRoot)
    else if c.state == DirectoryRoot then
      var e := c.element.value;
      var closed := c.(names := c.names[e := Strip(c.names[e])], depth := c.depth - 1);
      if c.depth - 1 > 0 then closed.(element := Some(c.parents[e] as nat), state := DirectoryContents)
      else closed.(result := c.element, state := Finished)
    else c
  }

  function Step(c: Config, t: Token): (d: Config)
    requires Inv(c)
    ensures Inv(d)
  {
    match t
    case StartTag(tag, attrs) => StartTagStep(c, tag, attrs)
    case Data(text) => DataStep(c, text)
    case EndTag(tag) => EndTagStep(c, tag)
  }

  /** HTMLParser.feed: the tokens in order. */
  function Run(c: Config, tokens: seq<Token>): (d: Config)
    requires Inv(c)
    ensures Inv(d)
  {
    if tokens == [] then c else Step(Run(c, tokens[..|tokens| - 1]), tokens[|tokens| - 1])
  }

  /** Element `i` of the arena as a value: its name and, for a directory, its children in order. */
  ghost function TreeOf(c: Config, i: nat): Element
    requires ArenaOk(c.names, c.parents, c.children) && i < |c.names|
    decreases |c.names| - i, 1, 0
  {
    if c.children[i].None? then File(c.names[i]) else Directory(c.names[i], ForestOf(c, c.children[i].value, i))
  }

  ghost function ForestOf(c: Config, ks: seq<nat>, p: nat): seq<Element>
    requires ArenaOk(c.names, c.parents, c.children) && forall j | 0 <= j < |ks| :: p < ks[j] < |c.names|
    decreases |c.names| - p, 0, |ks|
  {
    if ks == [] then [] else [TreeOf(c, ks[0])] + ForestOf(c, ks[1..], p)
  }

  // ---------------------------------------------------------------------------------------------
  // Properties of the transitions.

  /** A `tree-node` class inside an open directory's contents creates a directory child of the
      current element, makes it the current element and increments the depth by one, which is then
      the child's depth; no element already there changes its depth. */
  lemma TreeNodeOpensDirectory(c: Config)
    requires Inv(c) && c.state == DirectoryContents
    ensures var d := AttributeStep(c, Attribute("class", Some("tree-node")));
      && d.state == DirectoryRoot && d.element == Some(|c.names|) && d.result == c.result
      && d.names == c.names + [""] && d.parents == c.parents + [c.element.value]
      && d.children == c.children[c.element.value := Some(c.children[c.element.value].value + [|c.names|])] + [Some([])]
      && d.depth == c.depth + 1 == DepthIn(d.parents, |c.names|)
      && forall i | 0 <= i < |c.names| :: DepthIn(d.parents, i) == DepthIn(c.parents, i)
  {
    var d := AttributeStep(c, Attribute("class", Some("tree-node")));
    forall i | 0 <= i < |c.names|
      ensures DepthIn(d.parents, i) == DepthIn(c.parents, i)
    {
      DepthAppend(c.parents, c.element.value, i);
    }
  }

  /** A `tree-file` class inside an open directory's contents creates a file child of the current
      element and makes it the current element; the depth stays. */
  lemma TreeFileOpensFile(c: Config)
    requires Inv(c) && c.state == DirectoryContents
    ensures var d := AttributeStep(c, Attribute("class", Some("tree-file")));
      && d.state == FileRoot && d.element == Some(|c.names|) && d.result == c.result && d.depth == c.depth
      && d.names == c.names + [""] && d.parents == c.parents + [c.element.value]
      && d.children == c.children[c.element.value := Some(c.children[c.element.value].value + [|c.names|])] + [None]
  {
  }

  /** The `tree-root` identifier is honoured only before the tree has started: it then appends an
      empty-named directory without a parent or children, makes it the current element and sets
      the depth to 1, its depth in the arena; in any other state it changes nothing. */
  lemma TreeRootOpensRoot(c: Config)
    requires Inv(c)
    ensures var d := AttributeStep(c, Attribute("id", Some("tree-root")));
      && (c.state == Void ==>
            && d.state == DirectoryRoot && d.element == Some(|c.names|) && d.result.None?
            && d.names == c.names + [""] && d.parents == c.parents + [-1] && d.children == c.children + [Some([])]
            && d.depth == 1 == DepthIn(d.parents, |c.names|))
      && (c.state != Void ==> d == c)
  {
  }

  /** Closing a file strips its name and makes the contents of its directory current again; the
      depth, the arena's shape and the result stay. */
  lemma CloseFile(c: Config)
    requires Inv(c) && c.state == FileRoot
    ensures var d := EndTagStep(c, "div"); var e := c.element.value;
      && d.names == c.names[e := Strip(c.names[e])] && d.parents == c.parents && d.children == c.children
      && d.state == DirectoryContents && d.element == Some(c.parents[e] as nat)
      && d.children[c.parents[e]].Some?
      && d.depth == c.depth && d.result == c.result
  {
  }

  /** Closing a directory's heading goes one level up while the depth stays positive, and otherwise
      finishes the parse with that directory, a root, as the result. */
  lemma CloseDirectory(c: Config)
    requires Inv(c) && c.state == DirectoryRoot
    ensures var d := EndTagStep(c, "div"); var e := c.element.value;
      && d.names == c.names[e := Strip(c.names[e])] && d.parents == c.parents && d.children == c.children
      && d.depth == c.depth - 1
      && (c.depth > 1 ==> d.state == DirectoryContents && d.element == Some(c.parents[e] as nat) && d.result.None?)
      && (c.depth == 1 ==> d.state == Finished && d.result == Some(e) && c.parents[e] == -1)
  {
  }

  /** The arena only grows: every element keeps its parent and its kind, and a directory's children
      only get more at the end. */
  ghost predicate Grows(c: Config, d: Config)
  {
    c.parents <= d.parents && |c.names| <= |d.names| && |c.children| <= |d.children| &&
    forall i | 0 <= i < |c.children| ::
      (c.children[i].None? <==> d.children[i].None?) &&
      (c.children[i].Some? ==> c.children[i].value <= d.children[i].value)
  }

  lemma GrowsTransitive(a: Config, b: Config, c: Config)
    requires Grows(a, b) && Grows(b, c)
    ensures Grows(a, c)
  {
    forall i | 0 <= i < |a.children| && a.children[i].Some?
      ensures a.children[i].value <= c.children[i].value
    {
      assert a.children[i].value <= b.children[i].value <= c.children[i].value;
    }
  }

  /** Creating a child appends one element and one child index; nothing else in the arena changes. */
  lemma OpenChildGrows(c: Config, directory: bool)
    requires Inv(c) && c.state == DirectoryContents
    ensures Grows(c, OpenChild(c, directory))
  {
    var d := OpenChild(c, directory);
    var p := c.element.value;
    forall i | 0 <= i < |c.children|
      ensures (c.children[i].None? <==> d.children[i].None?)
      ensures c.children[i].Some? ==> c.children[i].value <= d.children[i].value
    {
      if i == p {
        assert d.children[i] == Some(c.children[p].value + [|c.names|]);
      } else {
        assert d.children[i] == c.children[i];
      }
    }
  }

  lemma AttributeStepGrows(c: Config, a: Attribute)
    requires Inv(c)
    ensures Grows(c, AttributeStep(c, a))
  {
    if a.name == "class" && c.state == DirectoryContents {
      if a.value == Some("tree-node") {
        OpenChildGrows(c, true);
      } else if a.value == Some("tree-file") {
        OpenChildGrows(c, false);
      }
    }
  }

  lemma {:induction false} AttributeStepsGrow(c: Config, attrs: seq<Attribute>)
    requires Inv(c)
    ensures Grows(c, AttributeSteps(c, attrs))
  {
    if attrs != [] {
      var mid := AttributeSteps(c, attrs[..|attrs| - 1]);
      AttributeStepsGrow(c, attrs[..|attrs| - 1]);
      AttributeStepGrows(mid, attrs[|attrs| - 1]);
      GrowsTransitive(c, mid, AttributeStep(mid, attrs[|attrs| - 1]));
    }
  }

  lemma StepGrows(c: Config, t: Token)
    requires Inv(c)
    ensures Grows(c, Step(c, t))
  {
    if t.StartTag? && t.tag == "div" {
      AttributeStepsGrow(c, t.attrs);
    }
  }

  /** Over any run the arena only grows. */
  lemma {:induction false} RunGrows(c: Config, tokens: seq<Token>)
    requires Inv(c)
    ensures Grows(c, Run(c, tokens))
  {
    if tokens != [] {
      var mid := Run(c, tokens[..|tokens| - 1]);
      RunGrows(c, tokens[..|tokens| - 1]);
      StepGrows(mid, tokens[|tokens| - 1]);
      GrowsTransitive(c, mid, Step(mid, tokens[|tokens| - 1]));
    }
  }

  lemma {:induction false} AttributeStepsStopped(c: Config, attrs: seq<Attribute>)
    requires Inv(c) && (c.state == Error || c.state == Finished)
    ensures AttributeSteps(c, attrs) == c
  {
    if attrs != [] {
      AttributeStepsStopped(c, attrs[..|attrs| - 1]);
    }
  }

  /** Once the parser has failed or finished, no token changes anything: in particular a result, once
      found, is final. */
  lemma {:induction false} StoppedIsAbsorbing(c: Config, tokens: seq<Token>)
    requires Inv(c) && (c.state == Error || c.state == Finished || c.result.Some?)
    ensures Run(c, tokens) == c
  {
    if tokens != [] {
      StoppedIsAbsorbing(c, tokens[..|tokens| - 1]);
      var t := tokens[|tokens| - 1];
      if t.StartTag? {
        AttributeStepsStopped(c, t.attrs);
      }
    }
  }

  /** The tree a parse yields is a directory, so ShareholderLists accepts it, and its dates are those
      of the contributing files below its root. */
  lemma ParsedTreeLists(c: Config, entity: Entity.LegalEntityInformation)
    requires Inv(c) && c.result.Some?
    ensures var t := TreeOf(c, c.result.value);
      && t.Directory?
      && NewShareholderLists(entity, t) == Success(ShareholderLists(entity, t, Dates(Contributing(Leaves(t.children, false)))))
  {
  }

  // ---------------------------------------------------------------------------------------------
  // DocumentsTreeParser

  class DocumentsTreeParser {
    const arena: Arena
    var state: State
    var depth: int
    var element: Option<nat>
    var result: Option<nat>

    function Snapshot(): Config
      reads this, arena
    {
      Config(state, depth, element, arena.names, arena.parents, arena.children, result)
    }

    ghost predicate Valid()
      reads this, arena
    {
      Inv(Snapshot())
    }

    constructor ()
      ensures Valid() && fresh(arena) && Snapshot() == Initial
    {
      arena := new Arena();
      state, depth, element, result := Void, 0, None, None;
    }

    /** `error`. */
    method Fail()
      requires Valid()
      modifies this
      ensures Valid() && Snapshot() == Failed(old(Snapshot()))
    {
      element := None;
      state := Error;
    }

    /** One round of handle_starttag's loop over the attributes of a `<div>`. */
    method HandleAttribute(key: string, value: Option<string>)
      requires Valid()
      modifies this, arena
      ensures Valid() && Snapshot() == AttributeStep(old(Snapshot()), Attribute(key, value))
    {
      if key == "id" {
        if value == Some("tree-root") && state == Void {
          var e := arena.NewElement("", true);
          element := Some(e);
          state := DirectoryRoot;
          depth := 1;
        }
      } else if key == "class" {
        if (value == Some("tree-open") || value == Some("tree-closed")) && state == DirectoryRoot {
          state := DirectoryContents;
        } else if value == Some("tree-node") && state == DirectoryContents {
          AddChild(true);
        } else if value == Some("tree-file") && state == DirectoryContents {
          AddChild(false);
        }
      }
    }

    /** A `tree-node` (a directory) or `tree-file` (a file) element inside the current directory:
        a new child of it, which becomes the current element. */
    method AddChild(directory: bool)
      requires Valid() && state == DirectoryContents
      modifies this, arena
      ensures Valid() && Snapshot() == OpenChild(old(Snapshot()), directory)
    {
      ChildDepth(arena.parents, element.value);
      DepthAppend(arena.parents, element.value, element.value);
      var e := arena.CreateChild(element.value, "", directory);
      element := e;
      if directory {
        state := DirectoryRoot;
        depth := depth + 1;
      } else {
        state := FileRoot;
      }
    }

    /** `handle_starttag`: only `<div>` tags count, attribute by attribute in order. */
    method HandleStartTag(tag: string, attrs: seq<Attribute>)
      requires Valid()
      modifies this, arena
      ensures Valid() && Snapshot() == StartTagStep(old(Snapshot()), tag, attrs)
    {
      if tag == "div" {
        ghost var c0 := Snapshot();
        for n := 0 to |attrs|
          invariant Valid() && Snapshot() == AttributeSteps(c0, attrs[..n])
        {
          assert attrs[..n + 1][..n] == attrs[..n];
          HandleAttribute(attrs[n].name, attrs[n].value);
        }
        assert attrs[..|attrs|] == attrs;
      }
    }

    /** `handle_data`. */
    method HandleData(data: string)
      requires Valid()
      modifies arena
      ensures Valid() && Snapshot() == DataStep(old(Snapshot()), data)
    {
      if state == DirectoryRoot || state == FileRoot {
        arena.SetName(element.value, arena.names[element.value] + data);
      }
    }

    /** `handle_endtag`. */
    method HandleEndTag(tag: string)
      requires Valid()
      modifies this, arena
      ensures Valid() && Snapshot() == EndTagStep(old(Snapshot()), tag)
    {
      if tag == "div" {
        if state == FileRoot {
          var e := element.value;
          arena.SetName(e, Strip(arena.names[e]));
          element := Some(arena.parents[e] as nat);
          state := DirectoryContents;
        } else if state == DirectoryContents {
          state := DirectoryRoot;
        } else if state == DirectoryRoot {
          var e := element.value;
          arena.SetName(e, Strip(arena.names[e]));
          depth := depth - 1;
          if depth > 0 {
            element := Some(arena.parents[e] as nat);
            state := DirectoryContents;
          } else {
            result := element;
            state := Finished;
          }
        }
      }
    }

    /** HTMLParser.feed: every token handed to its handler in order. */
    method Feed(tokens: seq<Token>)
      requires Valid()
      modifies this, arena
      ensures Valid() && Snapshot() == Run(old(Snapshot()), tokens)
    {
      for n := 0 to |tokens|
        invariant Valid() && Snapshot() == Run(old(Snapshot()), tokens[..n])
      {
        assert tokens[..n + 1][..n] == tokens[..n];
        match tokens[n]
        case StartTag(tag, attrs) => HandleStartTag(tag, attrs);
        case Data(text) => HandleData(text);
        case EndTag(tag) => HandleEndTag(tag);
      }
      assert tokens[..|tokens|] == tokens;
    }

    /** The tree the parser produced, as a value: the root directory and everything below it. */
    ghost function ResultTree(): (t: Element)
      reads this, arena
      requires Valid() && result.Some?
      ensures t.Directory?
    {
      TreeOf(Snapshot(), result.value)
    }
  }
}
