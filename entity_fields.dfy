/** The field parsers of the legal-entity extractor (source/entity.py, lines 262-315).  Each regular
    expression is spelled out as a search that tries its choices in the order Python's backtracking
    matcher does (a greedy quantifier longest first, a lazy one shortest first, alternatives left to
    right).  Each search is proved to succeed exactly when the expression can match; the leading
    whitespace, the court, the line groups, the dates and the city are also proved to be the match
    that comes first in that order. */
module EntityFields {
  import opened Wrappers
  import opened Text

  const RegistryTypes: seq<string> := ["HRA", "HRB", "GnR", "PR", "VR"]

  // ---------------------------------------------------------------------------------------------
  // The registry line:  ^\s*(.*?)\s+(HRA|HRB|GnR|PR|VR)\s+(\d*?(?:\s+[a-zA-Z]{1,2})?)\s*$
  // The older extractor (comreg/search.py) uses the same pattern without the optional letter part
  // `(?:\s+[a-zA-Z]{1,2})?`; the searches below take `suffix` to say whether that part is present.

  /** One way the registry pattern can match `s`: leading whitespace up to `a`, the court `s[a..b]`,
      whitespace up to `c`, the type `RegistryTypes[t]` at `c`, whitespace up to `e`, then the
      identifier: `d` digits, and `w` whitespace characters before `l` letters (both 0 when the
      optional part is absent). */
  datatype RegistrySplit = RegistrySplit(a: nat, b: nat, c: nat, t: nat, e: nat, d: nat, w: nat, l: nat)

  /** `(?:\s+[a-zA-Z]{1,2})?\s*$` matches after the identifier's digits. */
  predicate IdTailOk(s: string, sp: RegistrySplit, suffix: bool)
  {
    var q := sp.e + sp.d;
    (sp.w == 0 && sp.l == 0 && BlankFrom(s, q))
    || (suffix && 1 <= sp.w && WhitespaceAt(s, q, sp.w) && 1 <= sp.l <= 2 && LettersAt(s, q + sp.w, sp.l)
        && BlankFrom(s, q + sp.w + sp.l))
  }

  /** The identifier group and the rest of the line match from `e`. */
  predicate IdOk(s: string, sp: RegistrySplit, suffix: bool)
  {
    DigitsAt(s, sp.e, sp.d) && IdTailOk(s, sp, suffix)
  }

  /** The type, its following whitespace and the identifier match from `c`. */
  predicate TypeOk(s: string, sp: RegistrySplit, suffix: bool)
  {
    sp.t < |RegistryTypes| && OccursAt(s, RegistryTypes[sp.t], sp.c)
    && var g := sp.c + |RegistryTypes[sp.t]|;
    g < sp.e && WhitespaceAt(s, g, sp.e - g) && IdOk(s, sp, suffix)
  }

  /** The whitespace after the court and everything after it match from `b`. */
  predicate CourtOk(s: string, sp: RegistrySplit, suffix: bool)
  {
    sp.b < sp.c && WhitespaceAt(s, sp.b, sp.c - sp.b) && TypeOk(s, sp, suffix)
  }

  predicate AfterLeadOk(s: string, sp: RegistrySplit, suffix: bool)
  {
    LineAt(s, sp.a, sp.b) && CourtOk(s, sp, suffix)
  }

  /** The whole pattern matches `s` as `sp` says. */
  predicate RegistryOk(s: string, sp: RegistrySplit, suffix: bool)
  {
    WhitespaceAt(s, 0, sp.a) && AfterLeadOk(s, sp, suffix)
  }

  /** `[a-zA-Z]{1,2}\s*$` after the identifier's whitespace: two letters before one. */
  function IdLetters(s: string, p: RegistrySplit): (r: Option<RegistrySplit>)
    requires 1 <= p.w && WhitespaceAt(s, p.e + p.d, p.w)
    ensures r.Some? ==> IdTailOk(s, r.value, true) && (r.value.a == p.a && r.value.b == p.b && r.value.c == p.c && r.value.t == p.t && r.value.e == p.e && r.value.d == p.d && r.value.w == p.w)
    ensures r.None? ==> forall sp: RegistrySplit {:trigger IdTailOk(s, sp, true)} | (sp.a == p.a && sp.b == p.b && sp.c == p.c && sp.t == p.t && sp.e == p.e && sp.d == p.d && sp.w == p.w) :: !IdTailOk(s, sp, true)
  {
    var q := p.e + p.d + p.w;
    if LettersAt(s, q, 2) && BlankFrom(s, q + 2) then Some(p.(l := 2))
    else if LettersAt(s, q, 1) && BlankFrom(s, q + 1) then Some(p.(l := 1))
    else None
  }

  /** `\s+` of the optional part, greedy: `w`, `w - 1`, ..., 1 whitespace characters. */
  function IdSpaces(s: string, p: RegistrySplit, w: nat): (r: Option<RegistrySplit>)
    requires WhitespaceAt(s, p.e + p.d, w)
    ensures r.Some? ==> IdTailOk(s, r.value, true) && (r.value.a == p.a && r.value.b == p.b && r.value.c == p.c && r.value.t == p.t && r.value.e == p.e && r.value.d == p.d) && 1 <= r.value.w <= w
    ensures r.None? ==> forall sp: RegistrySplit {:trigger IdTailOk(s, sp, true)} | (sp.a == p.a && sp.b == p.b && sp.c == p.c && sp.t == p.t && sp.e == p.e && sp.d == p.d) && 1 <= sp.w <= w :: !IdTailOk(s, sp, true)
    decreases w
  {
    if w == 0 then None
    else
      match IdLetters(s, p.(w := w))
      case Some(x) => Some(x)
      case None => IdSpaces(s, p, w - 1)
  }

  /** The optional part is tried before its absence. */
  function IdTail(s: string, p: RegistrySplit, suffix: bool): (r: Option<RegistrySplit>)
    requires p.e + p.d <= |s|
    ensures r.Some? ==> IdTailOk(s, r.value, suffix) && (r.value.a == p.a && r.value.b == p.b && r.value.c == p.c && r.value.t == p.t && r.value.e == p.e && r.value.d == p.d)
    ensures r.None? ==> forall sp: RegistrySplit {:trigger IdTailOk(s, sp, suffix)} | (sp.a == p.a && sp.b == p.b && sp.c == p.c && sp.t == p.t && sp.e == p.e && sp.d == p.d) :: !IdTailOk(s, sp, suffix)
  {
    var present := if suffix then IdSpaces(s, p, WhitespaceRun(s, p.e + p.d)) else None;
    if present.Some? then present
    else if BlankFrom(s, p.e + p.d) then Some(p.(w := 0, l := 0))
    else None
  }

  /** `\d*?`, lazy: `d`, `d + 1`, ... digits, as far as the digits reach. */
  function IdDigits(s: string, p: RegistrySplit, suffix: bool, d: nat): (r: Option<RegistrySplit>)
    requires p.e <= |s| && d <= DigitRun(s, p.e)
    ensures r.Some? ==> IdOk(s, r.value, suffix) && (r.value.a == p.a && r.value.b == p.b && r.value.c == p.c && r.value.t == p.t && r.value.e == p.e) && d <= r.value.d
    ensures r.None? ==> forall sp: RegistrySplit {:trigger IdOk(s, sp, suffix)} | (sp.a == p.a && sp.b == p.b && sp.c == p.c && sp.t == p.t && sp.e == p.e) && d <= sp.d :: !IdOk(s, sp, suffix)
    decreases DigitRun(s, p.e) - d
  {
    match IdTail(s, p.(d := d), suffix)
    case Some(x) => Some(x)
    case None => if d < DigitRun(s, p.e) then IdDigits(s, p, suffix, d + 1) else None
  }

  /** `\s+` after the type, greedy. */
  function TypeSpaces(s: string, p: RegistrySplit, suffix: bool, w: nat): (r: Option<RegistrySplit>)
    requires p.t < |RegistryTypes| && OccursAt(s, RegistryTypes[p.t], p.c)
    requires WhitespaceAt(s, p.c + |RegistryTypes[p.t]|, w)
    ensures r.Some? ==> TypeOk(s, r.value, suffix) && (r.value.a == p.a && r.value.b == p.b && r.value.c == p.c && r.value.t == p.t) && r.value.e <= p.c + |RegistryTypes[p.t]| + w
    ensures r.None? ==> forall sp: RegistrySplit {:trigger TypeOk(s, sp, suffix)} | (sp.a == p.a && sp.b == p.b && sp.c == p.c && sp.t == p.t) && sp.e <= p.c + |RegistryTypes[p.t]| + w :: !TypeOk(s, sp, suffix)
    decreases w
  {
    var g := p.c + |RegistryTypes[p.t]|;
    if w == 0 then None
    else
      var q := p.(e := g + w);
      assert forall sp: RegistrySplit {:trigger TypeOk(s, sp, suffix)} {:trigger IdOk(s, sp, suffix)} | (sp.a == p.a && sp.b == p.b && sp.c == p.c && sp.t == p.t) && sp.e == g + w ::
        (sp.a == q.a && sp.b == q.b && sp.c == q.c && sp.t == q.t && sp.e == q.e) && (TypeOk(s, sp, suffix) <==> IdOk(s, sp, suffix));
      match IdDigits(s, q, suffix, 0)
      case Some(x) => Some(x)
      case None => TypeSpaces(s, p, suffix, w - 1)
  }

  /** The alternatives of the type group, from the `t`-th on. */
  function TypeAlternatives(s: string, p: RegistrySplit, suffix: bool, t: nat): (r: Option<RegistrySplit>)
    ensures r.Some? ==> TypeOk(s, r.value, suffix) && (r.value.a == p.a && r.value.b == p.b && r.value.c == p.c) && t <= r.value.t
    ensures r.None? ==> forall sp: RegistrySplit {:trigger TypeOk(s, sp, suffix)} | (sp.a == p.a && sp.b == p.b && sp.c == p.c) && t <= sp.t :: !TypeOk(s, sp, suffix)
    decreases |RegistryTypes| - t
  {
    if t >= |RegistryTypes| then None
    else if !OccursAt(s, RegistryTypes[t], p.c) then TypeAlternatives(s, p, suffix, t + 1)
    else
      var q := p.(t := t);
      var g := p.c + |RegistryTypes[t]|;
      assert forall sp: RegistrySplit {:trigger TypeOk(s, sp, suffix)} | (sp.a == p.a && sp.b == p.b && sp.c == p.c) && sp.t == t && TypeOk(s, sp, suffix) ::
        (sp.a == q.a && sp.b == q.b && sp.c == q.c && sp.t == q.t) && sp.e <= g + WhitespaceRun(s, g);
      match TypeSpaces(s, q, suffix, WhitespaceRun(s, g))
      case Some(x) => Some(x)
      case None => TypeAlternatives(s, p, suffix, t + 1)
  }

  /** `\s+` after the court, greedy. */
  function CourtSpaces(s: string, p: RegistrySplit, suffix: bool, w: nat): (r: Option<RegistrySplit>)
    requires WhitespaceAt(s, p.b, w)
    ensures r.Some? ==> CourtOk(s, r.value, suffix) && (r.value.a == p.a && r.value.b == p.b) && r.value.c <= p.b + w
    ensures r.None? ==> forall sp: RegistrySplit {:trigger CourtOk(s, sp, suffix)} | (sp.a == p.a && sp.b == p.b) && sp.c <= p.b + w :: !CourtOk(s, sp, suffix)
    decreases w
  {
    if w == 0 then None
    else
      match TypeAlternatives(s, p.(c := p.b + w), suffix, 0)
      case Some(x) => Some(x)
      case None => CourtSpaces(s, p, suffix, w - 1)
  }

  /** The court group `(.*?)`, lazy: it ends at `b`, `b + 1`, ..., up to the first line break. */
  function Court(s: string, p: RegistrySplit, suffix: bool, b: nat): (r: Option<RegistrySplit>)
    requires LineAt(s, p.a, b)
    ensures r.Some? ==> AfterLeadOk(s, r.value, suffix) && (r.value.a == p.a) && b <= r.value.b
    ensures r.Some? ==> forall sp: RegistrySplit {:trigger AfterLeadOk(s, sp, suffix)} | (sp.a == p.a) && b <= sp.b && AfterLeadOk(s, sp, suffix) :: r.value.b <= sp.b
    ensures r.None? ==> forall sp: RegistrySplit {:trigger AfterLeadOk(s, sp, suffix)} | (sp.a == p.a) && b <= sp.b :: !AfterLeadOk(s, sp, suffix)
    decreases |s| - b
  {
    match CourtSpaces(s, p.(b := b), suffix, WhitespaceRun(s, b))
    case Some(x) => Some(x)
    case None =>
      NoCourtAt(s, p, suffix, b);
      if b < |s| && s[b] != '\n' then Court(s, p, suffix, b + 1)
      else
        NoCourtAfter(s, p, suffix, b);
        None
  }

  /** When no whitespace run after a court ending at `b` lets the rest match, no match has its court
      end at `b`. */
  lemma NoCourtAt(s: string, p: RegistrySplit, suffix: bool, b: nat)
    requires b <= |s| && CourtSpaces(s, p.(b := b), suffix, WhitespaceRun(s, b)).None?
    ensures forall sp: RegistrySplit {:trigger AfterLeadOk(s, sp, suffix)} | sp.a == p.a && sp.b == b :: !AfterLeadOk(s, sp, suffix)
  {
  }

  /** The court group stops at a line break and at the end of the line. */
  lemma NoCourtAfter(s: string, p: RegistrySplit, suffix: bool, b: nat)
    requires LineAt(s, p.a, b) && (b == |s| || s[b] == '\n')
    ensures forall sp: RegistrySplit {:trigger AfterLeadOk(s, sp, suffix)} | sp.a == p.a && b < sp.b :: !AfterLeadOk(s, sp, suffix)
  {
  }

  /** The leading `\s*`, greedy. */
  function Lead(s: string, a: nat, suffix: bool): (r: Option<RegistrySplit>)
    requires WhitespaceAt(s, 0, a)
    ensures r.Some? ==> RegistryOk(s, r.value, suffix) && r.value.a <= a
    ensures r.Some? ==> forall sp: RegistrySplit {:trigger RegistryOk(s, sp, suffix)} | sp.a <= a && RegistryOk(s, sp, suffix) ::
      sp.a < r.value.a || (sp.a == r.value.a && r.value.b <= sp.b)
    ensures r.None? ==> forall sp: RegistrySplit {:trigger RegistryOk(s, sp, suffix)} | sp.a <= a :: !RegistryOk(s, sp, suffix)
    decreases a
  {
    var p := RegistrySplit(a, a, 0, 0, 0, 0, 0, 0);
    assert forall sp: RegistrySplit {:trigger RegistryOk(s, sp, suffix)} {:trigger AfterLeadOk(s, sp, suffix)} | sp.a == a && RegistryOk(s, sp, suffix) :: (sp.a == p.a) && a <= sp.b && AfterLeadOk(s, sp, suffix);
    match Court(s, p, suffix, a)
    case Some(x) => Some(x)
    case None => if a == 0 then None else Lead(s, a - 1, suffix)
  }

  /** The registry pattern against `s`: a match exactly when one exists, and then one with the
      longest leading whitespace and, for it, the shortest court, as Python picks.  The positions
      after the court are the ones the search tries first, but only the lead and the court are proved
      to have priority; later choices matter, since "X HRB \t\tAB" matches with the identifier group
      "\tAB" (the one Python reports) and also with "\t\tAB", which collapses to " AB". */
  function RegistryMatch(s: string, suffix: bool): (r: Option<RegistrySplit>)
    ensures r.Some? ==> RegistryOk(s, r.value, suffix)
    ensures r.Some? ==> forall sp: RegistrySplit {:trigger RegistryOk(s, sp, suffix)} | RegistryOk(s, sp, suffix) ::
      sp.a < r.value.a || (sp.a == r.value.a && r.value.b <= sp.b)
    ensures r.None? <==> forall sp: RegistrySplit {:trigger RegistryOk(s, sp, suffix)} :: !RegistryOk(s, sp, suffix)
  {
    Lead(s, WhitespaceRun(s, 0), suffix)
  }

  /** `sp` is a match with Python's lead and court: no match has a longer lead, or the same lead and
      a shorter court. */
  ghost predicate RegistryFirst(s: string, sp: RegistrySplit, suffix: bool)
  {
    RegistryOk(s, sp, suffix)
    && forall x: RegistrySplit {:trigger RegistryOk(s, x, suffix)} | RegistryOk(s, x, suffix) :: x.a < sp.a || (x.a == sp.a && sp.b <= x.b)
  }

  /** No two whitespace characters are adjacent. */
  predicate SingleSpaced(s: string)
  {
    forall k | 0 <= k < |s| - 1 :: !(IsWhitespace(s[k]) && IsWhitespace(s[k + 1]))
  }

  /** `re.sub(r"\s\s+", " ", s)`: every run of two or more whitespace characters becomes one space. */
  function CollapseWhitespace(s: string): (r: string)
    ensures |r| <= |s|
    ensures (r == []) == (s == [])
    ensures r != [] ==> (IsWhitespace(r[0]) <==> IsWhitespace(s[0]))
    ensures SingleSpaced(r)
    decreases |s|
  {
    if s == [] then []
    else if IsWhitespace(s[0]) then
      var n := WhitespaceRun(s, 0);
      var rest := CollapseWhitespace(s[n..]);
      assert s[n..] != [] ==> !IsWhitespace(s[n..][0]);
      (if n >= 2 then " " else [s[0]]) + rest
    else
      [s[0]] + CollapseWhitespace(s[1..])
  }

  /** Collapsing leaves single-spaced text as it is, so it is idempotent. */
  lemma {:induction false} CollapseSingleSpaced(s: string)
    requires SingleSpaced(s)
    ensures CollapseWhitespace(s) == s
    decreases |s|
  {
    if s != [] {
      if IsWhitespace(s[0]) {
        assert WhitespaceRun(s, 0) == 1 by {
          if |s| > 1 { assert !IsWhitespace(s[1]); }
        }
      }
      assert SingleSpaced(s[1..]) by {
        forall k | 0 <= k < |s[1..]| - 1 ensures !(IsWhitespace(s[1..][k]) && IsWhitespace(s[1..][k + 1])) {
          assert s[1..][k] == s[k + 1] && s[1..][k + 1] == s[k + 2];
        }
      }
      CollapseSingleSpaced(s[1..]);
    }
  }

  lemma CollapseIdempotent(s: string)
    ensures CollapseWhitespace(CollapseWhitespace(s)) == CollapseWhitespace(s)
  {
    CollapseSingleSpaced(CollapseWhitespace(s));
  }

  /** `WhitespaceRun` is the only run length that stops at a non-whitespace character or the end. */
  lemma RunUnique(s: string, i: nat, n: nat)
    requires WhitespaceAt(s, i, n) && (i + n == |s| || !IsWhitespace(s[i + n]))
    ensures WhitespaceRun(s, i) == n
  {
  }

  /** A run of two or more whitespace characters becomes one space. */
  lemma CollapseLongRun(w: string)
    requires |w| >= 2 && WhitespaceAt(w, 0, |w|)
    ensures CollapseWhitespace(w) == " "
  {
    RunUnique(w, 0, |w|);
    assert w[|w|..] == [];
  }

  /** A single whitespace character is kept as it is. */
  lemma CollapseShortRun(w: string)
    requires |w| == 1 && IsWhitespace(w[0])
    ensures CollapseWhitespace(w) == w
  {
    RunUnique(w, 0, 1);
    assert w[1..] == [];
  }

  /** A character other than whitespace is copied. */
  lemma CollapseCons(c: char, t: string)
    requires !IsWhitespace(c)
    ensures CollapseWhitespace([c] + t) == [c] + CollapseWhitespace(t)
  {
    assert ([c] + t)[0] == c && ([c] + t)[1..] == t;
  }

  /** A leading whitespace run of length `n` becomes one blank when `n >= 2`, and stays otherwise. */
  lemma CollapseRun(s: string, n: nat)
    requires 0 < n <= |s| && WhitespaceAt(s, 0, n) && (n == |s| || !IsWhitespace(s[n]))
    ensures CollapseWhitespace(s) == (if n >= 2 then " " else [s[0]]) + CollapseWhitespace(s[n..])
  {
    RunUnique(s, 0, n);
  }

  lemma ConcatAssoc(x: string, y: string, z: string)
    ensures x + (y + z) == (x + y) + z
  {
  }

  /** The step of `CollapseAppend` for a first character other than whitespace. */
  lemma CollapseAppendCons(c: char, t: string, b: string)
    requires !IsWhitespace(c)
    requires CollapseWhitespace(t + b) == CollapseWhitespace(t) + CollapseWhitespace(b)
    ensures CollapseWhitespace([c] + t + b) == CollapseWhitespace([c] + t) + CollapseWhitespace(b)
  {
    assert [c] + t + b == [c] + (t + b);
    CollapseCons(c, t + b);
    CollapseCons(c, t);
    ConcatAssoc([c], CollapseWhitespace(t), CollapseWhitespace(b));
  }

  lemma ConsSplit(a: string, b: string)
    requires a != []
    ensures [a[0]] + a[1..] == a && [a[0]] + a[1..] + b == a + b
  {
  }

  lemma DropAppend(a: string, b: string, n: nat)
    requires n <= |a|
    ensures (a + b)[n..] == a[n..] + b
  {
  }

  /** A leading whitespace run of `a` that does not run on into `b` is also the leading run of `a + b`. */
  lemma AppendKeepsRun(a: string, b: string, n: nat)
    requires 0 < n <= |a| && WhitespaceAt(a, 0, n) && (n == |a| || !IsWhitespace(a[n]))
    requires n == |a| ==> b == [] || !IsWhitespace(b[0])
    ensures WhitespaceRun(a + b, 0) == n && (a + b)[0] == a[0]
  {
    var s := a + b;
    assert WhitespaceAt(s, 0, n) by {
      assert forall k | 0 <= k < n :: s[k] == a[k];
    }
    assert n < |s| ==> !IsWhitespace(s[n]) by {
      if n < |s| {
        if n < |a| { assert s[n] == a[n]; } else { assert s[n] == b[0]; }
      }
    }
    RunUnique(s, 0, n);
  }

  /** The step of `CollapseAppend` for a leading whitespace run of length `n`. */
  lemma CollapseAppendRun(a: string, b: string, n: nat)
    requires 0 < n <= |a| && WhitespaceAt(a, 0, n) && (n == |a| || !IsWhitespace(a[n]))
    requires n == |a| ==> b == [] || !IsWhitespace(b[0])
    requires CollapseWhitespace(a[n..] + b) == CollapseWhitespace(a[n..]) + CollapseWhitespace(b)
    ensures CollapseWhitespace(a + b) == CollapseWhitespace(a) + CollapseWhitespace(b)
  {
    RunUnique(a, 0, n);
    AppendKeepsRun(a, b, n);
    DropAppend(a, b, n);
    ConcatAssoc(if n >= 2 then " " else [a[0]], CollapseWhitespace(a[n..]), CollapseWhitespace(b));
  }

  /** Collapsing works piece by piece wherever the pieces do not split a whitespace run. */
  lemma {:induction false} CollapseAppend(a: string, b: string)
    requires a == [] || b == [] || !IsWhitespace(a[|a| - 1]) || !IsWhitespace(b[0])
    ensures CollapseWhitespace(a + b) == CollapseWhitespace(a) + CollapseWhitespace(b)
    decreases |a|
  {
    if a == [] {
      assert a + b == b;
    } else if !IsWhitespace(a[0]) {
      CollapseAppend(a[1..], b);
      CollapseAppendCons(a[0], a[1..], b);
      ConsSplit(a, b);
    } else {
      var n := WhitespaceRun(a, 0);
      if n < |a| {
        CollapseAppend(a[n..], b);
      } else {
        assert a[n..] == [] && a[n..] + b == b;
      }
      CollapseAppendRun(a, b, n);
    }
  }

  /** `s` without its whitespace: the characters that collapsing must keep. */
  function NonBlank(s: string): (r: string)
    ensures |r| <= |s|
    ensures forall k | 0 <= k < |r| :: !IsWhitespace(r[k])
  {
    if s == [] then [] else (if IsWhitespace(s[0]) then [] else [s[0]]) + NonBlank(s[1..])
  }

  lemma {:induction false} NonBlankSkipsRun(s: string, n: nat)
    requires WhitespaceAt(s, 0, n)
    ensures NonBlank(s) == NonBlank(s[n..])
  {
    if n > 0 {
      assert WhitespaceAt(s[1..], 0, n - 1);
      NonBlankSkipsRun(s[1..], n - 1);
      assert s[1..][n - 1..] == s[n..];
    }
  }

  /** Every character other than whitespace is kept, in order, and nothing else is added. */
  lemma {:induction false} CollapseKeepsNonBlank(s: string)
    ensures NonBlank(CollapseWhitespace(s)) == NonBlank(s)
    decreases |s|
  {
    if s != [] {
      var r := CollapseWhitespace(s);
      if IsWhitespace(s[0]) {
        var n := WhitespaceRun(s, 0);
        var head: string := if n >= 2 then " " else [s[0]];
        assert r == head + CollapseWhitespace(s[n..]);
        assert r[1..] == CollapseWhitespace(s[n..]);
        CollapseKeepsNonBlank(s[n..]);
        NonBlankSkipsRun(s, n);
      } else {
        assert r[1..] == CollapseWhitespace(s[1..]);
        CollapseKeepsNonBlank(s[1..]);
      }
    }
  }

  /** `__set_registry_information`: group 1 (the court), group 2 (the type) and group 3 (the
      identifier) with its whitespace runs collapsed, of a match with Python's lead and court, or None
      when the line does not match (and the record keeps its fields). */
  /** Groups 1 (the court) and 2 (the type) of the match `sp`, and group 3 (the identifier) with its
      whitespace runs collapsed. */
  function RegistryGroups(s: string, sp: RegistrySplit): (string, string, string)
    requires RegistryOk(s, sp, true)
  {
    (s[sp.a..sp.b], RegistryTypes[sp.t], CollapseWhitespace(s[sp.e..sp.e + sp.d + sp.w + sp.l]))
  }

  function RegistryFields(s: string): (r: Option<(string, string, string)>)
    ensures r.Some? <==> exists sp: RegistrySplit :: RegistryOk(s, sp, true)
    ensures r.Some? ==> exists sp: RegistrySplit :: RegistryFirst(s, sp, true) && r.value == RegistryGroups(s, sp)
  {
    match RegistryMatch(s, true)
    case None => None
    case Some(sp) =>
      assert RegistryFirst(s, sp, true);
      Some(RegistryGroups(s, sp))
  }

  // ---------------------------------------------------------------------------------------------
  // ^\s*(.*?)\s*$  (structure and street address) and ^\s*–\s*(.*?)\s*$  (name)

  /** `g`, starting at `i`, is a group of `^\s*(.*?)\s*$`: whitespace before it, no line break in it,
      whitespace after it. */
  predicate LineGroup(s: string, g: string, i: nat)
  {
    Trims(s, g, i) && forall k | 0 <= k < |g| :: g[k] != '\n'
  }

  /** Any group the pattern allows starts no later than the stripped text and covers it. */
  lemma TrimsCoverStrip(s: string, g: string, i: nat)
    requires Trims(s, g, i)
    ensures i <= WhitespaceRun(s, 0)
    ensures Strip(s) != [] ==> WhitespaceRun(s, 0) + |Strip(s)| <= i + |g|
  {
    var a, t := WhitespaceRun(s, 0), Strip(s);
    assert WhitespaceAt(s, 0, i);
    if t != [] {
      assert !IsWhitespace(s[a]) && !IsWhitespace(s[a + |t| - 1]);
    }
  }

  /** A line break in the stripped text rules out every group. */
  lemma NoLineGroup(s: string, k: nat)
    requires k < |Strip(s)| && Strip(s)[k] == '\n'
    ensures forall g, i: nat :: !LineGroup(s, g, i)
  {
    forall g, i: nat ensures !LineGroup(s, g, i) {
      if Trims(s, g, i) {
        TrimsCoverStrip(s, g, i);
        LineBreakInGroup(s, Strip(s), WhitespaceRun(s, 0), k, g, i);
      }
    }
  }

  /** A group that covers the text `t` at `a` holds its line break too. */
  lemma LineBreakInGroup(s: string, t: string, a: nat, k: nat, g: string, i: nat)
    requires a + |t| <= |s| && s[a..a + |t|] == t && k < |t| && t[k] == '\n'
    requires i + |g| <= |s| && s[i..i + |g|] == g && i <= a && a + |t| <= i + |g|
    ensures g[a + k - i] == '\n'
  {
    assert t[k] == s[a + k];
    assert g[a + k - i] == s[a + k];
  }

  /** `re.match(r"^\s*(.*?)\s*$", s)`: the stripped text, when it holds no line break. Of all the
      groups the pattern allows, it is the one Python picks: it starts furthest right and, there, is
      the shortest. */
  function StrippedLine(s: string): (r: Option<string>)
    ensures r.Some? ==> LineGroup(s, r.value, WhitespaceRun(s, 0))
    ensures r.Some? ==> forall g, i: nat | LineGroup(s, g, i) :: i < WhitespaceRun(s, 0) || (i == WhitespaceRun(s, 0) && |r.value| <= |g|)
    ensures r.None? ==> forall g, i: nat :: !LineGroup(s, g, i)
  {
    var t := Strip(s);
    if forall k | 0 <= k < |t| :: t[k] != '\n' then
      assert forall g, i: nat | LineGroup(s, g, i) :: i <= WhitespaceRun(s, 0) && (t != [] ==> |t| <= |g| || i < WhitespaceRun(s, 0)) by {
        forall g, i: nat | LineGroup(s, g, i) ensures i <= WhitespaceRun(s, 0) && (t != [] ==> |t| <= |g| || i < WhitespaceRun(s, 0)) {
          TrimsCoverStrip(s, g, i);
        }
      }
      Some(t)
    else
      var k :| 0 <= k < |t| && t[k] == '\n';
      NoLineGroup(s, k);
      None
  }

  /** The en dash that introduces the name. */
  const NameDash := '\U{2013}'

  /** `__set_name`: after leading whitespace, an en dash, then a stripped line. */
  function NameLine(s: string): (r: Option<string>)
    ensures r.Some? <==> exists a: nat :: WhitespaceAt(s, 0, a) && a < |s| && s[a] == NameDash && StrippedLine(s[a + 1..]).Some?
    ensures r.Some? ==> exists a: nat :: WhitespaceAt(s, 0, a) && a < |s| && s[a] == NameDash && r == StrippedLine(s[a + 1..])
  {
    var a := WhitespaceRun(s, 0);
    assert forall b: nat | WhitespaceAt(s, 0, b) && b < |s| && s[b] == NameDash :: b == a;
    if a < |s| && s[a] == NameDash then StrippedLine(s[a + 1..]) else None
  }

  // ---------------------------------------------------------------------------------------------
  // Dates:  ^\s*(\d{2}.\d{2}.\d{4})  (entry and deletion) and  ^\s*(\d{2}.\d{2}.\d{4})\s*$  (balance)

  /** Where a field's leading whitespace ends; a digit cannot sit inside it. */
  lemma LeadIsRun(s: string, a: nat)
    requires WhitespaceAt(s, 0, a) && a < |s| && !IsWhitespace(s[a])
    ensures a == WhitespaceRun(s, 0)
  {
  }

  /** `__set_date`: the ten-character date right after the leading whitespace. */
  function LeadingDate(s: string): (r: Option<string>)
    ensures r.Some? <==> exists a: nat :: WhitespaceAt(s, 0, a) && DottedDateAt(s, a)
    ensures r.Some? ==> forall a: nat | WhitespaceAt(s, 0, a) && DottedDateAt(s, a) :: r.value == s[a..a + 10]
  {
    var a := WhitespaceRun(s, 0);
    assert forall b: nat | WhitespaceAt(s, 0, b) && DottedDateAt(s, b) :: b == a by {
      forall b: nat | WhitespaceAt(s, 0, b) && DottedDateAt(s, b) ensures b == a {
        assert IsDigit(s[b]) && !IsWhitespace(s[b]);
      }
    }
    if DottedDateAt(s, a) then Some(s[a..a + 10]) else None
  }

  /** `__process_balance`: a date that is the whole text, up to surrounding whitespace. */
  function BalanceDate(s: string): (r: Option<string>)
    ensures r.Some? <==> exists a: nat :: WhitespaceAt(s, 0, a) && DottedDateAt(s, a) && BlankFrom(s, a + 10)
    ensures r.Some? ==> forall a: nat | WhitespaceAt(s, 0, a) && DottedDateAt(s, a) :: r.value == s[a..a + 10]
    ensures r.Some? ==> r == LeadingDate(s)
  {
    var a := WhitespaceRun(s, 0);
    var date := LeadingDate(s);
    if date.Some? && BlankFrom(s, a + 10) then date else None
  }

  // ---------------------------------------------------------------------------------------------
  // The capital:  ^\s*((?:(?:\d{1,3})(?:\.\d{3})+|\d+)(?:,\d{1,2})?)\s*(EUR|DEM|€)?\s*$

  const Currencies: seq<string> := ["EUR", "DEM", "\U{20AC}"]

  /** `\d{1,3}(?:\.\d{3})+`: digits grouped by thousands with dots. */
  predicate Grouped(x: string)
    decreases |x|
  {
    |x| >= 5 && x[|x| - 4] == '.' && DigitsAt(x, |x| - 3, 3)
    && var y := x[..|x| - 4];
    (1 <= |y| <= 3 && DigitsAt(y, 0, |y|)) || Grouped(y)
  }

  /** The integer part of an amount: grouped digits, or plain digits. */
  predicate IntegerPart(x: string)
  {
    Grouped(x) || (1 <= |x| && DigitsAt(x, 0, |x|))
  }

  /** The amount group: an integer part, then optionally a comma and one or two digits. */
  predicate AmountShape(x: string)
  {
    IntegerPart(x)
    || (|x| >= 3 && x[|x| - 2] == ',' && IsDigit(x[|x| - 1]) && IntegerPart(x[..|x| - 2]))
    || (|x| >= 4 && x[|x| - 3] == ',' && DigitsAt(x, |x| - 2, 2) && IntegerPart(x[..|x| - 3]))
  }

  predicate AmountChar(c: char) { IsDigit(c) || c == '.' || c == ',' }

  lemma {:induction false} GroupedChars(x: string)
    requires Grouped(x)
    ensures IsDigit(x[0]) && forall k | 0 <= k < |x| :: IsDigit(x[k]) || x[k] == '.'
    decreases |x|
  {
    var y := x[..|x| - 4];
    if Grouped(y) {
      GroupedChars(y);
    }
    assert forall k | 0 <= k < |y| :: x[k] == y[k];
  }

  /** An amount begins with a digit and holds only digits, dots and commas; an integer part holds
      no comma. */
  lemma AmountChars(x: string)
    requires AmountShape(x)
    ensures IsDigit(x[0]) && forall k | 0 <= k < |x| :: AmountChar(x[k])
  {
    if Grouped(x) {
      GroupedChars(x);
    } else if !IntegerPart(x) {
      var y := if x[|x| - 2] == ',' && IsDigit(x[|x| - 1]) && IntegerPart(x[..|x| - 2]) then x[..|x| - 2] else x[..|x| - 3];
      if Grouped(y) { GroupedChars(y); }
      assert forall k | 0 <= k < |y| :: x[k] == y[k];
    }
  }

  /** One way the capital pattern can match: whitespace up to `a`, the amount `s[a..e]`, then either
      only whitespace (`cur` None) or whitespace up to `p`, the currency `Currencies[cur]` there, and
      only whitespace after it. */
  datatype CapitalSplit = CapitalSplit(a: nat, e: nat, cur: Option<nat>, p: nat)

  predicate CurrencyTailOk(s: string, e: nat, cur: Option<nat>, p: nat)
  {
    if cur.None? then BlankFrom(s, e)
    else
      cur.value < |Currencies| && e <= p && WhitespaceAt(s, e, p - e) && OccursAt(s, Currencies[cur.value], p)
      && BlankFrom(s, p + |Currencies[cur.value]|)
  }

  predicate CapitalOk(s: string, sp: CapitalSplit)
  {
    WhitespaceAt(s, 0, sp.a) && sp.a < sp.e <= |s| && AmountShape(s[sp.a..sp.e]) && CurrencyTailOk(s, sp.e, sp.cur, sp.p)
  }

  /** The amount `s[a..e]` holds only amount characters. */
  lemma AmountCharsIn(s: string, a: nat, e: nat)
    requires a < e <= |s| && AmountShape(s[a..e])
    ensures IsDigit(s[a]) && forall k | a <= k < e :: AmountChar(s[k])
  {
    AmountChars(s[a..e]);
    assert forall k | a <= k < e :: s[k] == s[a..e][k - a];
  }

  /** What follows a matched amount is whitespace or a currency, never an amount character. */
  lemma TailIsNotAmount(s: string, e: nat, cur: Option<nat>, p: nat)
    requires CurrencyTailOk(s, e, cur, p) && e < |s|
    ensures !AmountChar(s[e])
  {
    if cur.Some? && p == e {
      assert s[e] == Currencies[cur.value][0];
    }
  }

  /** A currency stands right after the whitespace that follows the amount. */
  lemma CurrencyPosition(s: string, e: nat, c: nat, p: nat)
    requires e <= |s| && CurrencyTailOk(s, e, Some(c), p)
    ensures p == e + WhitespaceRun(s, e) && s[p] == Currencies[c][0]
  {
    assert s[p] == Currencies[c][0];
  }

  /** The capital pattern can match in one way only, so the backtracking order does not matter
      for it: amount and currency are determined by the text. */
  lemma CapitalUnique(s: string, x: CapitalSplit, y: CapitalSplit)
    requires CapitalOk(s, x) && CapitalOk(s, y)
    ensures x.a == y.a && x.e == y.e && x.cur == y.cur
  {
    AmountCharsIn(s, x.a, x.e);
    AmountCharsIn(s, y.a, y.e);
    assert !IsWhitespace(s[x.a]) && !IsWhitespace(s[y.a]);
    assert x.a == y.a;
    if x.e < |s| { TailIsNotAmount(s, x.e, x.cur, x.p); }
    if y.e < |s| { TailIsNotAmount(s, y.e, y.cur, y.p); }
    assert x.e == y.e;
    CurrencyUnique(s, x.e, x.cur, x.p, y.cur, y.p);
  }

  /** After a given amount end, at most one currency alternative fits. */
  lemma CurrencyUnique(s: string, e: nat, c1: Option<nat>, p1: nat, c2: Option<nat>, p2: nat)
    requires e <= |s| && CurrencyTailOk(s, e, c1, p1) && CurrencyTailOk(s, e, c2, p2)
    ensures c1 == c2
  {
    if c1.Some? { CurrencyPosition(s, e, c1.value, p1); assert !IsWhitespace(s[p1]); }
    if c2.Some? { CurrencyPosition(s, e, c2.value, p2); assert !IsWhitespace(s[p2]); }
    if c1.Some? && c2.Some? {
      assert Currencies[0][0] == 'E' && Currencies[1][0] == 'D' && Currencies[2][0] == '\U{20AC}';
      assert Currencies[c1.value][0] == Currencies[c2.value][0];
    }
  }

  /** `\s*(EUR|DEM|€)?\s*$` after the amount: the currency when one follows, else None. */
  function CurrencyTail(s: string, e: nat): (r: Option<(Option<nat>, nat)>)
    requires e <= |s|
    ensures r.Some? ==> CurrencyTailOk(s, e, r.value.0, r.value.1)
    ensures r.None? ==> forall cur: Option<nat>, p: nat :: !CurrencyTailOk(s, e, cur, p)
  {
    var q := e + WhitespaceRun(s, e);
    var found := CurrencyAt(s, q, 0);
    if found.Some? then
      assert WhitespaceAt(s, e, q - e);
      Some((found, q))
    else if BlankFrom(s, e) then Some((None, e))
    else
      NoCurrencyTail(s, e);
      None
  }

  /** Without a currency after the whitespace that follows the amount, and with something other than
      whitespace after it, the rest of the line does not match. */
  lemma NoCurrencyTail(s: string, e: nat)
    requires e <= |s| && CurrencyAt(s, e + WhitespaceRun(s, e), 0).None? && !BlankFrom(s, e)
    ensures forall cur: Option<nat>, p: nat :: !CurrencyTailOk(s, e, cur, p)
  {
    forall cur: Option<nat>, p: nat ensures !CurrencyTailOk(s, e, cur, p) {
      if cur.Some? {
        CurrencyMissing(s, e, cur.value, p);
      }
    }
  }

  lemma CurrencyMissing(s: string, e: nat, c: nat, p: nat)
    requires e <= |s| && CurrencyAt(s, e + WhitespaceRun(s, e), 0).None?
    ensures !CurrencyTailOk(s, e, Some(c), p)
  {
    if CurrencyTailOk(s, e, Some(c), p) {
      CurrencyPosition(s, e, c, p);
      assert false;
    }
  }

  /** The first currency, from the `c`-th on, that occurs at `q` with only whitespace after it. */
  function CurrencyAt(s: string, q: nat, c: nat): (r: Option<nat>)
    ensures r.Some? ==> c <= r.value < |Currencies| && OccursAt(s, Currencies[r.value], q)
                        && BlankFrom(s, q + |Currencies[r.value]|)
    ensures r.None? ==> forall k | c <= k < |Currencies| :: !(OccursAt(s, Currencies[k], q) && BlankFrom(s, q + |Currencies[k]|))
    decreases |Currencies| - c
  {
    if c >= |Currencies| then None
    else if OccursAt(s, Currencies[c], q) && BlankFrom(s, q + |Currencies[c]|) then Some(c)
    else CurrencyAt(s, q, c + 1)
  }

  /** The end of the amount: the first `e` from the given one on for which the rest matches. */
  function AmountEnd(s: string, a: nat, e: nat): (r: Option<CapitalSplit>)
    requires a < e
    ensures r.Some? ==> CapitalOk(s, r.value) || !WhitespaceAt(s, 0, a)
    ensures r.Some? ==> r.value.a == a
    ensures r.None? ==> forall sp: CapitalSplit {:trigger CurrencyTailOk(s, sp.e, sp.cur, sp.p)} | sp.a == a && e <= sp.e :: !(sp.e <= |s| && AmountShape(s[a..sp.e]) && CurrencyTailOk(s, sp.e, sp.cur, sp.p))
    decreases |s| - e
  {
    if e > |s| then None
    else if !AmountShape(s[a..e]) then AmountEnd(s, a, e + 1)
    else
      var tail := CurrencyTail(s, e);
      if tail.Some? then Some(CapitalSplit(a, e, tail.value.0, tail.value.1))
      else AmountEnd(s, a, e + 1)
  }

  /** The capital pattern against `s`: the (only) match, if there is one. */
  function CapitalMatch(s: string): (r: Option<CapitalSplit>)
    ensures r.Some? ==> CapitalOk(s, r.value)
    ensures r.None? <==> forall sp: CapitalSplit :: !CapitalOk(s, sp)
  {
    var a := WhitespaceRun(s, 0);
    assert forall sp: CapitalSplit {:trigger CapitalOk(s, sp)} | CapitalOk(s, sp) :: sp.a == a by {
      forall sp: CapitalSplit {:trigger CapitalOk(s, sp)} | CapitalOk(s, sp) ensures sp.a == a {
        AmountChars(s[sp.a..sp.e]);
        assert IsDigit(s[sp.a]);
      }
    }
    AmountEnd(s, a, a + 1)
  }

  /** `str.replace(".", "").replace(",", ".")`. */
  function Normalise(x: string): (r: string)
    ensures |r| <= |x|
    ensures forall k | 0 <= k < |r| :: r[k] != ','
  {
    if x == [] then []
    else (if x[0] == '.' then [] else if x[0] == ',' then "." else [x[0]]) + Normalise(x[1..])
  }

  /** A decimal numeral with at most two decimals, as the normalised amount is. */
  predicate DecimalShape(n: string)
  {
    (1 <= |n| && DigitsAt(n, 0, |n|))
    || (|n| >= 3 && n[|n| - 2] == '.' && IsDigit(n[|n| - 1]) && 1 <= |n| - 2 && DigitsAt(n, 0, |n| - 2))
    || (|n| >= 4 && n[|n| - 3] == '.' && DigitsAt(n, |n| - 2, 2) && 1 <= |n| - 3 && DigitsAt(n, 0, |n| - 3))
  }

  /** The value of a decimal numeral in hundredths (the conversion `float` performs, without its
      rounding). */
  function DecimalCents(n: string): (v: nat)
    requires DecimalShape(n)
  {
    if |n| >= 3 && n[|n| - 2] == '.' then 100 * DigitsValue(n[..|n| - 2]) + 10 * (n[|n| - 1] as int - '0' as int)
    else if |n| >= 4 && n[|n| - 3] == '.' then 100 * DigitsValue(n[..|n| - 3]) + DigitsValue(n[|n| - 2..])
    else 100 * DigitsValue(n)
  }

  lemma {:induction false} NormaliseAppend(x: string, y: string)
    ensures Normalise(x + y) == Normalise(x) + Normalise(y)
    decreases |x|
  {
    if x == [] {
      assert x + y == y;
    } else {
      assert (x + y)[0] == x[0] && (x + y)[1..] == x[1..] + y;
      NormaliseAppend(x[1..], y);
    }
  }

  /** Without dots or commas, normalising changes nothing. */
  lemma {:induction false} NormaliseDigits(x: string)
    requires DigitsAt(x, 0, |x|)
    ensures Normalise(x) == x
    decreases |x|
  {
    if x != [] {
      NormaliseDigits(x[1..]);
    }
  }

  /** The integer part loses its dots and keeps its digits. */
  lemma {:induction false} NormaliseIntegerPart(x: string)
    requires IntegerPart(x)
    ensures 1 <= |Normalise(x)| && DigitsAt(Normalise(x), 0, |Normalise(x)|)
    decreases |x|
  {
    if Grouped(x) {
      var y := x[..|x| - 4];
      assert x == y + ("." + x[|x| - 3..]);
      NormaliseAppend(y, "." + x[|x| - 3..]);
      NormaliseDigits(x[|x| - 3..]);
      assert Normalise("." + x[|x| - 3..]) == x[|x| - 3..];
      NormaliseIntegerPart(y);
    } else {
      NormaliseDigits(x);
    }
  }

  /** Normalising an amount yields a decimal numeral: the German thousands dots vanish and the
      decimal comma becomes a point. */
  lemma NormaliseAmount(x: string)
    requires AmountShape(x)
    ensures DecimalShape(Normalise(x))
  {
    if !IntegerPart(x) {
      var k := if x[|x| - 2] == ',' && IsDigit(x[|x| - 1]) && IntegerPart(x[..|x| - 2]) then 2 else 3;
      var y, f := x[..|x| - k], x[|x| - k + 1..];
      assert x == y + ("," + f);
      NormaliseDecimals(y, f);
    } else {
      NormaliseIntegerPart(x);
    }
  }

  /** The decimal comma after an integer part becomes a point. */
  lemma NormaliseDecimals(y: string, f: string)
    requires IntegerPart(y) && 1 <= |f| <= 2 && DigitsAt(f, 0, |f|)
    ensures Normalise(y + ("," + f)) == Normalise(y) + ("." + f)
    ensures DecimalShape(Normalise(y) + ("." + f))
  {
    NormaliseAppend(y, "," + f);
    NormaliseDigits(f);
    assert Normalise("," + f) == "." + f;
    NormaliseIntegerPart(y);
    var i, n := Normalise(y), Normalise(y) + ("." + f);
    assert n[..|i|] == i && n[|i|] == '.' && n[|i| + 1..] == f;
  }

  /** `__set_capital`: the amount in hundredths and the currency, or None when the text does not
      match (and the record keeps its fields). */
  function CapitalFields(s: string): (r: Option<(nat, Option<string>)>)
    ensures r.Some? <==> exists sp: CapitalSplit :: CapitalOk(s, sp)
    ensures r.Some? ==> forall sp: CapitalSplit {:trigger CapitalOk(s, sp)} | CapitalOk(s, sp) ::
      DecimalShape(Normalise(s[sp.a..sp.e])) && r.value.0 == DecimalCents(Normalise(s[sp.a..sp.e]))
      && r.value.1 == (if sp.cur.Some? then Some(Currencies[sp.cur.value]) else None)
  {
    match CapitalMatch(s)
    case None => None
    case Some(sp) =>
      NormaliseAmount(s[sp.a..sp.e]);
      assert forall x: CapitalSplit {:trigger CapitalOk(s, x)} | CapitalOk(s, x) :: x.a == sp.a && x.e == sp.e && x.cur == sp.cur by {
        forall x: CapitalSplit {:trigger CapitalOk(s, x)} | CapitalOk(s, x) ensures x.a == sp.a && x.e == sp.e && x.cur == sp.cur {
          CapitalUnique(s, x, sp);
        }
      }
      Some((DecimalCents(Normalise(s[sp.a..sp.e])), if sp.cur.Some? then Some(Currencies[sp.cur.value]) else None))
  }

  // ---------------------------------------------------------------------------------------------
  // The city:  ^\s*(?:(\d{5})\s+)?([^\d\n]+)\s*$

  /** One way the city pattern can match: whitespace up to `a`; when `code` holds, a five-digit
      post code at `a` and `w` whitespace characters after it; then the city up to `m`, and only
      whitespace after that. */
  datatype CitySplit = CitySplit(a: nat, code: bool, w: nat, m: nat)

  /** Where the city group starts. */
  function CityStart(sp: CitySplit): nat
  {
    if sp.code then sp.a + 5 + sp.w else sp.a
  }

  predicate CityCodeOk(s: string, sp: CitySplit)
  {
    if sp.code then DigitsAt(s, sp.a, 5) && 1 <= sp.w && WhitespaceAt(s, sp.a + 5, sp.w) else sp.w == 0
  }

  predicate CityNameOk(s: string, sp: CitySplit)
  {
    CityStart(sp) < sp.m && NonDigitLineAt(s, CityStart(sp), sp.m) && BlankFrom(s, sp.m)
  }

  predicate CityTailOk(s: string, sp: CitySplit) { CityCodeOk(s, sp) && CityNameOk(s, sp) }

  predicate CityOk(s: string, sp: CitySplit) { WhitespaceAt(s, 0, sp.a) && CityTailOk(s, sp) }

  /** `x` and `y` agree on their first `n` fields (in the order a, code, w). */
  predicate CityAgrees(x: CitySplit, y: CitySplit, n: nat)
  {
    (n >= 1 ==> x.a == y.a) && (n >= 2 ==> x.code == y.code) && (n >= 3 ==> x.w == y.w)
  }

  /** With the same leading whitespace, the matcher tries `r` no later than `sp`: a present post
      code before an absent one, then more whitespace after the post code first, then the longest
      city first. */
  predicate CityNotBefore(sp: CitySplit, r: CitySplit)
  {
    (r.code && !sp.code) || (sp.code == r.code && (sp.w < r.w || (sp.w == r.w && sp.m <= r.m)))
  }

  /** `([^\d\n]+)\s*$` with the prefix fixed by `p`: the city ends at most at `m`, the longest first. */
  function CityName(s: string, p: CitySplit, m: nat): (r: Option<CitySplit>)
    requires CityStart(p) <= |s| && m <= CityStart(p) + NonDigitLineRun(s, CityStart(p))
    ensures r.Some? ==> CityNameOk(s, r.value) && CityAgrees(r.value, p, 3) && r.value.m <= m
    ensures r.Some? ==> forall sp: CitySplit {:trigger CityNameOk(s, sp)} | CityAgrees(sp, p, 3) && sp.m <= m && CityNameOk(s, sp) :: sp.m <= r.value.m
    ensures r.None? ==> forall sp: CitySplit {:trigger CityNameOk(s, sp)} | CityAgrees(sp, p, 3) && sp.m <= m :: !CityNameOk(s, sp)
    decreases m
  {
    if m <= CityStart(p) then None
    else if BlankFrom(s, m) then Some(p.(m := m))
    else CityName(s, p, m - 1)
  }

  /** `\s+` after the post code, the longest first, with what follows it. */
  function CitySpaces(s: string, p: CitySplit, w: nat): (r: Option<CitySplit>)
    requires p.code && DigitsAt(s, p.a, 5) && WhitespaceAt(s, p.a + 5, w)
    ensures r.Some? ==> CityTailOk(s, r.value) && CityAgrees(r.value, p, 2) && r.value.w <= w
    ensures r.Some? ==> forall sp: CitySplit {:trigger CityTailOk(s, sp)} | CityAgrees(sp, p, 2) && sp.w <= w && CityTailOk(s, sp) :: CityNotBefore(sp, r.value)
    ensures r.None? ==> forall sp: CitySplit {:trigger CityTailOk(s, sp)} | CityAgrees(sp, p, 2) && sp.w <= w :: !CityTailOk(s, sp)
    decreases w
  {
    if w == 0 then None
    else
      var q := p.(w := w);
      var g := p.a + 5 + w;
      assert forall sp: CitySplit {:trigger CityNameOk(s, sp)} | CityAgrees(sp, q, 3) && CityNameOk(s, sp) :: sp.m <= g + NonDigitLineRun(s, g);
      match CityName(s, q, g + NonDigitLineRun(s, g))
      case Some(r) => Some(r)
      case None => CitySpaces(s, p, w - 1)
  }

  /** The optional `(\d{5})\s+`, present first, with what follows it. */
  function CityOptional(s: string, a: nat): (r: Option<CitySplit>)
    requires a <= |s|
    ensures r.Some? ==> CityTailOk(s, r.value) && r.value.a == a
    ensures r.Some? ==> forall sp: CitySplit {:trigger CityTailOk(s, sp)} | sp.a == a && CityTailOk(s, sp) :: CityNotBefore(sp, r.value)
    ensures r.None? ==> forall sp: CitySplit {:trigger CityTailOk(s, sp)} | sp.a == a :: !CityTailOk(s, sp)
  {
    var present := if DigitsAt(s, a, 5) then CitySpaces(s, CitySplit(a, true, 0, 0), WhitespaceRun(s, a + 5)) else None;
    var p := CitySplit(a, false, 0, 0);
    assert forall sp: CitySplit {:trigger CityNameOk(s, sp)} | CityAgrees(sp, p, 3) && CityNameOk(s, sp) :: sp.m <= a + NonDigitLineRun(s, a);
    if present.Some? then present
    else CityName(s, p, a + NonDigitLineRun(s, a))
  }

  /** The leading `\s*`, the longest first, with what follows it. */
  function CityLead(s: string, a: nat): (r: Option<CitySplit>)
    requires WhitespaceAt(s, 0, a)
    ensures r.Some? ==> CityOk(s, r.value) && r.value.a <= a
    ensures r.Some? ==> forall sp: CitySplit {:trigger CityOk(s, sp)} | sp.a <= a && CityOk(s, sp) ::
      sp.a < r.value.a || (sp.a == r.value.a && CityNotBefore(sp, r.value))
    ensures r.None? ==> forall sp: CitySplit {:trigger CityOk(s, sp)} | sp.a <= a :: !CityOk(s, sp)
    decreases a
  {
    match CityOptional(s, a)
    case Some(r) => Some(r)
    case None => if a == 0 then None else CityLead(s, a - 1)
  }

  /** The city pattern against `s`: the match Python's backtracking matcher reports. */
  function CityMatch(s: string): (r: Option<CitySplit>)
    ensures r.Some? ==> CityOk(s, r.value)
    ensures r.Some? ==> forall sp: CitySplit {:trigger CityOk(s, sp)} | CityOk(s, sp) :: sp.a < r.value.a || (sp.a == r.value.a && CityNotBefore(sp, r.value))
    ensures r.None? <==> forall sp: CitySplit :: !CityOk(s, sp)
  {
    CityLead(s, WhitespaceRun(s, 0))
  }

  /** `sp` is the match Python reports: no match has a longer lead, or the same lead and comes
      earlier in backtracking order. */
  ghost predicate CityFirst(s: string, sp: CitySplit)
  {
    CityOk(s, sp) && forall x: CitySplit {:trigger CityOk(s, x)} | CityOk(s, x) :: x.a < sp.a || (x.a == sp.a && CityNotBefore(x, sp))
  }

  /** `__set_city`: group 1, the post code (None when the optional group did not take part), and
      group 2, the city, of the match Python reports, or None when the text does not match (and the
      record keeps its fields). */
  function CityFields(s: string): (r: Option<(Option<string>, string)>)
    ensures r.Some? <==> exists sp: CitySplit :: CityOk(s, sp)
    ensures r.Some? ==> exists sp: CitySplit {:trigger CityFirst(s, sp)} ::
      && CityFirst(s, sp)
      && r.value == (if sp.code then Some(s[sp.a..sp.a + 5]) else None, s[CityStart(sp)..sp.m])
    ensures r.Some? ==> r.value.1 != [] && forall k | 0 <= k < |r.value.1| :: !IsDigit(r.value.1[k]) && r.value.1[k] != '\n'
    ensures r.Some? && r.value.0.Some? ==> |r.value.0.value| == 5 && AllDigits(r.value.0.value)
  {
    match CityMatch(s)
    case None => None
    case Some(sp) =>
      CityGroups(s, sp);
      assert CityFirst(s, sp);
      Some((if sp.code then Some(s[sp.a..sp.a + 5]) else None, s[CityStart(sp)..sp.m]))
  }

  /** The groups of a match: a non-empty city of neither digits nor line breaks, and a post code of
      five digits. */
  lemma CityGroups(s: string, sp: CitySplit)
    requires CityOk(s, sp)
    ensures var city := s[CityStart(sp)..sp.m];
      city != [] && forall k | 0 <= k < |city| :: !IsDigit(city[k]) && city[k] != '\n'
    ensures sp.code ==> |s[sp.a..sp.a + 5]| == 5 && AllDigits(s[sp.a..sp.a + 5])
  {
    var city := s[CityStart(sp)..sp.m];
    assert forall k | 0 <= k < |city| :: city[k] == s[CityStart(sp) + k];
    if sp.code {
      var code := s[sp.a..sp.a + 5];
      assert forall k | 0 <= k < 5 :: code[k] == s[sp.a + k];
    }
  }

  /** A post code, one blank and a city parse to that post code and that city, trailing blanks
      included: the greedy city group keeps them and the `\s*$` after it matches empty. */
  lemma CityWithPostCode(code: string, city: string)
    requires |code| == 5 && AllDigits(code)
    requires city != [] && !IsWhitespace(city[0]) && NonDigitLineAt(city, 0, |city|)
    ensures CityFields(code + " " + city) == Some((Some(code), city))
  {
    var s := code + " " + city;
    assert s[0..5] == code && s[5] == ' ' && s[6..|s|] == city;
    assert DigitsAt(s, 0, 5) by {
      forall k | 0 <= k < 5 ensures IsDigit(s[k]) { assert s[k] == code[k]; }
    }
    assert NonDigitLineAt(s, 6, |s|) by {
      forall k | 6 <= k < |s| ensures !IsDigit(s[k]) && s[k] != '\n' { assert s[k] == city[k - 6]; }
    }
    assert s[6] == city[0];
    CodeLineMatch(s);
  }

  lemma CodeLineMatch(s: string)
    requires |s| >= 7 && DigitsAt(s, 0, 5) && s[5] == ' ' && !IsWhitespace(s[6]) && NonDigitLineAt(s, 6, |s|)
    ensures CityFields(s) == Some((Some(s[0..5]), s[6..|s|]))
  {
    CodeLineSplit(s);
  }

  lemma CodeLineSplit(s: string)
    requires |s| >= 7 && DigitsAt(s, 0, 5) && s[5] == ' ' && !IsWhitespace(s[6]) && NonDigitLineAt(s, 6, |s|)
    ensures CityMatch(s) == Some(CitySplit(0, true, 1, |s|))
  {
    var sp := CitySplit(0, true, 1, |s|);
    assert CityOk(s, sp);
    var x := CityMatch(s).value;
    assert x.a == 0 by { assert !IsWhitespace(s[0]); }
    assert x.code;
    assert x.w == 1;
  }

  /** Text of blanks only, not ending in a line break, still matches: the leading `\s*` gives back
      its last character, which becomes the city. */
  lemma CityOfBlanks(s: string)
    requires s != [] && BlankFrom(s, 0) && s[|s| - 1] != '\n'
    ensures CityFields(s) == Some((None, s[|s| - 1..]))
  {
    var n := |s| - 1;
    var sp := CitySplit(n, false, 0, |s|);
    assert !IsDigit(s[n]);
    assert CityOk(s, sp);
    var x := CityMatch(s).value;
    assert CityStart(x) < x.m <= |s|;
    assert x.a == n && !x.code && x.w == 0 && x.m == |s|;
    assert CityMatch(s) == Some(sp);
    assert s[CityStart(sp)..sp.m] == s[|s| - 1..];
  }

  /** A dot followed by digits normalises to the digits; a comma followed by digits to a point
      and the digits. */
  lemma NormaliseDotDigits(d: string)
    requires DigitsAt(d, 0, |d|)
    ensures Normalise("." + d) == d && Normalise("," + d) == "." + d
  {
    assert ("." + d)[0] == '.' && ("." + d)[1..] == d;
    assert ("," + d)[0] == ',' && ("," + d)[1..] == d;
    NormaliseDigits(d);
  }

  function Pow10(n: nat): nat
  {
    if n == 0 then 1 else 10 * Pow10(n - 1)
  }

  lemma ShiftDigit(va: int, p: int, vb: int, d: int)
    ensures 10 * (va * p + vb) + d == va * (10 * p) + (10 * vb + d)
  {
  }

  lemma {:induction false} DigitsValueAppend(a: string, b: string)
    requires AllDigits(a) && AllDigits(b)
    ensures AllDigits(a + b) && DigitsValue(a + b) == DigitsValue(a) * Pow10(|b|) + DigitsValue(b)
    decreases |b|
  {
    var ab := a + b;
    assert AllDigits(ab) by {
      forall k | 0 <= k < |ab| ensures IsDigit(ab[k]) {
        if k < |a| { assert ab[k] == a[k]; } else { assert ab[k] == b[k - |a|]; }
      }
    }
    if b == [] {
      assert ab == a;
    } else {
      var b' := b[..|b| - 1];
      assert ab[..|ab| - 1] == a + b';
      DigitsValueAppend(a, b');
      ShiftDigit(DigitsValue(a), Pow10(|b'|), DigitsValue(b'), b[|b| - 1] as int - '0' as int);
    }
  }

  lemma GroupedExtend(y: string, g: string)
    requires Grouped(y) || (1 <= |y| <= 3 && DigitsAt(y, 0, |y|))
    requires |g| == 3 && AllDigits(g)
    ensures Grouped(y + "." + g)
  {
    var x := y + "." + g;
    assert x == y + ['.', g[0], g[1], g[2]];
    assert x[..|x| - 4] == y;
    assert x[|x| - 4] == '.' && x[|x| - 3] == g[0] && x[|x| - 2] == g[1] && x[|x| - 1] == g[2];
    assert IsDigit(g[0]) && IsDigit(g[1]) && IsDigit(g[2]);
  }

  lemma NormaliseGroup(y: string, g: string)
    requires |g| == 3 && AllDigits(g)
    ensures Normalise(y + "." + g) == Normalise(y) + g
  {
    var dg := "." + g;
    assert y + "." + g == y + dg;
    NormaliseAppend(y, dg);
    NormaliseDotDigits(g);
  }

  lemma ThousandsValue(n: string, g: string)
    requires AllDigits(n) && |g| == 3 && AllDigits(g)
    ensures AllDigits(n + g) && DigitsValue(n + g) == 1000 * DigitsValue(n) + DigitsValue(g)
  {
    DigitsValueAppend(n, g);
    assert Pow10(3) == 1000;
  }

  /** Dots separate thousands: appending `.ddd` to an integer part multiplies its value by a
      thousand and adds `ddd`. */
  lemma ThousandsSeparator(y: string, g: string)
    requires Grouped(y) || (1 <= |y| <= 3 && DigitsAt(y, 0, |y|))
    requires |g| == 3 && AllDigits(g)
    ensures IntegerPart(y + "." + g)
    ensures Normalise(y + "." + g) == Normalise(y) + g
    ensures AllDigits(Normalise(y)) && DigitsValue(Normalise(y + "." + g)) == 1000 * DigitsValue(Normalise(y)) + DigitsValue(g)
  {
    GroupedExtend(y, g);
    NormaliseGroup(y, g);
    NormaliseIntegerPart(y);
    var n := Normalise(y);
    assert AllDigits(n);
    ThousandsValue(n, g);
  }

  lemma CommaShape(i: string, f: string)
    requires IntegerPart(i) && 1 <= |f| <= 2 && AllDigits(f)
    ensures AmountShape(i + "," + f)
  {
    var x := i + "," + f;
    assert x[..|i|] == i && x[|i|] == ',';
    assert forall k | |i| < k < |x| :: x[k] == f[k - |i| - 1];
  }

  lemma NormaliseComma(i: string, f: string)
    requires AllDigits(f)
    ensures Normalise(i + "," + f) == Normalise(i) + "." + f
  {
    var cf := "," + f;
    calc {
      Normalise(i + "," + f);
      { assert i + "," + f == i + cf; }
      Normalise(i + cf);
      { NormaliseAppend(i, cf); }
      Normalise(i) + Normalise(cf);
      { NormaliseDotDigits(f); }
      Normalise(i) + ("." + f);
    }
    assert Normalise(i) + ("." + f) == Normalise(i) + "." + f;
  }

  lemma CentsValue(n: string, f: string)
    requires 1 <= |n| && AllDigits(n) && 1 <= |f| <= 2 && AllDigits(f)
    ensures DecimalShape(n + "." + f)
    ensures DecimalCents(n + "." + f) == 100 * DigitsValue(n) + (if |f| == 1 then 10 * DigitsValue(f) else DigitsValue(f))
  {
    if |f| == 1 {
      CentsOneDecimal(n, f);
    } else {
      CentsTwoDecimals(n, f);
    }
  }

  lemma CentsOneDecimal(n: string, f: string)
    requires 1 <= |n| && AllDigits(n) && |f| == 1 && AllDigits(f)
    ensures DecimalShape(n + "." + f) && DecimalCents(n + "." + f) == 100 * DigitsValue(n) + 10 * DigitsValue(f)
  {
    var x := n + "." + f;
    var m := x[..|x| - 2];
    assert m == n;
    assert x[|x| - 2] == '.' && x[|x| - 1] == f[0];
    assert DigitsAt(x, 0, |x| - 2) by {
      assert forall j | 0 <= j < |x| - 2 :: x[j] == n[j];
    }
    assert DecimalCents(x) == 100 * DigitsValue(m) + 10 * (x[|x| - 1] as int - '0' as int);
    assert DigitsValue(f) == f[0] as int - '0' as int by { assert f[..0] == ""; }
  }

  lemma CentsTwoDecimals(n: string, f: string)
    requires 1 <= |n| && AllDigits(n) && |f| == 2 && AllDigits(f)
    ensures DecimalShape(n + "." + f) && DecimalCents(n + "." + f) == 100 * DigitsValue(n) + DigitsValue(f)
  {
    var x := n + "." + f;
    assert x[|x| - 3] == '.' && x[|x| - 2] != '.' && x[..|x| - 3] == n && x[|x| - 2..] == f;
    assert DigitsAt(x, 0, |x| - 3) by {
      assert forall j | 0 <= j < |x| - 3 :: x[j] == n[j];
    }
  }

  /** The comma separates the decimals: one decimal counts tens of hundredths, two count hundredths. */
  lemma DecimalComma(i: string, f: string)
    requires IntegerPart(i) && 1 <= |f| <= 2 && AllDigits(f)
    ensures AmountShape(i + "," + f)
    ensures AllDigits(Normalise(i))
    ensures DecimalShape(Normalise(i + "," + f))
    ensures DecimalCents(Normalise(i + "," + f)) == 100 * DigitsValue(Normalise(i)) + (if |f| == 1 then 10 * DigitsValue(f) else DigitsValue(f))
  {
    CommaShape(i, f);
    NormaliseComma(i, f);
    NormaliseIntegerPart(i);
    var n := Normalise(i);
    assert AllDigits(n);
    CentsValue(n, f);
  }

  /** An amount on its own parses to its value and no currency. */
  lemma CapitalOfAmount(x: string)
    requires AmountShape(x)
    ensures DecimalShape(Normalise(x)) && CapitalFields(x) == Some((DecimalCents(Normalise(x)), None))
  {
    assert x[0..|x|] == x;
    AmountChars(x);
    NormaliseAmount(x);
    assert CapitalOk(x, CapitalSplit(0, |x|, None, 0));
  }

  lemma CapitalWithCurrencyOk(x: string, c: nat)
    requires AmountShape(x) && c < |Currencies|
    ensures CapitalOk(x + " " + Currencies[c], CapitalSplit(0, |x|, Some(c), |x| + 1))
  {
    var cur := Currencies[c];
    var s := x + " " + cur;
    assert s[0..|x|] == x;
    assert s[|x|] == ' ';
    assert s[|x| + 1..|x| + 1 + |cur|] == cur;
    AmountChars(x);
  }

  /** An amount, a blank and a currency parse to the value and that currency. */
  lemma CapitalWithCurrency(x: string, c: nat)
    requires AmountShape(x) && c < |Currencies|
    ensures DecimalShape(Normalise(x))
    ensures CapitalFields(x + " " + Currencies[c]) == Some((DecimalCents(Normalise(x)), Some(Currencies[c])))
  {
    NormaliseAmount(x);
    CapitalWithCurrencyOk(x, c);
    var s := x + " " + Currencies[c];
    var sp := CapitalSplit(0, |x|, Some(c), |x| + 1);
    assert s[sp.a..sp.e] == x;
    var r := CapitalFields(s);
    assert r.Some? && r.value.0 == DecimalCents(Normalise(s[sp.a..sp.e])) && r.value.1 == Some(Currencies[c]);
  }

  /** The German amount "1.234.567,89 EUR" is 1234567.89, in euros (the amount is given by its
      digit groups). */
  lemma CapitalExample(one: string, g1: string, g2: string, f: string)
    requires one == "1" && g1 == "234" && g2 == "567" && f == "89"
    ensures CapitalFields(one + "." + g1 + "." + g2 + "," + f + " " + "EUR") == Some((123456789, Some("EUR")))
  {
    var x := one + "." + g1 + "." + g2 + "," + f;
    AmountExample(one, g1, g2, f);
    assert Currencies[0] == "EUR";
    CapitalWithCurrency(x, 0);
  }

  lemma AmountExample(one: string, g1: string, g2: string, f: string)
    requires one == "1" && g1 == "234" && g2 == "567" && f == "89"
    ensures var x := one + "." + g1 + "." + g2 + "," + f;
      AmountShape(x) && DecimalShape(Normalise(x)) && DecimalCents(Normalise(x)) == 123456789
  {
    assert DigitsValue("1") == 1 && DigitsValue("234") == 234 && DigitsValue("567") == 567 && DigitsValue("89") == 89;
    NormaliseDigits(one);
    var y := one + "." + g1;
    ThousandsSeparator(one, g1);
    var i := y + "." + g2;
    ThousandsSeparator(y, g2);
    DecimalComma(i, f);
  }
}
