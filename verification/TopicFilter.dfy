/** Topic filters: the splitting parser, its printer and the index-based matcher
    (MQTT 5.0 section 4.7). */
module TopicFilter {
  import opened Bytes
  import opened Primitives

  const HASH: byte := 35
  const DOLLAR: byte := 36
  const PLUS: byte := 43
  const SEPARATOR: byte := 47

  // ---------------------------------------------------------------- specification

  function FirstSeparator(s: text): (i: nat)
    ensures i <= |s|
    ensures SEPARATOR !in s[..i]
    ensures i < |s| ==> s[i] == SEPARATOR
  {
    if s == [] || s[0] == SEPARATOR then 0
    else
      var i := 1 + FirstSeparator(s[1..]);
      assert s[..i] == [s[0]] + s[1..][..i - 1];
      i
  }

  /** The levels of a string: what lies between separators, the ends included. */
  function Split(s: text): (ls: seq<text>)
    ensures ls != []
    decreases |s|
  {
    var i := FirstSeparator(s);
    if i == |s| then [s] else [s[..i]] + Split(s[i + 1..])
  }

  /** Levels with a "/" between them. */
  function Join(ls: seq<text>): text
    requires ls != []
  {
    if |ls| == 1 then ls[0] else ls[0] + [47] + Join(ls[1..])
  }

  predicate IsWildcard(level: text) {
    level == [35] || level == [43]
  }

  /** `is_valid_level`, told whether anything follows the level. */
  predicate ValidLevel(level: text, last: bool) {
    if level == [35] then last
    else 35 !in level && (43 in level ==> |level| == 1)
  }

  predicate ValidAt(ls: seq<text>, i: nat)
    requires i < |ls|
  {
    ValidLevel(ls[i], i == |ls| - 1)
  }

  predicate ValidFilter(ls: seq<text>) {
    ls != [] && forall i :: 0 <= i < |ls| ==> ValidAt(ls, i)
  }

  predicate EndsWithSeparator(s: text) {
    s != [] && s[|s| - 1] == SEPARATOR
  }

  /** What the parser's assertions accept. When the string ends with a separator they look at the
      empty level after it instead of the level before it. */
  predicate Accepted(s: text) {
    var ls := Split(s);
    forall i :: 0 <= i < |ls| && !(EndsWithSeparator(s) && i == |ls| - 2) ==> ValidAt(ls, i)
  }

  predicate LevelsAgree(fs: seq<text>, ns: seq<text>, n: nat)
    requires n <= |fs| && n <= |ns|
  {
    forall i :: 0 <= i < n ==> (i == |fs| - 1 && fs[i] == [HASH]) || fs[i] == [PLUS] || fs[i] == ns[i]
  }

  function NameLevels(name: text): seq<text> {
    if name == [] then [] else Split(name)
  }

  predicate StartsWithDollar(s: text) {
    s != [] && s[0] == DOLLAR
  }

  /** The three-case matcher, on any name. */
  predicate Matches(fs: seq<text>, name: text)
    requires fs != []
  {
    var ns, m := NameLevels(name), |fs| - 1;
    if StartsWithDollar(name) && !StartsWithDollar(fs[0]) then false
    else if |ns| < |fs| then |ns| == m && fs[m] == [HASH] && LevelsAgree(fs, ns, |ns|)
    else if |ns| > |fs| then fs[m] == [HASH] && LevelsAgree(fs, ns, m)
    else LevelsAgree(fs, ns, |fs|)
  }

  function Flatten(parts: seq<seq<text>>): seq<text> {
    if parts == [] then [] else Flatten(parts[..|parts| - 1]) + parts[|parts| - 1]
  }

  /** What may stand in for the i-th level: any one level for "+", any number of levels for a final
      "#", the level itself otherwise. */
  predicate Replaces(fs: seq<text>, i: nat, part: seq<text>)
    requires i < |fs|
  {
    if fs[i] == [43] then |part| == 1
    else if fs[i] == [35] && i == |fs| - 1 then true
    else part == [fs[i]]
  }

  ghost predicate Replacement(fs: seq<text>, parts: seq<seq<text>>, ns: seq<text>) {
    |parts| == |fs| && (forall i :: 0 <= i < |fs| ==> Replaces(fs, i, parts[i])) && Flatten(parts) == ns
  }

  /** The name arises from the filter by replacing its wildcards. */
  ghost predicate Arises(fs: seq<text>, ns: seq<text>) {
    exists parts: seq<seq<text>> :: Replacement(fs, parts, ns)
  }

  // ---------------------------------------------------------------- the code

  method IsValidLevel(level: text, rest: text) returns (ok: bool)
    ensures ok == ValidLevel(level, rest == [])
  {
    if level == [HASH] {
      return rest == [];
    }
    if HASH in level {
      return false;
    }
    if PLUS in level && |level| > 1 {
      return false;
    }
    return true;
  }

  /** The parse loop; `ok` says whether every assertion it passes holds. */
  method ParseInPlace(filter: text) returns (levels: seq<text>, ok: bool)
    requires filter != []
    ensures levels == Split(filter)
    ensures ok <==> Accepted(filter)
  {
    hide Split, FirstSeparator, Accepted, EndsWithSeparator, ValidUpTo;
    levels, ok := [], true;
    var view := filter;
    ghost var all := Split(filter);
    AcceptedUpTo(filter);
    ValidUpToNext(all, 0);
    assert [] + all == all;
    while view != []
      invariant view != [] ==> levels + Split(view) == all && EndsWithSeparator(view) == EndsWithSeparator(filter)
      invariant view == [] ==> levels == all
      invariant view != [] ==> ok == ValidUpTo(all, |levels|)
      invariant view == [] ==> ok == Accepted(filter)
      decreases |view|
    {
      var next := FindSeparator(view);
      ghost var before, was, k := levels, view, |levels|;
      levels := levels + [view[..next]];
      if next < |view| {
        SplitMore(was);
        Assoc(before, [was[..next]], Split(was[next + 1..]));
        view := view[next + 1..];
        if view == [] {
          levels := levels + [[]];
        }
      } else {
        SplitLast(was);
        view := [];
      }
      assert all[k] == was[..next];
      var valid := IsValidLevel(levels[|levels| - 1], view);
      ok := ok && valid;
      ValidUpToNext(all, k);
    }
  }

  predicate ValidUpTo(ls: seq<text>, n: nat)
    requires n <= |ls|
  {
    forall i :: 0 <= i < n ==> ValidAt(ls, i)
  }

  lemma ValidUpToNext(ls: seq<text>, k: nat)
    requires k < |ls|
    ensures ValidUpTo(ls, k + 1) <==> ValidUpTo(ls, k) && ValidAt(ls, k)
    ensures ValidUpTo(ls, 0)
  {
  }

  lemma AcceptedUpTo(s: text)
    ensures EndsWithSeparator(s) ==> |Split(s)| >= 2
    ensures var ls := Split(s);
            Accepted(s) == if EndsWithSeparator(s) then ValidUpTo(ls, |ls| - 2) else ValidUpTo(ls, |ls|)
  {
    if EndsWithSeparator(s) {
      TrailingLevels(s);
    }
  }

  /** The last round of the parse loop, as a fact about `Split`. */
  lemma SplitLast(s: text)
    requires s != [] && FirstSeparator(s) == |s|
    ensures Split(s) == [s] && s[..|s|] == s && !EndsWithSeparator(s)
  {
    assert s[..|s|] == s;
    assert s[|s| - 1] in s;
  }

  /** Any other round. */
  lemma SplitMore(s: text)
    requires FirstSeparator(s) < |s|
    ensures var i := FirstSeparator(s);
            var rest := s[i + 1..];
            && Split(s) == [s[..i]] + Split(rest)
            && (if rest == [] then EndsWithSeparator(s) && Split(rest) == [[]]
                else EndsWithSeparator(rest) == EndsWithSeparator(s))
  {
    var i := FirstSeparator(s);
    var rest := s[i + 1..];
    hide FirstSeparator;
    if rest == [] {
      assert |s| == i + 1 && Split(rest) == [rest];
    } else {
      assert rest[|rest| - 1] == s[|s| - 1];
    }
  }

  /** `std::find` for the separator. */
  method FindSeparator(view: text) returns (i: nat)
    ensures i == FirstSeparator(view)
  {
    i := 0;
    while i < |view| && view[i] != SEPARATOR
      invariant i <= |view|
      invariant FirstSeparator(view) == i + FirstSeparator(view[i..])
    {
      assert view[i..][1..] == view[i + 1..];
      i := i + 1;
    }
  }

  method ToString(levels: seq<text>) returns (s: text)
    requires levels != []
    ensures s == Join(levels)
  {
    s := levels[0];
    for i := 1 to |levels|
      invariant s == Join(levels[..i])
    {
      JoinSnoc(levels[..i], levels[i]);
      assert levels[..i + 1] == levels[..i] + [levels[i]];
      s := s + [SEPARATOR];
      s := s + levels[i];
    }
    assert levels[..|levels|] == levels;
  }

  method MatchesLevels(fs: seq<text>, ns: seq<text>, n: nat) returns (b: bool)
    requires n <= |fs| && n <= |ns|
    ensures b == LevelsAgree(fs, ns, n)
  {
    for i := 0 to n
      invariant LevelsAgree(fs, ns, i)
    {
      if i == |fs| - 1 && fs[i] == [HASH] {
        return true;
      }
      if fs[i] != [PLUS] && fs[i] != ns[i] {
        return false;
      }
    }
    return true;
  }

  method MatchesName(fs: seq<text>, name: text) returns (b: bool)
    requires fs != []
    ensures b == Matches(fs, name)
  {
    if StartsWithDollar(name) && !StartsWithDollar(fs[0]) {
      return false;
    }
    var ns := [];
    if name != [] {
      var ok;
      ns, ok := ParseInPlace(name);
    }
    if |ns| < |fs| {
      if |ns| != |fs| - 1 {
        return false;
      }
      if fs[|fs| - 1] != [HASH] {
        return false;
      }
      b := MatchesLevels(fs, ns, |ns|);
    } else if |ns| > |fs| {
      if fs[|fs| - 1] == [HASH] {
        b := MatchesLevels(fs, ns, |fs| - 1);
        return;
      }
      return false;
    } else {
      b := MatchesLevels(fs, ns, |fs|);
    }
  }

  // ---------------------------------------------------------------- parse and print

  lemma {:induction false} JoinSnoc(ls: seq<text>, l: text)
    requires ls != []
    ensures Join(ls + [l]) == Join(ls) + [SEPARATOR] + l
  {
    if |ls| > 1 {
      assert (ls + [l])[1..] == ls[1..] + [l];
      JoinSnoc(ls[1..], l);
      Assoc(ls[0] + [SEPARATOR], Join(ls[1..]), [SEPARATOR]);
      Assoc(ls[0] + [SEPARATOR], Join(ls[1..]) + [SEPARATOR], l);
    }
  }

  lemma JoinCons(l: text, ls: seq<text>)
    requires ls != []
    ensures Join([l] + ls) == l + [SEPARATOR] + Join(ls)
  {
    assert ([l] + ls)[1..] == ls;
  }

  lemma CutAt(s: text, i: nat)
    requires i < |s| && s[i] == SEPARATOR
    ensures s == s[..i] + [SEPARATOR] + s[i + 1..]
  {
  }

  /** Printing the parse of a string gives the string. */
  lemma {:induction false} PrintOfParse(s: text)
    ensures Join(Split(s)) == s
    decreases |s|
  {
    var i := FirstSeparator(s);
    if i < |s| {
      PrintOfParse(s[i + 1..]);
      JoinCons(s[..i], Split(s[i + 1..]));
      CutAt(s, i);
    }
  }

  lemma {:induction false} FirstSeparatorOf(l: text, rest: text)
    requires SEPARATOR !in l
    ensures FirstSeparator(l) == |l|
    ensures FirstSeparator(l + [SEPARATOR] + rest) == |l|
  {
    var s := l + [SEPARATOR] + rest;
    if l != [] {
      assert l[0] in l;
      assert forall b :: b in l[1..] ==> b in l;
      FirstSeparatorOf(l[1..], rest);
      assert s[1..] == l[1..] + [SEPARATOR] + rest;
    }
  }

  lemma SplitCons(l: text, rest: text)
    requires SEPARATOR !in l
    ensures Split(l) == [l]
    ensures Split(l + [SEPARATOR] + rest) == [l] + Split(rest)
  {
    FirstSeparatorOf(l, rest);
    var s := l + [SEPARATOR] + rest;
    assert s[..|l|] == l && s[|l| + 1..] == rest;
  }

  /** Parsing the print of separator-free levels gives the levels, leading, trailing and repeated
      empty ones included. */
  lemma {:induction false} ParseOfPrint(ls: seq<text>)
    requires ls != [] && forall i :: 0 <= i < |ls| ==> 47 !in ls[i]
    ensures Split(Join(ls)) == ls
  {
    if |ls| == 1 {
      SplitCons(ls[0], []);
    } else {
      SplitCons(ls[0], Join(ls[1..]));
      ParseOfPrint(ls[1..]);
      assert [ls[0]] + ls[1..] == ls;
    }
  }

  lemma {:induction false} TrailingLevels(s: text)
    requires EndsWithSeparator(s)
    ensures |Split(s)| >= 2 && Split(s)[|Split(s)| - 1] == []
    decreases |s|
  {
    if FirstSeparator(s) == |s| {
      SplitLast(s);
    } else {
      SplitMore(s);
      var t := s[FirstSeparator(s) + 1..];
      if t != [] {
        TrailingLevels(t);
      }
    }
  }

  lemma {:induction false} LevelsHaveNoSeparator(s: text)
    ensures forall i :: 0 <= i < |Split(s)| ==> 47 !in Split(s)[i]
    decreases |s|
  {
    var i := FirstSeparator(s);
    if i < |s| {
      LevelsHaveNoSeparator(s[i + 1..]);
    }
  }

  lemma TrailingSeparator(t: text)
    ensures Split(t + [SEPARATOR]) == Split(t) + [[]]
  {
    var ls: seq<text> := Split(t) + [[]];
    PrintOfParse(t);
    JoinSnoc(Split(t), []);
    assert t + [SEPARATOR] + [] == t + [SEPARATOR];
    LevelsHaveNoSeparator(t);
    ParseOfPrint(ls);
  }

  /** What follows the last separator of a string. */
  function LastLevel(t: text): text {
    if t == [] || t[|t| - 1] == SEPARATOR then [] else LastLevel(t[..|t| - 1]) + [t[|t| - 1]]
  }

  lemma {:induction false} AfterSeparator(t: text, l: text)
    requires SEPARATOR !in l && (t == [] || t[|t| - 1] == SEPARATOR)
    ensures LastLevel(t + l) == l
    decreases l
  {
    if l == [] {
      assert t + l == t;
    } else {
      var n := |l| - 1;
      assert l == l[..n] + [l[n]];
      assert (t + l)[..|t + l| - 1] == t + l[..n];
      AfterSeparator(t, l[..n]);
    }
  }

  lemma LastOfSplit(t: text)
    ensures Split(t)[|Split(t)| - 1] == LastLevel(t)
  {
    hide Split, LastLevel, FirstSeparator;
    var ls := Split(t);
    var n := |ls| - 1;
    PrintOfParse(t);
    LevelsHaveNoSeparator(t);
    if n == 0 {
      assert t == [] + ls[0];
      AfterSeparator([], ls[0]);
    } else {
      hide Join;
      assert ls == ls[..n] + [ls[n]];
      JoinSnoc(ls[..n], ls[n]);
      AfterSeparator(Join(ls[..n]) + [SEPARATOR], ls[n]);
    }
  }

  /** A level that may stand before another one. */
  predicate MayBeFollowed(l: text) {
    35 !in l && (43 !in l || l == [43])
  }

  lemma ValidBefore(ls: seq<text>, k: nat)
    requires k < |ls| - 1
    ensures ValidAt(ls, k) <==> MayBeFollowed(ls[k])
  {
    if PLUS in ls[k] && |ls[k]| == 1 {
      assert ls[k][0] == PLUS;
    }
  }

  /** The parser's assertions accept exactly the valid filters, but for strings that end with a
      separator: of those they also accept the ones with a "#", or a "+" beside other characters,
      between the last two separators. */
  lemma ValidExactly(s: text)
    ensures ValidFilter(Split(s)) <==>
            Accepted(s) && (EndsWithSeparator(s) ==> MayBeFollowed(LastLevel(s[..|s| - 1])))
  {
    hide Split, LastLevel, ValidAt, MayBeFollowed;
    if EndsWithSeparator(s) {
      var t := s[..|s| - 1];
      assert s == t + [SEPARATOR];
      TrailingSeparator(t);
      LastOfSplit(t);
      ValidBefore(Split(s), |Split(s)| - 2);
    }
  }

  /** The skipped level matters: "#/" is accepted although "#" is not its last level. */
  lemma AcceptedButInvalid()
    ensures Accepted([35, 47]) && !ValidFilter(Split([35, 47]))
  {
    var s := [HASH, SEPARATOR];
    assert s[1..] == [SEPARATOR] && FirstSeparator([SEPARATOR]) == 0 && FirstSeparator(s) == 1;
    assert s[..1] == [HASH] && s[2..] == [] && Split([]) == [[]];
    assert Split(s) == [[HASH], []];
    assert !ValidAt(Split(s), 0);
  }

  // ---------------------------------------------------------------- matching

  lemma {:induction false} FlattenSingles(parts: seq<seq<text>>)
    requires forall i :: 0 <= i < |parts| ==> |parts[i]| == 1
    ensures |Flatten(parts)| == |parts|
    ensures forall i :: 0 <= i < |parts| ==> Flatten(parts)[i] == parts[i][0]
  {
    if parts != [] {
      FlattenSingles(parts[..|parts| - 1]);
    }
  }

  function Singles(ns: seq<text>, m: nat): (r: seq<seq<text>>)
    requires m <= |ns|
    ensures |r| == m && forall i :: 0 <= i < m ==> r[i] == [ns[i]]
  {
    seq(m, i requires 0 <= i < m => [ns[i]])
  }

  lemma ReplacedOneByOne(fs: seq<text>, ns: seq<text>, m: nat)
    requires m <= |fs| && m <= |ns| && LevelsAgree(fs, ns, m)
    requires fs != [] && (m == |fs| ==> fs[m - 1] != [HASH])
    ensures Flatten(Singles(ns, m)) == ns[..m]
    ensures forall i :: 0 <= i < m ==> Replaces(fs, i, Singles(ns, m)[i])
  {
    FlattenSingles(Singles(ns, m));
  }

  lemma ReplaceWithoutHash(fs: seq<text>, ns: seq<text>)
    requires fs != [] && fs[|fs| - 1] != [HASH]
    requires |ns| == |fs| && LevelsAgree(fs, ns, |fs|)
    ensures Arises(fs, ns)
  {
    ReplacedOneByOne(fs, ns, |fs|);
    hide LevelsAgree, Replaces;
    assert ns[..|fs|] == ns;
    assert Replacement(fs, Singles(ns, |fs|), ns);
  }

  lemma ReplaceWithHash(fs: seq<text>, ns: seq<text>)
    requires fs != [] && fs[|fs| - 1] == [HASH]
    requires |ns| >= |fs| - 1 && LevelsAgree(fs, ns, |fs| - 1)
    ensures Arises(fs, ns)
  {
    var m := |fs| - 1;
    var parts := Singles(ns, m) + [ns[m..]];
    ReplacedOneByOne(fs, ns, m);
    assert Replaces(fs, m, parts[m]);
    hide LevelsAgree, Replaces;
    assert parts[..m] == Singles(ns, m);
    assert ns[..m] + ns[m..] == ns;
    assert Replacement(fs, parts, ns);
  }

  lemma MatchImpliesReplacement(fs: seq<text>, name: text)
    requires fs != [] && name != [] && Matches(fs, name)
    ensures Arises(fs, Split(name)) && !(StartsWithDollar(name) && IsWildcard(fs[0]))
  {
    if fs[|fs| - 1] == [HASH] {
      ReplaceWithHash(fs, Split(name));
    } else {
      ReplaceWithoutHash(fs, Split(name));
    }
  }

  lemma ReplacementAgrees(fs: seq<text>, ns: seq<text>, parts: seq<seq<text>>)
    requires fs != [] && Replacement(fs, parts, ns)
    ensures var m := |fs| - 1;
            if fs[m] == [HASH] then |ns| >= m && LevelsAgree(fs, ns, m)
            else |ns| == |fs| && LevelsAgree(fs, ns, |fs|)
  {
    var m := |fs| - 1;
    if fs[m] == [HASH] {
      FlattenSingles(parts[..m]);
    } else {
      FlattenSingles(parts);
    }
  }

  lemma FirstLevel(name: text)
    requires name != []
    ensures StartsWithDollar(name) <==> StartsWithDollar(Split(name)[0])
  {
  }

  lemma ReplacementImpliesMatch(fs: seq<text>, name: text)
    requires fs != [] && name != [] && Arises(fs, Split(name))
    requires !(StartsWithDollar(name) && IsWildcard(fs[0]))
    ensures Matches(fs, name)
  {
    var parts :| Replacement(fs, parts, Split(name));
    ReplacementAgrees(fs, Split(name), parts);
    FirstLevel(name);
  }

  /** For every filter, valid or not, and every non-empty name, the index matcher says yes exactly when the name
      arises by replacing each "+" with one level and a final "#" with any number of levels, and the
      filter does not begin with a wildcard where the name begins with "$". */
  lemma MatcherIsReplacement(fs: seq<text>, name: text)
    requires fs != [] && name != []
    ensures Matches(fs, name) <==> Arises(fs, Split(name)) && !(name[0] == 36 && IsWildcard(fs[0]))
  {
    if Matches(fs, name) {
      MatchImpliesReplacement(fs, name);
    }
    if Arises(fs, Split(name)) && !(StartsWithDollar(name) && IsWildcard(fs[0])) {
      ReplacementImpliesMatch(fs, name);
    }
  }

  /** The empty name has no levels at all: of all filters only "#" matches it. */
  lemma EmptyName(fs: seq<text>)
    requires fs != []
    ensures Matches(fs, []) <==> fs == [[35]]
  {
    if |fs| == 1 {
      assert fs == [fs[0]];
    }
  }
}
