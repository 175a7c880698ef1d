/** `fetchMembers`: the recursive member expansion of one group over a group graph that may
    be cyclic and may share subgroups.  Calls made under `Promise.all` run interleaved and
    share one `visited` set.

    A call adds its DN to `visited` before its first `await`, so the state of a run is the
    tree of calls made so far, whose unanswered searches may complete in any order.

    The map of group names is the synchronisation's group cache: other tasks add to it while
    an expansion runs, when they create a group or find one. */
module LdapMembers {
  import opened Types
  import opened LdapNames

  type Dn = string

  /** The directory as the searches see it (`member` of every DN that exists) and the
      names that `groupsByName` knows at some moment. */
  datatype Directory = Directory(entries: map<Dn, seq<Dn>>, groupNames: set<string>) {

    /** A search that finds no entry ends its call with no members. */
    function Raw(dn: Dn): seq<Dn> {
      if dn in entries then entries[dn] else []
    }

    function Learned(names: set<string>): Directory {
      Directory(entries, groupNames + names)
    }

    predicate IsSubgroup(raw: Dn) {
      ExtractCn(raw).Some? && ExtractCn(raw).value in groupNames
    }

    predicate IsPerson(raw: Dn) {
      ExtractCn(raw).Some? && ExtractCn(raw).value !in groupNames
    }

    ghost predicate Edge(a: Dn, b: Dn) {
      b in Raw(a) && IsSubgroup(b)
    }

    ghost predicate IsPath(path: seq<Dn>) {
      path != [] && forall i :: 0 <= i < |path| - 1 ==> Edge(path[i], path[i + 1])
    }

    ghost predicate Reachable(a: Dn, b: Dn) {
      exists path :: IsPath(path) && path[0] == a && path[|path| - 1] == b
    }

    /** The non-group names among a list of raw members, in order. */
    function Persons(raws: seq<Dn>): seq<string> {
      if raws == [] then []
      else (if IsPerson(raws[0]) then [ExtractCn(raws[0]).value] else []) + Persons(raws[1..])
    }
  }

  /** The parts of one call's result array, in member order. */
  datatype Parts =
    | End
    | Dropped(rest: Parts)                          // no name, or a call that found its DN visited
    | Name(cn: string, rest: Parts)
    | Waiting(dn: Dn, rest: Parts)                  // a subgroup call whose search is running
    | Expanded(dn: Dn, members: Parts, rest: Parts) // a subgroup call whose search has answered
  {
    /** `names.flat()` once every inner call has returned. */
    function Flat(): seq<string> {
      match this
      case End => []
      case Dropped(rest) => rest.Flat()
      case Name(cn, rest) => [cn] + rest.Flat()
      case Waiting(_, rest) => rest.Flat()
      case Expanded(_, members, rest) => members.Flat() + rest.Flat()
    }

    /** How often a name occurs in the flattened result. */
    function Count(name: string): (n: nat)
      ensures n == multiset(Flat())[name]
    {
      match this
      case End => 0
      case Dropped(rest) => rest.Count(name)
      case Name(cn, rest) => (if cn == name then 1 else 0) + rest.Count(name)
      case Waiting(_, rest) => rest.Count(name)
      case Expanded(_, members, rest) => members.Count(name) + rest.Count(name)
    }

    /** How many calls for `d` wait for their search. */
    function Waits(d: Dn): nat {
      match this
      case End => 0
      case Dropped(rest) => rest.Waits(d)
      case Name(_, rest) => rest.Waits(d)
      case Waiting(dn, rest) => (if dn == d then 1 else 0) + rest.Waits(d)
      case Expanded(_, members, rest) => members.Waits(d) + rest.Waits(d)
    }

    /** How many calls have searched for `d` and expanded the answer. */
    function Expansions(d: Dn): nat {
      match this
      case End => 0
      case Dropped(rest) => rest.Expansions(d)
      case Name(_, rest) => rest.Expansions(d)
      case Waiting(_, rest) => rest.Expansions(d)
      case Expanded(dn, members, rest) =>
        (if dn == d then 1 else 0) + members.Expansions(d) + rest.Expansions(d)
    }

    function WaitingDns(): (r: set<Dn>)
      ensures forall d :: d in r <==> Waits(d) > 0
    {
      match this
      case End => {}
      case Dropped(rest) => rest.WaitingDns()
      case Name(_, rest) => rest.WaitingDns()
      case Waiting(dn, rest) => {dn} + rest.WaitingDns()
      case Expanded(_, members, rest) => members.WaitingDns() + rest.WaitingDns()
    }

    /** The search for `answered` returns: the waiting call becomes its parts. */
    function Answer(answered: Dn, parts: Parts): Parts {
      match this
      case End => End
      case Dropped(rest) => Dropped(rest.Answer(answered, parts))
      case Name(cn, rest) => Name(cn, rest.Answer(answered, parts))
      case Waiting(dn, rest) =>
        if dn == answered then Expanded(dn, parts, rest) else Waiting(dn, rest.Answer(answered, parts))
      case Expanded(dn, members, rest) =>
        if members.Waits(answered) > 0
        then Expanded(dn, members.Answer(answered, parts), rest)
        else Expanded(dn, members, rest.Answer(answered, parts))
    }

    function Append(last: Parts): Parts {
      match this
      case End => last
      case Dropped(rest) => Dropped(rest.Append(last))
      case Name(cn, rest) => Name(cn, rest.Append(last))
      case Waiting(dn, rest) => Waiting(dn, rest.Append(last))
      case Expanded(dn, members, rest) => Expanded(dn, members, rest.Append(last))
    }
  }

  /** The synchronous part of one answered search: `raw.map` makes the inner calls, and
      each of them looks at `visited` and adds its DN before it first waits. */
  function Open(dir: Directory, raws: seq<Dn>, visited: set<Dn>): (r: (Parts, set<Dn>))
    ensures forall d :: d in r.1 <==> d in visited || (d in raws && dir.IsSubgroup(d))
  {
    if raws == [] then (End, visited)
    else
      var raw := raws[0];
      if dir.IsSubgroup(raw) && raw !in visited then
        var (parts, after) := Open(dir, raws[1..], visited + {raw});
        (Waiting(raw, parts), after)
      else
        var (parts, after) := Open(dir, raws[1..], visited);
        (if dir.IsPerson(raw) then Name(ExtractCn(raw).value, parts) else Dropped(parts), after)
  }

  /** Each group found unvisited waits exactly once, and the persons are passed on. */
  lemma {:induction false} OpenCounts(dir: Directory, raws: seq<Dn>, visited: set<Dn>, d: Dn, cn: string)
    ensures
      var (parts, after) := Open(dir, raws, visited);
      && parts.Waits(d) == (if d in after && d !in visited then 1 else 0)
      && parts.Expansions(d) == 0
      && parts.Count(cn) == multiset(dir.Persons(raws))[cn]
  {
    if raws != [] {
      var raw := raws[0];
      OpenCounts(dir, raws[1..], if dir.IsSubgroup(raw) && raw !in visited then visited + {raw} else visited, d, cn);
    }
  }

  /** `dir` is the directory with the group names known now. */
  datatype Run = Run(tree: Parts, visited: set<Dn>, dir: Directory) {
    predicate Finished() { tree.WaitingDns() == {} }
  }

  function Start(dir: Directory, root: Dn): Run {
    Run(Waiting(root, End), {root}, dir)
  }

  /** A search answers, or other tasks have made group names known. */
  datatype Event = Answer(dn: Dn) | Learn(names: set<string>)

  predicate Enabled(s: Run, e: Event) {
    e.Answer? ==> e.dn in s.tree.WaitingDns()
  }

  function Step(s: Run, e: Event): Run {
    match e
    case Answer(dn) =>
      var (parts, visited) := Open(s.dir, s.dir.Raw(dn), s.visited);
      Run(s.tree.Answer(dn, parts), visited, s.dir)
    case Learn(names) => s.(dir := s.dir.Learned(names))
  }

  /** The searches answer in any order. */
  ghost predicate Runs(s: Run, order: seq<Event>, f: Run)
    decreases |order|
  {
    if order == [] then f == s
    else Enabled(s, order[0]) && Runs(Step(s, order[0]), order[1..], f)
  }

  function Answers(order: seq<Event>): nat {
    if order == [] then 0 else (if order[0].Answer? then 1 else 0) + Answers(order[1..])
  }

  /** Every person directly below one of the given groups, as often as listed there. */
  ghost function AllPersons(dir: Directory, dns: set<Dn>): multiset<string> {
    if dns == {} then multiset{}
    else
      var dn :| dn in dns;
      multiset(dir.Persons(dir.Raw(dn))) + AllPersons(dir, dns - {dn})
  }

  lemma {:induction false} AllPersonsAdd(dir: Directory, dns: set<Dn>, dn: Dn)
    requires dn in dns
    ensures AllPersons(dir, dns) == multiset(dir.Persons(dir.Raw(dn))) + AllPersons(dir, dns - {dn})
  {
    var picked :| picked in dns && AllPersons(dir, dns) ==
      multiset(dir.Persons(dir.Raw(picked))) + AllPersons(dir, dns - {picked});
    if picked != dn {
      AllPersonsAdd(dir, dns - {picked}, dn);
      AllPersonsAdd(dir, dns - {dn}, picked);
      assert dns - {picked} - {dn} == dns - {dn} - {picked};
    }
  }

  /** Answering one search moves its DN from waiting to expanded and adds its parts. */
  lemma AnswerCounts(tree: Parts, dn: Dn, parts: Parts, d: Dn, cn: string)
    requires tree.Waits(dn) > 0
    ensures var after := tree.Answer(dn, parts);
      && after.Waits(d) == tree.Waits(d) - (if d == dn then 1 else 0) + parts.Waits(d)
      && after.Expansions(d) == tree.Expansions(d) + (if d == dn then 1 else 0) + parts.Expansions(d)
      && after.Count(cn) == tree.Count(cn) + parts.Count(cn)
  {
    AnswerMovesTheCall(tree, dn, parts, d);
    AnswerAddsTheNames(tree, dn, parts, cn);
  }

  lemma {:induction false} AnswerMovesTheCall(tree: Parts, dn: Dn, parts: Parts, d: Dn)
    requires tree.Waits(dn) > 0
    ensures var after := tree.Answer(dn, parts);
      && after.Waits(d) == tree.Waits(d) - (if d == dn then 1 else 0) + parts.Waits(d)
      && after.Expansions(d) == tree.Expansions(d) + (if d == dn then 1 else 0) + parts.Expansions(d)
  {
    match tree
    case Dropped(rest) => AnswerMovesTheCall(rest, dn, parts, d);
    case Name(_, rest) => AnswerMovesTheCall(rest, dn, parts, d);
    case Waiting(first, rest) => if first != dn { AnswerMovesTheCall(rest, dn, parts, d); }
    case Expanded(_, members, rest) =>
      if members.Waits(dn) > 0 {
        AnswerMovesTheCall(members, dn, parts, d);
      } else {
        AnswerMovesTheCall(rest, dn, parts, d);
      }
  }

  lemma {:induction false} AnswerAddsTheNames(tree: Parts, dn: Dn, parts: Parts, cn: string)
    requires tree.Waits(dn) > 0
    ensures tree.Answer(dn, parts).Count(cn) == tree.Count(cn) + parts.Count(cn)
  {
    match tree
    case Dropped(rest) => AnswerAddsTheNames(rest, dn, parts, cn);
    case Name(_, rest) => AnswerAddsTheNames(rest, dn, parts, cn);
    case Waiting(first, rest) => if first != dn { AnswerAddsTheNames(rest, dn, parts, cn); }
    case Expanded(_, members, rest) =>
      if members.Waits(dn) > 0 {
        AnswerAddsTheNames(members, dn, parts, cn);
      } else {
        AnswerAddsTheNames(rest, dn, parts, cn);
      }
  }

  /** ---- what more names change ---- */

  /** `more` knows at least the names that `less` knows. */
  ghost predicate Knows(more: Directory, less: Directory) {
    more.entries == less.entries && less.groupNames <= more.groupNames
  }

  lemma {:induction false} PersonsUnder(less: Directory, more: Directory, raws: seq<Dn>, cn: string)
    requires Knows(more, less)
    ensures multiset(more.Persons(raws))[cn] == if cn in more.groupNames then 0 else multiset(less.Persons(raws))[cn]
  {
    if raws != [] {
      PersonsUnder(less, more, raws[1..], cn);
    }
  }

  /** Names learned are persons no more; nothing else changes. */
  lemma {:induction false} AllPersonsUnder(less: Directory, more: Directory, dns: set<Dn>, cn: string)
    requires Knows(more, less)
    ensures AllPersons(more, dns)[cn] == if cn in more.groupNames then 0 else AllPersons(less, dns)[cn]
    decreases dns
  {
    if dns != {} {
      var dn :| dn in dns;
      AllPersonsAdd(less, dns, dn);
      AllPersonsAdd(more, dns, dn);
      PersonsUnder(less, more, less.Raw(dn), cn);
      AllPersonsUnder(less, more, dns - {dn}, cn);
    }
  }

  lemma MoreIsReachable(less: Directory, more: Directory, root: Dn, d: Dn)
    requires Knows(more, less) && less.Reachable(root, d)
    ensures more.Reachable(root, d)
  {
    var path :| less.IsPath(path) && path[0] == root && path[|path| - 1] == d;
    assert more.IsPath(path) by {
      forall i | 0 <= i < |path| - 1 ensures more.Edge(path[i], path[i + 1]) {
        assert less.Edge(path[i], path[i + 1]);
      }
    }
  }

  /** What every step keeps; `dir` is the directory at the start. */
  ghost predicate Inv(dir: Directory, root: Dn, s: Run) {
    && Knows(s.dir, dir) && root in s.visited
    && (forall d :: s.tree.Waits(d) + s.tree.Expansions(d) == if d in s.visited then 1 else 0)
    && (forall d :: d in s.visited ==> s.dir.Reachable(root, d))
    && (forall a, b :: s.tree.Expansions(a) > 0 && dir.Edge(a, b) ==> b in s.visited)
    && (forall cn :: AllPersons(s.dir, ExpandedSet(s))[cn] <= s.tree.Count(cn) <= AllPersons(dir, ExpandedSet(s))[cn])
  }

  ghost function ExpandedSet(s: Run): set<Dn> {
    set d | d in s.visited && s.tree.Expansions(d) > 0
  }

  lemma ReachableStep(dir: Directory, root: Dn, a: Dn, b: Dn)
    requires dir.Reachable(root, a) && dir.Edge(a, b)
    ensures dir.Reachable(root, b)
  {
    var path :| dir.IsPath(path) && path[0] == root && path[|path| - 1] == a;
    assert dir.IsPath(path + [b]);
  }

  lemma StartInv(dir: Directory, root: Dn)
    ensures Inv(dir, root, Start(dir, root))
    ensures ExpandedSet(Start(dir, root)) == {}
  {
    assert dir.IsPath([root]);
    assert Start(dir, root).tree.rest == End;
  }

  lemma AnswerInv(dir: Directory, root: Dn, s: Run, dn: Dn)
    requires Inv(dir, root, s) && s.tree.Waits(dn) > 0
    ensures Inv(dir, root, Step(s, Answer(dn)))
    ensures dn !in ExpandedSet(s)
    ensures ExpandedSet(Step(s, Answer(dn))) == ExpandedSet(s) + {dn}
  {
    var (parts, visited) := Open(s.dir, s.dir.Raw(dn), s.visited);
    var t := Step(s, Answer(dn));
    forall d
      ensures t.tree.Waits(d) + t.tree.Expansions(d) == if d in visited then 1 else 0
      ensures t.tree.Expansions(d) == s.tree.Expansions(d) + (if d == dn then 1 else 0)
    {
      OpenCounts(s.dir, s.dir.Raw(dn), s.visited, d, "");
      AnswerCounts(s.tree, dn, parts, d, "");
    }
    assert s.tree.Waits(dn) + s.tree.Expansions(dn) == 1 && dn in s.visited;
    assert ExpandedSet(t) == ExpandedSet(s) + {dn};
    forall cn ensures AllPersons(t.dir, ExpandedSet(t))[cn] <= t.tree.Count(cn) <= AllPersons(dir, ExpandedSet(t))[cn] {
      AnswerKeepsBounds(dir, s, dn, cn);
    }
    forall d | d in visited && d !in s.visited ensures s.dir.Reachable(root, d) {
      ReachableStep(s.dir, root, dn, d);
    }
    forall a, b | t.tree.Expansions(a) > 0 && dir.Edge(a, b) ensures b in visited {
      assert s.dir.Edge(a, b);
    }
  }

  lemma AnswerKeepsBounds(dir: Directory, s: Run, dn: Dn, cn: string)
    requires Knows(s.dir, dir) && s.tree.Waits(dn) > 0 && dn !in ExpandedSet(s)
    requires ExpandedSet(Step(s, Answer(dn))) == ExpandedSet(s) + {dn}
    requires AllPersons(s.dir, ExpandedSet(s))[cn] <= s.tree.Count(cn) <= AllPersons(dir, ExpandedSet(s))[cn]
    ensures var t := Step(s, Answer(dn));
      AllPersons(t.dir, ExpandedSet(t))[cn] <= t.tree.Count(cn) <= AllPersons(dir, ExpandedSet(t))[cn]
  {
    var (parts, _) := Open(s.dir, s.dir.Raw(dn), s.visited);
    var t := Step(s, Answer(dn));
    OpenCounts(s.dir, s.dir.Raw(dn), s.visited, dn, cn);
    AnswerCounts(s.tree, dn, parts, dn, cn);
    AllPersonsAdd(dir, ExpandedSet(t), dn);
    AllPersonsAdd(s.dir, ExpandedSet(t), dn);
    PersonsUnder(dir, s.dir, dir.Raw(dn), cn);
    assert ExpandedSet(t) - {dn} == ExpandedSet(s);
  }

  lemma LearnInv(dir: Directory, root: Dn, s: Run, names: set<string>)
    requires Inv(dir, root, s)
    ensures Inv(dir, root, Step(s, Learn(names)))
    ensures ExpandedSet(Step(s, Learn(names))) == ExpandedSet(s)
  {
    var t := Step(s, Learn(names));
    assert ExpandedSet(t) == ExpandedSet(s);
    forall d | d in t.visited ensures t.dir.Reachable(root, d) {
      MoreIsReachable(s.dir, t.dir, root, d);
    }
    forall cn ensures AllPersons(t.dir, ExpandedSet(t))[cn] <= t.tree.Count(cn) {
      AllPersonsUnder(s.dir, t.dir, ExpandedSet(s), cn);
    }
  }

  lemma StepInv(dir: Directory, root: Dn, s: Run, e: Event)
    requires Inv(dir, root, s) && Enabled(s, e)
    ensures Inv(dir, root, Step(s, e))
    ensures |ExpandedSet(Step(s, e))| == |ExpandedSet(s)| + (if e.Answer? then 1 else 0)
  {
    match e
    case Answer(dn) => AnswerInv(dir, root, s, dn);
    case Learn(names) => LearnInv(dir, root, s, names);
  }

  lemma {:induction false} RunInv(dir: Directory, root: Dn, s: Run, order: seq<Event>, f: Run)
    requires Inv(dir, root, s) && Runs(s, order, f)
    ensures Inv(dir, root, f)
    ensures |ExpandedSet(f)| == |ExpandedSet(s)| + Answers(order)
    decreases |order|
  {
    if order != [] {
      StepInv(dir, root, s, order[0]);
      RunInv(dir, root, Step(s, order[0]), order[1..], f);
    }
  }

  lemma {:induction false} ClosedContainsReachable(dir: Directory, root: Dn, dns: set<Dn>, path: seq<Dn>)
    requires root in dns && forall a, b :: a in dns && dir.Edge(a, b) ==> b in dns
    requires dir.IsPath(path) && path[0] == root
    ensures path[|path| - 1] in dns
    decreases |path|
  {
    if |path| > 1 {
      var front := path[..|path| - 1];
      assert dir.IsPath(front);
      ClosedContainsReachable(dir, root, dns, front);
      assert dir.Edge(path[|path| - 2], path[|path| - 1]);
    }
  }

  /** In every order of answers, and whatever names are learned meanwhile: a finished run has
      visited every group reachable with the names known at the start, and none that is not
      reachable with those known at the end; it has searched each visited group exactly once;
      and the names it returns are exactly the persons listed in the visited groups, as often
      as listed, except that a name learned meanwhile may be missing. */
  lemma FetchMembersUnderLearning(dir: Directory, root: Dn, order: seq<Event>, f: Run)
    requires Runs(Start(dir, root), order, f) && f.Finished()
    ensures Knows(f.dir, dir)
    ensures forall d :: dir.Reachable(root, d) ==> d in f.visited
    ensures forall d :: d in f.visited ==> f.dir.Reachable(root, d)
    ensures forall d :: f.tree.Expansions(d) == if d in f.visited then 1 else 0
    ensures Answers(order) == |f.visited|
    ensures forall cn :: if cn in f.dir.groupNames
      then multiset(f.tree.Flat())[cn] <= AllPersons(dir, f.visited)[cn]
      else multiset(f.tree.Flat())[cn] == AllPersons(dir, f.visited)[cn]
  {
    StartInv(dir, root);
    RunInv(dir, root, Start(dir, root), order, f);
    forall d ensures f.tree.Waits(d) == 0 {
      assert d !in f.tree.WaitingDns();
    }
    assert ExpandedSet(f) == f.visited;
    forall d | dir.Reachable(root, d) ensures d in f.visited {
      var path :| dir.IsPath(path) && path[0] == root && path[|path| - 1] == d;
      ClosedContainsReachable(dir, root, f.visited, path);
    }
    forall cn ensures if cn in f.dir.groupNames
      then multiset(f.tree.Flat())[cn] <= AllPersons(dir, f.visited)[cn]
      else multiset(f.tree.Flat())[cn] == AllPersons(dir, f.visited)[cn]
    {
      assert f.tree.Count(cn) == multiset(f.tree.Flat())[cn];
      AllPersonsUnder(dir, f.dir, f.visited, cn);
    }
  }

  /** No name that `more` knows in addition is listed in a group reachable without it. */
  ghost predicate Unaffected(dir: Directory, more: Directory, root: Dn) {
    forall d, raw :: dir.Reachable(root, d) && raw in dir.Raw(d) && ExtractCn(raw).Some? ==>
      (ExtractCn(raw).value in more.groupNames ==> ExtractCn(raw).value in dir.groupNames)
  }

  lemma {:induction false} SameReach(dir: Directory, more: Directory, root: Dn, path: seq<Dn>)
    requires Knows(more, dir) && Unaffected(dir, more, root) && more.IsPath(path) && path[0] == root
    ensures dir.Reachable(root, path[|path| - 1])
    decreases |path|
  {
    if |path| == 1 {
      assert dir.IsPath([root]);
    } else {
      var front := path[..|path| - 1];
      assert more.IsPath(front);
      SameReach(dir, more, root, front);
      assert more.Edge(path[|path| - 2], path[|path| - 1]);
      ReachableStep(dir, root, path[|path| - 2], path[|path| - 1]);
    }
  }

  lemma {:induction false} SamePersons(dir: Directory, more: Directory, raws: seq<Dn>, cn: string)
    requires forall raw :: raw in raws && ExtractCn(raw).Some? ==>
      (ExtractCn(raw).value in more.groupNames ==> ExtractCn(raw).value in dir.groupNames)
    requires cn in more.groupNames
    ensures multiset(dir.Persons(raws))[cn] == 0
  {
    if raws != [] {
      assert raws[0] in raws;
      SamePersons(dir, more, raws[1..], cn);
    }
  }

  lemma {:induction false} NoPersonsLearned(dir: Directory, more: Directory, root: Dn, dns: set<Dn>, cn: string)
    requires Unaffected(dir, more, root) && (forall d :: d in dns ==> dir.Reachable(root, d)) && cn in more.groupNames
    ensures AllPersons(dir, dns)[cn] == 0
    decreases dns
  {
    if dns != {} {
      var dn :| dn in dns;
      AllPersonsAdd(dir, dns, dn);
      assert dir.Reachable(root, dn);
      SamePersons(dir, more, dir.Raw(dn), cn);
      NoPersonsLearned(dir, more, root, dns - {dn}, cn);
    }
  }

  /** In every order of answers, when no name learned meanwhile is listed in a reachable group
      (none need be learned at all), a finished run has visited exactly the reachable groups,
      has expanded each of them exactly once with one search each, and returns, as a multiset,
      exactly the persons listed in the reachable groups. */
  lemma FetchMembersIsReachability(dir: Directory, root: Dn, order: seq<Event>, f: Run)
    requires Runs(Start(dir, root), order, f) && f.Finished() && Unaffected(dir, f.dir, root)
    ensures forall d :: d in f.visited <==> dir.Reachable(root, d)
    ensures forall d :: f.tree.Expansions(d) == if dir.Reachable(root, d) then 1 else 0
    ensures Answers(order) == |f.visited|
    ensures multiset(f.tree.Flat()) == AllPersons(dir, f.visited)
  {
    FetchMembersUnderLearning(dir, root, order, f);
    forall d | d in f.visited ensures dir.Reachable(root, d) {
      var path :| f.dir.IsPath(path) && path[0] == root && path[|path| - 1] == d;
      SameReach(dir, f.dir, root, path);
    }
    forall cn ensures multiset(f.tree.Flat())[cn] == AllPersons(dir, f.visited)[cn] {
      if cn in f.dir.groupNames {
        NoPersonsLearned(dir, f.dir, root, f.visited, cn);
      }
    }
  }

  lemma SameSetSamePersons(dir: Directory, a: set<Dn>, b: set<Dn>)
    requires forall d :: d in a <==> d in b
    ensures a == b && AllPersons(dir, a) == AllPersons(dir, b)
  {
  }

  /** Then the members returned do not depend on the order in which the searches answer and
      names are learned. */
  lemma OrderDoesNotMatter(dir: Directory, root: Dn, o1: seq<Event>, f1: Run, o2: seq<Event>, f2: Run)
    requires Runs(Start(dir, root), o1, f1) && f1.Finished() && Unaffected(dir, f1.dir, root)
    requires Runs(Start(dir, root), o2, f2) && f2.Finished() && Unaffected(dir, f2.dir, root)
    ensures f1.visited == f2.visited && Answers(o1) == Answers(o2)
    ensures multiset(f1.tree.Flat()) == multiset(f2.tree.Flat())
  {
    hide Runs, Unaffected, AllPersons;
    FetchMembersIsReachability(dir, root, o1, f1);
    FetchMembersIsReachability(dir, root, o2, f2);
    SameSetSamePersons(dir, f1.visited, f2.visited);
  }

  /** Every DN the directory mentions. */
  ghost function Universe(dir: Directory, root: Dn): set<Dn> {
    {root} + (set a, b | a in dir.entries && b in dir.entries[a] :: b)
  }

  lemma SizeOfSubset<T>(a: set<T>, b: set<T>)
    requires a <= b
    ensures |a| <= |b|
  {
    assert b == a + (b - a);
  }

  ghost predicate Covered(dir: Directory, root: Dn, s: Run) {
    Inv(dir, root, s) && s.visited <= Universe(dir, root)
  }

  lemma {:induction false} RunCovered(dir: Directory, root: Dn, s: Run, order: seq<Event>, f: Run)
    requires Covered(dir, root, s) && Runs(s, order, f)
    ensures Covered(dir, root, f)
    ensures |ExpandedSet(f)| == |ExpandedSet(s)| + Answers(order)
    decreases |order|
  {
    if order != [] {
      StepInv(dir, root, s, order[0]);
      RunCovered(dir, root, Step(s, order[0]), order[1..], f);
    }
  }

  /** Termination: in no order do more searches answer than there are DNs, whatever cycles the
      directory holds. */
  lemma EveryRunIsBounded(dir: Directory, root: Dn, order: seq<Event>, f: Run)
    requires Runs(Start(dir, root), order, f)
    ensures Answers(order) <= |Universe(dir, root)|
  {
    StartInv(dir, root);
    RunCovered(dir, root, Start(dir, root), order, f);
    SizeOfSubset(ExpandedSet(f), Universe(dir, root));
  }

  lemma {:induction false} RunsAppend(s: Run, order: seq<Event>, f: Run, e: Event)
    requires Runs(s, order, f) && Enabled(f, e)
    ensures Runs(s, order + [e], Step(f, e))
    ensures Answers(order + [e]) == Answers(order) + (if e.Answer? then 1 else 0)
    decreases |order|
  {
    if order == [] {
      assert (order + [e])[1..] == [];
    } else {
      RunsAppend(Step(s, order[0]), order[1..], f, e);
      assert (order + [e])[1..] == order[1..] + [e];
    }
  }

  /** ---- when the order matters ---- */

  /** Every expansion can be brought to its end without learning more. */
  lemma {:induction false} EveryRunCanFinish(dir: Directory, root: Dn, s: Run) returns (order: seq<Event>, f: Run)
    requires Covered(dir, root, s)
    ensures Runs(s, order, f) && f.Finished() && f.dir == s.dir
    decreases |Universe(dir, root)| - |ExpandedSet(s)|
  {
    if s.Finished() {
      order, f := [], s;
    } else {
      var dn :| dn in s.tree.WaitingDns();
      var t := Step(s, Answer(dn));
      StepInv(dir, root, s, Answer(dn));
      SizeOfSubset(ExpandedSet(t), Universe(dir, root));
      order, f := EveryRunCanFinish(dir, root, t);
      assert ([Answer(dn)] + order)[1..] == order;
      order := [Answer(dn)] + order;
    }
  }

  lemma StartCovered(dir: Directory, root: Dn)
    ensures Covered(dir, root, Start(dir, root))
  {
    StartInv(dir, root);
  }

  /** An expansion that learns nothing until its end. */
  lemma LateRun(dir: Directory, root: Dn, names: set<string>) returns (order: seq<Event>, f: Run)
    ensures Runs(Start(dir, root), order, f) && f.Finished() && f.dir == dir.Learned(names)
    ensures forall d :: d in f.visited <==> dir.Reachable(root, d)
    ensures multiset(f.tree.Flat()) == AllPersons(dir, f.visited)
  {
    StartCovered(dir, root);
    var first, g := EveryRunCanFinish(dir, root, Start(dir, root));
    FetchMembersIsReachability(dir, root, first, g);
    RunsAppend(Start(dir, root), first, g, Learn(names));
    order, f := first + [Learn(names)], Step(g, Learn(names));
  }

  /** An expansion that has learned everything when its first search answers. */
  lemma EarlyRun(dir: Directory, root: Dn, names: set<string>) returns (order: seq<Event>, f: Run)
    ensures Runs(Start(dir, root), order, f) && f.Finished() && f.dir == dir.Learned(names)
    ensures forall d :: d in f.visited <==> dir.Learned(names).Reachable(root, d)
    ensures multiset(f.tree.Flat()) == AllPersons(dir.Learned(names), f.visited)
  {
    var more := dir.Learned(names);
    StartCovered(more, root);
    var rest;
    rest, f := EveryRunCanFinish(more, root, Start(more, root));
    FetchMembersIsReachability(more, root, rest, f);
    assert Step(Start(dir, root), Learn(names)) == Start(more, root);
    assert ([Learn(names)] + rest)[1..] == rest;
    order := [Learn(names)] + rest;
  }

  /** All expansions that learn these names return the same names. */
  ghost predicate OneResult(dir: Directory, root: Dn, names: set<string>) {
    forall o1, f1, o2, f2 :: Learns(dir, root, names, o1, f1) && Learns(dir, root, names, o2, f2) ==>
      multiset(f1.tree.Flat()) == multiset(f2.tree.Flat())
  }

  ghost predicate Learns(dir: Directory, root: Dn, names: set<string>, order: seq<Event>, f: Run) {
    Runs(Start(dir, root), order, f) && f.Finished() && f.dir == dir.Learned(names)
  }

  lemma {:induction false} ListedPersonCounts(dir: Directory, raws: seq<Dn>, raw: Dn)
    requires raw in raws && dir.IsPerson(raw)
    ensures multiset(dir.Persons(raws))[ExtractCn(raw).value] > 0
  {
    if raws[0] != raw {
      ListedPersonCounts(dir, raws[1..], raw);
    }
  }

  /** While names are being learned, the names returned depend on the order of answers exactly
      when a name to be learned is listed in a group reachable without it. */
  lemma OrderMattersIff(dir: Directory, root: Dn, names: set<string>)
    ensures OneResult(dir, root, names) <==> Unaffected(dir, dir.Learned(names), root)
  {
    if Unaffected(dir, dir.Learned(names), root) {
      forall o1, f1, o2, f2 | Learns(dir, root, names, o1, f1) && Learns(dir, root, names, o2, f2)
        ensures multiset(f1.tree.Flat()) == multiset(f2.tree.Flat())
      {
        OrderDoesNotMatter(dir, root, o1, f1, o2, f2);
      }
    } else {
      var d, raw :| dir.Reachable(root, d) && raw in dir.Raw(d) && ExtractCn(raw).Some? &&
        ExtractCn(raw).value in dir.Learned(names).groupNames && ExtractCn(raw).value !in dir.groupNames;
      TwoOrdersDiffer(dir, root, names, d, raw);
    }
  }

  lemma TwoOrdersDiffer(dir: Directory, root: Dn, names: set<string>, d: Dn, raw: Dn)
    requires dir.Reachable(root, d) && raw in dir.Raw(d) && ExtractCn(raw).Some?
    requires ExtractCn(raw).value in names && ExtractCn(raw).value !in dir.groupNames
    ensures !OneResult(dir, root, names)
  {
    var cn := ExtractCn(raw).value;
    var o1, f1 := LateRun(dir, root, names);
    var o2, f2 := EarlyRun(dir, root, names);
    AllPersonsAdd(dir, f1.visited, d);
    ListedPersonCounts(dir, dir.Raw(d), raw);
    AllPersonsUnder(dir, dir.Learned(names), f2.visited, cn);
    assert multiset(f1.tree.Flat())[cn] > 0 && multiset(f2.tree.Flat())[cn] == 0;
    assert Learns(dir, root, names, o1, f1) && Learns(dir, root, names, o2, f2);
  }

  lemma {:induction false} OpenAppend(dir: Directory, front: seq<Dn>, raw: Dn, visited: set<Dn>)
    ensures
      var (parts, seen) := Open(dir, front, visited);
      var (last, after) := Open(dir, [raw], seen);
      Open(dir, front + [raw], visited) == (parts.Append(last), after)
  {
    if front == [] {
      assert front + [raw] == [raw];
    } else {
      assert (front + [raw])[1..] == front[1..] + [raw];
      OpenAppend(dir, front[1..], raw,
                 if dir.IsSubgroup(front[0]) && front[0] !in visited then visited + {front[0]} else visited);
    }
  }

  /** One `fetchMembers` expansion in progress. */
  class Expansion {
    const entries: map<Dn, seq<Dn>>
    var groupNames: set<string>
    var visited: set<Dn>
    var tree: Parts

    ghost function St(): Run
      reads this
    {
      Run(tree, visited, Directory(entries, groupNames))
    }

    constructor (dir: Directory, root: Dn)
      ensures St() == Start(dir, root)
    {
      entries, groupNames := dir.entries, dir.groupNames;
      visited := {root};
      tree := Waiting(root, End);
    }

    /** Another task of the synchronisation has added to the shared map. */
    method GroupsFound(names: set<string>)
      modifies this
      ensures St() == Step(old(St()), Learn(names))
    {
      groupNames := groupNames + names;
    }

    /** The stretch of the code that runs when the search for `dn` answers. */
    method Resume(dn: Dn)
      requires dn in tree.WaitingDns()
      modifies this
      ensures St() == Step(old(St()), Answer(dn))
    {
      var dir := Directory(entries, groupNames);
      var raw := dir.Raw(dn);
      var parts := End;
      for i := 0 to |raw|
        invariant (parts, visited) == Open(dir, raw[..i], old(visited))
        invariant tree == old(tree) && groupNames == dir.groupNames
      {
        OpenAppend(dir, raw[..i], raw[i], old(visited));
        assert raw[..i + 1] == raw[..i] + [raw[i]];
        if dir.IsSubgroup(raw[i]) {
          if raw[i] in visited {
            parts := parts.Append(Dropped(End));
          } else {
            visited := visited + {raw[i]};
            parts := parts.Append(Waiting(raw[i], End));
          }
        } else if ExtractCn(raw[i]).Some? {
          parts := parts.Append(Name(ExtractCn(raw[i]).value, End));
        } else {
          parts := parts.Append(Dropped(End));
        }
      }
      assert raw[..|raw|] == raw;
      tree := tree.Answer(dn, parts);
    }
  }

  /** The whole expansion under an arbitrary scheduler: `pick` decides which of the running
      searches answers next, and `found` what other tasks have added to the group names before
      that; `known` are the names at the end. */
  method FetchMembers(dir: Directory, root: Dn, pick: set<Dn> -> Dn, found: nat -> set<string>)
    returns (names: seq<string>, visited: set<Dn>, known: set<string>)
    requires forall w :: w != {} ==> pick(w) in w
    ensures dir.groupNames <= known
    ensures forall d :: dir.Reachable(root, d) ==> d in visited
    ensures forall d :: d in visited ==> Directory(dir.entries, known).Reachable(root, d)
    ensures forall cn :: cn !in known ==> multiset(names)[cn] == AllPersons(dir, visited)[cn]
    ensures forall cn :: cn in dir.groupNames ==> cn !in names
  {
    var run := new Expansion(dir, root);
    ghost var order: seq<Event> := [];
    var n := 0;
    EveryRunIsBounded(dir, root, order, run.St());
    while run.tree.WaitingDns() != {}
      invariant run.entries == dir.entries && Runs(Start(dir, root), order, run.St())
      invariant n == Answers(order) <= |Universe(dir, root)|
      decreases |Universe(dir, root)| - n
    {
      var dn := pick(run.tree.WaitingDns());
      RunsAppend(Start(dir, root), order, run.St(), Learn(found(n)));
      run.GroupsFound(found(n));
      order := order + [Learn(found(n))];
      RunsAppend(Start(dir, root), order, run.St(), Answer(dn));
      run.Resume(dn);
      order := order + [Answer(dn)];
      n := n + 1;
      EveryRunIsBounded(dir, root, order, run.St());
    }
    FetchMembersUnderLearning(dir, root, order, run.St());
    names, visited, known := run.tree.Flat(), run.visited, run.groupNames;
    forall cn | cn in dir.groupNames ensures cn !in names {
      AllPersonsUnder(dir, dir, visited, cn);
      assert multiset(names)[cn] == 0;
    }
  }
}
