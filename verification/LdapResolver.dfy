/** `resolveLdapMember` and `resolveMembersToGroupMemberDto`: member names are resolved
    through one positive user cache, one group cache and one set of negative keys, which all
    interleaved calls of the service share and change in place.

    The reference definition is `Accounts.Classify`, which asks the directory afresh.  A call
    is cut into its stretches between two `await`s; a run may continue any call at any time. */
module LdapResolver {
  import opened Types

  datatype Target = Linuxmuster | Generic

  datatype Kind = IsUser(user: User) | IsGroup | Missing

  /** A fixed account directory.  The searches, letter case and Latin transcription are
      parameters; a search returns its hits in order. */
  datatype Accounts = Accounts(
    target: Target,
    exactSearch: string -> seq<User>,
    search: string -> seq<User>,
    groupSearch: string -> seq<Group>,
    candidates: string -> seq<string>,
    matchesBase: (string, string) -> bool,
    lower: string -> string,
    isSpaced: string -> bool,
    plain: string -> string,
    latinLower: string -> string)
  {
    function Exact(name: string): Option<User> {
      var hits := exactSearch(name);
      if hits == [] then None else Some(hits[0])
    }

    function FirstMatching(hits: seq<User>, base: string): Option<User> {
      if hits == [] then None
      else if matchesBase(hits[0].username, base) then Some(hits[0])
      else FirstMatching(hits[1..], base)
    }

    /** `findUserByBaseOrNumbered` without its negative cache. */
    function ByBase(base: string): Option<User> {
      if Exact(base).Some? then Exact(base) else FirstMatching(search(base), base)
    }

    function FirstHit(bases: seq<string>): Option<User> {
      if bases == [] then None
      else if ByBase(bases[0]).Some? then ByBase(bases[0])
      else FirstHit(bases[1..])
    }

    function ByCandidates(name: string): Option<User> {
      if target == Linuxmuster then None else FirstHit(candidates(name))
    }

    function FirstNamed(hits: seq<User>, first: string, last: string): Option<User> {
      if hits == [] then None
      else if latinLower(hits[0].firstName) == first && latinLower(hits[0].lastName) == last then Some(hits[0])
      else FirstNamed(hits[1..], first, last)
    }

    predicate HasFullName(name: string) {
      isSpaced(name) && lower(FirstWord(plain(name))) != "" && lower(LastWord(plain(name))) != ""
    }

    function SearchFullName(name: string): Option<User> {
      FirstNamed(search(plain(name)), lower(FirstWord(plain(name))), lower(LastWord(plain(name))))
    }

    function FindUser(name: string): Option<User> {
      if Exact(name).Some? then Exact(name)
      else if ByCandidates(name).Some? then ByCandidates(name)
      else if HasFullName(name) then SearchFullName(name)
      else None
    }

    function FindGroup(hits: seq<Group>, name: string): Option<Group> {
      if hits == [] then None
      else if hits[0].name == name then Some(hits[0])
      else FindGroup(hits[1..], name)
    }

    /** What resolving `name` with empty caches gives. */
    function Classify(name: string): Kind {
      if FindUser(name).Some? then IsUser(FindUser(name).value)
      else if FindGroup(groupSearch(name), name).Some? then IsGroup
      else Missing
    }

    /** What the shared caches need of a directory: the name a user carries finds that same
        user, and a search that finds nobody finds nobody in any letter case either. */
    ghost predicate Consistent() {
      && (forall name :: FindUser(name).Some? ==>
           FindUser(FindUser(name).value.username) == FindUser(name))
      && (forall a, b :: lower(a) == lower(b) && Exact(a).None? ==> Exact(b).None?)
      && (target != Linuxmuster ==> forall a, b :: lower(a) == lower(b) && ByBase(a).None? ==> ByBase(b).None?)
    }

    function MissKeyExact(name: string): string { "exact:" + lower(name) }

    function MissKeyBase(base: string): string { "base:" + lower(base) }
  }

  function FirstWord(s: string): string {
    if s == "" || s[0] == ' ' then "" else [s[0]] + FirstWord(s[1..])
  }

  function LastWord(s: string): string {
    if s == "" || s[|s| - 1] == ' ' then "" else LastWord(s[..|s| - 1]) + [s[|s| - 1]]
  }

  /** ---- what an answer says ---- */

  /** The first of the hits that is as asked for, or none of them is. */
  ghost predicate IsFirst<T(!new)>(hits: seq<T>, fits: T -> bool, answer: Option<T>) {
    match answer
    case Some(h) => exists i :: 0 <= i < |hits| && hits[i] == h && fits(h) && forall j :: 0 <= j < i ==> !fits(hits[j])
    case None => forall j :: 0 <= j < |hits| ==> !fits(hits[j])
  }

  lemma FirstOfRest<T(!new)>(hits: seq<T>, fits: T -> bool, answer: Option<T>)
    requires hits != [] && !fits(hits[0]) && IsFirst(hits[1..], fits, answer)
    ensures IsFirst(hits, fits, answer)
  {
    match answer
    case Some(h) =>
      var i :| 0 <= i < |hits[1..]| && hits[1..][i] == h && fits(h) && forall j :: 0 <= j < i ==> !fits(hits[1..][j]);
      assert hits[i + 1] == h;
      forall j | 0 <= j < i + 1 ensures !fits(hits[j]) {
        assert j > 0 ==> hits[j] == hits[1..][j - 1];
      }
    case None =>
      forall j | 0 <= j < |hits| ensures !fits(hits[j]) {
        assert j > 0 ==> hits[j] == hits[1..][j - 1];
      }
  }

  /** The group found is the first one that carries exactly the name asked for. */
  lemma {:induction false} GroupFoundHasTheName(dir: Accounts, hits: seq<Group>, name: string)
    ensures IsFirst(hits, (g: Group) => g.name == name, dir.FindGroup(hits, name))
  {
    var fits := (g: Group) => g.name == name;
    if hits != [] {
      if hits[0].name == name {
        assert fits(hits[0]);
      } else {
        GroupFoundHasTheName(dir, hits[1..], name);
        assert IsFirst(hits[1..], fits, dir.FindGroup(hits[1..], name));
        FirstOfRest(hits, fits, dir.FindGroup(hits, name));
      }
    }
  }

  /** The numbered user found is the first hit whose username matches the base. */
  lemma {:induction false} NumberedUserMatches(dir: Accounts, hits: seq<User>, base: string)
    ensures IsFirst(hits, (u: User) => dir.matchesBase(u.username, base), dir.FirstMatching(hits, base))
  {
    var fits := (u: User) => dir.matchesBase(u.username, base);
    if hits != [] {
      if dir.matchesBase(hits[0].username, base) {
        assert fits(hits[0]);
      } else {
        NumberedUserMatches(dir, hits[1..], base);
        assert IsFirst(hits[1..], fits, dir.FirstMatching(hits[1..], base));
        FirstOfRest(hits, fits, dir.FirstMatching(hits, base));
      }
    }
  }

  /** A base name gives the first exact hit, and without one the first numbered hit. */
  lemma BaseGivesExactOrNumbered(dir: Accounts, base: string)
    ensures dir.exactSearch(base) != [] ==> dir.ByBase(base) == Some(dir.exactSearch(base)[0])
    ensures dir.exactSearch(base) == [] ==>
      IsFirst(dir.search(base), (u: User) => dir.matchesBase(u.username, base), dir.ByBase(base))
  {
    NumberedUserMatches(dir, dir.search(base), base);
  }

  /** The candidates give the user of the first one that has one. */
  lemma {:induction false} FirstCandidateWins(dir: Accounts, bases: seq<string>)
    ensures match dir.FirstHit(bases)
      case Some(u) => exists i :: 0 <= i < |bases| && dir.ByBase(bases[i]) == Some(u) && forall j :: 0 <= j < i ==> dir.ByBase(bases[j]).None?
      case None => forall j :: 0 <= j < |bases| ==> dir.ByBase(bases[j]).None?
  {
    if bases != [] && dir.ByBase(bases[0]).None? {
      FirstCandidateWins(dir, bases[1..]);
      if dir.FirstHit(bases).Some? {
        var i :| 0 <= i < |bases[1..]| && dir.ByBase(bases[1..][i]) == dir.FirstHit(bases) && forall j :: 0 <= j < i ==> dir.ByBase(bases[1..][j]).None?;
        assert bases[i + 1] == bases[1..][i];
        forall j | 0 <= j < i + 1 ensures dir.ByBase(bases[j]).None? {
          assert j > 0 ==> bases[j] == bases[1..][j - 1];
        }
      } else {
        forall j | 0 <= j < |bases| ensures dir.ByBase(bases[j]).None? {
          assert j > 0 ==> bases[j] == bases[1..][j - 1];
        }
      }
    }
  }

  /** The first word and the last word of a text whose words are parted by single spaces. */
  ghost predicate AreFirstAndLast(plain: string, first: string, last: string) {
    && ' ' !in first && ' ' !in last
    && (plain == first || first + " " <= plain)
    && (plain == last || (|last| < |plain| && plain[|plain| - |last| - 1..] == " " + last))
  }

  lemma {:induction false} FirstWordIs(s: string, word: string)
    requires ' ' !in word && (s == word || word + " " <= s)
    ensures FirstWord(s) == word
  {
    if word != "" {
      assert s[0] == word[0] && word[0] in word;
      assert forall c :: c in word[1..] ==> c in word;
      assert s == word ==> s[1..] == word[1..];
      if word + " " <= s {
        assert s[1..][..|word|] == s[..|word| + 1][1..] == (word + " ")[1..] == word[1..] + " ";
      }
      FirstWordIs(s[1..], word[1..]);
    } else if s != "" {
      assert s[0] == (word + " ")[0] == ' ';
    }
  }

  lemma {:induction false} LastWordIs(s: string, word: string)
    requires ' ' !in word && (s == word || (|word| < |s| && s[|s| - |word| - 1..] == " " + word))
    ensures LastWord(s) == word
  {
    if word != "" {
      var n, k := |s| - 1, |word| - 1;
      assert s[n] == word[k] && word[k] in word by {
        if s != word {
          assert s[|s| - |word| - 1..][|word|] == (" " + word)[|word|];
        }
      }
      assert forall c :: c in word[..k] ==> c in word;
      if s != word {
        assert s[..n][|s[..n]| - k - 1..] == s[|s| - |word| - 1..][..|word|] == (" " + word)[..|word|] == " " + word[..k];
      }
      LastWordIs(s[..n], word[..k]);
      assert word == word[..k] + [word[k]];
    } else if s != "" {
      assert s[|s| - 1..][0] == (" " + word)[0];
    }
  }

  /** A user whose Latin names are these. */
  ghost predicate IsCalled(dir: Accounts, first: string, last: string, u: User) {
    dir.latinLower(u.firstName) == dir.lower(first) && dir.latinLower(u.lastName) == dir.lower(last)
  }

  lemma {:induction false} NamedUserIsFirst(dir: Accounts, hits: seq<User>, first: string, last: string)
    ensures IsFirst(hits, (u: User) => dir.latinLower(u.firstName) == first && dir.latinLower(u.lastName) == last, dir.FirstNamed(hits, first, last))
  {
    var fits := (u: User) => dir.latinLower(u.firstName) == first && dir.latinLower(u.lastName) == last;
    if hits != [] {
      if fits(hits[0]) {
        assert dir.FirstNamed(hits, first, last) == Some(hits[0]);
      } else {
        NamedUserIsFirst(dir, hits[1..], first, last);
        assert IsFirst(hits[1..], fits, dir.FirstNamed(hits[1..], first, last));
        FirstOfRest(hits, fits, dir.FirstNamed(hits, first, last));
      }
    }
  }

  /** What a name comes to that only its full form can find: the first user of the search whose
      Latin first name is its first word and whose Latin last name is its last word. */
  lemma FullNameFindsTheFirstSoCalled(dir: Accounts, name: string, first: string, last: string)
    requires dir.exactSearch(name) == []
    requires dir.target == Linuxmuster || forall i :: 0 <= i < |dir.candidates(name)| ==> dir.ByBase(dir.candidates(name)[i]).None?
    requires dir.isSpaced(name) && AreFirstAndLast(dir.plain(name), first, last)
    requires dir.lower(first) != "" && dir.lower(last) != ""
    ensures var found := if dir.Classify(name).IsUser? then Some(dir.Classify(name).user) else None;
      IsFirst(dir.search(dir.plain(name)), (u: User) => IsCalled(dir, first, last, u), found)
  {
    FirstWordIs(dir.plain(name), first);
    LastWordIs(dir.plain(name), last);
    FirstCandidateWins(dir, dir.candidates(name));
    var hits, f, l := dir.search(dir.plain(name)), dir.lower(first), dir.lower(last);
    NamedUserIsFirst(dir, hits, f, l);
    var found := dir.FirstNamed(hits, f, l);
    assert dir.FindUser(name) == found;
    assert IsFirst(hits, (u: User) => IsCalled(dir, first, last, u), found) by {
      assert forall u :: IsCalled(dir, first, last, u) <==> dir.latinLower(u.firstName) == f && dir.latinLower(u.lastName) == l;
    }
  }

  /** A name without two words is not searched for in full. */
  lemma NoWordsNoFullName(dir: Accounts, name: string, first: string, last: string)
    requires dir.target == Linuxmuster && dir.exactSearch(name) == [] && AreFirstAndLast(dir.plain(name), first, last)
    requires dir.lower(first) == "" || dir.lower(last) == ""
    ensures !dir.Classify(name).IsUser?
  {
    FirstWordIs(dir.plain(name), first);
    LastWordIs(dir.plain(name), last);
  }

  /** This candidate, and none before it, finds a user. */
  ghost predicate IsFirstFoundAt(dir: Accounts, bases: seq<string>, i: nat)
    requires i < |bases|
  {
    dir.ByBase(bases[i]).Some? && forall j :: 0 <= j < i ==> dir.ByBase(bases[j]).None?
  }

  /** Otherwise: an exact hit goes first, then the candidates of the other targets; a name that
      finds no user is a group's exactly if some group found carries it. */
  lemma AnswerInOrder(dir: Accounts, name: string)
    ensures dir.exactSearch(name) != [] ==> dir.Classify(name) == IsUser(dir.exactSearch(name)[0])
    ensures dir.exactSearch(name) == [] && dir.target != Linuxmuster ==>
      forall i :: 0 <= i < |dir.candidates(name)| && IsFirstFoundAt(dir, dir.candidates(name), i) ==>
        dir.Classify(name) == IsUser(dir.ByBase(dir.candidates(name)[i]).value)
    ensures dir.exactSearch(name) == [] && !dir.isSpaced(name) && dir.target == Linuxmuster ==> !dir.Classify(name).IsUser?
    ensures !dir.Classify(name).IsUser? ==>
      (dir.Classify(name) == IsGroup <==> exists g :: g in dir.groupSearch(name) && g.name == name)
  {
    FirstCandidateWins(dir, dir.candidates(name));
    GroupFoundHasTheName(dir, dir.groupSearch(name), name);
    var bases := dir.candidates(name);
    if dir.exactSearch(name) == [] && dir.target != Linuxmuster {
      forall i | 0 <= i < |bases| && IsFirstFoundAt(dir, bases, i)
        ensures dir.FirstHit(bases) == dir.ByBase(bases[i])
      {
        FirstHitAt(dir, bases, i);
      }
    }
  }

  lemma {:induction false} FirstHitAt(dir: Accounts, bases: seq<string>, i: nat)
    requires i < |bases| && dir.ByBase(bases[i]).Some? && forall j :: 0 <= j < i ==> dir.ByBase(bases[j]).None?
    ensures dir.FirstHit(bases) == dir.ByBase(bases[i])
  {
    if i > 0 {
      assert bases[1..][i - 1] == bases[i];
      FirstHitAt(dir, bases[1..], i - 1);
    }
  }

  datatype Caches = Caches(users: map<string, User>, groups: map<string, Group>, notFound: set<string>) {
    /** A user found is entered twice: under the name asked for and under the user's own. */
    function Remember(name: string, u: User): Caches {
      this.(users := users[name := u][u.username := u])
    }

    /** Every entry is what the directory would answer. */
    ghost predicate Sound(dir: Accounts) {
      && (forall n :: n in users ==> dir.Classify(n) == IsUser(users[n]))
      && (forall n :: n in groups ==> dir.Classify(n) == IsGroup)
      && (forall n :: dir.MissKeyExact(n) in notFound ==> dir.Exact(n).None?)
      && (forall n :: dir.MissKeyBase(n) in notFound ==> dir.ByBase(n).None?)
    }
  }

  /** Where a call waits.  `Returned` is the end of `resolveLdapMember`; `Settled` the end of
      the member task around it. */
  datatype Pc =
    | NotStarted
    | ExactSearch
    | AskTarget(user: Option<User>)
    | Probe(bases: seq<string>, hit: Option<User>)
    | FullNameSearch
    | GroupSearch
    | Returned(kind: Kind)
    | Settled(kind: Kind)

  /** `resolveLdapMember` up to its first `await`. */
  function Begin(dir: Accounts, c: Caches, name: string): Pc {
    if name in c.users then Returned(IsUser(c.users[name]))
    else if name in c.groups then Returned(IsGroup)
    else if dir.MissKeyExact(name) in c.notFound then AskTarget(None)
    else ExactSearch
  }

  function Unchecked(dir: Accounts, c: Caches, bases: seq<string>): seq<string> {
    if bases == [] then []
    else
      (if dir.MissKeyBase(bases[0]) in c.notFound then [] else [bases[0]]) + Unchecked(dir, c, bases[1..])
  }

  function AfterCandidates(dir: Accounts, name: string): Pc {
    if dir.HasFullName(name) then FullNameSearch else GroupSearch
  }

  /** `resolveLdapMember` from the `await` it stands at to the next one. */
  function Continue(dir: Accounts, c: Caches, name: string, pc: Pc): (Caches, Pc)
    requires !pc.NotStarted? && !pc.Returned? && !pc.Settled?
  {
    match pc
    case ExactSearch =>
      (match dir.Exact(name)
       case Some(u) => (c.Remember(name, u), AskTarget(Some(u)))
       case None => (c.(notFound := c.notFound + {dir.MissKeyExact(name)}), AskTarget(None)))
    case AskTarget(Some(u)) => (c.Remember(name, u), Returned(IsUser(u)))
    case AskTarget(None) =>
      if dir.target != Linuxmuster && Unchecked(dir, c, dir.candidates(name)) != []
      then (c, Probe(Unchecked(dir, c, dir.candidates(name)), None))
      else (c, AfterCandidates(dir, name))
    case Probe(bases, hit) =>
      if bases != [] then
        (match dir.ByBase(bases[0])
         case Some(u) => (c, Probe(bases[1..], if hit.Some? then hit else Some(u)))
         case None => (c.(notFound := c.notFound + {dir.MissKeyBase(bases[0])}), Probe(bases[1..], hit)))
      else
        (match hit
         case Some(u) => (c.Remember(name, u), Returned(IsUser(u)))
         case None => (c, AfterCandidates(dir, name)))
    case FullNameSearch =>
      (match dir.SearchFullName(name)
       case Some(u) => (c.Remember(name, u), Returned(IsUser(u)))
       case None => (c, GroupSearch))
    case GroupSearch =>
      (match dir.FindGroup(dir.groupSearch(name), name)
       case Some(g) => (c.(groups := c.groups[name := g]), Returned(IsGroup))
       case None => (c, Returned(Missing)))
  }

  /** What a call knows while it waits. */
  ghost predicate PcOk(dir: Accounts, name: string, pc: Pc) {
    match pc
    case NotStarted => true
    case ExactSearch => true
    case AskTarget(Some(u)) => dir.FindUser(name) == Some(u)
    case AskTarget(None) => dir.Exact(name).None?
    case Probe(bases, hit) =>
      && dir.Exact(name).None? && dir.target != Linuxmuster
      && (if hit.Some? then hit else dir.FirstHit(bases)) == dir.ByCandidates(name)
    case FullNameSearch =>
      dir.Exact(name).None? && dir.ByCandidates(name).None? && dir.HasFullName(name)
    case GroupSearch => dir.FindUser(name).None?
    case Returned(kind) => kind == dir.Classify(name)
    case Settled(kind) => kind == dir.Classify(name)
  }

  lemma KeysAreApart(dir: Accounts, a: string, b: string)
    ensures dir.MissKeyExact(a) != dir.MissKeyBase(b)
    ensures dir.MissKeyExact(a) == dir.MissKeyExact(b) <==> dir.lower(a) == dir.lower(b)
    ensures dir.MissKeyBase(a) == dir.MissKeyBase(b) <==> dir.lower(a) == dir.lower(b)
  {
    assert dir.MissKeyExact(a)[0] == 'e' && dir.MissKeyBase(b)[0] == 'b';
    assert dir.MissKeyExact(a)[6..] == dir.lower(a) && dir.MissKeyExact(b)[6..] == dir.lower(b);
    assert dir.MissKeyBase(a)[5..] == dir.lower(a) && dir.MissKeyBase(b)[5..] == dir.lower(b);
  }

  lemma RememberSound(dir: Accounts, c: Caches, name: string, u: User)
    requires dir.Consistent() && c.Sound(dir) && dir.FindUser(name) == Some(u)
    ensures c.Remember(name, u).Sound(dir)
  {
    assert dir.FindUser(u.username) == Some(u);
  }

  lemma MissSound(dir: Accounts, c: Caches, key: string, name: string)
    requires dir.Consistent() && c.Sound(dir)
    requires (key == dir.MissKeyExact(name) && dir.Exact(name).None?) ||
             (key == dir.MissKeyBase(name) && dir.ByBase(name).None? && dir.target != Linuxmuster)
    ensures c.(notFound := c.notFound + {key}).Sound(dir)
  {
    forall n ensures dir.MissKeyExact(n) == key ==> dir.Exact(n).None? {
      KeysAreApart(dir, n, name);
    }
    forall n ensures dir.MissKeyBase(n) == key ==> dir.ByBase(n).None? {
      KeysAreApart(dir, n, name);
      KeysAreApart(dir, name, n);
    }
  }

  /** Skipping the candidates known to be missing does not change the first hit. */
  lemma {:induction false} UncheckedKeepsFirstHit(dir: Accounts, c: Caches, bases: seq<string>)
    requires c.Sound(dir)
    ensures dir.FirstHit(Unchecked(dir, c, bases)) == dir.FirstHit(bases)
  {
    if bases != [] {
      UncheckedKeepsFirstHit(dir, c, bases[1..]);
      var rest := Unchecked(dir, c, bases[1..]);
      if dir.MissKeyBase(bases[0]) in c.notFound {
        assert [] + rest == rest;
      } else {
        assert ([bases[0]] + rest)[1..] == rest;
      }
    }
  }

  lemma BeginOk(dir: Accounts, c: Caches, name: string)
    requires c.Sound(dir)
    ensures PcOk(dir, name, Begin(dir, c, name))
  {
  }

  /** Every stretch of every call writes only what the directory would answer and moves the
      call towards the answer of the reference definition. */
  lemma ContinueOk(dir: Accounts, c: Caches, name: string, pc: Pc)
    requires dir.Consistent() && c.Sound(dir) && PcOk(dir, name, pc)
    requires !pc.NotStarted? && !pc.Returned? && !pc.Settled?
    ensures var (c', pc') := Continue(dir, c, name, pc); c'.Sound(dir) && PcOk(dir, name, pc')
  {
    match pc
    case ExactSearch =>
      if dir.Exact(name).Some? {
        RememberSound(dir, c, name, dir.Exact(name).value);
      } else {
        MissSound(dir, c, dir.MissKeyExact(name), name);
      }
    case AskTarget(Some(u)) => RememberSound(dir, c, name, u);
    case AskTarget(None) => UncheckedKeepsFirstHit(dir, c, dir.candidates(name));
    case Probe(bases, hit) =>
      if bases != [] && dir.ByBase(bases[0]).None? {
        MissSound(dir, c, dir.MissKeyBase(bases[0]), bases[0]);
      } else if bases == [] && hit.Some? {
        RememberSound(dir, c, name, hit.value);
      }
    case FullNameSearch =>
      if dir.SearchFullName(name).Some? {
        RememberSound(dir, c, name, dir.SearchFullName(name).value);
      }
    case GroupSearch =>
  }

  /** One `resolveMembersToGroupMemberDto` over `names`, interleaved with itself. */
  datatype Members = Members(caches: Caches, pcs: seq<Pc>, members: seq<User>)

  /** One stretch of the task for `name`.  It starts with the two caches of users and the
      group cache, and only then calls `resolveLdapMember`; when that has returned, the task
      reads the user cache again. */
  function NextOf(dir: Accounts, usersByUsername: map<string, User>, c: Caches, name: string, pc: Pc): (Caches, Pc)
    requires !pc.Settled?
  {
    if pc.NotStarted? then
      if name in c.users then (c, Settled(IsUser(c.users[name])))
      else if name in usersByUsername then
        (c.(users := c.users[name := usersByUsername[name]]), Settled(IsUser(usersByUsername[name])))
      else if name in c.groups then (c, Settled(IsGroup))
      else (c, Begin(dir, c, name))
    else if pc.Returned? then
      if !pc.kind.IsUser? then (c, Settled(pc.kind))
      else (c, Settled(if name in c.users then IsUser(c.users[name]) else Missing))
    else Continue(dir, c, name, pc)
  }

  /** A task that settles on a user pushes it onto the shared result. */
  function StepMember(dir: Accounts, usersByUsername: map<string, User>, names: seq<string>, m: Members, i: nat): Members
    requires i < |names| == |m.pcs|
  {
    if m.pcs[i].Settled? then m
    else
      var (c, pc) := NextOf(dir, usersByUsername, m.caches, names[i], m.pcs[i]);
      Members(c, m.pcs[i := pc], m.members + (if pc.Settled? && pc.kind.IsUser? then [pc.kind.user] else []))
  }

  /** Either a task of this batch moves, or other batches that run meanwhile have changed the
      caches.  They may do what `NextOk` shows a task does: add entries that are true. */
  datatype Event = Task(i: nat) | Others(caches: Caches)

  ghost predicate Enabled(dir: Accounts, m: Members, e: Event) {
    match e
    case Task(i) => i < |m.pcs|
    case Others(c) => c.Sound(dir) && m.caches.users.Keys <= c.users.Keys
  }

  function Happen(dir: Accounts, known: map<string, User>, names: seq<string>, m: Members, e: Event): Members
    requires |m.pcs| == |names| && (e.Task? ==> e.i < |m.pcs|)
  {
    match e
    case Task(i) => StepMember(dir, known, names, m, i)
    case Others(c) => m.(caches := c)
  }

  ghost predicate MembersRun(dir: Accounts, known: map<string, User>, names: seq<string>, m: Members, events: seq<Event>, f: Members)
    requires |m.pcs| == |names|
    decreases |events|
  {
    if events == [] then f == m
    else
      Enabled(dir, m, events[0]) &&
      MembersRun(dir, known, names, Happen(dir, known, names, m, events[0]), events[1..], f)
  }

  function StartMembers(c: Caches, names: seq<string>): (m: Members)
    ensures |m.pcs| == |names|
  {
    Members(c, seq(|names|, _ => NotStarted), [])
  }

  /** The users among the names, each resolved afresh and in the order of the names. */
  function FreshUsers(dir: Accounts, names: seq<string>): seq<User> {
    if names == [] then []
    else
      (if dir.FindUser(names[0]).Some? then [dir.FindUser(names[0]).value] else []) + FreshUsers(dir, names[1..])
  }

  function SettledUsers(pcs: seq<Pc>): seq<User> {
    if pcs == [] then []
    else
      (if pcs[0].Settled? && pcs[0].kind.IsUser? then [pcs[0].kind.user] else []) + SettledUsers(pcs[1..])
  }

  /** `usersByUsername` comes from the user cache of the same directory. */
  ghost predicate Known(dir: Accounts, known: map<string, User>) {
    forall n :: n in known ==> dir.Classify(n) == IsUser(known[n])
  }

  ghost predicate MembersInv(dir: Accounts, names: seq<string>, m: Members) {
    && |m.pcs| == |names|
    && m.caches.Sound(dir)
    && (forall i :: 0 <= i < |names| ==> PcOk(dir, names[i], m.pcs[i]))
    && (forall i :: 0 <= i < |names| && m.pcs[i].Returned? && m.pcs[i].kind.IsUser? ==> names[i] in m.caches.users)
    && multiset(m.members) == multiset(SettledUsers(m.pcs))
  }

  lemma {:induction false} SettleOne(pcs: seq<Pc>, i: nat, pc: Pc)
    requires i < |pcs| && !pcs[i].Settled?
    ensures multiset(SettledUsers(pcs[i := pc])) == multiset(SettledUsers(pcs)) +
      (if pc.Settled? && pc.kind.IsUser? then multiset{pc.kind.user} else multiset{})
  {
    if i > 0 {
      SettleOne(pcs[1..], i - 1, pc);
      assert pcs[i := pc][1..] == pcs[1..][i - 1 := pc];
    } else {
      assert pcs[i := pc][1..] == pcs[1..];
    }
  }

  lemma CachesGrow(dir: Accounts, c: Caches, name: string, pc: Pc)
    requires !pc.NotStarted? && !pc.Returned? && !pc.Settled?
    ensures var (c', pc') := Continue(dir, c, name, pc);
      c.users.Keys <= c'.users.Keys && (pc'.Returned? && pc'.kind.IsUser? ==> name in c'.users)
  {
  }

  lemma NextOk(dir: Accounts, known: map<string, User>, c: Caches, name: string, pc: Pc)
    requires dir.Consistent() && Known(dir, known) && c.Sound(dir) && PcOk(dir, name, pc) && !pc.Settled?
    requires pc.Returned? && pc.kind.IsUser? ==> name in c.users
    ensures var (c', pc') := NextOf(dir, known, c, name, pc);
      && c'.Sound(dir) && c.users.Keys <= c'.users.Keys && PcOk(dir, name, pc')
      && (pc'.Returned? && pc'.kind.IsUser? ==> name in c'.users)
  {
    if pc.NotStarted? {
      BeginOk(dir, c, name);
    } else if !pc.Returned? {
      ContinueOk(dir, c, name, pc);
      CachesGrow(dir, c, name, pc);
    }
  }

  lemma StepMemberInv(dir: Accounts, known: map<string, User>, names: seq<string>, m: Members, i: nat)
    requires dir.Consistent() && Known(dir, known) && MembersInv(dir, names, m) && i < |names|
    ensures MembersInv(dir, names, StepMember(dir, known, names, m, i))
  {
    if !m.pcs[i].Settled? {
      NextOk(dir, known, m.caches, names[i], m.pcs[i]);
      var (c, pc) := NextOf(dir, known, m.caches, names[i], m.pcs[i]);
      MemberMoved(dir, names, m, i, c, pc);
    }
  }

  lemma MemberMoved(dir: Accounts, names: seq<string>, m: Members, i: nat, c: Caches, pc: Pc)
    requires MembersInv(dir, names, m) && i < |names| && !m.pcs[i].Settled?
    requires c.Sound(dir) && m.caches.users.Keys <= c.users.Keys && PcOk(dir, names[i], pc)
    requires pc.Returned? && pc.kind.IsUser? ==> names[i] in c.users
    ensures MembersInv(dir, names,
      Members(c, m.pcs[i := pc], m.members + (if pc.Settled? && pc.kind.IsUser? then [pc.kind.user] else [])))
  {
    hide PcOk, SettledUsers;
    SettleOne(m.pcs, i, pc);
  }

  lemma {:induction false} MembersRunInv(dir: Accounts, known: map<string, User>, names: seq<string>, m: Members, events: seq<Event>, f: Members)
    requires dir.Consistent() && Known(dir, known) && MembersInv(dir, names, m)
    requires MembersRun(dir, known, names, m, events, f)
    ensures MembersInv(dir, names, f)
    decreases |events|
  {
    if events != [] {
      if events[0].Task? {
        StepMemberInv(dir, known, names, m, events[0].i);
      }
      MembersRunInv(dir, known, names, Happen(dir, known, names, m, events[0]), events[1..], f);
    }
  }

  lemma {:induction false} AllSettled(dir: Accounts, names: seq<string>, pcs: seq<Pc>)
    requires |pcs| == |names|
    requires forall i :: 0 <= i < |names| ==> pcs[i].Settled? && pcs[i].kind == dir.Classify(names[i])
    ensures SettledUsers(pcs) == FreshUsers(dir, names)
  {
    if names != [] {
      AllSettled(dir, names[1..], pcs[1..]);
    }
  }

  lemma {:induction false} NoneSettled(n: nat)
    ensures SettledUsers(seq(n, _ => NotStarted)) == []
  {
    if n > 0 {
      NoneSettled(n - 1);
      assert seq(n, _ => NotStarted)[1..] == seq(n - 1, _ => NotStarted);
    }
  }

  lemma StartMembersInv(dir: Accounts, c: Caches, names: seq<string>)
    requires c.Sound(dir)
    ensures MembersInv(dir, names, StartMembers(c, names))
  {
    NoneSettled(|names|);
  }

  /** Whatever sound caches a batch starts from, however its tasks interleave and whatever
      other batches add to the caches meanwhile, it returns
      as a multiset the users that resolving each name with empty caches gives, and it
      leaves sound caches for the next batch. */
  lemma ResolveMembersIsFresh(dir: Accounts, known: map<string, User>, c: Caches, names: seq<string>, events: seq<Event>, f: Members)
    requires dir.Consistent() && Known(dir, known) && c.Sound(dir)
    requires MembersRun(dir, known, names, StartMembers(c, names), events, f)
    requires forall i :: 0 <= i < |f.pcs| ==> f.pcs[i].Settled?
    ensures multiset(f.members) == multiset(FreshUsers(dir, names))
    ensures f.caches.Sound(dir)
  {
    StartMembersInv(dir, c, names);
    MembersRunInv(dir, known, names, StartMembers(c, names), events, f);
    AllSettled(dir, names, f.pcs);
  }

  /** One undisturbed call. */
  function Resolve(dir: Accounts, c: Caches, name: string, pc: Pc, fuel: nat): (Caches, Pc)
    requires !pc.NotStarted?
    decreases fuel
  {
    if fuel == 0 || pc.Returned? || pc.Settled? then (c, pc)
    else
      var (c', pc') := Continue(dir, c, name, pc);
      Resolve(dir, c', name, pc', fuel - 1)
  }

  /** How many stretches a call still has before it. */
  function Distance(dir: Accounts, name: string, pc: Pc): nat {
    match pc
    case NotStarted => 0
    case ExactSearch => |dir.candidates(name)| + 5
    case AskTarget(_) => |dir.candidates(name)| + 4
    case Probe(bases, _) => |bases| + 3
    case FullNameSearch => 2
    case GroupSearch => 1
    case Returned(_) => 0
    case Settled(_) => 0
  }

  lemma {:induction false} UncheckedIsNoLonger(dir: Accounts, c: Caches, bases: seq<string>)
    ensures |Unchecked(dir, c, bases)| <= |bases|
  {
    if bases != [] {
      UncheckedIsNoLonger(dir, c, bases[1..]);
    }
  }

  /** Every call ends: whatever other calls do to the caches in between, each of its
      stretches brings it nearer to its return. */
  lemma EveryStretchGetsNearer(dir: Accounts, c: Caches, name: string, pc: Pc)
    requires !pc.NotStarted? && !pc.Returned? && !pc.Settled?
    ensures Distance(dir, name, Continue(dir, c, name, pc).1) < Distance(dir, name, pc)
  {
    UncheckedIsNoLonger(dir, c, dir.candidates(name));
  }

  /** How many stretches a member task still has before it. */
  function TaskDistance(dir: Accounts, name: string, pc: Pc): nat {
    match pc
    case NotStarted => |dir.candidates(name)| + 7
    case Settled(_) => 0
    case _ => Distance(dir, name, pc) + 1
  }

  function Remaining(dir: Accounts, names: seq<string>, pcs: seq<Pc>): nat
    requires |pcs| == |names|
  {
    if pcs == [] then 0 else TaskDistance(dir, names[0], pcs[0]) + Remaining(dir, names[1..], pcs[1..])
  }

  lemma {:induction false} RemainingUpdate(dir: Accounts, names: seq<string>, pcs: seq<Pc>, i: nat, pc: Pc)
    requires i < |pcs| == |names|
    ensures Remaining(dir, names, pcs[i := pc]) ==
      Remaining(dir, names, pcs) - TaskDistance(dir, names[i], pcs[i]) + TaskDistance(dir, names[i], pc)
  {
    if i > 0 {
      assert pcs[i := pc][1..] == pcs[1..][i - 1 := pc];
      RemainingUpdate(dir, names[1..], pcs[1..], i - 1, pc);
    } else {
      assert pcs[i := pc][1..] == pcs[1..];
    }
  }

  lemma TaskGetsNearer(dir: Accounts, known: map<string, User>, c: Caches, name: string, pc: Pc)
    requires !pc.Settled?
    ensures TaskDistance(dir, name, NextOf(dir, known, c, name, pc).1) < TaskDistance(dir, name, pc)
  {
    if !pc.NotStarted? && !pc.Returned? {
      EveryStretchGetsNearer(dir, c, name, pc);
    }
  }

  /** Every batch can be brought to its end. */
  lemma {:induction false} EveryBatchCanFinish(dir: Accounts, known: map<string, User>, names: seq<string>, m: Members)
    returns (events: seq<Event>, f: Members)
    requires |m.pcs| == |names|
    ensures MembersRun(dir, known, names, m, events, f)
    ensures |f.pcs| == |names| && forall i :: 0 <= i < |f.pcs| ==> f.pcs[i].Settled?
    decreases Remaining(dir, names, m.pcs)
  {
    if forall i :: 0 <= i < |m.pcs| ==> m.pcs[i].Settled? {
      events, f := [], m;
    } else {
      var i :| 0 <= i < |m.pcs| && !m.pcs[i].Settled?;
      var t := StepMember(dir, known, names, m, i);
      TaskGetsNearer(dir, known, m.caches, names[i], m.pcs[i]);
      RemainingUpdate(dir, names, m.pcs, i, t.pcs[i]);
      assert t.pcs == m.pcs[i := t.pcs[i]];
      events, f := EveryBatchCanFinish(dir, known, names, t);
      assert ([Task(i)] + events)[1..] == events;
      events := [Task(i)] + events;
    }
  }

  /** ---- exactly when the caches are right ---- */

  const EMPTY := Caches(map[], map[], {})

  /** An undisturbed call for `name`; a call has no more stretches than this. */
  function Ask(dir: Accounts, c: Caches, name: string): (Caches, Pc) {
    Resolve(dir, c, name, Begin(dir, c, name), |dir.candidates(name)| + 5)
  }

  /** Resolving `a` and then `b`, from empty caches, gives what each gives alone. */
  predicate PairIsRight(dir: Accounts, a: string, b: string) {
    Ask(dir, EMPTY, a).1 == Returned(dir.Classify(a)) &&
    Ask(dir, Ask(dir, EMPTY, a).0, b).1 == Returned(dir.Classify(b))
  }

  /** What a call finds when these keys are known to be missing and no cache has the name. */
  function FindKnowing(dir: Accounts, notFound: set<string>, name: string): Option<User> {
    var bases := if dir.target == Linuxmuster then [] else Unchecked(dir, Caches(map[], map[], notFound), dir.candidates(name));
    if dir.MissKeyExact(name) !in notFound && dir.Exact(name).Some? then dir.Exact(name)
    else if dir.FirstHit(bases).Some? then dir.FirstHit(bases)
    else if dir.HasFullName(name) then dir.SearchFullName(name)
    else None
  }

  function KindOf(dir: Accounts, found: Option<User>, name: string): Kind {
    if found.Some? then IsUser(found.value)
    else if dir.FindGroup(dir.groupSearch(name), name).Some? then IsGroup
    else Missing
  }

  function MissedBases(dir: Accounts, bases: seq<string>): set<string> {
    set k | k in bases && dir.ByBase(k).None? :: dir.MissKeyBase(k)
  }

  /** The negative keys that a call for `name` leaves behind. */
  function MissesOf(dir: Accounts, name: string): set<string> {
    if dir.Exact(name).Some? then {}
    else {dir.MissKeyExact(name)} + (if dir.target == Linuxmuster then {} else MissedBases(dir, dir.candidates(name)))
  }

  lemma {:induction false} ProbesEnd(dir: Accounts, c: Caches, name: string, bases: seq<string>, hit: Option<User>, fuel: nat)
    requires fuel >= |bases|
    ensures Resolve(dir, c, name, Probe(bases, hit), fuel) ==
      Resolve(dir, c.(notFound := c.notFound + MissedBases(dir, bases)), name,
              Probe([], if hit.Some? then hit else dir.FirstHit(bases)), fuel - |bases|)
    decreases |bases|
  {
    if bases == [] {
      assert c.notFound + MissedBases(dir, bases) == c.notFound;
    } else {
      ResolveUnfolds(dir, c, name, Probe(bases, hit), fuel);
      var (c1, pc1) := Continue(dir, c, name, Probe(bases, hit));
      ProbesEnd(dir, c1, name, bases[1..], pc1.hit, fuel - 1);
      assert c1.notFound + MissedBases(dir, bases[1..]) == c.notFound + MissedBases(dir, bases) by {
        assert forall k :: k in bases <==> k == bases[0] || k in bases[1..];
      }
    }
  }

  /** A call that has no user yet, from the full name on. */
  lemma LastSearches(dir: Accounts, c: Caches, name: string, fuel: nat)
    requires fuel >= 2
    ensures var (c', pc) := Resolve(dir, c, name, AfterCandidates(dir, name), fuel);
      var found := if dir.HasFullName(name) then dir.SearchFullName(name) else None;
      && pc == Returned(KindOf(dir, found, name))
      && c'.notFound == c.notFound && c'.groups.Keys <= c.groups.Keys + {name}
      && c'.users == if found.Some? then c.users[name := found.value][found.value.username := found.value] else c.users
  {
    var pc0 := AfterCandidates(dir, name);
    ResolveUnfolds(dir, c, name, pc0, fuel);
    if pc0.FullNameSearch? && dir.SearchFullName(name).None? {
      ResolveUnfolds(dir, c, name, GroupSearch, fuel - 1);
    }
  }

  /** A call that has found this user, or nobody, and entered it. */
  ghost predicate HasFound(dir: Accounts, c: Caches, name: string, found: Option<User>, c': Caches, pc: Pc) {
    && pc == Returned(KindOf(dir, found, name))
    && c'.groups.Keys <= c.groups.Keys + {name}
    && c'.users == if found.Some? then c.users[name := found.value][found.value.username := found.value] else c.users
  }

  /** A call whose candidates are probed. */
  lemma AfterProbing(dir: Accounts, c: Caches, name: string, hit: Option<User>, fuel: nat)
    requires fuel >= 3
    ensures var (c', pc) := Resolve(dir, c, name, Probe([], hit), fuel);
      var found := if hit.Some? then hit else if dir.HasFullName(name) then dir.SearchFullName(name) else None;
      HasFound(dir, c, name, found, c', pc) && c'.notFound == c.notFound
  {
    ResolveUnfolds(dir, c, name, Probe([], hit), fuel);
    if hit.None? {
      LastSearches(dir, c, name, fuel - 1);
    }
  }

  /** What an undisturbed call comes to when no cache has its name. */
  ghost predicate CallMeans(dir: Accounts, c: Caches, name: string, c': Caches, pc: Pc) {
    HasFound(dir, c, name, FindKnowing(dir, c.notFound, name), c', pc)
  }

  lemma {:induction false} SameUnchecked(dir: Accounts, c: Caches, d: Caches, bases: seq<string>)
    requires forall k :: k in bases ==> (dir.MissKeyBase(k) in c.notFound <==> dir.MissKeyBase(k) in d.notFound)
    ensures Unchecked(dir, c, bases) == Unchecked(dir, d, bases)
  {
    if bases != [] {
      SameUnchecked(dir, c, d, bases[1..]);
    }
  }

  /** From the question for the target on. */
  lemma WithoutExact(dir: Accounts, c: Caches, name: string, fuel: nat)
    requires fuel >= |dir.candidates(name)| + 4
    requires dir.MissKeyExact(name) in c.notFound || dir.Exact(name).None?
    ensures var (c', pc) := Resolve(dir, c, name, AskTarget(None), fuel);
      var bases := if dir.target == Linuxmuster then [] else Unchecked(dir, c, dir.candidates(name));
      CallMeans(dir, c, name, c', pc) && c'.notFound == c.notFound + MissedBases(dir, bases)
  {
    hide Resolve;
    var bases := if dir.target == Linuxmuster then [] else Unchecked(dir, c, dir.candidates(name));
    FoundWithoutExact(dir, c, name);
    UncheckedIsNoLonger(dir, c, dir.candidates(name));
    ResolveUnfolds(dir, c, name, AskTarget(None), fuel);
    hide FindKnowing, Unchecked, KindOf;
    if bases == [] {
      NoBases(dir, c);
      LastSearches(dir, c, name, fuel - 1);
    } else {
      ProbesEnd(dir, c, name, bases, None, fuel - 1);
      AfterProbing(dir, c.(notFound := c.notFound + MissedBases(dir, bases)), name, dir.FirstHit(bases), fuel - 1 - |bases|);
    }
  }

  lemma NoBases(dir: Accounts, c: Caches)
    ensures c.notFound + MissedBases(dir, []) == c.notFound
  {
  }

  lemma FoundWithoutExact(dir: Accounts, c: Caches, name: string)
    requires dir.MissKeyExact(name) in c.notFound || dir.Exact(name).None?
    ensures var bases := if dir.target == Linuxmuster then [] else Unchecked(dir, c, dir.candidates(name));
      FindKnowing(dir, c.notFound, name) ==
      if dir.FirstHit(bases).Some? then dir.FirstHit(bases) else if dir.HasFullName(name) then dir.SearchFullName(name) else None
  {
    SameUnchecked(dir, c, Caches(map[], map[], c.notFound), dir.candidates(name));
  }

  lemma FreshCall(dir: Accounts, c: Caches, name: string)
    requires name !in c.users && name !in c.groups
    ensures CallMeans(dir, c, name, Ask(dir, c, name).0, Ask(dir, c, name).1)
    ensures c.notFound == {} ==> Ask(dir, c, name).0.notFound == MissesOf(dir, name)
  {
    var fuel := |dir.candidates(name)| + 5;
    if dir.MissKeyExact(name) in c.notFound {
      WithoutExact(dir, c, name, fuel);
    } else {
      ResolveUnfolds(dir, c, name, ExactSearch, fuel);
      if dir.Exact(name).None? {
        FreshMiss(dir, c, name);
      } else {
        var u := dir.Exact(name).value;
        ResolveUnfolds(dir, c.Remember(name, u), name, AskTarget(Some(u)), fuel - 1);
      }
    }
  }

  lemma FreshMiss(dir: Accounts, c: Caches, name: string)
    requires dir.MissKeyExact(name) !in c.notFound && dir.Exact(name).None?
    ensures var c1 := c.(notFound := c.notFound + {dir.MissKeyExact(name)});
      var (c', pc) := Resolve(dir, c1, name, AskTarget(None), |dir.candidates(name)| + 4);
      CallMeans(dir, c, name, c', pc) && (c.notFound == {} ==> c'.notFound == MissesOf(dir, name))
  {
    var c1 := c.(notFound := c.notFound + {dir.MissKeyExact(name)});
    WithoutExact(dir, c1, name, |dir.candidates(name)| + 4);
    forall k ensures dir.MissKeyBase(k) in c1.notFound <==> dir.MissKeyBase(k) in c.notFound {
      KeysAreApart(dir, name, k);
    }
    SameUnchecked(dir, c, c1, dir.candidates(name));
    var d, d1 := Caches(map[], map[], c.notFound), Caches(map[], map[], c1.notFound);
    SameUnchecked(dir, d, d1, dir.candidates(name));
    if c.notFound == {} {
      AllUnchecked(dir, c, dir.candidates(name));
    }
  }

  lemma {:induction false} AllUnchecked(dir: Accounts, c: Caches, bases: seq<string>)
    requires c.notFound == {}
    ensures Unchecked(dir, c, bases) == bases
  {
    if bases != [] {
      AllUnchecked(dir, c, bases[1..]);
    }
  }

  lemma FirstCall(dir: Accounts, a: string)
    ensures var (c, pc) := Ask(dir, EMPTY, a);
      && pc == Returned(dir.Classify(a)) && c.notFound == MissesOf(dir, a) && c.groups.Keys <= {a}
      && c.users == if dir.FindUser(a).Some? then map[a := dir.FindUser(a).value][dir.FindUser(a).value.username := dir.FindUser(a).value] else map[]
  {
    FreshCall(dir, EMPTY, a);
    AllUnchecked(dir, Caches(map[], map[], {}), dir.candidates(a));
  }

  lemma {:induction false} MissedAreNoHits(dir: Accounts, notFound: set<string>, bases: seq<string>)
    requires dir.FirstHit(bases).None?
    ensures dir.FirstHit(Unchecked(dir, Caches(map[], map[], notFound), bases)).None?
  {
    if bases != [] {
      MissedAreNoHits(dir, notFound, bases[1..]);
      var rest := Unchecked(dir, Caches(map[], map[], notFound), bases[1..]);
      assert ([bases[0]] + rest)[1..] == rest && [] + rest == rest;
    }
  }

  /** Two calls, for all targets and names: the second is right exactly if the name of the user
      that the first has found finds that user, or, for a name that the first has not entered,
      the search that leaves out what the first has missed finds the same. */
  ghost predicate SecondIsRight(dir: Accounts, a: string, b: string) {
    var found := dir.FindUser(a);
    if found.Some? && b == found.value.username then dir.FindUser(b) == found
    else a == b || FindKnowing(dir, MissesOf(dir, a), b) == dir.FindUser(b)
  }

  lemma PairIsRightIff(dir: Accounts, a: string, b: string)
    ensures PairIsRight(dir, a, b) <==> SecondIsRight(dir, a, b)
  {
    hide FindKnowing, MissesOf, Ask;
    FirstCall(dir, a);
    var c := Ask(dir, EMPTY, a).0;
    if b in c.users || b in c.groups {
      CachedCall(dir, c, b);
      if b !in c.users {
        GroupIsRight(dir, a);
      }
    } else {
      FreshCall(dir, c, b);
      if a == b {
        MissAgain(dir, a);
      }
    }
  }

  lemma CachedCall(dir: Accounts, c: Caches, name: string)
    requires name in c.users || name in c.groups
    ensures Ask(dir, c, name).1 == Returned(if name in c.users then IsUser(c.users[name]) else IsGroup)
  {
  }

  /** Only a group's own name enters the group cache. */
  lemma GroupIsRight(dir: Accounts, a: string)
    requires a in Ask(dir, EMPTY, a).0.groups
    ensures dir.FindUser(a).None? ==> dir.Classify(a) == IsGroup
  {
    GroupsOnlyOfGroups(dir, EMPTY, a, Begin(dir, EMPTY, a), |dir.candidates(a)| + 5);
    FirstCall(dir, a);
  }

  lemma {:induction false} GroupsOnlyOfGroups(dir: Accounts, c: Caches, name: string, pc: Pc, fuel: nat)
    requires !pc.NotStarted? && name !in c.groups
    ensures var (c', pc') := Resolve(dir, c, name, pc, fuel); name in c'.groups ==> pc' == Returned(IsGroup)
    decreases fuel
  {
    if fuel > 0 && !pc.Returned? && !pc.Settled? {
      var (c1, pc1) := Continue(dir, c, name, pc);
      if name !in c1.groups {
        GroupsOnlyOfGroups(dir, c1, name, pc1, fuel - 1);
      }
    }
  }

  lemma MissAgain(dir: Accounts, a: string)
    requires dir.FindUser(a).None?
    ensures FindKnowing(dir, MissesOf(dir, a), a).None?
  {
    if dir.target != Linuxmuster {
      MissedAreNoHits(dir, MissesOf(dir, a), dir.candidates(a));
    }
  }

  /** A user found carries a name that finds that user. */
  ghost predicate UserNamesFindThem(dir: Accounts) {
    forall a :: dir.FindUser(a).Some? ==> dir.FindUser(dir.FindUser(a).value.username) == dir.FindUser(a)
  }

  /** A name that finds nobody exactly leaves only such names of other letter case unfound whose
      user the search for the full name finds as well, or that the user found carries. */
  ghost predicate MissesAreHarmless(dir: Accounts) {
    forall a, b :: dir.lower(a) == dir.lower(b) && dir.Exact(a).None? && dir.Exact(b).Some? ==>
      || (dir.HasFullName(b) && dir.SearchFullName(b) == dir.Exact(b))
      || (dir.FindUser(a).Some? && dir.FindUser(a).value.username == b)
  }

  /** For the linuxmuster target and all names: every call after another one is right exactly
      when a found user's name finds that user and misses are harmless. */
  lemma PairsAreRightIff(dir: Accounts)
    requires dir.target == Linuxmuster
    ensures (forall a, b :: PairIsRight(dir, a, b)) <==> UserNamesFindThem(dir) && MissesAreHarmless(dir)
  {
    hide PairIsRight;
    forall a, b ensures PairIsRight(dir, a, b) <==> SecondIsRight(dir, a, b) {
      PairIsRightIff(dir, a, b);
    }
    forall a, b
      ensures FindKnowing(dir, MissesOf(dir, a), b) == dir.FindUser(b) <==>
        !(dir.lower(a) == dir.lower(b) && dir.Exact(a).None? && dir.Exact(b).Some?) ||
        (dir.HasFullName(b) && dir.SearchFullName(b) == dir.Exact(b))
    {
      KeysAreApart(dir, a, b);
    }
    RightIffHarmless(dir);
  }

  lemma RightIffHarmless(dir: Accounts)
    requires forall a, b :: FindKnowing(dir, MissesOf(dir, a), b) == dir.FindUser(b) <==>
      !(dir.lower(a) == dir.lower(b) && dir.Exact(a).None? && dir.Exact(b).Some?) ||
      (dir.HasFullName(b) && dir.SearchFullName(b) == dir.Exact(b))
    ensures (forall a, b :: SecondIsRight(dir, a, b)) <==> UserNamesFindThem(dir) && MissesAreHarmless(dir)
  {
    hide FindKnowing, MissesOf;
    if forall a, b :: SecondIsRight(dir, a, b) {
      forall a | dir.FindUser(a).Some? ensures dir.FindUser(dir.FindUser(a).value.username) == dir.FindUser(a) {
        assert SecondIsRight(dir, a, dir.FindUser(a).value.username);
      }
      forall a, b | dir.lower(a) == dir.lower(b) && dir.Exact(a).None? && dir.Exact(b).Some?
        ensures || (dir.HasFullName(b) && dir.SearchFullName(b) == dir.Exact(b))
                || (dir.FindUser(a).Some? && dir.FindUser(a).value.username == b)
      {
        assert SecondIsRight(dir, a, b);
      }
    }
  }

  /** A miss in one letter case hides the user that another letter case finds, unless the
      other searches find somebody. */
  lemma MissInOtherCaseHidesUser(dir: Accounts, a: string, b: string)
    requires dir.lower(a) == dir.lower(b) && dir.FindUser(a).None? && dir.Exact(b).Some?
    requires dir.ByCandidates(b).None? && !dir.HasFullName(b)
    ensures dir.Classify(b) == IsUser(dir.Exact(b).value)
    ensures Ask(dir, Ask(dir, EMPTY, a).0, b).1 in {Returned(IsGroup), Returned(Missing)}
  {
    hide Ask;
    FirstCall(dir, a);
    KeysAreApart(dir, a, b);
    if dir.target != Linuxmuster {
      MissedAreNoHits(dir, MissesOf(dir, a), dir.candidates(b));
    }
    FreshCall(dir, Ask(dir, EMPTY, a).0, b);
  }

  /** Case matters to this directory: only the lower-case name is found. */
  function CaseSensitive(): Accounts {
    Accounts(Linuxmuster, n => if n == "ada" then [User("1", "ada", "", "", "")] else [],
             _ => [], _ => [], _ => [], (_, _) => false, n => if n == "ADA" then "ada" else n,
             _ => false, n => n, n => n)
  }

  lemma ResolveUnfolds(dir: Accounts, c: Caches, name: string, pc: Pc, fuel: nat)
    requires fuel > 0 && !pc.NotStarted? && !pc.Returned? && !pc.Settled?
    ensures var (c', pc') := Continue(dir, c, name, pc);
      Resolve(dir, c, name, pc, fuel) == Resolve(dir, c', name, pc', fuel - 1)
  {
  }

  /** Without the assumption on letter case the shared negative keys give a wrong answer:
      after "ADA" has been looked for in vain, the existing user "ada" is missing. */
  lemma CaseSensitiveDirectoryIsMisread(c0: Caches, c1: Caches)
    requires c0 == Caches(map[], map[], {})
    requires c1 == Resolve(CaseSensitive(), c0, "ADA", Begin(CaseSensitive(), c0, "ADA"), 5).0
    ensures var dir := CaseSensitive();
      && Resolve(dir, c0, "ADA", Begin(dir, c0, "ADA"), 5).1 == Returned(Missing)
      && Resolve(dir, c1, "ada", Begin(dir, c1, "ada"), 5).1 == Returned(Missing)
      && dir.Classify("ADA") == Missing && dir.Classify("ada").IsUser?
  {
    var dir := CaseSensitive();
    assert "ADA"[0] == 'A' && "ada"[0] == 'a';
    ResolveUnfolds(dir, c0, "ADA", ExactSearch, 5);
    var c := c0.(notFound := c0.notFound + {dir.MissKeyExact("ADA")});
    ResolveUnfolds(dir, c, "ADA", AskTarget(None), 4);
    ResolveUnfolds(dir, c, "ADA", GroupSearch, 3);
    assert c1 == c;
    assert dir.MissKeyExact("ADA") == dir.MissKeyExact("ada");
    ResolveUnfolds(dir, c, "ada", AskTarget(None), 5);
    ResolveUnfolds(dir, c, "ada", GroupSearch, 4);
    assert dir.Exact("ada").Some?;
  }

  /** Whatever another call does to the caches meanwhile is among the events of a batch. */
  lemma OtherCallsAreEvents(dir: Accounts, m: Members, name: string, pc: Pc)
    requires dir.Consistent() && m.caches.Sound(dir) && PcOk(dir, name, pc)
    requires !pc.NotStarted? && !pc.Returned? && !pc.Settled?
    ensures Enabled(dir, m, Others(Continue(dir, m.caches, name, pc).0))
  {
    ContinueOk(dir, m.caches, name, pc);
    hide Caches.Sound, PcOk;
  }

  /** ---- what is not searched again ---- */

  lemma {:induction false} UncheckedMeans(dir: Accounts, c: Caches, bases: seq<string>, b: string)
    ensures b in Unchecked(dir, c, bases) <==> b in bases && dir.MissKeyBase(b) !in c.notFound
  {
    if bases != [] {
      UncheckedMeans(dir, c, bases[1..], b);
    }
  }

  /** A user or a group that a stretch returns is answered from the caches afterwards, a user also
      under the own username; a name not found exactly, or a candidate without a match, is not
      searched for in that way again, in whatever letter case. */
  lemma NothingIsSearchedTwice(dir: Accounts, c: Caches, name: string, pc: Pc, other: string)
    requires !pc.NotStarted? && !pc.Returned? && !pc.Settled?
    ensures var (c', next) := Continue(dir, c, name, pc);
      && (next.Returned? && next.kind.IsUser? ==> Begin(dir, c', name) == next && Begin(dir, c', next.kind.user.username) == next)
      && (next.Returned? && next.kind.IsGroup? ==> Begin(dir, c', name).Returned?)
      && (pc.ExactSearch? && dir.exactSearch(name) == [] && dir.lower(other) == dir.lower(name) ==> !Begin(dir, c', other).ExactSearch?)
      && (pc.Probe? && pc.bases != [] && dir.ByBase(pc.bases[0]).None? && dir.lower(other) == dir.lower(pc.bases[0]) ==>
           forall bases :: other !in Unchecked(dir, c', bases))
  {
    var (c', next) := Continue(dir, c, name, pc);
    if pc.Probe? && pc.bases != [] && dir.ByBase(pc.bases[0]).None? && dir.lower(other) == dir.lower(pc.bases[0]) {
      forall bases ensures other !in Unchecked(dir, c', bases) {
        UncheckedMeans(dir, c', bases, other);
      }
    }
  }

  /** A member whose name is that of a known user, or already cached, needs no search at all. */
  lemma KnownNamesNeedNoSearch(dir: Accounts, known: map<string, User>, names: seq<string>, m: Members, i: nat)
    requires i < |names| == |m.pcs| && m.pcs[i].NotStarted? && (names[i] in known || names[i] in m.caches.users)
    ensures var t := StepMember(dir, known, names, m, i);
      var user := if names[i] in m.caches.users then m.caches.users[names[i]] else known[names[i]];
      t.members == m.members + [user] && t.pcs == m.pcs[i := Settled(IsUser(user))] && t.caches.users == m.caches.users[names[i] := user]
  {
    if names[i] in m.caches.users {
      assert m.caches.users[names[i] := m.caches.users[names[i]]] == m.caches.users;
    }
  }

  /** The resolver's own state. */
  class Resolver {
    const dir: Accounts
    var userCache: map<string, User>
    var groupCache: map<string, Group>
    var notFoundUserKeys: set<string>

    ghost function St(): Caches
      reads this
    {
      Caches(userCache, groupCache, notFoundUserKeys)
    }

    constructor (dir: Accounts)
      ensures this.dir == dir && St() == Caches(map[], map[], {}) && St().Sound(dir)
    {
      this.dir := dir;
      userCache, groupCache, notFoundUserKeys := map[], map[], {};
    }

    /** What `sync` does to the caches before it expands any group. */
    method StartSync(groupsByName: map<string, Group>)
      modifies this
      ensures St() == Caches(old(userCache), groupsByName, {})
      ensures old(St()).Sound(dir) ==>
        (St().Sound(dir) <==> forall n :: n in groupsByName ==> dir.Classify(n) == IsGroup)
    {
      notFoundUserKeys := {};
      groupCache := groupsByName;
    }

    method BeginCall(name: string) returns (pc: Pc)
      ensures pc == Begin(dir, St(), name)
    {
      if name in userCache {
        return Returned(IsUser(userCache[name]));
      }
      if name in groupCache {
        return Returned(IsGroup);
      }
      if dir.MissKeyExact(name) in notFoundUserKeys {
        return AskTarget(None);
      }
      return ExactSearch;
    }

    method SetUser(name: string, user: User)
      modifies this`userCache
      ensures St() == old(St()).Remember(name, user)
    {
      userCache := userCache[name := user];
      userCache := userCache[user.username := user];
    }

    /** The stretch of one call after the `await` it stood at. */
    method ContinueCall(name: string, pc: Pc) returns (next: Pc)
      requires !pc.NotStarted? && !pc.Returned? && !pc.Settled?
      modifies this
      ensures (St(), next) == Continue(dir, old(St()), name, pc)
    {
      match pc {
        case ExactSearch =>
          var users := dir.exactSearch(name);
          if users != [] {
            SetUser(name, users[0]);
            next := AskTarget(Some(users[0]));
          } else {
            notFoundUserKeys := notFoundUserKeys + {dir.MissKeyExact(name)};
            next := AskTarget(None);
          }
        case AskTarget(Some(user)) =>
          SetUser(name, user);
          next := Returned(IsUser(user));
        case AskTarget(None) =>
          next := AfterCandidates(dir, name);
          if dir.target != Linuxmuster {
            var unchecked := Unchecked(dir, Caches(userCache, groupCache, notFoundUserKeys), dir.candidates(name));
            if unchecked != [] {
              next := Probe(unchecked, None);
            }
          }
        case Probe(bases, hit) =>
          if bases != [] {
            var found := dir.ByBase(bases[0]);
            if found.None? {
              notFoundUserKeys := notFoundUserKeys + {dir.MissKeyBase(bases[0])};
            }
            next := Probe(bases[1..], if hit.Some? then hit else found);
          } else if hit.Some? {
            SetUser(name, hit.value);
            next := Returned(IsUser(hit.value));
          } else {
            next := AfterCandidates(dir, name);
          }
        case FullNameSearch =>
          var user := dir.SearchFullName(name);
          if user.Some? {
            SetUser(name, user.value);
            next := Returned(IsUser(user.value));
          } else {
            next := GroupSearch;
          }
        case GroupSearch =>
          var found := dir.FindGroup(dir.groupSearch(name), name);
          if found.Some? {
            groupCache := groupCache[name := found.value];
            next := Returned(IsGroup);
          } else {
            next := Returned(Missing);
          }
      }
    }

    /** One stretch of a member task of `resolveMembersToGroupMemberDto`. */
    method MemberTask(usersByUsername: map<string, User>, name: string, pc: Pc) returns (next: Pc)
      requires !pc.Settled?
      modifies this
      ensures (St(), next) == NextOf(dir, usersByUsername, old(St()), name, pc)
    {
      if pc.NotStarted? {
        if name in userCache {
          return Settled(IsUser(userCache[name]));
        }
        if name in usersByUsername {
          userCache := userCache[name := usersByUsername[name]];
          return Settled(IsUser(usersByUsername[name]));
        }
        if name in groupCache {
          return Settled(IsGroup);
        }
        next := BeginCall(name);
      } else if pc.Returned? {
        if !pc.kind.IsUser? {
          return Settled(pc.kind);
        }
        return Settled(if name in userCache then IsUser(userCache[name]) else Missing);
      } else {
        next := ContinueCall(name, pc);
      }
    }
  }
}
