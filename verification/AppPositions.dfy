/** App configurations are kept in one order by their `position`.  Bulk writes shift ranges of
    positions in place; they implement moving, deleting and appending in a list. */
module AppPositions {
  import opened Types

  datatype Config = Config(position: int, accessGroups: set<string>)

  type Store = map<string, Config>

  /** `updateMany` with `$inc` on the positions from `lo` to `hi`; no bound where there is none. */
  function Shift(docs: Store, lo: Option<int>, hi: Option<int>, delta: int): Store {
    map n | n in docs :: if InRange(docs[n].position, lo, hi) then docs[n].(position := docs[n].position + delta) else docs[n]
  }

  predicate InRange(p: int, lo: Option<int>, hi: Option<int>) {
    (lo.Some? ==> lo.value <= p) && (hi.Some? ==> p <= hi.value)
  }

  /** The range shift of `updateConfig`: the apps between the two positions close up. */
  function MakeRoom(docs: Store, oldPosition: int, newPosition: int): Store {
    if oldPosition == newPosition then docs
    else if oldPosition < newPosition then Shift(docs, Some(oldPosition + 1), Some(newPosition), -1)
    else Shift(docs, Some(newPosition), Some(oldPosition - 1), 1)
  }

  /** `updateConfig`; an unknown app is inserted by the upsert, without any shift. */
  function UpdateConfig(docs: Store, name: string, c: Config): Store {
    (if name in docs then MakeRoom(docs, docs[name].position, c.position) else docs)[name := c]
  }

  /** `deleteConfig`; nothing is shifted for an unknown app. */
  function DeleteConfig(docs: Store, name: string): Store {
    if name in docs then Shift(docs - {name}, Some(docs[name].position + 1), None, -1) else docs
  }

  /** `insertConfig`: a taken name is refused, and a position of 0 counts as none. */
  function InsertConfig(docs: Store, name: string, c: Config): Store {
    if name in docs then docs
    else docs[name := if c.position == 0 then c.(position := |docs| + 1) else c]
  }

  /** ---- the list that the positions stand for ---- */

  /** `list` holds the apps in the order of their positions, which are 1 to n. */
  ghost predicate Ranks(docs: Store, list: seq<string>) {
    && |list| == |docs|
    && (forall i :: 0 <= i < |list| ==> HoldsAt(docs, list, i))
    && (forall n :: n in docs ==> IsListed(docs, list, n))
  }

  ghost predicate HoldsAt(docs: Store, list: seq<string>, i: nat) {
    i < |list| && list[i] in docs && docs[list[i]].position == i + 1
  }

  ghost predicate IsListed(docs: Store, list: seq<string>, n: string) {
    n in docs && 1 <= docs[n].position <= |list| && list[docs[n].position - 1] == n
  }

  ghost predicate Dense(docs: Store) {
    exists list :: Ranks(docs, list)
  }

  function Without(list: seq<string>, k: nat): seq<string>
    requires k < |list|
  {
    list[..k] + list[k + 1..]
  }

  /** Take out the element at `k` and put it back at index `j` of what remains. */
  function MoveTo(list: seq<string>, k: nat, j: nat): seq<string>
    requires k < |list| && j < |list|
  {
    Without(list, k)[..j] + [list[k]] + Without(list, k)[j..]
  }

  /** Where an element of the list goes. */
  function NewIndex(k: nat, j: nat, i: nat): nat {
    if i == k then j else if k < i <= j then i - 1 else if j <= i < k then i + 1 else i
  }

  lemma MoveToIndex(list: seq<string>, k: nat, j: nat, i: nat)
    requires k < |list| && j < |list| && i < |list|
    ensures |MoveTo(list, k, j)| == |list|
    ensures NewIndex(k, j, i) < |list| && MoveTo(list, k, j)[NewIndex(k, j, i)] == list[i]
  {
  }

  lemma MakeRoomIndex(docs: Store, k: nat, j: nat, n: string)
    requires n in docs && docs[n].position != k + 1 && docs[n].position >= 1
    ensures MakeRoom(docs, k + 1, j + 1).Keys == docs.Keys
    ensures MakeRoom(docs, k + 1, j + 1)[n].position == NewIndex(k, j, docs[n].position - 1) + 1
    ensures MakeRoom(docs, k + 1, j + 1)[n].accessGroups == docs[n].accessGroups
  {
  }

  lemma UpdateKeys(docs: Store, name: string, c: Config)
    ensures UpdateConfig(docs, name, c).Keys == docs.Keys + {name}
    ensures name in docs ==> |UpdateConfig(docs, name, c)| == |docs|
    ensures name !in docs ==> |UpdateConfig(docs, name, c)| == |docs| + 1
  {
    var after := UpdateConfig(docs, name, c);
    assert after.Keys == docs.Keys + {name};
    assert name in docs ==> docs.Keys + {name} == docs.Keys;
    assert |after.Keys| == |after| && |docs.Keys| == |docs|;
  }

  /** The app at index `i` of the list is found at its new index. */
  lemma MovedAppIsListed(docs: Store, list: seq<string>, k: nat, c: Config, i: nat)
    requires Ranks(docs, list) && k < |list| && 1 <= c.position <= |list| && i < |list|
    ensures var after, moved := UpdateConfig(docs, list[k], c), MoveTo(list, k, c.position - 1);
      IsListed(after, moved, list[i]) && HoldsAt(after, moved, NewIndex(k, c.position - 1, i))
  {
    assert HoldsAt(docs, list, i) && HoldsAt(docs, list, k);
    MoveToIndex(list, k, c.position - 1, i);
    if i != k {
      MakeRoomIndex(docs, k, c.position - 1, list[i]);
    }
  }

  /** Updating an existing app with a position in 1..n moves it there in the list. */
  lemma UpdateIsListMove(docs: Store, list: seq<string>, k: nat, c: Config)
    requires Ranks(docs, list) && k < |list| && 1 <= c.position <= |list|
    ensures Ranks(UpdateConfig(docs, list[k], c), MoveTo(list, k, c.position - 1))
  {
    var j := c.position - 1;
    var after, moved := UpdateConfig(docs, list[k], c), MoveTo(list, k, j);
    assert HoldsAt(docs, list, k);
    UpdateKeys(docs, list[k], c);
    forall n | n in after ensures IsListed(after, moved, n) {
      assert IsListed(docs, list, n);
      MovedAppIsListed(docs, list, k, c, docs[n].position - 1);
    }
    forall i | 0 <= i < |moved| ensures HoldsAt(after, moved, i) {
      assert NewIndex(k, j, NewIndex(j, k, i)) == i;
      MovedAppIsListed(docs, list, k, c, NewIndex(j, k, i));
    }
  }

  /** Deleting an app deletes it from the list and keeps the order of the others. */
  lemma DeleteIsListDelete(docs: Store, list: seq<string>, k: nat)
    requires Ranks(docs, list) && k < |list|
    ensures Ranks(DeleteConfig(docs, list[k]), Without(list, k))
  {
    var after, rest := DeleteConfig(docs, list[k]), Without(list, k);
    assert HoldsAt(docs, list, k);
    assert after.Keys == docs.Keys - {list[k]};
    assert |after.Keys| == |docs.Keys| - 1;
    forall n | n in after ensures IsListed(after, rest, n) {
      assert IsListed(docs, list, n);
    }
    forall i | 0 <= i < |rest| ensures HoldsAt(after, rest, i) {
      assert HoldsAt(docs, list, if i < k then i else i + 1);
    }
  }

  lemma AppendedStaysListed(docs: Store, after: Store, list: seq<string>, name: string, n: string)
    requires IsListed(docs, list, n) && n in after && after[n] == docs[n]
    ensures IsListed(after, list + [name], n) && HoldsAt(after, list + [name], docs[n].position - 1)
  {
    assert (list + [name])[docs[n].position - 1] == list[docs[n].position - 1];
  }

  /** An inserted app without a position, or with the next free one, is appended. */
  lemma InsertAppends(docs: Store, list: seq<string>, name: string, c: Config)
    requires Ranks(docs, list) && name !in docs && (c.position == 0 || c.position == |docs| + 1)
    ensures Ranks(InsertConfig(docs, name, c), list + [name])
  {
    var after := InsertConfig(docs, name, c);
    assert after.Keys == docs.Keys + {name};
    assert |after.Keys| == |docs.Keys| + 1;
    assert IsListed(after, list + [name], name) && HoldsAt(after, list + [name], |list|);
    forall n | n in docs ensures IsListed(after, list + [name], n) {
      AppendedStaysListed(docs, after, list, name, n);
    }
    forall i | 0 <= i < |list| ensures HoldsAt(after, list + [name], i) {
      assert HoldsAt(docs, list, i);
      AppendedStaysListed(docs, after, list, name, list[i]);
    }
  }

  /** ---- exactly when the positions stay dense ---- */

  lemma DenseIsInRange(docs: Store, name: string)
    requires Dense(docs) && name in docs
    ensures 1 <= docs[name].position <= |docs|
  {
    var list :| Ranks(docs, list);
    assert IsListed(docs, list, name);
  }

  lemma DenseIsDistinct(docs: Store, a: string, b: string)
    requires Dense(docs) && a in docs && b in docs && docs[a].position == docs[b].position
    ensures a == b
  {
    var list :| Ranks(docs, list);
    assert IsListed(docs, list, a) && IsListed(docs, list, b);
  }

  predicate UpdateFits(docs: Store, name: string, c: Config) {
    if name in docs then 1 <= c.position <= |docs| else c.position == |docs| + 1
  }

  /** From dense positions, `updateConfig` leads to dense positions exactly if the new one is
      in 1..n, or is n + 1 for an app that does not exist yet. */
  lemma UpdateKeepsDenseIff(docs: Store, name: string, c: Config)
    requires Dense(docs)
    ensures Dense(UpdateConfig(docs, name, c)) <==> UpdateFits(docs, name, c)
  {
    var list :| Ranks(docs, list);
    var after := UpdateConfig(docs, name, c);
    if name in docs {
      assert IsListed(docs, list, name);
      if 1 <= c.position <= |docs| {
        UpdateIsListMove(docs, list, docs[name].position - 1, c);
      } else {
        UpdateKeys(docs, name, c);
        if Dense(after) {
          DenseIsInRange(after, name);
        }
      }
    } else {
      InsertKeepsDense(docs, list, name, c);
    }
  }

  /** A new app with an explicit position, by upsert or by insert. */
  lemma InsertKeepsDense(docs: Store, list: seq<string>, name: string, c: Config)
    requires Ranks(docs, list) && name !in docs
    ensures Dense(docs[name := c]) <==> c.position == |docs| + 1
  {
    var after := docs[name := c];
    assert after.Keys == docs.Keys + {name};
    assert |after.Keys| == |docs.Keys| + 1;
    if c.position == |docs| + 1 {
      InsertAppends(docs, list, name, c);
    } else if 1 <= c.position <= |docs| {
      assert HoldsAt(docs, list, c.position - 1);
      if Dense(after) {
        DenseIsDistinct(after, list[c.position - 1], name);
      }
    } else if Dense(after) {
      DenseIsInRange(after, name);
    }
  }

  lemma InsertKeepsDenseIff(docs: Store, name: string, c: Config)
    requires Dense(docs)
    ensures Dense(InsertConfig(docs, name, c)) <==> name in docs || c.position == 0 || c.position == |docs| + 1
  {
    var list :| Ranks(docs, list);
    if name !in docs {
      InsertKeepsDense(docs, list, name, if c.position == 0 then c.(position := |docs| + 1) else c);
    }
  }

  /** Shifting touches positions only: no other app appears, goes, or changes its groups. */
  lemma OthersKeepTheirGroups(docs: Store, op: Op, n: string)
    requires n != op.name
    ensures n in docs <==> n in Apply(docs, op)
    ensures n in docs ==> Apply(docs, op)[n].accessGroups == docs[n].accessGroups
    ensures op.Update? ==> Apply(docs, op)[op.name] == op.config
    ensures op.Delete? ==> op.name !in Apply(docs, op)
    ensures op.Insert? ==> op.name in Apply(docs, op)
  {
  }

  /** ---- whole runs ---- */

  datatype Op = Update(name: string, config: Config) | Insert(name: string, config: Config) | Delete(name: string)

  predicate Fits(docs: Store, op: Op) {
    match op
    case Update(name, c) => UpdateFits(docs, name, c)
    case Insert(name, c) => name in docs || c.position == 0 || c.position == |docs| + 1
    case Delete(_) => true
  }

  function Apply(docs: Store, op: Op): Store {
    match op
    case Update(name, c) => UpdateConfig(docs, name, c)
    case Insert(name, c) => InsertConfig(docs, name, c)
    case Delete(name) => DeleteConfig(docs, name)
  }

  function IndexIn(list: seq<string>, name: string): nat
    requires name in list
    ensures IndexIn(list, name) < |list| && list[IndexIn(list, name)] == name
  {
    if list[0] == name then 0 else 1 + IndexIn(list[1..], name)
  }

  /** The same operation on a plain list. */
  function ApplyToList(list: seq<string>, op: Op): seq<string> {
    match op
    case Update(name, c) =>
      if name in list
      then (if 1 <= c.position <= |list| then MoveTo(list, IndexIn(list, name), c.position - 1) else list)
      else list + [name]
    case Insert(name, _) => if name in list then list else list + [name]
    case Delete(name) => if name in list then Without(list, IndexIn(list, name)) else list
  }

  lemma StepRefinesList(docs: Store, list: seq<string>, op: Op)
    requires Ranks(docs, list) && Fits(docs, op)
    ensures Ranks(Apply(docs, op), ApplyToList(list, op))
  {
    if op.name in list {
      assert HoldsAt(docs, list, IndexIn(list, op.name));
    }
    if op.name in docs {
      assert IsListed(docs, list, op.name);
    }
    match op
    case Update(name, c) =>
      if name in docs {
        UpdateIsListMove(docs, list, IndexIn(list, name), c);
      } else {
        InsertAppends(docs, list, name, c);
      }
    case Insert(name, c) =>
      if name !in docs {
        InsertAppends(docs, list, name, c);
      }
    case Delete(name) =>
      if name in docs {
        DeleteIsListDelete(docs, list, IndexIn(list, name));
      }
  }

  ghost predicate FitsAll(docs: Store, ops: seq<Op>)
    decreases |ops|
  {
    ops != [] ==> Fits(docs, ops[0]) && FitsAll(Apply(docs, ops[0]), ops[1..])
  }

  function ApplyAll(docs: Store, ops: seq<Op>): Store
    decreases |ops|
  {
    if ops == [] then docs else ApplyAll(Apply(docs, ops[0]), ops[1..])
  }

  function ApplyAllToList(list: seq<string>, ops: seq<Op>): seq<string>
    decreases |ops|
  {
    if ops == [] then list else ApplyAllToList(ApplyToList(list, ops[0]), ops[1..])
  }

  /** Over any run of fitting operations the stored positions are those of the list on which
      the same operations were done. */
  lemma {:induction false} RunsRefineLists(docs: Store, list: seq<string>, ops: seq<Op>)
    requires Ranks(docs, list) && FitsAll(docs, ops)
    ensures Ranks(ApplyAll(docs, ops), ApplyAllToList(list, ops))
    decreases |ops|
  {
    if ops != [] {
      StepRefinesList(docs, list, ops[0]);
      RunsRefineLists(Apply(docs, ops[0]), ApplyToList(list, ops[0]), ops[1..]);
    }
  }

  /** The collection, written in place. */
  class AppConfigs {
    var docs: Store

    constructor (docs: Store)
      ensures this.docs == docs
    {
      this.docs := docs;
    }

    method UpdateMany(lo: Option<int>, hi: Option<int>, delta: int)
      modifies this
      ensures docs == Shift(old(docs), lo, hi, delta)
    {
      var todo := docs.Keys;
      while todo != {}
        invariant todo <= old(docs).Keys == docs.Keys
        invariant forall n :: n in docs ==> docs[n] == if n in todo then old(docs)[n] else Shift(old(docs), lo, hi, delta)[n]
        decreases todo
      {
        var n :| n in todo;
        todo := todo - {n};
        if InRange(docs[n].position, lo, hi) {
          docs := docs[n := docs[n].(position := docs[n].position + delta)];
        }
      }
    }

    /** The ordered bulk write of `updateConfig`. */
    method Update(name: string, config: Config)
      modifies this
      ensures docs == UpdateConfig(old(docs), name, config)
    {
      if name in docs {
        var oldPosition := docs[name].position;
        if oldPosition != config.position {
          if oldPosition < config.position {
            UpdateMany(Some(oldPosition + 1), Some(config.position), -1);
          } else {
            UpdateMany(Some(config.position), Some(oldPosition - 1), 1);
          }
        }
      }
      docs := docs[name := config];
    }

    /** The ordered bulk write of `deleteConfig`. */
    method Delete(name: string)
      modifies this
      ensures docs == DeleteConfig(old(docs), name)
    {
      if name in docs {
        var deletedPosition := docs[name].position;
        docs := docs - {name};
        UpdateMany(Some(deletedPosition + 1), None, -1);
      }
    }

    method Insert(name: string, config: Config)
      modifies this
      ensures docs == InsertConfig(old(docs), name, config)
    {
      if name !in docs {
        docs := docs[name := if config.position == 0 then config.(position := |docs| + 1) else config];
      }
    }
  }
}
