/** The plan of a synchronisation run (Diff.ts): four buckets of actions,
    one per action type, filled by `commit` and emptied by `retract`, and the
    operations that translate a whole plan from one location to the other
    (`map`), copy it (`clone`, `toJSON`/`fromJSON`) and detect move chains
    that would put a folder inside itself (`findChain`). */
module Diff {
  import opened Common
  import opened Mappings

  datatype ActionType = CREATE | UPDATE | MOVE | REMOVE

  /** One planned action. `oldItem` is the item as it was before the action;
      `index` and `oldIndex` are positions among the parent's children. */
  datatype Action = Action(kind: ActionType, payload: Item, oldItem: Option<Item>, index: Option<int>, oldIndex: Option<int>)

  /** An action object. Buckets hold objects, and `retract` finds its
      argument by identity (`indexOf`), so identity is part of the model. */
  class ActionObj {
    const action: Action

    constructor(a: Action)
      ensures action == a
    {
      action := a;
    }
  }

  /** The actions held by a sequence of action objects. */
  function Values(objs: seq<ActionObj>): (r: seq<Action>)
    ensures |r| == |objs|
    ensures forall i :: 0 <= i < |objs| ==> r[i] == objs[i].action
  {
    seq(|objs|, i requires 0 <= i < |objs| => objs[i].action)
  }

  lemma ValuesAppend(a: seq<ActionObj>, b: seq<ActionObj>)
    ensures Values(a + b) == Values(a) + Values(b)
  {
  }

  // ---------------------------------------------------------------------
  // The order of `getActions()` and the per-type view of a plan

  /** The position of each bucket in `getActions()`. */
  function Rank(k: ActionType): nat {
    match k
    case UPDATE => 0
    case CREATE => 1
    case MOVE => 2
    case REMOVE => 3
  }

  /** Every action precedes the actions of later-ranked types. */
  predicate Grouped(s: seq<Action>) {
    forall i, j :: 0 <= i < j < |s| ==> Rank(s[i].kind) <= Rank(s[j].kind)
  }

  predicate AllOfKind(s: seq<Action>, k: ActionType) {
    forall i :: 0 <= i < |s| ==> s[i].kind == k
  }

  /** The actions of one type, in their order in `s`. */
  function KindFilter(s: seq<Action>, k: ActionType): (r: seq<Action>)
    ensures |r| <= |s|
    ensures AllOfKind(r, k)
  {
    if s == [] then []
    else (if s[0].kind == k then [s[0]] else []) + KindFilter(s[1..], k)
  }

  /** A sequence put back into bucket order: the shape `fromJSON` gives any
      array. */
  function Regroup(s: seq<Action>): seq<Action> {
    KindFilter(s, UPDATE) + KindFilter(s, CREATE) + KindFilter(s, MOVE) + KindFilter(s, REMOVE)
  }

  lemma {:induction false} KindFilterAppend(a: seq<Action>, b: seq<Action>, k: ActionType)
    ensures KindFilter(a + b, k) == KindFilter(a, k) + KindFilter(b, k)
    decreases |a|
  {
    if a == [] {
      assert a + b == b;
    } else {
      var h := if a[0].kind == k then [a[0]] else [];
      assert (a + b)[0] == a[0] && (a + b)[1..] == a[1..] + b;
      KindFilterAppend(a[1..], b, k);
      calc {
        KindFilter(a + b, k);
        h + KindFilter(a[1..] + b, k);
        h + (KindFilter(a[1..], k) + KindFilter(b, k));
        (h + KindFilter(a[1..], k)) + KindFilter(b, k);
      }
    }
  }

  lemma {:induction false} KindFilterOfKind(s: seq<Action>, k: ActionType)
    requires AllOfKind(s, k)
    ensures KindFilter(s, k) == s
    decreases |s|
  {
    if s != [] {
      KindFilterOfKind(s[1..], k);
      assert s == [s[0]] + s[1..];
    }
  }

  lemma {:induction false} KindFilterAbsent(s: seq<Action>, k: ActionType)
    requires forall i :: 0 <= i < |s| ==> s[i].kind != k
    ensures KindFilter(s, k) == []
    decreases |s|
  {
    if s != [] {
      KindFilterAbsent(s[1..], k);
    }
  }

  /** Bucket order is the only order `fromJSON` can rebuild: a sequence is
      unchanged by regrouping exactly when it is already grouped. */
  lemma {:induction false} RegroupGrouped(s: seq<Action>)
    ensures Grouped(s) <==> Regroup(s) == s
    decreases |s|
  {
    if Grouped(s) {
      RegroupOfGrouped(s);
    }
    if Regroup(s) == s {
      RegroupIsGrouped(s);
    }
  }

  lemma {:induction false} RegroupOfGrouped(s: seq<Action>)
    requires Grouped(s)
    ensures Regroup(s) == s
    decreases |s|
  {
    if s != [] {
      assert Grouped(s[1..]) by {
        forall i, j | 0 <= i < j < |s[1..]|
          ensures Rank(s[1..][i].kind) <= Rank(s[1..][j].kind)
        {
          assert s[1..][i] == s[i + 1] && s[1..][j] == s[j + 1];
        }
      }
      RegroupOfGrouped(s[1..]);
      RegroupCons(s);
      assert s == [s[0]] + s[1..];
    }
  }

  /** In a grouped sequence nothing after the head has a type that comes
      before the head's. */
  lemma GroupedTailAbsent(s: seq<Action>, k: ActionType)
    requires Grouped(s) && s != [] && Rank(k) < Rank(s[0].kind)
    ensures KindFilter(s[1..], k) == []
  {
    forall i | 0 <= i < |s[1..]|
      ensures s[1..][i].kind != k
    {
      assert s[1..][i] == s[i + 1];
    }
    KindFilterAbsent(s[1..], k);
  }

  /** The head of a sequence joins its own type's view and no other. */
  lemma KindFilterCons(s: seq<Action>, k: ActionType)
    requires s != []
    ensures KindFilter(s, k) == if k == s[0].kind then [s[0]] + KindFilter(s[1..], k) else KindFilter(s[1..], k)
  {
    if k != s[0].kind {
      assert [] + KindFilter(s[1..], k) == KindFilter(s[1..], k);
    }
  }

  /** A head added to one of four consecutive pieces, the ones before it
      empty, comes out in front of the whole. */
  lemma ConsIntoPiece<T>(x: T, u: seq<T>, c: seq<T>, m: seq<T>, r: seq<T>,
                         u': seq<T>, c': seq<T>, m': seq<T>, r': seq<T>)
    requires (u' == [x] + u && c' == c && m' == m && r' == r)
          || (u' == u == [] && c' == [x] + c && m' == m && r' == r)
          || (u' == u == [] && c' == c == [] && m' == [x] + m && r' == r)
          || (u' == u == [] && c' == c == [] && m' == m == [] && r' == [x] + r)
    ensures u' + c' + m' + r' == [x] + (u + c + m + r)
  {
  }

  lemma SnocSlice<T>(base: seq<T>, v: seq<T>, i: int)
    requires 0 <= i < |v|
    ensures base + v[..i + 1] == (base + v[..i]) + [v[i]]
  {
    assert v[..i + 1] == v[..i] + [v[i]];
  }

  /** Regrouping a grouped sequence keeps its head in front. */
  lemma RegroupCons(s: seq<Action>)
    requires Grouped(s) && s != []
    ensures Regroup(s) == [s[0]] + Regroup(s[1..])
  {
    var a, rest := s[0], s[1..];
    var u, c, m, r := KindFilter(rest, UPDATE), KindFilter(rest, CREATE), KindFilter(rest, MOVE), KindFilter(rest, REMOVE);
    KindFilterCons(s, UPDATE);
    KindFilterCons(s, CREATE);
    KindFilterCons(s, MOVE);
    KindFilterCons(s, REMOVE);
    if a.kind != UPDATE {
      GroupedTailAbsent(s, UPDATE);
    }
    if a.kind == MOVE || a.kind == REMOVE {
      GroupedTailAbsent(s, CREATE);
    }
    if a.kind == REMOVE {
      GroupedTailAbsent(s, MOVE);
    }
    ConsIntoPiece(a, u, c, m, r, KindFilter(s, UPDATE), KindFilter(s, CREATE), KindFilter(s, MOVE), KindFilter(s, REMOVE));
  }

  lemma RegroupIsGrouped(s: seq<Action>)
    ensures Grouped(Regroup(s))
  {
    var u, c, m, r := KindFilter(s, UPDATE), KindFilter(s, CREATE), KindFilter(s, MOVE), KindFilter(s, REMOVE);
    BucketsGrouped(u, c, m, r);
  }

  /** Four buckets laid end to end, in bucket order, form a grouped sequence
      whose per-type views are the buckets. */
  lemma BucketsGrouped(u: seq<Action>, c: seq<Action>, m: seq<Action>, r: seq<Action>)
    requires AllOfKind(u, UPDATE) && AllOfKind(c, CREATE) && AllOfKind(m, MOVE) && AllOfKind(r, REMOVE)
    ensures Grouped(u + c + m + r)
    ensures KindFilter(u + c + m + r, UPDATE) == u
    ensures KindFilter(u + c + m + r, CREATE) == c
    ensures KindFilter(u + c + m + r, MOVE) == m
    ensures KindFilter(u + c + m + r, REMOVE) == r
  {
    var s := u + c + m + r;
    GroupedAppendBucket([], u, UPDATE);
    assert [] + u == u;
    GroupedAppendBucket(u, c, CREATE);
    GroupedAppendBucket(u + c, m, MOVE);
    GroupedAppendBucket(u + c + m, r, REMOVE);
    BucketFilter(u, c, m, r, UPDATE);
    BucketFilter(u, c, m, r, CREATE);
    BucketFilter(u, c, m, r, MOVE);
    BucketFilter(u, c, m, r, REMOVE);
  }

  /** Taking one type from four buckets laid end to end gives that type's
      bucket. */
  lemma BucketFilter(u: seq<Action>, c: seq<Action>, m: seq<Action>, r: seq<Action>, k: ActionType)
    requires AllOfKind(u, UPDATE) && AllOfKind(c, CREATE) && AllOfKind(m, MOVE) && AllOfKind(r, REMOVE)
    ensures KindFilter(u + c + m + r, k) == match k
      case UPDATE => u
      case CREATE => c
      case MOVE => m
      case REMOVE => r
  {
    KindFilterAppend(u, c, k);
    KindFilterAppend(u + c, m, k);
    KindFilterAppend(u + c + m, r, k);
    var fu := if k == UPDATE then u else (KindFilterAbsent(u, k); []);
    var fc := if k == CREATE then c else (KindFilterAbsent(c, k); []);
    var fm := if k == MOVE then m else (KindFilterAbsent(m, k); []);
    var fr := if k == REMOVE then r else (KindFilterAbsent(r, k); []);
    KindFilterOfKind(u, UPDATE);
    KindFilterOfKind(c, CREATE);
    KindFilterOfKind(m, MOVE);
    KindFilterOfKind(r, REMOVE);
    assert KindFilter(u + c + m + r, k) == fu + fc + fm + fr;
  }

  predicate RankAtMost(s: seq<Action>, n: nat) {
    forall i :: 0 <= i < |s| ==> Rank(s[i].kind) <= n
  }

  /** A grouped sequence followed by a bucket of a type ranked no lower
      than any of its actions is still grouped. */
  lemma GroupedAppendBucket(a: seq<Action>, b: seq<Action>, k: ActionType)
    requires Grouped(a) && RankAtMost(a, Rank(k)) && AllOfKind(b, k)
    ensures Grouped(a + b) && RankAtMost(a + b, Rank(k))
  {
    var s := a + b;
    forall i, j | 0 <= i < j < |s|
      ensures Rank(s[i].kind) <= Rank(s[j].kind)
    {
      if j < |a| {
        assert s[i] == a[i] && s[j] == a[j];
      } else if i < |a| {
        assert s[i] == a[i] && s[j] == b[j - |a|];
      } else {
        assert s[i] == b[i - |a|] && s[j] == b[j - |a|];
      }
    }
  }

  // ---------------------------------------------------------------------
  // `Array.prototype.indexOf` and `splice(start, 1)`

  /** `s.indexOf(x)`: the first position holding `x`, or -1. */
  function IndexOf<T(==)>(s: seq<T>, x: T): (r: int)
    ensures -1 <= r < |s|
    ensures r == -1 <==> x !in s
    ensures 0 <= r ==> s[r] == x && x !in s[..r]
  {
    if |s| == 0 then -1
    else if s[0] == x then 0
    else
      var j := IndexOf(s[1..], x);
      if j == -1 then -1
      else
        assert s[..j + 1] == [s[0]] + s[1..][..j];
        j + 1
  }

  /** Where `splice(start, ...)` starts: a negative start counts from the end
      and is clamped at 0, a large one is clamped at the length. */
  function SpliceStart(len: nat, start: int): (r: nat)
    ensures r <= len
    ensures 0 <= start ==> r == if start < len then start else len
    ensures start < 0 && -start <= len ==> r as int == len + start
    ensures start < 0 && -start > len ==> r == 0
  {
    var back := len + start;
    if start < 0 then (if back < 0 then 0 else back)
    else if start < len then start
    else len
  }

  /** `s.splice(start, 1)`: remove one element at the start position, if
      there is one. */
  function SpliceOne<T>(s: seq<T>, start: int): seq<T> {
    var at := SpliceStart(|s|, start);
    if at < |s| then s[..at] + s[at + 1..] else s
  }

  /** Retracting an object the bucket holds removes its first occurrence and
      keeps the others in order. */
  lemma RetractPresent<T>(s: seq<T>, x: T)
    requires x in s
    ensures var i := IndexOf(s, x);
      SpliceOne(s, i) == s[..i] + s[i + 1..] && |SpliceOne(s, i)| == |s| - 1
    ensures multiset(SpliceOne(s, IndexOf(s, x))) == multiset(s) - multiset{x}
  {
    var i := IndexOf(s, x);
    SpliceInside(s, i);
    var front, back := s[..i], s[i + 1..];
    assert s == front + [x] + back;
    assert multiset(s) == multiset(front) + multiset{x} + multiset(back);
    assert multiset(SpliceOne(s, i)) == multiset(front) + multiset(back);
  }

  lemma SpliceInside<T>(s: seq<T>, i: int)
    requires 0 <= i < |s|
    ensures SpliceOne(s, i) == s[..i] + s[i + 1..]
  {
    assert SpliceStart(|s|, i) == i;
  }

  /** Retracting an object the bucket does not hold removes the bucket's
      last element (`splice(-1, 1)`), whatever it is. */
  lemma RetractAbsent<T>(s: seq<T>, x: T)
    requires x !in s && |s| > 0
    ensures SpliceOne(s, IndexOf(s, x)) == s[..|s| - 1]
  {
  }

  /** Removing one element from a bucket of one type leaves a bucket of
      that type. */
  lemma SpliceKeepsKind(objs: seq<ActionObj>, start: int, k: ActionType)
    requires BucketOfKind(objs, k)
    ensures BucketOfKind(SpliceOne(objs, start), k)
  {
    var at := SpliceStart(|objs|, start);
    if at < |objs| {
      var r := objs[..at] + objs[at + 1..];
      forall i | 0 <= i < |r|
        ensures r[i].action.kind == k
      {
        if i < at {
          assert r[i] == objs[i];
        } else {
          assert r[i] == objs[i + 1];
        }
      }
    }
  }

  /** Appending one action extends its own type's view by it and leaves the
      other types' views alone. */
  lemma KindFilterSnoc(s: seq<Action>, x: Action)
    ensures forall k :: KindFilter(s + [x], k) == KindFilter(s, k) + if k == x.kind then [x] else []
  {
    forall k
      ensures KindFilter(s + [x], k) == KindFilter(s, k) + if k == x.kind then [x] else []
    {
      KindFilterAppend(s, [x], k);
    }
  }

  // ---------------------------------------------------------------------
  // The plan

  predicate BucketOfKind(objs: seq<ActionObj>, k: ActionType) {
    forall i :: 0 <= i < |objs| ==> objs[i].action.kind == k
  }

  class Diff {
    /** `actions`: one bucket per action type, each in commit order. */
    var actions: map<ActionType, seq<ActionObj>>

    /** Every type has a bucket, and each bucket holds only actions of its
        own type. */
    predicate Valid()
      reads this
    {
      forall k :: k in actions && BucketOfKind(actions[k], k)
    }

    constructor()
      ensures Valid()
      ensures forall k :: Bucket(k) == []
    {
      actions := map[CREATE := [], UPDATE := [], MOVE := [], REMOVE := []];
      new;
      forall k
        ensures k in actions && actions[k] == []
      {
        match k
        case CREATE =>
        case UPDATE =>
        case MOVE =>
        case REMOVE =>
      }
    }

    /** `getActions(type)`: the bucket of that type. */
    function Bucket(k: ActionType): seq<ActionObj>
      reads this
    {
      if k in actions then actions[k] else []
    }

    lemma BucketsValid()
      requires Valid()
      ensures forall k :: AllOfKind(Values(Bucket(k)), k)
    {
    }

    /** `getActions()`: the whole plan, grouped by type in the order UPDATE,
        CREATE, MOVE, REMOVE, each type in commit order. */
    function GetActions(): (r: seq<ActionObj>)
      reads this
      ensures |r| == |Bucket(UPDATE)| + |Bucket(CREATE)| + |Bucket(MOVE)| + |Bucket(REMOVE)|
      ensures Valid() ==> Grouped(Values(r))
      ensures Valid() ==> forall k :: KindFilter(Values(r), k) == Values(Bucket(k))
    {
      var u, c, m, d := Bucket(UPDATE), Bucket(CREATE), Bucket(MOVE), Bucket(REMOVE);
      var r := u + c + m + d;
      ValuesAppend(u, c);
      ValuesAppend(u + c, m);
      ValuesAppend(u + c + m, d);
      if Valid() then
        BucketsValid();
        BucketsGrouped(Values(u), Values(c), Values(m), Values(d));
        r
      else r
    }

    /** The plan's actions as values, in `getActions()` order, equal to the
        four buckets laid end to end. */
    lemma GetActionsIsBuckets()
      requires Valid()
      ensures Values(GetActions()) == Regroup(Values(GetActions()))
      ensures Values(GetActions()) ==
        Values(Bucket(UPDATE)) + Values(Bucket(CREATE)) + Values(Bucket(MOVE)) + Values(Bucket(REMOVE))
    {
      RegroupGrouped(Values(GetActions()));
    }

    /** `commit`: a shallow copy of the action, a new object, goes to the end
        of the bucket of its type; the other buckets are unchanged. */
    method Commit(a: ActionObj)
      requires Valid()
      modifies this
      ensures Valid()
      ensures |Bucket(a.action.kind)| == |old(Bucket(a.action.kind))| + 1
      ensures Bucket(a.action.kind)[..|old(Bucket(a.action.kind))|] == old(Bucket(a.action.kind))
      ensures fresh(Bucket(a.action.kind)[|old(Bucket(a.action.kind))|])
      ensures Bucket(a.action.kind)[|old(Bucket(a.action.kind))|].action == a.action
      ensures forall k :: k != a.action.kind ==> Bucket(k) == old(Bucket(k))
      ensures forall k :: Values(Bucket(k)) == Values(old(Bucket(k))) + if k == a.action.kind then [a.action] else []
    {
      var k := a.action.kind;
      var copy := new ActionObj(a.action);
      ValuesAppend(actions[k], [copy]);
      actions := actions[k := actions[k] + [copy]];
    }

    /** `retract`: `splice(indexOf(a), 1)` on the bucket of `a`'s type; see
        `RetractPresent` and `RetractAbsent` for what that removes. */
    method Retract(a: ActionObj)
      requires Valid()
      modifies this
      ensures Valid()
      ensures Bucket(a.action.kind) == SpliceOne(old(Bucket(a.action.kind)), IndexOf(old(Bucket(a.action.kind)), a))
      ensures forall k :: k != a.action.kind ==> Bucket(k) == old(Bucket(k))
    {
      var k := a.action.kind;
      var at := IndexOf(actions[k], a);
      SpliceKeepsKind(actions[k], at, k);
      actions := actions[k := SpliceOne(actions[k], at)];
    }

    /** The `forEach` of commits that `clone` and `fromJSON` run: each value,
        as a new action object, is committed in order. */
    method CommitAll(vals: seq<Action>)
      requires Valid()
      modifies this
      ensures Valid()
      ensures forall k :: Values(Bucket(k)) == Values(old(Bucket(k))) + KindFilter(vals, k)
    {
      ghost var base := Values(GetActions());
      assert Holds(base);
      assert base + vals[..0] == base;
      var i := 0;
      while i < |vals|
        invariant 0 <= i <= |vals|
        invariant Valid() && Holds(base + vals[..i])
      {
        Append(vals[i], base + vals[..i]);
        SnocSlice(base, vals, i);
        i := i + 1;
      }
      assert vals[..i] == vals;
      forall k
        ensures Values(Bucket(k)) == Values(old(Bucket(k))) + KindFilter(vals, k)
      {
        KindFilterAppend(base, vals, k);
      }
    }

    /** The buckets are those of the plan `acts`. */
    predicate Holds(acts: seq<Action>)
      reads this
    {
      forall k :: Values(Bucket(k)) == KindFilter(acts, k)
    }

    /** `commit` of a new action object holding `b` to a plan holding
        `acts`. */
    method Append(b: Action, ghost acts: seq<Action>)
      requires Valid() && Holds(acts)
      modifies this
      ensures Valid() && Holds(acts + [b])
    {
      var o := new ActionObj(b);
      Commit(o);
      KindFilterSnoc(acts, b);
    }

    /** `clone`: a new plan of new action objects whose buckets, and so whose
        `getActions()`, equal this plan's element for element. */
    method Clone() returns (d: Diff)
      requires Valid()
      ensures fresh(d) && d.Valid()
      ensures forall k :: Values(d.Bucket(k)) == Values(Bucket(k))
      ensures Values(d.GetActions()) == Values(GetActions())
    {
      d := new Diff();
      var all := GetActions();
      d.CommitAll(Values(all));
      d.GetActionsIsBuckets();
      GetActionsIsBuckets();
    }

    /** `toJSON`: the plan's actions as plain values, in `getActions()` order. */
    function ToJSON(): (json: seq<Action>)
      reads this
      ensures |json| == |GetActions()|
      ensures Valid() ==> Grouped(json)
      ensures Valid() ==> forall k :: KindFilter(json, k) == Values(Bucket(k))
    {
      Values(GetActions())
    }

    /** `map`: translate every action accepted by `filter` to the `target`
        location, in `getActions()` order, into a new plan; see `MapOne` for
        one action. The error is the parent id that could not be mapped.
        This plan is not changed. */
    method Map(s: Snapshot, target: Location, filter: Action -> bool, skipErroneous: bool)
      returns (r: Result<Diff, Id>)
      requires Valid()
      ensures r.Ok? <==> MapAll(s, target, filter, skipErroneous, Values(GetActions())).Ok?
      ensures r.Err? ==> r.error == MapAll(s, target, filter, skipErroneous, Values(GetActions())).error
      ensures r.Ok? ==> fresh(r.value) && r.value.Valid()
      ensures r.Ok? ==> Values(r.value.GetActions()) == MapAll(s, target, filter, skipErroneous, Values(GetActions())).value
    {
      var all := GetActions();
      ghost var vals := Values(all);
      var nd := new Diff();
      ghost var out: seq<Action> := [];
      var i := 0;
      while i < |all|
        invariant 0 <= i <= |all|
        invariant fresh(nd) && nd.Valid()
        invariant MapAll(s, target, filter, skipErroneous, vals[..i]) == Ok(out)
        invariant nd.Holds(out)
      {
        var a := all[i].action;
        MapAllStep(s, target, filter, skipErroneous, vals, i, out);
        match MapOne(s, target, filter, a)
        case Fail(p) =>
          if skipErroneous {
            i := i + 1;
          } else {
            return Err(p);
          }
        case Emit(b) =>
          nd.Append(b, out);
          out := out + [b];
          i := i + 1;
      }
      assert vals[..i] == vals;
      nd.GetActionsIsBuckets();
      MapAllRegroup(s, target, filter, skipErroneous, vals);
      r := Ok(nd);
    }
  }

  /** `fromJSON`: a new plan built by committing the array's actions in
      order, so its `getActions()` is the array regrouped by type. */
  method FromJSON(json: seq<Action>) returns (d: Diff)
    ensures fresh(d) && d.Valid()
    ensures forall k :: Values(d.Bucket(k)) == KindFilter(json, k)
    ensures Values(d.GetActions()) == Regroup(json)
  {
    d := new Diff();
    d.CommitAll(json);
    d.GetActionsIsBuckets();
  }

  /** Rebuilding a plan from its JSON form gives back the same actions in
      the same order. */
  method RestoreFromJSON(d: Diff) returns (e: Diff)
    requires d.Valid()
    ensures fresh(e)
    ensures Values(e.GetActions()) == Values(d.GetActions())
    ensures forall k :: Values(e.Bucket(k)) == Values(d.Bucket(k))
  {
    e := FromJSON(d.ToJSON());
    RegroupGrouped(d.ToJSON());
  }

  /** Committing an object and then retracting that same object undoes the
      commit only when nothing was committed to the bucket in between:
      the bucket holds a copy, so `retract` drops the bucket's last element. */
  method CommitThenRetractDropsLast(d: Diff, a: ActionObj, b: ActionObj)
    requires d.Valid()
    requires a.action.kind == b.action.kind && a.action != b.action
    requires a !in d.Bucket(a.action.kind)
    modifies d
    ensures d.Valid()
    ensures Values(d.Bucket(a.action.kind)) == Values(old(d.Bucket(a.action.kind))) + [a.action]
  {
    d.Commit(a);
    d.Commit(b);
    ghost var k := a.action.kind;
    ghost var s := d.Bucket(k);
    assert s == old(d.Bucket(k)) + [s[|s| - 2], s[|s| - 1]];
    assert a !in s;
    d.Retract(a);
    RetractAbsent(s, a);
    assert d.Bucket(k) == old(d.Bucket(k)) + [s[|s| - 2]];
    ValuesAppend(old(d.Bucket(k)), [s[|s| - 2]]);
  }

  // ---------------------------------------------------------------------
  // `map` on values

  /** What `map` does with one action: commit it (`Emit`) or throw
      "Failed to map parentId" (`Fail`). `Fail` with `skipErroneousActions`
      set means the action is left out. */
  datatype MapStep = Emit(action: Action) | Fail(parentId: Id)

  /** One action of `map`. Rejected by `filter`: carried over as is.
      Otherwise the payload moves to `target`; with an `oldItem` and a local
      target the ids of payload and oldItem are swapped, else the payload's
      id is looked up and oldItem becomes the original payload. Parent ids
      are swapped the same way for CREATE and REMOVE, and looked up (in the
      folder table) for everything else. */
  function MapOne(s: Snapshot, target: Location, filter: Action -> bool, a: Action): (r: MapStep)
    ensures !filter(a) ==> r == Emit(a)
    ensures r.Emit? ==> r.action.kind == a.kind && r.action.index == a.index && r.action.oldIndex == a.oldIndex
    ensures r.Emit? && filter(a) ==> r.action.payload.location == target && r.action.oldItem.Some?
    ensures r.Fail? <==>
      filter(a) && !(a.oldItem.Some? && target != Server && a.kind != MOVE && a.kind != UPDATE) &&
      MapParentId(s, a.payload, target).None? && a.payload.parentId.Some?
    ensures r.Fail? ==> Some(r.parentId) == a.payload.parentId
  {
    if !filter(a) then Emit(a)
    else
      var swap := a.oldItem.Some? && target != Server;
      var payload := if swap then a.payload.(location := target, id := a.oldItem.value.id)
                     else a.payload.(location := target, id := MapId(s, a.payload, target));
      var oldItem := if swap then a.oldItem.value.(location := a.payload.location, id := a.payload.id)
                     else a.payload;
      if swap && a.kind != MOVE && a.kind != UPDATE then
        Emit(a.(payload := payload.(parentId := a.oldItem.value.parentId),
                oldItem := Some(oldItem.(parentId := a.payload.parentId))))
      else
        var parentId := MapParentId(s, a.payload, target);
        if parentId.None? && a.payload.parentId.Some? then Fail(a.payload.parentId.value)
        else Emit(a.(payload := payload.(parentId := parentId),
                     oldItem := Some(oldItem.(parentId := a.payload.parentId))))
  }

  /** `map` over a sequence of actions: the first `Fail` throws unless
      erroneous actions are skipped, in which case that action is dropped. */
  function MapAll(s: Snapshot, target: Location, filter: Action -> bool, skip: bool, acts: seq<Action>): (r: Result<seq<Action>, Id>)
    ensures r.Ok? ==> |r.value| <= |acts|
    ensures r.Ok? && !skip ==> |r.value| == |acts|
    ensures r.Err? ==> !skip
  {
    if acts == [] then Ok([])
    else
      match MapOne(s, target, filter, acts[0])
      case Fail(p) => if skip then MapAll(s, target, filter, skip, acts[1..]) else Err(p)
      case Emit(b) =>
        match MapAll(s, target, filter, skip, acts[1..])
        case Ok(rest) => Ok([b] + rest)
        case Err(e) => Err(e)
  }

  lemma MapAllSingle(s: Snapshot, target: Location, filter: Action -> bool, skip: bool, a: Action)
    ensures MapAll(s, target, filter, skip, [a]) ==
      match MapOne(s, target, filter, a)
      case Fail(p) => if skip then Ok([]) else Err(p)
      case Emit(b) => Ok([b])
  {
    assert [a][0] == a && [a][1..] == [];
    assert MapAll(s, target, filter, skip, []) == Ok([]);
    match MapOne(s, target, filter, a)
    case Fail(p) =>
    case Emit(b) => assert [b] + [] == [b];
  }

  /** One step of `map`'s loop over a prefix of the plan. */
  lemma MapAllStep(s: Snapshot, target: Location, filter: Action -> bool, skip: bool, vals: seq<Action>, i: nat, out: seq<Action>)
    requires i < |vals| && MapAll(s, target, filter, skip, vals[..i]) == Ok(out)
    ensures match MapOne(s, target, filter, vals[i])
      case Emit(b) => MapAll(s, target, filter, skip, vals[..i + 1]) == Ok(out + [b])
      case Fail(p) =>
        (skip ==> MapAll(s, target, filter, skip, vals[..i + 1]) == Ok(out)) &&
        (!skip ==> MapAll(s, target, filter, skip, vals) == Err(p))
  {
    assert vals[..i + 1] == vals[..i] + [vals[i]];
    MapAllAppend(s, target, filter, skip, vals[..i], [vals[i]]);
    MapAllSingle(s, target, filter, skip, vals[i]);
    assert out + [] == out;
    assert vals == vals[..i + 1] + vals[i + 1..];
    MapAllAppend(s, target, filter, skip, vals[..i + 1], vals[i + 1..]);
  }

  /** Results of mapping two pieces, joined: the first error wins. */
  function Join(x: Result<seq<Action>, Id>, y: Result<seq<Action>, Id>): Result<seq<Action>, Id> {
    if x.Err? then x else if y.Err? then y else Ok(x.value + y.value)
  }

  /** Mapping a concatenation maps the pieces and joins the results. */
  lemma {:induction false} MapAllAppend(s: Snapshot, target: Location, filter: Action -> bool, skip: bool, x: seq<Action>, y: seq<Action>)
    ensures MapAll(s, target, filter, skip, x + y) ==
      Join(MapAll(s, target, filter, skip, x), MapAll(s, target, filter, skip, y))
    decreases |x|
  {
    var my := MapAll(s, target, filter, skip, y);
    if x == [] {
      assert x + y == y;
      if my.Ok? {
        assert [] + my.value == my.value;
      }
    } else {
      assert (x + y)[0] == x[0] && (x + y)[1..] == x[1..] + y;
      MapAllAppend(s, target, filter, skip, x[1..], y);
      var rest := MapAll(s, target, filter, skip, x[1..]);
      match MapOne(s, target, filter, x[0])
      case Fail(p) =>
      case Emit(b) =>
        if rest.Ok? && my.Ok? {
          assert [b] + (rest.value + my.value) == ([b] + rest.value) + my.value;
        }
    }
  }

  /** `map` keeps each action's type and relative order: mapping the actions
      of one type is the same as taking that type from the mapped plan. */
  lemma {:induction false} MapAllKindFilter(s: Snapshot, target: Location, filter: Action -> bool, skip: bool, x: seq<Action>, k: ActionType)
    requires MapAll(s, target, filter, skip, x).Ok?
    ensures MapAll(s, target, filter, skip, KindFilter(x, k)).Ok?
    ensures MapAll(s, target, filter, skip, KindFilter(x, k)).value ==
      KindFilter(MapAll(s, target, filter, skip, x).value, k)
    decreases |x|
  {
    if x != [] {
      var a := x[0];
      MapAllKindFilter(s, target, filter, skip, x[1..], k);
      var rest := MapAll(s, target, filter, skip, x[1..]).value;
      assert KindFilter(x, k) == (if a.kind == k then [a] else []) + KindFilter(x[1..], k);
      MapAllAppend(s, target, filter, skip, if a.kind == k then [a] else [], KindFilter(x[1..], k));
      assert MapAll(s, target, filter, skip, [a]) == MapAll(s, target, filter, skip, x[..1]);
      assert x == [a] + x[1..];
      MapAllAppend(s, target, filter, skip, [a], x[1..]);
      assert [a][1..] == [];
      match MapOne(s, target, filter, a)
      case Fail(p) =>
      case Emit(b) =>
        assert MapAll(s, target, filter, skip, x).value == [b] + rest;
        KindFilterAppend([b], rest, k);
    }
  }

  /** Mapping a grouped plan gives the plan that the mapped buckets, laid
      end to end, form. */
  lemma MapAllRegroup(s: Snapshot, target: Location, filter: Action -> bool, skip: bool, x: seq<Action>)
    requires Grouped(x)
    requires MapAll(s, target, filter, skip, x).Ok?
    ensures Regroup(MapAll(s, target, filter, skip, x).value) == MapAll(s, target, filter, skip, x).value
  {
    var out := MapAll(s, target, filter, skip, x).value;
    RegroupGrouped(x);
    MapAllKindFilter(s, target, filter, skip, x, UPDATE);
    MapAllKindFilter(s, target, filter, skip, x, CREATE);
    MapAllKindFilter(s, target, filter, skip, x, MOVE);
    MapAllKindFilter(s, target, filter, skip, x, REMOVE);
    var u, c, m, r := KindFilter(x, UPDATE), KindFilter(x, CREATE), KindFilter(x, MOVE), KindFilter(x, REMOVE);
    MapAllAppend(s, target, filter, skip, u, c);
    MapAllAppend(s, target, filter, skip, u + c, m);
    MapAllAppend(s, target, filter, skip, u + c + m, r);
  }

  /** The filter that accepts every action, `map`'s default. */
  function AcceptAll(a: Action): bool { true }

  /** Folder tables that are mutual inverses. */
  ghost predicate FoldersConsistent(s: Snapshot) {
    Consistent(Tables(s.localToServer.folder, s.serverToLocal.folder))
  }

  /** Neither folder table has the key "undefined", under which a missing
      parent id is looked up. */
  predicate UndefinedUnmapped(s: Snapshot) {
    "undefined" !in s.localToServer.folder && "undefined" !in s.serverToLocal.folder
  }

  /** Mapping a local action to the server and the result back gives the
      original ids: the payload id comes back through the id swap whether
      or not a mapping for it exists, and the parent id comes back through
      the swap (CREATE, REMOVE) or through inverse folder tables (MOVE,
      UPDATE). A missing parent id comes back missing only when it is not
      looked up under "undefined". */
  lemma MapRoundTrip(s: Snapshot, a: Action)
    requires a.payload.location == Local
    requires MapOne(s, Server, AcceptAll, a).Emit?
    requires FoldersConsistent(s)
    requires a.payload.parentId.Some? || UndefinedUnmapped(s)
    ensures var b := MapOne(s, Server, AcceptAll, a).action;
      var c := MapOne(s, Local, AcceptAll, b);
      c.Emit? && c.action.kind == a.kind &&
      c.action.payload.location == Local &&
      c.action.payload.id == a.payload.id &&
      c.action.payload.parentId == a.payload.parentId
  {
  }

  /** The round trip over a whole sequence: nothing is lost or reordered. */
  lemma {:induction false} MapAllRoundTrip(s: Snapshot, acts: seq<Action>)
    requires forall i :: 0 <= i < |acts| ==> acts[i].payload.location == Local
    requires MapAll(s, Server, AcceptAll, false, acts).Ok?
    requires FoldersConsistent(s) && UndefinedUnmapped(s)
    ensures var back := MapAll(s, Local, AcceptAll, false, MapAll(s, Server, AcceptAll, false, acts).value);
      back.Ok? && |back.value| == |acts| &&
      forall i :: 0 <= i < |acts| ==>
        back.value[i].kind == acts[i].kind &&
        back.value[i].payload.id == acts[i].payload.id &&
        back.value[i].payload.parentId == acts[i].payload.parentId
    decreases |acts|
  {
    if acts != [] {
      var a := acts[0];
      var b := MapOne(s, Server, AcceptAll, a).action;
      var mid := MapAll(s, Server, AcceptAll, false, acts[1..]).value;
      assert MapAll(s, Server, AcceptAll, false, acts).value == [b] + mid;
      MapRoundTrip(s, a);
      MapAllRoundTrip(s, acts[1..]);
      assert ([b] + mid)[1..] == mid;
    }
  }

  // ---------------------------------------------------------------------
  // `findChain`

  /** The tree queries `findChain` makes, as containment relations:
      `payloadHas(item, id)` is `item.findItem(FOLDER, id)`, and
      `treeHas(x, y)` is `itemTree.findFolder(x)` existing and holding the
      folder `y` (`findFolder(x).findFolder(y)`); `location` is the tree's. */
  datatype Tree = Tree(location: Location, payloadHas: (Item, Option<Id>) -> bool, treeHas: (Option<Id>, Option<Id>) -> bool)

  /** The test `findChain` makes between the current item and an action:
      the action's payload, or its folder in the tree, contains the current
      item's (mapped) parent. */
  predicate Reaches(s: Snapshot, t: Tree, cur: Item, a: Action) {
    t.payloadHas(a.payload, MapParentId(s, cur, a.payload.location)) ||
    t.treeHas(MapId(s, a.payload, t.location), MapParentId(s, cur, t.location))
  }

  /** The action indices not yet on the chain. */
  function Unvisited(n: nat, chain: seq<nat>): set<int> {
    set i | 0 <= i < n && i !in chain
  }

  predicate OnActions(n: nat, chain: seq<nat>) {
    forall i :: 0 <= i < |chain| ==> chain[i] < n
  }

  /** `Diff.findChain`; `chain` holds the indices of the actions already
      followed. True at once when the current item reaches the target;
      otherwise the actions off the chain that the current item reaches are
      tried in order, each as the new current item. */
  function FindChain(s: Snapshot, actions: seq<Action>, t: Tree, cur: Item, target: Action, chain: seq<nat>): (r: bool)
    requires OnActions(|actions|, chain)
    ensures Reaches(s, t, cur, target) ==> r
    decreases Unvisited(|actions|, chain), 1, 0
  {
    Reaches(s, t, cur, target) || TryFrom(s, actions, t, cur, target, chain, 0)
  }

  /** The `for` loop of `findChain` over the candidate actions from index
      `k` on. */
  function TryFrom(s: Snapshot, actions: seq<Action>, t: Tree, cur: Item, target: Action, chain: seq<nat>, k: nat): bool
    requires OnActions(|actions|, chain) && k <= |actions|
    decreases Unvisited(|actions|, chain), 0, |actions| - k
  {
    if k == |actions| then false
    else
      (k !in chain && Reaches(s, t, cur, actions[k]) &&
       (assert Unvisited(|actions|, chain + [k]) < Unvisited(|actions|, chain) by {
          assert k in Unvisited(|actions|, chain) && k !in Unvisited(|actions|, chain + [k]);
        }
        FindChain(s, actions, t, actions[k].payload, target, chain + [k])))
      || TryFrom(s, actions, t, cur, target, chain, k + 1)
  }

  /** A chain of actions, given by their indices `p`, leading from `cur` to
      the target without reusing an action already on `chain`. */
  ghost predicate ChainFrom(s: Snapshot, actions: seq<Action>, t: Tree, cur: Item, target: Action, chain: seq<nat>, p: seq<nat>)
    decreases |p|
  {
    if p == [] then Reaches(s, t, cur, target)
    else
      p[0] < |actions| && p[0] !in chain && Reaches(s, t, cur, actions[p[0]]) &&
      ChainFrom(s, actions, t, actions[p[0]].payload, target, chain + [p[0]], p[1..])
  }

  /** `findChain` answers true exactly when such a chain exists. */
  lemma FindChainSound(s: Snapshot, actions: seq<Action>, t: Tree, cur: Item, target: Action, chain: seq<nat>)
    requires OnActions(|actions|, chain)
    ensures FindChain(s, actions, t, cur, target, chain) <==> exists p :: ChainFrom(s, actions, t, cur, target, chain, p)
  {
    if FindChain(s, actions, t, cur, target, chain) {
      var p := ChainOfFind(s, actions, t, cur, target, chain);
      assert exists q :: ChainFrom(s, actions, t, cur, target, chain, q);
    }
    if exists p :: ChainFrom(s, actions, t, cur, target, chain, p) {
      var p :| ChainFrom(s, actions, t, cur, target, chain, p);
      FindOfChain(s, actions, t, cur, target, chain, p);
    }
  }

  lemma {:induction false} ChainOfFind(s: Snapshot, actions: seq<Action>, t: Tree, cur: Item, target: Action, chain: seq<nat>)
    returns (p: seq<nat>)
    requires OnActions(|actions|, chain)
    requires FindChain(s, actions, t, cur, target, chain)
    ensures ChainFrom(s, actions, t, cur, target, chain, p)
    decreases Unvisited(|actions|, chain), 1, 0
  {
    if Reaches(s, t, cur, target) {
      p := [];
    } else {
      p := ChainOfTry(s, actions, t, cur, target, chain, 0);
    }
  }

  lemma {:induction false} ChainOfTry(s: Snapshot, actions: seq<Action>, t: Tree, cur: Item, target: Action, chain: seq<nat>, k: nat)
    returns (p: seq<nat>)
    requires OnActions(|actions|, chain) && k <= |actions|
    requires TryFrom(s, actions, t, cur, target, chain, k)
    ensures ChainFrom(s, actions, t, cur, target, chain, p)
    decreases Unvisited(|actions|, chain), 0, |actions| - k
  {
    if k !in chain && Reaches(s, t, cur, actions[k]) && FindChain(s, actions, t, actions[k].payload, target, chain + [k]) {
      assert k in Unvisited(|actions|, chain) && k !in Unvisited(|actions|, chain + [k]);
      var q := ChainOfFind(s, actions, t, actions[k].payload, target, chain + [k]);
      p := [k] + q;
      assert p[1..] == q;
    } else {
      p := ChainOfTry(s, actions, t, cur, target, chain, k + 1);
    }
  }

  lemma {:induction false} FindOfChain(s: Snapshot, actions: seq<Action>, t: Tree, cur: Item, target: Action, chain: seq<nat>, p: seq<nat>)
    requires OnActions(|actions|, chain)
    requires ChainFrom(s, actions, t, cur, target, chain, p)
    ensures FindChain(s, actions, t, cur, target, chain)
    decreases |p|
  {
    if p != [] {
      var k := p[0];
      FindOfChain(s, actions, t, actions[k].payload, target, chain + [k], p[1..]);
      TryReaches(s, actions, t, cur, target, chain, 0, k);
    }
  }

  /** The loop reaches candidate `k` unless an earlier one succeeds. */
  lemma {:induction false} TryReaches(s: Snapshot, actions: seq<Action>, t: Tree, cur: Item, target: Action, chain: seq<nat>, j: nat, k: nat)
    requires OnActions(|actions|, chain) && j <= k < |actions|
    requires k !in chain && Reaches(s, t, cur, actions[k])
    requires FindChain(s, actions, t, actions[k].payload, target, chain + [k])
    ensures TryFrom(s, actions, t, cur, target, chain, j)
    decreases k - j
  {
    if j < k {
      TryReaches(s, actions, t, cur, target, chain, j + 1, k);
    }
  }

  /** Every chain uses each action at most once, so its length is bounded
      by the number of actions off the chain: the recursion of `findChain`
      is at most `actions.length` deep. */
  lemma {:induction false} ChainLengthBound(s: Snapshot, actions: seq<Action>, t: Tree, cur: Item, target: Action, chain: seq<nat>, p: seq<nat>)
    requires ChainFrom(s, actions, t, cur, target, chain, p)
    ensures |p| <= |Unvisited(|actions|, chain)| <= |actions|
    decreases |p|
  {
    var u := Unvisited(|actions|, chain);
    UnvisitedSize(|actions|, chain);
    if p != [] {
      var k := p[0];
      ChainLengthBound(s, actions, t, actions[k].payload, target, chain + [k], p[1..]);
      assert Unvisited(|actions|, chain + [k]) == u - {k};
      assert k in u;
    }
  }

  lemma {:induction false} UnvisitedSize(n: nat, chain: seq<nat>)
    ensures |Unvisited(n, chain)| <= n
    decreases n
  {
    if n == 0 {
      assert Unvisited(n, chain) == {};
    } else {
      UnvisitedSize(n - 1, chain);
      SubsetSize(Unvisited(n, chain), Unvisited(n - 1, chain) + {n - 1});
    }
  }

  lemma SubsetSize<T>(a: set<T>, b: set<T>)
    requires a <= b
    ensures |a| <= |b|
  {
    assert b == a + (b - a);
  }

  // A worked example: three folders moved into one another in a cycle.

  function Folder(id: Id, parentId: Id): Item {
    Item(Some(id), Some(parentId), FolderType, Local, id)
  }

  function MoveOf(id: Id, parentId: Id): Action {
    Action(MOVE, Folder(id, parentId), None, None, None)
  }

  /** A payload contains exactly the folder it is; the tree knows no folder. */
  function FlatTree(): Tree {
    Tree(Local, (item: Item, id: Option<Id>) => id.Some? && item.id == id, (x: Option<Id>, y: Option<Id>) => false)
  }

  function EmptySnapshot(): Snapshot {
    Snapshot(TypeTables(map[], map[]), TypeTables(map[], map[]))
  }

  /** A moves into B, B into C and C into A: starting from A's payload,
      the chain A, B, C leads back to A. */
  lemma ThreeCycleFound()
    ensures var acts := [MoveOf("A", "B"), MoveOf("B", "C"), MoveOf("C", "A")];
      FindChain(EmptySnapshot(), acts, FlatTree(), acts[0].payload, acts[0], [])
  {
    var s, t := EmptySnapshot(), FlatTree();
    var acts := [MoveOf("A", "B"), MoveOf("B", "C"), MoveOf("C", "A")];
    assert [] + [1] == [1] && [1, 2][1..] == [2] && [2][1..] == [];
    assert ChainFrom(s, acts, t, acts[2].payload, acts[0], [1, 2], []);
    assert ChainFrom(s, acts, t, acts[1].payload, acts[0], [1], [2]);
    assert ChainFrom(s, acts, t, acts[0].payload, acts[0], [], [1, 2]);
    FindOfChain(s, acts, t, acts[0].payload, acts[0], [], [1, 2]);
  }

  /** With C moved into a fourth folder D instead, no chain returns to A. */
  lemma ThreeChainNotFound()
    ensures var acts := Acyclic();
      !FindChain(EmptySnapshot(), acts, FlatTree(), acts[0].payload, acts[0], [])
  {
    var s, t := EmptySnapshot(), FlatTree();
    var acts := Acyclic();
    FindChainSound(s, acts, t, acts[0].payload, acts[0], []);
    forall p
      ensures !ChainFrom(s, acts, t, acts[0].payload, acts[0], [], p)
    {
      NoChainFromA(p);
    }
  }

  function Acyclic(): seq<Action> {
    [MoveOf("A", "B"), MoveOf("B", "C"), MoveOf("C", "D")]
  }

  lemma NoChainFromA(p: seq<nat>)
    ensures !ChainFrom(EmptySnapshot(), Acyclic(), FlatTree(), Acyclic()[0].payload, Acyclic()[0], [], p)
  {
    if p != [] && p[0] == 1 {
      assert [] + [1] == [1];
      NoChainFromB(p[1..]);
    }
  }

  lemma NoChainFromB(p: seq<nat>)
    ensures !ChainFrom(EmptySnapshot(), Acyclic(), FlatTree(), Acyclic()[1].payload, Acyclic()[0], [1], p)
  {
    if p != [] && p[0] == 2 {
      NoChainFromC(p[1..]);
    }
  }

  lemma NoChainFromC(p: seq<nat>)
    ensures !ChainFrom(EmptySnapshot(), Acyclic(), FlatTree(), Acyclic()[2].payload, Acyclic()[0], [1, 2], p)
  {
  }
}
