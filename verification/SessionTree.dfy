/**
 * Normalising the parent and child links of an imported session map, whatever order the map is
 * visited in (app/internal/legacystate/legacystate.go).
 */
module SessionTree {
  import opened SortedNames
  import opened SessionRelations

  datatype Session = Session(parent: string, children: seq<string>)

  type Sessions = map<string, Session>

  const ROOT_PREFIX := "root:"

  /** A parent that names a session's implicit root rather than a session. */
  predicate Pseudo(parent: string) {
    ROOT_PREFIX <= parent
  }

  lemma {:induction false} PseudoNamesARoot(parent: string)
    ensures Pseudo(parent) <==> exists name: string :: parent == "root:" + name
  {
    if Pseudo(parent) {
      assert parent == "root:" + parent[5..];
    }
  }

  function ParentsOf(sessions: Sessions): (parents: Parents)
    ensures parents.Keys == sessions.Keys
  {
    map n | n in sessions :: sessions[n].parent
  }

  // ---- cycles -------------------------------------------------------------------------------

  /** The walk along parent links stops, at a session without a parent or a missing one. */
  ghost predicate Ends(parents: Parents, name: string) {
    exists n: nat :: Up(parents, name, n) == ""
  }

  ghost predicate Reaches(parents: Parents, from: string, name: string) {
    name != "" && exists n: nat :: Up(parents, from, n) == name
  }

  /** True also for a parent that only leads into a cycle the child is not part of. */
  method WouldCreateCycle(parents: Parents, child: string, parent: string) returns (r: bool)
    ensures r <==> Reaches(parents, parent, child) || !Ends(parents, parent)
  {
    var seen: set<string> := {};
    var cur := parent;
    ghost var i: nat := 0;
    while cur != ""
      invariant cur == Up(parents, parent, i)
      invariant forall k :: 0 <= k < i ==> Up(parents, parent, k) != child && Up(parents, parent, k) != ""
      invariant forall name :: name in seen ==> exists k: nat :: k < i && Up(parents, parent, k) == name
      invariant seen <= parents.Keys
      decreases parents.Keys - seen
    {
      if cur == child {
        return true;
      }
      if cur in seen {
        ghost var j: nat :| j < i && Up(parents, parent, j) == cur;
        forall n: nat ensures Up(parents, parent, n) != "" {
          var k := WalksRepeat(parents, parent, j, i, n);
        }
        return true;
      }
      seen := seen + {cur};
      if cur !in parents {
        assert Up(parents, parent, i + 1) == "";
        StopsBefore(parents, parent, child, i + 1);
        return false;
      }
      cur := parents[cur];
      i := i + 1;
    }
    StopsBefore(parents, parent, child, i);
    return false;
  }

  lemma {:induction false} StopsBefore(parents: Parents, from: string, name: string, i: nat)
    requires Up(parents, from, i) == ""
    requires forall k :: 0 <= k < i ==> Up(parents, from, k) != name
    ensures !Reaches(parents, from, name) && Ends(parents, from)
  {
    forall n: nat | n >= i ensures Up(parents, from, n) == "" {
      UpStaysEmpty(parents, from, i, n);
    }
  }

  lemma {:induction false} EndsFromParent(parents: Parents, name: string)
    requires name in parents
    ensures name != "" ==> (Ends(parents, name) <==> Ends(parents, parents[name]))
  {
    if name != "" {
      if n: nat :| Up(parents, parents[name], n) == "" {
        UpAdds(parents, name, 1, n);
        assert Up(parents, name, 1) == Next(parents, Up(parents, name, 0));
        assert Up(parents, name, 1 + n) == "";
      }
      if n: nat :| Up(parents, name, n) == "" {
        assert Up(parents, name, 1) == Next(parents, Up(parents, name, 0));
        assert n > 0;
        UpAdds(parents, name, 1, n - 1);
      }
    }
  }

  /** A walk that ends never comes back to where it started. */
  lemma {:induction false} EndingWalksDoNotReturn(parents: Parents, name: string)
    requires Ends(parents, name)
    ensures !Above(parents, name, name)
  {
    if Above(parents, name, name) {
      var n: nat :| n > 0 && Up(parents, name, n) == name;
      var e: nat :| Up(parents, name, e) == "";
      var k := LastOfCycle(parents, name, n, e);
      UpStaysEmpty(parents, name, k, n);
    }
  }

  lemma {:induction false} LastOfCycle(parents: Parents, name: string, n: nat, e: nat) returns (k: nat)
    requires n > 0 && Up(parents, name, n) == name
    ensures k < n && Up(parents, name, e) == Up(parents, name, k)
    decreases e
  {
    if e < n {
      k := e;
    } else {
      UpAdds(parents, name, n, e - n);
      k := LastOfCycle(parents, name, n, e - n);
    }
  }

  // ---- what the passes promise ------------------------------------------------------------------

  /** A listed session is left without a parent only if the link would close or enter a cycle. */
  ghost predicate Settled(parents: Parents, p: string, n: string) {
    n in parents && parents[n] == "" && n != "" && p != "" && n != p ==> Reaches(parents, p, n) || !Ends(parents, p)
  }

  /** Only sessions without a parent gain one, and only from a session that lists them. */
  ghost predicate Adopted(before: Sessions, parents: Parents) {
    && parents.Keys == before.Keys
    && (forall n :: n in before && parents[n] != before[n].parent ==>
          before[n].parent == "" && parents[n] in before && n in before[parents[n]].children && n != "")
    && (forall n, p :: p in before && n in before[p].children ==> Settled(parents, p, n))
  }

  ghost predicate LinkStands(parents: Parents, n: string)
    requires n in parents
  {
    var p := parents[n];
    if Pseudo(p) then p != ROOT_PREFIX && p[|ROOT_PREFIX|..] != n && p[|ROOT_PREFIX|..] in parents
    else p in parents && p != n
  }

  /** Links are cleared, never changed; a link that stands and whose walk ends is kept. */
  ghost predicate Pruned(before: Parents, after: Parents) {
    && after.Keys == before.Keys
    && (forall n :: n in after ==> after[n] == before[n] || after[n] == "")
    && (forall n :: n in after && after[n] != "" ==>
          LinkStands(after, n) && (Pseudo(after[n]) || Ends(after, after[n])))
    && (forall n ::
          n in before && before[n] != "" && LinkStands(before, n) && (Pseudo(before[n]) || Ends(before, before[n])) ==>
          after[n] == before[n])
  }

  /** The sessions that name p as their parent, if p is one that can be a parent. */
  ghost function ChildrenOf(parents: Parents, p: string): set<string> {
    set n | n in parents && n != "" && p != "" && !Pseudo(p) && parents[n] == p
  }

  ghost predicate ChildrenDerived(sessions: Sessions) {
    forall p :: p in sessions ==> sessions[p].children == Sorted(ChildrenOf(ParentsOf(sessions), p))
  }

  /** What normalising establishes. */
  ghost predicate Normal(sessions: Sessions) {
    var parents := ParentsOf(sessions);
    && ChildrenDerived(sessions)
    && (forall n :: n in parents && parents[n] != "" ==>
          LinkStands(parents, n) && (Pseudo(parents[n]) || Ends(parents, parents[n])))
  }

  /** What normalising does to a map of sessions. */
  ghost predicate Normalises(before: Sessions, after: Sessions) {
    && (exists adopted :: Adopted(before, adopted) && Pruned(adopted, ParentsOf(after)))
    && ChildrenDerived(after)
  }

  lemma {:induction false} NormalisedIsNormal(before: Sessions, after: Sessions)
    requires Normalises(before, after)
    ensures Normal(after)
  {
    var adopted :| Adopted(before, adopted) && Pruned(adopted, ParentsOf(after));
  }

  /** No session with an ordinary parent is above itself: the links form a forest. */
  lemma {:induction false} NormalIsAForest(sessions: Sessions, name: string)
    requires Normal(sessions) && name in sessions
    requires sessions[name].parent != "" && !Pseudo(sessions[name].parent)
    ensures !Above(ParentsOf(sessions), name, name)
  {
    var parents := ParentsOf(sessions);
    EndsFromParent(parents, name);
    if name != "" {
      EndingWalksDoNotReturn(parents, name);
    }
  }

  /** Children and parents name each other. */
  lemma {:induction false} LinksMirror(sessions: Sessions, p: string, n: string)
    requires Normal(sessions) && p in sessions
    ensures n in sessions[p].children <==>
              n in sessions && n != "" && p != "" && !Pseudo(p) && sessions[n].parent == p
  {
    assert sessions[p].children == Sorted(ChildrenOf(ParentsOf(sessions), p));
  }

  lemma {:induction false} NothingToAdopt(sessions: Sessions, adopted: Parents)
    requires Normal(sessions) && Adopted(sessions, adopted)
    ensures adopted == ParentsOf(sessions)
  {
    forall n | n in sessions ensures adopted[n] == sessions[n].parent {
      if adopted[n] != sessions[n].parent {
        LinksMirror(sessions, adopted[n], n);
      }
    }
  }

  lemma {:induction false} NothingToPrune(sessions: Sessions, after: Parents)
    requires Normal(sessions) && Pruned(ParentsOf(sessions), after)
    ensures after == ParentsOf(sessions)
  {
  }

  lemma {:induction false} SameLinksSameTree(a: Sessions, b: Sessions)
    requires ChildrenDerived(a) && ChildrenDerived(b) && ParentsOf(a) == ParentsOf(b)
    ensures a == b
  {
    assert a.Keys == ParentsOf(a).Keys;
    forall n | n in a ensures a[n] == b[n] {
      assert ParentsOf(a)[n] == ParentsOf(b)[n];
    }
  }

  /** A second run changes nothing, in whatever order it visits the map. */
  lemma {:induction false} NormalisingAgainChangesNothing(sessions: Sessions, again: Sessions)
    requires Normal(sessions) && Normalises(sessions, again)
    ensures again == sessions
  {
    hide Normal, Adopted, Pruned, ChildrenDerived;
    var adopted :| Adopted(sessions, adopted) && Pruned(adopted, ParentsOf(again));
    NothingToAdopt(sessions, adopted);
    NothingToPrune(sessions, ParentsOf(again));
    NormalIsDerived(sessions);
    SameLinksSameTree(sessions, again);
  }

  lemma {:induction false} NormalIsDerived(sessions: Sessions)
    requires Normal(sessions)
    ensures ChildrenDerived(sessions)
  {
  }

  // ---- links added and links cleared ----------------------------------------------------------------

  /** Giving a parent to a session without one leaves every walk that did not stop there as it was. */
  lemma {:induction false} UpWithLink(parents: Parents, c: string, q: string, name: string, k: nat)
    requires c in parents && parents[c] == "" && Up(parents, name, k) != ""
    ensures Up(parents[c := q], name, k) == Up(parents, name, k)
  {
    if k > 0 {
      UpWithLink(parents, c, q, name, k - 1);
    }
  }

  lemma {:induction false} SettledStays(parents: Parents, c: string, q: string, p: string, n: string)
    requires c in parents && parents[c] == "" && Settled(parents, p, n)
    ensures Settled(parents[c := q], p, n)
  {
    if Reaches(parents, p, n) {
      var k: nat :| Up(parents, p, k) == n;
      UpWithLink(parents, c, q, p, k);
    }
    if !Ends(parents, p) {
      var grown := parents[c := q];
      forall k: nat ensures Up(grown, p, k) != "" {
        UpWithLink(parents, c, q, p, k);
      }
    }
  }

  /** Clearing a link only shortens walks. */
  lemma {:induction false} UpWithoutLink(parents: Parents, c: string, name: string, k: nat)
    requires c in parents
    ensures Up(parents[c := ""], name, k) == Up(parents, name, k) || Up(parents[c := ""], name, k) == ""
  {
    if k > 0 {
      UpWithoutLink(parents, c, name, k - 1);
    }
  }

  lemma {:induction false} EndingStays(parents: Parents, c: string, name: string)
    requires c in parents && Ends(parents, name)
    ensures Ends(parents[c := ""], name)
  {
    var k: nat :| Up(parents, name, k) == "";
    UpWithoutLink(parents, c, name, k);
  }

  lemma {:induction false} ParentsUpdate(sessions: Sessions, c: string, session: Session)
    requires c in sessions
    ensures ParentsOf(sessions[c := session]) == ParentsOf(sessions)[c := session.parent]
  {
  }

  // ---- the passes --------------------------------------------------------------------------------------

  ghost function NonEmpty(names: seq<string>): set<string> {
    set n | n in names && n != ""
  }

  /** Blank and repeated names are dropped and the rest sorted. */
  method UniqueSessionNames(names: seq<string>) returns (r: seq<string>)
    ensures r == Sorted(NonEmpty(names))
  {
    hide Sorted;
    if |names| == 0 {
      assert NonEmpty(names) == {};
      NothingSorted();
      return [];
    }
    var seen: set<string>, kept: seq<string> := {}, [];
    for i := 0 to |names|
      invariant seen == NonEmpty(names[..i])
      invariant forall n :: n in kept <==> n in seen
    {
      assert names[..i + 1] == names[..i] + [names[i]];
      if names[i] != "" && names[i] !in seen {
        seen := seen + {names[i]};
        kept := kept + [names[i]];
      }
    }
    assert names[..|names|] == names;
    assert (set n | n in kept) == seen;
    return Sorted(set n | n in kept);
  }

  lemma {:induction false} NothingSorted()
    ensures Sorted({}) == []
  {
  }

  class Forest {
    var sessions: Sessions

    constructor (sessions: Sessions)
      ensures this.sessions == sessions
    {
      this.sessions := sessions;
    }

    method SetParent(name: string, parent: string)
      requires name in sessions
      modifies this
      ensures sessions == old(sessions)[name := old(sessions)[name].(parent := parent)]
      ensures ParentsOf(sessions) == ParentsOf(old(sessions))[name := parent]
    {
      ParentsUpdate(sessions, name, sessions[name].(parent := parent));
      sessions := sessions[name := sessions[name].(parent := parent)];
    }

    method SetChildren(name: string, children: seq<string>)
      requires name in sessions
      modifies this
      ensures sessions == old(sessions)[name := old(sessions)[name].(children := children)]
      ensures ParentsOf(sessions) == ParentsOf(old(sessions))
    {
      ParentsUpdate(sessions, name, sessions[name].(children := children));
      sessions := sessions[name := sessions[name].(children := children)];
    }

    /** First pass: a parent's listed children that have no parent yet are adopted. */
    method Adopt()
      modifies this
      ensures Adopted(old(sessions), ParentsOf(sessions))
    {
      hide Adopting, Adopted;
      ghost var before := sessions;
      var left := sessions.Keys;
      NoneAdopted(sessions);
      while left != {}
        invariant left <= before.Keys && Adopting(before, sessions, left, left)
      {
        var parentName :| parentName in left;
        assert left == (left - {parentName}) + {parentName};
        left := left - {parentName};
        AdoptChildren(before, left, parentName);
      }
      AllAdopted(before, sessions);
    }

    method AdoptChildren(ghost before: Sessions, ghost left: set<string>, parentName: string)
      requires parentName in before && parentName !in left
      requires Adopting(before, sessions, left + {parentName}, left + {parentName})
      modifies this
      ensures Adopting(before, sessions, left, left)
    {
      hide Sorted, Settled, Reaches, Ends, Adopting;
      ghost var listed := before[parentName].children;
      ghost var open := left + {parentName};
      SameNames(before, sessions, open, open, parentName);
      var children := UniqueSessionNames(sessions[parentName].children);
      Untouched(before, sessions, left, parentName, children);
      SetChildren(parentName, children);
      for i := 0 to |children|
        invariant Adopting(before, sessions, left, open)
        invariant forall j :: 0 <= j < i ==> Settled(ParentsOf(sessions), parentName, children[j])
      {
        SameNames(before, sessions, left, open, parentName);
        var childName := children[i];
        assert childName in NonEmpty(listed);
        ghost var parents := ParentsOf(sessions);
        var cycle := true;
        if childName in sessions && sessions[childName].parent == "" {
          if childName != parentName {
            cycle := WouldCreateCycle(ParentsOf(sessions), childName, parentName);
          }
          if !cycle {
            StillAdopting(before, sessions, left, open, childName, parentName);
            SetParent(childName, parentName);
            forall j | 0 <= j < i ensures Settled(ParentsOf(sessions), parentName, children[j]) {
              SettledStays(parents, childName, parentName, parentName, children[j]);
            }
          }
        }
        SettledNow(parents, ParentsOf(sessions), parentName, childName, cycle);
      }
      OneSettled(before, sessions, left, parentName, children);
    }

    /** Second pass: every children list is emptied. */
    method ClearChildren()
      modifies this
      ensures ParentsOf(sessions) == ParentsOf(old(sessions))
      ensures forall p :: p in sessions ==> sessions[p].children == []
    {
      var left := sessions.Keys;
      while left != {}
        invariant ParentsOf(sessions) == ParentsOf(old(sessions)) && left <= sessions.Keys
        invariant forall p :: p in sessions && p !in left ==> sessions[p].children == []
      {
        var name :| name in left;
        left := left - {name};
        SetChildren(name, []);
      }
    }

    /** Third pass: links that do not stand or do not end are cleared, the others filed as children. */
    method LinkChildren()
      requires forall p :: p in sessions ==> sessions[p].children == []
      modifies this
      ensures Pruned(ParentsOf(old(sessions)), ParentsOf(sessions))
      ensures Filed(sessions, {})
    {
      hide Pruning, Pruned, Filed;
      ghost var before := ParentsOf(sessions);
      var left := sessions.Keys;
      NonePruned(sessions);
      while left != {}
        invariant left <= sessions.Keys && sessions.Keys == before.Keys
        invariant Pruning(before, ParentsOf(sessions), left) && Filed(sessions, left)
      {
        var childName :| childName in left;
        LinkChild(before, left, childName);
        left := left - {childName};
      }
      AllPruned(before, ParentsOf(sessions));
    }

    method LinkChild(ghost before: Parents, ghost left: set<string>, childName: string)
      requires childName in left && left <= sessions.Keys
      requires Pruning(before, ParentsOf(sessions), left) && Filed(sessions, left)
      modifies this
      ensures Pruning(before, ParentsOf(sessions), left - {childName}) && Filed(sessions, left - {childName})
      ensures sessions.Keys == old(sessions).Keys
    {
      hide Pruning, Pruned, Filed, Ends, Reaches;
      ghost var parents := ParentsOf(sessions);
      var parent := sessions[childName].parent;
      var clear := false;
      if parent == "" || Pseudo(parent) {
        if parent != "" {
          var target := parent[|ROOT_PREFIX|..];
          clear := target == "" || target == childName || target !in sessions;
        }
        if !clear {
          KeepLink(before, parents, left, childName);
          NotFiled(sessions, left, childName);
        }
      } else {
        clear := parent !in sessions || parent == childName;
        if !clear {
          clear := WouldCreateCycle(ParentsOf(sessions), childName, parent);
          if clear {
            CycleIsNotGood(parents, childName);
          }
        }
        if !clear {
          KeepLink(before, parents, left, childName);
          FiledUnder(sessions, left, childName, parent);
          SetChildren(parent, sessions[parent].children + [childName]);
        }
      }
      if clear {
        ClearLink(before, parents, left, childName);
        ClearedIsFiled(sessions, left, childName);
        SetParent(childName, "");
      }
    }

    /** Last pass: the lists become sorted. */
    method SortChildren()
      requires Filed(sessions, {})
      modifies this
      ensures ParentsOf(sessions) == ParentsOf(old(sessions))
      ensures ChildrenDerived(sessions)
    {
      hide Sorted;
      ghost var parents := ParentsOf(sessions);
      var left := sessions.Keys;
      while left != {}
        invariant ParentsOf(sessions) == parents && left <= sessions.Keys
        invariant forall p :: p in left ==> NonEmpty(sessions[p].children) == ChildrenOf(parents, p)
        invariant forall p :: p in sessions && p !in left ==> sessions[p].children == Sorted(ChildrenOf(parents, p))
      {
        var name :| name in left;
        left := left - {name};
        var children := UniqueSessionNames(sessions[name].children);
        SetChildren(name, children);
      }
    }

    method NormalizeSessionTree()
      modifies this
      ensures Normalises(old(sessions), sessions)
      ensures Normal(sessions)
    {
      hide Adopted, Pruned, ChildrenDerived, Filed;
      ghost var before := sessions;
      Adopt();
      ghost var adopted := ParentsOf(sessions);
      ClearChildren();
      LinkChildren();
      SortChildren();
      assert Adopted(before, adopted) && Pruned(adopted, ParentsOf(sessions));
      NormalisedIsNormal(before, sessions);
    }
  }

  ghost predicate Good(parents: Parents, n: string)
    requires n in parents
  {
    parents[n] != "" && LinkStands(parents, n) && (Pseudo(parents[n]) || Ends(parents, parents[n]))
  }

  /** The third pass so far; the sessions in `left` are still to be looked at. */
  ghost predicate Pruning(before: Parents, now: Parents, left: set<string>) {
    && now.Keys == before.Keys
    && (forall n :: n in now ==> now[n] == before[n] || now[n] == "")
    && (forall n :: n in now && n in left ==> now[n] == before[n])
    && (forall n :: n in now && n !in left && now[n] != "" ==> Good(now, n))
    && (forall n :: n in now && n !in left && Good(before, n) ==> now[n] == before[n])
    && (forall n :: Ends(before, n) ==> Ends(now, n))
  }

  /** Each list holds the sessions looked at so far that name its owner. */
  ghost predicate Filed(sessions: Sessions, left: set<string>) {
    forall p :: p in sessions ==> NonEmpty(sessions[p].children) == ChildrenOf(ParentsOf(sessions), p) - left
  }

  lemma {:induction false} NonePruned(sessions: Sessions)
    requires forall p :: p in sessions ==> sessions[p].children == []
    ensures Pruning(ParentsOf(sessions), ParentsOf(sessions), sessions.Keys) && Filed(sessions, sessions.Keys)
  {
  }

  lemma {:induction false} AllPruned(before: Parents, now: Parents)
    requires Pruning(before, now, {})
    ensures Pruned(before, now)
  {
    hide LinkStands, Ends;
    forall n | n in now && now[n] != "" ensures LinkStands(now, n) && (Pseudo(now[n]) || Ends(now, now[n])) {
      assert Good(now, n);
    }
    forall n | n in before && before[n] != "" && LinkStands(before, n) && (Pseudo(before[n]) || Ends(before, before[n]))
      ensures now[n] == before[n]
    {
      assert Good(before, n);
    }
  }

  lemma {:induction false} KeepLink(before: Parents, now: Parents, left: set<string>, n: string)
    requires Pruning(before, now, left) && n in left && n in now && (now[n] == "" || Good(now, n))
    ensures Pruning(before, now, left - {n})
  {
    hide Ends, LinkStands;
  }

  lemma {:induction false} ClearLink(before: Parents, now: Parents, left: set<string>, n: string)
    requires Pruning(before, now, left) && n in left && n in now && !Good(now, n)
    ensures Pruning(before, now[n := ""], left - {n})
  {
    hide Ends, LinkStands;
    GoodStays(before, now, left, n);
    var cleared := now[n := ""];
    forall m | Ends(now, m) ensures Ends(cleared, m) {
      EndingStays(now, n, m);
    }
    forall m | m in cleared && m !in left && cleared[m] != "" ensures Good(cleared, m) {
      StandsWithout(now, n, m);
    }
  }

  lemma {:induction false} StandsWithout(now: Parents, n: string, m: string)
    requires n in now && m in now && m != n
    ensures LinkStands(now[n := ""], m) == LinkStands(now, m)
  {
  }

  lemma {:induction false} GoodStays(before: Parents, now: Parents, left: set<string>, n: string)
    requires Pruning(before, now, left) && n in left && n in now
    ensures Good(before, n) ==> Good(now, n)
  {
  }

  lemma {:induction false} CycleIsNotGood(parents: Parents, n: string)
    requires n in parents && !Pseudo(parents[n])
    requires Reaches(parents, parents[n], n) || !Ends(parents, parents[n])
    ensures !Good(parents, n)
  {
    if Ends(parents, parents[n]) {
      var k: nat :| Up(parents, parents[n], k) == n;
      assert Up(parents, n, 1) == Next(parents, Up(parents, n, 0));
      UpAdds(parents, n, 1, k);
      EndsFromParent(parents, n);
      EndingWalksDoNotReturn(parents, n);
    }
  }

  lemma {:induction false} NotFiled(sessions: Sessions, left: set<string>, n: string)
    requires Filed(sessions, left) && n in sessions && (sessions[n].parent == "" || Pseudo(sessions[n].parent))
    ensures Filed(sessions, left - {n})
  {
    forall p | p in sessions
      ensures NonEmpty(sessions[p].children) == ChildrenOf(ParentsOf(sessions), p) - (left - {n})
    {
    }
  }

  lemma {:induction false} ClearedIsFiled(sessions: Sessions, left: set<string>, n: string)
    requires Filed(sessions, left) && n in sessions && n in left
    ensures Filed(sessions[n := sessions[n].(parent := "")], left - {n})
  {
    var cleared := sessions[n := sessions[n].(parent := "")];
    ParentsUpdate(sessions, n, sessions[n].(parent := ""));
    forall p | p in cleared
      ensures NonEmpty(cleared[p].children) == ChildrenOf(ParentsOf(cleared), p) - (left - {n})
    {
    }
  }

  lemma {:induction false} FiledUnder(sessions: Sessions, left: set<string>, n: string, p: string)
    requires Filed(sessions, left) && n in sessions && n in left && sessions[n].parent == p
    requires p in sessions && p != "" && !Pseudo(p)
    ensures Filed(sessions[p := sessions[p].(children := sessions[p].children + [n])], left - {n})
  {
    var filed := sessions[p := sessions[p].(children := sessions[p].children + [n])];
    ParentsUpdate(sessions, p, filed[p]);
    assert ParentsOf(filed) == ParentsOf(sessions);
    forall q | q in filed
      ensures NonEmpty(filed[q].children) == ChildrenOf(ParentsOf(filed), q) - (left - {n})
    {
      assert NonEmpty(filed[q].children) ==
        NonEmpty(sessions[q].children) + if q == p && n != "" then {n} else {};
    }
  }

  /** The first pass so far: parents in `left` are untouched, those not in `open` are settled. */
  ghost predicate Adopting(before: Sessions, sessions: Sessions, left: set<string>, open: set<string>) {
    && sessions.Keys == before.Keys
    && (forall n :: n in before && sessions[n].parent != before[n].parent ==>
          before[n].parent == "" && n != "" && sessions[n].parent in before &&
          n in before[sessions[n].parent].children)
    && (forall p :: p in left && p in before ==> sessions[p].children == before[p].children)
    && (forall n, p :: p in before && p !in open && n in before[p].children ==> Settled(ParentsOf(sessions), p, n))
  }

  lemma {:induction false} NoneAdopted(sessions: Sessions)
    ensures Adopting(sessions, sessions, sessions.Keys, sessions.Keys)
  {
  }

  lemma {:induction false} AllAdopted(before: Sessions, sessions: Sessions)
    requires Adopting(before, sessions, {}, {})
    ensures Adopted(before, ParentsOf(sessions))
  {
    hide Settled;
  }

  lemma {:induction false} SameNames(before: Sessions, sessions: Sessions, left: set<string>, open: set<string>,
                                     p: string)
    requires Adopting(before, sessions, left, open) && p in before
    ensures sessions.Keys == before.Keys
    ensures p in left ==> sessions[p].children == before[p].children
  {
  }

  lemma {:induction false} Untouched(before: Sessions, sessions: Sessions, left: set<string>, p: string,
                                     children: seq<string>)
    requires p in before && p !in left && Adopting(before, sessions, left + {p}, left + {p})
    ensures p in sessions && Adopting(before, sessions[p := sessions[p].(children := children)], left, left + {p})
  {
    hide Settled;
    ParentsUpdate(sessions, p, sessions[p].(children := children));
    assert ParentsOf(sessions)[p := sessions[p].parent] == ParentsOf(sessions);
  }

  lemma {:induction false} StillAdopting(before: Sessions, sessions: Sessions, left: set<string>, open: set<string>,
                                         c: string, q: string)
    requires Adopting(before, sessions, left, open)
    requires c in before && c in sessions && sessions[c].parent == "" && c != ""
    requires q in before && c in before[q].children
    ensures Adopting(before, sessions[c := sessions[c].(parent := q)], left, open)
  {
    hide Settled;
    var parents := ParentsOf(sessions);
    ParentsUpdate(sessions, c, sessions[c].(parent := q));
    forall n, p | p in before && p !in open && n in before[p].children ensures Settled(parents[c := q], p, n) {
      SettledStays(parents, c, q, p, n);
    }
  }

  lemma {:induction false} SettledNow(before: Parents, after: Parents, p: string, n: string, cycle: bool)
    requires after == if cycle then before else before[n := p]
    requires cycle && n in before && before[n] == "" && n != p ==> Reaches(before, p, n) || !Ends(before, p)
    ensures Settled(after, p, n)
  {
  }

  lemma {:induction false} OneSettled(before: Sessions, sessions: Sessions, left: set<string>, p: string,
                                      children: seq<string>)
    requires p in before && Adopting(before, sessions, left, left + {p})
    requires children == Sorted(NonEmpty(before[p].children))
    requires forall j :: 0 <= j < |children| ==> Settled(ParentsOf(sessions), p, children[j])
    ensures Adopting(before, sessions, left, left)
  {
    forall n | n in before[p].children ensures Settled(ParentsOf(sessions), p, n) {
      if n != "" {
        assert n in NonEmpty(before[p].children);
        assert n in children;
      }
    }
  }
}
