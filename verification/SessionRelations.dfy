/**
 * The tree relation between sessions, computed from parent links alone
 * (app/internal/domain/session.go). A link may name a missing session, and links may form
 * cycles; a nil map entry is a missing session here.
 */
module SessionRelations {
  import opened SortedNames

  /** Each session's parent link; the empty name is no parent. */
  type Parents = map<string, string>

  // ---- following parent links ---------------------------------------------------------------

  ghost function Next(parents: Parents, name: string): string {
    if name != "" && name in parents then parents[name] else ""
  }

  /** The name n links above; once the links end, it is empty. */
  ghost function Up(parents: Parents, name: string, n: nat): string {
    if n == 0 then name else Next(parents, Up(parents, name, n - 1))
  }

  lemma {:induction false} UpAdds(parents: Parents, name: string, a: nat, b: nat)
    ensures Up(parents, name, a + b) == Up(parents, Up(parents, name, a), b)
  {
    if b > 0 {
      UpAdds(parents, name, a, b - 1);
    }
  }

  lemma {:induction false} UpStaysEmpty(parents: Parents, name: string, a: nat, b: nat)
    requires a <= b && Up(parents, name, a) == ""
    ensures Up(parents, name, b) == ""
  {
    if a < b {
      UpStaysEmpty(parents, name, a, b - 1);
    }
  }

  /** A walk that comes back to a name it passed shows no new name ever after. */
  lemma {:induction false} WalksRepeat(parents: Parents, name: string, j: nat, i: nat, n: nat) returns (k: nat)
    requires j < i && Up(parents, name, i) == Up(parents, name, j)
    ensures k <= i && (n > 0 ==> k > 0) && Up(parents, name, n) == Up(parents, name, k)
    decreases n
  {
    if n <= i {
      k := n;
    } else {
      UpAdds(parents, name, i, n - i);
      UpAdds(parents, name, j, n - i);
      k := WalksRepeat(parents, name, j, i, n - (i - j));
    }
  }

  /** At least one link leads from child up to ancestor; the ancestor itself may be missing. */
  ghost predicate Above(parents: Parents, ancestor: string, child: string) {
    ancestor != "" && exists n: nat :: n > 0 && Up(parents, child, n) == ancestor
  }

  method IsAncestor(parents: Parents, ancestor: string, child: string) returns (r: bool)
    ensures r <==> Above(parents, ancestor, child)
  {
    var seen: set<string> := {};
    var cur := child;
    ghost var i: nat := 0;
    while cur != ""
      invariant cur == Up(parents, child, i)
      invariant forall k :: 0 < k <= i ==> Up(parents, child, k) != ancestor
      invariant forall name :: name in seen ==> exists k: nat :: k < i && Up(parents, child, k) == name
      invariant seen <= parents.Keys
      decreases parents.Keys - seen
    {
      if cur in seen {
        ghost var j: nat :| j < i && Up(parents, child, j) == cur;
        forall n: nat | n > 0 ensures Up(parents, child, n) != ancestor {
          var k := WalksRepeat(parents, child, j, i, n);
        }
        return false;
      }
      if cur !in parents {
        EndsAfter(parents, ancestor, child, i);
        return false;
      }
      seen := seen + {cur};
      var parent := parents[cur];
      assert Up(parents, child, i + 1) == parent;
      if parent == "" {
        EndsAfter(parents, ancestor, child, i);
        return false;
      }
      if parent == ancestor {
        return true;
      }
      cur := parent;
      i := i + 1;
    }
    EndsAfter(parents, ancestor, child, i);
    return false;
  }

  lemma {:induction false} EndsAfter(parents: Parents, ancestor: string, child: string, i: nat)
    requires Up(parents, child, i + 1) == ""
    requires forall k :: 0 < k <= i ==> Up(parents, child, k) != ancestor
    ensures !Above(parents, ancestor, child)
  {
    forall n: nat | n > i ensures Up(parents, child, n) == "" {
      UpStaysEmpty(parents, child, i + 1, n);
    }
  }

  // ---- subtrees -------------------------------------------------------------------------------

  ghost function Below(parents: Parents, root: string): set<string> {
    set name | name in parents && (name == root || Above(parents, root, name))
  }

  /** The root and everything below it, sorted, whatever order the map is visited in. */
  method Subtree(parents: Parents, root: string) returns (names: seq<string>)
    ensures names == if root in parents then Sorted(Below(parents, root)) else []
  {
    if root !in parents {
      return [];
    }
    var found := {root};
    var left := parents.Keys;
    while left != {}
      invariant left <= parents.Keys
      invariant found == set name | name in parents && (name == root || (name !in left && Above(parents, root, name)))
    {
      var name :| name in left;
      left := left - {name};
      if name != root {
        var below := IsAncestor(parents, root, name);
        if below {
          found := found + {name};
        }
      }
    }
    assert found == Below(parents, root);
    return Sorted(found);
  }

  /** Subtrees nest: whatever is below a member of a subtree belongs to it too. */
  lemma {:induction false} SubtreesNest(parents: Parents, root: string, name: string)
    requires name in Below(parents, root)
    ensures Below(parents, name) <= Below(parents, root)
  {
    forall other | other in Below(parents, name) ensures other in Below(parents, root) {
      if other != name && name != root {
        var a: nat :| a > 0 && Up(parents, other, a) == name;
        var b: nat :| b > 0 && Up(parents, name, b) == root;
        UpAdds(parents, other, a, b);
      }
    }
  }

  // ---- relations --------------------------------------------------------------------------------

  datatype Relation = Itself | Parent | Child | Sibling | Ancestor | Descendant | Unrelated

  /** The key siblings share: the parent, or a root scoped to the session alone. */
  function EffectiveParent(parents: Parents, name: string): string
    requires name in parents
  {
    if parents[name] != "" then parents[name] else "root:" + name
  }

  /** Siblings share a parent; two roots are none, unless one is named as the other's scope. */
  lemma {:induction false} SiblingsShareAParent(parents: Parents, a: string, b: string)
    requires a in parents && b in parents && a != b
    ensures EffectiveParent(parents, a) == EffectiveParent(parents, b) <==>
              || (parents[a] == parents[b] && parents[a] != "")
              || (parents[a] == "" && parents[b] == "root:" + a)
              || (parents[b] == "" && parents[a] == "root:" + b)
  {
    if parents[a] == "" && parents[b] == "" {
      assert ("root:" + a)[5..] == a && ("root:" + b)[5..] == b;
    }
  }

  /** The other session as seen from the target. */
  ghost function Seen(parents: Parents, target: string, other: string): Relation {
    if target !in parents || other !in parents then Unrelated
    else if target == other then Itself
    else if parents[target] == other then Parent
    else if parents[other] == target then Child
    else if EffectiveParent(parents, target) == EffectiveParent(parents, other) then Sibling
    else if Above(parents, other, target) then Ancestor
    else if Above(parents, target, other) then Descendant
    else Unrelated
  }

  method RelationFromTarget(parents: Parents, target: string, other: string) returns (r: Relation)
    ensures r == Seen(parents, target, other)
  {
    if target !in parents || other !in parents {
      return Unrelated;
    }
    if target == other {
      return Itself;
    }
    if parents[target] == other {
      return Parent;
    }
    if parents[other] == target {
      return Child;
    }
    if EffectiveParent(parents, target) == EffectiveParent(parents, other) {
      return Sibling;
    }
    var above := IsAncestor(parents, other, target);
    if above {
      return Ancestor;
    }
    var below := IsAncestor(parents, target, other);
    if below {
      return Descendant;
    }
    return Unrelated;
  }

  ghost function Dual(r: Relation): Relation {
    match r
    case Parent => Child
    case Child => Parent
    case Ancestor => Descendant
    case Descendant => Ancestor
    case _ => r
  }

  /** Each names the other as its parent. */
  ghost predicate MutualParents(parents: Parents, a: string, b: string) {
    a in parents && b in parents && a != b && parents[a] == b && parents[b] == a
  }

  /** Each is above the other, without a link or a parent key between them. */
  ghost predicate MutualAncestors(parents: Parents, a: string, b: string) {
    && a in parents && b in parents && a != b && parents[a] != b && parents[b] != a
    && EffectiveParent(parents, a) != EffectiveParent(parents, b)
    && Above(parents, a, b) && Above(parents, b, a)
  }

  /** On any map, the two views of a pair are dual unless the pair shares a cycle in one of two ways. */
  lemma {:induction false} ViewsAreDual(parents: Parents, a: string, b: string)
    ensures Seen(parents, b, a) == Dual(Seen(parents, a, b)) <==>
            !MutualParents(parents, a, b) && !MutualAncestors(parents, a, b)
  {
  }

  /** No session is above itself. */
  ghost predicate Acyclic(parents: Parents) {
    forall name :: name in parents ==> !Above(parents, name, name)
  }

  lemma {:induction false} AboveBoth(parents: Parents, a: string, b: string)
    requires Above(parents, a, b) && Above(parents, b, a)
    ensures Above(parents, a, a)
  {
    var m: nat :| m > 0 && Up(parents, b, m) == a;
    var n: nat :| n > 0 && Up(parents, a, n) == b;
    UpAdds(parents, a, n, m);
  }

  lemma {:induction false} LinkIsAbove(parents: Parents, name: string)
    requires name != "" && name in parents && parents[name] != ""
    ensures Above(parents, parents[name], name)
  {
    assert Up(parents, name, 1) == Next(parents, Up(parents, name, 0));
  }

  /** On a forest of named sessions the two views are always dual. */
  lemma {:induction false} ForestViewsAreDual(parents: Parents, a: string, b: string)
    requires Acyclic(parents) && "" !in parents
    ensures Seen(parents, b, a) == Dual(Seen(parents, a, b))
  {
    ViewsAreDual(parents, a, b);
    if MutualParents(parents, a, b) {
      LinkIsAbove(parents, a);
      LinkIsAbove(parents, b);
    }
    if a in parents && Above(parents, a, b) && Above(parents, b, a) {
      AboveBoth(parents, a, b);
    }
  }

  /** Two sessions that name each other as parents both see a parent in the other. */
  lemma {:induction false} MutualParentsAreNotDual()
    ensures var parents := map["a" := "b", "b" := "a"];
            Seen(parents, "a", "b") == Parent && Seen(parents, "b", "a") == Parent
  {
  }

  /** On a cycle of four, opposite sessions both see an ancestor in the other. */
  lemma {:induction false} MutualAncestorsAreNotDual()
    ensures var parents := map["a" := "x", "x" := "b", "b" := "y", "y" := "a"];
            Seen(parents, "a", "b") == Ancestor && Seen(parents, "b", "a") == Ancestor
  {
    var parents := map["a" := "x", "x" := "b", "b" := "y", "y" := "a"];
    assert Up(parents, "a", 1) == "x" && Up(parents, "a", 2) == "b";
    assert Up(parents, "b", 1) == "y" && Up(parents, "b", 2) == "a";
  }
}
