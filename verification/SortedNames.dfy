/**
 * Go's sort.Strings and the sortedKeys helpers: the names of a set in ascending order.
 * Dafny's built-in `<` on strings is "proper prefix", so the order is spelled out here.
 */
module SortedNames {

  /** a sorts strictly before b, comparing character by character. */
  predicate Before(a: string, b: string) {
    b != [] && (a == [] || a[0] < b[0] || (a[0] == b[0] && Before(a[1..], b[1..])))
  }

  /** Names agree up to some place, at which the first ends or has the smaller character. */
  ghost predicate DiffersAt(a: string, b: string, k: nat) {
    k <= |a| && k < |b| && a[..k] == b[..k] && (k == |a| || a[k] < b[k])
  }

  lemma {:induction false} BeforeIsLexicographic(a: string, b: string)
    ensures Before(a, b) <==> exists k: nat :: DiffersAt(a, b, k)
    decreases |a|
  {
    if a == [] || b == [] || a[0] != b[0] {
      assert b != [] && (a == [] || a[0] < b[0]) ==> DiffersAt(a, b, 0);
      forall k: nat | k > 0 && k <= |a| && k < |b| && a[0] != b[0] ensures a[..k] != b[..k] {
        assert a[..k][0] == a[0] && b[..k][0] == b[0];
      }
    } else {
      BeforeIsLexicographic(a[1..], b[1..]);
      if k: nat :| DiffersAt(a[1..], b[1..], k) {
        assert a[..k + 1] == [a[0]] + a[1..][..k] && b[..k + 1] == [b[0]] + b[1..][..k];
        assert DiffersAt(a, b, k + 1);
      }
      if k: nat :| DiffersAt(a, b, k) {
        assert k > 0;
        assert a[1..][..k - 1] == a[..k][1..] && b[1..][..k - 1] == b[..k][1..];
        assert DiffersAt(a[1..], b[1..], k - 1);
      }
    }
  }

  ghost predicate Ascending(names: seq<string>) {
    forall i, j :: 0 <= i < j < |names| ==> Before(names[i], names[j])
  }

  lemma {:induction false} BeforeIsTotal(a: string, b: string)
    ensures a == b || Before(a, b) || Before(b, a)
    ensures !(Before(a, b) && Before(b, a))
    ensures !Before(a, a)
    decreases |a|
  {
    if a != [] {
      BeforeIsTotal(a[1..], a[1..]);
      if b != [] && a[0] == b[0] {
        BeforeIsTotal(a[1..], b[1..]);
        assert a == [a[0]] + a[1..] && b == [b[0]] + b[1..];
      }
    }
  }

  lemma {:induction false} BeforeIsTransitive(a: string, b: string, c: string)
    requires Before(a, b) && Before(b, c)
    ensures Before(a, c)
  {
    if a != [] && a[0] == b[0] && b[0] == c[0] {
      BeforeIsTransitive(a[1..], b[1..], c[1..]);
    }
  }

  lemma {:induction false} LeastExists(names: set<string>) returns (least: string)
    requires names != {}
    ensures IsLeast(least, names)
  {
    var some :| some in names;
    if names == {some} {
      least := some;
    } else {
      assert names == {some} + (names - {some});
      least := LeastExists(names - {some});
      BeforeIsTotal(some, least);
      if Before(some, least) {
        forall n | n in names && n != some ensures Before(some, n) {
          if n != least { BeforeIsTransitive(some, least, n); }
        }
        least := some;
      }
    }
  }

  predicate IsLeast(least: string, names: set<string>) {
    least in names && forall n | n in names :: n != least ==> Before(least, n)
  }

  function Least(names: set<string>): (least: string)
    requires names != {}
    ensures IsLeast(least, names)
  {
    assert exists n :: IsLeast(n, names) by { var _ := LeastExists(names); }
    LeastIsUnique(names);
    var least :| least in names && IsLeast(least, names);
    least
  }

  lemma {:induction false} LeastIsUnique(names: set<string>)
    ensures forall a, b :: IsLeast(a, names) && IsLeast(b, names) ==> a == b
  {
    forall a, b | IsLeast(a, names) && IsLeast(b, names) ensures a == b {
      BeforeIsTotal(a, b);
    }
  }

  /** The names in ascending order, each once. */
  function Sorted(names: set<string>): (r: seq<string>)
    ensures |r| == |names|
    ensures forall n :: n in r <==> n in names
    ensures Ascending(r)
  {
    if names == {} then []
    else
      var least := Least(names);
      var rest := Sorted(names - {least});
      assert forall i :: 0 <= i < |rest| ==> rest[i] in names - {least};
      [least] + rest
  }

  lemma {:induction false} AscendingIsUnique(a: seq<string>, b: seq<string>)
    requires Ascending(a) && Ascending(b)
    requires forall n :: n in a <==> n in b
    ensures a == b
    decreases |a|
  {
    if a == [] {
      assert forall i :: 0 <= i < |b| ==> b[i] in b;
    } else {
      assert a[0] in b && b != [];
      assert b[0] in a;
      BeforeIsTotal(a[0], b[0]);
      assert a[0] == b[0] by {
        var i :| 0 <= i < |b| && b[i] == a[0];
        var j :| 0 <= j < |a| && a[j] == b[0];
      }
      forall n ensures n in a[1..] <==> n in b[1..] {
        BeforeIsTotal(a[0], a[0]);
        assert n in a <==> n == a[0] || n in a[1..];
        assert n in b <==> n == b[0] || n in b[1..];
      }
      AscendingIsUnique(a[1..], b[1..]);
    }
  }

  lemma {:induction false} AscendingHasNoRepeats(names: seq<string>)
    requires Ascending(names)
    ensures forall i, j :: 0 <= i < j < |names| ==> names[i] != names[j]
  {
    forall i, j | 0 <= i < j < |names| ensures names[i] != names[j] {
      BeforeIsTotal(names[i], names[j]);
    }
  }
}
