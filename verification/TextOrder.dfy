/** Code-point order of strings, as Python's `<` and SQLite's binary collation compare them. */
module TextOrder {

  predicate Before(a: string, b: string) {
    b != "" && (a == "" || a[0] < b[0] || (a[0] == b[0] && Before(a[1..], b[1..])))
  }

  lemma {:induction false} BeforeIsTotal(a: string, b: string)
    ensures a == b || Before(a, b) || Before(b, a)
    ensures !(Before(a, b) && Before(b, a)) && !Before(a, a)
  {
    if a != "" && b != "" {
      BeforeIsTotal(a[1..], b[1..]);
      assert a == [a[0]] + a[1..] && b == [b[0]] + b[1..];
    }
    if a != "" {
      BeforeIsTotal(a[1..], a[1..]);
    }
  }

  lemma {:induction false} BeforeIsTransitive(a: string, b: string, c: string)
    requires Before(a, b) && Before(b, c)
    ensures Before(a, c)
  {
    if a != "" && a[0] == b[0] && b[0] == c[0] {
      BeforeIsTransitive(a[1..], b[1..], c[1..]);
    }
  }

  // The first i characters agree, and there a ends or has the lower code point.
  predicate DiffersAt(a: string, b: string, i: int) {
    0 <= i <= |a| && i < |b| && a[..i] == b[..i] && (i == |a| || a[i] < b[i])
  }

  lemma SameStart(a: string, b: string, i: nat)
    requires i <= |a| && i <= |b| && a[..i] == b[..i]
    ensures i > 0 ==> a[0] == b[0]
  {
    if i > 0 {
      assert a[..i][0] == a[0] && b[..i][0] == b[0];
    }
  }

  /** One text comes before another exactly when it does so at the first difference. */
  lemma {:induction false} BeforeIff(a: string, b: string)
    ensures Before(a, b) <==> exists i :: DiffersAt(a, b, i)
  {
    if a == "" || b == "" || a[0] != b[0] {
      assert Before(a, b) ==> DiffersAt(a, b, 0);
      forall i | DiffersAt(a, b, i) ensures Before(a, b) {
        SameStart(a, b, i);
      }
    } else {
      BeforeIff(a[1..], b[1..]);
      if i :| DiffersAt(a[1..], b[1..], i) {
        assert a[..i + 1] == [a[0]] + a[1..][..i] && b[..i + 1] == [b[0]] + b[1..][..i];
        assert DiffersAt(a, b, i + 1);
      }
      if i :| DiffersAt(a, b, i) {
        assert a[1..][..i - 1] == a[..i][1..] && b[1..][..i - 1] == b[..i][1..];
        assert DiffersAt(a[1..], b[1..], i - 1);
      }
    }
  }

  ghost predicate Ascending(s: seq<string>) {
    forall i, j :: 0 <= i < j < |s| ==> Before(s[i], s[j])
  }

  method Least(names: set<string>) returns (least: string)
    requires names != {}
    ensures least in names && forall x :: x in names && x != least ==> Before(least, x)
  {
    var rest := names;
    least :| least in rest;
    rest := rest - {least};
    while rest != {}
      invariant least in names && rest <= names
      invariant forall x :: x in names && x !in rest && x != least ==> Before(least, x)
      decreases rest
    {
      var x :| x in rest;
      rest := rest - {x};
      BeforeIsTotal(x, least);
      if Before(x, least) {
        forall y | y in names && y !in rest && y != x ensures Before(x, y) {
          if y != least {
            BeforeIsTransitive(x, least, y);
          }
        }
        least := x;
      }
    }
  }

  // sorted(names)
  method SortNames(names: set<string>) returns (sorted: seq<string>)
    ensures Ascending(sorted) && forall x :: x in sorted <==> x in names
  {
    sorted := [];
    var rest := names;
    while rest != {}
      invariant rest <= names && Ascending(sorted)
      invariant forall x :: x in sorted <==> x in names && x !in rest
      invariant forall x, y :: x in sorted && y in rest ==> Before(x, y)
      decreases rest
    {
      var least := Least(rest);
      sorted := sorted + [least];
      rest := rest - {least};
    }
  }
}
