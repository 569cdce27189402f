/** The lexicographic order of strings, under which ordered maps and sorted lists are iterated. */
module StringOrder {
  predicate Less(a: string, b: string) {
    b != "" && (a == "" || a[0] < b[0] || (a[0] == b[0] && Less(a[1..], b[1..])))
  }

  lemma {:induction false} LessTotal(a: string, b: string)
    ensures a == b || Less(a, b) || Less(b, a)
    ensures !(Less(a, b) && Less(b, a)) && !Less(a, a)
  {
    if a != "" && b != "" {
      LessTotal(a[1..], b[1..]);
      LessTotal(a[1..], a[1..]);
      assert a == [a[0]] + a[1..] && b == [b[0]] + b[1..];
    } else if a != "" {
      LessTotal(a[1..], a[1..]);
    }
  }

  lemma {:induction false} LessTransitive(a: string, b: string, c: string)
    requires Less(a, b) && Less(b, c)
    ensures Less(a, c)
  {
    if a != "" && a[0] == b[0] == c[0] {
      LessTransitive(a[1..], b[1..], c[1..]);
    }
  }

  ghost predicate Sorted(names: seq<string>) {
    forall i, j :: 0 <= i < j < |names| ==> Less(names[i], names[j])
  }

  ghost predicate IsLeast(least: string, names: set<string>) {
    least in names && forall n :: n in names ==> n == least || Less(least, n)
  }

  lemma {:induction false} LeastExists(names: set<string>)
    requires names != {}
    ensures exists least :: IsLeast(least, names)
  {
    var n :| n in names;
    if names == {n} {
      assert IsLeast(n, names);
    } else {
      LeastExists(names - {n});
      var rest :| IsLeast(rest, names - {n});
      LessTotal(n, rest);
      if Less(n, rest) {
        forall m | m in names && m != n ensures Less(n, m) {
          if m != rest { LessTransitive(n, rest, m); }
        }
        assert IsLeast(n, names);
      } else {
        assert IsLeast(rest, names);
      }
    }
  }

  /** The elements of a set in increasing order. */
  ghost function InOrder(names: set<string>): (sorted: seq<string>)
    ensures Sorted(sorted)
    ensures forall n :: n in sorted <==> n in names
  {
    if names == {} then []
    else
      LeastExists(names);
      var least :| IsLeast(least, names);
      [least] + InOrder(names - {least})
  }

  function Elements(names: seq<string>): (elements: set<string>)
    ensures elements == {} <==> names == []
  {
    var elements := set n | n in names;
    assert names != [] ==> names[0] in elements;
    elements
  }

  /** A strictly increasing list is determined by its elements. */
  lemma {:induction false} SortedUnique(a: seq<string>, b: seq<string>)
    requires Sorted(a) && Sorted(b)
    requires Elements(a) == Elements(b)
    ensures a == b
  {
    if a != [] {
      assert a[0] in Elements(a) && b[0] in Elements(b);
      LessTotal(a[0], b[0]);
      assert a[0] == b[0];
      assert a == [a[0]] + a[1..] && b == [b[0]] + b[1..];
      LessTotal(a[0], a[0]);
      forall n ensures n in Elements(a[1..]) <==> n in Elements(b[1..]) {
        if n in a[1..] {
          var i :| 0 <= i < |a[1..]| && a[1..][i] == n;
          assert Less(a[0], a[i + 1]) && n in Elements(a);
        }
        if n in b[1..] {
          var i :| 0 <= i < |b[1..]| && b[1..][i] == n;
          assert Less(b[0], b[i + 1]) && n in Elements(b);
        }
      }
      SortedUnique(a[1..], b[1..]);
    }
  }
}
