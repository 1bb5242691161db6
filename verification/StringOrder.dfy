/** The order of std::string, and the keys of a std::map or std::set in that order. */
module StringOrder {

  predicate Less(a: string, b: string) {
    if b == "" then false
    else if a == "" then true
    else if a[0] == b[0] then Less(a[1..], b[1..])
    else a[0] < b[0]
  }

  lemma {:induction false} LessTrichotomy(a: string, b: string)
    ensures Less(a, b) || a == b || Less(b, a)
    ensures !(Less(a, b) && Less(b, a)) && !Less(a, a)
  {
    if a != "" && b != "" && a[0] == b[0] {
      LessTrichotomy(a[1..], b[1..]);
      assert a == [a[0]] + a[1..] && b == [b[0]] + b[1..];
    }
    if a != "" {
      LessTrichotomySelf(a);
    }
  }

  lemma {:induction false} LessTrichotomySelf(a: string)
    ensures !Less(a, a)
  {
    if a != "" {
      LessTrichotomySelf(a[1..]);
    }
  }

  lemma {:induction false} LessTransitive(a: string, b: string, c: string)
    requires Less(a, b) && Less(b, c)
    ensures Less(a, c)
  {
    if a != "" && a[0] == b[0] == c[0] {
      LessTransitive(a[1..], b[1..], c[1..]);
    }
  }

  // Nothing in the set comes before x.
  predicate IsLeast(x: string, s: set<string>) {
    x in s && forall y :: y in s ==> !Less(y, x)
  }

  lemma {:induction false} HasLeast(s: set<string>) returns (x: string)
    requires s != {}
    ensures IsLeast(x, s)
    decreases s
  {
    x :| x in s;
    if s != {x} {
      assert s - {x} != {} by {
        assert s == {x} + (s - {x});
      }
      var y := HasLeast(s - {x});
      LessTrichotomy(x, y);
      forall z | z in s
        ensures !Less(z, if Less(y, x) then y else x)
      {
        LessTrichotomy(z, x);
        LessTrichotomy(z, y);
        if z != x && !Less(y, x) && Less(z, x) {
          LessTransitive(z, x, y);
        }
      }
      if Less(y, x) {
        x := y;
      }
    } else {
      LessTrichotomySelf(x);
    }
  }

  lemma OneLeast(s: set<string>)
    ensures forall x, y :: IsLeast(x, s) && IsLeast(y, s) ==> x == y
  {
    forall x, y | IsLeast(x, s) && IsLeast(y, s)
      ensures x == y
    {
      LessTrichotomy(x, y);
    }
  }

  ghost predicate Ascending(r: seq<string>) {
    forall i, j :: 0 <= i < j < |r| ==> Less(r[i], r[j])
  }

  function SortedKeys(s: set<string>): (r: seq<string>)
    ensures forall x :: x in r <==> x in s
    ensures Ascending(r)
    decreases s
  {
    if s == {} then []
    else
      assert exists x :: IsLeast(x, s) by { var x := HasLeast(s); }
      OneLeast(s);
      var x :| IsLeast(x, s);
      var rest := SortedKeys(s - {x});
      assert Ascending([x] + rest) by {
        forall j | 0 <= j < |rest|
          ensures Less(x, rest[j])
        {
          assert rest[j] in s - {x};
          LessTrichotomy(x, rest[j]);
        }
      }
      [x] + rest
  }

  /** The ascending order of a set is unique. */
  lemma {:induction false} OneAscending(a: seq<string>, b: seq<string>)
    requires Ascending(a) && Ascending(b) && forall x :: x in a <==> x in b
    ensures a == b
    decreases |a|
  {
    var both := a + b;
    assert both != [] ==> both[0] in both;
    if a == [] {
      assert both == b;
    } else {
      assert a[0] in b && b != [] && b[0] in a;
      LessTrichotomy(a[0], b[0]);
      assert a[0] == b[0] by {
        var i :| 0 <= i < |b| && b[i] == a[0];
        var j :| 0 <= j < |a| && a[j] == b[0];
      }
      forall x
        ensures x in a[1..] <==> x in b[1..]
      {
        InTail(a, x);
        InTail(b, x);
      }
      OneAscending(a[1..], b[1..]);
    }
  }

  lemma InTail(a: seq<string>, x: string)
    requires Ascending(a) && a != []
    ensures x in a[1..] <==> x in a && x != a[0]
  {
    if x in a[1..] {
      var i :| 0 <= i < |a[1..]| && a[1..][i] == x;
      assert Less(a[0], a[i + 1]);
      LessTrichotomySelf(x);
    }
    if x in a && x != a[0] {
      var i :| 0 <= i < |a| && a[i] == x;
      assert a[1..][i - 1] == x;
    }
  }
}
