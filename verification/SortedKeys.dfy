/** sort.Strings over the keys of a map: the one strictly increasing listing of a finite set. */
module SortedKeys {
  import opened Prelude

  predicate Less(a: string, b: string) {
    b != "" && (a == "" || a[0] < b[0] || (a[0] == b[0] && Less(a[1..], b[1..])))
  }

  lemma {:induction false} LessTotal(a: string, b: string)
    ensures a == b || Less(a, b) || Less(b, a)
    ensures !(Less(a, b) && Less(b, a)) && !Less(a, a)
  {
    if a != "" { LessTotal(a[1..], a[1..]); }
    if a != "" && b != "" {
      LessTotal(a[1..], b[1..]);
      if a[0] == b[0] && a[1..] == b[1..] { assert a == [a[0]] + a[1..] && b == [b[0]] + b[1..]; }
    }
  }

  lemma {:induction false} LessTransitive(a: string, b: string, c: string)
    requires Less(a, b) && Less(b, c)
    ensures Less(a, c)
  {
    if a != "" && a[0] == b[0] == c[0] { LessTransitive(a[1..], b[1..], c[1..]); }
  }

  /** The order is that of the first differing characters; a proper prefix comes first. */
  lemma {:induction false} LessExactly(a: string, b: string)
    ensures Less(a, b) <==>
            exists n :: 0 <= n <= |a| && n < |b| && a[..n] == b[..n] && (n == |a| || a[n] < b[n])
  {
    if a == "" {
      if b != "" { assert a[..0] == b[..0]; }
    } else if b != "" && a[0] == b[0] {
      LessExactly(a[1..], b[1..]);
      if n :| 0 <= n <= |a[1..]| && n < |b[1..]| && a[1..][..n] == b[1..][..n] && (n == |a[1..]| || a[1..][n] < b[1..][n]) {
        assert a[..n + 1] == [a[0]] + a[1..][..n] == b[..n + 1];
      }
      if n :| 0 <= n <= |a| && n < |b| && a[..n] == b[..n] && (n == |a| || a[n] < b[n]) {
        assert n > 0;
        assert a[1..][..n - 1] == a[..n][1..] == b[1..][..n - 1];
      }
    } else if b != "" {
      if Less(a, b) { assert a[..0] == b[..0]; }
      if n :| 0 <= n <= |a| && n < |b| && a[..n] == b[..n] && (n == |a| || a[n] < b[n]) {
        if n > 0 { assert a[..n][0] == b[..n][0]; }
      }
    }
  }

  ghost predicate Increasing(s: seq<string>) {
    forall i, j :: 0 <= i < j < |s| ==> Less(s[i], s[j])
  }

  /** s is the sorted listing of keys. */
  ghost predicate Lists(s: seq<string>, keys: set<string>) {
    Increasing(s) && forall k :: k in s <==> k in keys
  }

  /** Sorting makes the outcome independent of the order in which the map was visited. */
  lemma {:induction false} ListingUnique(s: seq<string>, t: seq<string>, keys: set<string>)
    requires Lists(s, keys) && Lists(t, keys)
    ensures s == t
    decreases |s|
  {
    if s == [] {
      assert forall i :: 0 <= i < |t| ==> t[i] in t;
    } else {
      assert s[0] in t;
      assert t[0] in s;
      FirstIsLeast(s, t[0]);
      FirstIsLeast(t, s[0]);
      LessTotal(s[0], t[0]);
      RestLists(s, keys);
      RestLists(t, keys);
      ListingUnique(s[1..], t[1..], keys - {s[0]});
      assert s == [s[0]] + s[1..] && t == [t[0]] + t[1..];
    }
  }

  lemma FirstIsLeast(s: seq<string>, k: string)
    requires Increasing(s) && k in s
    ensures k == s[0] || Less(s[0], k)
  {
  }

  lemma RestLists(s: seq<string>, keys: set<string>)
    requires Lists(s, keys) && s != []
    ensures Lists(s[1..], keys - {s[0]})
  {
    forall k ensures k in s[1..] <==> k in keys - {s[0]} {
      if k in s[1..] {
        var i :| 0 <= i < |s[1..]| && s[1..][i] == k;
        assert Less(s[0], s[i + 1]);
        LessTotal(s[0], s[0]);
        assert k in s;
      }
      if k in keys - {s[0]} {
        var i :| 0 <= i < |s| && s[i] == k;
        assert s[1..][i - 1] == k;
      }
    }
  }

  method InsertKey(s: seq<string>, k: string, ghost keys: set<string>) returns (r: seq<string>)
    requires Lists(s, keys) && k !in keys
    ensures Lists(r, keys + {k})
  {
    var i := 0;
    while i < |s| && Less(s[i], k)
      invariant 0 <= i <= |s|
      invariant forall j :: 0 <= j < i ==> Less(s[j], k)
    {
      i := i + 1;
    }
    r := s[..i] + [k] + s[i..];
    forall j | i <= j < |s| ensures Less(k, s[j]) {
      assert s[i] in s;
      LessTotal(s[i], k);
      if i < j { LessTransitive(k, s[i], s[j]); }
    }
    assert forall x :: x in r <==> x in s || x == k;
    assert forall j :: 0 <= j < |r| ==> r[j] == if j < i then s[j] else if j == i then k else s[j - 1];
  }

  method SortKeys(keys: set<string>) returns (s: seq<string>)
    ensures Lists(s, keys)
  {
    s := [];
    var pending, done := keys, {};
    while pending != {}
      invariant done + pending == keys && done !! pending
      invariant Lists(s, done)
      decreases pending
    {
      var k :| k in pending;
      s := InsertKey(s, k, done);
      pending, done := pending - {k}, done + {k};
    }
    assert done == keys;
  }
}
