/**
 Confinement of user mounts (executor/system/workspace.go, mountLinkPath): the target is joined to
 the agent root, cleaned lexically, and rejected if the relative path from the root climbs out.
 Paths are lists of components; filepath.Clean is a stack reduction, filepath.Rel a common prefix.
 */
module MountPaths {
  import opened Prelude

  /** The slash-separated pieces of a path, empty ones included. */
  function Pieces(p: string): (parts: seq<string>)
    ensures |parts| > 0
  {
    if p == "" then [""]
    else
      var rest := Pieces(p[1..]);
      if p[0] == '/' then [""] + rest else [[p[0]] + rest[0]] + rest[1..]
  }

  /** Walk from an absolute directory: empty and "." stay, ".." goes up (but not above the top), a name goes down. */
  function Walk(dir: seq<string>, parts: seq<string>): seq<string>
    decreases parts
  {
    if parts == [] then dir else Walk(Enter(dir, parts[0]), parts[1..])
  }

  function Enter(dir: seq<string>, part: string): seq<string> {
    if part == "" || part == "." then dir
    else if part == ".." then (if dir == [] then [] else dir[..|dir| - 1])
    else dir + [part]
  }

  /** filepath.Clean of an absolute path. */
  function Clean(p: string): seq<string> {
    Walk([], Pieces(p))
  }

  function CommonPrefix(a: seq<string>, b: seq<string>): (n: nat)
    ensures n <= |a| && n <= |b|
  {
    if a != [] && b != [] && a[0] == b[0] then 1 + CommonPrefix(a[1..], b[1..]) else 0
  }

  function Ups(n: nat): (up: seq<string>)
    ensures |up| == n && forall i :: 0 <= i < n ==> up[i] == ".."
  {
    seq(n, _ => "..")
  }

  /** filepath.Rel between cleaned absolute paths; the empty list stands for ".". */
  function Rel(base: seq<string>, target: seq<string>): seq<string> {
    var n := CommonPrefix(base, target);
    Ups(|base| - n) + target[n..]
  }

  datatype MountError = EmptyTarget | Escapes

  predicate Climbs(within: seq<string>) {
    within != [] && within[0] == ".."
  }

  /** The link's components, for an absolute root. */
  function MountLinkPath(root: string, target: string): Result<seq<string>, MountError> {
    var rel := if HasPrefix(target, "/") then target[1..] else target;
    if rel == "" then Err(EmptyTarget)
    else
      var link := Clean(root + "/" + rel);
      if Climbs(Rel(Clean(root), link)) then Err(Escapes) else Ok(link)
  }

  // ---------------------------------------------------------------------------------------
  // Components
  // ---------------------------------------------------------------------------------------

  lemma {:induction false} PiecesJoin(a: string, b: string)
    ensures Pieces(a + "/" + b) == Pieces(a) + Pieces(b)
    decreases |a|
  {
    var s := a + "/" + b;
    if a == "" {
      assert s[1..] == b;
    } else {
      assert s[1..] == a[1..] + "/" + b;
      PiecesJoin(a[1..], b);
    }
  }

  /** Text without a slash is one piece: itself. */
  lemma {:induction false} PiecesPlain(p: string)
    requires '/' !in p
    ensures Pieces(p) == [p]
  {
    if p != "" {
      assert p[0] in p;
      PiecesPlain(p[1..]);
      assert [p[0]] + p[1..] == p;
    }
  }

  /** Components joined by slashes. */
  function Joined(parts: seq<string>): string
    requires parts != []
  {
    if |parts| == 1 then parts[0] else parts[0] + "/" + Joined(parts[1..])
  }

  /** A path's pieces are the only slash-free texts that, joined by slashes, give the path. */
  lemma {:induction false} PiecesExactly(parts: seq<string>)
    requires parts != [] && forall i :: 0 <= i < |parts| ==> '/' !in parts[i]
    ensures Pieces(Joined(parts)) == parts
  {
    PiecesPlain(parts[0]);
    if |parts| > 1 {
      PiecesExactly(parts[1..]);
      PiecesJoin(parts[0], Joined(parts[1..]));
    }
  }

  lemma {:induction false} WalkAppend(dir: seq<string>, p: seq<string>, q: seq<string>)
    ensures Walk(dir, p + q) == Walk(Walk(dir, p), q)
    decreases p
  {
    if p == [] {
      assert p + q == q;
    } else {
      assert (p + q)[1..] == p[1..] + q;
      WalkAppend(Enter(dir, p[0]), p[1..], q);
    }
  }

  ghost predicate Plain(dir: seq<string>) {
    forall i :: 0 <= i < |dir| ==> dir[i] != "" && dir[i] != "." && dir[i] != ".."
  }

  lemma {:induction false} WalkPlain(dir: seq<string>, parts: seq<string>)
    requires Plain(dir)
    ensures Plain(Walk(dir, parts))
    decreases parts
  {
    if parts != [] { WalkPlain(Enter(dir, parts[0]), parts[1..]); }
  }

  /** Joining is walking on from the root. */
  lemma CleanJoin(root: string, rel: string)
    ensures Clean(root + "/" + rel) == Walk(Clean(root), Pieces(rel))
    ensures Plain(Clean(root)) && Plain(Clean(root + "/" + rel))
  {
    PiecesJoin(root, rel);
    WalkAppend([], Pieces(root), Pieces(rel));
    WalkPlain([], Pieces(root));
    WalkPlain([], Pieces(root + "/" + rel));
  }

  lemma {:induction false} CommonPrefixIs(a: seq<string>, b: seq<string>)
    ensures var n := CommonPrefix(a, b);
            && a[..n] == b[..n]
            && (n == |a| <==> a <= b)
  {
    if a != [] && b != [] && a[0] == b[0] {
      CommonPrefixIs(a[1..], b[1..]);
      var n := CommonPrefix(a[1..], b[1..]);
      assert a == [a[0]] + a[1..] && b == [b[0]] + b[1..];
      assert a[..n + 1] == [a[0]] + a[1..][..n] && b[..n + 1] == [b[0]] + b[1..][..n];
      assert a <= b <==> a[1..] <= b[1..];
    }
  }

  lemma RelClimbs(base: seq<string>, target: seq<string>)
    requires Plain(target)
    ensures Climbs(Rel(base, target)) <==> !(base <= target)
  {
    CommonPrefixIs(base, target);
    var n := CommonPrefix(base, target);
    if n < |base| { assert Rel(base, target)[0] == Ups(|base| - n)[0]; }
  }

  // ---------------------------------------------------------------------------------------
  // Confinement
  // ---------------------------------------------------------------------------------------

  function Stripped(target: string): string {
    if HasPrefix(target, "/") then target[1..] else target
  }

  /** A non-empty target is accepted exactly when the cleaned join lies under the cleaned root; the link returned is that join. */
  lemma AcceptsExactlyInside(root: string, target: string)
    ensures MountLinkPath(root, target).Ok? <==>
            Stripped(target) != "" && Clean(root) <= Clean(root + "/" + Stripped(target))
    ensures MountLinkPath(root, target).Ok? ==>
            MountLinkPath(root, target).value == Clean(root + "/" + Stripped(target)) &&
            Clean(root) <= MountLinkPath(root, target).value
  {
    var rel := Stripped(target);
    CleanJoin(root, rel);
    RelClimbs(Clean(root), Clean(root + "/" + rel));
  }

  /** The net effect of a relative path: how far it climbs above its start, and what it then descends into. */
  datatype Net = Net(ups: nat, names: seq<string>)

  function NetEnter(n: Net, part: string): Net {
    if part == "" || part == "." then n
    else if part != ".." then Net(n.ups, n.names + [part])
    else if n.names == [] then Net(n.ups + 1, [])
    else Net(n.ups, n.names[..|n.names| - 1])
  }

  function NetOf(parts: seq<string>): Net {
    if parts == [] then Net(0, []) else NetEnter(NetOf(parts[..|parts| - 1]), parts[|parts| - 1])
  }

  function Ancestor(dir: seq<string>, ups: nat): seq<string> {
    if ups <= |dir| then dir[..|dir| - ups] else []
  }

  lemma {:induction false} WalkByNet(dir: seq<string>, parts: seq<string>)
    ensures Walk(dir, parts) == Ancestor(dir, NetOf(parts).ups) + NetOf(parts).names
  {
    if parts == [] {
      assert dir[..|dir|] + [] == dir;
    } else {
      var init, part := parts[..|parts| - 1], parts[|parts| - 1];
      assert parts == init + [part];
      WalkAppend(dir, init, [part]);
      assert [part][1..] == [];
      WalkByNet(dir, init);
      EnterNet(dir, NetOf(init), part);
    }
  }

  lemma EnterNet(dir: seq<string>, n: Net, part: string)
    ensures Enter(Ancestor(dir, n.ups) + n.names, part) ==
            Ancestor(dir, NetEnter(n, part).ups) + NetEnter(n, part).names
  {
    var at := Ancestor(dir, n.ups);
    if part == ".." && n.names != [] {
      assert (at + n.names)[..|at + n.names| - 1] == at + n.names[..|n.names| - 1];
    } else if part == ".." {
      assert at + [] == at;
      assert Enter(at, "..") == Ancestor(dir, n.ups + 1);
    } else if part != "" && part != "." {
      assert (at + n.names) + [part] == at + (n.names + [part]);
    }
  }

  lemma PrefixBeyond(base: seq<string>, at: seq<string>, names: seq<string>)
    requires at <= base
    ensures base <= at + names <==> base[|at|..] <= names
  {
    assert base == at + base[|at|..];
    if base <= at + names {
      forall i | 0 <= i < |base| - |at| ensures base[|at|..][i] == names[i] {
        assert base[|at| + i] == (at + names)[|at| + i];
      }
    }
  }

  /**
   The same verdict from the target alone: it is accepted exactly when it never climbs above the
   root on balance, or climbs out by some levels and comes back down through the very same names.
   */
  lemma AcceptsByNet(root: string, target: string)
    requires Stripped(target) != ""
    ensures var n := NetOf(Pieces(Stripped(target)));
            var base := Clean(root);
            MountLinkPath(root, target).Ok? <==> base[|Ancestor(base, n.ups)|..] <= n.names
  {
    var rel := Stripped(target);
    var n, base := NetOf(Pieces(rel)), Clean(root);
    AcceptsExactlyInside(root, target);
    CleanJoin(root, rel);
    WalkByNet(base, Pieces(rel));
    PrefixBeyond(base, Ancestor(base, n.ups), n.names);
  }

  lemma {:induction false} NetWithoutUps(parts: seq<string>)
    requires ".." !in parts
    ensures NetOf(parts).ups == 0
  {
    if parts != [] {
      assert parts == parts[..|parts| - 1] + [parts[|parts| - 1]];
      NetWithoutUps(parts[..|parts| - 1]);
    }
  }

  /** Every target without a ".." component is accepted, and lands directly below the root. */
  lemma PlainTargetsAccepted(root: string, target: string)
    requires Stripped(target) != "" && ".." !in Pieces(Stripped(target))
    ensures MountLinkPath(root, target) == Ok(Clean(root) + NetOf(Pieces(Stripped(target))).names)
  {
    var parts := Pieces(Stripped(target));
    NetWithoutUps(parts);
    AcceptsExactlyInside(root, target);
    CleanJoin(root, Stripped(target));
    WalkByNet(Clean(root), parts);
    assert Ancestor(Clean(root), 0) == Clean(root);
  }
}
