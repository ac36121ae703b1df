/**
 FROM resolution (resolve/resolve.go): a depth-bounded, cycle-checked recursion that fetches each
 parent and merges the child over it. The reference notion is the ancestry itself: iterate
 "fetch my FROM" until a file has no parent.
 */
module Resolve {
  import opened Prelude
  import opened AgentSpec
  import opened Inheritance
  import opened References

  datatype ResolveError = DepthExceeded | Cycle(chain: seq<string>) | PullFailed(from: string)

  /** A resolution's verdict, and the FROM value of every fetch it made, in order. */
  datatype Outcome = Outcome(result: Result<Agentfile, ResolveError>, fetches: seq<string>)

  type Fetcher = Reference -> Option<Agentfile>

  /** How FROM values are identified (their canonical form) and pulled. */
  datatype Registry = Registry(canon: string -> string, pull: string -> Option<Agentfile>)

  function Oci(fetch: Fetcher): Registry {
    Registry(from => ParseReference(from).String(), from => fetch(ParseReference(from)))
  }

  const MaxDepth := 10

  function Merge(parent: Agentfile, child: Agentfile): Agentfile {
    Agentfile(if child.syntax == "" then parent.syntax else child.syntax, MergeAgent(parent.agent, child.agent))
  }

  predicate IsRoot(af: Agentfile) {
    af.agent.from == "" || af.agent.from == "scratch"
  }

  function Resolve(af: Agentfile, fetch: Fetcher): Outcome {
    ResolveDepth(af, Oci(fetch), 0, [])
  }

  function ResolveDepth(af: Agentfile, reg: Registry, depth: nat, chain: seq<string>): Outcome
    decreases MaxDepth + 1 - depth
  {
    if depth > MaxDepth then Outcome(Err(DepthExceeded), [])
    else if IsRoot(af) then Outcome(Ok(af), [])
    else
      var from := af.agent.from;
      var normalized := reg.canon(from);
      if normalized in chain then Outcome(Err(Cycle(chain + [normalized])), [])
      else
        var parent := reg.pull(from);
        if parent.None? then Outcome(Err(PullFailed(from)), [from])
        else
          var rest := ResolveDepth(parent.value, reg, depth + 1, chain + [normalized]);
          Outcome(
            if rest.result.Ok? then Ok(Merge(rest.result.value, af)) else rest.result,
            [from] + rest.fetches)
  }

  // ---------------------------------------------------------------------------------------
  // The ancestry, independently of depth, chain and merging
  // ---------------------------------------------------------------------------------------

  function Parent(af: Agentfile, reg: Registry): Option<Agentfile> {
    if IsRoot(af) then None else reg.pull(af.agent.from)
  }

  /** The k-th ancestor: 0 is the file itself. */
  function Ancestor(af: Agentfile, reg: Registry, k: nat): Option<Agentfile>
    decreases k
  {
    if k == 0 then Some(af)
    else if Parent(af, reg).None? then None
    else Ancestor(Parent(af, reg).value, reg, k - 1)
  }

  /** The ancestry ends at the k-th ancestor: at a root, or at a file whose FROM cannot be fetched. */
  predicate EndsAt(af: Agentfile, reg: Registry, k: nat) {
    Ancestor(af, reg, k).Some? && Parent(Ancestor(af, reg, k).value, reg).None?
  }

  predicate RootAt(af: Agentfile, reg: Registry, k: nat) {
    Ancestor(af, reg, k).Some? && IsRoot(Ancestor(af, reg, k).value)
  }

  /** The file and its first k ancestors, child first. */
  function Lineage(af: Agentfile, reg: Registry, k: nat): (line: seq<Agentfile>)
    requires Ancestor(af, reg, k).Some?
    ensures |line| == k + 1
    decreases k
  {
    if k == 0 then [af] else [af] + Lineage(Parent(af, reg).value, reg, k - 1)
  }

  /** Merge from the root down: each file over everything above it. */
  function MergeDown(line: seq<Agentfile>): Agentfile
    requires line != []
  {
    if |line| == 1 then line[0] else Merge(MergeDown(line[1..]), line[0])
  }

  /** Pulling depends on a FROM value only through its canonical form. */
  ghost predicate ByCanonicalForm(reg: Registry) {
    forall f, g :: reg.canon(f) == reg.canon(g) ==> reg.pull(f) == reg.pull(g)
  }

  lemma {:induction false} AncestorAdd(af: Agentfile, reg: Registry, i: nat, j: nat)
    requires Ancestor(af, reg, i).Some?
    ensures Ancestor(af, reg, i + j) == Ancestor(Ancestor(af, reg, i).value, reg, j)
    decreases i
  {
    if i > 0 { AncestorAdd(Parent(af, reg).value, reg, i - 1, j); }
  }

  lemma {:induction false} AncestorsBelow(af: Agentfile, reg: Registry, i: nat, k: nat)
    requires i < k && Ancestor(af, reg, k).Some?
    ensures Ancestor(af, reg, i).Some? && !IsRoot(Ancestor(af, reg, i).value)
    decreases i
  {
    if i > 0 { AncestorsBelow(Parent(af, reg).value, reg, i - 1, k - 1); }
  }

  function FromAt(af: Agentfile, reg: Registry, i: nat): string
    requires Ancestor(af, reg, i).Some?
  {
    reg.canon(Ancestor(af, reg, i).value.agent.from)
  }

  /** A finite ancestry never names the same canonical reference twice. */
  lemma FiniteAncestryDistinct(af: Agentfile, reg: Registry, k: nat, i: nat, j: nat)
    requires ByCanonicalForm(reg)
    requires EndsAt(af, reg, k)
    requires i < j <= k
    requires Ancestor(af, reg, i).Some? && Ancestor(af, reg, j).Some?
    requires !IsRoot(Ancestor(af, reg, j).value)
    ensures FromAt(af, reg, i) != FromAt(af, reg, j)
  {
    AncestorsBelow(af, reg, i, j);
    var a, b := Ancestor(af, reg, i).value, Ancestor(af, reg, j).value;
    if FromAt(af, reg, i) == FromAt(af, reg, j) {
      assert Parent(a, reg) == Parent(b, reg);
      // b's ancestry ends after k - j steps, hence so does a's: but a's runs through b and beyond.
      AncestorAdd(af, reg, j, k - j);
      AncestorAdd(af, reg, i, k - j);
      AncestorAdd(af, reg, i, k - j + 1);
      if k == j {
        assert Parent(b, reg).None?;
        AncestorAdd(af, reg, i, j - i);
        assert false;
      } else {
        assert Ancestor(a, reg, k - j) == Ancestor(b, reg, k - j);
        var m := i + (k - j);
        assert Parent(Ancestor(af, reg, m).value, reg).None?;
        AncestorAdd(af, reg, m, j - i);
        assert false;
      }
    }
  }

  // ---------------------------------------------------------------------------------------
  // What resolution computes
  // ---------------------------------------------------------------------------------------

  /** No reference still to be visited is on the chain already. */
  ghost predicate Unvisited(af: Agentfile, reg: Registry, k: nat, chain: seq<string>) {
    forall i: nat :: i <= k && Ancestor(af, reg, i).Some? && !IsRoot(Ancestor(af, reg, i).value)
      ==> FromAt(af, reg, i) !in chain
  }

  lemma UnvisitedParent(af: Agentfile, reg: Registry, k: nat, chain: seq<string>)
    requires ByCanonicalForm(reg)
    requires EndsAt(af, reg, k + 1)
    requires Unvisited(af, reg, k + 1, chain)
    ensures Parent(af, reg).Some?
    ensures EndsAt(Parent(af, reg).value, reg, k)
    ensures Unvisited(Parent(af, reg).value, reg, k, chain + [reg.canon(af.agent.from)])
  {
    var p := Parent(af, reg).value;
    forall i: nat | i <= k && Ancestor(p, reg, i).Some? && !IsRoot(Ancestor(p, reg, i).value)
      ensures FromAt(p, reg, i) !in chain + [reg.canon(af.agent.from)]
    {
      assert Ancestor(af, reg, i + 1) == Ancestor(p, reg, i);
      FiniteAncestryDistinct(af, reg, k + 1, 0, i + 1);
      assert FromAt(af, reg, i + 1) !in chain;
    }
  }

  /** One hop of the recursion, when nothing stops it. */
  lemma ResolveHop(af: Agentfile, reg: Registry, depth: nat, chain: seq<string>)
    requires depth <= MaxDepth && Parent(af, reg).Some? && reg.canon(af.agent.from) !in chain
    ensures var o := ResolveDepth(af, reg, depth, chain);
            var rest := ResolveDepth(Parent(af, reg).value, reg, depth + 1, chain + [reg.canon(af.agent.from)]);
            && o.fetches == [af.agent.from] + rest.fetches
            && o.result == if rest.result.Ok? then Ok(Merge(rest.result.value, af)) else rest.result
  {
  }

  lemma LineageHop(af: Agentfile, reg: Registry, k: nat)
    requires Ancestor(af, reg, k + 1).Some?
    ensures Ancestor(Parent(af, reg).value, reg, k) == Ancestor(af, reg, k + 1)
    ensures RootAt(Parent(af, reg).value, reg, k) == RootAt(af, reg, k + 1)
    ensures MergeDown(Lineage(af, reg, k + 1)) == Merge(MergeDown(Lineage(Parent(af, reg).value, reg, k)), af)
  {
    assert Lineage(af, reg, k + 1)[1..] == Lineage(Parent(af, reg).value, reg, k);
  }

  lemma UnvisitedHead(af: Agentfile, reg: Registry, k: nat, chain: seq<string>)
    requires Unvisited(af, reg, k, chain) && !IsRoot(af)
    ensures reg.canon(af.agent.from) !in chain
  {
    assert Ancestor(af, reg, 0) == Some(af);
    assert FromAt(af, reg, 0) !in chain;
  }

  lemma ResolveEnd(af: Agentfile, reg: Registry, depth: nat, chain: seq<string>)
    requires EndsAt(af, reg, 0) && depth <= MaxDepth && Unvisited(af, reg, 0, chain)
    ensures ResolveDepth(af, reg, depth, chain).result == Verdict(af, reg, 0)
  {
    if !IsRoot(af) { UnvisitedHead(af, reg, 0, chain); }
  }

  /** What an ancestry that ends at its k-th member amounts to. */
  function Verdict(af: Agentfile, reg: Registry, k: nat): Result<Agentfile, ResolveError>
    requires Ancestor(af, reg, k).Some?
  {
    if RootAt(af, reg, k) then Ok(MergeDown(Lineage(af, reg, k)))
    else Err(PullFailed(Ancestor(af, reg, k).value.agent.from))
  }

  lemma VerdictHop(af: Agentfile, reg: Registry, k: nat)
    requires Ancestor(af, reg, k + 1).Some?
    ensures Ancestor(Parent(af, reg).value, reg, k).Some?
    ensures var rest := Verdict(Parent(af, reg).value, reg, k);
            Verdict(af, reg, k + 1) == if rest.Ok? then Ok(Merge(rest.value, af)) else rest
  {
    LineageHop(af, reg, k);
  }

  /** An ancestry that ends within the bound is walked to its end: the cycle check never interferes. */
  lemma {:induction false} ResolveFinite(af: Agentfile, reg: Registry, k: nat, depth: nat, chain: seq<string>)
    requires ByCanonicalForm(reg)
    requires EndsAt(af, reg, k) && depth + k <= MaxDepth
    requires Unvisited(af, reg, k, chain)
    ensures ResolveDepth(af, reg, depth, chain).result == Verdict(af, reg, k)
    decreases k
  {
    if k == 0 {
      ResolveEnd(af, reg, depth, chain);
    } else {
      UnvisitedHead(af, reg, k, chain);
      UnvisitedParent(af, reg, k - 1, chain);
      ResolveFinite(Parent(af, reg).value, reg, k - 1, depth + 1, chain + [reg.canon(af.agent.from)]);
      ResolveHop(af, reg, depth, chain);
      VerdictHop(af, reg, k - 1);
    }
  }

  /** The i-th fetch is the FROM of the i-th ancestor. */
  ghost predicate Walked(af: Agentfile, reg: Registry, fetches: seq<string>) {
    forall i :: 0 <= i < |fetches| ==>
      Ancestor(af, reg, i).Some? && fetches[i] == Ancestor(af, reg, i).value.agent.from
  }

  lemma WalkedHop(af: Agentfile, reg: Registry, rest: seq<string>)
    requires Parent(af, reg).Some? && Walked(Parent(af, reg).value, reg, rest)
    ensures Walked(af, reg, [af.agent.from] + rest)
  {
    var fetches := [af.agent.from] + rest;
    forall i | 0 <= i < |fetches|
      ensures Ancestor(af, reg, i).Some? && fetches[i] == Ancestor(af, reg, i).value.agent.from
    {
      if i > 0 {
        assert fetches[i] == rest[i - 1];
        assert Ancestor(af, reg, i) == Ancestor(Parent(af, reg).value, reg, i - 1);
      }
    }
  }

  lemma ResolveStops(af: Agentfile, reg: Registry, depth: nat, chain: seq<string>)
    requires depth <= MaxDepth + 1
    requires depth == MaxDepth + 1 || Parent(af, reg).None? || reg.canon(af.agent.from) in chain
    ensures var o := ResolveDepth(af, reg, depth, chain);
            && |o.fetches| <= MaxDepth + 1 - depth
            && (o.result.Ok? ==> o.fetches == [] && depth <= MaxDepth && IsRoot(af))
            && Walked(af, reg, o.fetches)
  {
  }

  /** Whatever the fetcher does: success exhibits a root within the bound, and fetching is bounded. */
  lemma {:induction false} ResolveSound(af: Agentfile, reg: Registry, depth: nat, chain: seq<string>)
    requires depth <= MaxDepth + 1
    ensures var o := ResolveDepth(af, reg, depth, chain);
            && |o.fetches| <= MaxDepth + 1 - depth
            && (o.result.Ok? ==> |o.fetches| + depth <= MaxDepth && RootAt(af, reg, |o.fetches|))
            && Walked(af, reg, o.fetches)
    decreases MaxDepth + 1 - depth
  {
    if depth == MaxDepth + 1 || Parent(af, reg).None? || reg.canon(af.agent.from) in chain {
      ResolveStops(af, reg, depth, chain);
    } else {
      var p := Parent(af, reg).value;
      ResolveSound(p, reg, depth + 1, chain + [reg.canon(af.agent.from)]);
      ResolveHop(af, reg, depth, chain);
      var rest := ResolveDepth(p, reg, depth + 1, chain + [reg.canon(af.agent.from)]).fetches;
      WalkedHop(af, reg, rest);
      assert Ancestor(af, reg, |rest| + 1) == Ancestor(p, reg, |rest|);
    }
  }

  /** v is the merge of the file and its first n ancestors. */
  predicate MergedTo(af: Agentfile, reg: Registry, n: nat, v: Agentfile) {
    Ancestor(af, reg, n).Some? && v == MergeDown(Lineage(af, reg, n))
  }

  lemma MergedHop(af: Agentfile, reg: Registry, n: nat, v: Agentfile)
    requires Parent(af, reg).Some? && MergedTo(Parent(af, reg).value, reg, n, v)
    ensures MergedTo(af, reg, n + 1, Merge(v, af))
  {
    LineageHop(af, reg, n);
  }

  lemma MergedAlone(af: Agentfile, reg: Registry)
    ensures MergedTo(af, reg, 0, af)
  {
  }

  lemma StopsWithItself(af: Agentfile, reg: Registry, depth: nat, chain: seq<string>)
    requires depth == MaxDepth + 1 || Parent(af, reg).None? || reg.canon(af.agent.from) in chain
    requires ResolveDepth(af, reg, depth, chain).result.Ok?
    ensures ResolveDepth(af, reg, depth, chain) == Outcome(Ok(af), [])
  {
  }

  /** A success is the merge of as many ancestors as were fetched, whatever the registry does. */
  lemma {:induction false} SuccessIsMerge(af: Agentfile, reg: Registry, depth: nat, chain: seq<string>)
    requires depth <= MaxDepth + 1
    requires ResolveDepth(af, reg, depth, chain).result.Ok?
    ensures var o := ResolveDepth(af, reg, depth, chain);
            MergedTo(af, reg, |o.fetches|, o.result.value)
    decreases MaxDepth + 1 - depth
  {
    if depth == MaxDepth + 1 || Parent(af, reg).None? || reg.canon(af.agent.from) in chain {
      StopsWithItself(af, reg, depth, chain);
      MergedAlone(af, reg);
    } else {
      var p, chain' := Parent(af, reg).value, chain + [reg.canon(af.agent.from)];
      ResolveHop(af, reg, depth, chain);
      SuccessIsMerge(p, reg, depth + 1, chain');
      var rest := ResolveDepth(p, reg, depth + 1, chain');
      MergedHop(af, reg, |rest.fetches|, rest.result.value);
    }
  }

  /**
   Resolve succeeds exactly when the ancestry reaches a root (scratch or no FROM) within ten hops
   with every fetch succeeding; the result is then the root-to-child merge of the lineage, fetched
   once per hop. In every case at most eleven fetches happen.
   */
  lemma ResolveExact(af: Agentfile, reg: Registry)
    requires ByCanonicalForm(reg)
    ensures ResolveDepth(af, reg, 0, []).result.Ok? <==> exists k: nat :: k <= MaxDepth && RootAt(af, reg, k)
    ensures forall k: nat :: k <= MaxDepth && RootAt(af, reg, k) ==>
              ResolveDepth(af, reg, 0, []).result == Ok(MergeDown(Lineage(af, reg, k))) && |ResolveDepth(af, reg, 0, []).fetches| == k
    ensures |ResolveDepth(af, reg, 0, []).fetches| <= MaxDepth + 1
  {
    ResolveSound(af, reg, 0, []);
    forall k: nat | k <= MaxDepth && RootAt(af, reg, k)
      ensures ResolveDepth(af, reg, 0, []).result == Ok(MergeDown(Lineage(af, reg, k))) && |ResolveDepth(af, reg, 0, []).fetches| == k
    {
      ResolveFinite(af, reg, k, 0, []);
      var n := |ResolveDepth(af, reg, 0, []).fetches|;
      if n < k { AncestorsBelow(af, reg, n, k); }
      if k < n { AncestorsBelow(af, reg, k, n); }
    }
  }

  // ---------------------------------------------------------------------------------------
  // How resolution fails
  // ---------------------------------------------------------------------------------------

  /** Some pair of the first n references coincides, or one of them is on the chain. */
  ghost predicate Repeats(af: Agentfile, reg: Registry, n: nat, chain: seq<string>)
    requires Ancestor(af, reg, n).Some?
  {
    || (exists i: nat :: i < n && Ancestor(af, reg, i).Some? && FromAt(af, reg, i) in chain)
    || (exists i: nat, j: nat :: i < j < n && Ancestor(af, reg, i).Some? && Ancestor(af, reg, j).Some?
                                 && FromAt(af, reg, i) == FromAt(af, reg, j))
  }

  lemma {:induction false} RepeatsUp(af: Agentfile, reg: Registry, n: nat, chain: seq<string>)
    requires Parent(af, reg).Some? && Ancestor(Parent(af, reg).value, reg, n).Some?
    requires reg.canon(af.agent.from) !in chain && Repeats(af, reg, n + 1, chain)
    ensures Repeats(Parent(af, reg).value, reg, n, chain + [reg.canon(af.agent.from)])
  {
    var p := Parent(af, reg).value;
    var chain' := chain + [reg.canon(af.agent.from)];
    if i: nat :| i < n + 1 && Ancestor(af, reg, i).Some? && FromAt(af, reg, i) in chain {
      assert i != 0;
      assert FromAt(p, reg, i - 1) in chain';
    } else {
      var i: nat, j: nat :| i < j < n + 1 && Ancestor(af, reg, i).Some? && Ancestor(af, reg, j).Some?
                            && FromAt(af, reg, i) == FromAt(af, reg, j);
      assert FromAt(p, reg, j - 1) == FromAt(af, reg, j);
      if i == 0 {
        assert FromAt(p, reg, j - 1) in chain';
      } else {
        assert FromAt(p, reg, i - 1) == FromAt(p, reg, j - 1);
      }
    }
  }

  lemma {:induction false} RepeatsDown(af: Agentfile, reg: Registry, n: nat, chain: seq<string>)
    requires Parent(af, reg).Some? && Ancestor(Parent(af, reg).value, reg, n).Some?
    requires Repeats(Parent(af, reg).value, reg, n, chain + [reg.canon(af.agent.from)])
    ensures Repeats(af, reg, n + 1, chain)
  {
    var p := Parent(af, reg).value;
    var chain' := chain + [reg.canon(af.agent.from)];
    if i: nat :| i < n && Ancestor(p, reg, i).Some? && FromAt(p, reg, i) in chain' {
      assert FromAt(af, reg, i + 1) == FromAt(p, reg, i);
      if FromAt(p, reg, i) !in chain {
        assert FromAt(af, reg, 0) == FromAt(af, reg, i + 1);
      }
    } else {
      var i: nat, j: nat :| i < j < n && Ancestor(p, reg, i).Some? && Ancestor(p, reg, j).Some?
                            && FromAt(p, reg, i) == FromAt(p, reg, j);
      assert FromAt(af, reg, i + 1) == FromAt(af, reg, j + 1);
    }
  }

  lemma RepeatsParent(af: Agentfile, reg: Registry, n: nat, chain: seq<string>)
    requires Ancestor(af, reg, n + 1).Some?
    requires reg.canon(af.agent.from) !in chain
    ensures Parent(af, reg).Some? && Ancestor(Parent(af, reg).value, reg, n).Some?
    ensures Repeats(af, reg, n + 1, chain) <==>
            Repeats(Parent(af, reg).value, reg, n, chain + [reg.canon(af.agent.from)])
  {
    if Repeats(af, reg, n + 1, chain) {
      RepeatsUp(af, reg, n, chain);
    } else if Repeats(Parent(af, reg).value, reg, n, chain + [reg.canon(af.agent.from)]) {
      RepeatsDown(af, reg, n, chain);
    }
  }

  /** An ancestry longer than the bound is an error: a cycle if a reference repeats, else too deep. */
  lemma {:induction false} ResolveLong(af: Agentfile, reg: Registry, depth: nat, chain: seq<string>)
    requires depth <= MaxDepth + 1
    requires Ancestor(af, reg, MaxDepth + 1 - depth).Some?
    ensures var r := ResolveDepth(af, reg, depth, chain).result;
            r.Err? && if Repeats(af, reg, MaxDepth + 1 - depth, chain) then r.error.Cycle? else r.error.DepthExceeded?
    decreases MaxDepth + 1 - depth
  {
    if depth <= MaxDepth {
      var n := MaxDepth - depth;
      AncestorsBelow(af, reg, 0, n + 1);
      var name := reg.canon(af.agent.from);
      if name in chain {
        assert FromAt(af, reg, 0) in chain;
      } else {
        RepeatsParent(af, reg, n, chain);
        ResolveLong(Parent(af, reg).value, reg, depth + 1, chain + [name]);
      }
    }
  }

  lemma {:induction false} EndsOrGoesOn(af: Agentfile, reg: Registry, n: nat)
    ensures Ancestor(af, reg, n).Some? || exists k: nat :: k < n && EndsAt(af, reg, k)
    decreases n
  {
    if n > 0 {
      if Parent(af, reg).None? {
        assert EndsAt(af, reg, 0);
      } else {
        var p := Parent(af, reg).value;
        EndsOrGoesOn(p, reg, n - 1);
        if k: nat :| k < n - 1 && EndsAt(p, reg, k) {
          assert EndsAt(af, reg, k + 1);
        }
      }
    }
  }

  /** The complete verdict, by the shape of the ancestry alone. */
  lemma ResolveVerdict(af: Agentfile, reg: Registry)
    requires ByCanonicalForm(reg)
    ensures Ancestor(af, reg, MaxDepth + 1).Some? || exists k: nat :: k <= MaxDepth && EndsAt(af, reg, k)
    ensures forall k: nat :: k <= MaxDepth && EndsAt(af, reg, k) ==>
              ResolveDepth(af, reg, 0, []).result == Verdict(af, reg, k)
    ensures Ancestor(af, reg, MaxDepth + 1).Some? ==>
              ResolveDepth(af, reg, 0, []).result.Err? &&
              (if Repeats(af, reg, MaxDepth + 1, []) then ResolveDepth(af, reg, 0, []).result.error.Cycle?
               else ResolveDepth(af, reg, 0, []).result.error.DepthExceeded?)
  {
    EndsOrGoesOn(af, reg, MaxDepth + 1);
    forall k: nat | k <= MaxDepth && EndsAt(af, reg, k)
      ensures ResolveDepth(af, reg, 0, []).result == Verdict(af, reg, k)
    {
      ResolveFinite(af, reg, k, 0, []);
    }
    if Ancestor(af, reg, MaxDepth + 1).Some? { ResolveLong(af, reg, 0, []); }
  }

  /** Fetching depends on a reference only through its canonical name:tag form. */
  ghost predicate FetchByName(fetch: Fetcher) {
    forall r: Reference, s: Reference :: r.String() == s.String() ==> fetch(r) == fetch(s)
  }

  lemma OciByCanonicalForm(fetch: Fetcher)
    requires FetchByName(fetch)
    ensures ByCanonicalForm(Oci(fetch))
  {
    var reg := Oci(fetch);
    forall f, g | reg.canon(f) == reg.canon(g) ensures reg.pull(f) == reg.pull(g) {
      var r, s := ParseReference(f), ParseReference(g);
      assert r.String() == s.String();
    }
  }

  /** The theorem for OCI references, canonicalised by ParseReference. */
  lemma ResolveOci(af: Agentfile, fetch: Fetcher)
    requires FetchByName(fetch)
    ensures Resolve(af, fetch).result.Ok? <==> exists k: nat :: k <= MaxDepth && RootAt(af, Oci(fetch), k)
    ensures forall k: nat :: k <= MaxDepth && RootAt(af, Oci(fetch), k) ==>
              Resolve(af, fetch).result == Ok(MergeDown(Lineage(af, Oci(fetch), k)))
  {
    OciByCanonicalForm(fetch);
    ResolveExact(af, Oci(fetch));
  }

  // ---------------------------------------------------------------------------------------
  // Resolution by the FROM values themselves
  // ---------------------------------------------------------------------------------------

  /** The file inherits from nothing. */
  ghost predicate Parentless(af: Agentfile) {
    af.agent.from == "" || af.agent.from == "scratch"
  }

  /** Its FROM, which is neither empty nor scratch, pulls the parent. */
  ghost predicate Hop(af: Agentfile, reg: Registry, parent: Agentfile) {
    !Parentless(af) && reg.pull(af.agent.from) == Some(parent)
  }

  ghost predicate Chained(line: seq<Agentfile>, reg: Registry) {
    line != [] && forall i :: 0 <= i < |line| - 1 ==> Hop(line[i], reg, line[i + 1])
  }

  ghost predicate Rooted(line: seq<Agentfile>)
    requires line != []
  {
    Parentless(line[|line| - 1])
  }

  lemma HopIsParent(af: Agentfile, reg: Registry, parent: Agentfile)
    ensures Hop(af, reg, parent) <==> Parent(af, reg) == Some(parent)
  {
  }

  lemma ParentlessIsRoot(af: Agentfile)
    ensures Parentless(af) <==> IsRoot(af)
  {
  }

  lemma {:induction false} ChainedIsLineage(line: seq<Agentfile>, reg: Registry, k: nat)
    requires Chained(line, reg) && k == |line| - 1
    ensures Ancestor(line[0], reg, k) == Some(line[k]) && Lineage(line[0], reg, k) == line
  {
    if k > 0 {
      HopIsParent(line[0], reg, line[1]);
      forall i | 0 <= i < |line[1..]| - 1 ensures Hop(line[1..][i], reg, line[1..][i + 1]) {
        assert Hop(line[i + 1], reg, line[i + 2]);
      }
      ChainedIsLineage(line[1..], reg, k - 1);
    }
  }

  lemma ChainedCons(af: Agentfile, rest: seq<Agentfile>, reg: Registry)
    requires Chained(rest, reg) && Hop(af, reg, rest[0])
    ensures Chained([af] + rest, reg)
  {
    var line := [af] + rest;
    forall i | 0 <= i < |line| - 1 ensures Hop(line[i], reg, line[i + 1]) {
      if i > 0 { assert Hop(rest[i - 1], reg, rest[i]); }
    }
  }

  lemma {:induction false} LineageIsChained(af: Agentfile, reg: Registry, k: nat)
    requires Ancestor(af, reg, k).Some?
    ensures var line := Lineage(af, reg, k);
            Chained(line, reg) && line[0] == af && line[k] == Ancestor(af, reg, k).value
    decreases k
  {
    if k > 0 {
      var p := Parent(af, reg).value;
      HopIsParent(af, reg, p);
      LineageIsChained(p, reg, k - 1);
      ChainedCons(af, Lineage(p, reg, k - 1), reg);
    }
  }

  /** A file is handed back unfetched exactly if its FROM is empty or scratch. */
  lemma ResolveScratch(af: Agentfile, fetch: Fetcher)
    ensures Resolve(af, fetch) == Outcome(Ok(af), []) <==> af.agent.from == "" || af.agent.from == "scratch"
  {
  }

  /** The file heads a chain of pulls that ends in a file whose FROM is empty or scratch; at most ten pulls. */
  ghost predicate InheritsBy(line: seq<Agentfile>, af: Agentfile, reg: Registry) {
    Chained(line, reg) && line[0] == af && |line| <= 11 && Rooted(line)
  }

  lemma ChainResolves(line: seq<Agentfile>, af: Agentfile, reg: Registry, k: nat)
    requires ByCanonicalForm(reg) && InheritsBy(line, af, reg) && k == |line| - 1
    ensures ResolveDepth(af, reg, 0, []).result == Ok(MergeDown(line))
  {
    ChainedIsLineage(line, reg, k);
    ParentlessIsRoot(line[k]);
    assert RootAt(af, reg, k);
    ResolveExact(af, reg);
  }

  lemma ResolvedHasChain(af: Agentfile, reg: Registry) returns (line: seq<Agentfile>)
    requires ByCanonicalForm(reg) && ResolveDepth(af, reg, 0, []).result.Ok?
    ensures InheritsBy(line, af, reg)
  {
    ResolveExact(af, reg);
    var k: nat :| k <= MaxDepth && RootAt(af, reg, k);
    LineageIsChained(af, reg, k);
    line := Lineage(af, reg, k);
    ParentlessIsRoot(line[k]);
  }

  lemma {:induction false} LineageAt(af: Agentfile, reg: Registry, k: nat, i: nat)
    requires Ancestor(af, reg, k).Some? && i <= k
    ensures Ancestor(af, reg, i) == Some(Lineage(af, reg, k)[i])
    decreases k
  {
    if i > 0 { LineageAt(Parent(af, reg).value, reg, k - 1, i - 1); }
  }

  /** Two files of the chain, the last one apart, name the same canonical reference. */
  ghost predicate NamesTwice(line: seq<Agentfile>, canon: string -> string) {
    exists i, j :: 0 <= i < j < |line| - 1 && canon(line[i].agent.from) == canon(line[j].agent.from)
  }

  lemma RepeatsIsNamesTwice(line: seq<Agentfile>, reg: Registry, k: nat)
    requires Chained(line, reg) && |line| == k + 1
    ensures Ancestor(line[0], reg, k).Some?
    ensures Repeats(line[0], reg, k, []) <==> NamesTwice(line, reg.canon)
  {
    ChainedIsLineage(line, reg, k);
    forall i: nat | i <= k ensures Ancestor(line[0], reg, i) == Some(line[i]) { LineageAt(line[0], reg, k, i); }
    if i: nat, j: nat :| i < j < k && Ancestor(line[0], reg, i).Some? && Ancestor(line[0], reg, j).Some?
                         && FromAt(line[0], reg, i) == FromAt(line[0], reg, j) {
      assert reg.canon(line[i].agent.from) == reg.canon(line[j].agent.from);
    }
    if i, j :| 0 <= i < j < |line| - 1 && reg.canon(line[i].agent.from) == reg.canon(line[j].agent.from) {
      assert FromAt(line[0], reg, i) == FromAt(line[0], reg, j);
    }
  }

  lemma LongChainFails(line: seq<Agentfile>, reg: Registry, k: nat, depth: nat)
    requires Chained(line, reg) && |line| == k + 1 && k + depth == 11
    ensures var r := ResolveDepth(line[0], reg, depth, []).result;
            r.Err? && if NamesTwice(line, reg.canon) then r.error.Cycle? else r.error.DepthExceeded?
  {
    RepeatsIsNamesTwice(line, reg, k);
    ResolveLong(line[0], reg, depth, []);
  }

  lemma ResolvedByChain(af: Agentfile, reg: Registry)
    requires ByCanonicalForm(reg)
    ensures ResolveDepth(af, reg, 0, []).result.Ok? <==> exists line :: InheritsBy(line, af, reg)
  {
    if ResolveDepth(af, reg, 0, []).result.Ok? {
      var line := ResolvedHasChain(af, reg);
      assert InheritsBy(line, af, reg);
    }
    if line :| InheritsBy(line, af, reg) { ChainResolves(line, af, reg, |line| - 1); }
  }

  /** A file's FROM is fetched by the reference it parses to. */
  lemma OciHop(af: Agentfile, fetch: Fetcher, parent: Agentfile)
    ensures Hop(af, Oci(fetch), parent) <==>
            af.agent.from != "" && af.agent.from != "scratch" && fetch(ParseReference(af.agent.from)) == Some(parent)
  {
  }

  /**
   Resolve succeeds exactly on a chain of at most ten fetches that ends in a file whose FROM is empty
   or scratch, and gives the merge of that chain. A chain of eleven fetches fails: as a cycle if two of
   the references fetched have the same name and tag, as too deep otherwise.
   */
  lemma ResolveLiterally(af: Agentfile, fetch: Fetcher, line: seq<Agentfile>)
    requires FetchByName(fetch)
    ensures Resolve(af, fetch).result.Ok? <==> exists chain :: InheritsBy(chain, af, Oci(fetch))
    ensures InheritsBy(line, af, Oci(fetch)) ==> Resolve(af, fetch).result == Ok(MergeDown(line))
    ensures Chained(line, Oci(fetch)) && line[0] == af && |line| == 12 ==>
              var r := Resolve(af, fetch).result;
              r.Err? && if NamesTwice(line, from => ParseReference(from).String()) then r.error.Cycle? else r.error.DepthExceeded?
  {
    var reg := Oci(fetch);
    OciByCanonicalForm(fetch);
    ResolvedByChain(af, reg);
    if InheritsBy(line, af, reg) { ChainResolves(line, af, reg, |line| - 1); }
    if Chained(line, reg) && line[0] == af && |line| == 12 {
      LongChainFails(line, reg, |line| - 1, 0);
      assert NamesTwice(line, reg.canon) <==> NamesTwice(line, from => ParseReference(from).String());
    }
  }

  /** Of the merged files the child nearest to the file itself that names a syntax decides. */
  lemma {:induction false} MergedSyntax(line: seq<Agentfile>)
    requires line != []
    ensures var s := MergeDown(line).syntax;
            if forall i :: 0 <= i < |line| ==> line[i].syntax == "" then s == ""
            else exists i :: 0 <= i < |line| && s == line[i].syntax != "" && forall j :: 0 <= j < i ==> line[j].syntax == ""
  {
    if |line| > 1 {
      MergedSyntax(line[1..]);
      assert forall i :: 1 <= i < |line| ==> line[i] == line[1..][i - 1];
      if line[0].syntax == "" {
        if i :| 0 <= i < |line[1..]| && MergeDown(line[1..]).syntax == line[1..][i].syntax != ""
                && forall j :: 0 <= j < i ==> line[1..][j].syntax == "" {
          assert forall j :: 0 <= j < i + 1 ==> line[j].syntax == "";
          assert MergeDown(line).syntax == line[i + 1].syntax;
        }
      }
    }
  }

  /** names continues the chain with the references fetched, and its last one came up before. */
  ghost predicate ClosesCycle(reg: Registry, chain: seq<string>, fetches: seq<string>, names: seq<string>) {
    && |names| == |chain| + |fetches| + 1 && chain <= names
    && (forall i :: 0 <= i < |fetches| ==> names[|chain| + i] == reg.canon(fetches[i]))
    && names[|names| - 1] in names[..|names| - 1]
  }

  lemma ClosesCycleHop(reg: Registry, chain: seq<string>, from: string, fetches: seq<string>, names: seq<string>)
    requires ClosesCycle(reg, chain + [reg.canon(from)], fetches, names)
    ensures ClosesCycle(reg, chain, [from] + fetches, names)
  {
    assert chain <= chain + [reg.canon(from)] <= names;
    forall i | 0 <= i < |[from] + fetches| ensures names[|chain| + i] == reg.canon(([from] + fetches)[i]) {
      if i == 0 { assert names[|chain|] == (chain + [reg.canon(from)])[|chain|]; }
      else { assert names[|chain| + 1 + (i - 1)] == reg.canon(fetches[i - 1]); }
    }
  }

  /** A cycle error names the references walked, in order, and then the one that repeats. */
  lemma {:induction false} CycleNamed(af: Agentfile, reg: Registry, depth: nat, chain: seq<string>)
    requires depth <= MaxDepth + 1
    requires var r := ResolveDepth(af, reg, depth, chain).result; r.Err? && r.error.Cycle?
    ensures var o := ResolveDepth(af, reg, depth, chain);
            ClosesCycle(reg, chain, o.fetches, o.result.error.chain)
    decreases MaxDepth + 1 - depth
  {
    if Parent(af, reg).Some? && reg.canon(af.agent.from) !in chain {
      var p, chain' := Parent(af, reg).value, chain + [reg.canon(af.agent.from)];
      ResolveHop(af, reg, depth, chain);
      CycleNamed(p, reg, depth + 1, chain');
      var rest := ResolveDepth(p, reg, depth + 1, chain');
      ClosesCycleHop(reg, chain, af.agent.from, rest.fetches, rest.result.error.chain);
    }
  }

  // ---------------------------------------------------------------------------------------
  // Resolution of parsed files is concatenation of their scripts
  // ---------------------------------------------------------------------------------------

  /** Root's instructions first, the child's last (scripts are listed child first, like a lineage). */
  function RootToChild(scripts: seq<seq<Instruction>>): seq<Instruction> {
    if scripts == [] then [] else RootToChild(scripts[1..]) + scripts[0]
  }

  ghost predicate ParsedFrom(line: seq<Agentfile>, scripts: seq<seq<Instruction>>) {
    && |line| == |scripts|
    && forall i :: 0 <= i < |line| ==>
         line[i].agent == Fold(scripts[i]) && AllWellFormed(scripts[i]) && HasFrom(scripts[i])
  }

  lemma {:induction false} RootToChildWellFormed(line: seq<Agentfile>, scripts: seq<seq<Instruction>>)
    requires ParsedFrom(line, scripts)
    ensures AllWellFormed(RootToChild(scripts))
    decreases scripts
  {
    if scripts != [] {
      RootToChildWellFormed(line[1..], scripts[1..]);
    }
  }

  /** A resolved agent is the parse of all its ancestors' lines, root first, run together. */
  lemma {:induction false} ResolvedIsConcatenation(line: seq<Agentfile>, scripts: seq<seq<Instruction>>)
    requires line != [] && ParsedFrom(line, scripts)
    ensures MergeDown(line).agent == Fold(RootToChild(scripts))
    decreases line
  {
    if |line| == 1 {
      assert RootToChild(scripts[1..]) == [];
      assert RootToChild(scripts) == scripts[0];
    } else {
      ResolvedIsConcatenation(line[1..], scripts[1..]);
      RootToChildWellFormed(line[1..], scripts[1..]);
      InheritanceIsConcatenation(RootToChild(scripts[1..]), scripts[0]);
    }
  }
}
