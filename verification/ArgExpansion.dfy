/**
 ARG expansion (spec/parse.go, expandArgs): one ReplaceAll of "${name}" per ARG, in whatever order
 the map is visited. The reference is simultaneous substitution over a parsed template.
 */
module ArgExpansion {
  import opened Prelude

  datatype Segment = Text(text: string) | Ref(name: string)

  function Pattern(name: string): string {
    "${" + name + "}"
  }

  function Render(t: seq<Segment>): string {
    if t == [] then ""
    else (match t[0] case Text(s) => s case Ref(n) => Pattern(n)) + Render(t[1..])
  }

  /** Every defined reference replaced at once; undefined ones left as they stand. */
  function Substitute(t: seq<Segment>, args: map<string, string>): seq<Segment> {
    if t == [] then []
    else (match t[0]
          case Text(_) => [t[0]]
          case Ref(n) => if n in args then [Text(args[n])] else [t[0]]) + Substitute(t[1..], args)
  }

  /** strings.ReplaceAll for a non-empty pattern: leftmost, non-overlapping, left to right. */
  function ReplaceAll(s: string, pattern: string, value: string): string
    requires pattern != ""
    decreases |s|
  {
    if s == "" then ""
    else if HasPrefix(s, pattern) then value + ReplaceAll(s[|pattern|..], pattern, value)
    else [s[0]] + ReplaceAll(s[1..], pattern, value)
  }

  function ContainsRef(s: string): bool {
    s != "" && (HasPrefix(s, "${") || ContainsRef(s[1..]))
  }

  function ReplaceInOrder(s: string, order: seq<string>, args: map<string, string>): string
    requires forall k :: k in order ==> k in args
    decreases order
  {
    if order == [] then s
    else ReplaceInOrder(ReplaceAll(s, Pattern(order[0]), args[order[0]]), order[1..], args)
  }

  ghost predicate Orders(order: seq<string>, args: map<string, string>) {
    NoDuplicates(order) && forall k :: k in order <==> k in args
  }

  /** r is s after one replacement per ARG, in one of the orders a map can be visited in. */
  ghost predicate ReplacedInSomeOrder(s: string, args: map<string, string>, r: string) {
    exists order :: Orders(order, args) && r == ReplaceInOrder(s, order, args)
  }

  /** r is what expansion may make of s. */
  ghost predicate Expands(s: string, args: map<string, string>, r: string) {
    if ContainsRef(s) then ReplacedInSomeOrder(s, args, r) else r == s
  }

  method ExpandArgs(s: string, args: map<string, string>) returns (r: string)
    ensures Expands(s, args, r)
  {
    if !ContainsRef(s) { return s; }
    r := s;
    ghost var order: seq<string> := [];
    var pending := args.Keys;
    while pending != {}
      invariant pending <= args.Keys
      invariant NoDuplicates(order) && forall k :: k in order <==> k in args && k !in pending
      invariant r == ReplaceInOrder(s, order, args)
      decreases pending
    {
      var k :| k in pending;
      ReplaceInOrderSnoc(s, order, k, args);
      r := ReplaceAll(r, Pattern(k), args[k]);
      order := order + [k];
      pending := pending - {k};
    }
  }

  lemma {:induction false} ReplaceInOrderSnoc(s: string, order: seq<string>, k: string, args: map<string, string>)
    requires k in args && forall x :: x in order ==> x in args
    ensures ReplaceInOrder(s, order + [k], args) == ReplaceAll(ReplaceInOrder(s, order, args), Pattern(k), args[k])
    decreases order
  {
    if order == [] {
      assert order + [k] == [k] && [k][1..] == [];
    } else {
      assert (order + [k])[1..] == order[1..] + [k];
      ReplaceInOrderSnoc(ReplaceAll(s, Pattern(order[0]), args[order[0]]), order[1..], k, args);
    }
  }

  // ---------------------------------------------------------------------------------------
  // One replacement on a template
  // ---------------------------------------------------------------------------------------

  /** Text without '$'; reference names without '$' or '}'. */
  ghost predicate Plain(t: seq<Segment>) {
    forall i :: 0 <= i < |t| ==>
      match t[i]
      case Text(s) => '$' !in s
      case Ref(n) => PlainName(n)
  }

  predicate PlainName(n: string) {
    '$' !in n && '}' !in n
  }

  ghost predicate PlainArgs(args: map<string, string>) {
    forall k :: k in args ==> PlainName(k) && '$' !in args[k]
  }

  /** A pattern cannot start before the next '$'. */
  lemma {:induction false} ReplacePastText(text: string, rest: string, pattern: string, value: string)
    requires '$' !in text && pattern != "" && pattern[0] == '$'
    ensures ReplaceAll(text + rest, pattern, value) == text + ReplaceAll(rest, pattern, value)
    decreases |text|
  {
    if text == "" {
      assert text + rest == rest;
    } else {
      var s := text + rest;
      assert s[0] == text[0] && s[0] in text;
      assert s[1..] == text[1..] + rest;
      assert forall c :: c in text[1..] ==> c in text;
      PrefixChars(s, pattern);
      ReplacePastText(text[1..], rest, pattern, value);
      assert text == [text[0]] + text[1..];
    }
  }

  /** "${k}" is found at "${n}..." only if it is the same name. */
  lemma PatternsDiffer(k: string, n: string, rest: string)
    requires '}' !in k && '}' !in n && k != n
    ensures !HasPrefix(Pattern(n) + rest, Pattern(k))
  {
    var s, p := Pattern(n) + rest, Pattern(k);
    PrefixChars(s, p);
    assert s[2 + |n|] == '}' && p[2 + |k|] == '}';
    assert forall i :: 0 <= i < |k| ==> p[2 + i] == k[i];
    assert forall i :: 0 <= i < |n| ==> s[2 + i] == n[i];
    assert |k| == |n| ==> exists i :: 0 <= i < |k| && k[i] != n[i];
  }

  /** A different reference is stepped over whole. */
  lemma ReplacePastRef(k: string, n: string, rest: string, value: string)
    requires PlainName(k) && PlainName(n) && k != n
    ensures ReplaceAll(Pattern(n) + rest, Pattern(k), value) == Pattern(n) + ReplaceAll(rest, Pattern(k), value)
  {
    PatternsDiffer(k, n, rest);
    var s, tail := Pattern(n) + rest, "{" + n + "}";
    assert s[0] == '$' && s[1..] == tail + rest;
    assert '$' !in tail;
    ReplacePastText(tail, rest, Pattern(k), value);
    assert Pattern(n) == ['$'] + tail;
  }

  lemma {:induction false} ReplaceOne(t: seq<Segment>, k: string, value: string)
    requires Plain(t) && PlainName(k)
    ensures ReplaceAll(Render(t), Pattern(k), value) == Render(Substitute(t, map[k := value]))
    decreases t
  {
    if t != [] {
      var rest := Render(t[1..]);
      ReplaceOne(t[1..], k, value);
      var sub := Substitute(t[1..], map[k := value]);
      match t[0]
      case Text(s) =>
        ReplacePastText(s, rest, Pattern(k), value);
        RenderCons(Text(s), sub);
      case Ref(n) =>
        if n == k {
          assert HasPrefix(Pattern(k) + rest, Pattern(k));
          assert (Pattern(k) + rest)[|Pattern(k)|..] == rest;
          RenderCons(Text(value), sub);
        } else {
          ReplacePastRef(k, n, rest, value);
          RenderCons(Ref(n), sub);
        }
    }
  }

  lemma RenderCons(head: Segment, t: seq<Segment>)
    ensures Render([head] + t) == (match head case Text(s) => s case Ref(n) => Pattern(n)) + Render(t)
  {
    assert ([head] + t)[1..] == t;
  }

  lemma {:induction false} SubstitutePlain(t: seq<Segment>, args: map<string, string>)
    requires Plain(t) && PlainArgs(args)
    ensures Plain(Substitute(t, args))
  {
    if t != [] { SubstitutePlain(t[1..], args); }
  }

  /** Substituting one more name afterwards is substituting it at the same time. */
  lemma {:induction false} SubstituteTwice(t: seq<Segment>, args: map<string, string>, k: string, value: string)
    requires k !in args
    ensures Substitute(Substitute(t, args), map[k := value]) == Substitute(t, args[k := value])
  {
    if t != [] {
      SubstituteTwice(t[1..], args, k, value);
      var sub := Substitute(t[1..], args);
      var head := match t[0]
                  case Text(_) => t[0]
                  case Ref(n) => if n in args then Text(args[n]) else t[0];
      assert Substitute(t, args) == [head] + sub;
      assert ([head] + sub)[1..] == sub;
    }
  }

  lemma {:induction false} SubstituteNothing(t: seq<Segment>)
    ensures Substitute(t, map[]) == t
  {
    if t != [] { SubstituteNothing(t[1..]); }
  }

  // ---------------------------------------------------------------------------------------
  // Order independence
  // ---------------------------------------------------------------------------------------

  function Firsts(order: seq<string>, args: map<string, string>): map<string, string>
    requires forall k :: k in order ==> k in args
  {
    map k | k in order :: args[k]
  }

  lemma {:induction false} ReplaceOrdered(t: seq<Segment>, order: seq<string>, args: map<string, string>)
    requires Plain(t) && PlainArgs(args)
    requires NoDuplicates(order) && forall k :: k in order ==> k in args
    ensures ReplaceInOrder(Render(t), order, args) == Render(Substitute(t, Firsts(order, args)))
    decreases |order|
  {
    if order == [] {
      assert Firsts(order, args) == map[];
      SubstituteNothing(t);
    } else {
      var init, k := order[..|order| - 1], order[|order| - 1];
      assert order == init + [k];
      ReplaceOrdered(t, init, args);
      ReplaceInOrderSnoc(Render(t), init, k, args);
      SubstitutePlain(t, Firsts(init, args));
      ReplaceOne(Substitute(t, Firsts(init, args)), k, args[k]);
      assert k !in init;
      SubstituteTwice(t, Firsts(init, args), k, args[k]);
      assert Firsts(order, args) == Firsts(init, args)[k := args[k]];
    }
  }

  lemma {:induction false} NoRefRendered(t: seq<Segment>)
    requires !ContainsRef(Render(t))
    ensures forall i :: 0 <= i < |t| ==> t[i].Text?
    decreases t
  {
    if t != [] {
      var rest := Render(t[1..]);
      match t[0]
      case Text(s) =>
        NoRefInSuffix(s, rest);
        NoRefRendered(t[1..]);
        assert forall i :: 1 <= i < |t| ==> t[i] == t[1..][i - 1];
      case Ref(n) =>
        RefIsFound(n, rest);
        assert false;
    }
  }

  lemma RefIsFound(n: string, rest: string)
    ensures ContainsRef(Pattern(n) + rest)
  {
    assert (Pattern(n) + rest)[..2] == "${";
  }

  lemma {:induction false} NoRefInSuffix(a: string, b: string)
    requires !ContainsRef(a + b)
    ensures !ContainsRef(b)
    decreases |a|
  {
    if a == "" { assert a + b == b; }
    else {
      assert (a + b)[1..] == a[1..] + b;
      NoRefInSuffix(a[1..], b);
    }
  }

  lemma {:induction false} SubstituteText(t: seq<Segment>, args: map<string, string>)
    requires forall i :: 0 <= i < |t| ==> t[i].Text?
    ensures Substitute(t, args) == t
  {
    if t != [] { SubstituteText(t[1..], args); }
  }

  /**
   On plain templates the sequential replacements equal simultaneous substitution, whatever the map
   order and with or without the early exit; undefined references survive unchanged.
   */
  lemma ExpansionIsSubstitution(t: seq<Segment>, args: map<string, string>, r: string)
    requires Plain(t) && PlainArgs(args)
    requires Expands(Render(t), args, r)
    ensures r == Render(Substitute(t, args))
  {
    if ContainsRef(Render(t)) {
      var order :| Orders(order, args) && r == ReplaceInOrder(Render(t), order, args);
      ReplaceOrdered(t, order, args);
      assert Firsts(order, args) == args;
    } else {
      NoRefRendered(t);
      SubstituteText(t, args);
    }
  }

  /** An expanded line no longer depends on which of its arguments' map orders was used. */
  lemma ExpansionOrderIndependent(t: seq<Segment>, o1: seq<string>, o2: seq<string>, args: map<string, string>)
    requires Plain(t) && PlainArgs(args) && Orders(o1, args) && Orders(o2, args)
    ensures ReplaceInOrder(Render(t), o1, args) == ReplaceInOrder(Render(t), o2, args)
  {
    ReplaceOrdered(t, o1, args);
    ReplaceOrdered(t, o2, args);
    assert Firsts(o1, args) == args == Firsts(o2, args);
  }

  lemma ReplaceRef(n: string, k: string, value: string)
    requires PlainName(n) && PlainName(k)
    ensures ReplaceAll(Pattern(n), Pattern(k), value) == if n == k then value else Pattern(n)
  {
    var s := [Ref(n)];
    RenderOne(Ref(n));
    RenderOne(Text(value));
    ReplaceOne(s, k, value);
    assert s[1..] == [];
    assert Substitute(s, map[k := value]) == if n == k then [Text(value)] else s;
  }

  lemma InTwoSteps(s: string, a: string, b: string, args: map<string, string>)
    requires a in args && b in args
    ensures ReplaceInOrder(s, [a, b], args) == ReplaceAll(ReplaceAll(s, Pattern(a), args[a]), Pattern(b), args[b])
  {
    assert [a, b][1..] == [b] && [b][1..] == [];
    var s1 := ReplaceAll(s, Pattern(a), args[a]);
    assert ReplaceInOrder(s1, [b], args) == ReplaceInOrder(ReplaceAll(s1, Pattern(b), args[b]), [], args);
  }

  /** One reference filled in with x, on top of other fixed replacements. */
  function Filled(t: seq<Segment>, a: string, x: string, m: map<string, string>): string {
    Render(Substitute(t, m[a := x]))
  }

  lemma FilledCons(t: seq<Segment>, a: string, x: string, m: map<string, string>)
    requires t != []
    ensures Filled(t, a, x, m) ==
            (if t[0] == Ref(a) then x else Render(Substitute([t[0]], m))) + Filled(t[1..], a, x, m)
  {
    RenderOne(Text(x));
    var args := m[a := x];
    var rest := Substitute(t[1..], args);
    assert [t[0]][1..] == [];
    var head := match t[0] case Text(_) => t[0] case Ref(n) => if n in args then Text(args[n]) else t[0];
    assert Substitute(t, args) == [head] + rest;
    RenderCons(head, rest);
    RenderOne(head);
    if t[0] != Ref(a) {
      var own := match t[0] case Text(_) => t[0] case Ref(n) => if n in m then Text(m[n]) else t[0];
      assert Substitute([t[0]], m) == [own] + Substitute([], m) == [own];
    }
  }

  /** Filling in a longer text never gives a shorter result, and a strictly longer one where it is used. */
  lemma {:induction false} FilledLength(t: seq<Segment>, a: string, x: string, y: string, m: map<string, string>)
    requires |x| <= |y|
    ensures |Filled(t, a, x, m)| <= |Filled(t, a, y, m)|
    ensures |x| < |y| && Ref(a) in t ==> |Filled(t, a, x, m)| < |Filled(t, a, y, m)|
    ensures |x| == |y| ==> |Filled(t, a, x, m)| == |Filled(t, a, y, m)|
    decreases t
  {
    if t != [] {
      FilledCons(t, a, x, m);
      FilledCons(t, a, y, m);
      FilledLength(t[1..], a, x, y, m);
      assert Ref(a) in t <==> t[0] == Ref(a) || Ref(a) in t[1..];
    }
  }

  lemma {:induction false} FilledSame(t: seq<Segment>, a: string, x: string, y: string, m: map<string, string>)
    requires |x| == |y| && Filled(t, a, x, m) == Filled(t, a, y, m) && Ref(a) in t
    ensures x == y
    decreases t
  {
    FilledCons(t, a, x, m);
    FilledCons(t, a, y, m);
    FilledLength(t[1..], a, x, y, m);
    var fx, fy := Filled(t, a, x, m), Filled(t, a, y, m);
    if t[0] == Ref(a) {
      assert x == fx[..|x|] == fy[..|x|] == y;
    } else {
      var n := |Render(Substitute([t[0]], m))|;
      assert Filled(t[1..], a, x, m) == fx[n..] == fy[n..] == Filled(t[1..], a, y, m);
      FilledSame(t[1..], a, x, y, m);
    }
  }

  lemma {:induction false} FilledUnused(t: seq<Segment>, a: string, x: string, y: string, m: map<string, string>)
    requires Ref(a) !in t
    ensures Filled(t, a, x, m) == Filled(t, a, y, m)
    decreases t
  {
    if t != [] {
      FilledCons(t, a, x, m);
      FilledCons(t, a, y, m);
      FilledUnused(t[1..], a, x, y, m);
    }
  }

  /** Two texts filled in for a give the same result exactly when they are the same or a is not referred to. */
  lemma FilledInjective(t: seq<Segment>, a: string, x: string, y: string, m: map<string, string>)
    ensures Filled(t, a, x, m) == Filled(t, a, y, m) <==> Ref(a) !in t || x == y
  {
    if Ref(a) !in t {
      FilledUnused(t, a, x, y, m);
    } else if |x| <= |y| {
      FilledLength(t, a, x, y, m);
      if |x| == |y| && Filled(t, a, x, m) == Filled(t, a, y, m) { FilledSame(t, a, x, y, m); }
    } else {
      FilledLength(t, a, y, x, m);
    }
  }

  /** Filling a reference in with itself changes nothing. */
  lemma {:induction false} FilledItself(t: seq<Segment>, a: string)
    ensures Filled(t, a, Pattern(a), map[]) == Render(t)
    decreases t
  {
    if t != [] {
      FilledCons(t, a, Pattern(a), map[]);
      FilledItself(t[1..], a);
      RenderCons(t[0], t[1..]);
      RenderOne(t[0]);
      assert t == [t[0]] + t[1..];
      assert [t[0]][1..] == [] && Substitute([t[0]], map[]) == [t[0]] + Substitute([], map[]) == [t[0]];
    }
  }

  /** The template with every reference to a replaced by the template u. */
  function Splice(t: seq<Segment>, a: string, u: seq<Segment>): seq<Segment> {
    if t == [] then [] else (if t[0] == Ref(a) then u else [t[0]]) + Splice(t[1..], a, u)
  }

  lemma {:induction false} SplicePlain(t: seq<Segment>, a: string, u: seq<Segment>)
    requires Plain(t) && Plain(u)
    ensures Plain(Splice(t, a, u))
    decreases t
  {
    if t != [] { SplicePlain(t[1..], a, u); }
  }

  lemma {:induction false} RenderAppend(t: seq<Segment>, u: seq<Segment>)
    ensures Render(t + u) == Render(t) + Render(u)
  {
    if t == [] {
      assert t + u == u;
    } else {
      assert (t + u)[1..] == t[1..] + u && (t + u)[0] == t[0];
      RenderAppend(t[1..], u);
    }
  }

  lemma {:induction false} SubstituteAppend(t: seq<Segment>, u: seq<Segment>, m: map<string, string>)
    ensures Substitute(t + u, m) == Substitute(t, m) + Substitute(u, m)
  {
    if t == [] {
      assert t + u == u;
    } else {
      assert (t + u)[1..] == t[1..] + u && (t + u)[0] == t[0];
      SubstituteAppend(t[1..], u, m);
    }
  }

  /** Replacing b in a spliced template is filling in, for a, what that replacement makes of u. */
  lemma {:induction false} SpliceFilled(t: seq<Segment>, a: string, u: seq<Segment>, m: map<string, string>)
    requires a !in m
    ensures Render(Substitute(Splice(t, a, u), m)) == Filled(t, a, Render(Substitute(u, m)), m)
    decreases t
  {
    if t != [] {
      var x := Render(Substitute(u, m));
      FilledCons(t, a, x, m);
      SpliceFilled(t[1..], a, u, m);
      var head, rest := if t[0] == Ref(a) then u else [t[0]], Splice(t[1..], a, u);
      assert Splice(t, a, u) == head + rest;
      SubstituteAppend(head, rest, m);
      RenderAppend(Substitute(head, m), Substitute(rest, m));
    }
  }

  /** One replacement with the text of a template leaves the text of the spliced template. */
  lemma ReplaceSplices(t: seq<Segment>, a: string, u: seq<Segment>)
    requires Plain(t) && PlainName(a)
    ensures ReplaceAll(Render(t), Pattern(a), Render(u)) == Render(Splice(t, a, u))
  {
    ReplaceOne(t, a, Render(u));
    SpliceFilled(t, a, u, map[]);
    SubstituteEmpty(u);
    SubstituteEmpty(Splice(t, a, u));
  }

  lemma {:induction false} SubstituteEmpty(t: seq<Segment>)
    ensures Substitute(t, map[]) == t
  {
    if t != [] {
      SubstituteEmpty(t[1..]);
      assert t == [t[0]] + t[1..];
    }
  }

  /** a first, then b: for a stands its value with b replaced. */
  lemma FirstOrder(line: seq<Segment>, a: string, b: string, t: seq<Segment>, value: string)
    requires Plain(line) && Plain(t) && PlainName(a) && PlainName(b) && a != b
    ensures ReplaceInOrder(Render(line), [a, b], map[a := Render(t), b := value]) ==
            Filled(line, a, Filled(t, b, value, map[]), map[b := value])
  {
    InTwoSteps(Render(line), a, b, map[a := Render(t), b := value]);
    ReplaceSplices(line, a, t);
    SplicePlain(line, a, t);
    ReplaceOne(Splice(line, a, t), b, value);
    SpliceFilled(line, a, t, map[b := value]);
  }

  /** b first, then a: for a stands its value as it is. */
  lemma SecondOrder(line: seq<Segment>, a: string, b: string, t: seq<Segment>, value: string, v: seq<Segment>)
    requires Plain(line) && Plain(t) && PlainName(a) && PlainName(b) && a != b
    requires Ref(b) in line ==> Plain(v) && Render(v) == value && Ref(a) !in v
    ensures ReplaceInOrder(Render(line), [b, a], map[a := Render(t), b := value]) ==
            Filled(line, a, Render(t), map[b := value])
  {
    InTwoSteps(Render(line), b, a, map[a := Render(t), b := value]);
    if Ref(b) in line {
      ReplaceSplices(line, b, v);
      SplicePlain(line, b, v);
      ReplaceOne(Splice(line, b, v), a, Render(t));
      SpliceFilled(line, b, v, map[a := Render(t)]);
      FilledUnused(v, a, Render(t), Pattern(a), map[]);
      FilledItself(v, a);
    } else {
      ReplaceOne(line, b, value);
      FilledUnused(line, b, value, Pattern(b), map[]);
      FilledItself(line, b);
      ReplaceOne(line, a, Render(t));
      FilledUnused(line, b, value, Pattern(b), map[a := Render(t)]);
      SubstituteItself(line, b, map[a := Render(t)]);
    }
    assert map[a := Render(t)][b := value] == map[b := value][a := Render(t)];
  }

  lemma SubstituteItself(t: seq<Segment>, b: string, m: map<string, string>)
    requires b !in m && Ref(b) !in t
    ensures Filled(t, b, Pattern(b), m) == Render(Substitute(t, m))
  {
    SubstituteUnused(t, b, Pattern(b), m);
  }

  lemma {:induction false} SubstituteUnused(t: seq<Segment>, b: string, x: string, m: map<string, string>)
    requires b !in m && Ref(b) !in t
    ensures Substitute(t, m[b := x]) == Substitute(t, m)
    decreases t
  {
    if t != [] { SubstituteUnused(t[1..], b, x, m); }
  }

  /**
   For any plain line, when the value of a is any plain template and the value of b any text (a plain
   template that does not refer back to a, if the line itself refers to b): the line comes out the
   same in both map orders exactly when it does not refer to a, or the template does not refer to b,
   or b stands for its own reference.
   */
  lemma OrderMattersExactly(line: seq<Segment>, a: string, b: string, t: seq<Segment>, value: string, v: seq<Segment>)
    requires Plain(line) && Plain(t) && PlainName(a) && PlainName(b) && a != b
    requires Ref(b) in line ==> Plain(v) && Render(v) == value && Ref(a) !in v
    ensures var args := map[a := Render(t), b := value];
            ReplaceInOrder(Render(line), [a, b], args) == ReplaceInOrder(Render(line), [b, a], args) <==>
            Ref(a) !in line || Ref(b) !in t || value == Pattern(b)
  {
    FirstOrder(line, a, b, t, value);
    SecondOrder(line, a, b, t, value, v);
    FilledInjective(line, a, Filled(t, b, value, map[]), Render(t), map[b := value]);
    FilledInjective(t, b, value, Pattern(b), map[]);
    FilledItself(t, b);
  }

  /** So with a reference to b as the value of a, the two orders give two different lines. */
  lemma OrderMattersOtherwise(a: string, b: string, value: string)
    requires PlainName(a) && PlainName(b) && a != b && value != Pattern(b)
    ensures var args := map[a := Pattern(b), b := value];
            && ReplaceInOrder(Pattern(a), [a, b], args) == value
            && ReplaceInOrder(Pattern(a), [b, a], args) == Pattern(b) != value
  {
    var args := map[a := Pattern(b), b := value];
    InTwoSteps(Pattern(a), a, b, args);
    InTwoSteps(Pattern(a), b, a, args);
    ReplaceRef(a, a, Pattern(b));
    ReplaceRef(b, b, value);
    ReplaceRef(a, b, value);
  }

  /** A line made of '$'-free text and references with plain names. */
  ghost predicate PlainLine(line: string) {
    exists t :: Plain(t) && Render(t) == line
  }

  /** Whatever orders the map was visited in, a plain line has one expansion under plain arguments. */
  lemma ExpansionUnique(line: string, args: map<string, string>, r1: string, r2: string)
    requires PlainLine(line) && PlainArgs(args)
    requires Expands(line, args, r1) && Expands(line, args, r2)
    ensures r1 == r2
  {
    var t :| Plain(t) && Render(t) == line;
    ExpansionIsSubstitution(t, args, r1);
    ExpansionIsSubstitution(t, args, r2);
  }

  lemma RenderOne(s: Segment)
    ensures Render([s]) == match s case Text(text) => text case Ref(n) => Pattern(n)
  {
    RenderCons(s, []);
    assert [s] + [] == [s];
    assert s.Text? ==> s.text + "" == s.text;
    assert s.Ref? ==> Pattern(s.name) + "" == Pattern(s.name);
  }

  /** A reference is "${", the name and "}": in plain text it becomes its value, and stays if it has none. */
  lemma ReferenceReplaced(a: string, name: string, b: string, args: map<string, string>, r: string)
    requires '$' !in a && '$' !in b && PlainName(name) && PlainArgs(args)
    requires Expands(a + "${" + name + "}" + b, args, r)
    ensures r == if name in args then a + args[name] + b else a + "${" + name + "}" + b
  {
    var t := [Text(a), Ref(name), Text(b)];
    RenderThree(Text(a), Ref(name), Text(b));
    assert a + "${" + name + "}" + b == a + ("${" + name + "}") + b;
    ExpansionIsSubstitution(t, args, r);
    var u := if name in args then Text(args[name]) else Ref(name);
    assert t[1..] == [Ref(name), Text(b)] && [Ref(name), Text(b)][1..] == [Text(b)] && [Text(b)][1..] == [];
    assert Substitute([Text(b)], args) == [Text(b)];
    assert Substitute([Ref(name), Text(b)], args) == [u] + [Text(b)];
    assert Substitute(t, args) == [Text(a)] + ([u] + [Text(b)]) == [Text(a), u, Text(b)];
    RenderThree(Text(a), u, Text(b));
  }

  lemma RenderThree(x: Segment, y: Segment, z: Segment)
    ensures Render([x, y, z]) == Render([x]) + Render([y]) + Render([z])
    ensures forall s :: Render([Text(s)]) == s
    ensures forall n :: Render([Ref(n)]) == "${" + n + "}"
  {
    RenderCons(x, [y, z]);
    RenderCons(y, [z]);
    assert [x] + [y, z] == [x, y, z] && [y] + [z] == [y, z];
    RenderOne(x);
    RenderOne(y);
    RenderOne(z);
    forall s ensures Render([Text(s)]) == s { RenderOne(Text(s)); }
    forall n ensures Render([Ref(n)]) == "${" + n + "}" { RenderOne(Ref(n)); }
  }
}
