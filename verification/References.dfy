/**
 OCI references: the two independently written splitters (spec/reference.go ParseReference and
 executor/system/registry.go splitRef), the canonical string form, and default-registry qualification.
 */
module References {
  import opened Prelude

  const DefaultTag := "latest"

  datatype Reference = Reference(name: string, tag: string) {
    /** "name:tag", with an empty tag rendered as the default one. */
    function String(): string {
      name + ":" + (if tag == "" then DefaultTag else tag)
    }
  }

  /** The last occurrence of c among the first n characters, or -1. */
  function LastIndexBelow(s: string, c: char, n: nat): (i: int)
    requires n <= |s|
    ensures -1 <= i < n
    ensures i >= 0 ==> s[i] == c
    ensures forall j :: i < j < n ==> s[j] != c
  {
    if n == 0 then -1 else if s[n - 1] == c then n - 1 else LastIndexBelow(s, c, n - 1)
  }

  /** strings.LastIndex for a single character. */
  function LastIndexOf(s: string, c: char): (i: int)
    ensures -1 <= i < |s|
    ensures i >= 0 ==> s[i] == c
    ensures forall j :: i < j < |s| ==> s[j] != c
  {
    LastIndexBelow(s, c, |s|)
  }

  /** The first occurrence of c at or after from, or -1. */
  function IndexFrom(s: string, c: char, from: nat): (i: int)
    requires from <= |s|
    ensures i == -1 || from <= i < |s|
    ensures i >= 0 ==> s[i] == c && forall j :: from <= j < i ==> s[j] != c
    ensures i < 0 ==> forall j :: from <= j < |s| ==> s[j] != c
    decreases |s| - from
  {
    if from == |s| then -1 else if s[from] == c then from else IndexFrom(s, c, from + 1)
  }

  /** strings.Index for a single character. */
  function IndexOf(s: string, c: char): (i: int)
    ensures -1 <= i < |s|
    ensures i >= 0 ==> s[i] == c && forall j :: 0 <= j < i ==> s[j] != c
    ensures i < 0 ==> forall j :: 0 <= j < |s| ==> s[j] != c
  {
    IndexFrom(s, c, 0)
  }

  lemma LastIndexIs(s: string, c: char, i: int)
    requires -1 <= i < |s|
    requires i >= 0 ==> s[i] == c
    requires forall j :: i < j < |s| ==> s[j] != c
    ensures LastIndexOf(s, c) == i
  {
  }

  lemma IndexIs(s: string, c: char, i: nat)
    requires i < |s| && s[i] == c
    requires forall j :: 0 <= j < i ==> s[j] != c
    ensures IndexOf(s, c) == i
  {
  }

  function ParseReference(s: string): Reference {
    var lastSlash := LastIndexOf(s, '/');
    var tagPart := if lastSlash >= 0 then s[lastSlash..] else s;
    var idx := LastIndexOf(tagPart, ':');
    if idx > 0 then
      var fullIdx := if lastSlash >= 0 then idx + lastSlash else idx;
      Reference(s[..fullIdx], s[fullIdx + 1..])
    else
      Reference(s, DefaultTag)
  }

  /** Where the tag separator sits: the last colon, when it follows the last slash and is not the first character. */
  ghost predicate HasTag(s: string) {
    LastIndexOf(s, ':') > LastIndexOf(s, '/') && LastIndexOf(s, ':') > 0
  }

  /** The splitter without its index arithmetic. */
  lemma ParseSplit(s: string)
    ensures ParseReference(s) ==
            if HasTag(s) then Reference(s[..LastIndexOf(s, ':')], s[LastIndexOf(s, ':') + 1..])
            else Reference(s, DefaultTag)
  {
    var slash, colon := LastIndexOf(s, '/'), LastIndexOf(s, ':');
    if slash >= 0 {
      var tagPart := s[slash..];
      assert forall j :: 0 <= j < |tagPart| ==> tagPart[j] == s[slash + j];
      if colon > slash {
        LastIndexIs(tagPart, ':', colon - slash);
      } else {
        LastIndexIs(tagPart, ':', -1);
      }
    }
  }

  /** Position k splits s into name and tag: a colon that is neither first nor followed by a separator. */
  ghost predicate IsSeparator(s: string, k: int) {
    0 < k < |s| && s[k] == ':' && forall j | k < j < |s| :: s[j] != ':' && s[j] != '/'
  }

  lemma ParseAt(s: string, k: int)
    requires IsSeparator(s, k)
    ensures ParseReference(s) == Reference(s[..k], s[k + 1..])
  {
    ParseSplit(s);
    LastIndexIs(s, ':', k);
  }

  lemma SeparatorOfTag(s: string)
    requires HasTag(s)
    ensures IsSeparator(s, LastIndexOf(s, ':'))
  {
  }

  lemma TagAfterSeparator(s: string, k: int)
    requires IsSeparator(s, k)
    ensures ':' !in s[k + 1..] && '/' !in s[k + 1..]
  {
    var rest := s[k + 1..];
    forall j | 0 <= j < |rest| ensures rest[j] != ':' && rest[j] != '/' {
      assert rest[j] == s[k + 1 + j];
    }
  }

  /** A parsed tag contains neither separator, and only the empty string has an empty name. */
  lemma ParsedTagPlain(s: string)
    ensures ':' !in ParseReference(s).tag && '/' !in ParseReference(s).tag
    ensures s != "" ==> ParseReference(s).name != ""
  {
    if HasTag(s) {
      var k := LastIndexOf(s, ':');
      SeparatorOfTag(s);
      ParseAt(s, k);
      TagAfterSeparator(s, k);
    } else {
      ParseSplit(s);
    }
  }

  lemma JoinSeparator(name: string, tag: string)
    requires name != "" && ':' !in tag && '/' !in tag
    ensures IsSeparator(name + ":" + tag, |name|)
  {
    var s := name + ":" + tag;
    forall j | |name| < j < |s| ensures s[j] != ':' && s[j] != '/' { assert s[j] == tag[j - |name| - 1]; }
  }

  lemma ParsePlainJoin(name: string, tag: string)
    requires name != "" && ':' !in tag && '/' !in tag
    ensures ParseReference(name + ":" + tag) == Reference(name, tag)
  {
    var s := name + ":" + tag;
    JoinSeparator(name, tag);
    ParseAt(s, |name|);
    assert s[..|name|] == name;
    assert s[|name| + 1..] == tag;
  }

  /** name:tag parses back to (name, tag) exactly when the name is non-empty and the tag has no ':' or '/'. */
  lemma ParseOfJoin(name: string, tag: string)
    ensures ParseReference(name + ":" + tag) == Reference(name, tag) <==>
            (name != "" && ':' !in tag && '/' !in tag)
  {
    if name != "" && ':' !in tag && '/' !in tag {
      ParsePlainJoin(name, tag);
    } else {
      ParsedTagPlain(name + ":" + tag);
    }
  }

  function Normalize(s: string): string {
    ParseReference(s).String()
  }

  /** A colon at the very front is not a tag separator. */
  lemma ParseLeadingColon(tag: string)
    requires ':' !in tag
    ensures ParseReference(":" + tag) == Reference(":" + tag, DefaultTag)
  {
    var s := ":" + tag;
    forall j | 0 < j < |s| ensures s[j] != ':' { assert s[j] == tag[j - 1]; }
    LastIndexIs(s, ':', 0);
    ParseSplit(s);
  }

  /** The empty reference has no normal form: each pass adds another default tag. */
  lemma NormalizeEmpty()
    ensures Normalize("") == ":" + DefaultTag
    ensures Normalize(":" + DefaultTag) == ":" + DefaultTag + ":" + DefaultTag
  {
    ParseSplit("");
    assert "" + ":" + DefaultTag == ":" + DefaultTag;
    ParseLeadingColon(DefaultTag);
  }

  /** A rendered reference parses back to its name and effective tag, and renders the same again. */
  lemma RenderParse(r: Reference)
    requires r.name != "" && ':' !in r.tag && '/' !in r.tag
    ensures ParseReference(r.String()) == Reference(r.name, if r.tag == "" then DefaultTag else r.tag)
    ensures Normalize(r.String()) == r.String()
  {
    ParsePlainJoin(r.name, if r.tag == "" then DefaultTag else r.tag);
  }

  lemma NormalizeStable(s: string)
    requires s != ""
    ensures Normalize(Normalize(s)) == Normalize(s)
  {
    ParsedTagPlain(s);
    RenderParse(ParseReference(s));
  }

  /** Normal form: normalising twice is normalising once, on every string but the empty one. */
  lemma NormalizeIdempotent(s: string)
    ensures Normalize(Normalize(s)) == Normalize(s) <==> s != ""
  {
    if s == "" {
      NormalizeEmpty();
      assert |":" + DefaultTag| != |":" + DefaultTag + ":" + DefaultTag|;
    } else {
      NormalizeStable(s);
    }
  }

  /** splitRef of the system registry: digest first, then tag, else the default tag. */
  function SplitRef(ref: string): (string, string) {
    if ref == "" then ("", "")
    else
      var at := LastIndexOf(ref, '@');
      if at >= 0 then (ref[..at], ref[at + 1..])
      else
        var colon := LastIndexOf(ref, ':');
        if colon >= 0 && '/' !in ref[colon + 1..] then (ref[..colon], ref[colon + 1..])
        else (ref, DefaultTag)
  }

  /** On a non-empty string without '@' the system splitter is the last-colon rule. */
  lemma SplitRefSplit(s: string)
    requires s != "" && '@' !in s
    ensures SplitRef(s) ==
            if LastIndexOf(s, ':') > LastIndexOf(s, '/')
            then (s[..LastIndexOf(s, ':')], s[LastIndexOf(s, ':') + 1..]) else (s, DefaultTag)
  {
    var slash, colon := LastIndexOf(s, '/'), LastIndexOf(s, ':');
    if colon >= 0 {
      var rest := s[colon + 1..];
      if slash > colon {
        assert rest[slash - colon - 1] == '/';
      } else {
        forall j | 0 <= j < |rest| ensures rest[j] != '/' {
          assert rest[j] == s[colon + 1 + j];
        }
      }
    }
  }

  /** The two splitters agree on exactly these strings. */
  lemma SplittersAgree(s: string)
    ensures SplitRef(s) == (ParseReference(s).name, ParseReference(s).tag) <==>
            (s != "" && '@' !in s && !('/' !in s && LastIndexOf(s, ':') == 0))
  {
    ParseSplit(s);
    if s != "" {
      var at := LastIndexOf(s, '@');
      if at >= 0 {
        assert |SplitRef(s).0| == at && s[at] == '@';
      } else {
        SplitRefSplit(s);
      }
    }
  }

  /** With a digest, what follows the last '@' is the digest and what precedes it the name. */
  lemma DigestSplit(name: string, digest: string)
    ensures SplitRef(name + "@" + digest) == (name, digest) <==> '@' !in digest
  {
    var s := name + "@" + digest;
    if '@' in digest {
      var j :| 0 <= j < |digest| && digest[j] == '@';
      assert s[|name| + 1 + j] == '@';
    } else {
      forall j | |name| < j < |s| ensures s[j] != '@' { assert s[j] == digest[j - |name| - 1]; }
      LastIndexIs(s, '@', |name|);
      assert s[..|name|] == name && s[|name| + 1..] == digest;
    }
  }

  /** Without a colon the tag is "latest", for both splitters. */
  lemma UntaggedIsLatest(s: string)
    requires ':' !in s
    ensures ParseReference(s) == Reference(s, "latest") && Normalize(s) == s + ":latest"
    ensures s != "" && '@' !in s ==> SplitRef(s) == (s, "latest")
  {
    ParseSplit(s);
    assert s + ":" + "latest" == s + ":latest";
    if s != "" && '@' !in s { SplitRefSplit(s); }
  }

  // ---------------------------------------------------------------------------------------
  // Qualification
  // ---------------------------------------------------------------------------------------

  function FirstSegment(name: string): string {
    var i := IndexOf(name, '/');
    if i >= 0 then name[..i] else name
  }

  predicate HostLike(segment: string) {
    segment == "localhost" || '.' in segment || ':' in segment
  }

  predicate IsQualified(name: string) {
    HostLike(FirstSegment(ParseReference(name).name))
  }

  function QualifyWithDefault(ref: Reference, defaultRegistry: string): Reference {
    if defaultRegistry == "" || IsQualified(ref.name) then ref
    else Reference(defaultRegistry + "/" + ref.name, ref.tag)
  }

  /** A slash survives parsing, and so does everything before it. */
  lemma ParseKeepsPath(s: string, k: nat)
    requires k < |s| && s[k] == '/'
    ensures k < |ParseReference(s).name| && ParseReference(s).name[..k + 1] == s[..k + 1]
  {
    ParseSplit(s);
  }

  /** The first segment is decided by the text up to and including any slash. */
  lemma FirstSegmentOfPath(registry: string, name: string)
    requires |registry| < |name| && name[..|registry| + 1] == registry + "/"
    ensures FirstSegment(name) == FirstSegment(registry)
  {
    forall j | 0 <= j < |registry| ensures name[j] == registry[j] {
      assert name[j] == name[..|registry| + 1][j];
    }
    assert name[|registry|] == name[..|registry| + 1][|registry|] == '/';
    var i := IndexOf(registry, '/');
    IndexIs(name, '/', if i >= 0 then i else |registry|);
    assert name[..if i >= 0 then i else |registry|] == FirstSegment(registry);
  }

  /** Once a registry is prepended, its own first segment decides qualification, whatever the rest looks like. */
  lemma QualifiedByRegistry(registry: string, name: string)
    ensures IsQualified(registry + "/" + name) <==> HostLike(FirstSegment(registry))
  {
    var s := registry + "/" + name;
    ParseKeepsPath(s, |registry|);
    assert s[..|registry| + 1] == registry + "/";
    FirstSegmentOfPath(registry, ParseReference(s).name);
  }

  /** Qualification is idempotent exactly when nothing is prepended or the registry itself looks like a host. */
  lemma QualifyIdempotent(ref: Reference, registry: string)
    ensures QualifyWithDefault(QualifyWithDefault(ref, registry), registry) == QualifyWithDefault(ref, registry) <==>
            (registry == "" || IsQualified(ref.name) || HostLike(FirstSegment(registry)))
  {
    if registry != "" && !IsQualified(ref.name) {
      QualifiedByRegistry(registry, ref.name);
      var q := QualifyWithDefault(ref, registry);
      assert |registry + "/" + q.name| > |q.name|;
    }
  }

  lemma FirstSegmentIs(a: string, b: string)
    requires '/' !in a
    ensures FirstSegment(a) == a && FirstSegment(a + "/" + b) == a
  {
    var s := a + "/" + b;
    forall j | 0 <= j < |a| ensures s[j] != '/' { assert s[j] == a[j] && a[j] in a; }
    IndexIs(s, '/', |a|);
  }

  /** Qualification keeps the tag and, if anything, puts the registry and a slash before the name. */
  lemma QualifyKeeps(ref: Reference, registry: string)
    ensures var q := QualifyWithDefault(ref, registry);
            q.tag == ref.tag && (q.name == ref.name || q.name == registry + "/" + ref.name)
  {
  }

  /** A name whose text before the first slash is a host is left alone, and no other name with a slash is. */
  lemma QualifyExactly(host: string, rest: string, tag: string, registry: string)
    requires '/' !in host
    ensures QualifyWithDefault(Reference(host + "/" + rest, tag), registry) ==
            Reference(if registry == "" || host == "localhost" || '.' in host || ':' in host
                      then host + "/" + rest else registry + "/" + host + "/" + rest, tag)
  {
    QualifiedByRegistry(host, rest);
    FirstSegmentIs(host, rest);
    assert registry + "/" + host + "/" + rest == registry + "/" + (host + "/" + rest);
  }
}
