/**
 The Docker-backed content store (executor/docker/store.go). Blobs are staged in memory; Tag writes
 them, with an index naming the manifest, as an OCI image layout; Resolve reads such a layout back.
 A tar is an ordered list of named files and the index's JSON codec is a parameter.
 */
module DockerStore {
  import opened Prelude

  type Bytes = seq<Byte>

  datatype Digest = Digest(algorithm: string, encoded: string)

  datatype Descriptor = Descriptor(mediaType: string, digest: Digest, size: int, annotations: map<string, string>)

  datatype TarEntry = TarEntry(name: string, data: Bytes)

  datatype Codec = Codec(encode: seq<Descriptor> -> Bytes, decode: Bytes -> Option<seq<Descriptor>>)

  ghost predicate Invertible(codec: Codec) {
    forall ms: seq<Descriptor> :: codec.decode(codec.encode(ms)) == Some(ms)
  }

  /** What the daemon answers to a save: nothing at that ref, or an archive that may break off. */
  datatype Image = Absent | Archive(entries: seq<TarEntry>, broken: bool)

  datatype StoreError = ReadFailed | NotFound | BrokenArchive | NoIndex | BadIndex | NotStaged | LoadFailed

  datatype State = State(blobs: map<Digest, Bytes>, descs: map<Digest, Descriptor>, loaded: map<string, Descriptor>)

  const Fresh := State(map[], map[], map[])

  const RefName := "org.opencontainers.image.ref.name"
  const ImageName := "io.containerd.image.name"
  const BlobDir := "blobs/sha256/"
  const LayoutMarker := "{\"imageLayoutVersion\":\"1.0.0\"}"

  function Ascii(s: string): Bytes {
    seq(|s|, i requires 0 <= i < |s| => s[i] as int % 256)
  }

  // ---------------------------------------------------------------------------------------
  // Writing a layout
  // ---------------------------------------------------------------------------------------

  function BlobPath(d: Digest): string {
    "blobs/" + d.algorithm + "/" + d.encoded
  }

  function BlobEntries(order: seq<Digest>, blobs: map<Digest, Bytes>): (entries: seq<TarEntry>)
    requires forall d :: d in order ==> d in blobs
    ensures |entries| == |order|
  {
    seq(|order|, i requires 0 <= i < |order| => TarEntry(BlobPath(order[i]), blobs[order[i]]))
  }

  function IndexEntry(ref: string, desc: Descriptor): Descriptor {
    Descriptor(desc.mediaType, desc.digest, desc.size, map[RefName := ref, ImageName := ref])
  }

  function Header(codec: Codec, ref: string, desc: Descriptor): seq<TarEntry> {
    [TarEntry("oci-layout", Ascii(LayoutMarker)), TarEntry("index.json", codec.encode([IndexEntry(ref, desc)]))]
  }

  /** m carries the descriptor's type, digest and size, and ref under both names a daemon looks for. */
  ghost predicate NamedFor(m: Descriptor, ref: string, desc: Descriptor) {
    && m.mediaType == desc.mediaType && m.digest == desc.digest && m.size == desc.size
    && m.annotations == map["org.opencontainers.image.ref.name" := ref, "io.containerd.image.name" := ref]
  }

  function Layout(codec: Codec, ref: string, desc: Descriptor, order: seq<Digest>, blobs: map<Digest, Bytes>): seq<TarEntry>
    requires forall d :: d in order ==> d in blobs
  {
    Header(codec, ref, desc) + BlobEntries(order, blobs)
  }

  /** A listing of all keys, each once: one of the orders a map can be visited in. */
  ghost predicate Enumerates(order: seq<Digest>, keys: set<Digest>) {
    NoDuplicates(order) && forall d :: d in order <==> d in keys
  }

  /** entries is the layout of these blobs, in one of the orders a map can be visited in. */
  ghost predicate IsLayout(codec: Codec, ref: string, desc: Descriptor, blobs: map<Digest, Bytes>, entries: seq<TarEntry>) {
    exists order :: Enumerates(order, blobs.Keys) && entries == Layout(codec, ref, desc, order, blobs)
  }

  method BuildLayoutTar(codec: Codec, ref: string, desc: Descriptor, blobs: map<Digest, Bytes>)
    returns (entries: seq<TarEntry>)
    ensures IsLayout(codec, ref, desc, blobs, entries)
  {
    entries := [TarEntry("oci-layout", Ascii(LayoutMarker))];
    entries := entries + [TarEntry("index.json", codec.encode([IndexEntry(ref, desc)]))];
    ghost var order: seq<Digest> := [];
    var pending := blobs.Keys;
    while pending != {}
      invariant pending <= blobs.Keys
      invariant NoDuplicates(order) && forall d :: d in order <==> d in blobs.Keys && d !in pending
      invariant entries == Layout(codec, ref, desc, order, blobs)
      decreases pending
    {
      var d :| d in pending;
      assert BlobEntries(order + [d], blobs) == BlobEntries(order, blobs) + [TarEntry(BlobPath(d), blobs[d])];
      entries := entries + [TarEntry(BlobPath(d), blobs[d])];
      order := order + [d];
      pending := pending - {d};
    }
    assert Enumerates(order, blobs.Keys);
  }

  // ---------------------------------------------------------------------------------------
  // Reading a layout
  // ---------------------------------------------------------------------------------------

  /** The last index.json wins. */
  function IndexData(entries: seq<TarEntry>): Option<Bytes> {
    if entries == [] then None
    else if entries[|entries| - 1].name == "index.json" then Some(entries[|entries| - 1].data)
    else IndexData(entries[..|entries| - 1])
  }

  function SavedBlobs(entries: seq<TarEntry>): map<Digest, Bytes> {
    if entries == [] then map[]
    else
      var saved, e := SavedBlobs(entries[..|entries| - 1]), entries[|entries| - 1];
      if e.name != "index.json" && HasPrefix(e.name, BlobDir)
      then saved[Digest("sha256", BaseName(e.name)) := e.data] else saved
  }

  function Annotation(m: Descriptor, key: string): string {
    if key in m.annotations then m.annotations[key] else ""
  }

  predicate Names(m: Descriptor, ref: string) {
    Annotation(m, RefName) == ref || Annotation(m, ImageName) == ref
  }

  function FirstNamed(ms: seq<Descriptor>, ref: string): Option<Descriptor> {
    if ms == [] then None else if Names(ms[0], ref) then Some(ms[0]) else FirstNamed(ms[1..], ref)
  }

  /** The first entry naming ref, else the only entry. */
  function Pick(ms: seq<Descriptor>, ref: string): Option<Descriptor> {
    if FirstNamed(ms, ref).Some? then FirstNamed(ms, ref)
    else if |ms| == 1 then Some(ms[0]) else None
  }

  method PickManifest(ms: seq<Descriptor>, ref: string) returns (m: Option<Descriptor>)
    ensures m == Pick(ms, ref)
  {
    for i := 0 to |ms|
      invariant FirstNamed(ms, ref) == FirstNamed(ms[i..], ref)
    {
      if Names(ms[i], ref) { return Some(ms[i]); }
      assert ms[i..][1..] == ms[i + 1..];
    }
    if |ms| == 1 { return Some(ms[0]); }
    return None;
  }

  /** The manifest and blobs of an archive. */
  function Read(codec: Codec, image: Image, ref: string): Result<Descriptor, StoreError> {
    if image.Absent? then Err(NotFound)
    else if image.broken then Err(BrokenArchive)
    else
      var data := IndexData(image.entries);
      if data.None? then Err(NoIndex)
      else
        var ms := codec.decode(data.value);
        if ms.None? then Err(BadIndex)
        else if Pick(ms.value, ref).None? then Err(NotFound)
        else Ok(Pick(ms.value, ref).value)
  }

  /** A minimal descriptor for each saved blob, and the picked one for the manifest. */
  function Absorb(s: State, saved: map<Digest, Bytes>, m: Descriptor): State {
    var minimal := map d | d in saved :: Descriptor("", d, |saved[d]|, map[]);
    s.(blobs := s.blobs + saved, descs := (s.descs + minimal)[m.digest := m])
  }

  function Hydrated(s: State, codec: Codec, image: Image, ref: string): State {
    var r := Read(codec, image, ref);
    if r.Ok? && image.Archive? then Absorb(s, SavedBlobs(image.entries), r.value) else s
  }

  // ---------------------------------------------------------------------------------------
  // The store
  // ---------------------------------------------------------------------------------------

  function Pushed(s: State, desc: Descriptor, data: Bytes): State {
    s.(blobs := s.blobs[desc.digest := data], descs := s.descs[desc.digest := desc])
  }

  /** Missing media type and size come from the staged descriptor. */
  function Completed(s: State, desc: Descriptor): Descriptor {
    if desc.digest in s.descs then
      var staged := s.descs[desc.digest];
      desc.(mediaType := if desc.mediaType == "" then staged.mediaType else desc.mediaType,
            size := if desc.size == 0 then staged.size else desc.size)
    else desc
  }

  function Tagged(s: State, desc: Descriptor, ref: string): State {
    s.(loaded := s.loaded[ref := Completed(s, desc)])
  }

  function Resolved(s: State, codec: Codec, image: Image, ref: string): (Result<Descriptor, StoreError>, State) {
    if ref in s.loaded then (Ok(s.loaded[ref]), s)
    else
      var r := Read(codec, image, ref);
      var s' := Hydrated(s, codec, image, ref);
      (r, if r.Ok? then s'.(loaded := s'.loaded[ref := r.value]) else s')
  }

  function Fetched(s: State, d: Digest): Result<Bytes, StoreError> {
    if d in s.blobs then Ok(s.blobs[d]) else Err(NotFound)
  }

  class Store {
    var blobs: map<Digest, Bytes>
    var descs: map<Digest, Descriptor>
    var loaded: map<string, Descriptor>
    const codec: Codec

    ghost function Value(): State
      reads this
    {
      State(blobs, descs, loaded)
    }

    constructor (codec: Codec)
      ensures Value() == Fresh && this.codec == codec
    {
      blobs, descs, loaded := map[], map[], map[];
      this.codec := codec;
    }

    /** source is what the blob's reader delivers: its bytes, or None when reading it fails. */
    method Push(desc: Descriptor, source: Option<Bytes>) returns (error: Option<StoreError>)
      modifies this
      ensures error == if source.None? then Some(ReadFailed) else None
      ensures Value() == if source.Some? then Pushed(old(Value()), desc, source.value) else old(Value())
    {
      if source.None? { return Some(ReadFailed); }
      blobs := blobs[desc.digest := source.value];
      descs := descs[desc.digest := desc];
      return None;
    }

    method Exists(desc: Descriptor) returns (ok: bool)
      ensures ok <==> Fetched(Value(), desc.digest).Ok?
    {
      ok := desc.digest in blobs;
    }

    method Fetch(desc: Descriptor) returns (r: Result<Bytes, StoreError>)
      ensures r == Fetched(Value(), desc.digest)
    {
      if desc.digest in blobs { return Ok(blobs[desc.digest]); }
      return Err(NotFound);
    }

    /** image is what the daemon would save for ref; it is consulted only on a cache miss. */
    method Resolve(ref: string, image: Image) returns (r: Result<Descriptor, StoreError>)
      modifies this
      ensures (r, Value()) == Resolved(old(Value()), codec, image, ref)
    {
      if ref in loaded { return Ok(loaded[ref]); }
      r := Hydrate(ref, image);
      if r.Ok? { loaded := loaded[ref := r.value]; }
    }

    method Hydrate(ref: string, image: Image) returns (r: Result<Descriptor, StoreError>)
      modifies this
      ensures r == Read(codec, image, ref)
      ensures Value() == Hydrated(old(Value()), codec, image, ref)
    {
      if image.Absent? { return Err(NotFound); }
      var indexData: Option<Bytes> := None;
      var saved: map<Digest, Bytes> := map[];
      var entries := image.entries;
      for i := 0 to |entries|
        invariant indexData == IndexData(entries[..i]) && saved == SavedBlobs(entries[..i])
        invariant Value() == old(Value())
      {
        assert entries[..i + 1][..i] == entries[..i];
        var e := entries[i];
        if e.name == "index.json" {
          indexData := Some(e.data);
        } else if HasPrefix(e.name, BlobDir) {
          saved := saved[Digest("sha256", BaseName(e.name)) := e.data];
        }
      }
      assert entries[..|entries|] == entries;
      if image.broken { return Err(BrokenArchive); }
      if indexData.None? { return Err(NoIndex); }
      var index := codec.decode(indexData.value);
      if index.None? { return Err(BadIndex); }
      var m := PickManifest(index.value, ref);
      if m.None? { return Err(NotFound); }
      var minimal := map d | d in saved :: Descriptor("", d, |saved[d]|, map[]);
      blobs := blobs + saved;
      descs := (descs + minimal)[m.value.digest := m.value];
      return Ok(m.value);
    }

    /** Digest refs and barewords stay local; anything else is committed to the daemon.
        loads: whether the daemon accepts the layout. sent: the layout given to it, if any. */
    method Tag(desc: Descriptor, ref: string, loads: bool)
      returns (error: Option<StoreError>, sent: Option<seq<TarEntry>>)
      modifies this
      ensures Value() == Tagged(old(Value()), desc, ref)
      ensures sent.Some? <==> ':' in ref && !HasPrefix(ref, "sha256:") && desc.digest in blobs
      ensures sent.Some? ==> IsLayout(codec, ref, Completed(old(Value()), desc), blobs, sent.value)
      ensures error == if ':' !in ref || HasPrefix(ref, "sha256:") then None
                       else if desc.digest !in blobs then Some(NotStaged)
                       else if loads then None else Some(LoadFailed)
    {
      var completed := desc;
      if desc.digest in descs {
        var staged := descs[desc.digest];
        if completed.mediaType == "" { completed := completed.(mediaType := staged.mediaType); }
        if completed.size == 0 { completed := completed.(size := staged.size); }
      }
      loaded := loaded[ref := completed];
      if HasPrefix(ref, "sha256:") || ':' !in ref { return None, None; }
      if completed.digest !in blobs { return Some(NotStaged), None; }
      var entries := BuildLayoutTar(codec, ref, completed, blobs);
      return if loads then None else Some(LoadFailed), Some(entries);
    }
  }

  // ---------------------------------------------------------------------------------------
  // Round trip
  // ---------------------------------------------------------------------------------------

  /** A well-formed digest: neither part contains a path separator, and the hex part is present. */
  predicate Clean(d: Digest) {
    '/' !in d.algorithm && '/' !in d.encoded && d.encoded != ""
  }

  lemma SlashDelimited(pre: string, a: string, b: string, rest: string)
    requires '/' !in a && '/' !in b
    requires HasPrefix(pre + a + "/" + rest, pre + b + "/")
    ensures a == b
  {
    var s, t := pre + a + "/" + rest, pre + b + "/";
    assert forall j :: 0 <= j < |t| ==> s[j] == s[..|t|][j] == t[j];
    assert s[|pre| + |a|] == '/' && t[|pre| + |b|] == '/';
    assert forall j :: 0 <= j < |a| ==> s[|pre| + j] == a[j];
    assert forall j :: 0 <= j < |b| ==> t[|pre| + j] == b[j];
    if |a| < |b| {
      assert false;
    } else if |b| < |a| {
      assert false;
    }
  }

  lemma BlobBaseName(d: Digest)
    requires Clean(d)
    ensures BaseName(BlobPath(d)) == d.encoded
  {
    var p, dir := BlobPath(d), "blobs/" + d.algorithm + "/";
    assert p == dir + d.encoded;
    AfterLastSlashOf(dir, d.encoded);
    assert p[|p| - 1] == d.encoded[|d.encoded| - 1];
  }

  /** A blob file is recognised as such exactly for sha256, and its name gives the digest back. */
  lemma BlobPathReadBack(d: Digest)
    requires Clean(d)
    ensures BlobPath(d) != "index.json"
    ensures HasPrefix(BlobPath(d), BlobDir) <==> d.algorithm == "sha256"
    ensures BaseName(BlobPath(d)) == d.encoded
  {
    BlobBaseName(d);
    assert BlobPath(d)[0] == 'b' && "index.json"[0] == 'i';
    assert BlobDir == "blobs/" + "sha256" + "/";
    if d.algorithm == "sha256" {
      assert BlobPath(d)[..|BlobDir|] == BlobDir;
    } else if HasPrefix(BlobPath(d), BlobDir) {
      SlashDelimited("blobs/", d.algorithm, "sha256", d.encoded);
    }
  }

  ghost predicate AllClean(blobs: map<Digest, Bytes>) {
    forall d :: d in blobs ==> Clean(d)
  }

  /** The blobs a reader of layouts can see. */
  function Sha256Only(blobs: map<Digest, Bytes>): map<Digest, Bytes> {
    map d | d in blobs && d.algorithm == "sha256" :: blobs[d]
  }

  /** The archive entry of one blob, read on top of what was read before it. */
  lemma SavedBlobEntry(entries: seq<TarEntry>, d: Digest, data: Bytes)
    requires Clean(d)
    ensures SavedBlobs(entries + [TarEntry(BlobPath(d), data)]) ==
            if d.algorithm == "sha256" then SavedBlobs(entries)[d := data] else SavedBlobs(entries)
    ensures IndexData(entries + [TarEntry(BlobPath(d), data)]) == IndexData(entries)
  {
    BlobPathReadBack(d);
    var e := TarEntry(BlobPath(d), data);
    assert (entries + [e])[..|entries|] == entries;
  }

  lemma HeaderReadBack(codec: Codec, ref: string, desc: Descriptor)
    ensures SavedBlobs(Header(codec, ref, desc)) == map[]
    ensures IndexData(Header(codec, ref, desc)) == Some(codec.encode([IndexEntry(ref, desc)]))
  {
    var h := Header(codec, ref, desc);
    var first := [TarEntry("oci-layout", Ascii(LayoutMarker))];
    assert |first[0].name| < |BlobDir|;
    assert first[..0] == [];
    assert SavedBlobs(first) == map[];
    assert h[..1] == first;
  }

  /** What a reader sees of the blobs listed in order. */
  function Visible(order: seq<Digest>, blobs: map<Digest, Bytes>): map<Digest, Bytes>
    requires forall d :: d in order ==> d in blobs
  {
    map d | d in order && d.algorithm == "sha256" :: blobs[d]
  }

  lemma VisibleSnoc(init: seq<Digest>, d: Digest, blobs: map<Digest, Bytes>)
    requires forall x :: x in init + [d] ==> x in blobs
    ensures forall x :: x in init ==> x in blobs
    ensures Visible(init + [d], blobs) ==
            if d.algorithm == "sha256" then Visible(init, blobs)[d := blobs[d]] else Visible(init, blobs)
  {
    forall x | x in init ensures x in init + [d] {}
  }

  lemma LayoutSnoc(codec: Codec, ref: string, desc: Descriptor, init: seq<Digest>, d: Digest, blobs: map<Digest, Bytes>)
    requires forall x :: x in init + [d] ==> x in blobs
    ensures forall x :: x in init ==> x in blobs
    ensures Layout(codec, ref, desc, init + [d], blobs) ==
            Layout(codec, ref, desc, init, blobs) + [TarEntry(BlobPath(d), blobs[d])]
  {
    forall x | x in init ensures x in init + [d] {}
    assert BlobEntries(init + [d], blobs) == BlobEntries(init, blobs) + [TarEntry(BlobPath(d), blobs[d])];
  }

  lemma {:induction false} LayoutReadBack(
      codec: Codec, ref: string, desc: Descriptor, order: seq<Digest>, blobs: map<Digest, Bytes>)
    requires AllClean(blobs)
    requires forall d :: d in order ==> d in blobs
    ensures SavedBlobs(Layout(codec, ref, desc, order, blobs)) == Visible(order, blobs)
    ensures IndexData(Layout(codec, ref, desc, order, blobs)) == Some(codec.encode([IndexEntry(ref, desc)]))
    decreases |order|
  {
    if order == [] {
      HeaderReadBack(codec, ref, desc);
      assert Layout(codec, ref, desc, order, blobs) == Header(codec, ref, desc);
    } else {
      var init, d := order[..|order| - 1], order[|order| - 1];
      assert order == init + [d];
      LayoutSnoc(codec, ref, desc, init, d, blobs);
      VisibleSnoc(init, d, blobs);
      LayoutReadBack(codec, ref, desc, init, blobs);
      SavedBlobEntry(Layout(codec, ref, desc, init, blobs), d, blobs[d]);
    }
  }

  /** The index of a layout written for ref picks the entry written for ref. */
  lemma LayoutIndex(codec: Codec, ref: string, desc: Descriptor, order: seq<Digest>, blobs: map<Digest, Bytes>)
    requires Invertible(codec) && AllClean(blobs)
    requires forall d :: d in order ==> d in blobs
    ensures Read(codec, Archive(Layout(codec, ref, desc, order, blobs), false), ref) == Ok(IndexEntry(ref, desc))
  {
    LayoutReadBack(codec, ref, desc, order, blobs);
    var m := IndexEntry(ref, desc);
    assert codec.decode(codec.encode([m])) == Some([m]);
    assert Names(m, ref);
  }

  // ---------------------------------------------------------------------------------------
  // What is sent and what is picked, by position
  // ---------------------------------------------------------------------------------------

  /** The one file of a layout called index.json is the second, and it lists one manifest, named ref. */
  lemma SentIndex(codec: Codec, ref: string, desc: Descriptor, blobs: map<Digest, Bytes>, entries: seq<TarEntry>)
    requires Invertible(codec) && IsLayout(codec, ref, desc, blobs, entries)
    ensures |entries| >= 2 && entries[1].name == "index.json"
    ensures entries[0] == TarEntry("oci-layout", Ascii("{\"imageLayoutVersion\":\"1.0.0\"}"))
    ensures forall j :: 2 <= j < |entries| ==> entries[j].name != "index.json"
    ensures exists m :: codec.decode(entries[1].data) == Some([m]) && NamedFor(m, ref, desc)
  {
    var order :| Enumerates(order, blobs.Keys) && entries == Layout(codec, ref, desc, order, blobs);
    forall j | 2 <= j < |entries| ensures entries[j].name != "index.json" {
      assert entries[j].name == BlobPath(order[j - 2]) && BlobPath(order[j - 2])[0] == 'b';
    }
    assert codec.decode(entries[1].data) == Some([IndexEntry(ref, desc)]) && NamedFor(IndexEntry(ref, desc), ref, desc);
  }

  /** e is the file of blob d. */
  ghost predicate FileOf(e: TarEntry, d: Digest, blobs: map<Digest, Bytes>) {
    d in blobs && e.name == "blobs/" + d.algorithm + "/" + d.encoded && e.data == blobs[d]
  }

  ghost predicate BlobFile(e: TarEntry, blobs: map<Digest, Bytes>) {
    exists d :: FileOf(e, d, blobs)
  }

  lemma LayoutAt(codec: Codec, ref: string, desc: Descriptor, order: seq<Digest>, blobs: map<Digest, Bytes>, k: nat)
    requires (forall d :: d in order ==> d in blobs) && k < |order|
    ensures var entries := Layout(codec, ref, desc, order, blobs);
            |entries| == |order| + 2 && FileOf(entries[k + 2], order[k], blobs)
  {
  }

  /** Its other files are the staged blobs, each under its own path. */
  lemma SentBlobs(codec: Codec, ref: string, desc: Descriptor, blobs: map<Digest, Bytes>, entries: seq<TarEntry>)
    requires IsLayout(codec, ref, desc, blobs, entries)
    ensures forall j :: 2 <= j < |entries| ==> BlobFile(entries[j], blobs)
    ensures forall d :: d in blobs ==> exists j :: 2 <= j < |entries| && FileOf(entries[j], d, blobs)
  {
    var order :| Enumerates(order, blobs.Keys) && entries == Layout(codec, ref, desc, order, blobs);
    forall j | 2 <= j < |entries| ensures BlobFile(entries[j], blobs) {
      LayoutAt(codec, ref, desc, order, blobs, j - 2);
      assert FileOf(entries[j], order[j - 2], blobs);
    }
    forall d | d in blobs ensures exists j :: 2 <= j < |entries| && FileOf(entries[j], d, blobs) {
      assert d in order;
      var k :| 0 <= k < |order| && order[k] == d;
      LayoutAt(codec, ref, desc, order, blobs, k);
      assert FileOf(entries[k + 2], d, blobs);
    }
  }

  /** What the annotation under key says, "" when there is none. */
  ghost predicate Says(m: Descriptor, key: string, ref: string) {
    if key in m.annotations then m.annotations[key] == ref else ref == ""
  }

  ghost predicate Carries(m: Descriptor, ref: string) {
    Says(m, "org.opencontainers.image.ref.name", ref) || Says(m, "io.containerd.image.name", ref)
  }

  lemma CarriesIsNames(m: Descriptor, ref: string)
    ensures Carries(m, ref) <==> Names(m, ref)
  {
  }

  /** Entry i is the first that carries ref. */
  ghost predicate FirstCarrying(ms: seq<Descriptor>, ref: string, i: int) {
    0 <= i < |ms| && Carries(ms[i], ref) && forall j :: 0 <= j < i ==> !Carries(ms[j], ref)
  }

  lemma {:induction false} FirstNamedIs(ms: seq<Descriptor>, ref: string, i: nat)
    requires i <= |ms| && forall j :: 0 <= j < i ==> !Carries(ms[j], ref)
    requires i < |ms| ==> Carries(ms[i], ref)
    ensures FirstNamed(ms, ref) == if i < |ms| then Some(ms[i]) else None
    decreases |ms|
  {
    if ms != [] {
      CarriesIsNames(ms[0], ref);
      if i > 0 {
        forall j | 0 <= j < i - 1 ensures !Carries(ms[1..][j], ref) { assert !Carries(ms[j + 1], ref); }
        FirstNamedIs(ms[1..], ref, i - 1);
      }
    }
  }

  lemma {:induction false} SomeCarryOrNone(ms: seq<Descriptor>, ref: string, n: nat) returns (i: nat)
    requires n <= |ms| && forall j :: 0 <= j < n ==> !Carries(ms[j], ref)
    ensures i <= |ms| && (forall j :: 0 <= j < i ==> !Carries(ms[j], ref)) && (i < |ms| ==> Carries(ms[i], ref))
    decreases |ms| - n
  {
    if n == |ms| || Carries(ms[n], ref) { i := n; } else { i := SomeCarryOrNone(ms, ref, n + 1); }
  }

  /** The first entry carrying ref is picked; if none does, the only entry, if there is only one. */
  lemma PickExactly(ms: seq<Descriptor>, ref: string, m: Descriptor)
    ensures Pick(ms, ref) == Some(m) <==>
            || (exists i :: FirstCarrying(ms, ref, i) && ms[i] == m)
            || (ms == [m] && !Carries(m, ref))
  {
    var i := SomeCarryOrNone(ms, ref, 0);
    FirstNamedIs(ms, ref, i);
    if i < |ms| {
      assert FirstCarrying(ms, ref, i);
    } else {
      assert forall j :: !FirstCarrying(ms, ref, j);
    }
  }

  /** The last file called index.json is the index. */
  lemma {:induction false} IndexDataAt(entries: seq<TarEntry>, i: nat)
    requires i < |entries| && entries[i].name == "index.json"
    requires forall j :: i < j < |entries| ==> entries[j].name != "index.json"
    ensures IndexData(entries) == Some(entries[i].data)
  {
    if i < |entries| - 1 { IndexDataAt(entries[..|entries| - 1], i); }
  }

  lemma {:induction false} NoIndexData(entries: seq<TarEntry>)
    requires forall j :: 0 <= j < |entries| ==> entries[j].name != "index.json"
    ensures IndexData(entries) == None
  {
    if entries != [] { NoIndexData(entries[..|entries| - 1]); }
  }

  /** What reading an archive can fail of, in the order in which it is found out. */
  lemma ReadFails(codec: Codec, image: Image, ref: string)
    ensures image.Absent? ==> Read(codec, image, ref) == Err(NotFound)
    ensures image.Archive? && image.broken ==> Read(codec, image, ref) == Err(BrokenArchive)
    ensures image.Archive? && !image.broken && (forall e :: e in image.entries ==> e.name != "index.json") ==>
              Read(codec, image, ref) == Err(NoIndex)
  {
    if image.Archive? && !image.broken && forall e :: e in image.entries ==> e.name != "index.json" {
      NoIndexData(image.entries);
    }
  }

  lemma IndexFails(codec: Codec, entries: seq<TarEntry>, ref: string, at: nat)
    requires at < |entries| && entries[at].name == "index.json"
    requires forall j :: at < j < |entries| ==> entries[j].name != "index.json"
    ensures var index := codec.decode(entries[at].data);
            && (index.None? ==> Read(codec, Archive(entries, false), ref) == Err(BadIndex))
            && (index.Some? && |index.value| != 1 && (forall i :: 0 <= i < |index.value| ==> !Carries(index.value[i], ref)) ==>
                  Read(codec, Archive(entries, false), ref) == Err(NotFound))
  {
    IndexDataAt(entries, at);
    var index := codec.decode(entries[at].data);
    if index.Some? && forall i :: 0 <= i < |index.value| ==> !Carries(index.value[i], ref) {
      FirstNamedIs(index.value, ref, |index.value|);
    }
  }

  /**
   An archive whose index lists, among others, the manifest Tag wrote for ref, no earlier one carrying
   ref, resolves ref to it.
   */
  lemma ResolvedAmongOthers(
      s: State, codec: Codec, entries: seq<TarEntry>, ref: string, desc: Descriptor, ms: seq<Descriptor>, i: nat, at: nat)
    requires ref !in s.loaded
    requires at < |entries| && entries[at].name == "index.json" && codec.decode(entries[at].data) == Some(ms)
    requires forall j :: at < j < |entries| ==> entries[j].name != "index.json"
    requires i < |ms| && NamedFor(ms[i], ref, desc) && forall j :: 0 <= j < i ==> !Carries(ms[j], ref)
    ensures Resolved(s, codec, Archive(entries, false), ref).0 == Ok(ms[i])
  {
    IndexDataAt(entries, at);
    assert FirstCarrying(ms, ref, i);
    PickExactly(ms, ref, ms[i]);
  }

  /**
   Writer and reader undo each other: whatever order the blobs were written in, a fresh store that
   resolves ref from the layout gets the manifest's media type, digest and size, and holds byte for
   byte the staged sha256 blobs, and nothing else.
   */
  lemma RoundTrip(s: State, codec: Codec, desc: Descriptor, ref: string, entries: seq<TarEntry>)
    requires Invertible(codec) && AllClean(s.blobs)
    requires IsLayout(codec, ref, Completed(s, desc), s.blobs, entries)
    ensures var d := Completed(s, desc);
            var (r, reader) := Resolved(Fresh, codec, Archive(entries, false), ref);
            && r.Ok?
            && r.value.mediaType == d.mediaType && r.value.digest == desc.digest && r.value.size == d.size
            && reader.blobs == Sha256Only(s.blobs)
            && reader.loaded == map[ref := r.value]
  {
    var d := Completed(s, desc);
    var order :| Enumerates(order, s.blobs.Keys) && entries == Layout(codec, ref, d, order, s.blobs);
    LayoutIndex(codec, ref, d, order, s.blobs);
    LayoutReadBack(codec, ref, d, order, s.blobs);
    assert Visible(order, s.blobs) == Sha256Only(s.blobs);
    FreshReader(codec, entries, ref, IndexEntry(ref, d));
  }

  lemma FreshReader(codec: Codec, entries: seq<TarEntry>, ref: string, m: Descriptor)
    requires Read(codec, Archive(entries, false), ref) == Ok(m)
    ensures var (r, reader) := Resolved(Fresh, codec, Archive(entries, false), ref);
            r == Ok(m) && reader.blobs == SavedBlobs(entries) && reader.loaded == map[ref := m]
  {
    assert map[] + SavedBlobs(entries) == SavedBlobs(entries);
  }

  /** Every staged blob survives the round trip exactly when every staged digest is a sha256. */
  lemma RoundTripComplete(s: State, codec: Codec, desc: Descriptor, ref: string, entries: seq<TarEntry>)
    requires Invertible(codec) && AllClean(s.blobs)
    requires IsLayout(codec, ref, Completed(s, desc), s.blobs, entries)
    ensures var reader := Resolved(Fresh, codec, Archive(entries, false), ref).1;
            (forall d :: d in s.blobs ==> Fetched(reader, d) == Ok(s.blobs[d])) <==>
            (forall d :: d in s.blobs ==> d.algorithm == "sha256")
  {
    RoundTrip(s, codec, desc, ref, entries);
  }

  /** A descriptor with only a digest is completed from what was pushed, or read from an archive, under that digest. */
  lemma BareCompleted(s: State, desc: Descriptor, data: Bytes, codec: Codec, image: Image, ref: string, d: Digest)
    ensures Completed(Pushed(s, desc, data), Descriptor("", desc.digest, 0, map[])) ==
            Descriptor(desc.mediaType, desc.digest, desc.size, map[])
    ensures ref !in s.loaded && Resolved(s, codec, image, ref).0.Ok? && image.Archive? ==>
              var (r, s') := Resolved(s, codec, image, ref);
              && Completed(s', Descriptor("", r.value.digest, 0, map[])) ==
                 Descriptor(r.value.mediaType, r.value.digest, r.value.size, map[])
              && (d in SavedBlobs(image.entries) && d != r.value.digest ==>
                    Completed(s', Descriptor("", d, 0, map[])) == Descriptor("", d, |SavedBlobs(image.entries)[d]|, map[]))
  {
  }

  /** Two stores, the daemon between them: tag in one, resolve in the other, fetch anything. */
  method ShipAndFetch(source: Store, desc: Descriptor, ref: string, wanted: Digest)
    returns (manifest: Descriptor, data: Result<Bytes, StoreError>)
    requires Invertible(source.codec) && AllClean(source.blobs)
    requires ':' in ref && !HasPrefix(ref, "sha256:") && desc.digest in source.blobs
    requires forall d :: d in source.blobs ==> d.algorithm == "sha256"
    modifies source
    ensures manifest.digest == desc.digest
    ensures desc.mediaType != "" ==> manifest.mediaType == desc.mediaType
    ensures desc.mediaType == "" ==>
              manifest.mediaType == if desc.digest in old(source.descs) then old(source.descs)[desc.digest].mediaType else ""
    ensures desc.size != 0 ==> manifest.size == desc.size
    ensures desc.size == 0 ==>
              manifest.size == if desc.digest in old(source.descs) then old(source.descs)[desc.digest].size else 0
    ensures data == Fetched(old(source.Value()), wanted)
  {
    ghost var before := source.Value();
    var error, sent := source.Tag(desc, ref, true);
    var reader := new Store(source.codec);
    RoundTrip(before, source.codec, desc, ref, sent.value);
    var r := reader.Resolve(ref, Archive(sent.value, false));
    manifest := r.value;
    assert Sha256Only(before.blobs) == before.blobs;
    data := reader.Fetch(Descriptor("", wanted, 0, map[]));
  }

  // ---------------------------------------------------------------------------------------
  // The ref cache
  // ---------------------------------------------------------------------------------------

  /** Every ref the store remembers names a manifest it can fetch. */
  ghost predicate Fetchable(s: State) {
    forall ref :: ref in s.loaded ==> s.loaded[ref].digest in s.blobs
  }

  lemma PushKeepsFetchable(s: State, desc: Descriptor, data: Bytes)
    requires Fetchable(s)
    ensures Fetchable(Pushed(s, desc, data))
  {
  }

  /**
   Tag records the ref before it checks that the manifest is staged, and never checks it for a local
   ref; so the cache stays fetchable exactly when the tagged manifest was staged.
   */
  lemma TagKeepsFetchable(s: State, desc: Descriptor, ref: string)
    requires Fetchable(s)
    ensures Fetchable(Tagged(s, desc, ref)) <==> desc.digest in s.blobs
  {
    assert ref in Tagged(s, desc, ref).loaded;
  }

  /** Resolving keeps it exactly when the archive's index names a blob the archive holds or the store already had. */
  lemma ResolveKeepsFetchable(s: State, codec: Codec, image: Image, ref: string)
    requires Fetchable(s)
    ensures var (r, s') := Resolved(s, codec, image, ref);
            Fetchable(s') <==>
            (r.Ok? && ref !in s.loaded && image.Archive? ==>
               r.value.digest in s.blobs || r.value.digest in SavedBlobs(image.entries))
  {
    var (r, s') := Resolved(s, codec, image, ref);
    if r.Ok? && ref !in s.loaded { assert ref in s'.loaded; }
  }

  /** One call on a store. */
  datatype Call = Push(desc: Descriptor, source: Option<Bytes>) | Tag(desc: Descriptor, ref: string) | Resolve(ref: string, image: Image)

  function After(s: State, codec: Codec, c: Call): State {
    match c
    case Push(desc, source) => if source.Some? then Pushed(s, desc, source.value) else s
    case Tag(desc, ref) => Tagged(s, desc, ref)
    case Resolve(ref, image) => Resolved(s, codec, image, ref).1
  }

  /** The call names only a manifest that is there. */
  predicate Grounded(s: State, codec: Codec, c: Call) {
    match c
    case Push(_, _) => true
    case Tag(desc, _) => desc.digest in s.blobs
    case Resolve(ref, image) =>
      var r := Resolved(s, codec, image, ref).0;
      r.Ok? && ref !in s.loaded && image.Archive? ==>
        r.value.digest in s.blobs || r.value.digest in SavedBlobs(image.entries)
  }

  /** The states a fresh store goes through, the last one being the state after all calls. */
  function AfterAll(codec: Codec, calls: seq<Call>): State {
    if calls == [] then Fresh else After(AfterAll(codec, calls[..|calls| - 1]), codec, calls[|calls| - 1])
  }

  lemma CallKeepsFetchable(s: State, codec: Codec, c: Call)
    requires Fetchable(s)
    ensures Fetchable(After(s, codec, c)) <==> Grounded(s, codec, c)
  {
    match c
    case Push(desc, source) => if source.Some? { PushKeepsFetchable(s, desc, source.value); }
    case Tag(desc, ref) => TagKeepsFetchable(s, desc, ref);
    case Resolve(ref, image) => ResolveKeepsFetchable(s, codec, image, ref);
  }

  lemma AfterNext(codec: Codec, calls: seq<Call>, n: nat)
    requires n < |calls|
    ensures AfterAll(codec, calls[..n + 1]) == After(AfterAll(codec, calls[..n]), codec, calls[n])
  {
    assert calls[..n + 1][..n] == calls[..n];
  }

  ghost predicate FetchableAt(codec: Codec, calls: seq<Call>, n: nat) {
    n <= |calls| && Fetchable(AfterAll(codec, calls[..n]))
  }

  ghost predicate GroundedAt(codec: Codec, calls: seq<Call>, n: nat) {
    n < |calls| && Grounded(AfterAll(codec, calls[..n]), codec, calls[n])
  }

  lemma {:induction false} GroundedSoFar(codec: Codec, calls: seq<Call>, n: nat)
    requires n <= |calls| && forall m :: 0 <= m < n ==> GroundedAt(codec, calls, m)
    ensures FetchableAt(codec, calls, n)
  {
    if n > 0 {
      GroundedSoFar(codec, calls, n - 1);
      AfterNext(codec, calls, n - 1);
      assert GroundedAt(codec, calls, n - 1);
      CallKeepsFetchable(AfterAll(codec, calls[..n - 1]), codec, calls[n - 1]);
    }
  }

  /**
   Over every sequence of calls: at every moment each ref the store remembers can be fetched, if and
   only if every Tag named a staged manifest and every Resolve that reached the daemon got an archive
   whose index names a blob that came with it or was already there.
   */
  lemma FetchableThroughout(codec: Codec, calls: seq<Call>)
    ensures (forall n :: 0 <= n <= |calls| ==> FetchableAt(codec, calls, n)) <==>
            (forall n :: 0 <= n < |calls| ==> GroundedAt(codec, calls, n))
  {
    if forall n :: 0 <= n <= |calls| ==> FetchableAt(codec, calls, n) {
      forall n | 0 <= n < |calls| ensures GroundedAt(codec, calls, n) {
        assert FetchableAt(codec, calls, n) && FetchableAt(codec, calls, n + 1);
        AfterNext(codec, calls, n);
        CallKeepsFetchable(AfterAll(codec, calls[..n]), codec, calls[n]);
      }
    }
    if forall n :: 0 <= n < |calls| ==> GroundedAt(codec, calls, n) {
      forall n | 0 <= n <= |calls| ensures FetchableAt(codec, calls, n) { GroundedSoFar(codec, calls, n); }
    }
  }

  /** A tagged ref resolves, whatever the daemon holds, to its descriptor completed from what is staged. */
  lemma TagThenResolve(s: State, desc: Descriptor, ref: string, codec: Codec, image: Image)
    ensures var r := Resolved(Tagged(s, desc, ref), codec, image, ref).0;
            && r.Ok? && r.value.digest == desc.digest && r.value.annotations == desc.annotations
            && r.value.mediaType == (if desc.mediaType == "" && desc.digest in s.descs
                                     then s.descs[desc.digest].mediaType else desc.mediaType)
            && r.value.size == if desc.size == 0 && desc.digest in s.descs then s.descs[desc.digest].size else desc.size
  {
  }

  /** A failing Tag leaves a ref that resolves to a manifest no Fetch can find. */
  lemma TagUnstaged(s: State, desc: Descriptor, ref: string, codec: Codec, image: Image)
    requires desc.digest !in s.blobs
    ensures var (r, s') := Resolved(Tagged(s, desc, ref), codec, image, ref);
            r.Ok? && Fetched(s', r.value.digest) == Err(NotFound)
  {
  }

  /** Once resolved or tagged, a ref answers the same until it is tagged again, whatever the daemon holds. */
  lemma ResolveIsStable(s: State, codec: Codec, image: Image, ref: string, later: Image)
    ensures var (r, s') := Resolved(s, codec, image, ref);
            r.Ok? ==> Resolved(s', codec, later, ref) == (r, s')
    ensures forall other, desc :: other != ref && Resolved(s, codec, image, ref).0.Ok? ==>
              Resolved(Tagged(Resolved(s, codec, image, ref).1, desc, other), codec, later, ref).0
                == Resolved(s, codec, image, ref).0
  {
  }
}
