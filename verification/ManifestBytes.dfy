/** A manifest document's bytes: the canonical bytes its digest is computed from, equal for exactly
    the manifests that differ in nothing but written order, and the parsing of a document's bytes
    back into the manifest. */
module ManifestBytes {
  import opened Options
  import opened JsStrings
  import opened Utf
  import opened Json
  import opened ManifestJson
  import opened ManifestRecords
  import opened ManifestDocuments
  import C = JsonCanonical
  import JB = JsonBytes
  import P = ManifestPrinting
  import M = Manifests

  /** The bytes a manifest's digest is computed from, or the canonicaliser's error. */
  function CanonicalBytes(m: M.Manifest): Result<seq<Byte>, PrintError> { JB.CanonicalBytes(ManifestValue(M.Canonical(m))) }

  /** The canonical form has a JSON text: no lone surrogate, no unsafe number, no repeated member. */
  predicate Writable(m: M.Manifest) { Printable(ManifestValue(M.Canonical(m))) }

  /** A valid manifest written in another order has the same canonical bytes, and so the same
      digest. Where there are bytes at all, no other valid manifest has them. */
  lemma BytesIgnoreWrittenOrder(a: M.Manifest, b: M.Manifest)
    requires M.Valid(a)
    ensures M.Reordered(a, b) ==> CanonicalBytes(a) == CanonicalBytes(b)
    ensures M.Valid(b) && Writable(a) && Writable(b) ==> (CanonicalBytes(a) == CanonicalBytes(b) <==> M.Reordered(a, b))
  {
    hide Printable, ManifestValue, M.Canonical, M.Normalized, M.Valid, M.Reordered, JB.CanonicalBytes;
    M.CanonicalIffReordered(a, b);
    if Writable(a) && Writable(b) { JB.CanonicalBytesIdentify(ManifestValue(M.Canonical(a)), ManifestValue(M.Canonical(b))); }
    if M.Valid(b) && Writable(a) && Writable(b) && CanonicalBytes(a) == CanonicalBytes(b) {
      M.CanonicalIsFixed(a);
      M.CanonicalIsFixed(b);
      ManifestDecides(M.Canonical(a), M.Canonical(b));
    }
  }

  predicate StartsWithMark(bytes: seq<Byte>) { |bytes| >= 3 && bytes[..3] == [0xEF, 0xBB, 0xBF] }

  /** Bytes without a byte order mark, in valid UTF-8, that the strict reader makes a value of. */
  function ReadBytes(bytes: seq<Byte>): Option<Json> {
    if StartsWithMark(bytes) || !ValidUtf8(bytes) then None else
    match ReadText(FromUtf8(bytes), NESTING_LIMIT)
    case Err(_) => None
    case Ok(v) => Some(v)
  }

  /** What the program takes a document's bytes for: the validated manifest and its declared digest. */
  ghost function Parse(bytes: seq<Byte>): Option<Document> {
    hide ReadBytes, ReadDocument, M.Valid, M.Normalized;
    var v :- ReadBytes(bytes);
    var d :- ReadDocument(v);
    if M.Valid(d.manifest) then Some(Document(M.Normalized(d.manifest), d.digest)) else None
  }

  /** The digest of a manifest, for any hash of bytes. */
  function DigestOf(m: M.Manifest, hash: seq<Byte> -> JsString): Option<JsString> {
    match CanonicalBytes(m)
    case Err(_) => None
    case Ok(bytes) => Some(hash(bytes))
  }

  /** The declared digest must be the digest of the manifest. */
  ghost function Verify(bytes: seq<Byte>, hash: seq<Byte> -> JsString): Option<M.Manifest> {
    hide Parse, DigestOf;
    var d :- Parse(bytes);
    if DigestOf(d.manifest, hash) == Some(d.digest) then Some(d.manifest) else None
  }

  /** The bytes are the manifest and the digest written as a document, with the members of its
      objects in any order. */
  ghost predicate WrittenFrom(bytes: seq<Byte>, m: M.Manifest, digest: JsString) {
    hide ReadBytes, DocumentValue, Alike;
    ReadBytes(bytes).Some? && Alike(DocumentValue(m, digest), ReadBytes(bytes).value)
  }

  /** However a valid manifest is written as a document, parsing it gives what validating the
      manifest gives. */
  lemma WrittenDocumentParses(m: M.Manifest, digest: JsString, bytes: seq<Byte>)
    requires M.Valid(m) && WrittenFrom(bytes, m, digest)
    ensures Parse(bytes) == Some(Document(M.Normalized(m), digest))
  {
    hide Alike, DocumentValue, ReadBytes, ReadDocument, M.Valid, M.Normalized, Rewritten;
    var w := ReadBytes(bytes).value;
    DocumentReads(m, digest, w);
    RewrittenIsTheSame(m, ReadDocument(w).value.manifest);
  }

  /** The manifest a parsed document was written from. */
  lemma ParsedWasWritten(bytes: seq<Byte>, n: M.Manifest, digest: JsString) returns (m: M.Manifest)
    requires Parse(bytes) == Some(Document(n, digest))
    ensures M.Valid(m) && WrittenFrom(bytes, m, digest) && M.Normalized(m) == n
  {
    hide Alike, DocumentValue, ReadBytes, ReadDocument, M.Valid, M.Normalized;
    var v := ReadBytes(bytes).value;
    m := ReadDocument(v).value.manifest;
    ReadValuePrints(bytes, v);
    DocumentWritten(v, ReadDocument(v).value);
  }

  /** Parsing takes exactly the documents written from valid manifests, and gives what validating
      the manifest gives. */
  lemma ParseTakesWhatWasWritten(bytes: seq<Byte>, n: M.Manifest, digest: JsString)
    ensures Parse(bytes) == Some(Document(n, digest)) <==>
            exists m :: M.Valid(m) && WrittenFrom(bytes, m, digest) && M.Normalized(m) == n
  {
    hide Parse, WrittenFrom, M.Valid, M.Normalized;
    if Parse(bytes) == Some(Document(n, digest)) {
      var m := ParsedWasWritten(bytes, n, digest);
    }
    if m :| M.Valid(m) && WrittenFrom(bytes, m, digest) && M.Normalized(m) == n {
      WrittenDocumentParses(m, digest, bytes);
    }
  }

  lemma TextHasNoMark(s: JsString)
    requires StartsWith(s, OPEN_OBJECT)
    ensures !StartsWithMark(Utf8(s))
  {
    hide ValidUtf8, FromUtf8;
    assert Utf8(s)[0] == OPEN_OBJECT;
  }

  /** The canonical bytes of a record are read as the record, its members sorted. */
  lemma RecordBytesRead(v: Json)
    requires v.Obj? && Printable(v) && Depth(v) <= NESTING_LIMIT
    ensures JB.CanonicalBytes(v).Ok? && ReadBytes(JB.CanonicalBytes(v).value) == Some(Normal(v)) && Alike(v, Normal(v))
  {
    hide Printable, Utf8, ValidUtf8, FromUtf8, ReadText, NormalMembers, PrintMembers, C.Same, SomeStringIsIllFormed, SortBy, Depth;
    JB.CanonicalBytesReadBack(v);
    C.CanonicalTextReadsBack(v);
    C.NormalIsPrintable(v);
    assert StartsWith(Print(Normal(v)), OPEN_OBJECT);
    TextHasNoMark(Print(Normal(v)));
  }

  /** A document in canonical bytes. */
  function DocumentBytes(m: M.Manifest, digest: JsString): Result<seq<Byte>, PrintError> { JB.CanonicalBytes(DocumentValue(m, digest)) }

  ghost predicate ParsesAs(bytes: Result<seq<Byte>, PrintError>, d: Document) {
    hide Parse;
    bytes.Ok? && Parse(bytes.value) == Some(d)
  }

  ghost predicate VerifiesAs(bytes: Result<seq<Byte>, PrintError>, hash: seq<Byte> -> JsString, m: M.Manifest) {
    hide Verify;
    bytes.Ok? && Verify(bytes.value, hash) == Some(m)
  }

  lemma DocumentBytesParse(m: M.Manifest, digest: JsString)
    requires M.Valid(m) && Printable(DocumentValue(m, digest))
    ensures ParsesAs(DocumentBytes(m, digest), Document(M.Normalized(m), digest))
  {
    hide Printable, Present, M.Valid, M.Normalized, ReadBytes, Parse, JB.CanonicalBytes, Alike, Depth, Normal;
    var v := DocumentValue(m, digest);
    DocumentDepth(m, digest);
    RecordBytesRead(v);
    WrittenDocumentParses(m, digest, DocumentBytes(m, digest).value);
  }

  lemma {:induction false} PresentAppend(keys: seq<JsString>, values: Values, m: Member)
    requires |keys| == |values|
    ensures Present(keys + [m.key], values + [Some(m.value)]) == Present(keys, values) + [m]
  {
    var k, v: Values := keys + [m.key], values + [Some(m.value)];
    if keys == [] {
      assert k[1..] == [] && v[1..] == [];
    } else {
      var first := if values[0].None? then [] else [Member(keys[0], values[0].value)];
      assert k[1..] == keys[1..] + [m.key] && v[1..] == values[1..] + [Some(m.value)];
      assert Present(k, v) == first + Present(k[1..], v[1..]);
      PresentAppend(keys[1..], values[1..], m);
    }
  }

  lemma DocumentPrints(m: M.Manifest, digest: JsString)
    requires Printable(ManifestValue(m)) && WellFormed(digest)
    ensures Printable(DocumentValue(m, digest))
  {
    hide Printable, Present, WellFormed;
    DocumentKeysAreDistinct();
    var before, added := Present(TOP_KEYS, TopValues(m)), Member(DIGEST, Str(digest));
    PresentAppend(TOP_KEYS, TopValues(m), added);
    PresentMembers(TOP_KEYS, TopValues(m));
    assert forall x :: x in before ==> x.key in TOP_KEYS;
    JB.AsciiIsWellFormed(DIGEST);
    OneMorePrints(before, added);
  }

  lemma OneMorePrints(members: seq<Member>, m: Member)
    requires Printable(Obj(members)) && WellFormed(m.key) && Printable(m.value) && forall x :: x in members ==> x.key != m.key
    ensures Printable(Obj(members + [m]))
  {
    var all := members + [m];
    forall i | 0 <= i < |all|
      ensures WellFormed(all[i].key) && Printable(all[i].value)
    {
      if i < |members| { assert all[i] == members[i]; }
    }
    forall i, j | 0 <= i < j < |all|
      ensures all[i].key != all[j].key
    {
      assert all[i] == members[i] && members[i] in members;
    }
  }

  /** The canonical form of a valid manifest, written with a digest and parsed, comes back as it
      is with that digest; and it verifies exactly when the digest is the manifest's own. */
  lemma CanonicalDocumentRoundTrip(m: M.Manifest, digest: JsString, hash: seq<Byte> -> JsString)
    requires M.Valid(m) && Writable(m) && WellFormed(digest)
    ensures ParsesAs(DocumentBytes(M.Canonical(m), digest), Document(M.Canonical(m), digest))
    ensures VerifiesAs(DocumentBytes(M.Canonical(m), digest), hash, M.Canonical(m)) <==> DigestOf(m, hash) == Some(digest)
  {
    hide M.Valid, M.Canonical, M.Normalized, Printable, ManifestValue, DocumentValue, DocumentBytes, Parse, WellFormed, JB.CanonicalBytes;
    var c := M.Canonical(m);
    M.CanonicalIsFixed(m);
    DocumentPrints(c, digest);
    DocumentBytesParse(c, digest);
    assert CanonicalBytes(c) == CanonicalBytes(m);
  }

  lemma ParsedIsValid(bytes: seq<Byte>, m: M.Manifest, digest: JsString)
    requires Parse(bytes) == Some(Document(m, digest))
    ensures M.Valid(m) && M.Normalized(m) == m
  {
    hide ReadBytes, ReadDocument, M.Valid, M.Normalized;
    M.ValidationIsIdempotent(ReadDocument(ReadBytes(bytes).value).value.manifest);
  }

  lemma ReadValuePrints(bytes: seq<Byte>, v: Json)
    requires ReadBytes(bytes) == Some(v)
    ensures Printable(v)
  {
    hide FromUtf8, ValidUtf8, ReadValue, Printable;
    C.ValueFromAnyText(FromUtf8(bytes), 0, NESTING_LIMIT);
  }

  lemma DigestWasThere(v: Json, d: Document)
    requires ReadDocument(v) == Some(d)
    ensures v.Obj? && Member(DIGEST, Str(d.digest)) in v.members
  {
    hide Field, Fields, CoreOf, MetadataOf, ListOf, ReadSections;
    assert DOCUMENT_KEYS[7] == DIGEST;
    assert Fields(v, DOCUMENT_KEYS).value[7] == Field(v.members, DIGEST);
  }

  lemma FirstMembersPrint(members: seq<Member>, m: Member)
    requires Printable(Obj(members + [m]))
    ensures Printable(Obj(members)) && Printable(m.value)
  {
    var all := members + [m];
    assert forall i :: 0 <= i < |members| ==> all[i] == members[i];
    assert all[|members|] == m;
  }

  lemma DocumentPartsPrint(m: M.Manifest, digest: JsString)
    requires Printable(DocumentValue(m, digest))
    ensures Printable(ManifestValue(m)) && WellFormed(digest)
  {
    hide Present, WellFormed, TopValues;
    var added := Member(DIGEST, Str(digest));
    PresentAppend(TOP_KEYS, TopValues(m), added);
    FirstMembersPrint(Present(TOP_KEYS, TopValues(m)), added);
  }

  /** Whatever was parsed can be printed in canonical form, and so has a digest. */
  lemma ParsedIsWritable(bytes: seq<Byte>, n: M.Manifest, digest: JsString)
    requires Parse(bytes) == Some(Document(n, digest))
    ensures Writable(n) && WellFormed(digest) && CanonicalBytes(n).Ok?
  {
    hide Parse, WrittenFrom, M.Valid, M.Canonical, M.Normalized, DocumentValue, ManifestValue, Printable, WellFormed, JB.CanonicalBytes;
    var m := ParsedWasWritten(bytes, n, digest);
    WrittenPrints(bytes, m, digest);
    DocumentPartsPrint(m, digest);
    P.CanonicalPrints(m);
    M.CanonicalOfNormalized(m);
    JB.CanonicalBytesReadBack(ManifestValue(M.Canonical(n)));
  }

  lemma WrittenPrints(bytes: seq<Byte>, m: M.Manifest, digest: JsString)
    requires WrittenFrom(bytes, m, digest)
    ensures Printable(DocumentValue(m, digest))
  {
    hide ReadBytes, DocumentValue;
  }

  /** What is verified is a valid manifest as validation leaves it, and its canonical document
      verifies again with the same digest. */
  lemma VerifiedHasCanonicalDocument(bytes: seq<Byte>, hash: seq<Byte> -> JsString, m: M.Manifest, digest: JsString)
    requires Verify(bytes, hash) == Some(m) && Parse(bytes) == Some(Document(m, digest))
    ensures M.Valid(m) && M.Normalized(m) == m && VerifiesAs(DocumentBytes(M.Canonical(m), digest), hash, M.Canonical(m))
  {
    hide Parse, M.Valid, M.Canonical, M.Normalized, Writable, CanonicalBytes, DocumentBytes, WellFormed, VerifiesAs, ParsesAs;
    ParsedIsValid(bytes, m, digest);
    ParsedIsWritable(bytes, m, digest);
    CanonicalDocumentRoundTrip(m, digest, hash);
  }

  /** The two manifests are told apart by the hash unless their canonical bytes are equal. */
  predicate NoCollision(m: M.Manifest, n: M.Manifest, hash: seq<Byte> -> JsString) {
    DigestOf(m, hash) == DigestOf(n, hash) ==> CanonicalBytes(m) == CanonicalBytes(n)
  }

  /** A digest pins the manifest: two verified documents that declare one digest hold the same
      manifest but for written order, unless the hash collides on their bytes. */
  lemma DigestPinsManifest(a: seq<Byte>, b: seq<Byte>, hash: seq<Byte> -> JsString, m: M.Manifest, n: M.Manifest, digest: JsString)
    requires Verify(a, hash) == Some(m) && Parse(a) == Some(Document(m, digest))
    requires Verify(b, hash) == Some(n) && Parse(b) == Some(Document(n, digest))
    requires NoCollision(m, n, hash)
    ensures M.Reordered(m, n)
  {
    hide Parse, M.Valid, M.Reordered, Writable, CanonicalBytes, DigestOf;
    ParsedIsValid(a, m, digest);
    ParsedIsValid(b, n, digest);
    ParsedIsWritable(a, m, digest);
    ParsedIsWritable(b, n, digest);
    BytesIgnoreWrittenOrder(m, n);
  }

  lemma NoDigest(m: M.Manifest, w: Json)
    requires Alike(ManifestValue(m), w)
    ensures ReadDocument(w) == None
  {
    hide Record, Alike, AlikeOption, Field, ReadDocument;
    DocumentKeysAreDistinct();
    RecordReads(TOP_KEYS, TopValues(m), w);
    if ReadDocument(w).Some? { DigestWasThere(w, ReadDocument(w).value); }
  }

  lemma IsRecord(m: M.Manifest)
    ensures ManifestValue(m).Obj?
  {
  }

  /** The bytes the digest is computed from are no document: they lack the digest. */
  lemma CanonicalBytesAreNoDocument(m: M.Manifest)
    requires M.Valid(m) && Writable(m)
    ensures exists bytes :: CanonicalBytes(m) == Ok(bytes) && Parse(bytes) == None
  {
    hide Printable, ManifestValue, M.Valid, M.Canonical, ReadBytes, ReadDocument, JB.CanonicalBytes, Alike, Depth, Normal;
    var c := M.Canonical(m);
    var v := ManifestValue(c);
    M.CanonicalIsFixed(m);
    DocumentDepth(c, []);
    IsRecord(c);
    RecordBytesRead(v);
    NoDigest(c, Normal(v));
    assert CanonicalBytes(m) == JB.CanonicalBytes(v) && Parse(CanonicalBytes(m).value) == None;
  }
}
