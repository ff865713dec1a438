/** The document behaviour the test suite fixes, stated on the model: fresh
    documents are version 2, a payload without a version is a legacy
    version-1 document named after its url, and both serialize to the fixed
    property set. */
module DocumentExamples {
  import opened Values
  import GaiaDocument
  import opened Records

  /** 2019-07-16T10:47:39.865Z */
  const Stamp := Time(1563274059865)

  /** The stored attributes of a current (version 2) document. */
  const CurrentPayload: Bag := map[
    Id := Str("123"), Url := Str("abcdef"), Name := Str("name.pdf"), Size := Num(500),
    CreatedAt := Stamp, NumParts := Num(2), Uploaded := Bool(true), Version := Num(2)]

  /** The stored attributes of a legacy document: no version, no name. */
  const LegacyPayload: Bag := map[
    Id := Str("123"), Url := Str("abcdef/name.pdf"), Size := Num(500),
    CreatedAt := Stamp, NumParts := Num(2), Uploaded := Bool(true)]

  /** A document constructed from nothing is version 2. */
  lemma FreshDocumentIsCurrent()
    ensures Get(InitialFields(Document, map[]), Version) == Num(GaiaDocument.CurrentVersion)
  {
  }

  /** A current payload loads with every property as stored. */
  lemma CurrentPayloadLoads()
    ensures InitialFields(Document, CurrentPayload) == CurrentPayload
  {
    StoredDocumentLoads(CurrentPayload);
  }

  /** The legacy document as loaded: version 1, named after its url. */
  const LegacyLoaded: Bag := LegacyPayload[Version := Num(1)][Name := Str("name.pdf")]

  /** A legacy payload loads as version 1, named after the end of its url. */
  lemma LegacyPayloadLoads()
    ensures InitialFields(Document, LegacyPayload) == LegacyLoaded
  {
    LegacyDocumentLoads(LegacyPayload, "abcdef/name.pdf");
    GaiaDocument.LegacyExampleName();
  }

  /** A current document serializes to the fixed property set, with a null
      content type and the id as its local id. */
  lemma CurrentDocumentSerializes()
    ensures AttributesOf(Document, InitialFields(Document, CurrentPayload)) ==
      CurrentPayload[ContentType := Null][LocalId := Str("123")]
  {
    CurrentPayloadLoads();
    CurrentPayloadSerializes();
  }

  /** The current payload serializes to its properties plus the two defaults. */
  lemma CurrentPayloadSerializes()
    ensures GaiaDocument.Serialize(CurrentPayload) == CurrentPayload[ContentType := Null][LocalId := Str("123")]
  {
    assert CurrentPayload[Id] == Str("123");
    GaiaDocument.SerializePlain(CurrentPayload);
  }

  /** The loaded legacy document serializes to the version 1 property set. */
  lemma LegacyLoadedSerializes()
    ensures GaiaDocument.Serialize(LegacyLoaded) == LegacyLoaded[ContentType := Null][LocalId := Str("123")]
  {
    assert forall k :: k in LegacyPayload ==> GaiaDocument.IsPlain(k) && LegacyPayload[k] != Undefined;
    assert LegacyLoaded[Id] == Str("123");
    GaiaDocument.SerializePlain(LegacyLoaded);
  }

  /** A legacy document still serializes as version 1, with its derived name. */
  lemma LegacyDocumentSerializes()
    ensures AttributesOf(Document, InitialFields(Document, LegacyPayload)) ==
      LegacyLoaded[ContentType := Null][LocalId := Str("123")]
  {
    LegacyPayloadLoads();
    LegacyLoadedSerializes();
  }

  /** Saving a new document that has a name and a size keeps it version 2 and
      keeps its name, and gives it the new UUID as its url. */
  lemma NewDocumentSave(name: string, size: int, hash: string, now: int, uuid: string)
    requires |hash| == 6 && GaiaDocument.IsUuid(uuid)
    ensures var created := InitialFields(Document, map[Name := Str(name), Size := Num(size)]);
            var saved := created + SavePayload(Document, created, hash, now, uuid);
            Get(saved, Version) == Num(GaiaDocument.CurrentVersion) &&
            Get(saved, Name) == Str(name) &&
            Get(saved, Url) == Str(uuid) && GaiaDocument.IsUuid(Get(saved, Url).s)
  {
    var given := map[Name := Str(name), Size := Num(size)];
    var created := InitialFields(Document, given);
    assert created == GaiaDocument.Normalize(given);
    assert !GaiaDocument.HasVersion(given) && !Truthy(Get(given, Id));
    assert Get(created, Version) == Num(GaiaDocument.CurrentVersion);
    assert Get(created, Name) == Str(name);
    assert GaiaDocument.WithVersion(given) == given[Version := Num(GaiaDocument.CurrentVersion)];
    assert Get(created, Url) == Undefined;
    SaveSetsUrl(created, hash, now, uuid);
    SaveKeepsDocumentField(created, hash, now, uuid, Version);
    SaveKeepsDocumentField(created, hash, now, uuid, Name);
  }
}
