/** The document entity's own rules: how an attribute bag is normalized on
    construction (the version default and the legacy name derivation) and the
    fixed projection a document serializes to. */
module GaiaDocument {
  import opened Values

  const LegacyVersion := 1
  const CurrentVersion := 2

  /** The text after the last `/` of `s` (all of `s` when it has none). */
  function AfterLastSlash(s: string): (r: string)
    ensures |r| <= |s|
    ensures forall i :: 0 <= i < |r| ==> r[i] != '/'
    ensures |r| < |s| ==> s[|s| - |r| - 1] == '/'
  {
    if s == [] || s[|s| - 1] == '/' then []
    else AfterLastSlash(s[..|s| - 1]) + [s[|s| - 1]]
  }

  /** What `AfterLastSlash` returns is the end of its argument. */
  lemma {:induction false} AfterLastSlashIsSuffix(s: string)
    ensures AfterLastSlash(s) == s[|s| - |AfterLastSlash(s)|..]
    decreases |s|
  {
    if s != [] && s[|s| - 1] != '/' {
      var init := s[..|s| - 1];
      AfterLastSlashIsSuffix(init);
      var r := AfterLastSlash(init);
      assert s[|s| - |r| - 1..] == init[|init| - |r|..] + [s[|s| - 1]];
    }
  }

  /** A url without `/` is its own name. */
  lemma NoSlashIsWholeName(s: string)
    requires forall i :: 0 <= i < |s| ==> s[i] != '/'
    ensures AfterLastSlash(s) == s
  {
    AfterLastSlashIsSuffix(s);
  }

  /** A url `dir + "/" + file` where `file` has no `/` is named `file`. */
  lemma {:induction false} NameAfterDirectory(dir: string, file: string)
    requires forall i :: 0 <= i < |file| ==> file[i] != '/'
    ensures AfterLastSlash(dir + "/" + file) == file
    decreases |file|
  {
    var s := dir + "/" + file;
    if file == [] {
      assert s[|s| - 1] == '/';
    } else {
      var n := |file| - 1;
      var init := dir + "/" + file[..n];
      assert s == init + [file[n]];
      assert s[..|s| - 1] == init;
      assert s[|s| - 1] == file[n] != '/';
      NameAfterDirectory(dir, file[..n]);
      assert AfterLastSlash(s) == AfterLastSlash(init) + [file[n]];
      assert file == file[..n] + [file[n]];
    }
  }

  /** The legacy example: `"abcdef/name.pdf"` is named `"name.pdf"`. */
  lemma LegacyExampleName()
    ensures AfterLastSlash("abcdef/name.pdf") == "name.pdf"
  {
    assert "abcdef/name.pdf" == "abcdef" + "/" + "name.pdf";
    NameAfterDirectory("abcdef", "name.pdf");
  }

  /** An explicit version is one whose property is set. */
  predicate HasVersion(fields: Bag) {
    Get(fields, Version) != Undefined
  }

  /** The version step of normalization. */
  function WithVersion(fields: Bag): (r: Bag)
    ensures HasVersion(fields) ==> r == fields
    ensures !HasVersion(fields) && !Truthy(Get(fields, Id)) ==> r == fields[Version := Num(CurrentVersion)]
    ensures !HasVersion(fields) && Truthy(Get(fields, Id)) && Get(fields, Url).Str? ==>
      r == fields[Version := Num(LegacyVersion)][Name := Str(AfterLastSlash(Get(fields, Url).s))]
    ensures !HasVersion(fields) && Truthy(Get(fields, Id)) && !Get(fields, Url).Str? ==>
      r == fields[Version := Num(LegacyVersion)]
  {
    if HasVersion(fields) then fields
    else if !Truthy(Get(fields, Id)) then fields[Version := Num(CurrentVersion)]
    else
      var legacy := fields[Version := Num(LegacyVersion)];
      match Get(fields, Url)
      case Str(u) => legacy[Name := Str(AfterLastSlash(u))]
      case _ => legacy
  }

  /** The document constructor's normalization of the fields it was given. */
  function Normalize(fields: Bag): (r: Bag)
    // an explicit version is kept, and so is the name
    ensures HasVersion(fields) ==>
      Get(r, Version) == Get(fields, Version) && Get(r, Name) == Get(fields, Name)
    // a fresh document (no id yet) without a version is version 2 and keeps its name
    ensures !HasVersion(fields) && !Truthy(Get(fields, Id)) ==>
      Get(r, Version) == Num(CurrentVersion) && Get(r, Name) == Get(fields, Name)
    // a stored document without a version is version 1, named after the end of its url
    ensures !HasVersion(fields) && Truthy(Get(fields, Id)) ==>
      Get(r, Version) == Num(LegacyVersion) &&
      Get(r, Name) == (if Get(fields, Url).Str? then Str(AfterLastSlash(Get(fields, Url).s))
                       else Get(fields, Name))
    ensures HasVersion(r)
  {
    var versioned := WithVersion(fields);
    if Get(versioned, NumParts) == Undefined then versioned[NumParts := Num(1)] else versioned
  }

  /** Normalization defaults the part count to one and touches nothing but
      the version, the name and the part count. */
  lemma NormalizeFrame(fields: Bag)
    ensures Get(Normalize(fields), NumParts) ==
      (if Get(fields, NumParts) == Undefined then Num(1) else Get(fields, NumParts))
    ensures forall k :: k != Version && k != Name && k != NumParts ==>
      Get(Normalize(fields), k) == Get(fields, k)
  {
    var v := WithVersion(fields);
    if !HasVersion(fields) && Truthy(Get(fields, Id)) && Get(fields, Url).Str? {
      assert v == fields[Version := Num(LegacyVersion)][Name := Str(AfterLastSlash(Get(fields, Url).s))];
    }
    assert forall k :: k != Version && k != Name ==> Get(v, k) == Get(fields, k);
  }

  /** The properties a serialized document carries as they are. */
  predicate IsPlain(k: Key) {
    !k.Other? && k != ContentType && k != LocalId
  }

  /** Every property a serialized document can carry: the plain ones, the
      content type and the local id. */
  const SerializedKeys: set<Key> :=
    {Id, Version, CreatedAt, NumParts, Size, Url, Name, Uploaded, StorageType, NumPartsCamel, PartSize,
     ContentType, LocalId}

  /** What the projection holds under `k` (`undefined` for a property it leaves out). */
  function Projected(fields: Bag, k: Key): (v: Value) {
    match k
    case ContentType => Or(Get(fields, ContentType), Null)
    case LocalId => Or(Get(fields, LocalId), Get(fields, Id))
    case Other(_) => Undefined
    case _ => Get(fields, k)
  }

  /** The document's JSON projection: the fixed property set, without the
      properties that are undefined (`JSON.stringify` drops those). A plain
      property the document does not hold reads as undefined, so only the
      document's own properties and the two defaulted ones can appear. */
  function Serialize(fields: Bag): (r: Bag)
    ensures forall k :: k in r ==> !k.Other? && r[k] != Undefined
  {
    map k | k in fields.Keys + {ContentType, LocalId} && !k.Other? && Projected(fields, k) != Undefined
      :: Projected(fields, k)
  }

  /** The projection carries only the fixed property set. */
  lemma SerializeKeysFixed(fields: Bag)
    ensures Serialize(fields).Keys <= SerializedKeys
  {
    forall k | k in Serialize(fields)
      ensures k in SerializedKeys
    {
      match k
      case Other(_) => assert false;
      case _ =>
    }
  }

  /** The projection carries the plain properties as they are. */
  lemma SerializeKeepsPlainFields(fields: Bag)
    ensures forall k :: IsPlain(k) ==> Get(Serialize(fields), k) == Get(fields, k)
  {
    forall k | IsPlain(k)
      ensures Get(Serialize(fields), k) == Get(fields, k)
    {
      SerializeAt(fields, k);
      assert Projected(fields, k) == Get(fields, k);
    }
  }

  /** `content_type` defaults to null and `localId` to the id. */
  lemma SerializeDefaults(fields: Bag)
    ensures Get(Serialize(fields), ContentType) ==
      (if Truthy(Get(fields, ContentType)) then Get(fields, ContentType) else Null)
    ensures Get(Serialize(fields), LocalId) ==
      (if Truthy(Get(fields, LocalId)) then Get(fields, LocalId) else Get(fields, Id))
  {
    SerializeAt(fields, ContentType);
    SerializeAt(fields, LocalId);
  }

  /** Reading one property of the projection. */
  lemma SerializeAt(fields: Bag, k: Key)
    ensures Get(Serialize(fields), k) ==
      if !k.Other? && Projected(fields, k) != Undefined then Projected(fields, k) else Undefined
  {
  }

  /** A document holding only plain properties, id included, serializes to
      those properties plus a null content type and its id as local id. */
  lemma SerializePlain(fields: Bag)
    requires Id in fields
    requires forall k :: k in fields ==> IsPlain(k) && fields[k] != Undefined
    ensures Serialize(fields) == fields[ContentType := Null][LocalId := fields[Id]]
  {
    var expected := fields[ContentType := Null][LocalId := fields[Id]];
    forall k
      ensures Get(Serialize(fields), k) == Get(expected, k)
    {
      SerializeAt(fields, k);
      if IsPlain(k) {
        assert Projected(fields, k) == Get(fields, k);
      }
    }
    SameBag(Serialize(fields), expected);
  }

  /** Serializing is a projection: serializing a serialized document changes nothing. */
  lemma SerializeIdempotent(fields: Bag)
    ensures Serialize(Serialize(fields)) == Serialize(fields)
  {
    var once := Serialize(fields);
    forall k
      ensures Get(Serialize(once), k) == Get(once, k)
    {
      SerializeAt(once, k);
      SerializeAt(fields, k);
      if k == LocalId {
        SerializeAt(fields, Id);
      }
    }
    SameBag(Serialize(once), once);
  }

  /** Reading back what a document serialized to gives the same document:
      normalization leaves a serialized, normalized document as it is. */
  lemma ReloadIsIdentity(fields: Bag)
    ensures Normalize(Serialize(Normalize(fields))) == Serialize(Normalize(fields))
  {
    var s := Serialize(Normalize(fields));
    assert HasVersion(s);
    assert Get(s, NumParts) != Undefined;
    var n := Normalize(s);
    assert n.Keys == s.Keys;
  }

  /** The shape of a UUID's text: 8-4-4-4-12 hexadecimal digits, the form the document tests expect of a saved url. */
  predicate IsUuid(s: string) {
    |s| == 36 &&
    forall i :: 0 <= i < 36 ==>
      if i == 8 || i == 13 || i == 18 || i == 23 then s[i] == '-' else IsHexDigit(s[i])
  }

  predicate IsHexDigit(c: char) {
    '0' <= c <= '9' || 'a' <= c <= 'f' || 'A' <= c <= 'F'
  }
}
