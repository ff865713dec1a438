/** The generic persistence base: the lifecycle hook registry shared by every
    record type, and records that are built from an attribute bag, saved to
    and deleted from the storage backend, and loaded back from it. */
module Records {
  import opened Values
  import opened Storage
  import GaiaDocument

  // ---------------------------------------------------------------------
  // Hooks
  // ---------------------------------------------------------------------

  datatype HookName = AfterInitialize | BeforeSave | AfterSave | BeforeDelete | AfterDelete

  function HookNameText(name: HookName): (text: string) {
    match name
    case AfterInitialize => "afterInitialize"
    case BeforeSave => "beforeSave"
    case AfterSave => "afterSave"
    case BeforeDelete => "beforeDelete"
    case AfterDelete => "afterDelete"
  }

  /** A registered hook. `throws` says whether calling it throws (for an
      asynchronous hook: whether the promise it returns rejects). */
  datatype Hook = Hook(id: nat, throws: bool)

  /** What `addHook` is handed: a function, or some other value. */
  datatype Callback = Function(hook: Hook) | NotAFunction(value: Value)

  /** The position of the first hook that throws (`|hs|` when none does). */
  function FirstThrow(hs: seq<Hook>): (k: nat)
    ensures k <= |hs|
    ensures forall j :: 0 <= j < k ==> !hs[j].throws
    ensures k < |hs| ==> hs[k].throws
  {
    if hs == [] then 0
    else if hs[0].throws then 0
    else 1 + FirstThrow(hs[1..])
  }

  predicate AllPass(hs: seq<Hook>) {
    FirstThrow(hs) == |hs|
  }

  /** The hooks a run calls: each in registration order, the next only once
      the previous one has completed, up to and including the first that throws. */
  function Called(hs: seq<Hook>): (called: seq<Hook>)
    ensures |called| <= |hs| && called == hs[..|called|]
    ensures AllPass(hs) ==> called == hs
    ensures !AllPass(hs) ==> |called| > 0 && called[|called| - 1].throws &&
                             forall j :: 0 <= j < |called| - 1 ==> !called[j].throws
  {
    hs[..if AllPass(hs) then |hs| else FirstThrow(hs) + 1]
  }

  /** How a run of the hooks ends: it fails with the first hook that throws. */
  function RunOutcome(hs: seq<Hook>): (r: Outcome)
    ensures r.Pass? <==> forall i :: 0 <= i < |hs| ==> !hs[i].throws
    ensures r.Fail? ==> exists i :: 0 <= i < |hs| && hs[i].throws && r.error == HookThrew(hs[i].id) &&
                                   forall j :: 0 <= j < i ==> !hs[j].throws
  {
    if AllPass(hs) then Pass
    else
      var i := FirstThrow(hs);
      assert hs[i].throws;
      Fail(HookThrew(hs[i].id))
  }

  /** Something a record operation did, in the order it did it. */
  datatype Event = Ran(name: HookName, hook: Hook) | Stored(key: Value) | Removed(key: Value)

  function Calls(name: HookName, hs: seq<Hook>): (es: seq<Event>)
    ensures |es| == |hs|
    ensures forall i :: 0 <= i < |hs| ==> es[i] == Ran(name, hs[i])
  {
    if hs == [] then [] else [Ran(name, hs[0])] + Calls(name, hs[1..])
  }

  /** The five hook lists. There is one registry, shared by every record type. */
  class HookRegistry {
    var afterInitialize: seq<Hook>
    var beforeSave: seq<Hook>
    var afterSave: seq<Hook>
    var beforeDelete: seq<Hook>
    var afterDelete: seq<Hook>

    constructor ()
      ensures forall name :: Hooks(name) == []
    {
      afterInitialize, beforeSave, afterSave, beforeDelete, afterDelete := [], [], [], [], [];
    }

    function Hooks(name: HookName): (hs: seq<Hook>)
      reads this
    {
      match name
      case AfterInitialize => afterInitialize
      case BeforeSave => beforeSave
      case AfterSave => afterSave
      case BeforeDelete => beforeDelete
      case AfterDelete => afterDelete
    }

    /** Registers a hook at the end of its list; anything but a function is refused. */
    method AddHook(name: HookName, callback: Callback) returns (r: Outcome)
      modifies this
      ensures callback.Function? ==> r == Pass && Hooks(name) == old(Hooks(name)) + [callback.hook]
      ensures callback.NotAFunction? ==>
        r == Fail(Thrown(HookNameText(name) + " hook must be of type 'function'")) &&
        Hooks(name) == old(Hooks(name))
      ensures forall other :: other != name ==> Hooks(other) == old(Hooks(other))
    {
      match callback
      case NotAFunction(_) =>
        r := Fail(Thrown(HookNameText(name) + " hook must be of type 'function'"));
      case Function(hook) =>
        match name {
          case AfterInitialize => afterInitialize := afterInitialize + [hook];
          case BeforeSave => beforeSave := beforeSave + [hook];
          case AfterSave => afterSave := afterSave + [hook];
          case BeforeDelete => beforeDelete := beforeDelete + [hook];
          case AfterDelete => afterDelete := afterDelete + [hook];
        }
        r := Pass;
    }

    /** Runs the named hooks one after the other; a hook that throws ends the
        run, and the hooks after it are not called. */
    method Run(name: HookName) returns (called: seq<Hook>, r: Outcome)
      ensures called == Called(Hooks(name))
      ensures r == RunOutcome(Hooks(name))
      ensures r == Pass <==> forall i :: 0 <= i < |Hooks(name)| ==> !Hooks(name)[i].throws
    {
      var hs := Hooks(name);
      var i := 0;
      called := [];
      r := Pass;
      while i < |hs|
        invariant 0 <= i <= |hs|
        invariant forall j :: 0 <= j < i ==> !hs[j].throws
        invariant called == hs[..i]
      {
        called := called + [hs[i]];
        if hs[i].throws {
          r := Fail(HookThrew(hs[i].id));
          return;
        }
        i := i + 1;
      }
    }
  }

  // ---------------------------------------------------------------------
  // Records
  // ---------------------------------------------------------------------

  /** The record type: the base itself, or the document type, whose
      constructor normalizes and whose attributes are the document projection. */
  datatype Kind = Base | Document

  const MissingSessionMessage := "Missing 'session'. Please provide using Record.config({ session: session })"

  /** The configured session, or the error thrown when there is none. */
  function GetSession(session: Store?): (r: Result<Store>)
    ensures session != null ==> r.Ok? && r.value == session
    ensures session == null ==> r == Err(Thrown(MissingSessionMessage))
  {
    if session == null then Err(Thrown(MissingSessionMessage)) else Ok(session as Store)
  }

  /** The fields an instance has once its constructor has copied `given`. */
  function InitialFields(kind: Kind, given: Bag): (r: Bag)
    // a set creation time becomes a date; an unset one stays as it was
    ensures Get(r, CreatedAt) ==
      if Truthy(Get(given, CreatedAt)) then ToDate(Get(given, CreatedAt)) else Get(given, CreatedAt)
    // the base copies every other property; a document normalizes only its version, name and part count
    ensures forall k :: k != CreatedAt && (kind == Base || (k != Version && k != Name && k != NumParts)) ==>
      Get(r, k) == Get(given, k)
    ensures kind == Document ==> GaiaDocument.HasVersion(r) && Get(r, NumParts) != Undefined
  {
    var dated := if Truthy(Get(given, CreatedAt)) then given[CreatedAt := ToDate(given[CreatedAt])] else given;
    GaiaDocument.NormalizeFrame(dated);
    if kind == Document then GaiaDocument.Normalize(dated) else dated
  }

  /** Given fields that already hold a date as creation time are copied as they are. */
  lemma InitialFieldsDated(kind: Kind, given: Bag)
    requires CreatedAt in given && given[CreatedAt].Time?
    ensures InitialFields(kind, given) == if kind == Document then GaiaDocument.Normalize(given) else given
  {
    assert given[CreatedAt := ToDate(given[CreatedAt])] == given;
  }

  /** A stored document with a version and a part count loads as it was stored. */
  lemma StoredDocumentLoads(given: Bag)
    requires CreatedAt in given && given[CreatedAt].Time?
    requires GaiaDocument.HasVersion(given) && Get(given, NumParts) != Undefined
    ensures InitialFields(Document, given) == given
  {
    InitialFieldsDated(Document, given);
  }

  /** A stored document without a version loads as version 1, named after
      the end of its url. */
  lemma LegacyDocumentLoads(given: Bag, url: string)
    requires CreatedAt in given && given[CreatedAt].Time?
    requires !GaiaDocument.HasVersion(given) && Get(given, NumParts) != Undefined
    requires Truthy(Get(given, Id)) && Get(given, Url) == Str(url)
    ensures InitialFields(Document, given) ==
      given[Version := Num(GaiaDocument.LegacyVersion)][Name := Str(GaiaDocument.AfterLastSlash(url))]
  {
    InitialFieldsDated(Document, given);
  }

  /** The persisted attribute set. For the base: `id` and `created_at`, a
      missing one as null. For documents: the document projection. */
  function AttributesOf(kind: Kind, fields: Bag): (r: Bag)
    ensures kind == Base ==>
      r.Keys == {Id, CreatedAt} &&
      r[Id] == (if Truthy(Get(fields, Id)) then fields[Id] else Null) &&
      r[CreatedAt] == (if Truthy(Get(fields, CreatedAt)) then fields[CreatedAt] else Null)
    ensures forall k :: k in r ==> r[k] != Undefined
  {
    match kind
    case Base => map[CreatedAt := Or(Get(fields, CreatedAt), Null), Id := Or(Get(fields, Id), Null)]
    case Document => GaiaDocument.Serialize(fields)
  }

  /** The payload `save` writes: the attributes, with the id kept or the new
      six-character one, and the creation time kept or the current time. A
      document without a url is given the new UUID as its url. */
  function SavePayload(kind: Kind, fields: Bag, hash: string, now: int, uuid: string): (p: Bag)
    requires |hash| == 6
    ensures Id in p && p[Id] == (if Truthy(Get(fields, Id)) then fields[Id] else Str(hash))
    ensures CreatedAt in p && p[CreatedAt] == (if Truthy(Get(fields, CreatedAt)) then fields[CreatedAt] else Time(now))
    ensures Truthy(p[Id]) && Truthy(p[CreatedAt])
  {
    var source := if kind == Document && !Truthy(Get(fields, Url)) then fields[Url := Str(uuid)] else fields;
    AttributesOf(kind, source)[Id := Or(Get(fields, Id), Str(hash))][CreatedAt := Or(Get(fields, CreatedAt), Time(now))]
  }

  /** Saving twice changes neither the identity nor the creation time: the
      second save finds both set and keeps them, whatever new id and time it
      is handed. */
  lemma SaveIsIdempotent(kind: Kind, fields: Bag, hash: string, now: int, uuid: string,
                         hash2: string, now2: int, uuid2: string)
    requires |hash| == 6 && |hash2| == 6
    ensures var first := SavePayload(kind, fields, hash, now, uuid);
            var second := SavePayload(kind, fields + first, hash2, now2, uuid2);
            second[Id] == first[Id] && second[CreatedAt] == first[CreatedAt]
  {
    var first := SavePayload(kind, fields, hash, now, uuid);
    assert Get(fields + first, Id) == first[Id];
    assert Get(fields + first, CreatedAt) == first[CreatedAt];
  }

  /** Saving a document changes nothing on it but its id, its creation time
      and, when it had none, its url, which becomes the new UUID. */
  lemma SaveKeepsDocumentFields(fields: Bag, hash: string, now: int, uuid: string)
    requires |hash| == 6
    ensures var saved := fields + SavePayload(Document, fields, hash, now, uuid);
            Get(saved, Url) == (if Truthy(Get(fields, Url)) then Get(fields, Url) else Str(uuid)) &&
            forall k :: GaiaDocument.IsPlain(k) && k != Id && k != CreatedAt && k != Url ==>
              Get(saved, k) == Get(fields, k)
  {
    SaveSetsUrl(fields, hash, now, uuid);
    forall k | GaiaDocument.IsPlain(k) && k != Id && k != CreatedAt && k != Url
      ensures Get(fields + SavePayload(Document, fields, hash, now, uuid), k) == Get(fields, k)
    {
      SaveKeepsDocumentField(fields, hash, now, uuid, k);
    }
  }

  /** A saved document keeps its url, or is given the new UUID when it had none. */
  lemma SaveSetsUrl(fields: Bag, hash: string, now: int, uuid: string)
    requires |hash| == 6
    ensures Get(fields + SavePayload(Document, fields, hash, now, uuid), Url) ==
      (if Truthy(Get(fields, Url)) then Get(fields, Url) else Str(uuid))
  {
    var source := if !Truthy(Get(fields, Url)) then fields[Url := Str(uuid)] else fields;
    var payload := SavePayload(Document, fields, hash, now, uuid);
    assert payload == GaiaDocument.Serialize(source)[Id := Or(Get(fields, Id), Str(hash))][CreatedAt := Or(Get(fields, CreatedAt), Time(now))];
    GaiaDocument.SerializeAt(source, Url);
    GetMerge(fields, payload, Url);
  }

  /** Saving keeps each plain property of a document but its id, its
      creation time and its url. */
  lemma SaveKeepsDocumentField(fields: Bag, hash: string, now: int, uuid: string, k: Key)
    requires |hash| == 6
    requires GaiaDocument.IsPlain(k) && k != Id && k != CreatedAt && k != Url
    ensures Get(fields + SavePayload(Document, fields, hash, now, uuid), k) == Get(fields, k)
  {
    var source := if !Truthy(Get(fields, Url)) then fields[Url := Str(uuid)] else fields;
    var attributes := GaiaDocument.Serialize(source);
    var payload := SavePayload(Document, fields, hash, now, uuid);
    assert payload == attributes[Id := Or(Get(fields, Id), Str(hash))][CreatedAt := Or(Get(fields, CreatedAt), Time(now))];
    GaiaDocument.SerializeAt(source, k);
    assert Get(source, k) == Get(fields, k);
    assert Get(payload, k) == Get(attributes, k);
    GetMerge(fields, payload, k);
  }

  /** Once the save payload is merged back, the instance is persisted: its id is truthy. */
  lemma SaveMakesPersisted(kind: Kind, fields: Bag, hash: string, now: int, uuid: string)
    requires |hash| == 6
    ensures Truthy(Get(fields + SavePayload(kind, fields, hash, now, uuid), Id))
  {
    GetMerge(fields, SavePayload(kind, fields, hash, now, uuid), Id);
  }

  lemma GetMerge(a: Bag, b: Bag, k: Key)
    ensures Get(a + b, k) == if k in b then b[k] else Get(a, k)
  {
  }

  /** The username option: a name without `.` gets the `.id.blockstack` suffix. */
  function ResolveUsername(username: Option<string>): (r: Option<string>)
    ensures username.None? ==> r.None?
    ensures username.Some? ==>
              r.Some? && (r.value == username.value || r.value == username.value + ".id.blockstack")
    ensures username.Some? && username.value != "" ==> '.' in r.value
    ensures username.Some? && (username.value == "" || '.' in username.value) ==> r == username
  {
    match username
    case Some(u) => if u != "" && '.' !in u then Some(u + ".id.blockstack") else username
    case None => None
  }

  /** Resolving a resolved username changes nothing. */
  lemma ResolveUsernameIdempotent(username: Option<string>)
    ensures ResolveUsername(ResolveUsername(username)) == ResolveUsername(username)
  {
    if username.Some? {
      var u := username.value;
      if u != "" && '.' !in u {
        var suffixed := u + ".id.blockstack";
        assert suffixed[|u|] == '.';
      }
    }
  }

  /** The options of a load, as the caller gives them. */
  datatype GetOptions = GetOptions(username: Option<string>, decrypt: Option<bool>, verify: Option<bool>)

  /** The options the read is made with. */
  datatype ReadOptions = ReadOptions(username: Option<string>, decrypt: bool, verify: bool)

  /** Decryption and verification are off unless the caller turns them on. */
  function EffectiveOptions(options: GetOptions): (r: ReadOptions)
    ensures r.decrypt <==> options.decrypt == Some(true)
    ensures r.verify <==> options.verify == Some(true)
    ensures r.username == ResolveUsername(options.username)
  {
    ReadOptions(ResolveUsername(options.username),
                options.decrypt == Some(true), options.verify == Some(true))
  }

  class Record {
    const kind: Kind
    var fields: Bag

    /** Copies every given property onto the instance, then turns a set
        `created_at` into a Date (and, for a document, normalizes). */
    constructor (kind: Kind, given: Bag)
      ensures this.kind == kind && fields == InitialFields(kind, given)
    {
      var copied: Bag := map[];
      var rest := given.Keys;
      while rest != {}
        invariant rest <= given.Keys
        invariant copied.Keys == given.Keys - rest
        invariant forall k :: k in copied ==> copied[k] == given[k]
        decreases rest
      {
        var k :| k in rest;
        copied := copied[k := given[k]];
        rest := rest - {k};
      }
      assert copied == given;
      this.kind := kind;
      this.fields := InitialFields(kind, copied);
    }

    /** Constructs an instance and runs the `afterInitialize` hooks on it; a
        hook that throws makes the construction throw. */
    static method New(kind: Kind, given: Bag, registry: HookRegistry)
      returns (r: Result<Record>, events: seq<Event>)
      ensures r.Ok? <==> AllPass(registry.Hooks(AfterInitialize))
      ensures r.Err? ==> r.error == RunOutcome(registry.Hooks(AfterInitialize)).error
      ensures r.Ok? ==> fresh(r.value) && r.value.kind == kind && r.value.fields == InitialFields(kind, given)
      ensures events == Calls(AfterInitialize, Called(registry.Hooks(AfterInitialize)))
    {
      var record := new Record(kind, given);
      var called, outcome := registry.Run(AfterInitialize);
      events := Calls(AfterInitialize, called);
      if outcome.Fail? {
        r := Err(outcome.error);
      } else {
        r := Ok(record);
      }
    }

    predicate IsPersisted()
      reads this
    {
      Truthy(Get(fields, Id))
    }

    /** `attributes()`, which is also what `toJSON()` returns. */
    function Attributes(): (r: Bag)
      reads this
      ensures kind == Base ==> r.Keys == {Id, CreatedAt}
      ensures kind == Document ==> r == GaiaDocument.Serialize(fields)
      ensures forall k :: k in r ==> r[k] != Undefined
    {
      AttributesOf(kind, fields)
    }

    /** `save`: the `beforeSave` hooks, then one write of the payload under its
        id, then the payload merged onto the instance, then the `afterSave`
        hooks. `skipHooks` runs neither hook list. */
    method Save(registry: HookRegistry, session: Store?, skipHooks: bool,
                hash: string, now: int, uuid: string, accepted: bool)
      returns (r: Outcome, events: seq<Event>)
      requires |hash| == 6
      modifies this, session
      ensures var before := registry.Hooks(BeforeSave);
              var after := registry.Hooks(AfterSave);
              var payload := SavePayload(kind, old(fields), hash, now, uuid);
              var key := payload[Id];
              var ready := skipHooks || AllPass(before);
              var first := if skipHooks then [] else Calls(BeforeSave, Called(before));
              (!ready ==> r == RunOutcome(before) && events == first) &&
              (ready && session == null ==> r == Fail(Thrown(MissingSessionMessage)) && events == first) &&
              (ready && session != null && !accepted ==> r == Fail(TransportError(key)) && events == first) &&
              (ready && session != null && accepted ==>
                session.log == old(session.log) + [Put(key, Json(payload), PublicOptions)] &&
                session.files == Apply(old(session.files), [Put(key, Json(payload), PublicOptions)]) &&
                fields == old(fields) + payload &&
                r == (if skipHooks then Pass else RunOutcome(after)) &&
                events == first + [Stored(key)] +
                          (if skipHooks then [] else Calls(AfterSave, Called(after)))) &&
              (ready && session != null && accepted ==> IsPersisted()) &&
              (!(ready && session != null && accepted) ==>
                fields == old(fields) &&
                (session != null ==> session.log == old(session.log) && session.files == old(session.files)))
    {
      events := [];
      if !skipHooks {
        var called, outcome := registry.Run(BeforeSave);
        events := Calls(BeforeSave, called);
        if outcome.Fail? {
          return outcome, events;
        }
      }
      var payload := SavePayload(kind, fields, hash, now, uuid);
      var store := GetSession(session);
      if store.Err? {
        return Fail(store.error), events;
      }
      var put := store.value.PutFile(payload[Id], Json(payload), PublicOptions, accepted);
      if put.Fail? {
        return put, events;
      }
      fields := fields + payload;
      SaveMakesPersisted(kind, old(fields), hash, now, uuid);
      events := events + [Stored(payload[Id])];
      r := Pass;
      if !skipHooks {
        var called, outcome := registry.Run(AfterSave);
        events := events + Calls(AfterSave, called);
        r := outcome;
      }
    }

    /** `delete`: the `beforeDelete` hooks, the removal of the object named by
        the id (whatever the id is), then the `afterDelete` hooks. */
    method Delete(registry: HookRegistry, session: Store?, accepted: bool)
      returns (r: Outcome, events: seq<Event>)
      modifies session
      ensures var before := registry.Hooks(BeforeDelete);
              var after := registry.Hooks(AfterDelete);
              var key := Get(fields, Id);
              var ready := AllPass(before);
              var first := Calls(BeforeDelete, Called(before));
              (!ready ==> r == RunOutcome(before) && events == first) &&
              (ready && session == null ==> r == Fail(Thrown(MissingSessionMessage)) && events == first) &&
              (ready && session != null && !accepted ==> r == Fail(TransportError(key)) && events == first) &&
              (ready && session != null && accepted ==>
                session.log == old(session.log) + [Remove(key)] &&
                session.files == Apply(old(session.files), [Remove(key)]) &&
                r == RunOutcome(after) &&
                events == first + [Removed(key)] + Calls(AfterDelete, Called(after))) &&
              (!(ready && session != null && accepted) && session != null ==>
                session.log == old(session.log) && session.files == old(session.files))
    {
      var called, outcome := registry.Run(BeforeDelete);
      events := Calls(BeforeDelete, called);
      if outcome.Fail? {
        return outcome, events;
      }
      var store := GetSession(session);
      if store.Err? {
        return Fail(store.error), events;
      }
      var key := Get(fields, Id);
      var removed := store.value.DeleteFile(key, accepted);
      if removed.Fail? {
        return removed, events;
      }
      events := events + [Removed(key)];
      called, outcome := registry.Run(AfterDelete);
      events := events + Calls(AfterDelete, called);
      r := outcome;
    }

    /** `get`: reads the object named `id`, parses it and constructs an
        instance of the type from it, exactly as the constructor would from
        the same payload. A missing session throws before any read. */
    static method Load(kind: Kind, id: Value, options: GetOptions, session: Store?, registry: HookRegistry)
      returns (r: Result<Record>, read: ReadOptions, events: seq<Event>)
      ensures read == EffectiveOptions(options)
      ensures session == null ==> r == Err(Thrown(MissingSessionMessage)) && events == []
      ensures session != null && id !in session.files ==> r == Err(NotFound(id)) && events == []
      ensures session != null && id in session.files && session.files[id].Bytes? ==>
        r == Err(ParseError) && events == []
      ensures session != null && id in session.files && session.files[id].Json? ==>
        (r.Ok? <==> AllPass(registry.Hooks(AfterInitialize))) &&
        (r.Err? ==> r.error == RunOutcome(registry.Hooks(AfterInitialize)).error) &&
        (r.Ok? ==> fresh(r.value) && r.value.kind == kind &&
                   r.value.fields == InitialFields(kind, session.files[id].content)) &&
        events == Calls(AfterInitialize, Called(registry.Hooks(AfterInitialize)))
    {
      read := EffectiveOptions(options);
      events := [];
      var store := GetSession(session);
      if store.Err? {
        return Err(store.error), read, events;
      }
      var blob := store.value.GetFile(id);
      match blob
      case Err(e) =>
        r := Err(e);
      case Ok(Bytes(_)) =>
        r := Err(ParseError);
      case Ok(Json(payload)) =>
        r, events := New(kind, payload, registry);
    }
  }
}
