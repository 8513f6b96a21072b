/** The event document schema: which paths exist, which are required and
    with what message, which have a default, the `pre('validate')` hook that
    keeps the owner immutable, and the serialiser transform. */
module EventSchema {
  import opened Protocol

  const IdPath := "_id"
  const CreatedAtPath := "created_at"
  const NamePath := "name"
  const DescriptionPath := "description"
  const UserIdPath := "user_id"
  const StartTimePath := "start_time"
  const DurationPath := "duration"
  const IsSolvedPath := "is_solved"
  const NotificationIdPath := "notification_id"

  const ImmutableMessage := "The field value can not be updated"

  /** One declared path: its name, the message of its `required` rule (if
      any) and its default value (if any). */
  datatype Path = Path(name: string, required: Option<string>, default: Option<Value>)

  /** The declared paths of the event schema, in declaration order. */
  const Paths: seq<Path> := [
    Path(NamePath, Some("Name can not be empty"), None),
    Path(DescriptionPath, None, None),
    Path(UserIdPath, Some("User can not be empty"), None),
    Path(StartTimePath, Some("Start time can not be empty"), None),
    Path(DurationPath, Some("Duration can not be empty"), None),
    Path(IsSolvedPath, Some("Solved flag can not be empty"), None),
    Path(NotificationIdPath, None, Some(Null))
  ]

  function PathNames(paths: seq<Path>): set<string>
  {
    set i | 0 <= i < |paths| :: paths[i].name
  }

  /** A path is declared by the event schema. */
  predicate Declared(f: string)
  {
    f in PathNames(Paths)
  }

  /** A required rule rejects an absent value, `null` and the empty string. */
  predicate Missing(doc: Fields, f: string)
  {
    f !in doc || doc[f] == Null || doc[f] == Str("")
  }

  /** The message of the first required rule on path `f`, if there is one. */
  function RequiredMessage(paths: seq<Path>, f: string): Option<string>
  {
    if paths == [] then None
    else if paths[0].name == f && paths[0].required.Some? then paths[0].required
    else RequiredMessage(paths[1..], f)
  }

  /** The default of the first path named `f` that declares one. */
  function DefaultOf(paths: seq<Path>, f: string): Option<Value>
  {
    if paths == [] then None
    else if paths[0].name == f && paths[0].default.Some? then paths[0].default
    else DefaultOf(paths[1..], f)
  }

  /** The errors the required rules of `paths` report on `doc`. */
  function RequiredErrors(doc: Fields, paths: seq<Path>): ErrorMap
  {
    if paths == [] then map[]
    else
      var rest := RequiredErrors(doc, paths[1..]);
      if paths[0].required.Some? && Missing(doc, paths[0].name)
      then rest[paths[0].name := paths[0].required.value]
      else rest
  }

  /** A path carries a required error exactly when it has a required rule
      and its value is missing, and the error is that rule's message. */
  lemma {:induction false} RequiredErrorsExact(doc: Fields, paths: seq<Path>, f: string)
    ensures f in RequiredErrors(doc, paths) <==> RequiredMessage(paths, f).Some? && Missing(doc, f)
    ensures f in RequiredErrors(doc, paths) ==> RequiredErrors(doc, paths)[f] == RequiredMessage(paths, f).value
  {
    if paths != [] {
      RequiredErrorsExact(doc, paths[1..], f);
    }
  }

  lemma RequiredErrorsAll(doc: Fields, paths: seq<Path>)
    ensures forall f :: f in RequiredErrors(doc, paths) <==> RequiredMessage(paths, f).Some? && Missing(doc, f)
    ensures forall f :: f in RequiredErrors(doc, paths) ==> RequiredErrors(doc, paths)[f] == RequiredMessage(paths, f).value
  {
    forall f
      ensures f in RequiredErrors(doc, paths) <==> RequiredMessage(paths, f).Some? && Missing(doc, f)
      ensures f in RequiredErrors(doc, paths) ==> RequiredErrors(doc, paths)[f] == RequiredMessage(paths, f).value
    {
      RequiredErrorsExact(doc, paths, f);
    }
  }

  /** Defaults are applied, in declaration order, to paths the document
      leaves undefined; a `null` value is kept. */
  function ApplyDefaults(doc: Fields, paths: seq<Path>): Fields
    decreases |paths|
  {
    if paths == [] then doc
    else
      var p := paths[0];
      var d := if p.default.Some? && p.name !in doc then doc[p.name := p.default.value] else doc;
      ApplyDefaults(d, paths[1..])
  }

  lemma {:induction false} ApplyDefaultsExact(doc: Fields, paths: seq<Path>, f: string)
    ensures f in ApplyDefaults(doc, paths) <==> f in doc || DefaultOf(paths, f).Some?
    ensures f in doc ==> ApplyDefaults(doc, paths)[f] == doc[f]
    ensures f !in doc && DefaultOf(paths, f).Some? ==> ApplyDefaults(doc, paths)[f] == DefaultOf(paths, f).value
    decreases |paths|
  {
    if paths != [] {
      var p := paths[0];
      var d := if p.default.Some? && p.name !in doc then doc[p.name := p.default.value] else doc;
      ApplyDefaultsExact(d, paths[1..], f);
    }
  }

  /** Strict mode: a body keeps only the declared paths. */
  function Strict(body: Fields): (r: Fields)
    ensures r.Keys <= body.Keys
    ensures forall f :: f in r <==> f in body && Declared(f)
    ensures forall f :: f in r ==> r[f] == body[f]
  {
    map f | f in body && Declared(f) :: body[f]
  }

  /** A new document built from a request body: undeclared keys dropped,
      then the defaults applied. */
  function NewDocument(body: Fields): (doc: Fields)
    ensures forall f :: f in doc && f != NotificationIdPath ==> f in body && Declared(f) && doc[f] == body[f]
    ensures forall f :: f in body && Declared(f) ==> f in doc && doc[f] == body[f]
    ensures NotificationIdPath in doc
    ensures doc[NotificationIdPath] == if NotificationIdPath in body then body[NotificationIdPath] else Null
    ensures IdPath !in doc && CreatedAtPath !in doc
  {
    var doc := ApplyDefaults(Strict(body), Paths);
    SchemaDefaults();
    forall f ensures f in doc <==> f in Strict(body) || DefaultOf(Paths, f).Some?
      ensures f in Strict(body) ==> doc[f] == Strict(body)[f]
      ensures f !in Strict(body) && DefaultOf(Paths, f).Some? ==> doc[f] == DefaultOf(Paths, f).value
    {
      ApplyDefaultsExact(Strict(body), Paths, f);
    }
    assert Declared(NotificationIdPath) by {
      assert Paths[6].name == NotificationIdPath;
    }
    assert !Declared(IdPath) && !Declared(CreatedAtPath) by {
      SchemaNames();
    }
    doc
  }

  /** The declared path names, written out. */
  lemma SchemaNames()
    ensures PathNames(Paths) == {NamePath, DescriptionPath, UserIdPath, StartTimePath, DurationPath, IsSolvedPath, NotificationIdPath}
  {
    var names := {NamePath, DescriptionPath, UserIdPath, StartTimePath, DurationPath, IsSolvedPath, NotificationIdPath};
    forall f | f in names ensures f in PathNames(Paths) {
      if f == NamePath { assert Paths[0].name == f; }
      else if f == DescriptionPath { assert Paths[1].name == f; }
      else if f == UserIdPath { assert Paths[2].name == f; }
      else if f == StartTimePath { assert Paths[3].name == f; }
      else if f == DurationPath { assert Paths[4].name == f; }
      else if f == IsSolvedPath { assert Paths[5].name == f; }
      else { assert Paths[6].name == f; }
    }
  }

  /** The required rules of the schema, written out: five required paths,
      each with its own message; `description` and `notification_id` are
      optional. */
  lemma {:induction false} SchemaRequiredMessages(f: string)
    ensures RequiredMessage(Paths, f) ==
      if f == NamePath then Some("Name can not be empty")
      else if f == UserIdPath then Some("User can not be empty")
      else if f == StartTimePath then Some("Start time can not be empty")
      else if f == DurationPath then Some("Duration can not be empty")
      else if f == IsSolvedPath then Some("Solved flag can not be empty")
      else None
  {
    assert Paths[1..][1..] == Paths[2..];
    assert RequiredMessage(Paths, f) == if f == NamePath then Paths[0].required else RequiredMessage(Paths[2..], f);
    assert RequiredMessage(Paths[2..], f) == if f == UserIdPath then Paths[2].required else RequiredMessage(Paths[3..], f);
    assert RequiredMessage(Paths[3..], f) == if f == StartTimePath then Paths[3].required else RequiredMessage(Paths[4..], f);
    assert RequiredMessage(Paths[4..], f) == if f == DurationPath then Paths[4].required else RequiredMessage(Paths[5..], f);
    assert RequiredMessage(Paths[5..], f) == if f == IsSolvedPath then Paths[5].required else RequiredMessage(Paths[6..], f);
    assert RequiredMessage(Paths[6..], f) == RequiredMessage(Paths[7..], f);
    assert Paths[7..] == [];
  }

  /** The one default of the schema: `notification_id` defaults to `null`. */
  lemma {:induction false} SchemaDefaults()
    ensures forall f :: DefaultOf(Paths, f) == if f == NotificationIdPath then Some(Null) else None
  {
    forall f ensures DefaultOf(Paths, f) == if f == NotificationIdPath then Some(Null) else None {
      assert DefaultOf(Paths, f) == DefaultOf(Paths[1..], f);
      assert Paths[1..][1..] == Paths[2..];
      assert DefaultOf(Paths[1..], f) == DefaultOf(Paths[2..], f);
      assert DefaultOf(Paths[2..], f) == DefaultOf(Paths[3..], f);
      assert DefaultOf(Paths[3..], f) == DefaultOf(Paths[4..], f);
      assert DefaultOf(Paths[4..], f) == DefaultOf(Paths[5..], f);
      assert DefaultOf(Paths[5..], f) == DefaultOf(Paths[6..], f);
      assert DefaultOf(Paths[6..], f) == if f == NotificationIdPath then Paths[6].default else DefaultOf(Paths[7..], f);
      assert Paths[7..] == [];
    }
  }

  /** The document has a creation timestamp (`self.created_at` is truthy). */
  predicate HasCreatedAt(doc: Fields)
  {
    CreatedAtPath in doc && Truthy(doc[CreatedAtPath])
  }

  /** The `pre('validate')` hook: changing the owner of a document that
      already has a creation timestamp is reported on `user_id`. */
  function ImmutabilityErrors(doc: Fields, modified: set<string>): ErrorMap
  {
    if UserIdPath in modified && HasCreatedAt(doc) then map[UserIdPath := ImmutableMessage] else map[]
  }

  /** The paths whose value differs between two states of a document. */
  function ModifiedPaths(before: Fields, after: Fields): (m: set<string>)
    ensures forall f :: f in m <==> (f in after && (f !in before || before[f] != after[f])) || (f in before && f !in after)
  {
    set f | f in after.Keys + before.Keys && (f !in before || f !in after || before[f] != after[f])
  }

  /** The hook fires: the owner is modified on a document that already has
      a creation timestamp. */
  predicate OwnerChangeOnCreated(doc: Fields, modified: set<string>)
  {
    UserIdPath in modified && HasCreatedAt(doc)
  }

  /** Validation of a document whose modified paths are `modified`: the hook
      runs first and always lets validation continue; the validators then
      skip a path the hook already marked invalid, so on `user_id` the hook's
      error stands and every other missing required path is reported. */
  function Validate(doc: Fields, modified: set<string>): (errs: ErrorMap)
    ensures forall f :: f in errs <==>
      (RequiredMessage(Paths, f).Some? && Missing(doc, f)) || (f == UserIdPath && OwnerChangeOnCreated(doc, modified))
    ensures OwnerChangeOnCreated(doc, modified) ==> errs[UserIdPath] == ImmutableMessage
    ensures forall f :: RequiredMessage(Paths, f).Some? && Missing(doc, f) && !(f == UserIdPath && OwnerChangeOnCreated(doc, modified)) ==>
      errs[f] == RequiredMessage(Paths, f).value
    ensures !HasCreatedAt(doc) ==> errs == RequiredErrors(doc, Paths)
  {
    RequiredErrorsAll(doc, Paths);
    SchemaRequiredMessages(UserIdPath);
    RequiredErrors(doc, Paths) + ImmutabilityErrors(doc, modified)
  }

  /** The rules of the schema at the level of single fields. */
  lemma FieldRules(doc: Fields, modified: set<string>)
    ensures var errs := Validate(doc, modified);
      && (Missing(doc, NamePath) <==> NamePath in errs)
      && (Missing(doc, NamePath) ==> errs[NamePath] == "Name can not be empty")
      && (UserIdPath in errs <==> Missing(doc, UserIdPath) || OwnerChangeOnCreated(doc, modified))
      && (Missing(doc, UserIdPath) && !OwnerChangeOnCreated(doc, modified) ==> errs[UserIdPath] == "User can not be empty")
      && (Missing(doc, StartTimePath) <==> StartTimePath in errs)
      && (Missing(doc, StartTimePath) ==> errs[StartTimePath] == "Start time can not be empty")
      && (Missing(doc, DurationPath) <==> DurationPath in errs)
      && (Missing(doc, DurationPath) ==> errs[DurationPath] == "Duration can not be empty")
      && (Missing(doc, IsSolvedPath) <==> IsSolvedPath in errs)
      && (Missing(doc, IsSolvedPath) ==> errs[IsSolvedPath] == "Solved flag can not be empty")
      && DescriptionPath !in errs
      && NotificationIdPath !in errs
      && errs.Keys <= {NamePath, UserIdPath, StartTimePath, DurationPath, IsSolvedPath}
  {
    SchemaRequiredMessages(NamePath);
    SchemaRequiredMessages(UserIdPath);
    SchemaRequiredMessages(StartTimePath);
    SchemaRequiredMessages(DurationPath);
    SchemaRequiredMessages(IsSolvedPath);
    SchemaRequiredMessages(DescriptionPath);
    SchemaRequiredMessages(NotificationIdPath);
    var errs := Validate(doc, modified);
    forall f | f in errs ensures f in {NamePath, UserIdPath, StartTimePath, DurationPath, IsSolvedPath} {
      SchemaRequiredMessages(f);
    }
  }

  /** The owner check: whenever the owner changes on a document that already
      has a creation timestamp, `user_id` carries the hook's message, whatever
      the new value; it never fires on a new document nor because another
      path changed. */
  lemma OwnerImmutability(doc: Fields, modified: set<string>)
    ensures var errs := Validate(doc, modified);
      && (OwnerChangeOnCreated(doc, modified) ==> UserIdPath in errs && errs[UserIdPath] == ImmutableMessage)
      && (!Missing(doc, UserIdPath) ==> (UserIdPath in errs <==> OwnerChangeOnCreated(doc, modified)))
      && (!HasCreatedAt(doc) ==> errs == RequiredErrors(doc, Paths))
      && (UserIdPath !in modified ==> errs == RequiredErrors(doc, Paths))
  {
  }

  /** The serialiser transform of `toJSON` and `toObject`: it removes `_id`
      and leaves every other key as it is. */
  function Serialise(ret: Fields): (r: Fields)
    ensures IdPath !in r
    ensures forall f :: f in ret && f != IdPath ==> f in r && r[f] == ret[f]
    ensures r.Keys == ret.Keys - {IdPath}
  {
    ret - {IdPath}
  }
}
