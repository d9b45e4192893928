// apps/fbschema/models.py, `BaseFbModel`: the query builders, the local
// comparison set, and `save_update_delete`, which merges one fetched batch of
// records into the viewer's rows. Every operation is a function of the store
// it starts from; the `Database` class in engine.dfy runs the same steps
// in place and is proved equal to these functions.

module Reconcile {
  import opened Base
  import opened Values
  import opened Registry
  import opened FqlUtils
  import opened Store
  import opened Coercion

  function Min(a: nat, b: nat): nat
  {
    if a <= b then a else b
  }

  // ---------------------------------------------------------------- queries

  /** `fql_query(clause)`. */
  function FqlQuery(e: Entity, clause: string): string
  {
    GetFqlFromModel(e, clause)
  }

  /** `fql_query_me()`: `AttributeError` for an entity without `me_clause`. */
  function FqlQueryMe(e: Entity): (r: Result<string>)
    ensures r.Ok? <==> MeClause(e).Some?
    ensures r.Ok? ==> r.value == FqlQuery(e, MeClause(e).value)
    ensures r.Err? ==> r.error == AttributeError
  {
    match MeClause(e)
    case None => Err(AttributeError)
    case Some(clause) => Ok(FqlQuery(e, clause))
  }

  /** `fql_query_my_friends(uid)`: the `%d` of `my_friend_clause` filled with
      the uid. A missing clause raises `AttributeError`; a uid that `%d`
      refuses (not a number) raises `TypeError`. */
  function FqlQueryMyFriends(e: Entity, uid: Value): (r: Result<string>)
    ensures MyFriendClause(e).None? ==> r == Err(AttributeError)
    ensures MyFriendClause(e).Some? ==> (r.Ok? <==> uid.Int? || uid.Bool?)
    ensures r.Err? ==> r.error == AttributeError || r.error == TypeError
    ensures r.Ok? && uid.Int? ==>
      var (pre, post) := MyFriendClause(e).value;
      r.value == FqlQuery(e, pre + IntToDecimal(uid.i) + post)
  {
    match MyFriendClause(e)
    case None => Err(AttributeError)
    case Some((pre, post)) =>
      match uid
      case Int(i) => Ok(FqlQuery(e, pre + IntToDecimal(i) + post))
      case Bool(b) => Ok(FqlQuery(e, pre + (if b then "1" else "0") + post))
      case _ => Err(TypeError)
  }

  /** Every entity tracks at least one field: the first declared after
      `id` and `user`. */
  lemma FieldlistNonEmpty(e: Entity)
    ensures |GetFieldlistFromModel(e)| > 0
  {
    var fields := DeclaredFields(e);
    OwnFieldTracked(fields);
    assert |GetFieldlistFromModel(e)| == |TrackedFields(fields)|;
  }

  lemma OwnFieldTracked(fields: seq<FieldSpec>)
    requires |fields| > 2 && fields[2].name != "id" && fields[2].name != "user"
    ensures |TrackedFields(fields)| > 0
  {
    assert fields[2] in fields;
    assert fields[2].name !in IgnoreFields;
    assert fields[2] in TrackedFields(fields);
  }

  /** The query is `SELECT <fields> FROM <fqlname> <clause>`: it starts with
      `SELECT `, ends with the clause exactly as given, and, column names
      being free of commas, its fields segment splits on `", "` back into the
      tracked-field list. */
  lemma FqlQueryShape(e: Entity, clause: string)
    requires CommaFree(GetFieldlistFromModel(e))
    ensures var q := FqlQuery(e, clause);
      var fields := GetFieldsFromModel(e);
      "SELECT " + fields + " FROM " <= q && |clause| <= |q| && q[|q| - |clause|..] == clause
      && SplitFields(fields) == GetFieldlistFromModel(e)
  {
    var names := GetFieldlistFromModel(e);
    var table := FqlName(e);
    FieldlistNonEmpty(e);
    assert GetFieldsFromModel(e) == Join(names, ", ");
    assert FqlQuery(e, clause) == "SELECT " + Join(names, ", ") + " FROM " + table + " " + clause;
    QueryShape(names, table, clause);
  }

  // ------------------------------------------------- local comparison set

  /** `context_uid`: none for `ONLY_SESSION_USER` entities, otherwise the owner
      field of the first record, which fails on an empty batch. */
  function ContextUid(e: Entity, batch: seq<Mapping>): (r: Result<Option<Value>>)
    ensures OwnerIdentifier(e) == Some(OnlySessionUser) ==> r == Ok(None)
    ensures OwnerIdentifier(e).None? ==> r == Err(AttributeError)
    ensures OwnerIdentifier(e).Some? && OwnerIdentifier(e) != Some(OnlySessionUser) ==>
      (batch == [] ==> r == Err(IndexError))
      && (batch != [] ==> (r.Ok? <==> OwnerIdentifier(e).value in Keys(batch[0])))
      && (r.Ok? ==> r.value.Some? && (OwnerIdentifier(e).value, r.value.value) in batch[0])
  {
    match OwnerIdentifier(e)
    case None => Err(AttributeError)
    case Some(owner) =>
      if owner == OnlySessionUser then Ok(None)
      else if batch == [] then Err(IndexError)
      else
        match Get(batch[0], owner)
        case None => Err(KeyError)
        case Some(v) => Ok(Some(v))
  }

  /** `local_fql_query`: without a (truthy) context, the first
      `facebook_row_limit` rows of the table in storage order, whoever's
      they are; with one, the viewer's rows whose owner is the viewer's
      `FacebookUser` with that uid. */
  function LocalFqlQuery(e: Entity, viewer: Viewer, ctx: Option<Value>, s: State): (r: Result<seq<Row>>)
    ensures (ctx.None? || !Truthy(ctx.value)) ==>
      (r.Ok? <==> FacebookRowLimit(e).Some?)
      && (r.Ok? ==> |r.value| == Min(FacebookRowLimit(e).value, |Rows(s, e)|)
                    && r.value == Rows(s, e)[..|r.value|])
    ensures r.Ok? && ctx.Some? && Truthy(ctx.value) ==>
      OwnerIdentifier(e).Some?
      && exists u :: 0 <= u < |Rows(s, FacebookUser)|
           && PrepLookup(BigIntegerField, ctx.value).Ok?
           && Matches(Rows(s, FacebookUser)[u], viewer, "uid", PrepLookup(BigIntegerField, ctx.value).value)
           && forall x :: x in r.value <==>
                x in Rows(s, e) && Matches(x, viewer, OwnerIdentifier(e).value, Ref(FacebookUser, Rows(s, FacebookUser)[u].id))
  {
    if ctx.None? || !Truthy(ctx.value) then
      match FacebookRowLimit(e)
      case None => Err(AttributeError)
      case Some(n) => Ok(Rows(s, e)[..Min(n, |Rows(s, e)|)])
    else
      match LookupRef(s, FacebookUser, "uid", BigIntegerField, Some(viewer), ctx.value)
      case Err(err) => Err(err)
      case Ok(u) =>
        match OwnerIdentifier(e)
        case None => Err(AttributeError)
        case Some(owner) => Ok(Filter(Rows(s, e), viewer, owner, u))
  }

  /** Without a context the comparison set does not depend on the viewer:
      every viewer compares against the same first rows of the table. */
  lemma SessionComparisonSetIgnoresViewer(e: Entity, v1: Viewer, v2: Viewer, s: State)
    requires OwnerIdentifier(e) == Some(OnlySessionUser)
    ensures LocalFqlQuery(e, v1, None, s) == LocalFqlQuery(e, v2, None, s)
    ensures LocalFqlQuery(e, v1, None, s).Ok?
  {
  }

  // ------------------------------------------------------------ key sets

  /** The first field declared under `name`. */
  function FirstNamed(fields: seq<FieldSpec>, name: string): (r: Option<FieldSpec>)
    ensures r.Some? <==> exists f :: f in fields && f.name == name
    ensures r.Some? ==> r.value in fields && r.value.name == name
  {
    if fields == [] then None
    else if fields[0].name == name then Some(fields[0])
    else FirstNamed(fields[1..], name)
  }

  /** `primary_identifier_class()`: the field named `primary_identifier`;
      `AttributeError` without the attribute, `IndexError` without the field. */
  function PrimaryIdentifierClass(e: Entity, declared: seq<FieldSpec>): (r: Result<FieldSpec>)
    ensures PrimaryIdentifier(e).None? ==> r == Err(AttributeError)
    ensures r.Ok? ==> PrimaryIdentifier(e) == Some(r.value.name) && r.value in declared
    ensures PrimaryIdentifier(e).Some? ==>
      (r == Err(IndexError) <==> forall f :: f in declared ==> f.name != PrimaryIdentifier(e).value)
  {
    match PrimaryIdentifier(e)
    case None => Err(AttributeError)
    case Some(pk) =>
      match FirstNamed(declared, pk)
      case None => Err(IndexError)
      case Some(f) => Ok(f)
  }

  /** A declared, tracked field named by `primary_identifier` is in the
      field list and is what `primary_identifier_class()` finds. */
  lemma PrimaryFieldListed(e: Entity, declared: seq<FieldSpec>, f: FieldSpec)
    requires f in declared && PrimaryIdentifier(e) == Some(f.name) && f.name !in IgnoreFields
    ensures f.name in Names(TrackedFields(declared))
    ensures PrimaryIdentifierClass(e, declared).Ok?
  {
    var tracked := TrackedFields(declared);
    assert f in tracked;
    assert FirstNamed(declared, f.name).Some?;
    var i :| 0 <= i < |tracked| && tracked[i] == f;
    assert Names(tracked)[i] == f.name;
  }

  /** `rest[j]` is declared after the three leading fields. */
  lemma DeclaredAfter(first: FieldSpec, rest: seq<FieldSpec>, j: nat)
    requires j < |rest|
    ensures rest[j] in Declared(first, rest)
  {
    assert Declared(first, rest)[3 + j] == rest[j];
  }

  /** The primary identifier of `e` is a column the engine compares: not
      one of the ignored names, one of the names of the FQL field list, and
      a declared field `primary_identifier_class()` finds. */
  predicate KeyIsColumn(e: Entity)
  {
    && PrimaryIdentifier(e).Some? && PrimaryIdentifier(e).value !in IgnoreFields
    && PrimaryIdentifier(e).value in GetFieldlistFromModel(e)
    && PrimaryIdentifierClass(e, DeclaredFields(e)).Ok?
  }

  /** Where each reconciled entity declares its primary identifier: one
      lemma per entity, so that only that entity's declaration is unfolded. */
  lemma AlbumKeyListed(e: Entity)
    ensures e == FacebookAlbum ==> KeyIsColumn(e)
  {
    if e == FacebookAlbum {
      var f := F("aid", CharField);
      assert DeclaredFields(e)[2] == f;
      PrimaryFieldListed(e, DeclaredFields(e), f);
    }
  }

  lemma PhotoKeyListed(e: Entity)
    ensures e == FacebookPhoto ==> KeyIsColumn(e)
  {
    if e == FacebookPhoto {
      var f := F("pid", BigIntegerField);
      assert PhotoFields()[21] == f;
      DeclaredAfter(F("aid", ForeignKey(Model(FacebookAlbum))), PhotoFields(), 21);
      PrimaryFieldListed(e, DeclaredFields(e), f);
    }
  }

  lemma LinkKeyListed(e: Entity)
    ensures e == FacebookLink ==> KeyIsColumn(e)
  {
    if e == FacebookLink {
      var f := F("link_id", BigIntegerField);
      assert LinkFields()[6] == f;
      DeclaredAfter(F("backdated_time", DateTimeField), LinkFields(), 6);
      PrimaryFieldListed(e, DeclaredFields(e), f);
    }
  }

  lemma NotificationKeyListed(e: Entity)
    ensures e == FacebookNotification ==> KeyIsColumn(e)
  {
    if e == FacebookNotification {
      var f := F("notification_id", BigIntegerField);
      assert NotificationFields()[7] == f;
      DeclaredAfter(F("app_id", BigIntegerField), NotificationFields(), 7);
      PrimaryFieldListed(e, DeclaredFields(e), f);
    }
  }

  lemma StreamKeyListed(e: Entity)
    ensures e == FacebookStream ==> KeyIsColumn(e)
  {
    if e == FacebookStream {
      var f := F("post_id", CharField);
      assert StreamFields()[15] == f;
      DeclaredAfter(F("action_links", TextField), StreamFields(), 15);
      PrimaryFieldListed(e, DeclaredFields(e), f);
    }
  }

  /** The primary identifier of every reconciled entity is a real column:
      neither the storage id nor the viewer link, one of the names of the
      FQL field list, and a declared field, so `primary_identifier_class()`
      never fails for them. */
  lemma PrimaryIdentifierIsColumn(e: Entity)
    requires Reconciled(e)
    ensures PrimaryIdentifier(e).Some? && PrimaryIdentifier(e).value !in IgnoreFields
    ensures PrimaryIdentifier(e).value in GetFieldlistFromModel(e)
    ensures PrimaryIdentifierClass(e, DeclaredFields(e)).Ok?
  {
    AlbumKeyListed(e);
    PhotoKeyListed(e);
    LinkKeyListed(e);
    NotificationKeyListed(e);
    StreamKeyListed(e);
    assert KeyIsColumn(e);
  }

  /** One record's primary key, coerced as a column of kind `kind` without
      a request (models.py:115-116). */
  function RemoteKey(kind: Kind, pk: string, record: Mapping, dates: Dates, s: State): (r: Step<Cell>)
    ensures r.Done? ==> Get(record, pk).Some?
    ensures r.Failed? && Get(record, pk).None? ==> r.error == KeyError
    ensures r.state.tables == s.tables && r.state.nextId == s.nextId
    ensures forall k :: StructRows(s, k) <= StructRows(r.state, k)
    ensures !(kind.ForeignKey? && kind.to.Struct?) ==> r.state == s
  {
    match Get(record, pk)
    case None => Failed(KeyError, s)
    case Some(v) => ParseCleanFieldValue(kind, v, None, dates, s)
  }

  /** `keys` holds, position by position, the value each record of `batch`
      carries under `pk`, coerced as a column of kind `kind` at state `s`
      without changing it (`RemoteKey`: the `KeyError` of a missing key, or
      the coercion of the key found). */
  predicate KeysOf(kind: Kind, pk: string, batch: seq<Mapping>, keys: seq<Cell>, dates: Dates, s: State)
  {
    |keys| == |batch|
    && forall i :: 0 <= i < |batch| ==>
         RemoteKey(kind, pk, batch[i], dates, s) == Done(keys[i], s)
  }

  /** The response set: after the keys `acc` already collected, the key of
      each record of `batch`, in batch order. Unless the key is a reference
      to a struct table, nothing is written, every record is coerced at the
      starting state, and the list fails exactly when some record lacks the
      key or has a key that does not coerce. */
  function RemoteKeys(kind: Kind, pk: string, batch: seq<Mapping>, acc: seq<Cell>, dates: Dates, s: State): (r: Step<seq<Cell>>)
    ensures r.Done? ==> |r.value| == |acc| + |batch| && acc <= r.value
    ensures r.Done? ==> forall i :: 0 <= i < |batch| ==> Get(batch[i], pk).Some?
    ensures r.state.tables == s.tables && r.state.nextId == s.nextId
    ensures forall k :: StructRows(s, k) <= StructRows(r.state, k)
    ensures !(kind.ForeignKey? && kind.to.Struct?) ==> r.state == s
    decreases |batch|
  {
    if batch == [] then Done(acc, s)
    else
      match RemoteKey(kind, pk, batch[0], dates, s)
      case Failed(err, t) => Failed(err, t)
      case Done(c, t) =>
        var r := RemoteKeys(kind, pk, batch[1..], acc + [c], dates, t);
        assert acc <= acc + [c];
        r
  }

  /** Unless the key is a reference to a struct table, the response set is
      formed exactly when every record carries a key that coerces. */
  lemma {:induction false} RemoteKeysDone(kind: Kind, pk: string, batch: seq<Mapping>, acc: seq<Cell>, dates: Dates, s: State)
    requires !(kind.ForeignKey? && kind.to.Struct?)
    ensures RemoteKeys(kind, pk, batch, acc, dates, s).Done? <==>
      forall i :: 0 <= i < |batch| ==> RemoteKey(kind, pk, batch[i], dates, s).Done?
    decreases |batch|
  {
    if batch != [] {
      var p := RemoteKey(kind, pk, batch[0], dates, s);
      if p.Done? {
        var rest := batch[1..];
        RemoteKeysDone(kind, pk, rest, acc + [p.value], dates, s);
        assert RemoteKeys(kind, pk, batch, acc, dates, s) == RemoteKeys(kind, pk, rest, acc + [p.value], dates, s);
        assert forall i :: 0 < i < |batch| ==> batch[i] == rest[i - 1];
      }
    }
  }

  /** Unless the key is a reference to a struct table, the response set
      holds, after `acc`, exactly the coerced keys of the records. */
  lemma {:induction false} RemoteKeysValues(kind: Kind, pk: string, batch: seq<Mapping>, acc: seq<Cell>, dates: Dates, s: State)
    requires !(kind.ForeignKey? && kind.to.Struct?)
    ensures var r := RemoteKeys(kind, pk, batch, acc, dates, s);
      r.Done? ==> KeysOf(kind, pk, batch, r.value[|acc|..], dates, s)
    decreases |batch|
  {
    var r := RemoteKeys(kind, pk, batch, acc, dates, s);
    if batch != [] && r.Done? {
      var p := RemoteKey(kind, pk, batch[0], dates, s);
      var rest := batch[1..];
      RemoteKeysValues(kind, pk, rest, acc + [p.value], dates, s);
      assert r == RemoteKeys(kind, pk, rest, acc + [p.value], dates, s);
      var keys, later := r.value[|acc|..], r.value[|acc| + 1..];
      forall i | 0 <= i < |batch|
        ensures RemoteKey(kind, pk, batch[i], dates, s) == Done(keys[i], s)
      {
        if i > 0 {
          assert batch[i] == rest[i - 1] && keys[i] == later[i - 1];
        }
      }
    }
  }

  /** The comprehension of models.py:115-116: `primary_identifier_class()`
      is evaluated for the first record, so an empty batch never asks for it. */
  function ResponseKeys(e: Entity, declared: seq<FieldSpec>, pk: string, batch: seq<Mapping>, dates: Dates, s: State): (r: Step<seq<Cell>>)
    ensures r.Done? ==> |r.value| == |batch|
    ensures batch == [] ==> r == Done([], s)
    ensures batch != [] && PrimaryIdentifierClass(e, declared).Err? ==>
      r == Failed(PrimaryIdentifierClass(e, declared).error, s)
    ensures batch != [] && PrimaryIdentifierClass(e, declared).Ok? ==>
      var kind := PrimaryIdentifierClass(e, declared).value.kind;
      !(kind.ForeignKey? && kind.to.Struct?) ==>
        (r.Done? <==> forall i :: 0 <= i < |batch| ==> RemoteKey(kind, pk, batch[i], dates, s).Done?)
        && (r.Done? ==> KeysOf(kind, pk, batch, r.value, dates, s))
    ensures r.state.tables == s.tables && r.state.nextId == s.nextId
    ensures forall k :: StructRows(s, k) <= StructRows(r.state, k)
  {
    if batch == [] then Done([], s)
    else
      match PrimaryIdentifierClass(e, declared)
      case Err(err) => Failed(err, s)
      case Ok(f) =>
        var r := RemoteKeys(f.kind, pk, batch, [], dates, s);
        if f.kind.ForeignKey? && f.kind.to.Struct? then r
        else
          RemoteKeysDone(f.kind, pk, batch, [], dates, s);
          RemoteKeysValues(f.kind, pk, batch, [], dates, s);
          assert r.Done? ==> r.value[0..] == r.value;
          r
  }

  /** The model set: the primary key column of each comparison row. */
  function LocalKeys(rows: seq<Row>, pk: string): (r: seq<Cell>)
    ensures |r| == |rows|
    ensures forall i :: 0 <= i < |rows| ==> r[i] == Column(rows[i], pk)
  {
    if rows == [] then [] else [Column(rows[0], pk)] + LocalKeys(rows[1..], pk)
  }

  datatype Diff = Diff(add: set<Cell>, update: set<Cell>, delete: set<Cell>)

  /** The three lists of models.py:121-129. The add and update lists split the
      response set; the delete list never meets it and is empty for a stream. */
  function KeyDiff(remote: set<Cell>, local: set<Cell>, stream: bool): (d: Diff)
    ensures d.add * d.update == {} && d.add + d.update == remote
    ensures d.add * local == {} && d.update <= local
    ensures d.delete * remote == {}
    ensures stream ==> d.delete == {}
    ensures !stream ==> d.delete + (local * remote) == local
  {
    Diff(remote - local, remote * local, if stream then {} else local - remote)
  }

  /** models.py:104-129: context, comparison rows, primary identifier, and
      the key lists, with the primary identifier's name. */
  function Plan(e: Entity, declared: seq<FieldSpec>, viewer: Viewer, batch: seq<Mapping>, stream: bool, dates: Dates, s: State): (r: Step<(string, Diff)>)
    ensures r.Done? ==> PrimaryIdentifier(e) == Some(r.value.0)
    ensures r.Done? ==>
      ContextUid(e, batch).Ok?
      && LocalFqlQuery(e, viewer, ContextUid(e, batch).value, s).Ok?
      && ResponseKeys(e, declared, r.value.0, batch, dates, s).Done?
    ensures r.Done? && ContextUid(e, batch).Ok? && LocalFqlQuery(e, viewer, ContextUid(e, batch).value, s).Ok?
            && ResponseKeys(e, declared, r.value.0, batch, dates, s).Done? ==>
      var remote := set c | c in ResponseKeys(e, declared, r.value.0, batch, dates, s).value;
      var local := set c | c in LocalKeys(LocalFqlQuery(e, viewer, ContextUid(e, batch).value, s).value, r.value.0);
      var d := r.value.1;
      d.add + d.update == remote && d.add * d.update == {}
      && d.add * local == {} && d.update <= local
      && d.delete * remote == {} && (stream ==> d.delete == {})
      && (!stream ==> d.delete + (local * remote) == local)
    ensures r.state.tables == s.tables && r.state.nextId == s.nextId
    ensures forall k :: StructRows(s, k) <= StructRows(r.state, k)
  {
    match ContextUid(e, batch)
    case Err(err) => Failed(err, s)
    case Ok(ctx) =>
      match LocalFqlQuery(e, viewer, ctx, s)
      case Err(err) => Failed(err, s)
      case Ok(rows) =>
        match PrimaryIdentifier(e)
        case None => Failed(AttributeError, s)
        case Some(pk) =>
          match ResponseKeys(e, declared, pk, batch, dates, s)
          case Failed(err, t) => Failed(err, t)
          case Done(keys, t) =>
            Done((pk, KeyDiff((set c | c in keys), (set c | c in LocalKeys(rows, pk)), stream)), t)
  }

  // --------------------------------------------------------- prepare_dict

  function FieldNames(fields: seq<FieldSpec>): set<string>
  {
    set f | f in fields :: f.name
  }

  /** One pass of the loop of models.py:81-89: the value of `field` in the
      record, coerced, stored under the field's name. */
  function PrepareField(field: FieldSpec, record: Mapping, viewer: Option<Viewer>, dates: Dates,
                        acc: map<string, Cell>, s: State): (r: Step<map<string, Cell>>)
    ensures r.Done? ==> r.value.Keys == acc.Keys + {field.name}
    ensures r.state.tables == s.tables && r.state.nextId == s.nextId
    ensures forall k :: StructRows(s, k) <= StructRows(r.state, k)
    ensures r.Failed? ==> r.error != SchemaMismatch
  {
    match Get(record, field.name)
    case None => Failed(KeyError, s)
    case Some(v) =>
      match ParseCleanFieldValue(field.kind, v, viewer, dates, s)
      case Failed(err, t) => Failed(err, t)
      case Done(c, t) => Done(acc[field.name := c], t)
  }

  /** The loop of models.py:81-89 from `acc` on: each tracked field's value
      coerced, in declaration order, with the store threaded through. */
  function PrepareFields(fields: seq<FieldSpec>, record: Mapping, viewer: Option<Viewer>, dates: Dates,
                         acc: map<string, Cell>, s: State): (r: Step<map<string, Cell>>)
    ensures r.Done? ==> r.value.Keys == acc.Keys + FieldNames(fields)
    ensures r.state.tables == s.tables && r.state.nextId == s.nextId
    ensures forall k :: StructRows(s, k) <= StructRows(r.state, k)
    ensures r.Failed? ==> r.error != SchemaMismatch
    decreases |fields|
  {
    if fields == [] then Done(acc, s)
    else
      match PrepareField(fields[0], record, viewer, dates, acc, s)
      case Failed(err, t) => Failed(err, t)
      case Done(next, t) =>
        assert FieldNames(fields) == {fields[0].name} + FieldNames(fields[1..]) by {
          assert forall f :: f in fields <==> f == fields[0] || f in fields[1..];
        }
        PrepareFields(fields[1..], record, viewer, dates, next, t)
  }

  /** `prepare_dict` for the tracked-field list `fields`. */
  function PrepareTracked(fields: seq<FieldSpec>, record: Mapping, viewer: Option<Viewer>, dates: Dates, s: State): (r: Step<map<string, Cell>>)
    ensures r.Failed? && r.error == SchemaMismatch <==> !SameKeys(Keys(record), Names(fields))
    ensures r.Done? ==> r.value.Keys == set x | x in Names(fields)
    ensures r.state.tables == s.tables && r.state.nextId == s.nextId
    ensures forall k :: StructRows(s, k) <= StructRows(r.state, k)
  {
    if !SameKeys(Keys(record), Names(fields)) then Failed(SchemaMismatch, s)
    else
      var r := PrepareFields(fields, record, viewer, dates, map[], s);
      assert FieldNames(fields) == set x | x in Names(fields) by {
        FieldNamesAreNames(fields);
      }
      r
  }

  /** `prepare_dict(record, request)`: the key check, then every tracked field
      coerced. */
  function PrepareDict(e: Entity, record: Mapping, viewer: Option<Viewer>, dates: Dates, s: State): (r: Step<map<string, Cell>>)
    ensures r.state.tables == s.tables && r.state.nextId == s.nextId
    ensures forall k :: StructRows(s, k) <= StructRows(r.state, k)
  {
    PrepareTracked(TrackedFields(DeclaredFields(e)), record, viewer, dates, s)
  }

  /** `prepare_dict` raises the schema mismatch exactly when the record's
      keys are not the entity's tracked fields, and otherwise yields one
      value per tracked field. */
  lemma PrepareDictSchema(e: Entity, record: Mapping, viewer: Option<Viewer>, dates: Dates, s: State)
    ensures var r := PrepareDict(e, record, viewer, dates, s);
      r.Failed? && r.error == SchemaMismatch <==> !CompareKeysWithFields(e, Keys(record))
    ensures var r := PrepareDict(e, record, viewer, dates, s);
      r.Done? ==> r.value.Keys == set x | x in GetFieldlistFromModel(e)
  {
    var fields := TrackedFields(DeclaredFields(e));
    assert GetFieldlistFromModel(e) == Names(fields);
    assert PrepareDict(e, record, viewer, dates, s) == PrepareTracked(fields, record, viewer, dates, s);
  }

  lemma FieldNamesAreNames(fields: seq<FieldSpec>)
    ensures FieldNames(fields) == set x | x in Names(fields)
  {
    forall x ensures x in FieldNames(fields) <==> x in Names(fields) {
      if x in Names(fields) {
        var i :| 0 <= i < |fields| && Names(fields)[i] == x;
        assert fields[i] in fields;
      }
    }
  }

  // ---------------------------------------------------------- save steps

  /** `FacebookStream.handle_integrity_exception`: the position of the
      viewer's row that already holds the record's primary key; the record is
      then saved under that row's id. */
  function HandleIntegrityException(e: Entity, viewer: Viewer, data: map<string, Cell>, s: State): (r: Result<nat>)
    ensures PrimaryIdentifier(e).None? ==> r == Err(AttributeError)
    ensures r.Ok? ==>
      var pk := PrimaryIdentifier(e).value;
      pk in data && r.value < |Rows(s, e)| && Matches(Rows(s, e)[r.value], viewer, pk, data[pk])
      && forall j :: 0 <= j < |Rows(s, e)| && j != r.value ==> !Matches(Rows(s, e)[j], viewer, pk, data[pk])
    ensures PrimaryIdentifier(e).Some? && PrimaryIdentifier(e).value in data ==>
      var pk := PrimaryIdentifier(e).value;
      (r == Err(DoesNotExist) <==> forall j :: 0 <= j < |Rows(s, e)| ==> !Matches(Rows(s, e)[j], viewer, pk, data[pk]))
  {
    match PrimaryIdentifier(e)
    case None => Err(AttributeError)
    case Some(pk) =>
      if pk !in data then Err(KeyError)
      else ObjectsGet(Rows(s, e), viewer, pk, data[pk])
  }

  function Written(r: Step<nat>): Step<()>
  {
    match r
    case Done(_, t) => Done((), t)
    case Failed(err, t) => Failed(err, t)
  }

  /** One pass of the loop body after `prepare_dict` (models.py:138-160). A
      key in the add list is inserted for the viewer; a uniqueness clash goes
      to the resolver, which only `FacebookStream` has (any other entity
      raises `AttributeError` there). A key in the update list overwrites the
      viewer's row holding it. Any other key is left alone. */
  function SaveRecord(e: Entity, viewer: Viewer, pk: string, data: map<string, Cell>, diff: Diff, s: State): (r: Step<()>)
    ensures r.Failed? ==> r.state == s
  {
    if pk !in data then Failed(KeyError, s)
    else if data[pk] in diff.add then
      match Create(s, e, viewer, data)
      case Done(_, t) => Done((), t)
      case Failed(_, _) =>
        if !HandlesIntegrity(e) then Failed(AttributeError, s)
        else
          match HandleIntegrityException(e, viewer, data, s)
          case Err(err) => Failed(err, s)
          case Ok(i) => Written(Overwrite(s, e, i, viewer, data))
    else if data[pk] in diff.update then
      match ObjectsGet(Rows(s, e), viewer, pk, data[pk])
      case Err(err) => Failed(err, s)
      case Ok(i) => Written(Overwrite(s, e, i, viewer, data))
    else Done((), s)
  }

  /** What one pass of the loop body writes: nothing for a key in neither
      list; for a key in the add list, a new row for the viewer at the end
      of the table or, for `FacebookStream` only, an overwrite of the
      viewer's row that holds the key; for a key in the update list, an
      overwrite of the viewer's row that holds it, `DoesNotExist` when there
      is none. A failure writes nothing. */
  lemma SaveRecordEffect(e: Entity, viewer: Viewer, pk: string, data: map<string, Cell>, diff: Diff, s: State)
    ensures var r := SaveRecord(e, viewer, pk, data, diff, s);
      pk in data && data[pk] !in diff.add && data[pk] !in diff.update ==> r == Done((), s)
    ensures var r := SaveRecord(e, viewer, pk, data, diff, s);
      r.Done? && pk in data && data[pk] in diff.add && PrimaryIdentifier(e) == Some(pk) ==>
      Rows(r.state, e) == Rows(s, e) + [Row(s.nextId, viewer, data)]
      || (HandlesIntegrity(e)
          && exists i :: 0 <= i < |Rows(s, e)| && Matches(Rows(s, e)[i], viewer, pk, data[pk])
               && Rows(r.state, e) == Rows(s, e)[i := Row(Rows(s, e)[i].id, Rows(s, e)[i].user, data)])
    ensures var r := SaveRecord(e, viewer, pk, data, diff, s);
      r.Done? && pk in data && data[pk] !in diff.add && data[pk] in diff.update ==>
      exists i :: 0 <= i < |Rows(s, e)| && Matches(Rows(s, e)[i], viewer, pk, data[pk])
        && Rows(r.state, e) == Rows(s, e)[i := Row(Rows(s, e)[i].id, Rows(s, e)[i].user, data)]
    ensures var r := SaveRecord(e, viewer, pk, data, diff, s);
      pk in data && data[pk] in diff.add && Create(s, e, viewer, data).Failed? && !HandlesIntegrity(e) ==>
      r == Failed(AttributeError, s)
    ensures var r := SaveRecord(e, viewer, pk, data, diff, s);
      pk in data && data[pk] !in diff.add && data[pk] in diff.update
      && (forall j :: 0 <= j < |Rows(s, e)| ==> !Matches(Rows(s, e)[j], viewer, pk, data[pk])) ==>
      r == Failed(DoesNotExist, s)
  {
  }

  /** One pass of the loop of models.py:136-160: the record prepared, then
      written. */
  function SaveOne(e: Entity, viewer: Viewer, pk: string, fields: seq<FieldSpec>, record: Mapping, diff: Diff, dates: Dates, s: State): Step<()>
  {
    match PrepareTracked(fields, record, Some(viewer), dates, s)
    case Failed(err, t) => Failed(err, t)
    case Done(data, t) => SaveRecord(e, viewer, pk, data, diff, t)
  }

  /** The loop of models.py:136-160 over the rest of the batch. The first
      failure ends it; the rows written before it stay written. */
  function SaveAll(e: Entity, viewer: Viewer, pk: string, fields: seq<FieldSpec>, batch: seq<Mapping>, diff: Diff, dates: Dates, s: State): (r: Step<()>)
    decreases |batch|
  {
    if batch == [] then Done((), s)
    else
      match SaveOne(e, viewer, pk, fields, batch[0], diff, dates, s)
      case Failed(err, u) => Failed(err, u)
      case Done(_, u) => SaveAll(e, viewer, pk, fields, batch[1..], diff, dates, u)
  }

  /** `save_update_delete(request, response_data, stream_nature)`. The delete
      list is computed by `Plan` and never applied. */
  function SaveUpdateDelete(e: Entity, declared: seq<FieldSpec>, viewer: Viewer, batch: seq<Mapping>, stream: bool, dates: Dates, s: State): Step<()>
  {
    match Plan(e, declared, viewer, batch, stream, dates, s)
    case Failed(err, t) => Failed(err, t)
    case Done((pk, diff), t) => SaveAll(e, viewer, pk, TrackedFields(declared), batch, diff, dates, t)
  }

  /** How the views hand one FQL response to the engine: the model's own
      declared fields, and an empty response skipped (views.py:185-186 and
      224-225), so that a viewer with nothing on Facebook gets an unchanged
      store instead of the `IndexError` of `Reconcile.EmptyBatch`. */
  function Sync(e: Entity, viewer: Viewer, batch: seq<Mapping>, stream: bool, dates: Dates, s: State): (r: Step<()>)
    ensures batch == [] ==> r == Done((), s)
    ensures Valid(s) ==> Valid(r.state)
  {
    if batch == [] then Done((), s)
    else
      var r := SaveUpdateDelete(e, DeclaredFields(e), viewer, batch, stream, dates, s);
      if Valid(s) then
        SaveUpdateDeleteKeepsValid(e, DeclaredFields(e), viewer, batch, stream, dates, s);
        r
      else r
  }

  // --------------------------------------------------------------- frames

  /** What a run of the engine may do to the store between `s` and `t`: in
      the table of `e` no row is removed or moved; every row keeps its id,
      its owner and its primary key; a row changes only if it is the viewer's
      and its key is in `keys`; new rows are the viewer's, with a key in
      `keys`. Other tables are untouched; struct tables only grow. */
  predicate Confined(s: State, t: State, e: Entity, viewer: Viewer, pk: string, keys: set<Cell>)
  {
    var before, after := Rows(s, e), Rows(t, e);
    |before| <= |after|
    && (forall i :: 0 <= i < |before| ==>
          after[i].id == before[i].id && after[i].user == before[i].user && Column(after[i], pk) == Column(before[i], pk))
    && (forall i :: 0 <= i < |before| && (before[i].user != viewer || Column(before[i], pk) !in keys) ==>
          after[i] == before[i])
    && (forall i :: |before| <= i < |after| ==> after[i].user == viewer && Column(after[i], pk) in keys)
    && (forall e' :: e' != e ==> Rows(t, e') == Rows(s, e'))
    && (forall k :: StructRows(s, k) <= StructRows(t, k))
    && s.nextId <= t.nextId
  }

  lemma ConfinedTransitive(s: State, t: State, u: State, e: Entity, viewer: Viewer, pk: string, keys: set<Cell>)
    requires Confined(s, t, e, viewer, pk, keys) && Confined(t, u, e, viewer, pk, keys)
    ensures Confined(s, u, e, viewer, pk, keys)
  {
    var a, b, c := Rows(s, e), Rows(t, e), Rows(u, e);
    forall i | 0 <= i < |a| && (a[i].user != viewer || Column(a[i], pk) !in keys) ensures c[i] == a[i] {
      assert b[i] == a[i];
    }
    forall i | |a| <= i < |c| ensures c[i].user == viewer && Column(c[i], pk) in keys {
      if i < |b| {
        assert c[i].user == b[i].user && Column(c[i], pk) == Column(b[i], pk);
      }
    }
  }

  /** A store change that touches only the struct tables is confined. */
  lemma StructsOnlyConfined(s: State, t: State, e: Entity, viewer: Viewer, pk: string, keys: set<Cell>)
    requires t.tables == s.tables && t.nextId == s.nextId
    requires forall k :: StructRows(s, k) <= StructRows(t, k)
    ensures Confined(s, t, e, viewer, pk, keys)
  {
    assert forall e' :: Rows(t, e') == Rows(s, e');
  }

  /** Overwriting the viewer's row that holds `data[pk]` with `data` is confined. */
  lemma {:induction false} OverwriteConfined(s: State, e: Entity, i: nat, viewer: Viewer, pk: string,
                                             data: map<string, Cell>, keys: set<Cell>)
    requires i < |Rows(s, e)| && pk in data && data[pk] in keys
    requires Matches(Rows(s, e)[i], viewer, pk, data[pk])
    ensures Confined(s, Overwrite(s, e, i, viewer, data).state, e, viewer, pk, keys)
  {
    var r := Overwrite(s, e, i, viewer, data);
    if r.Done? {
      var rows := Rows(s, e);
      var row := Row(rows[i].id, viewer, data);
      assert Column(row, pk) == Column(rows[i], pk);
      assert Rows(r.state, e) == rows[i := row];
    }
  }

  /** Inserting `data` for the viewer, whose key is in `keys`, is confined. */
  lemma CreateConfined(s: State, e: Entity, viewer: Viewer, pk: string, data: map<string, Cell>, keys: set<Cell>)
    requires pk != "id" && pk != "user" && pk in data && data[pk] in keys
    ensures Confined(s, Create(s, e, viewer, data).state, e, viewer, pk, keys)
  {
    var c := Create(s, e, viewer, data);
    if c.Done? {
      var row := Row(s.nextId, viewer, data);
      assert Column(row, pk) == data[pk];
      assert Rows(c.state, e) == Rows(s, e) + [row];
    } else {
      StructsOnlyConfined(s, s, e, viewer, pk, keys);
    }
  }

  /** One record's save step is confined to the viewer's rows holding the
      record's key, and that key is in the response set. */
  lemma {:induction false} SaveRecordConfined(e: Entity, viewer: Viewer, pk: string, data: map<string, Cell>, diff: Diff, s: State)
    requires pk !in IgnoreFields && PrimaryIdentifier(e) == Some(pk)
    ensures Confined(s, SaveRecord(e, viewer, pk, data, diff, s).state, e, viewer, pk, diff.add + diff.update)
  {
    var keys := diff.add + diff.update;
    var r := SaveRecord(e, viewer, pk, data, diff, s);
    assert pk != "id" && pk != "user";
    if pk in data && data[pk] in diff.add {
      var c := Create(s, e, viewer, data);
      if c.Done? {
        CreateConfined(s, e, viewer, pk, data, keys);
        assert r.state == c.state;
      } else if HandlesIntegrity(e) && HandleIntegrityException(e, viewer, data, s).Ok? {
        var i := HandleIntegrityException(e, viewer, data, s).value;
        OverwriteConfined(s, e, i, viewer, pk, data, keys);
        assert r.state == Overwrite(s, e, i, viewer, data).state;
      } else {
        assert r.state == s;
        StructsOnlyConfined(s, s, e, viewer, pk, keys);
      }
    } else if pk in data && data[pk] in diff.update && ObjectsGet(Rows(s, e), viewer, pk, data[pk]).Ok? {
      var i := ObjectsGet(Rows(s, e), viewer, pk, data[pk]).value;
      OverwriteConfined(s, e, i, viewer, pk, data, keys);
      assert r.state == Overwrite(s, e, i, viewer, data).state;
    } else {
      assert r.state == s;
      StructsOnlyConfined(s, s, e, viewer, pk, keys);
    }
  }

  lemma SaveOneConfined(e: Entity, viewer: Viewer, pk: string, fields: seq<FieldSpec>, record: Mapping, diff: Diff, dates: Dates, s: State)
    requires pk !in IgnoreFields && PrimaryIdentifier(e) == Some(pk)
    ensures Confined(s, SaveOne(e, viewer, pk, fields, record, diff, dates, s).state, e, viewer, pk, diff.add + diff.update)
  {
    var keys := diff.add + diff.update;
    var p := PrepareTracked(fields, record, Some(viewer), dates, s);
    StructsOnlyConfined(s, p.state, e, viewer, pk, keys);
    if p.Done? {
      var q := SaveRecord(e, viewer, pk, p.value, diff, p.state);
      SaveRecordConfined(e, viewer, pk, p.value, diff, p.state);
      ConfinedTransitive(s, p.state, q.state, e, viewer, pk, keys);
    }
  }

  lemma {:induction false} SaveAllConfined(e: Entity, viewer: Viewer, pk: string, fields: seq<FieldSpec>, batch: seq<Mapping>, diff: Diff, dates: Dates, s: State)
    requires pk !in IgnoreFields && PrimaryIdentifier(e) == Some(pk)
    ensures Confined(s, SaveAll(e, viewer, pk, fields, batch, diff, dates, s).state, e, viewer, pk, diff.add + diff.update)
    decreases |batch|
  {
    var keys := diff.add + diff.update;
    if batch != [] {
      SaveOneConfined(e, viewer, pk, fields, batch[0], diff, dates, s);
      var q := SaveOne(e, viewer, pk, fields, batch[0], diff, dates, s);
      if q.Done? {
        SaveAllConfined(e, viewer, pk, fields, batch[1..], diff, dates, q.state);
        ConfinedTransitive(s, q.state, SaveAll(e, viewer, pk, fields, batch[1..], diff, dates, q.state).state, e, viewer, pk, keys);
      }
    } else {
      StructsOnlyConfined(s, s, e, viewer, pk, keys);
    }
  }

  /** `save_update_delete` removes no row and moves none; it changes or adds
      only rows of the current viewer whose primary key is one of the batch's
      coerced keys; rows of other viewers, rows whose key is not in the batch,
      and the tables of other entities are left exactly as they were; the
      shared struct tables only grow. This holds however the call ends. */
  lemma {:induction false} SaveUpdateDeleteConfined(e: Entity, declared: seq<FieldSpec>, viewer: Viewer, batch: seq<Mapping>, stream: bool, dates: Dates, s: State)
    requires Reconciled(e)
    ensures var p := Plan(e, declared, viewer, batch, stream, dates, s);
      var r := SaveUpdateDelete(e, declared, viewer, batch, stream, dates, s);
      p.Done? ==> Confined(s, r.state, e, viewer, p.value.0, p.value.1.add + p.value.1.update)
    ensures var p := Plan(e, declared, viewer, batch, stream, dates, s);
      p.Failed? ==>
        SaveUpdateDelete(e, declared, viewer, batch, stream, dates, s) == Failed(p.error, p.state)
        && forall e' :: Rows(p.state, e') == Rows(s, e')
  {
    var p := Plan(e, declared, viewer, batch, stream, dates, s);
    if p.Done? {
      var (pk, diff) := p.value;
      var keys := diff.add + diff.update;
      var fields := TrackedFields(declared);
      var t := SaveAll(e, viewer, pk, fields, batch, diff, dates, p.state).state;
      assert SaveUpdateDelete(e, declared, viewer, batch, stream, dates, s).state == t;
      PrimaryIdentifierIsColumn(e);
      StructsOnlyConfined(s, p.state, e, viewer, pk, keys);
      SaveAllConfined(e, viewer, pk, fields, batch, diff, dates, p.state);
      ConfinedTransitive(s, p.state, t, e, viewer, pk, keys);
    }
  }

  // ------------------------------------------------------------ empty batch

  /** An empty batch: an owner-scoped entity reads the context from the
      first record and fails with `IndexError` before any write; a
      session-user entity has nothing to save and leaves the store as it was. */
  lemma EmptyBatch(e: Entity, declared: seq<FieldSpec>, viewer: Viewer, stream: bool, dates: Dates, s: State)
    requires Reconciled(e)
    ensures OwnerIdentifier(e) == Some("owner") ==> SaveUpdateDelete(e, declared, viewer, [], stream, dates, s) == Failed(IndexError, s)
    ensures OwnerIdentifier(e) == Some(OnlySessionUser) ==> SaveUpdateDelete(e, declared, viewer, [], stream, dates, s) == Done((), s)
  {
  }

  // ---------------------------------------------------------- consistency

  lemma {:induction false} PrepareFieldsKeepsValid(fields: seq<FieldSpec>, record: Mapping, viewer: Option<Viewer>,
                                                   dates: Dates, acc: map<string, Cell>, s: State)
    requires Valid(s)
    ensures Valid(PrepareFields(fields, record, viewer, dates, acc, s).state)
    decreases |fields|
  {
    if fields != [] {
      match Get(record, fields[0].name)
      case None =>
      case Some(v) =>
        ParseCleanFieldValueKeepsValid(fields[0].kind, v, viewer, dates, s);
        var p := ParseCleanFieldValue(fields[0].kind, v, viewer, dates, s);
        if p.Done? {
          PrepareFieldsKeepsValid(fields[1..], record, viewer, dates, acc[fields[0].name := p.value], p.state);
        }
    }
  }

  lemma PrepareDictKeepsValid(e: Entity, record: Mapping, viewer: Option<Viewer>, dates: Dates, s: State)
    requires Valid(s)
    ensures Valid(PrepareDict(e, record, viewer, dates, s).state)
  {
    PrepareFieldsKeepsValid(TrackedFields(DeclaredFields(e)), record, viewer, dates, map[], s);
  }

  /** `fields[i]` is the last field of its name: the assignment of
      models.py:87 that the dict keeps. */
  predicate LastNamed(fields: seq<FieldSpec>, i: int)
  {
    0 <= i < |fields| && forall j :: i < j < |fields| ==> fields[j].name != fields[i].name
  }

  /** `prepared` holds, under `f`'s name, the record's value for `f`
      coerced as `parse_clean_field_value` coerces it in store `s`. */
  predicate Coerced(f: FieldSpec, record: Mapping, viewer: Option<Viewer>, dates: Dates,
                    prepared: map<string, Cell>, s: State)
  {
    f.name in prepared && Get(record, f.name).Some?
    && ParseCleanFieldValue(f.kind, Get(record, f.name).value, viewer, dates, s) == Done(prepared[f.name], s)
  }

  /** The loop never touches an entry whose name no remaining field has. */
  lemma {:induction false} PrepareFieldsKeepsOthers(fields: seq<FieldSpec>, record: Mapping, viewer: Option<Viewer>,
                                                    dates: Dates, acc: map<string, Cell>, s: State)
    ensures var r := PrepareFields(fields, record, viewer, dates, acc, s);
      r.Done? ==> forall n :: n in acc && n !in FieldNames(fields) ==> r.value[n] == acc[n]
    decreases |fields|
  {
    if fields != [] {
      var p := PrepareField(fields[0], record, viewer, dates, acc, s);
      if p.Done? {
        assert FieldNames(fields[1..]) <= FieldNames(fields) by {
          assert forall f :: f in fields[1..] ==> f in fields;
        }
        assert fields[0].name in FieldNames(fields);
        PrepareFieldsKeepsOthers(fields[1..], record, viewer, dates, p.value, p.state);
      }
    }
  }

  /** What the loop of models.py:81-89 stores: for every field that is the
      last of its name, the record's value under that name coerced by
      `parse_clean_field_value`; the coercion gives that value again, and
      writes nothing, in the store the loop ends with. */
  lemma {:induction false} PrepareFieldsValues(fields: seq<FieldSpec>, record: Mapping, viewer: Option<Viewer>,
                                               dates: Dates, acc: map<string, Cell>, s: State)
    requires Valid(s)
    ensures var r := PrepareFields(fields, record, viewer, dates, acc, s);
      r.Done? ==> forall i :: LastNamed(fields, i) ==> Coerced(fields[i], record, viewer, dates, r.value, r.state)
    decreases |fields|
  {
    var r := PrepareFields(fields, record, viewer, dates, acc, s);
    if fields != [] && r.Done? {
      var f := fields[0];
      var v := Get(record, f.name).value;
      var p := ParseCleanFieldValue(f.kind, v, viewer, dates, s);
      var next := acc[f.name := p.value];
      assert r == PrepareFields(fields[1..], record, viewer, dates, next, p.state);
      ParseCleanFieldValueKeepsValid(f.kind, v, viewer, dates, s);
      PrepareFieldsValues(fields[1..], record, viewer, dates, next, p.state);
      forall i | LastNamed(fields, i)
        ensures Coerced(fields[i], record, viewer, dates, r.value, r.state)
      {
        if i == 0 {
          assert f.name !in FieldNames(fields[1..]) by {
            forall g | g in fields[1..] ensures g.name != f.name {
              var j :| 0 <= j < |fields[1..]| && fields[1..][j] == g;
              assert fields[j + 1] == g;
            }
          }
          PrepareFieldsKeepsOthers(fields[1..], record, viewer, dates, next, p.state);
          PrepareFieldsKeepsValid(fields[1..], record, viewer, dates, next, p.state);
          ParseCleanFieldValueStable(f.kind, v, viewer, dates, s, r.state);
        } else {
          assert LastNamed(fields[1..], i - 1);
        }
      }
    }
  }

  /** `prepare_dict` for a tracked-field list: once the key check passes,
      every field that is the last of its name holds the record's value
      coerced. */
  lemma PrepareTrackedValues(fields: seq<FieldSpec>, record: Mapping, viewer: Option<Viewer>, dates: Dates, s: State)
    requires Valid(s)
    ensures var r := PrepareTracked(fields, record, viewer, dates, s);
      r.Done? ==> forall i :: LastNamed(fields, i) ==> Coerced(fields[i], record, viewer, dates, r.value, r.state)
  {
    PrepareFieldsValues(fields, record, viewer, dates, map[], s);
  }

  /** `prepare_dict(record, request)`: the prepared dict holds, for each
      tracked field of the model, the record's value coerced by
      `parse_clean_field_value` in the store it leaves. */
  lemma PrepareDictValues(e: Entity, record: Mapping, viewer: Option<Viewer>, dates: Dates, s: State)
    requires Valid(s)
    ensures var fields := TrackedFields(DeclaredFields(e));
      var r := PrepareDict(e, record, viewer, dates, s);
      r.Done? ==> forall i :: LastNamed(fields, i) ==> Coerced(fields[i], record, viewer, dates, r.value, r.state)
  {
    PrepareTrackedValues(TrackedFields(DeclaredFields(e)), record, viewer, dates, s);
  }

  lemma {:induction false} RemoteKeysKeepsValid(kind: Kind, pk: string, batch: seq<Mapping>, acc: seq<Cell>, dates: Dates, s: State)
    requires Valid(s)
    ensures Valid(RemoteKeys(kind, pk, batch, acc, dates, s).state)
    decreases |batch|
  {
    if batch != [] {
      var p := RemoteKey(kind, pk, batch[0], dates, s);
      if Get(batch[0], pk).Some? {
        ParseCleanFieldValueKeepsValid(kind, Get(batch[0], pk).value, None, dates, s);
      }
      if p.Done? {
        RemoteKeysKeepsValid(kind, pk, batch[1..], acc + [p.value], dates, p.state);
      }
    }
  }

  lemma {:induction false} SaveRecordKeepsValid(e: Entity, viewer: Viewer, pk: string, data: map<string, Cell>, diff: Diff, s: State)
    requires Valid(s)
    ensures Valid(SaveRecord(e, viewer, pk, data, diff, s).state)
  {
    if pk in data && data[pk] in diff.add {
      var c := Create(s, e, viewer, data);
      if c.Done? {
        CreateKeepsValid(s, e, viewer, data);
      } else if HandlesIntegrity(e) {
        var h := HandleIntegrityException(e, viewer, data, s);
        if h.Ok? {
          OverwriteKeepsValid(s, e, h.value, viewer, data);
        }
      }
    } else if pk in data && data[pk] in diff.update {
      var g := ObjectsGet(Rows(s, e), viewer, pk, data[pk]);
      if g.Ok? {
        OverwriteKeepsValid(s, e, g.value, viewer, data);
      }
    }
  }

  lemma {:induction false} SaveAllKeepsValid(e: Entity, viewer: Viewer, pk: string, fields: seq<FieldSpec>, batch: seq<Mapping>, diff: Diff, dates: Dates, s: State)
    requires Valid(s)
    ensures Valid(SaveAll(e, viewer, pk, fields, batch, diff, dates, s).state)
    decreases |batch|
  {
    if batch != [] {
      SaveOneKeepsValid(e, viewer, pk, fields, batch[0], diff, dates, s);
      var q := SaveOne(e, viewer, pk, fields, batch[0], diff, dates, s);
      if q.Done? {
        SaveAllKeepsValid(e, viewer, pk, fields, batch[1..], diff, dates, q.state);
      }
    }
  }

  lemma SaveOneKeepsValid(e: Entity, viewer: Viewer, pk: string, fields: seq<FieldSpec>, record: Mapping, diff: Diff, dates: Dates, s: State)
    requires Valid(s)
    ensures Valid(SaveOne(e, viewer, pk, fields, record, diff, dates, s).state)
  {
    PrepareFieldsKeepsValid(fields, record, Some(viewer), dates, map[], s);
    var p := PrepareTracked(fields, record, Some(viewer), dates, s);
    if p.Done? {
      SaveRecordKeepsValid(e, viewer, pk, p.value, diff, p.state);
    }
  }

  lemma ResponseKeysKeepsValid(e: Entity, declared: seq<FieldSpec>, pk: string, batch: seq<Mapping>, dates: Dates, s: State)
    requires Valid(s)
    ensures Valid(ResponseKeys(e, declared, pk, batch, dates, s).state)
  {
    if batch != [] && PrimaryIdentifierClass(e, declared).Ok? {
      RemoteKeysKeepsValid(PrimaryIdentifierClass(e, declared).value.kind, pk, batch, [], dates, s);
    }
  }

  lemma PlanKeepsValid(e: Entity, declared: seq<FieldSpec>, viewer: Viewer, batch: seq<Mapping>, stream: bool, dates: Dates, s: State)
    requires Valid(s)
    ensures Valid(Plan(e, declared, viewer, batch, stream, dates, s).state)
  {
    if PrimaryIdentifier(e).Some? {
      ResponseKeysKeepsValid(e, declared, PrimaryIdentifier(e).value, batch, dates, s);
    }
  }

  /** `save_update_delete` keeps the store consistent: ids stay unique and
      increasing, NOT NULL and UNIQUE constraints hold in every table, and
      each struct table holds every tuple at most once. */
  lemma SaveUpdateDeleteKeepsValid(e: Entity, declared: seq<FieldSpec>, viewer: Viewer, batch: seq<Mapping>, stream: bool, dates: Dates, s: State)
    requires Valid(s)
    ensures Valid(SaveUpdateDelete(e, declared, viewer, batch, stream, dates, s).state)
  {
    var p := Plan(e, declared, viewer, batch, stream, dates, s);
    PlanKeepsValid(e, declared, viewer, batch, stream, dates, s);
    if p.Done? {
      SaveAllKeepsValid(e, viewer, p.value.0, TrackedFields(declared), batch, p.value.1, dates, p.state);
    }
  }

}
