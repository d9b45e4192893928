// The store as an object that the engine updates in place: `Database` holds
// the tables, the struct tables and the id sequence, and its methods run
// `parse_clean_field_value`, `prepare_dict` and `save_update_delete` step
// by step, each proved to leave the object exactly as the corresponding
// function of Store, Coercion and Reconcile says.

module Engine {
  import opened Base
  import opened Values
  import opened Registry
  import opened FqlUtils
  import opened Store
  import opened Coercion
  import opened Reconcile

  /** A method's result together with the store it leaves. */
  function Pack<T>(r: Result<T>, s: State): Step<T>
  {
    match r
    case Ok(v) => Done(v, s)
    case Err(err) => Failed(err, s)
  }

  class Database {
    var tables: map<Entity, seq<Row>>
    var structs: map<StructKind, seq<StructKey>>
    var nextId: nat

    /** An empty database. */
    constructor ()
      ensures Snapshot() == State(map[], map[], 0)
      ensures Consistent()
    {
      tables := map[];
      structs := map[];
      nextId := 0;
    }

    function Snapshot(): State
      reads this
    {
      State(tables, structs, nextId)
    }

    ghost predicate Consistent()
      reads this
    {
      Valid(Snapshot())
    }

    /** `Model(user=viewer, **cells).save()` of a new row. */
    method Create(e: Entity, viewer: Viewer, cells: map<string, Cell>) returns (r: Result<nat>)
      modifies this
      ensures Pack(r, Snapshot()) == Store.Create(old(Snapshot()), e, viewer, cells)
    {
      var rows := if e in tables then tables[e] else [];
      var row := Row(nextId, viewer, cells);
      if !Admissible(e, row) || Violates(e, rows, row, -1) {
        return Err(IntegrityError);
      }
      tables := tables[e := rows + [row]];
      nextId := nextId + 1;
      r := Ok(|rows|);
    }

    /** `Model(user=viewer, id=rows[i].id, **cells).save()`. */
    method Overwrite(e: Entity, i: nat, viewer: Viewer, cells: map<string, Cell>) returns (r: Result<nat>)
      requires i < |Rows(Snapshot(), e)|
      modifies this
      ensures Pack(r, Snapshot()) == Store.Overwrite(old(Snapshot()), e, i, viewer, cells)
    {
      var rows := tables[e];
      var row := Row(rows[i].id, viewer, cells);
      if !Admissible(e, row) || Violates(e, rows, row, i) {
        return Err(IntegrityError);
      }
      tables := tables[e := rows[i := row]];
      r := Ok(i);
    }

    /** `get_or_create` on a struct table. */
    method StructGetOrCreate(k: StructKind, key: StructKey) returns (r: Result<nat>)
      modifies this
      ensures Pack(r, Snapshot()) == Store.StructGetOrCreate(old(Snapshot()), k, key)
    {
      var keys := if k in structs then structs[k] else [];
      var ix := KeyIndices(keys, key);
      if |ix| > 1 {
        return Err(MultipleObjectsReturned);
      } else if |ix| == 1 {
        return Ok(ix[0]);
      } else if !StructAdmissible(k, key) {
        return Err(IntegrityError);
      }
      structs := structs[k := keys + [key]];
      r := Ok(|keys|);
    }

    /** `parse_clean_field_value`: only a struct relation with a truthy value
        writes, through `get_or_create`; every other kind is computed from
        the store as it is. */
    method ParseCleanFieldValue(kind: Kind, v: Value, viewer: Option<Viewer>, dates: Dates) returns (r: Result<Cell>)
      modifies this
      ensures Pack(r, Snapshot()) == Coercion.ParseCleanFieldValue(kind, v, viewer, dates, old(Snapshot()))
    {
      if kind.ForeignKey? && kind.to.Struct? && Truthy(v) {
        var k := kind.to.kind;
        match StructKeyOf(k, v)
        case Err(err) =>
          return Err(err);
        case Ok(key) =>
          var i := StructGetOrCreate(k, key);
          match i
          case Ok(n) =>
            return Ok(StructRef(k, n));
          case Err(err) =>
            return Err(err);
      }
      r := Coercion.ParseCleanFieldValue(kind, v, viewer, dates, Snapshot()).Outcome();
    }

    /** One pass of the loop of `prepare_dict`. */
    method PrepareField(field: FieldSpec, record: Mapping, viewer: Option<Viewer>, dates: Dates, acc: map<string, Cell>)
      returns (r: Result<map<string, Cell>>)
      modifies this
      ensures Pack(r, Snapshot()) == Reconcile.PrepareField(field, record, viewer, dates, acc, old(Snapshot()))
    {
      match Get(record, field.name)
      case None =>
        return Err(KeyError);
      case Some(v) =>
        var c := ParseCleanFieldValue(field.kind, v, viewer, dates);
        if c.Err? {
          return Err(c.error);
        }
        r := Ok(acc[field.name := c.value]);
    }

    /** The loop of `prepare_dict` over the fields `fields`, adding to `acc`. */
    method PrepareFields(fields: seq<FieldSpec>, record: Mapping, viewer: Option<Viewer>, dates: Dates, acc: map<string, Cell>)
      returns (r: Result<map<string, Cell>>)
      modifies this
      ensures Pack(r, Snapshot()) == Reconcile.PrepareFields(fields, record, viewer, dates, acc, old(Snapshot()))
    {
      var data := acc;
      var i := 0;
      assert fields[0..] == fields;
      while i < |fields|
        invariant 0 <= i <= |fields|
        invariant Reconcile.PrepareFields(fields[i..], record, viewer, dates, data, Snapshot())
               == Reconcile.PrepareFields(fields, record, viewer, dates, acc, old(Snapshot()))
      {
        assert fields[i..][0] == fields[i] && fields[i..][1..] == fields[i + 1..];
        var next := PrepareField(fields[i], record, viewer, dates, data);
        if next.Err? {
          return Err(next.error);
        }
        data := next.value;
        i := i + 1;
      }
      r := Ok(data);
    }

    /** The key check of `prepare_dict`, then its loop over the tracked
        fields `fields`. */
    method PrepareTracked(fields: seq<FieldSpec>, record: Mapping, viewer: Option<Viewer>, dates: Dates)
      returns (r: Result<map<string, Cell>>)
      modifies this
      ensures Pack(r, Snapshot()) == Reconcile.PrepareTracked(fields, record, viewer, dates, old(Snapshot()))
    {
      if !SameKeys(Keys(record), Names(fields)) {
        return Err(SchemaMismatch);
      }
      r := PrepareFields(fields, record, viewer, dates, map[]);
    }

    /** `prepare_dict(record, request)`. */
    method PrepareDict(e: Entity, record: Mapping, viewer: Option<Viewer>, dates: Dates)
      returns (r: Result<map<string, Cell>>)
      modifies this
      ensures Pack(r, Snapshot()) == Reconcile.PrepareDict(e, record, viewer, dates, old(Snapshot()))
    {
      r := PrepareTracked(TrackedFields(DeclaredFields(e)), record, viewer, dates);
    }

    /** One record's primary key, coerced without a request. */
    method RemoteKey(kind: Kind, pk: string, record: Mapping, dates: Dates) returns (r: Result<Cell>)
      modifies this
      ensures Pack(r, Snapshot()) == Reconcile.RemoteKey(kind, pk, record, dates, old(Snapshot()))
    {
      match Get(record, pk)
      case None =>
        return Err(KeyError);
      case Some(v) =>
        r := ParseCleanFieldValue(kind, v, None, dates);
    }

    /** The response set of models.py:115-116, coerced one record at a time. */
    method RemoteKeys(kind: Kind, pk: string, batch: seq<Mapping>, dates: Dates) returns (r: Result<seq<Cell>>)
      modifies this
      ensures Pack(r, Snapshot()) == Reconcile.RemoteKeys(kind, pk, batch, [], dates, old(Snapshot()))
    {
      var keys: seq<Cell> := [];
      var i := 0;
      assert batch[0..] == batch;
      while i < |batch|
        invariant 0 <= i <= |batch|
        invariant Reconcile.RemoteKeys(kind, pk, batch[i..], keys, dates, Snapshot())
               == Reconcile.RemoteKeys(kind, pk, batch, [], dates, old(Snapshot()))
      {
        assert batch[i..][0] == batch[i] && batch[i..][1..] == batch[i + 1..];
        var c := RemoteKey(kind, pk, batch[i], dates);
        if c.Err? {
          return Err(c.error);
        }
        keys := keys + [c.value];
        i := i + 1;
      }
      r := Ok(keys);
    }

    /** One record's write (models.py:138-160). */
    method SaveRecord(e: Entity, viewer: Viewer, pk: string, data: map<string, Cell>, diff: Diff) returns (r: Result<()>)
      modifies this
      ensures Pack(r, Snapshot()) == Reconcile.SaveRecord(e, viewer, pk, data, diff, old(Snapshot()))
    {
      if pk !in data {
        return Err(KeyError);
      }
      if data[pk] in diff.add {
        var c := Create(e, viewer, data);
        if c.Ok? {
          return Ok(());
        }
        if !HandlesIntegrity(e) {
          return Err(AttributeError);
        }
        var h := HandleIntegrityException(e, viewer, data, Snapshot());
        if h.Err? {
          return Err(h.error);
        }
        var o := Overwrite(e, h.value, viewer, data);
        r := if o.Ok? then Ok(()) else Err(o.error);
      } else if data[pk] in diff.update {
        var g := ObjectsGet(Rows(Snapshot(), e), viewer, pk, data[pk]);
        if g.Err? {
          return Err(g.error);
        }
        var o := Overwrite(e, g.value, viewer, data);
        r := if o.Ok? then Ok(()) else Err(o.error);
      } else {
        r := Ok(());
      }
    }

    /** models.py:104-129: the context, the comparison rows, the response
        set and the add, update and delete lists. */
    method Plan(e: Entity, declared: seq<FieldSpec>, viewer: Viewer, batch: seq<Mapping>, stream: bool, dates: Dates) returns (r: Result<(string, Diff)>)
      modifies this
      ensures Pack(r, Snapshot()) == Reconcile.Plan(e, declared, viewer, batch, stream, dates, old(Snapshot()))
    {
      var ctx := ContextUid(e, batch);
      if ctx.Err? {
        return Err(ctx.error);
      }
      var rows := LocalFqlQuery(e, viewer, ctx.value, Snapshot());
      if rows.Err? {
        return Err(rows.error);
      }
      if PrimaryIdentifier(e).None? {
        return Err(AttributeError);
      }
      var pk := PrimaryIdentifier(e).value;
      var keys: seq<Cell> := [];
      if batch != [] {
        var f := PrimaryIdentifierClass(e, declared);
        if f.Err? {
          return Err(f.error);
        }
        var k := RemoteKeys(f.value.kind, pk, batch, dates);
        if k.Err? {
          return Err(k.error);
        }
        keys := k.value;
      }
      r := Ok((pk, KeyDiff((set c | c in keys), (set c | c in LocalKeys(rows.value, pk)), stream)));
    }

    /** The loop of models.py:136-160: each record is prepared and written;
        the first exception ends the loop with the earlier writes kept. */
    method SaveAll(e: Entity, viewer: Viewer, pk: string, fields: seq<FieldSpec>, batch: seq<Mapping>, diff: Diff, dates: Dates) returns (r: Result<()>)
      modifies this
      ensures Pack(r, Snapshot()) == Reconcile.SaveAll(e, viewer, pk, fields, batch, diff, dates, old(Snapshot()))
    {
      assert batch[0..] == batch;
      var i := 0;
      while i < |batch|
        invariant 0 <= i <= |batch|
        invariant Reconcile.SaveAll(e, viewer, pk, fields, batch[i..], diff, dates, Snapshot())
               == Reconcile.SaveAll(e, viewer, pk, fields, batch, diff, dates, old(Snapshot()))
      {
        assert batch[i..][0] == batch[i] && batch[i..][1..] == batch[i + 1..];
        var data := PrepareTracked(fields, batch[i], Some(viewer), dates);
        if data.Err? {
          return Err(data.error);
        }
        var w := SaveRecord(e, viewer, pk, data.value, diff);
        if w.Err? {
          return Err(w.error);
        }
        i := i + 1;
      }
      r := Ok(());
    }

    /** `save_update_delete(request, response_data, stream_nature)`: the
        plan, then the writes. A consistent database stays consistent. */
    method SaveUpdateDelete(e: Entity, declared: seq<FieldSpec>, viewer: Viewer, batch: seq<Mapping>, stream: bool, dates: Dates) returns (r: Result<()>)
      modifies this
      ensures Pack(r, Snapshot()) == Reconcile.SaveUpdateDelete(e, declared, viewer, batch, stream, dates, old(Snapshot()))
      ensures old(Consistent()) ==> Consistent()
    {
      ghost var s0 := Snapshot();
      if Valid(s0) {
        SaveUpdateDeleteKeepsValid(e, declared, viewer, batch, stream, dates, s0);
      }
      var p := Plan(e, declared, viewer, batch, stream, dates);
      if p.Err? {
        return Err(p.error);
      }
      r := SaveAll(e, viewer, p.value.0, TrackedFields(declared), batch, p.value.1, dates);
    }

    /** One FQL response handed over as the guarded views do it. */
    method Sync(e: Entity, viewer: Viewer, batch: seq<Mapping>, stream: bool, dates: Dates) returns (r: Result<()>)
      modifies this
      ensures Pack(r, Snapshot()) == Reconcile.Sync(e, viewer, batch, stream, dates, old(Snapshot()))
      ensures old(Consistent()) ==> Consistent()
    {
      if batch == [] {
        return Ok(());
      }
      r := SaveUpdateDelete(e, DeclaredFields(e), viewer, batch, stream, dates);
    }
  }
}
