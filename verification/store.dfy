// The local store as the engine sees it through Django's ORM: one table of
// rows per entity, in storage order, each row carrying its storage id, its
// owning viewer and its coerced column values; and the shared struct tables
// that `get_or_create` fills. Reads are `objects.filter`/`objects.get`;
// writes are `save()` of a new or of an existing row, which the database
// refuses when a UNIQUE or NOT NULL constraint would break.

module Store {
  import opened Base
  import opened Values
  import opened Registry

  /** A coerced column value: the decoded value itself, a parsed date, a
      reference to a row of an entity (by storage id), or to a struct row. */
  datatype Cell =
    | Raw(v: Value)
    | At(t: DateTime)
    | Ref(entity: Entity, id: nat)
    | StructRef(kind: StructKind, index: nat)

  /** A stored row: storage id, the viewer column `user`, the tracked columns. */
  datatype Row = Row(id: nat, user: Viewer, cells: map<string, Cell>)

  /** A struct row is the tuple of its sub-field values. */
  type StructKey = seq<Value>

  datatype State = State(
    tables: map<Entity, seq<Row>>,
    structs: map<StructKind, seq<StructKey>>,
    nextId: nat)

  /** The outcome of an operation that may write: a value or the exception
      raised, with the store as the operation leaves it either way (each
      `save()` is committed on its own, so a later exception keeps it). */
  datatype Step<T> = Done(value: T, state: State) | Failed(error: Error, state: State)
  {
    function Outcome(): Result<T>
    {
      if Done? then Ok(value) else Err(error)
    }
  }

  function Rows(s: State, e: Entity): seq<Row>
  {
    if e in s.tables then s.tables[e] else []
  }

  function StructRows(s: State, k: StructKind): seq<StructKey>
  {
    if k in s.structs then s.structs[k] else []
  }

  /** `getattr(row, c)`; a column the row does not hold reads as NULL. */
  function Column(r: Row, c: string): Cell
  {
    if c == "id" then Raw(Int(r.id))
    else if c == "user" then Raw(Int(r.user))
    else if c in r.cells then r.cells[c] else Raw(Null)
  }

  /** The `user=viewer, col=c` lookup; a `None` value matches NULL, as
      Django turns `col=None` into `col IS NULL`. */
  predicate Matches(r: Row, viewer: Viewer, col: string, c: Cell)
  {
    r.user == viewer && Column(r, col) == c
  }

  /** `objects.filter(user=viewer, col=c)`, in storage order. */
  function Filter(rows: seq<Row>, viewer: Viewer, col: string, c: Cell): (r: seq<Row>)
    ensures forall x :: x in r <==> x in rows && Matches(x, viewer, col, c)
    ensures |r| <= |rows|
  {
    if rows == [] then []
    else (if Matches(rows[0], viewer, col, c) then [rows[0]] else []) + Filter(rows[1..], viewer, col, c)
  }

  /** Positions of the rows the lookup matches, in increasing order. */
  function MatchIndices(rows: seq<Row>, viewer: Viewer, col: string, c: Cell): (ix: seq<nat>)
    ensures forall k :: 0 <= k < |ix| ==> ix[k] < |rows| && Matches(rows[ix[k]], viewer, col, c)
    ensures forall i :: 0 <= i < |rows| && Matches(rows[i], viewer, col, c) ==> i in ix
    ensures forall k, l :: 0 <= k < l < |ix| ==> ix[k] < ix[l]
  {
    if rows == [] then []
    else
      var front := MatchIndices(rows[..|rows| - 1], viewer, col, c);
      if Matches(rows[|rows| - 1], viewer, col, c) then front + [|rows| - 1] else front
  }

  /** `objects.get(user=viewer, col=c)`: the position of the one matching row. */
  function ObjectsGet(rows: seq<Row>, viewer: Viewer, col: string, c: Cell): (r: Result<nat>)
    ensures r.Ok? ==> r.value < |rows| && Matches(rows[r.value], viewer, col, c)
    ensures r.Ok? ==> forall j :: 0 <= j < |rows| && j != r.value ==> !Matches(rows[j], viewer, col, c)
    ensures r == Err(DoesNotExist) <==> forall j :: 0 <= j < |rows| ==> !Matches(rows[j], viewer, col, c)
    ensures r == Err(MultipleObjectsReturned) <==>
      exists j, k :: 0 <= j < k < |rows| && Matches(rows[j], viewer, col, c) && Matches(rows[k], viewer, col, c)
    ensures r.Ok? || r == Err(DoesNotExist) || r == Err(MultipleObjectsReturned)
  {
    var ix := MatchIndices(rows, viewer, col, c);
    if |ix| == 0 then Err(DoesNotExist)
    else if |ix| > 1 then
      assert Matches(rows[ix[0]], viewer, col, c) && Matches(rows[ix[1]], viewer, col, c);
      Err(MultipleObjectsReturned)
    else Ok(ix[0])
  }

  /** Two rows collide under a UNIQUE constraint: they agree on each of its
      columns and none of those is NULL (SQL lets NULLs repeat). */
  predicate Clash(u: UniqueConstraint, a: Row, b: Row)
  {
    forall c :: c in u.columns ==> Column(a, c) == Column(b, c) && Column(a, c) != Raw(Null)
  }

  /** `r` would collide with a stored row other than the one at `skip`. */
  predicate Violates(e: Entity, rows: seq<Row>, r: Row, skip: int)
  {
    exists i, u :: 0 <= i < |rows| && i != skip && u in UniqueTogether(e) && Clash(u, rows[i], r)
  }

  /** The NOT NULL columns of the entity hold a value. */
  predicate Admissible(e: Entity, r: Row)
  {
    forall c :: c in NotNull(e) ==> Column(r, c) != Raw(Null)
  }

  /** `Model(user=viewer, **cells).save()`: an INSERT under a fresh storage id,
      appended to the table; the position of the new row is returned. */
  function Create(s: State, e: Entity, viewer: Viewer, cells: map<string, Cell>): (r: Step<nat>)
    ensures r.Failed? <==>
      !Admissible(e, Row(s.nextId, viewer, cells)) || Violates(e, Rows(s, e), Row(s.nextId, viewer, cells), -1)
    ensures r.Failed? ==> r == Failed(IntegrityError, s)
    ensures r.Done? ==> r.value == |Rows(s, e)| && Rows(r.state, e) == Rows(s, e) + [Row(s.nextId, viewer, cells)]
    ensures r.Done? ==> r.state.structs == s.structs && r.state.nextId == s.nextId + 1
    ensures r.Done? ==> forall e' :: e' != e ==> Rows(r.state, e') == Rows(s, e')
  {
    var row := Row(s.nextId, viewer, cells);
    var rows := Rows(s, e);
    if !Admissible(e, row) || Violates(e, rows, row, -1) then Failed(IntegrityError, s)
    else Done(|rows|, s.(tables := s.tables[e := rows + [row]], nextId := s.nextId + 1))
  }

  /** `Model(user=viewer, id=rows[i].id, **cells).save()`: an UPDATE of the row
      at position `i` that keeps its storage id and replaces everything else. */
  function Overwrite(s: State, e: Entity, i: nat, viewer: Viewer, cells: map<string, Cell>): (r: Step<nat>)
    requires i < |Rows(s, e)|
    ensures r.Failed? <==>
      !Admissible(e, Row(Rows(s, e)[i].id, viewer, cells)) || Violates(e, Rows(s, e), Row(Rows(s, e)[i].id, viewer, cells), i)
    ensures r.Failed? ==> r == Failed(IntegrityError, s)
    ensures r.Done? ==> r.value == i && Rows(r.state, e) == Rows(s, e)[i := Row(Rows(s, e)[i].id, viewer, cells)]
    ensures r.Done? ==> r.state.structs == s.structs && r.state.nextId == s.nextId
    ensures r.Done? ==> forall e' :: e' != e ==> Rows(r.state, e') == Rows(s, e')
  {
    var rows := Rows(s, e);
    var row := Row(rows[i].id, viewer, cells);
    if !Admissible(e, row) || Violates(e, rows, row, i) then Failed(IntegrityError, s)
    else Done(i, s.(tables := s.tables[e := rows[i := row]]))
  }

  /** Positions at which `key` is stored. */
  function KeyIndices(keys: seq<StructKey>, key: StructKey): (ix: seq<nat>)
    ensures forall k :: 0 <= k < |ix| ==> ix[k] < |keys| && keys[ix[k]] == key
    ensures forall i :: 0 <= i < |keys| && keys[i] == key ==> i in ix
    ensures key !in keys ==> ix == []
    ensures DistinctKeys(keys) && key in keys ==> |ix| == 1
  {
    if keys == [] then []
    else
      var front := KeyIndices(keys[..|keys| - 1], key);
      if keys[|keys| - 1] == key then front + [|keys| - 1] else front
  }

  /** `StructAgeRange.min` is the one struct column declared NOT NULL. */
  predicate StructAdmissible(k: StructKind, key: StructKey)
  {
    k == StructAgeRange ==> |key| > 0 && key[0] != Null
  }

  /** `get_or_create(**key)[0]` on a shared struct table: the stored tuple
      equal to `key`, otherwise a new one appended. No viewer takes part. */
  function StructGetOrCreate(s: State, k: StructKind, key: StructKey): (r: Step<nat>)
    ensures r.Done? ==> r.value < |StructRows(r.state, k)| && StructRows(r.state, k)[r.value] == key
    ensures r.Done? && key in StructRows(s, k) ==> r.state == s
    ensures |KeyIndices(StructRows(s, k), key)| == 1 ==> r.Done? && r.state == s
    ensures key !in StructRows(s, k) && StructAdmissible(k, key) ==> r.Done? && r.value == |StructRows(s, k)|
    ensures r.Failed? <==>
      |KeyIndices(StructRows(s, k), key)| > 1 || (key !in StructRows(s, k) && !StructAdmissible(k, key))
    ensures r.Failed? ==> r.state == s && (r.error == IntegrityError || r.error == MultipleObjectsReturned)
    ensures r.state.tables == s.tables && r.state.nextId == s.nextId
    ensures forall k' :: StructRows(s, k') <= StructRows(r.state, k')
  {
    var keys := StructRows(s, k);
    var ix := KeyIndices(keys, key);
    if |ix| > 1 then Failed(MultipleObjectsReturned, s)
    else if |ix| == 1 then Done(ix[0], s)
    else if !StructAdmissible(k, key) then Failed(IntegrityError, s)
    else Done(|keys|, s.(structs := s.structs[k := keys + [key]]))
  }

  /** The invariants the database keeps for one table. */
  predicate TableValid(e: Entity, rows: seq<Row>, nextId: nat)
  {
    (forall i, j :: 0 <= i < j < |rows| ==> rows[i].id < rows[j].id)
    && (forall i :: 0 <= i < |rows| ==> rows[i].id < nextId)
    && (forall i :: 0 <= i < |rows| ==> Admissible(e, rows[i]))
    && (forall i, j, u :: 0 <= i < j < |rows| && u in UniqueTogether(e) ==> !Clash(u, rows[i], rows[j]))
  }

  predicate DistinctKeys(keys: seq<StructKey>)
  {
    forall i, j :: 0 <= i < j < |keys| ==> keys[i] != keys[j]
  }

  /** Storage ids are unique and below the id sequence; every stored row
      satisfies its table's constraints; no struct tuple is stored twice. */
  predicate Valid(s: State)
  {
    (forall e :: TableValid(e, Rows(s, e), s.nextId))
    && (forall k :: DistinctKeys(StructRows(s, k)))
  }

  lemma ClashSymmetric(u: UniqueConstraint, a: Row, b: Row)
    ensures Clash(u, a, b) <==> Clash(u, b, a)
  {
  }

  /** Raising the id sequence keeps a table valid. */
  lemma TableValidRaise(e: Entity, rows: seq<Row>, n: nat, m: nat)
    requires TableValid(e, rows, n) && n <= m
    ensures TableValid(e, rows, m)
  {
  }

  /** Appending a row under the next id that passes the constraint checks
      keeps a table valid. */
  lemma AppendKeepsTable(e: Entity, rows: seq<Row>, row: Row, n: nat)
    requires TableValid(e, rows, n) && row.id == n
    requires Admissible(e, row) && !Violates(e, rows, row, -1)
    ensures TableValid(e, rows + [row], n + 1)
  {
    var rows' := rows + [row];
    forall i, j, u | 0 <= i < j < |rows'| && u in UniqueTogether(e)
      ensures !Clash(u, rows'[i], rows'[j])
    {
      assert rows'[i] == rows[i];
      if j < |rows| {
        assert rows'[j] == rows[j];
      }
    }
  }

  /** Replacing the row at `i` by one with the same id that passes the
      constraint checks, ignoring the replaced row, keeps a table valid. */
  lemma ReplaceKeepsTable(e: Entity, rows: seq<Row>, i: nat, row: Row, n: nat)
    requires TableValid(e, rows, n) && i < |rows| && row.id == rows[i].id
    requires Admissible(e, row) && !Violates(e, rows, row, i)
    ensures TableValid(e, rows[i := row], n)
  {
    var rows' := rows[i := row];
    forall a, b, u | 0 <= a < b < |rows'| && u in UniqueTogether(e)
      ensures !Clash(u, rows'[a], rows'[b])
    {
      if a == i {
        ClashSymmetric(u, row, rows[b]);
      }
    }
  }

  /** A successful create keeps the store valid. */
  lemma {:induction false} CreateKeepsValid(s: State, e: Entity, viewer: Viewer, cells: map<string, Cell>)
    requires Valid(s)
    ensures Valid(Create(s, e, viewer, cells).state)
  {
    var r := Create(s, e, viewer, cells);
    if r.Done? {
      var t := r.state;
      forall e' ensures TableValid(e', Rows(t, e'), t.nextId) {
        if e' == e {
          AppendKeepsTable(e, Rows(s, e), Row(s.nextId, viewer, cells), s.nextId);
        } else {
          TableValidRaise(e', Rows(s, e'), s.nextId, t.nextId);
        }
      }
      forall k ensures DistinctKeys(StructRows(t, k)) {
        assert StructRows(t, k) == StructRows(s, k);
      }
    }
  }

  /** A successful overwrite keeps the store valid. */
  lemma {:induction false} OverwriteKeepsValid(s: State, e: Entity, i: nat, viewer: Viewer, cells: map<string, Cell>)
    requires Valid(s) && i < |Rows(s, e)|
    ensures Valid(Overwrite(s, e, i, viewer, cells).state)
  {
    var r := Overwrite(s, e, i, viewer, cells);
    if r.Done? {
      var t := r.state;
      forall e' ensures TableValid(e', Rows(t, e'), t.nextId) {
        if e' == e {
          ReplaceKeepsTable(e, Rows(s, e), i, Row(Rows(s, e)[i].id, viewer, cells), s.nextId);
        } else {
          assert TableValid(e', Rows(s, e'), s.nextId);
        }
      }
      forall k ensures DistinctKeys(StructRows(t, k)) {
        assert StructRows(t, k) == StructRows(s, k);
      }
    }
  }

  /** A get-or-create keeps the store valid: it adds a tuple only when none
      equal to it is stored. */
  lemma {:induction false} StructGetOrCreateKeepsValid(s: State, k: StructKind, key: StructKey)
    requires Valid(s)
    ensures Valid(StructGetOrCreate(s, k, key).state)
  {
    var t := StructGetOrCreate(s, k, key).state;
    forall e ensures TableValid(e, Rows(t, e), t.nextId) {
      assert Rows(t, e) == Rows(s, e);
    }
    forall k' ensures DistinctKeys(StructRows(t, k')) {
      assert DistinctKeys(StructRows(s, k'));
      if k' == k && t != s {
        var keys := StructRows(s, k);
        assert |KeyIndices(keys, key)| == 0;
        assert key !in keys;
        assert StructRows(t, k) == keys + [key];
      } else {
        assert StructRows(t, k') == StructRows(s, k');
      }
    }
  }

  /** A tuple appended to a table where it was missing is found once, at the end. */
  lemma AppendedKeyFound(keys: seq<StructKey>, key: StructKey)
    requires KeyIndices(keys, key) == []
    ensures KeyIndices(keys + [key], key) == [|keys|]
  {
    assert (keys + [key])[..|keys|] == keys;
  }

  /** `get_or_create` is idempotent: asked again for the same tuple it
      returns the same row and writes nothing. */
  lemma StructGetOrCreateIdempotent(s: State, k: StructKind, key: StructKey)
    ensures var r := StructGetOrCreate(s, k, key);
      r.Done? ==> StructGetOrCreate(r.state, k, key) == Done(r.value, r.state)
  {
    var keys := StructRows(s, k);
    if KeyIndices(keys, key) == [] && StructAdmissible(k, key) {
      var t := s.(structs := s.structs[k := keys + [key]]);
      assert StructGetOrCreate(s, k, key) == Done(|keys|, t);
      assert StructRows(t, k) == keys + [key];
      AppendedKeyFound(keys, key);
    }
  }

  /** One `get_or_create` adds at most one tuple, at the end of one struct
      table, and changes no other table. */
  lemma StructGetOrCreateGrowth(s: State, k: StructKind, key: StructKey)
    ensures var r := StructGetOrCreate(s, k, key);
      |StructRows(r.state, k)| <= |StructRows(s, k)| + 1
      && StructRows(s, k) <= StructRows(r.state, k)
      && forall k' :: k' != k ==> StructRows(r.state, k') == StructRows(s, k')
  {
  }

  /** A tuple `get_or_create` found or stored is found again, at the same
      position and without a write, in any later state whose copy of that
      table extends the one it left and holds no tuple twice. */
  lemma StructGetOrCreateStable(s: State, k: StructKind, key: StructKey, u: State)
    requires StructGetOrCreate(s, k, key).Done?
    requires DistinctKeys(StructRows(u, k)) && StructRows(StructGetOrCreate(s, k, key).state, k) <= StructRows(u, k)
    ensures StructGetOrCreate(u, k, key) == Done(StructGetOrCreate(s, k, key).value, u)
  {
    var i := StructGetOrCreate(s, k, key).value;
    var keys := StructRows(u, k);
    assert keys[i] == key;
    var ix := KeyIndices(keys, key);
    assert |ix| == 1 && keys[ix[0]] == key;
  }
}
