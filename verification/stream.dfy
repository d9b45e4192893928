// apps/fbschema/models.py:136-154 and 438-453 for `FacebookStream`: the
// viewer's stream rows are unique on `("user", "post_id")`, and a record whose
// `post_id` the viewer already holds is written over that row by
// `handle_integrity_exception`. These lemmas follow one `post_id` through one
// record and then through a whole batch.

module Streams {
  import opened Base
  import opened Values
  import opened Registry
  import opened Store
  import opened Coercion
  import opened Reconcile

  /** A stream row of the viewer clashes exactly with the viewer's rows
      holding the same non-NULL `post_id`. */
  lemma StreamClash(a: Row, b: Row)
    ensures (exists u :: u in UniqueTogether(FacebookStream) && Clash(u, a, b)) <==>
      a.user == b.user && Column(a, "post_id") == Column(b, "post_id") && Column(a, "post_id") != Raw(Null)
  {
    var u := UniqueConstraint(["user", "post_id"]);
    assert UniqueTogether(FacebookStream) == [u];
    assert forall c :: c in u.columns <==> c == "user" || c == "post_id";
    if a.user == b.user && Column(a, "post_id") == Column(b, "post_id") && Column(a, "post_id") != Raw(Null) {
      assert Clash(u, a, b);
    }
    if Clash(u, a, b) {
      assert Column(a, "user") == Column(b, "user");
    }
  }

  /** A viewer without a stream row for `key` can store one. */
  lemma {:induction false} StreamNoClash(rows: seq<Row>, viewer: Viewer, key: Cell, row: Row, skip: int)
    requires row.user == viewer && Column(row, "post_id") == key
    requires forall j :: 0 <= j < |rows| && j != skip ==> !Matches(rows[j], viewer, "post_id", key)
    ensures !Violates(FacebookStream, rows, row, skip)
  {
    forall i, u | 0 <= i < |rows| && i != skip && u in UniqueTogether(FacebookStream) ensures !Clash(u, rows[i], row) {
      StreamClash(rows[i], row);
    }
  }

  /** Row `i` is the only stream row of the viewer holding `key`. */
  predicate Holds(s: State, viewer: Viewer, key: Cell, i: nat)
  {
    var rows := Rows(s, FacebookStream);
    i < |rows| && Matches(rows[i], viewer, "post_id", key)
    && forall j :: 0 <= j < |rows| && j != i ==> !Matches(rows[j], viewer, "post_id", key)
  }

  /** No stream row of the viewer holds `key`. */
  predicate Absent(s: State, viewer: Viewer, key: Cell)
  {
    forall j :: 0 <= j < |Rows(s, FacebookStream)| ==> !Matches(Rows(s, FacebookStream)[j], viewer, "post_id", key)
  }

  /** Between `s` and `t` the viewer's stream rows holding `key` stay as
      they were and no other row comes to hold it. */
  predicate KeyRowsKept(s: State, t: State, viewer: Viewer, key: Cell)
  {
    var before, after := Rows(s, FacebookStream), Rows(t, FacebookStream);
    |before| <= |after|
    && (forall j :: 0 <= j < |before| && Matches(before[j], viewer, "post_id", key) ==> after[j] == before[j])
    && (forall j :: 0 <= j < |after| && Matches(after[j], viewer, "post_id", key) ==>
          j < |before| && Matches(before[j], viewer, "post_id", key))
  }

  // ------------------------------------------------------------ one record

  /** A record with a `post_id` the viewer does not hold is inserted under
      the next id. */
  lemma StreamFirstInsert(viewer: Viewer, d: map<string, Cell>, diff: Diff, s: State)
    requires "post_id" in d && d["post_id"] in diff.add && Absent(s, viewer, d["post_id"])
    ensures var r := SaveRecord(FacebookStream, viewer, "post_id", d, diff, s);
      r.Done? && Rows(r.state, FacebookStream) == Rows(s, FacebookStream) + [Row(s.nextId, viewer, d)]
      && r.state.nextId == s.nextId + 1
  {
    var row := Row(s.nextId, viewer, d);
    StreamNoClash(Rows(s, FacebookStream), viewer, d["post_id"], row, -1);
    assert Create(s, FacebookStream, viewer, d).Done?;
  }

  /** A record in the add list whose non-NULL `post_id` the viewer holds in
      exactly one row, wherever that row stands: the insert clashes, the
      resolver finds the row, and the record is written over it under the
      row's id. Nothing else in the table changes. */
  lemma StreamSecondMerges(viewer: Viewer, d: map<string, Cell>, diff: Diff, t: State, i: nat)
    requires "post_id" in d && d["post_id"] != Raw(Null) && d["post_id"] in diff.add
    requires Holds(t, viewer, d["post_id"], i)
    ensures var r := SaveRecord(FacebookStream, viewer, "post_id", d, diff, t);
      r.Done? && r.state.nextId == t.nextId
      && Rows(r.state, FacebookStream) == Rows(t, FacebookStream)[i := Row(Rows(t, FacebookStream)[i].id, viewer, d)]
  {
    var e, key := FacebookStream, d["post_id"];
    var rows := Rows(t, e);
    var inserted := Row(t.nextId, viewer, d);
    StreamClash(rows[i], inserted);
    assert Violates(e, rows, inserted, -1);
    assert Create(t, e, viewer, d).Failed?;
    assert HandleIntegrityException(e, viewer, d, t) == Ok(i);
    StreamNoClash(rows, viewer, key, Row(rows[i].id, viewer, d), i);
    assert Overwrite(t, e, i, viewer, d).Done?;
  }

  /** Two consecutive records that carry the same non-NULL `post_id`, new to
      the viewer: the first is inserted, the second is written over it. One
      row remains, with the first row's id and the second record's data. */
  lemma StreamDuplicateMerges(viewer: Viewer, d1: map<string, Cell>, d2: map<string, Cell>, diff: Diff, s: State)
    requires "post_id" in d1 && "post_id" in d2 && d1["post_id"] == d2["post_id"]
    requires d1["post_id"] != Raw(Null) && d1["post_id"] in diff.add && Absent(s, viewer, d1["post_id"])
    ensures var r1 := SaveRecord(FacebookStream, viewer, "post_id", d1, diff, s);
      var r2 := SaveRecord(FacebookStream, viewer, "post_id", d2, diff, r1.state);
      r1.Done? && r2.Done?
      && Rows(r2.state, FacebookStream) == Rows(s, FacebookStream) + [Row(s.nextId, viewer, d2)]
      && r2.state.nextId == s.nextId + 1
  {
    StreamFirstInsert(viewer, d1, diff, s);
    var r1 := SaveRecord(FacebookStream, viewer, "post_id", d1, diff, s);
    var n := |Rows(s, FacebookStream)|;
    assert Holds(r1.state, viewer, d1["post_id"], n);
    StreamSecondMerges(viewer, d2, diff, r1.state, n);
    assert (Rows(s, FacebookStream) + [Row(s.nextId, viewer, d1)])[n := Row(s.nextId, viewer, d2)]
        == Rows(s, FacebookStream) + [Row(s.nextId, viewer, d2)];
  }

  /** Writing `d` over a row that holds a key other than `key`, or adding
      it as a new row, keeps the rows holding `key`. */
  lemma OtherKeyWrite(s: State, t: State, viewer: Viewer, d: map<string, Cell>, key: Cell, m: int)
    requires "post_id" in d && d["post_id"] != key
    requires var before := Rows(s, FacebookStream);
      if 0 <= m < |before| then
        Matches(before[m], viewer, "post_id", d["post_id"])
        && Rows(t, FacebookStream) == before[m := Row(before[m].id, viewer, d)]
      else Rows(t, FacebookStream) == before + [Row(s.nextId, viewer, d)]
    ensures KeyRowsKept(s, t, viewer, key)
  {
  }

  /** A record that does not carry `key` leaves the viewer's rows holding
      `key` alone and gives no other row that key. */
  lemma StreamOtherKey(viewer: Viewer, d: map<string, Cell>, diff: Diff, t: State, key: Cell)
    requires "post_id" in d ==> d["post_id"] != key
    ensures var r := SaveRecord(FacebookStream, viewer, "post_id", d, diff, t);
      r.Done? ==> KeyRowsKept(t, r.state, viewer, key)
  {
    var e := FacebookStream;
    var r := SaveRecord(e, viewer, "post_id", d, diff, t);
    if r.Done? && (d["post_id"] in diff.add || d["post_id"] in diff.update) {
      var c := Create(t, e, viewer, d);
      if d["post_id"] in diff.add && c.Done? {
        OtherKeyWrite(t, r.state, viewer, d, key, -1);
      } else {
        var m := if d["post_id"] in diff.add then HandleIntegrityException(e, viewer, d, t).value
                 else ObjectsGet(Rows(t, e), viewer, "post_id", d["post_id"]).value;
        OtherKeyWrite(t, r.state, viewer, d, key, m);
      }
    }
  }

  // --------------------------------------------------------- whole batches

  /** Every tracked field is coerced without a lookup, as for the stream
      table, whose fields hold no relation. */
  predicate NoRelations(fields: seq<FieldSpec>)
  {
    forall f :: f in fields ==> !f.kind.ForeignKey?
  }

  lemma StreamFieldsPlain()
    ensures forall f :: f in StreamFields() ==> !f.kind.ForeignKey?
  {
  }

  /** Every tracked field of the stream model (every declared field outside
      `ignore_fields`) is coerced without a lookup: the one relation every
      model has, `user`, is ignored. */
  lemma StreamHasNoRelations(f: FieldSpec)
    requires f in DeclaredFields(FacebookStream) && f.name !in IgnoreFields
    ensures !f.kind.ForeignKey?
  {
    var first := F("action_links", TextField);
    assert f in Declared(first, StreamFields());
    assert f == first || f in StreamFields();
    StreamFieldsPlain();
  }

  const Blank := State(map[], map[], 0)

  /** `prepare_dict` of a record for fields without relations, which reads
      nothing from the store. */
  function Prepared(fields: seq<FieldSpec>, record: Mapping, viewer: Viewer, dates: Dates): Result<map<string, Cell>>
  {
    PrepareTracked(fields, record, Some(viewer), dates, Blank).Outcome()
  }

  lemma ParseStateless(kind: Kind, v: Value, viewer: Option<Viewer>, dates: Dates, s: State, t: State)
    requires !kind.ForeignKey?
    ensures ParseCleanFieldValue(kind, v, viewer, dates, s).state == s
    ensures ParseCleanFieldValue(kind, v, viewer, dates, s).Outcome() == ParseCleanFieldValue(kind, v, viewer, dates, t).Outcome()
  {
  }

  lemma {:induction false} PrepareFieldsStateless(fields: seq<FieldSpec>, record: Mapping, viewer: Option<Viewer>,
                                                  dates: Dates, acc: map<string, Cell>, s: State, t: State)
    requires NoRelations(fields)
    ensures PrepareFields(fields, record, viewer, dates, acc, s).state == s
    ensures PrepareFields(fields, record, viewer, dates, acc, s).Outcome()
         == PrepareFields(fields, record, viewer, dates, acc, t).Outcome()
    decreases |fields|
  {
    if fields != [] {
      assert fields[0] in fields;
      match Get(record, fields[0].name)
      case None =>
      case Some(v) =>
        ParseStateless(fields[0].kind, v, viewer, dates, s, t);
        var p := ParseCleanFieldValue(fields[0].kind, v, viewer, dates, s);
        if p.Done? {
          assert NoRelations(fields[1..]) by {
            forall f | f in fields[1..] ensures !f.kind.ForeignKey? {
              assert f in fields;
            }
          }
          PrepareFieldsStateless(fields[1..], record, viewer, dates, acc[fields[0].name := p.value], s, t);
        }
    }
  }

  /** Without relations, `prepare_dict` leaves the store as it was and
      yields the same outcome whatever the store holds. */
  lemma PrepareTrackedStateless(fields: seq<FieldSpec>, record: Mapping, viewer: Viewer, dates: Dates, s: State)
    requires NoRelations(fields)
    ensures PrepareTracked(fields, record, Some(viewer), dates, s).state == s
    ensures PrepareTracked(fields, record, Some(viewer), dates, s).Outcome() == Prepared(fields, record, viewer, dates)
  {
    PrepareFieldsStateless(fields, record, Some(viewer), dates, map[], s, Blank);
  }

  /** A prepared record that carries `key` as its `post_id`. */
  predicate Carrying(p: Result<map<string, Cell>>, key: Cell)
  {
    p.Ok? && "post_id" in p.value && p.value["post_id"] == key
  }

  /** The batch's records, each prepared. */
  function Preps(fields: seq<FieldSpec>, batch: seq<Mapping>, viewer: Viewer, dates: Dates): (r: seq<Result<map<string, Cell>>>)
    ensures |r| == |batch|
    ensures forall j :: 0 <= j < |batch| ==> r[j] == Prepared(fields, batch[j], viewer, dates)
    decreases |batch|
  {
    if batch == [] then [] else [Prepared(fields, batch[0], viewer, dates)] + Preps(fields, batch[1..], viewer, dates)
  }

  /** The data of the last prepared record that carries `key`; `cells` when
      none does. */
  function LastCarried(preps: seq<Result<map<string, Cell>>>, key: Cell, cells: map<string, Cell>): map<string, Cell>
    decreases |preps|
  {
    if preps == [] then cells
    else LastCarried(preps[1..], key, if Carrying(preps[0], key) then preps[0].value else cells)
  }

  /** `LastCarried` is the data of the record at `j` when no later record
      carries the key, and the given cells when no record does. */
  lemma {:induction false} LastCarriedIsLast(preps: seq<Result<map<string, Cell>>>, key: Cell, cells: map<string, Cell>, j: int)
    requires -1 <= j < |preps|
    requires j >= 0 ==> Carrying(preps[j], key)
    requires forall k :: j < k < |preps| ==> !Carrying(preps[k], key)
    ensures LastCarried(preps, key, cells) == if j >= 0 then preps[j].value else cells
    decreases |preps|
  {
    if preps != [] {
      var next := if Carrying(preps[0], key) then preps[0].value else cells;
      if j <= 0 {
        LastCarriedIsLast(preps[1..], key, next, -1);
      } else {
        LastCarriedIsLast(preps[1..], key, next, j - 1);
      }
    }
  }

  /** One pass of the loop over a stream record, for fields without
      relations: the record prepared independently of the store, then saved. */
  lemma SaveOneStateless(viewer: Viewer, fields: seq<FieldSpec>, record: Mapping, diff: Diff, dates: Dates, t: State)
    requires NoRelations(fields)
    ensures var p := Prepared(fields, record, viewer, dates);
      SaveOne(FacebookStream, viewer, "post_id", fields, record, diff, dates, t)
      == if p.Ok? then SaveRecord(FacebookStream, viewer, "post_id", p.value, diff, t) else Failed(p.error, t)
  {
    PrepareTrackedStateless(fields, record, viewer, dates, t);
  }

  /** Once one row of the viewer holds a non-NULL `post_id` that is in the
      add list, a successful run over the rest of a batch keeps exactly that
      row for it, under the same id, holding the data of the last record
      carrying that `post_id` (or its own data if no record does). */
  lemma {:induction false} StreamBatchKeepsHolder(viewer: Viewer, fields: seq<FieldSpec>, batch: seq<Mapping>, diff: Diff,
                                                  dates: Dates, t: State, key: Cell, i: nat)
    requires NoRelations(fields) && key != Raw(Null) && key in diff.add
    requires Holds(t, viewer, key, i)
    ensures var r := SaveAll(FacebookStream, viewer, "post_id", fields, batch, diff, dates, t);
      r.Done? ==>
        (Holds(r.state, viewer, key, i)
         && Rows(r.state, FacebookStream)[i]
            == Row(Rows(t, FacebookStream)[i].id, viewer,
                   LastCarried(Preps(fields, batch, viewer, dates), key, Rows(t, FacebookStream)[i].cells)))
    decreases |batch|
  {
    if batch != [] {
      SaveOneStateless(viewer, fields, batch[0], diff, dates, t);
      var p := Prepared(fields, batch[0], viewer, dates);
      var r1 := SaveOne(FacebookStream, viewer, "post_id", fields, batch[0], diff, dates, t);
      if r1.Done? {
        var u := r1.state;
        var rows := Rows(t, FacebookStream);
        assert Preps(fields, batch, viewer, dates)[1..] == Preps(fields, batch[1..], viewer, dates);
        if Carrying(p, key) {
          StreamSecondMerges(viewer, p.value, diff, t, i);
          assert Holds(u, viewer, key, i);
          assert Rows(u, FacebookStream)[i].cells == p.value;
        } else {
          StreamOtherKey(viewer, p.value, diff, t, key);
          assert Holds(u, viewer, key, i);
          assert Rows(u, FacebookStream)[i] == rows[i];
        }
        StreamBatchKeepsHolder(viewer, fields, batch[1..], diff, dates, u, key, i);
      }
    }
  }

  /** A record carrying a non-NULL `post_id` in the add list that the
      viewer does not hold is appended and becomes its only holder. */
  lemma StreamFirstRecord(viewer: Viewer, fields: seq<FieldSpec>, record: Mapping, diff: Diff,
                          dates: Dates, t: State, key: Cell)
    requires NoRelations(fields) && key in diff.add && Absent(t, viewer, key)
    requires Carrying(Prepared(fields, record, viewer, dates), key)
    ensures var r := SaveOne(FacebookStream, viewer, "post_id", fields, record, diff, dates, t);
      var n := |Rows(t, FacebookStream)|;
      r.Done? && Holds(r.state, viewer, key, n)
      && Rows(r.state, FacebookStream)[n] == Row(t.nextId, viewer, Prepared(fields, record, viewer, dates).value)
  {
    SaveOneStateless(viewer, fields, record, diff, dates, t);
    StreamFirstInsert(viewer, Prepared(fields, record, viewer, dates).value, diff, t);
  }

  /** A stream batch whose first record carries a non-NULL `post_id` in the
      add list that the viewer does not hold: that record is appended, and a
      successful run keeps that row as the only holder of the key, with the
      data of the last record carrying it. */
  lemma StreamBatchStartsHere(viewer: Viewer, fields: seq<FieldSpec>, batch: seq<Mapping>, diff: Diff,
                              dates: Dates, t: State, key: Cell)
    requires NoRelations(fields) && key != Raw(Null) && key in diff.add && Absent(t, viewer, key)
    requires batch != [] && Carrying(Prepared(fields, batch[0], viewer, dates), key)
    ensures var r := SaveAll(FacebookStream, viewer, "post_id", fields, batch, diff, dates, t);
      var n := |Rows(t, FacebookStream)|;
      r.Done? ==>
        (Holds(r.state, viewer, key, n)
         && Rows(r.state, FacebookStream)[n] == Row(t.nextId, viewer, LastCarried(Preps(fields, batch, viewer, dates), key, map[])))
  {
    StreamFirstRecord(viewer, fields, batch[0], diff, dates, t, key);
    var u := SaveOne(FacebookStream, viewer, "post_id", fields, batch[0], diff, dates, t).state;
    StreamBatchKeepsHolder(viewer, fields, batch[1..], diff, dates, u, key, |Rows(t, FacebookStream)|);
    assert Preps(fields, batch, viewer, dates)[1..] == Preps(fields, batch[1..], viewer, dates);
  }

  /** The run over `prefix + rest` is the run over `prefix` followed, if
      that succeeds, by the run over `rest` from the state it left. */
  lemma {:induction false} SaveAllConcat(e: Entity, viewer: Viewer, pk: string, fields: seq<FieldSpec>,
                                         prefix: seq<Mapping>, rest: seq<Mapping>, diff: Diff, dates: Dates, t: State)
    ensures var a := SaveAll(e, viewer, pk, fields, prefix, diff, dates, t);
      SaveAll(e, viewer, pk, fields, prefix + rest, diff, dates, t)
      == if a.Done? then SaveAll(e, viewer, pk, fields, rest, diff, dates, a.state) else a
    decreases |prefix|
  {
    if prefix == [] {
      assert prefix + rest == rest;
    } else {
      assert (prefix + rest)[0] == prefix[0] && (prefix + rest)[1..] == prefix[1..] + rest;
      var r1 := SaveOne(e, viewer, pk, fields, prefix[0], diff, dates, t);
      if r1.Done? {
        SaveAllConcat(e, viewer, pk, fields, prefix[1..], rest, diff, dates, r1.state);
      }
    }
  }

  /** Records that do not carry `key` never give the viewer a row for it. */
  lemma {:induction false} StreamKeepsAbsent(viewer: Viewer, fields: seq<FieldSpec>, batch: seq<Mapping>, diff: Diff,
                                             dates: Dates, t: State, key: Cell)
    requires NoRelations(fields) && Absent(t, viewer, key)
    requires forall j :: 0 <= j < |batch| ==> !Carrying(Prepared(fields, batch[j], viewer, dates), key)
    ensures var r := SaveAll(FacebookStream, viewer, "post_id", fields, batch, diff, dates, t);
      r.Done? ==> Absent(r.state, viewer, key)
    decreases |batch|
  {
    if batch != [] {
      var r1 := SaveOne(FacebookStream, viewer, "post_id", fields, batch[0], diff, dates, t);
      assert !Carrying(Prepared(fields, batch[0], viewer, dates), key);
      StreamOneKeepsAbsent(viewer, fields, batch[0], diff, dates, t, key);
      if r1.Done? {
        var rest := batch[1..];
        forall j | 0 <= j < |rest|
          ensures !Carrying(Prepared(fields, rest[j], viewer, dates), key)
        {
          assert rest[j] == batch[j + 1];
        }
        StreamKeepsAbsent(viewer, fields, rest, diff, dates, r1.state, key);
        assert SaveAll(FacebookStream, viewer, "post_id", fields, batch, diff, dates, t)
            == SaveAll(FacebookStream, viewer, "post_id", fields, rest, diff, dates, r1.state);
      }
    }
  }

  /** One record not carrying `key` leaves it absent. */
  lemma StreamOneKeepsAbsent(viewer: Viewer, fields: seq<FieldSpec>, record: Mapping, diff: Diff, dates: Dates, t: State, key: Cell)
    requires NoRelations(fields) && Absent(t, viewer, key)
    requires !Carrying(Prepared(fields, record, viewer, dates), key)
    ensures var r := SaveOne(FacebookStream, viewer, "post_id", fields, record, diff, dates, t);
      r.Done? ==> Absent(r.state, viewer, key)
  {
    SaveOneStateless(viewer, fields, record, diff, dates, t);
    var p := Prepared(fields, record, viewer, dates);
    if p.Ok? {
      StreamOtherKey(viewer, p.value, diff, t, key);
    }
  }

  /** Skipping records that do not carry `key` does not change which data
      is last carried. */
  lemma {:induction false} LastCarriedSkip(preps: seq<Result<map<string, Cell>>>, key: Cell, cells: map<string, Cell>, n: nat)
    requires n <= |preps|
    requires forall k :: 0 <= k < n ==> !Carrying(preps[k], key)
    ensures LastCarried(preps, key, cells) == LastCarried(preps[n..], key, cells)
    decreases n
  {
    if n > 0 {
      LastCarriedSkip(preps[1..], key, cells, n - 1);
      assert preps[1..][n - 1..] == preps[n..];
    }
  }

  lemma {:induction false} PrepsConcat(fields: seq<FieldSpec>, prefix: seq<Mapping>, rest: seq<Mapping>, viewer: Viewer, dates: Dates)
    ensures Preps(fields, prefix + rest, viewer, dates) == Preps(fields, prefix, viewer, dates) + Preps(fields, rest, viewer, dates)
    decreases |prefix|
  {
    if prefix == [] {
      assert prefix + rest == rest;
    } else {
      assert (prefix + rest)[0] == prefix[0] && (prefix + rest)[1..] == prefix[1..] + rest;
      PrepsConcat(fields, prefix[1..], rest, viewer, dates);
    }
  }

  /** Records before the first carrier do not change which data is last
      carried. */
  lemma LastCarriedAfter(fields: seq<FieldSpec>, prefix: seq<Mapping>, rest: seq<Mapping>, viewer: Viewer, dates: Dates, key: Cell)
    requires forall j :: 0 <= j < |prefix| ==> !Carrying(Prepared(fields, prefix[j], viewer, dates), key)
    ensures LastCarried(Preps(fields, prefix + rest, viewer, dates), key, map[])
         == LastCarried(Preps(fields, rest, viewer, dates), key, map[])
  {
    var before, after := Preps(fields, prefix, viewer, dates), Preps(fields, rest, viewer, dates);
    PrepsConcat(fields, prefix, rest, viewer, dates);
    LastCarriedSkip(before + after, key, map[], |before|);
    assert (before + after)[|before|..] == after;
  }

  /** A stream batch made of `prefix`, none of whose records carries a
      non-NULL `post_id` that is in the add list and that the viewer does not
      hold, then `rest`, whose first record carries it: if the run succeeds,
      exactly one row of the viewer holds that `post_id`. It is the row the
      first carrier appended, under the id the store assigned then, and it
      holds the data of the last record of the batch carrying the key. */
  lemma StreamBatchMerges(viewer: Viewer, fields: seq<FieldSpec>, prefix: seq<Mapping>, rest: seq<Mapping>, diff: Diff,
                          dates: Dates, t: State, key: Cell)
    requires NoRelations(fields) && key != Raw(Null) && key in diff.add && Absent(t, viewer, key)
    requires forall j :: 0 <= j < |prefix| ==> !Carrying(Prepared(fields, prefix[j], viewer, dates), key)
    requires rest != [] && Carrying(Prepared(fields, rest[0], viewer, dates), key)
    ensures var r := SaveAll(FacebookStream, viewer, "post_id", fields, prefix + rest, diff, dates, t);
      var before := SaveAll(FacebookStream, viewer, "post_id", fields, prefix, diff, dates, t).state;
      r.Done? ==>
        (Holds(r.state, viewer, key, |Rows(before, FacebookStream)|)
         && Rows(r.state, FacebookStream)[|Rows(before, FacebookStream)|]
            == Row(before.nextId, viewer, LastCarried(Preps(fields, prefix + rest, viewer, dates), key, map[])))
  {
    SaveAllConcat(FacebookStream, viewer, "post_id", fields, prefix, rest, diff, dates, t);
    var a := SaveAll(FacebookStream, viewer, "post_id", fields, prefix, diff, dates, t);
    StreamKeepsAbsent(viewer, fields, prefix, diff, dates, t, key);
    if a.Done? {
      StreamBatchStartsHere(viewer, fields, rest, diff, dates, a.state, key);
      LastCarriedAfter(fields, prefix, rest, viewer, dates, key);
    }
  }
}
