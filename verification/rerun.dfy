// apps/fbschema/models.py:131-160 run a second time over the same response.
// Re-saving a record whose data already sits in the viewer's row writes
// nothing. The loop body of models.py:131-160, given the add and update
// lists the two runs compute, shows the converse for a response that
// repeats a key of an entity without a clash resolver: the store after the
// first run differs from the store after the second.

module Rerun {
  import opened Base
  import opened Values
  import opened Registry
  import opened Store
  import opened Reconcile

  /** A record in the update list whose prepared data is exactly what the
      viewer's only row holding its key already stores: the pass succeeds
      and leaves the store as it was. */
  lemma SaveRecordResave(e: Entity, viewer: Viewer, pk: string, data: map<string, Cell>, diff: Diff, s: State, i: nat)
    requires Valid(s) && pk !in IgnoreFields
    requires pk in data && data[pk] !in diff.add && data[pk] in diff.update
    requires i < |Rows(s, e)| && Rows(s, e)[i] == Row(Rows(s, e)[i].id, viewer, data)
    requires forall j :: 0 <= j < |Rows(s, e)| && j != i ==> !Matches(Rows(s, e)[j], viewer, pk, data[pk])
    ensures SaveRecord(e, viewer, pk, data, diff, s) == Done((), s)
  {
    var rows := Rows(s, e);
    assert Matches(rows[i], viewer, pk, data[pk]);
    assert ObjectsGet(rows, viewer, pk, data[pk]) == Ok(i);
    assert TableValid(e, rows, s.nextId);
    forall j, u | 0 <= j < |rows| && j != i && u in UniqueTogether(e)
      ensures !Clash(u, rows[j], rows[i])
    {
      if i < j {
        ClashSymmetric(u, rows[j], rows[i]);
      }
    }
    assert !Violates(e, rows, rows[i], i);
    var t := Overwrite(s, e, i, viewer, data);
    assert t.Done?;
    assert rows[i := Row(rows[i].id, viewer, data)] == rows;
    assert e in s.tables;
    assert t.state.tables == s.tables;
  }

  /** The prepared data of a `FacebookLink` record with key 7. */
  function LinkRecord(title: string): (d: map<string, Cell>)
    ensures "link_id" in d && d["link_id"] == Raw(Int(7)) && Admissible(FacebookLink, Row(0, 0, d))
  {
    map["link_id" := Raw(Int(7)), "owner" := Ref(FacebookUser, 0), "title" := Raw(Str(title))]
  }

  /** The first run over two link records sharing key 7, neither stored
      yet: the first record is inserted, then the insert of the second
      clashes on `(user, link_id)` and, `FacebookLink` having no resolver,
      fails with `AttributeError` after the first row was committed. */
  lemma LinkFirstRun(s: State, viewer: Viewer)
    requires Rows(s, FacebookLink) == []
    ensures var diff := KeyDiff({Raw(Int(7))}, {}, false);
      var r1 := SaveRecord(FacebookLink, viewer, "link_id", LinkRecord("a"), diff, s);
      r1.Done? && Rows(r1.state, FacebookLink) == [Row(s.nextId, viewer, LinkRecord("a"))]
      && SaveRecord(FacebookLink, viewer, "link_id", LinkRecord("b"), diff, r1.state) == Failed(AttributeError, r1.state)
  {
    var a, b := LinkRecord("a"), LinkRecord("b");
    var diff := KeyDiff({Raw(Int(7))}, {}, false);
    assert Raw(Int(7)) in diff.add;
    assert Admissible(FacebookLink, Row(0, 0, a));
    var t := Create(s, FacebookLink, viewer, a);
    assert t.Done?;
    var rows := [Row(s.nextId, viewer, a)];
    assert Rows(t.state, FacebookLink) == rows;
    var u := UniqueConstraint(["user", "link_id"]);
    assert u in UniqueTogether(FacebookLink);
    assert Clash(u, rows[0], Row(t.state.nextId, viewer, b));
    assert Create(t.state, FacebookLink, viewer, b).Failed?;
  }

  /** The same response run again over the row the first run left, now in
      the update list: both records overwrite it in turn, and the second
      one's data is what remains. */
  lemma LinkSecondRun(s: State, viewer: Viewer, id: nat)
    requires Rows(s, FacebookLink) == [Row(id, viewer, LinkRecord("a"))]
    ensures var diff := KeyDiff({Raw(Int(7))}, {Raw(Int(7))}, false);
      var r3 := SaveRecord(FacebookLink, viewer, "link_id", LinkRecord("a"), diff, s);
      var r4 := SaveRecord(FacebookLink, viewer, "link_id", LinkRecord("b"), diff, r3.state);
      r4.Done? && Rows(r4.state, FacebookLink) == [Row(id, viewer, LinkRecord("b"))]
  {
    var a, b := LinkRecord("a"), LinkRecord("b");
    var key := Raw(Int(7));
    var diff := KeyDiff({key}, {key}, false);
    assert key in diff.update && key !in diff.add;
    var rows := Rows(s, FacebookLink);
    assert ObjectsGet(rows, viewer, "link_id", key) == Ok(0);
    assert Admissible(FacebookLink, Row(0, 0, a));
    var t := Overwrite(s, FacebookLink, 0, viewer, a);
    assert t.Done?;
    assert Rows(t.state, FacebookLink) == rows;
    assert Admissible(FacebookLink, Row(0, 0, b));
    assert ObjectsGet(Rows(t.state, FacebookLink), viewer, "link_id", key) == Ok(0);
    assert Overwrite(t.state, FacebookLink, 0, viewer, b).Done?;
  }

  /** Two link records sharing key 7, neither stored yet. The first run
      fails after inserting the first record; the same response run again
      on what it left succeeds and replaces that row's data with the second
      record's, so the second run changes the store the first one left. */
  lemma LinkRerunChangesStore(s: State, viewer: Viewer)
    requires Rows(s, FacebookLink) == []
    ensures var key := Raw(Int(7));
      var a, b := LinkRecord("a"), LinkRecord("b");
      var first := KeyDiff({key}, {}, false);
      var second := KeyDiff({key}, {key}, false);
      var r1 := SaveRecord(FacebookLink, viewer, "link_id", a, first, s);
      var r2 := SaveRecord(FacebookLink, viewer, "link_id", b, first, r1.state);
      var r3 := SaveRecord(FacebookLink, viewer, "link_id", a, second, r2.state);
      var r4 := SaveRecord(FacebookLink, viewer, "link_id", b, second, r3.state);
      r2.Failed? && r4.Done? && Rows(r4.state, FacebookLink) != Rows(r2.state, FacebookLink)
  {
    LinkFirstRun(s, viewer);
    var r1 := SaveRecord(FacebookLink, viewer, "link_id", LinkRecord("a"), KeyDiff({Raw(Int(7))}, {}, false), s);
    LinkSecondRun(r1.state, viewer, s.nextId);
    assert LinkRecord("a")["title"] != LinkRecord("b")["title"];
  }
}
