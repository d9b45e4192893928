// apps/fbschema/parse_utils.py: how one remote value is turned into the value
// stored in a column, by the kind of the column. Relations are resolved
// against the store: shared struct tables by get-or-create, user and album
// references by a lookup scoped to the viewer.

module Coercion {
  import opened Base
  import opened Values
  import opened Registry
  import opened Store

  /** The two library calls date parsing rests on, as partial functions:
      `datetime.strptime(_, '%B %d, %Y')` and `datetime.fromtimestamp`. */
  datatype Dates = Dates(strptime: string -> Option<DateTime>, fromTimestamp: int -> Option<DateTime>)

  /** `parse_fbarray`: the value's `__str__`. An integer comes out as text
      that `int()` reads back. */
  function ParseFbArray(v: Value): (r: string)
    ensures v.Str? ==> r == v.s
    ensures v.Int? ==> PyInt(Str(r)) == Ok(v.i)
  {
    if v.Int? then PyIntReadsPyStr(v.i); PyStr(v) else PyStr(v)
  }

  /** `parse_fbdate`: an `int` goes to `fromtimestamp` and never to the string
      parser; a string is parsed as it is and, failing that, exactly once more
      with `", 1970"` appended, whose failure propagates; any other value,
      a `long` included (`type(v) is int` is false for it), makes `strptime`
      raise `TypeError`. */
  function ParseFbDate(v: Value, dates: Dates): (r: Result<DateTime>)
    ensures v.Int? && IsShortInt(v.i) ==> (r.Ok? <==> dates.fromTimestamp(v.i).Some?)
    ensures v.Int? && IsShortInt(v.i) && r.Ok? ==> Some(r.value) == dates.fromTimestamp(v.i)
    ensures v.Int? && !IsShortInt(v.i) ==> r == Err(TypeError)
    ensures v.Str? ==> (r.Ok? <==> dates.strptime(v.s).Some? || dates.strptime(v.s + ", 1970").Some?)
    ensures v.Str? && dates.strptime(v.s).Some? ==> r == Ok(dates.strptime(v.s).value)
    ensures v.Str? && dates.strptime(v.s).None? && r.Ok? ==> Some(r.value) == dates.strptime(v.s + ", 1970")
    ensures r.Err? ==> r.error == (if (v.Int? && IsShortInt(v.i)) || v.Str? then ValueError else TypeError)
  {
    match v
    case Int(i) =>
      if !IsShortInt(i) then Err(TypeError)
      else
        (match dates.fromTimestamp(i)
         case Some(t) => Ok(t)
         case None => Err(ValueError))
    case Str(s) =>
      (match dates.strptime(s)
       case Some(t) => Ok(t)
       case None =>
         match dates.strptime(s + ", 1970")
         case Some(t) => Ok(t)
         case None => Err(ValueError))
    case _ => Err(TypeError)
  }

  /** `StructAgeRange.objects.get_or_create(min=value['min'])`: the lookup tuple. */
  function AgeRangeKey(v: Value): (r: Result<StructKey>)
    ensures r.Ok? ==> v.Obj? && r.value == [GetOr(v.entries, "min")] && "min" in Keys(v.entries)
    ensures v.Obj? && "min" !in Keys(v.entries) ==> r == Err(KeyError)
    ensures !v.Obj? ==> r == Err(TypeError)
  {
    match v
    case Obj(m) =>
      (match Get(m, "min")
       case Some(x) => Ok([x])
       case None => Err(KeyError))
    case _ => Err(TypeError)
  }

  /** `StructCommentInfo` lookup tuple `(can_comment, comment_count)`. The count
      is `comment_count` when that is present and truthy, else `count`. */
  function CommentInfoKey(v: Value): (r: Result<StructKey>)
    ensures v.Obj? <==> r.Ok?
    ensures r.Err? ==> r.error == AttributeError
    ensures r.Ok? ==> |r.value| == 2 && r.value[0] == GetOr(v.entries, "can_comment")
    ensures r.Ok? && Truthy(GetOr(v.entries, "comment_count")) ==> r.value[1] == GetOr(v.entries, "comment_count")
    ensures r.Ok? && !Truthy(GetOr(v.entries, "comment_count")) ==> r.value[1] == GetOr(v.entries, "count")
  {
    match v
    case Obj(m) =>
      Ok([GetOr(m, "can_comment"), PyOr(GetOr(m, "comment_count"), GetOr(m, "count"))])
    case _ => Err(AttributeError)
  }

  /** `StructLikeInfo` lookup tuple `(can_like, like_count, user_likes)`, with
      the same fallback from `like_count` to `count`. */
  function LikeInfoKey(v: Value): (r: Result<StructKey>)
    ensures v.Obj? <==> r.Ok?
    ensures r.Err? ==> r.error == AttributeError
    ensures r.Ok? ==>
      |r.value| == 3 && r.value[0] == GetOr(v.entries, "can_like") && r.value[2] == GetOr(v.entries, "user_likes")
    ensures r.Ok? && Truthy(GetOr(v.entries, "like_count")) ==> r.value[1] == GetOr(v.entries, "like_count")
    ensures r.Ok? && !Truthy(GetOr(v.entries, "like_count")) ==> r.value[1] == GetOr(v.entries, "count")
  {
    match v
    case Obj(m) =>
      Ok([GetOr(m, "can_like"), PyOr(GetOr(m, "like_count"), GetOr(m, "count")), GetOr(m, "user_likes")])
    case _ => Err(AttributeError)
  }

  function StructKeyOf(k: StructKind, v: Value): Result<StructKey>
  {
    match k
    case StructAgeRange => AgeRangeKey(v)
    case StructCommentInfo => CommentInfoKey(v)
    case StructLikeInfo => LikeInfoKey(v)
  }

  /** Django's conversion of a lookup value to the column's type: `int()` for
      an integer column, text for a character column; `None` stays `None`. */
  function PrepLookup(kind: Kind, v: Value): (r: Result<Cell>)
    ensures v == Null ==> r == Ok(Raw(Null))
    ensures kind == BigIntegerField && v != Null ==> (r.Ok? <==> PyInt(v).Ok?)
    ensures r.Ok? && kind == BigIntegerField && v != Null ==> PyInt(v).Ok? && r.value == Raw(Int(PyInt(v).value))
    ensures r.Ok? && kind == CharField && v != Null ==> r.value.Raw? && r.value.v.Str?
  {
    if v == Null then Ok(Raw(Null))
    else
      match kind
      case BigIntegerField =>
        (match PyInt(v)
         case Ok(i) => Ok(Raw(Int(i)))
         case Err(err) => Err(err))
      case CharField => Ok(Raw(Str(ParseFbArray(v))))
      case _ => Ok(Raw(v))
  }

  /** `Entity.objects.get(user=request.user, col=value)`: the row is looked up,
      never created, and only among the viewer's rows. Without a request,
      `request.user` raises `AttributeError`. */
  function LookupRef(s: State, e: Entity, col: string, kind: Kind, viewer: Option<Viewer>, v: Value): (r: Result<Cell>)
    ensures viewer.None? ==> r == Err(AttributeError)
    ensures r.Ok? ==>
      viewer.Some? && PrepLookup(kind, v).Ok? && r.value.Ref? && r.value.entity == e
      && exists i :: 0 <= i < |Rows(s, e)| && Rows(s, e)[i].id == r.value.id
           && Matches(Rows(s, e)[i], viewer.value, col, PrepLookup(kind, v).value)
    ensures viewer.Some? && PrepLookup(kind, v).Ok? ==>
      (r == Err(DoesNotExist) <==>
       forall i :: 0 <= i < |Rows(s, e)| ==> !Matches(Rows(s, e)[i], viewer.value, col, PrepLookup(kind, v).value))
  {
    match viewer
    case None => Err(AttributeError)
    case Some(u) =>
      match PrepLookup(kind, v)
      case Err(err) => Err(err)
      case Ok(c) =>
        match ObjectsGet(Rows(s, e), u, col, c)
        case Ok(i) => Ok(Ref(e, Rows(s, e)[i].id))
        case Err(err) => Err(err)
  }

  /** The `ForeignKey` branch of `parse_clean_field_value`. */
  function ParseRelation(to: Target, v: Value, viewer: Option<Viewer>, s: State): (r: Step<Cell>)
    ensures r.state.tables == s.tables && r.state.nextId == s.nextId
    ensures !(to.Struct? && Truthy(v)) ==> r.state == s
    ensures forall k :: StructRows(s, k) <= StructRows(r.state, k)
    ensures r.Failed? ==> r.error != SchemaMismatch
  {
    match to
    case Struct(k) =>
      if Truthy(v) then
        (match StructKeyOf(k, v)
         case Err(err) => Failed(err, s)
         case Ok(key) =>
           match StructGetOrCreate(s, k, key)
           case Done(i, t) => Done(StructRef(k, i), t)
           case Failed(err, t) => Failed(err, t))
      else Done(Raw(v), s)
    case Model(FacebookUser) =>
      (match LookupRef(s, FacebookUser, "uid", BigIntegerField, viewer, v)
       case Ok(c) => Done(c, s)
       case Err(err) => Failed(err, s))
    case Model(FacebookAlbum) =>
      (match LookupRef(s, FacebookAlbum, "aid", CharField, viewer, v)
       case Ok(c) => Done(c, s)
       case Err(err) => Failed(err, s))
    case _ => Done(Raw(v), s)
  }

  /** `parse_clean_field_value(field, value, request)`, dispatched on the kind
      of the column; `viewer` is `request.user`, absent when no request is
      passed. Only the struct tables can change. */
  function ParseCleanFieldValue(kind: Kind, v: Value, viewer: Option<Viewer>, dates: Dates, s: State): (r: Step<Cell>)
    ensures r.state.tables == s.tables && r.state.nextId == s.nextId
    ensures !(kind.ForeignKey? && kind.to.Struct? && Truthy(v)) ==> r.state == s
    ensures forall k :: StructRows(s, k) <= StructRows(r.state, k)
    ensures r.Failed? ==> r.error != SchemaMismatch
    ensures (kind == CharField || kind == TextField) ==>
      r.Done? && r.state == s && r.value.Raw? && r.value.v.Str? && (v.Str? ==> r.value == Raw(v))
    ensures kind == DateTimeField && !Truthy(v) ==> r == Done(Raw(v), s)
    ensures kind == DateTimeField && Truthy(v) ==>
      r.state == s && (r.Done? <==> ParseFbDate(v, dates).Ok?) && (r.Done? ==> r.value == At(ParseFbDate(v, dates).value))
    ensures kind == BigIntegerField ==>
      r.state == s && (!Truthy(v) ==> r == Done(Raw(Null), s))
      && (Truthy(v) ==> (r.Done? <==> PyInt(v).Ok?) && (r.Done? ==> r.value == Raw(Int(PyInt(v).value))))
    ensures kind == IntegerField || kind == NullBooleanField || kind == AutoField ==> r == Done(Raw(v), s)
  {
    match kind
    case CharField => Done(Raw(if v.Str? then v else Str(ParseFbArray(v))), s)
    case TextField => Done(Raw(if v.Str? then v else Str(ParseFbArray(v))), s)
    case DateTimeField =>
      if Truthy(v) then
        (match ParseFbDate(v, dates)
         case Ok(t) => Done(At(t), s)
         case Err(err) => Failed(err, s))
      else Done(Raw(v), s)
    case ForeignKey(to) => ParseRelation(to, v, viewer, s)
    case BigIntegerField =>
      if !Truthy(v) then Done(Raw(Null), s)
      else
        (match PyInt(v)
         case Ok(i) => Done(Raw(Int(i)), s)
         case Err(err) => Failed(err, s))
    case _ => Done(Raw(v), s)
  }

  /** A user or album relation is resolved among the viewer's own rows and is
      never created: the store is left as it is, and the lookup fails with
      `DoesNotExist` exactly when the viewer has no such row. */
  lemma RelationLookupNeverCreates(e: Entity, v: Value, viewer: Viewer, dates: Dates, s: State)
    requires e == FacebookUser || e == FacebookAlbum
    ensures var col := if e == FacebookUser then "uid" else "aid";
      var kind := if e == FacebookUser then BigIntegerField else CharField;
      var r := ParseCleanFieldValue(ForeignKey(Model(e)), v, Some(viewer), dates, s);
      r.state == s
      && (r.Done? ==>
            r.value.Ref? && r.value.entity == e
            && exists i :: 0 <= i < |Rows(s, e)| && Rows(s, e)[i].id == r.value.id && Rows(s, e)[i].user == viewer)
      && (PrepLookup(kind, v).Ok? ==>
            (r == Failed(DoesNotExist, s) <==>
             forall i :: 0 <= i < |Rows(s, e)| ==> !Matches(Rows(s, e)[i], viewer, col, PrepLookup(kind, v).value)))
  {
  }

  /** The relation `StructGetOrCreate` gives for a struct tuple. */
  function StructRelation(k: StructKind, key: StructKey, s: State): Step<Cell>
  {
    match StructGetOrCreate(s, k, key)
    case Done(i, t) => Done(StructRef(k, i), t)
    case Failed(err, t) => Failed(err, t)
  }

  lemma StructRelationUnfold(k: StructKind, v: Value, viewer: Option<Viewer>, dates: Dates, s: State)
    requires Truthy(v)
    ensures ParseCleanFieldValue(ForeignKey(Struct(k)), v, viewer, dates, s)
         == (match StructKeyOf(k, v)
             case Err(err) => Failed(err, s)
             case Ok(key) => StructRelation(k, key, s))
  {
  }

  /** A struct relation with a truthy value resolves to a shared row by its
      content: the call adds at most one tuple to its table and nothing else,
      and repeating it, on behalf of any viewer, returns the same row and
      writes nothing. */
  lemma {:induction false} StructRelationIdempotent(k: StructKind, v: Value, viewer: Option<Viewer>,
                                                    other: Option<Viewer>, dates: Dates, s: State)
    requires Truthy(v)
    ensures var r := ParseCleanFieldValue(ForeignKey(Struct(k)), v, viewer, dates, s);
      (r.Done? ==> ParseCleanFieldValue(ForeignKey(Struct(k)), v, other, dates, r.state) == r)
      && |StructRows(r.state, k)| <= |StructRows(s, k)| + 1
      && (forall k' :: k' != k ==> StructRows(r.state, k') == StructRows(s, k'))
  {
    StructRelationUnfold(k, v, viewer, dates, s);
    match StructKeyOf(k, v)
    case Err(_) =>
    case Ok(key) =>
      StructGetOrCreateIdempotent(s, k, key);
      StructGetOrCreateGrowth(s, k, key);
      var t := StructRelation(k, key, s).state;
      StructRelationUnfold(k, v, other, dates, t);
  }

  /** Coercion keeps the store valid. */
  lemma {:induction false} ParseCleanFieldValueKeepsValid(kind: Kind, v: Value, viewer: Option<Viewer>, dates: Dates, s: State)
    requires Valid(s)
    ensures Valid(ParseCleanFieldValue(kind, v, viewer, dates, s).state)
  {
    if kind.ForeignKey? && kind.to.Struct? && Truthy(v) {
      match StructKeyOf(kind.to.kind, v)
      case Err(_) =>
      case Ok(key) =>
        StructGetOrCreateKeepsValid(s, kind.to.kind, key);
    }
  }

  /** Every coercion but a truthy struct relation reads only the entity
      tables: over the same tables it has the same outcome, and it never
      writes. */
  lemma ParseReadsTables(kind: Kind, v: Value, viewer: Option<Viewer>, dates: Dates, s: State, u: State)
    requires !(kind.ForeignKey? && kind.to.Struct? && Truthy(v)) && u.tables == s.tables
    ensures ParseCleanFieldValue(kind, v, viewer, dates, u).state == u
    ensures ParseCleanFieldValue(kind, v, viewer, dates, u).Outcome() == ParseCleanFieldValue(kind, v, viewer, dates, s).Outcome()
  {
    if kind.ForeignKey? {
      RelationReadsTables(kind.to, v, viewer, s, u);
    }
  }

  /** The same for the `ForeignKey` branch alone. */
  lemma RelationReadsTables(to: Target, v: Value, viewer: Option<Viewer>, s: State, u: State)
    requires !(to.Struct? && Truthy(v)) && u.tables == s.tables
    ensures ParseRelation(to, v, viewer, u).state == u
    ensures ParseRelation(to, v, viewer, u).Outcome() == ParseRelation(to, v, viewer, s).Outcome()
  {
    match to
    case Model(FacebookUser) => LookupReadsTables(FacebookUser, "uid", BigIntegerField, viewer, v, s, u);
    case Model(FacebookAlbum) => LookupReadsTables(FacebookAlbum, "aid", CharField, viewer, v, s, u);
    case _ =>
  }

  /** A lookup depends on the entity tables only. */
  lemma LookupReadsTables(e: Entity, col: string, kind: Kind, viewer: Option<Viewer>, v: Value, s: State, u: State)
    requires u.tables == s.tables
    ensures LookupRef(u, e, col, kind, viewer, v) == LookupRef(s, e, col, kind, viewer, v)
  {
    assert Rows(u, e) == Rows(s, e);
  }

  /** A truthy struct relation that succeeded resolves to the same row, and
      writes nothing, in any later store holding no tuple twice whose table
      extends the one it left. */
  lemma StructRelationStable(k: StructKind, v: Value, viewer: Option<Viewer>, dates: Dates, s: State, u: State)
    requires Truthy(v) && ParseCleanFieldValue(ForeignKey(Struct(k)), v, viewer, dates, s).Done?
    requires DistinctKeys(StructRows(u, k))
    requires StructRows(ParseCleanFieldValue(ForeignKey(Struct(k)), v, viewer, dates, s).state, k) <= StructRows(u, k)
    ensures ParseCleanFieldValue(ForeignKey(Struct(k)), v, viewer, dates, u)
         == Done(ParseCleanFieldValue(ForeignKey(Struct(k)), v, viewer, dates, s).value, u)
  {
    StructRelationUnfold(k, v, viewer, dates, s);
    StructRelationUnfold(k, v, viewer, dates, u);
    StructGetOrCreateStable(s, k, StructKeyOf(k, v).value, u);
  }

  /** A coercion that succeeded gives the same value again, and writes
      nothing, in any valid later store with the same entity tables whose
      struct tables only grew. */
  lemma ParseCleanFieldValueStable(kind: Kind, v: Value, viewer: Option<Viewer>, dates: Dates, s: State, u: State)
    requires ParseCleanFieldValue(kind, v, viewer, dates, s).Done?
    requires Valid(u) && u.tables == s.tables
    requires forall k :: StructRows(ParseCleanFieldValue(kind, v, viewer, dates, s).state, k) <= StructRows(u, k)
    ensures ParseCleanFieldValue(kind, v, viewer, dates, u) == Done(ParseCleanFieldValue(kind, v, viewer, dates, s).value, u)
  {
    if kind.ForeignKey? && kind.to.Struct? && Truthy(v) {
      StructRelationStable(kind.to.kind, v, viewer, dates, s, u);
    } else {
      ParseReadsTables(kind, v, viewer, dates, s, u);
    }
  }
}
