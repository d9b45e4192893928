# dashfb reconciliation engine in Dafny

dashfb is a Django application that copies a user's Facebook data into a
local database. Each synchronised entity (album, photo, link, notification,
stream post, user, friend) is a Django model that describes its FQL table.
The model gives the table name, the primary and owner identifiers, the
query clauses, an optional row limit and its `unique_together` constraints.
Every model inherits the reconciliation engine of `BaseFbModel`.

The engine works on one fetched batch of remote records:

1. It picks a context owner and loads the local comparison rows
   (`local_fql_query`).
2. It builds the set of remote primary keys (after field coercion) and the
   set of local ones. From them it computes the add, update and delete lists.
3. It walks the batch in order. Each record is checked and shaped by
   `prepare_dict`. A record whose key is in the add list is inserted, and
   one whose key is in the update list is written over the viewer's row,
   keeping that row's storage id. A uniqueness clash on insert goes to
   `handle_integrity_exception`. Only `FacebookStream` defines it, and
   there it turns the insert into an overwrite.

The helpers in `utils.py` build the tracked-field list, the
`SELECT … FROM … <clause>` query and the key check. The helpers in
`parse_utils.py` coerce one response value by the Django kind of its field.
Coercion parses dates, casts big integers and turns arrays into strings.
Relations are resolved by `get_or_create` on the shared struct tables, or
by a per-viewer lookup.

The Dafny modules follow that structure:

| module | file | contents |
|---|---|---|
| `Base` | base.dfy | `Option`, `Result`, the Python/Django exceptions the engine can raise |
| `Values` | values.dfy | decoded JSON values, Python truthiness, `str()` and `int()` |
| `Registry` | registry.dfy | entities, field kinds, each model's fields in `_meta.fields` order, the class attributes and `unique_together` |
| `FqlUtils` | fql_utils.dfy | `utils.py` |
| `Store` | store.dfy | the database as a value: tables in storage order, the struct tables, the id sequence, INSERT/UPDATE with constraint checks, `objects.get`, `get_or_create` |
| `Coercion` | coercion.dfy | `parse_utils.py` |
| `Reconcile` | reconcile.dfy | `BaseFbModel` as functions from one database state to the next, plus what they preserve |
| `Streams` | stream.dfy | one `post_id` followed through a `FacebookStream` record and through a whole batch |
| `Rerun` | rerun.dfy | `save_update_delete` run a second time over the same response |
| `Engine` | engine.dfy | class `Database`: the same operations as methods that update the tables in place, each proved to end in the state the matching function of `Reconcile` gives |

How the model is organised:

- A remote record is an association list of keys and values, in the order
  of the dict's `keys()`.
- A failing step returns the exception it raises, together with the state
  it leaves (`Step`). The rows written before a failure therefore stay
  written, as they do in the source.
- Functions that take `declared` receive a model's `_meta.fields`, which is
  `Registry.DeclaredFields(e)`.
- `SaveOne` and `SaveAll` receive the tracked fields, which are the
  declared fields minus `ignore_fields`.
- Two callers (apps/fbschema/views.py:185 and :224) skip empty batches;
  the others (:126, :156, :198, :238, :249) do not. `Reconcile.EmptyBatch`
  states what the engine itself does with one, and `Reconcile.Sync` is the
  guarded entry point, with `declared` fixed to the model's own fields.

## Model

| member | source | states |
|---|---|---|
| `Values.Get` | apps/fbschema/models.py:84-87 | `d[k]` finds a value exactly when the key is present, and the value found is one the record gives that key |
| `Values.GetIsLast` | apps/fbschema/models.py:84-87 | a record that repeats a key reads as the value given last |
| `Values.PyIntReadsPyStr` | apps/fbschema/parse_utils.py:11-15 | the string an integer array element is turned into reads back, under `int()`, as the same integer |
| `Values.PyStr` | apps/fbschema/parse_utils.py:11-15 | `value.__str__()` of a decoded value: a string as it is, an integer in decimal, `None`/`True`/`False` by name, containers with the `repr` of their elements; it has no contract of its own, and `Coercion.ParseFbArray` and `Values.PyIntReadsPyStr` state what is relied on |
| `Values.DecimalZero` | apps/fbschema/parse_utils.py:90-91 | the run of ten decimal digits of Unicode 5.2 (the database of Python 2.7) that holds a code point, if any; the code point lies within the ten digits of that run |
| `Values.DecimalValue` | apps/fbschema/parse_utils.py:90-91 | `unicodedata.decimal`: the value of a decimal digit of any script, below ten; an ASCII digit stands for itself and no other ASCII character is a digit |
| `Values.EncodeDecimalChar` | apps/fbschema/parse_utils.py:90-91 | one character of the encoding `int()` applies to a unicode string: it fails exactly for a character that is neither whitespace nor a decimal digit nor a Latin-1 character other than NUL, and otherwise gives a Latin-1 byte other than NUL |
| `Values.EncodeDecimal` | apps/fbschema/parse_utils.py:90-91 | the encoding step of `int()` on a unicode string: its only error is `ValueError` (Python's `UnicodeEncodeError`), and a result has one byte per character |
| `Values.EncodeDecimalPointwise` | apps/fbschema/parse_utils.py:90-91 | the encoding fails exactly when some character cannot be encoded, and otherwise encodes character by character |
| `Values.EncodeDecimalSpec` | apps/fbschema/parse_utils.py:90-91 | every Unicode whitespace character becomes a blank and every decimal digit of any script the ASCII digit of the same value; every byte is Latin-1 other than NUL |
| `Values.EncodeDecimalPrintable` | apps/fbschema/parse_utils.py:90-91 | printable ASCII text comes through the encoding unchanged |
| `Values.ParseIntText` | apps/fbschema/parse_utils.py:90-91 | the parse of the encoded text: blanks, an optional sign that blanks may follow, one or more decimal digits, blanks; anything else is a `ValueError`; it has no contract of its own, and `Values.ParseIntTextOfDecimal` states its round trip |
| `Values.ParseIntTextOfDecimal` | apps/fbschema/parse_utils.py:90-91 | the parse reads back the decimal text of every integer |
| `Values.PyInt` | apps/fbschema/parse_utils.py:90-91 | `int(value)`: an integer is itself, a boolean 0 or 1, a unicode string is encoded and then parsed, anything else is a `TypeError`; it has no contract of its own, and the `Values.PyInt…` lemmas state its properties |
| `Values.PyIntOfPrintable` | apps/fbschema/parse_utils.py:90-91 | on printable ASCII text `int()` is the parse alone |
| `Values.PyIntUnicodeDigits` | apps/fbschema/parse_utils.py:90-91 | `int()` of a no-break space followed by the Arabic-Indic digits one and two is 12 |
| `Values.PyIntBlankAfterSign` | apps/fbschema/parse_utils.py:90-91 | `int()` of a minus sign, a blank, 7 and an ideographic space is -7 |
| `Values.PyIntSuperscript` | apps/fbschema/parse_utils.py:90-91 | `int()` of SUPERSCRIPT TWO, a digit that is not a decimal digit, is a `ValueError` |
| `Coercion.ParseFbArray` | apps/fbschema/parse_utils.py:11-15 | a string stays as it is; an integer becomes a decimal text that `int()` reads back as that integer |
| `Coercion.ParseFbDate` | apps/fbschema/parse_utils.py:17-34 | an `int` (within `sys.maxint`) goes through the timestamp conversion only; a larger integer is a `long`, goes to `strptime` and is a `TypeError`; a string is parsed with the date format, and on failure exactly one retry is made with `", 1970"` appended; the retry's failure is a `ValueError`; any other type is a `TypeError` |
| `Coercion.AgeRangeKey` | apps/fbschema/parse_utils.py:57-59 | the age-range tuple is the `min` entry; a missing `min` is a `KeyError`, a non-dict a `TypeError` |
| `Coercion.CommentInfoKey` | apps/fbschema/parse_utils.py:71-74 | the tuple is (`can_comment`, `comment_count` if truthy else `count`); a non-dict is an `AttributeError` |
| `Coercion.LikeInfoKey` | apps/fbschema/parse_utils.py:82-86 | the tuple is (`can_like`, `like_count` if truthy else `count`, `user_likes`); a non-dict is an `AttributeError` |
| `Coercion.StructKeyOf` | apps/fbschema/parse_utils.py:57-86 | the tuple `get_or_create` looks up for each struct table: `Coercion.AgeRangeKey`, `Coercion.CommentInfoKey` or `Coercion.LikeInfoKey`; it has no contract of its own |
| `Coercion.PrepLookup` | apps/fbschema/parse_utils.py:60-70 | a lookup value is converted to the column's type before the query: `None` stays NULL, a big-integer column needs `int()` to succeed, a char column gets text |
| `Coercion.LookupRef` | apps/fbschema/parse_utils.py:60-70 | a user/album relation is the viewer's row whose key column equals the value; no request is an `AttributeError`; no such row is exactly the `DoesNotExist` case |
| `Coercion.ParseRelation` | apps/fbschema/parse_utils.py:48-86 | only a struct relation with a truthy value can write, and then only by growing struct tables; the entity tables and the id sequence never change |
| `Coercion.ParseCleanFieldValue` | apps/fbschema/parse_utils.py:37-92 | the kind dispatch: char/text always give a string and keep strings; a falsy date is returned as is, a truthy one parsed; a big integer maps falsy to NULL and truthy to `int(value)`; integer, boolean and auto fields pass through; no branch but a truthy struct relation writes |
| `Coercion.RelationLookupNeverCreates` | apps/fbschema/parse_utils.py:60-70 | a `FacebookUser` or `FacebookAlbum` relation never writes; it resolves to a row owned by the viewer and fails with `DoesNotExist` exactly when no such row holds the value |
| `Coercion.StructRelationIdempotent` | apps/fbschema/parse_utils.py:57-86 | resolving the same struct value again, by any viewer, returns the same shared row and writes nothing; one call adds at most one tuple to its own table and changes no other |
| `Coercion.ParseCleanFieldValueKeepsValid` | apps/fbschema/parse_utils.py:37-92 | coercion keeps the database invariant (ids ordered and below the sequence, constraints hold, struct tuples distinct) |
| `Coercion.ParseReadsTables` | apps/fbschema/parse_utils.py:43-92 | every branch but a truthy struct relation reads only the entity tables and writes nothing, so its outcome is the same in any store with those tables |
| `Coercion.RelationReadsTables` | apps/fbschema/parse_utils.py:57-86 | the same for the `ForeignKey` branch: a user or album lookup, a falsy struct value and an unknown target depend on the entity tables only |
| `Coercion.LookupReadsTables` | apps/fbschema/parse_utils.py:60-70 | `objects.get(user=…, col=…)` depends on the entity table only |
| `Coercion.StructRelationStable` | apps/fbschema/parse_utils.py:57-86 | a struct `get_or_create` that succeeded returns the same row, writing nothing, in any later store whose struct table extends the one it left and holds no tuple twice |
| `Coercion.ParseCleanFieldValueStable` | apps/fbschema/parse_utils.py:37-92 | a coercion that succeeded gives the same value again, writing nothing, in any valid later store with the same entity tables and grown struct tables |
| `Store.StructGetOrCreateStable` | apps/fbschema/parse_utils.py:57-59 | `get_or_create` of a tuple it found or created returns the same row, writing nothing, in any later table that extends the one it left and holds no tuple twice |
| `Store.Filter` | apps/fbschema/models.py:58 | `objects.filter(user=…, col=…)` keeps exactly the rows of that viewer holding that value |
| `Store.ObjectsGet` | apps/fbschema/models.py:158 | `objects.get` returns the only matching row; `DoesNotExist` exactly when none matches, `MultipleObjectsReturned` exactly when two do |
| `Store.Create` | apps/fbschema/models.py:141-142 | the insert fails exactly when the new row breaks a NOT NULL column or a `unique_together` constraint against the table; a success appends one row for the viewer under a fresh id and touches nothing else; a failure is an `IntegrityError` and writes nothing |
| `Store.Overwrite` | apps/fbschema/models.py:159-160 | the save fails exactly when the new data breaks a NOT NULL column or a constraint against the other rows; a success replaces that row in place, keeping its id; a failure is an `IntegrityError` and writes nothing |
| `Store.StructGetOrCreate` | apps/fbschema/parse_utils.py:57-59 | a tuple stored once is returned without writing; an absent admissible tuple is appended and returned; it fails exactly when the tuple is stored twice or is absent and not admissible; the result is a stored copy of the tuple and failures write nothing |
| `Store.StructGetOrCreateIdempotent` | apps/fbschema/parse_utils.py:71-74 | a second `get_or_create` of the same tuple returns the same row and leaves the state as it is |
| `Store.StructGetOrCreateGrowth` | apps/fbschema/parse_utils.py:82-86 | one `get_or_create` adds at most one tuple, at the end of its own table, and leaves the other struct tables unchanged |
| `Store.CreateKeepsValid` | apps/fbschema/models.py:141-142 | an insert keeps the database invariant |
| `Store.OverwriteKeepsValid` | apps/fbschema/models.py:158-160 | an overwrite keeps the database invariant |
| `Store.StructGetOrCreateKeepsValid` | apps/fbschema/parse_utils.py:57-59 | `get_or_create` never stores a tuple twice |
| `Registry.DeclaredFields` | apps/fbschema/models.py:186-190 | every model's fields start with the automatic `id` and the viewer link `user`, followed by a field of its own |
| `Registry.TrackedFields` | apps/fbschema/models.py:82 | a field is tracked exactly when it is declared and its name is not in `ignore_fields` |
| `Registry.PrimaryIdentifier` | apps/fbschema/models.py:181-389 | `primary_identifier` of each reconciled model (`aid`, `pid`, `link_id`, `notification_id`, `post_id`), and none for the others; stated with its partners by `Registry.RegistryAttributes` |
| `Registry.OwnerIdentifier` | apps/fbschema/models.py:182-390 | `owner_identifier`: `owner` for albums, photos and links, `ONLY_SESSION_USER` for notifications and the stream |
| `Registry.MeClause` | apps/fbschema/models.py:183-392 | `me_clause` of each reconciled model, verbatim |
| `Registry.MyFriendClause` | apps/fbschema/models.py:184-309 | `my_friend_clause` of albums, photos and links, split around its `%d` |
| `Registry.FacebookRowLimit` | apps/fbschema/models.py:348-391 | `facebook_row_limit`: 500 notifications and 50 stream items |
| `Registry.UniqueTogether` | apps/fbschema/models.py:228-528 | `Meta.unique_together` of each model, and the `unique=True` column of `FacebookNotification` (line 367) |
| `Registry.NotNull` | apps/fbschema/models.py:186-528 | the tracked columns declared without `null=True`, which Django refuses to store as NULL |
| `Registry.HandlesIntegrity` | apps/fbschema/models.py:440-449 | only `FacebookStream` defines `handle_integrity_exception` |
| `Registry.RegistryAttributes` | apps/fbschema/models.py:171-392 | exactly the reconciled models declare `primary_identifier`, `owner_identifier` and `me_clause`; a model has a `facebook_row_limit` exactly when it is `ONLY_SESSION_USER`; `my_friend_clause` exists exactly for the owner-scoped models; only a session-user model resolves integrity errors; no primary identifier is an ignored field |
| `FqlUtils.GetFieldlistFromModel` | apps/fbschema/utils.py:17-21 | the declared field names minus `ignore_fields`, in declaration order; no contract of its own, stated by `FqlUtils.FieldlistIsFilteredDeclaration` |
| `FqlUtils.GetFieldsFromModel` | apps/fbschema/utils.py:2-8 | the field list joined with `", "`; stated by `FqlUtils.SplitJoin` and `FqlUtils.JoinSeparators` |
| `FqlUtils.GetFqlFromModel` | apps/fbschema/utils.py:10-14 | `"SELECT %s FROM %s %s"` of the fields segment, the FQL table and the clause; stated by `FqlUtils.QueryShape` |
| `FqlUtils.EveryIn` | apps/fbschema/utils.py:31-33 | one loop of the key check returns false exactly when some element is missing from the other list |
| `FqlUtils.SameKeys` | apps/fbschema/utils.py:31-39 | both loops pass exactly when the two lists hold the same set of names |
| `FqlUtils.CompareKeysWithFields` | apps/fbschema/utils.py:24-39 | true exactly when the set of response keys equals the set of tracked field names |
| `FqlUtils.SplitJoin` | apps/fbschema/utils.py:2-8 | splitting the fields segment at `", "` gives back the field list |
| `FqlUtils.JoinSeparators` | apps/fbschema/utils.py:2-8 | n field names give n - 1 separators, and one name gives just itself |
| `FqlUtils.FieldlistIsFilteredDeclaration` | apps/fbschema/utils.py:17-21 | the field list is a subsequence of the declared names, holds exactly the declared names outside `ignore_fields`, and so names neither `id` nor `user` |
| `FqlUtils.QueryShape` | apps/fbschema/utils.py:10-14 | the query starts with `SELECT ` and the fields segment, ends with the clause as given, and its fields segment splits back into the list |
| `Reconcile.FieldlistNonEmpty` | apps/fbschema/utils.py:7-8 | every model has at least one tracked field, so the fields segment is not empty |
| `Reconcile.FqlQuery` | apps/fbschema/models.py:20-26 | `fql_query(clause)` is `get_fql_from_model` of the model; stated by `Reconcile.FqlQueryShape` |
| `Reconcile.FqlQueryMe` | apps/fbschema/models.py:28-34 | the query of a model's `me_clause`; an `AttributeError` exactly for a model without one |
| `Reconcile.FqlQueryMyFriends` | apps/fbschema/models.py:36-42 | the query with the friend's uid written in decimal in place of `%d`; an `AttributeError` without a clause, a `TypeError` for a uid `%d` does not take |
| `Reconcile.FqlQueryShape` | apps/fbschema/models.py:20-26 | `fql_query` gives `SELECT <fields> FROM <fqlname> <clause>`, the clause verbatim, and its fields segment splits back into the model's field list |
| `Reconcile.ContextUid` | apps/fbschema/models.py:104-108 | no context for `ONLY_SESSION_USER` models; otherwise the owner entry of the first record, an `IndexError` on an empty batch and a `KeyError` when the entry is missing |
| `Reconcile.LocalFqlQuery` | apps/fbschema/models.py:44-58 | without a truthy context, the first `facebook_row_limit` rows in storage order, whoever owns them; with one, exactly the viewer's rows whose owner is the viewer's `FacebookUser` with that uid |
| `Reconcile.SessionComparisonSetIgnoresViewer` | apps/fbschema/models.py:51-54 | for `ONLY_SESSION_USER` models every viewer compares against the same rows |
| `Reconcile.PrimaryIdentifierClass` | apps/fbschema/models.py:60-65 | the declared field named by `primary_identifier`; an `IndexError` exactly when no declared field has that name |
| `Reconcile.PrimaryIdentifierIsColumn` | apps/fbschema/models.py:112-116 | every reconciled model has a primary identifier outside `ignore_fields`; it is one of the names of the model's FQL field list, and `primary_identifier_class()` finds its field, so it never raises `IndexError` |
| `Reconcile.RemoteKey` | apps/fbschema/models.py:115 | a record's key is read only when the record has the primary-key entry, otherwise a `KeyError`; only a struct-kind key can write, and only to struct tables |
| `Reconcile.RemoteKeys` | apps/fbschema/models.py:115-116 | one coerced key per record after the keys already collected, and every record has the primary-key entry; only a struct-kind key writes, and only to struct tables |
| `Reconcile.RemoteKeysDone` | apps/fbschema/models.py:115-116 | for a key that is not a struct reference, the comprehension succeeds exactly when every record has the key and it coerces |
| `Reconcile.RemoteKeysValues` | apps/fbschema/models.py:115-116 | for a key that is not a struct reference, key i is record i's primary-key value coerced by the key's field kind, read at the starting state |
| `Reconcile.ResponseKeys` | apps/fbschema/models.py:115-116 | an empty batch gives no keys and never asks for the key's field; otherwise a missing field is the error of `primary_identifier_class()`; for a non-struct key it succeeds exactly when every record's key coerces, and key i is record i's coerced key; entity tables untouched |
| `Reconcile.LocalKeys` | apps/fbschema/models.py:119 | the primary-key column of each comparison row |
| `Reconcile.KeyDiff` | apps/fbschema/models.py:121-129 | add and update are disjoint and together the remote keys; added keys are not local, updated ones are; delete shares no key with the batch, is empty for streams and otherwise is local minus remote |
| `Reconcile.Plan` | apps/fbschema/models.py:104-129 | on success the key name is the model's `primary_identifier`; add and update together are exactly the response key set, add is disjoint from the comparison rows' keys and update lies within them; delete shares no key with the response, is empty for streams and otherwise is the local keys outside the response; planning writes no entity row |
| `Reconcile.PrepareField` | apps/fbschema/models.py:84-87 | one field adds exactly its name to the result (the value stored is stated by `Reconcile.PrepareFieldsValues`) |
| `Reconcile.PrepareFields` | apps/fbschema/models.py:83-87 | the loop adds exactly the given field names; it never fails with the schema error (values: `Reconcile.PrepareFieldsValues`) |
| `Reconcile.PrepareFieldsKeepsOthers` | apps/fbschema/models.py:83-87 | the loop leaves every entry whose name no remaining field has as it was |
| `Reconcile.PrepareFieldsValues` | apps/fbschema/models.py:83-87 | on success, for each field that is the last of its name, the record holds that name and the stored value is the record's value coerced by `parse_clean_field_value`; the coercion gives that same value again, writing nothing, in the store the loop ends with |
| `Reconcile.PrepareTrackedValues` | apps/fbschema/models.py:76-89 | the same for `prepare_dict` over a tracked-field list, after the key check |
| `Reconcile.PrepareDictValues` | apps/fbschema/models.py:67-89 | `prepare_dict(record, request)` stores, for each tracked field of the model, the record's value coerced by `parse_clean_field_value` |
| `Reconcile.PrepareTracked` | apps/fbschema/models.py:76-89 | the schema error is raised exactly when the keys differ from the field names; a result has exactly the field names as keys |
| `Reconcile.PrepareDict` | apps/fbschema/models.py:67-89 | `prepare_dict` writes no entity row and only grows struct tables |
| `Reconcile.PrepareDictSchema` | apps/fbschema/models.py:76-89 | `ValueError` is raised exactly when `compare_keys_with_fields` fails; a result has exactly the tracked field names as keys |
| `Reconcile.HandleIntegrityException` | apps/fbschema/models.py:440-447 | the viewer's only row already holding the record's key; `DoesNotExist` exactly when there is none |
| `Reconcile.SaveRecord` | apps/fbschema/models.py:138-160 | a failed step writes nothing |
| `Reconcile.SaveOne` | apps/fbschema/models.py:136-160 | one pass of the loop: `prepare_dict`, then the write of `Reconcile.SaveRecord`; stated by `Reconcile.SaveOneConfined` and `Reconcile.SaveOneKeepsValid` |
| `Reconcile.SaveAll` | apps/fbschema/models.py:136-160 | the loop over the response in order, ending at the first failure with the earlier writes kept; stated by `Reconcile.SaveAllConfined`, `Reconcile.SaveAllKeepsValid` and `Streams.SaveAllConcat` |
| `Reconcile.SaveUpdateDelete` | apps/fbschema/models.py:92-160 | `save_update_delete`: `Reconcile.Plan`, then `Reconcile.SaveAll` over the tracked fields with the plan's key and lists; stated by `Reconcile.SaveUpdateDeleteConfined`, `Reconcile.SaveUpdateDeleteKeepsValid` and `Reconcile.EmptyBatch` |
| `Reconcile.SaveRecordEffect` | apps/fbschema/models.py:138-160 | a key in neither list writes nothing; an added key appends a row for the viewer under the next id or, for streams, overwrites the viewer's row with that key; an updated key overwrites the viewer's row with that key, keeping its id and owner; a clash on a model without the resolver is an `AttributeError`; an update with no row is `DoesNotExist` |
| `Reconcile.SaveRecordConfined` | apps/fbschema/models.py:138-160 | one save removes and moves no row, changes only the viewer's rows with a listed key, and adds only the viewer's rows with a listed key |
| `Reconcile.SaveOneConfined` | apps/fbschema/models.py:136-160 | the same for one pass of the loop, `prepare_dict` included |
| `Reconcile.SaveAllConfined` | apps/fbschema/models.py:136-160 | the same for the whole loop |
| `Reconcile.SaveUpdateDeleteConfined` | apps/fbschema/models.py:92-160 | `save_update_delete` deletes no row; rows of other viewers, rows whose key is not in the batch and other tables stay as they were; a failure before the loop writes no entity row |
| `Streams.StreamClash` | apps/fbschema/models.py:449-450 | two stream rows collide exactly when they share viewer and a non-NULL `post_id` |
| `Streams.StreamFirstInsert` | apps/fbschema/models.py:138-142 | a record with a `post_id` the viewer does not hold is inserted under the next id |
| `Streams.StreamSecondMerges` | apps/fbschema/models.py:138-154 | a record in the add list whose non-NULL `post_id` the viewer holds in exactly one row, at any position, is written over that row under its id, and nothing else in the table changes |
| `Streams.StreamDuplicateMerges` | apps/fbschema/models.py:136-154 | two consecutive records with the same new `post_id` leave one row, with the first insert's id and the second record's data |
| `Streams.StreamOtherKey` | apps/fbschema/models.py:138-160 | saving a record with another `post_id` keeps the viewer's rows holding this one and adds none |
| `Streams.StreamHasNoRelations` | apps/fbschema/models.py:384-450 | every tracked field of the stream model is coerced without a lookup |
| `Streams.PrepareTrackedStateless` | apps/fbschema/models.py:76-89 | for fields without relations `prepare_dict` reads and writes nothing in the store |
| `Streams.LastCarriedIsLast` | apps/fbschema/models.py:136-154 | the data `LastCarried` picks is that of the last record carrying the key |
| `Streams.SaveAllConcat` | apps/fbschema/models.py:136 | the loop over two concatenated batches is the loop over the first, then, if it succeeds, over the second |
| `Streams.StreamKeepsAbsent` | apps/fbschema/models.py:136-160 | records not carrying a `post_id` never give the viewer a row for it |
| `Streams.StreamBatchKeepsHolder` | apps/fbschema/models.py:136-154 | once one row holds a `post_id` of the add list, a successful run over any batch keeps it the only holder, under its id, with the data of the last record carrying the key |
| `Streams.StreamBatchStartsHere` | apps/fbschema/models.py:136-154 | a batch whose first record carries a new `post_id` appends one row for it, which ends holding the last carrier's data |
| `Streams.StreamBatchMerges` | apps/fbschema/models.py:136-154 | in a successful stream batch with any records before and between the carriers of a new `post_id`, exactly one viewer row holds it: the row the first carrier appended, under the id assigned then, with the data of the last carrier |
| `Reconcile.Sync` | apps/fbschema/views.py:184-186 | a view's call with the model's own fields: an empty response leaves the store as it is, and every run keeps the database invariant |
| `Reconcile.EmptyBatch` | apps/fbschema/models.py:104-110 | an empty batch is an `IndexError` with nothing written for owner-scoped models, and writes nothing for `ONLY_SESSION_USER` models |
| `Reconcile.PrepareFieldsKeepsValid` | apps/fbschema/models.py:83-87 | the field loop keeps the database invariant |
| `Reconcile.PrepareDictKeepsValid` | apps/fbschema/models.py:67-89 | `prepare_dict` keeps the database invariant |
| `Reconcile.RemoteKeysKeepsValid` | apps/fbschema/models.py:115-116 | coercing the remote keys keeps the database invariant |
| `Reconcile.ResponseKeysKeepsValid` | apps/fbschema/models.py:115-116 | building the remote key set keeps the database invariant |
| `Reconcile.PlanKeepsValid` | apps/fbschema/models.py:104-129 | planning keeps the database invariant |
| `Reconcile.SaveRecordKeepsValid` | apps/fbschema/models.py:138-160 | one save keeps the database invariant |
| `Reconcile.SaveOneKeepsValid` | apps/fbschema/models.py:136-160 | one pass of the loop keeps the database invariant |
| `Reconcile.SaveAllKeepsValid` | apps/fbschema/models.py:136-160 | the loop keeps the database invariant |
| `Reconcile.SaveUpdateDeleteKeepsValid` | apps/fbschema/models.py:92-160 | `save_update_delete` keeps the database invariant |
| `Rerun.SaveRecordResave` | apps/fbschema/models.py:155-160 | saving again a record whose data the viewer's only row with that key already holds succeeds and changes nothing |
| `Rerun.LinkFirstRun` | apps/fbschema/models.py:136-154 | two new `FacebookLink` records with one `link_id`: the first is inserted, the second clashes and, with no resolver, ends in `AttributeError` with the first row kept |
| `Rerun.LinkSecondRun` | apps/fbschema/models.py:155-160 | the same records run again over that row, now in the update list: both overwrite it and the second one's data remains |
| `Rerun.LinkRerunChangesStore` | apps/fbschema/models.py:131-160 | the loop body run over the two records twice, given the add and update lists the two runs compute (the key new on the first run, present on the second), leaves a different store after the second run than after the first |
| `Engine.Database.Create` | apps/fbschema/models.py:141-142 | the in-place insert ends in the state and result of `Store.Create` |
| `Engine.Database.Overwrite` | apps/fbschema/models.py:159-160 | the in-place overwrite ends as `Store.Overwrite` |
| `Engine.Database.StructGetOrCreate` | apps/fbschema/parse_utils.py:57-59 | the in-place `get_or_create` ends as `Store.StructGetOrCreate` |
| `Engine.Database.ParseCleanFieldValue` | apps/fbschema/parse_utils.py:37-92 | in-place coercion ends as `Coercion.ParseCleanFieldValue` |
| `Engine.Database.PrepareField` | apps/fbschema/models.py:84-87 | one field of `prepare_dict`, ending as `Reconcile.PrepareField` |
| `Engine.Database.PrepareFields` | apps/fbschema/models.py:83-87 | the field loop, ending as `Reconcile.PrepareFields` |
| `Engine.Database.PrepareTracked` | apps/fbschema/models.py:76-89 | the key check and the field loop, ending as `Reconcile.PrepareTracked` |
| `Engine.Database.PrepareDict` | apps/fbschema/models.py:67-89 | `prepare_dict`, ending as `Reconcile.PrepareDict` |
| `Engine.Database.RemoteKey` | apps/fbschema/models.py:115 | one remote key, ending as `Reconcile.RemoteKey` |
| `Engine.Database.RemoteKeys` | apps/fbschema/models.py:115-116 | the remote key loop, ending as `Reconcile.RemoteKeys` |
| `Engine.Database.SaveRecord` | apps/fbschema/models.py:138-160 | one save, ending as `Reconcile.SaveRecord` |
| `Engine.Database.Plan` | apps/fbschema/models.py:104-129 | the planning steps, ending as `Reconcile.Plan` |
| `Engine.Database.SaveAll` | apps/fbschema/models.py:136-160 | the batch loop, ending as `Reconcile.SaveAll` |
| `Engine.Database.Sync` | apps/fbschema/views.py:184-186 | the guarded in-place call ends as `Reconcile.Sync` and keeps the database invariant |
| `Engine.Database.SaveUpdateDelete` | apps/fbschema/models.py:92-160 | `save_update_delete` ends as `Reconcile.SaveUpdateDelete` and keeps the database invariant |

## Left out

- Reconcile.FqlQueryShape: takes as a hypothesis that no tracked field name contains a comma. Every declared name is a plain identifier, but the model does not derive this from the field tables.
- Coercion.ParseFbDate: `strptime` and `fromtimestamp` are parameters (`Dates`). Month-name locale handling and the local time zone of `fromtimestamp` are not modelled; only the control flow around them is.
- Values.PyInt: `int()` on a unicode string is modelled as CPython 2.7 does it on a build with four-byte characters: Unicode whitespace and the decimal digits of Unicode 5.2 are mapped to ASCII, then the text is parsed. On a two-byte build a character beyond U+FFFF is a surrogate pair, which cannot be encoded; that build is not modelled. The fallback to `long` on overflow is taken to accept the same text as the `int` parse.
- Coercion.ParseFbArray: `__str__` is modelled for strings, integers, booleans, `None`, lists and dicts. Floats, `long`, the exact escaping of `repr` inside containers and the order of a dict's entries are not modelled: Python 2 prints a dict's entries in hash-table order, while the model prints them in the order they were decoded.
- Coercion.PrepLookup: Django converts a lookup value to the column type. That conversion is modelled for big-integer and char columns only.
- Reconcile.SaveRecord: the model constructor `self(user=..., **data_dict)` (apps/fbschema/models.py:141, 159) raises Django's `ValueError` when a relation field receives a falsy value other than `None` (`[]`, `{}`, `0`). That check is not modelled: `Store.Create` and `Store.Overwrite` store such a cell.
- The conversion Django applies to a value when it saves a row is not modelled. A row stores the coerced cells as they are.
- `Store` draws every new row's id from one global sequence, not from a sequence per table. Ids stay unique and increasing within each table.
- Transactions and concurrent runs of the engine are not modelled. Each save is its own step, which matches Django's autocommit.
- The delete list is computed and never applied, as in the source.
- Without a context, the comparison set is the first rows of the table, whoever owns them. A key stored only by another viewer therefore lands in the update list. The update lookup is then scoped to the viewer and fails with `DoesNotExist`. The model keeps this behaviour (`Reconcile.LocalFqlQuery`, `Reconcile.SessionComparisonSetIgnoresViewer`, `Reconcile.SaveRecordEffect`).
- `FacebookLike` is not reconciled by the engine and its fields are not part of this model. Its relation to `FacebookUser` is per viewer only through `user`, which it does not declare.
- The views (apps/fbschema/views.py, apps/index/views.py, apps/home/views.py), the Facebook graph client and the HTTP flow are I/O and are left out. Only the way they hand one response to the engine is modelled (`Reconcile.Sync`); see Findings for the calls without the empty-response guard.
- Reconcile.SaveUpdateDelete: idempotence is neither proved nor refuted for whole runs. The counterexample is shown for the loop body, given the add and update lists the two runs compute: a response repeating a key of an entity without a resolver fails on the first run and succeeds with other data on the second (`Rerun.LinkRerunChangesStore`). What is proved in general is the per-record part: a record already stored as it is re-saves without change (`Rerun.SaveRecordResave`).
- Rerun.LinkRerunChangesStore: it is proved for four `SaveRecord` calls over prepared maps, with the add and update lists written out as the two runs compute them (the key new, then present); it does not go through `Reconcile.Plan` or `Reconcile.SaveUpdateDelete`, so that `local_fql_query` finds the first run's row on the second run is not part of the proof.
- Streams.StreamBatchMerges: takes as hypotheses that the tracked fields hold no relation, which `Streams.StreamHasNoRelations` proves field by field for the stream model, and that the key is in the add list; it does not derive the second from `Reconcile.Plan` for a given batch.
- Reconcile.RemoteKeysValues: the pointwise value of each key is stated for keys that are not struct references; for a struct-reference key, coercing one record may write, and the later records are read against the grown state.
- Values.Get: a record is an association list and may repeat a key; a repeated key reads as its last value, as Python's `json` decoder keeps it.
- URL routing, the admin configuration, `logger` and `print` calls have no effect on the store and are left out.
- `FacebookUser` assigns `movies` twice in its class body (apps/fbschema/models.py:491, 499). Only the second field object survives, and it keeps its place after `subscriber_count`, so `Registry.DeclaredFields` lists one `movies` field there.

## Findings

| source | as written | input that shows it | evidently intended | confidence | as-written member | corrected member |
|---|---|---|---|---|---|---|
| apps/fbschema/views.py:126 (also :156 and :249) | `save_update_delete` is called on an owner-scoped model (`FacebookAlbum`, `FacebookPhoto`, `FacebookLink`) without checking the response, and models.py:107 reads `response_data[0]` | an FQL response with no rows, for a viewer with no albums, photos or links | an empty response leaves the store as it is, as the guarded calls at views.py:185-186 and :224-225 do | not executed | `Reconcile.EmptyBatch` | `Reconcile.Sync` |
