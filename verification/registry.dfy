// The static description of every synchronised entity: its FQL table name,
// its declared fields in declaration order with their Django field kinds, the
// class attributes the engine reads (primary and owner identifiers, clauses,
// row limit) and its uniqueness constraints.

module Registry {
  import opened Base

  /** The shared lookup tables of struct_models.py. */
  datatype StructKind = StructAgeRange | StructCommentInfo | StructLikeInfo

  datatype Entity =
    | FacebookAlbum
    | FacebookPhoto
    | FacebookLink
    | FacebookNotification
    | FacebookStream
    | FacebookUser
    | FacebookFriend

  /** What a `ForeignKey` points to: Django's account table, one of the
      entities, or a struct table. */
  datatype Target = AuthUser | Model(entity: Entity) | Struct(kind: StructKind)

  /** Django field classes. `EmailField` is a subclass of `CharField` and is
      declared as one. */
  datatype Kind =
    | AutoField
    | CharField
    | TextField
    | DateTimeField
    | NullBooleanField
    | IntegerField
    | BigIntegerField
    | ForeignKey(to: Target)

  datatype FieldSpec = FieldSpec(name: string, kind: Kind)

  /** One entry of `unique_together`, or a single `unique=True` column. */
  datatype UniqueConstraint = UniqueConstraint(columns: seq<string>)

  /** `BaseFbModel.ignore_fields`: local-only columns never requested remotely. */
  const IgnoreFields: seq<string> := ["id", "user"]

  /** The `owner_identifier` sentinel of entities compared without a context. */
  const OnlySessionUser: string := "ONLY_SESSION_USER"

  function F(name: string, kind: Kind): FieldSpec { FieldSpec(name, kind) }

  /** Django puts the automatic `id` first, then the declared fields in
      declaration order; every entity here has the viewer link `user`. */
  function Declared(first: FieldSpec, rest: seq<FieldSpec>): seq<FieldSpec>
  {
    [F("id", AutoField), F("user", ForeignKey(AuthUser)), first] + rest
  }

  const CommentInfo := ForeignKey(Struct(StructCommentInfo))
  const LikeInfo := ForeignKey(Struct(StructLikeInfo))
  const OwnerUser := ForeignKey(Model(FacebookUser))

  /** `fqlname`: the FQL table an entity is read from. */
  function FqlName(e: Entity): string
  {
    match e
    case FacebookAlbum => "album"
    case FacebookPhoto => "photo"
    case FacebookLink => "link"
    case FacebookNotification => "notification"
    case FacebookStream => "stream"
    case FacebookUser => "user"
    case FacebookFriend => "friend"
  }

  /** The model's fields in `_meta.fields` order: its first declared field,
      then the rest. */
  function DeclaredFields(e: Entity): (r: seq<FieldSpec>)
    ensures |r| > 2 && r[0].name == "id" && r[1].name == "user" && r[2].name != "id" && r[2].name != "user"
  {
    match e
    case FacebookAlbum => Declared(F("aid", CharField), AlbumFields())
    case FacebookPhoto => Declared(F("aid", ForeignKey(Model(FacebookAlbum))), PhotoFields())
    case FacebookLink => Declared(F("backdated_time", DateTimeField), LinkFields())
    case FacebookNotification => Declared(F("app_id", BigIntegerField), NotificationFields())
    case FacebookStream => Declared(F("action_links", TextField), StreamFields())
    case FacebookUser => Declared(F("about_me", TextField), UserFields())
    case FacebookFriend => Declared(F("uid1", BigIntegerField), FriendFields())
  }

  // The fields each model declares after its first one, in declaration order.

  function AlbumFields(): (r: seq<FieldSpec>)
  {
    [
      F("backdated_time", DateTimeField), F("can_backdate", NullBooleanField),
      F("can_upload", NullBooleanField), F("comment_info", CommentInfo),
      F("cover_object_id", BigIntegerField), F("cover_pid", BigIntegerField),
      F("created", DateTimeField), F("description", TextField), F("edit_link", CharField),
      F("is_user_facing", NullBooleanField), F("like_info", LikeInfo), F("link", CharField),
      F("location", CharField), F("modified", DateTimeField), F("modified_major", DateTimeField),
      F("name", TextField), F("object_id", BigIntegerField), F("owner", OwnerUser),
      F("owner_cursor", CharField), F("photo_count", IntegerField), F("place_id", BigIntegerField),
      F("type", CharField), F("video_count", IntegerField), F("visible", CharField)]
  }

  function PhotoFields(): (r: seq<FieldSpec>)
  {
    [
      F("aid_cursor", CharField),
      F("album_object_id", BigIntegerField), F("album_object_id_cursor", CharField),
      F("backdated_time", DateTimeField), F("backdated_time_granularity", CharField),
      F("can_backdate", NullBooleanField), F("can_delete", NullBooleanField),
      F("can_tag", NullBooleanField), F("caption", TextField), F("caption_tags", TextField),
      F("comment_info", CommentInfo), F("created", DateTimeField), F("images", TextField),
      F("like_info", LikeInfo), F("link", CharField), F("modified", DateTimeField),
      F("object_id", BigIntegerField), F("offline_id", BigIntegerField), F("owner", OwnerUser),
      F("owner_cursor", CharField), F("page_story_id", BigIntegerField), F("pid", BigIntegerField),
      F("place_id", BigIntegerField), F("position", IntegerField), F("src", CharField),
      F("src_big", CharField), F("src_big_height", IntegerField), F("src_big_width", IntegerField),
      F("src_height", IntegerField), F("src_small", CharField), F("src_small_height", IntegerField),
      F("src_small_width", IntegerField), F("src_width", IntegerField),
      F("target_id", BigIntegerField), F("target_type", CharField)]
  }

  function LinkFields(): (r: seq<FieldSpec>)
  {
    [
      F("can_backdate", NullBooleanField),
      F("caption", TextField), F("comment_info", CommentInfo), F("created_time", DateTimeField),
      F("image_urls", TextField), F("like_info", LikeInfo), F("link_id", BigIntegerField),
      F("owner", OwnerUser), F("owner_comment", TextField), F("owner_cursor", CharField),
      F("picture", CharField), F("summary", TextField), F("title", TextField),
      F("url", CharField), F("via_id", BigIntegerField)]
  }

  function NotificationFields(): (r: seq<FieldSpec>)
  {
    [
      F("body_html", TextField), F("body_text", TextField),
      F("created_time", DateTimeField), F("href", CharField), F("icon_url", CharField),
      F("is_hidden", IntegerField), F("is_unread", IntegerField),
      F("notification_id", BigIntegerField), F("object_id", CharField),
      F("object_type", CharField), F("recipient_id", OwnerUser), F("sender_id", BigIntegerField),
      F("title_html", TextField), F("title_text", TextField), F("updated_time", DateTimeField)]
  }

  function StreamFields(): (r: seq<FieldSpec>)
  {
    [
      F("actor_id", BigIntegerField), F("attribution", CharField),
      F("created_time", DateTimeField), F("description", TextField),
      F("description_tags", TextField), F("expiration_timestamp", DateTimeField),
      F("filter_key", CharField), F("impressions", IntegerField), F("is_hidden", NullBooleanField),
      F("is_published", NullBooleanField), F("message", TextField), F("message_tags", TextField),
      F("parent_post_id", CharField), F("permalink", CharField), F("place", BigIntegerField),
      F("post_id", CharField), F("share_count", IntegerField), F("source_id", BigIntegerField),
      F("subscribed", NullBooleanField), F("tagged_ids", TextField), F("target_id", BigIntegerField),
      F("timeline_visibility", CharField), F("type", IntegerField), F("updated_time", DateTimeField),
      F("via_id", BigIntegerField), F("viewer_id", BigIntegerField),
      F("with_location", NullBooleanField), F("with_tags", TextField), F("xid", BigIntegerField)]
  }

  // `movies` is assigned twice in the class body; only the second field
  // object survives, so it sits where the second declaration stands.
  function UserFields(): (r: seq<FieldSpec>)
  {
    [
      F("activities", TextField), F("affiliations", TextField),
      F("age_range", ForeignKey(Struct(StructAgeRange))), F("allowed_restrictions", CharField),
      F("birthday", DateTimeField), F("books", TextField), F("can_message", NullBooleanField),
      F("devices", CharField), F("education", TextField), F("email", CharField),
      F("first_name", CharField), F("friend_count", IntegerField), F("interests", TextField),
      F("likes_count", IntegerField), F("mutual_friend_count", IntegerField),
      F("quotes", TextField), F("relationship_status", CharField), F("religion", CharField),
      F("sex", CharField), F("subscriber_count", IntegerField), F("movies", TextField),
      F("uid", BigIntegerField), F("username", CharField), F("wall_count", IntegerField),
      F("website", CharField), F("work", TextField)]
  }

  function FriendFields(): (r: seq<FieldSpec>)
  {
    [F("uid2", BigIntegerField)]
  }

  /** `primary_identifier`: the column that identifies a record remotely. */
  function PrimaryIdentifier(e: Entity): Option<string>
  {
    match e
    case FacebookAlbum => Some("aid")
    case FacebookPhoto => Some("pid")
    case FacebookLink => Some("link_id")
    case FacebookNotification => Some("notification_id")
    case FacebookStream => Some("post_id")
    case _ => None
  }

  /** `owner_identifier`: the column naming the owning `FacebookUser`, or
      the `ONLY_SESSION_USER` sentinel. */
  function OwnerIdentifier(e: Entity): Option<string>
  {
    match e
    case FacebookAlbum | FacebookPhoto | FacebookLink => Some("owner")
    case FacebookNotification | FacebookStream => Some(OnlySessionUser)
    case _ => None
  }

  /** `me_clause`. */
  function MeClause(e: Entity): Option<string>
  {
    match e
    case FacebookAlbum => Some("WHERE owner=me()")
    case FacebookPhoto | FacebookLink => Some("WHERE owner=me() limit 5000")
    case FacebookNotification => Some("WHERE recipient_id=me()")
    case FacebookStream => Some("WHERE filter_key in (SELECT filter_key FROM stream_filter WHERE uid=me())")
    case _ => None
  }

  /** `my_friend_clause`, split around its single `%d`. */
  function MyFriendClause(e: Entity): Option<(string, string)>
  {
    match e
    case FacebookAlbum => Some(("WHERE owner=", ""))
    case FacebookPhoto | FacebookLink => Some(("WHERE owner=", " limit 5000"))
    case _ => None
  }

  /** `facebook_row_limit`. */
  function FacebookRowLimit(e: Entity): Option<nat>
  {
    match e
    case FacebookNotification => Some(500)
    case FacebookStream => Some(50)
    case _ => None
  }

  /** `unique_together`, and the single `unique=True` column of
      `FacebookNotification`. */
  function UniqueTogether(e: Entity): seq<UniqueConstraint>
  {
    match e
    case FacebookAlbum => [UniqueConstraint(["user", "object_id", "owner"])]
    case FacebookPhoto => [UniqueConstraint(["user", "pid", "owner"])]
    case FacebookLink => [UniqueConstraint(["user", "link_id"])]
    case FacebookNotification => [UniqueConstraint(["notification_id"])]
    case FacebookStream => [UniqueConstraint(["user", "post_id"])]
    case FacebookUser => [UniqueConstraint(["user", "uid"])]
    case FacebookFriend => [UniqueConstraint(["user", "uid1", "uid2"])]
  }

  /** The tracked columns declared without `null=True`. */
  function NotNull(e: Entity): seq<string>
  {
    match e
    case FacebookAlbum => ["aid", "cover_object_id", "cover_pid", "object_id", "owner"]
    case FacebookPhoto => ["album_object_id", "object_id", "owner"]
    case FacebookLink => ["link_id", "owner"]
    case FacebookNotification => ["recipient_id"]
    case FacebookStream => []
    case FacebookUser => ["uid"]
    case FacebookFriend => ["uid1", "uid2"]
  }

  /** Whether the class defines `handle_integrity_exception`. */
  function HandlesIntegrity(e: Entity): bool
  {
    e == FacebookStream
  }

  /** The fields the engine requests and writes: the declared ones minus
      `ignore_fields`, in declaration order. */
  function TrackedFields(fields: seq<FieldSpec>): (r: seq<FieldSpec>)
    ensures forall f :: f in r <==> f in fields && f.name !in IgnoreFields
  {
    if fields == [] then []
    else if fields[0].name in IgnoreFields then TrackedFields(fields[1..])
    else [fields[0]] + TrackedFields(fields[1..])
  }

  function Names(fields: seq<FieldSpec>): (r: seq<string>)
    ensures |r| == |fields|
    ensures forall i :: 0 <= i < |fields| ==> r[i] == fields[i].name
  {
    if fields == [] then [] else [fields[0].name] + Names(fields[1..])
  }

  /** `a` is `b` with some elements left out, the rest in the same order. */
  predicate IsSubsequence<T(==)>(a: seq<T>, b: seq<T>)
  {
    if a == [] then true
    else if b == [] then false
    else if a[0] == b[0] then IsSubsequence(a[1..], b[1..])
    else IsSubsequence(a, b[1..])
  }

  /** The entities `save_update_delete` is run for. */
  predicate Reconciled(e: Entity)
  {
    e in {FacebookAlbum, FacebookPhoto, FacebookLink, FacebookNotification, FacebookStream}
  }

  /** How the class attributes go together: exactly the reconciled models
      declare `primary_identifier`, `owner_identifier` and `me_clause`; a
      model compares against its last `facebook_row_limit` rows exactly when
      it is scoped to the session user; `my_friend_clause` exists exactly for
      the owner-scoped models; and only a session-user model resolves its
      integrity errors. */
  lemma RegistryAttributes(e: Entity)
    ensures Reconciled(e) <==> PrimaryIdentifier(e).Some?
    ensures Reconciled(e) <==> OwnerIdentifier(e).Some?
    ensures Reconciled(e) <==> MeClause(e).Some?
    ensures OwnerIdentifier(e) == Some(OnlySessionUser) <==> FacebookRowLimit(e).Some?
    ensures MyFriendClause(e).Some? <==> OwnerIdentifier(e) == Some("owner")
    ensures HandlesIntegrity(e) ==> OwnerIdentifier(e) == Some(OnlySessionUser)
    ensures PrimaryIdentifier(e).Some? ==> PrimaryIdentifier(e).value !in IgnoreFields
  {
  }
}
