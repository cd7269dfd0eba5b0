/**
 * The decision logic of server/src/routes/user.ts: the id check `validIdParam`, the
 * self-or-admin rule `authorized`, the profile fields `PUT /:id` overwrites, the avatar checks,
 * the banned check of `GET /me`, and the `likesCount` pass of the profile view.
 *
 * The database is a lookup passed in: `findByPk(key)` stands for `User.findByPk`, with the
 * key as the text the query sends.
 */
module UserRoutes {
  import opened Outcomes
  import opened JsNumbers
  import opened Http
  import opened ImageFiles

  /** A JSON value of a request body. */
  datatype Json =
    | JNull
    | JBool(b: bool)
    | JNumber(n: int)
    | JString(s: string)
    | JArray(items: seq<Json>)
    | JObject(members: seq<(string, Json)>)

  /** The columns of a user row the handlers look at. */
  datatype Account = Account(id: int, role: string, status: string)

  // ----------------------------------------------------------------------------
  // validIdParam

  /** `validIdParam()`: the 400 it answers when `parseInt(id)` is NaN, or None when it calls `next()`. */
  function ValidIdParam(rawId: string): (rejection: Option<Reply>)
    ensures rejection.None? <==> StartsWithNumeral(rawId)
    ensures rejection.Some? ==> rejection.value == SendStatus(BAD_REQUEST)
  {
    if ParseInt(rawId).None? then Some(SendStatus(BAD_REQUEST)) else None
  }

  /** Only a leading numeral matters: trailing text and leading white space with a sign pass, words and "" do not. */
  lemma ValidIdParamExamples()
    ensures ValidIdParam("12abc").None?
    ensures ValidIdParam(" -3").None?
    ensures ValidIdParam("abc") == Some(SendStatus(BAD_REQUEST))
    ensures ValidIdParam("") == Some(SendStatus(BAD_REQUEST))
  {
    ParseIntRejectsNonNumerals();
    ParseIntStopsAtFirstNonDigit();
    ParseIntSkipsSpaceAndSign();
  }

  // ----------------------------------------------------------------------------
  // authorized

  datatype Authorization =
    /** the status `authorized()` answers with */
    | Deny(status: nat)
    /** `req.user = user; next()` */
    | Proceed(user: Account)

  /**
   * `authorized()`: `caller` is the id of the signed-in user (None when `req.isAuthenticated()`
   * is false). The target is looked up by the raw id, except that a caller whose id renders as
   * that raw id reuses their own row.
   */
  function Authorize(caller: Option<int>, rawId: string, findByPk: string -> Option<Account>): (d: Authorization)
    ensures caller.None? ==> d == Deny(UNAUTHORIZED)
    ensures caller.Some? && (findByPk(DecimalString(caller.value)).None? || findByPk(rawId).None?) ==> d == Deny(NOT_FOUND)
    ensures d.Proceed? <==>
      && caller.Some? && findByPk(DecimalString(caller.value)).Some? && findByPk(rawId).Some?
      && (findByPk(DecimalString(caller.value)).value.id == findByPk(rawId).value.id
          || findByPk(DecimalString(caller.value)).value.role == "admin")
    ensures d.Proceed? ==> Some(d.user) == findByPk(rawId)
    ensures d.Deny? ==> d.status in {UNAUTHORIZED, NOT_FOUND}
    ensures caller.Some? && findByPk(DecimalString(caller.value)).Some? && findByPk(rawId).Some? && !d.Proceed? ==>
      d == Deny(UNAUTHORIZED)
  {
    if caller.None? then Deny(UNAUTHORIZED)
    else
      var me := findByPk(DecimalString(caller.value));
      var user := if DecimalString(caller.value) == rawId then me else findByPk(rawId);
      if user.None? || me.None? then Deny(NOT_FOUND)
      else if me.value.id != user.value.id && me.value.role != "admin" then Deny(UNAUTHORIZED)
      else Proceed(user.value)
  }

  /** An admin may act on every user that exists. */
  lemma AdminMayActOnAnyone(caller: int, rawId: string, findByPk: string -> Option<Account>)
    requires findByPk(DecimalString(caller)).Some? && findByPk(DecimalString(caller)).value.role == "admin"
    requires findByPk(rawId).Some?
    ensures Authorize(Some(caller), rawId, findByPk) == Proceed(findByPk(rawId).value)
  {
  }

  /**
   * A caller who is not an admin proceeds exactly when the raw id finds a row with the caller's
   * own id, whatever spelling of that id the raw id is, and then acts on that row.
   */
  lemma NonAdminOnlyOnSelf(caller: int, rawId: string, findByPk: string -> Option<Account>)
    requires findByPk(DecimalString(caller)).Some? && findByPk(DecimalString(caller)).value.role != "admin"
    ensures Authorize(Some(caller), rawId, findByPk).Proceed? <==>
      findByPk(rawId).Some? && findByPk(rawId).value.id == findByPk(DecimalString(caller)).value.id
    ensures Authorize(Some(caller), rawId, findByPk).Proceed? ==>
      Authorize(Some(caller), rawId, findByPk).user.id == findByPk(DecimalString(caller)).value.id
  {
  }

  // ----------------------------------------------------------------------------
  // PUT /:id

  /** The profile fields `PUT /:id` may overwrite. */
  datatype Profile = Profile(email: Json, avatar: Json, username: Json)

  const PROFILE_KEYS: seq<string> := ["email", "avatar", "username"]

  function Field(p: Profile, key: string): Json
    requires key in PROFILE_KEYS
  {
    if key == "email" then p.email else if key == "avatar" then p.avatar else p.username
  }

  /** `value === "" ? null : value`: an empty string clears the field, anything else is stored as sent. */
  function Stored(value: Json): (v: Json)
    ensures v != JString("")
    ensures v == value <==> value != JString("")
    ensures v == JNull <==> value == JNull || value == JString("")
  {
    if value == JString("") then JNull else value
  }

  /** The profile once each of its keys present in `body` is stored. */
  function ApplyProfileBody(p: Profile, body: map<string, Json>): (r: Profile)
    ensures forall key :: key in PROFILE_KEYS && key !in body ==> Field(r, key) == Field(p, key)
    ensures forall key :: key in PROFILE_KEYS && key in body ==> Field(r, key) == Stored(body[key])
  {
    Profile(
      if "email" in body then Stored(body["email"]) else p.email,
      if "avatar" in body then Stored(body["avatar"]) else p.avatar,
      if "username" in body then Stored(body["username"]) else p.username)
  }

  /** Sending the same body twice leaves the profile as sending it once. */
  lemma ProfileUpdateIdempotent(p: Profile, body: map<string, Json>)
    ensures ApplyProfileBody(ApplyProfileBody(p, body), body) == ApplyProfileBody(p, body)
  {
    var once := ApplyProfileBody(p, body);
    var twice := ApplyProfileBody(once, body);
    forall key | key in PROFILE_KEYS
      ensures Field(twice, key) == Field(once, key)
    {
    }
    assert Field(twice, "email") == Field(once, "email");
    assert Field(twice, "avatar") == Field(once, "avatar");
    assert Field(twice, "username") == Field(once, "username");
  }

  /** The row `req.user` holds once `authorized` has let the request through. */
  class UserRow {
    const id: int
    const role: string
    const status: string
    var email: Json
    var avatar: Json
    var username: Json

    constructor (id: int, role: string, status: string, profile: Profile)
      ensures this.id == id && this.role == role && this.status == status && CurrentProfile() == profile
    {
      this.id, this.role, this.status := id, role, status;
      email, avatar, username := profile.email, profile.avatar, profile.username;
    }

    function CurrentProfile(): Profile
      reads this
    {
      Profile(email, avatar, username)
    }

    /** `PUT /:id` once authorized: overwrite the fields the body names, then answer "OK". */
    method UpdateProfile(body: map<string, Json>) returns (reply: Reply)
      modifies this`email, this`avatar, this`username
      ensures CurrentProfile() == ApplyProfileBody(old(CurrentProfile()), body)
      ensures reply == SendText(OK, "OK")
    {
      if "email" in body {
        email := Stored(body["email"]);
      }
      if "avatar" in body {
        avatar := Stored(body["avatar"]);
      }
      if "username" in body {
        username := Stored(body["username"]);
      }
      reply := SendText(OK, "OK");
    }
  }

  // ----------------------------------------------------------------------------
  // POST /:id/avatar

  /** `POST /:id/avatar` once authorized: the first failing check's 400, or the url the upload reports. */
  function AvatarReply(file: Option<UploadedFile>, secureUrl: Option<string>): (reply: Reply)
    ensures reply.JsonUrl? <==> CheckImage(file).None?
    ensures reply.JsonUrl? ==> reply.url == secureUrl
    ensures !reply.JsonUrl? ==> reply.SendText? && reply.code == BAD_REQUEST && CheckImage(file) == Some(reply.body)
  {
    var error := CheckImage(file);
    if error.Some? then SendText(BAD_REQUEST, error.value) else JsonUrl(secureUrl)
  }

  /** An avatar of exactly 3 MiB is uploaded; one byte more is refused with "Size exceeded 3 MB". */
  lemma AvatarSizeLimit(secureUrl: Option<string>)
    ensures AvatarReply(Some(UploadedFile(3145728, "image/png")), secureUrl) == JsonUrl(secureUrl)
    ensures AvatarReply(Some(UploadedFile(3145729, "image/png")), secureUrl) == SendText(BAD_REQUEST, "Size exceeded 3 MB")
    ensures AvatarReply(Some(UploadedFile(3145729, "text/plain")), secureUrl) == SendText(BAD_REQUEST, "Size exceeded 3 MB")
    ensures AvatarReply(None, secureUrl) == SendText(BAD_REQUEST, "No file was uploaded.")
  {
    SizeLimitIsInclusive("image/png");
  }

  // ----------------------------------------------------------------------------
  // GET /me

  datatype MeReply =
    /** `{ authenticated: false }` */
    | SignedOut
    /** `{ authenticated: req.isAuthenticated(), user }` */
    | SignedIn(authenticated: bool, user: Account)

  /** The parts of a request `GET /me` reads and writes. */
  class Request {
    /** `req.user`, set by the session for a signed-in caller */
    const user: Option<Account>
    /** the cookie session; `req.session = null` clears it */
    var session: Option<int>

    constructor (user: Option<Account>, session: Option<int>)
      ensures this.user == user && this.session == session
    {
      this.user, this.session := user, session;
    }

    /** The row `User.findByPk(req.user?.id)` finds: none without a signed-in caller. */
    function Found(findByPk: string -> Option<Account>): Option<Account>
      reads this
    {
      if user.None? then None else findByPk(DecimalString(user.value.id))
    }

    /** `GET /me`: a missing or banned user is signed out and told so; anyone else gets their row. */
    method Me(findByPk: string -> Option<Account>) returns (reply: MeReply)
      modifies this`session
      ensures Found(findByPk).None? || Found(findByPk).value.status == "banned" ==> reply == SignedOut && session == None
      ensures Found(findByPk).Some? && Found(findByPk).value.status != "banned" ==>
        reply == SignedIn(true, Found(findByPk).value) && session == old(session)
    {
      var found := if user.None? then None else findByPk(DecimalString(user.value.id));
      if found.None? || found.value.status == "banned" {
        session := None;
        return SignedOut;
      }
      reply := SignedIn(user.Some?, found.value);
    }
  }

  // ----------------------------------------------------------------------------
  // GET /:id

  datatype Like = Like(userId: int, reviewId: int)

  /** A review of the profile view; `likesCount` is absent until the handler sets it. */
  datatype ReviewView = ReviewView(id: int, title: string, likes: seq<Like>, likesCount: Option<nat>)

  /** The `formated.Reviews?.map(...)` pass: each review's `likesCount` becomes the length of its `Likes`. */
  method CountLikes(reviews: array<ReviewView>)
    modifies reviews
    ensures forall i :: 0 <= i < reviews.Length ==> reviews[i].likesCount == Some(|reviews[i].likes|)
    ensures forall i :: 0 <= i < reviews.Length ==> reviews[i] == old(reviews[i]).(likesCount := reviews[i].likesCount)
  {
    var i := 0;
    while i < reviews.Length
      invariant 0 <= i <= reviews.Length
      invariant forall k :: 0 <= k < i ==> reviews[k] == old(reviews[k]).(likesCount := Some(|old(reviews[k]).likes|))
      invariant forall k :: i <= k < reviews.Length ==> reviews[k] == old(reviews[k])
    {
      reviews[i] := reviews[i].(likesCount := Some(|reviews[i].likes|));
      i := i + 1;
    }
  }
}
