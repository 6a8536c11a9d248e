/** The partial-update encoders: each writes into a fresh JSON object only the
    members of an update record the caller set, so that an unset member is
    left out of the request body rather than sent as `null`. */
module UpdateEncoders {
  import opened Wrappers
  import opened Json
  import opened Models

  /** `Dictionary.Add`, which throws when the key is already present. */
  function Add(d: map<string, Json>, key: string, v: Json): map<string, Json>
    requires key !in d
  {
    d[key := v]
  }

  /** One `if (value != null) dict.Add(key, value)` statement: a key and the
      value to add under it, if there is one. */
  type Entry = (string, Option<Json>)

  predicate DistinctKeys(es: seq<Entry>) {
    forall i, j :: 0 <= i < j < |es| ==> es[i].0 != es[j].0
  }

  /** Runs the statements `es` in order on the dictionary `d`. Because no two
      entries share a key, no `Add` meets a key already present. The result
      holds `d` and, for every entry with a value, that value under its key. */
  function AddEach(d: map<string, Json>, es: seq<Entry>): (r: map<string, Json>)
    requires DistinctKeys(es)
    requires forall i :: 0 <= i < |es| ==> es[i].0 !in d
    ensures r.Keys <= d.Keys + set e | e in es :: e.0
    ensures forall i :: 0 <= i < |es| ==> (es[i].0 in r <==> es[i].1.Some?)
    ensures forall i :: 0 <= i < |es| && es[i].1.Some? ==> r[es[i].0] == es[i].1.value
    ensures forall k :: k in d ==> k in r && r[k] == d[k]
    decreases |es|
  {
    if |es| == 0 then d
    else
      var d' := if es[0].1.Some? then Add(d, es[0].0, es[0].1.value) else d;
      assert forall i :: 1 <= i < |es| ==> es[i] == es[1..][i - 1];
      AddEach(d', es[1..])
  }

  /** `JObject.CreateString(s)` for a set member, nothing for an unset one. */
  function CreateStringIfSet(s: Option<string>): Option<Json> {
    if s.Some? then Some(JString(s.value)) else None
  }

  /** `JObject.CreateArray(ss.Select(JObject.CreateString).ToList())`. */
  function CreateStringArray(ss: seq<string>): Json {
    JArray(seq(|ss|, i requires 0 <= i < |ss| => JString(ss[i])))
  }

  // ---------------------------------------------------------------------------
  // Profile updates

  /** The statements of `UserToJObject`, in source order. */
  function UserEntries(u: UserUpdate): seq<Entry> {
    [ ("name", CreateStringIfSet(u.name)),
      ("email", CreateStringIfSet(u.email)),
      ("blog", CreateStringIfSet(u.blog)),
      ("company", CreateStringIfSet(u.company)),
      ("location", CreateStringIfSet(u.location)),
      ("bio", CreateStringIfSet(u.bio)),
      ("hireable", if u.hireable.Some? then Some(JBool(u.hireable.value)) else None) ]
  }

  /** No two statements of `UserToJObject` use the same key. This is the
      first half of `UserEntryKeys`, kept apart so that the body of
      `UserToJObject`, which needs only this half, does not carry the key-set
      comprehension into every proof that mentions it. */
  lemma UserEntriesDistinct(u: UserUpdate)
    ensures DistinctKeys(UserEntries(u))
  {
    var es := UserEntries(u);
    assert es[0].0 == "name" && es[1].0 == "email" && es[2].0 == "blog" && es[3].0 == "company";
    assert es[4].0 == "location" && es[5].0 == "bio" && es[6].0 == "hireable";
  }

  /** The statements of `UserToJObject` use seven different keys. */
  lemma UserEntryKeys(u: UserUpdate)
    ensures DistinctKeys(UserEntries(u))
    ensures (set e | e in UserEntries(u) :: e.0) == {"name", "email", "blog", "company", "location", "bio", "hireable"}
  {
    var es := UserEntries(u);
    assert es[0].0 == "name" && es[1].0 == "email" && es[2].0 == "blog" && es[3].0 == "company";
    assert es[4].0 == "location" && es[5].0 == "bio" && es[6].0 == "hireable";
  }

  /** `UserToJObject`: the request body of a profile update, an object.
      `UserToJObjectKeys` and `UserToJObjectValues` below say what it holds. */
  function UserToJObject(u: UserUpdate): (r: Json)
    ensures r.JObject?
  {
    var es := UserEntries(u);
    UserEntriesDistinct(u);
    JObject(AddEach(map[], es))
  }

  /** The key of the `i`th statement is in the body exactly when that
      statement has a value to add. */
  lemma UserEntryAdded(u: UserUpdate, i: nat)
    requires i < |UserEntries(u)|
    ensures UserEntries(u)[i].0 in UserToJObject(u).members <==> UserEntries(u)[i].1.Some?
  {
  }

  /** The body has no key besides the seven the statements use. */
  lemma UserKeysBound(u: UserUpdate)
    ensures UserToJObject(u).members.Keys <= {"name", "email", "blog", "company", "location", "bio", "hireable"}
  {
    UserEntryKeys(u);
  }

  /** The body has a key exactly for each member set, and no other key. */
  lemma UserToJObjectKeys(u: UserUpdate)
    ensures "name" in UserToJObject(u).members <==> u.name.Some?
    ensures "email" in UserToJObject(u).members <==> u.email.Some?
    ensures "blog" in UserToJObject(u).members <==> u.blog.Some?
    ensures "company" in UserToJObject(u).members <==> u.company.Some?
    ensures "location" in UserToJObject(u).members <==> u.location.Some?
    ensures "bio" in UserToJObject(u).members <==> u.bio.Some?
    ensures "hireable" in UserToJObject(u).members <==> u.hireable.Some?
    ensures UserToJObject(u).members.Keys <= {"name", "email", "blog", "company", "location", "bio", "hireable"}
  {
    UserKeysBound(u);
    UserEntryAdded(u, 0);
    UserEntryAdded(u, 1);
    UserEntryAdded(u, 2);
    UserEntryAdded(u, 3);
    UserEntryAdded(u, 4);
    UserEntryAdded(u, 5);
    UserEntryAdded(u, 6);
  }

  /** Each member set is sent under its key as a JSON value holding it. */
  lemma UserToJObjectValues(u: UserUpdate)
    ensures u.name.Some? ==> "name" in UserToJObject(u).members && UserToJObject(u).members["name"] == JString(u.name.value)
    ensures u.email.Some? ==> "email" in UserToJObject(u).members && UserToJObject(u).members["email"] == JString(u.email.value)
    ensures u.blog.Some? ==> "blog" in UserToJObject(u).members && UserToJObject(u).members["blog"] == JString(u.blog.value)
    ensures u.company.Some? ==> "company" in UserToJObject(u).members && UserToJObject(u).members["company"] == JString(u.company.value)
    ensures u.location.Some? ==> "location" in UserToJObject(u).members && UserToJObject(u).members["location"] == JString(u.location.value)
    ensures u.bio.Some? ==> "bio" in UserToJObject(u).members && UserToJObject(u).members["bio"] == JString(u.bio.value)
    ensures u.hireable.Some? ==> "hireable" in UserToJObject(u).members && UserToJObject(u).members["hireable"] == JBool(u.hireable.value)
  {
    var es := UserEntries(u);
    UserEntryKeys(u);
    assert es[0].0 == "name" && es[1].0 == "email" && es[2].0 == "blog" && es[3].0 == "company";
    assert es[4].0 == "location" && es[5].0 == "bio" && es[6].0 == "hireable";
  }

  /** Reads a profile update back out of a request body: a key that is absent
      or holds a value of the wrong kind reads as an unset member. */
  function ReadUserUpdate(j: Json): UserUpdate {
    UserUpdate(
      name := StringMember(j, "name"),
      email := StringMember(j, "email"),
      blog := StringMember(j, "blog"),
      company := StringMember(j, "company"),
      location := StringMember(j, "location"),
      bio := StringMember(j, "bio"),
      hireable := BoolMember(j, "hireable"))
  }

  function StringMember(j: Json, key: string): Option<string> {
    if j.JObject? && key in j.members && j.members[key].JString? then Some(j.members[key].str) else None
  }

  function BoolMember(j: Json, key: string): Option<bool> {
    if j.JObject? && key in j.members && j.members[key].JBool? then Some(j.members[key].b) else None
  }

  /** The request body determines the update: nothing set is lost and nothing
      unset appears. */
  lemma UserUpdateRoundTrip(u: UserUpdate)
    ensures ReadUserUpdate(UserToJObject(u)) == u
  {
    UserToJObjectKeys(u);
    UserToJObjectValues(u);
  }

  /** The body is the empty object exactly when no member is set. */
  lemma UserToJObjectEmpty(u: UserUpdate)
    ensures UserToJObject(u) == JObject(map[]) <==> u == UserUpdate(None, None, None, None, None, None, None)
  {
    if UserToJObject(u) == JObject(map[]) {
      UserUpdateRoundTrip(u);
    }
  }

  // ---------------------------------------------------------------------------
  // Authorization updates

  /** The statements of `AuthorizationToJObject`, in source order. */
  function AuthorizationEntries(a: AuthorizationUpdate): seq<Entry> {
    [ ("scopes", if a.scopes.Some? then Some(CreateStringArray(a.scopes.value)) else None),
      ("note", CreateStringIfSet(a.note)),
      ("note_url", CreateStringIfSet(a.noteUrl)) ]
  }

  /** The statements of `AuthorizationToJObject` use three different keys. */
  lemma AuthorizationEntryKeys(a: AuthorizationUpdate)
    ensures DistinctKeys(AuthorizationEntries(a))
    ensures (set e | e in AuthorizationEntries(a) :: e.0) == {"scopes", "note", "note_url"}
  {
    var es := AuthorizationEntries(a);
    assert es[0].0 == "scopes" && es[1].0 == "note" && es[2].0 == "note_url";
  }

  /** `AuthorizationToJObject`: the request body of an authorization update.
      It has a key exactly for each member set and no other; notes are sent as
      strings and the scopes as an array holding the same strings in the same
      order. */
  function AuthorizationToJObject(a: AuthorizationUpdate): (r: Json)
    ensures r.JObject?
    ensures "scopes" in r.members <==> a.scopes.Some?
    ensures "note" in r.members <==> a.note.Some?
    ensures "note_url" in r.members <==> a.noteUrl.Some?
    ensures r.members.Keys <= {"scopes", "note", "note_url"}
    ensures a.note.Some? ==> r.members["note"] == JString(a.note.value)
    ensures a.noteUrl.Some? ==> r.members["note_url"] == JString(a.noteUrl.value)
    ensures a.scopes.Some? ==>
      && r.members["scopes"].JArray?
      && |r.members["scopes"].elements| == |a.scopes.value|
      && forall i :: 0 <= i < |a.scopes.value| ==> r.members["scopes"].elements[i] == JString(a.scopes.value[i])
  {
    var es := AuthorizationEntries(a);
    AuthorizationEntryKeys(a);
    var d := AddEach(map[], es);
    assert es[0].0 == "scopes" && es[1].0 == "note" && es[2].0 == "note_url";
    JObject(d)
  }

  /** The strings of an array every element of which is a string, or `None`. */
  function ReadStrings(js: seq<Json>): (r: Option<seq<string>>)
    ensures r.Some? <==> forall i :: 0 <= i < |js| ==> js[i].JString?
    ensures r.Some? ==> |r.value| == |js| && forall i :: 0 <= i < |js| ==> js[i] == JString(r.value[i])
  {
    if |js| == 0 then Some([])
    else if !js[0].JString? then None
    else
      match ReadStrings(js[1..])
      case None => None
      case Some(rest) => Some([js[0].str] + rest)
  }

  /** Reads an authorization update back out of a request body. */
  function ReadAuthorizationUpdate(j: Json): AuthorizationUpdate {
    AuthorizationUpdate(
      scopes :=
        if j.JObject? && "scopes" in j.members && j.members["scopes"].JArray?
        then ReadStrings(j.members["scopes"].elements)
        else None,
      note := StringMember(j, "note"),
      noteUrl := StringMember(j, "note_url"))
  }

  /** The request body determines the update, scopes included in order. */
  lemma AuthorizationUpdateRoundTrip(a: AuthorizationUpdate)
    ensures ReadAuthorizationUpdate(AuthorizationToJObject(a)) == a
  {
    var r := AuthorizationToJObject(a);
    if a.scopes.Some? {
      var s := ReadStrings(r.members["scopes"].elements);
      assert s.value == a.scopes.value;
    }
  }

  /** The body is the empty object exactly when no member is set; an empty
      scope list is still sent. */
  lemma AuthorizationToJObjectEmpty(a: AuthorizationUpdate)
    ensures AuthorizationToJObject(a) == JObject(map[]) <==> a == AuthorizationUpdate(None, None, None)
  {
    if AuthorizationToJObject(a) == JObject(map[]) {
      AuthorizationUpdateRoundTrip(a);
    }
  }
}
