/** The entity decoders: each reads fixed keys of a JSON object into the
    members of a record, through the library's accessors and in the order the
    members are written, so the first read that throws ends the decode with
    that exception. Nested records are built inline, `plan` and `owner` only
    when the object has that key. */
module EntityDecoders {
  import opened Wrappers
  import opened Json
  import opened Models
  import Linq

  // ---------------------------------------------------------------------------
  // Typed reads

  /** `jObj[key]`. The indexer is an instance member, so a null `jObj`
      throws before the library is asked. */
  function Get(api: Accessors, j: Option<Json>, key: string): Result<Option<Json>, Fault> {
    if j.None? then Failure(NullReference) else Lift(api.index(j.value, key))
  }

  /** `(string)jObj[key]` */
  function GetString(api: Accessors, j: Option<Json>, key: string): Result<Option<string>, Fault> {
    var v :- Get(api, j, key);
    Lift(api.castString(v))
  }

  /** `(int)jObj[key]` */
  function GetInt(api: Accessors, j: Option<Json>, key: string): Result<Int32, Fault> {
    var v :- Get(api, j, key);
    Lift(api.castInt(v))
  }

  /** `(long)jObj[key]` */
  function GetLong(api: Accessors, j: Option<Json>, key: string): Result<Int64, Fault> {
    var v :- Get(api, j, key);
    Lift(api.castLong(v))
  }

  /** `(bool)jObj[key]` */
  function GetBool(api: Accessors, j: Option<Json>, key: string): Result<bool, Fault> {
    var v :- Get(api, j, key);
    Lift(api.castBool(v))
  }

  /** `DateTimeOffset.Parse((string)jObj[key], CultureInfo.InvariantCulture)`;
      a null string goes to the parser like any other. */
  function GetDateTime(api: Accessors, j: Option<Json>, key: string): Result<DateTimeOffset, Fault> {
    var s :- GetString(api, j, key);
    Lift(api.parseInvariant(s))
  }

  /** `(string)jObj[outer][key]`; a null `jObj[outer]` cannot be indexed. */
  function GetStringIn(api: Accessors, j: Option<Json>, outer: string, key: string): Result<Option<string>, Fault> {
    var o :- Get(api, j, outer);
    GetString(api, o, key)
  }

  /** `(int)jObj[outer][key]` */
  function GetIntIn(api: Accessors, j: Option<Json>, outer: string, key: string): Result<Int32, Fault> {
    var o :- Get(api, j, outer);
    GetInt(api, o, key)
  }

  /** `(long)jObj[outer][key]` */
  function GetLongIn(api: Accessors, j: Option<Json>, outer: string, key: string): Result<Int64, Fault> {
    var o :- Get(api, j, outer);
    GetLong(api, o, key)
  }

  /** `jObj.ObjectValue.ContainsKey(key)`; neither a null `jObj` nor a null
      `ObjectValue` can be asked. */
  function ContainsKey(api: Accessors, j: Option<Json>, key: string): Result<bool, Fault> {
    if j.None? then Failure(NullReference)
    else
      var d :- Lift(api.objectValue(j.value));
      if d.None? then Failure(NullReference) else Success(key in d.value)
  }

  /** `jObj[key].ArrayValue`; a null `jObj[key]` has no `ArrayValue`. */
  function GetArray(api: Accessors, j: Option<Json>, key: string): Result<Option<seq<Option<Json>>>, Fault> {
    var v :- Get(api, j, key);
    if v.None? then Failure(NullReference) else Lift(api.arrayValue(v.value))
  }

  /** `x.StringValue` on an array element, which may be null. */
  function ElementString(api: Accessors, x: Option<Json>): Result<Option<string>, Fault> {
    if x.None? then Failure(NullReference) else Lift(api.stringValue(x.value))
  }

  /** The elements `jObj.ArrayValue.Select(...)` runs over; LINQ rejects a
      null source with an ArgumentNullException. */
  function Elements(api: Accessors, j: Option<Json>): Result<seq<Option<Json>>, Fault> {
    if j.None? then Failure(NullReference)
    else
      var a :- Lift(api.arrayValue(j.value));
      if a.None? then Failure(ArgumentNull("source")) else Success(a.value)
  }

  // ---------------------------------------------------------------------------
  // Users

  /** The exception of the first top-level read of a user that throws, in
      the order the initializer is written; `None` when none throws. */
  function UserMembersFault(api: Accessors, j: Option<Json>): Option<Fault> {
    GetInt(api, j, "followers").FailureOption().OrElse(
    GetString(api, j, "type").FailureOption().OrElse(
    GetBool(api, j, "hireable").FailureOption().OrElse(
    GetString(api, j, "avatar_url").FailureOption().OrElse(
    GetString(api, j, "bio").FailureOption().OrElse(
    GetString(api, j, "html_url").FailureOption().OrElse(
    GetDateTime(api, j, "created_at").FailureOption().OrElse(
    GetInt(api, j, "public_repos").FailureOption().OrElse(
    GetString(api, j, "blog").FailureOption().OrElse(
    GetString(api, j, "url").FailureOption().OrElse(
    GetInt(api, j, "public_gists").FailureOption().OrElse(
    GetInt(api, j, "following").FailureOption().OrElse(
    GetString(api, j, "company").FailureOption().OrElse(
    GetString(api, j, "name").FailureOption().OrElse(
    GetString(api, j, "location").FailureOption().OrElse(
    GetLong(api, j, "id").FailureOption().OrElse(
    GetString(api, j, "email").FailureOption().OrElse(
    GetString(api, j, "login").FailureOption())))))))))))))))))
  }

  /** Each top-level member of `u` is what its key reads as. */
  predicate UserMembersRead(api: Accessors, j: Option<Json>, u: User) {
    && GetInt(api, j, "followers") == Success(u.followers)
    && GetString(api, j, "type") == Success(u.typeName)
    && GetBool(api, j, "hireable") == Success(u.hireable)
    && GetString(api, j, "avatar_url") == Success(u.avatarUrl)
    && GetString(api, j, "bio") == Success(u.bio)
    && GetString(api, j, "html_url") == Success(u.htmlUrl)
    && GetDateTime(api, j, "created_at") == Success(u.createdAt)
    && GetInt(api, j, "public_repos") == Success(u.publicRepos)
    && GetString(api, j, "blog") == Success(u.blog)
    && GetString(api, j, "url") == Success(u.url)
    && GetInt(api, j, "public_gists") == Success(u.publicGists)
    && GetInt(api, j, "following") == Success(u.following)
    && GetString(api, j, "company") == Success(u.company)
    && GetString(api, j, "name") == Success(u.name)
    && GetString(api, j, "location") == Success(u.location)
    && GetLong(api, j, "id") == Success(u.id)
    && GetString(api, j, "email") == Success(u.email)
    && GetString(api, j, "login") == Success(u.login)
  }

  /** The object initializer of `JObjectToUser`: the top-level members, read
      in the order they are written, with no plan. */
  function ReadUserMembers(api: Accessors, j: Option<Json>): (r: Result<User, Fault>)
    ensures r.Success? ==> UserMembersRead(api, j, r.value) && r.value.plan.None?
    ensures r.FailureOption() == UserMembersFault(api, j)
  {
    var followers :- GetInt(api, j, "followers");
    var typeName :- GetString(api, j, "type");
    var hireable :- GetBool(api, j, "hireable");
    var avatarUrl :- GetString(api, j, "avatar_url");
    var bio :- GetString(api, j, "bio");
    var htmlUrl :- GetString(api, j, "html_url");
    var createdAt :- GetDateTime(api, j, "created_at");
    var publicRepos :- GetInt(api, j, "public_repos");
    var blog :- GetString(api, j, "blog");
    var url :- GetString(api, j, "url");
    var publicGists :- GetInt(api, j, "public_gists");
    var following :- GetInt(api, j, "following");
    var company :- GetString(api, j, "company");
    var name :- GetString(api, j, "name");
    var location :- GetString(api, j, "location");
    var id :- GetLong(api, j, "id");
    var email :- GetString(api, j, "email");
    var login :- GetString(api, j, "login");
    Success(DefaultUser.(
      followers := followers, typeName := typeName, hireable := hireable,
      avatarUrl := avatarUrl, bio := bio, htmlUrl := htmlUrl, createdAt := createdAt,
      publicRepos := publicRepos, blog := blog, url := url, publicGists := publicGists,
      following := following, company := company, name := name, location := location,
      id := id, email := email, login := login))
  }

  /** The exception of the first `plan.*` read that throws. */
  function PlanFault(api: Accessors, j: Option<Json>): Option<Fault> {
    GetIntIn(api, j, "plan", "collaborators").FailureOption().OrElse(
    GetStringIn(api, j, "plan", "name").FailureOption().OrElse(
    GetIntIn(api, j, "plan", "space").FailureOption().OrElse(
    GetIntIn(api, j, "plan", "private_repos").FailureOption())))
  }

  /** Each member of the plan `p` is what its `plan.*` key reads as. */
  predicate PlanRead(api: Accessors, j: Option<Json>, p: Plan) {
    && GetIntIn(api, j, "plan", "collaborators") == Success(p.collaborators)
    && GetStringIn(api, j, "plan", "name") == Success(p.name)
    && GetIntIn(api, j, "plan", "space") == Success(p.space)
    && GetIntIn(api, j, "plan", "private_repos") == Success(p.privateRepos)
  }

  /** The `new Plan { ... }` initializer inside `JObjectToUser`. */
  function ReadPlan(api: Accessors, j: Option<Json>): (r: Result<Plan, Fault>)
    ensures r.Success? ==> PlanRead(api, j, r.value)
    ensures r.FailureOption() == PlanFault(api, j)
  {
    var collaborators :- GetIntIn(api, j, "plan", "collaborators");
    var name :- GetStringIn(api, j, "plan", "name");
    var space :- GetIntIn(api, j, "plan", "space");
    var privateRepos :- GetIntIn(api, j, "plan", "private_repos");
    Success(Plan(name := name, space := space, collaborators := collaborators, privateRepos := privateRepos))
  }

  /** The exception of the first read of `JObjectToUser` that throws: the
      members, then the `plan` key test, then the plan when the key exists. */
  function UserFault(api: Accessors, j: Option<Json>): Option<Fault> {
    UserMembersFault(api, j)
      .OrElse(ContainsKey(api, j, "plan").FailureOption())
      .OrElse(if ContainsKey(api, j, "plan") == Success(true) then PlanFault(api, j) else None)
  }

  /** `JObjectToUser`. It succeeds exactly when every read it needs succeeds;
      then each member is what its key reads as, and the plan is present
      exactly when the object has a `plan` key, built from `plan.*`. */
  function JObjectToUser(api: Accessors, j: Option<Json>): (r: Result<User, Fault>)
    ensures r.Success? ==> UserMembersRead(api, j, r.value)
    ensures r.Success? ==> (r.value.plan.Some? <==> ContainsKey(api, j, "plan") == Success(true))
    ensures r.Success? && r.value.plan.Some? ==> PlanRead(api, j, r.value.plan.value)
    ensures r.FailureOption() == UserFault(api, j)
  {
    var user :- ReadUserMembers(api, j);
    var hasPlan :- ContainsKey(api, j, "plan");
    if !hasPlan then Success(user)
    else
      var plan :- ReadPlan(api, j);
      Success(user.(plan := Some(plan)))
  }

  /** Without a `plan` key no `plan.*` read is made, so a user decodes
      whatever those reads would have done. */
  lemma UserWithoutPlan(api: Accessors, j: Option<Json>)
    ensures ContainsKey(api, j, "plan") == Success(false) ==> JObjectToUser(api, j) == ReadUserMembers(api, j)
  {
  }

  // ---------------------------------------------------------------------------
  // Authorizations

  /** Every read of `JObjectToAuthorization` succeeds: the `app.*` reads
      always, the scope strings when `scopes` yields an array. It says what
      `AuthorizationMembersFault(api, j).None?` and the element reads say
      together, as one success condition, because the element reads have
      no fault chain of their own. */
  predicate AuthorizationReadable(api: Accessors, j: Option<Json>) {
    && GetStringIn(api, j, "app", "name").Success?
    && GetStringIn(api, j, "app", "url").Success?
    && GetDateTime(api, j, "created_at").Success?
    && GetInt(api, j, "id").Success?
    && GetString(api, j, "note").Success?
    && GetString(api, j, "note_url").Success?
    && GetString(api, j, "token").Success?
    && GetDateTime(api, j, "updated_at").Success?
    && GetString(api, j, "url").Success?
    && GetArray(api, j, "scopes").Success?
    && (GetArray(api, j, "scopes").value.Some? ==>
          forall i :: 0 <= i < |GetArray(api, j, "scopes").value.value| ==>
            ElementString(api, GetArray(api, j, "scopes").value.value[i]).Success?)
  }

  /** The exception of the first read of `JObjectToAuthorization` that
      throws before the scope elements are read: the members in initializer
      order, then `jObj["scopes"].ArrayValue`. */
  function AuthorizationMembersFault(api: Accessors, j: Option<Json>): Option<Fault> {
    GetStringIn(api, j, "app", "name").FailureOption().OrElse(
    GetStringIn(api, j, "app", "url").FailureOption().OrElse(
    GetDateTime(api, j, "created_at").FailureOption().OrElse(
    GetInt(api, j, "id").FailureOption().OrElse(
    GetString(api, j, "note").FailureOption().OrElse(
    GetString(api, j, "note_url").FailureOption().OrElse(
    GetString(api, j, "token").FailureOption().OrElse(
    GetDateTime(api, j, "updated_at").FailureOption().OrElse(
    GetString(api, j, "url").FailureOption().OrElse(
    GetArray(api, j, "scopes").FailureOption())))))))))
  }

  /** Each member of `a` other than the scopes is what its key reads as. */
  predicate AuthorizationMembersRead(api: Accessors, j: Option<Json>, a: Authorization) {
    && GetStringIn(api, j, "app", "name") == Success(a.application.name)
    && GetStringIn(api, j, "app", "url") == Success(a.application.url)
    && GetDateTime(api, j, "created_at") == Success(a.createdAt)
    && GetInt(api, j, "id") == Success(a.id)
    && GetString(api, j, "note") == Success(a.note)
    && GetString(api, j, "note_url") == Success(a.noteUrl)
    && GetString(api, j, "token") == Success(a.token)
    && GetDateTime(api, j, "updated_at") == Success(a.updateAt)
    && GetString(api, j, "url") == Success(a.url)
  }

  /** `JObjectToAuthorization`. The application is read unconditionally, with
      no check that `app` is present, and `id` is read as an `int`. The scopes
      stay unset exactly when `scopes` yields no array; otherwise they hold,
      in order, the string value of each element of that array. */
  function JObjectToAuthorization(api: Accessors, j: Option<Json>): (r: Result<Authorization, Fault>)
    ensures r.Success? <==> AuthorizationReadable(api, j)
    ensures r.Success? ==> AuthorizationMembersRead(api, j, r.value)
    ensures r.Success? ==> (r.value.scopes.None? <==> GetArray(api, j, "scopes") == Success(None))
    ensures r.Success? && r.value.scopes.Some? ==>
      && GetArray(api, j, "scopes").value.Some?
      && var elements := GetArray(api, j, "scopes").value.value;
      && |r.value.scopes.value| == |elements|
      && forall i :: 0 <= i < |elements| ==> ElementString(api, elements[i]) == Success(r.value.scopes.value[i])
    ensures AuthorizationMembersFault(api, j).Some? ==> r == Failure(AuthorizationMembersFault(api, j).value)
    ensures r.Failure? && AuthorizationMembersFault(api, j).None? ==>
      && GetArray(api, j, "scopes").value.Some?
      && var elements := GetArray(api, j, "scopes").value.value;
      && exists i :: 0 <= i < |elements| && ElementString(api, elements[i]) == Failure(r.error)
                     && forall k :: 0 <= k < i ==> ElementString(api, elements[k]).Success?
  {
    var appName :- GetStringIn(api, j, "app", "name");
    var appUrl :- GetStringIn(api, j, "app", "url");
    var createdAt :- GetDateTime(api, j, "created_at");
    var id :- GetInt(api, j, "id");
    var note :- GetString(api, j, "note");
    var noteUrl :- GetString(api, j, "note_url");
    var token :- GetString(api, j, "token");
    var updateAt :- GetDateTime(api, j, "updated_at");
    var url :- GetString(api, j, "url");
    var auth := Authorization(
      application := Application(name := appName, url := appUrl),
      createdAt := createdAt, id := id, note := note, noteUrl := noteUrl,
      token := token, updateAt := updateAt, url := url, scopes := None);
    var scopes :- GetArray(api, j, "scopes");
    if scopes.None? then Success(auth)
    else
      var strings :- Linq.Select(scopes.value, x => ElementString(api, x));
      Success(auth.(scopes := Some(strings)))
  }

  /** Unlike `plan` and `owner`, `app` is read with no presence check and
      before anything else: when reading `app.name` throws, so does the
      decode, with that exception. */
  lemma AuthorizationReadsAppFirst(api: Accessors, j: Option<Json>)
    ensures GetStringIn(api, j, "app", "name").Failure? ==>
      JObjectToAuthorization(api, j) == Failure(GetStringIn(api, j, "app", "name").error)
  {
  }

  /** `JObjectToAuthorizations`, evaluated eagerly. When the input yields an
      array, the result decodes every element, in order and without dropping
      any, and it fails with the exception of the first element that does
      not decode. */
  function JObjectToAuthorizations(api: Accessors, j: Option<Json>): (r: Result<seq<Authorization>, Fault>)
    ensures Elements(api, j).Failure? ==> r == Failure(Elements(api, j).error)
    ensures Elements(api, j).Success? ==>
      var xs := Elements(api, j).value;
      && (r.Success? <==> forall i :: 0 <= i < |xs| ==> JObjectToAuthorization(api, xs[i]).Success?)
      && (r.Success? ==> |r.value| == |xs|)
      && (r.Success? ==> forall i :: 0 <= i < |xs| ==> JObjectToAuthorization(api, xs[i]) == Success(r.value[i]))
      && (r.Failure? ==> exists i :: 0 <= i < |xs| && JObjectToAuthorization(api, xs[i]) == Failure(r.error)
                                     && forall k :: 0 <= k < i ==> JObjectToAuthorization(api, xs[k]).Success?)
  {
    var xs :- Elements(api, j);
    Linq.Select(xs, x => JObjectToAuthorization(api, x))
  }

  // ---------------------------------------------------------------------------
  // Repositories

  /** Each top-level member of `repo` is what its key reads as. */
  predicate RepositoryMembersRead(api: Accessors, j: Option<Json>, repo: Repository) {
    RepositoryHeadRead(api, j, repo) && RepositoryMiddleRead(api, j, repo) && RepositoryTailRead(api, j, repo)
  }

  /** The exception of the first top-level read of a repository that
      throws, in the order the initializer is written. */
  function RepositoryMembersFault(api: Accessors, j: Option<Json>): Option<Fault> {
    RepositoryHeadFault(api, j).OrElse(RepositoryMiddleFault(api, j).OrElse(RepositoryTailFault(api, j)))
  }

  /** The first nine members of `repo` are what their keys read as. */
  predicate RepositoryHeadRead(api: Accessors, j: Option<Json>, repo: Repository) {
    && GetString(api, j, "clone_url") == Success(repo.cloneUrl)
    && GetInt(api, j, "open_issues_count") == Success(repo.openIssuesCount)
    && GetBool(api, j, "has_issues") == Success(repo.hasIssues)
    && GetInt(api, j, "watchers_count") == Success(repo.watchersCount)
    && GetDateTime(api, j, "pushed_at") == Success(repo.pushedAt)
    && GetInt(api, j, "forks_count") == Success(repo.forksCount)
    && GetString(api, j, "language") == Success(repo.language)
    && GetString(api, j, "full_name") == Success(repo.fullName)
    && GetString(api, j, "master_branch") == Success(repo.masterBranch)
  }

  /** The exception of the first of the first nine reads that throws. */
  function RepositoryHeadFault(api: Accessors, j: Option<Json>): Option<Fault> {
    GetString(api, j, "clone_url").FailureOption().OrElse(
    GetInt(api, j, "open_issues_count").FailureOption().OrElse(
    GetBool(api, j, "has_issues").FailureOption().OrElse(
    GetInt(api, j, "watchers_count").FailureOption().OrElse(
    GetDateTime(api, j, "pushed_at").FailureOption().OrElse(
    GetInt(api, j, "forks_count").FailureOption().OrElse(
    GetString(api, j, "language").FailureOption().OrElse(
    GetString(api, j, "full_name").FailureOption().OrElse(
    GetString(api, j, "master_branch").FailureOption()))))))))
  }

  /** The next nine members of `repo` are what their keys read as. */
  predicate RepositoryMiddleRead(api: Accessors, j: Option<Json>, repo: Repository) {
    && GetString(api, j, "ssh_url") == Success(repo.sshUrl)
    && GetString(api, j, "mirror_url") == Success(repo.mirrorUrl)
    && GetBool(api, j, "has_downloads") == Success(repo.hasDownloads)
    && GetString(api, j, "homepage") == Success(repo.homepage)
    && GetLong(api, j, "size") == Success(repo.size)
    && GetBool(api, j, "fork") == Success(repo.isFork)
    && GetString(api, j, "svn_url") == Success(repo.svnUrl)
    && GetDateTime(api, j, "created_at") == Success(repo.createdAt)
    && GetString(api, j, "description") == Success(repo.description)
  }

  /** The exception of the first of the next nine reads that throws. */
  function RepositoryMiddleFault(api: Accessors, j: Option<Json>): Option<Fault> {
    GetString(api, j, "ssh_url").FailureOption().OrElse(
    GetString(api, j, "mirror_url").FailureOption().OrElse(
    GetBool(api, j, "has_downloads").FailureOption().OrElse(
    GetString(api, j, "homepage").FailureOption().OrElse(
    GetLong(api, j, "size").FailureOption().OrElse(
    GetBool(api, j, "fork").FailureOption().OrElse(
    GetString(api, j, "svn_url").FailureOption().OrElse(
    GetDateTime(api, j, "created_at").FailureOption().OrElse(
    GetString(api, j, "description").FailureOption()))))))))
  }

  /** The last nine members of `repo` are what their keys read as. */
  predicate RepositoryTailRead(api: Accessors, j: Option<Json>, repo: Repository) {
    && GetString(api, j, "name") == Success(repo.name)
    && GetString(api, j, "url") == Success(repo.url)
    && GetInt(api, j, "network_count") == Success(repo.networkCount)
    && GetBool(api, j, "has_wiki") == Success(repo.hasWiki)
    && GetString(api, j, "html_url") == Success(repo.htmlUrl)
    && GetBool(api, j, "private") == Success(repo.isPrivate)
    && GetLong(api, j, "id") == Success(repo.id)
    && GetString(api, j, "git_url") == Success(repo.gitUrl)
    && GetDateTime(api, j, "updated_at") == Success(repo.updatedAt)
  }

  /** The exception of the first of the last nine reads that throws. */
  function RepositoryTailFault(api: Accessors, j: Option<Json>): Option<Fault> {
    GetString(api, j, "name").FailureOption().OrElse(
    GetString(api, j, "url").FailureOption().OrElse(
    GetInt(api, j, "network_count").FailureOption().OrElse(
    GetBool(api, j, "has_wiki").FailureOption().OrElse(
    GetString(api, j, "html_url").FailureOption().OrElse(
    GetBool(api, j, "private").FailureOption().OrElse(
    GetLong(api, j, "id").FailureOption().OrElse(
    GetString(api, j, "git_url").FailureOption().OrElse(
    GetDateTime(api, j, "updated_at").FailureOption()))))))))
  }

  /** `a` and `b` agree on the first nine members. */
  predicate SameHead(a: Repository, b: Repository) {
    && a.cloneUrl == b.cloneUrl
    && a.openIssuesCount == b.openIssuesCount
    && a.hasIssues == b.hasIssues
    && a.watchersCount == b.watchersCount
    && a.pushedAt == b.pushedAt
    && a.forksCount == b.forksCount
    && a.language == b.language
    && a.fullName == b.fullName
    && a.masterBranch == b.masterBranch
  }

  /** `a` and `b` agree on the next nine members. */
  predicate SameMiddle(a: Repository, b: Repository) {
    && a.sshUrl == b.sshUrl
    && a.mirrorUrl == b.mirrorUrl
    && a.hasDownloads == b.hasDownloads
    && a.homepage == b.homepage
    && a.size == b.size
    && a.isFork == b.isFork
    && a.svnUrl == b.svnUrl
    && a.createdAt == b.createdAt
    && a.description == b.description
  }

  /** The first nine assignments of the repository initializer, made on a
      new repository whose members are all at their defaults. */
  function ReadRepositoryHead(api: Accessors, j: Option<Json>): (r: Result<Repository, Fault>)
    ensures r.Success? ==> RepositoryHeadRead(api, j, r.value) && r.value.owner.None?
    ensures r.FailureOption() == RepositoryHeadFault(api, j)
  {
    var cloneUrl :- GetString(api, j, "clone_url");
    var openIssuesCount :- GetInt(api, j, "open_issues_count");
    var hasIssues :- GetBool(api, j, "has_issues");
    var watchersCount :- GetInt(api, j, "watchers_count");
    var pushedAt :- GetDateTime(api, j, "pushed_at");
    var forksCount :- GetInt(api, j, "forks_count");
    var language :- GetString(api, j, "language");
    var fullName :- GetString(api, j, "full_name");
    var masterBranch :- GetString(api, j, "master_branch");
    Success(DefaultRepository.(
      cloneUrl := cloneUrl, openIssuesCount := openIssuesCount, hasIssues := hasIssues,
      watchersCount := watchersCount, pushedAt := pushedAt, forksCount := forksCount,
      language := language, fullName := fullName, masterBranch := masterBranch))
  }

  /** The next nine assignments, made on `repo`, whose other members they
      leave as they are. */
  function ReadRepositoryMiddle(api: Accessors, j: Option<Json>, repo: Repository): (r: Result<Repository, Fault>)
    ensures r.Success? ==> RepositoryMiddleRead(api, j, r.value) && SameHead(r.value, repo) && r.value.owner == repo.owner
    ensures r.FailureOption() == RepositoryMiddleFault(api, j)
  {
    var sshUrl :- GetString(api, j, "ssh_url");
    var mirrorUrl :- GetString(api, j, "mirror_url");
    var hasDownloads :- GetBool(api, j, "has_downloads");
    var homepage :- GetString(api, j, "homepage");
    var size :- GetLong(api, j, "size");
    var isFork :- GetBool(api, j, "fork");
    var svnUrl :- GetString(api, j, "svn_url");
    var createdAt :- GetDateTime(api, j, "created_at");
    var description :- GetString(api, j, "description");
    Success(repo.(
      sshUrl := sshUrl, mirrorUrl := mirrorUrl, hasDownloads := hasDownloads,
      homepage := homepage, size := size, isFork := isFork, svnUrl := svnUrl,
      createdAt := createdAt, description := description))
  }

  /** The last nine assignments, made on `repo`, whose other members they
      leave as they are. */
  function ReadRepositoryTail(api: Accessors, j: Option<Json>, repo: Repository): (r: Result<Repository, Fault>)
    ensures r.Success? ==> RepositoryTailRead(api, j, r.value) && SameHead(r.value, repo) && SameMiddle(r.value, repo)
    ensures r.Success? ==> r.value.owner == repo.owner
    ensures r.FailureOption() == RepositoryTailFault(api, j)
  {
    var name :- GetString(api, j, "name");
    var url :- GetString(api, j, "url");
    var networkCount :- GetInt(api, j, "network_count");
    var hasWiki :- GetBool(api, j, "has_wiki");
    var htmlUrl :- GetString(api, j, "html_url");
    var isPrivate :- GetBool(api, j, "private");
    var id :- GetLong(api, j, "id");
    var gitUrl :- GetString(api, j, "git_url");
    var updatedAt :- GetDateTime(api, j, "updated_at");
    Success(repo.(
      name := name, url := url, networkCount := networkCount, hasWiki := hasWiki,
      htmlUrl := htmlUrl, isPrivate := isPrivate, id := id, gitUrl := gitUrl,
      updatedAt := updatedAt))
  }

  /** The object initializer of `JObjectToRepository`: the top-level
      members, assigned in the order they are written, with no owner. */
  function ReadRepositoryMembers(api: Accessors, j: Option<Json>): (r: Result<Repository, Fault>)
    ensures r.Success? ==> RepositoryMembersRead(api, j, r.value) && r.value.owner.None?
    ensures r.FailureOption() == RepositoryMembersFault(api, j)
  {
    var head :- ReadRepositoryHead(api, j);
    var middle :- ReadRepositoryMiddle(api, j, head);
    ReadRepositoryTail(api, j, middle)
  }

  /** The exception of the first `owner.*` read that throws. */
  function OwnerFault(api: Accessors, j: Option<Json>): Option<Fault> {
    GetStringIn(api, j, "owner", "login").FailureOption().OrElse(
    GetStringIn(api, j, "owner", "url").FailureOption().OrElse(
    GetLongIn(api, j, "owner", "id").FailureOption().OrElse(
    GetStringIn(api, j, "owner", "avatar_url").FailureOption())))
  }

  /** The owner `o` has its login, URL, id and avatar URL from `owner.*`
      and every other member at its default. */
  predicate OwnerRead(api: Accessors, j: Option<Json>, o: User) {
    && GetStringIn(api, j, "owner", "login") == Success(o.login)
    && GetStringIn(api, j, "owner", "url") == Success(o.url)
    && GetLongIn(api, j, "owner", "id") == Success(o.id)
    && GetStringIn(api, j, "owner", "avatar_url") == Success(o.avatarUrl)
    && o == DefaultUser.(login := o.login, url := o.url, id := o.id, avatarUrl := o.avatarUrl)
  }

  /** The `new User { ... }` initializer for the owner inside `JObjectToRepository`. */
  function ReadOwner(api: Accessors, j: Option<Json>): (r: Result<User, Fault>)
    ensures r.Success? ==> OwnerRead(api, j, r.value)
    ensures r.FailureOption() == OwnerFault(api, j)
  {
    var login :- GetStringIn(api, j, "owner", "login");
    var url :- GetStringIn(api, j, "owner", "url");
    var id :- GetLongIn(api, j, "owner", "id");
    var avatarUrl :- GetStringIn(api, j, "owner", "avatar_url");
    Success(DefaultUser.(login := login, url := url, id := id, avatarUrl := avatarUrl))
  }

  /** The exception of the first read of `JObjectToRepository` that throws:
      the members, then the `owner` key test, then the owner when the key exists. */
  function RepositoryFault(api: Accessors, j: Option<Json>): Option<Fault> {
    RepositoryMembersFault(api, j)
      .OrElse(ContainsKey(api, j, "owner").FailureOption())
      .OrElse(if ContainsKey(api, j, "owner") == Success(true) then OwnerFault(api, j) else None)
  }

  /** `JObjectToRepository`. It succeeds exactly when every read it needs
      succeeds; then each member is what its key reads as, and the owner is
      present exactly when the object has an `owner` key. */
  function JObjectToRepository(api: Accessors, j: Option<Json>): (r: Result<Repository, Fault>)
    ensures r.Success? ==> RepositoryMembersRead(api, j, r.value)
    ensures r.Success? ==> (r.value.owner.Some? <==> ContainsKey(api, j, "owner") == Success(true))
    ensures r.Success? && r.value.owner.Some? ==> OwnerRead(api, j, r.value.owner.value)
    ensures r.FailureOption() == RepositoryFault(api, j)
  {
    var repo :- ReadRepositoryMembers(api, j);
    var hasOwner :- ContainsKey(api, j, "owner");
    if !hasOwner then Success(repo)
    else
      var owner :- ReadOwner(api, j);
      Success(repo.(owner := Some(owner)))
  }

  /** Without an `owner` key no `owner.*` read is made. */
  lemma RepositoryWithoutOwner(api: Accessors, j: Option<Json>)
    ensures ContainsKey(api, j, "owner") == Success(false) ==> JObjectToRepository(api, j) == ReadRepositoryMembers(api, j)
  {
  }

  /** `JObjectToRepositories`. When the input yields an array, the result
      decodes every element, in order and without dropping any, and it fails
      with the exception of the first element that does not decode. */
  function JObjectToRepositories(api: Accessors, j: Option<Json>): (r: Result<seq<Repository>, Fault>)
    ensures Elements(api, j).Failure? ==> r == Failure(Elements(api, j).error)
    ensures Elements(api, j).Success? ==>
      var xs := Elements(api, j).value;
      && (r.Success? <==> forall i :: 0 <= i < |xs| ==> JObjectToRepository(api, xs[i]).Success?)
      && (r.Success? ==> |r.value| == |xs|)
      && (r.Success? ==> forall i :: 0 <= i < |xs| ==> JObjectToRepository(api, xs[i]) == Success(r.value[i]))
      && (r.Failure? ==> exists i :: 0 <= i < |xs| && JObjectToRepository(api, xs[i]) == Failure(r.error)
                                     && forall k :: 0 <= k < i ==> JObjectToRepository(api, xs[k]).Success?)
  {
    var xs :- Elements(api, j);
    Linq.Select(xs, x => JObjectToRepository(api, x))
  }
}
