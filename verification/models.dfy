/** The GitHub API records the converters populate and read. A .NET `string`
    or nested record is a reference that may be `null`, hence `Option`; a
    value-typed member (`int`, `long`, `bool`, `DateTimeOffset`) always holds a
    value and starts at its default. Only the members the converters touch are
    modelled. */
module Models {
  import opened Wrappers
  import opened Json

  datatype Plan = Plan(
    name: Option<string>,
    space: Int32,
    collaborators: Int32,
    privateRepos: Int32)

  datatype User = User(
    followers: Int32,
    typeName: Option<string>,
    hireable: bool,
    avatarUrl: Option<string>,
    bio: Option<string>,
    htmlUrl: Option<string>,
    createdAt: DateTimeOffset,
    publicRepos: Int32,
    blog: Option<string>,
    url: Option<string>,
    publicGists: Int32,
    following: Int32,
    company: Option<string>,
    name: Option<string>,
    location: Option<string>,
    id: Int64,
    email: Option<string>,
    login: Option<string>,
    plan: Option<Plan>)

  /** `new User()`: every member at its default. */
  const DefaultUser := User(
    followers := 0, typeName := None, hireable := false, avatarUrl := None,
    bio := None, htmlUrl := None, createdAt := MinDateTimeOffset, publicRepos := 0,
    blog := None, url := None, publicGists := 0, following := 0, company := None,
    name := None, location := None, id := 0, email := None, login := None, plan := None)

  datatype Application = Application(name: Option<string>, url: Option<string>)

  datatype Authorization = Authorization(
    application: Application,
    createdAt: DateTimeOffset,
    id: Int32,
    note: Option<string>,
    noteUrl: Option<string>,
    token: Option<string>,
    updateAt: DateTimeOffset,  // the record's member is spelled `UpdateAt`
    url: Option<string>,
    scopes: Option<seq<Option<string>>>)

  datatype Repository = Repository(
    cloneUrl: Option<string>,
    openIssuesCount: Int32,
    hasIssues: bool,
    watchersCount: Int32,
    pushedAt: DateTimeOffset,
    forksCount: Int32,
    language: Option<string>,
    fullName: Option<string>,
    masterBranch: Option<string>,
    sshUrl: Option<string>,
    mirrorUrl: Option<string>,
    hasDownloads: bool,
    homepage: Option<string>,
    size: Int64,
    isFork: bool,
    svnUrl: Option<string>,
    createdAt: DateTimeOffset,
    description: Option<string>,
    name: Option<string>,
    url: Option<string>,
    networkCount: Int32,
    hasWiki: bool,
    htmlUrl: Option<string>,
    isPrivate: bool,
    id: Int64,
    gitUrl: Option<string>,
    updatedAt: DateTimeOffset,
    owner: Option<User>)

  /** `new Repository()`: every member at its default. */
  const DefaultRepository := Repository(
    cloneUrl := None, openIssuesCount := 0, hasIssues := false, watchersCount := 0,
    pushedAt := MinDateTimeOffset, forksCount := 0, language := None, fullName := None,
    masterBranch := None, sshUrl := None, mirrorUrl := None, hasDownloads := false,
    homepage := None, size := 0, isFork := false, svnUrl := None,
    createdAt := MinDateTimeOffset, description := None, name := None, url := None,
    networkCount := 0, hasWiki := false, htmlUrl := None, isPrivate := false, id := 0,
    gitUrl := None, updatedAt := MinDateTimeOffset, owner := None)

  /** The body of a profile update: only the members the caller set are sent. */
  datatype UserUpdate = UserUpdate(
    name: Option<string>,
    email: Option<string>,
    blog: Option<string>,
    company: Option<string>,
    location: Option<string>,
    bio: Option<string>,
    hireable: Option<bool>)  // Nullable<bool>

  /** The body of an authorization update. */
  datatype AuthorizationUpdate = AuthorizationUpdate(
    scopes: Option<seq<string>>,
    note: Option<string>,
    noteUrl: Option<string>)
}
