/** The converter registry `GitHubModelMap`: two fixed tables keyed by type,
    one of decoders (JSON to record) and one of encoders (update record to
    JSON), and the two `For` entry points that look a converter up and run
    it. A type is a `TypeTag`; a boxed .NET object is an `Instance`. */
module ModelMap {
  import opened Wrappers
  import opened Json
  import opened Models
  import opened EntityDecoders
  import opened UpdateEncoders

  /** The types the registry can be asked about; any other type is `OtherType`. */
  datatype TypeTag =
    | UserType                    // User
    | AuthorizationType           // Authorization
    | AuthorizationSequenceType   // IEnumerable<Authorization>
    | RepositoryType              // Repository
    | RepositoryListType          // List<Repository>
    | UserUpdateType              // UserUpdate
    | AuthorizationUpdateType     // AuthorizationUpdate
    | OtherType(name: string)

  /** A non-null .NET object, as a converter returns or receives it. */
  datatype Instance =
    | UserObject(user: User)
    | AuthorizationObject(authorization: Authorization)
    | AuthorizationsObject(authorizations: seq<Authorization>)
    | RepositoryObject(repository: Repository)
    | RepositoriesObject(repositories: seq<Repository>)
    | UserUpdateObject(userUpdate: UserUpdate)
    | AuthorizationUpdateObject(authorizationUpdate: AuthorizationUpdate)
    | OtherObject(typeName: string)

  /** The type an instance can be cast to: `obj.GetType()`, except that the
      deferred sequence of authorizations stands for `IEnumerable<Authorization>`. */
  function TypeOf(o: Instance): TypeTag {
    match o
    case UserObject(_) => UserType
    case AuthorizationObject(_) => AuthorizationType
    case AuthorizationsObject(_) => AuthorizationSequenceType
    case RepositoryObject(_) => RepositoryType
    case RepositoriesObject(_) => RepositoryListType
    case UserUpdateObject(_) => UserUpdateType
    case AuthorizationUpdateObject(_) => AuthorizationUpdateType
    case OtherObject(name) => OtherType(name)
  }

  /** The types with a decoder, and the types with an encoder. */
  const DecodableTypes: set<TypeTag> :=
    {UserType, AuthorizationType, AuthorizationSequenceType, RepositoryType, RepositoryListType}
  const EncodableTypes: set<TypeTag> := {UserUpdateType, AuthorizationUpdateType}

  /** The registered decoders and encoders, as keys of the two tables' entries. */
  datatype Decoder = UserDecoder | AuthorizationDecoder | AuthorizationsDecoder | RepositoryDecoder | RepositoriesDecoder
  datatype Encoder = UserUpdateEncoder | AuthorizationUpdateEncoder

  /** Lookup in `toObjects`, as the static constructor fills it; `None` is
      the dictionary's KeyNotFoundException. */
  function ToObjects(t: TypeTag): Option<Decoder> {
    match t
    case UserType => Some(UserDecoder)
    case AuthorizationType => Some(AuthorizationDecoder)
    case AuthorizationSequenceType => Some(AuthorizationsDecoder)
    case RepositoryType => Some(RepositoryDecoder)
    case RepositoryListType => Some(RepositoriesDecoder)
    case _ => None
  }

  /** Lookup in `fromObjects`, as the static constructor fills it. */
  function FromObjects(t: TypeTag): Option<Encoder> {
    match t
    case UserUpdateType => Some(UserUpdateEncoder)
    case AuthorizationUpdateType => Some(AuthorizationUpdateEncoder)
    case _ => None
  }

  /** The delegates held by `toObjects`, one per decodable type, each
      returning its record before it is boxed as an object. */
  datatype Decoders = Decoders(
    user: Option<Json> -> Result<User, Fault>,
    authorization: Option<Json> -> Result<Authorization, Fault>,
    authorizations: Option<Json> -> Result<seq<Authorization>, Fault>,
    repository: Option<Json> -> Result<Repository, Fault>,
    repositories: Option<Json> -> Result<seq<Repository>, Fault>)

  /** The delegates the static constructor registers: the five entity
      decoders, reading through `api`. */
  function DecoderTable(api: Accessors): Decoders {
    Decoders(
      x => JObjectToUser(api, x),
      x => JObjectToAuthorization(api, x),
      x => JObjectToAuthorizations(api, x),
      x => JObjectToRepository(api, x),
      x => JObjectToRepositories(api, x))
  }

  /** Invokes the delegate registered under `d` and boxes its record. */
  function Decode(decoders: Decoders, d: Decoder, j: Option<Json>): Result<Instance, Fault> {
    match d
    case UserDecoder =>
      var u :- decoders.user(j); Success(UserObject(u))
    case AuthorizationDecoder =>
      var a :- decoders.authorization(j); Success(AuthorizationObject(a))
    case AuthorizationsDecoder =>
      var s :- decoders.authorizations(j); Success(AuthorizationsObject(s))
    case RepositoryDecoder =>
      var x :- decoders.repository(j); Success(RepositoryObject(x))
    case RepositoriesDecoder =>
      var s :- decoders.repositories(j); Success(RepositoriesObject(s))
  }

  /** The delegates held by `fromObjects`, one per encodable type, each
      taking the update record its cast produces. */
  datatype Encoders = Encoders(
    userUpdate: UserUpdate -> Json,
    authorizationUpdate: AuthorizationUpdate -> Json)

  /** The delegates the static constructor registers: the two update encoders. */
  function EncoderTable(): Encoders {
    Encoders(u => UserToJObject(u), a => AuthorizationToJObject(a))
  }

  /** Invokes the delegate registered under `e`: `x => UserToJObject((UserUpdate)x)`
      and its authorization twin, whose cast throws on an object of another type. */
  function Encode(encoders: Encoders, e: Encoder, o: Instance): Result<Json, Fault> {
    match e
    case UserUpdateEncoder =>
      if o.UserUpdateObject? then Success(encoders.userUpdate(o.userUpdate)) else Failure(InvalidCast)
    case AuthorizationUpdateEncoder =>
      if o.AuthorizationUpdateObject? then Success(encoders.authorizationUpdate(o.authorizationUpdate)) else Failure(InvalidCast)
  }

  /** `For<T>(JObject obj)` over the delegates `decoders`; the registry's
      own is `ForType(DecoderTable(api), t, obj)`. A null argument is rejected
      before the lookup, a type without a decoder fails the lookup, and
      otherwise the delegate registered for the type runs; its result always
      passes the final cast to `T`. */
  function ForType(decoders: Decoders, t: TypeTag, obj: Option<Json>): (r: Result<Instance, Fault>)
    ensures obj.None? ==> r == Failure(ArgumentNull("obj"))
    ensures obj.Some? && t !in DecodableTypes ==> r == Failure(KeyNotFound)
  {
    if obj.None? then Failure(ArgumentNull("obj"))
    else
      match ToObjects(t)
      case None => Failure(KeyNotFound)
      case Some(d) => Decode(decoders, d, obj)
  }

  /** `For(object obj)` over the delegates `encoders`; the registry's own
      is `ForObject(EncoderTable(), obj)`. A null argument is rejected before the lookup, an
      object whose type has no encoder fails the lookup, and otherwise the
      encoder registered for its type runs, so its cast never fails. */
  function ForObject(encoders: Encoders, obj: Option<Instance>): (r: Result<Json, Fault>)
    ensures obj.None? ==> r == Failure(ArgumentNull("obj"))
    ensures obj.Some? && TypeOf(obj.value) !in EncodableTypes ==> r == Failure(KeyNotFound)
  {
    if obj.None? then Failure(ArgumentNull("obj"))
    else
      match FromObjects(TypeOf(obj.value))
      case None => Failure(KeyNotFound)
      case Some(e) => Encode(encoders, e, obj.value)
  }

  /** The decoder table holds exactly the five decodable types and the
      encoder table exactly the two update types. */
  lemma TableDomains(t: TypeTag)
    ensures ToObjects(t).Some? <==> t in DecodableTypes
    ensures FromObjects(t).Some? <==> t in EncodableTypes
  {
  }

  /** The table the static constructor fills holds the five entity decoders. */
  lemma RegisteredDecoders(api: Accessors, x: Option<Json>)
    ensures DecoderTable(api).user(x) == JObjectToUser(api, x)
    ensures DecoderTable(api).authorization(x) == JObjectToAuthorization(api, x)
    ensures DecoderTable(api).authorizations(x) == JObjectToAuthorizations(api, x)
    ensures DecoderTable(api).repository(x) == JObjectToRepository(api, x)
    ensures DecoderTable(api).repositories(x) == JObjectToRepositories(api, x)
  {
  }

  /** The table the static constructor fills holds the two update encoders. */
  lemma RegisteredEncoders(u: UserUpdate, a: AuthorizationUpdate)
    ensures EncoderTable().userUpdate(u) == UserToJObject(u)
    ensures EncoderTable().authorizationUpdate(a) == AuthorizationToJObject(a)
  {
  }

  /** Whatever `For<T>` returns passes the cast to `T`. */
  lemma ForTypeCast(decoders: Decoders, t: TypeTag, obj: Option<Json>)
    ensures ForType(decoders, t, obj).Success? ==> TypeOf(ForType(decoders, t, obj).value) == t
  {
  }

  /** `For<User>` runs the delegate registered for `User` and nothing else,
      returning its user boxed or throwing what it throws. */
  lemma ForUser(decoders: Decoders, j: Json)
    ensures decoders.user(Some(j)).Success? ==> ForType(decoders, UserType, Some(j)) == Success(UserObject(decoders.user(Some(j)).value))
    ensures decoders.user(Some(j)).Failure? ==> ForType(decoders, UserType, Some(j)) == Failure(decoders.user(Some(j)).error)
  {
    assert ToObjects(UserType) == Some(UserDecoder);
  }

  /** `For<Authorization>` runs the delegate registered for `Authorization`. */
  lemma ForAuthorization(decoders: Decoders, j: Json)
    ensures decoders.authorization(Some(j)).Success? ==> ForType(decoders, AuthorizationType, Some(j)) == Success(AuthorizationObject(decoders.authorization(Some(j)).value))
    ensures decoders.authorization(Some(j)).Failure? ==> ForType(decoders, AuthorizationType, Some(j)) == Failure(decoders.authorization(Some(j)).error)
  {
    assert ToObjects(AuthorizationType) == Some(AuthorizationDecoder);
  }

  /** `For<IEnumerable<Authorization>>` runs the delegate registered for that type. */
  lemma ForAuthorizations(decoders: Decoders, j: Json)
    ensures decoders.authorizations(Some(j)).Success? ==> ForType(decoders, AuthorizationSequenceType, Some(j)) == Success(AuthorizationsObject(decoders.authorizations(Some(j)).value))
    ensures decoders.authorizations(Some(j)).Failure? ==> ForType(decoders, AuthorizationSequenceType, Some(j)) == Failure(decoders.authorizations(Some(j)).error)
  {
    assert ToObjects(AuthorizationSequenceType) == Some(AuthorizationsDecoder);
  }

  /** `For<Repository>` runs the delegate registered for `Repository`. */
  lemma ForRepository(decoders: Decoders, j: Json)
    ensures decoders.repository(Some(j)).Success? ==> ForType(decoders, RepositoryType, Some(j)) == Success(RepositoryObject(decoders.repository(Some(j)).value))
    ensures decoders.repository(Some(j)).Failure? ==> ForType(decoders, RepositoryType, Some(j)) == Failure(decoders.repository(Some(j)).error)
  {
    assert ToObjects(RepositoryType) == Some(RepositoryDecoder);
  }

  /** `For<List<Repository>>` runs the delegate registered for that type. */
  lemma ForRepositories(decoders: Decoders, j: Json)
    ensures decoders.repositories(Some(j)).Success? ==> ForType(decoders, RepositoryListType, Some(j)) == Success(RepositoriesObject(decoders.repositories(Some(j)).value))
    ensures decoders.repositories(Some(j)).Failure? ==> ForType(decoders, RepositoryListType, Some(j)) == Failure(decoders.repositories(Some(j)).error)
  {
    assert ToObjects(RepositoryListType) == Some(RepositoriesDecoder);
  }

  /** `For(userUpdate)` runs the delegate registered for `UserUpdate`. */
  lemma ForUserUpdate(encoders: Encoders, u: UserUpdate)
    ensures ForObject(encoders, Some(UserUpdateObject(u))) == Success(encoders.userUpdate(u))
  {
    assert FromObjects(UserUpdateType) == Some(UserUpdateEncoder);
  }

  /** `For(authorizationUpdate)` runs the delegate registered for `AuthorizationUpdate`. */
  lemma ForAuthorizationUpdate(encoders: Encoders, a: AuthorizationUpdate)
    ensures ForObject(encoders, Some(AuthorizationUpdateObject(a))) == Success(encoders.authorizationUpdate(a))
  {
    assert FromObjects(AuthorizationUpdateType) == Some(AuthorizationUpdateEncoder);
  }

  /** The encoder found for an object's own type always accepts it. */
  lemma ForObjectNeverInvalidCast(encoders: Encoders, obj: Option<Instance>)
    ensures ForObject(encoders, obj) != Failure(InvalidCast)
  {
  }
}
