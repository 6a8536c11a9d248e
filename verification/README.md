# GitHubModelMap in Dafny

This project models `GitHubModelMap`, the converter registry of the early
octokit.net client ("Burr"). The registry turns GitHub API JSON into typed
records and turns update records into JSON request bodies. It has three
parts:

- **Update encoders** (`UpdateEncoders`). `UserToJObject` and
  `AuthorizationToJObject` build a JSON object that holds only the members
  the caller set. An unset member is left out of the request body rather
  than sent as `null`.
- **Entity decoders** (`EntityDecoders`). `JObjectToUser`,
  `JObjectToAuthorization(s)` and `JObjectToRepository`/`JObjectToRepositories`
  read fixed keys into the members of a record. The reads go through the JSON
  library's indexer and cast operators, in the order the source writes them,
  so the first read that throws ends the decode. `plan` and `owner` are read
  only when the object has that key; `app` is read unconditionally.
- **Registry** (`ModelMap`). `For<T>(JObject)` looks up the decoder for
  `T`, and `For(object)` looks up the encoder for the object's runtime type.
  Both reject `null` before the lookup. The lookup fails for a type that has
  no entry.

Supporting modules:

- `Wrappers` holds `Option` and `Result`.
- `Json` holds the JSON value tree and the library's reading interface (`Accessors`).
- `Models` holds the records.
- `Linq` holds the eager, first-failure `Select`.

Exceptions are values of `Json.Fault`, returned in a `Result`:

- `ArgumentNull(param)`;
- `NullReference`;
- `KeyNotFound` (a dictionary lookup);
- `InvalidCast`;
- `Thrown(e)`, for an exception raised inside the JSON library or the
  timestamp parser.

The JSON library's reading operations are not part of this model. They are
passed to every decoder as the record `Accessors`, and each of them may fail.
The indexer may yield `null` (`None`), and so may `ObjectValue`, `ArrayValue`
and `StringValue`, and an array element may be `null`. An instance member
applied to `null` throws NullReference before the library runs. The cast
operators and the timestamp parser are static and receive `null` as it is.
The decoder properties therefore hold whatever the library does with a
missing key, a `null` value or a value of the wrong kind.

Values are written with the library's `Create*` constructors, which are the
constructors of the `Json` datatype. This makes the encoders' key sets and
values exact.

Each operation has a partner:

- each encoder has a reader that inverts it (a round trip);
- each decoder has an independent description of the reads it makes. The
  `*Read` predicates say what each member holds. The `*Fault` functions give
  the exception of the first read that throws, in the order the source
  writes the reads, or `None` when no read throws;
- each registry entry point has the delegate it must dispatch to, and the
  tables the static constructor fills hold the five decoders and two encoders.

## Model

| member | source | states |
|---|---|---|
| `Linq.Select` | Burr/GitHubModelMap.cs:80 | Projecting a sequence succeeds exactly when every element's projection succeeds. The result then has the same length, and element i is the projection of input element i. A failure carries the exception of an element whose predecessors all projected without one, so the first failure wins. |
| `UpdateEncoders.AddEach` | Burr/GitHubModelMap.cs:87-104 | Running a sequence of `if (v != null) dict.Add(key, v)` statements with pairwise distinct keys never meets a duplicate key. Afterwards each statement's key is present exactly when its value was set, holding that value. Earlier keys are kept, and no other key appears. |
| `UpdateEncoders.UserEntryKeys` | Burr/GitHubModelMap.cs:89-102 | The seven `Add` statements of the profile encoder use seven different keys: name, email, blog, company, location, bio and hireable. |
| `UpdateEncoders.UserEntryAdded` | Burr/GitHubModelMap.cs:89-102 | After the seven statements, the key of each statement is in the body exactly when its value was set. |
| `UpdateEncoders.UserKeysBound` | Burr/GitHubModelMap.cs:87-104 | The profile request body has no key besides the seven the statements use. |
| `UpdateEncoders.UserToJObject` | Burr/GitHubModelMap.cs:85-105 | The profile request body is an object. `UserToJObjectKeys` and `UserToJObjectValues` state its keys and values. |
| `UpdateEncoders.UserToJObjectKeys` | Burr/GitHubModelMap.cs:85-105 | The profile request body has a key exactly for each member the caller set, and no key besides name, email, blog, company, location, bio and hireable. |
| `UpdateEncoders.UserToJObjectValues` | Burr/GitHubModelMap.cs:89-102 | Each member that is set is sent under its key: a string member as a JSON string holding the same text, `hireable` as a JSON boolean. |
| `UpdateEncoders.UserUpdateRoundTrip` | Burr/GitHubModelMap.cs:85-105 | Reading the profile request body back gives the original update, so no set member is lost and no unset member appears. |
| `UpdateEncoders.UserToJObjectEmpty` | Burr/GitHubModelMap.cs:87-104 | The profile request body is the empty object exactly when no member of the update is set. |
| `UpdateEncoders.AuthorizationEntryKeys` | Burr/GitHubModelMap.cs:45-50 | The three `Add` statements of the authorization encoder use three different keys: scopes, note and note_url. |
| `UpdateEncoders.AuthorizationToJObject` | Burr/GitHubModelMap.cs:41-53 | The authorization request body is an object. It has a key exactly for each member set, and no key besides scopes, note and note_url. The notes are JSON strings. The scopes are a JSON array of the same length holding, in order, each scope as a JSON string. |
| `UpdateEncoders.ReadStrings` | Burr/GitHubModelMap.cs:46 | Reading back an array as strings succeeds exactly when every element is a string. It then yields one string per element, in order, so it inverts the scopes array built by the encoder. |
| `UpdateEncoders.AuthorizationUpdateRoundTrip` | Burr/GitHubModelMap.cs:41-53 | Reading the authorization request body back gives the original update, scopes included with their order and length. |
| `UpdateEncoders.AuthorizationToJObjectEmpty` | Burr/GitHubModelMap.cs:41-53 | The authorization request body is the empty object exactly when no member is set. An empty scope list is still sent. |
| `EntityDecoders.ReadUserMembers` | Burr/GitHubModelMap.cs:109-129 | The user initializer fails exactly when one of its eighteen reads throws, and with the exception of the first read that throws, in initializer order. On success each member is what its key reads as through the matching cast: `id` through `(long)`, the counters through `(int)`, `hireable` through `(bool)`, `created_at` through the invariant-culture parse. The plan is unset. Reading a null object throws NullReference. |
| `EntityDecoders.ReadPlan` | Burr/GitHubModelMap.cs:133-139 | The plan initializer fails exactly when one of its four `plan.*` reads throws, and with the first such read's exception; a null `jObj["plan"]` throws NullReference. On success each plan member is what its key reads as. |
| `EntityDecoders.JObjectToUser` | Burr/GitHubModelMap.cs:107-143 | A user decode fails exactly when a read it makes throws, and with the first such read's exception. The reads are the members, then `jObj.ObjectValue.ContainsKey("plan")`, where a null `ObjectValue` throws NullReference, then the plan reads, only when that key exists. On success the plan is set exactly when the object has a `plan` key, and every member holds what its key reads as. |
| `EntityDecoders.UserWithoutPlan` | Burr/GitHubModelMap.cs:131-140 | When the object has no `plan` key, no `plan.*` read is made: the decode is the member initializer alone. |
| `EntityDecoders.JObjectToAuthorization` | Burr/GitHubModelMap.cs:60-83 | An authorization decodes exactly when every read succeeds: `app.name` and `app.url` always, `id` through `(int)`, the two timestamps parsed, and each scope's string value when `scopes` yields an array. The scopes are unset exactly when `ArrayValue` is null. Otherwise they have the array's length and hold, in order, each element's string value. A failure carries the exception of the first member read that throws, else that of `jObj["scopes"].ArrayValue`, where a null `jObj["scopes"]` throws NullReference, else that of the first element whose `StringValue` throws, where a null element throws NullReference. |
| `EntityDecoders.AuthorizationReadsAppFirst` | Burr/GitHubModelMap.cs:62-68 | `app` is read first and with no presence check. When reading `app.name` throws, the decode throws the same exception. |
| `EntityDecoders.JObjectToAuthorizations` | Burr/GitHubModelMap.cs:55-58 | A failure of `ArrayValue`, or a null array, is passed through unchanged. Otherwise the list decodes exactly when every element decodes. It then has the array's length, and element i is the decode of array element i. A failure is the exception of the first element that does not decode. |
| `EntityDecoders.ReadRepositoryHead` | Burr/GitHubModelMap.cs:152-162 | The first nine assignments of the repository initializer, from `clone_url` to `master_branch`, made on a new repository. It fails exactly when one of these reads throws, with the first one's exception. On success these members are what their keys read as, and the owner is unset. |
| `EntityDecoders.ReadRepositoryMiddle` | Burr/GitHubModelMap.cs:163-171 | The next nine assignments, from `ssh_url` to `description`. It fails exactly when one of these reads throws, with the first one's exception. On success these members are what their keys read as, and the members assigned before them and the owner are unchanged. |
| `EntityDecoders.ReadRepositoryTail` | Burr/GitHubModelMap.cs:172-180 | The last nine assignments, from `name` to `updated_at`. It fails exactly when one of these reads throws, with the first one's exception. On success these members are what their keys read as, and the members assigned before them and the owner are unchanged. |
| `EntityDecoders.ReadRepositoryMembers` | Burr/GitHubModelMap.cs:152-181 | The repository initializer fails exactly when one of its twenty-seven reads throws, and with the first such read's exception, in initializer order. On success each member is what its key reads as: `id` and `size` through `(long)`, the counts through `(int)`, the flags through `(bool)`, the three timestamps parsed. The owner is unset. |
| `EntityDecoders.ReadOwner` | Burr/GitHubModelMap.cs:185-191 | The owner initializer fails exactly when one of its four `owner.*` reads throws, and with the first such read's exception. On success the owner has `login`, `url`, `id` and `avatar_url` as read, and every other user member at its default. |
| `EntityDecoders.JObjectToRepository` | Burr/GitHubModelMap.cs:150-195 | A repository decode fails exactly when a read it makes throws, and with the first such read's exception: the members, then the `owner` key test, then the owner's reads, only when that key exists. On success the owner is set exactly when the object has an `owner` key, and each member is what its key reads as. |
| `EntityDecoders.RepositoryWithoutOwner` | Burr/GitHubModelMap.cs:183-192 | When the object has no `owner` key, no `owner.*` read is made: the decode is the member initializer alone. |
| `EntityDecoders.JObjectToRepositories` | Burr/GitHubModelMap.cs:145-148 | A failure of `ArrayValue`, or a null array, is passed through. Otherwise the list decodes exactly when every element decodes. It then has the array's length, and element i is the decode of array element i. A failure is the exception of the first element that does not decode. |
| `ModelMap.TableDomains` | Burr/GitHubModelMap.cs:15-25 | The decoder table holds exactly User, Authorization, IEnumerable<Authorization>, Repository and List<Repository>. The encoder table holds exactly UserUpdate and AuthorizationUpdate. |
| `ModelMap.RegisteredDecoders` | Burr/GitHubModelMap.cs:17-21 | The static constructor registers `JObjectToUser`, `JObjectToAuthorization`, `JObjectToAuthorizations`, `JObjectToRepository` and `JObjectToRepositories` for User, Authorization, IEnumerable<Authorization>, Repository and List<Repository>. |
| `ModelMap.RegisteredEncoders` | Burr/GitHubModelMap.cs:23-24 | The static constructor registers `UserToJObject` for UserUpdate and `AuthorizationToJObject` for AuthorizationUpdate. |
| `ModelMap.ForType` | Burr/GitHubModelMap.cs:27-32 | `For<T>(null)` throws ArgumentNullException for `obj` before any lookup, whatever `T` is. For a non-null object, a `T` outside the five decodable types fails the lookup with KeyNotFound. |
| `ModelMap.ForTypeCast` | Burr/GitHubModelMap.cs:31 | Whatever `For<T>` returns has type `T`, so the final cast `(T)` never fails. |
| `ModelMap.ForUser` | Burr/GitHubModelMap.cs:17 | `For<User>` returns what the delegate registered for `User` returns, boxed, and throws what it throws. |
| `ModelMap.ForAuthorization` | Burr/GitHubModelMap.cs:18 | `For<Authorization>` returns or throws what the delegate registered for `Authorization` does. |
| `ModelMap.ForAuthorizations` | Burr/GitHubModelMap.cs:19 | `For<IEnumerable<Authorization>>` returns or throws what the delegate registered for that type does. |
| `ModelMap.ForRepository` | Burr/GitHubModelMap.cs:20 | `For<Repository>` returns or throws what the delegate registered for `Repository` does. |
| `ModelMap.ForRepositories` | Burr/GitHubModelMap.cs:21 | `For<List<Repository>>` returns or throws what the delegate registered for that type does. |
| `ModelMap.ForObject` | Burr/GitHubModelMap.cs:34-39 | `For(null)` throws ArgumentNullException for `obj`. An object whose runtime type has no encoder fails the lookup with KeyNotFound. |
| `ModelMap.ForUserUpdate` | Burr/GitHubModelMap.cs:23 | `For(userUpdate)` returns what the delegate registered for `UserUpdate` returns on it. |
| `ModelMap.ForAuthorizationUpdate` | Burr/GitHubModelMap.cs:24 | `For(authorizationUpdate)` returns what the delegate registered for `AuthorizationUpdate` returns on it. |
| `ModelMap.ForObjectNeverInvalidCast` | Burr/GitHubModelMap.cs:23-24 | The encoder found for an object's own runtime type always accepts the object, so the `(UserUpdate)` and `(AuthorizationUpdate)` casts never throw. |

## Left out

- SimpleJson (`JObject`, its indexer, `ObjectValue`, `ArrayValue`,
  `StringValue` and cast operators) and `DateTimeOffset.Parse` are not part of
  this model. They are the parameter `Accessors`, and every one of them may
  fail. The rule that a missing key or a `null` yields a default rather than
  an error belongs to that library, so the model neither assumes nor proves
  it. The decoders' contracts say what each member is in terms of what its
  key reads as, whatever that is. `DateTimeOffset.Parse` receives a `null`
  string like any other, so what it throws for one also belongs to the
  parameter.
- `DateTimeOffset` is a plain pair of numbers. Its parsing, calendar and
  arithmetic are left out.
- `Ensure.ArgumentNotNull` is modelled only by its effect: `ArgumentNull("obj")`.
- The registry's `For` entry points and their lemmas take the delegate
  tables as parameters. `DecoderTable(api)` and `EncoderTable()` are the
  tables the static constructor fills, and `RegisteredDecoders` and
  `RegisteredEncoders` tie their entries to the converters.
- Reflection is left out. `typeof(T)` and `obj.GetType()` are a `TypeTag`, and
  a boxed object is an `Instance`. A deferred LINQ sequence stands for
  `IEnumerable<Authorization>`.
- EntityDecoders.JObjectToAuthorizations: the list is decoded eagerly. In the
  source, `Select` without `ToList` is lazy, so a bad element throws only when
  the caller enumerates the result, not inside `For`. A null `ArrayValue` is
  rejected at once in both.
- The order of members inside a JSON object is left out. The enumeration
  order of a `Dictionary` is undefined; in practice it is insertion order
  when nothing is removed. The model's object is a `map`.
- `null` elements inside `AuthorizationUpdate.Scopes` are left out; the scopes
  are a sequence of strings.
- A `null` update record passed straight to the public static encoders (for
  example `UserToJObject(null)`) is left out. `For(object)` never passes one,
  because it rejects `null` first. The decoders do take a `null` object, which
  a list decoder passes on for a `null` array element.
- The records' members that the converters never touch, the
  `IGitHubModelMap` interface, and the static constructor's own failure modes
  are left out.
- `Authorization.Id` follows the code: it is read with `(int)` and stored as a
  32-bit `Int32`. `User.Id`, `Repository.Id` and `Repository.Size` are
  `(long)`, stored as `Int64`.
- Scopes follow the code: they are unset when `jObj["scopes"].ArrayValue` is
  null. This is not the same as "the `scopes` key is missing". A missing key
  leaves the scopes unset only if the library's indexer yields something
  whose `ArrayValue` is null, and a present `null` value does the same.
- What the `(int)`, `(long)` and `(bool)` casts do with a number out of range
  or a value of another kind belongs to the library's cast operators, so it
  is left out.
