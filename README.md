# NBacklog core, modelled in Dafny

NBacklog is a C# client for the Backlog issue-tracking REST API. This project models the four
parts of it that have behaviour worth stating:

- **The OAuth2 broker** (`OAuth2Broker` in `NBacklog/OAuth2/OAuth2.cs`). It covers:
  - the two freshness tests;
  - the expiry arithmetic;
  - the authorization URI of section 4.1.1 of RFC 6749;
  - the form bodies of the code exchange (section 4.1.3 of RFC 6749) and of the refresh request;
  - the credential cache file;
  - the two entry points `AuthorizeAsync` and `UpdateCredentialsAsync`.
- **`Ticket`** (`NBacklog/DataTypes/Ticket.cs`). It covers:
  - the parameter list that `ToApiParameters` builds for the create and update requests;
  - the `SharedFiles` list that `LinkSharedFilesAsync` and `UnlinkSharedFilesAsync` maintain;
  - the `Id < 0` "not from the server" guard on every comment and shared-file operation.
- **`Milestone`** (`NBacklog/DataTypes/Milestone.cs`): its constructors, the truncation of the server's dates to calendar days, and `ToApiParameters`.
- **`Project.GetSharedFilesAsync`** (`NBacklog/DataTypes/Project.cs`): the type-name filter it applies to the server's reply.

Each file holds one part of the model:

| file | module | contents |
|---|---|---|
| `common.dfy` | `Wrappers`, `Exceptions` | `Option` stands for C# `null`; `Result` plus the exception values stand for a throw |
| `strings.dfy` | `Strings` | `Int32.ToString()` with `-` as the negative sign, with its inverse; `TrimEnd` and `TrimStart` |
| `dates.dfy` | `Dates` | `DateTime`; `.Date`; `ToString("yyyy-MM-dd")` under a Gregorian-calendar culture (then the RFC 3339 `full-date`) with a parser that inverts it |
| `sequences.dfy` | `Sequences` | subsequence order; LINQ `Except` |
| `query.dfy` | `Query` | `QueryParameters` as an append-only list of entries (a class whose `Add`/`AddRange` append) |
| `items.dfy` | `Items` | item references and shared files |
| `oauth2.dfy` | `OAuth2` | the broker |
| `ticket.dfy` | `Tickets` | class `Ticket` |
| `milestone.dfy` | `Milestones` | class `Milestone` |
| `project.dfy` | `Projects` | the shared-file filter |

How the model is built:

- **Ticket and Milestone.** Each is a Dafny `class`, because the source updates these objects in place.
  - `ToApiParameters` is a method. It makes the source's `Add` calls, in order, on a fresh `QueryParameters` object.
  - It is proved equal to a specification function, `ApiParameters`, and lemmas state what the source promises about that function.
- **Parameter names** are enumerations (`TicketField`, `MilestoneField`, `FormField`). `Wire()` gives the exact string the source passes for each one.
- **The broker.**
  - Its methods take the file system as a map from path to file content and return the new map.
  - They also report the side effects the caller can see: the listener prefix, the URI handed to the browser, and the request sent to the token endpoint.
  - Time is two integer inputs, in seconds:
    - `now` is the freshness test's reading of `DateTime.Now`;
    - `issuedAt` is the later reading used for the expiry.
  - The captured `code` and the token endpoint's reply are inputs too.

Behaviour of the broker's code worth knowing:

- **No refresh fallback.** `AuthorizeAsync` never uses a cached refresh token. Stale credentials always lead to the interactive flow (`OAuth2.cs:40-51`).
- **Wrong refresh grant type.** The refresh request sends `grant_type=authorization_code` (`OAuth2.cs:70`), not `refresh_token` as section 6 of RFC 6749 requires. `OAuth2.RefreshRequestConformsToNoGrant` proves that the request is neither a refresh grant nor a code grant.
- **Corrupt cache throws.** A cache file that is not a credentials JSON object makes `LoadCredentials` throw (`OAuth2.cs:106-110`). It is not treated as a cache miss.
- **Null credentials throw.** `UpdateCredentialsAsync` with `null` credentials throws `NullReferenceException` at `credentials.RefreshToken` (`OAuth2.cs:73`). The model returns that as a `Failure` outcome.
- **Server replies are not checked.** A missing `access_token`, or a non-success status, still yields credentials. Their fields are then null or 0.

One more difference from the data types: `_Milestone` (`ApiDataTypes.cs:27-37`) declares `startDate` and `releaseDueDate` as non-nullable `DateTime`. `Milestone.cs:50-51` still applies `?.Date` to them, so `MilestoneData` keeps them optional and the model covers both cases.

## Model

| member | source | states |
|---|---|---|
| OAuth2.NeedsAuthorization | NBacklog/OAuth2/OAuth2.cs:40 | the interactive flow is needed when the credentials are null, have no access token, or `Expires < now` |
| OAuth2.IsStillValid | NBacklog/OAuth2/OAuth2.cs:58 | the credentials are kept when an access token is present and `now < Expires` |
| OAuth2.FreshnessTestsDisagreeOnlyAtExpiry | NBacklog/OAuth2/OAuth2.cs:40-58 | the two freshness tests agree exactly when not (token present and `Expires == now`); at that instant `AuthorizeAsync` keeps the credentials and `UpdateCredentialsAsync` replaces them |
| OAuth2.CredentialsFromToken | NBacklog/OAuth2/OAuth2.cs:161-166 | new credentials carry the reply's two tokens, and their expiry lies `expires_in` seconds after the moment of building |
| OAuth2.FreshnessOfNewCredentials | NBacklog/OAuth2/OAuth2.cs:78-83 | new credentials pass `UpdateCredentialsAsync`'s test strictly before `expires_in` has elapsed and `AuthorizeAsync`'s test up to and including it; without an access token they pass neither |
| OAuth2.FreshOnArrival | NBacklog/OAuth2/OAuth2.cs:165 | with a token and `expires_in > 0`, new credentials pass both freshness tests at the instant they are built |
| OAuth2.ClientBase | NBacklog/OAuth2/OAuth2.cs:148 | the REST client's base is `BaseUri` up to its trailing slashes (everything dropped is `/`), followed by exactly one slash |
| OAuth2.Lookup | NBacklog/OAuth2/OAuth2.cs:153-156 | a reader of form bodies used to state the request properties, not code of the source: it finds a form field exactly when the body holds one of that name, and returns a value the body holds under it |
| OAuth2.LookupAt | NBacklog/OAuth2/OAuth2.cs:153-156 | a helper about that reader, not code of the source: the first field of a name is the one found |
| OAuth2.CodeExchangeParameters | NBacklog/OAuth2/OAuth2.cs:153-156 | the code exchange sends exactly `grant_type=authorization_code`, `code`, `client_id`, `client_secret`, in that order, with the captured code (null included) and the client's id and secret |
| OAuth2.CodeExchangeRequest | NBacklog/OAuth2/OAuth2.cs:146-156 | the exchange is posted to `QueryTokenResource` on the client base derived from `BaseUri`, carries the code under `grant_type=authorization_code`, and no refresh token |
| OAuth2.RefreshParameters | NBacklog/OAuth2/OAuth2.cs:70-73 | the refresh request sends exactly `grant_type=authorization_code`, `client_id`, `client_secret`, `refresh_token`, in that order, with the client's id and secret and the old refresh token (null included) |
| OAuth2.RefreshRequest | NBacklog/OAuth2/OAuth2.cs:65-73 | the refresh is posted to `QueryTokenResource` on the client base derived from `BaseUri`, carries the old refresh token, and is not an RFC 6749 section 6 refresh grant |
| OAuth2.CodeExchangeConforms | NBacklog/OAuth2/OAuth2.cs:153-156 | the code exchange is an RFC 6749 section 4.1.3 grant exactly when a code was captured; it always carries `grant_type=authorization_code`, the code, the client id and secret, and no refresh token |
| OAuth2.RefreshRequestConformsToNoGrant | NBacklog/OAuth2/OAuth2.cs:70-73 | the refresh request carries the client id and secret and the refresh token under `grant_type=authorization_code`, so it is neither an RFC 6749 section 6 refresh grant nor a code grant |
| OAuth2.AuthUri | NBacklog/OAuth2/OAuth2.cs:44 | the authorization URI ends with `?response_type=code&client_id=` and the client id |
| OAuth2.AuthUriBase | NBacklog/OAuth2/OAuth2.cs:44 | the URI begins with `BaseUri` minus its trailing slashes, followed by exactly one slash |
| OAuth2.AuthUriResource | NBacklog/OAuth2/OAuth2.cs:44 | between that slash and the query stands `AuthResource` minus its leading slashes |
| OAuth2.AuthUriIgnoresExtraSlashes | NBacklog/OAuth2/OAuth2.cs:44 | an extra trailing slash on the base or an extra leading slash on the resource does not change the URI |
| OAuth2.LoadCredentials | NBacklog/OAuth2/OAuth2.cs:99-111 | no file, or one that deserialises to `null`, is no credentials; a file that is not a credentials JSON object throws; otherwise the stored snapshot is returned |
| OAuth2.SaveCredentials | NBacklog/OAuth2/OAuth2.cs:90-97 | the file at the cache path becomes the snapshot; no other file changes |
| OAuth2.SaveThenLoad | NBacklog/OAuth2/OAuth2.cs:90-111 | load after save on the same path gives back the saved credentials; loads from other paths are unaffected |
| OAuth2.AuthorizeAsync | NBacklog/OAuth2/OAuth2.cs:37-54 | loaded credentials that pass the test are returned with nothing saved, browsed or sent; otherwise the consent page is opened at `AuthUri`, the code is exchanged, and the new credentials are saved and returned (they are what the cache then holds); the refresh token is never sent; a corrupt cache throws |
| OAuth2.UpdateCredentialsAsync | NBacklog/OAuth2/OAuth2.cs:56-88 | valid credentials are returned with no request and no save; `null` credentials throw `NullReference`; otherwise the refresh request is sent with the old refresh token, and the reply's credentials are saved and returned |
| Tickets.RequestEndpoint | NBacklog/DataTypes/Ticket.cs:144-294 | every comment and shared-file operation throws `InvalidOperationException("ticket retrieved not from the server")` exactly when `Id < 0`, before any request; otherwise its path lies under `/api/v2/issues/{Id}/` |
| Tickets.FieldParameters | NBacklog/DataTypes/Ticket.cs:327-331 | a custom field sends `customField_{Id}` with its value, followed by `customField_{Id}_otherValue` exactly when `OtherValue` is non-null |
| Tickets.CustomFieldParameters | NBacklog/DataTypes/Ticket.cs:323-333 | custom fields send one or two unflagged custom entries each |
| Tickets.CustomFieldParametersLayout | NBacklog/DataTypes/Ticket.cs:325-332 | each field's entries stand in the field's place, between those of the fields before and after it |
| Tickets.AddCustomFields | NBacklog/DataTypes/Ticket.cs:325-332 | the `foreach` appends the fields' entries in order |
| Tickets.IdText | NBacklog/DataTypes/Ticket.cs:315-320 | `x?.Id.ToString() ?? ""` is empty exactly when the item is null, and otherwise parses back to the id |
| Tickets.NumberText | NBacklog/DataTypes/Ticket.cs:312 | `n?.ToString() ?? ""` is empty exactly when the number is null, and otherwise parses back to the number |
| Tickets.Ticket.constructor | NBacklog/DataTypes/Ticket.cs:92-94 | `Ticket(int id)` keeps the id and leaves every property unset |
| Tickets.Ticket.FromKey | NBacklog/DataTypes/Ticket.cs:96-100 | `Ticket(string key)` has the id `-1` and only the key set |
| Tickets.Ticket.Draft | NBacklog/DataTypes/Ticket.cs:102-108 | `Ticket(summary, type, priority)` has the id `-1` and only those three set |
| Tickets.Ticket.ApiParameters | NBacklog/DataTypes/Ticket.cs:297-336 | the parameters throw `NullReference` exactly when the type or priority is null; otherwise there are 14 entries (16 on update), followed by the custom fields' entries |
| Tickets.Ticket.FixedNamesInOrder | NBacklog/DataTypes/Ticket.cs:301-315 | the 14 fixed entries are `summary`, `issueTypeId`, `priorityId`, `description`, `dueDate`, `startDate`, the four id lists, `parentIssueId`, `estimatedHours`, `actualHours`, `assigneeId`, in that order |
| Tickets.Ticket.ApiParametersNames | NBacklog/DataTypes/Ticket.cs:301-333 | `statusId` and `resolutionId` are present exactly when updating, right after `assigneeId`; every later entry is a custom field's |
| Tickets.Ticket.ApiParametersFlags | NBacklog/DataTypes/Ticket.cs:301-303 | the first three entries are the only ones given the `toCreate` flag |
| Tickets.Ticket.ApiParametersCustomTail | NBacklog/DataTypes/Ticket.cs:323-333 | the list ends with the custom fields' entries, none when `CustomFields` is null |
| Tickets.Ticket.ApiParametersDescriptionAndDates | NBacklog/DataTypes/Ticket.cs:305-307 | the description and the two dates are always sent, as `""` when null and otherwise as `yyyy-MM-dd` |
| Tickets.Ticket.ApiParametersItemLists | NBacklog/DataTypes/Ticket.cs:308-311 | the category, version, milestone and attachment id lists are always sent |
| Tickets.Ticket.ApiParametersOptionalNumbers | NBacklog/DataTypes/Ticket.cs:312-315 | the parent, hours and assignee are always sent, as `""` when null |
| Tickets.Ticket.ToApiParameters | NBacklog/DataTypes/Ticket.cs:297-336 | the `Add` calls build exactly `ApiParameters` on a fresh builder, or throw where it throws |
| Tickets.Ticket.LinkSharedFilesAsync | NBacklog/DataTypes/Ticket.cs:250-273 | the guard throws when `Id < 0`; a reply without content throws at `.Length`; otherwise `SharedFiles` becomes the old list followed by the returned files, unchanged when none were returned |
| Tickets.Ticket.UnlinkSharedFilesAsync | NBacklog/DataTypes/Ticket.cs:275-294 | the guard throws when `Id < 0`; with content, `SharedFiles` becomes `Except(old, [content])`; with null content it is unchanged |
| Sequences.Except | NBacklog/DataTypes/Ticket.cs:290 | `Except` keeps exactly the elements not in the second list, once each, in their original order |
| Sequences.ExceptKeepsFirstOccurrenceOrder | NBacklog/DataTypes/Ticket.cs:290 | the kept elements come out in the order of their first occurrence |
| Sequences.ExceptUnchanged | NBacklog/DataTypes/Ticket.cs:290 | a list without repeats and without the removed file is left unchanged |
| Dates.DatePartOf | NBacklog/DataTypes/Milestone.cs:50-51 | `t?.Date` is null exactly when `t` is, and otherwise the same day at midnight |
| Dates.DatePartIdempotent | NBacklog/DataTypes/Milestone.cs:50-51 | truncating twice is truncating once, and dates already at midnight are kept |
| Dates.FullDate | NBacklog/DataTypes/Milestone.cs:61-62 | `ToString("yyyy-MM-dd")` has 10 characters: digits with `-` at positions 4 and 7 |
| Dates.FullDateRoundTrip | NBacklog/DataTypes/Ticket.cs:306-307 | every date has exactly one `full-date` rendering, and it reads back as that date |
| Dates.FullDateOrEmpty | NBacklog/DataTypes/Ticket.cs:306-307 | `t?.ToString("yyyy-MM-dd") ?? ""` is empty exactly when the date is null, and otherwise a 10-character `full-date` |
| Dates.FullDateIgnoresTimeOfDay | NBacklog/DataTypes/Milestone.cs:50-51 | truncating a date does not change its rendering |
| Strings.DecimalRoundTrip | NBacklog/DataTypes/Ticket.cs:312 | `int.ToString()` is injective and parses back to the number |
| Milestones.Milestone.constructor | NBacklog/DataTypes/Milestone.cs:34-36 | `Milestone(int id)` keeps the id and leaves every property unset |
| Milestones.Milestone.FromName | NBacklog/DataTypes/Milestone.cs:38-42 | `Milestone(string name)` has the id `-1`, which the `Id < 0` guards test, the name set and nothing else |
| Milestones.Milestone.FromData | NBacklog/DataTypes/Milestone.cs:44-54 | the data constructor copies the fields and keeps only the calendar day of the start and due dates |
| Milestones.Milestone.ApiParameters | NBacklog/DataTypes/Milestone.cs:56-64 | exactly four parameters, `name`, `description`, `startDate`, `releaseDueDate`, in that order; only `name` carries the `toCreate` flag, and its value is the name, null included |
| Milestones.Milestone.ApiParametersValues | NBacklog/DataTypes/Milestone.cs:60-62 | a null description is sent as `""`; each date is `""` exactly when absent, and otherwise a 10-character `full-date` that reads back as the milestone's day |
| Milestones.Milestone.ToApiParameters | NBacklog/DataTypes/Milestone.cs:56-64 | the four `Add` calls build exactly `ApiParameters` on a fresh builder |
| Projects.OfTypes | NBacklog/DataTypes/Project.cs:367 | the filter keeps only files whose type name is wanted, each wanted file is kept, the kept files stay in their original order, and none is added |
| Projects.OfTypesCounts | NBacklog/DataTypes/Project.cs:367 | every occurrence of a wanted file is kept and no occurrence of another; with the order above this fixes the result to `Where`'s |
| Projects.OfTypesKeepsAll | NBacklog/DataTypes/Project.cs:367-371 | the filter drops nothing exactly when every file has a wanted type, and then changes nothing |
| Projects.GetSharedFilesAsync | NBacklog/DataTypes/Project.cs:351-374 | a null query is replaced by the default; a reply with errors is returned as is; a reply without content makes `Where` throw `ArgumentNullException`; otherwise the reply object is returned when no file is dropped, and otherwise a new reply with the same status code and the filtered files |

## Left out

- `StartRedirectServer` (`HttpListener`, a background task and a busy-wait on a flag) is not modelled. Its only effect on the model is the captured `code`, an input, and the prefix `AuthorizeAsync` listens on.
- `Process.Start`, `RestClient.Execute` and the Newtonsoft JSON serialiser are foreign calls.
  - They become inputs: the token endpoint's reply, and a file map whose values are already-deserialised snapshots.
  - JSON syntax, `DataFormat.Json` and the serialiser settings are not modelled.
- I/O failures while writing the cache file are not modelled. `SaveCredentials` always succeeds.
- `DateTime.Now` is two integer inputs in seconds. The clock, its resolution, time zones and `TimeSpan` overflow are not modelled. `OAuth2Credentials.Expires` is an integer.
- Concurrency is not modelled. That covers the `Task.Factory.StartNew` wrappers, `ConfigureAwait`, and the `await` ordering of the listener and the browser.
- `QueryParameters` internals are not modelled, since that class is not part of this model. `Add` and `AddRange` only append an entry. The optional `bool` argument is kept as an uninterpreted flag. `Build` and `Replace` are not modelled.
- `CustomFieldValue.ToJsonValue` is an opaque string (`jsonValue`).
- `estimatedHours` and `actualHours` are `double?` values rendered by `ToString()`. Floating-point formatting is not modelled: the model stores the rendered string.
- The int32 width of ids and of `expires_in` is not modelled: they are unbounded integers.
- `Int32.ToString()` is modelled under a culture whose negative sign is `-`. A current culture with another `NumberFormatInfo.NegativeSign` would render negative ids (`Ticket.cs:312`, `Ticket.cs:327`, the ids in request paths) differently; that rendering is not modelled.
- The REST plumbing is not modelled. That covers the HTTP requests of the ticket's comment methods, `BacklogClient.CreateResponseAsync`, `ItemsCache` and the `Project` back-references. `Tickets.RequestEndpoint` models only which request each operation would send and the guard before it. The server's reply to Link, Unlink and `GetSharedFilesAsync` is an input.
- `GetSharedFilesAsync`'s `directory` argument only appears in the request path, which is not modelled. The default `SharedFileQuery` is a parameter, because that class is not part of this model.
- `Tickets.Ticket.LinkSharedFilesAsync` assumes a reply without content can only have `null` content. `BacklogResponse` is not part of this model.
- `Projects.GetSharedFilesAsync`: a new `BacklogResponse(statusCode, content)` is assumed to carry no errors, since that constructor is not part of this model.
- The `Ticket(_Ticket, Project, BacklogClient)` constructor (`Ticket.cs:110-141`) is not modelled. It maps fields through the item cache, which is not part of this model.
- `MilestoneSummary` (`Milestone.cs:5-20`) is not modelled. It only copies fields.
- The REST wrappers of `Project.cs` other than the `GetSharedFilesAsync` filter are not modelled.
- `Ticket.Categories`, `Versions`, `Milestones` and `Attachments` are modelled as never null. A null array would throw in `Select`. The public constructors leave these lists empty, not null.
- `DateTime.ToString("yyyy-MM-dd")` (`Ticket.cs:306-307`, `Milestone.cs:61-62`) is modelled under a culture whose calendar is Gregorian; rendering under another calendar (for example the Thai Buddhist or Um Al-Qura calendar of the current culture) is not modelled.
- `Tickets.Ticket.UnlinkSharedFilesAsync` compares shared files by value (id, type, directory, name, size) in `Except`. `Ticket.cs:290` uses `SharedFile`'s own `Equals`, and that class and its base are not part of this model. If it were reference equality, the object from `ItemsCache.Delete` (`Ticket.cs:286`) might differ from the one in `SharedFiles`, and the file would stay in the list; the model does not capture that case.
- Null values that C# allows but the model's types exclude are not modelled: null arguments to `Ticket(string key)`, `Ticket(summary, type, priority)` and `Milestone(string name)`; null strings in `OAuth2App` and `OAuth2EndPoint` (a null `BaseUri` throws at `TrimEnd`, a null `ClientId` renders as `""` in the URI); null elements of `Categories`, `Versions`, `Milestones`, `Attachments` or `CustomFields`, which throw at `.Id`; a null `sharedFile` passed to `UnlinkSharedFilesAsync`, which throws at `sharedFile.Id` after the guard (`Ticket.cs:282`); null elements of the files passed to `LinkSharedFilesAsync`, which throw at `x.Id` (`Ticket.cs:258`); a null `SharedFileQuery.TypeNames`, which makes the filter at `Project.cs:367` throw once the reply holds a file; a null `comment` passed to `AddCommentAsync`, `UpdateCommentAsync` or `DeleteCommentAsync`, which throws at `comment.Content` or `comment.Id` after the guard (`Ticket.cs:185`, `Ticket.cs:222`, `Ticket.cs:241`).
- Parameter names are enumerations rendered by `Wire()`. The model proves the order and presence of names, not that distinct enumerations render to distinct strings.
