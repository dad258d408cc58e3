# Contentful management client: request shaping and clone-script logic

This project models three deterministic pieces of the contentful-management
JavaScript client and proves properties about them.

- **Entry endpoints** (`lib/adapters/REST/endpoints/entry.ts`). Each endpoint
  (`get`, `getMany`, `patch`, `update`, `del`, `publish`, `unpublish`, `archive`,
  `unarchive`, `create`, `createWithId`) turns its parameters, data and caller
  headers into a single call of a `raw.*` helper. Here that call is a value, a
  `Rest.Request`, holding the method, the URL, the payload and the axios config
  (query params and headers). Every URL is written as the endpoint's template
  literal and proved equal to a segment list joined with `/` (`Paths.Join`).
  The project also proves that the entry paths tell their resources apart when
  no id contains a `/`.
- **Team endpoints** (`lib/adapters/REST/endpoints/team.ts`). These are the
  `getBaseUrl` and `getEntityUrl` builders, with the five endpoints built on
  them.
- **Clone-space script** (`example/clone-space.js`). The model covers four
  parts of it:
  - the name of a space it creates;
  - the projection of a source asset onto the asset it creates (pick `sys`,
    keep `title` and `description`, copy the first locale's file, and make
    protocol-relative URLs absolute);
  - which locale it asks to be processed after creation;
  - `forEach`, the paged walk over a space's entries or assets.

JavaScript values are `Json.Value`. Objects are ordered property lists, because
the script takes "the first key" of an object. Header objects are
`map<string, Value>`, and the spread `{...defaults, ...headers}` is the
right-biased union `defaults + headers`. The model has no mutation, so every
endpoint leaves the caller's `rawData` and `headers` unchanged by
construction. The `copy(…)` followed by `delete data.sys` becomes
`Json.Without`, a new value.

A throwing property read, `rawData.sys.version` when `sys` is missing, `null`
or `undefined`, is `Err(TypeError)` in a `Result`. It is not a precondition.

`forEach` is a method with a `while` loop over `skip`. The space is a map from
method names to fetch functions. The items it hands to the callback, and the
pages it fetches, are recorded as a log of events. The walk's contract
relates the log to `Pages`, a ghost function of the server and the
collection. Termination, and the fact that every item is visited once, rest
on an explicit assumption about the server, `Paging.ServesSlices`: every
request returns the next items of one fixed collection, and at least one
while any remain.

## Model

| member | source | states |
|---|---|---|
| Rest.WithDefaults | lib/adapters/REST/endpoints/entry.ts:55-59 | `{...defaults, ...headers}`: the result's keys are the keys of both; a caller header wins over a default, and a default is kept where the caller gives none |
| Rest.Spread | lib/adapters/REST/endpoints/entry.ts:26 | `{...headers}` is the caller's headers, or the empty object when none are given |
| Rest.SysVersion | lib/adapters/REST/endpoints/entry.ts:106 | reading `rawData.sys.version` throws a TypeError exactly when `sys` is missing, `undefined` or `null`; otherwise it gives the `version` of that `sys` |
| Rest.VersionOrZero | lib/adapters/REST/endpoints/entry.ts:78 | `rawData.sys.version ?? 0` throws exactly when the read throws; otherwise it is never nullish, and is the version or, when that is nullish, 0 |
| Json.Coalesce | lib/adapters/REST/endpoints/entry.ts:78 | `v ?? d` is `d` exactly when `v` is `undefined` or `null`, and `v` otherwise |
| Json.FalsyValues | example/clone-space.js:112-140 | the values the script's truth tests reject are exactly `undefined`, `null`, `false`, `0` and `""`; objects and arrays always pass |
| Json.KeysOf | example/clone-space.js:117 | `_.keys`: one key per property, in property order |
| Json.Lookup | example/clone-space.js:120 | a property found under a key is a property of the object with that key |
| Json.LookupFound | example/clone-space.js:117-119 | a key is found exactly when it is among the object's keys |
| Json.LookupAppend | example/clone-space.js:127 | looking up in a concatenation looks in the left part first |
| Json.Read | example/clone-space.js:120-121 | `v[key]` is the stored value when the key is present and `undefined` otherwise |
| Json.Without | lib/adapters/REST/endpoints/entry.ts:70-71 | `delete copy.sys`: `sys` is gone, every other key reads as in the input, and the properties left are exactly those of the input with another key |
| Json.WithoutWellFormed | lib/adapters/REST/endpoints/entry.ts:70-71 | deleting a key from an object with unique keys leaves an object with unique keys |
| Json.Pick | example/clone-space.js:110 | `_.pick(obj, keys…)`: a listed key reads as in the input, an unlisted key is absent, and the result has no key outside the list |
| Entry.CollectionTemplate | lib/adapters/REST/endpoints/entry.ts:37 | the template `/spaces/${spaceId}/environments/${environmentId}/entries` is the collection's segment list joined with `/` |
| Entry.EntityTemplate | lib/adapters/REST/endpoints/entry.ts:23 | the template `…/entries/${entryId}` is the entry's segment list joined with `/` |
| Entry.StateTemplates | lib/adapters/REST/endpoints/entry.ts:102-128 | the templates `…/entries/${entryId}/published` and `…/entries/${entryId}/archived` are the entry's segments plus `published` or `archived`, joined |
| Entry.Get | lib/adapters/REST/endpoints/entry.ts:15-29 | a GET to the entry's path whose params are `normalizeSelect(query)` and whose headers are a copy of the caller's, unchanged (an empty object when none are given) |
| Entry.GetMany | lib/adapters/REST/endpoints/entry.ts:31-42 | a GET to the collection path with params `normalizeSelect(query)` and no headers |
| Entry.Patch | lib/adapters/REST/endpoints/entry.ts:44-62 | a PATCH to the entry's path whose body is the patch operations as given, and whose headers are the given version and the JSON-patch content type, each overridden by a caller header of the same name |
| Entry.Update | lib/adapters/REST/endpoints/entry.ts:64-83 | throws exactly when `rawData.sys` is nullish; otherwise a PUT to the entry's path whose body has no `sys` and agrees with `rawData` on every other key, and whose version header is `sys.version ?? 0` unless the caller overrides it; when `rawData` has unique keys, so does the body |
| Entry.Delete | lib/adapters/REST/endpoints/entry.ts:85-93 | a DELETE to the entry's path with no config |
| Entry.Publish | lib/adapters/REST/endpoints/entry.ts:95-110 | throws exactly when `rawData.sys` is nullish; otherwise a PUT of `null` to the entry's `published` path, with the single header `X-Contentful-Version` equal to `sys.version`, with no default and no caller headers |
| Entry.Unpublish | lib/adapters/REST/endpoints/entry.ts:112-120 | a DELETE to the entry's `published` path with no config |
| Entry.Archive | lib/adapters/REST/endpoints/entry.ts:122-130 | a PUT to the entry's `archived` path with no body and no config |
| Entry.Unarchive | lib/adapters/REST/endpoints/entry.ts:132-140 | a DELETE to the entry's `archived` path with no config |
| Entry.Create | lib/adapters/REST/endpoints/entry.ts:142-159 | a POST to the collection path whose body is `rawData` unchanged and whose only header is `X-Contentful-Content-Type: contentTypeId` |
| Entry.CreateWithId | lib/adapters/REST/endpoints/entry.ts:161-180 | a PUT to the entry's path whose body is `rawData` unchanged and whose only header is `X-Contentful-Content-Type: contentTypeId` |
| Entry.EntityUnderCollection | lib/adapters/REST/endpoints/entry.ts:23-37 | the entry's path is the collection path, `/` and the entry id; its `published` and `archived` paths are the entry's path plus `/published` and `/archived` |
| Entry.SiblingsShareUrl | lib/adapters/REST/endpoints/entry.ts:21-179 | `get`, `patch`, `update`, `del` and `createWithId` target the entry's path; `getMany` and `create` target the collection path; `publish` and `unpublish` share one URL, and so do `archive` and `unarchive` |
| Entry.EntityPathInjective | lib/adapters/REST/endpoints/entry.ts:23 | when no id holds a `/`, two entry paths are equal exactly when their space, environment and entry ids are |
| Entry.CollectionPathInjective | lib/adapters/REST/endpoints/entry.ts:37 | when no id holds a `/`, two collection paths are equal exactly when their space and environment ids are |
| Entry.ResourcesDistinct | lib/adapters/REST/endpoints/entry.ts:102-128 | when no id holds a `/`, a collection path is never an entry path, an entry path is never a `published` or `archived` path, and a `published` path is never an `archived` path |
| Team.BaseUrl | lib/adapters/REST/endpoints/team.ts:14-15 | `/organizations/${organizationId}/teams` is the segments `"", organizations, organizationId, teams` joined with `/` |
| Team.EntityUrl | lib/adapters/REST/endpoints/team.ts:17 | the base URL followed by `/${teamId}` is the base URL's segments plus the team id, joined |
| Team.BaseIsPrefixOfEntity | lib/adapters/REST/endpoints/team.ts:14-17 | the base URL is a strict prefix of the team's URL, and what follows it is `/` and the team id |
| Team.UrlsDistinguishTeams | lib/adapters/REST/endpoints/team.ts:14-17 | when no id holds a `/`, two team URLs are equal exactly when their organization and team ids are, and a team URL is never a base URL |
| Team.Get | lib/adapters/REST/endpoints/team.ts:19-20 | a GET to the team's URL with no config |
| Team.GetMany | lib/adapters/REST/endpoints/team.ts:22-28 | a GET to the base URL with params `normalizeSelect(query)` and no headers |
| Team.Create | lib/adapters/REST/endpoints/team.ts:30-37 | a POST to the base URL whose body is `rawData` as given, neither copied nor stripped, and whose headers are exactly the caller's |
| Team.Update | lib/adapters/REST/endpoints/team.ts:39-54 | throws exactly when `rawData.sys` is nullish; otherwise a PUT to the team's URL whose body has no `sys` and agrees with `rawData` on every other key, and whose version header is `sys.version ?? 0` unless the caller overrides it; when `rawData` has unique keys, so does the body |
| Team.Delete | lib/adapters/REST/endpoints/team.ts:56-57 | a DELETE to the team's URL with no config |
| CloneSpace.CloneName | example/clone-space.js:79 | the new space's name is `Clone of ` followed by the source space's name |
| CloneSpace.CloneNameInjective | example/clone-space.js:79 | different source names give different clone names |
| CloneSpace.ChooseDestination | example/clone-space.js:72-80 | a non-empty destination space id selects that existing space; otherwise a new space is created, named after the source, in the given organization |
| CloneSpace.AbsoluteUrl | example/clone-space.js:123-125 | a URL starting with `//` gets `http:` put in front of it; any other value is left unchanged |
| CloneSpace.AbsoluteUrlIdempotent | example/clone-space.js:123-125 | no rewritten URL starts with `//`, so rewriting twice is rewriting once |
| CloneSpace.SourceUrl | example/clone-space.js:121 | `sourceFile.url || sourceFile.upload`: the `url` when it is truthy, the `upload` otherwise |
| CloneSpace.ProjectFile | example/clone-space.js:120-131 | the projected file has exactly the keys `contentType`, `fileName` and `upload`, in that order; the first two are copied, and `upload` is the absolute form of the source `url` when that is truthy and of the source `upload` otherwise |
| CloneSpace.CopiedLocale | example/clone-space.js:116-119 | the first key of the source's `fields.file` is copied exactly when `fields` and `fields.file` are truthy and that key is non-empty and names a truthy file; otherwise no locale is copied |
| CloneSpace.CopiedFile | example/clone-space.js:119-132 | no `file` property when no locale is copied; otherwise exactly one, `file`, mapping the copied locale alone to the projection of the source file for it |
| CloneSpace.ProjectAsset | example/clone-space.js:110-133 | the destination asset carries the source's `sys` (present exactly when the source has one), and it has no key other than `sys` and `fields` |
| CloneSpace.ProjectedFieldsValue | example/clone-space.js:110-133 | the destination has no `fields` when the source's are falsy; otherwise they are the picked `title` and `description` followed by the copied file property |
| CloneSpace.ProjectionFields | example/clone-space.js:110-119 | the destination has `fields` exactly when the source's are truthy; they keep the source's `title` and `description`, have no key but those and `file`, and have `file` exactly when a locale is copied |
| CloneSpace.KeptAndCopiedKeys | example/clone-space.js:113-127 | the picked `title` and `description` followed by a file property have no keys but `title`, `description` and `file` |
| CloneSpace.KeptAndCopiedLookups | example/clone-space.js:113-127 | after the file property is added, `title` and `description` still read as in the source, and `file` is present exactly when one was added |
| CloneSpace.ProjectionFile | example/clone-space.js:116-131 | when a locale is copied, the destination `fields.file` has exactly one locale, that one, and maps it to the projection of the source file for it |
| CloneSpace.ProcessLocale | example/clone-space.js:140-143 | a locale is processed only when the created asset has truthy `fields` and `fields.file` whose first key is non-empty; that key is the one processed; otherwise nothing is processed |
| CloneSpace.ProcessNoFields | example/clone-space.js:140 | a created asset without `fields` gets no processing |
| CloneSpace.ProcessNoFile | example/clone-space.js:140 | a created asset whose `fields` have no `file` gets no processing |
| CloneSpace.ProcessSingleLocale | example/clone-space.js:141-143 | a created asset whose `fields.file` has the single non-empty locale key `locale` has that locale processed |
| CloneSpace.ProcessesCopiedLocale | example/clone-space.js:135-143 | if the created asset comes back as it was sent, the locale processed is exactly the one whose file was copied, and nothing is processed when none was |
| CloneSpace.DestinationAsset | example/clone-space.js:107-135 | logging `asset.sys.id` throws a TypeError, before anything is created, exactly when the source asset's `sys` is missing, `undefined` or `null`; otherwise the projection is what gets created |
| CloneSpace.ProcessStep | example/clone-space.js:138-143 | logging `asset.sys.id` of the created asset throws a TypeError exactly when its `sys` is nullish; otherwise the step processes the locale `ProcessLocale` chooses |
| CloneSpace.CloneAssetStep | example/clone-space.js:107-143 | if the created asset comes back as it was sent, a source asset with a readable `sys` is created and then exactly its copied locale is processed, with no throw; one without stops before creation |
| Paging.Handed | example/clone-space.js:165-167 | the callback receives the page's items one by one, in page order |
| Paging.PageRequest | example/clone-space.js:159-163 | every page is requested with order `sys.createdAt`, limit 10 and the given `skip` |
| Paging.Serve | example/clone-space.js:159-163 | the server assumption `ServesSlices` at one offset: the page requested from `skip` is the collection's next items, at least one while any remain |
| Paging.Pages | example/clone-space.js:153-175 | the reference walk from `skip`, the page at `skip` and then, unless it is empty, the walk from `skip` plus its length, makes at least one request |
| Paging.ReplayLength | example/clone-space.js:163-167 | the events of a walk (`Replay`) are one per fetch and one per item handed over |
| Paging.HandOver | example/clone-space.js:165-167 | the reduce over a page hands its items to the callback in order, one event per item |
| Paging.PagesStep | example/clone-space.js:159-171 | the first request from a `skip` asks from that `skip`; when its page is empty the walk stops there, at the end of the collection, and otherwise continues from `skip` plus the page's length |
| Paging.ReplayStep | example/clone-space.js:159-173 | a walk is a fetch, then the callback on each item of that page, then the walk from the next `skip` unless the page was empty |
| Paging.WalkStep | example/clone-space.js:163-173 | one loop iteration extends the events so far towards the whole walk, and completes it when the page is empty |
| Paging.ForEach | example/clone-space.js:153-175 | an unknown method name throws `Invalid Space method name: …` before any fetch; otherwise the walk succeeds and its events are exactly the walk from `skip` 0 |
| Paging.HandedItems | example/clone-space.js:165-167 | handing over a page passes exactly its items and fetches nothing |
| Paging.ReplayItems | example/clone-space.js:163-171 | the items a walk hands over are its pages' items, page after page |
| Paging.ReplayFetches | example/clone-space.js:159-171 | the fetches a walk records are exactly its pages, in order (what comes between two fetches is fixed by `Replay` and stated by `ReplayStep`) |
| Paging.PagesCover | example/clone-space.js:152-175 | under the server assumption, the pages from `skip` on hold exactly the collection's items from `skip` on, in order |
| Paging.PagesAnswered | example/clone-space.js:159-163 | every request has order `sys.createdAt` and limit 10, and its page is what the server returns for it |
| Paging.PagesOffsets | example/clone-space.js:171 | every request asks from the number of items already delivered, so the first one asks from 0 |
| Paging.PagesEnd | example/clone-space.js:168-171 | the walk stops at its first empty page: only the last page is empty, and it is requested at the end of the collection |
| Paging.ForEachVisitsEachItemOnce | example/clone-space.js:152-175 | under the server assumption, `forEach` hands every item of the collection to the callback exactly once, in order; its requests are answered with order and limit fixed, each asks from the items already delivered, and only the last page, at the end, is empty |

## Left out

- The HTTP transport: the `AxiosInstance` and the `raw.*` helpers are not part of this model. A request is the value of the call, not its effect.
- `normalizeSelect` is not part of this model. It is a function-valued parameter with no assumed behaviour.
- `fast-copy` deep copying: values in the model cannot be shared or mutated, so a copy is the value itself.
- The meaning of JSON-patch operations. `patch` passes them through unchanged.
- Numbers are unbounded integers. The model has no floating point.
- `headers` passed as `undefined` and `headers` left out are the same `None`. `team.create` therefore models `{ headers }` with an undefined value as a config without headers.
- `_.zipObject([[localeCode, file]])` is read as the lodash 3 pairs form, giving `{[localeCode]: file}`. The lodash version is not part of this model.
- `/^\/\//.test(url)` is modelled on strings only. A non-string URL, such as an array whose string form starts with `//`, is left unchanged.
- `_.keys` of a value that is not a plain object, such as a string's indices or an array's, is modelled as no keys, and reading an index of an array gives `undefined`. For an array `fields.file` the script copies locale `"0"`, while the model copies nothing.
- The clone script's CLI parsing, client construction, help and exit handling, `console.log` output, promise chaining (`.delay(5e3)`, `.spread`, `.done()`) and catch-and-rethrow blocks. These are I/O and asynchronous sequencing.
- Content-type cloning and entry creation in the clone script. They only sequence remote calls.
- `createAsset`'s answer is not modelled. ProcessesCopiedLocale and CloneAssetStep assume that the created asset comes back as it was sent.
- A rejected `createAsset` or `processAssetFile` and the catch-and-rethrow around them are not modelled. The model follows only the path on which both succeed.
- The command-line destination space id is modelled as an optional string. A numeric value parsed by yargs is not modelled.
- Paging.ForEach: the server is modelled by the assumption `ServesSlices`, that every page is the next items of one fixed collection, with at least one while any remain. The code does not guarantee this. Termination and "each item once" are proved only under it.
- Paging.ForEach: the callback `map` is modelled as never throwing or rejecting. The log records each item handed to it; its own effects are not part of this model.
- Paging.ForEach: the method-name check runs once rather than on every recursive call. The space does not change during the walk, so the outcome is the same. A member that is present but is not a function counts as an unknown name.
- Paging.ForEach: `items.skip` and `items.total` are used only by the log message, so they are left out.
