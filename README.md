# OneEntry API client holder (Onstore)

This project models the lazily initialised, process-wide OneEntry API client of the Onstore
storefront (`Onstore/lib/oneentry.ts`) and proves what it guarantees.

The module keeps a single variable, `apiClient`, which is either unset or holds the client that the
OneEntry SDK constructor `defineOneEntry` returned. `fetchApiClient` is the entry point. It returns
the cached client if there is one. Otherwise it awaits `setupApiClient`, which does four things:

- it throws "ONEENTRY_PROJECT_URL is missing" when the project URL variable is undefined or empty;
- it reads the `refresh_token` cookie;
- it builds the client with locale `en_US`, `customAuth` false and the refresh token (an empty cookie
  counts as no token);
- it swallows any exception from the token read or the construction, and throws
  "Failed to initialize API client" if the client is still unset.

Files:

- `wrappers.dfy`: module `Wrappers`, with `Option` and `Result`.
- `oneentry.dfy`: module `OneEntry`. It holds the data model and the pure specification of one
  call, `Setup` for `setupApiClient` and `Fetch` for `fetchApiClient`. The class `ApiClientHolder`
  is the module-level state: a mutable `apiClient: Option<Client>` field and a ghost counter
  `attempts` of entries into the `try` block (a token read followed, if it succeeds, by a call
  of `defineOneEntry`). Its methods `SetupApiClient` and `FetchApiClient` follow
  the source statement by statement and are proved equal to `Setup` and `Fetch`.
- `oneentry_runs.dfy`: module `OneEntryRuns`. `Run` is a sequence of calls made one after another,
  and the lemmas prove what holds over the whole life of the process: a success is cached for good,
  a failure is not cached, at most one client is ever stored, and the "still null after setup"
  error never surfaces.

Everything a call observes from outside the module is an `Inputs` value:

- the environment (`ONEENTRY_PROJECT_URL` and the API token variable);
- the result of awaiting `retrieveRefreshToken`: an exception, or the cookie value, which may be
  absent;
- what `defineOneEntry` does: throw, or return a client object identified by a `handle`.

A `Client` records that handle together with the URL and options it was built from. So "the same
instance" means equal `Client` values.

## Model

| member | source | states |
|---|---|---|
| `OneEntry.RefreshTokenArg` | Onstore/lib/oneentry.ts:20-27 | the refresh token handed to the client is absent exactly when the cookie is missing or empty; otherwise it is the cookie's value |
| `OneEntry.Bootstrap` | Onstore/lib/oneentry.ts:19-36 | the try block yields a client exactly when both the token read and `defineOneEntry` succeed; that client is the object the SDK returned, built with the project URL, the API token, locale `en_US`, `customAuth` false and as refresh token the cookie's value when it is non-empty, absent otherwise |
| `OneEntry.Setup` | Onstore/lib/oneentry.ts:11-44 | the URL is checked first whatever the state; a missing URL (undefined or empty) gives "ONEENTRY_PROJECT_URL is missing"; "Failed to initialize API client" comes out exactly when the client was unset and the bootstrap failed; from the unset state with a URL, the new state is exactly what the bootstrap built; a success stores and returns that client, and a failure changes nothing |
| `OneEntry.Fetch` | Onstore/lib/oneentry.ts:47-60 | a cached client is returned with no setup, no URL check and no token read; the URL error comes out exactly when the client is unset and the URL is missing (undefined or empty); the init error comes out exactly when the client is unset, the URL is present and the bootstrap fails; the call succeeds exactly when the client is set afterwards; a failure leaves the state unchanged; "still null after setup" never comes out |
| `OneEntry.ApiClientHolder.constructor` | Onstore/lib/oneentry.ts:8 | the holder starts with no client and no attempts |
| `OneEntry.ApiClientHolder.SetupApiClient` | Onstore/lib/oneentry.ts:11-44 | the new state and the result are those of `Setup`; a set client is never reset; the attempt counter (entries into the try block) grows by one exactly when the try block runs |
| `OneEntry.ApiClientHolder.FetchApiClient` | Onstore/lib/oneentry.ts:47-60 | the new state and the result are those of `Fetch`; a set client is returned and kept; "still null after setup" is never returned; the attempt counter grows by one exactly when a setup enters the try block |
| `OneEntryRuns.Run` | Onstore/lib/oneentry.ts:47-60 | a run of sequential calls gives one outcome per call, and a set client is never reset (the module's only assignment is the construction) |
| `OneEntryRuns.CachedClientServesEveryCall` | Onstore/lib/oneentry.ts:50-59 | once the client is set, every later call returns that same instance and none attempts a construction |
| `OneEntryRuns.NeverStillNullAfterSetup` | Onstore/lib/oneentry.ts:39-57 | no call of any sequential run throws "API client is still null after setup" |
| `OneEntryRuns.SuccessIsCachedForGood` | Onstore/lib/oneentry.ts:23-59 | after a call returns a client, the state holds it for good and every later call returns that same instance |
| `OneEntryRuns.UnsetExactlyWhenAllFailed` | Onstore/lib/oneentry.ts:34-52 | a run from the unset state ends unset if and only if every call in it failed |
| `OneEntryRuns.EveryConfiguredCallRetries` | Onstore/lib/oneentry.ts:12-52 | while the client stays unset, every call that finds the URL configured enters the try block again: it reads the token and, if that succeeds, calls `defineOneEntry` |
| `OneEntryRuns.AtMostOneConstruction` | Onstore/lib/oneentry.ts:18-23 | over any sequential run, a client is stored once if the run starts unset and ends set, and never otherwise |
| `OneEntryRuns.FirstSuccess` | Onstore/lib/oneentry.ts:18-43 | from the unset state, a call whose URL, token read and construction all succeed stores and returns the client it built |
| `OneEntryRuns.NextCallAfterFailuresIsFirstCall` | Onstore/lib/oneentry.ts:34-52 | after any run that left the client unset, the next call behaves exactly like the first call of the process, because failures are not cached |
| `OneEntryRuns.RetrySucceedsAfterFailures` | Onstore/lib/oneentry.ts:18-43 | after any number of failed calls, a call whose URL, token read and construction succeed stores and returns the new client |

## Left out

- A missing `ONEENTRY_PROJECT_URL` is not sticky: a call that finds it missing throws and leaves the client unset, and a later call that finds it set proceeds. The model takes the URL as an input of each call.
- No single-flight bootstrap: the code keeps no in-flight promise. Two callers can interleave at the `await` of the token read (Onstore/lib/oneentry.ts:20) and both construct a client. The assignment at Onstore/lib/oneentry.ts:23 is not guarded after the `await`, so the second construction overwrites the stored client and the two callers can get different instances. The "a set client is kept" clauses of `SetupApiClient`, `FetchApiClient` and `Run` therefore hold for sequential calls only, which is all the model covers; no single-flight guarantee is claimed, because the code gives none. Nothing ever sets the client back to null, so "never reset to unset" holds in every interleaving.
- `defineOneEntry` and the OneEntry SDK are foreign code. Each call's outcome (throw, or a returned object identified by a handle) is an input. The model does not force two constructions to return distinct handles; this does not matter, because a sequential run stores at most one client.
- The `saveFunction` callback and `storeRefreshToken` (token rotation written back to a cookie) are I/O. They are not part of the client's modelled options.
- `retrieveRefreshToken` reads a cookie. Its result, or its exception, is an input to each call.
- Environment variables are inputs. The API token variable is passed through unchanged.
- `console.error` logging of the swallowed exception has no effect on behaviour and is left out.
- The cart store, its totals and checkout are not part of this model: their source is not among the files modelled.
- The UI components, layouts and the Next.js configuration are presentation only.
