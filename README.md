# Biography assistant backend: entity store and CRUD handlers

The backend of a biography-writing assistant keeps every entity in memory
in `AppState`. It holds three maps keyed by entity id: users, biography
projects and sessions. Six HTTP handlers work on these maps:
- `create_user` and `get_user`;
- `create_biography`, which first checks that the owning user exists;
- `list_biographies`, which filters by owner;
- `get_biography`;
- `update_biography`, a partial update where an absent field is left as it was.

Successful handlers wrap their result in a response envelope (`ApiResponse`).
Failing handlers return a bare `NotFound` or `BadRequest` status code.

The model has four modules:

- `Wrappers`: `Option` and `Result`.
- `Entities`: `User`, `Biography`, `BiographyStatus`, `Session` and the
  three request payloads, as datatypes. Timestamps are an abstract `int`.
- `Envelope`: `ApiResponse`, `ok_response`/`error_response`
  (`OkResponse`/`ErrorResponse`) and `HandlerResult`, which mirrors the
  handlers' `Result<Json<ApiResponse<T>>, StatusCode>`.
- `Store`: the class `AppState` with `map` fields `users`, `biographies` and
  `sessions`.
  - The handlers that change the maps are methods with `modifies this`.
  - The read-only lookups `get_user` and `get_biography` are functions that
    read the object.
  - `list_biographies` is a method with a loop over the map's keys. Each
    step picks a key arbitrarily, because the source iterates a hash map in
    no fixed order.

The object invariant `Valid()` says two things:
- every entry is stored under its own id;
- every biography's `user_id` is a stored user.

The source checks the second part only when a biography is created. It stays
true because nothing is ever deleted and no update changes `user_id`. Every
method keeps `Valid()`.

Each updating method also promises `Evolves(old(biographies), biographies)`:
- no biography disappears;
- no biography changes its id, owner, status or creation time.

`EvolvesTransitive` extends that to any sequence of handler calls. So no
handler ever changes the `status` of a stored biography. Every method also
ensures that `sessions` is unchanged.

Foreign calls become parameters:
- the fresh id from `Uuid::new_v4()` is `freshId`, with the precondition
  that it is not already a key;
- the handler's `Utc::now()` reading is `now`;
- the separate `Utc::now()` reading in `ok_response` is `stamp`.

`Store.LifeStoryScenario` is a client that uses nothing but the handlers'
contracts:
- create a user, then a draft for that user;
- set its content, then read it back;
- list the user's biographies and get exactly that one entry;
- get `NotFound` for an unused id;
- get `BadRequest` when creating a biography for an unknown user.

## Model

| member | source | states |
|---|---|---|
| `Envelope.OkResponse` | backend/src/main.rs:101-108 | success is true, data is `Some(payload)`, and the message and timestamp are carried unchanged; the envelope is well formed (success exactly when data is present) |
| `Envelope.ErrorResponse` | backend/src/main.rs:110-117 | success is false, data is `None`, and the message and timestamp are carried unchanged; the envelope is well formed |
| `Store.AppState.constructor` | backend/src/main.rs:127-131 | the store starts with three empty maps and satisfies the invariant |
| `Store.AppState.CreateUser` | backend/src/main.rs:170-193 | always succeeds; the returned user has the fresh id, the payload's openid/nickname/avatar and both timestamps equal to `now`; `users` gains exactly that entry (its size grows by one); a later `GetUser` with that id returns an equal user; the other maps are unchanged |
| `Store.AppState.GetUser` | backend/src/main.rs:196-212 | `NotFound` exactly when the id is not a key; otherwise a success envelope whose data is the stored user unchanged; reads the state only |
| `Store.AppState.CreateBiography` | backend/src/main.rs:215-246 | `BadRequest` exactly when `user_id` is not a user, and then nothing changes; on success, a biography with the fresh id, the payload's user_id/title/description, empty content, status `Draft` and both timestamps `now` is stored under the fresh id and returned; `users` and `sessions` are unchanged; only the owner's listing gains the new id; no existing entry changes |
| `Store.AppState.ListBiographies` | backend/src/main.rs:249-273 | `BadRequest` exactly when the `user_id` parameter is missing; otherwise the returned list has no repeated ids; its ids are exactly the stored biographies of that user, possibly none; its length equals their number; each element equals the stored entry; reads the state only |
| `Store.AppState.GetBiography` | backend/src/main.rs:276-292 | `NotFound` exactly when the id is not a key; otherwise a success envelope whose data is the stored biography unchanged; reads the state only |
| `Store.AppState.UpdateBiography` | backend/src/main.rs:295-326 | `NotFound` with no change when the id is absent; otherwise only that entry changes, to `ApplyUpdate` of the old entry, and the returned data equals the stored result; `users` and `sessions` are unchanged; no listing changes |
| `Store.ApplyUpdate` | backend/src/main.rs:302-314 | title and content are overwritten exactly when present in the payload; description becomes the payload's `Some(d)` when present and is otherwise kept, so it is never cleared; `updated_at` is `now`; id, user_id, status and created_at are unchanged |
| `Store.UpdatesCompose` | backend/src/main.rs:302-314 | two successive updates of one entry equal one update with the merged payload, where the later writer wins field by field |
| `Store.OwnedAfterInsert` | backend/src/main.rs:241 | inserting a biography under a new key adds that key to its owner's ids and to no other user's |
| `Store.OwnedAfterUpdate` | backend/src/main.rs:302-314 | patching an entry leaves every user's set of owned ids unchanged |
| `Store.ScanStep` | backend/src/main.rs:264-267 | visiting one more key of the biography map keeps the scan consistent: the matches collected so far are exactly the visited keys owned by the user, each once and equal to its stored entry |
| `Store.DistinctIdsCount` | backend/src/main.rs:263-268 | a list without repeated ids has as many elements as distinct ids, so the listing has no duplicates or omissions in count |
| `Store.EvolvesTransitive` | backend/src/main.rs:170-326 | "no entry lost, identity and status kept" composes over any sequence of handler calls |

## Left out

- `main`, the axum `Router` table and the TCP listener (backend/src/main.rs:119-161): transport wiring with no logic to model.
- The `debug!`/`info!`/`warn!`/`error!` logging lines and `env_logger` setup: side effects with no effect on results.
- Concurrency: DashMap's per-entry locking and snapshot iteration. Each handler is one atomic sequential step. The cross-map check in `create_biography` stays sound because nothing is ever deleted.
- `Store.AppState.UpdateBiography`: the source edits the entry through a `get_mut` guard. The model patches a local copy field by field and writes it back under the same key. The two agree when handlers run one at a time.
- `Uuid::new_v4()` and `Utc::now()`: foreign calls, passed in as parameters (`freshId`, `now`, `stamp`). UUID uniqueness is the precondition that `freshId` is not yet a key.
- Clock monotonicity: the model does not claim that an update's `updated_at` is at least the previous value. The clock is a free parameter, and nothing in the code orders its readings.
- serde JSON decoding of payloads and query strings, and encoding of envelopes: a library. Payloads arrive as already decoded datatypes; a payload that fails to decode never reaches a handler.
- `generate_outline`, `generate_content` and `interview_questions` (backend/src/main.rs:328-391), and `root_handler` (backend/src/main.rs:164-167): they ignore their input and return constant literals.
- `Session` behaviour: the type has no producer or consumer. Only the unused `sessions` map is kept, and every method leaves it unchanged.
- frontend/src/router/index.js: a static route table for the web client, with no logic.
