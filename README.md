# XenForo mobile API endpoint: a Dafny model

This project models `xenforo_api_files/mobileapi.php`. That script is a GET endpoint. It dispatches on the `action`
query parameter to one of two handlers, or it answers "invalid action":

- `block_user` adds the pair (`blocker_id`, `blocked_id`) to XenForo's `xf_user_ignored` table.
- `report_post` files a moderation report against `post_id`, on behalf of the user `reporter_id`, with an optional `message`.

Each handler checks its inputs in a fixed order, looks up users or posts, changes the forum data and ends with one
(HTTP status, JSON body) pair.

Files:

- `mobile_api.dfy` (module `MobileApi`) holds the decision logic as functions:
  - `BlockUser`, `ReportPost` and the dispatcher `Handle` map a `State`, a `Request` and an `Env` to the new
    `State` and the `Response`.
  - A `State` holds the user and post ids, the ignored pairs, the visitor and the stored reports.
  - An `Env` says how the collaborators behave on this request.
  - The functions' `ensures` clauses give each handler's summary: what may change, which status classes mean what,
    and when a pair or a report is added.
- `endpoint.dfy` (module `Endpoint`) holds class `Site`. Its fields are the same forum data. Its methods `Handle`,
  `BlockUser` and `ReportPost` update those fields in place with the script's early returns. Each method is proved
  to produce exactly the state and response of the matching function. Each method's frame (`modifies`) names only
  the fields its branch writes.
- `properties.dfy` (module `MobileApiProperties`) holds the lemmas:
  - the order of the checks and what every failure leaves untouched;
  - that blocking is idempotent;
  - what `report_post` does to the visitor;
  - by induction over any sequence of requests (`Run`): forum data stay well-formed, nothing is unblocked or
    un-reported, and every new pair was requested.
- `wrappers.dfy` holds `Option`, for absent parameters and fields.

How the model represents the script's inputs and collaborators:

- **Parameters.** Ids arrive already converted by PHP's `?? 0` and `(int)`, so an absent id is 0. `action` and
  `message` are `Option<string>`.
- **Lookups.** A user or post lookup is set membership.
- **Exceptions.** An exception thrown inside the `try` blocks is the `Fault` in `Env`. It names the call that throws:
  the user lookups, the "already ignored" query, the insert, the post lookup or the reporter lookup. A fault at a
  call that the request never reaches has no effect. Only PHP's `\Exception` is caught (lines 75 and 132); a PHP
  `\Error` escapes the script and is not represented. That a failed insert leaves no row behind is a modelling
  assumption, matching XenForo's transactional entity save; the script itself does nothing to undo a partial write.
- **Report creator.** XenForo's `XF:Report\Creator` is an oracle `CreatorOutcome`. Its `validate()` fails, its
  `save()` returns nothing, it saves a report with a given id, or it throws.

The visitor is where this model follows the code rather than the intent its comments state:

- Line 113 sets the global visitor to the reporter.
- The `finally` block at line 137 calls `\XF::setVisitor(\XF::visitor())`. This sets the visitor to the current
  visitor, so it changes nothing on any path. After line 113 the current visitor is the reporter. On the paths where
  the post or reporter lookup throws, it is still the visitor from before the request. The visitor from before the
  request is never saved, so it cannot be restored.
- The `exit()` calls at lines 101, 109 and 122 leave the script without running `finally` at all.

So after the reporter has been found, the visitor stays the reporter on every path. `ReportAfterValidation` proves
this, including that it differs from the earlier visitor whenever the two ids differ. The comment at line 136 speaks of
restoring the original user afterwards. The code does not do that, and the model does not claim it.

## Model

| member | source | states |
|---|---|---|
| MobileApi.Handle | xenforo_api_files/mobileapi.php:25-145 | Dispatch on `action`, compared strictly. An absent action or any value other than `block_user` or `report_post` gives 400 "Invalid action specified" and changes nothing, whatever the other parameters. Any request leaves users and posts unchanged. It changes the ignored table only by that `block_user` request's own pair. It changes the report list only by one report from that `report_post` request. A response is a message exactly when its status is 200. Status is always 200, 400, 404 or 500. |
| MobileApi.BlockUser | xenforo_api_files/mobileapi.php:28-80 | Only the ignored table can change, and only by adding (blocker, blocked). It grows exactly when the answer is "User blocked successfully". That happens only for a new pair of two distinct existing users, with no exception from the lookups, the query or the insert. 400 means exactly a zero id or a self-block. 404 means exactly an unknown user once the ids pass and the lookup does not throw. 500 means exactly an exception at a call the request reaches: the user lookups; with both users found, the query; with the pair new, the insert. After any 200 the pair is in the table. |
| MobileApi.ReportPost | xenforo_api_files/mobileapi.php:82-140 | Only the visitor and the report list can change. The visitor is either untouched or becomes the reporter. It changes only after the post and the reporter were found without an exception. A report is stored exactly when the answer is 200. That answer carries the saved report's id as `report_id`. The stored report names the post, the reporter and the reason. |
| Endpoint.Site.Handle | xenforo_api_files/mobileapi.php:25-145 | The script's top level on mutable fields. The new fields and the response are exactly those of `MobileApi.Handle` on the old fields. |
| Endpoint.Site.BlockUser | xenforo_api_files/mobileapi.php:28-80 | The `block_user` branch with early returns. It writes only the ignored table, and adds the requested pair exactly when it answers "User blocked successfully". Its result equals `MobileApi.BlockUser` on the old fields. |
| Endpoint.Site.ReportPost | xenforo_api_files/mobileapi.php:82-140 | The `report_post` branch with early returns. It writes only the visitor and the report list. It sets the visitor to the reporter before the creator runs and leaves it so, through the `finally` at 137. Its result equals `MobileApi.ReportPost` on the old fields. |
| MobileApiProperties.BlockMissingIdsFirst | xenforo_api_files/mobileapi.php:29-37 | A zero (or absent) `blocker_id` or `blocked_id` gives 400 "Both blocker_id and blocked_id are required" and an unchanged state. This holds for any users and any collaborator behaviour, so no lookup happens. (0, 0) gets this error, not the self-block one. |
| MobileApiProperties.BlockSelfRefused | xenforo_api_files/mobileapi.php:39-43 | Equal non-zero ids give 400 "You cannot block yourself" with the state unchanged, whether or not the user exists. |
| MobileApiProperties.BlockUnknownUser | xenforo_api_files/mobileapi.php:47-54 | If either user does not exist (and the lookup does not throw), the answer is 404 "One or both users not found" and no pair is inserted. |
| MobileApiProperties.BlockAlreadyBlocked | xenforo_api_files/mobileapi.php:57-66 | An existing pair gives 200 "User is already blocked" with the state unchanged. |
| MobileApiProperties.BlockAddsExactlyOnePair | xenforo_api_files/mobileapi.php:69-74 | A new pair of two distinct existing users, with no exception from the user lookups, the query or the insert, gives 200 "User blocked successfully". A fault at a `report_post` call site does not matter. The new table is the old one plus exactly that pair, one element larger, and nothing else changes. |
| MobileApiProperties.BlockFaultChangesNothing | xenforo_api_files/mobileapi.php:45-78 | A 500 from `block_user` comes only from a collaborator exception. Its body is "Failed to block user" with the exception message as `details`, and the state is unchanged. |
| MobileApiProperties.BlockFaultGivesServerError | xenforo_api_files/mobileapi.php:45-78 | With valid ids, an exception at a call the request reaches gives 500 "Failed to block user" with the exception message as `details`, and the state is unchanged. The calls are the user lookups; with both users found, the query; with the pair new, the insert. |
| MobileApiProperties.BlockIsIdempotent | xenforo_api_files/mobileapi.php:57-74 | Repeating a `block_user` request with the same collaborator behaviour leaves the state the first call produced. After a 200, a repeat under any behaviour changes nothing. A repeat without exceptions answers "User is already blocked". |
| MobileApiProperties.ReportMissingPostId | xenforo_api_files/mobileapi.php:87-91 | A zero (or absent) `post_id` gives 400 "Post ID is required". No lookup happens, no report is made, and the visitor is untouched. |
| MobileApiProperties.ReportPostNotFoundFirst | xenforo_api_files/mobileapi.php:95-102 | An unknown post gives 404 "Post not found" whatever the reporter, with the state (visitor included) unchanged. |
| MobileApiProperties.ReportReporterNotFound | xenforo_api_files/mobileapi.php:105-110 | An unknown reporter (with the post found) gives 404 "Reporter user not found". No report is made and the visitor is untouched. |
| MobileApiProperties.ReportAbsentReporter | xenforo_api_files/mobileapi.php:85-110 | On well-formed data, where user ids are positive, an absent `reporter_id` (read as 0) gives 404 "Reporter user not found". |
| MobileApiProperties.ReportAfterValidation | xenforo_api_files/mobileapi.php:113-137 | Once post and reporter are found, the visitor is the reporter afterwards on every creator outcome. It is not restored. The outcomes: validation failure gives 400 "Validation failed" and no report; an empty save gives 500 "Failed to report post" and no report; an exception gives 500 with `details` and no report; a saved report gives 200 "Post reported successfully" with its id, and that one report is appended. |
| MobileApiProperties.ReportDefaultReason | xenforo_api_files/mobileapi.php:84 | Without `message`, a stored report carries "No reason provided.". |
| MobileApiProperties.ReportLookupFaultChangesNothing | xenforo_api_files/mobileapi.php:93-95 | An exception while finding the post gives 500 "Failed to report post" with `details`, and the visitor and the reports are untouched. |
| MobileApiProperties.ReportReporterFaultChangesNothing | xenforo_api_files/mobileapi.php:105-132 | An exception while finding the reporter (with the post found) gives 500 "Failed to report post" with `details`. The visitor and the reports are untouched, even when the reporter exists. |
| MobileApiProperties.HandlePreservesWellFormed | xenforo_api_files/mobileapi.php:25-145 | One request keeps the forum data well-formed: ids positive, every ignored pair joins two distinct existing users, every report an existing post and user. |
| MobileApiProperties.RunPreservesWellFormed | xenforo_api_files/mobileapi.php:25-145 | Any sequence of requests keeps the forum data well-formed. |
| MobileApiProperties.RunOnlyGrows | xenforo_api_files/mobileapi.php:25-145 | No sequence of requests changes users or posts. None removes an ignored pair, or removes or rewrites a stored report. Each request adds at most one report. |
| MobileApiProperties.RunBlocksAreRequested | xenforo_api_files/mobileapi.php:28-74 | Every pair that a sequence of requests adds to the ignored table was the pair of one of its `block_user` requests. |

## Left out

- XenForo's bootstrap and the database handle (lines 15-22) are left out. They are framework setup with no decision logic.
- The SQL query and the finder and entity-manager calls are not modelled as code. They are set membership and set insert on `State`.
- The ignored-cache rebuild that XenForo's entity save triggers is left out. It is taken as part of the abstract insert.
- The internals of `XF:Report\Creator` are left out. They are the oracle `CreatorOutcome`, so the model says nothing about report-id uniqueness or the reason's validation rules.
- PHP's string-to-integer cast is left out. Ids are integers, and absent or non-numeric means 0.
- A PHP `\Error` (as opposed to an `\Exception`) thrown by a collaborator is not modelled. The `catch` blocks at lines 75 and 132 do not catch it, so it would end the script without a JSON body.
- A non-string `action` or `message` (a PHP array in the query string) is not modelled.
- `http_response_code`, `json_encode`, `echo` and `exit()` are the returned `Response` value. A status the script does not set is 200.
- Concurrency and sharing the global visitor across requests are left out. The script handles one request, and locking belongs to the database.
- There is no guarantee that the visitor is restored. The code does not implement one (see above).
