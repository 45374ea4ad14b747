# Auto-send worker of ODK Collect, modelled in Dafny

This project models the decision and dispatch logic of ODK Collect's `AutoSendWorker`. The worker is a background job that runs when connectivity changes. It finds the finalized form instances that should be sent automatically, and it decides whether to run now (proceed), to ask the scheduler to retry, or to fail. It then uploads the instances through one of two back ends: the ODK server protocol or Google Sheets. Along the way it writes instance statuses, deletes instances that were sent, and builds a report keyed by instance id for the closing notification.

Android services, preferences, the forms and instances tables, and the uploaders are all plain inputs, collected in `AutoSendWorker.Env`:

- The active network is an enum.
- Storage state and the accounts permission are booleans.
- The forms table and the finalized-instances cursor are sequences, in cursor order.
- Each uploader is an oracle giving its result for the j-th candidate.

What the worker does to the outside world is an ordered trace of `UploadLoop.Effect` values: status writes, deletions, telemetry events and the notification. `UploadLoop.ApplyEffects` replays a trace on a `Store`, which is a status map plus a set of deleted ids.

Files:

- `wrappers.dfy`: `Option`.
- `network.dfy`: the network classifier and a reference mode table.
- `policy.dfy`: `Boolean.valueOf`, the per-form policy resolver, the eligible-instance filter and the force predicate.
- `loop.dfy`: the loop state shared by both submission loops (report, `anyFailure`, effects) as a fold of per-instance steps, with the store.
- `sheets.dfy`: the Google Sheets loop.
- `server.dfy`: the ODK server loop.
- `selection.dfy`: the `_id=? or …` selection builder.
- `worker.dfy`: the run gate, the specification `Run` of `doWork`, and the `Worker` class whose `DoWork` is proved against it.

`doWork` runs its two loops inline. Here they are the methods `UploadViaSheets` and `UploadViaServer`, which `DoWork` calls. After an aborting server loop, `DoWork` emits the notification itself, as the source does at the fatal return.

The model follows the code as written, including these behaviours that a reader might not expect:

- Storage unmounted and network not matching gives RETRY (lines 101-105). The doc comment of `doWork` (lines 84-86) says the worker fails immediately when storage is not ready.
- A form that is not in the forms table falls back to the app-level setting (line 299). The doc comment of `formShouldBeAutoSent` (line 280) says it returns false.
- Without the accounts permission, the Sheets branch only sets `resultMessage` (line 180). The run still notifies with an empty report and returns SUCCESS (lines 228-231).
- The server branch itself writes no instance status: the uploader does that.
- A blank-form mismatch in the Sheets loop writes no status and does not set `anyFailure`.
- A protocol preference that matches neither back end ends in SUCCESS with an empty-report notification.
- Candidates keep the order of the finalized-instances cursor.

## Model

| member | source | states |
|---|---|---|
| `AutoSendNetwork.NetworkTypeMatchesAutoSendSetting` | collect_app/src/main/java/org/odk/collect/android/upload/AutoSendWorker.java:241-257 | The result equals the reference table for the decoded mode. It is false without an active network. It is true exactly for wifi under "wifi_only" or "wifi_and_cellular" and for mobile under "cellular_only" or "wifi_and_cellular". |
| `AutoSendPolicy.BooleanValueOf` | collect_app/src/main/java/org/odk/collect/android/upload/AutoSendWorker.java:299-300 | `Boolean.valueOf` is true exactly for a non-null four-letter "true" in any letter case. |
| `AutoSendPolicy.FormLevelAutoSend` | collect_app/src/main/java/org/odk/collect/android/upload/AutoSendWorker.java:288-297 | The value read is the AUTO_SEND column of the first row with that form id. It is None when no row has the id. |
| `AutoSendPolicy.FormShouldBeAutoSent` | collect_app/src/main/java/org/odk/collect/android/upload/AutoSendWorker.java:287-301 | An unknown form gives the app-level flag. Otherwise a null column gives the app flag and a value decides by `Boolean.valueOf`. |
| `AutoSendPolicy.AppSettingAndFormLevelValue` | collect_app/src/main/java/org/odk/collect/android/upload/AutoSendWorker.java:279-301 | With the app setting off, only forms whose value parses as true are sent. With it on, a form is sent when it has no form-level value or its value parses as true. Sending with the setting off implies sending with it on. |
| `AutoSendPolicy.FormLevelValueOverridesAppSetting` | collect_app/src/main/java/org/odk/collect/android/upload/AutoSendWorker.java:299-300 | When a form-level value exists, the app flag does not change the answer. The answer is then "equals true, ignoring case". |
| `AutoSendPolicy.AutoSendCandidates` | collect_app/src/main/java/org/odk/collect/android/upload/AutoSendWorker.java:263-276 | The filtered list is no longer than the finalized list. |
| `AutoSendPolicy.CandidatesAreSubsequence` | collect_app/src/main/java/org/odk/collect/android/upload/AutoSendWorker.java:268-273 | The candidates are an order-preserving subsequence of the finalized instances. |
| `AutoSendPolicy.CandidatesKeepEveryEligibleInstance` | collect_app/src/main/java/org/odk/collect/android/upload/AutoSendWorker.java:268-273 | An eligible instance keeps every occurrence and an ineligible one is dropped entirely. |
| `AutoSendPolicy.GetInstancesToAutoSend` | collect_app/src/main/java/org/odk/collect/android/upload/AutoSendWorker.java:263-276 | The loop returns the filter's result. It is a subsequence of the input with the same multiplicities for eligible instances. An instance is in the result iff it is finalized and its form should be auto-sent. |
| `AutoSendPolicy.AtLeastOneFormSpecifiesAutoSend` | collect_app/src/main/java/org/odk/collect/android/upload/AutoSendWorker.java:309-324 | The early-return scan is true iff some form's AUTO_SEND value parses as true. |
| `AutoSendPolicy.ForcingIgnoresOrder` | collect_app/src/main/java/org/odk/collect/android/upload/AutoSendWorker.java:309-324 | Two forms tables with the same rows in any order give the same answer. |
| `UploadLoop.FoldReportKeys` | collect_app/src/main/java/org/odk/collect/android/upload/AutoSendWorker.java:141-173 | After a pass, the report's keys are exactly the ids of the instances handled. |
| `UploadLoop.FoldReportEntry` | collect_app/src/main/java/org/odk/collect/android/upload/AutoSendWorker.java:193 | With unique ids, each handled instance's entry is its own step's message. |
| `UploadLoop.FoldAnyFailure` | collect_app/src/main/java/org/odk/collect/android/upload/AutoSendWorker.java:195-197 | `anyFailure` is set iff some handled instance's step counts as a failure. |
| `UploadLoop.FoldEffectOrigin` | collect_app/src/main/java/org/odk/collect/android/upload/AutoSendWorker.java:134-225 | An effect of a pass is exactly an effect of one handled instance's step. |
| `UploadLoop.ApplyEffects` | collect_app/src/main/java/org/odk/collect/android/upload/AutoSendWorker.java:150-175 | Replaying a trace on the store never removes a status row and never undoes a deletion. |
| `UploadLoop.ApplyEffectsFootprint` | collect_app/src/main/java/org/odk/collect/android/upload/AutoSendWorker.java:150-175 | Replaying a trace adds exactly the deleted ids to the deleted set and exactly the written ids to the status rows. |
| `UploadLoop.FoldRowIsOwnStep` | collect_app/src/main/java/org/odk/collect/android/upload/AutoSendWorker.java:134-225 | With unique ids, and each step writing only to its own instance's row, an instance's row in the store ends as its own effects alone would leave it. |
| `UploadLoop.CandidatesKeepDistinctIds` | collect_app/src/main/java/org/odk/collect/android/upload/AutoSendWorker.java:263-276 | When the finalized instances have unique ids, so do the candidates chosen from them. This lets the per-row lemmas apply to a whole run. |
| `SheetsUpload.BlankForms` | collect_app/src/main/java/org/odk/collect/android/upload/AutoSendWorker.java:137-139 | The blank forms found are exactly the forms-table rows with the instance's form id and version. |
| `SheetsUpload.BlankFormsKeepDuplicates` | collect_app/src/main/java/org/odk/collect/android/upload/AutoSendWorker.java:137-140 | Each matching row is found as often as the table holds it, and no other row is found. So the size tested against 1 counts duplicate rows too. |
| `SheetsUpload.SheetsStepOutcome` | collect_app/src/main/java/org/odk/collect/android/upload/AutoSendWorker.java:140-176 | One Sheets iteration. It counts as a failure exactly when there is one blank form and the upload throws. A mismatch gives the mismatch message and no effect. Otherwise the first effect is the status write: submitted after an upload, submissionFailed after an exception. It deletes its instance exactly after an upload whose form is auto-deleted. |
| `SheetsUpload.SheetsStepEffects` | collect_app/src/main/java/org/odk/collect/android/upload/AutoSendWorker.java:148-175 | Every effect of one Sheets iteration is the "HTTP-Sheets auto" telemetry or a write to the row of its own instance. It never notifies. |
| `SheetsUpload.SheetsRun` | collect_app/src/main/java/org/odk/collect/android/upload/AutoSendWorker.java:134-178 | The Sheets loop as a fold over every candidate. Its report has exactly the candidates' ids as keys. |
| `SheetsUpload.UploadViaSheets` | collect_app/src/main/java/org/odk/collect/android/upload/AutoSendWorker.java:134-178 | The loop ends in the fold of the per-instance Sheets steps. Every candidate gets a report entry, because the loop never exits early. |
| `SheetsUpload.SheetsReportEntry` | collect_app/src/main/java/org/odk/collect/android/upload/AutoSendWorker.java:140-149 | A candidate's entry is one of three messages. It is the mismatch message when the blank-form count is not 1. It is the success text after an upload. After an exception, it is the exception's message, or its cause's when that is null. |
| `SheetsUpload.SheetsAnyFailure` | collect_app/src/main/java/org/odk/collect/android/upload/AutoSendWorker.java:140-172 | `anyFailure` is set iff some candidate had exactly one blank form and its upload threw. A mismatch does not set it. |
| `SheetsUpload.SheetsDeletesAfterSuccessWrite` | collect_app/src/main/java/org/odk/collect/android/upload/AutoSendWorker.java:148-162 | Every deletion in the trace comes after a success status write for the same instance. |
| `SheetsUpload.SheetsFinalRow` | collect_app/src/main/java/org/odk/collect/android/upload/AutoSendWorker.java:140-176 | With unique ids, each candidate's row ends in one of three states. With a blank-form mismatch it is unchanged. After an upload it is submitted, and it is deleted iff its form is auto-deleted or it already was. After an exception it is submissionFailed and not newly deleted. |
| `SheetsUpload.SheetsStepRow` | collect_app/src/main/java/org/odk/collect/android/upload/AutoSendWorker.java:140-176 | One candidate's own writes leave its row in one of three states. With a blank-form mismatch the row is as it was. After an upload it is submitted and deleted iff its form is auto-deleted or it already was. After an exception it is submissionFailed. |
| `SheetsUpload.SheetsOtherRowsUntouched` | collect_app/src/main/java/org/odk/collect/android/upload/AutoSendWorker.java:134-178 | A Sheets run leaves the row of every id that is not a candidate as it was. |
| `ServerUpload.ServerStepOutcome` | collect_app/src/main/java/org/odk/collect/android/upload/AutoSendWorker.java:190-224 | One server iteration. The report message is the outcome's display message, and it counts as a failure exactly when the outcome is not a success. It has effects exactly after a non-fatal success. It deletes its instance exactly after a non-fatal success whose form is auto-deleted. |
| `ServerUpload.ServerStepEffects` | collect_app/src/main/java/org/odk/collect/android/upload/AutoSendWorker.java:210-223 | Each effect of one server iteration is the "HTTP auto" telemetry or, when its form is auto-deleted, the deletion of its own instance. It never writes a status and never notifies. |
| `ServerUpload.FirstFatalFrom` | collect_app/src/main/java/org/odk/collect/android/upload/AutoSendWorker.java:199-203 | The result is the first position from i whose outcome is fatal, or n when there is none. |
| `ServerUpload.Attempted` | collect_app/src/main/java/org/odk/collect/android/upload/AutoSendWorker.java:189-203 | The uploader sees candidates up to and including the first fatal one. When fewer than all are attempted, the last attempted one was fatal. |
| `ServerUpload.ServerRun` | collect_app/src/main/java/org/odk/collect/android/upload/AutoSendWorker.java:189-225 | The server loop over the attempted prefix. It aborts exactly when some candidate's outcome is fatal. Its report keys are the ids of the attempted candidates. |
| `ServerUpload.UploadViaServer` | collect_app/src/main/java/org/odk/collect/android/upload/AutoSendWorker.java:189-225 | The loop returns the abort flag and the fold of the server steps over the attempted candidates. |
| `ServerUpload.ServerAbortsAtFirstFatal` | collect_app/src/main/java/org/odk/collect/android/upload/AutoSendWorker.java:199-203 | The loop aborts iff some outcome is fatal. It then stops at the first fatal one. Otherwise every candidate is attempted. |
| `ServerUpload.ServerReportEntries` | collect_app/src/main/java/org/odk/collect/android/upload/AutoSendWorker.java:189-203 | The report's keys are the ids of the attempted candidates, each with its own outcome's message. Candidates after the fatal one have no entry. |
| `ServerUpload.ServerAnyFailure` | collect_app/src/main/java/org/odk/collect/android/upload/AutoSendWorker.java:195-197 | `anyFailure` is set iff some attempted outcome was not a success, the fatal one included. |
| `ServerUpload.ServerEffectsOnRow` | collect_app/src/main/java/org/odk/collect/android/upload/AutoSendWorker.java:199-216 | The branch writes no status. A candidate is deleted iff it was attempted, succeeded without being fatal, and its form is auto-deleted. Candidates after the fatal one are untouched. |
| `ServerUpload.ServerEffectShape` | collect_app/src/main/java/org/odk/collect/android/upload/AutoSendWorker.java:210-223 | Every effect of the server loop is either telemetry or the deletion of an attempted candidate whose outcome was a non-fatal success and whose form is auto-deleted. It is never a status write or a notification. |
| `ServerUpload.ServerTracksSuccesses` | collect_app/src/main/java/org/odk/collect/android/upload/AutoSendWorker.java:210-223 | An "HTTP auto" telemetry event is sent iff some attempted outcome was a non-fatal success. |
| `ResultQuery.SelectionPlaceholders` | collect_app/src/main/java/org/odk/collect/android/upload/AutoSendWorker.java:340-347 | The selection for n keys has exactly n "?" placeholders. Its length is 5n + 4(n - 1), from n `_id=?` clauses and n - 1 " or " separators; it is empty for n = 0. |
| `ResultQuery.FormatSelection` | collect_app/src/main/java/org/odk/collect/android/upload/AutoSendWorker.java:334-348 | The builder yields n `_id=?` clauses joined by " or ". It also yields a fresh array of length n that holds the keys in iteration order. An empty report gives "" and an empty array. |
| `AutoSendWorker.Gate` | collect_app/src/main/java/org/odk/collect/android/upload/AutoSendWorker.java:101-108 | The gate gives RETRY iff the network does not match and storage is unmounted or no form forces. It gives FAILURE iff storage is unmounted but the network matches. Otherwise it proceeds. |
| `AutoSendWorker.RunSheets` | collect_app/src/main/java/org/odk/collect/android/upload/AutoSendWorker.java:122-181 | The Sheets branch never asks for RETRY. It sets the permission message exactly when the permission is missing. It fails exactly when, with the permission, the account is empty or the folder is not unique, and such a failure has no effects. A SUCCESS ends in a notification. |
| `AutoSendWorker.RunServer` | collect_app/src/main/java/org/odk/collect/android/upload/AutoSendWorker.java:189-231 | The server branch fails exactly when some candidate's outcome is fatal. It never asks for RETRY and never sets the permission message. Its trace ends in a notification. |
| `AutoSendWorker.Run` | collect_app/src/main/java/org/odk/collect/android/upload/AutoSendWorker.java:101-231 | The specification of `doWork`. A run gives RETRY exactly when the gate does. A gate stop returns the gate's result with no effects. The permission message is set exactly on the Sheets path with candidates and without the accounts permission. |
| `AutoSendWorker.Worker.constructor` | collect_app/src/main/java/org/odk/collect/android/upload/AutoSendWorker.java:73-77 | A new worker has no result message. |
| `AutoSendWorker.Worker.DoWork` | collect_app/src/main/java/org/odk/collect/android/upload/AutoSendWorker.java:96-232 | The result and the effects are those of `Run`. `resultMessage` is set to the permission-failure text only when the Sheets permission is missing. |
| `AutoSendWorker.RunEarlyExits` | collect_app/src/main/java/org/odk/collect/android/upload/AutoSendWorker.java:101-108 | A run returns RETRY iff the gate says so. A RETRY, and the FAILURE for unmounted storage on a matching network, have no effects. |
| `AutoSendWorker.RunWithNoCandidates` | collect_app/src/main/java/org/odk/collect/android/upload/AutoSendWorker.java:110-114 | An empty candidate list gives SUCCESS with no write and no notification. |
| `AutoSendWorker.RunSheetsPreconditions` | collect_app/src/main/java/org/odk/collect/android/upload/AutoSendWorker.java:122-133 | With the permission granted, a Sheets run fails iff the account is empty or the folder is not unique. Such a failure has no effects. |
| `AutoSendWorker.RunSheetsWithoutPermission` | collect_app/src/main/java/org/odk/collect/android/upload/AutoSendWorker.java:179-181 | Without the accounts permission, the run sets the result message and notifies with an empty report. It still returns SUCCESS. |
| `AutoSendWorker.RunServerResult` | collect_app/src/main/java/org/odk/collect/android/upload/AutoSendWorker.java:199-231 | A server run fails iff some candidate's outcome is fatal. With no fatal outcome it returns SUCCESS, whatever `anyFailure` says. A SUCCESS means every candidate was attempted. |
| `AutoSendWorker.RunNotifiesLast` | collect_app/src/main/java/org/odk/collect/android/upload/AutoSendWorker.java:200-229 | A run notifies at most once, and only as its last effect. |

## Left out

- Android services are inputs: the connectivity service, the external-storage state and `NotificationManager`/`PendingIntent`. The notification is the `Notify` effect; its title, icon and intent are not modelled.
- Telemetry and logging: a telemetry hit is a `Track(action)` marker in the trace, and `Timber` logging is omitted.
- The uploader internals are not part of this model. That covers `uploadOneSubmission`, `getUrlToSubmitTo` (lines 135 and 190), the device id (lines 185-187), `uriRemap` (line 187), HTTP status classification and the Sheets folder check. Uploader results are position-indexed oracles. The server uploader's own status writes are not in the trace.
- `formShouldBeAutoDeleted` is not part of this model. It is the set `autoDelete` of form ids for which it answers true under the current delete-after-send preference.
- `isAutoSendEnabled` is not part of this model. Its value is the input `autoSendEnabled`.
- The protocol preference is compared with two string resources. It is modelled as the enum `Protocol`.
- Other resource texts (`not_exactly_one_blank_form_for_this_form_id`, `odk_permissions_fail`) and `DEFAULT_SUCCESSFUL_TEXT` are stand-in constants. Their real texts are opaque here.
- `formatOverallResultMessage` runs the instances query and `getUploadResultMessage`; both are foreign. `DoWork` therefore emits `Notify(anyFailure, report)` directly, and the selection builder `FormatSelection` is proved on its own.
- `FormatSelection`: the HashMap's key iteration order is an input sequence listing every key once.
- The `resultMessagesByInstanceId == null` branch (lines 329-332) is left out, because `doWork` always passes a map.
- `BooleanValueOf`: case folding covers ASCII letters only. Java's full Unicode case mapping is not modelled.
- Sheets: only exceptions thrown by `uploadOneSubmission` are modelled. Not modelled: an exception from the status write, a null cause (a NullPointerException in Java), a cause whose message is null (which puts a null value into the report at line 174), `setSelectedAccountName` (line 129), and exceptions other than `UploadException`.
- Each preference and table read is a snapshot taken once per run. Changes between two reads within a run, such as the two calls to the network check, are not modelled. Cursor closing and a null cursor are not modelled. In `formShouldBeAutoSent` a null cursor reads like one with no rows (line 290). In `atLeastOneFormSpecifiesAutoSend` it would throw at `cursor.close()` (lines 320-322).
- Concurrency with the scheduler, and cancellation, are not modelled.
