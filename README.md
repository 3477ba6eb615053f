# Zabbix LLD record lifecycle and front-end request handling, in Dafny

This project models four pieces of Zabbix and proves properties of the models.

**Low-level discovery (LLD) records** (`src/zabbix_server/lld/lld_common.c`).
While the server processes a discovery rule, it keeps one discovery record per
discovered object. The record holds a bitmask of pending updates and the new
values of the discovery columns: lastcheck, discovery status, disable source,
`ts_delete` and `ts_disable`. The model covers:

- the overflow-safe end-of-life computation and the lifetime timestamp for the
  three lifetime types (after a duration, immediately, never);
- the four lifecycle transitions: discovered, re-enabled, lost, and disabled
  because lost;
- rollback of a string field;
- the flush, which:
  - counts pending updates;
  - double-checks pending status changes against the object table;
  - sorts every record into the delete list, the object-status updates, the
    batched lastcheck update, or a per-record `SET` clause of the discovery
    table.

The hashset of records is a class `DiscoverySet` holding a map from object id to
record, and its methods update it in place. Each transition is first stated as a
function on one record. The method that applies it is proved to produce exactly
that function's result.

A record whose only flag is "delete object" does not count as a pending update.
So when every pending record is deletion-only, the flush stops before its
second pass and deletes nothing. Such a record is deleted only when some other
record in the same flush has a real update. The model keeps this behaviour as
written and states both sides in `LldFlush.LoneDeletionsNotFlushed` and
`LldFlush.DeletionWithOtherUpdates`.

**The base MVC controller** (`ui/include/classes/mvc/CController.php`). This is
the controller's input state and its CSRF-token check. The check uses the first
`.`-separated action segment other than `popup` and `massupdate`. The model also
covers input validation, the input accessors, and the fixed order in which `run`
makes its calls: CSRF check, input check, permission check, action. A concrete
controller's `checkInput`, `checkPermissions` and `doAction` are described to
`run` by what they return and which response they set.

**The service-update controller** (`ui/app/controllers/CControllerServiceUpdate.php`).
This is the second validation stage for advanced configuration (propagation
rule required, weight range), the propagation-value rules, and the service
payload built from the validated input. Building the payload drops blank tags,
drops problem tags under the "set status to OK" algorithm, maps parent and child
ids to `{serviceid}` records, and applies the propagation and weight defaults.

**The event-name validator** (`ui/include/classes/validators/CEventNameValidator.php`).
This is a left-to-right scan that hands each `{?` (expression macro) and `{{?`
(expression macro function) to its parser. The two parsers are parameters
(oracles) that report a failure with an error or a positive consumed length.
The scan is specified by a function that returns every segment it passes or the
first parser error. The validator's loop is proved equal to that function.

Modules:

| file | module | contents |
|---|---|---|
| options.dfy | Options | `Option` |
| lld_types.dfy | LldTypes | ids, C integer ranges, update flags, statuses, the discovery record |
| lld_lifetime.dfy | LldLifetime | end of life, lifetime timestamp, elapsed check |
| lld_transitions.dfy | LldTransitions | the lifecycle transitions and the string rollback as functions |
| lld_flush.dfy | LldFlush | counting, the database double-check, classification, SET clauses, the flush plan |
| lld_discoveries.dfy | LldDiscoveries | the record set and string field as classes updated in place |
| php_values.dfy | PhpValues | PHP values and the loose comparisons the controllers use |
| controller.dfy | Mvc | the base controller |
| service_update.dfy | ServiceUpdate | the service-update controller |
| event_name_validator.dfy | EventNameValidation | the event-name scan |

Constants come from headers and helper classes that are not part of this model,
so the values below are assumptions. Every proof uses only whether two of these
values are equal, never their numeric value, except where noted.

- **LLD:** `ZBX_JAN_2038` = 2145916800. Discovery status: NORMAL 0, LOST 1.
  Object status: ENABLED 0, DISABLED 1. Disable source: DEFAULT 0, LLD_LOST 1.
  `ZBX_LLD_DISCOVERY_UPDATE` is the mask of the five discovery-table flags.
- **Front end:**
  - CSRF token field name: `_csrf_token`.
  - Propagation rules: AS_IS 0, INCREASE 1, DECREASE 2, IGNORE 3, FIXED 4.
  - `TRIGGER_SEVERITY_COUNT` = 6.
  - Status-name keys: -1 through 5.
  - `ZBX_SERVICE_STATUS_CALC_SET_OK` = 0.
  - `SERVICE_SHOW_SLA_ON` = 1 and `SERVICE_SHOW_SLA_OFF` = 0.
  - Database defaults of `propagation_rule`, `propagation_value` and `weight`: 0 each.
  - This group's numeric values do matter for the range and membership checks.

## Model

| member | source | states |
|---|---|---|
| LldLifetime.EndOfLife | src/zabbix_server/lld/lld_common.c:54-57 | The result never exceeds ZBX_JAN_2038. It is `lastcheck + lifetime` exactly when that sum is below ZBX_JAN_2038, otherwise ZBX_JAN_2038. The difference and the sum are both typed as C `int`, so neither overflows. |
| LldLifetime.LifetimeTs | src/zabbix_server/lld/lld_common.c:59-71 | AFTER gives the end of life of lastcheck plus duration, IMMEDIATELY gives 1, NEVER gives 0. |
| LldLifetime.LifetimeElapsed | src/zabbix_server/lld/lld_common.c:73-79 | The lifetime is over exactly when ts is non-zero and now is past ts. |
| LldLifetime.LifetimeElapsedMeaning | src/zabbix_server/lld/lld_common.c:59-79 | For each lifetime type, what elapsed means: NEVER never elapses, IMMEDIATELY elapses from time 2 on, and AFTER elapses once now is past the saturated `lastcheck + duration` and that sum is non-zero (a timestamp of 0 never elapses). |
| LldTransitions.StrRollback | src/zabbix_server/lld/lld_common.c:38-47 | No-op when no bit of the flag is set. Otherwise the field takes the original value, the original becomes null, the flag's bits are cleared and every other bit is kept. |
| LldTransitions.StrRollbackIdempotent | src/zabbix_server/lld/lld_common.c:38-47 | Rolling back twice equals rolling back once. |
| LldDiscoveries.ObjectStrField.Rollback | src/zabbix_server/lld/lld_common.c:38-47 | The in-place rollback leaves the field, original and flags exactly as `StrRollback` says. |
| LldTypes.NewDiscovery | src/zabbix_server/lld/lld_common.c:94 | A new record carries the given id and name and no pending flags. |
| LldDiscoveries.DiscoverySet.constructor | src/zabbix_server/lld/lld_common.c:92-97 | A new record set is empty, and every record is keyed by its own id. |
| LldDiscoveries.DiscoverySet.AddDiscovery | src/zabbix_server/lld/lld_common.c:92-97 | A new id gets a fresh record with no flags. An id already present keeps its record, which is returned. The returned record carries the id, and every record stays under its own id. |
| LldTransitions.AfterDiscovered | src/zabbix_server/lld/lld_common.c:108-123 | Always adds UPDATE_LASTCHECK. Only when the status was not NORMAL does it set NORMAL and add UPDATE_DISCOVERY_STATUS. Only when ts_delete was non-zero does it zero ts_delete and add UPDATE_TS_DELETE. No flag is cleared and nothing else changes. |
| LldDiscoveries.DiscoverySet.ProcessDiscoveredObject | src/zabbix_server/lld/lld_common.c:108-123 | The in-place update replaces the object's record with `AfterDiscovered` of it and leaves every other record unchanged. |
| LldTransitions.AfterEnableDiscovered | src/zabbix_server/lld/lld_common.c:136-151 | Re-enables only a DISABLED object whose source is LLD_LOST: source becomes DEFAULT, status ENABLED, and both flags are added. ts_disable is zeroed and flagged only when it was non-zero. Flags only grow and nothing else changes. |
| LldDiscoveries.DiscoverySet.EnableDiscoveredObject | src/zabbix_server/lld/lld_common.c:136-151 | The in-place update equals `AfterEnableDiscovered` on that record and leaves the others unchanged. |
| LldTransitions.AfterLost | src/zabbix_server/lld/lld_common.c:168-192 | ts_delete and its flag change only when the computed lifetime ts differs. The status is forced to LOST and flagged only if it changed. DELETE_OBJECT is added exactly when the lifetime has elapsed and the object is ENABLED or was disabled by LLD. Flags only grow. |
| LldDiscoveries.DiscoverySet.ProcessLostObject | src/zabbix_server/lld/lld_common.c:168-192 | The in-place update equals `AfterLost` on that record and leaves the others unchanged. |
| LldTransitions.AfterDisableLost | src/zabbix_server/lld/lld_common.c:207-229 | ts_disable changes and is flagged only when the computed ts differs. Before the lifetime elapses nothing else changes. Afterwards an ENABLED object becomes DISABLED with source LLD_LOST and both flags set. |
| LldDiscoveries.DiscoverySet.DisableLostObject | src/zabbix_server/lld/lld_common.c:207-229 | The in-place update equals `AfterDisableLost` on that record and leaves the others unchanged. |
| LldTransitions.EnableUndoesDisableLost | src/zabbix_server/lld/lld_common.c:136-229 | Once the lifetime of an enabled lost object has elapsed, the lost step disables it. Rediscovering it enables it again with source DEFAULT. |
| LldTransitions.DiscoveredUndoesLost | src/zabbix_server/lld/lld_common.c:108-192 | When the lost step schedules a new deletion time, the object is LOST unless a status change was already pending. Rediscovering it returns it to NORMAL, and the scheduled deletion is cancelled unless the schedule was 0. |
| LldTransitions.LostObjectKept | src/zabbix_server/lld/lld_common.c:187-191 | An object with a NEVER lifetime is never marked for deletion. Neither is one disabled by something other than LLD. |
| LldFlush.StatusCheckIds | src/zabbix_server/lld/lld_common.c:349-353 | The ids whose status is double-checked are among the pending updates. |
| LldFlush.CountUpdates | src/zabbix_server/lld/lld_common.c:346-356 | The first loop counts exactly the records whose flags are neither empty nor exactly DELETE_OBJECT. It collects exactly the counted records that have UPDATE_OBJECT_STATUS. |
| LldFlush.LoneDeletionsNotFlushed | src/zabbix_server/lld/lld_common.c:346-359 | When every record has no flags or only DELETE_OBJECT, no update is counted and the flush stops before its second pass. |
| LldFlush.DeletionWithOtherUpdates | src/zabbix_server/lld/lld_common.c:346-381 | Once another record counts as an update, a deletion-only record lands in the delete list. |
| LldFlush.MarkExisting | src/zabbix_server/lld/lld_common.c:263-284 | A fetched row sets UPDATE_OBJECT_EXISTS. It keeps UPDATE_OBJECT_STATUS exactly when the stored status differs from the pending one, and changes no other bit or field. |
| LldFlush.ResetIfRemoved | src/zabbix_server/lld/lld_common.c:287-298 | A checked record without UPDATE_OBJECT_EXISTS has all its flags reset. Any other record is untouched. |
| LldFlush.CheckedInDb | src/zabbix_server/lld/lld_common.c:245-299 | The double-check keeps the same set of records, and a record whose id was not checked stays as it was. |
| LldFlush.CheckedRecordEffect | src/zabbix_server/lld/lld_common.c:263-298 | The effect on one checked record is as follows. An object still in the table gets the exists flag, and its status flag survives only if the status differs; all other flags are kept. An object gone from the table, whose record did not already carry the exists flag, has its flags cleared; one that already carried the exists flag is left as it was. Only flags change. |
| LldFlush.CheckedInDbNothing | src/zabbix_server/lld/lld_common.c:364-368 | Skipping the double-check when no status needs checking leaves the records as they are. |
| LldDiscoveries.DiscoverySet.CheckObjectsInDb | src/zabbix_server/lld/lld_common.c:245-299 | The two loops, over the fetched rows and then over the checked ids, leave the records exactly as `CheckedInDb` says. |
| LldFlush.Decimal | src/zabbix_server/lld/lld_common.c:436-464 | The printed number is a non-empty string of decimal digits without a leading zero, and it reads back as the number itself. |
| LldFlush.ColumnsExact | src/zabbix_server/lld/lld_common.c:432-465 | The SET clause assigns a column exactly when its flag is set, and always with the record's value (lastcheck with `now`). |
| LldFlush.ColumnsOrdered | src/zabbix_server/lld/lld_common.c:432-465 | Columns appear at most once, in the order lastcheck, status, disable_source, ts_delete, ts_disable. |
| LldFlush.ColumnsEmpty | src/zabbix_server/lld/lld_common.c:386-391 | The clause is empty exactly when no discovery-table flag is set, so every record with its own SET clause assigns at least one column. |
| LldFlush.RenderClauseCommaSeparated | src/zabbix_server/lld/lld_common.c:428-465 | The clause text starts with a space, and n assignments are separated by exactly n-1 commas. |
| LldFlush.BuildSetClause | src/zabbix_server/lld/lld_common.c:426-468 | Building the clause column by column with a running delimiter gives the rendering of exactly the flagged columns. |
| LldFlush.PrepareUpdates | src/zabbix_server/lld/lld_common.c:371-393 | The second loop sorts every record into the plan: deletions, status updates, lastcheck-only batch, SET clauses. |
| LldFlush.PlanPartition | src/zabbix_server/lld/lld_common.c:372-393 | A record marked for deletion lands only in the delete list. A status update is planned exactly for non-deleted records with the status flag. The lastcheck batch gets exactly the records whose only discovery-table flag is lastcheck. Every other updating record gets a non-empty SET clause, and no record gets both. |
| LldFlush.RemovedObjectLeftAlone | src/zabbix_server/lld/lld_common.c:287-393 | An object missing from the object table is neither deleted nor updated by the flush. |
| LldFlush.MatchingStatusNotRewritten | src/zabbix_server/lld/lld_common.c:278-283 | A status the table already holds is not written again. |
| LldDiscoveries.DiscoverySet.FlushDiscoveries | src/zabbix_server/lld/lld_common.c:346-393 | With no pending update nothing happens and no plan is made. Otherwise the records are double-checked, and the plan is exactly the classification of the checked records. |
| Mvc.Controller.HasInput | ui/include/classes/mvc/CController.php:354-356 | True exactly when the validated input has the field, whatever its value. |
| Mvc.Controller.GetInputAll | ui/include/classes/mvc/CController.php:394-396 | The whole validated input, with the same keys and values. |
| Mvc.Controller.constructor | ui/include/classes/mvc/CController.php:71-83 | A new controller has an empty validated input, no validation result, no response, and CSRF validation enabled. |
| Mvc.Controller.DisableCsrfValidation | ui/include/classes/mvc/CController.php:179-181 | CSRF validation is off afterwards. |
| Mvc.Controller.SetResponse | ui/include/classes/mvc/CController.php:141-143 | The response is the one given. |
| Mvc.Controller.ValidateInput | ui/include/classes/mvc/CController.php:260-282 | Null raw input gives FATAL with the input unchanged. A fatal validator error gives FATAL with the input unchanged. Otherwise the input becomes the validated input and the result is ERROR or OK. The call returns true exactly when the result is OK. |
| Mvc.Controller.GetInput | ui/include/classes/mvc/CController.php:354-373 | A present field returns its value and an absent one returns the default. With a null default, an absent field reads as null, so both branches of the source agree. |
| Mvc.Controller.GetInputs | ui/include/classes/mvc/CController.php:381-387 | The target gains exactly the listed names present in the input, with their input values. Every other key of the target keeps its value. |
| Mvc.Explode | ui/include/classes/mvc/CController.php:428 | Splitting the action name at `.` gives at least one part, no part contains `.`, and joining the parts back gives the name. |
| Mvc.ExplodeImplode | ui/include/classes/mvc/CController.php:428 | Splitting undoes joining when no part contains the separator. |
| Mvc.FirstCheckedSegment | ui/include/classes/mvc/CController.php:426-434 | Returns None exactly when every segment is skipped. Otherwise it returns a segment outside the skip list such that all segments before it are skipped. |
| Mvc.Controller.CheckCsrfToken | ui/include/classes/mvc/CController.php:421-435 | False when the raw input is null or has no token. Otherwise it is the token helper's verdict for the first segment not skipped, and false when every segment is skipped. |
| Mvc.RunTrace | ui/include/classes/mvc/CController.php:466-480 | The CSRF check is made exactly when validation is enabled. The input check is made exactly when the CSRF stage passes. The permission check is made exactly when the input is also valid. The action runs exactly when permission is the boolean `true`. Calls happen in that order. |
| Mvc.RunResult | ui/include/classes/mvc/CController.php:466-480 | `run` throws access-denied exactly when the CSRF stage fails, or when the input is valid and permission is not exactly `true`. |
| Mvc.Controller.Run | ui/include/classes/mvc/CController.php:466-480 | The calls made, the outcome and the final response are those of `RunTrace`, `RunResult` and `ResponseAfterRun`. |
| Mvc.CsrfFailureComesFirst | ui/include/classes/mvc/CController.php:467-469 | A failed token check with validation enabled ends in access-denied before the input is checked. |
| Mvc.InvalidInputSkipsAction | ui/include/classes/mvc/CController.php:471-479 | Invalid input skips the permission check and the action, and returns the response the input check left. |
| Mvc.DisabledCsrfIgnoresToken | ui/include/classes/mvc/CController.php:467 | With validation disabled the token is never checked, and its verdict cannot change the calls or the outcome. |
| ServiceUpdate.CheckInput | ui/app/controllers/CControllerServiceUpdate.php:24-104 | The first validation's result is FATAL when the raw input is null or the validator reports a fatal error, otherwise ERROR or OK as the validator reports. The validated input is the validator's. The call accepts exactly when that result is OK and, under advanced configuration, both hold: the propagation rule is present and a non-empty weight is an int32 in 0..1000000, judged on only those fields of the input; and the propagation value fits the rule. On rejection the response is the error payload, otherwise it is unchanged. |
| ServiceUpdate.IncreaseDecreaseNeedStep | ui/app/controllers/CControllerServiceUpdate.php:65-92 | With a rule loosely equal to INCREASE or DECREASE (an integer or an integer string), advanced input is accepted exactly when `propagation_value_number` is present and 1 <= v < TRIGGER_SEVERITY_COUNT. |
| ServiceUpdate.FixedNeedsStatus | ui/app/controllers/CControllerServiceUpdate.php:74-84 | With a rule loosely equal to FIXED, advanced input is accepted exactly when `propagation_value_status` is present and loosely equal to a status-name key. A rule loosely equal to AS_IS or IGNORE demands no value. |
| ServiceUpdate.PlainInputNeedsOnlyValidation | ui/app/controllers/CControllerServiceUpdate.php:45-65 | Without advanced configuration only the first validation decides. |
| ServiceUpdate.FilterTags | ui/app/controllers/CControllerServiceUpdate.php:131-137 | The loop keeps exactly the non-blank tags, in order. |
| ServiceUpdate.NonBlankTagsAppend | ui/app/controllers/CControllerServiceUpdate.php:131-137 | Filtering works piecewise over concatenation, so the kept tags keep their relative order. |
| ServiceUpdate.NonBlankTagsContents | ui/app/controllers/CControllerServiceUpdate.php:131-137 | No kept tag is blank, every non-blank tag is kept as often as it occurs, and no blank tag is kept. |
| ServiceUpdate.NonBlankTagsIdempotent | ui/app/controllers/CControllerServiceUpdate.php:131-147 | Filtering twice equals filtering once. |
| ServiceUpdate.ProblemTags | ui/app/controllers/CControllerServiceUpdate.php:139-147 | No problem tags under the "set status to OK" algorithm (loosely compared). Otherwise the non-blank problem tags, in order, of a `problem_tags` list. |
| ServiceUpdate.ServiceRefs | ui/app/controllers/CControllerServiceUpdate.php:149-155 | The ids map one-to-one and in order to `{serviceid}` records. |
| ServiceUpdate.ListPart | ui/app/controllers/CControllerServiceUpdate.php:119-155 | Sets the payload fields that do not depend on advanced configuration: `showsla` ON exactly when the input has it, `times`, copied fields, and the tags, problem tags, parents and children taken from list-valued fields. |
| ServiceUpdate.ConfigurationPart | ui/app/controllers/CControllerServiceUpdate.php:157-181 | Sets status rules, propagation rule, propagation value and weight per advanced configuration and the rule. Nothing else in the payload changes. |
| ServiceUpdate.BuildService | ui/app/controllers/CControllerServiceUpdate.php:118-181 | The payload is exactly the one `ServicePayload` describes for the validated input. |
| ServiceUpdate.AcceptedPayloadFitsRule | ui/app/controllers/CControllerServiceUpdate.php:157-175 | For an accepted advanced form, the payload sends the input's rule. INCREASE/DECREASE send a step in 1..5 and FIXED sends a status-name key. The weight is 0 or an int32 in 0..1000000. |
| ServiceUpdate.PlainPayloadUsesDefaults | ui/app/controllers/CControllerServiceUpdate.php:177-181 | Without advanced configuration the rule, value and weight are the database defaults, and there are no status rules. |
| ServiceUpdate.DoAction | ui/app/controllers/CControllerServiceUpdate.php:183-196 | Sends the payload for the input. The response is the title plus any notices on success, or the error box on failure. |
| EventNameValidation.EventNameValidator.constructor | ui/include/classes/validators/CEventNameValidator.php:20 | A new validator has no error. |
| EventNameValidation.EventNameValidator.Validate | ui/include/classes/validators/CEventNameValidator.php:29-65 | Valid exactly when the scan succeeds. On failure the validator's error is the first parser error, and on success the error is unchanged. |
| EventNameValidation.NoMacroIsValid | ui/include/classes/validators/CEventNameValidator.php:46-64 | A value without `{?`, and hence without `{{?`, is valid whatever the parsers do, and every position is skipped. |
| EventNameValidation.EmptyIsValid | ui/include/classes/validators/CEventNameValidator.php:46 | The empty string is valid. |
| EventNameValidation.ValidScanTiles | ui/include/classes/validators/CEventNameValidator.php:46-62 | A successful scan tiles the value without gap or overlap. Each skipped position starts no macro. Each macro starts at `{?` or `{{?`, went to the parser that prefix selects, and that parser returned its length. |
| EventNameValidation.InvalidScanStopsAtFailure | ui/include/classes/validators/CEventNameValidator.php:47-54 | A failed scan reports the first failure it reaches. It gets from the start to a macro start through successful parses only, and that macro's parser failed with the reported error. |

## Left out

- SQL text other than the discovery-table SET clause is not modelled. Neither are transactions, `FOR UPDATE` locking, or batching and execution of statements. The flush's result is a plan of writes (`FlushPlan`), and the object table is a map from id to status.
- The audit callbacks, `cb_delete_objects` and the `cb_status` conversion are foreign calls. The plan records the common LLD status, not the converted one.
- Hashset and vector internals are left out: iteration order, sorting, and `THIS_SHOULD_NEVER_HAPPEN` on a missing id. Every list is sorted by id before use, so lists are sets. A missing id is skipped, as in the source.
- Memory management (`zbx_free` in the rollback) is left out.
- `lld_add_discovery` relies on `zbx_hashset_insert` returning the existing entry for a known id. That behaviour belongs to the hashset, whose implementation is not part of this model.
- LldLifetime.EndOfLife: lastcheck and lifetime are non-negative C ints. Negative arguments, which could overflow the difference, are outside the model.
- getFormInput, getJsonInput and populateRawInput are left out because they read request globals and check signatures. The raw input is a constructor parameter.
- `validateTimeSelectorPeriod` is left out because it reads the clock and the settings. So are the debug-mode, user-type and access getters, which are foreign calls.
- The CSRF token helper, the input validator (`CNewValidator` with each controller's rules) and the API calls are function parameters. Error messages and `info()` output are strings passed in.
- The second validator stage is not treated as an oracle. It is written out as the rules it applies: `required` means present, and `int32|ge 0|le 1000000` means an integer string or integer in that range.
- The event-name scan walks characters, while PHP indexes bytes and the parsers report byte lengths. The scan's trigger characters `{` and `?` are ASCII, so only the unit of positions and lengths differs for non-ASCII values.
- `getInput` with an absent field and a null default also raises PHP's "undefined array key" warning. The model returns null without the warning.
- PHP loose comparison is modelled for integers, integer strings (optional minus sign and digits) and null. Other strings, floats and booleans are outside the model; validated request fields do not take those forms.
- Parameter sets of the macro parsers are left out, as is the difference between PARSE_SUCCESS and PARSE_SUCCESS_CONT. Every result that is not a failure is a success with a positive length. With that, the scan always terminates.
- JSON encoding of responses and `disableView()` are not modelled. The payload is a PHP value, with no view flag.
- ServiceUpdate.ListPart: the list fields `tags`, `problem_tags`, `parent_serviceids` and `child_serviceids` are modelled as lists (`Arr`). A string-keyed PHP array (`Rec`) in one of them is outside the model: the model then adds nothing for that field, where the source's `foreach` visits its values in insertion order. A string-keyed map does not keep insertion order, so the model cannot list those values in the source's order.
- ServiceUpdate.ProblemTags: the same gap as ListPart. A string-keyed `problem_tags` array gives no problem tags in the model, where the source keeps its non-blank values.
- ServiceUpdate.DoAction: the payload it sends inherits ListPart's gap on string-keyed list fields.
- ServiceUpdate.BuildService: inherits ListPart's gap on string-keyed list fields. The payload is also a record with one field per key `doAction` writes, not a PHP array, so the order of the array's keys is not modelled.
- `checkPermissions` of the service-update controller is left out because it calls `CWebUser` and the API. `run` receives its result as a value.
