# A verified model of the OpenVPN 3 Linux services

OpenVPN 3 Linux splits a VPN client into cooperating D-Bus services. This project models the four stateful
parts of them whose correctness only shows over whole runs, and proves what they promise.

1. **Profiles and their life-cycle.** A profile is an ordered option list that is exported to a JSON object and
   imported again (`OptionJson`, `OptionTables`, `LegacyProfiles`, `StoredProfiles`, `Json`). A configuration object
   wraps it with an access list, overrides, tags, a seal flag, a validity flag and a persistent file from which a
   restart rebuilds it (`ConfigProfile`, `ConfigRuns`, `RecordRuns`, `LoadedRecords`, `PersistentFile`, `NonOwners`,
   `ConfigurationObject`, with `ProfileCheck`, `AccessControl`, `Overrides`, `OverrideOrder`, `LoadedOverrides` and
   `TextFilter` underneath). A run is any sequence of method calls, property changes, ownership transfers and restarts.
2. **User input and the VPN session.** The queue of inputs a service requires (`RequestQueue`), the front-end that
   drains it (`FrontEnd`, `ClientPass`), the Core event handler (`CoreEvents`, `EventRuns`, `EventStatuses`) and the
   backend client that fills and reads it (`ClientSession`, `SessionSteps`, `Questions`, `Credentials`, `ConnectGate`,
   `CredentialGroups`, `DynamicChallenges`, `AuthPending`, `KeyPassphrase`, `LoginScenario`, `CredentialScenarios`,
   `PendingScenario`, `BackendClient`). Each D-Bus call and each Core event is one atomic step.
3. **Log service attachments** (`LogAttachments`, `SessionLogs`): attached services by tag hash, session paths by hash,
   the idle flag, the clean-up after processes that left the bus, and the client processes that register with it.
4. **Configuration files and the command line** (`ConfigFile`, `ConfigFileRuns`, `ArgumentOverride`, `CommandLine`,
   `Lists`).

Objects that change are classes with the source's fields and loops; each method is proved against a function of the
old state, and the laws are lemmas about those functions. `Outcomes` holds `Option` and `Result`; a C++ exception is
an `Err` or a false outcome, with the state the exception leaves behind.

What an operation computes is also told a second time, independently of the function that specifies it: the
configuration by a machine on exported records alone (`RunOnRecords`), the client settings by the override of each key
(`EachTakesItsOwn`), the credentials of a started client by the values the user gave in the run (`StartedInRun`), the
statuses by the events so far (`SentInRun`), the questions by the steps (`AskedInRun`), a stored profile by the lines
it was made of (`RepeatedLinesSurvive`, `LastLineSurvives`, `OldDocumentIsRead`).

## What holds and what does not

The central laws hold for all inputs: the serialisation round trip, the record surviving restarts, the sealed
configuration, unique and typed overrides, complete credential groups, challenge pairing, queue numbering, the log
index, the file import. Where the code does less than one would expect, the exact condition is proved instead, with
the runs or inputs that fail:

- A bare option comes back only if the Core lexer reads `name + " "` as that option (`OptionJson.RoundTrip`); array and
  tag options and options with arguments always do.
- Only the last `setenv` survives a reload, so a restart can accept a profile that was rejected as server locked
  (`ValidityAfterReload`, `ReloadCanUnlock`); an accepted profile stays accepted.
- A refused `SetOverride` on a key that is set drops the old value in memory only, and the next restart restores it
  (`FailedCallEffect`, `DroppedOverrideReturns`). This and a restart that flips validity are the only ways in which
  the persistent file and the configuration disagree (`FileInStep`).
- Anyone on the access list, root, and everyone under public access can transfer a configuration to themselves, sealed
  or locked down, and then remove it (`NonOwnerEvent`, `Takeover`).
- Removing control characters twice can differ from once when newlines are kept (`FilterKeepingNewlinesIdempotent`).
- A log level outside 0-6 makes the client stop at that override; exactly when that makes the order of the overrides
  matter is `OrderMattersIff`.
- The reload does not check the type of an override, so an edited file can hold one the client throws on; exactly which
  is `ThrowsIff` and `ClientTakesOverridesIff`.
- A static challenge is queued again by every Connect call, which therefore never starts the client
  (`StaticChallengeBlocks`); likewise a required key passphrase that filters to nothing
  (`EmptyPassphraseBlocksForever`).
- The comment in `cb_connect` says that Connect re-establishes the client after AUTH_FAILED; the code returns
  silently in that state, until an event of the client moves the status, which DISCONNECTED does not
  (`AuthFailedBlocksConnect`; `ConnectOutcome` gives every case). The model follows the code.
- The callback that forwards a pending authentication runs after every stored value, the cookie of a dynamic challenge
  included. While the first pending authentication is unanswered it throws: a dynamic challenge then moves no status
  (`DynamicChallengeThrows`), and once everything is answered Connect is still ignored
  (`ConnectIgnoredWithNothingMissing`); a front-end pass ends in an error (`PassInSession`). Once it is answered every
  later value sends the first reply again, and no other reply is ever sent (`OnlyFirstReplyIsSent`).
- `connect()` always answers the first dynamic challenge received, also when newer ones have arrived
  (`SameChallenge`).
- CLIENT_HALT reports a failure without setting `failed_signal_sent`, so a disconnected status can follow it; exactly
  when is `DisconnectAfterReportedFailure`.
- A client that is assigned two sessions leaves a dangling index entry in the log service (`SecondSessionDangles`,
  `RemovalIsCleanIffOneEntry`); the `registered` flag is what prevents it, as long as no two client processes of the
  run have log tags of the same hash (`IndexLiveInSystem`, `IndexLiveIff`).
- A generated configuration file is read back exactly when each present entry is the first with its label
  (`ConfigFileRuns.RoundTrip`).

## How outside code appears

- The Core library's `parse_option_from_line` and `Option::render` are arbitrary functions; rendering an already
  rendered value is assumed to be the identity where the second export is compared. Evaluating a profile and handing
  over credentials have arbitrary outcomes; `atoi` and `stoi` are arbitrary functions.
- JSON objects are maps (section 4 of RFC 8259), numbers are integers, conversions are those of jsoncpp. The order in which jsoncpp lists members is
  an arbitrary enumeration passed in; every result holds for all of them.
- The members of a configuration record are a datatype in which `JNull` stands for an absent member.
- Caller uid, liveness of a bus name, time stamps and terminal input are parameters. The string hash is an arbitrary
  function that may collide; the key order of an ordered map is any consistent choice of a first key.
- `char` is assumed to be signed, so that bytes from 0x80 up are erased by the filter; where it is unsigned they stay.
- Queue ids and counts are 32 bit numbers that wrap around.

## Model

| member | source | states |
|---|---|---|
| `OptionJson.OptionListJson.OptionValue` | src/common/core-extensions.hpp:108-129 | the value loop yields null for a bare option, the argument strings otherwise, one rendered string for a tag option |
| `OptionJson.OptionListJson.ExportOne` | src/common/core-extensions.hpp:92-144 | one round of the export: meta options are skipped, array options appended to, all others overwritten |
| `OptionJson.OptionListJson.JsonExport` | src/common/core-extensions.hpp:84-149 | the loop computes the export given by a definition per option name: all occurrences in order for an array option, only the last one otherwise, no meta option |
| `OptionJson.ExportSnoc` | src/common/core-extensions.hpp:92-144 | one more option changes the per-name definition of the export exactly as one round of the loop does |
| `OptionJson.OptionListJson.AddAll` | src/common/core-extensions.hpp:176-204 | formats 2 and 3b: exactly the options of the elements before the first that cannot be read are appended, in order |
| `OptionJson.OptionListJson.ImportOne` | src/common/core-extensions.hpp:161-219 | the four formats of one member; options are only ever appended, also when a conversion throws |
| `OptionJson.OptionListJson.ImportAll` | src/common/core-extensions.hpp:152-221 | the members are appended in visiting order; the import fails exactly when some member does |
| `OptionJson.OptionListJson.JsonImport` | src/common/core-extensions.hpp:152-221 | the whole import, including documents that are no object |
| `OptionJson.MemberRoundTrip` | src/common/core-extensions.hpp:84-221 | one exported member comes back as the normal forms of the surviving occurrences of its name if and only if its bare options read back |
| `OptionJson.RoundTrip` | src/common/core-extensions.hpp:84-221 | for every option list and member order, import of the export gives exactly the canonical list, if and only if every surviving bare option name is read back by the Core lexer |
| `OptionJson.CanonicalOccurrences` | src/common/core-extensions.hpp:84-221 | per name the canonical list has all non-meta occurrences in order for array options, the last one otherwise, tag arguments collapsed to one rendered value |
| `OptionJson.CanonicalSurvivors` | src/common/core-extensions.hpp:84-221 | a second save and reload keeps the same survivors |
| `OptionJson.ExportIsStable` | src/common/core-extensions.hpp:84-221 | a second export equals the first |
| `OptionJson.CanonicalReadsBack` | src/common/core-extensions.hpp:84-221 | the read-back condition holds again after a save and reload |
| `OptionJson.LegacyFormatsAgree` | src/common/core-extensions.hpp:152-221 | formats 1 and 3a, and 2 and 3b, are read as the same options when the lexer splits the old strings into the new tokens |
| `LegacyProfiles.TagTextIsKept` | src/common/core-extensions.hpp:436-458 | the text of a tag option is kept as it is, in format 1 as in format 3a |
| `LegacyProfiles.TagTextsAreKept` | src/common/core-extensions.hpp:172-204 | a tag option that may be repeated keeps one text per element, in format 2 as in format 3b |
| `LegacyProfiles.NestedArraysAreOptions` | src/common/core-extensions.hpp:172-186 | arrays in an array are options of their own, whatever the option is called |
| `LegacyProfiles.ScalarIsText` | src/common/core-extensions.hpp:436-473 | a number, a flag or null is read as the text it converts to: its decimal notation, true or false, the empty text |
| `LegacyProfiles.ObjectIsRefused` | src/common/core-extensions.hpp:436-473 | an object fails the import of its member, also inside an array |
| `LegacyProfiles.OldDocumentIsRead` | src/common/core-extensions.hpp:152-221 | a whole document in the old formats is read as the list that a save and reload of its options gives; it is read as their current export if and only if the bare option names read back |
| `StoredProfiles.RepeatedLinesSurvive` | src/common/core-extensions.hpp:379-390 | with the real tables every remote, route, route-ipv6, pull-filter and peer-fingerprint line survives a save and reload, arguments and order included |
| `StoredProfiles.ConnectionBlocksSurvive` | src/common/core-extensions.hpp:348-390 | so does every connection block, rendered |
| `StoredProfiles.LastLineSurvives` | src/common/core-extensions.hpp:348-390 | of an inline file the last one survives, rendered; of any other option the last line |
| `StoredProfiles.StoredAsLines` | src/common/core-extensions.hpp:131-144 | the stored form of lines that may be repeated: one array of arguments, or null, per line |
| `StoredProfiles.StoredAsLastLine` | src/common/core-extensions.hpp:108-138 | the stored form of every other option: the arguments of its last line, one text for an inline file |
| `OptionTables.MetaIsCapital` | src/common/core-extensions.hpp:96-106 | with the real prefix table every filtered meta option starts with a capital letter, so no OpenVPN option is filtered |
| `Json.StringsRoundTrip` | src/common/core-extensions.hpp:436-450 | an array of strings is converted back element by element without loss |
| `TextFilter.Filter` | src/common/string-utils.cpp:20-42 | the two in-place passes compute the filter, with the signed comparison that erases bytes from 0x80 up |
| `TextFilter.FilterIsProjection` | src/common/string-utils.cpp:20-42 | with newline filtering: idempotent, keeps exactly the printable characters, the identity on printable text |
| `TextFilter.FilterIsHomomorphism` | src/common/string-utils.cpp:20-42 | filtering two texts in a row is filtering each: what stays keeps its order and its number |
| `TextFilter.PrintableStays` | src/common/string-utils.cpp:20-42 | of all bytes exactly those from 0x20 to 0x7f stay |
| `TextFilter.NothingLeft` | src/common/string-utils.cpp:20-42 | nothing is left of a text if and only if it has only control characters and newlines |
| `TextFilter.FilterKeepingNewlinesIdempotent` | src/common/string-utils.cpp:20-42 | without newline filtering: idempotent on a text if and only if no newline hides behind control characters at its end |
| `TextFilter.FilterKeepingNewlinesTwice` | src/common/string-utils.cpp:20-42 | for any printable character a text on which the second pass changes the result |
| `ProfileCheck.Scan` | src/configmgr/configmgr-configuration.cpp:676-722 | the flag loop: the profile is locked iff some setenv option says GENERIC_CONFIG, otherwise each flag says whether its option occurs |
| `ProfileCheck.ValidateProfile` | src/configmgr/configmgr-configuration.cpp:676-749 | accepted if and only if the required options are present and nothing locks the profile; otherwise locked, or rejected with the exact list of what is missing |
| `ProfileCheck.RequiredIffNothingMissing` | src/configmgr/configmgr-configuration.cpp:724-747 | the list of missing options is empty exactly for the profiles with all required options |
| `ProfileCheck.PresentAfterReload` | src/configmgr/configmgr-configuration.cpp:676-749 | every option name the check looks for is present after export and import iff it was before |
| `ProfileCheck.LockAfterReload` | src/configmgr/configmgr-configuration.cpp:687-694 | a reloaded profile is locked if and only if its last setenv option locks it |
| `ProfileCheck.ValidityAfterReload` | src/configmgr/configmgr-configuration.cpp:676-749 | exactly when a reloaded profile is accepted; hence validity survives persistence for every option list |
| `ProfileCheck.ReloadCanUnlock` | src/configmgr/configmgr-configuration.cpp:687-694 | every profile with the required options, a locking setenv and another setenv after it is rejected now and accepted after the next restart |
| `ProfileCheck.TablesAreOrdinary` | src/common/core-extensions.hpp:348-395 | the real name tables satisfy what the validity results assume of them |
| `AccessControl.Acl.GrantAccess` | src/dbus/object-ownership.cpp:56-65 | throws iff the uid is listed, otherwise appends it |
| `AccessControl.Acl.RevokeAccess` | src/dbus/object-ownership.cpp:67-76 | the compaction loop and the single-iterator erase: throws iff the uid is not listed, otherwise the compacted front followed by the old tail minus one |
| `AccessControl.Acl.CheckAcl` | src/dbus/object-ownership.cpp:84-117 | access iff public, listed or among the extra uids; a caller without a uid only where everyone has access |
| `AccessControl.Acl.CheckOwnerAccess` | src/dbus/object-ownership.cpp:119-132 | granted iff the caller is the owner |
| `AccessControl.RevokeIsExact` | src/dbus/object-ownership.cpp:67-76 | revoking drops exactly the revoked uid and keeps the rest in order if and only if it was listed once; distinctness is kept |
| `AccessControl.RevokeOfDuplicate` | src/dbus/object-ownership.cpp:67-76 | a uid listed twice would keep its access |
| `Overrides.SetOverrides` | src/client/openvpn3-service-client.cpp:1417-1533 | the override loop of the client, up to the first override that throws; on the lists a run produces every setting ends with the value of its own override or its start value |
| `Overrides.TargetIsInvertible` | src/client/openvpn3-service-client.cpp:1417-1533 | two override keys never write the same client setting |
| `Overrides.KeyIsDispatched` | src/client/openvpn3-service-client.cpp:1417-1533 | every client setting is reached by its key |
| `Overrides.EachTakesItsOwn` | src/client/openvpn3-service-client.cpp:1417-1533 | of unique schema typed overrides with levels in range every setting has its own override's flag or text, the number of a log level or a readable timeout, a known name resolution scope, and its start value otherwise |
| `Overrides.DispatchMatchesSchema` | src/configmgr/overrides.hpp:47-127 | every key of the schema is handled by the client, which asks for the alternative the schema stores |
| `Overrides.OnlyLogLevelThrows` | src/client/openvpn3-service-client.cpp:1417-1533 | on a schema typed override the client throws if and only if it is a log level outside 0-6: no std::get fails |
| `Overrides.ThrowsIff` | src/client/openvpn3-service-client.cpp:1417-1533 | of overrides with a known key the client throws exactly on a value of the wrong alternative, the caught connection timeout excepted, and on a log level outside 0-6 |
| `LoadedOverrides.ClientTakesOverridesIff` | src/client/openvpn3-service-client.cpp:1417-1533 | in every run, whatever the profile and the file, the client takes all overrides if and only if none is one of those |
| `LoadedOverrides.AnyValueIsLoaded` | src/configmgr/configmgr-configuration.cpp:143-173 | a file brings such values in: the reload takes a flag or a text for any known key |
| `Overrides.SettingsByKey` | src/client/openvpn3-service-client.cpp:1417-1533 | the resulting settings without reference to list order: what some override assigns, the start value elsewhere |
| `Overrides.OrderIsIrrelevant` | src/client/openvpn3-service-client.cpp:1417-1533 | two lists with the same typed overrides and log levels in range give the same settings in any order |
| `Overrides.OrderMattersOnBadLevel` | src/client/openvpn3-service-client.cpp:1417-1533 | with a log level out of range the order decides which overrides take effect |
| `OverrideOrder.OrderMattersIff` | src/client/openvpn3-service-client.cpp:1417-1533 | the order of schema typed overrides does not reach the client settings if and only if every log level is in range or no other override would change a setting |
| `ConfigProfile.LoadAclOfItems` | src/configmgr/configmgr-configuration.cpp:138-141 | the reload grants every exported uid without hitting a duplicate, given a list without duplicates |
| `ConfigProfile.LoadOverridesOfMembers` | src/configmgr/configmgr-configuration.cpp:143-173 | the reload restores exactly the exported overrides, in visiting order |
| `ConfigProfile.ReloadOfExport` | src/configmgr/configmgr-configuration.cpp:91-181 | for every sound configuration the reload constructor accepts its own record and yields the configuration described by Reloaded |
| `ConfigProfile.LoadIsOrderly` | src/configmgr/configmgr-configuration.cpp:91-181 | whatever a file holds, a configuration loaded from it lists no uid twice, has unique known overrides and a recomputed validity flag |
| `LoadedRecords.LoadsIff` | src/configmgr/configmgr-configuration.cpp:91-181 | exactly which files are loaded: every member convertible, no uid twice, overrides flags or texts only |
| `LoadedRecords.LoadedScalars` | src/configmgr/configmgr-configuration.cpp:105-136 | each scalar field of a reloaded configuration is the conversion of its own member, the owner cut to 32 bits |
| `LoadedRecords.LoadedLists` | src/configmgr/configmgr-configuration.cpp:121-141 | tags and access list are those of the file, in its order |
| `LoadedRecords.LoadedObjects` | src/configmgr/configmgr-configuration.cpp:143-181 | overrides are exactly the known keys of the file with their values, options those of its profile; the validity in the file is ignored |
| `ConfigRuns.CallKeepsSound` | src/configmgr/configmgr-configuration.cpp:769-996 | every method and property call, also one that throws, keeps the access list distinct, the override keys unique and typed by the schema, and validity in step with the options |
| `ConfigRuns.SetKeepsGood` | src/configmgr/configmgr-configuration.cpp:944-981 | setting an override, accepted or refused, leaves unique, known, schema typed, filtered overrides |
| `ConfigRuns.ReloadKeepsSound` | src/configmgr/configmgr-configuration.cpp:91-181 | a reloaded configuration is sound and has the same overrides as a set |
| `ConfigRuns.NewProfileIsSound` | src/configmgr/configmgr-configuration.cpp:28-88 | every fresh import is orderly, and starts a sound world if and only if the lexer reads back its bare option names |
| `ConfigRuns.StepKeepsSound` | src/configmgr/configmgr-configuration.cpp:184-301 | every authorised or refused call, ownership transfer and restart keeps the world sound |
| `ConfigRuns.RunIsSound` | src/configmgr/configmgr-configuration.cpp:91-181 | so does every run of them |
| `ConfigRuns.StepKeepsOrderly` | src/configmgr/configmgr-configuration.cpp:184-301 | whatever the profile and the file: every event keeps the access list distinct, override keys unique, known and filtered, and the validity flag in step with the options |
| `ConfigRuns.RunIsOrderly` | src/configmgr/configmgr-configuration.cpp:91-181 | so does every run from any imported profile, with any file content, and without any assumption on the lexer |
| `ConfigRuns.ExportOfReload` | src/configmgr/configmgr-configuration.cpp:585-632 | the record survives a restart unchanged if and only if the restart does not change validity; always for a valid profile |
| `ConfigRuns.ClientSettingsSurviveRestart` | src/configmgr/configmgr-configuration.cpp:143-173 | the client ends with the same settings, each of its own override, whatever order a restart puts the overrides in |
| `ConfigRuns.FailedCallEffect` | src/configmgr/configmgr-configuration.cpp:769-981 | a call that throws changes nothing, if and only if it is not SetOverride on a key that is set |
| `ConfigRuns.SuccessfulCallSyncs` | src/configmgr/configmgr-configuration.cpp:660-673 | every call that returns normally leaves the file equal to the export, if the call writes it or it was equal before |
| `RecordRuns.WhoMayCall` | src/configmgr/configmgr-configuration.cpp:184-301 | who is granted which call, decided by owner, access list, public access, seal and lock as the exported record shows them; in particular the service account may always fetch |
| `RecordRuns.CallOnRecord` | src/configmgr/configmgr-configuration.cpp:769-996 | every call replaces exactly the member it names in the exported record, by exactly this value, and returns normally exactly when the record says so |
| `RecordRuns.RecordOfReload` | src/configmgr/configmgr-configuration.cpp:91-181 | a reload changes nothing in the record of a sound configuration but the validity, which is computed anew |
| `RecordRuns.ImportedRecord` | src/configmgr/configmgr-configuration.cpp:28-88 | the record and the file of a freshly imported profile, member by member |
| `RecordRuns.CallsOnRecords` | src/configmgr/configmgr-configuration.cpp:184-301 | in every run, with any profile and any file, the exported record and the file move with each call and transfer exactly as a machine on records alone says |
| `RecordRuns.RunOnRecords` | src/configmgr/configmgr-configuration.cpp:91-181 | so they do with each restart, as long as only this program has written the file |
| `PersistentFile.RestartSyncs` | src/configmgr/configmgr-configuration.cpp:91-181 | after a restart the file is in step if and only if its validity flag agrees with the options it stores |
| `PersistentFile.FileInStep` | src/configmgr/configmgr-configuration.cpp:660-673 | in every run the file of a persistent configuration equals its export if and only if no set override was dropped by a refusal since the last write or restart and the last restart, with nothing written since, did not flip validity |
| `ConfigRuns.DroppedOverrideDesyncs` | src/configmgr/configmgr-configuration.cpp:954-981 | after a refused SetOverride on a set key the old value is gone in memory and still in the file |
| `ConfigRuns.DroppedOverrideReturns` | src/configmgr/configmgr-configuration.cpp:91-181 | the next restart brings that value back |
| `NonOwners.NonOwnerCall` | src/configmgr/configmgr-configuration.cpp:184-301 | a call of a non-owner changes at most the session transfer and DCO flags, the use counters and the validity flag, and removes the configuration only by a permitted single use |
| `NonOwners.NonOwnerEvent` | src/configmgr/configmgr-service.cpp:393-438 | an event of a non-owner changes the owner if and only if it is a transfer to another uid by someone on the access list, root, or anyone under public access; a transfer changes nothing else |
| `NonOwners.Takeover` | src/configmgr/configmgr-service.cpp:393-438 | whoever may transfer takes the configuration over and removes it, file and all, in two events |
| `ConfigRuns.SealedCall` | src/configmgr/configmgr-configuration.cpp:184-301 | an authorised call on a sealed configuration changes nothing but the fetch counters |
| `ConfigRuns.SealedStep` | src/configmgr/configmgr-configuration.cpp:184-301 | one event keeps a sealed configuration sealed, valid, in step with its file and frozen, or removes it |
| `ConfigRuns.SealedForever` | src/configmgr/configmgr-configuration.cpp:184-301 | over every run of calls and restarts a sealed configuration stays sealed and valid and its record changes only in owner, used_count and last_used_timestamp |
| `ConfigRuns.SealSeals` | src/configmgr/configmgr-configuration.cpp:916-923 | sealing succeeds iff the profile is valid and starts that regime |
| `ConfigurationObject.Configuration.Import` | src/configmgr/configmgr-configuration.cpp:28-88 | the import constructor: the new profile with its validity, and the file written when persistent |
| `ConfigurationObject.Load` | src/configmgr/configmgr-configuration.cpp:91-181 | the reload constructor: succeeds exactly when the record can be loaded, with that result, and leaves an orderly configuration |
| `ConfigurationObject.FillIn` | src/configmgr/configmgr-configuration.cpp:128-181 | the list members of a record and the recomputed validity; orderly whatever the record holds |
| `ConfigurationObject.GrantAll` | src/configmgr/configmgr-configuration.cpp:138-141 | the access list loop grants in order and fails exactly on a bad or repeated uid |
| `ConfigurationObject.SetPersisted` | src/configmgr/configmgr-configuration.cpp:143-173 | the override loop of the reload, key by key, up to the first bad value |
| `ConfigurationObject.Configuration.ExportOverrides` | src/configmgr/configmgr-configuration.cpp:619-631 | the overrides as an object, a later one of the same key replacing an earlier one |
| `ConfigurationObject.Configuration.ExportTags` | src/configmgr/configmgr-configuration.cpp:593-601 | the filtered tags as an array, nothing when there are none |
| `ConfigurationObject.Configuration.ExportAcl` | src/configmgr/configmgr-configuration.cpp:614-617 | the access list as an array, nothing when empty |
| `ConfigurationObject.Configuration.Export` | src/configmgr/configmgr-configuration.cpp:585-632 | the loops build the record of the current state |
| `ConfigurationObject.Configuration.UpdatePersistentFile` | src/configmgr/configmgr-configuration.cpp:660-673 | the file of a persistent configuration becomes its export, any other is not touched |
| `ConfigurationObject.Configuration.CheckForTag` | src/configmgr/configmgr-configuration.hpp:152-155 | the position of the tag, or the number of tags |
| `ConfigurationObject.Configuration.AddTag` | src/configmgr/configmgr-configuration.cpp:769-792 | appends a new tag of 1 to 128 characters and writes the file; throws without effect otherwise |
| `ConfigurationObject.Configuration.RemoveTag` | src/configmgr/configmgr-configuration.cpp:795-820 | removes a listed tag and writes the file; throws without effect otherwise |
| `ConfigurationObject.Configuration.RemoveOverrideKey` | src/configmgr/configmgr-configuration.cpp:984-996 | removes the first override of the key, reporting whether there was one |
| `ConfigurationObject.Configuration.PutOverrideValue` | src/configmgr/configmgr-configuration.hpp:224-240 | drops the previous value of a key and appends the new one |
| `ConfigurationObject.Configuration.SetOverrideVariant` | src/configmgr/configmgr-configuration.cpp:944-981 | unknown key, wrong type and success, including what is left behind by a refusal |
| `ConfigurationObject.Configuration.SetOverrideMethod` | src/configmgr/configmgr-configuration.cpp:823-850 | the D-Bus call: filtered key, then the file |
| `ConfigurationObject.Configuration.UnsetOverrideMethod` | src/configmgr/configmgr-configuration.cpp:852-871 | removes a set override and writes the file; throws when it is not set |
| `ConfigurationObject.Configuration.AccessGrantMethod` | src/configmgr/configmgr-configuration.cpp:874-892 | grants and writes the file, or throws without effect |
| `ConfigurationObject.Configuration.AccessRevokeMethod` | src/configmgr/configmgr-configuration.cpp:895-913 | revokes and writes the file, or throws without effect |
| `ConfigurationObject.Configuration.SealMethod` | src/configmgr/configmgr-configuration.cpp:916-923 | seals a valid profile and writes the file |
| `ConfigurationObject.Configuration.ValidateMethod` | src/configmgr/configmgr-configuration.cpp:330-340 | recomputes validity and throws iff the profile is rejected |
| `ConfigurationObject.Configuration.RemoveMethod` | src/configmgr/configmgr-configuration.cpp:926-941 | the object and its file are gone |
| `ConfigurationObject.Configuration.FetchMethod` | src/configmgr/configmgr-configuration.cpp:342-416 | only the backend client counts: a single-use profile is removed, any other has its counters moved and its file written |
| `ConfigurationObject.Configuration.Authorize` | src/configmgr/configmgr-configuration.cpp:184-301 | who may call what, with the read-only and locked-down rules |
| `ConfigurationObject.Configuration.Dispatch` | src/configmgr/configmgr-configuration.cpp:328-575 | each call has the effect and the outcome its specification gives and keeps the configuration orderly |
| `ConfigurationObject.Configuration.Handle` | src/configmgr/configmgr-configuration.cpp:184-301 | an authorised call is performed, a refused one changes nothing |
| `ConfigurationObject.Configuration.TransferOwnership` | src/configmgr/configmgr-configuration.cpp:635-646 | the new owner, written to the file |
| `ConfigurationObject.Configuration.SetNameProperty` | src/configmgr/configmgr-configuration.hpp:258-287 | the property, written to the file |
| `RequestQueue.RequiresQueue.ClearAll` | src/common/requiresqueue.cpp:174-188 | slots and counters are gone |
| `RequestQueue.RequiresQueue.RequireAdd` | src/common/requiresqueue.cpp:191-208 | a pending slot with the group's next id, the counter moved on by one modulo 2^32 |
| `RequestQueue.RequiresQueue.QueueFetch` | src/common/requiresqueue.cpp:211-246 | the first slot with this type, group and id, without its value; throws iff there is none or it is provided |
| `RequestQueue.RequiresQueue.UpdateEntry` | src/common/requiresqueue.cpp:249-283 | fills the named slot with the filtered value before the callback runs; throws without effect, or when the callback fails, after the value is stored |
| `RequestQueue.RequiresQueue.ProvideResponse` | src/common/requiresqueue.cpp:286-306 | refuses an empty value, otherwise updates and runs the callback |
| `RequestQueue.RequiresQueue.ResetValue` | src/common/requiresqueue.cpp:309-323 | clears the named slot, or throws and changes nothing |
| `RequestQueue.RequiresQueue.GetResponse` | src/common/requiresqueue.cpp:345-361 | the value of the first slot of that name; throws iff there is none or it is not provided |
| `RequestQueue.RequiresQueue.QueueCount` | src/common/requiresqueue.cpp:364-376 | the size of the group as a 32 bit number |
| `RequestQueue.RequiresQueue.QueueCheckTypeGroup` | src/common/requiresqueue.cpp:379-409 | each group with a missing value once, in order of first appearance |
| `RequestQueue.RequiresQueue.QueueCheck` | src/common/requiresqueue.cpp:434-449 | the ids of the group that still need a value, in slot order |
| `RequestQueue.RequiresQueue.QueueAllDone` | src/common/requiresqueue.cpp:466-476 | iff every slot is provided |
| `RequestQueue.RequiresQueue.QueueDone` | src/common/requiresqueue.cpp:479-482 | iff no slot of the group is pending |
| `RequestQueue.PendingGroupsElements` | src/common/requiresqueue.cpp:379-409 | the listed groups are distinct and are exactly those with a missing value |
| `RequestQueue.GroupsInOrder` | src/common/requiresqueue.cpp:379-409 | groups are listed in the order of their first missing values |
| `RequestQueue.QueriesAgree` | src/common/requiresqueue.cpp:379-482 | everything done, no group listed, and no ids in any group are equivalent |
| `RequestQueue.IndexIsInjective` | src/common/requiresqueue.hpp:416-420 | type*100+group separates all enumerators, and does not separate larger codes |
| `RequestQueue.RunIsNumbered` | src/common/requiresqueue.cpp:174-323 | over every run of add, update, reset and clear each group holds ids 0, 1, 2, ... in insertion order and its counter equals its size |
| `RequestQueue.IdNamesOneSlot` | src/common/requiresqueue.cpp:191-208 | in a group of at most 2^32 slots an id names one slot |
| `RequestQueue.UpdateFillsNamedSlot` | src/common/requiresqueue.cpp:249-283 | so an update fills exactly the pending slot it names and leaves every other slot alone |
| `RequestQueue.AddedSlot` | src/common/requiresqueue.cpp:191-208 | what is required comes in last, as described, without a value, and is what its id names |
| `RequestQueue.UpdateSucceedsIff` | src/common/requiresqueue.cpp:249-283 | a value is accepted exactly by the first slot of that id while it has none, filtered, and changes nothing else |
| `RequestQueue.ResetSucceedsIff` | src/common/requiresqueue.cpp:309-323 | a reset succeeds exactly when there is such a slot and clears the first one |
| `RequestQueue.ResponseOfFirst` | src/common/requiresqueue.cpp:345-361 | a lookup by name gives the value of the first slot of that name and fails exactly while that has none |
| `RequestQueue.ResponseAfterUpdate` | src/common/requiresqueue.cpp:249-361 | a provided value is what a lookup by name returns, filtered |
| `RequestQueue.ResetUndoesUpdate` | src/common/requiresqueue.cpp:249-323 | resetting a slot restores the queue as it was before the update |
| `RequestQueue.PendingIsEmpty` | src/common/requiresqueue.cpp:174-323 | in every run a slot without a value has an empty text |
| `FrontEnd.QueueFetchAll` | src/dbus/requiresqueue-proxy.hpp:160-176 | never throws; the views of exactly the pending slots of the group, in order |
| `FrontEnd.AnswerGroup` | src/ovpn3cli/commands/session/helpers.cpp:112-168 | the inner loops: answers the pending slots of one group in order, up to the first answer whose callback fails |
| `FrontEnd.QueryUserInput` | src/ovpn3cli/commands/session/helpers.cpp:99-175 | one pass over the groups equals answering the missing credentials in pass order until a callback fails |
| `FrontEnd.PassOrderElements` | src/ovpn3cli/commands/session/helpers.cpp:99-175 | going group by group a pass asks for every missing credential, each once |
| `FrontEnd.AnsweredEverywhere` | src/ovpn3cli/commands/session/helpers.cpp:99-175 | a pass whose callbacks do not fail raises nothing and leaves exactly the queue in which each missing credential has its answer |
| `FrontEnd.PassStoresAnswers` | src/ovpn3cli/commands/session/helpers.cpp:99-175 | after a pass each missing credential holds the filtered answer to its own question as it was fetched, and every other slot is as it was |
| `FrontEnd.PassCompletes` | src/ovpn3cli/commands/session/helpers.cpp:99-175 | the pass ends with everything provided if and only if every missing value is a credential and got a non-empty answer |
| `FrontEnd.PassReducesMissing` | src/ovpn3cli/commands/session/helpers.cpp:99-175 | the number of missing values never rises and stays the same if and only if nothing was answered |
| `ClientPass.PassWithClient` | src/ovpn3cli/commands/session/helpers.cpp:99-175 | with a client object installed a pass over a queue ends in an error if and only if the first pending authentication is unanswered and the first value given is for something else; then exactly that value is stored, otherwise everything is answered |
| `ClientPass.PassInSession` | src/ovpn3cli/commands/session/helpers.cpp:99-175 | the same for every state of every session run, with each value sent as a D-Bus call whose authorisation may drop the client object first |
| `CoreEvents.ParseCrText` | src/client/core-client.hpp:68-93 | the token loop over a CR_TEXT request computes flags, text and validity |
| `CoreEvents.CrTextRoundTrip` | src/client/core-client.hpp:68-93 | a composed request is read back: flags exactly, text up to its first non-empty piece; rejected iff the text is only colons |
| `CoreEvents.ParsePendingTimeout` | src/client/core-client.hpp:378-398 | the token loop yields the last token after the word timeout, one hour without it |
| `CoreEvents.TimeoutFoldIsLast` | src/client/core-client.hpp:378-398 | because every token after the first timeout overwrites the value |
| `CoreEvents.TimeoutIsRead` | src/client/core-client.hpp:378-398 | one hour without the word timeout; a number after it is the timeout, as a 32 bit number |
| `CoreEvents.CoreVpnClient.OnDynamicChallenge` | src/client/core-client.hpp:341-377 | question slot, cookie slot, cookie filled in, then the callback; the status only moves when it does not fail |
| `CoreEvents.CoreVpnClient.OnProxyNeedCreds` | src/client/core-client.hpp:399-420 | the two proxy credential slots and the status |
| `CoreEvents.CoreVpnClient.OnInfo` | src/client/core-client.hpp:425-487 | web authentication, challenge text and plain information |
| `CoreEvents.CoreVpnClient.Event` | src/client/core-client.hpp:331-648 | the whole event handler against the reaction it specifies: new client, queue, status sent and exception |
| `EventRuns.OneEvent` | src/client/core-client.hpp:331-648 | what any single event may do to flags and status |
| `EventRuns.NoReconnectBeforeConnected` | src/client/core-client.hpp:532-549 | over every event sequence no reconnecting status before the first CONNECTED |
| `EventRuns.NoDisconnectAfterFailure` | src/client/core-client.hpp:632-643 | no disconnected status after an event that sets failed_signal_sent |
| `EventRuns.FlagIsHistory` | src/client/core-client.hpp:331-648 | failed_signal_sent is set if and only if an earlier event was one of those that set it, told from the events alone |
| `EventRuns.DisconnectIsSent` | src/client/core-client.hpp:632-643 | a DISCONNECTED event sends its status if and only if no earlier event set the flag and the client is not waiting for the user |
| `EventRuns.StatusIsLastSent` | src/client/core-client.hpp:331-662 | run_status is the last status sent, except exactly after an authentication challenge |
| `EventRuns.DisconnectAfterReportedFailure` | src/client/core-client.hpp:624-643 | after a reported failure a disconnected status follows if and only if every failure so far was a CLIENT_HALT and the client is not waiting for the user |
| `EventRuns.HaltIsFollowedByDisconnect` | src/client/core-client.hpp:624-643 | in every run a DISCONNECTED right after a CLIENT_HALT sends its status when nothing was flagged before |
| `EventStatuses.KindByPrefix` | src/client/core-client.hpp:429-487 | which INFO texts send the user to a web page and which ask for a text, by their prefixes |
| `EventStatuses.SentIff` | src/client/core-client.hpp:331-662 | for every status: sent by exactly these events, told from the event, the flags and status of the client and whether the event throws |
| `EventStatuses.OnlyChallengesThrow` | src/client/core-client.hpp:341-377 | no event but a dynamic challenge throws |
| `EventStatuses.SentInRun` | src/client/core-client.hpp:331-662 | the same over every run of one client object, told from the events and what was sent before |
| `EventStatuses.ConnectedAt` | src/client/core-client.hpp:523-531 | a connected status is sent exactly at the CONNECTED events and stays until another one is sent |
| `Questions.EventAsks` | src/client/core-client.hpp:341-487 | an event asks the user exactly its own questions, with their texts and whether the answer is hidden |
| `Questions.ClientAsks` | src/client/openvpn3-service-client.cpp:1277-1350 | initialising a client asks for the login once, the static challenge every time, and a missing passphrase |
| `Questions.AskedInRun` | src/client/openvpn3-service-client.cpp:475-830 | in every run the user is asked exactly what its steps ask, in order, and each question of the login at most once |
| `ClientSession.InitializedComplete` | src/client/openvpn3-service-client.cpp:1277-1350 | initialising keeps every non-empty credential group complete |
| `ClientSession.EventComplete` | src/client/core-client.hpp:341-487 | so does every Core event |
| `ClientSession.StepComplete` | src/client/openvpn3-service-client.cpp:475-830 | so does every D-Bus call and event |
| `ClientSession.RunComplete` | src/client/openvpn3-service-client.cpp:475-830 | in every run a non-empty credential group holds all names that are read from it |
| `ClientSession.CredsAreFound` | src/client/openvpn3-service-client.cpp:959-1021 | with complete groups and everything provided, no read in connect() fails |
| `ClientSession.ConnectPassesAllReads` | src/client/openvpn3-service-client.cpp:801-821 | in every run a Connect call past the gate starts the client if and only if initialising succeeded, everything is provided and the Core library does not refuse the credentials; no read by name fails |
| `ClientSession.FirstSettledLook` | src/client/openvpn3-service-client.cpp:746-797 | of at most six looks the first that finds the connection settled decides what Connect does |
| `Credentials.StartedWith` | src/client/openvpn3-service-client.cpp:940-1080 | a Connect call that starts the client sets up a new client object, reads the passphrase, and hands over each credential from its own slot; what was not asked for stays |
| `Credentials.ValueWasGiven` | src/common/requiresqueue.cpp:249-283 | in every run each provided value, a cookie excepted, is the filtered one that the front-end gave for that very slot |
| `Credentials.StartedInRun` | src/client/openvpn3-service-client.cpp:940-1021 | in every run the credentials of a started client are, field by field, the values the user gave under those names |
| `Credentials.RefusedIff` | src/client/openvpn3-service-client.cpp:1023-1031 | when the Core library refuses, a call that would have started the client throws if and only if there are credentials; no client is started |
| `CredentialScenarios.ProxyReachesConnect` | src/client/openvpn3-service-client.cpp:1010-1021 | a proxy asking for credentials, from start to end: the client gets that proxy user and that proxy password and nothing else |
| `CredentialScenarios.PasswordReachesConnect` | src/client/openvpn3-service-client.cpp:985-995 | a login with a password alone: the client gets the user name of the profile and that password |
| `SessionSteps.InitializeOutcome` | src/client/openvpn3-service-client.cpp:1122-1350 | exactly when initialising succeeds, and which client object and passphrase it leaves behind when it does not |
| `SessionSteps.RegistersIff` | src/client/openvpn3-service-client.cpp:668-723 | a registration succeeds once, with the right token and a profile that can be set up; failing is final too |
| `SessionSteps.ValueIsOnlyStored` | src/client/openvpn3-service-client.cpp:279-300 | without a pending authentication a value is stored and nothing is sent; it throws exactly when it is empty or no slot waits for it |
| `SessionSteps.ChallengeRepeatsReply` | src/client/core-client.hpp:341-377 | a dynamic challenge after an answered pending authentication sends that answer once more |
| `SessionSteps.OlderClientIsIgnored` | src/client/core-client.hpp:331-662 | an event of a replaced client object leaves the current one alone |
| `SessionSteps.CallsDropClient` | src/client/openvpn3-service-client.cpp:479-563 | any call after an event finds the client object gone exactly when its connection has ended, failed or waits for the user |
| `ClientSession.InitializeAddsNothing` | src/client/openvpn3-service-client.cpp:1277-1350 | initialising again leaves the queue alone exactly when the profile asks for nothing more, and appends an unprovided slot otherwise |
| `ClientSession.ConnectProgress` | src/client/openvpn3-service-client.cpp:801-821 | with everything provided, Connect past the gate starts the client if and only if the profile asks for nothing more and the credentials are not refused |
| `ClientSession.StaticChallengeBlocks` | src/client/openvpn3-service-client.cpp:1312-1319 | with a static challenge and no autologin no Connect call starts the client |
| `ClientSession.EmptyPassphraseBlocks` | src/client/openvpn3-service-client.cpp:1137-1144 | nor with a required passphrase that is read as empty |
| `KeyPassphrase.EmptyPassphraseBlocksForever` | src/client/openvpn3-service-client.cpp:1137-1144 | in every run, once the passphrase was answered with nothing but control characters, no Connect call starts the client as long as the profile needs it |
| `ConnectGate.AuthFailedBlocksConnect` | src/client/openvpn3-service-client.cpp:783-797 | in every run, from AUTH_FAILED on each Connect returns normally without doing anything until an event of the client moves the status; DISCONNECTED does not |
| `ConnectGate.ConnectOutcome` | src/client/openvpn3-service-client.cpp:746-797 | exactly when Connect sets up a new client, throws, or returns without effect, by registration, client object and run status |
| `ConnectGate.BlockedStep` | src/client/openvpn3-service-client.cpp:746-797 | a step ends the state after a failed authentication if and only if it is one of the listed events of the current client, told from the event, the queue and whether it has been connected |
| `LoginScenario.LoginReachesConnect` | src/client/openvpn3-service-client.cpp:942-1115 | the run registration, both values, Connect: the client starts with exactly the user name and password that were provided, filtered |
| `ConnectGate.SessionAssignedOnce` | src/client/openvpn3-service-client.cpp:668-723 | a client process assigns its log session at most once |
| `CredentialGroups.ResponseInGroup` | src/common/requiresqueue.cpp:345-361 | a lookup by name sees only the slots of its group |
| `CredentialGroups.ChallengeSlots` | src/client/core-client.hpp:341-377 | a challenge appends its pending question and its filled cookie |
| `DynamicChallenges.RunKeepsPairs` | src/client/core-client.hpp:341-377 | in every run the dynamic challenge slots are question and cookie of each received challenge, in order of arrival |
| `DynamicChallenges.SameChallenge` | src/client/openvpn3-service-client.cpp:997-1008 | the cookie and response read by connect() belong to the same server challenge, however many arrived: always the first |
| `AuthPending.ForwardedIs` | src/client/openvpn3-service-client.cpp:285-300 | the callback does nothing without a client or a pending authentication, sends the first reply if there is one, and fails otherwise |
| `AuthPending.DynamicChallengeThrows` | src/client/core-client.hpp:341-377 | in every run a dynamic challenge throws out of the event handler if and only if a client object is installed and the first pending authentication is unanswered; question and cookie are stored either way, and then no status is sent and the run status stays |
| `AuthPending.ChallengeMovesIff` | src/client/core-client.hpp:341-377 | a dynamic challenge moves the status after a failed authentication if and only if it was decoded and no pending authentication is unanswered |
| `PendingScenario.ConnectIgnoredWithNothingMissing` | src/client/openvpn3-service-client.cpp:746-821 | a run in which such a challenge and the pending authentication are both answered, nothing is missing, and Connect still returns without doing anything |
| `AuthPending.OnlyFirstReplyIsSent` | src/client/openvpn3-service-client.cpp:285-300 | in every run every reply sent to the server is the one given for the first pending authentication |
| `AuthPending.EachValueRepeatsReply` | src/client/openvpn3-service-client.cpp:285-300 | each value provided for anything sends that reply once more, or fails while there is none |
| `AuthPending.SecondReplyIsLost` | src/client/openvpn3-service-client.cpp:285-300 | the answer to a second challenge is stored and the first reply is sent in its place |
| `BackendClient.WaitForGate` | src/client/openvpn3-service-client.cpp:746-797 | the bounded retry loop: at most six looks, then a time-out |
| `BackendClient.BackendClientObject.Authorize` | src/client/openvpn3-service-client.cpp:479-563 | any authorised call first drops a client whose connection ended |
| `BackendClient.BackendClientObject.RequireLogin` | src/client/openvpn3-service-client.cpp:1281-1310 | the login slots are asked for once per process |
| `BackendClient.BackendClientObject.RequireInputs` | src/client/openvpn3-service-client.cpp:1277-1350 | login, static challenge and passphrase slots for the evaluated profile |
| `BackendClient.BackendClientObject.InitializeClient` | src/client/openvpn3-service-client.cpp:1121-1351 | all outcomes of initialize_client on client, key password and queue; groups stay complete |
| `BackendClient.BackendClientObject.ReadLogin` | src/client/openvpn3-service-client.cpp:959-995 | user name, password and static response, or failure |
| `BackendClient.BackendClientObject.ReadChallenge` | src/client/openvpn3-service-client.cpp:997-1008 | cookie and response of the dynamic challenge, or failure |
| `BackendClient.BackendClientObject.ReadProxy` | src/client/openvpn3-service-client.cpp:1010-1021 | the proxy credentials, or failure |
| `BackendClient.BackendClientObject.Connect` | src/client/openvpn3-service-client.cpp:942-1115 | all credentials in this order, handed to the Core library if any were asked for, then the client thread; fails exactly when a read fails or the library refuses |
| `BackendClient.BackendClientObject.Launch` | src/client/openvpn3-service-client.cpp:815-821 | refuses while something is missing; otherwise no read fails, by the completeness invariant |
| `BackendClient.BackendClientObject.CbConnect` | src/client/openvpn3-service-client.cpp:726-822 | the whole Connect call: registration, gate, initialisation, check and start |
| `BackendClient.BackendClientObject.CbRegistrationConfirmation` | src/client/openvpn3-service-client.cpp:668-723 | once only, with the right token; the flag stays set when initialising fails |
| `BackendClient.BackendClientObject.UserInputProvide` | src/client/openvpn3-service-client.cpp:279-300 | the value is stored before the pending authentication callback runs |
| `BackendClient.BackendClientObject.ClientEvent` | src/client/core-client.hpp:331-648 | an event of the current or of a replaced client object on the shared queue, with the callback it may run |
| `LogAttachments.ServiceHandler.FindEntry` | src/log/log-service.cpp:623-632 | the first index entry with this hash in key order, if any |
| `LogAttachments.ServiceHandler.RemoveLogSubscription` | src/log/log-service.cpp:608-659 | throws iff the hash is not attached; otherwise service and first index entry go, and the idle flag is set when nothing is left |
| `LogAttachments.ServiceHandler.CleanupServiceSubscriptions` | src/log/log-service.cpp:685-723 | removes exactly the services that left the bus; no removal misses, and the order does not matter |
| `LogAttachments.ServiceHandler.MethodAttach` | src/log/log-service.cpp:387-438 | cleanup first; refused for an unknown caller or a taken hash; otherwise attached and the idle flag cleared |
| `LogAttachments.ServiceHandler.MethodAssignSession` | src/log/log-service.cpp:441-456 | the index entry in any case; the object path exactly for an attached caller |
| `LogAttachments.ServiceHandler.MethodDetach` | src/log/log-service.cpp:459-511 | access check, cleanup, then removal |
| `LogAttachments.ServiceHandler.MethodProxyLogEvents` | src/log/log-service.cpp:532-550 | the service of the session, or the exception |
| `LogAttachments.StepKeepsSound` | src/log/log-service.cpp:387-511 | each attachment under its own tag's hash; idle flag disabled iff nothing is attached |
| `LogAttachments.RunIsSound` | src/log/log-service.cpp:220-511 | both hold in every run, for any hash function |
| `LogAttachments.DetachIsOwn` | src/log/log-service.cpp:459-511 | Detach removes only the caller's service and vanished ones, and succeeds exactly for an attached caller on the bus |
| `LogAttachments.AttachIsExact` | src/log/log-service.cpp:387-438 | Attach succeeds exactly for a caller on the bus whose hash no other live process holds, follows that caller, and otherwise only cleans up |
| `LogAttachments.AttachedAs` | src/log/log-service.cpp:387-438 | what is followed after an Attach: the caller under its filtered interface, without a session |
| `LogAttachments.CleanupIsExact` | src/log/log-service.cpp:663-723 | the clean-up removes exactly the services whose process has left the bus |
| `LogAttachments.ForeignDetachIsIgnored` | src/log/log-service.cpp:459-511 | a Detach for the service of another process changes nothing |
| `LogAttachments.AssignedIsFound` | src/log/log-service.cpp:441-456 | an assigned session is found under its path; every other path leads where it led before |
| `LogAttachments.RemovalKeepsOthers` | src/log/log-service.cpp:608-660 | a removal leaves the sessions of all other services where they are |
| `LogAttachments.DetachedIsNotFound` | src/log/log-service.cpp:459-511 | with a live index no path leads to a service that has detached |
| `LogAttachments.StaysAttached` | src/log/log-service.cpp:387-511 | over every run a service stays attached and unchanged until it detaches itself or leaves the bus |
| `LogAttachments.DropEachIsOneDrop` | src/log/log-service.cpp:685-723 | removing vanished services one after another equals removing them at once |
| `LogAttachments.RemovalIsCleanIffOneEntry` | src/log/log-service.cpp:617-637 | a removal leaves no dangling index entry if and only if every removed service has at most one entry |
| `LogAttachments.AssignKeepsIndex` | src/log/log-service.cpp:441-456 | an assignment keeps the index live if and only if the service has no other session |
| `LogAttachments.RunKeepsIndex` | src/log/log-service.cpp:441-511 | in every run in which no service gets a second session every index entry is live and is that service's session |
| `LogAttachments.IndexStaysLive` | src/log/log-service.cpp:532-550 | the same when no two assignments carry the same hash; so every indexed session finds its service |
| `LogAttachments.TagIsInjective` | src/log/logtag.cpp:31-39 | a tag tells its sender and interface, bus names having no slash |
| `LogAttachments.OneSessionPerClient` | src/log/log-service.cpp:441-456 | unless two tags assigned in the run collide it is enough that each client process is assigned at most once |
| `SessionLogs.RegistersOnce` | src/client/openvpn3-service-client.cpp:668-692 | in a run whose client processes have tags of different hashes a process that registers has not been given a session before |
| `SessionLogs.IndexLiveInSystem` | src/client/openvpn3-service-client.cpp:668-692 | in every run of any number of client processes with tags of different hashes and one log service every index entry is live: the registered flag keeps it so |
| `SessionLogs.IndexLiveIff` | src/log/log-service.cpp:441-456 | for any hash function the index is live throughout a run if and only if no process registers while the service under its hash has another live session |
| `LogAttachments.SecondSessionDangles` | src/log/log-service.cpp:617-637 | a client assigned two sessions leaves an entry behind when it detaches |
| `ConfigFile.File.ConfigureMapping` | src/common/configfileparser.cpp:437-444 | the mapping is set up once, with nothing present |
| `ConfigFile.File.Parse` | src/common/configfileparser.cpp:74-112 | the member loop fills the first entry of each known label, up to the first conversion that throws |
| `ConfigFile.File.Generate` | src/common/configfileparser.cpp:376-400 | the loop writes flag or text of every present entry, a later one of the same label replacing an earlier one |
| `ConfigFile.File.GetOptions` | src/common/configfileparser.cpp:157-174 | the options with something to report, or all |
| `ConfigFile.File.GetValue` | src/common/configfileparser.cpp:196-220 | the value of the first entry of the option; both exceptions |
| `ConfigFile.File.SetValue` | src/common/configfileparser.cpp:235-261 | flag or text; an empty text unsets; throws iff the option is unknown |
| `ConfigFile.File.UnsetOption` | src/common/configfileparser.cpp:276-292 | cleared; throws iff the option is unknown, and always before the mapping is set up |
| `ConfigFile.File.CheckExclusiveOptions` | src/common/configfileparser.cpp:295-333 | passes if and only if no named group has two entries with a value |
| `ConfigFile.UsedAtMostOnce` | src/common/configfileparser.cpp:312-332 | what the check counts per group is at most one iff no two entries of the group are used |
| `ConfigFile.File.GetRelatedExclusiveOptions` | src/common/configfileparser.cpp:336-373 | the other options of the option's group, in mapping order |
| `ConfigFile.OthersElements` | src/common/configfileparser.cpp:358-372 | those are exactly the other names with the same non-empty group |
| `ConfigFile.SetEntryReads` | src/common/configfileparser.cpp:251-260 | what was set is read back, flags by the accepted words; an empty text and a reset make the option absent |
| `ConfigFile.MemberReads` | src/common/configfileparser.cpp:80-111 | what each JSON value makes of an option, and which are refused |
| `ConfigFile.AllOptions` | src/common/configfileparser.cpp:157-174 | asking for all options lists every entry in mapping order |
| `ConfigFile.OptionsConcat` | src/common/configfileparser.cpp:157-174 | options are listed in mapping order: the list of two parts of a mapping is the list of the one and then of the other |
| `ConfigFile.OthersConcat` | src/common/configfileparser.cpp:336-373 | so are the other options of a group |
| `ConfigFile.ParseSucceedsIff` | src/common/configfileparser.cpp:80-111 | reading a file succeeds if and only if no member with a known label is a list or an object |
| `ConfigFile.StopsAt` | src/common/configfileparser.cpp:80-111 | after the first member that cannot be converted nothing more is read |
| `ConfigFile.ReplacedIsRead` | src/common/configfileparser.cpp:196-261 | changing the entry of an option changes what is read for it and for no other option |
| `ConfigFileRuns.RunIsSound` | src/common/configfileparser.cpp:74-292 | in every run of set, unset and parse, also failing ones, a flag has no text, a text no flag and what is absent neither |
| `ConfigFileRuns.ParsedAt` | src/common/configfileparser.cpp:80-111 | reading fills exactly the first entry of every label that occurs, in any member order |
| `ConfigFileRuns.RoundTrip` | src/common/configfileparser.cpp:376-400 | reading the generated JSON into a new mapping restores every entry if and only if each present entry is the first with its label |
| `ConfigFileRuns.ReachableRoundTrip` | src/common/configfileparser.cpp:74-112 | with unique labels every reachable state is restored |
| `CommandLine.ParsedArgs.RegisterOption` | src/common/cmdargparser.cpp:316-328 | the filtered value is added, the option listed once |
| `CommandLine.RegisterKeepsDistinct` | src/common/cmdargparser.cpp:316-328 | registering an option keeps the list free of duplicates |
| `CommandLine.NeverListedTwice` | src/common/cmdargparser.cpp:39-58 | over every run of registrations and imports, of any file and also failing ones, no option is listed twice |
| `CommandLine.ValuesAccumulate` | src/common/cmdargparser.cpp:316-328 | a repeated option collects its values in the order they were given, and is listed if and only if it was given |
| `CommandLine.ValueIsAppended` | src/common/cmdargparser.cpp:316-328 | after any run, imports included, a value is appended to what its option has, and no other option changes |
| `ArgumentOverride.ImportKeepsDistinct` | src/common/cmdargparser.cpp:39-58 | an import keeps the list free of duplicates whatever the file lists and also when it throws |
| `CommandLine.ParsedArgs.Remove` | src/common/cmdargparser.cpp:282-297 | the values are cleared and the first listing erased |
| `CommandLine.ParsedArgs.ImportOption` | src/common/cmdargparser.cpp:41-56 | rivals removed, own values removed, file value added; what is left when the value cannot be read |
| `CommandLine.ParsedArgs.ImportConfigFile` | src/common/cmdargparser.cpp:39-58 | the import loop, up to the first option that throws |
| `CommandLine.ParsedArgs.CheckExclusiveOptions` | src/common/cmdargparser.cpp:231-268 | the nested loops pass if and only if no group has two different listed options |
| `ArgumentOverride.ImportPresent` | src/common/cmdargparser.cpp:39-58 | the list afterwards: everything untouched in its old order, then the file's options, no duplicates |
| `ArgumentOverride.ImportValues` | src/common/cmdargparser.cpp:39-58 | the values afterwards: the file's for its options, none for their rivals, the old ones elsewhere |
| `ArgumentOverride.ImportThrows` | src/common/cmdargparser.cpp:39-58 | an import throws if and only if some option it lists has no value under that name |
| `CommandLine.OptionsElements` | src/common/configfileparser.cpp:157-174 | listed are exactly the present options that are a flag or have a text |
| `CommandLine.CheckedIsCompatible` | src/common/configfileparser.cpp:295-373 | in a file with unique names that passed its check every listed option has a value and no two are rivals |
| `CommandLine.ImportOverrides` | src/common/cmdargparser.cpp:39-58 | importing such a file never throws, sets each option to the file's value, removes its rivals and leaves all else unchanged and in order |
| `CommandLine.OnlyMemberOfGroup` | src/common/cmdargparser.cpp:39-58 | afterwards a configured option is the only listed member of its exclusive group |

## Left out

- RequestQueue.IdNamesOneSlot: needs at most 2^32 slots in the group, because the 32 bit id wraps around after that.
- FrontEnd.QueryUserInput: needs at most 2^32 slots for the same reason; interruption by a signal and a session that disappears during the pass are not modelled.
- DynamicChallenges.SameChallenge: needs fewer than 2^32 slots, because the group count the client looks at is a 32 bit number; so do Credentials.StartedInRun, SessionSteps.ChallengeRepeatsReply, AuthPending.DynamicChallengeThrows, ClientPass.PassInSession and KeyPassphrase.EmptyPassphraseBlocksForever.
- RequestQueue.RequiresQueue.UpdateEntry: the callback is a function that says whether it returns normally; sending a reply to the server is assumed to return.
- LogAttachments.ServiceHandler.MethodAssignSession: for a caller that is not attached only the index entry is promised, because the source goes on to dereference a null pointer.
- BackendClient.BackendClientObject.Connect: the DNS scope and the thread itself are not modelled.
- BackendClient.BackendClientObject.CbConnect: the status seen by each look of the retry loop is an arbitrary function, because the client thread may change it in between; the other effects of events during the wait are steps of their own.
- ConnectGate.ConnectOutcome: is stated for a status that does not change during the call.
- ConfigurationObject.Configuration.UpdatePersistentFile: writing and removing the file are assumed to succeed.
- RecordRuns.RunOnRecords: for restarts starts from a profile whose bare option names the Core lexer reads back; what a restart makes of any file is told by LoadedRecords.LoadsIff, LoadedScalars, LoadedLists and LoadedObjects.
- ConfigRuns.RunIsSound: starts from a profile whose bare option names the Core lexer reads back; what holds without that is ConfigRuns.RunIsOrderly.
- Overrides.SetOverrides: string to number conversions are arbitrary functions; the log messages are dropped.
- SessionLogs.IndexLiveInSystem: the client processes of the run have log tags of different hashes and attach before they register; SessionLogs.IndexLiveIff says exactly what is needed of the hashes.
- The configuration manager's list of objects: an ownership transfer is modelled for the one configuration it names.
- Reading the properties of a configuration and who may do so: nothing changes by it.
- D-Bus transport, value packing, signals, credential lookups, directory scanning and logging output.
- Text of JSON documents: the model starts from parsed JSON values, and real numbers are not modelled.
- Pause, Resume, Restart and Disconnect of a session beyond the authorisation step, which is the only effect they have on the modelled state.
- `string_export` and option escaping, the Core option lexer, profile evaluation and tun device handling.
- Network configuration service, device posture and AWS add-ons: mostly calls into the kernel or other services.
- `EventFilter::AllowPath`, proxies inside an attached log service, and forwarding of log events.
- Help texts, shell completion, getopt wiring, colours, time stamps and platform information.
- Real threads: events are atomic steps interleaved with calls.
