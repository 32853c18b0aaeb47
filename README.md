# garmin-mcp-ts core in Dafny

This project models the parts of the garmin-mcp-ts server and its setup script that carry
its own logic: the encrypted secret store, tool-argument handling, the client's data
shaping, error classification, and `.env` handling. It then proves properties of that model.
Network calls, the MCP transport and the library code they rely on stay outside the model.

- `Wrappers.dfy`: `Option` and `Result`.
- `Strings.dfy`: the JavaScript string operations the code uses: `trim` (with ECMA-262's whitespace set), `startsWith`, `includes`, `split` and `join` on one character, and `toLowerCase` on ASCII letters.
- `Crypto.dfy`: the key format and the record cipher of `src/utils/secure-storage.ts`.
  - Hexadecimal encoding (base16, section 8 of RFC 4648, as Node's `Buffer` writes and reads it) is defined concretely.
  - JSON, UTF-8, base64 (section 4 of RFC 4648) and AES-256-GCM (NIST SP 800-38D) are passed in as function values. The ghost predicate `Lawful` states the laws the store depends on: the round trips, the tag and ciphertext lengths, and authenticity of opening. Opening accepts a tag of 4, 8 or 12 to 16 bytes that is a prefix of the full tag, as a GCM decipher created without `authTagLength` does.
  - `encryptData` and `decryptData` are specified by `EncryptText` and `DecryptText`.
- `SecureStorage.dfy` (module `SecureStore`): `getDataDir`, and the class `SecureStorage` with its fields `dataDir`, `encryptionKey`, `keytarAvailable` and `initialized`.
  - It works against a `Host` object that holds the file system (path to content, and directories) and the one vault entry the store uses.
  - Each method is proved against a function over the store's `Status` and the host's `Disk`, and the lemmas are about those functions.
  - What the outside world decides is an `InitOracle` or a boolean parameter: whether keytar loads, whether a vault read or write throws, whether the key file can be read, and the random bytes.
- `Handlers.dfy`: `ToolHandler.handle`.
  - Argument normalisation, unknown-tool rejection, `getNumberParam` (with JavaScript `parseInt`, NaN and comparisons), and `getStringParam`.
  - The required-parameter guards of the tools listed under `ActivityIdTools`, `StringIdTools` and `DateRangeTools`, and of `list_recent_activities`, `get_body_battery`, the workout tools, `create_manual_activity`, `set_activity_name`, `set_activity_type`, `download_activity` and the two gear-link tools. The guards of the other tools are listed under "## Left out".
  - Each handler yields the client request it would issue, or the error it throws.
- `GarminClient.dfy`: the four lookup-with-default mappers, the stress statistics, the per-day body-battery summary (with its accumulation loop), the in-progress badge filter and merge (with its two loops), and the file name and type that `uploadActivity` reports.
- `Errors.dfy`: the error hierarchy of `src/utils/errors.ts` as one datatype, with `isFatalError` and `isRetryableError`.
- `SetupEnv.dfy`: `checkExistingEnv`'s credential scan, `updateEnvFile`'s rewrite, and the `onData` keystroke handler of `promptPassword` as the class `PasswordPrompt`.
- `Index.dfy`: the `console.log` and `process.stdout.write` redirection as the class `Console`, and `loadEnvironment` as the class `ProcessEnv` over `process.env`. Its config step is the corrected one of the second "## Findings" row; the step as written is `ApplyConfigAsWritten`.

The `.env` content and `config.json` are parameters: `None` stands for a file that does not exist, and the parsed configuration for what `JSON.parse` gives.

## Model

| member | source | states |
|---|---|---|
| Strings.Trim | src/utils/secure-storage.ts:183 | `trim()` removes exactly the leading and trailing whitespace: the result is the slice between them and has no whitespace at either end |
| Strings.TrimIdempotent | src/mcp/handlers.ts:498-499 | trimming a trimmed string changes nothing |
| Strings.TrimExact | scripts/setup-encryption.ts:184 | a text with known whitespace margins trims to exactly what lies between them |
| Strings.Split | src/index.ts:36-37 | `split(c)` gives at least one piece, and no piece contains `c` |
| Strings.JoinSplit | scripts/setup-encryption.ts:148-149 | joining the pieces of a split with the same separator restores the string |
| Strings.SplitRest | scripts/setup-encryption.ts:148-149 | the first piece is the text before the first separator, and the other pieces rejoined are everything after it |
| Strings.ToLower | src/garmin/client.ts:874 | `toLowerCase` keeps the length and lower-cases each ASCII capital, character by character |
| Strings.ToLowerIdempotent | src/garmin/client.ts:874 | lower-casing twice is lower-casing once |
| Crypto.Hex | src/utils/secure-storage.ts:200-201 | `toString('hex')` writes two hexadecimal digits per byte, none of them whitespace |
| Crypto.HexRoundTrip | src/utils/secure-storage.ts:236 | `Buffer.from(hex, 'hex')` decodes what `toString('hex')` (line 201) encoded |
| Crypto.HexIsTrimmed | src/utils/secure-storage.ts:183 | a hexadecimal key is unchanged by the `trim()` applied when the key file is read |
| Crypto.HexBytesStopsAtNonDigit | src/utils/secure-storage.ts:271 | hex decoding stops at the first pair that is not two digits |
| Crypto.EnvelopeFieldsOfEnvelope | src/utils/secure-storage.ts:247-266 | reading the `{iv, authTag, data}` envelope gives back its three fields |
| Crypto.EnvelopeShape | src/utils/secure-storage.ts:233-251 | under a usable key and a 12-byte IV, encryption succeeds; the envelope decodes to a 12-byte IV, a 16-byte tag and a ciphertext as long as the UTF-8 text |
| Crypto.TextRoundTrip | src/utils/secure-storage.ts:227-282 | `decryptData(encryptData(text))` under the same key is the text |
| Crypto.NoKeyNoCipher | src/utils/secure-storage.ts:228-230 | without a key, or with the empty key, both directions (here and at lines 262-264) throw 'Encryption key not initialized' |
| Crypto.DecryptionIsAuthentic | src/utils/secure-storage.ts:261-282 | decryption succeeds only under a usable key and a well-formed envelope, and only with a text whose sealing under that key and IV gives exactly the envelope's ciphertext and a full tag of which the envelope's tag is a prefix of 4, 8 or 12 to 16 bytes |
| SecureStore.GetDataDir | src/utils/secure-storage.ts:64-83 | the data directory is `garmin-mcp` joined to the platform's per-user base directory |
| SecureStore.DataDirWindows | src/utils/secure-storage.ts:69-72 | on win32 the base is `LOCALAPPDATA` when it is set and non-empty, and `home\AppData\Local` otherwise |
| SecureStore.DataDirDarwin | src/utils/secure-storage.ts:74-76 | on darwin the base is `home/Library/Application Support`, whatever the environment |
| SecureStore.DataDirOther | src/utils/secure-storage.ts:78-81 | elsewhere the base is `XDG_CONFIG_HOME` when it is set and non-empty, and `home/.config` otherwise |
| SecureStore.DataDirEndsInGarminMcp | src/utils/secure-storage.ts:69-81 | on every platform, the last path segment is `garmin-mcp` |
| SecureStore.DataDirectoryEnsured | src/utils/secure-storage.ts:123-135 | the directory exists afterwards; the `.gitignore` is written with its fixed content only when it is missing; the vault is untouched |
| SecureStore.ConsistentPreserved | src/utils/secure-storage.ts:95-118 | the new store, initialisation and reset (lines 505-508) each keep "initialised implies a key is held" |
| SecureStore.InitializeOnce | src/utils/secure-storage.ts:105-118 | after `initialize` the store is initialised and holds a key; a second call changes neither the store nor the disk; on an initialised store it is a no-op |
| SecureStore.ResetReinitializes | src/utils/secure-storage.ts:505-508 | reset clears `initialized` and `encryptionKey` and keeps `keytarAvailable`; the next `initialize` runs key resolution again |
| SecureStore.KeyPriority | src/utils/secure-storage.ts:164-193 | the key is the vault's when keytar is usable and the vault read gives a non-empty key; otherwise the trimmed key file when it exists and is readable; otherwise a newly generated key. The first two leave the disk unchanged |
| SecureStore.GeneratedKeyStored | src/utils/secure-storage.ts:198-220 | a generated key is 64 hexadecimal digits that decode to the 32 random bytes. It goes to the vault when keytar is usable and `setPassword` succeeds, and otherwise to `.encryption.key`, with nothing else changed |
| SecureStore.KeyPersists | src/utils/secure-storage.ts:164-220 | a key loaded or generated by one initialisation is the key the next initialisation after a reset finds, with no change to the disk, when keytar's availability is the same and no read fails |
| SecureStore.TokensRecord | src/utils/secure-storage.ts:345-351 | the record `saveTokens` encrypts has every token field plus `savedAt`, which is the current time |
| SecureStore.DeleteFile | src/utils/secure-storage.ts:380-397 | deletion removes that one path and keeps every other file, the directories and the vault; it is a no-op when the file is absent |
| SecureStore.StoreRoundTrip | src/utils/secure-storage.ts:289-323 | once the store holds a usable key, `encrypt` succeeds and `decrypt` of the same file returns the record, whatever the later oracles say |
| SecureStore.FreshStoreRoundTrip | src/utils/secure-storage.ts:289-323 | a store started with no vault key and no key file generates a usable key, so its records round-trip |
| SecureStore.DecryptNullCases | src/utils/secure-storage.ts:306-323 | `decrypt` gives `null` for a missing file and for any text the cipher rejects; otherwise it gives what `JSON.parse` gives, `null` when parsing throws |
| SecureStore.EncryptWithoutKey | src/utils/secure-storage.ts:289-299 | `encrypt` without a key throws 'Encryption key not initialized' and writes no file |
| SecureStore.TokensRoundTrip | src/utils/secure-storage.ts:345-359 | `loadTokens` after `saveTokens` returns every token field and `savedAt` |
| SecureStore.DeletesAreSeparate | src/utils/secure-storage.ts:380-397 | deleting the credentials keeps the tokens file, and deleting the tokens keeps the credentials file |
| SecureStore.Config | src/utils/secure-storage.ts:403-436 | the reported method is `keytar` exactly when keytar is usable and holds a key. `keyExists` then holds, or it is the key file's existence. The two `*Exist` flags are the files' existence, and the directory and platform are the store's own |
| SecureStore.MigrateOutcomes | src/utils/secure-storage.ts:458-499 | the four outcomes of migration. Without keytar or without a key, it gives false with no change. A key already in the vault gives true with no change. A failed write gives false with the key file in place. A successful write puts the key in the vault and only then removes the key file |
| SecureStore.MigrateKeepsKey | src/utils/secure-storage.ts:483-494 | if migration removes the key file, the vault holds the store's non-empty key |
| SecureStore.MigratedKeyReloads | src/utils/secure-storage.ts:458-499 | after a migration that wrote the vault, the next initialisation with a readable vault reloads the same key |
| SecureStore.MigrateTrustsExistingVaultKey | src/utils/secure-storage.ts:473-477 | a vault key found during migration is not compared with the store's key. Migration reports success although the vault holds a different key, and the next initialisation loads that other key |
| SecureStore.Host.constructor | src/utils/secure-storage.ts:95-97 | the host starts with the given disk |
| SecureStore.SecureStorage.constructor | src/utils/secure-storage.ts:95-97 | the data directory is fixed by `getDataDir`, and nothing is loaded or initialised |
| SecureStore.SecureStorage.Initialize | src/utils/secure-storage.ts:105-118 | the new store and disk are exactly what `Initialization` gives; from a consistent store, it is initialised with a key afterwards |
| SecureStore.SecureStorage.EnsureDataDirectory | src/utils/secure-storage.ts:123-135 | the disk afterwards is `DataDirectoryEnsured` of the disk before |
| SecureStore.SecureStorage.LoadKeytar | src/utils/secure-storage.ts:140-159 | `keytarAvailable` becomes whether the keytar import provides `setPassword`, and nothing else changes |
| SecureStore.SecureStorage.LoadOrGenerateKey | src/utils/secure-storage.ts:164-193 | the key and the disk are what `KeyResolution` gives |
| SecureStore.SecureStorage.GenerateNewKey | src/utils/secure-storage.ts:198-220 | the key and the disk are what `KeyGeneration` gives |
| SecureStore.SecureStorage.EncryptData | src/utils/secure-storage.ts:227-254 | the result is `EncryptText` under the store's key |
| SecureStore.SecureStorage.DecryptData | src/utils/secure-storage.ts:261-282 | the result is `DecryptText` under the store's key |
| SecureStore.SecureStorage.Encrypt | src/utils/secure-storage.ts:289-299 | initialise, then write the envelope to the named file or throw; the store, disk and outcome are `EncryptFile` |
| SecureStore.SecureStorage.Decrypt | src/utils/secure-storage.ts:306-323 | initialise, then read, decrypt and parse; the store, disk and result are `DecryptFile` |
| SecureStore.SecureStorage.SaveCredentials | src/utils/secure-storage.ts:329-331 | encrypts `{email, password}` into `garmin-credentials.enc`; after a successful save the credentials exist |
| SecureStore.SecureStorage.LoadCredentials | src/utils/secure-storage.ts:337-339 | decrypts `garmin-credentials.enc` |
| SecureStore.SecureStorage.SaveTokens | src/utils/secure-storage.ts:345-351 | encrypts the tokens with `savedAt` into `garmin-tokens.enc`; after a successful save the tokens exist |
| SecureStore.SecureStorage.LoadTokens | src/utils/secure-storage.ts:357-359 | decrypts `garmin-tokens.enc` |
| SecureStore.SecureStorage.CredentialsExist | src/utils/secure-storage.ts:365-367 | true exactly when the credentials file is on the host's disk |
| SecureStore.SecureStorage.TokensExist | src/utils/secure-storage.ts:373-375 | true exactly when the tokens file is on the host's disk |
| SecureStore.SecureStorage.DeleteCredentials | src/utils/secure-storage.ts:380-386 | the disk afterwards is `DeleteFile` of the credentials path, so the credentials no longer exist and whether the tokens exist is unchanged |
| SecureStore.SecureStorage.DeleteTokens | src/utils/secure-storage.ts:391-397 | the disk afterwards is `DeleteFile` of the tokens path, so the tokens no longer exist and whether the credentials exist is unchanged |
| SecureStore.SecureStorage.GetConfig | src/utils/secure-storage.ts:403-436 | initialises as `Initialization` does and reports `Config` |
| SecureStore.SecureStorage.MigrateKeyToVault | src/utils/secure-storage.ts:458-499 | the store, disk and result are `Migrate` |
| SecureStore.SecureStorage.GetDataDirectory | src/utils/secure-storage.ts:442-444 | the directory `getDataDir` chooses for the platform, home directory and environment given at construction |
| SecureStore.SecureStorage.IsInitialized | src/utils/secure-storage.ts:450-452 | true exactly when the store is initialised and holds a key |
| SecureStore.SecureStorage.ResetInitialization | src/utils/secure-storage.ts:505-508 | the store afterwards is `Reset` of the store before, so it is no longer initialised |
| Handlers.Get | src/mcp/handlers.ts:456 | a missing key reads as `undefined` |
| Handlers.NormalizeArgs | src/mcp/handlers.ts:16 | an object argument is used as it is; `undefined`, `null` and every other value become `{}` |
| Handlers.LeadingDigits | src/mcp/handlers.ts:467 | the length of the longest all-digit prefix |
| Handlers.ParseInt | src/mcp/handlers.ts:467 | `parseInt(s, 10)` is NaN or an integer |
| Handlers.ParseIntReadsIntString | src/mcp/handlers.ts:467 | `parseInt` reads back any integer's decimal rendering, after leading whitespace and before text that does not start with a digit |
| Handlers.ParseIntWithoutDigits | src/mcp/handlers.ts:467-470 | a string without a digit parses to NaN |
| Handlers.DecimalValueOfString | src/mcp/handlers.ts:467 | the digits of `n` read back as `n` |
| Handlers.ReadNumber | src/mcp/handlers.ts:455-473 | a number is read only from a number, or from a string that `parseInt` reads |
| Handlers.NumberParam | src/mcp/handlers.ts:449-484 | with a default, the result is always present |
| Handlers.GetNumberParam | src/mcp/handlers.ts:449-484 | the step-by-step reassignment of `num` computes `NumberParam` |
| Handlers.NumberParamDefaults | src/mcp/handlers.ts:456-473 | the default is returned for a missing or null value, for a value that is neither a number nor a string, and for a string `parseInt` cannot read |
| Handlers.NumberParamInRange | src/mcp/handlers.ts:475-483 | for `min <= max`, every number read other than NaN ends inside `[min, max]` |
| Handlers.NumberParamUnchangedInRange | src/mcp/handlers.ts:475-483 | a finite number already inside the bounds is returned unchanged |
| Handlers.NumberParamNaNPassesThrough | src/mcp/handlers.ts:456-483 | a NaN number value escapes both bounds, since every comparison with NaN is false |
| Handlers.StringParam | src/mcp/handlers.ts:487-503 | the trimmed value for a non-blank string, and the default otherwise |
| Handlers.WorkoutUpdates | src/mcp/handlers.ts:659-662 | exactly the truthy fields among `workoutName`, `description` and `workoutSegments`, with their values |
| Handlers.BuildWorkoutUpdates | src/mcp/handlers.ts:659-662 | filling `updates` field by field gives `WorkoutUpdates` |
| Handlers.HandleListRecentActivities | src/mcp/handlers.ts:248-264 | always issues `getRecentActivities` |
| Handlers.HandleByActivityId | src/mcp/handlers.ts:267-282 | throws `Parameter "activityId" is required` exactly when no activity id can be read |
| Handlers.HandleByStringId | src/mcp/handlers.ts:590-605 | throws `Parameter "<key>" is required` exactly when the string parameter is missing or blank, and otherwise sends that string |
| Handlers.HandleDateRange | src/mcp/handlers.ts:974-990 | `get_weigh_ins` (and `get_blood_pressure` at lines 1031-1047, `get_daily_steps` at 1365-1382) throws exactly when `startDate` or `endDate` is missing or blank, and otherwise sends both |
| Handlers.HandleGetBodyBattery | src/mcp/handlers.ts:528-542 | always issues `getBodyBattery`; `startDate` is the trimmed given date, or today when it is missing, blank or not a string; `endDate` is the trimmed given date, or `startDate` in those cases; with neither date given, both are today |
| Handlers.HandleCreateWorkout | src/mcp/handlers.ts:624-650 | throws exactly when the name is blank or the segments are not an array |
| Handlers.HandleUpdateWorkout | src/mcp/handlers.ts:652-672 | throws the `workoutId` error exactly when the id is missing or blank |
| Handlers.HandleScheduleWorkout | src/mcp/handlers.ts:691-710 | throws exactly when the workout id or the date is missing, and checks the workout id first |
| Handlers.HandleCreateManualActivity | src/mcp/handlers.ts:733-762 | throws exactly when the name, type or start time is blank or the duration (default 0) is not truthy; a request carries a non-blank name, type and start time and a truthy duration |
| Handlers.HandleSetActivityName | src/mcp/handlers.ts:764-780 | throws exactly when the activity id cannot be read or the name is blank |
| Handlers.HandleSetActivityType | src/mcp/handlers.ts:782-799 | throws exactly when the activity id cannot be read or the type key is blank |
| Handlers.HandleDownloadActivity | src/mcp/handlers.ts:818-836 | throws exactly when the activity id cannot be read; the format defaults to `fit` |
| Handlers.HandleGearLink | src/mcp/handlers.ts:1274-1290 | throws exactly when the gear UUID is blank or the activity id cannot be read (the link and unlink helpers at lines 1563-1578 share these checks) |
| Handlers.Dispatch | src/mcp/handlers.ts:21-235 | a known tool fails only with a parameter error |
| Handlers.Handle | src/mcp/handlers.ts:12-245 | throws `Unknown tool: <name>` exactly for names outside the `switch` |
| Handlers.HandleNormalizesArgs | src/mcp/handlers.ts:16 | every non-object argument behaves as `{}` |
| Handlers.ListRecentActivitiesParameters | src/mcp/handlers.ts:248-256 | `limit` is 1 to 100 and 10 by default, and `start` is at least 0 and 0 by default |
| Handlers.ActivityIdRequired | src/mcp/handlers.ts:267-272 | each tool needing an activity id (also lines 801-806 and 818-824) throws before any request when the id is missing or unreadable |
| Handlers.StringIdRequired | src/mcp/handlers.ts:1257-1261 | each tool of `StringIdTools` (`get_gear_stats` here; likewise `delete_blood_pressure` at 1070-1074, the date tools at 1333-1336, 1349-1352, 1421-1424, 1454-1457, 1470-1473, 1624-1628 and 1651-1655, and the tools of lines 590-720, 851-855, 1014-1018 and 1608-1612) throws `Parameter "<key>" is required` before any request when its string is missing or blank |
| Handlers.DateRangeRequired | src/mcp/handlers.ts:974-979 | `get_weigh_ins`, `get_blood_pressure` and `get_daily_steps` throw before any request when either date is missing or blank |
| Handlers.WorkoutIdRequired | src/mcp/handlers.ts:590-595 | each workout tool (also lines 607-612, 652-657, 674-679 and 691-698) throws before any request when `workoutId` is missing or blank |
| Handlers.UpdateWorkoutForwardsTruthyFields | src/mcp/handlers.ts:652-666 | `update_workout` forwards the trimmed id and exactly the truthy updatable fields, with their values |
| Handlers.UpdateWorkoutRoute | src/mcp/handlers.ts:70-71 | the `update_workout` case runs `handleUpdateWorkout` on the normalised arguments |
| Handlers.ListRecentActivitiesResponse | src/mcp/handlers.ts:257-264 | `count` is the length of `data`, which is the activities when they are an array and `[]` otherwise |
| GarminClient.LookupOr | src/garmin/client.ts:874 | the entry for the lower-cased key when the table has one, otherwise the fallback entry |
| GarminClient.LookupOrCaseInsensitive | src/garmin/client.ts:874 | the lookup ignores the case of ASCII letters |
| GarminClient.MapSportType | src/garmin/client.ts:863-875 | the table's entry for the lower-cased sport when it has one, `{1, 'running'}` for an unknown sport |
| GarminClient.MapStepType | src/garmin/client.ts:878-889 | the table's entry for the lower-cased step type when it has one, `{3, 'interval'}` for an unknown step type |
| GarminClient.MapEndCondition | src/garmin/client.ts:892-900 | the table's entry for the lower-cased condition when it has one, `{2, 'time'}` for an unknown condition |
| GarminClient.MapTargetType | src/garmin/client.ts:903-913 | the table's entry for the lower-cased target when it has one, `{1, 'no.target'}` for an unknown target |
| GarminClient.MappersCaseInsensitive | src/garmin/client.ts:874-912 | all four mappers ignore letter case |
| GarminClient.LookupAsWritten | src/garmin/client.ts:874 | as written, the lookup agrees with `LookupOr` on own entries, and yields an inherited member exactly for `constructor` and `__proto__` |
| GarminClient.MapSportTypeAsWrittenAgrees | src/garmin/client.ts:874 | on every other key, the code as written returns what `MapSportType` returns |
| GarminClient.MapSportTypeAsWrittenConstructor | src/garmin/client.ts:874 | the sport `constructor` yields the inherited `Object` constructor, where the running default is intended |
| GarminClient.KeptSamples | src/garmin/client.ts:393-396 | the kept samples all have a non-negative level, and there are no more of them than raw pairs |
| GarminClient.KeptSamplesAppend | src/garmin/client.ts:394-396 | filtering distributes over concatenation, so order is preserved |
| GarminClient.KeptSamplesMembers | src/garmin/client.ts:394-396 | a sample is kept exactly when its pair is in the input with a non-negative level |
| GarminClient.Min | src/garmin/client.ts:404 | `Math.min` is a member no greater than any element |
| GarminClient.Max | src/garmin/client.ts:403 | `Math.max` is a member no smaller than any element |
| GarminClient.SumBounds | src/garmin/client.ts:402 | the sum lies between the count times the minimum and the count times the maximum |
| GarminClient.RoundedMeanBounds | src/garmin/client.ts:402 | `Math.round(sum / n)` of values between `lo` and `hi` lies between them |
| GarminClient.StressStatistics | src/garmin/client.ts:388-421 | `stressValueCount` is the number of kept samples. With no samples all three statistics are null. Otherwise `min <= avg <= max`, with `avg = round(sum / count)` and `min` and `max` bounding every sample and being levels of samples |
| GarminClient.LevelRange | src/garmin/client.ts:467-471 | `maxLevel` and `minLevel` are a largest and a smallest level, or both null without values |
| GarminClient.FeedbackTotalAppend | src/garmin/client.ts:476-482 | the total over a concatenation is the sum of the totals |
| GarminClient.FeedbackTotalOtherKinds | src/garmin/client.ts:477-481 | entries of other types add nothing |
| GarminClient.FeedbackTotalNonNegative | src/garmin/client.ts:478-480 | non-negative feedback values give a non-negative total |
| GarminClient.AccumulateFeedback | src/garmin/client.ts:475-483 | `charged` and `drained` are the sums of `feedbackValue \|\| 0` over the CHARGED and the DRAINED entries |
| GarminClient.SummarizeDay | src/garmin/client.ts:455-496 | the complete day summary. The values are the kept samples and the count is their number. `date` is `calendarDate \|\| date`. `endLevel` is the last kept level. `startLevel` is the first kept level when `startTimestampLocal` is set. The level range is as above. `charged` and `drained` are the day's own values when truthy and the feedback sums otherwise |
| GarminClient.IsInProgressCases | src/garmin/client.ts:2090-2099 | not in progress for zero or missing progress. At the target, in progress exactly when there is a limit not yet reached by the earned number. Otherwise in progress |
| GarminClient.InProgress | src/garmin/client.ts:2101-2102 | keeps exactly the in-progress badges of the list |
| GarminClient.InProgressSingleton | src/garmin/client.ts:2101-2102 | one badge is kept exactly when it is in progress |
| GarminClient.InProgressAppend | src/garmin/client.ts:2101-2102 | the filter distributes over concatenation, so the kept badges keep their order and repetitions |
| GarminClient.LastWithId | src/garmin/client.ts:2105-2110 | the last badge of the list with the id, or none exactly when no badge has it |
| GarminClient.FillById | src/garmin/client.ts:2105-2110 | after `combined[b.badgeId] = b` for each badge, each id of the list maps to its last badge and other ids keep their entries |
| GarminClient.MergeInProgress | src/garmin/client.ts:2101-2112 | one badge per id of an in-progress badge. It is the last available one with that id, else the last earned one, and it carries that id, is in progress and comes from the inputs |
| GarminClient.AfterLastSeparator | src/garmin/client.ts:925 | `split(/[\\/]/).pop()` is the separator-free suffix after the last `/` or `\` |
| GarminClient.AfterLastDot | src/garmin/client.ts:926 | the text after the last `.` is no longer than the name and holds no `.` |
| GarminClient.AfterLastDotIsSuffix | src/garmin/client.ts:926 | it is a suffix of the name, all of it or following a `.` |
| GarminClient.AfterLastDotIsLastPiece | src/garmin/client.ts:926 | it is the last piece of `split('.')` |
| GarminClient.UploadFileName | src/garmin/client.ts:925 | the name has no separator. It is `activity.fit` for an empty path or one ending in a separator, and otherwise the suffix after the last separator |
| GarminClient.UploadFileTypeCases | src/garmin/client.ts:926 | the type is the lower-cased last piece of `split('.')`; a name without `.` is its own type |
| Errors.NewGarminAPIError | src/utils/errors.ts:3-13 | an `Error` and a `GarminAPIError` with the given code and message |
| Errors.NewAuthenticationError | src/utils/errors.ts:15-20 | code `AUTH_ERROR`, status 401, not retryable, message 'Authentication failed' by default |
| Errors.NewRateLimitError | src/utils/errors.ts:22-27 | code `RATE_LIMIT`, status 429, retryable, message 'Rate limit exceeded' |
| Errors.FatalErrorCharacterized | src/utils/errors.ts:43-48 | fatal exactly for validation errors and non-retryable API errors, authentication errors included |
| Errors.NotFatal | src/utils/errors.ts:43-48 | a retryable API error, a cache error, a plain error and a non-`Error` are not fatal |
| Errors.RetryableErrorCharacterized | src/utils/errors.ts:50-56 | retryable exactly for retryable API errors, rate-limit errors included, and for errors whose message contains `ECONNRESET` or `ETIMEDOUT` |
| Errors.NonAPIRetryable | src/utils/errors.ts:53-55 | outside the API errors, only a connection-failure message makes an error retryable |
| Errors.APIErrorFatalOrRetryable | src/utils/errors.ts:43-56 | every API error is fatal or retryable, and both exactly when it is not retryable and its message names a connection failure |
| Errors.ValidationErrorCanBeBoth | src/utils/errors.ts:45-53 | a validation error mentioning `ECONNRESET` is both fatal and retryable |
| SetupEnv.ParseLineSplitsAtFirstEquals | scripts/setup-encryption.ts:145-149 | the key is the trimmed line up to the first `=`, and the value is everything after it, trimmed, `=` included |
| SetupEnv.IgnoredLine | scripts/setup-encryption.ts:145-146 | comment lines and lines without `=` change nothing |
| SetupEnv.LaterLineOverrides | scripts/setup-encryption.ts:151-155 | an accepted later line overrides what earlier lines set |
| SetupEnv.ScannedCredentialsAcceptable | scripts/setup-encryption.ts:151-155 | a credential is taken only when non-empty and not mentioning `ENCRYPTED` |
| SetupEnv.CheckExistingEnv | scripts/setup-encryption.ts:133-162 | empty for a missing or unreadable file, and otherwise the line-by-line scan of its lines |
| SetupEnv.KeptLines | scripts/setup-encryption.ts:176-182 | every kept line is a line of the input whose trimmed text starts with none of the four `GARMIN_*=` prefixes |
| SetupEnv.KeptLinesComplete | scripts/setup-encryption.ts:176-182 | every such line of the input is kept |
| SetupEnv.KeptLinesAppend | scripts/setup-encryption.ts:176-182 | filtering distributes over concatenation, so order is preserved |
| SetupEnv.KeptContentWithout | scripts/setup-encryption.ts:176-184 | after filtering, joining and trimming, no line starts (after leading whitespace) with a removed prefix |
| SetupEnv.UpdateEnvFileShape | scripts/setup-encryption.ts:167-197 | the new content is the kept content and the two comment lines, then `GARMIN_CREDENTIALS_ENCRYPTED=true` and `GARMIN_ENCRYPTION_READY=true`, each on its own line, ending in a single `\n` |
| SetupEnv.PreambleWithoutRemovedKeys | scripts/setup-encryption.ts:176-194 | nothing before the two flag lines starts with one of the four prefixes, so each flag line occurs exactly once |
| SetupEnv.TypingAppends | scripts/setup-encryption.ts:112-116 | typing printable keys appends them to the password |
| SetupEnv.EditingKeys | scripts/setup-encryption.ts:96-111 | backspace (127 or 8) removes the last character and is ignored on an empty password; Enter (13 or 10) resolves with the password; Ctrl+C (3) aborts |
| SetupEnv.IgnoredKeys | scripts/setup-encryption.ts:93-117 | other control codes below 32, and empty chunks, change nothing |
| SetupEnv.FinishedIsFinal | scripts/setup-encryption.ts:98-111 | once resolved or aborted, no further keystroke changes anything |
| SetupEnv.PasswordPrompt.constructor | scripts/setup-encryption.ts:91 | the password starts empty |
| SetupEnv.PasswordPrompt.OnData | scripts/setup-encryption.ts:93-117 | one `data` event gives the state and echo `Keystroke` defines |
| Index.Destination | src/index.ts:19-26 | a text chunk goes to stdout exactly when its trimmed text starts with `{`, and a non-text chunk always does |
| Index.MessageReachesStdout | src/index.ts:21 | a JSON-RPC message, however indented, reaches stdout |
| Index.StrayTextReachesStderr | src/index.ts:21-23 | blank text and text not starting with `{` go to stderr |
| Index.LogLine | src/index.ts:12-15 | every `console.log` line starts with `[LOG]` |
| Index.Console.constructor | src/index.ts:17-18 | both streams start empty |
| Index.Console.Write | src/index.ts:19-26 | a redirected chunk is appended to stderr and reports true; any other chunk is appended to stdout and reports what the original writer reports |
| Index.Console.Log | src/index.ts:12-15 | `console.log` appends one `[LOG]` line to stderr and nothing to stdout |
| Index.EnvEntry | src/index.ts:37-39 | a stored entry's key and value contain no `=` and are trimmed |
| Index.EnvEntryOfPair | src/index.ts:37-39 | `key=value` stores the trimmed key and value |
| Index.EnvEntryDropsRest | src/index.ts:37 | only the text between the first and the second `=` is the value |
| Index.EnvEntryWithoutEquals | src/index.ts:37-38 | a line without `=` stores nothing |
| Index.EnvEntryEmptyKey | src/index.ts:37-38 | a line with an empty key stores nothing |
| Index.EnvEntryEmptyValue | src/index.ts:37-38 | a line with an empty value stores nothing |
| Index.LastValueForIsLast | src/index.ts:36-41 | the value found for a key comes from an entry that no later entry overrides |
| Index.StoreLastEntryWins | src/index.ts:36-41 | the last entry for a key decides its value |
| Index.StoreUnsetKey | src/index.ts:36-41 | a key no line sets keeps its earlier value, or stays absent |
| Index.StoreKeepsKeys | src/index.ts:36-41 | the loop never removes a variable |
| Index.LastLineWins | src/index.ts:34-42 | after the `.env` loop, each key has the value of the last line setting it, and every other key is unchanged |
| Index.MissingPasswordBecomesUndefined | src/index.ts:50-51 | as written, a config without a password sets `GARMIN_PASSWORD` to the string "undefined" |
| Index.ApplyConfig | src/index.ts:45-56 | the config step removes no variable and changes no other variable |
| Index.ConfigPrecedence | src/index.ts:45-51 | a value already set wins over the config's, and a missing one takes the config's when it has one |
| Index.ConfigNotConsulted | src/index.ts:45 | with both credentials set, the config is not consulted |
| Index.ConfigInventsNothing | src/index.ts:45-51 | a credential set afterwards was set before or comes from the config |
| Index.ApplyConfigAgrees | src/index.ts:45-51 | when the config supplies every missing value, the code as written and `ApplyConfig` agree |
| Index.ProcessEnv.constructor | src/index.ts:30 | `process.env` as the process starts |
| Index.ProcessEnv.LoadDotEnv | src/index.ts:34-42 | the variables afterwards are the `.env` lines applied in order, and unchanged without a file |
| Index.ProcessEnv.LoadConfig | src/index.ts:45-56 | the variables afterwards are `ApplyConfig` of those before: the corrected config step, which leaves a variable unset where the source stores "undefined" |
| Index.ProcessEnv.LoadEnvironment | src/index.ts:30-57 | the `.env` lines, then the corrected config step |

## Left out

- Network calls, login, token refresh and the MCP transport are not part of this model. Each handler yields the `ClientCall` it would send instead of awaiting the client.
- Handlers.Dispatch: a tool whose parameter handling is not listed above yields `Delegated` with its arguments, and its own defaults and guards are not modelled. Among these, guards that throw are not modelled for the reading tools `get_progress_summary`, `get_activities_by_date`, `get_hill_score`, `get_gear_activities` and `get_fitness_stats`, and for the writing tools `add_weigh_in`, `set_blood_pressure` and `add_hydration_data`. The remaining delegated tools take no required parameter.
- The response objects of the handlers, other than `list_recent_activities`, and the logging around each call are left out.
- `path.join` is modelled as concatenation with the platform's separator, for a directory without a trailing separator and a plain file name. Normalisation of `..` and doubled separators is not modelled.
- File writes, `mkdirSync` and `unlinkSync` are taken to succeed, and reading an existing `.gitignore` or data file never fails. Only the key file's read, and the vault's reads and writes, can fail in the model.
- The permission modes 0o700 and 0o600 are not recorded.
- The dynamic `import('keytar')` is a boolean: whether it loads and provides `setPassword`.
- JSON, UTF-8, base64 and AES-256-GCM are function values constrained by the `Lawful` laws, not implementations. JSON numbers are integers only.
- Crypto.DecryptionIsAuthentic: the wrong-key and tamper property is stated as authenticity. Opening releases a text only when sealing it reproduces the ciphertext and a full tag that begins with the envelope's tag. A law that every other key fails cannot hold for a 16-byte tag, so it is not stated. The decipher is created without `authTagLength`, so a truncated tag of 4, 8 or 12 to 15 bytes is accepted and only that prefix is authenticated; the lemma promises no more than that.
- The base64 text of the ciphertext is `toBase64` of the whole ciphertext. This is what `update(data, 'utf8', 'base64')` followed by `final('base64')` gives together: `final` emits no ciphertext bytes for GCM, but it can flush the last base64 characters. How the string is split between the two calls is not modelled.
- An envelope whose `iv`, `authTag` or `data` is not a JSON string is a malformed envelope. The source would hand such a value to `Buffer.from` and could throw a different error, but the result of `decrypt` (`null`) is the same.
- Concurrent calls and races between processes on the first key generation are not modelled; calls are sequential.
- `savedAt` is `new Date().toISOString()`, passed in as a string.
- `SecureStore.Config`: a `getConfig`'s own vault read is a separate parameter, and a throwing read reports the file method, as the source's `catch` does.
- Index.ProcessEnv.LoadConfig: the class runs the corrected config step `ApplyConfig`, not the step as written at src/index.ts:50-51. With `GARMIN_EMAIL` set and a config of `{}`, the source stores "undefined" for `GARMIN_PASSWORD` and the model leaves it unset. The step as written is `ApplyConfigAsWritten`, and `MissingPasswordBecomesUndefined` shows the difference.
- Index.ProcessEnv.LoadEnvironment: inherits the corrected config step from `LoadConfig`.
- Index.ApplyConfig: a config value that is not a string is coerced by `String()` when assigned to `process.env`. The model takes the config's email and password as optional strings.
- The `dotenv/config` import at src/index.ts:3 loads `.env` into `process.env` before `loadEnvironment` runs. That library is not part of this model, so the environment passed to `ProcessEnv` is taken as already including it.
- Index.Console.Write: the `encoding` and `callback` arguments are passed through unchanged and are not modelled. A write's success on stderr is not observed.
- `Strings.ToLower` lower-cases ASCII letters only; the source's `toLowerCase` also maps other scripts.
- `Strings.IsWhitespace` is the whitespace set of ECMA-262. There is no Unicode normalisation.
- JavaScript numbers are modelled as reals with NaN and both infinities. Rounding to double precision is not modelled, and `parseInt` of a very long digit string gives the exact integer.
- GarminClient.StressStatistics: sample levels are integers. `Math.round` of a non-integer average is modelled exactly as rounding half up.
- GarminClient.MergeInProgress: the result is a map from badge id to badge. The source returns `Object.values(combined)`, an array in ascending `badgeId` order; that ordering is not modelled.
- GarminClient.SummarizeDay: `feedbackValue` and the day's `charged` and `drained` are integers. `null` and `undefined` are not distinguished from absence.
- SetupEnv.Keystroke: backspace removes the last character. The source's `password.slice(0, -1)` at scripts/setup-encryption.ts:105 removes one UTF-16 code unit, so after a character outside the Basic Multilingual Plane it leaves a lone high surrogate. Dafny strings cannot hold a lone surrogate, so that case is not modelled.
- The console messages, colours and `process.exit` flow of the setup script, and the readline fallback for a non-interactive terminal, are left out.
- `src/mcp/tools.ts`, `src/utils/constants.ts`, `src/garmin/types.ts`, `src/utils/logger.ts`, `src/mcp/server.ts`, `src/garmin/simple-login.ts` and the diagnostic and test scripts are not part of this model.

## Findings

| source | as written | input that shows it | evidently intended | confidence | as-written member | corrected member |
|---|---|---|---|---|---|---|
| src/garmin/client.ts:874 (likewise 888, 899, 912) | `sportMap[sport.toLowerCase()] \|\| sportMap.running` indexes an object literal. It inherits from `Object.prototype`, so a key naming an inherited member finds that member | `mapSportType("constructor")` (or `"__proto__"`) returns the `Object` constructor (or `Object.prototype`), which has no `sportTypeId` | an unknown sport falls back to `{1, 'running'}` | not executed | GarminClient.MapSportTypeAsWrittenConstructor | GarminClient.MapSportType |
| src/index.ts:50-51 | `process.env.GARMIN_PASSWORD = process.env.GARMIN_PASSWORD \|\| config.garmin?.password` assigns `undefined` when the config lacks the value, and `process.env` stores it as the string "undefined" | `GARMIN_EMAIL` set, and `config.json` of `{}` | a missing config value leaves the variable unset, so the startup check reports the missing password | not executed | Index.MissingPasswordBecomesUndefined | Index.ConfigInventsNothing |
