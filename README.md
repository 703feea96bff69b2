# deploy-to-sfdx: the script sanitizer and the state store

This project models two parts of the deploy-to-sfdx service in Dafny and proves properties about them.

- **`lineParse`** turns the `orgInit.sh` script of a deploy request into the ordered list of commands to run, or rejects it with one error string. It splits the text into lines and trims each line. It drops blank lines and `#` comments. It appends ` --json` to `sfdx` commands. For a script that is not whitelisted, it rejects the whole script at the first line that holds a shell metacharacter, uses `-u`, or is not an `sfdx` command.
- **`redisNormal`** is the store that stands in for Redis. It holds a FIFO deploy-request queue, a pool-request queue with per-user-and-repository counts, and the completed-deployment (CDS) records. Reading a user's app names consumes that user's records. `deleteOrg` checks the username against an allow-list before it does anything.

The implementations of both are not part of this model. Their behaviour is taken from their unit tests, `test/unitTests/lineParse.test.ts` and `test/unitTests/redisNormal.test.ts`. Where the tests leave a case open, the model makes a choice of its own. Those choices are listed below and under "## Left out". Each test becomes a lemma (for the sanitizer) or a method run on a fresh store (for the store), and the general properties are proved for all inputs.

Files:

- `wrappers.dfy`: `Option`, `Result` and `Outcome`.
- `text.dfy`: JavaScript's `trim()`, and line splitting at each `\n` and each `\r`. Node's `readline` is assumed to end lines at `\n`, `\r\n` or a lone `\r`; the readline code is not part of this model. A `\r\n` pair therefore yields one extra empty line, which the sanitizer drops as blank.
- `line_parse.dfy`: the sanitizer and its general properties.
- `line_parse_cases.dfy`: one lemma per sanitizer test.
- `redis_normal.dfy`: the `Store` class and the lemmas about its specification functions.
- `redis_normal_cases.dfy`: the store tests as methods on a fresh `Store`.

Parameters stand in for what the tests leave open:

- `LineParsing.Policy.metacharacters` is the full metacharacter set. The tests only pin `>` as a metacharacter. Under the model's check order (metacharacters first), they also show that none of the 22 characters in the untrusted lines that are accepted or refused for another reason is a metacharacter (`LineParseCases.SeenPlainChars`, used by `LineParseCases.PinnedPolicy`). Every other character is left open. `DefaultPolicy` uses `>`, `|`, `;`, `&` and the backtick.
- `LineParsing.Policy.jsonOnce` says whether an `sfdx` command that already has a `--json` token is left alone.
- `Store.usernameChars` is the username allow-list. The tests only pin that every character of `sweet@you.good` is admitted and that some character of `hack@you.bad;wget` is not (`RedisNormalCases.PinnedUsernameChars`). That `;` is the refused character is an assumption of the model. `DefaultUsernameChars` holds letters, digits, `@`, `.`, `-` and `_`.
- `Store.toJson` is `Date.prototype.toJSON`.

The model makes these readings of its own:

- `-u` is recognised only as a whole whitespace-separated token, so `--targetusername` or `-uX` is not refused as a `-u` flag.
- `--json` counts as present only as a whole token.
- A command is an `sfdx` command only when `sfdx` is its first whitespace-separated token.

The model follows the tests where they show the behaviour:

- A dequeued deploy request carries its `createdTimestamp` in serialised `toJSON` form, not as the original instant (redisNormal.test.ts:32-33, 84).
- The tests fix metacharacters before the not-`sfdx` check. They do not fix the order of the `-u` check against the not-`sfdx` check, nor the order of the metacharacter check against the `-u` check. The model checks metacharacters, then `-u`, then `sfdx`.

## Model

| member | source | states |
|---|---|---|
| Text.TrimPadded | test/unitTests/lineParse.test.ts:60-70 | trimming a line padded with white space on both sides gives back exactly its content |
| Text.TrimDropsSpace | test/unitTests/lineParse.test.ts:60-70 | trimming removes only white space, and only from the two ends: the result is an infix with nothing but white space before and after it |
| Text.TrimIdempotent | test/unitTests/lineParse.test.ts:60-70 | trimming a trimmed line changes nothing |
| Text.Trim | test/unitTests/lineParse.test.ts:60-70 | a trimmed line neither starts nor ends with white space and is no longer than the input |
| Text.SplitJoin | test/unitTests/lineParse.test.ts:72-83 | splitting a script written line by line gives back those lines, in order |
| Text.JoinSplit | test/unitTests/lineParse.test.ts:72-83 | joining the lines of a script that uses `\n` breaks gives back the script |
| Text.SplitLines | test/unitTests/lineParse.test.ts:72-83 | a script always has at least one line, and no line holds a line break |
| LineParsing.CommandLines | test/unitTests/lineParse.test.ts:60-83 | every surviving line is trimmed, non-blank and not a comment, and there are no more of them than input lines |
| LineParsing.CommandLinesAppend | test/unitTests/lineParse.test.ts:85-109 | the command lines of two script parts are those of the first part followed by those of the second (source order is kept) |
| LineParsing.CommandLinesComplete | test/unitTests/lineParse.test.ts:60-83 | every line whose trimmed form is a command reaches the command list, trimmed |
| LineParsing.NonCommandIgnored | test/unitTests/lineParse.test.ts:72-83 | inserting a blank or comment line anywhere leaves the command list unchanged |
| LineParsing.ScriptNonCommandIgnored | test/unitTests/lineParse.test.ts:72-83 | inserting a blank or comment line anywhere in the script text leaves the result of `lineParse` unchanged, at both trust levels |
| LineParsing.WithJson | test/unitTests/lineParse.test.ts:85-109 | an `sfdx` command always ends up with a `--json` token; without `jsonOnce` the flag is always appended; with `jsonOnce` a line that already has a `--json` token is unchanged; any other line is unchanged |
| LineParsing.WithJsonIdempotent | test/unitTests/lineParse.test.ts:85-96 | with `jsonOnce`, adding the flag twice is the same as adding it once |
| LineParsing.Rejection | test/unitTests/lineParse.test.ts:121-145 | a line is refused exactly when it is not admissible; a metacharacter gives the metacharacter error whatever else is wrong; otherwise a `-u` token gives the multitenant error; otherwise a line that is not an `sfdx` command gets the must-start-with-sfdx error; every error ends with the offending line |
| LineParsing.Process | test/unitTests/lineParse.test.ts:50-157 | an accepted result has one entry per command line, in order, each given its JSON flag; an accepted untrusted script has only admissible commands |
| LineParsing.LineParse | test/unitTests/lineParse.test.ts:45-157 | a whitelisted script is always accepted; an accepted script yields one command per non-blank, non-comment line |
| LineParsing.WhitelistedAccepted | test/unitTests/lineParse.test.ts:45-114 | a whitelisted script is never rejected |
| LineParsing.WhitelistedLength | test/unitTests/lineParse.test.ts:50-109 | a whitelisted script yields exactly as many commands as it has non-blank, non-comment lines |
| LineParsing.OutputIsCommands | test/unitTests/lineParse.test.ts:60-83 | at both trust levels, no output line is blank or a comment, and every output line is trimmed |
| LineParsing.UntrustedAcceptedIff | test/unitTests/lineParse.test.ts:116-157 | a non-whitelisted script is accepted if and only if every one of its commands is admissible |
| LineParsing.FirstRefusalWins | test/unitTests/lineParse.test.ts:121-145 | the first refused command decides the error for the whole script, and no commands are returned |
| LineParsing.ErrorNamesFirstRefusal | test/unitTests/lineParse.test.ts:121-145 | every error is the rejection of a command whose predecessors were all admissible |
| LineParsing.WithJsonAdmissible | test/unitTests/lineParse.test.ts:147-157 | appending the JSON flag to an admissible command keeps it an `sfdx` command with no metacharacter and no `-u` |
| LineParsing.UntrustedOutputSafe | test/unitTests/lineParse.test.ts:116-157 | every command from an accepted untrusted script is an `sfdx` command that asks for JSON and has no metacharacter and no `-u` |
| LineParseCases.ReturnsBasicOneUntouched | test/unitTests/lineParse.test.ts:50-58 | a whitelisted one-line non-`sfdx` script gives back that one line unchanged |
| LineParseCases.RemovesComments | test/unitTests/lineParse.test.ts:60-70 | the comment is dropped and the indented command comes back trimmed |
| LineParseCases.RemovesEmptyLines | test/unitTests/lineParse.test.ts:72-83 | empty lines and the comment are dropped, leaving one command |
| LineParseCases.AddsJsonToSfdxCommands | test/unitTests/lineParse.test.ts:85-96 | a whitelisted `sfdx force:org:open` becomes `sfdx force:org:open --json`, after the unchanged `echo` line |
| LineParseCases.LeavesNonSfdxCommandsUntouched | test/unitTests/lineParse.test.ts:98-109 | `something force:org:open` is returned unchanged, in order |
| LineParseCases.RefusesMetacharacters | test/unitTests/lineParse.test.ts:121-127 | an untrusted non-`sfdx` line holding `>` gets the metacharacter error naming the line |
| LineParseCases.RefusesUserFlag | test/unitTests/lineParse.test.ts:129-136 | an untrusted `sfdx` line with `-u` gets the multitenant error naming the line |
| LineParseCases.RefusesNonSfdxCommands | test/unitTests/lineParse.test.ts:138-145 | an untrusted `echo` line gets the must-start-with-sfdx error naming the line |
| LineParseCases.UntrustedSfdxCommandsGetJson | test/unitTests/lineParse.test.ts:147-157 | an untrusted script of two `sfdx` lines is accepted, and both lines come back trimmed, in order, with ` --json` |
| LineParseCases.DefaultPolicyPinned | test/unitTests/lineParse.test.ts:121-157 | the default metacharacter set agrees with every sanitizer test |
| RedisNormal.SerializedLossless | test/unitTests/redisNormal.test.ts:25-33 | when `toJSON` tells instants apart, two requests with the same stored form are the same request, so storing loses nothing |
| RedisNormal.PoolCount | test/unitTests/redisNormal.test.ts:97-136 | the count of matching pool requests is at most the queue length, and it is zero exactly when no queued request matches both user and repository |
| RedisNormal.PoolCountAppend | test/unitTests/redisNormal.test.ts:119-136 | the count over two queue segments is the sum of their counts |
| RedisNormal.PoolCountAfterPut | test/unitTests/redisNormal.test.ts:119-136 | queuing a request raises the count for a config by one if it matches both user and repository, and otherwise leaves the count unchanged |
| RedisNormal.Remaining | test/unitTests/redisNormal.test.ts:68-73 | the records left after consuming a user's records hold no record of that user, all of them come from the collection, and there are no more of them |
| RedisNormal.AppNames | test/unitTests/redisNormal.test.ts:68-69 | a user with no record gets no app names (a choice of the model; see "## Left out") |
| RedisNormal.AppNamesOfConsumed | test/unitTests/redisNormal.test.ts:54-73 | the names returned for a user are exactly the app names of the records that are consumed, record by record, in order |
| RedisNormal.AppNamesAppend | test/unitTests/redisNormal.test.ts:68-69 | app names are collected record by record, in collection order |
| RedisNormal.RemainingAppend | test/unitTests/redisNormal.test.ts:72-73 | consuming acts record by record and keeps the order of what is left |
| RedisNormal.RemainingKeepsOthers | test/unitTests/redisNormal.test.ts:72-73 | every record of another user stays in the collection |
| RedisNormal.ConsumedPlusRemaining | test/unitTests/redisNormal.test.ts:72-73 | the consumed records and the kept records together are exactly as many as the records in the collection, so none is lost |
| RedisNormal.ConsumeTwice | test/unitTests/redisNormal.test.ts:68-73 | asking again for a consumed user returns no app names and removes nothing more (the tests read each user once and give each record a different user; this follows from two choices of the model: a read consumes all of a user's records, and a user with no record gets no names) |
| RedisNormal.ConsumeLeavesOthers | test/unitTests/redisNormal.test.ts:68-73 | consuming one user's records leaves every other user's app names as they were |
| RedisNormal.Store.constructor | test/unitTests/redisNormal.test.ts:35-36 | a new store has empty queues and no records |
| RedisNormal.Store.PutDeployRequest | test/unitTests/redisNormal.test.ts:78-80 | the serialised request is added at the back of the deploy queue |
| RedisNormal.Store.GetDeployRequest | test/unitTests/redisNormal.test.ts:82-85 | the oldest request is removed and returned; an empty queue returns nothing and stays empty |
| RedisNormal.Store.PutPoolRequest | test/unitTests/redisNormal.test.ts:119-123 | the serialised request is added at the back of the pool queue |
| RedisNormal.Store.GetPoolDeployRequestQueueSize | test/unitTests/redisNormal.test.ts:125-126 | the number of queued pool requests |
| RedisNormal.Store.GetPoolDeployCountByRepo | test/unitTests/redisNormal.test.ts:128-136 | the number of queued pool requests whose username and repository both match the config |
| RedisNormal.Store.PutHerokuCDS | test/unitTests/redisNormal.test.ts:58-59 | the record is added to the collection |
| RedisNormal.Store.GetHerokuCDSs | test/unitTests/redisNormal.test.ts:61-66 | every record, with nothing removed |
| RedisNormal.Store.GetAppNamesFromHerokuCDSs | test/unitTests/redisNormal.test.ts:68-73 | returns the user's app names in order and removes exactly that user's records |
| RedisNormal.Store.DeleteOrg | test/unitTests/redisNormal.test.ts:87-95 | succeeds with no value exactly when every character of the username is allowed; otherwise fails with `invalid username <name>` |
| RedisNormalCases.HerokuCdsFunctions | test/unitTests/redisNormal.test.ts:35-76 | two records are stored, each with Heroku results; user 2's app names are `testApp2a`, `testApp2b`; only user 1's record is left; a second read, which the model adds and the test does not make, returns nothing |
| RedisNormalCases.DeployQueueRoundTrip | test/unitTests/redisNormal.test.ts:25-33 | the dequeued message equals the enqueued one field by field, with the timestamp in `toJSON` form |
| RedisNormalCases.DeployQueueFifo | test/unitTests/redisNormal.test.ts:78-85 | two requests come back in the order they were queued, each once, and then the queue is empty (the test queues one request; the order is the model's reading of a queue) |
| RedisNormalCases.DeleteOrgUsernames | test/unitTests/redisNormal.test.ts:87-95 | `hack@you.bad;wget` fails with `invalid username hack@you.bad;wget`; `sweet@you.good` succeeds with no value |
| RedisNormalCases.PoolDeployCounts | test/unitTests/redisNormal.test.ts:97-136 | after four requests for `platformTrial` and one for `else`, the pool queue size is 5 and the count for `platformTrial` is 4 |
| RedisNormalCases.DefaultUsernameCharsPinned | test/unitTests/redisNormal.test.ts:87-95 | the default allow-list agrees with the deletion tests |

## Left out

- The consumer loop in src/lib/deployConsumer.ts is not modelled. It authenticates once, then polls the queue and sleeps for a second when the queue is empty. That is timing and I/O orchestration, and the real work is in `hubAuth` and `deployQueueCheck`, which are not part of this model.
- Reading `tmp/<deployId>/orgInit.sh` is not modelled: `LineParse` takes the script text as input.
- The "everything in test repos" tests are not modelled. They clone live repositories and assert nothing about the output.
- The browser end-to-end test (test/integrationTests/deployError.test.ts) is UI and network, so it is not modelled.
- The Redis connection is not modelled, and neither are `redis.del`, `getKeys`, `getPooledOrg`, `putPooledOrg`, `getPoolRequest`, the exchange names and `cdsPublish`. The tests assert nothing about them.
- RedisNormal.Store.DeleteOrg: the org-deletion action that follows a valid username is not modelled. Only the validation and the absence of a return value are.
- Concurrency and atomicity between consumer processes are not modelled. The store is single-threaded.
- Dates are not modelled: `Instant` is opaque, and `toJSON` is the `Store.toJson` parameter.
- RedisNormal.Store.GetDeployRequest: the tests never read an empty queue, so what the source does there is unknown. The model returns `None`.
- CDS records are stored as values, not as JSON text. Any field a JSON round trip would change is not modelled.
- RedisNormal.Store.PutHerokuCDS: the tests do not show whether the store adds new records at the front or the back. The model keeps them in the order they were put.
- RedisNormal.AppNames: the tests never read app names for a user with no record, and never store two records for the same user (redisNormal.test.ts:38-56). The model consumes all of a user's records and joins their app names in collection order, and it returns no names for a user with no record. Together these make a second read for a consumed user empty; a reading that consumed only the first matching record would not.
- RedisNormalCases.DeployQueueFifo: the tests queue and read back a single request (redisNormal.test.ts:78-85), so oldest-first order over several requests is the model's reading of a queue.
- An empty username passes `DeleteOrg`, because the allow-list is applied character by character and the tests say nothing about empty names.
