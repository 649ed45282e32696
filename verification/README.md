# Bridge gas-drip bot — Dafny model

The bot watches a token bridge contract. For every `TokensBridgingInitiated`
or `TokensBridged` event it looks up the event's origin transaction. It skips
transactions that call the bridge's "back to the origin chain" function
(selector `0x23caab49`). It redirects blacklisted recipients to the origin
transaction's sender. It skips targets whose funding-chain balance already
exceeds a threshold. Otherwise it sends a fixed native-currency drip from the
operator account. When the drip's receipt arrives, it updates a three-field
status record (wallets funded, amount given away, operator balance). A small
HTTP endpoint serves the audit log as its non-blank lines. A `currentTime`
helper writes a date's fields as `YYYY-MM-DD HH:MM:SS`.

The model is functional. Chain answers (transaction lookup, balances,
receipts) are inputs. Amounts and balances are integers in wei. Records are
immutable values.

| file | module | what it holds |
|---|---|---|
| `wrappers.dfy` | `Wrappers` | `Option` |
| `chain.dfy` | `Chain` | events, origin transaction, configuration, drip transaction |
| `eligibility.dfy` | `Eligibility` | the ordered direction / blacklist / balance rule |
| `dispatch.dfy` | `Dispatch` | the drip transaction and the per-event handling |
| `status_store.dfy` | `StatusStore` | the status record's read-modify-write and its fold |
| `timestamp.dfy` | `Timestamp` | the timestamp format and its inverse |
| `log_lines.dfy` | `LogLines` | splitting the log on `'\n'` and dropping blank lines |
| `pipeline.dfy` | `Pipeline` | events handled in sequence, with the counter invariant |

## Model

| member | source | states |
|---|---|---|
| `Chain.Counterpart` | index.js:45-59 | An initiated bridging hands on its sender; a completed bridging hands on its recipient. |
| `Eligibility.IsToOriginCall` | index.js:65 | The direction test holds exactly when the input data is at least as long as `0x23caab49` and agrees with it character for character, case included. |
| `Eligibility.ResolveTarget` | index.js:69-71 | A blacklisted recipient is replaced by the origin transaction's sender; any other recipient is kept unchanged. |
| `Eligibility.Decide` | index.js:61-92 | A failed lookup is the only way to a lookup fault. A to-origin call is skipped as wrong-direction, and nothing else is. Every later outcome concerns the resolved target. A skip for sufficient balance carries that target's balance, which is strictly above the threshold. A send happens exactly when the target's balance was read and is at most the threshold. |
| `Eligibility.DirectionDecidesFirst` | index.js:65-74 | On a to-origin call the decision is the wrong-direction skip for every blacklist and every balance answer. |
| `Eligibility.OnlyTargetBalanceMatters` | index.js:74-79 | Two balance queries that agree on the resolved target give the same decision. |
| `Eligibility.BlacklistedSenderIsFunded` | index.js:69-79 | For all inputs: when both the recipient and the origin sender are blacklisted, the call is not to-origin and the sender's balance is at most the threshold, the blacklisted sender is funded. |
| `Eligibility.RedirectIsNotRechecked` | index.js:69-71 | Concrete case: a blacklisted recipient whose origin sender is also blacklisted leads to a send to that blacklisted sender. |
| `Dispatch.DripTx` | index.js:94-101 | The drip goes from the operator to the given receiver, for the configured amount, at gas price 2·10^15 and gas limit 3,000,000. |
| `Dispatch.HandleEvent` | index.js:61-101 | A transaction is built only after a successful lookup of a call that is not to-origin. It is the operator's drip of the configured amount to the resolved target, whose balance was read and is at most the threshold. Every such target is funded. |
| `Dispatch.TokenAndAmountIgnored` | index.js:50-61 | Two events with the same counterpart are handled identically, whatever their token, amount or kind. |
| `StatusStore.Load` | index.js:159-165 | A read error or unparsable content abandons the update. Empty content starts from the all-zero record. Stored content starts from the stored record. |
| `StatusStore.LoadIsCurrent` | index.js:159-165 | An update loads a record exactly when the file is readable, and the record it loads is the stored one, or the default for an empty file. |
| `StatusStore.SaveStatus` | index.js:157-178 | An unreadable file is left as it is and is not reset. Otherwise the written record has one more wallet funded, exactly the amount more given away, and the balance replaced by the operator's. |
| `StatusStore.SaveAllCounts` | index.js:165-168 | After any sequence of drips on a readable file, the count grew by the number of drips and the total by their summed amounts. The balance is the one reported with the last drip. |
| `StatusStore.SaveAllUnreadable` | index.js:159-163 | No number of updates changes a file the update cannot read. |
| `StatusStore.FixedDripsFromEmpty` | index.js:32-36 | Starting from the empty file, N drips of amount A give the record (N, N·A, last operator balance). |
| `Timestamp.NatToString` | index.js:147-152 | The decimal rendering reads back as the number. It has one digit below 10, at most two below 100, and four for 1000-9999. |
| `Timestamp.NatToStringNoLeadingZero` | index.js:147-152 | The decimal rendering starts with the digit zero exactly when the number is zero, so no leading zeros are written, as with JavaScript's number-to-string conversion. |
| `Timestamp.IntToString` | index.js:154 | The year is written with a '-' exactly when it is negative. Its digits read back as the absolute value, and a year 1000-9999 takes four characters. |
| `Timestamp.PadStart` | index.js:148-152 | The result ends with the input and is filled on the left with the pad character. It is exactly the width when the input is shorter, and the input itself otherwise. |
| `Timestamp.Pad2` | index.js:148-152 | A field below 100 is written as exactly two digits that read back as the field. A larger field is written in full. |
| `Timestamp.FormatTimeLayout` | index.js:146-154 | For a real date with a four-digit year, the timestamp has 19 characters with '-', '-', ' ', ':', ':' at positions 4, 7, 10, 13, 16. |
| `Timestamp.FormatTimeRoundTrip` | index.js:146-154 | For a real date with a four-digit year, reading the formatted timestamp back gives the original date fields, so the month shift by one and the zero padding lose nothing. |
| `LogLines.TrimStart` | index.js:190 | The result is a suffix, what was removed is white space, and the result does not start with white space. |
| `LogLines.TrimEnd` | index.js:190 | The result is a prefix, what was removed is white space, and the result does not end with white space. |
| `LogLines.Trim` | index.js:190 | The trimmed line is never longer than the line and neither starts nor ends with white space. |
| `LogLines.TrimEmptyIffBlank` | index.js:190 | A line trims to the empty string exactly when every character of it is JavaScript white space. |
| `LogLines.Split` | index.js:190 | Splitting yields at least one piece and no piece contains '\n'. |
| `LogLines.JoinSplit` | index.js:190 | Joining the split pieces with '\n' gives back the original content. |
| `LogLines.SplitJoin` | index.js:190 | Splitting a '\n'-joined list of newline-free pieces gives back the pieces. |
| `LogLines.KeepNonBlank` | index.js:190 | The filter never yields more lines than it is given. |
| `LogLines.KeepNonBlankMembers` | index.js:190 | A line is kept exactly when it occurs in the input and is not blank. |
| `LogLines.KeepNonBlankAppend` | index.js:190 | Filtering a concatenation is the concatenation of the filtered parts, so kept lines stay in file order. |
| `LogLines.LogEntries` | index.js:190 | The split-then-filter chain yields no more entries than lines, and exactly the split lines that are not blank. |
| `LogLines.LogEntriesExact` | index.js:190 | The entries are exactly the split lines that do not trim to the empty string. |
| `LogLines.IsEntry` | index.js:190 | The per-line `trim() !== ''` test holds exactly for non-blank lines. |
| `LogLines.FilterEntries` | index.js:190 | The loop over the split lines keeps exactly what the filter definition keeps, in the same order. |
| `Pipeline.Step` | index.js:90-110 | An event keeps the earlier drips. It appends one exactly when a drip is built for it, and that drip is the one built, marked confirmed exactly when its receipt arrived. The status file changes only for a confirmed drip, and then it becomes the status update of the configured amount with the operator balance reported after the receipt. |
| `Pipeline.Run` | index.js:45-59 | Events are handled one after another: the drips of earlier events are kept and each event adds at most one. |
| `Pipeline.WrongDirectionChangesNothing` | index.js:65-68 | An event whose origin call is to-origin leaves the drips and the status file unchanged. |
| `Pipeline.FundedTargetChangesNothing` | index.js:74-79 | An event whose resolved target holds more than the threshold leaves everything unchanged. |
| `Pipeline.BlacklistedRecipientRedirected` | index.js:69-71 | A drip caused by a blacklisted recipient's event goes to the origin transaction's sender. |
| `Pipeline.WrongDirectionRunIsIdle` | index.js:45-68 | A run made only of to-origin events sends nothing and records nothing. |
| `Pipeline.RunDripsWellFormed` | index.js:94-101 | Every drip of every run is from the operator, for the configured amount and gas settings. |
| `Pipeline.StepKeepsCounters` | index.js:104-107 | One event keeps this invariant: wallets funded equals base plus confirmed drips, and amount given away equals base plus confirmed drips times the drip amount. |
| `Pipeline.RunKeepsCounters` | index.js:157-168 | Any run keeps that counter invariant. |
| `Pipeline.RunFromStart` | index.js:32-36 | A fresh process with a readable status file ends any run counting exactly its confirmed drips, with the drip amount given away for each. |
| `Pipeline.RunLeavesUnreadableFile` | index.js:159-163 | A status file the update cannot read is never written during a run. |

### Behaviour of the code that the model keeps

- A read error on the status file (including a missing file) abandons the update without writing. So does content that JSON cannot parse. Neither resets the record to zeros. Only the empty string counts as "no record". As a result the code never creates a missing status file.
- The balance test is strict (`>`). A target holding exactly the threshold is funded.
- The blacklist redirect is applied once and is not re-checked. When the origin sender is also blacklisted, that sender is funded. `Eligibility.BlacklistedSenderIsFunded` states this for all inputs, and `Eligibility.RedirectIsNotRechecked` shows one concrete case.
- Nonce serialization and mutual exclusion of status updates are hardening measures the code does not have. The model handles events one at a time.

## Left out

- Web3 providers, the websocket event subscriptions, and the `getTransaction` and `getBalance` calls (index.js:20-24, 45-59, 62, 121-125) are network I/O. Their answers are the `origin`, `balanceOf` and `operatorBalanceOnReceipt` fields of an observation.
- Signing, submission and receipt waiting (index.js:103-118) are library calls. A drip either gets a receipt or fails; both cases are recorded as an attempt, and no retry happens.
- `toWei`/`fromWei` and the `* 1` coercions (index.js:76, 98, 123, 167) are replaced by exact integer arithmetic in wei. The source stores the amount given away in ether units and the balance as an ether string; the model keeps both in wei.
- `getTokenPrice`, the Moralis calls and the commented-out price gate (index.js:80-88, 127-144) are dead code and a foreign API.
- The Express endpoints, `fs` reads and writes, the winston logger and the ABI/blacklist loading (index.js:11-30, 171-200) are I/O. Only the line filter at index.js:190 is modelled; parsing each kept line as JSON, and the 500 response when parsing fails, are not.
- The audit log entries (index.js:77, 108, 116) are not modelled. Both timestamped entries call `currentTime()` with no date, so `date.getFullYear()` (index.js:147) throws a TypeError before `logger.info` runs. No timestamped line is ever written. At index.js:77 the throw takes the place of the `return true` of the already-funded skip. At index.js:108 it fires on every confirmed drip, inside the receipt listener. The model's `Timestamp.FormatTime` takes explicit date fields and shows what the helper writes when it is given a date.
- Eight failure paths end in an error that nothing in the file catches:
  - a null origin transaction (index.js:65);
  - a rejected target balance query (index.js:74);
  - the `currentTime()` TypeError (index.js:77);
  - a failed submission, because the `sendSignedTransaction` promise is not returned from the `.then` at index.js:104, so the `.catch` at index.js:112 never sees it (index.js:105);
  - the `currentTime()` TypeError thrown inside the receipt listener, out of reach of the `try` at index.js:102 and the `.catch` at index.js:112 (index.js:108);
  - a `JSON.parse` throw (index.js:165);
  - status content that is JSON `null`, where `data.wallet_funded += 1` throws a TypeError (index.js:166);
  - a rejected operator balance query (index.js:168).
- On Node 15 or later with default settings, such an error ends the process. The index.js:108 error is raised on every confirmed drip, in the same turn as the receipt and before the `fs.readFile` callback at index.js:159 can run. So under those defaults the code as written never records a confirmed drip.
- The model instead gives each failure a quiet per-event outcome (`LookupFault`, `BalanceFault`, `SkipSufficientBalance`, an unconfirmed attempt, `Malformed` with no write), and `Pipeline.Run` goes on with later events. The status update that `Pipeline.Step` applies on every receipt, and that `Pipeline.RunFromStart` counts, is the intended behaviour, not what the code does under those defaults.
- `LogLines.Trim`: the contract states only that the result is no longer than the input and neither starts nor ends with white space. That the result is the input with its white-space ends removed follows from `TrimStart` and `TrimEnd`, which it composes and whose contracts state it. A lemma stating it of `Trim` directly was too costly for the verifier to prove reliably.
- The shared `defaultStatus` object (index.js:32-36) is mutated in place when an empty file is updated (index.js:165-166). After that, later updates of an empty file start from the mutated object, which becomes visible after a failed write. The model's `StatusStore.DefaultStatus` is an immutable all-zero record.
- The operator balance query inside the status update (index.js:168) is assumed to answer. A failure there would abandon that update.
- A failed status-file write (index.js:171-176) is not modelled.
- Status content that parses as JSON but is not a record with the three numeric fields is not modelled. The code has no strict mode, so it behaves as follows:
  - for `null`, the update throws at index.js:166, as listed among the failure paths above;
  - for a number, string, boolean or array, the property writes at index.js:166-168 are silently dropped, and `JSON.stringify` writes the same value back, so the drip is never counted;
  - for an object lacking the fields, the counters become `NaN` (written as `null`), or strings when a field holds a string (`"3" + 1` is `"31"`).
- Concurrent status updates racing on the file, and nonce conflicts between concurrent drips, are concurrency effects. The model runs events one at a time.
- `Timestamp.FormatTimeLayout`: the layout is stated only for valid dates with four-digit years. Other years have a different width, and no fixed layout holds for them.
