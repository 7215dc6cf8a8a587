# Random prices: a Dafny model of the price generator and its history

This project models the logic of `script.js`, a one-page browser tool. The
user enters a base price. The page draws a random number in [0, 100) and
picks one of three multipliers: 1 for a draw below 0.1, 1.5 for a draw below
40, and 2.5 otherwise. It then builds a result record
`{timestamp, originalPrice, finalPrice, appliedRule}` and prepends it to a
global in-memory history. The first fifty entries of that history are written
to local storage under the key `"priceHistory"`, and are read back into the
history when the page loads.

The model has four modules:

- `Wrappers` (`wrappers.dfy`): an `Option` type.
- `Pricing` (`pricing.dfy`): input validation (`Validate`), rule selection
  (`SelectRule`, `Multiplier`, `Label`, and its inverse `RuleOfLabel`), and the
  result record (`Build`). These are pure functions.
- `History` (`history.dfy`): the page state `Page(history, storage)`. It has
  the persisted prefix (`Persisted`), the prepend-and-store step (`Record`) and
  the load step (`Restore`). It also has the invariants these keep (`Synced`,
  `StoredBounded`, `Sound`) and the lemmas over a series of recordings
  (`RecordAll`).
- `Script` (`script.dfy`): the submission step `GenerateStep` and the class
  `PricePage`. Its fields are the global list and local storage. Its methods
  `GeneratePrice` and `Load` follow the source's statements: they assign
  `finalPrice`/`appliedRule` branch by branch, prepend, and store the slice.
  Each method is proved against `GenerateStep` or `Restore`.

The random draw, the current time and the parsed input are parameters.
Storage is a map from keys to lists of results.

The code never trims `priceHistory`; only the copy written to storage is
cut to fifty. Within one session the
in-memory list can grow past fifty, and a reload then cuts it back to the
stored fifty (`History.RestoreAfterRecord`).

## Model

| member | source | states |
|---|---|---|
| `Pricing.Validate` | script.js:4-9 | An input is accepted exactly when it is a number greater than zero. NaN, zero and negative prices are rejected. An accepted price is passed on unchanged. |
| `Pricing.SelectRule` | script.js:14-23 | The rule is `Original` exactly when the draw is below 0.1. It is `OneAndHalf` exactly when the draw is in [0.1, 40). It is `TwoAndHalf` exactly when the draw is 40 or more. So every draw selects exactly one branch. |
| `Pricing.RuleOfLabel` | script.js:16-22 | A label that reads back as a rule is that rule's label. |
| `Pricing.LabelRoundTrip` | script.js:16-22 | The three labels are distinct, so reading a rule's label gives back that rule. |
| `Pricing.Build` | script.js:12-30 | The record carries the given timestamp and price. A draw below 0.1 gives the original price with "Original Price (0.1%)". A draw in [0.1, 40) gives 1.5 times the price with "1.5x Original Price (39.9%)". A draw of 40 or more gives 2.5 times the price with "2.5x Original Price (60%)". |
| `Pricing.BuildWellFormed` | script.js:14-30 | A record built from a positive price has a label that names a rule, and a final price equal to that rule's multiple of the original. |
| `Pricing.FinalPriceChoices` | script.js:14-23 | The final price is the price, 1.5 times it or 2.5 times it, and nothing else. |
| `Pricing.FinalPriceAtLeastOriginal` | script.js:14-23 | For a positive price, the final price is never below the original. |
| `Pricing.Boundaries` | script.js:14-22 | A draw of exactly 0.1 selects the 1.5x rule, and a draw of exactly 40 selects the 2.5x rule. Price 100 with draw 0.05 gives final price 100. Price 100 with draw 50 gives 250 with the 2.5x label. |
| `History.Persisted` | script.js:33 | `slice(0, 50)`: the stored copy is a prefix of the history, at most fifty long, and exactly fifty when the history has fifty or more entries. It equals the history exactly when the history has at most fifty entries. |
| `History.PersistedIdempotent` | script.js:33 | Slicing an already stored copy again leaves it unchanged. |
| `History.Record` | script.js:32-33 | After `unshift` the history is one longer. The new result is first and the older entries follow in their old order. The history key then holds the persisted prefix of the new history. No other storage key changes. |
| `History.Restore` | script.js:76-80 | When a list is stored under the key, it becomes the history. Otherwise the history is unchanged. Storage is not written. |
| `History.Startup` | script.js:76-80 | When the page opens, the history is the stored list, or empty if nothing is stored. |
| `History.RestoreIdempotent` | script.js:76-80 | Loading twice has the same effect as loading once. |
| `History.RestoreAfterRecord` | script.js:32-33 | A reload right after recording gives back the just-recorded result first. It is followed by a prefix of the earlier history, cut to fifty entries in all. |
| `History.RecordSyncs` | script.js:32-33 | After recording, storage holds the persisted prefix of the in-memory history, and that prefix has at most fifty entries. |
| `History.RestorePreservesSynced` | script.js:76-80 | When storage holds the persisted prefix of the history, loading keeps it that way, and the stored list stays within fifty. |
| `History.RecordPreservesSound` | script.js:25-33 | Recording a well-formed result keeps every entry, in memory and in storage, well formed. |
| `History.RestorePreservesSound` | script.js:76-80 | Loading keeps every entry well formed. |
| `History.RecordAllHistory` | script.js:32 | After a series of recordings, the history lists the recorded results latest first, followed by the earlier history in its order. |
| `History.StoredAreMostRecent` | script.js:32-33 | After one or more recordings, storage holds the most recent results, latest first. It holds exactly fifty once fifty or more entries exist, for example after fifty-one recordings. |
| `Script.GenerateStep` | script.js:3-33 | A submission yields no result exactly when the input is NaN, zero or negative, and then the page is unchanged. Otherwise the result is the record built from the input price, the draw and the time. It is prepended to the history, storage holds the persisted prefix of the new history, and no other storage key changes. |
| `Script.RejectedChangesNothing` | script.js:6-9 | A NaN, zero or negative input returns early: no result, and the history and storage are unchanged. |
| `Script.AcceptedIsRecorded` | script.js:11-33 | A positive input yields a well-formed result. The result has the input price and the given time, and its final price is not below the input. It is prepended to the history, and storage holds it first. |
| `Script.GeneratePreservesSound` | script.js:3-33 | Every submission, accepted or rejected, keeps every entry in memory and in storage well formed. |
| `Script.PricePage.constructor` | script.js:1 | The global list starts empty, and storage is what the browser holds. |
| `Script.PricePage.GeneratePrice` | script.js:3-33 | The new list and storage, and the returned result, are those of `GenerateStep`. A rejected input changes nothing. An accepted one is prepended to the history. |
| `Script.PricePage.Load` | script.js:75-80 | The new state is `Restore` of the old one. Only the history field is written. |
| `Script.OpenPage` | script.js:75-80 | A freshly opened page holds the stored list, or an empty history when nothing is stored. Storage is left as it was. |

## Left out

- The page UI is not modelled: DOM access, `alert`, `showResult`, `showHistory` and the HTML they build (script.js:39-72). These are rendering only.
- Event wiring is not modelled: the Enter-key `keypress` listener (script.js:83-88) only calls `generatePrice`. The button's click wiring is not in script.js and is not part of this model.
- `Math.random()` is not modelled. The draw `Math.random() * 100` is a parameter; `PricePage.GeneratePrice` requires it to be in [0, 100), and the pure functions accept any real.
- `new Date()`, `toLocaleString` and `toFixed` are not modelled. The timestamp is a parameter, an integer count of milliseconds.
- Parsing is not modelled: `parseFloat` becomes its outcome, `NaN` or a number.
- IEEE-754 behaviour is not modelled: prices and thresholds are exact reals, so `* 1.5` and `* 2.5` do not round. Reals have no infinity, but the code's guard lets `Infinity` through, since it is truthy and positive. The model has no such input.
- Overflow is not modelled. An accepted price above about 7.2e307 gives a `finalPrice` of `Infinity` on the 2.5x branch (script.js:21). A price above about 1.2e308 also overflows on the 1.5x branch (script.js:18). So `1e308` overflows only on the 2.5x branch. `JSON.stringify` at script.js:33 stores that as `null`, so after a reload `toFixed` at script.js:65 throws. `Pricing.FinalPriceChoices` and `Pricing.FinalPriceAtLeastOriginal` hold for exact reals only.
- The JSON text form of storage is not modelled; storage holds the list directly. So the model does not capture that `timestamp` is a string after a reload, not a `Date`. It also does not capture the exception `JSON.parse` throws on corrupt stored text. The code has no recovery for that case, so the model has no "treat corrupt history as empty" policy.
- An empty stored string is not modelled. `if (savedHistory)` treats it like a missing key. The code never writes one, because `JSON.stringify` of a list is never empty. In the model, "a value is present" means the key is in the map.
- Storage failures (quota, unavailable storage) are not modelled. In the code, `setItem` would throw after the history was already updated.
