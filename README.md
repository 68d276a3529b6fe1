# Data-set observation store and device model

This project models the observation store of an MTConnect agent for
set-valued ("data set") measurements, and the device component tree that
owns the measurement points. Dafny proves properties of the model.

A data-set payload is a string of whitespace-separated tokens:
- `key=value` sets a key;
- a bare `key` removes one;
- a `:NAME` word at the head of the payload, after any whitespace, is a reset trigger.

Values may be quoted with `'...'`, `"..."` or `{...}` and are then kept verbatim.
The store keeps a checkpoint for each data item, holding its merged current
value. It records each observation in a bounded ring of sequence-numbered
records: only what changed, and nothing for a duplicate. From the records it
answers "current", "current at sequence" and "sample".

The model is split into modules:

- `Tokenizer` (pure): `Tokenize` splits a payload into the reset trigger and the tokens.
  - `Lex` handles the token part, with one lemma per rule (whitespace, bare key, bare value, each quote style, an unterminated quote, garbage).
  - `RenderPayload` writes tokens back out. `TokenizeRender` proves that tokenizing a written payload gives it back.
- `DataSet` (pure): an entry table maps keys to entries, a value or a tombstone.
  - `Apply` merges a payload into a state.
  - `Changes` is the delta a merge records.
  - `Diff` is an independent definition of what changed between two states.
  - `ApplyTokens` applies the tokens one by one, the reference for last-token-wins.
- `Observations` (pure): the values a data item holds (UNAVAILABLE or a data set with its reset trigger).
  - `Merge` is the checkpoint merge.
  - `Ingest` decides what is recorded for an observation: the full payload, the delta, or nothing for a duplicate.
  - `Replay` folds the recorded history into a checkpoint.
- `Store` (imperative): `Checkpoint` is a class whose `events` map is updated in place by `AddObservation`. `Agent` is a class holding:
  - an `array` ring of records indexed by sequence number modulo capacity;
  - the next sequence number and the oldest retained one;
  - the checkpoint before the oldest record, with the sequence number of each item's latest record before it;
  - the current checkpoint;
  - a ghost `History` of every record.

  Each method is proved against `Replay` of that history.
- `Device` (imperative): `DeviceModel` is a class holding an arena of components that refer to each other by index.
  - `AddChild`, `AddDataItem` and `AddDescription` update it in place.
  - `GetDevice` walks up the parents with a loop.
  - A ghost rank, strictly greater for a child than for its parent, shows that the walk ends.
  - Data items are looked up by id, then by name, then by Source value.
- `Scenarios`: the device test cases as methods whose postconditions state what the device model answers.

A value whose quote is never closed drops that token and the rest of the
payload. This is consistent with what `test/data_set_test.cpp:652-658` asserts. The model
follows the test rather than taking the rest of the payload as the value.

## Model

| member | source | states |
|---|---|---|
| Tokenizer.Tokenize | test/data_set_test.cpp:252-261 | a reset trigger is one word without whitespace; a payload without a trigger is lexed whole into its tokens |
| Tokenizer.TokenizeLeadingSpace | test/data_set_test.cpp:430 | whitespace in front of a payload changes nothing: a trigger after it is still the trigger, and the tokens are the same |
| Tokenizer.LexSpaces | test/data_set_test.cpp:282-289 | any run of whitespace in front of the token part is skipped: it lexes like the text after it |
| Tokenizer.LexRemove | test/data_set_test.cpp:509-519 | a bare key followed by whitespace or the end is one removal of that key, followed by the tokens of the rest |
| Tokenizer.LexBare | test/data_set_test.cpp:129-146 | `key=value` with an unquoted value is one upsert of that key to that value, followed by the tokens of the rest |
| Tokenizer.LexQuoted | test/data_set_test.cpp:640-649 | `key=` followed by a value in `'...'`, `"..."` or `{...}` is one upsert whose value is the text between the quotes, inner spaces and other quote characters included |
| Tokenizer.LexUnterminated | test/data_set_test.cpp:652-658 | a value whose quote is never closed gives no token, and nothing after it is lexed |
| Tokenizer.LexGarbage | test/data_set_test.cpp:277-280 | a word without `=` is a single removal token of that word |
| Tokenizer.TokenizeHead | test/data_set_test.cpp:252-261 | a payload `:NAME rest` has reset trigger NAME and the tokens of `rest` |
| Tokenizer.TokenizeTriggered | test/data_set_test.cpp:538-559 | `:NAME` followed by written tokens (none at all included) tokenizes to trigger NAME and exactly those tokens |
| Tokenizer.LexRender | test/data_set_test.cpp:640-669 | lexing the written form of writable tokens gives back those tokens, in order |
| Tokenizer.TokenizeRender | test/data_set_test.cpp:640-669 | tokenizing a written payload gives back its reset trigger and its tokens |
| Tokenizer.KeyLengthSpec | test/data_set_test.cpp:282-289 | the key at the head of a token has no whitespace and no `=`, and stops at the first of either |
| Tokenizer.WordLengthSpec | test/data_set_test.cpp:282-289 | an unquoted value or trigger name has no whitespace and stops at the first whitespace |
| Tokenizer.IndexOfSpec | test/data_set_test.cpp:640-649 | the found position holds the closing quote and no earlier position does; there is none exactly when the closing quote does not occur |
| Tokenizer.NextQuoted | test/data_set_test.cpp:661-668 | a quoted value spanning several words is read up to its closing quote, and lexing resumes after it |
| Tokenizer.NextUnterminated | test/data_set_test.cpp:652-658 | an unterminated quote yields no token |
| DataSet.FromTokensKeys | test/data_set_test.cpp:129-146 | the keys of a payload's table are exactly the keys its tokens mention |
| DataSet.FromTokensPresent | test/data_set_test.cpp:129-146 | every token's key has an entry in the payload's table |
| DataSet.FromTokensAbsent | test/data_set_test.cpp:129-146 | a key no token mentions has no entry in the payload's table |
| DataSet.FromTokensDistinct | test/data_set_test.cpp:129-146 | with distinct keys the table has one entry per token (`count` equals the number of tokens), each the value or tombstone its token denotes |
| DataSet.ApplyFromTokens | test/data_set_test.cpp:500-527 | merging a payload's table into a state is applying its tokens one by one, left to right: the last token for a key wins |
| DataSet.Apply | test/data_set_test.cpp:167-241 | merging into a state without tombstones leaves a state without tombstones |
| DataSet.ApplySize | test/data_set_test.cpp:189-232 | without removals the state grows by exactly the number of keys it did not have |
| DataSet.ApplyReset | test/data_set_test.cpp:252-261 | merging into the empty state keeps exactly the payload's upserts |
| DataSet.Changes | test/data_set_test.cpp:566-591 | the recorded delta mentions only keys of the payload |
| DataSet.ChangesLossless | test/data_set_test.cpp:580-604 | merging the recorded delta gives the state that merging the whole payload gives |
| DataSet.ChangesIsDiff | test/data_set_test.cpp:583-591 | the recorded delta is exactly the difference between the state before and after the merge, a removed key as a tombstone |
| DataSet.DiffApply | test/data_set_test.cpp:423-497 | merging the difference of two states into the first gives the second |
| DataSet.DuplicateIff | test/data_set_test.cpp:571-575 | the delta is empty if and only if the merge leaves the state as it was |
| DataSet.ChangesIdempotent | test/data_set_test.cpp:574-575 | the same payload sent again has an empty delta |
| Observations.Parse | test/data_set_test.cpp:127-146 | a payload's value is a data set with the payload's reset trigger, with an entry for exactly the keys its tokens mention |
| Observations.ParseRender | test/data_set_test.cpp:129-146 | a written payload with distinct keys has `count` equal to its number of tokens and each key's entry as written |
| Observations.ParseGarbage | test/data_set_test.cpp:277-280 | a payload that is one word without `=` gives exactly one entry, the tombstone of that word |
| Observations.Merge | test/data_set_test.cpp:243-273 | the merged value can be current when the prior was, is UNAVAILABLE exactly when the new value is, and carries the new value's reset trigger |
| Observations.MergeAccumulates | test/data_set_test.cpp:176-201 | keys a non-reset payload does not mention keep their entries in the checkpoint |
| Observations.IngestReset | test/data_set_test.cpp:606-631 | a reset is always recorded, with all of its upserts, and the checkpoint becomes exactly those upserts, even when nothing changed |
| Observations.IngestDiscrete | test/data_set_test.cpp:672-698 | a discrete item records every payload with exactly that payload's upserts, whatever the item held before |
| Observations.IngestDuplicate | test/data_set_test.cpp:566-591 | a payload is dropped if and only if the item is not discrete, there is no reset and merging it changes nothing (for UNAVAILABLE: the item is already UNAVAILABLE) |
| Observations.IngestRecordsDiff | test/data_set_test.cpp:391-409 | a recorded non-reset delta is the difference between the checkpoint before and after, removed keys as tombstones with an empty value |
| Observations.IngestLossless | test/data_set_test.cpp:594-604 | merging the recorded value gives the checkpoint that merging the raw payload gives |
| Observations.Ingest | test/data_set_test.cpp:534-561 | a recorded value is UNAVAILABLE exactly when the payload was, and a recorded data set carries the payload's reset trigger |
| Observations.RecordFrame | test/data_set_test.cpp:167-202 | recording an observation gives its data item a value and leaves every other item's value as it was |
| Observations.ReplayKeys | test/data_set_test.cpp:594-604 | a replayed checkpoint holds a value for exactly the data items that have a record |
| Observations.LastRecordsSpec | test/data_set_test.cpp:443-490 | an item has a latest record exactly when the replay holds a value for it; that record is one of the item's and no later record is |
| Observations.ReplaySnoc | test/data_set_test.cpp:423-497 | replaying one more record merges it into the replay of the earlier ones |
| Observations.ReplayCurrent | test/data_set_test.cpp:381-388 | every value of a replayed checkpoint is free of tombstones |
| Observations.InitialRecords | test/data_set_test.cpp:370 | one UNAVAILABLE record per data item, in order |
| Observations.InitialUnavailable | test/data_set_test.cpp:303-308 | after the initial records every data item is UNAVAILABLE |
| Store.Checkpoint.AddObservation | test/data_set_test.cpp:167-202 | the checkpoint becomes its merge with the observation, and stays free of tombstones |
| Store.Checkpoint.GetEvent | test/data_set_test.cpp:148-149 | an item has a value exactly when the checkpoint holds one, and it is the value held; in a valid checkpoint it has no tombstones |
| Store.Intake | test/data_set_test.cpp:566-591 | nothing is recorded for an unknown key; a record is for the data item found by id, name or Source value, with its discrete flag, and is a data set carrying the payload's reset trigger |
| Store.IntakeLossless | test/data_set_test.cpp:571-604 | what the agent records keeps its checkpoint equal to merging the raw payload; a dropped payload changes no entry |
| Store.Agent.constructor | test/data_set_test.cpp:441 | a new agent records one UNAVAILABLE per data item, numbered from 1; every data item's current value is UNAVAILABLE |
| Store.Agent.AddUnavailable | test/data_set_test.cpp:370 | appends one UNAVAILABLE record per data item, in order |
| Store.Agent.AddToBuffer | test/data_set_test.cpp:430-435 | the record is appended to the history with the next sequence number, the oldest is dropped when the ring is full, and the checkpoint is the replay of the history |
| Store.Agent.Append | test/data_set_test.cpp:430-435 | the record goes into the slot of its sequence number and no retained record is overwritten |
| Store.Agent.Evict | test/data_set_test.cpp:92-94 | dropping the oldest record moves the first retained sequence and the checkpoint before it by one |
| Store.Agent.ProcessData | test/data_set_test.cpp:566-591 | the history grows by what `Intake` records for the payload (nothing for an unknown item or a duplicate), and the sequence number advances by exactly that |
| Store.Agent.GetSequence | test/data_set_test.cpp:428 | the next sequence number is one past the number of records made so far |
| Store.Agent.Current | test/data_set_test.cpp:594-604 | the current value of an item is what replaying every record gives |
| Store.Agent.CurrentAt | test/data_set_test.cpp:423-497 | for a retained sequence `at`: the item has a value exactly when replaying the records up to `at` gives it one, the value is that one, and it comes with the sequence number of the item's latest record up to `at` (a record of that item, with none of it after); a reported error, distinguishing before-first from after-last, otherwise |
| Store.Agent.Rebuild | test/data_set_test.cpp:443-490 | replaying the retained records up to `at` onto the first checkpoint gives the checkpoint after record `at` and the sequence number of each item's latest record up to `at` |
| Store.LatestRecordAt | test/data_set_test.cpp:443-490 | among the first `at` records, an item's latest record exists exactly when it has a value; it is a record of that item, and no later one up to `at` is |
| Store.Agent.Sample | test/data_set_test.cpp:366-410 | up to `count` records from `from` on, each with its sequence number and the recorded delta; an error when `from` was dropped or is beyond the next sequence |
| Device.DeviceOf | test/device_test.cpp:136-138 | the device of a component is a device at or above it; there is none only when no component at or above it is a device |
| Device.DeviceOfChild | test/device_test.cpp:137-138 | a component that is not a device belongs to the device of its parent |
| Device.DeviceAttributes | test/device_test.cpp:74-91 | a device never keeps `sampleRate`: its value is kept as `sampleInterval`; every other attribute is kept unchanged, and without a `sampleRate` the attributes are kept exactly as given |
| Device.FindIndex | test/device_test.cpp:195-229 | the position found is the first data item that matches; none means no item matches |
| Device.LookupDataItem | test/device_test.cpp:174-193 | a data item found is one of the items searched and has the key as its id, name or Source value |
| Device.LookupFound | test/device_test.cpp:176-178 | a lookup finds something exactly when some data item has that id, name or Source value |
| Device.LookupById | test/device_test.cpp:218-226 | a key that is some item's id finds the first such item |
| Device.LookupByName | test/device_test.cpp:219-227 | a key that is no id finds the first item with that name |
| Device.LookupBySource | test/device_test.cpp:220-228 | a key that is no id and no name finds the first item with that Source value |
| Device.DeviceModel.NewDevice | test/device_test.cpp:32-47 | appends a device without a parent, children or data items, with the attributes `DeviceAttributes` gives; no other component changes |
| Device.DeviceModel.NewComponent | test/device_test.cpp:121-125 | appends a component with the given class and attributes and no parent, children or data items; no other component changes |
| Device.DeviceModel.AddChild | test/device_test.cpp:128-148 | the child gets the parent, the parent's children get the child at the end, nothing else changes, and the child belongs to the parent's device |
| Device.DeviceModel.GetDevice | test/device_test.cpp:136-138 | the walk up the parents returns the device of the component |
| Device.DeviceModel.GetParent | test/device_test.cpp:129-133 | the parent of a component, when it has one, is a component of the arena |
| Device.DeviceModel.GetChildren | test/device_test.cpp:140-154 | every child of a component is a component of the arena |
| Device.DeviceModel.GetDeviceDataItem | test/device_test.cpp:174-229 | a data item found is registered with the device and has the key as its id, name or Source value |
| Device.DeviceModel.AddDataItem | test/device_test.cpp:166-171 | the item is appended to the component's data items and to its device's registry; nothing else changes |
| Device.DeviceModel.AddDescription | test/device_test.cpp:93-117 | the component gets the description body and attributes; nothing else changes |
| Device.DeviceModel.GetDescription | test/device_test.cpp:102-104 | a description attribute's value, empty when it was not given |
| Device.DeviceModel.GetAttribute | test/device_test.cpp:74-91 | an attribute's value, absent exactly when it was not given |
| Scenarios.GettersA | test/device_test.cpp:61-66 | the first device has class Device and id 1 |
| Scenarios.GettersB | test/device_test.cpp:68-90 | the second device keeps its uuid and `iso841Class` |
| Scenarios.GetAttributesA | test/device_test.cpp:76-82 | a device given no `sampleRate` has neither `sampleRate` nor `sampleInterval` |
| Scenarios.GetAttributesB | test/device_test.cpp:84-89 | a device given `sampleRate` has it only as `sampleInterval` |
| Scenarios.Description | test/device_test.cpp:93-106 | the description attributes given are returned, one not given reads empty, and the body is kept |
| Scenarios.Relationships | test/device_test.cpp:121-138 | both children have the device as parent, and the device, Linear and Controller all belong to the device |
| Scenarios.Children | test/device_test.cpp:140-154 | the device's four children are in the order they were added |
| Scenarios.DataItems | test/device_test.cpp:157-172 | a device starts with no data items and then has the two added, first to last |
| Scenarios.DeviceDataItemEmpty | test/device_test.cpp:176-178 | a device with no data items finds none |
| Scenarios.DeviceDataItem | test/device_test.cpp:181-192 | after two items are added the registry has two, and each is found by its id |
| Scenarios.GetDataItemById | test/device_test.cpp:218-226 | an item is found by its id |
| Scenarios.GetDataItemByName | test/device_test.cpp:219-223 | an item is found by its name |
| Scenarios.GetDataItemBySource | test/device_test.cpp:224-228 | an item is found by its Source value |

## Left out

- Timestamps, the adapter's `device|name|payload` framing and its connection: the model takes the data item's key and the payload string as inputs.
- Response rendering: the XML documents, XPath queries, `/probe`, and data-item attributes loaded from the sample device file. These are presentation and schema loading.
- The float formatting of `sampleInterval` (`123.400001525879`): `DeviceAttributes` keeps the `sampleRate` text unchanged, because the conversion is floating point.
- Concurrency and locking around the checkpoint and the buffer.
- The agent's periodic checkpoints inside the ring: `CurrentAt` replays from the checkpoint before the oldest retained record. Periodic checkpoints are an optimisation, and "current at" gives the same value without them.
- Eviction is modelled (`Agent.Evict`) and its effect on `first` is stated, but no scenario exercises a full ring, because the tests do not.
- Components and data items are values in an arena and are referred to by index. Pointer identity and aliasing of shared objects are not modelled.
- `Device.LookupDataItem`: the order id, then name, then Source value is a modelling choice. It decides only when one key matches different items on different fields, which the tests never do.
- `Observations.Ingest`: a repeated UNAVAILABLE for a non-discrete item is treated as a duplicate. No test covers it.
- `Tokenizer.Tokenize`: only a `:NAME` word at the head of the payload, after any whitespace, is a reset trigger. A `:NAME` word after other tokens is lexed as a removal of the key `:NAME`. Every payload that carries a trigger puts it first.
- `Observations.Ingest`: a non-reset payload with no upserts, for a non-discrete item that is UNAVAILABLE, is dropped as a duplicate, so the item stays UNAVAILABLE. The checkpoint's own merge (`Store.Checkpoint.AddObservation`) would make it an empty data set. `Store.IntakeLossless` states only that such a drop changes no entry.
- `Store.Intake`: every payload is parsed as a data set. Data items that are not data sets (plain events, samples, table-valued items) are not modelled.
- `Device.DeviceModel.AddChild`: the child must not be the parent or one of its ancestors. The source's `addChild` accepts any component, and a cycle would make its walk up to the device run forever. That behaviour of the source is not modelled.
- Other parts of the agent are not modelled: the HTTP agent adapter (network I/O), the XML transform pipeline, the motion property table and the configuration getter and setter.

## Notes

- `Device.DeviceModel.GetDeviceDataItems` and `GetDataItems` are plain reads with no contract of their own. `AddDataItem` states what they return.
- `DataSet.ApplyFrame`, `ApplyUpsert` and `ApplyRemove` state the merge rule key by key. Dafny proves them from the definition alone.
- `Tokenizer.Lex`, `DataSet.FromTokens`, `Observations.Record` and `Observations.Replay` are definitions without a contract of their own. A quantified contract on these recursive definitions makes every proof that unfolds them much more expensive. Their behaviour is stated by lemmas instead:
  - `Lex`: the `Tokenizer.Lex…` lemmas, one per rule;
  - `FromTokens`: `FromTokensKeys`, `FromTokensPresent`, `FromTokensAbsent` and `FromTokensDistinct`;
  - `Record`: `RecordFrame`;
  - `Replay`: `ReplayKeys`, `ReplaySnoc` and `ReplayCurrent`.
