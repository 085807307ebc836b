# Energy-monitoring data logger: backlog, configuration and polling loop

The firmware runs on an mbed board with up to ten analog sensor ports. Each
polling cycle it does the following:
- samples every active port and tags out-of-range values with `±HUGE_VAL`;
- drains a backlog file of earlier readings to a web server, one batch per
  HTTP GET request, while the polling interval has time left;
- writes the live batch to the backlog.

The board's configuration comes from a text file on the SD card. The server
is meant to change the polling interval through a `samplerate="…"` tag in its
replies. As written, the tag never takes effect. An untagged reply can change
the interval instead: one longer than 21 characters, without `"></span>`,
whose text from index 11 reads as a positive number (`HTTP/1.1 201 …` does,
`HTTP/1.1 200 …` does not). See Findings.

The model is a set of pure Dafny functions over immutable data. Each module
follows a part of the firmware:

- `Basics`: `Option`, `Result` and sequence helpers.
- `CStrings`: the C and C++ string primitives the firmware relies on:
  - `strtok`, `strstr`/`find` and `substr`;
  - `size_t` arithmetic modulo 2^64;
  - `atoi`, and line splitting for `fgets`.
- `FloatText`: readings and their decimal text.
  - A reading is an exact real or one of two tags that stand for `±HUGE_VAL`.
  - Writing follows `%f`/`to_string`: six decimals, and `inf`/`-inf` for the tags.
  - Reading back follows `atof`/`stof`.
- `Structs`: `PortInfo`, `SensorInfo` and `BoardSpecs`, their defaults, and
  `setPortNum`/`getPortNum`.
- `BoardConfig`: `readConfigText`, which makes two passes over the lines of
  the configuration file.
- `Networking`: both `makeGetReqStr` overloads, including the capacity they
  reserve.
- `OfflineLogging`: the backlog file as `Option<seq<string>>`.
  - `None` means the file is absent; otherwise the value is its lines.
  - Models `dumpSensorDataToFile`, `deleteDataEntry`, `getSensorDataFromFile`
    and `checkForBackupFile`.
  - Proves a first-in first-out round trip.
- `SampleRate`: `textBetween` and `extractSampleRate`, both as written and
  corrected (see Findings), and the `PollingInterval` update rule.
- `PollingLoop`: the rest of the main loop.
  - Sampling and clamping.
  - The sticky `OfflineMode` decision at start-up.
  - The drain, send and delete loop.
  - One whole cycle, and runs of many cycles.

The world outside the firmware is supplied as inputs:
- the pins' raw samples for a cycle;
- whether the Wi-Fi link is up;
- one `Attempt` per drain iteration the timer allows, saying whether the send
  succeeded, the response text, and whether the temporary file could be opened;
- whether the backlog file could be created.

`ServerConnection` starts false and no statement sets it to true. So the live
batch always goes to the backlog and reaches the server only through a later
drain. The model keeps that branch structure and proves the consequence.

Where the firmware would dereference a `NULL` token or read past the end of
the file, the model returns `None`. Examples are a configuration line with too
few fields and a backlog shorter than one batch. The loop runs under an
invariant under which those cases cannot arise:
- every backlog line parses back;
- the backlog's length is a whole number of batches;
- `ServerConnection` is false;
- the interval is positive;
- every active port has a safe name and description and sits on a pin.

## Model

| member | source | states |
|---|---|---|
| CStrings.SizeAdd | main.cpp:33-47 | `size_t` addition: the result is in [0, 2^64) and equals the true sum when that sum fits |
| CStrings.SizeSub | main.cpp:49 | `size_t` subtraction: the result is in [0, 2^64) and equals the true difference when it fits |
| CStrings.Find | main.cpp:37-38 | `find` gives `npos` exactly when the pattern does not occur; otherwise it gives the first index where it occurs |
| CStrings.Substr | main.cpp:49 | `substr(pos, count)` is the slice from `pos` of length min(count, rest of string) |
| CStrings.Strtok | BoardConfig/BoardConfig.cpp:82-103 | `strtok` yields no token exactly when the input is all delimiters; a token is non-empty and free of delimiters, and the rest is strictly shorter |
| CStrings.StrtokSkips | BoardConfig/BoardConfig.cpp:82-103 | `strtok` skips leading delimiters: the same call on text with delimiters in front gives the same token and rest |
| CStrings.StrtokField | BoardConfig/BoardConfig.cpp:86-99 | a field followed by a delimiter comes back as the token, with the text after the delimiter as the rest |
| CStrings.StrtokLast | BoardConfig/BoardConfig.cpp:102-103 | a delimiter-free last field comes back whole |
| CStrings.AtoiOfDigits | BoardConfig/BoardConfig.cpp:127-131 | `atoi` of text starting with a digit is the value of its leading run of digits |
| CStrings.SplitJoinLines | BoardConfig/BoardConfig.cpp:75 | reading lines with `fgets` inverts writing newline-terminated lines |
| FloatText.FormatF | OfflineLogging/OfflineLogging.cpp:36-41 | the `%f` text of a reading is non-empty and contains no comma or newline, so it fits a record field |
| FloatText.Stof | main.cpp:62-64 | `stof` of text starting with a digit is non-negative |
| FloatText.AtofDecimal | BoardConfig/BoardConfig.cpp:93-103 | `atof` of the multiplier and range fields: digit-led text gives the value of its decimal prefix, a leading `-` negates it and a leading `+` keeps it |
| FloatText.ParseFormat | OfflineLogging/OfflineLogging.cpp:36-41 | reading back the written value gives the reading rounded to six decimals; `inf` and `-inf` come back as the two range tags |
| Structs.DefaultPort | BoardConfig/Structs.h:40-42 | a default port is inactive (multiplier zero) |
| Structs.DefaultsAreEmpty | BoardConfig/Structs.h:40-101 | every default string is empty (or "No Sensor"/"No Unit") and every default number is zero |
| Structs.SetPortNum | BoardConfig/Structs.h:92 | `resize(n)`: exactly n ports, the first kept, the new ones default and inactive, nothing else changed |
| Structs.PortNumRoundTrip | BoardConfig/Structs.h:92-95 | `getPortNum` after `setPortNum(n)` returns n |
| Structs.ActivePorts | OfflineLogging/OfflineLogging.cpp:30-34 | the ports with a non-zero multiplier, in table order: every result is an active port of the table, every active port of the table is in the result, and a table of active ports is its own active part |
| Structs.ActivePortsAppend | OfflineLogging/OfflineLogging.cpp:30-34 | the active ports of two tables joined are the active ports of the first followed by those of the second |
| Structs.SameLayoutActive | main.cpp:194-221 | changing only the values of ports keeps the active ports and their layout |
| BoardConfig.ParseSensorLine | BoardConfig/BoardConfig.cpp:78-105 | a parsed sensor line has non-empty type and unit, single-line when the line is |
| BoardConfig.SensorTable | BoardConfig/BoardConfig.cpp:75-109 | the first pass succeeds exactly when every sensor line parses; the table holds those sensors, one per line, in file order |
| BoardConfig.ParseSensors | BoardConfig/BoardConfig.cpp:75-109 | parsing a list of sensor lines succeeds exactly when each line parses, element by element |
| BoardConfig.SensorLinesFrom | BoardConfig/BoardConfig.cpp:78 | every line the first pass picks is a line of the file |
| BoardConfig.SensorTableSingleLine | BoardConfig/BoardConfig.cpp:87-91 | sensor types and units read from newline-free lines are newline-free |
| BoardConfig.ParseConnLine | BoardConfig/BoardConfig.cpp:118-136 | a parsed connection line has a non-negative port and non-empty IP, host and directory |
| BoardConfig.PortNumber | BoardConfig/BoardConfig.cpp:127-131 | the remote port field gives the value of its leading digits when it starts with a digit, and 0 otherwise |
| BoardConfig.ParseBoardLine | BoardConfig/BoardConfig.cpp:139-151 | a parsed board line has a non-empty, comma-free SSID and password, and a non-empty table name |
| BoardConfig.ParsePortLine | BoardConfig/BoardConfig.cpp:156-165 | a parsed port name is non-empty and free of commas, and single-line when the line is |
| BoardConfig.BindPort | BoardConfig/BoardConfig.cpp:167-195 | a port is kept exactly when its sensor index is in range and that sensor's multiplier is non-zero; a kept port copies the sensor's multiplier, range and "Type in Unit" description |
| BoardConfig.ApplyLine | BoardConfig/BoardConfig.cpp:113-198 | one line of the second pass fails exactly when it is a `ConnInfo`, `Board` or `Port` line with too few fields. A `ConnInfo` line changes only the remote fields and a `Board` line only SSID, password and table name. A `Port` line appends at most one port, and any other line changes nothing |
| BoardConfig.ApplyLineStep | BoardConfig/BoardConfig.cpp:113-198 | one line of the second pass leaves the sensor table alone and only appends ports, each bound to its sensor |
| BoardConfig.ApplyLines | BoardConfig/BoardConfig.cpp:113-199 | the second pass keeps the sensors, extends the port list, and keeps every port bound and safe |
| BoardConfig.ReadConfigText | BoardConfig/BoardConfig.cpp:64-202 | the configuration's sensors are the first-pass table; every port is active and bound to its sensor, with a safe name and description when the lines are single-line |
| BoardConfig.ReadConfig | BoardConfig/BoardConfig.cpp:64-202 | reading configuration text yields only active ports with safe names and descriptions |
| BoardConfig.ApplyLinesAppend | BoardConfig/BoardConfig.cpp:113-199 | the second pass over `a + b` is the pass over `b` from the state after `a` |
| BoardConfig.ApplyLinesPorts | BoardConfig/BoardConfig.cpp:152-195 | the ports added are exactly the bound port lines, in order |
| BoardConfig.ConfigPortsInLineOrder | BoardConfig/BoardConfig.cpp:152-195 | the configuration's port table is exactly its port lines bound to the sensor table, in file order, skipping invalid ones |
| BoardConfig.ApplyLinesKeepsConn | BoardConfig/BoardConfig.cpp:118-136 | lines that are not connection lines leave the remote settings unchanged |
| BoardConfig.ApplyLinesKeepsBoard | BoardConfig/BoardConfig.cpp:139-151 | lines that are not board lines leave SSID, password and table name unchanged |
| BoardConfig.ApplyLinesAt | BoardConfig/BoardConfig.cpp:113-199 | the pass factors at any line: the prefix, then that line, then the suffix |
| BoardConfig.LastConnLineWins | BoardConfig/BoardConfig.cpp:118-136 | the remote IP, port, host and directory come from the last connection line |
| BoardConfig.LastBoardLineWins | BoardConfig/BoardConfig.cpp:139-151 | SSID, password and table name come from the last board line |
| BoardConfig.NoConnLineNoRemote | BoardConfig/BoardConfig.cpp:64-136 | with no `ConnInfo` line, nothing assigns `RemoteIP`, `RemotePort`, `HostName` or `RemoteDir`. They keep the values of the default-constructed `BoardSpecs Specs;` (line 65), which the model takes as "" and 0 |
| BoardConfig.SensorLineFields | BoardConfig/BoardConfig.cpp:78-105 | `header:type,unit,multiplier,low,high` (non-empty fields): type and unit land in those fields and the three numbers are `atof` of their fields; the sensor ID stays 0 |
| BoardConfig.ConnLineFields | BoardConfig/BoardConfig.cpp:118-136 | `header:ip,port,host,dir` (non-empty fields): IP, host and directory are their fields; the port is `atoi` of its field when that starts with a digit, else 0 |
| BoardConfig.BoardLineFields | BoardConfig/BoardConfig.cpp:139-151 | `header:ssid,password,table` (non-empty fields): each field lands in SSID, password and table name, in that order |
| BoardConfig.PortLineFields | BoardConfig/BoardConfig.cpp:156-165 | `header:name,id` (non-empty fields): the name is the first field and the sensor index is `atoi` of the second |
| Networking.FieldsSnoc | Networking/Networking.cpp:159-165 | appending a port appends its `&Port_ID[]=…&Value[]=…` pair when it is active, and nothing otherwise |
| Networking.FieldsOfActive | Networking/Networking.cpp:159-165 | inactive ports contribute nothing to a request |
| Networking.MakeGetReqStrFor | Networking/Networking.cpp:123-173 | the built message is the request line with table name and one pair per active port, then the Host header; the reserved size is the message length plus four (`"GET "` is counted twice) |
| Networking.MakeGetReqStr | Networking/Networking.cpp:71-120 | the same request over the board's own ports, with the same reservation |
| OfflineLogging.Records | OfflineLogging/OfflineLogging.cpp:30-46 | one dump writes one `name,value,description` record per active port, in table order |
| OfflineLogging.ParseRecord | OfflineLogging/OfflineLogging.cpp:163-174 | a record read back is active (multiplier 1) with non-empty name and description |
| OfflineLogging.ParseRecordLine | OfflineLogging/OfflineLogging.cpp:163-174 | reading back a written record gives the port with its value rounded to six decimals, multiplier 1 |
| OfflineLogging.ParseLines | OfflineLogging/OfflineLogging.cpp:160-175 | a run of lines parses exactly when each line does, one entry per line |
| OfflineLogging.DumpSensorDataToFile | OfflineLogging/OfflineLogging.cpp:8-48 | an absent file that cannot be created stays absent; otherwise the old lines are kept and the active ports' records follow, in order |
| OfflineLogging.DeleteDataEntry | OfflineLogging/OfflineLogging.cpp:56-131 | the result is true exactly when the file survives, and the file survives exactly when it held more than N lines; it only ever drops lines from the front, at most N; a surviving file has lost N lines if the temporary file opened and none otherwise |
| OfflineLogging.GetSensorDataFromFile | OfflineLogging/OfflineLogging.cpp:135-178 | absent file: empty batch; otherwise the first N lines parsed as records with multiplier 1, defined exactly when N lines exist and parse |
| OfflineLogging.CheckForBackupFile | OfflineLogging/OfflineLogging.cpp:181-190 | true exactly when the file exists |
| OfflineLogging.RecordsParse | OfflineLogging/OfflineLogging.cpp:163-174 | every record of a dump reads back as its port |
| OfflineLogging.DumpKeepsWellFormed | OfflineLogging/OfflineLogging.cpp:8-48 | a dump keeps the backlog a whole number of parseable batches |
| OfflineLogging.DeleteKeepsWellFormed | OfflineLogging/OfflineLogging.cpp:56-131 | a deletion keeps the backlog a whole number of parseable batches |
| OfflineLogging.WellFormedReadable | OfflineLogging/OfflineLogging.cpp:135-178 | on a well-formed backlog the oldest batch can always be read |
| OfflineLogging.DeletionSplitsBacklog | OfflineLogging/OfflineLogging.cpp:56-131 | a deletion removes nothing or exactly the batch `getSensorDataFromFile` reads, from the front |
| OfflineLogging.DumpAllAppends | OfflineLogging/OfflineLogging.cpp:8-48 | successive dumps append their records in order |
| OfflineLogging.ReadOldestBatch | OfflineLogging/OfflineLogging.cpp:135-178 | the oldest batch read back is the first dumped table's active ports, rounded |
| OfflineLogging.ReplayStep | OfflineLogging/OfflineLogging.cpp:56-178 | one read-then-delete step takes the oldest batch and leaves the rest |
| OfflineLogging.FifoRoundTrip | OfflineLogging/OfflineLogging.cpp:8-178 | dumping tables into an absent file, then reading and deleting until it disappears, yields the tables in dump order, rounded to six decimals |
| SampleRate.TextBetween | main.cpp:29-50 | as written: empty when the input is too short or when either marker occurs; when neither occurs the wrapped index makes it return the input from position `|start|-1` |
| SampleRate.TextBetweenFixed | main.cpp:29-50 | corrected: empty when a marker is missing or the end precedes the start; otherwise the text between the first start marker and the first end marker (the tail when they overlap) |
| SampleRate.RateOf | main.cpp:57-69 | -1 unless the text starts with a digit, otherwise its decimal value |
| SampleRate.ExtractSampleRateAsWritten | main.cpp:55-69 | as written: the rate is -1 or non-negative. It is -1 when the reply is too short or either marker occurs. Otherwise it is the rate read from the reply from position 11 on: -1 unless that text starts with a digit |
| SampleRate.ExtractSampleRate | main.cpp:52-69 | corrected: the rate is -1 or non-negative, and -1 when either marker is missing |
| SampleRate.AsWrittenIgnoresTag | main.cpp:41-69 | as written, every response carrying the `samplerate="` tag yields -1 |
| SampleRate.SampleRateCounterexample | main.cpp:41 | on `samplerate="5"></span>` the as-written rate is -1, the corrected one 5 |
| SampleRate.AsWrittenReadsUntaggedReply | main.cpp:41-49 | on the untagged reply `HTTP/1.1 201 Created xy` the as-written rate is 1 (read from position 11), the corrected one -1 |
| SampleRate.NextInterval | main.cpp:260-266 | the interval becomes the rate when it is not -1 and positive, otherwise it stays; a positive interval stays positive |
| PollingLoop.Classify | main.cpp:204-216 | above the range gives `HUGE_VAL`, else below gives `-HUGE_VAL`, else the value itself (bounds inclusive) |
| PollingLoop.SamplePort | main.cpp:197-216 | an inactive port is untouched; an active one gets sample × multiplier, clamped, and nothing else changes |
| PollingLoop.SamplePorts | main.cpp:194-221 | the sampling loop keeps the table's layout, leaves inactive ports alone and sets each active port from its own pin |
| PollingLoop.SampledInRange | main.cpp:200-216 | a sampled value is in range, or carries the tag matching the side it left the range on |
| PollingLoop.SameLayoutKeepsRecordSafe | main.cpp:194-221 | sampling keeps the active ports, their count and their safety |
| PollingLoop.Sticky | main.cpp:126-170 | a chain of checks that only set the flag ends true exactly when it started true or any check fired |
| PollingLoop.OfflineAtStartup | main.cpp:109-170 | offline exactly when the ESP chip failed to start or the table name, remote directory, remote IP or host name is empty or a single space, or the remote port is 0 |
| PollingLoop.Boot | main.cpp:74-170 | the loop starts with interval 5, no server connection and the start-up offline decision |
| PollingLoop.Drain | main.cpp:252-279 | the drain keeps the backlog well formed and drops lines only from its front. It sends at most one request per attempt and deletes at most one batch per send. It fails exactly when a send failed; it then stops, so exactly one request went unacknowledged |
| PollingLoop.DrainAdoptsRate | main.cpp:260-266 | after a drain, the interval is the rate the as-written scanner reads from the last response sent on, when that rate is positive. It is the old interval when no response of the drain gave a positive rate |
| PollingLoop.DrainInterval | main.cpp:252-266 | the drain reads the response of exactly the attempts it sent on, in order, and applies the interval rule to each |
| PollingLoop.DeleteOldest | main.cpp:276-278 | a deletion after a send removes nothing or exactly the batch that was read for that send |
| PollingLoop.DrainDeletesOnlySent | main.cpp:256-278 | every batch deleted was first sent, in a request built from exactly that batch |
| PollingLoop.DrainEmpties | main.cpp:252-279 | when every send succeeds and time allows, the backlog is fully delivered and the file removed |
| PollingLoop.Cycle | main.cpp:191-317 | one cycle samples the ports, never changes offline mode, and sends nothing and keeps the interval when offline or the link is down |
| PollingLoop.BootInv | main.cpp:109-191 | the loop's invariant holds on entry, given a well-formed backlog |
| PollingLoop.CycleKeepsInv | main.cpp:191-317 | every cycle preserves the invariant |
| PollingLoop.CycleQueueLaw | main.cpp:191-317 | old backlog plus the live records equals the lines deleted plus the new backlog; every deletion followed the send of its batch |
| PollingLoop.LiveBatchBackedUp | main.cpp:281-308 | the live batch is never sent: the cycle's requests are exactly the drain's. It sends at most one request per attempt, and nothing when offline or the link is down. The live batch's active ports always end the backlog |
| PollingLoop.BacklogBatchFullyEmitted | Networking/Networking.cpp:239-245 | every entry of a batch read from the backlog is active, so the request carries all of them in order |
| PollingLoop.Run | main.cpp:191-317 | successive cycles keep the invariant and the offline flag, and record one table per cycle |
| PollingLoop.RunLosesNothing | main.cpp:191-317 | over any run in which the file can be created, no backlog line is lost or invented: the old backlog plus every cycle's live records equals the deleted batches plus the final backlog. That each deleted batch was sent first is shown per cycle by `CycleQueueLaw` |
| PollingLoop.OfflineIsFixed | main.cpp:109-308 | the offline flag of any run equals the start-up decision |

## Left out

- File-system plumbing: mounting, reformatting, `fopen`/`fclose`/`rename`/`remove` return codes other than those named. The temporary file failing to open is an input; a file that cannot be created is an input.
- `fgets` truncation at `LINESIZE`/`BUFFLEN`: lines are whole lines. Records of 127 characters or more would split in the firmware.
- The AT-command, TCP and TLS transport (`sendMessageTCP`, `sendBackupDataTCP`, `sendBulkDataTCP`, `startESP`, `connectESPWiFi`, `checkESPWiFiConnection`). A send is an input pair: success plus response text.
- `sendBackupDataTCP`: the header declares its response as a `string` and the definition as a `float&`. The model uses the string form `extractSampleRate` reads.
- `sendMessageTCP`: its `strstr` result is used without a `NULL` check. This is transport code and is not modelled.
- Single-precision floating point: values are exact reals. Exponents, `nan`, infinity and rounding ties beyond round-half-up are not modelled.
- FloatText.AtofDecimal: reads only the decimal spelling. `atof` also accepts `inf`/`infinity`, `nan`, hexadecimal and exponent forms; the model reads those as 0, or as the decimal part before the exponent. Sensor ranges are exact reals, so a bound written `inf` or `-inf` becomes 0 in the model. The firmware would get ±`HUGE_VAL` and never flag a reading on that side.
- FloatText.Stof: does not model `std::out_of_range` on huge values, because readings are exact reals.
- CStrings.Atoi: does not model `int` overflow on long digit runs, because the port numbers it parses are small.
- The polling timer: the time budget is the list of `Attempt`s the timer allows; the busy wait at the end of a cycle does nothing to the state.
- `AnalogIn` reads: the ten raw samples are inputs. `OnPins` requires that no active port sits beyond pin 10, where the firmware would read past `Port[]`.
- Networking.MakeGetReqStrFor: the reservation is an unbounded integer; its `size_t` wrap-around is not modelled, because a request near 2^64 bytes cannot arise.
- Printing, `printSpecs`, debugging macros and `wait` calls have no effect on state and are not modelled.
- Server responses are taken shorter than `npos`, the largest size a C++ string can have.
- `readSDCard` (opening the configuration file) is I/O; the model starts at the file's text.
- Structs.DefaultSpecs: `Structs.h` declares no `RemoteIP`, `RemotePort`, `HostName` or `RemoteDir`, although the firmware uses them. An `int` missing from the constructor's initialiser list would be indeterminate. The model takes `RemotePort` as 0 and the strings as "". `NoConnLineNoRemote` and the start-up offline decision for a file without a `ConnInfo` line rest on that choice.
- PollingLoop.BootInv: the loop's invariant, and with it `OfflineIsFixed` and `RunLosesNothing`, covers only a starting backlog of whole, parseable batches for the current number of active ports. A backlog left by another configuration, or cut short in the middle of a dump, is not covered.

## Findings

| source | as written | input that shows it | evidently intended | confidence | as-written member | corrected member |
|---|---|---|---|---|---|---|
| main.cpp:41 | `textBetween` returns "" when either marker IS found (`!=` instead of `==`). So `extractSampleRate` returns -1 for every reply that carries the tag, and the tag never changes the polling interval. When neither marker occurs, the wrapped index reads from position 11. So an untagged reply longer than 21 characters whose text from index 11 reads as a positive number does change it (`HTTP/1.1 201 …` does, `HTTP/1.1 200 …` reads 0 and does not) | `samplerate="5"></span>`; `HTTP/1.1 201 Created xy` | return "" only when a marker is missing, then the text between them: rate 5 and -1 | not executed | SampleRate.SampleRateCounterexample | SampleRate.ExtractSampleRate |

The drain loop (`PollingLoop.Drain`) models the firmware as shipped, so it uses the scanner as written: `SampleRate.TextBetween` and `SampleRate.ExtractSampleRateAsWritten`. `SampleRate.AsWrittenIgnoresTag` and `SampleRate.AsWrittenReadsUntaggedReply` show the two effects. The corrected scanner, `SampleRate.TextBetweenFixed` and `SampleRate.ExtractSampleRate`, is defined separately, and its intended reading is proved by `SampleRate.SampleRateCounterexample`.
