# idgen in Dafny

A model of the identifier generators at the core of the Go package `pkg/idgen`:

- **Snowflake** (`snowflake.dfy`, module `Snowflake`). A generator packs 64-bit identifiers from a 41-bit
  millisecond delta to its epoch, a 5-bit process ID, a 5-bit worker ID and a 12-bit per-millisecond
  sequence. Its clock state `(lastTimestamp, sequence)` is a class with the source's fields. `Generate`,
  `GenerateBatch` and the busy-wait `WaitNextMillis` are methods proved against the specification
  functions `Step`, `Run` and `Emitted`. Construction validates the IDs. The decoders recover the fields.
- **UUIDs** (`uuid.dfy`, module `Uuid`). This part covers:
  - the canonical 8-4-4-4-12 lower-case hex rendering;
  - random version 4 UUIDs (version and variant bits stamped onto 16 random bytes);
  - time-ordered version 7 UUIDs from a `UUIDv7Generator` whose `(lastTimestamp, sequence)` counter
    follows section 6.2 (method 1) of RFC 9562;
  - the batch functions;
  - `ExtractTimestampFromUUIDv7`.
- **Package default generator** (`global.dfy`, module `Global`). The package-level `defaultGenerator`
  variable is the field of class `Defaults`. It is installed by `SetDefaultMachineID` or
  `SetDefaultGenerator`, read by `GetDefaultGenerator`, and used by `GenerateSnowflake` and
  `GenerateSnowflakeBatch`. A call on an empty default has the distinct outcome `Panics`.

`words.dfy` holds the machine types and the result wrappers:
- `int64` and `uint16` are bounded subsets of `int`. `Wrap64` is two's-complement truncation, applied
  wherever Go's int64 arithmetic can overflow: the timestamp delta, the shift by 22 and the packed sum.
- `byte` is the range 0..255. The source's byte masks keep low bits, and each `|` sets bits the mask
  cleared. So `b & (2^k-1)` is written `b % 2^k`, `b >> k` is `b / 2^k`, and those `|` are `+`.
- On int64, `>>` is an arithmetic shift, which is Dafny's flooring `/` by a power of two. `& (2^k-1)` is
  Dafny's non-negative `%`.

Time and randomness are inputs:
- One Snowflake `Generate` call receives a `Tick`:
  - its first clock reading;
  - the reading taken after sleeping off a backwards clock;
  - the readings the busy-wait sees in turn.
- One v7 call receives a `V7Tick`: its reading, and the reading taken after sleeping off a full counter.
- Every `crypto/rand.Read` is an `Entropy`: either the bytes read or a failure.

Monotonicity needs an assumption about the clock, stated as a hypothesis of the lemmas:
- For Snowflake this is `CaughtUp`: the reading after the backwards-clock sleep is not behind.
- For v7, `V7StepIncreases` states the corresponding hypotheses.
- `RegressedRetryMovesBack` and `V7RegressionMovesBack` show concrete states that move backwards when the
  assumption fails.

## Model

| member | source | states |
|---|---|---|
| Words.Wrap64 | pkg/idgen/snowflake.go:203-206 | int64 arithmetic leaves an in-range result unchanged, and otherwise yields the int64 congruent to it modulo 2^64 |
| Snowflake.CheckIDs | pkg/idgen/snowflake.go:128-133 | InvalidProcessID iff the process ID is outside [0,31]; InvalidWorkerID iff the process ID is valid and the worker ID is outside [0,31]; no error iff both are in range, so the process error wins when both are bad |
| Snowflake.ShiftedDelta | pkg/idgen/snowflake.go:203 | shifting a delta left by 22 in an int64 and adding a value below 2^22 gives the delta's low 42 bits, read as a signed number, times 2^22 plus that value |
| Snowflake.PackLayout | pkg/idgen/snowflake.go:203-206 | the packed identifier is the wrapped 42-bit delta times 2^22 plus processID·2^17 + workerID·2^12 + sequence: the OR'd fields occupy disjoint bits |
| Snowflake.FirstAfter | pkg/idgen/snowflake.go:313-320 | the reading that ends the busy-wait is greater than the last millisecond, and it is the first such reading polled |
| Snowflake.FirstAfterUnique | pkg/idgen/snowflake.go:313-320 | any polled reading past the last millisecond with none before it past it is the reading the wait ends with |
| Snowflake.Step | pkg/idgen/snowflake.go:176-199 | after any call the sequence lies in [0, 4095] |
| Snowflake.StepTimestampIsReading | pkg/idgen/snowflake.go:176-199 | the millisecond a call adopts is one of the clock readings it took |
| Snowflake.StepSequence | pkg/idgen/snowflake.go:187-197 | a new millisecond resets the sequence to 0; the same millisecond gives (sequence+1) mod 4096; when that wraps to 0 the adopted millisecond is strictly later than the last one |
| Snowflake.StepIncreases | pkg/idgen/snowflake.go:179-199 | if the reading after the backwards-clock sleep is not behind, (lastTimestamp, sequence) strictly increases lexicographically |
| Snowflake.RegressedRetryMovesBack | pkg/idgen/snowflake.go:179-184 | the retry reading is not re-checked: from (1000, 7) with readings 900 then 950 the state becomes (950, 0), which is earlier |
| Snowflake.Snowflake.constructor | pkg/idgen/snowflake.go:135-141 | the struct literal stores epoch, processID and workerID as given, with sequence 0 and lastTimestamp 0 |
| Snowflake.Snowflake.ProcessID | pkg/idgen/snowflake.go:326-328 | the accessor's value lies in [0, 31] |
| Snowflake.Snowflake.WorkerID | pkg/idgen/snowflake.go:334-336 | the accessor's value lies in [0, 31] |
| Snowflake.Snowflake.ExtractProcessID | pkg/idgen/snowflake.go:260-262 | the decoded process ID lies in [0, 31] for every identifier |
| Snowflake.Snowflake.ExtractWorkerID | pkg/idgen/snowflake.go:271-273 | the decoded worker ID lies in [0, 31] for every identifier |
| Snowflake.Snowflake.ExtractSequence | pkg/idgen/snowflake.go:283-285 | the decoded sequence lies in [0, 4095] for every identifier |
| Snowflake.Snowflake.WaitNextMillis | pkg/idgen/snowflake.go:313-320 | the polling loop returns a reading strictly greater than its argument, namely the first such reading |
| Snowflake.Snowflake.Generate | pkg/idgen/snowflake.go:172-209 | the new clock state is Step of the old one, and the identifier packs the generator's IDs with the new state |
| Snowflake.Snowflake.GenerateBatch | pkg/idgen/snowflake.go:226-232 | exactly count identifiers, the ones count successive Generate calls emit, leaving the state those calls leave |
| Snowflake.Emitted | pkg/idgen/snowflake.go:226-232 | a run of calls emits one identifier per call |
| Snowflake.EmittedFields | pkg/idgen/snowflake.go:260-273 | every identifier of a run decodes to the generator's own process and worker IDs |
| Snowflake.EmittedIncreasing | pkg/idgen/snowflake.go:226-232 | under the clock assumption, with readings inside the epoch's 41-bit window, a run's identifiers strictly increase, so no two are equal |
| Snowflake.NewWithEpoch | pkg/idgen/snowflake.go:127-142 | fails iff the range checks fail, with their error; otherwise yields a fresh generator with a zero state whose accessors return the arguments |
| Snowflake.New | pkg/idgen/snowflake.go:107-109 | NewWithEpoch's contract with the epoch 2025-01-01T00:00:00Z (1735689600000 ms) |
| Snowflake.FieldsRoundTrip | pkg/idgen/snowflake.go:260-285 | decoding any identifier the generator packs gives back its process ID, worker ID and sequence, whatever the timestamp |
| Snowflake.TimestampRoundTrip | pkg/idgen/snowflake.go:249-251 | inside the window ExtractTimestamp gives back the timestamp; the identifier is non-negative iff the timestamp is not before the epoch, and then equals (ts-epoch)·2^22 + processID·2^17 + workerID·2^12 + sequence |
| Snowflake.PackOrdered | pkg/idgen/snowflake.go:203-206 | inside the window, a lexicographically later (timestamp, sequence) packs to a strictly larger identifier |
| Uuid.FirstFailed | pkg/idgen/uuid.go:72-79 | the index a batch stops at: every earlier read succeeded and the read there failed, or no read failed |
| Uuid.HexAt | pkg/idgen/uuid.go:20 | hex encoding puts byte i's high-nibble digit at 2i and its low-nibble digit at 2i+1 |
| Uuid.CanonicalGroups | pkg/idgen/uuid.go:17-31 | the string has 36 characters: the hex of bytes 0-3, 4-5, 6-7, 8-9 and 10-15 separated by dashes at 8, 13, 18 and 23 |
| Uuid.CanonicalLayout | pkg/idgen/uuid.go:17-31 | each byte k appears as its two lower-case digits at its fixed offset |
| Uuid.GroupedIsCanonical | pkg/idgen/uuid.go:17-31 | any 36-character string holding the five hex groups with dashes between them is the canonical form, so filling the buffer group by group is enough |
| Uuid.CanonicalPattern | pkg/idgen/uuid.go:17-31 | the string has the shape xxxxxxxx-xxxx-xxxx-xxxx-xxxxxxxxxxxx with a lower-case hex digit at every non-dash position |
| Uuid.CanonicalInjective | pkg/idgen/uuid.go:17-31 | two UUIDs with the same string are equal, so the rendering loses nothing |
| Uuid.VersionDigits | pkg/idgen/uuid.go:17-31 | a UUID's version nibble is the digit at index 14, and variant bits 10 show as one of 8, 9, a, b at index 19 |
| Uuid.HexEncode | pkg/idgen/uuid.go:20 | hex.Encode into a buffer writes the digits of its input at the given position and changes nothing else |
| Uuid.String | pkg/idgen/uuid.go:17-31 | the buffer filled group by group is the canonical form |
| Uuid.StampV4Characterized | pkg/idgen/uuid.go:47-52 | stamping makes byte 6's high nibble 4 and byte 8's top bits 10, keeping every other bit of the random input, and it is the only UUID with that description |
| Uuid.V4String | pkg/idgen/uuid.go:47-52 | a v4 string has '4' at index 14 and one of 8, 9, a, b at index 19 |
| Uuid.NewUUIDv4 | pkg/idgen/uuid.go:37-55 | a failed read gives the random-bytes error; otherwise the result has the version and variant stamped onto the random bytes |
| Uuid.GenerateUUIDv4 | pkg/idgen/uuid.go:58-64 | the error of NewUUIDv4, or the canonical string of the stamped bytes |
| Uuid.V4Strings | pkg/idgen/uuid.go:67-82 | a successful v4 batch of n yields exactly n strings |
| Uuid.GenerateUUIDv4Batch | pkg/idgen/uuid.go:67-82 | error iff count <= 0; otherwise the first failed read aborts with its index, and without one the result is count strings, one per read |
| Uuid.BigEndianRoundTrip | pkg/idgen/uuid.go:184-188 | reading back big-endian bytes gives the number written, when it fits |
| Uuid.LeadingZeros | pkg/idgen/uuid.go:186 | the two zero bytes prepended before Uint64 do not change the value |
| Uuid.PutUint64 | pkg/idgen/uuid.go:131 | bytes 0-7 become the big-endian value; the rest of the array is unchanged |
| Uuid.CopyInto | pkg/idgen/uuid.go:148 | the copied bytes land at the offset; the rest of the array is unchanged |
| Uuid.Shl16Low48 | pkg/idgen/uuid.go:131 | uint64(now)<<16 keeps exactly the low 48 bits of the millisecond, as two's complement |
| Uuid.ExtractTimestampFromUUIDv7 | pkg/idgen/uuid.go:184-188 | the extracted timestamp is in [0, 2^48) |
| Uuid.CounterBytes | pkg/idgen/uuid.go:142-145 | byte 6's high nibble is 7, and byte 6's low nibble with byte 7 hold the whole 12-bit counter |
| Uuid.V7LayoutPrefix | pkg/idgen/uuid.go:131 | bytes 0-5 are the big-endian low 48 bits of the millisecond |
| Uuid.ExtractWrittenTimestamp | pkg/idgen/uuid.go:184-188 | a UUID whose bytes 0-5 hold a 48-bit number big-endian yields exactly that number as its timestamp |
| Uuid.V7TimestampRoundTrip | pkg/idgen/uuid.go:184-188 | extraction gives back the millisecond modulo 2^48, and the millisecond itself when it lies in [0, 2^48) |
| Uuid.V7LayoutFields | pkg/idgen/uuid.go:140-151 | version nibble 7, the counter in bytes 6-7, variant 10 in byte 8, and byte 8's low six bits and bytes 9-15 from the random input |
| Uuid.V7String | pkg/idgen/uuid.go:140-151 | a v7 string has '7' at index 14 and one of 8, 9, a, b at index 19 |
| Uuid.V7Step | pkg/idgen/uuid.go:117-128 | after any call the counter is at most 0xFFF |
| Uuid.V7StepCases | pkg/idgen/uuid.go:117-128 | a later reading resets the counter to 0; an equal or earlier one increments it; a counter past 0xFFF restarts at 0 with the reading taken after the sleep, which becomes lastTimestamp |
| Uuid.V7StepIncreases | pkg/idgen/uuid.go:117-128 | if the clock is not behind, and has moved on when a full counter restarts, (lastTimestamp, sequence) strictly increases |
| Uuid.V7RegressionMovesBack | pkg/idgen/uuid.go:117-128 | an earlier reading is adopted as is: from (1000, 5) a reading of 900 gives (900, 6), which is earlier |
| Uuid.FillV7 | pkg/idgen/uuid.go:140-151 | the writes after the random read turn the timestamp bytes into the full v7 layout |
| Uuid.V7PrefixValue | pkg/idgen/uuid.go:131-145 | read big-endian, bytes 0-7 are now·2^16 + 0x7000 + counter |
| Uuid.V7Ordered | pkg/idgen/uuid.go:131-145 | a later (millisecond, counter) gives a strictly larger 64-bit prefix, so v7 UUIDs sort by creation |
| Uuid.UUIDv7Generator.constructor | pkg/idgen/uuid.go:91 | the package-level instance starts at the zero state |
| Uuid.UUIDv7Generator.Generate | pkg/idgen/uuid.go:107-154 | the state is updated as V7Step describes, before the read, so a failed read still uses up a counter value; a failed read gives the random-bytes error, and otherwise the result is the v7 layout of the new state |
| Uuid.GenerateUUIDv7 | pkg/idgen/uuid.go:157-163 | the same state update, and the error or the canonical string of the layout |
| Uuid.V7Strings | pkg/idgen/uuid.go:166-181 | a successful v7 batch of n yields exactly n strings |
| Uuid.GenerateUUIDv7Batch | pkg/idgen/uuid.go:166-181 | error iff count <= 0, with the generator untouched; otherwise the first failed read aborts with its index after the calls up to it have advanced the generator; without one, count strings, one per call |
| Global.Defaults.constructor | pkg/idgen/global.go:7-11 | nothing is installed at start |
| Global.Defaults.SetDefaultMachineID | pkg/idgen/global.go:17-28 | returns the constructor's error and leaves the installed generator in place when the IDs are refused; otherwise installs a fresh generator with those IDs, the default epoch and a zero state |
| Global.Defaults.SetDefaultGenerator | pkg/idgen/global.go:31-35 | the given generator, nil included, is what is installed afterwards |
| Global.Defaults.GetDefaultGenerator | pkg/idgen/global.go:65-69 | returns the installed generator |
| Global.Defaults.GenerateSnowflake | pkg/idgen/global.go:39-49 | panics iff nothing is installed; otherwise it is the installed generator's Generate, with the same state change |
| Global.Defaults.GenerateSnowflakeBatch | pkg/idgen/global.go:52-62 | panics iff nothing is installed; otherwise it is the installed generator's GenerateBatch, with the same state change |

## Left out

- Mutexes and concurrency (`sync.Mutex` in both generators, `sync.RWMutex` around the default generator). Every call is modelled as atomic and sequential.
- Real time. `time.Now` readings are inputs (`Tick`, `V7Tick`). How long the `time.Sleep` calls and the busy-wait last is not modelled.
- Snowflake.Snowflake.WaitNextMillis: the readings are required to pass the last millisecond at some point. Without that the Go loop never returns.
- Snowflake.Snowflake.GenerateBatch: a negative count is a precondition, because `make` panics on it in the code. The package documentation describes no such case.
- Global.Defaults.GenerateSnowflakeBatch: for the same reason, the installed generator's batch is required to have a non-negative count.
- `ExtractTime` and `ExtractTimeFromUUIDv7` only wrap the millisecond in a `time.Time` value.
- `NewSnowflake` and `NewSnowflakeWithEpoch` are deprecated aliases with the same behaviour as `New` and `NewWithEpoch`. `SetDefaultMachineID` is modelled through `New`.
- `ErrClockMovedBackwards` is declared but never returned.
- `NewUUIDv7` is `Generate` on the package-level v7 generator. The model passes that instance explicitly as `g` to `GenerateUUIDv7` and `GenerateUUIDv7Batch`.
- Uuid.NewUUIDv4 and Uuid.UUIDv7Generator.Generate: on a failed random read, the code also returns the partly filled UUID next to the error. The model returns only the error, which is all the package's callers use.
- Error values are modelled as constructors. The message texts and `%w` wrapping are not modelled: a batch failure is `ItemFailed(index, cause)`.
- `crypto/rand` itself is not modelled. Its outcome is an input, and a successful read fills the whole buffer.
- The other generators of the package (cuid, ksuid, nanoid, shortid, ulid, xid, sonyflake) only return a not-implemented error. They are not part of this model, and neither is the demo program under `examples/`.
- Snowflake.Snowflake.Epoch and Snowflake.Snowflake.ExtractTimestamp carry no contract of their own. Their meaning is stated by NewWithEpoch and TimestampRoundTrip.
