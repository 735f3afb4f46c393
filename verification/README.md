# Modbus input-register poller, modelled in Dafny

The program polls a three-phase energy meter over Modbus RTU. When it starts,
it builds a catalog of 26 measurements. Each one is a register address, a
display name and a unit symbol, listed in the declaration order of the
`InputRegister` enum. Then, on every timer tick, it does the following for
each catalog entry in order:
- it reads two input registers at the entry's address;
- it flattens the returned 16-bit words into big-endian bytes;
- it reassembles the first four bytes into the bit pattern of a 32-bit
  float;
- it prints `"<name> is <value><unit> "`.

A failed read panics through `unwrap`, which ends the program. So does a
response too short for the four-byte slice.

The model has three modules, plus two small support modules (`Results` and
`MachineInts` in `base.dfy`):

- `InputRegisters` (`input_register.dfy`): the enum as a datatype and the
  lookup table as one total function. The table is split into three column
  functions: `Address`, `DisplayName` and `UnitSymbol`. Declaration order is
  captured as a bijection between `Ordinal` and `KindAt`. The lemmas cover
  the table as a whole:
  - addresses strictly increase in declaration order, so they are distinct;
  - every address is even;
  - the two-register spans are disjoint and stay inside the 16-bit address
    space.
- `RegisterCodec` (`register_codec.dfy`): the word-to-byte flattening and
  the four-byte big-endian reassembly. Two reference inverses, `JoinBytes`
  and `SplitPattern`, state the round trips.
- `PollLoop` (`poll_loop.dfy`): the catalog list, one read-decode-format
  step, and one tick as a fold over the catalog that stops at the first
  failure. There is also an imperative mirror of the inner loop, proved
  equal to the fold, and a run of the first `n` ticks.
  - The transport is an abstract total function: a `Transport` takes the
    tick, position, address and register count, and returns words or an
    error message. A scripted fake can therefore answer each call
    differently.
  - Float decoding and `Display` formatting together are an abstract
    `Formatter` from the 32-bit pattern to text.

## Model

| member | source | states |
|---|---|---|
| InputRegisters.Ordinal | src/input_register.rs:12-39 | each kind's position in declaration order is one of the 26 positions |
| InputRegisters.KindAt | src/input_register.rs:12-39 | the kind declared at position `i` has ordinal `i`, so every position names a kind |
| InputRegisters.KindAtOrdinal | src/input_register.rs:12-39 | `KindAt` inverts `Ordinal`, so positions and kinds are in one-to-one correspondence |
| InputRegisters.AllKinds | src/input_register.rs:11-39 | the enum iteration yields 26 kinds, each exactly once, at its declaration position |
| InputRegisters.GenerateInputRegister | src/input_register.rs:41-200 | the lookup is total; every descriptor's address is even, at most 0x0046, and the second register of its span is still a valid 16-bit address |
| InputRegisters.Address | src/input_register.rs:43-198 | every address column entry is even and at most 0x0046 |
| InputRegisters.DisplayName | src/input_register.rs:43-198 | every kind has a non-empty display name |
| InputRegisters.UnitSymbol | src/input_register.rs:133-150 | the unit symbol is empty exactly for the three power-factor kinds, and non-empty for all others |
| InputRegisters.AdjacentSpansOrdered | src/input_register.rs:43-198 | for neighbours in declaration order, the earlier two-register span ends before the later one starts |
| InputRegisters.SpansOrderedBetween | src/input_register.rs:43-198 | for any two positions in declaration order, the earlier span ends before the later one starts |
| InputRegisters.AddressesIncreasing | src/input_register.rs:43-198 | a kind declared earlier has a strictly smaller address, with a whole span of room before the later one |
| InputRegisters.AddressesDistinct | src/input_register.rs:43-198 | two kinds share an address if and only if they are the same kind |
| InputRegisters.SpansDisjoint | src/input_register.rs:43-198 | the two-register reads of distinct kinds never overlap |
| InputRegisters.FrequencyIsLast | src/input_register.rs:193-198 | the frequency entry is declared last and holds the largest address, 0x0046 |
| InputRegisters.SpotEntries | src/input_register.rs:61-198 | the Phase1Current entry is (0x0006, "Phase 1 current", "A") and the FrequencyVoltageLines entry is (0x0046, "Frequency voltage", "Hz") |
| RegisterCodec.WordToBeBytes | src/main.rs:34 | `to_be_bytes` gives two bytes, high then low, which recombine to the word |
| RegisterCodec.FlattenWords | src/main.rs:31-36 | n words flatten to 2n bytes; byte 2i is the high byte of word i and byte 2i+1 its low byte |
| RegisterCodec.JoinBytes | src/main.rs:31-36 | reference inverse: an even number of bytes pairs up into big-endian words, half as many |
| RegisterCodec.JoinFlattenRoundTrip | src/main.rs:31-36 | flattening loses nothing: joining the flattened bytes gives back the words |
| RegisterCodec.BeBytesToPattern | src/main.rs:37 | the four-byte big-endian pattern has bytes 0-1 as its high word and bytes 2-3 as its low word |
| RegisterCodec.BytesPatternRoundTrip | src/main.rs:37 | any four bytes survive the trip to a pattern and back |
| RegisterCodec.DecodeResponse | src/main.rs:31-37 | decoding succeeds exactly when the response has at least two words (otherwise the slice panics), and then yields `w0 * 65536 + w1` |
| RegisterCodec.SplitPattern | src/main.rs:31-37 | reference inverse: a pattern splits into two words, high first, that recombine to it |
| RegisterCodec.PatternToBeBytes | src/main.rs:31-37 | a pattern's four flattened bytes reassemble to the pattern |
| RegisterCodec.SplitDecodeRoundTrip | src/main.rs:31-37 | splitting any 32-bit pattern into words and decoding reproduces the pattern exactly |
| RegisterCodec.DecodeSplitRoundTrip | src/main.rs:31-37 | a two-word response decodes, and its pattern splits back into the same two words |
| RegisterCodec.DecodeIgnoresTrailingWords | src/main.rs:37 | words after the first two do not affect the decoded pattern |
| RegisterCodec.DecodeExample | src/main.rs:31-37 | registers 0x4048, 0xF5C3 flatten to bytes 40 48 F5 C3 and decode to 0x4048F5C3 |
| PollLoop.Catalog | src/main.rs:22-25 | the descriptor list has 26 entries, with the descriptor of each kind at its declaration position; its spans strictly increase and are disjoint |
| PollLoop.RequestFor | src/main.rs:30 | every read asks for exactly two registers, starting at the descriptor's address |
| PollLoop.ReadValue | src/main.rs:30-37 | one read and decode succeeds if and only if the client answers with at least two words, and then yields `w0 * 65536 + w1`; a client error or a short answer is the matching fault |
| PollLoop.FormatLine | src/main.rs:38-44 | the line is the name, then " is ", then the value, then the unit symbol, then one space |
| PollLoop.FormatLineInjective | src/main.rs:38-44 | for one descriptor, the printed line determines the rendered value |
| PollLoop.FormatLineExample | src/main.rs:38-44 | 12.5 on Phase 1 current prints "Phase 1 current is 12.5A " |
| PollLoop.Handle | src/main.rs:30-44 | a descriptor yields a line if and only if its read decodes; the line is the descriptor's name, the formatted pattern and its unit, and a failure carries the read's fault |
| PollLoop.RunFrom | src/main.rs:29-45 | reads go out in list order, one per descriptor. Each printed line is that descriptor's successful result. The tick either covers every descriptor or stops at the first failure, which is the read right after the last printed line |
| PollLoop.RunTick | src/main.rs:29-45 | one tick prints at most one line per descriptor and issues one read per line plus the failing one; without a failure every descriptor is printed |
| PollLoop.TickTrace | src/main.rs:29-45 | a whole tick reads descriptor j j-th and prints line j from it. It ends complete, or at the first failing read with that read's fault |
| PollLoop.TickCompletesIff | src/main.rs:29-45 | a tick completes without aborting if and only if every one of its reads decodes |
| PollLoop.AllReadsSucceed | src/main.rs:29-45 | when every read answers at least two words, a tick prints one line per descriptor, in order, each showing the value its first two registers encode |
| PollLoop.FirstFailureAborts | src/main.rs:29-45 | if reads before position k succeed and read k fails, exactly k lines print, k+1 reads go out, and the tick aborts with read k's fault |
| PollLoop.PollOne | src/main.rs:30-44 | the loop body as written (read, flatten, slice, reassemble, format) issues the descriptor's request and yields that descriptor's line or fault |
| PollLoop.LoopStep | src/main.rs:29-45 | after one descriptor, the tick is either the accumulated output plus the abort, or the output grown by one read and one line followed by the rest of the tick |
| PollLoop.PollTick | src/main.rs:29-45 | the imperative inner loop, stopping at the first failure, produces exactly the fold's trace |
| PollLoop.RunTicks | src/main.rs:27-46 | a run can only have aborted if it ran at least one tick |
| PollLoop.Run | src/main.rs:27-46 | the program after n ticks has aborted if and only if one of those ticks, run on its own, aborts |
| PollLoop.RunAbortsIff | src/main.rs:27-46 | a run of n ticks aborts if and only if some tick before n aborts |
| PollLoop.FirstAbortingTick | src/main.rs:27-46 | the run's fault is that of the first aborting tick, and every longer run equals the run that ends with that tick |
| PollLoop.RunCompletesIff | src/main.rs:27-46 | the program runs through n ticks without aborting if and only if every read of every one of those ticks decodes |
| PollLoop.AbortIsFinal | src/main.rs:27-46 | once a tick has aborted, running longer adds no reads, no lines and no other fault |
| PollLoop.OutputGrows | src/main.rs:27-46 | the reads and lines of n ticks are prefixes of those of any longer run |
| PollLoop.LineCount | src/main.rs:27-46 | n fault-free ticks of c lines each print n*c lines |
| PollLoop.FullTick | src/main.rs:22-45 | with every read answering two words, one tick over the catalog issues 26 reads and prints 26 lines, line i showing catalog entry i with its decoded value |
| PollLoop.FifthReadFails | src/main.rs:22-45 | if the fifth read of a tick fails after four good ones, four lines print, five reads go out, and the tick aborts with that read's error |
| PollLoop.RunFifthReadFails | src/main.rs:22-46 | over the catalog, if the fifth read of the first tick fails after four good ones, the program ends after four lines and five reads with that read's error, however many ticks it is given |

## Left out

- Serial port configuration and opening, and the RTU slave connection (src/main.rs:11-21): operating-system and library I/O. The connected client is the `Transport` parameter. Validation that the Modbus library does inside `read_input_registers` is part of that parameter.
- The tokio runtime, async/await and the 100 ms interval (src/main.rs:5, 26-28): scheduling, not data behaviour. Ticks are numbered and modelled in sequence.
- The endless `loop` (src/main.rs:27-46): modelled as the first `n` ticks (`Run`, `RunTicks`); it is never given an infinite trace, since the unbounded run has no final trace.
- `f32::from_be_bytes` value semantics and `{}` float `Display` (src/main.rs:37-43): floating point. Both together are the `Formatter` parameter, a function of the 32-bit pattern.
- The newline that `println!` adds (src/main.rs:44): lines are modelled without it. The trailing space is kept.
- The `strum` derives `EnumString`/`EnumIter` (src/input_register.rs:1, 11): macro-generated code. Iteration is the declaration-order sequence `AllKinds`; string parsing is not used by the program.
- The unused `unit_name` field (src/input_register.rs:7-8): never read, so it has no observable behaviour.
- The `Box` around each descriptor (src/input_register.rs:41): heap allocation only; the model returns the value.
- The panics of `unwrap` are modelled as a `Fault` ending the run, without distinguishing a panic from any other termination.
