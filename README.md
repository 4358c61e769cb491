# Grid+ V2 simulator — a Dafny model of its command recogniser

The simulator stands in for a Grid+ V2 fan controller on a serial port. It polls
the port. Whenever bytes are waiting, it reads all of them as one buffer. It
classifies the buffer by its length and, for one- and two-byte buffers, by its
first byte (the opcode). It then writes back a fixed reply, or nothing:

| buffer | reply |
|---|---|
| `C0` | `21` (grid initialized) |
| any other single byte | nothing |
| `8A <fan>` | `C0 00 00 01 04` (dummy 260 rpm) |
| `84 <fan>` | `C0 00 00 05 05` (dummy voltage) |
| any other two bytes | nothing |
| any seven bytes | `01` (set-voltage success) |
| any other length | nothing |

`grid_simulator.dfy` holds one module, `GridSimulator`:

- `Classify` is the recogniser. It is the nested length/opcode decision and gives one
  `Request` variant per message the program logs. The fan id is carried for the log.
- `Reply` gives the bytes written for a request.
- `Dispatch` is `Reply(Classify(frame))`. Its contract states the table above in
  both directions: each canned reply is sent for exactly one shape of buffer.
- Lemmas state the cross-case facts. The fan id and the content of a seven-byte
  buffer never change the reply. The reply depends on the length and the opcode only.
  The rpm reply decodes big-endian to 260.
- `Serve` is the polling loop over a finite run of polls. A poll that finds nothing
  waiting is an empty buffer. `Serve` is proved against the specification
  functions `Replies` and `Wire`. The lemmas about those functions say that no state
  is carried from one read to the next. A buffer split over two reads gets the
  replies to its two pieces, each dispatched alone. The rpm query `8A 03` split
  that way gets no reply, and a split can also draw the reply meant for another
  command. Two answered commands merged into one read are never answered.

Bytes are `bv8`. Sequences of bytes are `seq<bv8>`.

## Model

| member | source | states |
|---|---|---|
| GridSimulator.Classify | grid-simulator.py:59-89 | the buffer's length alone decides between the one-byte, two-byte, seven-byte and unsupported-length cases; initialisation is recognised exactly for the buffer `C0`, read-rpm exactly for two-byte buffers starting `8A`, read-voltage exactly for two-byte buffers starting `84`; every read-rpm, read-voltage or set-voltage request carries the buffer's second byte as its fan id |
| GridSimulator.Reply | grid-simulator.py:59-89 | a request gets a non-empty reply exactly when it is supported |
| GridSimulator.Dispatch | grid-simulator.py:59-89 | `21` is sent exactly for the buffer `C0`; the rpm reply exactly for two-byte buffers starting `8A`; the voltage reply exactly for two-byte buffers starting `84`; `01` exactly for seven-byte buffers; nothing for every other buffer |
| GridSimulator.SingleByte | grid-simulator.py:59-65 | a one-byte buffer gets `21` if it is `C0` and no reply otherwise |
| GridSimulator.TwoBytes | grid-simulator.py:68-81 | a two-byte buffer gets the rpm reply for opcode `8A`, the voltage reply for `84`, and nothing for any other opcode |
| GridSimulator.FanIdIgnored | grid-simulator.py:70-79 | the second (fan id) byte of a two-byte buffer never changes its reply |
| GridSimulator.SetVoltageContentIgnored | grid-simulator.py:84-87 | every seven-byte buffer gets `01`, whatever its bytes |
| GridSimulator.OtherLengthsIgnored | grid-simulator.py:88-89 | a buffer of any length other than 1, 2 or 7, the empty one included, gets no reply |
| GridSimulator.ClassifyReadsHeaderOnly | grid-simulator.py:58-89 | two buffers of the same length that agree on their first two bytes are recognised as the same request |
| GridSimulator.ReplyDependsOnLengthAndOpcode | grid-simulator.py:58-89 | two buffers of the same length get the same reply when they agree on the first byte for lengths 1 and 2, and always for every other length |
| GridSimulator.BigEndian16 | grid-simulator.py:72 | two bytes read big-endian give a value below 65536 whose high and low bytes are the two bytes |
| GridSimulator.RpmReadingIs260 | grid-simulator.py:72-73 | the last two bytes of the rpm reply, read as high * 256 + low, are 260 |
| GridSimulator.Exchanges | grid-simulator.py:58-89 | `C0` gets `21`; `8A 03` gets `C0 00 00 01 04`; `84 07` gets `C0 00 00 05 05`; `10 02 00 00 00 00 00` gets `01`; `FF` and `AA BB CC` get nothing |
| GridSimulator.Replies | grid-simulator.py:43-51 | a run of polls gets one reply per poll, and the reply to each poll is the dispatch of that poll's buffer alone |
| GridSimulator.NoStateAcrossReads | grid-simulator.py:43-46 | the bytes written for a run of polls are those for its first part followed by those for the rest; no state carries over |
| GridSimulator.ReplyIndependentOfHistory | grid-simulator.py:43-51 | a buffer's reply is written unchanged wherever it occurs in the run of polls |
| GridSimulator.IdlePollWritesNothing | grid-simulator.py:45-49 | a poll that finds nothing waiting writes nothing and changes nothing later |
| GridSimulator.Wire | grid-simulator.py:43-89 | the bytes written to the port over a run of polls are empty exactly when no poll's buffer is answered |
| GridSimulator.SplitReads | grid-simulator.py:49-51 | a buffer split at any point over two reads (one piece possibly an idle poll) gets the reply to its first piece followed by the reply to its second, each dispatched on its own |
| GridSimulator.SplitCommandUnanswered | grid-simulator.py:49-51 | `8A 03` in one read gets the rpm reply; split over two reads it gets no reply at all |
| GridSimulator.SplitCommandMisanswered | grid-simulator.py:49-87 | `8A C0` in one read gets the rpm reply, but split 1+1 it gets `21`; `84 01 00 00 00 00 00` in one read gets `01`, but split 2+5 it gets the voltage reply |
| GridSimulator.CoalescedCommandsUnanswered | grid-simulator.py:49-89 | for any two buffers that are each answered, the two reads get both replies in order, while the same bytes in one read get nothing |
| GridSimulator.CoalescedExample | grid-simulator.py:49-51 | `C0` and `8A 03` in two reads get `21` then the rpm reply; the same bytes in one read get nothing |
| GridSimulator.Serve | grid-simulator.py:43-89 | the loop returns one reply per poll, each the dispatch of that poll's own buffer (a poll with nothing waiting gets none), and writes exactly their concatenation to the port |

## Left out

- Serial port configuration, opening and flushing (grid-simulator.py:26-38): foreign library I/O with no logic. The baud rate, framing and timeouts are not modelled.
- The `ser.in_waiting` query and `ser.read` call: the model takes the buffer each poll returned as input. The buffer is empty when nothing was waiting.
- The `ser.write` call and its two-second write timeout: the model gives the bytes that would be written. A failed write is not modelled.
- The console log (the hex list built at lines 54-56 and every `print`): it decides nothing. `Request` keeps only which message would be logged and the fan id it names.
- The `KeyboardInterrupt` handler and `sys.exit(0)` (lines 92-94): process lifecycle. `Serve` runs over a finite run of polls instead of `while True`.
- The meaning of the voltage reply `05 05`: it is an opaque constant and is not decoded.
