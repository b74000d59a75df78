# Verified model of the Solakon ONE monitor

This project models the logic of the Solakon ONE monitor, a terminal and HTTP monitor for a hybrid
solar inverter, and proves properties of it. It covers the Modbus TCP client and its checksum, the
configuration file, the subnet scanner, the assembly of a device snapshot, the HTTP server's response
and shared snapshot, and the start-up from command line and files with the refresh loop it feeds.

`dafny verify dfyconfig.toml` checks everything. Automatic induction is switched off on every lemma, so each
inductive proof is the one that is written down.

## Modules

| file | what it holds |
|---|---|
| `Words.dfy`, `Text.dfy`, `Numerals.dfy` | machine words; the parts of the C++ string library the program leans on; which texts are numbers |
| `Gf2.dfy`, `Crc.dfy`, `CrcPeriod.dfy` | polynomials over GF(2), the Modbus CRC-16 and what it detects |
| `Modbus.dfy`, `ModbusSession.dfy`, `RequestStream.dfy`, `LateAnswers.dfy` | the client as a class over a socket; whole sessions with a server; the requests on the wire; answers that come too late |
| `ConfigLoader.dfy`, `ConfigSaver.dfy`, `ConfigLaws.dfy`, `ConfigLines.dfy`, `ConfigRoundTrip.dfy` | loading, saving, the kinds of lines, and how loading and saving relate |
| `Subnet.dfy`, `NetworkScanner.dfy` | CIDR arithmetic; the scan |
| `Reg.dfy`, `SolakonDevice.dfy`, `SnapshotMeaning.dfy`, `PartialSnapshot.dfy` | the 65 reads of a snapshot, and what the snapshot means, also when some of them fail |
| `HttpServer.dfy`, `SnapshotRegister.dfy` | one request, its framed response; the snapshot under its mutex |
| `Arguments.dfy`, `CommandLine.dfy`, `Startup.dfy` | the command line; how its options are spelled and read back; what it, the configuration files and the prompt decide together |
| `Pacing.dfy`, `Monitor.dfy` | the refresh loop; command line and loop together |

## How the outside world enters

- The socket of the Modbus client is a list of arrivals (bytes, a timeout, an error, the end of the
  connection) together with what each later `send` sets off; all of it is arbitrary. A server that behaves
  is a condition of the session results; it may refuse any request it likes. `ModbusSession.RespondConforms`
  shows that the server of the MODBUS Application Protocol is one.
- `float` division is a parameter, any function of the raw value and the divisor, so the results hold with
  the rounding of single precision.
- `inet_pton`, `atoi`, the outcome of each connection attempt, of each `write`, the running flag and the
  readings of the steady clock are parameters, each free to differ from call to call.
- A `std::stoi` or `std::stoul` that throws is `None`: nothing in the program catches it.
- Configuration files are texts of bytes, in a file system that is a function of the path; the empty path
  leads nowhere.
- The JSON text of a snapshot is a parameter of the request handler.

## What was found

Where the code and its documentation differ, the code is what is modelled.

- The client never compares the number of an answer with that of its request. A read gets its own answer
  exactly when nothing is pending on the stream (`LateAnswers.OwnAnswerIff`). After one answer that came too
  late, every later read of that size returns the registers of the read before it
  (`LateAnswers.OneLateAnswer`). The documentation promises a CRC check of the Modbus client; the checksum is
  a private helper that nothing calls (include/modbus_client.h:180).
- A count above 127 registers makes the client wait for too short a frame
  (`Modbus.ResponseHoldsRegisters`). A good answer then makes it read past the end of the frame, which is
  undefined; `ModbusSession.OverrunsIff` says exactly when. Against a conforming server, starting with nothing
  pending, it never happens (`ModbusSession.SessionCorrect`).
- The meter and battery fields share temporaries, so a failed read shows the raw value of an earlier one,
  even of another quantity (`SnapshotMeaning.CurrentShowsVoltage`, `ChargeShowsVoltage`). Which failed reads
  do so is said exactly for the meters (`MeterFieldOwn`), their connection (`ConnectionOwn`) and the battery
  (`UnsignedFieldOwn`, `SignedFieldOwn`); `PartialSnapshot.RefreshesShow` says which register each field shows
  in runs against a server that refuses reads. The snapshot is marked valid all the same.
- The comments beside the energy reads give other register numbers than the constants of
  include/solakon_device.h:136-147; the constants are used.
- The prefix length of a subnet is cut to eight bits before it is checked, so 280 and even -232 pass as 24;
  text behind the number is ignored (`Subnet.LengthAccepted` says of every text whether it passes). Length 0
  leads to an undefined shift.
- `--interval` promises a rate in Hz, but whole milliseconds keep it only when it divides 1000
  (`Pacing.RateKeptIff`).
- The loops use the rate of the command line; the rate in the configuration file is not followed
  (`Monitor.FileRateFollowedIff` says exactly when it happens to be).
- `--port 502` leaves another port of the file in force, except when the host has to be typed in: then the
  port of the file is dropped (`Startup.PortOverrides`).
- A host typed in is saved as typed but loaded without the blanks around it, so the next run connects to the
  same host exactly when there were none (`Startup.NextRun`).
- The advice for a start without any configuration path is never given, since loading always names one
  (`Startup.StandardHasPath`).
- The server computes status 404 for an unknown path but sends 200 with every body
  (`HttpServer.StatusDueIff`).
- The dotted text of an address is made from a host-order word; on a little-endian machine, as modelled, its
  octets are reversed. It serves as the key of the sort, for which being one-to-one is enough.

## Model

| member | source | states |
|---|---|---|
| Crc.ModbusCrc16 | src/modbus_client.cpp:190-204 | the byte-wise nested loop returns the remainder of M * x^16 + 0xFFFF * x^N divided by x^16 + x^15 + x^2 + 1, for every message M of N bits |
| Crc.ShiftByte | src/modbus_client.cpp:194-201 | the inner loop is eight shifts of the register |
| Crc.RunIsDivide | src/modbus_client.cpp:192-202 | the byte-wise loop is the bit-serial long division, from any register |
| Crc.CrcIsTheRemainder | src/modbus_client.cpp:190-204 | a 16-bit value is the checksum if and only if it is that remainder |
| Gf2.DivideIsDivision | src/modbus_client.cpp:190-204 | a feedback shift register divides: quotient times generator plus register is the dividend |
| Gf2.QuotientAndRemainderUnique | src/modbus_client.cpp:190-204 | quotient and remainder are determined by the dividend |
| Crc.CrcAffine | src/modbus_client.cpp:190-204 | for equally long messages the checksum of a sum of three is the sum of the three checksums |
| Crc.ResidueIffCrcAppended | src/modbus_client.cpp:190-204 | a message followed by two bytes leaves zero if and only if these are its checksum, low byte first |
| Crc.BurstDetected | src/modbus_client.cpp:190-204 | two equally long messages that differ only within 16 consecutive serial bits have different checksums |
| Gf2.BurstNotDivisible | src/modbus_client.cpp:190-204 | a non-zero error no longer than the register is never divisible by a generator with constant term 1 |
| Crc.CrcKeepsParity | src/modbus_client.cpp:190-204 | the parity of the checksum is the parity of the message |
| Crc.OddErrorDetected | src/modbus_client.cpp:190-204 | an odd number of wrong bits always changes the checksum |
| CrcPeriod.ThreeBitErrorsDetected | src/modbus_client.cpp:190-204 | in messages of at most 32767 bits, one, two or three wrong bits always change the checksum |
| CrcPeriod.Period | src/modbus_client.cpp:193-201 | the trace of a wrong bit returns to itself after k shifts if and only if k is a multiple of 32767 |
| CrcPeriod.TwoBitErrors | src/modbus_client.cpp:190-204 | two wrong bits leave the checksum unchanged if and only if their distance is a multiple of 32767 |
| Modbus.Client.constructor | include/modbus_client.h:130-131 | a new client numbers its requests from 1 |
| Modbus.Client.Recv | src/modbus_client.cpp:72-82 | one `recv` writes the bytes it got behind those already there and touches nothing else of the buffer |
| Modbus.Client.SendReceive | src/modbus_client.cpp:61-86 | sends, then fills the response; on failure says why, and keeps the part that had arrived |
| Modbus.Client.ReceiveInto | src/modbus_client.cpp:69-85 | the loop ends, never writes past the buffer, and does what receiving one list of arrivals does |
| Modbus.Client.ReadHoldingRegisters | src/modbus_client.cpp:147-188 | every defined outcome, for every count: refused arguments change nothing, a failed read leaves the output as it was, a good one puts the decoded registers in its first places; the request number always advances once a request is made |
| Modbus.Client.CopyRegisters | src/modbus_client.cpp:182-185 | the output is the big-endian decode of the bytes behind the header |
| Modbus.Client.ReadU16 | src/modbus_client.cpp:88-96 | the register read, or the old value when the read fails |
| Modbus.Client.ReadI16 | src/modbus_client.cpp:98-106 | its two's complement, or the old value |
| Modbus.Client.ReadU32 | src/modbus_client.cpp:108-117 | two registers, the high one first, or the old value |
| Modbus.Client.ReadI32 | src/modbus_client.cpp:119-126 | the two's complement of that, or the old value |
| Modbus.Client.ReadString | src/modbus_client.cpp:128-145 | the text in the registers without its padding, or the old text |
| Modbus.DecodeEncode | src/modbus_client.cpp:182-185 | registers written big-endian are decoded as they were |
| Modbus.DecodeAt | src/modbus_client.cpp:182-185 | every register is 256 times its first byte plus its second |
| Modbus.ResponseHoldsRegisters | src/modbus_client.cpp:164-168 | the frame waited for counts its data bytes modulo 256, so it is long enough for the registers if and only if there are at most 127 |
| ModbusSession.ReceiveTakesFromStream | src/modbus_client.cpp:69-85 | the loop takes exactly the first bytes it needs off the stream, or fails as the stream ends |
| ModbusSession.ChunkIndependence | src/modbus_client.cpp:69-85 | how the same bytes are cut into pieces does not change what is received |
| ModbusSession.ParseOfRequestFrame | src/modbus_client.cpp:152-160 | a server reads the request back: number, unit, function, start and count |
| ModbusSession.CutRequestFrame | src/modbus_client.cpp:152-160 | a request is one unit of the stream, cut by its own length field, of protocol 0: unit 1, function 3, start and count high byte first |
| RequestStream.StreamSplits | src/modbus_client.cpp:61-160 | the stream of any session splits, by the length fields on it, into exactly the requests of its calls, numbered one by one modulo 2^16 |
| RequestStream.SessionAsks | src/modbus_client.cpp:61-188 | after a session with a conforming server that is what is on the wire |
| ModbusSession.ReadUnsent | src/modbus_client.cpp:61-67 | without a connection, or when `send` fails, a read fails and has used up its number; a read of no registers does nothing |
| ModbusSession.RespondConforms | include/modbus_client.h:138-161 | the server of MODBUS Application Protocol V1.1b3, section 6.3, answers or refuses every request as the session results require, and echoes its number |
| ModbusSession.ReadSeesOnlyTheStream | src/modbus_client.cpp:164-187 | a read succeeds if and only if a full frame with function 3 is on the stream, and returns its data; no other header field matters |
| ModbusSession.OverrunsIff | src/modbus_client.cpp:164-185 | a read overruns its frame if and only if it is for more than 127 registers and a full frame with function 3 is on the stream |
| LateAnswers.OwnAnswerIff | src/modbus_client.cpp:164-187 | a read returns what the device answers it with, whatever the registers and the pieces, if and only if nothing was pending before it |
| LateAnswers.OneLateAnswer | src/modbus_client.cpp:61-86 | from a quiet wire, a read whose answer comes too late fails, and every later read of that size returns the registers of the read before it |
| LateAnswers.OneBehindAt | src/modbus_client.cpp:164-187 | the k-th result of such a run is the answer to the call before |
| ModbusSession.ReadAnswered | src/modbus_client.cpp:147-188 | one read of a conforming server, for any number of registers but 0 and in any pieces: the registers or a refusal, no overrun, an emptied stream, the next number |
| ModbusSession.SessionCorrect | src/modbus_client.cpp:61-188 | over any sequence of reads of any sizes but 0 and any pieces, every read that is served returns the registers held when it was answered, every refused one fails, none overruns its frame, and the stream is empty after each |
| ModbusSession.RequestNumbers | src/modbus_client.cpp:154-160 | the k-th request on the wire carries the first number plus k modulo 2^16 |
| ModbusSession.Signed32RoundTrip | src/modbus_client.cpp:114-125 | every signed 32-bit value survives its two registers |
| ModbusSession.Signed16RoundTrip | src/modbus_client.cpp:98-106 | every signed 16-bit value survives its register |
| ModbusSession.Signed32OneToOne | src/modbus_client.cpp:114-125 | and every pair of registers its signed value |
| ModbusSession.StripIsTheCut | src/modbus_client.cpp:140-143 | stripping gives a text if and only if the rest is padding and the text does not end in padding |
| ModbusSession.StringRoundTrip | src/modbus_client.cpp:128-145 | a text without padding at its end is read back exactly, whatever mix of padding follows it |
| ConfigLoader.LoadSettings | src/config_loader.cpp:29-101 | the settings of the file chosen, or the defaults when it is missing or cannot be opened; fails where a conversion throws; with --config the file is always the one given |
| ConfigLoader.WhichFile | src/config_loader.cpp:29-57 | the file of --config whatever else exists, else the one in the home directory if it is there, else the one in the current directory; a missing or unreadable file gives the defaults |
| ConfigLoader.OverrideAlone | src/config_loader.cpp:34-35 | with --config neither the home directory nor any other file matters |
| ConfigLoader.LoadFile | src/config_loader.cpp:51-100 | the line loop gives what folding the lines gives, and fails where a conversion throws |
| ConfigLoader.HandleLine | src/config_loader.cpp:60-97 | what one line does to settings and section |
| ConfigLoader.AssignSetting | src/config_loader.cpp:77-97 | what one assignment does, and when it throws |
| ConfigLoader.ReadPorts | src/config_loader.cpp:88-96 | the comma-separated ports, empty entries skipped |
| ConfigLaws.LoadMeansLastAssignments | src/config_loader.cpp:51-100 | loading fails if and only if some assignment inside [solakon] does not convert; otherwise each setting is its last assignment there, or its default |
| ConfigLaws.InertLinesIgnored | src/config_loader.cpp:59-98 | inert lines may be inserted anywhere without changing what is loaded |
| ConfigLaws.SingleLineInert | src/config_loader.cpp:59-75 | which single lines are inert, both directions |
| ConfigLaws.ForeignSectionInert | src/config_loader.cpp:63-75 | a foreign section is inert once [solakon] is reopened, even if its values do not convert |
| ConfigLaws.AssignmentLineParses | src/config_loader.cpp:59-72 | a written assignment is read as its key and its value |
| ConfigLines.IgnoredIff | src/config_loader.cpp:60-68 | a line is ignored if and only if it is blank, a comment, or neither a header nor has an equals sign |
| ConfigLines.SectionIff | src/config_loader.cpp:63-66 | a line is a header if and only if it is a name in brackets between blanks |
| ConfigLines.PairIff | src/config_loader.cpp:68-72 | any other line is an assignment, cut at its first equals sign |
| ConfigLines.OtherKeysIgnored | src/config_loader.cpp:77-97 | any other key means nothing |
| ConfigLines.MarginsIgnored | src/config_loader.cpp:14-60 | spaces, tabs and carriage returns around the lines change nothing of what is loaded |
| ConfigLines.TrimmedIff | src/config_loader.cpp:14-19 | trimming leaves a text alone if and only if it neither starts nor ends with a space, tab, carriage return or newline |
| ConfigLines.OutsideIgnored | src/config_loader.cpp:74-75 | without a header [solakon] any text loads as the defaults |
| ConfigLines.TextKeysMean | src/config_loader.cpp:77-87 | a file with one host or subnet sets that and leaves all else at the defaults |
| ConfigLines.NumberKeysMean | src/config_loader.cpp:79-84 | the same of either port, modulo 65536, and the rate |
| ConfigLines.PortsKeyMeans | src/config_loader.cpp:88-96 | the same of the list of ports |
| ConfigLines.ChangedIs | include/config_loader.h:28-36 | the settings these leave, default by default |
| ConfigLines.LastAssignmentWins | src/config_loader.cpp:59-98 | one more assignment at the end overrides its setting, or makes the loading fail |
| ConfigLines.OnePort | src/config_loader.cpp:92-95 | a blank entry of the list gives no port, another one its number modulo 65536, or fails |
| ConfigLines.PortsConcat | src/config_loader.cpp:88-96 | a list is read entry by entry and fails when one of them does |
| ConfigLines.PortsCut | src/config_loader.cpp:89-91 | a list is cut at its commas |
| ConfigSaver.SaveSettings | src/config_loader.cpp:103-137 | writes the saved text, and nothing without a path or when the file cannot be opened |
| ConfigSaver.WriteSetting | src/config_loader.cpp:116-134 | one setting with its comments and the blank line behind it |
| ConfigSaver.PrintPorts | src/config_loader.cpp:129-133 | the ports in decimal, separated by commas |
| ConfigRoundTrip.RoundTrip | src/config_loader.cpp:29-137 | saving and loading restores the settings if and only if host and subnet are trimmed single lines; numbers and ports may be anything |
| ConfigRoundTrip.NormalForm | src/config_loader.cpp:29-137 | what any text loads as, saved and loaded again, is the same |
| ConfigRoundTrip.LoadedSavable | src/config_loader.cpp:59-98 | whatever the text, the settings loaded from it can be saved |
| ConfigRoundTrip.PortsReadBack | src/config_loader.cpp:88-96 | a printed list of ports is read back, the empty one included |
| Text.TrimFindsCore | src/config_loader.cpp:14-19 | trimming removes exactly the blanks around a trimmed core |
| Text.SplitUnlines | src/config_loader.cpp:59-59 | reading line by line undoes writing line by line |
| Text.StoiOfPrint | src/config_loader.cpp:80-84 | a printed 32-bit integer is read back, whatever text other than a digit follows |
| Numerals.StoiIff | src/config_loader.cpp:80-84 | a text gives a number if and only if it starts, behind space, with a numeral in range, and the number is that of its digits by their places; all others throw |
| Numerals.PrintedIff | src/config_loader.cpp:117-132 | a number is printed as the one text of digits without leading zeros that has its value |
| Subnet.NetworkOfAddress | src/network_scanner.cpp:15-33 | an address and any text that passes as a length, 0 included, give the network whose base has the leading bits of the address and no others |
| Subnet.NetworkIsMasked | src/network_scanner.cpp:30-32 | the base of a parsed network is its own network address |
| Subnet.LengthAccepted | src/network_scanner.cpp:15-33 | whatever text follows the slash, it passes if and only if a number can be read from it that is at most 32 modulo 256, and it throws if and only if none can |
| Subnet.NoNetwork | src/network_scanner.cpp:15-25 | without a slash, or with no address in front of the first one, there is no network |
| Subnet.StoulIff | src/network_scanner.cpp:26-26 | a text gives a number if and only if it starts with a numeral below 2^64; a minus sign gives its complement; all others throw |
| Subnet.StoulOfPrint | src/network_scanner.cpp:26-26 | a written number is read back, with either sign and whatever text other than a digit follows; a minus sign gives its complement modulo 2^64 |
| Subnet.AddressCount | src/network_scanner.cpp:113-116 | exactly min(2^(32 - prefix), 256) - 1 addresses are tried |
| Subnet.AddressIs | src/network_scanner.cpp:116-117 | the i-th address tried is the base plus i + 1 |
| Subnet.HostIsSum | src/network_scanner.cpp:117-117 | base OR h is base plus h, and the sum stays within 32 bits |
| Subnet.NumberOfRound | src/network_scanner.cpp:116-116 | the host number of round h is h |
| Subnet.AddressInNetwork | src/network_scanner.cpp:116-117 | every address tried lies in the network |
| Subnet.AddressesDistinct | src/network_scanner.cpp:116-117 | no address is tried twice |
| Subnet.DottedInjective | src/network_scanner.cpp:119-119 | different addresses have different texts |
| Subnet.DottedShowsBytes | src/network_scanner.cpp:119-119 | the text of an address is its four bytes in decimal between dots, the lowest one first |
| NetworkScanner.Scan | src/network_scanner.cpp:100-143 | no network, no records; otherwise one record per address with an open port, strictly sorted by text |
| NetworkScanner.ScanNetwork | src/network_scanner.cpp:113-142 | the two loops and the sort give such a list |
| NetworkScanner.ProbeHosts | src/network_scanner.cpp:116-134 | the outer loop keeps the records with an open port, in the order of the addresses |
| NetworkScanner.ProbeHost | src/network_scanner.cpp:118-129 | the inner loop gives the record of one address, whose ports are those of the list that answer, in its order |
| NetworkScanner.OpenPortsIff | src/network_scanner.cpp:118-124 | the ports of a record are exactly those of the list whose attempts succeeded, in the order of the list and as often as there |
| NetworkScanner.SortByIp | src/network_scanner.cpp:136-140 | an ordered permutation |
| NetworkScanner.LessTrichotomous | src/network_scanner.cpp:137-140 | the comparison by text is a strict order that separates different texts |
| NetworkScanner.LessIff | src/network_scanner.cpp:137-140 | a text is below another if and only if they agree up to a place where it ends or has the lower character |
| NetworkScanner.ScanMeaning | src/network_scanner.cpp:116-142 | a record is in the result if and only if it is that of an address with an open port |
| NetworkScanner.SolakonIff | src/network_scanner.cpp:86-98 | a record is marked as the inverter if and only if the attempt on port 502 or 443 succeeded |
| NetworkScanner.ScanUnique | src/network_scanner.cpp:136-142 | any two results of the same outcomes are equal |
| SolakonDevice.FetchSnapshot | src/solakon_device.cpp:28-40 | always makes the same 65 reads of the client in order, whichever fail, and returns the snapshot their answers give |
| SolakonDevice.ReadInverterInfo | src/solakon_device.cpp:43-89 | each field from its own read, or as it was; the status word from junk when its read fails |
| SolakonDevice.ReadMeterData | src/solakon_device.cpp:91-159 | both meters, with the value carried over a failed read |
| SolakonDevice.ReadBatteryData | src/solakon_device.cpp:161-205 | the battery, with both carried values |
| SolakonDevice.ReadEnergyData | src/solakon_device.cpp:207-293 | each energy field from its own read, or 0 |
| SnapshotMeaning.SnapshotTrue | src/solakon_device.cpp:28-293 | when all reads succeed, every field is the scaled decode of its own registers, however the device changes between reads |
| SnapshotMeaning.ReadsAreSession | src/solakon_device.cpp:28-293 | the reads of a snapshot are a session of the Modbus client |
| SnapshotMeaning.SnapshotOverSession | src/solakon_device.cpp:28-293 | in a snapshot fetched from a conforming server, in any pieces, every read gets the registers of its moment or is refused; the snapshot is the true one when none is; and the client is left with nothing pending, the replies used up and the next number |
| SnapshotMeaning.RefreshesTrue | src/solakon_device.cpp:28-293 | over one connection to a conforming server, in any number of refreshes, every snapshot none of whose reads is refused is the true one, whatever was refused before |
| SnapshotMeaning.EnergyFieldTrue | src/solakon_device.cpp:207-293 | an energy field whose own read succeeds is its decode, whichever other reads fail |
| SnapshotMeaning.EnergyFieldsIndependent | src/solakon_device.cpp:207-293 | an energy field depends on its own read alone, and is 0 when that fails |
| SnapshotMeaning.CarriedFromLastGood | src/solakon_device.cpp:93-204 | a shared temporary holds the value of the last read that succeeded, whichever register that was |
| SnapshotMeaning.MeterFieldOwn | src/solakon_device.cpp:93-158 | a meter field shows its own register, or 0 on failure, if and only if its own read succeeded, or no meter read before it did, or the last that did returned 0; for every division that gives 0 only for 0 |
| SnapshotMeaning.UnsignedFieldOwn | src/solakon_device.cpp:161-204 | the same of the battery fields read as unsigned |
| SnapshotMeaning.SignedFieldOwn | src/solakon_device.cpp:161-204 | the same of the battery fields read as signed |
| SnapshotMeaning.ConnectionOwn | src/solakon_device.cpp:132-134 | the second meter counts as connected as its own register says if and only if that read succeeded or the first meter does not count as connected |
| SnapshotMeaning.ChargeShowsVoltage | src/solakon_device.cpp:176-186 | with failed reads, the state of charge shows a voltage and the temperature a current |
| SnapshotMeaning.CurrentShowsVoltage | src/solakon_device.cpp:105-109 | with a failed read, a current shows a voltage |
| PartialSnapshot.RefreshesShow | src/solakon_device.cpp:91-293 | in any number of refreshes, whichever reads the server refuses: a field of the inverter or of the energy data is its own decode, or empty when refused; a meter or battery field shows the register last read without refusal into its temporary; the connection flags; and the snapshot is valid |
| PartialSnapshot.CarriedIsLeft | src/solakon_device.cpp:93-204 | a shared temporary holds the register of the last read that was not refused |
| PartialSnapshot.MeterOwnIff | src/solakon_device.cpp:93-158 | over such a run a meter field shows its own register, or 0 when refused, if and only if it is not refused or the register last read before it was 0 |
| SnapshotRegister.Linearizable | src/http_server.cpp:93-101 | for every number of threads and every interleaving of field copies, the calls take effect one at a time between call and return, and a get returns what the calls before it left |
| SnapshotRegister.StepKeeps | src/http_server.cpp:93-101 | every step of every thread keeps the invariant: one owner, and a copy that agrees with the register so far |
| SnapshotRegister.GetReturnsWholeSnapshot | src/http_server.cpp:98-101 | a get returns the initial snapshot or one that some thread passed to an update, never a mixture |
| SnapshotRegister.RealTimeOrder | src/http_server.cpp:93-101 | a call that returned before another was made took effect before it |
| SnapshotRegister.VersionsInOrder | src/http_server.cpp:93-101 | successive calls see the updates in order |
| SnapshotRegister.SawOneVersion | src/http_server.cpp:93-101 | every call sees, or leaves, exactly one version of the register |
| SnapshotRegister.CallReturns | src/http_server.cpp:93-101 | a waiting call that finds the lock free returns after one copy per field, and nobody else moves |
| SnapshotRegister.CallAccepted | src/http_server.cpp:93-101 | a thread that is in no call can make one at any time |
| SnapshotRegister.NoDeadlock | src/http_server.cpp:93-101 | from every state that any interleaving reaches, every waiting call can still return |
| HttpServer.PathOfRequest | src/http_server.cpp:141-148 | the target of a request line is found |
| HttpServer.NoTarget | src/http_server.cpp:141-148 | a request line without two spaces has no target |
| HttpServer.TargetServed | src/http_server.cpp:150-165 | what a client reads back: the snapshot for / and /data, the state of health for /health, and a refusal with status 200 for every other target |
| HttpServer.FieldsRead | src/http_server.cpp:178-186 | the fields a client finds: JSON, a connection to be closed, and the length of the body |
| HttpServer.BuildResponse | src/http_server.cpp:178-186 | a client reads the response back as a message with this body and nothing behind it |
| HttpServer.StatusDueIff | src/http_server.cpp:150-165 | the status a client reads is the one computed for its request if and only if the path is /data, / or /health |
| HttpServer.ResponseRoundTrip | src/http_server.cpp:178-186 | a client reading by sections 2.2 and 6.3 of RFC 9112 gets status line and body back, whatever the body and whatever follows |
| HttpServer.CutOffIsNoticed | src/http_server.cpp:167-186 | of any prefix of the response it reads the body if and only if the prefix is the whole response |
| HttpServer.WriteAll | src/http_server.cpp:167-173 | the bytes sent are always a prefix of the response, for every outcome of the writes |
| HttpServer.TakenByWrites | src/http_server.cpp:167-173 | what goes out is what successive writes take, until all is sent, the server stops or a write fails |
| HttpServer.ProgressSendsAll | src/http_server.cpp:167-173 | all of it when the server runs on and every write makes progress |
| HttpServer.HandleClient | src/http_server.cpp:128-176 | what goes out on one connection, for every request |
| Arguments.ParseArgs | src/main.cpp:123-164 | ends for every command line, and gives every setting its last option |
| Arguments.ParseOne | src/main.cpp:126-161 | one round of the loop: the option taken, and how many arguments it used up |
| CommandLine.ReadBack | src/main.cpp:123-164 | however options are spelled, the parser reads back exactly those options in order; an option word at the end without its argument means nothing |
| CommandLine.EveryLineIsSpelled | src/main.cpp:123-164 | every list of arguments is the spelling of some such list of options |
| CommandLine.SwitchesIff | src/main.cpp:126-158 | each switch is on if and only if one of its words was given |
| CommandLine.ServerIff | src/main.cpp:145-152 | the server runs if and only if --server was given, with or without a port |
| CommandLine.TextsGiven | src/main.cpp:128-160 | the last host and the last path given are used |
| CommandLine.NumbersGiven | src/main.cpp:134-156 | so are the last port modulo 65536, or 502 for 0, the last server port in range, or 8080, and the last rate kept within 1 to 60 |
| CommandLine.TextsNotGiven | src/main.cpp:123-164 | without them they are empty |
| CommandLine.PortsNotGiven | src/main.cpp:123-164 | without them the ports are 502 and 8080 |
| CommandLine.RateNotGiven | src/main.cpp:123-164 | without it the rate is 1 |
| Arguments.FoldIsMeaning | src/main.cpp:123-164 | taking options one by one gives every setting its last one |
| Arguments.MeaningInRange | src/main.cpp:134-156 | whatever the command line, the rate is in 1 to 60 and both ports are in 1 to 65535 |
| Arguments.NearestRate | src/main.cpp:153-156 | the rate is the usable one nearest to the one asked for last |
| Arguments.ServerPortIff | src/main.cpp:145-152 | the server port asked for last is used if and only if it is a port; otherwise it is 8080 |
| Startup.Configure | src/main.cpp:268-356 | it throws if and only if a file it needs does not convert; it gives up if and only if no host is named and the standard file names one after all or none is typed in; otherwise host, port and rate are the first ones given, all else is the file's, and a host typed in is saved |
| Startup.OneOutcome | src/main.cpp:268-356 | these conditions determine how a start ends |
| Startup.StartsIff | src/main.cpp:268-356 | without --config it starts if and only if its file loads and a host is given on the command line, in the file or by typing |
| Startup.StandardHasPath | src/main.cpp:286-304 | loading always names a path, so the branch for none is never taken |
| Startup.SavedMeans | src/main.cpp:329-332 | something is saved if and only if a host was asked for, given, and the file could be opened; it loads as the settings started with if and only if the host was typed as one trimmed line |
| Startup.NextRun | src/main.cpp:268-338 | after a host was typed in and saved, the next run without options starts with the same settings if and only if the host was typed as one trimmed line |
| Startup.PortOverrides | src/main.cpp:271-338 | for every command line and file, when the port asked for last is the one connected to, both directions, with and without a host typed in |
| Pacing.RefreshLoop | src/main.cpp:416-450 | when the loop fetches, over a whole run of clock readings; with --once, at the first reading only |
| Pacing.WholeMilliseconds | src/main.cpp:418-421 | comparing whole milliseconds decides as comparing the exact time would |
| Pacing.GreatestInterval | src/main.cpp:419-419 | the interval is the greatest whole number of milliseconds of which the rate fits into a second |
| Pacing.WaitRounds | src/main.cpp:419-419 | for any rate but 0 it is rounded towards zero |
| Pacing.FetchesApart | src/main.cpp:417-423 | at every rate each fetch comes at least the nominal interval less a millisecond after the one before |
| Pacing.FirstReading | src/main.cpp:417-423 | the first reading after the nominal interval is taken, and none while a millisecond of it is left |
| Pacing.FetchesSpaced | src/main.cpp:417-423 | successive fetches are at least one interval apart |
| Pacing.NotTooOften | src/main.cpp:416-432 | in every run, fetches times the interval never exceed the time passed |
| Pacing.NotTooSeldom | src/main.cpp:416-432 | with readings at most a tick apart, no fetch is later than an interval and a tick |
| Pacing.RateKeptIff | src/main.cpp:419-421 | every run keeps the nominal rate if and only if it divides 1000 |
| Monitor.Run | src/main.cpp:416-508 | command line and loop together; server mode ignores --once |
| Monitor.RunKeepsInterval | src/main.cpp:416-508 | for every command line and clock, fetches times the interval fit into the elapsed milliseconds |
| Monitor.FileRateFollowedIff | src/main.cpp:278-280 | whatever the file holds, its rate is followed in every run if and only if the command line gives another rate than 1 or the one in the file is 1 |

## Left out

- Modbus.Client.ReadHoldingRegisters: requires that the frame is not overrun, since the source is undefined otherwise; the lengths, ids and byte count of an answer are ignored as in the source.
- Modbus.Client.ReadString: the same requirement.
- NetworkScanner.Scan: does not model a scan of prefix length 0, for which the source shifts by the width of the word and is undefined; the attempts themselves are parameters, and the sort stands for `std::sort`.
- SolakonDevice.ReadInverterInfo: the uninitialised status word of a failed read is a parameter.
- HttpServer.HandleClient: takes the JSON text as given, and what a single `read` delivered as the whole request.
- SnapshotRegister.Linearizable: the mutex is taken as correct, and fields are plain integers.
- Pacing.RefreshLoop: the key presses and signals that end a run only fix its length; the two loops of the source are one method.
- Startup.Configure: takes what was typed in, and whether the file can be opened, as given; the messages it prints are left out, among them that the settings were saved even when they were not.
- ModbusSession.SessionCorrect: reads of no registers are not part of a session, since they send no request.
- Connecting, socket options, timeouts and `select`: operating-system calls.
- Recovery after a failed read: the client makes no attempt.
- `read_input_registers` has no body in the source, and `make_nonblocking` no caller.
- `save_discovered` saves settings without a path, which `save` refuses.
- Starting and stopping the server, the JSON text of a snapshot and all terminal output: presentation and operating-system behaviour.
- Register numbers are data; nothing is claimed about single ones. Nor is anything claimed about the wording of the comments in a saved file.
