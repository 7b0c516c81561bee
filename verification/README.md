# Verified model of the device server

A Dafny 4.11 model of the stateful and byte-level parts of the device server:
the Modbus RTU master of the HM310T driver, the sharing of devices between
connections, the Simple Pipe Protocol, the framing of serial replies, and the
paths and tables of the HTTP front end. `dafny verify dfyconfig.toml` checks
everything.

## What is modelled

**The Modbus checksum** (`CrcRegister.dfy`, `CrcPolynomial.dfy`,
`CrcDistance.dfy`). `ModbusCrc` has the nested loops of the driver on a buffer
of bytes and a 16-bit word. Its meaning is given twice, independently: by a
register that is fed one bit at a time (section 6.2.2 of "MODBUS over Serial
Line Specification and Implementation Guide V1.02"), and by the remainder of a
division of polynomials over GF(2). Which damage the checksum detects is proved
for messages of any length: every burst of 16 bits, every odd number of flipped
bits, and two flipped bits at any distance that is not a multiple of 32767.

**The Modbus master** (`Modbus.dfy`, `ModbusPort.dfy`). Function 3, function 6 and `read_dpt`
build their frames in place, send them over a line and classify the reply. At
the far end is a slave that follows sections 6.3, 6.6 and 7 of "MODBUS
Application Protocol Specification V1.1b3" and drops frames with a wrong CRC
(section 2.5.1.2 of the serial line guide). Loss or damage of the request,
exceptions raised by the slave, and loss, change or lateness of the reply are
parameters of every exchange. A reply that comes after its timeout waits in the
port and is the next thing read.

**Sharing of devices** (`DeviceModel.dfy`, `DeviceLaws.dfy`, `Devices.dfy`). The class `Device`
has the fields of the original and is tied, method by method, to functions on
values; runs of requests are reasoned about on the values. The holder of the
lock is stored nowhere: that there is one follows from an invariant. The
opening of a driver and its replies are parameters. Requests are served one at
a time here. `DeviceLaws` says what each of them does and answers without the
steps of the model.

**The server** (`ServerModel.dfy`, `ServerPaths.dfy`, `Manager.dfy`,
`ServerRuns.dfy`, `ConfModel.dfy`, `ConfLaws.dfy`, `Url.dfy`). The class `DevManager` holds a table of `Device`
objects and the connection names, dispatches request paths, and replaces the
table when the device list is read again. Runs open and close connections and
serve requests. Between reloads every device of such a run goes through a run
of `DeviceModel`, so that what is proved of one device holds on the server.
`ServerPaths` says what each literal request path does, `ConfLaws` what a line
of the list configures and which fault of a bad list is reported.

**Threads** (`Threads.dfy`, `ThreadLocks.dfy`, `ThreadTests.dfy`,
`ThreadSerial.dfy`). One device under any number of
interleaved threads, with a program counter each, `data_mutex`, `cmd_mutex` and
the shared lock on the table. The tests of `users` and `locked` in `use` come
before `data_mutex` is taken (server/device.cpp:33-35), and the releases of
`conn_close` and `release_all` go without the lock on the table
(server/dev_manager.cpp:52, server/dev_manager.cpp:254), as in the code. A
thread that runs alone does what `DeviceModel` says (`ThreadSerial.AloneIs`), so
the interleaved and the serial model are of one program.

**The Simple Pipe Protocol** (`Spp.dfy`, `Relay.dfy`). The reading driver, the
encoding that Readme.md:1159-1161 asks of a program behind a pipe, and the
emitter of `device_c use_dev`, which a driver of another server reads back. A
program that goes on running and does not finish a reply is a timeout for the
driver, and its text a parameter.

**Serial framing** (`SerialFraming.dfy`). The reading loop of the serial
driver with its acknowledge, refusal and trim strings, over chunks of the
kernel's choice.

## Where the code and its documentation differ

The model follows the code.

- Readme.md:26-27, Readme.md:82-84 and server/device.h:78-79 say that a device
  closes when its last user leaves. `release` keeps the driver
  (server/device.cpp:43-56); only `close` and a reload drop it.
  `DeviceModel.LastUserLeaves` is such a run, and `DeviceModel.OpenIff` says
  exactly when a driver is open: releases and the number of users play no part.
- server/device.h:85-87 says that other connections cannot use a locked device.
  This holds for requests served one at a time (`DeviceModel.LockExclusion`,
  `ServerRuns.ServerLockExclusion`). Under interleaving, "the only user of a
  locked device is the connection the lock was granted to, and nobody else is in
  an exchange with it" fails in three ways: a connection that has passed the
  unprotected test becomes a second user (`ThreadLocks.LockRace`, and
  `ThreadTests.LateUserWindow`: there is no other way); a connection
  whose use was wiped out by a close writes to a device that another has locked
  since (`ThreadLocks.StaleRun`); and a connection whose use was wiped out by a
  close is granted the lock because another is the only user
  (`ThreadLocks.MislaidRun`), as `lock` does not test its caller again
  (server/device.cpp:72-75). `ThreadLocks.GuardBrokenIff` and
  `ThreadLocks.GuardedThroughoutIff` show that no other step and no other run
  ends it; without a close beside an exchange or beside a lock only the first is
  left (`ThreadLocks.LockGuards`). While it holds, nobody but the holder ends
  the lock, except by a close or a reload (`ThreadLocks.GuardedLockEnds`).
- Readme.md:1150-1151 allows any special character. No driver opens with the
  newline, and the decoder misreads some answer with 'O', 'E' and 'F'; every
  other character suits every answer (`Spp.FitCharacters`).
- Readme.md:1159-1161 promises the lines of an answer. Leading empty lines are
  lost (`Spp.LostLine`); `Spp.UnchangedIff` says exactly which answers come
  back as they were.
- Readme.md:1157 makes a request one line of text. The driver sends a message
  with a newline as several lines (server/drv_spp.cpp:98), and their other
  replies go to the next callers (`Spp.AskAligned`).
- Readme.md:1160-1161 asks for the doubling of the special character; the
  emitter of `device_c` does not double it (server/device_c.cpp:120).
  `Relay.HopIff` and `Relay.ChainIff` say exactly what gets through.
- Section 2.5.1.2 of the serial line guide has the receiver check the CRC. The
  driver does not look at the CRC of a read reply
  (`Modbus.ReadIgnoresChecksum`); a write reply is compared whole
  (`Modbus.WriteChecksReply`). When the echo of a write is lost, the write is
  reported as failed although it took effect (`Modbus.LostEcho`). A reply of
  function 3 does not name its register, so after one late reply the driver goes
  on giving the values of the registers read before (`ModbusPort.StaleRead`).
- A refused `lock` leaves the caller a user of the device when `use` let it in
  (`DeviceModel.LockGranted`).

## Model

| member | source | states |
|---|---|---|
| CrcRegister.ModbusCrc | server/drv_serial_hm310t.cpp:11-26 | Exclusive-oring a byte in and shifting eight times, for the first len bytes of the buffer, computes the word of the register of section 6.2.2 fed bit by bit. |
| CrcRegister.FeedAtOnce | server/drv_serial_hm310t.cpp:18-23 | Up to 16 bits may be fed at once: exclusive-or them in, then shift as often. |
| CrcRegister.StepInjective | server/drv_serial_hm310t.cpp:20-22 | The shift with its conditional taps is a bijection on 16-bit registers. |
| CrcRegister.FeedLinear | server/drv_serial_hm310t.cpp:14-23 | The affine law: the difference of two registers depends only on the differences of the starts and of the messages. |
| CrcRegister.BurstDetected | server/drv_serial_hm310t.cpp:11-26 | Two different messages of equal length that differ only inside some 16 consecutive bits, at any alignment, have different checksums. |
| CrcRegister.ResidueIff | server/drv_serial_hm310t.cpp:34-43 | A message with two bytes appended has checksum 0 if and only if the bytes are the low and then the high byte of its checksum. |
| CrcRegister.CrcParity | server/drv_serial_hm310t.cpp:13-25 | The parity of the checksum's bits is the parity of all message bits. |
| CrcRegister.FrameParity | server/drv_serial_hm310t.cpp:41-43 | A message with its checksum appended has even parity. |
| CrcRegister.OddFlipsDetected | server/drv_serial_hm310t.cpp:13-25 | An odd number of flipped bits anywhere in a frame of residue 0 gives a residue that is not 0. |
| CrcPolynomial.RemainderUnique | server/drv_serial_hm310t.cpp:13 | Division by x^16+x^15+x^2+1 over GF(2) has only one remainder of degree below 16. |
| CrcPolynomial.CrcIsTheRemainder | server/drv_serial_hm310t.cpp:11-26 | A word is the checksum if and only if it is the remainder of the message times x^16, leading 16 coefficients complemented, modulo the generator. |
| CrcDistance.OrderIff | server/drv_serial_hm310t.cpp:20-22 | Shifts bring the polynomial 1 back exactly after the multiples of 32767. |
| CrcDistance.TwoFlipsIff | server/drv_serial_hm310t.cpp:11-26 | Messages that differ in exactly two bits have different checksums if and only if the distance of the bits is not a multiple of 32767. |
| Modbus.FrameResidue | server/drv_serial_hm310t.cpp:41-43 | Every frame the driver builds has residue 0. |
| Modbus.RequestBytes | server/drv_serial_hm310t.cpp:34-43 | The eight bytes of a read and of a write request, address and value high byte first, checksum low byte first. |
| Modbus.ReadMeaning | server/drv_serial_hm310t.cpp:48-70 | For every reply to a read: the value v exactly for a seven-byte reply of function 3, count 2 and the bytes of v, and each of the errors exactly when it is given. |
| Modbus.WriteMeaning | server/drv_serial_hm310t.cpp:93-113 | For every reply to a write: a success exactly for the echo of the request, and each of the errors exactly when it is given. |
| Modbus.Hm310t.Func3 | server/drv_serial_hm310t.cpp:29-71 | The frame built in place is the read request of section 6.3, and what is read, an older reply if one waits, is classified as the value, an exception or a malformed reply. |
| Modbus.Hm310t.Func6 | server/drv_serial_hm310t.cpp:73-114 | The frame built in place is the write request of section 6.6, and what is read, an older reply if one waits, is accepted only as its whole echo, with everything else classified. |
| Modbus.Hm310t.ReadDpt | server/drv_serial_hm310t.cpp:116-122 | The three decimal positions are the three low nibbles of register 5, and stay as they were when the read fails. |
| Modbus.DamagedIsDropped | server/drv_serial_hm310t.cpp:79-89 | A frame damaged inside 16 consecutive bits, in an odd number of bits or in two bits does not have residue 0, and the slave changes nothing and keeps silent. |
| Modbus.ReadIsLookup | server/drv_serial_hm310t.cpp:29-71 | A read changes no register. With an intact reply it gives a value exactly when the request arrives intact, no exception is raised and the register exists, and then the register's value; a lost request or reply is a timeout, and a changed reply is taken as it stands. |
| Modbus.ChangedRead | server/drv_serial_hm310t.cpp:67-70 | A changed read reply gives the register's value exactly if its length, function, count and value bytes are spared. |
| Modbus.WriteIsUpdate | server/drv_serial_hm310t.cpp:73-114 | A write sets this register alone exactly when the request arrives intact, no exception is raised and the register exists, and otherwise none; it is reported as successful exactly when the reply is intact too. |
| Modbus.WriteChecksReply | server/drv_serial_hm310t.cpp:113 | Whatever the slave or the line did, a write that succeeds has seen a reply of residue 0. |
| Modbus.ReadIgnoresChecksum | server/drv_serial_hm310t.cpp:67-70 | A read accepts a reply with any two bytes in place of the CRC, though only one pair has residue 0. |
| Modbus.RegistersAreCandidates | server/drv_serial_hm310t.cpp:29-114 | After any run every register holds the value last written with success or that of a later write reported as failed, or its initial one. |
| Modbus.RegistersAreLastWritten | server/drv_serial_hm310t.cpp:29-114 | Throughout a run the registers are the values last written with success if and only if every write that takes effect and is reported as failed writes the value that was there. |
| Modbus.RegisterFile | server/drv_serial_hm310t.cpp:29-114 | In any run, with any losses and replies in time, a write succeeds exactly when it reaches the slave and its reply is intact, and so does a read with an unchanged reply; the value read is that of the last successful write to the address or of a later failed one, and of the last successful one wherever the registers are settled; an exception never yields a value. |
| ModbusPort.EmptyIff | server/drv_serial.cpp:384-401 | Nothing waits in the port throughout a run that starts with nothing waiting if and only if no reply of the run comes late. |
| ModbusPort.PortRegisterFile | server/drv_serial_hm310t.cpp:29-114 | As long as no reply of a run over a port comes late, the run is that register file. |
| ModbusPort.ReadRightIff | server/drv_serial_hm310t.cpp:48-70 | A read that the slave serves gives its register's value if and only if nothing waits and the reply is in time, or what waits happens to be a read reply with this value. |
| ModbusPort.WriteReportIff | server/drv_serial_hm310t.cpp:93-113 | A write is reported as successful if and only if nothing waits and it is served with an intact reply in time, or an old echo of the same write waits. |
| ModbusPort.AlwaysOneBehind | server/drv_serial.cpp:384-401 | Once one reply waits, and as long as the slave serves every request, exactly one waits after each operation, its own. |
| ModbusPort.StaleRead | server/drv_serial_hm310t.cpp:67-70 | A read after a read then gives the value of the register that was read before. |
| Modbus.LostEcho | server/drv_serial_hm310t.cpp:91-113 | When the echo of a write is lost the caller gets a timeout, and the next read gives the new value. |
| Devices.Device.constructor | server/device.cpp:11-19 | A new device has no users, lock, driver or logs. |
| Devices.Device.Use | server/device.cpp:31-41 | Users, lock, driver and answer become those of the use step; a driver is created only if there is none, and none is closed. |
| Devices.Device.Release | server/device.cpp:43-56 | The log and the use of the connection go, with the lock if it was a user; the driver stays. |
| Devices.Device.Close | server/device.cpp:58-66 | The device is as new, and a live driver is counted as closed. |
| Devices.Device.Lock | server/device.cpp:68-76 | The state and answer of the lock step, users added by use included; a live driver is kept. |
| Devices.Device.Unlock | server/device.cpp:78-85 | Only the lock flag changes, as the unlock step says. |
| Devices.Device.LogStart | server/device.cpp:87-91 | An empty buffer for the connection, and nothing else changed. |
| Devices.Device.LogFinish | server/device.cpp:93-97 | No buffer for the connection, and nothing else changed. |
| Devices.Device.LogGet | server/device.cpp:99-110 | The loop that empties the queue returns its lines joined and leaves it empty; without a buffer it is an error. |
| Devices.Device.LogMessage | server/device.cpp:112-123 | The loops append the entry to every buffer and cut every buffer to its last 1024 entries. |
| Devices.Device.Exchange | server/device.cpp:132-147 | One message goes to the driver, and it and the reply or error are logged for everyone who logs. |
| Devices.Device.Ask | server/device.cpp:126-148 | The state, answer and messages of the ask step, opening included; a live driver is kept. |
| DeviceModel.RunKeepsInv | server/device.cpp:31-85 | Over every run a locked device has exactly one user, a used device has a driver, and logs hold at most 1024 entries. |
| DeviceModel.LockHasOneHolder | server/device.cpp:68-85 | In every reachable state the device is locked exactly when some connection holds the lock, and only one does. |
| DeviceModel.OpenIff | server/device.cpp:31-66 | After any run the driver is open if and only if it was opened, at the start or by a request that was let in, and no close followed. |
| DeviceModel.LastUserLeaves | server/device.cpp:43-56 | After a use and the release of the only user the driver is still open. |
| DeviceModel.LockGranted | server/device.cpp:68-76 | A lock is granted if and only if the caller is or can become the only user; a refusal changes at most the users, by adding the caller. |
| DeviceModel.UnderLock | server/device.cpp:31-85 | A request ends the lock if and only if it is the holder's release or unlock or a close; other connections are refused without effect. |
| DeviceModel.LockFreed | server/device.cpp:43-85 | Whatever ends the lock succeeds and leaves the device unlocked. |
| DeviceModel.LockExclusion | server/device.cpp:31-148 | Over whole runs, until the lock ends, every message to the driver is the holder's, use, ask, lock and unlock of others fail with the state unchanged, and their release costs only their own log. |
| DeviceModel.LogRefinement | server/device.cpp:87-147 | After any run a connection's buffer is the last 1024 entries of the unbounded log since its latest start or reading. |
| DeviceModel.LogGetAnswer | server/device.cpp:99-110 | log_get gives the end of the unbounded log, all of it up to 1024 entries, and an error exactly when there is no log. |
| DeviceModel.LogsIndependent | server/device.cpp:87-110 | Taking all log requests of the other connections out of a run changes neither users, lock and driver nor the log of a connection. |
| DeviceModel.NothingLost | server/device.cpp:99-123 | If at most 1024 entries come between readings, what was read and what is still buffered make up the whole traffic. |
| DeviceLaws.UseLaw | server/device.cpp:31-41 | A use lets in a user, and a newcomer exactly if the device is not locked and has a driver or can be given one; it then becomes a user, and otherwise gets the error of the lock first, of the opening second, and nothing changes. |
| DeviceLaws.AskLaw | server/device.cpp:126-148 | An ask that is let in sends its message once and answers with the driver's text exactly if that is the reply, and with the driver's error exactly if that is; one that is not let in sends nothing, changes nothing and gives the error of use. |
| DeviceLaws.AskLogs | server/device.cpp:112-147 | The two entries, with their prefixes, that an ask adds to every log, and the 1024 entries that are kept. |
| DeviceLaws.LockLaw | server/device.cpp:68-76 | A lock that is let in is granted exactly if there is no other user, and otherwise an error that leaves its caller a user. |
| DeviceLaws.UnlockLaw | server/device.cpp:78-85 | An unlock of an unlocked device succeeds for everyone, of a locked one for users only, and leaves users, driver and logs. |
| DeviceLaws.ReleaseLaw | server/device.cpp:43-56 | A release takes the log and the use of its caller, and the lock exactly if it was a user. |
| DeviceLaws.CloseLaw | server/device.cpp:58-66 | A close leaves no user, lock, driver or log. |
| DeviceLaws.LogLaws | server/device.cpp:87-110 | The log requests change their caller's log only; log_get is an error exactly without one, and its answer is built up entry by entry. |
| ServerModel.DecimalInjective | server/dev_manager.cpp:65 | Different connection numbers have different decimal names. |
| ServerModel.DecimalValue | server/dev_manager.cpp:65 | The number in a default name is written in decimal digits, most significant first, without leading zeros. |
| ServerModel.SetNameIff | server/dev_manager.cpp:56-73 | A name is refused exactly for a leading hash or if another connection has it; the default name never is; a refusal changes nothing and names stay unique. |
| ServerModel.ReleaseLeavesNothing | server/device.cpp:43-56 | After a release the device does not mention the connection, and users, logs and locks of the others are as before. |
| ServerModel.RunKeepsInv | server/dev_manager.cpp:76-260 | Every request of an open connection, reloads included, keeps names unique and device states sound, and lets devices mention open connections only. |
| ServerModel.NoLeaks | server/dev_manager.cpp:43-260 | From any device list, over every run in which only open connections make requests, the named connections are the open ones, names are unique, and users and log owners are open. |
| ServerModel.DefaultNamesNeverFail | server/dev_manager.cpp:250-257 | In every state reachable from any device list, opening a connection and release_all succeed and give the default name. |
| ServerModel.GoneEverywhere | server/dev_manager.cpp:49-54 | In every state reachable from any device list, after a connection closes or releases all, no device mentions it or is locked by it, and the uses, logs and locks of the others are as before. |
| ServerModel.ReloadIff | server/dev_manager.cpp:264-317 | A reload succeeds exactly for an acceptable file; then the table holds exactly its devices, all unused, and otherwise nothing changes. |
| ServerPaths.AskPath | server/dev_manager.cpp:84-93 | On the path /ask, a device name and a message, slashes of the message included, the server asks this device with this message and hands its answer on, with nothing else changed; no name and an unknown name are errors. |
| ServerPaths.UsePath | server/dev_manager.cpp:95-104 | On the path /use and a device name, the server lets this device make the step of a use and hands its answer on, with nothing else changed; no name and an unknown name are errors. |
| ServerPaths.ReleasePath | server/dev_manager.cpp:106-115 | On the path /release and a device name, the server lets this device make the step of a release and hands its answer on, with nothing else changed; no name and an unknown name are errors. |
| ServerPaths.LockPath | server/dev_manager.cpp:117-126 | On the path /lock and a device name, the server lets this device make the step of a lock and hands its answer on, with nothing else changed; no name and an unknown name are errors. |
| ServerPaths.UnlockPath | server/dev_manager.cpp:128-137 | On the path /unlock and a device name, the server lets this device make the step of an unlock and hands its answer on, with nothing else changed; no name and an unknown name are errors. |
| ServerPaths.LogStartPath | server/dev_manager.cpp:139-148 | On the path /log_start and a device name, the server lets this device make the step of the start of a log and hands its answer on, with nothing else changed; no name and an unknown name are errors. |
| ServerPaths.LogFinishPath | server/dev_manager.cpp:150-159 | On the path /log_finish and a device name, the server lets this device make the step of the end of a log and hands its answer on, with nothing else changed; no name and an unknown name are errors. |
| ServerPaths.LogGetPath | server/dev_manager.cpp:161-170 | On the path /log_get and a device name, the server lets this device make the step of the reading of a log and hands its answer on, with nothing else changed; no name and an unknown name are errors. |
| ServerPaths.ClosePath | server/dev_manager.cpp:199-208 | On the path /close and a device name, the server lets this device make the step of a close and hands its answer on, with nothing else changed; no name and an unknown name are errors. |
| ServerPaths.InfoPath | server/dev_manager.cpp:172-180 | /info with a device name is a listing exactly for a known one; no name and an unknown name are errors, and nothing changes. |
| ServerPaths.DevicesPath | server/dev_manager.cpp:182-190 | /devices is a listing, with an argument an error; nothing changes. |
| ServerPaths.ListPath | server/dev_manager.cpp:182-190 | /list is a listing, with an argument an error; nothing changes. |
| ServerPaths.GetTimePath | server/dev_manager.cpp:215-224 | /get_time gives some text, with an argument an error; nothing changes. |
| ServerPaths.ListConnNamesPath | server/dev_manager.cpp:241-248 | /list_conn_names is a listing, with an argument an error; nothing changes. |
| ServerPaths.PingPath | server/dev_manager.cpp:210-213 | /ping answers with the empty text, and nothing changes. |
| ServerPaths.ReloadPath | server/dev_manager.cpp:192-197 | /reload succeeds exactly for an acceptable file, and then the table has new devices for exactly its names; otherwise nothing changes. The connection names stay. |
| ServerPaths.SetConnNamePath | server/dev_manager.cpp:226-232 | /set_conn_name sets the name, and the default one without an argument; a leading hash and a name of another connection are errors, and nothing changes then. |
| ServerPaths.GetConnNamePath | server/dev_manager.cpp:234-239 | /get_conn_name gives the caller's name, and creates an empty one if there is none; with an argument it is an error. |
| ServerPaths.ReleaseAllPath | server/dev_manager.cpp:250-257 | /release_all releases the caller on every device and resets its name. |
| ServerPaths.SurplusPaths | server/dev_manager.cpp:227-252 | An argument of release_all and a second one of set_conn_name are errors, and nothing changes. |
| ServerPaths.MessageIgnored | server/dev_manager.cpp:77-260 | What follows the device name is looked at by ask and set_conn_name only. |
| ServerPaths.ArgumentIgnored | server/dev_manager.cpp:192-213 | A reload and a ping do not look at their argument. |
| ServerPaths.UnknownPath | server/dev_manager.cpp:259 | Any other action is the error that names it, and nothing changes. |
| ServerRuns.DeviceOfRun | server/dev_manager.cpp:76-260 | Between reloads, the state of a device after any run of connections and requests is that of the run of the requests that concern it. |
| ServerRuns.ServerLockExclusion | server/dev_manager.cpp:76-260 | Through any run of the server that neither reloads nor ends the lock, the holder keeps it, and requests of others for the device are refused with the whole server unchanged. |
| ConfModel.ParseLineIff | server/dev_manager.cpp:277-298 | A line passes the checks exactly if it has a legal name, a driver and pairs of a dashed parameter and a value. |
| ConfModel.FileAcceptedIff | server/dev_manager.cpp:264-317 | A file is accepted exactly if it opens and its lines are good and name different devices; the table then holds these devices and no others. |
| ConfLaws.ParsedConf | server/dev_manager.cpp:290-298 | A good line configures the driver of its second word; a parameter, its dash taken off, has the value after its last mention, and one that is not mentioned is not there. |
| ConfLaws.GoodNameIff | server/dev_manager.cpp:283-288 | A name is good exactly if it is not empty and has no space, newline, tab, slash, backslash or zero character. |
| ConfLaws.ParseLineFault | server/dev_manager.cpp:277-298 | Which fault of a bad line is reported, and when: too few words, an empty name, a bad symbol, an odd number of words, and then the first bad parameter. |
| ConfLaws.FileFault | server/dev_manager.cpp:264-317 | A refused file cannot be opened, or the fault reported is that of its first line that is bad by itself or names a device again. |
| Manager.DevManager.constructor | server/dev_manager.cpp:14-21 | The initial server of the file's table, or of the empty table if the file is bad. |
| Manager.DevManager.ReleaseAll | server/dev_manager.cpp:52 | The loop over the table releases the connection on every device object. |
| Manager.DevManager.SetConnName | server/dev_manager.cpp:56-73 | The loop over the names finds a clash exactly when there is one; only the names change. |
| Manager.DevManager.ConnOpen | server/dev_manager.cpp:44-47 | The connection gets its default name; the devices are untouched. |
| Manager.DevManager.ConnClose | server/dev_manager.cpp:49-54 | Every device releases the connection and its name goes; no driver is closed. |
| Manager.DevManager.OnDevice | server/dev_manager.cpp:84-170 | A request changes the device it names and no other object of the table. |
| Manager.DevManager.Run | server/dev_manager.cpp:77-260 | The response and the new state of table and names are those of the server's step for the path, error order included. |
| Manager.DevManager.ReadConf | server/dev_manager.cpp:263-317 | The loops build new, distinct, unused device objects for exactly the lines of a good file, or the old table stays. |
| Manager.ReadLine | server/dev_manager.cpp:277-298 | The loops over the name and the parameters find the first fault of a line, or its parameters. |
| Url.ParseUrl | server/dev_manager.cpp:28-41 | The loop splits a path at its first two slashes after a leading one. |
| Url.ParseMeaning | server/dev_manager.cpp:28-41 | Action and device hold no slash, and the parts put together give the path back but for slashes around empty parts. |
| Url.BuildParseIff | server/device_c.cpp:72-74 | Parsing the path the client builds gives the three parts back exactly if action and device hold no slash and a message comes with a device. |
| Threads.DriverOpenAlways | server/device.cpp:31-66 | In every interleaving, closes, reloads and the releases without the table lock included: a nonempty set of users has a driver, drivers created are those closed plus the open one, and each lock has one holder. |
| Threads.RepliesPaired | server/device.cpp:126-148 | In every interleaving in which no close runs beside an exchange, the pipe is empty whenever the command mutex is free, no message goes to a missing driver, and every thread gets the reply to its own message. |
| Threads.PairedThroughoutIff | server/device.cpp:126-148 | This, and that everyone in an exchange is a user, holds throughout a run if and only if no close of the run runs beside an exchange. |
| ThreadLocks.LockBrokenIff | server/device.cpp:33-40 | A step ends "a locked device has one user" exactly if it inserts a new user into a locked device after the unprotected test. |
| ThreadLocks.HolderBrokenIff | server/device.cpp:31-76 | A step ends "the only user of a locked device is the connection the lock was granted to" exactly if it is such a late user, or grants the lock to a connection that is no user. |
| ThreadLocks.GuardBrokenIff | server/device.cpp:31-148 | A step ends "the only user of a locked device is the connection the lock was granted to, and nobody else is in an exchange with it" exactly if it is a late user, a lock granted to a connection that is no user, or a lock granted while a connection that is no user is in an exchange. |
| ThreadLocks.GuardedThroughoutIff | server/device.cpp:31-148 | This holds throughout a run exactly if no step of the run is one of the three. |
| ThreadLocks.LockGuards | server/device.cpp:31-148 | In a run without a close beside an exchange or beside a lock in progress, and without a late user, it holds throughout, and every message written to the locked device is from the connection the lock was granted to. |
| ThreadLocks.GuardedLockEnds | server/device.cpp:43-85 | While it holds, the lock ends exactly with an unlock or release by the connection it was granted to, a close by anyone, or a reload. |
| ThreadLocks.LockRace | server/device.cpp:33-35 | There is a run after which a device is locked and has two users. |
| ThreadTests.LateUserWindow | server/device.cpp:33-40 | Only the window of the unprotected test makes a late user: at an earlier event its own thread found the device not locked, and it has been on its way to the insertion ever since, so that it has begun nothing in between. |
| ThreadTests.LockedOut | server/device.cpp:31-41 | While a device stays locked, a connection that is no user and not past the test, nor about to lock, in particular one that begins after the lock, never becomes a user, never waits to open or insert and never enters an exchange; this holds in every run, guarded or not. |
| ThreadTests.CrashIff | server/device.cpp:134-140 | A message is written to a driver that is gone exactly if its thread is about to write and the device has no driver. |
| ThreadTests.TornIff | server/dev_manager.cpp:49-54 | A release is torn from its device exactly if a reload swaps the table while a release without the table lock is running. |
| ThreadLocks.StaleRun | server/device.cpp:126-134 | There is a run without a late user after which a message of one connection has reached the device that another has locked as its only user. |
| ThreadLocks.MislaidRun | server/device.cpp:68-76 | There is a run, without a late user and without a stale exchange, after which a device is locked for a connection that is no user, and a message of its only user, another connection, has reached it. |
| ThreadLocks.CloseRace | server/dev_manager.cpp:200-206 | There is a run in which a close takes the driver away between the use and the message of another connection. |
| ThreadLocks.ReloadRace | server/dev_manager.cpp:49-54 | There is a run in which a reload replaces the device under the release of a connection that closes. |
| ThreadSerial.AloneIs | server/device.cpp:31-148 | From any state at rest, a request whose thread runs alone leaves the device as the serial model does and everything at rest again; an ask has the reply to its message exactly if the serial model answers it, and a lock that is granted is its caller's. |
| ThreadSerial.SerialRuns | server/device.cpp:31-148 | Threads that run one after the other are a run of the serial model, for any number of requests. |
| ThreadSerial.ReloadIs | server/dev_manager.cpp:315-316 | A reload leaves a device as new and an empty pipe. |
| Spp.DriverSpp.Open | server/drv_spp.cpp:52-66 | A pipe opens exactly after a header of version 1 or 2 followed by an answer; the special character is the header's first, and the stream stands after the greeting. |
| Spp.DriverSpp.ReadSpp | server/drv_spp.cpp:6-33 | The loop reads one reply from the stream, leaves the rest, and gives its text or error. |
| Spp.DriverSpp.Ask | server/drv_spp.cpp:94-108 | The message is sent as its lines, and one reply is read from what was waiting and what the program produced. |
| Spp.AskAligned | server/drv_spp.cpp:94-108 | With a program that answers every request line, a message gets the oldest waiting reply, and leaves the pipe empty if and only if it was empty and the message is one line. |
| Spp.DecodeReply | server/drv_spp.cpp:9-32 | A reply without clashing lines is read as it was meant and exactly to its end, whatever follows. |
| Spp.ReadingIs | server/drv_spp.cpp:9-32 | For arbitrary lines: a reading ends at the first line that is a terminator or starts with a special character that is not doubled, and leaves the rest; it is an answer, of the lines before with the doubling undone, if and only if this is the OK line, and otherwise the error of the line, or that of the unprotected one, or that of the end of the file. |
| Spp.HeaderIff | server/drv_spp.cpp:55-64 | A line is a header if and only if it is one character, SPP and a text that reads as 1 or 2. |
| Spp.RoundTripIff | server/drv_spp.cpp:15-31 | An encoded answer is read back, leading empty lines dropped, if and only if no doubled line of it reads as a terminator. |
| Spp.UnchangedIff | server/drv_spp.cpp:15-31 | An encoded answer comes back exactly as it was if and only if no doubled line of it reads as a terminator and it does not start with an empty line followed by others. |
| Spp.LostLine | server/drv_spp.cpp:29-30 | An answer of an empty line and another comes back without the empty line. |
| Spp.FitCharacters | Readme.md:1150-1161 | A driver can open with a special character, header and greeting included, and every answer of lines is read back, if and only if it is not the newline, 'O', 'E' or 'F'. |
| Spp.StreamRead | server/drv_spp.cpp:9-32 | Calls on a stream of replies give these replies, one each and in order. |
| Spp.TruncatedReply | server/drv_spp.cpp:15-16 | A reply cut anywhere before its end is the end-of-file error, never an answer. |
| Spp.TruncatedStream | server/drv_spp.cpp:9-32 | From a stream cut anywhere the complete replies are read, and the next call is the end-of-file error. |
| Relay.UseDev | server/device_c.cpp:95-136 | The session writes the greeting and one block for every request up to the first empty one, or the error that stopped it. |
| Relay.GreetingText | server/device_c.cpp:99-111 | The text of the greeting. |
| Relay.EmittedText | server/device_c.cpp:120-125 | The text of the block of an answer and of an error; nothing is written for an empty error. |
| Relay.ServedUpTo | server/device_c.cpp:114-128 | A session writes the blocks of the requests before the first empty one, in order, and no others. |
| Relay.GreetingOpens | server/device_c.cpp:99-112 | The greeting opens the driver of the next server, with nothing left over. |
| Relay.HopAnswer | server/device_c.cpp:120-121 | An answer that is not relayable comes out strictly shorter or as an error. |
| Relay.HopAnswerIff | server/device_c.cpp:120-121 | A hop of any text gives an answer if and only if the first line of its block at which a reader stops is the OK line; it is then of the lines before with the doubling undone, and what follows that line is left. |
| Relay.HopFailure | server/device_c.cpp:124-127 | An error comes out as the error with its first line, an empty one, for which nothing is written, as the timeout of the reader. |
| Relay.AlignedIff | server/device_c.cpp:114-128 | One reading takes the whole block if and only if no line of the answer starts with a '#' that is not followed by another, or the error has at most one line. |
| Relay.HopIff | server/device_c.cpp:114-128 | One hop keeps an answer or error and the end of its block if and only if no line of the answer starts with '#' and it does not start with a newline, or the error is one nonempty line. |
| Relay.SessionRead | server/device_c.cpp:114-128 | The output of a session of relayable responses, read at once, gives the responses one each and in order. |
| Relay.SessionAlignedIff | server/device_c.cpp:114-128 | A running session leaves nothing unread after any request if and only if all its responses are aligned. |
| Relay.SessionIff | server/device_c.cpp:114-128 | In a running session every request reads its own response if and only if all responses are relayable. |
| Relay.ChainIff | Readme.md:1081-1088 | A chain of any depth hands an answer or error on unchanged if and only if it is relayable. |
| Relay.ErrorsStayErrors | server/device_c.cpp:124-127 | Through a chain of any depth no error turns into an answer. |
| SerialFraming.TrimStr | server/drv_utils.cpp:4-13 | One trailing copy of the string goes, exactly if there is one, and the result says so. |
| SerialFraming.EndsWithIff | server/drv_utils.cpp:4-13 | A text ends with a string exactly if this is not empty and the text is something followed by it, and this something is what a cut leaves. |
| SerialFraming.DriverSerial.Read | server/drv_serial.cpp:378-417 | The loop gives the verdict on the events up to the first that completes a reply, and leaves the others. |
| SerialFraming.OneRead | server/drv_serial.cpp:400-414 | Without an acknowledge string the first chunk is the whole reply, with one trim string removed, and the other events are left. |
| SerialFraming.UnfinishedRead | server/drv_serial.cpp:384-414 | Chunks of which no part looks complete are the timeout error when the line falls silent, the read error when it fails, and their trimmed text when the port has no data. |
| SerialFraming.ChunkIndependence | server/drv_serial.cpp:384-416 | A reply of which only the whole looks complete is read to its end with the same verdict under every split into chunks. |
| SerialFraming.ChunkingIff | server/drv_serial.cpp:384-416 | The split of a complete reply never matters if and only if no proper part of it looks complete. |
| SerialFraming.AcknowledgedRead | server/drv_serial.cpp:405-416 | Body and acknowledge, however split, give the body with at most one trim string removed. |
| SerialFraming.RefusedRead | server/drv_serial.cpp:408-415 | Body and refusal, however split, give the refusal error with the body. |
| SerialFraming.ReadCondMeaning | server/drv_utils.cpp:24-35 | The four conditions: always, never, a question mark in the message, and one in its first word. |

## Left out

- The device calls: serial ports, sockets, USB, GPIB, VXI, termios, process pipes; their results are parameters.
- The HTTP server, the daemon, tun, the Tcl library, and the option presets of the other serial drivers: plumbing and constants.
- ConfLaws.ParsedConf: a parameter given twice is taken to have the later value; `Opt::put` is not part of this model.
- Splitting of text into words, option handling and URL escaping: the device list is a list of lists of words, escaping has been undone before `Url`.
- The texts of listings, of `info` and of the reload message: a response only says that there is one. Error texts of the server are error values.
- Time: timeouts and delays of pipes, `get_time`, signals. A timeout is an event of the serial line and a missing reply on the Modbus line.
- Scaling of volts, amperes and watts: floating point. `read_pwr` (server/drv_serial_hm310t.cpp:135) shifts by a sum and does not undo the split of `write_pwr`, so no round trip is stated.
- Message parsing of the HM310T driver (`ask`) and the truncation of its register number to 16 bits.
- Modbus.Hm310t.Func3: a reply comes in one read of the port; a reply split by the kernel is not modelled here, and the serial driver's own loop without an acknowledge string stops after one read. Replies that wait together are read one at a time.
- Modbus.RegisterFile: a request is intact, lost, or damaged in one of the three ways the checksum detects; a read reply changed on the way is covered by Modbus.ReadIsLookup and Modbus.ChangedRead only, because the driver does not check its CRC; late replies are treated in ModbusPort.
- Broadcast to slave address 0: the driver always uses address 1.
- Spp.DriverSpp.Ask: models an empty idn; the test of server/drv_spp.cpp:105 answers every message but `*idn?` with a nonempty idn.
- Relay.UseDev: the outcome of the requests that open, name and lock the device comes as one parameter, and the final release_all is not shown.
- `use_srv`, the other SPP mode of `device_c`: its loop is like that of `use_dev`.
- DeviceModel.LockExclusion: for requests served one at a time; under interleaving it is false, see ThreadLocks.LockRace, ThreadLocks.StaleRun and ThreadLocks.MislaidRun.
- Threads.RepliesPaired: the peer sends one reply for each request and nothing times out; a close beside an exchange is excluded, see ThreadLocks.CloseRace. Logging and the texts of errors are not part of the threads.
- Threads.DriverOpenAlways: a reload under a release without the table lock is undefined behaviour of the original; the model marks it (see ThreadLocks.ReloadRace) and lets the release do nothing to the new device. Reads of users and locked outside data_mutex see the current values; torn reads of the containers are not modelled.
- Threads on the names and the listings, which have no lock; the server as a whole is modelled with one event at a time.
- Devices.Device.Exchange: the log buffers are changed under cmd_mutex and not under data_mutex; this race is not modelled.
- The copy constructor of `Device`, used when a new table is put in place, copies no logs; a new table has none.
- The destructors of `DevManager` and of the drivers.
