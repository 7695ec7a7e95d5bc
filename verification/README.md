# Alsa Channel Control: the protocol and its parts, in Dafny

Alsa Channel Control lets a client (`alsa-client`, or an Android application) change the
volume of a machine's sound channels and press its media keys through `alsa-server`. This
project models the programs and proves what holds of them over every run. Check it with
`dafny verify dfyconfig.toml`.

## What is modelled

**The two-party protocol.** `ServerProgram` and `ClientProgram` give the child process of
the server and the command-line client twice: as a state machine whose steps are single
sends, receives and closes, and as a class `Session` with the fields and the control flow of
the source, whose methods are proved to perform exactly the machine's run. `ServerScripts` and
`ClientScripts` say what the machines, and so the programs, do on every script of received
messages, with all words, keysyms and statuses written out. `Protocol`
interleaves the two machines over two queues. On it rest `Progress` (termination, no
deadlock, what the handshake and the key exchange establish), `SessionEffects` (the effects
of a whole session, at most one message under way, the two volume loops in step),
`FailedKey` and `FailedKeyBytes` (what the client reports for a media key that fails),
`FailedExchange` (sessions whose secrets do not open) and `Refinement` (a finished session is
the two programs, each run on what it received).

**The message codec.** `CText` has `atoi`, decimal printing, `find` and `substr`;
`VolumeCommand` the printers of `channel=left,right` and `parseVolCommand`.

**The secured transport.** `Cbc` is cipher block chaining (section 6.2 of NIST SP 800-38A)
with the padding of section 6.3 of RFC 5652 over any invertible block function.
`CryptoObject` is the class `Crypto` with its buffers, lengths, terminators and `strncpy`;
`Transport` is `Client::send` and `Client::receive` over the 1024-byte buffer, and shows that
`Wire`, the packet-level view the protocol uses, allows every result the byte level can have.
`ByteRuns` are the runs whose receives return what the bytes come to under a given cipher; on
them `VectorLoss`, `KeyMismatch`, `Farewells` and `LostKey` settle what an encrypted session does
when `strncpy` has cut the key or the vector short.

**The Android client.** `AndroidClient` is one connection of the application, kept open over
any number of commands, again as a machine and as classes, and `AndroidScripts` says what it does
on every script of lines; `AndroidSession` composes it with the server, `AndroidAftermath` follows
a session after a media key that failed, and `AndroidRefinement` ties the runs back to the programs.

**The stateful parts.** `ParentServer` is the accept loop of the parent process with its list
of children under a SIGCHLD handler that may run between any two steps, and the numbering of
clients. `LineFile` is the Android line file, its temporary file, and the list on the screen.

## What the proofs assume

- A send arrives whole and in order, and `::send` does not fail. A `recv` may return several
  queued sends glued together (`Wire.Chunk`), except in the key exchange, whose framing the
  delays in the source aim at.
- A failed decryption reports FAILURE. At the packet level a message read in the wrong mode
  or under other keys gives FAILURE or some string, and the theorems there hold whichever it
  is; the theorems on `ByteRuns` compute it.
- A send to a side that has closed has no effect.
- The environment decides, for each change of volume and each media key, whether it succeeds
  (`outcome`), and whether a genuine RSA envelope opens.
- A public key in PEM form fits the buffer, and begins with a dash.
- Each volume argument, with what is sent around it, has 1 to 1023 bytes and no zero byte.
  `Transport.RoundTripExactly` says why: nothing else survives the buffer in either mode.
- Text is bytes, given as characters. `atoi` outside the range of `int`, which the C standard
  leaves open, is taken to be a saturating `strtol` cut down to 32 bits.
- In `ParentServer` the SIGCHLD handler runs between two statements of the accept loop, and every
  SIGCHLD comes from a child that has exited, stopped or gone on.
- In `LineFile` no input or output fails, and a rename replaces its target.

## Where the code departs from its evident intent

The model follows the code.

- `sendMediaCmd` tests its last reply the wrong way round: a server that answers `ok` makes
  it return FAILURE. The exact statuses are in `SessionEffects.StatusIsReported` for a key
  that works, and in `FailedKey.FailedKeyIsReported` and `FailedKeyBytes.StatusOnBytes` for one that
  fails.
- The server confirms `prev` with `prev`, and its branch for `stop` repeats the test for
  `prev` and is never taken.
- `receiveRemotePubKey`, `receiveAESIv` and `receiveAESKey` may return END, which their callers
  do not take for a failure.
- After a refusal the server sends `err` and `end`. A client that reads both with one `recv`
  takes them for a public key (`Progress.ClientIsRefused`), and fails its handshake later
  (`SessionEffects.RefusedFails`). In the same way `err` and `end` after a media key that failed may
  be taken for its confirmation (`FailedKeyBytes.EitherStatusHappens`, `SuccessHappensExactly`).
- The second argument of `substr` at `src/server/server.cpp:600` is a length but is given an
  index. That is harmless if '=' precedes ',' (`VolumeCommand.OverlongFieldHarmless`), and cuts
  the left volume short if ',' comes first (`VolumeCommand.CommaCutsVolumes`).
- A channel whose name holds a separator, such as an ALSA control `PCM,0`, is not set as asked: a
  name with '=' reaches `changeVolume` cut off, and one with ',' whole, but with a right volume read
  from the name (`VolumeCommand.NameIsKeptExactly`, `CommaInName`, `RoundTripsExactly`).
- `strncpy` installs keys faithfully only when no other byte follows a zero byte
  (`CryptoObject.ShareKeys`, `Progress.KeysAgreeExactly`). If only the vector is cut short, the
  handshake fails, except for vectors that happen to let words of five bytes through
  (`KeyMismatch.VectorCutExactly`). If the key is cut short, the client's farewell may be read
  as a media key that nobody asked for (`LostKey.SafeExactly`).
- The Android socket counts as connected after a close, so a closed connection is not opened
  again and later commands are lost.
- A fork that fails is recorded as the child with pid -1 and uses up a client number
  (`ParentServer.NumberedWithoutGap`). A shutdown then signals -1, and so every process
  (`ParentServer.ShutdownSignalsExactly`).
- The SIGCHLD handler waits for one child, so that merged signals leave zombies
  (`ParentServer.ZombiesLeftExactly`). Only a child that stops or goes on, whose SIGCHLD the handler
  gets as well, lets it wait for one of them later.
- `receive` writes its terminator one byte past the end of a full buffer of plain text
  (`Transport.Client.Receive`).
- The file loses every copy of a removed item, the list on the screen only the first
  (`LineFile.AgreeExactly`).

## Model

| member | source | states |
|---|---|---|
| CText.AtoiInvertsItoa | src/server/server.cpp:600-601 | For every 32-bit int and whatever non-digit text follows, `atoi` reads back the printed number. |
| CText.AtoiReads | src/server/server.cpp:600-601 | Blanks (spaces and the characters 9 to 13), at most one sign and zeros before a number, and other text after it, make no difference to `atoi`; an `int` is read as itself, other numbers as their 32 low bits, and numbers beyond `long` as -1 or 0. |
| CText.AtoiOfNoNumber | src/server/server.cpp:600-601 | Text in which no digit follows the blanks and at most one sign is read as 0. |
| CText.DecHasNoLeadingZero | src/client/client.cpp:371 | A printed number begins with a zero only if it is 0. |
| CText.AtoiStopsAtSeparator | src/server/server.cpp:600-601 | Skipping blanks, the sign and the digits never cross a ',' or '=', so `atoi` gives the same number with and without the text from the separator on. |
| VolumeCommand.ParserTotal | src/server/server.cpp:593-604 | On every byte string: `changeVolume` is reached exactly when '=' and ',' both occur, in either order, and no `substr` start lies outside the string. |
| VolumeCommand.OverlongFieldHarmless | src/server/server.cpp:594-604 | Whenever the first '=' precedes the first ',', the call has the text before '=', the number strictly between the two separators, and the number after the comma, although the middle substring is over-long. |
| VolumeCommand.PrintParse | src/client/client.cpp:412 | Printing a separator-free name and two ints, with or without the newline of `println`, and parsing gives exactly them back. |
| VolumeCommand.BlanksAreHarmless | src/server/server.cpp:600-601 | Blanks before either number, and text other than digits after the second, make no difference: `Master=50, 60` asks for 50 and 60. |
| VolumeCommand.NameIsKeptExactly | src/server/server.cpp:594-599 | A call names the channel that was printed if and only if its name holds no '='. |
| VolumeCommand.CommaInName | src/server/server.cpp:595-601 | For a name with ',' and no '=' the name is kept, the right volume is the number read from the name after its comma whatever was asked for, and the left one is cut to as many characters as the name has before the comma. |
| VolumeCommand.RoundTripsExactly | src/server/server.cpp:593-604 | A name survives printing and parsing with every pair of ints, with or without a newline, if and only if it holds neither separator. |
| VolumeCommand.CommaCutsVolumes | src/server/server.cpp:600 | A witness: `ab,c=100,50` asks for the volumes 10 and 0. |
| VolumeCommand.ControlWordsAreNoArgument | src/server/server.cpp:593-597 | The `end` and `bye` of a client that gave up are parse errors to a server in its volume loop. |
| VolumeCommand.CountAgrees | src/client/client.cpp:371-374 | The server's `atoi` reads exactly the channel count that the client printed. |
| SessionKeys.StrNCpyExact | src/crypto/Crypto.cpp:281 | `strncpy` over a whole buffer reproduces it if and only if every byte after the first zero byte is zero. |
| SessionKeys.InstalledExact | src/crypto/Crypto.cpp:275-300 | The key and vector a client installs equal those sent if and only if both are zero-tailed. |
| Wire.DeliversSingle | src/server/Client.cpp:74-99 | One send of 1 to 1023 NUL-free bytes, read alone in the mode it was written in, has exactly one possible result: the message itself. |
| ServerProgram.RankFalls | src/server/server.cpp:137-168 | After any receive the server needs at most 11 further steps before it needs its client again, and a closed connection always brings it nearer to its end. |
| ServerProgram.Session.SendData | src/server/Client.cpp:46-71 | One packet is sent, sealed exactly when the flag is set and crypto exists, and the program continues the machine's run. |
| ServerProgram.Session.ReceiveData | src/server/Client.cpp:74-99 | Uses up one result, or reports a closed connection in the mode read, and continues the machine's run. |
| ServerProgram.Session.InitCrypto | src/server/Client.cpp:34-43 | Sets crypto and the send flag once; a second call fails and changes nothing. |
| ServerProgram.Session.ReceiveRemotePubKey | src/server/Client.cpp:155-170 | On FAILURE no key is stored and the refusal follows; on END, which is no failure to the caller, the secrets follow. |
| ServerProgram.Session.SendSecret | src/server/Client.cpp:173-239 | Vector, sealed key and payload are sent in that order, for the peer's key. |
| ServerProgram.Session.ExchangeKeys | src/server/server.cpp:238-302 | The exchange with a client that wants encryption is the machine's run, to the final `redy` or to the catch block. |
| ServerProgram.Session.ClientHandshake | src/server/server.cpp:196-317 | All sends, receives and field changes are those of the machine from its start, to the command loop or to the catch block. |
| ServerProgram.Session.ParseVol | src/server/server.cpp:545-555 | The effect log and the verdict for an argument are those of the parser and the environment; an argument that does not parse leaves the log alone. |
| ServerProgram.Session.OneChannel | src/server/server.cpp:531-568 | One turn of the volume loop is one receive and one reply of the machine, or the failure path. |
| ServerProgram.Session.VolumeLoop | src/server/server.cpp:531-570 | The counting loop is the machine's run from channel 0, also for counts that are zero or negative. |
| ServerProgram.Session.VolumeBranch | src/server/server.cpp:491-570 | The volume command from its first confirmation on, ending in the command loop or in the catch block. |
| ServerProgram.Session.MediaBranch | src/server/server.cpp:355-454 | A media key is pressed once; success confirms it and continues, failure answers `err` and leads to the catch block. |
| ServerProgram.Session.ProcessCommand | src/server/server.cpp:320-584 | One command is the machine's run from its waiting point, and the status says how main continues. |
| ServerProgram.Session.Serve | src/server/server.cpp:135-168 | The whole child process ends, and its sends, fields and effects are those of the machine's run on any script of receives. |
| ServerScripts.OtherWordsFail | src/server/server.cpp:213-229 | On every script that does not begin with exactly `enc` or `noenc`, the empty one included, the whole child ends in its catch block, has sent exactly `helo` and `end`, and has done nothing. |
| ServerScripts.NoencIsPlain | src/server/server.cpp:224-226 | `noenc` is answered with `redy` in plain text, at every server, and commands follow. |
| ServerScripts.EncIsRefused | src/server/server.cpp:231-236 | `enc` at a server without encryption: the child ends, having sent exactly `helo`, `err` and `end`, all in plain text. |
| ServerScripts.KeyIsRefused | src/server/server.cpp:262-269 | A public key that cannot be received, or an `err` in its place: `helo`, the server's key, `err` in plain text and a sealed `end`. |
| ServerScripts.SecretsAreSent | src/server/server.cpp:271-317 | Otherwise the six parts of the secrets go out, for the key received or for nobody if the connection was closed, and the session goes on, encrypted, if and only if the next word is `redy`. |
| ServerScripts.NothingWithoutHandshake | src/server/server.cpp:135-168 | Every script that does not get through the handshake ends in the catch block without any effect and without a `redy` sent. |
| ServerScripts.AdmittedExactly | src/server/server.cpp:213-317 | The server sends its confirming `redy` if and only if the script begins with `noenc`, or with `enc`, something other than a refusal, and `redy`, at a server that encrypts. |
| ServerScripts.KeyIsPressed | src/server/server.cpp:354-454 | In every mode: `play`, `next` and `prev` press 0x1008ff14, 0x1008ff17 and 0x1008ff16 once; a key that works is confirmed by `ok`, `ok` and `prev`, and the session goes on; one that fails is answered `err`, then `end`, and the session is over. |
| ServerScripts.EndIsAnswered | src/server/server.cpp:343-352 | `end` is answered with `bye`, and the child ends without a failure. |
| ServerScripts.OtherCommandsFail | src/server/server.cpp:572-583 | Any other word is answered `err` and `end`, a failed receive or a closed connection with `end` alone, and the child ends in its catch block with no further effect. |
| ServerScripts.VolumeIsServed | src/server/server.cpp:491-570 | A volume command with as many arguments as its count asks for is answered `ok`, `ok`, and then `ok` for each argument that parses and whose change succeeds and `err` for every other; it makes one change for each that parses, in order, and the session goes on. |
| ServerScripts.VolumeBreaksOff | src/server/server.cpp:500-545 | If it breaks off before its count, or before its last argument, everything until then has been answered and done, and `end` follows. |
| ClientProgram.RankFalls | src/client/client.cpp:127-202 | Every receive, whatever it returns, brings the client strictly nearer to its end. |
| ClientProgram.Session.SendData | src/client/Client.cpp:125-150 | One packet is sent, sealed under the client's own keys exactly when `useEnc` is set and crypto exists, and the program continues the machine's run. |
| ClientProgram.Session.ReceiveRemotePubKey | src/client/Client.cpp:232-247 | FAILURE leads to the refusal; END does not and the exchange goes on. |
| ClientProgram.Session.SetSecret | src/crypto/Crypto.cpp:275-300 | A secret of the wrong length is refused and changes nothing; otherwise it is installed as `strncpy` leaves it. |
| ClientProgram.Session.ReceiveSecret | src/client/Client.cpp:250-349 | Three receives, an early END at any of them, the opening and the installation are the machine's run. |
| ClientProgram.Session.ExchangeKeys | src/client/client.cpp:247-305 | The key exchange from the server's key to the client's `redy` is the machine's run. |
| ClientProgram.Session.ServerHandshake | src/client/client.cpp:206-328 | The handshake performs the machine's run and its status decides how main continues. |
| ClientProgram.Session.SendVolCmd | src/client/client.cpp:331-458 | The volume command, with every early return, is the machine's run. |
| ClientProgram.Session.SendChannels | src/client/client.cpp:409-457 | The indexed channel loop is the machine's run from channel 0. |
| ClientProgram.Session.SendMediaCmd | src/client/client.cpp:461-520 | The media command with its inverted last test is the machine's run. |
| ClientProgram.Session.Finish | src/client/client.cpp:173-200 | `bye` after an END, then `end`, one more receive whose result does not matter, and close. |
| ClientProgram.Session.Execute | src/client/client.cpp:127-202 | The whole program ends, and its sends and statuses are those of the machine's run on any script of arrivals. |
| ClientScripts.HeloIsNeeded | src/client/client.cpp:216-233 | On every script that does not begin with `helo` the client sends `end` alone, and its handshake returns -1. |
| ClientScripts.PlainHandshake | src/client/client.cpp:239-246 | Without encryption `helo` is answered `noenc`, and the client waits for `redy`. |
| ClientScripts.EncryptedHandshake | src/client/client.cpp:239-274 | With encryption `helo` is answered `enc`; a public key that fails or is `err` is answered `err` and `end` with -1, and anything else with the client's own key. |
| ClientScripts.SecretOnScript | src/client/Client.cpp:250-349 | Three parts that arrive are installed, as `strncpy` leaves them, if and only if they are the parts 0, 1 and 2 of one secret for this client, they open, and the secret has 32 bytes (the key) or 16 (the vector); otherwise the handshake returns -1. |
| ClientScripts.ClosedSecretIsIgnored | src/client/Client.cpp:250-349 | A connection closed before any of the three parts leaves the keys as they are, and the client goes on. |
| ClientScripts.RedyOnScript | src/client/client.cpp:308-327 | At the last receive of the handshake `redy` starts the command, `end` returns 2 with `bye` and `end`, and everything else returns -1 with `end`. |
| ClientScripts.CommandOrLeave | src/client/client.cpp:127-202 | On every script either the handshake fails, no command is run and the last packets are the farewell; or the run is that of the command, begun right after a `redy`. |
| ClientScripts.MediaStatusExactly | src/client/client.cpp:487-519 | On every script whose handshake succeeds, the media command's status is 2 exactly for a closed connection or `end`, and then the last packets are `bye` and `end`; -1 exactly for a failed receive, `err` or `ok`; and 0 for every other string. |
| ClientScripts.VolumeStatusExactly | src/client/client.cpp:345-457 | On every script whose handshake succeeds, the volume command says its words one by one, up to the first whose answer stops it: anything but `ok` for the first two, and a failed receive, a closed connection, `err` or `end` for a channel. The status is 0 if none does, 2 for a closed connection or `end`, and -1 otherwise. |
| Progress.StepFalls | src/server/server.cpp:137-165 | Every step of either side, also on junk and on a closed connection, lowers one measure made of program points, channels left and queued packets. |
| Progress.StepKeepsLive | src/client/client.cpp:206-328 | Every step keeps the invariant: the handshake is in one of its phases, and afterwards two waiting programs always have a packet under way. |
| Progress.LiveMoves | src/client/client.cpp:127-202 | In every state with the invariant in which not both sides have closed, some step is possible. |
| Progress.SessionTerminates | src/client/client.cpp:127-202 | For every choice of flags, request, keys and environment no run is longer than 424 + 42 * channels steps, and a run can be continued exactly when not both sides have closed. |
| Progress.SessionCompletes | src/server/server.cpp:137-165 | Every run can be continued to one in which both sides have closed. |
| Progress.StepKeepsHandshake | src/client/client.cpp:129-134 | The status of the handshake never changes afterwards. |
| Progress.HandshakeAgrees | src/client/client.cpp:308-327 | Once `serverHandshake` has returned SUCCESS, and in every later state, the server has sent its final `redy`, and the server's receive mode, its send mode and the client's mode are equal. |
| Progress.KeysAgreeExactly | src/server/server.cpp:271-287 | After the key exchange the client's key and vector equal the server's if and only if both are zero-tailed. |
| Progress.ClientIsRefused | src/client/client.cpp:258-265 | A refused client reads one of the two refusals or both: it fails its handshake exactly if it read one, and goes on as if it had a key exactly if it read both at once. |
| SessionEffects.MediaCommands | src/server/server.cpp:354-454 | Each word a client sends for a media key reaches the right key, with `prev` confirmed by `prev`. |
| SessionEffects.OneKeyIsPressed | src/include/Constants.h:34-36 | A finished media session has pressed exactly one key, 0x1008ff14 for play, 0x1008ff17 for next and 0x1008ff16 for prev, whether it worked or not. |
| SessionEffects.ServerMisreadsEnd | src/server/server.cpp:531-568 | A server still in its volume loop takes the client's early `end` for an argument: no effect, one `err`, and it stays ready for what follows. |
| SessionEffects.StepKeepsSession | src/client/client.cpp:331-520 | Every step of a cooperative session keeps its lock-step phases, which fix both positions, the packets under way and the effects so far. |
| SessionEffects.CallsAreExact | src/server/server.cpp:531-568 | The expected calls are the requested changes in order without gaps, all but the last successful, stopping only at the end, after a failure, or before an argument that does not parse. |
| SessionEffects.EffectsAreExpected | src/server/server.cpp:320-584 | At every moment of a session the effects begin the expected ones, and when both sides have closed they are all of them: the trailing `end` adds nothing. |
| SessionEffects.VolumesAreExact | src/client/client.cpp:408-456 | A finished volume session has made exactly the requested changes up to and including the first that failed. |
| SessionEffects.VolumesAsRequested | src/client/client.cpp:408-456 | The same for separator-free names and numbers, without parsing in the statement: change k sets channel k to the two numbers given for it. |
| SessionEffects.StatusIsReported | src/client/client.cpp:489-519 | In a finished session the volume command reports SUCCESS exactly when every channel was set; for a media key that worked, SUCCESS comes back exactly for `prev`. |
| FailedKey.FailedKeyIsReported | src/client/client.cpp:499-517 | In a finished session whose media key failed there is a status; it is FAILURE unless one `recv` took both `err` and `end`, and in plain text it is SUCCESS exactly if one did. |
| FailedKey.StatusOfFailedKey | src/client/client.cpp:487-519 | The same at every moment of every run: the reply is read at most once, and the status is there from then on. |
| FailedKeyBytes.StatusOnBytes | src/client/client.cpp:499-517 | In both modes the status of a finished session is SUCCESS exactly if one `recv` took both packets and they can be misread together: always in plain text, and if the second ciphertext ends in a padding otherwise. |
| FailedKeyBytes.EitherStatusHappens | src/client/client.cpp:487-517 | For every session whose key fails, in both modes and under every block cipher, a finished run reports FAILURE, and one reports SUCCESS if the reply can be misread. |
| FailedKeyBytes.SuccessHappensExactly | src/client/client.cpp:499-517 | Some finished run reports SUCCESS for a failed key if and only if the session is in plain text or the second ciphertext, opened with the first for its vector, ends in a padding. |
| FailedKeyBytes.EncryptedStatusExactly | src/client/Client.cpp:153-179 | In an encrypted session the status of a failed key is SUCCESS exactly if one `recv` took both ciphertexts and the second, opened with a wrong vector, happens to end in a padding. |
| SessionEffects.RefusedHasNoEffect | src/server/server.cpp:231-236 | A client that wants encryption from a server without it never causes an effect, and once it has left the handshake it has failed it. |
| SessionEffects.RefusedFails | src/client/client.cpp:129-131 | However its refusals are read, a finished refused session has a failed handshake. |
| FailedExchange.UnopenedHasNoEffect | src/client/client.cpp:280-296 | If both sides encrypt and one of the two secrets does not open, no run has an effect. |
| FailedExchange.EffectsAreSafe | src/server/server.cpp:196-584 | For every choice of flags, and whether or not the secrets open, the effects so far begin the expected ones, unless the client ends up with keys other than the server's. |
| VectorLoss.ReadingIsMixed | src/crypto/Crypto.cpp:297 | Between a vector and what `strncpy` leaves of it, a short message is read in either direction as its padded block with the lost bytes added. |
| VectorLoss.WordsExactly | src/crypto/Crypto.cpp:297 | For every length from 1 to 15: a word of that length comes through if and only if no byte of the vector is lost, or the vector spares the word, ends it with a zero and forms a shorter padding. |
| VectorLoss.OneLengthAlone | src/crypto/Crypto.cpp:297 | A vector that loses bytes lets words of at most one length through. |
| VectorLoss.SomeVectorLetsThrough | src/crypto/Crypto.cpp:297 | For every length from 1 to 14 there is a vector that loses bytes and lets words of that length through. |
| KeyMismatch.VectorCutExactly | src/client/client.cpp:308-321 | With the key installed and the vector cut short, under every block cipher: the handshake succeeds exactly if the vector lets words of five bytes through, and a finished session has then pressed the media key asked for, and in all other cases done nothing. |
| KeyMismatch.InstalledKeyIsSafe | src/crypto/Crypto.cpp:275-300 | Under every block cipher the effects begin the expected ones as soon as the server's key is zero-tailed, whatever its vector. |
| Farewells.HandshakeExactly | src/client/client.cpp:308-327 | Whatever `strncpy` has made of the secrets, and under every block cipher, the handshake returns SUCCESS, END or FAILURE as the client reads `redy`, `end` or anything else from the server's final `redy`. |
| Farewells.EndExactly | src/client/client.cpp:173-200 | If the handshake fails, or nothing was asked for, the session does exactly what the server reads from the client's `end`: one media key, or nothing. |
| Farewells.ByeExactly | src/client/client.cpp:173-200 | If the client reads `end` from the server's `redy`, the session does what `bye` and `end` spell together if one `recv` takes both; otherwise what `bye` spells and, after a media key that worked, what `end` spells. |
| LostKey.LostKeyPresses | src/server/server.cpp:326-361 | For every key of the server that is cut short and every media key there is an invertible block cipher under which each finished session presses that media key, whatever was asked for. |
| LostKey.EveryStatusHappens | src/client/client.cpp:308-327 | For every key of the server that is cut short and every word there is an invertible block cipher and a finished session whose client reads that word from the final `redy`: all three results of the handshake happen. |
| LostKey.SafeExactly | src/crypto/Crypto.cpp:281 | For every request, the effects are safe under every block cipher if and only if the server's key is zero-tailed. |
| ByteRuns.ByteRunCompletes | src/server/Client.cpp:74-99 | Under every block cipher a run with byte-level results can be continued to one in which both sides have closed. |
| SessionEffects.LockStep | src/server/server.cpp:320-570 | Until the server fails, and outside the key exchange, at most one message is under way, counting both directions. |
| SessionEffects.StreamIsMessageQueue | src/server/Client.cpp:78 | Until the server fails no `recv` of either side glues sends together, so runs over the byte stream are runs over a message queue. |
| SessionEffects.LoopsAgree | src/server/server.cpp:508-531 | The server's loop bound is the client's number of channels, and the two indices agree at every matching point. |
| Refinement.SessionIsThePrograms | src/server/server.cpp:135-168 | In a finished session each side holds and has sent exactly what its program computes from what it received. |
| Cbc.DecryptInverts | src/crypto/Crypto.cpp:135-161 | For any invertible block function, decryption undoes encryption of any number of blocks. |
| Cbc.UnpadInverts | src/crypto/Crypto.cpp:151-154 | Removing the padding gives back every message. |
| Cbc.OpenInverts | src/crypto/Crypto.cpp:75-98 | Decrypting the encryption of any message, of any length, gives the message. |
| CryptoObject.StrNCpyInto | src/crypto/Crypto.cpp:281 | The copy-then-pad loop leaves the specified bytes and nothing else changed. |
| CryptoObject.EncryptBlocks | src/crypto/Crypto.cpp:86-91 | The block loop writes the chained ciphertext at its position, leaves what came before, and carries the chaining value on. |
| CryptoObject.DecryptBlocks | src/crypto/Crypto.cpp:146-151 | The same for decryption. |
| CryptoObject.EncryptMessage | src/crypto/Crypto.cpp:45-98 | The lengths of the two calls add up to the padded message, which fits message length plus 16 for every length and fills it exactly for whole blocks. |
| CryptoObject.DecryptMessage | src/crypto/Crypto.cpp:100-161 | The two calls together recover the text or reject the padding, and the terminator lies strictly inside the ciphertext's own length. |
| CryptoObject.Crypto.AesEncrypt | src/crypto/Crypto.cpp:75-98 | The buffer and the returned length hold the sealed message under the object's key and vector. |
| CryptoObject.Crypto.AesDecrypt | src/crypto/Crypto.cpp:135-161 | Fails exactly when the ciphertext does not open; otherwise returns the ciphertext's length, with the text and its terminator in the buffer. |
| CryptoObject.Crypto.RsaEncrypt | src/crypto/Crypto.cpp:45-73 | The secret is sealed under a session key that the remote public key seals, inside the buffer. |
| CryptoObject.Crypto.RsaDecrypt | src/crypto/Crypto.cpp:100-133 | However many bytes of the vector were received, it fails exactly when the session key or the payload does not open under the first 16 bytes of the vector's buffer; otherwise it returns the text's length, with the terminator inside the buffer. |
| CryptoObject.Crypto.SetAESKey | src/crypto/Crypto.cpp:275-284 | Accepts exactly 32 bytes, installs what `strncpy` leaves, and keeps the vector. |
| CryptoObject.Crypto.SetAESIv | src/crypto/Crypto.cpp:291-300 | Accepts exactly 16 bytes, installs what `strncpy` leaves, and keeps the key. |
| CryptoObject.Convey | src/server/Client.cpp:173-205 | One secret sealed by the server and opened by the client arrives byte for byte with its length. |
| CryptoObject.ShareKeys | src/client/Client.cpp:250-349 | The whole exchange of both secrets on the bytes: the client ends up with the server's key and vector if and only if both are zero-tailed. |
| Transport.SealedFitsBuffer | src/include/Constants.h:13 | A sealed message fits the 1024-byte buffer exactly when it has at most 1023 bytes. |
| Transport.RoundTripExactly | src/server/Client.cpp:46-99 | With equal modes and keys `receive` returns what `send` was given if and only if it has 1 to 1023 bytes and none is zero, in both modes. |
| Transport.WireIsSound | src/client/Client.cpp:153-179 | Every result `receive` can have on the bytes of one or several glued sends, in any mode and under any keys, is one that the packet level allows. |
| Transport.ReadCString | src/server/Client.cpp:83 | Reading up to the first zero byte stays inside the buffer. |
| Transport.Client.Send | src/server/Client.cpp:46-71 | The bytes on the socket are the ciphertext when the flag is set and crypto exists, and the text itself otherwise. |
| Transport.Client.Receive | src/server/Client.cpp:74-99 | For all bytes at the socket: the returned length and string are those of the specified result, with an empty decryption reported as FAILURE, except that the terminator overruns the buffer exactly for 1024 bytes or more of plain text. |
| AndroidClient.LinesAreSends | src/android_client/src/com/shanet/alsa_control/Server.java:124-127 | `readLine` on any glued stream returns one send at a time and loses nothing of what follows. |
| AndroidClient.LineBreaks | src/android_client/src/com/shanet/alsa_control/Server.java:124-127 | `\n`, `\r\n` and `\r` each end a line, and what follows is kept; a line that has not ended is not returned. |
| AndroidClient.RankFalls | src/android_client/src/com/shanet/alsa_control/Background.java:169-262 | Every line read, and the end of the stream, brings the client nearer to the end of all its commands. |
| AndroidClient.Server.SendLine | src/android_client/src/com/shanet/alsa_control/Server.java:88-108 | One line is sent, or nothing at all on a closed connection. |
| AndroidClient.Server.ReceiveLine | src/android_client/src/com/shanet/alsa_control/Server.java:111-131 | Takes the next line, or reports the end of the stream or a closed stream. |
| AndroidClient.Background.Handshake | src/android_client/src/com/shanet/alsa_control/Background.java:125-157 | Succeeds, or closes the connection, as the machine does. |
| AndroidClient.Background.SetVolumes | src/android_client/src/com/shanet/alsa_control/Background.java:170-230 | The volume command, whose channel loop goes on after an `err` and even after a close, is the machine's run. |
| AndroidClient.Background.SetChannels | src/android_client/src/com/shanet/alsa_control/Background.java:209-229 | The channel loop: a close inside it does not leave it, and nothing more is sent. |
| AndroidClient.Background.PressKey | src/android_client/src/com/shanet/alsa_control/Background.java:232-262 | A media command is the machine's run; only an `end` or a lost connection closes. |
| AndroidClient.Background.DoInBackground | src/android_client/src/com/shanet/alsa_control/Background.java:110-267 | One call opens the connection if it is the first, performs one command, and leaves the connection for the next. |
| AndroidClient.Background.CloseServer | src/android_client/src/com/shanet/alsa_control/Background.java:312-331 | `end` goes out on an open connection, nothing on one that is closed or was never opened, and the connection is closed. |
| AndroidClient.Background.Calls | src/android_client/src/com/shanet/alsa_control/Background.java:67-310 | Any sequence of calls on one connection sends exactly what the machine's run sends. |
| AndroidScripts.HandshakeOnScript | src/android_client/src/com/shanet/alsa_control/Background.java:125-157 | On every script: `helo` is answered `noenc`, and `redy` then opens the connection; any other line is answered `end` and the end of the stream with nothing, and all commands are lost. |
| AndroidScripts.MediaOnScript | src/android_client/src/com/shanet/alsa_control/Background.java:232-262 | A media command sends its word; the end of the stream loses all later commands, `end` makes the client send `bye` and loses them too, and after any other line, also `err`, the next command follows. |
| AndroidScripts.VolumeOnScript | src/android_client/src/com/shanet/alsa_control/Background.java:170-230 | A volume command says `vol`, its count and its arguments one by one, each after the answer to the one before, until an `end`, the end of the stream, or an `err` before the channels. |
| AndroidScripts.DeadSendsNothing | src/android_client/src/com/shanet/alsa_control/Background.java:92-123 | After a close nothing is sent any more, whatever commands follow. |
| AndroidSession.ChangesAsRequested | src/android_client/src/com/shanet/alsa_control/Background.java:209-212 | For separator-free names a volume command asks for each channel once, in order, with the two volumes chosen. |
| AndroidSession.StepKeepsInv | src/android_client/src/com/shanet/alsa_control/Background.java:169-262 | Every step keeps the phases of the session, or, after a failed media key, its final log. |
| AndroidSession.BoundariesAreSynchronised | src/android_client/src/com/shanet/alsa_control/Background.java:169-262 | At every command boundary of every run both queues are empty, the server waits for a command and its effects are those of all commands so far, if and only if every media key so far worked; channels answered with `err` make no difference. |
| AndroidSession.FailureIsFinal | src/server/server.cpp:372-384 | A failed session has had the effects of the commands up to and including the first media key that failed, and no others. |
| AndroidAftermath.EndIsTheEnd | src/android_client/src/com/shanet/alsa_control/Background.java:257-260 | In every step: a client that reads `end` inside a command, at any of its four points, has exactly `bye` to send and closes; a lost connection is closed without a word. |
| AndroidAftermath.FailureCloses | src/android_client/src/com/shanet/alsa_control/Background.java:169-262 | In every run, once media key m has failed the client is still in that command, or has exactly `end` to read in the next one, or has closed; with two more commands behind it it has closed. |
| AndroidAftermath.OneKeyIsPressed | src/android_client/src/com/shanet/alsa_control/Background.java:232-262 | A finished session of one media command has pressed 0x1008ff14 for play, 0x1008ff17 for next and 0x1008ff16 for prev. |
| AndroidSession.OneMessageAtATime | src/server/server.cpp:320-570 | Until the server fails at most one message is under way, and each `recv` of the server returns exactly one line of the client. |
| AndroidSession.StepFalls | src/android_client/src/com/shanet/alsa_control/Background.java:92-310 | Every step lowers one measure. |
| AndroidSession.LoopsAgree | src/android_client/src/com/shanet/alsa_control/Background.java:191-214 | The server's loop bound is the number of channels of the command in hand, and the two indices agree at every matching point, also after channels that failed. |
| AndroidSession.SessionsEnd | src/android_client/src/com/shanet/alsa_control/Background.java:92-310 | No run exceeds a bound linear in the commands and channels, and a run can be continued exactly until every call has been made and both sides have closed. |
| AndroidSession.CompleteExactly | src/android_client/src/com/shanet/alsa_control/Background.java:312-331 | A finished session ended without a failure if and only if every media key worked, and then every command has had all its effects. |
| AndroidRefinement.SessionIsThePrograms | src/android_client/src/com/shanet/alsa_control/Background.java:67-310 | In a finished session both sides hold and have sent exactly what the programs compute from what they received. |
| ParentServer.ChildrenAreTracked | src/server/server.cpp:133-172 | In every run, with the handler at any point and signals merged, each unreaped child is in `children`, except the one between its fork and its `push_back`. |
| ParentServer.StaleExactly | src/server/server.cpp:629-634 | A pid of no unreaped child is in `children` if and only if it was reaped between its fork and its `push_back` and was not forked again since. |
| ParentServer.ForksAreConserved | src/server/server.cpp:629-634 | Every successful fork is a child still unreaped or one that a handler reaped, and each served exactly one client. |
| ParentServer.ShutdownReachesAll | src/server/server.cpp:610-618 | A shutdown outside the window finds every running child in the list. |
| ParentServer.ShutdownSignalsExactly | src/server/server.cpp:610-618 | A shutdown outside the window signals unreaped children alone if and only if no fork failed before it and no child was reaped in its window without its pid being forked again. |
| ParentServer.ZombiesAreCounted | src/server/server.cpp:629-634 | In every run, also with children that stop or go on, the zombies are the largest excess of exits over runs of the handler in any last stretch of the run. |
| ParentServer.ZombiesAreMerged | src/server/server.cpp:629-634 | There are at most as many zombies as exits that happened while a signal was pending, and one more while a signal is pending; exactly as many if no child has stopped or gone on. |
| ParentServer.ZombiesLeftExactly | src/server/server.cpp:23-29 | No zombie is left if and only if in every last stretch of the run the handler has run at least as often as children have exited; without stopped children, and with no signal pending, if and only if no child ever exited while a signal was pending. |
| ParentServer.MergedSignalsLeaveZombie | src/server/server.cpp:629-634 | A witness: two children exit before the handler runs, and one zombie stays. |
| ParentServer.WaitResults | src/server/server.cpp:629-634 | The handler's `waitpid` can return a child exactly if it is a zombie, 0 exactly if there are children and no zombies, and -1 exactly if there are no children; whichever it is, the handler runs. |
| ParentServer.StoppedChildIsReaped | src/server/server.cpp:23-29 | A witness: the signal of a child that stops takes in that of its exit, and yet no zombie is left. |
| ParentServer.ClientsAreNumbered | src/server/Server.cpp:132-145 | Served clients have a socket that was accepted and strictly growing ids, and every number is a served client, a failed fork or the client in hand. |
| ParentServer.NumberedWithoutGap | src/server/server.cpp:124-135 | The ids of served clients are 1, 2, 3 and so on if and only if no fork failed before one that succeeded. |
| ParentServer.Server.AcceptConnection | src/server/Server.cpp:132-145 | Counts a connection only if it was accepted, and numbers it with the new count. |
| ParentServer.Parent.Turn | src/server/server.cpp:124-173 | One turn of the accept loop is the machine's accept, fork and push; a failed accept serves nobody. |
| ParentServer.Parent.OnChildSignal | src/server/server.cpp:629-634 | The handler has the effect of the machine's step for every result of `waitpid`. |
| ParentServer.Parent.Remove | src/server/server.cpp:633 | In place, every entry equal to the pid goes and the others keep their order. |
| ParentServer.Parent.KillChildren | src/server/server.cpp:615-618 | Every child in the list gets the signal, in order. |
| LineFile.LinesOfUnlines | src/android_client/src/com/shanet/alsa_control/Utils.java:33-35 | Lines written one after the other are read back as they were, whatever follows them. |
| LineFile.LineBreaks | src/android_client/src/com/shanet/alsa_control/Utils.java:33-35 | `\n`, `\r\n`, `\r` and the end of the file each end a line, and what follows is kept. |
| LineFile.ItemIsOneLine | src/android_client/src/com/shanet/alsa_control/Utils.java:46-52 | An item written as a line is read back as that one line if and only if it holds no line break. |
| LineFile.RemovalsAgree | src/android_client/src/com/shanet/alsa_control/Utils.java:65-73 | Dropping every copy from the file and the first copy from the list agree if and only if there is at most one. |
| LineFile.AgreeExactly | src/android_client/src/com/shanet/alsa_control/SelectDialog.java:104-118 | After one operation the file agrees with the list if and only if the added item holds no line break, or the removed item occurred at most once. |
| LineFile.ChangesNothingExactly | src/android_client/src/com/shanet/alsa_control/DialogUtils.java:83-89 | An operation leaves file and list as they were if and only if it adds an empty input or removes an item that is not there. |
| LineFile.MissingFile | src/android_client/src/com/shanet/alsa_control/Utils.java:46-52 | A missing file counts as an empty list; the first addition creates it, and a removal leaves it missing. |
| LineFile.FileFollowsList | src/android_client/src/com/shanet/alsa_control/DialogUtils.java:83-89 | After any sequence of additions of absent items and removals the file lists what the screen shows, and nothing twice. |
| LineFile.Storage.GetContent | src/android_client/src/com/shanet/alsa_control/Utils.java:27-43 | Returns all lines of the file, or nothing if there is no file. |
| LineFile.Storage.AddContent | src/android_client/src/com/shanet/alsa_control/Utils.java:46-52 | Appends the item and a newline, creating the file if need be. |
| LineFile.Storage.CopyWithout | src/android_client/src/com/shanet/alsa_control/Utils.java:65-73 | Whenever the writer flushes, what it has been given are the lines other than the item, after what was there. |
| LineFile.Storage.RemoveContent | src/android_client/src/com/shanet/alsa_control/Utils.java:55-88 | Although the rename comes before the close, the file ends up with whatever the temporary file held before, followed by all lines but the item; no temporary file remains; a missing file gives FAILURE and changes nothing. |
| LineFile.SelectDialog.constructor | src/android_client/src/com/shanet/alsa_control/SelectDialog.java:49-55 | The list starts as the lines of the file, which is left as it was. |
| LineFile.SelectDialog.AddContent | src/android_client/src/com/shanet/alsa_control/DialogUtils.java:83-89 | A non-empty input goes to file and list alike, and no temporary file is left. |
| LineFile.SelectDialog.RemoveContent | src/android_client/src/com/shanet/alsa_control/DialogUtils.java:50-55 | The item goes from the file and, also if the file was missing, from the list; no temporary file is left. |
| LineFile.SelectDialog.RemoveFromList | src/android_client/src/com/shanet/alsa_control/SelectDialog.java:116 | In place, the first equal element goes and the others keep their order. |

## Left out

- Transport.Client.Receive: promises nothing about the string after an overrun, which C leaves undefined.
- SessionEffects.EffectsAreExpected: requires `Cooperative`: plain text, or encryption on both sides with secrets that open and that `strncpy` installs. `FailedExchange` and `KeyMismatch` cover the other sessions except those whose key is cut short; for those `LostKey.SafeExactly` shows that it is false, and `Farewells` what such a session does unless its client reads `redy` and has a command to send.
- Farewells.EndExactly: does not describe a client with a cut key that reads `redy` by chance all the same and has a command to send; for such a session `Refinement.SessionIsThePrograms` alone applies.
- SessionEffects.LockStep: requires `Cooperative` too; where it fails, `Progress` and `SessionEffects.RefusedHasNoEffect` apply.
- ParentServer.Parent.Turn: no signal arrives inside the method; signals between the statements are steps of the machine beside it.
- Errors of `::send` and of `recv` (a result of -1), the Android timeouts, and exceptions other than a closed stream.
- Sockets, addresses, `bind`, `listen` and `connect`; a connection is there from the start.
- OpenSSL, key generation, PEM and random numbers: an invertible block function and a pair of sealing functions take their place.
- X11 and `amixer`: each effect is an entry in a log with an outcome the environment chooses.
- Malloc failure, leaks, and what a failed decryption leaves in memory.
- Encrypted sessions without the delays between the parts of a secret.
- The command lines, verbosity and usage text; the verbose output changes nothing that is modelled.
- Several hosts in the Android map of connections: each connection behaves as the one modelled.
- An Android command number outside the known ones, which the user interface does not produce.
- The Android `Crypto` class and key exchange, which no session uses, and the Android user interface.
- The parent's loop that waits for children after the accept loop, which is never reached.
- A line file whose last line has no newline at its end; the application never writes one.
