# Nova Enclave Capsule: verified model

This project models the parts of Nova Enclave Capsule that carry state machines, codecs and
arithmetic, and proves what they promise. Check it with `dafny verify dfyconfig.toml` (Dafny 4.11).

| module | what it covers |
|---|---|
| `Rlp`, `RlpStreams`, `EthTx`, `Scalars`, `Hex`, `Text` | EIP-1559 transactions: a streaming RLP builder with counted lists, the slice decoder, printing, parsing, signing form, scalars |
| `KmsNodes`, `KmsCache`, `KmsCalls`, `KmsRouting` | the KMS node cache with three kinds of concurrent writers, candidate order, the retry loop |
| `RuntimeVsock`, `EnclaveHost`, `EnclaveStartup`, `EnclaveRun`, `ExitWait` | CID and port allocation, launch with nested retries, cleanup on every exit |
| `ByteLog`, `Wakeups` | the log ring with many cursors, and the notification protocol of its streamers |
| `AppWallet` | the shared-store initialisation protocol of the app wallet |
| `S3Store` | the object store under changing encryption settings |
| `FsProtocol`, `HostfsSession`, `HostfsPaths` | hostfs framing, connections end to end, path resolution |
| `EncryptionKey` | DER public keys and the ECDH channel |
| `ClockSync` | the clock offset arithmetic and its error over runs |
| `NonceCache` | the replay cache and the collection of seed bytes |

## How it is modelled

- Code that changes things in place is a class or a method with loops, proved against a
  specification function or a stated property; protocols whose steps interleave are state machines
  whose steps are the atomic actions of the code, with theorems over every run.
- Clocks, networks, processes, the KMS, S3, the file system and random bytes are parameters or
  arbitrary outcomes. Cryptography, JSON and base64 are function-valued parameters with only the laws
  that a theorem names: encode and decode are inverse, Diffie-Hellman commutes, opening undoes
  sealing.
- The `rlp` and `circbuf` crates are not part of the repository. `RlpStream` follows the crate's
  bookkeeping (reserved header byte, stack of unfinished lists, closing by count), `Rlp` is the
  decoder of Appendix B of the Ethereum Yellow Paper, `CircBuf` is an array ring read as two slices.
- A transaction is assumed to encode to fewer than 2^64 bytes, as every byte vector in memory does.
- The cache protocols assume a wall clock that does not go backwards; the code reads wall time
  (`nova_kms.rs:2125-2130`) and does not enforce it.
- The app-wallet store is linearizable and never deletes the two records. One write is up to three
  requests to every node (`nova_kms.rs:582-583`), so in the model it may land any number of times from
  its beginning until its last request is over, also after the call has moved on or failed.
- A put or delete on S3 may take effect although a failure is reported. The content type that S3 shows
  for an object put without one is a parameter.
- A host answers the calls of `run.rs` from a plan that is arbitrary in every theorem. Between any two
  calls clients connect to open ports, connections end, tasks finish and the console may exit. Each
  connection is served by a detached task that nothing keeps track of (`run.rs:425`,
  `proxy/fs_host.rs:57`, `proxy/ingress.rs:83`, `proxy/egress_http.rs:187`); a hang-up stands for
  whatever makes such a task finish by itself. Killing the console may fail (`run.rs:632-639`). A launch whose output cannot be read is reported as failed although the
  enclave is up (`nitro_cli.rs:66-67`); a CID conflict is nitro-cli's own failure, so nothing is up.
- Comments in `run.rs:134-135` and `run.rs:609-611` promise that the enclave is terminated and all
  local state is torn down. Connections, a console whose kill failed and an enclave whose launch was
  not reported are outside of that promise; the theorems say exactly what is left.
- Comments in `run.rs:480-483` speak of consecutive connect failures; the counter is never reset, so
  `AwaitExit` counts all failures of the wait.

## Model

| member | source | states |
|---|---|---|
| `Rlp.PrefixFree` | capsule-cli/src/eth_tx.rs:86-102 | no encoding is a prefix of another one followed by anything, so items and what follows them are determined by the bytes |
| `Rlp.ElementsOfEncoding` | capsule-cli/src/eth_tx.rs:53-62 | walking the payload of an encoded list finds exactly the encodings of its items |
| `Rlp.StringDataMeans` | capsule-cli/src/eth_tx.rs:64-83 | on any bytes, a string is read exactly as the data whose encoding the bytes start with |
| `Rlp.InfoMeans` | capsule-cli/src/eth_tx.rs:53-57 | past single bytes the decoder accepts exactly the header of Appendix B in front of its payload |
| `Rlp.ElementsMeans` | capsule-cli/src/eth_tx.rs:57-62 | on any payload, the elements are whole items side by side from its start, up to where no item starts |
| `RlpStreams.ListCloses` | capsule-cli/src/eth_tx.rs:88-89 | a list announced with the number of its items closes at the last one and counts as one item of the list around it, at any depth |
| `RlpStreams.RlpStream.BeginList` | capsule-cli/src/eth_tx.rs:88 | after announcing a list the buffer still stands for the partial tree with that list opened (or closed at once when empty) |
| `RlpStreams.RlpStream.Append` | capsule-cli/src/eth_tx.rs:105-114 | after appending, every list that became complete has its length header patched in and the buffer is the rendering of the grown tree |
| `RlpStreams.RlpStream.NoteAppended` | capsule-cli/src/eth_tx.rs:104-124 | closing cascades through all enclosing lists that become full, innermost first |
| `EthTx.AppendBaseFields` | capsule-cli/src/eth_tx.rs:104-124 | the nested streaming calls add exactly the nine field items, all inner lists closed |
| `EthTx.SigningPayload` | capsule-cli/src/eth_tx.rs:86-91 | streaming produces the type byte followed by the recursive RLP encoding of the field tree |
| `EthTx.Finalize` | capsule-cli/src/eth_tx.rs:93-102 | streaming produces the type byte and the encoding of the twelve-item signed tree |
| `EthTx.SigningPayloadRoundTrip` | capsule-cli/src/eth_tx.rs:45-84 | for every transaction, parsing its signing payload, whatever follows it, returns that transaction |
| `EthTx.FromRawPayload` | capsule-cli/src/eth_tx.rs:45-84 | on every input the parser returns a transaction exactly if the payload has type byte 2 and nine items that spell its fields, the recipient being empty or twenty bytes and the access list matching entry by entry; an input that starts with a printed transaction gives that transaction |
| `EthTx.TxOfMeans` | capsule-cli/src/eth_tx.rs:45-84 | that equivalence, and which input gives which error: empty, wrong type byte, no list, wrong field count, malformed recipient, recipient of another width |
| `EthTx.ParseAccessList` | capsule-cli/src/eth_tx.rs:185-212 | the nested loops read what the recursive reading of the list gives, with the first error that occurs |
| `EthTx.EntriesOfMeans` | capsule-cli/src/eth_tx.rs:185-212 | an access list is read exactly as the entries whose addresses and keys its items spell, by index |
| `EthTx.UnsignedInjective` | capsule-cli/src/eth_tx.rs:86-91 | two transactions with the same signing payload are equal |
| `EthTx.SignedInjective` | capsule-cli/src/eth_tx.rs:93-102 | two finalized transactions with the same bytes have the same fields and the same signature |
| `EthTx.SignedBodyExtendsUnsigned` | capsule-cli/src/eth_tx.rs:93-102 | the signed body is the unsigned body followed by the three signature items |
| `EthTx.FinalizedIsNotUnsigned` | capsule-cli/src/eth_tx.rs:56-62 | a finalized transaction is refused by the parser for having twelve fields |
| `Scalars.ScalarDenotes` | capsule-cli/src/eth_tx.rs:127-183 | a scalar is accepted exactly when its digits are hexadecimal and becomes the unique shortest byte string of its number, odd lengths and leading zeros included |
| `Scalars.DigitsMean` | capsule-cli/src/eth_tx.rs:159-161 | the digits of an input are what is left without white space on both sides and one leading 0x |
| `Hex.DigitMeans` | capsule-cli/src/eth_tx.rs:159-173 | hexadecimal digits are read in either case and written in lower case |
| `Text.WhitespaceIs` | capsule-cli/src/eth_tx.rs:160 | the characters that trimming removes are the twenty-five with the White_Space property |
| `Text.TrimOf` | capsule-cli/src/eth_tx.rs:160 | trimming removes exactly the white space on both sides |
| `Scalars.ScalarsAgree` | capsule-cli/src/eth_tx.rs:127-130 | two accepted inputs give the same bytes exactly when they denote the same number |
| `Scalars.TrimScalar` | capsule-cli/src/eth_tx.rs:175-183 | trimming keeps the number and removes exactly the leading zeros |
| `Scalars.SignatureRestored` | capsule-cli/src/eth_tx.rs:33-41 | a recoverable signature is accepted exactly for parity 0 or 1, and padding r and s to 32 bytes restores its 65 bytes |
| `KmsNodes.DiscoverNodes` | capsule-cli/src/integrations/nova_kms.rs:1499-1537 | the result is sorted, has no URL twice, and has one unchecked node exactly for each URL whose first claim by an active, verified instance of the application carries a key, with that claim's wallet and key |
| `Bytes.LexMeans` | capsule-cli/src/integrations/nova_kms.rs:1535 | in the order of URLs the first differing byte decides, and a beginning comes before what it begins |
| `KmsNodes.MergeDiscoveredWithPrevious` | capsule-cli/src/integrations/nova_kms.rs:1971-1996 | the in-place loop keeps identities and takes over exactly the cached observations unexpired at the given time |
| `KmsNodes.MergeRefreshWithLiveCache` | capsule-cli/src/integrations/nova_kms.rs:1998-2024 | the in-place loop keeps identities and yields exactly to later, unexpired live observations |
| `KmsCache.StepKeepsInv` | capsule-cli/src/integrations/nova_kms.rs:1216-1358 | every atomic step of every task keeps the cache invariant |
| `KmsCache.CacheSafety` | capsule-cli/src/integrations/nova_kms.rs:1216-1358 | in every interleaving, in the cache and in every list handed to a caller, URLs are distinct and sorted, the whole list of identities is one registry result, fresh observations are younger than their TTL; lists handed out are not empty; one discovery at a time is past the lock |
| `KmsCache.FreshIsNotLost` | capsule-cli/src/integrations/nova_kms.rs:1439-1458 | no step replaces a fresh observation except by one checked at least as late, unless the URL leaves the list |
| `KmsCache.LastCheckMonotone` | capsule-cli/src/integrations/nova_kms.rs:1260-1277 | over a whole run the last check of a URL that stays listed and fresh never moves back |
| `KmsCache.ReportIsVisible` | capsule-cli/src/integrations/nova_kms.rs:1439-1458 | after a report on a listed URL the cache says exactly its outcome about that URL: reachability, status and error as reported, checked at the time of the write, trusted until the expiry; nothing changes about other URLs |
| `KmsCache.OutcomeExpires` | capsule-cli/src/integrations/nova_kms.rs:1439-1451 | a report or probe expires thirty seconds after its clock reading if the node was reachable, ten if not |
| `KmsCache.ProbeIsRecorded` | capsule-cli/src/integrations/nova_kms.rs:1239-1258 | the outcome of a probe is recorded with its node and with no other |
| `KmsCache.ServedFromCache` | capsule-cli/src/integrations/nova_kms.rs:1284-1296 | a call is served the cached list exactly while it is unexpired and not empty |
| `KmsCache.DiscoveryPublishes` | capsule-cli/src/integrations/nova_kms.rs:1330-1358 | a discovery publishes and hands out the registry's list, trusted for a minute from its start, each node with its unexpired cached observation or unchecked |
| `KmsCache.RefreshStartsFrom` | capsule-cli/src/integrations/nova_kms.rs:1225-1238 | a refresh works on the registry's list, or on its snapshot of the cache if that list is empty |
| `KmsCache.DiscoveryReplies` | capsule-cli/src/integrations/nova_kms.rs:1318-1357 | a discovery that the registry answers is over if the list is empty, and otherwise goes on to publish that list; the lock is given up when it is over |
| `KmsCache.TasksGoOn` | capsule-cli/src/integrations/nova_kms.rs:1216-1316 | the steps a refresh or discovery takes by itself, with the clock readings, the snapshot and the lock it takes along |
| `KmsCache.StepsFitTasks` | capsule-cli/src/integrations/nova_kms.rs:1216-1358 | each step belongs to a task in the right place and to no other |
| `KmsCache.RunSnoc` | capsule-cli/src/integrations/nova_kms.rs:1216-1358 | a run takes the atomic actions of the tasks one after the other |
| `KmsCache.SwapPublishes` | capsule-cli/src/integrations/nova_kms.rs:1260-1277 | a refresh publishes its own list, trusted for a minute, with a reading for each node: exactly its own, or a live one that is later and unexpired |
| `KmsCache.ObservationHolds` | capsule-cli/src/integrations/nova_kms.rs:1216-1358 | over a whole run, while a URL stays listed, an unexpired observation stays or a check at least as late replaces it |
| `KmsRouting.ReportedDownIsLeftOut` | capsule-cli/src/integrations/nova_kms.rs:1360-1419 | over a whole run, a listed node reported unreachable is not among the candidates until the report expires, unless a check at least as late replaces it or all nodes are down |
| `KmsCalls.ResolveConnectableNodes` | capsule-cli/src/integrations/nova_kms.rs:1360-1419 | the candidates are the stable order reachable, then unknown, omitting exactly the fresh-unreachable nodes |
| `KmsCalls.CandidatesDetermined` | capsule-cli/src/integrations/nova_kms.rs:1360-1419 | that order is unique, so list and time determine the candidates |
| `KmsCalls.ResolveNodeCandidates` | capsule-cli/src/integrations/nova_kms.rs:1197-1214 | the full list is used exactly when all nodes are fresh-unreachable, and the candidates of a non-empty list are not empty |
| `KmsCalls.CallKms` | capsule-cli/src/integrations/nova_kms.rs:557-655 | calls follow the rounds over the candidates and stop at the first success; if all fail the first not-found error is preferred over the last error; reports match outcomes |
| `KmsCalls.ReportsMean` | capsule-cli/src/integrations/nova_kms.rs:600-638 | a node is reported up exactly for an answer, and down exactly for a failure to connect |
| `KmsCalls.ScheduleMeans` | capsule-cli/src/integrations/nova_kms.rs:582-583 | every round goes through the candidates in order |
| `KmsCalls.CallBudget` | capsule-cli/src/integrations/nova_kms.rs:582-583 | a call visits at most three times the number of candidates |
| `KmsCalls.KvGet` | capsule-cli/src/integrations/nova_kms.rs:406-430 | a read is "absent" exactly when the answering node had no value, or nobody answered and someone said not found |
| `RuntimeVsock.PortsDistinct` | capsule-cli/src/runtime_vsock.rs:18-54 | two derived ports are equal only for the same service of the same CID |
| `RuntimeVsock.BlocksApart` | capsule-cli/src/runtime_vsock.rs:18-54 | the blocks of two enclaves have no port in common |
| `RuntimeVsock.AcceptedCids` | capsule-cli/src/runtime_vsock.rs:78-100 | exactly CIDs 4 to 33554275 are accepted; egress, clock and the 112 mounts sit at offsets 0, 1 and 16 up of the block at 20000 plus 128 times the CID; managed CIDs never overflow for any mount |
| `RuntimeVsock.AllocateManagedCid` | capsule-cli/src/runtime_vsock.rs:64-76 | the allocator returns the least free managed CID, and fails only if all are used |
| `EnclaveRun.Enclave.PrepareHostRuntime` | capsule-cli/src/run.rs:210-262 | each attempt is for the least CID that is free, untried and not rejected, and follows a collision on a port; it gives up exactly if describing fails, no CID is free, a service fails otherwise, or sixteen attempts collided, and then holds no task and no port; a prepared runtime holds ports of its CID's block only, and with no traffic all its services are listening |
| `EnclaveRun.Enclave.StartServices` | capsule-cli/src/run.rs:231-240 | egress, mounts and clock are tried in this order, and the first that fails ends the attempt with its outcome; only in the last attempt a clock port in use is done without |
| `EnclaveRun.Enclave.StartHostfsProxies` | capsule-cli/src/run.rs:329-388 | mounts are served in order on their derived ports; an absent one is skipped, a required absent one or one without a port is refused, and the first port that cannot be had ends it; all that is started is tracked |
| `EnclaveStartup.ServedListens` | capsule-cli/src/run.rs:301-388 | an attempt that went well listens on the egress port, on the port of every present mount and on the clock port, except a clock port in use in the last attempt; every required mount is there |
| `EnclaveStartup.TriesDiffer` | capsule-cli/src/run.rs:214-217 | the CIDs of the attempts are managed, pairwise distinct and none was rejected before |
| `EnclaveStartup.LeastFreeIsOne` | capsule-cli/src/runtime_vsock.rs:64-76 | what an attempt goes for is determined: there is one least free CID, between 16 and 4096 |
| `EnclaveRun.Enclave.AbortTasks` | capsule-cli/src/run.rs:641-651 | afterwards no tracked task runs and no port is held; every connection whose client does not hang up is still served |
| `EnclaveRun.Enclave.CleanupRunningState` | capsule-cli/src/run.rs:608-630 | every tracked task, port and handle is given up; an open console gets one stop attempt and stays exactly if that failed and it has not exited; a known enclave gets one terminate call and is forgotten exactly if it worked |
| `EnclaveRun.Enclave.CompletePostStartSetupOrCleanup` | capsule-cli/src/run.rs:558-578 | setup fails exactly if the console cannot be opened or an ingress port cannot be had; then everything tracked is given up, with exactly one terminate call and one stop attempt for an opened console |
| `EnclaveRun.Enclave.FinalizeExitAndCleanup` | capsule-cli/src/run.rs:580-606 | success is returned exactly if both the wait and the terminate call succeeded |
| `EnclaveRun.Enclave.StartEnclave` | capsule-cli/src/run.rs:141-187 | rounds of preparing and launching go on exactly while launches conflict: the result is the first launch that does not, or eight conflicts, or a runtime that could not be prepared; a failure leaves nothing tracked |
| `EnclaveStartup.RoundsRetry` | capsule-cli/src/run.rs:143-176 | all launches but the last were conflicts, there are at most eight, on pairwise distinct managed CIDs |
| `EnclaveRun.Enclave.Run` | capsule-cli/src/run.rs:136-208 | on every return no tracked task, listener or port is left; the console is left exactly if it was opened, has not exited and its one stop failed; a connection is left exactly if it was accepted and has not ended, and always if its client never hangs up; at most one enclave came up: reported, it got exactly one terminate call, unreported, none; success means that call worked, and is what the wait reported |
| `EnclaveRun.LeftExactly` | capsule-cli/src/run.rs:177-208 | after a run an enclave is running exactly if its launch came up unreported, or its terminate call failed |
| `EnclaveRun.UnreadLaunchLeavesEnclave` | capsule-cli/src/nitro_cli.rs:66-67 | a run that fails and leaves an enclave running without a terminate call, because the output of a launch that worked could not be read |
| `EnclaveRun.FailedKillLeavesConsole` | capsule-cli/src/run.rs:632-639 | a run that returns success and leaves the console process, because the kill failed |
| `EnclaveRun.ConnectedClientsOutliveRun` | capsule-cli/src/proxy/ingress.rs:80-88 | a run that returns success with any number of clients of a port still being served, because they did not hang up |
| `EnclaveHost.OnlyHangups` | capsule-cli/src/run.rs:641-651 | with every listener gone no connection is ever added; those that are left can only end |
| `EnclaveHost.HappenMeans` | capsule-cli/src/proxy/ingress.rs:80-88 | a listening port accepts, a hang-up ends its connection, a finished task is gone, an exited console too |
| `ExitWait.AwaitExit` | capsule-cli/src/run.rs:457-530 | the wait ends with the first terminal status, or with the hundredth refused connection of the whole wait, whichever comes first |
| `ByteLog.CircBuf.Write` | capsule-cli/src/bin/capsule-runtime/console.rs:56 | bytes that fit are appended to the ring's contents across the wrap-around |
| `ByteLog.NewAppLog` | capsule-cli/src/bin/capsule-runtime/console.rs:15 | the application's log starts empty with room for 131072 bytes |
| `ByteLog.Log.Append` | capsule-cli/src/bin/capsule-runtime/console.rs:43-62 | the ring holds the suffix of all appended bytes from the head, trimmed only as far as the capacity requires; a chunk within capacity meets both assertions |
| `ByteLog.Log.Read` | capsule-cli/src/bin/capsule-runtime/console.rs:64-91 | a read returns the next contiguous bytes from the cursor or the head, as many as fit, and moves the cursor past them |
| `ByteLog.WriteAll` | capsule-cli/src/bin/capsule-runtime/console.rs:179-194 | whatever is appended and trimmed between the reads, the copy loop sends pieces of the log in order that skip only bytes trimmed by then, and stops at the end of the log |
| `ByteLog.QuietDeliveries` | capsule-cli/src/bin/capsule-runtime/console.rs:179-194 | pieces sent with nothing appended in between are together exactly the kept bytes up to the end |
| `ByteLog.Service` | capsule-cli/src/bin/capsule-runtime/console.rs:156-166 | chunks of the pipe buffer's size always fit, the log becomes their concatenation, and no more is trimmed than the capacity requires |
| `ByteLog.ReadersInOrder` | capsule-cli/src/bin/capsule-runtime/console.rs:43-91 | for any interleaving and any number of cursors, deliveries are contiguous, in order, without repetition, and skip only bytes below the head, that is trimmed ones |
| `ByteLog.OnceOrTrimmed` | capsule-cli/src/bin/capsule-runtime/console.rs:64-91 | every byte before a cursor was delivered to it exactly once and unaltered, or has been trimmed |
| `ByteLog.ReadIsPrivate` | capsule-cli/src/bin/capsule-runtime/console.rs:64-91 | a read gives its own cursor as many of the next bytes as fit, and touches no other cursor |
| `ByteLog.RunSnoc` | capsule-cli/src/bin/capsule-runtime/console.rs:43-91 | a run takes its appends and reads one after the other |
| `ByteLog.NothingMissed` | capsule-cli/src/bin/capsule-runtime/console.rs:64-91 | a cursor never overtaken by the head has received the log byte for byte |
| `Wakeups.WatchSet.Notify` | capsule-cli/src/bin/capsule-runtime/console.rs:377-385 | closed channels are dropped and every open one gets one more message |
| `Wakeups.LogStepKeepsInv` | capsule-cli/src/bin/capsule-runtime/console.rs:196-206 | every step of writer and streamers keeps "waiting implies at the end or notified" |
| `Wakeups.BlockedReaderIsDone` | capsule-cli/src/bin/capsule-runtime/console.rs:179-206 | in every run a blocked log streamer has reached the end of all appended bytes |
| `Wakeups.AppendWakesAll` | capsule-cli/src/bin/capsule-runtime/console.rs:58-59 | after an append no waiting streamer is blocked |
| `Wakeups.StreamerMoves` | capsule-cli/src/bin/capsule-runtime/console.rs:179-206 | a log streamer that is neither blocked nor gone can move on and then has less to do, reading at most 4096 bytes at a time |
| `Wakeups.ComingAndGoing` | capsule-cli/src/bin/capsule-runtime/console.rs:196-206 | a new streamer starts at the beginning with nothing pending; one whose client is gone is dropped |
| `Wakeups.CanJoin` | capsule-cli/src/bin/capsule-runtime/console.rs:196-198 | anyone can join the log and the status at any time |
| `Wakeups.BlockedTellerIsCurrent` | capsule-cli/src/bin/capsule-runtime/console.rs:293-356 | in every run a blocked status streamer has sent the current status |
| `Wakeups.TellerMoves` | capsule-cli/src/bin/capsule-runtime/console.rs:293-356 | a status streamer that is not blocked can move on and then has less to do |
| `Wakeups.StatusChanges` | capsule-cli/src/bin/capsule-runtime/console.rs:293-301 | a change sets the status; a new streamer reads it first, with nothing pending |
| `AppWallet.WalletSafety` | capsule-cli/src/integrations/nova_kms/app_wallet.rs:59-145 | in every interleaving only calls whose first read preceded the first write ever write, accepted addresses belong to their keys, and an initialiser succeeds only with its own wallet found in both records read back |
| `AppWallet.TransportMeans` | capsule-cli/src/integrations/nova_kms/app_wallet.rs:64-81 | in every run a call ends with a transport failure only if one of its own requests was not answered |
| `AppWallet.FailureEndsCall` | capsule-cli/src/integrations/nova_kms/app_wallet.rs:64-81 | a request that is not answered ends its call with a transport failure |
| `AppWallet.WritesBegin` | capsule-cli/src/integrations/nova_kms/app_wallet.rs:67-72 | a call that found nothing generates a wallet and begins to write its key; with the key acknowledged it begins to write the address |
| `AppWallet.WritesMayLand` | capsule-cli/src/integrations/nova_kms/app_wallet.rs:131-145 | a write that has begun may land at any time until the call is past its writes and its requests are over |
| `AppWallet.EarlyDoneSettles` | capsule-cli/src/integrations/nova_kms/app_wallet.rs:64-72 | when the early calls and their requests are over, no call can write any more |
| `AppWallet.SettledForever` | capsule-cli/src/integrations/nova_kms/app_wallet.rs:97-105 | in every run, once the early calls are over, the stored pair never changes, and every call that goes to the store from then on, begun before or after, ends with exactly the one outcome the pair has, or one of its own requests was not answered |
| `AppWallet.AllAgreeAfterTtl` | capsule-cli/src/integrations/nova_kms/app_wallet.rs:147-168 | one cache lifetime after all calls are over, every later call, served from a cache or not, ends with exactly the one outcome the stored pair has, or one of its own requests was not answered |
| `AppWallet.StoredWalletIsServed` | capsule-cli/src/integrations/nova_kms/app_wallet.rs:97-105 | with a wallet stored beforehand, every resolution in every run ends with exactly that wallet, or one of its own requests was not answered |
| `AppWallet.CanGoOn` | capsule-cli/src/integrations/nova_kms/app_wallet.rs:59-105 | no call gets stuck: with its requests answered each step brings it closer to its end |
| `AppWallet.VerdictMeans` | capsule-cli/src/integrations/nova_kms/app_wallet.rs:107-129 | a stored pair is a wallet exactly if both records decode and the address is the one of the key; a missing record is reported as such |
| `AppWallet.CacheMeans` | capsule-cli/src/integrations/nova_kms/app_wallet.rs:147-168 | a call is answered from its instance's cache exactly for ten seconds after the entry was stored |
| `AppWallet.StaleIsDropped` | capsule-cli/src/integrations/nova_kms/app_wallet.rs:156-168 | a call that finds nothing unexpired empties its own instance's cache before it reads the store |
| `AppWallet.OneGeneratorAgrees` | capsule-cli/src/integrations/nova_kms/app_wallet.rs:59-105 | in every run in which at most one call generates a wallet, all successes, cached ones included, carry the same wallet, for every codec |
| `AppWallet.OneEarlyAgrees` | capsule-cli/src/integrations/nova_kms/app_wallet.rs:64-67 | so they agree if a record was stored beforehand, or if at most one call had its first read before the first write |
| `AppWallet.RacersCanDisagree` | capsule-cli/src/integrations/nova_kms/app_wallet.rs:67-95 | from every reachable state with two calls that have generated and not yet written, the run can go on so that both succeed, each with its own wallet, for every lossless codec |
| `AppWallet.RaceIsReachable` | capsule-cli/src/integrations/nova_kms/app_wallet.rs:64-95 | on an empty store that happens for every two wallets |
| `S3Store.S3Proxy.Put` | capsule-cli/src/integrations/s3.rs:352-390 | keys that begin with a separator or hold two dots in a row are refused; under KMS mode the object holds the sealed data with all labels, otherwise the data as it is; it lies below the prefix, no other object changes, and success is reported exactly if the request was acknowledged |
| `S3Store.S3Proxy.Get` | capsule-cli/src/integrations/s3.rs:83-118 | refused and missing keys are told apart; what is found is what opening the stored object under the current settings gives |
| `S3Store.S3Proxy.Delete` | capsule-cli/src/integrations/s3.rs:137-154 | the object goes exactly if the key is allowed and the request takes effect |
| `S3Store.RefusedKeys` | capsule-cli/src/integrations/s3.rs:74-81 | refused are exactly the keys that begin with a separator or have a piece with two dots in a row |
| `S3Store.NameStaysBelow` | capsule-cli/src/integrations/s3.rs:71-81 | read name by name, whatever is stored leads to the prefix or below it |
| `Text.LexicalSteps` | capsule-cli/src/integrations/s3.rs:71-81 | what reading name by name means: a name leads into it, an empty piece and a dot nowhere, two dots back out of the last name entered |
| `S3Store.ProxiesAreApart` | capsule-cli/src/integrations/s3.rs:42-46 | proxies whose prefixes are not one below the other never touch the same place |
| `S3Store.PlainRead` | capsule-cli/src/integrations/s3.rs:295-315 | an object without the scheme label is read as it is, unless KMS mode refuses plaintext |
| `S3Store.SealedRead` | capsule-cli/src/integrations/s3.rs:316-350 | a labelled object opens exactly as its nonce, version and mode labels say, with missing ones taken from the settings, or version v1 and the key |
| `S3Store.OpenedWith` | capsule-cli/src/integrations/s3.rs:295-350 | an object sealed under any version, mode and nonce opens under any settings to its plaintext, or fails only because the KMS is detached |
| `S3Store.GetReturnsLastPut` | capsule-cli/src/integrations/s3.rs:83-158 | after any history under changing settings, with requests lost or taking effect unacknowledged, a get is not-found unless the last effective operation was a put; it fails exactly if that put sealed and the KMS is detached, or did not seal and plaintext is refused; otherwise it returns exactly the bytes put |
| `S3Store.EffectivePutIsKept` | capsule-cli/src/integrations/s3.rs:120-135 | a put that took effect, acknowledged or not, is what a get returns until another operation on that key takes effect |
| `S3Store.DekPathAllowed` | capsule-cli/src/integrations/s3.rs:251-253 | no object key or version makes the data-key path empty or reserved |
| `S3Store.DeriveMeans` | capsule-cli/src/integrations/nova_kms.rs:366-388 | refused are exactly the paths that are blank or, without white space around them, reserved for the app wallet |
| `S3Store.DekPathsCoincide` | capsule-cli/src/integrations/s3.rs:251-253 | exactly when two objects with their versions share a data-key path: they are the same, or one version continues the other across a slash and the keys make up for it |
| `S3Store.DekPathDetermines` | capsule-cli/src/integrations/s3.rs:251-253 | data-key paths separate objects and versions as long as versions contain no slash |
| `S3Store.SlashedVersionShares` | capsule-cli/src/integrations/s3.rs:251-253 | every object under a version with a slash shares its data-key path with another object under the part before the slash |
| `S3Store.AadDetermines` | capsule-cli/src/integrations/s3.rs:243-249 | the additional data determines the object key, and exactly how far it determines key and version together |
| `FsProtocol.SendMsg` | capsule-cli/src/fs_protocol.rs:8-33 | one frame is written exactly if the message is within the limit, otherwise nothing |
| `FsProtocol.RecvMsg` | capsule-cli/src/fs_protocol.rs:35-54 | one message is taken off the stream, with end-of-stream, size and format errors told apart |
| `FsProtocol.TruncatedStream` | capsule-cli/src/fs_protocol.rs:35-54 | a stream of frames cut after any number of bytes decodes to exactly the complete messages and then reports an unexpected end |
| `HostfsSession.ServeConn` | capsule-cli/src/hostfs_service.rs:50-118 | the loop over the stream handles, answers and changes the tree as the recursive reading of the input says |
| `HostfsSession.ReadOnlyNeverChanges` | capsule-cli/src/hostfs_service.rs:120-166 | for any input bytes a read-only service leaves the tree as it was |
| `HostfsSession.NothingBeforeHello` | capsule-cli/src/hostfs_service.rs:56-90 | for any input bytes, a request runs or the tree changes only after a matching Hello |
| `HostfsSession.BadGreeting` | capsule-cli/src/hostfs_service.rs:56-90 | any other first message is answered with an invalid-input error and ends the connection with nothing done |
| `HostfsSession.ReplyAnswersRequest` | capsule-cli/src/hostfs_service.rs:102-115 | the k-th reply is the response to the k-th request on the tree its predecessors left |
| `HostfsSession.RespondMeans` | capsule-cli/src/hostfs_service.rs:120-166 | each request gets what it is owed: a changing one is made and answered on a writable mount and refused as read-only otherwise, others are answered from the tree, an overlong read and a second Hello are invalid, Ping is answered |
| `HostfsSession.ServesWhatIsOwed` | capsule-cli/src/hostfs_service.rs:50-166 | over the wire, after a matching greeting, every reply and every tree is the one owed to its request on the tree before it |
| `HostfsSession.ChangesAreMade` | capsule-cli/src/hostfs_service.rs:133-163 | on a writable mount a list of changes leaves the tree with all of them made, in order |
| `HostfsSession.ConversationMatches` | capsule-cli/src/hostfs_client.rs:276-287 | after k requests a client decodes exactly the welcome and k replies, unaffected by later requests |
| `HostfsSession.ConnectSucceedsIffMountMatches` | capsule-cli/src/hostfs_client.rs:57-94 | connecting succeeds exactly when the mount name matches, and otherwise reports the service's error |
| `HostfsSession.ConnectMeans` | capsule-cli/src/hostfs_client.rs:57-94 | the client accepts exactly a greeting of version 1 for its own mount, and hands on an error it is sent |
| `HostfsSession.SendRequest` | capsule-cli/src/hostfs_client.rs:276-297 | a request is one frame out and one decoded reply in; error replies and transport failures are told apart |
| `HostfsPaths.NormalizeRelativePath` | capsule-cli/src/hostfs_service.rs:493-519 | exactly absolute paths and paths with ".." are refused; others become their names in order |
| `HostfsPaths.ResolveFollow` | capsule-cli/src/hostfs_service.rs:417-426 | the result is the canonical path and lies in the root; it fails only if there is none or it escapes |
| `HostfsPaths.ResolveForCreate` | capsule-cli/src/hostfs_service.rs:428-450 | the loop returns where the names lead when every existing prefix is made canonical inside the root, and fails otherwise |
| `HostfsPaths.ResolvePreservingLeaf` | capsule-cli/src/hostfs_service.rs:452-477 | the result is one name in the root, or in the canonical in-root form of its parent, or the root itself where allowed; it fails exactly if the parent has no canonical form or it escapes |
| `HostfsPaths.Resolve` | capsule-cli/src/hostfs_service.rs:368-414 | for every request path and every link layout, a resolved path is the root or below it |
| `EncryptionKey.PublicKeyAsDer` | capsule-cli/src/encryption_key.rs:77-133 | the printer's pushes give the SubjectPublicKeyInfo of the point |
| `EncryptionKey.DerRoundTrip` | capsule-cli/src/encryption_key.rs:278-345 | a printed point parses back exactly when it has at most 254 bytes, across short and long length forms |
| `EncryptionKey.ParseDerMeans` | capsule-cli/src/encryption_key.rs:278-345 | on any bytes the parser finds exactly the point of a sequence of an algorithm identifier and a bit string, whatever the identifier says and whatever length the outer sequence claims |
| `EncryptionKey.P384Der` | capsule-cli/src/encryption_key.rs:77-133 | an uncompressed P-384 point is printed as the 23 octets of its SubjectPublicKeyInfo followed by the point |
| `EncryptionKey.SaltDetermines` | capsule-cli/src/encryption_key.rs:176-191 | the salt determines the unordered pair of keys and the nonce |
| `EncryptionKey.ChannelMeans` | capsule-cli/src/encryption_key.rs:166-274 | on any input: a nonce of twelve bytes and a peer key on the curve are demanded, and both directions use the key derived from the two public points in order and the nonce |
| `EncryptionKey.ChannelRoundTrip` | capsule-cli/src/encryption_key.rs:221-274 | sealing succeeds exactly for 12-byte nonces, and the peer opens it to the message from the sender's printed key |
| `ClockSync.TimestampRoundTrip` | capsule-cli/src/bin/capsule-runtime/clock_sync.rs:160-177 | conversions to and from nanoseconds undo each other exactly on the representable range |
| `ClockSync.SyncOnce` | capsule-cli/src/bin/capsule-runtime/clock_sync.rs:117-129 | the clock is set to its reading plus half the sum of the two differences, cut toward zero, to the nanosecond |
| `ClockSync.SyncErrorBound` | capsule-cli/src/bin/capsule-runtime/clock_sync.rs:117-129 | twice the error after a sync is at most the round trip plus 1 ns plus twice the read-to-set latency |
| `ClockSync.SyncErrorBoundIsTight` | capsule-cli/src/bin/capsule-runtime/clock_sync.rs:122 | the extra nanosecond of the truncating division is really reached |
| `ClockSync.RunErrorBound` | capsule-cli/src/bin/capsule-runtime/clock_sync.rs:60-68 | over every run with bounded drift, failed syncs included, the error is bounded by one sync plus the drift since the last success |
| `ClockSync.ErrorAfterSync` | capsule-cli/src/bin/capsule-runtime/clock_sync.rs:60-68 | any number of events after a sync, the error is at most that of one sync plus that many drifts |
| `NonceCache.NonceReplayCache.InsertIfNew` | capsule-cli/src/capsule_api.rs:49-63 | a fingerprint is rejected exactly when it is among the last `capacity` accepted ones |
| `NonceCache.RegisterAll` | capsule-cli/src/capsule_api.rs:49-63 | driven through any list of requests, the cache accepts exactly those the history says |
| `NonceCache.WindowIs` | capsule-cli/src/capsule_api.rs:34-64 | the window of the service's cache is the 4096 latest acceptances |
| `NonceCache.NonceMeans` | capsule-cli/src/capsule_api.rs:202-213 | accepted are nonces of twelve bytes, and of thirty-two, of which the first twelve count |
| `NonceCache.FingerprintsApart` | capsule-cli/src/capsule_api.rs:187-200 | but for collisions of the hash, key texts of one length, and nonces that differ in the twelve bytes that count, never share a fingerprint |
| `NonceCache.RepeatsAreFarApart` | capsule-cli/src/capsule_api.rs:34-64 | over every history a fingerprint is accepted again only after `capacity` other acceptances |
| `NonceCache.ReusedNonceIsRejected` | capsule-cli/src/capsule_api.rs:187-213 | requests with one key text and nonces that agree in twelve bytes, legacy or not, are both accepted only with 4096 other acceptances between |
| `NonceCache.CollectRandomBytes` | capsule-cli/src/capsule_api.rs:219-246 | success returns exactly the first bytes of the source with no failed draw, no 128 empty draws in a row and no draw too many; failure means the first failed draw, or the first such row, came before enough bytes |

## Left out

- Docker, nitro-cli, NSM, FUSE, Helios, AWS and HTTP calls: only their outcomes appear, as arbitrary values.
- Secp256k1, P-384, AES-GCM, HKDF, SHA-256, Keccak, JSON and base64: function-valued parameters with the laws named above.
- Status lines as text: the writer prints a signal as a quoted name (`console.rs:271-273`) where the reader expects a number (`run.rs:1116-1117`), so no round trip is claimed.
- Printing a parsed transaction: trailing bytes are ignored by the parser, so only parse-after-print is claimed.
- Agreement of racing wallet initialisers: false of the code; `AppWallet.OneGeneratorAgrees` and `AppWallet.RacersCanDisagree` say when it holds.
- What the operating system does with a resolved path afterwards: the claims about paths are lexical.
- Hostfs replies over the size limit: `Serve` ends the connection there, as the code does, but nothing further is claimed.
- A bit string of length zero: it is malformed here, where the code slices out of order and panics (`encryption_key.rs:313`).
- Address and storage-key texts, egress filters, manifest validation, body limits, service start order, list pages of the store: they would only add easy members.
- Machine widths of cursor positions and byte counts in the log: unbounded here.
- What the log stream, the proxies and their connections carry: they appear as tasks that listen, accept, finish and are aborted, and as connections that begin and end.
- A writer that fails in the middle of `ByteLog.WriteAll`: the stream ends there; only `Wakeups` models it.
- Several hostfs connections on one tree: replies are computed on a tree that only the one connection changes, though connections are served concurrently (`proxy/fs_host.rs:57`).
- One key under several texts: the replay cache is keyed by the text of the key as sent, and the parser ignores bytes after the key, so `NonceCache.ReusedNonceIsRejected` speaks of one text.
