# drydock core in Dafny

This project models the core of drydock, a command-line tool for debugging Docker containers, and proves properties of the model. The core has six parts:

- **The mDNS responder** of `docker-net-connect` (module `MdnsConn`, with `NetIP` and `MdnsConfig`). It covers:
  - setting up over the enumerated interfaces;
  - the mapping from IP to A-record bytes;
  - building the answer;
  - the send policy (targeted or on every interface, with the loopback guard);
  - the per-packet question loop, and the Close lifecycle.
- **The argument lists** that start a privileged debug container and enter the target with nsenter (`CmdCommon`).
- **The `execroot` command**: the container lookups and the argument list handed to `syscall.Exec` in each mode (`ExecRoot`).
- **The `xdebug` command's data** (`Xdebug`):
  - the WebDAV export names;
  - the `--dav` export list of the mount script;
  - the install argument list, including the WebDAV port;
  - the host mount commands and the loop that issues them.
- **The docker helpers** (`DockerUtil`): the `--env` arguments taken from the container's environment, and the host ports read from the port bindings. The ports use `strconv.Atoi` on 64-bit integers.
- **`template-project sync`** (`TemplateSync`):
  - where the API key comes from;
  - how the arguments expand into files;
  - what the command copies and writes for each file.

`GoStrings` models the parts of Go's `strings` package the code relies on: `Split`, `Join`, `SplitN`, `Trim` and `ReplaceAll` with `""`. `Wrappers` holds `Option` and `Result`.

Operations that the source writes as loops are methods with loop invariants, proved equal to specification functions. Each function's properties are then proved as lemmas:

- setting up the mDNS responder (`JoinAll`, `Server`);
- the socket writes, the question loop and the worker loop (`Conn.WriteToSocket`, `Conn.HandlePacket`, `Conn.Serve`);
- building the `--dav` export list (`DavExports`);
- issuing the host mounts (`MountEach`);
- building the `--env` arguments and reading the host ports (`GetEnvCliCallsForDockerRunFromContainerMetadata`, `BindingPortsOf`, `GetHostPorts`);
- expanding the file arguments (`ListFilesRecursively`);
- the per-file body and the file loop of `sync` (`SyncOne`, `RunE`).

The responder, whose socket and closed signal change over time, is the class `MdnsConn.Conn`.

The outside world enters as parameters:

- the operating system's interface table;
- the outcomes of the socket and DNS codec calls;
- the docker lookups;
- the file system as a tree;
- the environment variable and the Kubernetes secrets;
- the Anthropic API call, as a function from its inputs to a response.

## Model

| member | source | states |
|---|---|---|
| NetIP.To4 | cmd/docker-net-connect/mdns/conn.go:115 | net.IP.To4: a 4-byte address as is, a 16-byte IPv4-mapped address as its last four bytes, anything else none; a result always has four bytes |
| NetIP.IsLoopback | cmd/docker-net-connect/mdns/conn.go:195 | net.IP.IsLoopback: first octet 127 for an address with an IPv4 form, ::1 otherwise |
| MdnsConn.Joined | cmd/docker-net-connect/mdns/conn.go:52-63 | the enumerated interfaces whose JoinGroup succeeded, in order; never more than were enumerated |
| MdnsConn.JoinFailures | cmd/docker-net-connect/mdns/conn.go:52-56 | the number of enumerated interfaces whose JoinGroup failed |
| MdnsConn.MaxMtu | cmd/docker-net-connect/mdns/conn.go:49-62 | the running maximum of the MTUs, starting from 0 |
| MdnsConn.JoinedExactly | cmd/docker-net-connect/mdns/conn.go:52-63 | the interfaces kept are exactly those whose JoinGroup succeeded, and their count plus the failure count is the number enumerated |
| MdnsConn.JoinedAppend | cmd/docker-net-connect/mdns/conn.go:52-63 | the kept interfaces stay in enumeration order (the selection distributes over concatenation) |
| MdnsConn.MaxMtuIsMaximum | cmd/docker-net-connect/mdns/conn.go:49-62 | the buffer size is non-negative, at least every MTU, and when positive equal to one of them |
| MdnsConn.NoPositiveMtu | cmd/docker-net-connect/mdns/conn.go:65-67 | the maximum stays 0 exactly when no interface has a positive MTU |
| MdnsConn.ServerSpec | cmd/docker-net-connect/mdns/conn.go:39-96 | the error order (nil config, enumeration, no positive MTU among joined interfaces iff NoPositiveMTUFound, never JoiningMulticastGroup); with a config, an enumeration and some joined interface of positive MTU, success iff the address resolves, so ResolveFailed only when it does not; on success the joined interfaces, non-empty, the buffer MTU-28, the configured table |
| MdnsConn.AllJoinsFailedReportsNoPositiveMtu | cmd/docker-net-connect/mdns/conn.go:65-70 | when every join fails, Server reports NoPositiveMTUFound because the MTU check comes first |
| MdnsConn.JoinAll | cmd/docker-net-connect/mdns/conn.go:49-63 | the loop computes the joined interfaces, the failure count and the running maximum MTU |
| MdnsConn.Server | cmd/docker-net-connect/mdns/conn.go:39-96 | fails with exactly the specified error, or returns a fresh running responder with an empty send trace and the specified setup |
| MdnsConn.TrimLeadingZerosMinimal | cmd/docker-net-connect/mdns/conn.go:120-122 | the big.Int round trip keeps the number's value, drops only leading zero bytes and leaves no leading zero |
| MdnsConn.TrimLeadingZeros | cmd/docker-net-connect/mdns/conn.go:120-122 | the big.Int round trip never lengthens the bytes |
| MdnsConn.IpToBytes | cmd/docker-net-connect/mdns/conn.go:114-124 | the A-record data is always four bytes |
| MdnsConn.IpToBytesNonIPv4 | cmd/docker-net-connect/mdns/conn.go:115-118 | an address without an IPv4 form gives four zero bytes |
| MdnsConn.IpToBytesNonZeroFirstOctet | cmd/docker-net-connect/mdns/conn.go:115-123 | an IPv4 address whose first octet is not zero is copied unchanged |
| MdnsConn.IpToBytesShiftsLeadingZeros | cmd/docker-net-connect/mdns/conn.go:120-123 | with k leading zero octets, the other octets move to the front followed by k zeros (the source's behaviour as written) |
| MdnsConn.IpToBytesExample | cmd/docker-net-connect/mdns/conn.go:114-124 | 0.0.0.5 becomes 5.0.0.0 and 10.0.0.5 stays 10.0.0.5 |
| MdnsConn.AnswerMessage | cmd/docker-net-connect/mdns/conn.go:169-187 | a response, authoritative, no questions, one A/IN record for the name with TTL 2 and the address bytes |
| MdnsConn.WritesOn | cmd/docker-net-connect/mdns/conn.go:148-155 | an interface is written to when the loopback guard lets it through and selecting it as the multicast interface succeeds |
| MdnsConn.BroadcastWrites | cmd/docker-net-connect/mdns/conn.go:147-159 | one write of the packet per joined interface that WritesOn accepts, in interface order; never more writes than interfaces |
| MdnsConn.Writes | cmd/docker-net-connect/mdns/conn.go:126-160 | with a non-zero index, the one write to that interface when it exists, passes the guard and can be selected; with index 0, the broadcast writes |
| MdnsConn.TargetedWrite | cmd/docker-net-connect/mdns/conn.go:127-146 | with a non-zero index, at most one write and only on that index; exactly one iff the lookup succeeds, the loopback guard passes and the interface can be selected; the joined interfaces play no part |
| MdnsConn.BroadcastAppend | cmd/docker-net-connect/mdns/conn.go:147-159 | the all-interface writes keep interface order, and a failing interface does not stop the loop |
| MdnsConn.BroadcastWritesExactly | cmd/docker-net-connect/mdns/conn.go:147-159 | every broadcast write carries the packet and goes to a joined interface that passes the guard and can be selected, and each such interface receives one |
| MdnsConn.BroadcastLoopbackGuard | cmd/docker-net-connect/mdns/conn.go:148-151 | an answer for a loopback address is broadcast only on loopback interfaces |
| MdnsConn.AnswerWritesBound | cmd/docker-net-connect/mdns/conn.go:162-196 | one answer causes at most one write per joined interface, and at most one when targeted |
| MdnsConn.Examined | cmd/docker-net-connect/mdns/conn.go:231 | the loop looks at a prefix of the questions of length at most maxMessageRecords+1, and at all of them when there are no more |
| MdnsConn.NameWrites | cmd/docker-net-connect/mdns/conn.go:240-244 | the writes of the answer for one question name when it is a table key, none otherwise |
| MdnsConn.QuestionWrites | cmd/docker-net-connect/mdns/conn.go:231-245 | the writes for a run of question names, concatenated in order |
| MdnsConn.EventWrites | cmd/docker-net-connect/mdns/conn.go:208-245 | a failed read and an unparsable packet give no writes; a parsed packet gives the writes for the questions examined, on the control message's interface index or 0 |
| MdnsConn.ServeWrites | cmd/docker-net-connect/mdns/conn.go:208-247 | the writes for a sequence of reads, concatenated in order |
| MdnsConn.QuestionWritesAppend | cmd/docker-net-connect/mdns/conn.go:231-245 | questions are answered in order |
| MdnsConn.ServeWritesAppend | cmd/docker-net-connect/mdns/conn.go:208-247 | packets are handled in the order they are read |
| MdnsConn.UnknownNamesNoWrites | cmd/docker-net-connect/mdns/conn.go:240-244 | a name that is not a table key is never answered |
| MdnsConn.NonLocalNameNoWrites | cmd/docker-net-connect/mdns/config.go:27 | when the keys follow the ".local." convention, other names are never answered |
| MdnsConn.QuestionWritesBound | cmd/docker-net-connect/mdns/conn.go:231-245 | the writes for n questions are at most n times the per-answer bound |
| MdnsConn.PacketWritesBound | cmd/docker-net-connect/mdns/conn.go:226-245 | one packet causes at most (maxMessageRecords+1) answers' worth of writes |
| MdnsConn.QuestionsPastTheBoundIgnored | cmd/docker-net-connect/mdns/conn.go:231 | questions after the fourth, and how the section ends after them, change nothing |
| MdnsConn.SingleQuestionAnswered | cmd/docker-net-connect/mdns/conn.go:217-245 | one question for a configured name, with a control-message index that can carry the answer, gives exactly one write: that answer on that interface |
| MdnsConn.ScenarioMyHost | cmd/docker-net-connect/mdns/conn.go:162-245 | myhost.local. mapped to 10.0.0.5 is answered on interface 3 with one A record 10.0.0.5, TTL 2; other.local. gets nothing |
| MdnsConn.Conn.Valid | cmd/docker-net-connect/mdns/conn.go:99-112 | the closed signal fires only after the socket was closed, and at most once |
| MdnsConn.Conn.State | cmd/docker-net-connect/mdns/conn.go:99-213 | running while the socket is open, closing between the socket close and the worker exit, closed after close(c.closed) |
| MdnsConn.Conn.constructor | cmd/docker-net-connect/mdns/conn.go:77-83 | a new responder holds the joined interfaces, the table and the buffer size, is running, and has sent nothing |
| MdnsConn.Conn.WriteToSocket | cmd/docker-net-connect/mdns/conn.go:126-160 | appends exactly the specified writes to the send trace |
| MdnsConn.Conn.SendAnswer | cmd/docker-net-connect/mdns/conn.go:162-196 | appends the answer's writes; nothing when NewName or Pack fails |
| MdnsConn.Conn.HandlePacket | cmd/docker-net-connect/mdns/conn.go:217-245 | appends exactly the writes the specification gives for the packet |
| MdnsConn.Conn.AnswerQuestions | cmd/docker-net-connect/mdns/conn.go:231-245 | the question loop appends, in order, the answers for the questions examined (at most maxMessageRecords+1), stopping at the end of the section or at a parse error |
| MdnsConn.Conn.AnswerName | cmd/docker-net-connect/mdns/conn.go:240-244 | one question appends the answer exactly when its name is a table key |
| MdnsConn.Conn.Serve | cmd/docker-net-connect/mdns/conn.go:198-248 | over a sequence of reads, appends the writes for each in order; failed reads add nothing; with a negative buffer size (the `make` at line 205 panics) nothing is sent |
| MdnsConn.Conn.WorkerExit | cmd/docker-net-connect/mdns/conn.go:199-213 | a closing responder becomes closed and the closed signal fires once |
| MdnsConn.Conn.Close | cmd/docker-net-connect/mdns/conn.go:99-112 | closing an already closed responder returns nil and fires nothing; a socket close error is returned and the responder stays running; otherwise it ends closed |
| MdnsConn.CloseTwice | cmd/docker-net-connect/mdns/conn.go:99-112 | two Close calls both succeed and the closed signal fires exactly once |
| CmdCommon.DockerRunPrefix | cmd/common.go:14-22 | the seven fixed words of the docker-run list, the container name with "_DEBUG" in fifth place |
| CmdCommon.ParseDockerRun | cmd/common.go:13-29 | reads a docker-run list back into name, image and extra arguments, or none when the fixed words or the "_DEBUG" suffix are missing; the image is the last word |
| CmdCommon.DockerRunCommand | cmd/common.go:13-29 | seven fixed words with the name plus "_DEBUG", then the extra arguments unchanged, then the debug image last |
| CmdCommon.NsenterCommand | cmd/common.go:31-43 | exactly the five words nsenter, --target, the pid, --ipc, --pid, in that order |
| CmdCommon.DockerRunNsenterCommand | cmd/common.go:5-11 | the docker-run list followed by the nsenter list |
| CmdCommon.ParseDockerRunCommand | cmd/common.go:13-29 | the docker-run list reads back as its name, image and extra arguments |
| CmdCommon.DockerRunCommandInjective | cmd/common.go:13-29 | different inputs give different docker-run lists |
| CmdCommon.MountSlashContainerSeparates | cmd/common.go:3 | the mount prefix followed by a command without ';' splits at ';' into the two mount steps and then exactly that command |
| ExecRoot.ContainerIdentifier | cmd/execroot.go:57-64 | the compose service's container when the lookup works, the argument otherwise |
| ExecRoot.ModeTail | cmd/execroot.go:97-124 | the tail is never empty and begins with "--mount" unless --no-chroot was given |
| ExecRoot.ExecRootArgv | cmd/execroot.go:89-124 | the nsenter list followed by the mode's tail |
| ExecRoot.ExecRootRun | cmd/execroot.go:56-127 | exits with 1 iff the pid, name or env lookup fails; otherwise executes the docker binary |
| ExecRoot.DefaultModeArgv | cmd/execroot.go:114-124 | the default mode appends "--mount" and then the command, or /bin/bash when there is none |
| ExecRoot.NoChrootCommandArgv | cmd/execroot.go:97-101 | --no-chroot with a command appends the command verbatim |
| ExecRoot.NoChrootShellArgv | cmd/execroot.go:106-108 | --no-chroot without a command ends with /bin/bash -c, the mount prefix and a login shell |
| ExecRoot.ArgvLayout | cmd/execroot.go:89 | fixed words, then the container's env arguments, then the image, then nsenter on the root pid |
| ExecRoot.RunExecs | cmd/execroot.go:66-126 | when all lookups succeed, Run executes docker with the argument list built from what they returned |
| GoStrings.IndexOf | cmd/xdebug.go:56 | the first index of the character, -1 exactly when it does not occur |
| GoStrings.Split | cmd/xdebug.go:56 | strings.Split with a one-character separator: the pieces between separators, at least one |
| GoStrings.Join | cmd/xdebug.go:72 | strings.Join: the parts with the separator between consecutive ones |
| GoStrings.TrimLeft | cmd/xdebug.go:57 | the input without its leading run of the character: a suffix that does not start with it |
| GoStrings.TrimRight | cmd/xdebug.go:57 | the input without its trailing run of the character: a prefix that does not end with it |
| GoStrings.Trim | cmd/xdebug.go:57 | strings.Trim with one cut character: neither end of the result is that character |
| GoStrings.RemoveChar | cmd/xdebug.go:21 | the result has no such character and is not longer than the input |
| GoStrings.SplitJoin | cmd/xdebug.go:56 | joining pieces without the separator and splitting again gives the pieces |
| GoStrings.SplitN | cmd/templateProject/sync.go:179 | SplitN gives between 1 and n pieces, and no piece but the last contains the separator |
| GoStrings.JoinSplitN | cmd/templateProject/sync.go:179 | joining SplitN's pieces with the separator gives the input back |
| GoStrings.JoinSplit | cmd/xdebug.go:56 | splitting and joining again gives the input |
| GoStrings.SplitNThree | cmd/templateProject/sync.go:179-182 | SplitN into three gives [a, b, c] iff the input is a/b/c with no separator in a or b |
| GoStrings.TrimInfix | cmd/xdebug.go:57 | Trim keeps one infix of the input and removes only the cut character |
| GoStrings.TrimIdempotent | cmd/xdebug.go:57 | trimming twice is trimming once |
| Xdebug.ConvertToTopLevelExport | cmd/xdebug.go:20-22 | the export name has no '/' and is not longer than the path |
| Xdebug.ConvertToTopLevelExportIdempotent | cmd/xdebug.go:20-22 | flattening a name again changes nothing |
| Xdebug.ConvertToTopLevelExportKeeps | cmd/xdebug.go:20-22 | a name without '/' is its own export name |
| Xdebug.ConvertToTopLevelExportConcat | cmd/xdebug.go:20-22 | the export name of a/b is the export name of a followed by that of b |
| Xdebug.DavExport | cmd/xdebug.go:58 | "/" plus the export name, ",/container/" plus the folder, ",null,null,false"; it starts with '/' |
| Xdebug.MountScriptText | cmd/xdebug.go:61-73 | the script text: the mount prefix, the proxy reset, the download of the GOARCH build, the echo of the --mount value and the gowebdav start with the export list; never empty |
| Xdebug.DavExportFields | cmd/xdebug.go:58 | for a folder without ',', the export splits at ',' into "/" plus the export name, /container/ plus the folder, null, null, false |
| Xdebug.MountFolders | cmd/xdebug.go:56-57 | one folder per comma-separated entry, each trimmed of '/' |
| Xdebug.MountFoldersNoComma | cmd/xdebug.go:56-57 | no folder contains ',' |
| Xdebug.MountFoldersAvoid | cmd/xdebug.go:56-57 | a character absent from the --mount value is absent from every folder |
| Xdebug.TrimEach | cmd/xdebug.go:57 | one trimmed entry per entry, in order |
| Xdebug.DavExportList | cmd/xdebug.go:55-59 | one export per folder, in order |
| Xdebug.DavExportsPointwise | cmd/xdebug.go:55-59 | a list with one export per trimmed entry, in order, is the export list |
| Xdebug.DavExportsAvoidSemicolon | cmd/xdebug.go:58-72 | when no folder contains ';', no export does, so the exports can be joined with ';' |
| Xdebug.DavExports | cmd/xdebug.go:55-59 | the loop builds one export per folder, in order |
| Xdebug.PhpXdebugMountScript | cmd/xdebug.go:53-76 | empty iff the --mount value is empty; otherwise the script with the joined exports |
| Xdebug.DavArgumentReadsBack | cmd/xdebug.go:55-72 | with no ';' in the --mount value, the --dav argument splits at ';' back into the exports, one per entry |
| Xdebug.ExtraDockerRunArgs | cmd/xdebug.go:177-180 | the env arguments, followed by -p 19889:80 exactly when folders are to be mounted |
| Xdebug.InstallArgv | cmd/xdebug.go:184-188 | the nsenter list followed by --net /bin/bash -c and the install script |
| Xdebug.InstallExecArgs | cmd/xdebug.go:190 | the install list without its leading "docker" |
| Xdebug.InstallPublishesWebdavPort | cmd/xdebug.go:177-188 | after the env arguments come -p 19889:80 and the image when folders are to be mounted, otherwise the image directly |
| Xdebug.MountCommand | cmd/xdebug.go:235-241 | mount -t webdav, a URL, and the folder |
| Xdebug.MountUrlMatchesExport | cmd/xdebug.go:235-241 | the mounted URL is the server address followed by the first field of the folder's export |
| Xdebug.MountRun | cmd/xdebug.go:227-251 | no more mounts are issued than there are folders |
| Xdebug.MountRunStops | cmd/xdebug.go:227-251 | the mounts are issued in folder order; all but the last succeeded; the run fails iff the last one failed, and otherwise every folder was mounted |
| Xdebug.MountEach | cmd/xdebug.go:227-251 | the mount loop issues exactly the specified commands and fails exactly as specified |
| Xdebug.MountFolderCommands | cmd/xdebug.go:227-251 | the mount loop over the --mount value's folders |
| DockerUtil.EnvArgs | util/docker.go:47-49 | "--env", E[i] for each variable, in order |
| DockerUtil.EnvCliCalls | util/docker.go:34-52 | an inspect failure and a JSON failure give their errors; otherwise two arguments per variable |
| DockerUtil.GetEnvCliCallsForDockerRunFromContainerMetadata | util/docker.go:34-52 | the loop computes the specified result |
| DockerUtil.DigitsValue | util/docker.go:74 | the number a string of decimal digits denotes |
| DockerUtil.IsDecimal | util/docker.go:74 | one optional sign, then at least one digit and nothing else |
| DockerUtil.DigitRun | util/docker.go:74 | the length of the longest all-digit prefix: digits up to it, a non-digit or the end right after |
| DockerUtil.LeadingDigits | util/docker.go:74 | the digits after the sign that ParseUint consumes before it meets a non-digit |
| DockerUtil.Overflows | util/docker.go:74 | the leading digits denote more than 2^64 - 1 |
| DockerUtil.ParseDigits | util/docker.go:74 | ParseUint's base-10 digit loop: a non-digit is a syntax error, a digit that takes the value past 2^64 - 1 is a range error at once, the end gives the value |
| DockerUtil.ParseDigitsMeaning | util/docker.go:74 | the digit loop ends as the leading digits say: a range error iff they exceed 2^64 - 1, else a syntax error iff a non-digit follows them, else their value |
| DockerUtil.DigitsValuePrefix | util/docker.go:74 | a prefix of a digit string denotes no more than the whole, so the loop's running value never decreases |
| DockerUtil.Atoi | util/docker.go:74 | Atoi as ParseInt(s, 10, 64) computes it: sign, digit loop, clamp; the value is always within the int64 range |
| DockerUtil.AtoiMeaning | util/docker.go:74 | leading digits above 2^64 - 1 give the nearest int64 bound with an error, whatever follows; other non-decimal text gives (0, false); a decimal gives its value without error when it fits in int64 and the nearest bound with an error otherwise |
| DockerUtil.AtoiOverflowIgnoresRest | util/docker.go:74 | overflowing digits followed by a non-digit give MaxInt64 with an error, and MinInt64 with a leading '-' |
| DockerUtil.AtoiDecimal | util/docker.go:74 | Atoi reads back a printed port number |
| DockerUtil.BindingPorts | util/docker.go:73-76 | one number per binding |
| DockerUtil.BindingPortsAt | util/docker.go:74-75 | the i-th number is Atoi's value for the i-th binding's host port |
| DockerUtil.BindingPortsOf | util/docker.go:73-76 | the inner loop computes the binding ports |
| DockerUtil.HostPorts | util/docker.go:59-80 | the inspect and JSON failures give their errors; parsed bindings always succeed |
| DockerUtil.GetHostPorts | util/docker.go:59-80 | the two loops compute the specified result for the given iteration order |
| DockerUtil.PortsInOrder | util/docker.go:72-77 | the binding ports of the entries, concatenated in visiting order |
| DockerUtil.IsIterationOrder | util/docker.go:72 | a Go map range: each map entry exactly once, with its value, in some order |
| DockerUtil.PortsInOrderAppend | util/docker.go:72-77 | the ports of consecutive entries are concatenated in order |
| DockerUtil.PortsCount | util/docker.go:71-77 | one number per binding in total |
| DockerUtil.PortsPermutation | util/docker.go:72-77 | reordering the entries permutes the ports |
| DockerUtil.EntryInIteration | util/docker.go:72 | a map range visits exactly the map's entries |
| DockerUtil.HostPortsOrderIrrelevant | util/docker.go:72-77 | any two iteration orders of the map give the same multiset of ports |
| DockerUtil.HostPortsCount | util/docker.go:71-77 | the number of ports is the sum of the binding-list lengths |
| TemplateSync.LoadAnthropicApiKey | cmd/templateProject/sync.go:160-206 | a non-empty --api-key wins; otherwise an ANTHROPIC_API_KEY that is set wins, even when empty; it fails only when neither applies |
| TemplateSync.KeyFromSecret | cmd/templateProject/sync.go:179-205 | a path namespace/name/key reads that key from that secret, and fails as the code does when the secret or the key is missing |
| TemplateSync.KeyPathParts | cmd/templateProject/sync.go:179-182 | an accepted path is the three parts joined by '/', with no '/' in the first two |
| TemplateSync.ShortKeyPathRejected | cmd/templateProject/sync.go:179-182 | a path with fewer than two '/' is rejected before the cluster is asked |
| TemplateSync.PathJoin | cmd/templateProject/sync.go:95 | the joined path starts with the directory |
| TemplateSync.WalkFiles | cmd/templateProject/sync.go:275-284 | the files a walk of one node lists, in visiting order, or none when a read fails below it |
| TemplateSync.WalkEntries | cmd/templateProject/sync.go:275-284 | the walks of a directory's entries in name order, concatenated, or none when any fails |
| TemplateSync.WalkFilesComplete | cmd/templateProject/sync.go:275-288 | the walk succeeds iff the tree is readable, and then lists one path per file leaf |
| TemplateSync.WalkFilesUnder | cmd/templateProject/sync.go:275-284 | every listed path lies under the walked directory |
| TemplateSync.ArgumentFiles | cmd/templateProject/sync.go:268-292 | an argument that cannot be stat-ed fails with the access error; a directory, or a path whose read fails, is walked and fails with the walk error when the walk fails; a file is listed as itself |
| TemplateSync.ArgumentFilesComplete | cmd/templateProject/sync.go:268-292 | one argument succeeds iff it stats and its tree is readable, and then lists one path per file; a failure is the access error iff stat failed, the walk error otherwise |
| TemplateSync.ListFiles | cmd/templateProject/sync.go:263-296 | the files of the arguments in argument order, or the first argument's failure |
| TemplateSync.ListFilesRecursively | cmd/templateProject/sync.go:263-296 | the loop computes the specified listing |
| TemplateSync.ListFilesAppend | cmd/templateProject/sync.go:266-293 | argument order is kept and a failure anywhere fails the whole listing |
| TemplateSync.ListFilesOfFiles | cmd/templateProject/sync.go:289-292 | plain-file arguments are listed as given |
| TemplateSync.ListFilesFails | cmd/templateProject/sync.go:268-288 | the listing fails iff some argument fails on its own |
| TemplateSync.ListFilesReadable | cmd/templateProject/sync.go:268-288 | the listing succeeds iff every argument stats and its whole tree is readable; a path that stats but cannot be read fails it |
| TemplateSync.CompareName | cmd/templateProject/sync.go:110 | the compare copy's name is the file name followed by four more characters (".tpl") |
| TemplateSync.SyncFile | cmd/templateProject/sync.go:88-129 | one file: a project read failure stops with its error; a missing template is skipped; a template read failure stops with its error; otherwise the rest of the body |
| TemplateSync.SyncTemplate | cmd/templateProject/sync.go:104-129 | after both reads: the key, then the --compare copy, the API call, and the --replace write, each failure stopping with its error |
| TemplateSync.SyncAll | cmd/templateProject/sync.go:88-130 | the files in order, their effects concatenated, stopping at the first error |
| TemplateSync.RunSync | cmd/templateProject/sync.go:74-133 | an empty --template is rejected before anything else happens |
| TemplateSync.SyncOne | cmd/templateProject/sync.go:88-129 | the loop body does what the per-file specification says |
| TemplateSync.ApplyTemplate | cmd/templateProject/sync.go:104-129 | after both files are read: a key failure, then the --compare copy, the API failure, and the --replace write with its failure, exactly as specified |
| TemplateSync.RunE | cmd/templateProject/sync.go:74-133 | the command's effects and error are the specified ones |
| TemplateSync.SyncEffectsOfFiles | cmd/templateProject/sync.go:109-129 | every copy goes from the file's template to the file's name with ".tpl", only under --compare; every write goes to a listed file, only under --replace |
| TemplateSync.SkipMissingTemplate | cmd/templateProject/sync.go:95-100 | a file whose template does not exist is skipped without effect or error |
| TemplateSync.SyncAllSucceeds | cmd/templateProject/sync.go:87-132 | the run succeeds iff every listed file goes through |
| TemplateSync.NoTemplatesNoKey | cmd/templateProject/sync.go:95-107 | the key is loaded only for files with a template, so files without templates succeed whatever the key sources hold |

## Left out

- Sockets and OS networking are not modelled; their outcomes are inputs. This covers JoinGroup, SetControlMessage, SetMulticastInterface, ReadFrom/WriteTo, net.Interfaces, InterfaceByIndex and ResolveUDPAddr. A failed WriteTo is only logged, so a write counts once the interface is selected. The outcomes are fixed for the responder's whole lifetime: each interface's SetMulticastInterface result, the table InterfaceByIndex consults and the codec's NewName and Pack results are the same for every answer. In the source these calls are made again for every answer and may give different results each time.
- Concurrency is not modelled: the RWMutex, the worker goroutine and the closed channel. The lifecycle is instead a sequential state machine in which the worker exits inside Close. The lock never guards mutation.
- The DNS wire codec is abstract. NewName, Pack, Parser.Start and Parser.Question are outcomes (a `Codec`, a `ParseResult`) and not byte encodings. A packet longer than the read buffer is truncated by ReadFrom, and the model does not represent that truncation: what Parser.Start makes of the bytes read is an input.
- The worker panic on a negative buffer size is not modelled. The size is the largest joined MTU less 28, so it is negative when that MTU is between 1 and 27. `make` then panics before the first read (conn.go:205). The deferred close runs and the unrecovered panic ends the whole process. `Conn.Serve` records only that no answer is ever sent; the close and the process exit are not represented.
- The lookup in the table: the source ranges over the map comparing keys, and the model looks the name up directly. Keys are unique, so both find the same entry.
- `errNilConfig` and `errJoiningMulticastGroup` are error constants. The file that defines them is not part of this model.
- `JoiningMulticastGroup` cannot occur, because a positive maximum MTU needs at least one joined interface. `ServerSpec` states this as an ensures clause.
- Logging, the `color` printing and help texts are left out.
- Process control is left out: `exec.Command`, `syscall.Exec` and `os.Exit` become the `Outcome` value or an error value.
- The cobra flag wiring is left out.
- `DefaultAddress` in config.go (224.0.0.0:5353) is not used by the responder, so it is not modelled. The responder uses 224.0.0.251:5353.
- The shell-script payloads are opaque strings in the model: the install and deactivate scripts, and most of the text of the mount script.
- `Xdebug.MountScriptText`: the contract states only that the script is not empty. The rest of its text is not specified.
- In xdebug's Run, the `pid == "0"` check and `waitUntilWebdavIsRunning` (HTTP polling) are left out. So are the umount loop after Ctrl-C and `os.MkdirAll` of missing folders, which does not change the commands.
- `filepath.Join` is modelled without `Clean`: a '/' is added unless the directory ends with one. `.` and `..` elements and repeated slashes are not normalised.
- `filepath.Walk` visits a directory's entries in lexical order. A `Dir` node lists its entries in the order the walk visits them, so the model does not sort.
- `os.Stat` follows symbolic links but `filepath.Walk` uses `Lstat`; the model uses one tree for both.
- The walk case where a directory contains a broken entry is modelled as an immediate error. Walk reports it through the callback, the callback returns the error, and the walk stops. A `Broken` node stands for a path whose Lstat or directory read fails. An argument that os.Stat accepts but whose directory cannot be read is walked as well, so it fails with the walk error and is never listed as a file.
- In sync.go, the Kubernetes client, the Anthropic streaming client and template rendering are outcomes supplied as inputs (`Kube`, `Env.api`). The `kubeconfig` default (from the home directory) is not modelled.
- The contents of the file copied under --compare are not modelled. The copy's errors are ignored in the source too.
- Code versus help text: the --compare copy goes to `filename + ".tpl"` (sync.go:110), while the help text and the flag description say `.tmpl` (sync.go:56, 139). The model follows the code.
- The question loop runs `i` from 0 to `maxMessageRecords` inclusive (conn.go:231), so up to four questions are examined, not three. The model follows the code.
- `ipToBytes` is modelled as written: an IPv4 address with leading zero octets comes out shifted (0.0.0.5 gives 5.0.0.0). `IpToBytesShiftsLeadingZeros` states this.
- `DockerUtil.Atoi` models base-10 `strconv.Atoi` on the 64-bit platform, as ParseInt and ParseUint compute it: one optional sign, then digits read left to right. Once the value read so far exceeds 2^64 - 1 the scan stops with a range error, so the text after the overflowing digits is not examined. The caller discards the error. Underscores and other bases are not accepted by Atoi either. The error's text is not modelled, only whether there is one.
- `MountSlashContainer` is written as two constants joined with "; " separators. It has the same value as the source constant.
