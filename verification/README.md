# Verified models of opsiconfd

Dafny models of the parts of opsiconfd that keep state, and proofs of what they keep. Each
module follows one source file or one component of it.

| module | models |
|---|---|
| `DhcpdModel`, `DhcpdParser`, `DhcpdPrinter`, `DhcpdHosts` | the components of a dhcpd.conf file, its parser and printer, and the operations on hosts, as functions |
| `DhcpdFile` | the file object with its fields, methods and loops, proved against these functions |
| `DhcpdLines`, `DhcpdText` | how lines and statements of a file relate, and what a printed file consists of |
| `DhcpdTidy`, `DhcpdScan`, `DhcpdRoundTrip`, `DhcpdReparse`, `DhcpdPlain` | printing everything once, and the round trip from tree to text to tree |
| `DhcpdLookup`, `DhcpdEdits`, `DhcpdAddHost`, `DhcpdOutcome`, `DhcpdDistinct` | inheritance, deleting, adding, and distinct names and addresses over all edits |
| `DhcpdRewrite`, `DhcpdReload` | files that are edited, written and read again |
| `DhcpdPrinted` | what a file object still knows after it was printed |
| `Wsgi` | the hand-off of a response from the application's thread to the sending coroutine |
| `MessageReader`, `UserChannel`, `ConsumerGroup` | messagebus readers over redis streams |
| `Subscription` | the readers of one websocket and its subscription requests |
| `RedisLock`, `ApplicationState`, `Session` | state that processes share through redis |
| `ConfigFile`, `Acl` | the configuration file and the access control file |
| `Metrics`, `Series`, `Ping` | the metrics collector, the choice of a time series, the websocket ping timer |
| `Strings`, `Dicts`, `Wrappers` | the Python strings and dictionaries these rely on |

Objects whose fields change are classes, and loops are loops, each proved against a function of
the old state. Concurrent parts are state machines: a function `Do` for every atomic step, a
predicate `Enabled`, an invariant, and theorems about all runs. `hide` in a proof keeps
definitions that it does not need away from the solver.

What the proofs show about the code, where one might expect something else:

- `DhcpdDistinct.SafeAddresses`: a fixed address spelled `yes`, `on`, `no` or `off` is stored as a
  boolean, so a second host with it is not noticed; for every other address the check is reliable.
- `DhcpdPrinted.PrintedGetHost`, `PrintedDeleteHost`, `PrintedCheck`: printing takes the components
  with a line number out of their blocks; exactly the hosts below them are not found any more, until
  the file is parsed again. `DhcpdPrinted.WrittenTwice`: adding such a host again then writes it twice.
  (`opsiconfd/backend/rpc/dhcpd_control.py` parses before each edit.)
- `DhcpdText.StatementIsLost`: a statement with a comment behind it does not survive being written, as
  the comment takes over the whole line (`DhcpdLines.CommentTakesLine`) and is printed before it.
- `DhcpdLines.UnfinishedIsDropped`: a last statement without its semicolon is dropped without an error.
- `DhcpdOutcome.AddHostOutcome`: where a subnet lacks its settings, adding a host fails after an existing
  host of that name was deleted.
- `DhcpdDistinct.AddHostMeans`: a requested `fixed-address` or `hardware` counts more than the argument
  of that name, except where the parent has the requested value, and it is dropped.
- `Subscription.PartitionIff`: subscribing a service channel again, or listing it twice, makes a
  second reader for it; removing it twice in one request leaves a reader without channels.
- `ConsumerGroup.FailedBatchIff`: an error in a batch of pending entries makes the reader take those
  again that are still pending, as in `TakenTwiceAfterFailure`. `ConsumerGroup.LeftUntilRestart`: an
  error in a batch of new entries leaves the rest of it to the next restart, as in `NewBatchFails`.
- `ConsumerGroup.SharedEntryIff`: a reader that starts can be given what another one works on exactly
  if it claims the entry, or reads as the consumer the entry is pending for, as in
  `TwoReadersTakeTheSame`. `ConsumerGroup.ReadersApart`: where starts avoid both, no two readers ever
  work on the same entry.
- `ConsumerGroup.MissedMeansDiverted`: a reader that shares its consumer may read new entries before
  one that is pending for it, as in `SharedReaderMisses`, but not before one from before its start, unless that
  was claimed in the meantime (`RestartDrains`).
- `MessageReader.CountsAreKept`: a process that is killed leaves the reader count of its channels too high.
- `Wsgi.FailedSendBlocks`: a `send` that raises leaves the thread waiting for room forever exactly if
  more than five items come after that message.
- `ApplicationState.NotAllReportAtTheWrite`: the scan over the workers is not atomic, so a worker may
  report another type when the state is marked as accomplished.
- `Session.OwnStoreHidesStaleness`: a store writes a new version, after which the worker trusts its
  object. If redis had another version before, other attributes may be out of date, as in
  `StaleAfterOwnStore`; a worker that since its last load or complete store stores only while redis
  has the object's version is never out of date without noticing.

## Model

| member | source | states |
|---|---|---|
| DhcpdFile.ParseValues | opsiconfd/dhcpd.py:593-623 | the character loop over an option value gives exactly the values of the specified scan, with quotes and commas |
| DhcpdFile.DhcpdConfFile.FindToken | opsiconfd/dhcpd.py:355-362 | the token taken is the first acceptable one in the fixed order `#`, `;`, `}`, `{`, at its first position |
| DhcpdFile.DhcpdConfFile.ParseSemicolonToken | opsiconfd/dhcpd.py:572-627 | the whole new parser state and store, or the IndexError, of a statement |
| DhcpdFile.DhcpdConfFile.ParseLbracketToken | opsiconfd/dhcpd.py:629-642 | a new block is appended to the current one and becomes the current one, or the IndexError |
| DhcpdFile.DhcpdConfFile.ParseRbracketToken | opsiconfd/dhcpd.py:644-650 | the block gets its end line and its parent becomes current, or the failed assertion of the global block |
| DhcpdFile.DhcpdConfFile.ParseCommentToken | opsiconfd/dhcpd.py:565-570 | the comment component and the rest of the data |
| DhcpdFile.DhcpdConfFile.ParseRound | opsiconfd/dhcpd.py:344-378 | one round of the parse loop is one step of the specified parser |
| DhcpdFile.DhcpdConfFile.Parse | opsiconfd/dhcpd.py:330-380 | parsing any lines ends, with exactly the store and error of the specified run, and marks the file as parsed only without an error |
| DhcpdTidy.ParseIsTidy | opsiconfd/dhcpd.py:330-380 | whatever the lines, the parsed components and line references agree and are in line order |
| DhcpdLines.LinesAreJoined | opsiconfd/dhcpd.py:344-378 | behind any prefix that ends between statements: a line in which no token is seen, or only in quotes, is read together with the next one, so that both give the same trees and error as one line |
| DhcpdLines.TokenEndsLine | opsiconfd/dhcpd.py:355-378 | what stands behind `;`, `}` or `{` might as well stand on a line of its own, if no token that is tried earlier is seen in the line |
| DhcpdLines.CommentTakesLine | opsiconfd/dhcpd.py:565-570 | a comment behind other text: its text is the whole line without the first character, and what stands before the `#` is parsed after it |
| DhcpdLines.BlankSpaceDoesNotMatter | opsiconfd/dhcpd.py:572-642 | statements and headers of the same words are read alike, and what stands before `}` is dropped |
| DhcpdLines.ReadWritten | opsiconfd/dhcpd.py:593-623 | option values in quotes of either kind, or without, with any blank space around them, are read as these values in order |
| DhcpdLines.QuotesAreDropped | opsiconfd/dhcpd.py:572-590 | a parameter value may stand in quotes, which are not part of it |
| DhcpdLines.SwitchIsRead | opsiconfd/dhcpd.py:93-112 | the words for on and off, in any letter case and in quotes or not, are read as that switch and printed as on or off |
| DhcpdLines.IncompleteFails | opsiconfd/dhcpd.py:572-642 | a statement without words, or only `option`, and a block without header end the parse with an IndexError, and what was parsed before stays |
| DhcpdLines.ClosingFails | opsiconfd/dhcpd.py:644-650 | a closing bracket outside of blocks ends the parse with the failed assertion |
| DhcpdLines.UnfinishedIsDropped | opsiconfd/dhcpd.py:364-368 | text behind the last statement of a file is dropped without an error |
| DhcpdFile.DhcpdConfFile.GetShifting | opsiconfd/dhcpd.py:71-79 | the indentation is one tab for each block around the parent |
| DhcpdFile.DhcpdConfFile.AsText | opsiconfd/dhcpd.py:269-301 | the text and the store left behind by printing any component, through all nested blocks |
| DhcpdFile.DhcpdConfFile.PrintRefs | opsiconfd/dhcpd.py:282-291 | the components of one line are printed in order and taken out of the block |
| DhcpdFile.DhcpdConfFile.PrintLines | opsiconfd/dhcpd.py:275-293 | the loop over the lines prints every placed component and leaves the others in `components` |
| DhcpdFile.DhcpdConfFile.PrintRest | opsiconfd/dhcpd.py:295-296 | the components that no printed line refers to come last, one line each |
| DhcpdTidy.PlanIsComplete | opsiconfd/dhcpd.py:269-301 | a tidy block prints each of its components exactly once and in order |
| DhcpdText.PrintedBlockHasAll | opsiconfd/dhcpd.py:269-301 | between header and bracket a printed block has just the texts of its components, in order and apart from blank space nothing else, however many share a line |
| DhcpdPrinter.PrintedOption | opsiconfd/dhcpd.py:143-152 | of the values of an option exactly those with a quote, a slash or a dotted pair of words stand in quotes, and all of them for the listed endings of its name |
| DhcpdPrinter.PrintedParameter | opsiconfd/dhcpd.py:101-112 | a parameter is printed as on or off, or with its value in quotes exactly if the value or the key asks for them |
| DhcpdText.StatementIsLost | opsiconfd/dhcpd.py:269-301 | any statement with a comment behind it is lost when the file is written and read again: one comment is left |
| DhcpdText.SomeStatementIsLost | opsiconfd/dhcpd.py:101-112 | there are such statements |
| DhcpdPrinter.PrintTwice | opsiconfd/dhcpd.py:269-301 | a second print gives the same text, although the first one removed every line-placed component |
| DhcpdPrinted.PrintedListed | opsiconfd/dhcpd.py:275-296 | after a print exactly those components are listed that were before and are not at or below a line number |
| DhcpdPrinted.PrintedGetHost | opsiconfd/dhcpd.py:484-491 | after a print `get_host` finds nothing exactly if every host of that name was printed through a line number |
| DhcpdPrinted.PrintedDeleteHost | opsiconfd/dhcpd.py:493-513 | after a print deleting removes nothing exactly if no host left over has the name, or the fixed address among the parameters it has left |
| DhcpdPrinted.PrintedCheck | opsiconfd/dhcpd.py:404-417 | after a print the duplicate check passes exactly if no host left over has the name, or an address among the parameters it has left |
| DhcpdPrinted.ParsedThenPrinted | opsiconfd/dhcpd.py:269-301 | whatever was parsed: once it is printed, no host is found, deleted or compared with |
| DhcpdPrinted.PrintedFileTakesAnyHost | opsiconfd/dhcpd.py:387-482 | any parsed and printed file that gets a host, by any request, without being parsed again: the request succeeds unchecked, and the text written is that of the file as it was parsed with the new host at the end |
| DhcpdPrinted.TakenHostIsRead | opsiconfd/dhcpd.py:387-482 | with one component per line, safe contents and a safe request, reading that text gives all hosts of the file and the new one |
| DhcpdPrinted.SomeHostCanBeWritten | opsiconfd/dhcpd.py:101-112 | there are such requests: a name and addresses of single letters are safe |
| DhcpdPrinted.WrittenTwice | opsiconfd/dhcpd.py:387-491 | any file of one host: found before the print, not found afterwards, and written twice when it is added again |
| DhcpdScan.ReadParameter | opsiconfd/dhcpd.py:101-112 | the printed text of a safe parameter is read back as the same key and value |
| DhcpdScan.ReadChoice | opsiconfd/dhcpd.py:148-155 | the printed text of a safe option is read back as the same name and list of values |
| DhcpdReparse.RoundTrip | opsiconfd/dhcpd.py:330-380 | parsing what was printed gives no error, the same tree and the same text again, for every store with one component per line and safe contents |
| DhcpdReparse.ParseForest | opsiconfd/dhcpd.py:344-378 | the parser turns the printed lines of any sequence of trees back into these trees |
| DhcpdRoundTrip.FileIsRender | opsiconfd/dhcpd.py:387-392 | the text of a file with one component per line is the rendering of its tree |
| DhcpdPlain.PlainParameter | opsiconfd/dhcpd.py:90-112 | a parameter without quotes and structural characters is safe |
| DhcpdPlain.PlainChoice | opsiconfd/dhcpd.py:118-155 | an option without quotes and structural characters is safe |
| DhcpdPlain.PlainBlock | opsiconfd/dhcpd.py:629-642 | a block header without quotes and structural characters is safe |
| DhcpdFile.DhcpdConfFile.GetBlocks | opsiconfd/dhcpd.py:258-267 | the blocks of a type in document order, at every depth if recursive |
| DhcpdLookup.FoundBlocks | opsiconfd/dhcpd.py:258-267 | a search finds exactly the listed blocks of the type |
| DhcpdLookup.FoundOnce | opsiconfd/dhcpd.py:258-267 | a search finds no block twice |
| DhcpdFile.DhcpdConfFile.GetParametersHash | opsiconfd/dhcpd.py:237-248 | own parameters first, then those of the ancestors up to the block type |
| DhcpdLookup.NearestSetting | opsiconfd/dhcpd.py:237-248 | an inherited lookup gives the setting of the nearest block around |
| DhcpdLookup.OwnIsLast | opsiconfd/dhcpd.py:237-248 | the own parameters of a block are those its components set, the last one of a key counting |
| DhcpdFile.DhcpdConfFile.GetHost | opsiconfd/dhcpd.py:484-491 | the parameters of the first host with the name, none, or the IndexError |
| DhcpdFile.DhcpdConfFile.CheckHosts | opsiconfd/dhcpd.py:404-417 | every host is compared with the requested name and addresses, and the first conflict is the error |
| DhcpdFile.DhcpdConfFile.UsesAddress | opsiconfd/dhcpd.py:409-417 | whether a host uses the fixed or the hardware address, in lower case |
| DhcpdFile.DhcpdConfFile.FindSubnet | opsiconfd/dhcpd.py:432-439 | the last subnet in document order that contains the address, or the global block |
| DhcpdFile.DhcpdConfFile.MatchCount | opsiconfd/dhcpd.py:446-458 | matching minus differing parameters of a group |
| DhcpdFile.DhcpdConfFile.FindGroup | opsiconfd/dhcpd.py:441-464 | the first group with the highest score of at least zero |
| DhcpdFile.DhcpdConfFile.RemoveInherited | opsiconfd/dhcpd.py:466-471 | requested parameters that the parent provides with the same value are dropped |
| DhcpdFile.DhcpdConfFile.CreateHost | opsiconfd/dhcpd.py:473-482 | the new host block with its parameters is appended to the parent |
| DhcpdFile.DhcpdConfFile.AddHost | opsiconfd/dhcpd.py:394-482 | the whole store and the error, if any, that adding a host ends with |
| DhcpdOutcome.AddHostOutcome | opsiconfd/dhcpd.py:394-439 | adding succeeds exactly if all hosts have a name, no host of another name has one of the addresses, and all subnets that are left have four settings; which error comes when, and what is left of the file |
| DhcpdOutcome.ExistingIsReplaced | opsiconfd/dhcpd.py:419-482 | an existing host is deleted and written anew, and is the only one of its name |
| DhcpdOutcome.DeleteHostOutcome | opsiconfd/dhcpd.py:493-513 | deleting works exactly if all hosts have a name, and takes exactly the hosts with just that name or fixed address and those inside them |
| DhcpdOutcome.GetHostOutcome | opsiconfd/dhcpd.py:484-491 | `get_host` gives the parameters of the first host with just that name, and nothing exactly if there is none |
| DhcpdFile.DhcpdConfFile.DeleteHost | opsiconfd/dhcpd.py:493-513 | the store without the deleted blocks, or the error with the store unchanged |
| DhcpdEdits.DeleteHostEffect | opsiconfd/dhcpd.py:493-513 | a host disappears exactly if it, or a host around it, has the name or the fixed address; every other component stays, and blocks lose only the deleted hosts from their lists |
| DhcpdAddHost.ParentIsChosen | opsiconfd/dhcpd.py:432-464 | the parent is the first highest-scoring group (score at least 0) of the last matching subnet, else that subnet or the global block |
| DhcpdAddHost.GroupScoreCounts | opsiconfd/dhcpd.py:446-458 | the score of a group is the number of its parameters that agree with the requested ones, less the number of those that differ |
| DhcpdAddHost.LookupDropInherited | opsiconfd/dhcpd.py:466-471 | a parameter is dropped exactly when the parent has the same value |
| DhcpdDistinct.AddHostMeans | opsiconfd/dhcpd.py:394-482 | looking the new host up with inheritance gives every requested value, else the address arguments, else the nearest surrounding value; a requested address that the parent has is dropped for the argument |
| DhcpdDistinct.AddHostKeepsOthers | opsiconfd/dhcpd.py:394-482 | no other block changes its effective parameters, and a host only disappears with the name or the fixed address of the new one |
| DhcpdDistinct.AddHostKeepsDistinct | opsiconfd/dhcpd.py:404-421 | names, fixed addresses and hardware addresses stay pairwise distinct |
| DhcpdDistinct.DeleteHostKeepsDistinct | opsiconfd/dhcpd.py:493-513 | the same for deleting |
| DhcpdDistinct.RunKeepsDistinct | opsiconfd/dhcpd.py:394-513 | they stay distinct over every run of additions and deletions, failed calls included |
| DhcpdDistinct.SafeAddresses | opsiconfd/dhcpd.py:410-414 | the duplicate check is reliable exactly for fixed addresses other than yes, on, no and off, which are stored as booleans |
| DhcpdRewrite.AddHostTidy | opsiconfd/dhcpd.py:473-482 | adding keeps a store tidy, and one component per line, on every exit |
| DhcpdRewrite.DeleteHostTidy | opsiconfd/dhcpd.py:510-513 | deleting keeps a store tidy, and one component per line |
| DhcpdReload.EditedFilePrintsEverything | opsiconfd/dhcpd.py:269-301 | after any parse and any run of edits every component is printed once and in order, and twice the same |
| DhcpdReload.EditedFileReloads | opsiconfd/dhcpd.py:330-513 | after any run of edits the written file parses to the same tree, and every host is found with the same parameters |
| DhcpdReload.SameTreeSameHosts | opsiconfd/dhcpd.py:484-491 | host lookups depend on the tree alone |
| Wsgi.MessagesShape | opsiconfd/wsgi.py:188-216 | the messages start the response at most once, and exactly the last one says that nothing follows |
| Wsgi.ChunksAroundStart | opsiconfd/wsgi.py:188-216 | the bodies before the last one are exactly the chunks in order; the first `start_response` gives the status and the place of the start message, right before the chunks that come after it |
| Wsgi.ChunksWithoutStart | opsiconfd/wsgi.py:210-216 | without `start_response`: the chunks in order, and the end |
| Wsgi.SentInOrder | opsiconfd/wsgi.py:148-216 | in every interleaving the sent messages are a prefix of those produced, and the queue holds at most five |
| Wsgi.NoLostWakeup | opsiconfd/wsgi.py:177-186 | a sender that waits with a filled queue has a wakeup set, scheduled or about to be scheduled |
| Wsgi.NeverBothBlocked | opsiconfd/wsgi.py:177-216 | unless an error ended the sender, a thread that waits for room faces a sender or a callback that can move |
| Wsgi.Progress | opsiconfd/wsgi.py:177-216 | until the sender has ended, somebody can make a step |
| Wsgi.RunsEndComplete | opsiconfd/wsgi.py:177-216 | every run has at most 7n+8 steps, and where no step is left everything was sent, unless a send failed |
| Wsgi.ResponseIsSent | opsiconfd/wsgi.py:177-216 | in every run in which the sender returns it has sent all chunks of the application around the first start, and the end |
| Wsgi.FailedSendBlocks | opsiconfd/wsgi.py:177-216 | a send that raises leaves the thread blocked for good exactly if more than five items come after that message |
| Wsgi.StepKeepsInvariant | opsiconfd/wsgi.py:177-216 | what every step of the thread, the callbacks and the sender keeps |
| UserChannel.NothingSkipped | opsiconfd/messagebus/redis.py:343-424 | every entry up to `last-delivered-id` was handed to a reader, or dropped as malformed or expired, in every run with readers that start, fail and crash |
| UserChannel.NewReaderMissesNothing | opsiconfd/messagebus/redis.py:289-298 | a new reader begins before every entry that is not settled, and reads on without a hole |
| UserChannel.AcknowledgedStaysAway | opsiconfd/messagebus/redis.py:289-298 | in every run, through all of its failures, a reader takes only entries above the id stored when it starts |
| UserChannel.ReaderTakesInOrder | opsiconfd/messagebus/redis.py:358-402 | a reader that does not fail takes exactly the entries that follow the stored id, every one once and in order, in every run of the others |
| UserChannel.HandedIsAcknowledged | opsiconfd/messagebus/websocket.py:172-186 | after a message for the user the next step of its reader stores just that id, whatever the others do in between |
| UserChannel.ExpiryAtFetch | opsiconfd/messagebus/redis.py:378-388 | until its next fetch a reader hands over exactly the well-formed entries that had not expired at the fetch, and drops the others |
| UserChannel.ReadFollows | opsiconfd/messagebus/redis.py:340-341 | a read is the contiguous part of the stream right after the id |
| UserChannel.ReadIsFull | opsiconfd/messagebus/redis.py:340-341 | a read gives as many entries as asked for, or all that there are after the id |
| UserChannel.StepKeepsInvariant | opsiconfd/messagebus/websocket.py:172-186 | what every step of every reader keeps |
| MessageReader.MessageReader.UpdateStreams | opsiconfd/messagebus/redis.py:273-315 | it fails exactly at a channel without id that is not read yet; the streams on both exits, with where new ones begin: ">" behind the stored id or at 0, "$" at the time, a number at itself; and the reader counts |
| MessageReader.MessageReader.SetChannels | opsiconfd/messagebus/redis.py:323-326 | the streams become those of the channels: known ones keep their position, new ones begin where asked |
| MessageReader.MessageReader.AddChannels | opsiconfd/messagebus/redis.py:328-331 | the same for the channels with more added |
| MessageReader.MessageReader.RemoveChannels | opsiconfd/messagebus/redis.py:333-338 | the same for the channels with some removed |
| MessageReader.MessageReader.FinishReading | opsiconfd/messagebus/redis.py:408-416 | a reader that ends stops counting for each of its streams |
| MessageReader.MessageReader.AckMessage | opsiconfd/messagebus/redis.py:418-424 | the id is stored exactly if the reader reads the channel |
| MessageReader.UpdateFollows | opsiconfd/messagebus/redis.py:273-315 | what an update does to the streams on both exits: if it goes through they are exactly those of the channels, each where it was or where it should begin |
| MessageReader.UpdatedChannels | opsiconfd/messagebus/redis.py:328-331 | added channels get the new id, others keep theirs |
| MessageReader.RemovedChannels | opsiconfd/messagebus/redis.py:333-338 | just the named channels are removed |
| MessageReader.UpdateCounts | opsiconfd/messagebus/redis.py:307-315 | the commands of an update, failed or not, move each count by what changes for this reader |
| MessageReader.CountsAreKept | opsiconfd/messagebus/redis.py:273-416 | in every run of any readers, killed ones included, the count of a channel is the number of open readers that read it plus the killed ones that did; it is right exactly if none of the killed ones did |
| ConsumerGroup.ExactlyOnePlace | opsiconfd/messagebus/redis.py:478-523 | every entry is exactly one of undelivered, pending with one consumer, and acknowledged |
| ConsumerGroup.TakenOnceInOrder | opsiconfd/messagebus/redis.py:358-402 | a reader takes strictly increasing ids, none twice, unless a batch of pending entries failed |
| ConsumerGroup.TakenAgainIff | opsiconfd/messagebus/redis.py:395-402 | the next pending batch repeats an id exactly if an entry between the cursor and all it took is still pending |
| ConsumerGroup.FailedBatchIff | opsiconfd/messagebus/redis.py:358-405 | after an error in a pending batch ids are taken again exactly if one given since the cursor is still pending |
| ConsumerGroup.TakenTwiceAfterFailure | opsiconfd/messagebus/redis.py:358-405 | a run in which a failed batch makes a reader take the same id twice |
| ConsumerGroup.PendingBeforeNew | opsiconfd/messagebus/redis.py:358-405 | a reader that is alone with its consumer takes new entries only after all pending ones, errors in its batches included |
| ConsumerGroup.MissedMeansDiverted | opsiconfd/messagebus/redis.py:358-523 | for any reader, in every run since it started: if it reads new entries and was not given one that is pending for its consumer, that one was meanwhile delivered to another reader of the consumer or claimed by one |
| ConsumerGroup.SharedReaderMisses | opsiconfd/messagebus/redis.py:391-402 | a run in which a reader that shares its consumer takes new entries before one that is pending for it |
| ConsumerGroup.LeftUntilRestart | opsiconfd/messagebus/redis.py:358-405 | after an error in a batch of new entries the reader never comes back to anything pending then, which stays pending exactly until it is acknowledged |
| ConsumerGroup.NewBatchFails | opsiconfd/messagebus/redis.py:358-405 | a run that leaves an entry behind: pending, never handled, and the reader past it |
| ConsumerGroup.SharedEntryIff | opsiconfd/messagebus/redis.py:478-523 | in every reachable state: a reader that starts can be given an entry another one works on exactly if it claims the entry, or the entry is pending for its consumer |
| ConsumerGroup.ReadersApart | opsiconfd/messagebus/redis.py:440-523 | no entry is ever worked on by two readers, in any run in which no reader starts with a consumer in use or claims what somebody works on |
| ConsumerGroup.TwoReadersTakeTheSame | opsiconfd/messagebus/redis.py:440-523 | a run in which a second reader of the same consumer is given what the first one still works on |
| ConsumerGroup.RestartDrains | opsiconfd/messagebus/redis.py:358-523 | an entry that was not acknowledged comes back after a restart: in every run since a reader started, whatever others do and whichever of its batches fail, it was given each older entry that is still pending for its consumer by the time it reads new ones, unless a later reader of the consumer claimed it |
| ConsumerGroup.OwnRestartDrains | opsiconfd/messagebus/redis.py:358-507 | by steps of its own without an error it is given pending entries in order, and exactly all of them before it changes over to new ones |
| ConsumerGroup.RestartCanDrain | opsiconfd/messagebus/redis.py:358-507 | in every reachable state a reader that starts can get through all pending entries to the new ones by steps of its own |
| ConsumerGroup.StepKeepsInvariant | opsiconfd/messagebus/redis.py:358-523 | what every step of redis and of every reader keeps |
| Subscription.MessagebusWebsocket.GetSubscribedChannels | opsiconfd/messagebus/websocket.py:214-219 | which reader holds each channel; the last one counts |
| Subscription.MessagebusWebsocket.ByReader | opsiconfd/messagebus/websocket.py:264-270 | the channels to remove, grouped by the reader that holds them |
| Subscription.MessagebusWebsocket.RemoveChannels | opsiconfd/messagebus/websocket.py:272-277 | readers that lose all channels are stopped, others go on with the rest |
| Subscription.MessagebusWebsocket.AddChannels | opsiconfd/messagebus/websocket.py:279-305 | the readers and plain channels when the loop ends or stops at a denied or invalid channel |
| Subscription.MessagebusWebsocket.AddPlainChannels | opsiconfd/messagebus/websocket.py:307-320 | the plain channels go to the first plain reader, or to a new one |
| Subscription.MessagebusWebsocket.ProcessSubscription | opsiconfd/messagebus/websocket.py:221-323 | the readers after a request and its outcome, on every exit path |
| Subscription.PartitionIff | opsiconfd/messagebus/websocket.py:221-323 | on every exit path the readers partition the channels, with one plain reader and no empty one, exactly for requests that list channels once and subscribe new service channels |
| Subscription.OnePlainReader | opsiconfd/messagebus/websocket.py:279-320 | a partition has exactly one plain reader, it has the session channel, and no reader is empty |
| Subscription.SubscribedSets | opsiconfd/messagebus/websocket.py:221-323 | a successful request yields S+C, C plus session, or S-(C-session), and reports exactly that |
| Subscription.RequestSucceedsIff | opsiconfd/messagebus/websocket.py:221-323 | a request succeeds exactly if it removes, or adds or sets channels that are all granted; an invalid operation changes nothing |
| Subscription.FailedSets | opsiconfd/messagebus/websocket.py:279-323 | a request that fails names the first channel that is not granted, with the reason, and leaves the channels it kept and the service channels before the failure, but none of its plain ones |
| Subscription.Connected | opsiconfd/messagebus/websocket.py:221-323 | the first request of a connection gives one plain reader with user and session channel |
| Subscription.NoDoublesIff | opsiconfd/messagebus/websocket.py:252-277 | no reader is left empty exactly if no subscribed service channel is listed twice |
| RedisLock.MutualExclusion | opsiconfd/redis.py:283-317 | at most one client has a lock whose time has not run out, and redis holds its identifier |
| RedisLock.ExclusiveWithoutTimeouts | opsiconfd/redis.py:320-356 | without timeouts at most one client is between acquiring and releasing |
| RedisLock.DeletesOwnLockOnly | opsiconfd/redis.py:300-317 | a release deletes its own identifier or nothing, whatever happens between GET and EXEC |
| RedisLock.NobodyElseTakesIt | opsiconfd/redis.py:283-317 | no other client changes the key before the time of the holder runs out |
| RedisLock.UndisturbedRelease | opsiconfd/redis.py:300-317 | an undisturbed release frees the lock in one round |
| RedisLock.TakenIffFree | opsiconfd/redis.py:283-297 | an attempt takes the lock exactly if the key is not there or its time is over, with its identifier and timeout |
| RedisLock.ReleasedIsTaken | opsiconfd/redis.py:283-317 | a waiting client gets the lock at its first attempt after an undisturbed release |
| RedisLock.PatienceIsKept | opsiconfd/redis.py:286-297 | in every run a client gives up only after the acquire timeout |
| RedisLock.StepKeepsInvariant | opsiconfd/redis.py:283-317 | what every step of every client keeps |
| ApplicationState.OnlySettersChangeTheType | opsiconfd/application/__init__.py:188-227 | the stored type changes only through a setter or the initial write, and the accomplished write changes nothing but its flag of the state stored just before |
| ApplicationState.AccomplishedAfterAllReported | opsiconfd/application/__init__.py:195-215 | at the accomplished write every worker registered since the scan began has reported the type, and still does unless its entry changed |
| ApplicationState.AccomplishedExactly | opsiconfd/application/__init__.py:195-215 | every worker read by the scan reported the type then and none was gone; all workers report it at the accomplished write exactly if the last report each made since the state was loaded, if any, was that type |
| ApplicationState.NotAllReportAtTheWrite | opsiconfd/application/__init__.py:205-212 | a run in which a worker reports another type by the time of the write |
| ApplicationState.SetterCanStore | opsiconfd/application/__init__.py:188-194 | from every state with a free lock a setter can store its state |
| ApplicationState.InitCanStore | opsiconfd/application/__init__.py:262-268 | likewise the initial state: it stays if its type is one of the choices, otherwise the first choice is stored |
| ApplicationState.ManagerCanMark | opsiconfd/application/__init__.py:195-215 | and where all workers report the stored type the manager can mark it as accomplished |
| ApplicationState.StepKeepsInvariant | opsiconfd/application/__init__.py:188-266 | what every step of setters, manager and workers keeps |
| Session.OPSISession.SetAttribute | opsiconfd/session.py:535-541 | a setter changes one attribute and notes it, unless the value is equal |
| Session.OPSISession.Load | opsiconfd/session.py:934-956 | loading takes over the record and forgets the modifications |
| Session.OPSISession.Store | opsiconfd/session.py:958-978 | the record and the object after a store, with modifications only or completely |
| Session.LastStoreWins | opsiconfd/session.py:958-978 | in every interleaving each attribute in redis has the value of the last store that wrote it |
| Session.StoreWritesModifications | opsiconfd/session.py:966-976 | a store of modifications writes exactly these and a new version |
| Session.UpdateSurvives | opsiconfd/session.py:958-978 | what a worker stored stays in redis through any run, until that attribute is stored again or the record is deleted |
| Session.DifferentUpdatesSurvive | opsiconfd/session.py:958-978 | different attributes stored by two workers at any two points of a run both survive every step in between and after, as long as nobody stores them again or deletes the record |
| Session.OtherStoreIsNoticed | opsiconfd/session.py:923-932 | a refresh notices every store of another worker |
| Session.CheckedStoresKeepCurrent | opsiconfd/session.py:923-978 | a worker that compared versions before each of its stores since it last loaded or stored everything has a current object whenever redis has its version |
| Session.OwnStoreHidesStaleness | opsiconfd/session.py:923-978 | after its own store a refresh trusts the object; for a worker that compared versions at its earlier stores since it last loaded or stored everything, that is right in every run that looks the same to it exactly if they were equal before this store |
| Session.StaleAfterOwnStore | opsiconfd/session.py:923-978 | a run after which a worker trusts its object although an attribute is out of date |
| Session.EqualValueIsNotStored | opsiconfd/session.py:535-541 | setting the value the object already has is not stored, even if redis has another one |
| Session.ModifiedIff | opsiconfd/session.py:535-541 | in every run exactly those attributes are modified that the worker changed since its last store or load: a change is written once, and not forgotten before |
| ConfigFile.Config.ParseConfigFile | opsiconfd/config.py:455-466 | the options of the file, the last line of each counting |
| ConfigFile.Config.GenerateConfigFile | opsiconfd/config.py:468-492 | the rewritten text |
| ConfigFile.Config.SetConfigInConfigFile | opsiconfd/config.py:501-504 | the file after one option was set |
| ConfigFile.Config.UpdateConfigFile | opsiconfd/config.py:560-564 | the file after the cleanup |
| ConfigFile.ReadBackIff | opsiconfd/config.py:461-465 | an option is read back from its line exactly if it is valid |
| ConfigFile.ReadOptionIff | opsiconfd/config.py:461-465 | exactly the lines of the documented layout set an option: blank space anywhere, any letter case of the key |
| ConfigFile.GeneratedIsParsed | opsiconfd/config.py:468-492 | a configuration that is written is read back, each option has one line, and all other lines stay in order |
| ConfigFile.SetChangesOneOption | opsiconfd/config.py:501-504 | setting an option changes it and nothing else, in every file |
| ConfigFile.SetKeepsPlaces | opsiconfd/config.py:468-504 | in a file without doubled options every line stays in its place, the line of the option gets the new value, and a new option comes right before the last line |
| ConfigFile.SetWorksIff | opsiconfd/config.py:501-504 | setting works in every file exactly for the keys and values that a line can hold |
| ConfigFile.UpdateIsIdempotent | opsiconfd/config.py:560-564 | the cleanup drops the deprecated options, keeps the others, and does nothing twice |
| Acl.ReadParams | opsiconfd/backend/auth.py:84-121 | the character loop is the specified machine, errors included |
| Acl.ReadEntry | opsiconfd/backend/auth.py:58-129 | the access control entries of one entry text, or the error |
| Acl.ReadAclFile | opsiconfd/backend/auth.py:46-130 | the entries of all lines, or the first error, a pattern that does not compile among them |
| Acl.ItemsRun | opsiconfd/backend/auth.py:84-121 | running over printed parameters collects exactly their ids and attributes |
| Acl.PrintedEntryIsRead | opsiconfd/backend/auth.py:37-40 | a printed entry, with any blank space in each of its gaps, is read as what was printed: one access control entry per id, or one without id, each with exactly its attributes |
| Acl.PrintedFileIsRead | opsiconfd/backend/auth.py:35-130 | a file of printed rules and remarks, with any blank space in each gap, is read as exactly these rules |
| Acl.FileIsProper | opsiconfd/backend/auth.py:46-130 | whatever the file, only entries come out of it whose type is known, whose pattern compiles, and that have an id only if their type takes one |
| Acl.UnbalancedIsRefused | opsiconfd/backend/auth.py:84-121 | parameters whose brackets do not match or are nested are refused |
| Acl.BadEntryIsRefused | opsiconfd/backend/auth.py:58-83 | the error of an unknown type, of a group or user type without parameters, and of unbalanced brackets, for any line of one entry |
| Acl.FirstErrorCounts | opsiconfd/backend/auth.py:46-130 | the first line that is refused decides, and no entry is returned |
| Metrics.MetricsCollector.AddValue | opsiconfd/metrics/collector.py:56-64 | the value is added under its time stamp |
| Metrics.MetricsCollector.WriteValues | opsiconfd/metrics/collector.py:66-104 | the commands for all metrics and what stays buffered and marked |
| Metrics.SumsAreConserved | opsiconfd/metrics/collector.py:56-104 | for "sum" metrics, written plus buffered is what was added, on every run |
| Metrics.AverageIsWritten | opsiconfd/metrics/collector.py:76-101 | for "avg" metrics the value written is the mean: times the number of values it is their sum, and it lies between them |
| Metrics.BufferedUntilDue | opsiconfd/metrics/collector.py:56-75 | in every run, under each time stamp just that is buffered, as one value, which was added since the last write at that time or later |
| Metrics.OneZeroPerGap | opsiconfd/metrics/collector.py:76-97 | on every run a gap has one zero at its start and one an interval before the next values |
| Metrics.GapCommands | opsiconfd/metrics/collector.py:80-88 | writes without values issue one command in a gap of any length |
| Metrics.OtherGaps | opsiconfd/metrics/collector.py:80-97 | without `zero_if_missing` only values are written; with "continuous" every write issues exactly one command |
| Metrics.WorkerMetricsCollector.FetchValues | opsiconfd/metrics/collector.py:211-237 | the buffers and the last values after the gauges and both counters were fetched |
| Metrics.FetchFeeds | opsiconfd/metrics/collector.py:211-237 | for the metric of each counter a fetch is one addition of what was counted since the last one, and other metrics get the gauges only |
| Metrics.CountersTelescope | opsiconfd/metrics/collector.py:229-237 | for each counter, on every run: written plus buffered is the statistic at the last fetch, the statistic is the number of messages, and both are equal right after a fetch |
| Ping.WSProtocolOpsiconfd.PingPongRound | opsiconfd/websocket.py:54-71 | the state after one round, the time to sleep and the ping that is sent |
| Ping.WSProtocolOpsiconfd.HandlePong | opsiconfd/websocket.py:75-80 | a pong with a missing or the right payload ends the wait |
| Ping.OnePingOutstanding | opsiconfd/websocket.py:52-86 | at most one ping is outstanding |
| Ping.PongEndsWaitIff | opsiconfd/websocket.py:75-86 | a pong ends the wait exactly if it has no payload or the payload of the outstanding ping, or that had none; another one leaves the deadline as it is |
| Ping.SendsIff | opsiconfd/websocket.py:64-70 | a check sends a ping exactly if none is outstanding and an interval has passed since every ping before it and since the connection was made |
| Ping.ClosingEnds | opsiconfd/websocket.py:57-59 | a check of a connection that is closing or closed ends the loop for good |
| Ping.PunctualPeerIsKept | opsiconfd/websocket.py:52-86 | a peer whose accepted pongs come before the deadline is never aborted |
| Ping.AbortMeansUnanswered | opsiconfd/websocket.py:60-63 | an abort means an outstanding ping whose time is over |
| Ping.DeadPeerIsAborted | opsiconfd/websocket.py:52-72 | an unanswered ping leads to an abort after the timeout and less than one interval later, at once if the timeout is not longer than the interval, with exact sleeps |
| Series.SelectSeries | opsiconfd/application/metrics.py:207-240 | the two loops choose what the specification chooses |
| Series.SelectedReachesBack | opsiconfd/application/metrics.py:207-240 | the series reaches back to the start, give or take 5 s, or is the coarsest, or the raw one without rules |
| Series.SelectedExactly | opsiconfd/application/metrics.py:207-240 | the choice, exactly: the shortest-kept rule that covers the range, or the raw series, if that reaches back; otherwise the shortest-kept rule that does, or the coarsest one |
| Series.AlignedIsNearest | opsiconfd/application/metrics.py:167-169 | aligning gives the nearest multiple of 5 s, of two the even one, keeps the order, and does nothing twice |

## Left out

- dhcpd.conf: blocks and their components are records in one indexed store instead of heap objects, and an index stands for object identity; the parent references, the two child lists of a block and their updates in place are modelled, aliasing between stores is not.
- dhcpd.conf: `modify_host` and `remove_components`, which removes from the list it walks; option lookups (`get_options_hash`), which work like parameter lookups; `setup_dhcpd`, `get_dhcpd_control_config`, file locking and service restarts.
- dhcpd.conf: `_assert_parsed`, which reads the file if that has not happened; the methods work on the store at hand.
- dhcpd.conf: `forceHostname` and `forceHardwareAddress` are not part of this model; their results are parameters and are taken to be lower-case. `ip_address_in_network` is a function parameter. Python's error for a host block without a name is modelled, its other errors in these helpers are not.
- DhcpdReparse.RoundTrip: one component per line and safe contents are required, because a comment behind a statement takes the whole line as its text, and the scan takes `;` before `{` in a block on one line.
- Regular expressions are predicates on characters; whitespace, letters and letter case have their ASCII meaning.
- WSGI: the request body, the headers, and an application that raises an exception, after which the sender is cancelled.
- Messagebus: decoding messages, tracing, timeouts, several streams in one read, stream trimming, and steps of subscription changes inside one batch; changing the channels of a reader that has finished.
- MessageReader.MessageReader.UpdateStreams: redis and the clock are an object and a parameter; errors of redis itself are not modelled.
- MessageReader.CountsAreKept: an update or a finish is one step, so a process killed in the middle of its commands is not covered.
- ConsumerGroup.TakenOnceInOrder: one channel.
- ConsumerGroup.PendingBeforeNew: it fails for a reader that shares its consumer, as in `SharedReaderMisses`; `MissedMeansDiverted` says what such a reader can miss.
- Subscription.MessagebusWebsocket.ProcessSubscription: readers are values with an id that stands for their identity; the tasks that read from them, the messages sent to the websocket, and the rules for channel names and access are not modelled: the latter are a function parameter that grants, denies or rejects a channel.
- RedisLock.MutualExclusion: lock timeouts are whole positive milliseconds, and redis runs one command at a time.
- ApplicationState.OnlySettersChangeTheType: no lock expires while it is used, as its timeout promises; events and handlers are left out.
- Session.OPSISession.Store: attributes are integers under a name, a store is one step, and a session that is deleted, expired or not persistent stores nothing; expiry of the record, serialisation and cookies are left out.
- ConfigFile.Config.GenerateConfigFile: the value is the text that is written; reading and writing the file, and the other functions of the configuration, are left out.
- Acl.ReadAclFile: the group names that replace placeholders are a function parameter, and so is the predicate that tells which method patterns are regular expressions; a pattern is kept as text.
- Acl.PrintedEntryIsRead: ids and attributes hold no separators and brackets; a comma at the very end of the parameters would become part of the last id.
- Metrics.SumsAreConserved: values are real numbers, so rounding is left out, and a failing redis command loses what was popped.
- Metrics.WorkerMetricsCollector.FetchValues: one atomic step, as nothing in it waits: the lock of `add_value` is never held across an `await`.
- Ping.DeadPeerIsAborted: sleeps are exact and nothing is received; times are real numbers.
- Series.SelectSeries: time stamps are integers; reading the series and converting its rows are left out.
- Everything else in the repository: authentication, the backend, health checks, setup, certificates, webdav, grafana panels, logging and the command line.
