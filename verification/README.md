# Verification of the elComandante control software

elComandante runs qualification tests of pixel detector modules. This project models the parts of
it whose correctness is not visible from a single function, and proves what they promise. Code that
changes objects step by step is modelled by classes and loops, each tied to a specification about
which the properties are then proved.

* **Tests.** A line of text describes a tree of tests. It is parsed below a shared cursor, printed,
  walked from test to test without a stack, expanded while it is being walked (tests that need
  their own run on each testboard are replaced by renamed copies of whole subtrees), counted and
  run. Modules `Trees`, `TestSyntax`, `TestChains`, `TestChainParser`, `Expansion`, `Directories`,
  `TestRun`. The walk is specified with a zipper: a node's place in its tree determines what comes
  before and behind it in preorder.
* **Subscription server.** Clients and named abos are linked both ways in unordered arrays, listed in
  two registries, and unlinked when they are deleted. The heap refines a history of packets. Modules
  `Slist`, `SubscriptionHistory`, `SubscriptionServer`, and `CommandParser` for the management commands.
* **Modbus RTU.** The table-driven checksum against the definition in section 6.2.2 of "MODBUS over
  Serial Line Specification and Implementation Guide V1.02", what it detects, and the packing of
  single bits into bytes. Modules `ModbusCrcTables`, `ModbusRtu`, `ModbusBits`.
* **Control protocols.** The handshake between the x-ray agente and its client over two reliable
  channels, and the counter of temperature cycles. Modules `XrayProtocol`, `XrayHandshake`,
  `ThermalCycles`.

Where the code does less than its documentation or name says, the code is modelled and the exact
condition is proved:

* `RoundTripIff`: a printed tree is recovered exactly when all its labels are non-empty and free of
  the delimiters `>{},`.
* `DetectsTwoBytesIff` and `ChecksumIsStandardIff`: the checksum routine takes a sixteen-bit length,
  so for messages of 65536 bytes and more part of the message is not covered. This is about the
  routines' parameters, not about frames that occur: the library's own messages have at most 260
  bytes (libmodbus-3.0.3/src/modbus.c, `MAX_MESSAGE_LENGTH`).
* `Serve` and `AliasMisroutes`: an abo's name is cut off at 255 characters but compared in full. Data
  under a longer name is sent to nobody, whoever has subscribed to it, and each such packet registers
  another abo. Data under a name of exactly 255 characters can reach a subscriber of a longer name that
  was cut off to it; `AliasMisroutes` shows two packets that do so. All other names are routed exactly
  as the history says.
* `CanCopyIff` and `RunTests`: the directories of a power cycle are deleted after it, so a test below a
  power cycle in the tree finds nothing to copy. A run succeeds exactly when every test can be
  told its board, has a default directory for each board, and is for no board if it is below a power
  cycle.
* `HandshakeFinishes` and `UnknownTarget`: the client's documentation (xrayClient/xrayClient.py:270-277)
  says that every problem is reported as an error. An unknown target is only logged. The handshake
  then finishes without an error, and the beam leaves through the shutter that was chosen before. An
  error is raised exactly when the generator refuses a command (`NotPendingIsSettled`).
* `SettingsIff`: voltages and currents are read as floating point numbers but sent as integers.
* `IsLoopIff`: in a run with the limits the wrong way round one temperature can count for two half
  cycles (`CountsTwice`).
* The misspelt `doCycles` in coolingBox/jumo_coolingBox.py:138 does not end the cycling mode; as in
  the code, only `is_stable` does.

## Model

| member | source | states |
|---|---|---|
| Trees.PrePlug | myutils/testchain.py:20-41 | the preorder of a whole tree is what its zipper says is before a subtree, the subtree itself, and what is behind it |
| Trees.StepMoves | myutils/testchain.py:20-41 | one step to the successor stays in the same tree, reaches exactly the next node in preorder, and finds none exactly when nothing is left |
| Trees.ClimbMoves | myutils/testchain.py:29-41 | climbing to the next sibling of the nearest ancestor that has one reaches the first node behind the whole subtree |
| Trees.Locate | myutils/testchain.py:20-41 | every index into the preorder has a place in the tree, so every node has one |
| TestSyntax.PrintThenRead | myutils/testchain.py:44-56 | parsing what a tree with printable labels prints as consumes the whole text and gives ROOT with exactly that tree below it |
| TestSyntax.RoundTripIff | myutils/testchain.py:44-56 | a printed tree is recovered if and only if every label is non-empty and has none of the four characters `>{},` |
| TestSyntax.OneLabel | myutils/testchain.py:210-226 | a non-empty text without any of these four characters is read as exactly one test of that name |
| TestSyntax.FirstLabel | myutils/testchain.py:210-226 | each of the four characters ends a label |
| TestSyntax.WithoutSeparators | myutils/testchain.py:128-172 | the angle bracket in front of a list and the comma behind one can be left out |
| TestSyntax.Unclosed | myutils/testchain.py:158-172 | the trees of a list that is not closed are kept, and the text is not consumed |
| TestSyntax.ParsedIsPrintable | myutils/testchain.py:110-254 | every tree that parsing any text gives is printable, and its printed list of trees is parsed to the same tree |
| TestSyntax.ReadPrinted | myutils/testchain.py:158-172 | anywhere in a text, reading a printed tree gives it back and stops right behind it, whatever combination of chains and brackets it has |
| TestSyntax.ReadJoined | myutils/testchain.py:128-147 | reading printed trees joined by commas up to a closing bracket or the end gives back exactly these trees |
| TestSyntax.LabelsAreRuns | myutils/testchain.py:128-254 | for every text the labels read are, in preorder, the first maximal delimiter-free runs of the text; all of them if the text is consumed |
| TestSyntax.RunsAreLabels | myutils/testchain.py:210-226 | every label that can be scanned is non-empty and delimiter-free |
| TestSyntax.PrintableIff | myutils/testchain.py:44-56 | a forest is printable exactly when all labels of its preorder are |
| TestChains.PlugPlaced | myutils/testchain.py:20-41 | linked nodes form a tree exactly when each subtree is properly linked into its surroundings, with no node shared |
| TestChains.TestChain.Next | myutils/testchain.py:20-25 | the successor of any node of a tree is the next one in the preorder, or null behind the last |
| TestChains.TestChain.UpNext | myutils/testchain.py:29-41 | the next node behind a child and all that is below it; null for a node that is not a child |
| TestChains.TestChain.Repr | myutils/testchain.py:44-56 | the loop that builds the text gives the printed form of the tree below the node |
| TestChains.PrintCases | myutils/testchain.py:44-56 | how a test with none, one or several children is printed |
| TestChains.TestChain.Clone | myutils/testchain.py:60-65 | a clone has only new nodes, the same labels and shape, and hangs below the given parent |
| TestChains.TestChain.Multiply | myutils/testchain.py:67-90 | the node takes the first name; clones of its whole subtree under the other names follow it in order, and nothing else in the tree changes; no names, no change |
| TestChains.TestChain.MultiplyChild | myutils/testchain.py:71-90 | the same from the parent's side, inserting from the second name to the last; nothing changes without names or for a node that is not a child |
| TestChains.TestChain.InsertClone | myutils/testchain.py:78-90 | one renamed clone is inserted at the wanted place among the siblings |
| TestChains.TestChain.IndexOf | myutils/testchain.py:71-90 | the index found is the child's own place among its siblings |
| TestChainParser.ParseTestList | myutils/testchain.py:110-116 | the linked parser builds a well-formed tree of new nodes whose labels are those of the specified reader, and null exactly when not one tree can be read |
| TestChainParser.Parser.ParseList | myutils/testchain.py:128-147 | the trees read become the cursor's new last children, in order; the cursor is back where it was; the position is -1 or larger and within the text |
| TestChainParser.Parser.ParseTree | myutils/testchain.py:158-172 | one tree becomes the cursor's new last child, also when its bracket is not closed, and the cursor ends on the right spine of it |
| TestChainParser.Parser.ParseChain | myutils/testchain.py:183-198 | each test of a chain becomes the only child of the one before |
| TestChainParser.Parser.ParseTest | myutils/testchain.py:210-226 | a maximal delimiter-free run becomes a new last child, which the cursor moves to; nothing changes if the run is empty |
| TestChainParser.Parser.ParseBracket | myutils/testchain.py:238-254 | a bracket's trees become the children of the chain's last node, which the cursor is back on |
| TestChainParser.ChainHangs | myutils/testchain.py:158-198 | a chain with trees below its last node is one tree with these labels, and its last node is on the right spine |
| Expansion.ExpandTests | elComandante/el_comandante.py:856-883 | expanding while walking fails exactly when a test string has two at signs, and else ends after as many steps as the final tree has tests, with the final tree equal to the recursive expansion; a single IV or leakage current test becomes one tree per slot, any other stays |
| Expansion.VisitTest | elComandante/el_comandante.py:857-881 | one visit renames an IV or leakage current test and inserts a copy per further slot, leaves any other test alone, keeps what the walk still owes, and leaves a test that needs no further replacement |
| Expansion.MultiplyFinishes | elComandante/el_comandante.py:872-877 | multiplying a node leaves the tree that the walk is heading for the same, though the clones are still to be expanded |
| Expansion.StepFinishes | elComandante/el_comandante.py:883 | moving on from a finished node leaves the tree that the walk is heading for the same |
| Expansion.RenamedStays | elComandante/el_comandante.py:858-876 | a test renamed for a board is never renamed again |
| Expansion.ExpandTwice | elComandante/el_comandante.py:856-883 | expanding an expanded tree changes nothing |
| Expansion.ExpandCopies | myutils/testchain.py:67-90 | copies are expanded to copies of the expanded subtree |
| Expansion.ExpandIs | elComandante/el_comandante.py:863-877 | with one channel for all boards, a test called IV or, in any case, leakagecurrentpon or leakagecurrentpoff becomes one tree per slot; any other stays |
| Expansion.RenamesIs | elComandante/el_comandante.py:863-877 | the names of the copies, and for which tests there are any |
| Expansion.SplitsAt | elComandante/el_comandante.py:858-862 | a string is split at its one at sign; without one the environment is 17.0 |
| Expansion.RenamedBare | elComandante/el_comandante.py:858-875 | a test without an environment is renamed with @17.0 |
| Expansion.ExpandSplittable | elComandante/el_comandante.py:858-859 | expansion neither hides nor makes a test string that cannot be split |
| Expansion.BoardNames | elComandante/el_comandante.py:872-875 | one name per board, in order, of the form test_TBslot@environment |
| Expansion.ParsesRenamed | elComandante/el_comandante.py:858-875 | splitting a renamed test gives back the test with its board, and its environment |
| Directories.RenamedForItsBoard | elComandante/psi_agente.py:100-115 | the copy of a per-board test that the expansion names after a slot is prepared on the board in that slot and no other |
| Directories.BoardsForIs | elComandante/psi_agente.py:97-128 | the three cases of which boards a test is for, without splitting or stripping |
| Directories.CurrentIs | elComandante/psi_agente.py:101-115 | what single-channel tests and others are called while they run |
| Directories.PowerCycleIff | elComandante/psi_agente.py:284-288 | a power cycle is a test of exactly that name |
| Directories.TestDirIs | elComandante/psi_agente.py:154 | how a directory is written |
| Directories.ZfillPads | elComandante/psi_agente.py:154 | its number is filled up with zeros to three digits |
| Directories.PsiAgente.SetTest | elComandante/psi_agente.py:93-95 | a test starts with a copy of its parent's directories |
| Directories.PsiAgente.SelectBoard | elComandante/psi_agente.py:97-115 | a test is for all boards if its name has not exactly one underscore or speaks neither of IV nor of leakage currents; otherwise for the board whose number is behind the underscore among the letters T and B, and it fails where there is none |
| Directories.PsiAgente.PrepareTest | elComandante/psi_agente.py:97-122 | exactly the boards that the test asks for, or all if it asks for none, get their own new directory, copied from the parent's and named after the board's number; all other slots keep the parent's, and nothing else comes into existence; failure exactly where the board cannot be told or a directory to copy is missing |
| Directories.PsiAgente.PrepareTestboard | elComandante/psi_agente.py:124-155 | the same for one board; failure exactly where the slot has no directory, the directory to copy is missing, or the one to make exists |
| Directories.PsiAgente.CleanupTest | elComandante/psi_agente.py:274-290 | the directory number advances once for each board that the test was for; after a power cycle the boards' directories are deleted instead |
| Directories.TestDirsDiffer | elComandante/psi_agente.py:154 | directories with different numbers have different names, whatever the tests and environments are called |
| Directories.MadeElsewhere | elComandante/psi_agente.py:154 | the directory that a board is to get is not there yet, whatever was made for the boards before it |
| Directories.MadeFresh | elComandante/psi_agente.py:274-290 | once the numbers have advanced, no directory has a number that is still to come on any board |
| Directories.PowerCycleIsForAll | elComandante/psi_agente.py:97-122 | a power cycle is prepared on all boards |
| Directories.NearestIs | elComandante/psi_agente.py:398-416 | a slot's directory is that of the last ancestor that prepared the slot, or the default one if none did |
| Directories.ClimbPrepared | elComandante/psi_agente.py:398-416 | when a subtree has been prepared, what is known about prepared directories holds for the node that the walk climbs to |
| Directories.StepPrepared | elComandante/el_comandante.py:912-965 | after one prepared test everything before its successor is prepared, or the whole tree if there is none |
| TestRun.CountTests | elComandante/el_comandante.py:885-892 | the counting walk visits every test once, in preorder |
| TestRun.ParentPrepared | elComandante/psi_agente.py:93-95 | the parent of the test to be set has its directories already, each the nearest one |
| TestRun.SourceExists | elComandante/psi_agente.py:413-416 | the nearest directory of a slot exists exactly if a default directory was there and no test above is a power cycle |
| TestRun.CanCopyIff | elComandante/psi_agente.py:398-433 | all directories that a test needs can be copied exactly if the test fits below the tests above it |
| TestRun.FitHere | elComandante/el_comandante.py:912-965 | in a tree all of whose tests fit, each fits at its place |
| TestRun.PreparedFits | elComandante/el_comandante.py:912-965 | tests that have all been prepared all fit |
| TestRun.RunOne | elComandante/el_comandante.py:927-961 | one test adds only new directories, different in each slot, and they stay, or it was a power cycle and nothing stays; the number of a board advances by one exactly if the test was for it and was no power cycle |
| TestRun.OneMore | elComandante/psi_agente.py:413-416 | directories that did not exist differ from all that earlier tests made and that still exist |
| TestRun.RunTest | elComandante/el_comandante.py:912-965 | one round of the loop prepares its test from the nearest directories under new names, and fails exactly when that test does not fit |
| TestRun.RunTests | elComandante/el_comandante.py:912-965 | the test loop prepares every test once, each from its nearest ancestor's directories; every directory made is named after a number on a board in its slot, and no two are the same except those deleted after power cycles; the last number equals the number of tests; it fails exactly when some test does not fit below the tests above it |
| TestRun.RunTestList | elComandante/el_comandante.py:795-965 | from the text to the last test: the outcome depends on the text, the boards and the default directories alone, the numbers of the counting walk and of the test loop agree with the recursive expansion, all directories are inherited from the nearest ancestor and none is used twice |
| Slist.SList.Add | subsystem/slist.h:87-97 | adds an element that is not there yet at the end and says whether it did, growing by a block when full |
| Slist.SList.Remove | subsystem/slist.h:99-110 | removes the element by moving the last one to its place, and says whether it did, keeping the bounds on the allocated blocks |
| Slist.SList.Grow | subsystem/slist.h:58-70 | makes room for one more element and keeps the contents; refuses when there is room |
| Slist.SList.Shrink | subsystem/slist.h:72-84 | gives back a block exactly when the last one is unused, keeps the contents, and never reallocates to size zero |
| Slist.RemovedAt | subsystem/slist.h:99-110 | where each element of a list with one removed comes from |
| Slist.RemoveFromIs | subsystem/slist.h:99-110 | removal takes away exactly the one element and keeps the list free of duplicates |
| Slist.AddToIs | subsystem/slist.h:87-97 | addition adds exactly the one element and keeps the list free of duplicates |
| Slist.ListIsSet | subsystem/slist.h:87-110 | after any run of additions and removals the list holds, once each, exactly the elements whose latest operation is an addition |
| SubscriptionHistory.HoldsIff | subsystem/server.cpp:275-307 | a link holds exactly when some packet opened it and no packet since has closed it |
| SubscriptionHistory.ClientPresentStep | subsystem/server.cpp:227 | one more packet registers its source and removes whom it terminates or removes |
| SubscriptionHistory.AboPresentStep | subsystem/server.cpp:242-297 | one more packet registers what it names and removes the abo that it removes |
| SubscriptionServer.EventEffects | subsystem/server.cpp:235-307 | which link each type of packet makes or cuts |
| SubscriptionServer.Server.Serve | subsystem/server.cpp:221-312 | over every run of packets each DATA goes exactly once to every other subscriber and each SETDATA to every other supplier according to the history so far, and to nobody else, and to nobody at all under a name of 256 characters or more; exactly those clients are registered that sent a packet and have not been removed since, and those abos that a packet named and none has removed; all links agree with the history after every packet; it stops only when there is no room for what a packet would add |
| SubscriptionServer.Server.Process | subsystem/server.cpp:221-312 | the same for one packet of any type |
| SubscriptionServer.Server.Handle | subsystem/server.cpp:221-312 | the source of every packet is registered before the packet is carried out, so that a client that removes itself is not registered afterwards |
| SubscriptionServer.Server.ProcessNamed | subsystem/server.cpp:240-302 | packets about an abo; data is routed first and then counts as SUPPLY |
| SubscriptionServer.Server.FanOut | subsystem/server.cpp:259-273 | data goes to everybody on the abo's list except its source, once each |
| SubscriptionServer.Server.TargetsAreLinked | subsystem/server.cpp:259-273 | the addresses on an abo's list are those that the history says are linked, without duplicates |
| SubscriptionServer.Server.SendPacket | subsystem/subserver.cpp:126-154 | packets to 0.0.0.0 are dropped |
| SubscriptionServer.Server.Client | subsystem/clientinfo.h:91-99 | finds the client with an address or registers a new one; addresses stay distinct and nothing changes for the others |
| SubscriptionServer.Server.AboNamed | subsystem/abo.h:94-103 | finds the first abo with a name of any length or registers a new one under the name cut off; names that are stored whole stay distinct |
| SubscriptionServer.FoundAgainIff | subsystem/abo.cpp:24-26 | looking a name up again finds what the first look registered if and only if the name has at most 255 characters; `AboNamed` changes the registered names this way |
| SubscriptionServer.AliasedIff | subsystem/abo.cpp:24-26 | the names that do not count are those of 255 characters to which some packet's longer name was cut off |
| SubscriptionServer.AliasMisroutes | subsystem/abo.cpp:24-26 | two packets by which a client gets data under a name that it never subscribed to |
| SubscriptionServer.Server.Relink | subsystem/server.cpp:275-302 | making or cutting a link changes both halves of the relation for this pair only |
| SubscriptionServer.Server.AddSubscription | subsystem/server.cpp:289-295 | both lists get the other object, and no other pair is affected |
| SubscriptionServer.Server.CutSubscription | subsystem/server.cpp:296-302 | both lists lose the other object, and no other pair is affected |
| SubscriptionServer.Server.AddSupply | subsystem/server.cpp:275-281 | the same for suppliers |
| SubscriptionServer.Server.CutSupply | subsystem/server.cpp:282-288 | the same for suppliers |
| SubscriptionServer.Server.UnlinkClientSuppliers | subsystem/clientinfo.cpp:44-47 | the loop ends with the client's own list empty and the client taken off every abo's list |
| SubscriptionServer.Server.UnlinkClientSubscribers | subsystem/clientinfo.cpp:48-51 | the same for subscriptions |
| SubscriptionServer.Server.UnlinkAboSuppliers | subsystem/abo.cpp:38-42 | the loop ends with the abo's own list empty and the abo taken off every client's list |
| SubscriptionServer.Server.UnlinkAboSubscribers | subsystem/abo.cpp:43-47 | the same for subscribers |
| SubscriptionServer.Server.UnlistClient | subsystem/clientinfo.cpp:53-65 | removes exactly this client from the registry, moves the last one to its index, and keeps every index and the empty tail right |
| SubscriptionServer.Server.UnlistAbo | subsystem/abo.cpp:49-61 | the same for abos |
| SubscriptionServer.Server.DeleteClient | subsystem/clientinfo.cpp:42-66 | deletes exactly this client; no list mentions it any more and all other links stay |
| SubscriptionServer.Server.DeleteAbo | subsystem/abo.cpp:36-62 | deletes exactly this abo; no list mentions it any more and all other links stay |
| SubscriptionServer.Server.RemoveAbos | subsystem/subserver.cpp:501-548 | the removal loop over the registry that it changes deletes the abo with that name, unless the name is "unsupplied" |
| SubscriptionServer.Server.RemoveClients | subsystem/subserver.cpp:414-451 | the removal loop over the registry that it changes deletes the client with that address |
| SubscriptionServer.Server.Recorded | subsystem/server.cpp:275-307 | links changed as a packet says agree with the history that is longer by this packet |
| CommandParser.Parse | subsystem/command_t.h:74-98 | the offsets are those of the non-empty fields of the text before the first newline, separated by spaces and tabs, in order; the buffer holds each, up to a zero byte inside it, as a terminated string; nothing behind the line changes; a null text gives -1 |
| CommandParser.FieldsAre | subsystem/command_t.h:74-98 | the specified fields with every separating character written out |
| CommandParser.SplitParts | subsystem/command_t.h:77-88 | the first loop terminates every part between blanks, empty ones included, and records where each begins |
| CommandParser.DropEmpty | subsystem/command_t.h:89-96 | what the second loop leaves are the fields of the line |
| CommandParser.CloseGaps | subsystem/command_t.h:89-96 | the second loop, which rewinds its index, ends with exactly the offsets of non-empty strings |
| CommandParser.CloseGap | subsystem/command_t.h:91-93 | moves the offsets behind an index down by one |
| CommandParser.NonEmptyParts | subsystem/command_t.h:77-96 | of all parts the non-empty ones are the fields of the line |
| CommandParser.FieldStartsAre | subsystem/command_t.h:74-98 | the specified offsets are exactly the field starts, in increasing order |
| ModbusCrcTables.TableIsBitwise | libmodbus-3.0.3/src/modbus-rtu.c:40-97 | every entry of both tables is the register after eight bitwise shifts of its index, reflected polynomial 0xA001 |
| ModbusRtu.StepIsStandard | libmodbus-3.0.3/src/modbus-rtu.c:148-152 | one table-driven step is one byte of the standard's bitwise definition |
| ModbusRtu.RunIsStandard | libmodbus-3.0.3/src/modbus-rtu.c:141-155 | for messages of every length the table-driven register is the byte-swapped register of the standard |
| ModbusRtu.ChecksumIsStandardIff | libmodbus-3.0.3/src/modbus-rtu.c:141-155 | the checksum of all messages of a length is the standard's if and only if the length fits sixteen bits |
| ModbusRtu.Crc16 | libmodbus-3.0.3/src/modbus-rtu.c:141-155 | the loop computes the specified register, high half first |
| ModbusRtu.SendMsgPre | libmodbus-3.0.3/src/modbus-rtu.c:164-171 | appends two bytes to make the specified frame and changes nothing else |
| ModbusRtu.FrameIsStandard | libmodbus-3.0.3/src/modbus-rtu.c:164-171 | the bytes appended are the standard's checksum of the bytes counted, low-order byte first, and every frame sent is accepted |
| ModbusRtu.FrameExample | libmodbus-3.0.3/src/modbus-rtu.c:141-171 | the frame of the specification's example, 02 07 41 12 |
| ModbusRtu.CheckIntegrity | libmodbus-3.0.3/src/modbus-rtu.c:284-307 | returns the length of an accepted frame, otherwise -1 |
| ModbusRtu.Residue | libmodbus-3.0.3/src/modbus-rtu.c:284-307 | a frame is accepted exactly when the standard's register over all of it is zero |
| ModbusRtu.BurstRejected | libmodbus-3.0.3/src/modbus-rtu.c:284-307 | no change of an accepted frame within any sixteen consecutive bits is accepted, across bytes and into the checksum |
| ModbusRtu.DetectsTwoBytesIff | libmodbus-3.0.3/src/modbus-rtu.c:284-307 | all changes of two adjacent bytes of accepted frames of a length are rejected if and only if the message without checksum is shorter than 65536 bytes |
| ModbusRtu.OddRejected | libmodbus-3.0.3/src/modbus-rtu.c:284-307 | no change of an odd number of bits, anywhere in a frame, is accepted |
| ModbusRtu.ShiftParity | libmodbus-3.0.3/src/modbus-rtu.c:40-97 | shifting keeps the parity of the register |
| ModbusRtu.ShiftsInjective | libmodbus-3.0.3/src/modbus-rtu.c:40-97 | shifting the register never makes two registers equal |
| ModbusRtu.WindowInjective | libmodbus-3.0.3/src/modbus-rtu.c:141-155 | from any register, different choices of up to sixteen bits lead to different registers |
| ModbusRtu.RegisterIsFeed | libmodbus-3.0.3/src/modbus-rtu.c:141-155 | the register over bytes is the register over their bits, lowest first |
| ModbusBits.SetBitsFromByte | libmodbus-3.0.3/src/modbus-data.c:30-37 | writes the eight bits of a byte from an index on, and nothing else |
| ModbusBits.SpreadIs | libmodbus-3.0.3/src/modbus-data.c:30-37 | every bit of a byte, the lowest one first |
| ModbusBits.SetBitsFromBytes | libmodbus-3.0.3/src/modbus-data.c:41-53 | writes the first bits of a table from an index on, and nothing else |
| ModbusBits.GetByteFromBits | libmodbus-3.0.3/src/modbus-data.c:57-74 | collects at most eight elements, each shifted to its place |
| ModbusBits.CollectBit | libmodbus-3.0.3/src/modbus-data.c:69-71 | which bits of which elements, single bits or not, make up each bit of the result |
| ModbusBits.SpreadThenCollect | libmodbus-3.0.3/src/modbus-data.c:41-74 | bytes spread over single bits are collected again chunk by chunk, the last one masked to the bits asked for |
| ModbusBits.CollectThenSpread | libmodbus-3.0.3/src/modbus-data.c:30-74 | up to eight elements are recovered from the byte collected from them if and only if all are 0 or 1 |
| XrayProtocol.NotPendingIsSettled | elComandante/xray_agente.py:203-297 | in every interleaving, once the agente is not pending an error was raised exactly if the generator refused a command, and otherwise all commands have been executed and the generator is in the environment's state: settings and high voltage match, the one open shutter is number 1 for a known target, number 3 for none, otherwise the one chosen before, and without x-rays no shutter is open |
| XrayProtocol.ChosenIsLast | xrayClient/xrayClient.py:286-298 | the shutter chosen is that of the last x-ray test whose target is known or none, at first number 3 |
| XrayProtocol.NeverTwoBeams | xrayClient/xrayClient.py:299-305 | as long as the generator obeys, never are two shutters open, and none is opened by a target before the beam was first turned on |
| XrayProtocol.RequestsIff | elComandante/xray_agente.py:203-232 | exactly those commands are sent that change something the agente remembers |
| XrayProtocol.InvHolds | elComandante/xray_agente.py:203-297 | the invariant holds in every run: executing the commands on the way leads to what the agente believes, question and answer are never both on the way, and an error comes before the answer |
| XrayProtocol.PrepareWorks | elComandante/xray_agente.py:203-232 | whatever the agente remembers, the commands it sends bring about what it remembers afterwards |
| XrayProtocol.RequestsAwait | elComandante/xray_agente.py:203-232 | the question whether the client is finished is sent exactly once and last |
| XrayProtocol.KeptByTurn | xrayClient/xrayClient.py:281-404 | a round of the client keeps the invariant whether the generator obeys or ends up in any other state |
| XrayProtocol.KeptByCleanUp | elComandante/xray_agente.py:246-254 | cleaning up keeps the invariant |
| XrayProtocol.KeptByFinishUp | elComandante/xray_agente.py:260-268 | the final cleanup leads to closed shutters and no high voltage if that is to be turned off |
| XrayProtocol.KeptByCheck | elComandante/xray_agente.py:277-290 | looking through the replies keeps the invariant |
| XrayProtocol.SettingsIff | elComandante/xray_agente.py:209-214 | where the generator shows an environment, voltage and current are exactly those wanted if and only if whole numbers were wanted |
| XrayProtocol.WholeIff | elComandante/xray_agente.py:209-214 | numbers are cut off toward zero, and sent unchanged if and only if they are whole |
| XrayProtocol.HandshakeFinishes | xrayClient/xrayClient.py:281-313 | with a generator that obeys, the handshake finishes without an error for every target, and the beam leaves through shutter 1 for a known target, 3 for none, otherwise the one in use before |
| XrayProtocol.UnknownTarget | xrayClient/xrayClient.py:293-298 | an unknown target at the start of a run: no error, and the direct beam is on |
| XrayHandshake.XrayAgente.PrepareTest | elComandante/xray_agente.py:203-232 | the commands sent and the state remembered are those of the protocol |
| XrayHandshake.XrayAgente.CleanupTest | elComandante/xray_agente.py:246-254 | closes the shutter only if it is open and to be closed between tests |
| XrayHandshake.XrayAgente.FinalTestCleanup | elComandante/xray_agente.py:260-268 | always closes the shutter, and turns off the high voltage if configured |
| XrayHandshake.XrayAgente.CheckFinished | elComandante/xray_agente.py:277-290 | takes replies up to the first error or the last one, and raises exactly on an error |
| XrayHandshake.XrayClient.Round | xrayClient/xrayClient.py:281-404 | one round executes one command as the protocol says, with an error reply exactly for a refused command, or compares the generator with its saved state when there is none |
| XrayHandshake.Comandante.WaitUntilFinished | elComandante/el_comandante.py:682-704 | waiting ends whatever the generator answers, with an error raised exactly if a command was refused, and else with everything settled |
| XrayHandshake.Comandante.PrepareTest | elComandante/el_comandante.py:931-935 | preparing a test performs the protocol's step and keeps the invariant |
| XrayHandshake.Comandante.ClientRound | xrayClient/xrayClient.py:281-404 | a round of the client performs the protocol's step and keeps the invariant |
| ThermalCycles.CyclingOnScript | coolingBox/jumo_coolingBox.py:129-148 | from the start of cycling on, over all readings, what was asked for is the upper and the lower setpoint in turn, as many as the counter says, and the upper limit at the end; a negative number other than -1 never ends |
| ThermalCycles.OverIsDone | coolingBox/jumo_coolingBox.py:134-148 | when the counter is -1 the setpoints two degrees below and above the limits were each asked for in turn exactly as often as there were cycles, and the setpoint is the upper limit |
| ThermalCycles.IsLoopIff | coolingBox/jumo_coolingBox.py:305-314 | all runs of started cycles are a plain loop over their readings, with at most one switch per reading, if and only if the lower limit is not above the upper one |
| ThermalCycles.CountsTwice | coolingBox/jumo_coolingBox.py:129-148 | a run of two cycles with limits the wrong way round in which one reading ends a cycle and begins the next |
| ThermalCycles.WatchedIsLoop | coolingBox/jumo_coolingBox.py:100-110 | however the readings divide among outer and nested calls, the run is the loop over all of them |
| ThermalCycles.LookCountsIff | coolingBox/jumo_coolingBox.py:134-148 | a look counts exactly if the reading is above the upper limit, or below the lower one when half a cycle is open |
| ThermalCycles.Ask | coolingBox/jumo_coolingBox.py:305-314 | no nested call raises the counter, and nothing happens to it once it is over |
| ThermalCycles.CoolingBox.SetSetpoint | coolingBox/jumo_coolingBox.py:305-314 | a changed setpoint is followed by a nested look at the box |
| ThermalCycles.CoolingBox.Stabilize | coolingBox/jumo_coolingBox.py:150-195 | one look consumes one reading and checks the cycles unless the box has to be dried first |
| ThermalCycles.CoolingBox.CheckCycles | coolingBox/jumo_coolingBox.py:129-148 | the three conditions in order, each with its nested call; the recursion terminates |
| ThermalCycles.CoolingBox.DoCycle | coolingBox/coolingBox.py:52-63 | starts cycling with the number and limits wanted, first asking for two degrees above the upper limit |
| ThermalCycles.CoolingBox.IsStable | coolingBox/jumo_coolingBox.py:246-264 | while cycling, reports the end exactly when the counter is -1, once, and only after exactly the cycles wanted |

## Left out

- Sockets, serial ports, threads, subprocesses, terminals, logging, mail, file copying: input and output. Channels are queues, directories are strings.
- SubscriptionServer: the link lists of clients and abos are sequences changed with the same functions that the class `SList` is proved to implement; the arrays inside each list are not nested into the server's heap.
- Time stamps, abo log files, log levels and the unique flag in the server, replies to management commands, packet byte layout and validity checks: none of them changes a link or a receiver.
- Removal of all unsupplied abos and removal of clients by shared id: those loops skip entries while they delete. Removal by a unique name other than "unsupplied" and by a unique address is modelled.
- SubscriptionServer.Server.Serve: does not go on when a packet would add to a registry of 128 entries that is full, where the original writes past its array; failing reallocation in `SList` is not modelled either. Replies to management commands are not among what is sent.
- SubscriptionServer.Server.Process: replies to management commands are not among what is sent, because they change neither links nor routing.
- SubscriptionServer.Server.RemoveAbos: does not model the name "unsupplied", for which the original deletes all abos without suppliers and skips entries while it does.
- SubscriptionServer.Server.RemoveClients: does not model removal by client id, because ids can be shared and the loop then skips entries.
- SubscriptionServer.Server.ProcessNamed: for a name of 255 characters to which a longer one was cut off it does not say who gets data, only that its source does not.
- `slist::clear` and the list operators: they call what is modelled.
- CommandParser.Parse: the array of arguments has room, which the original does not check either. For a null text the original leaves the count as its caller set it, which is 0.
- ModbusRtu.CheckIntegrity: frames have at least two bytes; shorter ones read in front of the buffer. Recovery and debug output are left out.
- ModbusBits.GetByteFromBits: more than eight bits are clamped as with assertions disabled; enabled assertions end the program there.
- Index arithmetic that mixes signed and unsigned numbers in modbus-data.c: indices are natural numbers inside the array.
- Restarting stuck testboards, running the tests themselves, configuration file changes inside copied directories, the agente's `active` flag being off: they do not touch what is modelled.
- Directories.PsiAgente.SelectBoard: the number behind an underscore is a sequence of digits; signs, blanks and more than one underscore inside Python's `int` are not modelled.
- TestRun.RunTestList: the boards' directories are as `RunTests` needs them.
- TestRun.RunTests: no board's directory lies in another one's and no directory with a number to come exists at the start, as with the time stamps that the original puts into the boards' directories; directories that are copied are not empty, and deleting succeeds. The temperature part of directory names comes from a parameter, since environments are read from configuration files.
- Expansion: failing test strings end the program as in the original; Python's limit on recursion depth is not modelled.
- XrayHandshake.XrayClient.Round: motor stage motion, malformed commands, which the agente never sends, and the command to exit are left out.
- XrayHandshake.Comandante.WaitUntilFinished: only the x-ray agente is waited for, and the client has exactly one round between two questions; `NotPendingIsSettled` holds for every interleaving.
- XrayProtocol: motor stage motion, interlocks and operators at the front panel, lost packets. An empty target is passed on as an empty string; how it is written on the wire is not modelled.
- ThermalCycles.CoolingBox.Stabilize: humidity, flushing, heating and cooling valves are one reading that either blocks or gives a temperature; setpoint commands from outside during cycling and calls from two threads at once are left out.
- ThermalCycles.CoolingBox.IsStable: whether the box is near its setpoint long enough outside cycling is a parameter.
- The jumo client's state machine, high voltage and Keithley interfaces, analysis and fitting macros, user dialogues: hardware timing, plotting, or settled by reading one branch.
