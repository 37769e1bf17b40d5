# IM chat server: roster, broadcast and command interpreter

A Dafny model of the core of the `IM` chat server, written in Go. The server
keeps a roster of online users by name (`OnlineMap`) and a broadcast channel
(`Message`). A fan-out goroutine copies every broadcast onto each user's own
channel (`C`). Each user's delivery goroutine writes that channel to the
user's connection, adding a newline. Each connection's read goroutine hands
the received lines to the command interpreter: `who`, `rename|<name>`,
`to|<name>|<text>`, or plain chat. The early server (V0.3) broadcasts every
line instead.

The model is sequential. Each goroutine becomes a method that the caller runs
when it chooses. Channels become sequences, oldest first. A connection becomes
the sequence of everything written to it, one entry per `Write`.

- `Chat.Server` and `Chat.User` are classes. Their fields are updated in
  place, as the Go structs are. `Server.Valid()` says that every roster key
  maps to a user whose current name is that key.
- `Commands.Parse` and `Commands.Decide` state the interpreter's decisions
  as pure functions. `User.DoMessage` carries them out on the shared state,
  and its contract is stated in terms of `Decide`.
- `GoStrings.Split` is Go's `strings.Split` for a one-character separator.
- Go visits a map in no fixed order. So the `who` answer is stated as the
  multiset `Listing.Listed` of one line per roster entry.
- `ReadPath` classifies one `conn.Read` result. `ReadPath.Said` is what a run
  of reads broadcasts.
- `Wire` holds the exact strings the server writes and queues.

The NewUser, Online, Offline, SendMsg and ListenMessage functions of
V0.5/user.go are the same as those of user.go, so they share one member
each. The V0.5 interpreter is `User.DoMessageV05`. V0.3/user.go's `NewUser`
gives the same name, address and empty queue as user.go's. It stores no
server pointer, which the model's `User` always has.

A `to|<name>` line with no second `|`, sent while `<name>` is online, makes
the Go code index a field that does not exist. That is a runtime panic. The
model calls it the `Panic` effect: `DoMessage` returns `panicked == true` and
changes nothing.

The model follows the code, including where it behaves unexpectedly:
- A zero-length read announces `下线` but does not remove the user from the
  roster.
- A malformed directed message can crash the process, as described above.
- The roster check and the move of a rename are done in two separate steps.

## Model

| member | source | states |
|---|---|---|
| GoStrings.Split | user.go:99 | `strings.Split` always yields at least one field, as Go's does for an empty line or one with no separator |
| GoStrings.IndexOf | user.go:99 | the position found holds the separator, and no earlier position does |
| GoStrings.SplitCount | user.go:99 | `strings.Split` yields one more field than the line has separators |
| GoStrings.SplitPiecesClean | user.go:99 | no field of a split contains the separator |
| GoStrings.JoinSplit | user.go:99 | joining the fields of a split with the separator gives back the line |
| GoStrings.SplitJoin | user.go:99 | splitting a join of separator-free fields gives back the fields |
| GoStrings.SplitAfterSep | user.go:123 | a separator-free head followed by the separator is split off as the first field |
| GoStrings.SplitTwoAfter | user.go:123-140 | two separator-free leading fields are fields 0 and 1, and the rest is split from what follows |
| GoStrings.SplitFirst | user.go:99 | field 0 is the text up to the first separator, or the whole text when there is none |
| Wire.BroadcastLines | V0.3/server.go:64-69 | one `[addr]name:msg` line per message, in message order |
| Wire.BroadcastLinesAppend | V0.3/server.go:91-106 | broadcasting two runs of messages queues the first run's lines, then the second's |
| Wire.Terminated | V0.3/user.go:15-24 | each queued message is written exactly once, in queue order, followed by one newline |
| Wire.TerminatedSnoc | V0.3/user.go:16-22 | delivering one more message adds exactly that message and a newline at the end |
| Commands.Parse | user.go:84-150 | exactly `who` is the roster query; a rename needs the prefix `rename` and a separator with more after it, a directed message the prefix `to` and a separator with more after it, tested in that order; a rename's new name and a directed message's target and content hold no separator; any other line is chat, unchanged |
| Commands.DecideV05 | V0.5/user.go:84-100 | exactly `who` lists the roster; every other line, whatever its prefix, is broadcast unchanged |
| Commands.Decide | user.go:84-152 | a rename is carried out only to a name not online; a directed message goes only to a non-empty name that is online; a chat line is broadcast unchanged |
| Commands.WhoIsExact | user.go:86 | in both interpreters, exactly the line `who` lists the roster |
| Commands.ParseRename | user.go:96-99 | a rename line asks for the name between the first and second separator, or up to the end of the line |
| Commands.RenameRequest | user.go:96-117 | a rename to a name already online is refused with the taken-name notice; any other name is taken over |
| Commands.RenameToSelfRefused | user.go:102-105 | renaming to one's own current name is refused like any other taken name |
| Commands.ParseDirected | user.go:119-140 | a directed line names as target the text between the first and second separator, and as content the text between the second and third |
| Commands.DirectedRequest | user.go:119-146 | the checks run in order: empty target, unknown target, empty content; only a line that passes all three is delivered, as `sender对您说：c` |
| Commands.DirectedWithoutContent | user.go:132-140 | a directed line without a second separator reports an unknown target but panics for a known one |
| Commands.BarePrefixesAreChat | user.go:96-150 | the bare rename and directed prefixes, with nothing after them, fail the strict length guards and are broadcast as chat |
| Commands.V05Agreement | V0.5/user.go:84-100 | the V0.5 interpreter agrees with the later one exactly on `who` and on plain chat lines |
| Listing.ListedPick | user.go:89-93 | the `who` answer does not depend on which roster entry is visited first |
| Listing.Listed | user.go:89-93 | the `who` answer has exactly one line per roster entry |
| Listing.ListedHas | user.go:89-93 | every roster entry's line is in the `who` answer |
| Listing.ListedOnly | user.go:89-93 | every line of the `who` answer belongs to some roster entry |
| Listing.ListedStep | user.go:89-93 | visiting one more roster entry adds exactly that entry's line |
| Listing.AccountedStep | user.go:89-93 | writing the line of one pending entry keeps "written plus still to write equals the whole answer" |
| Listing.AccountedEnd | user.go:89-94 | once no entry is pending, exactly the `who` answer has been written |
| ReadPath.Classify | V0.3/server.go:92-102 | an empty read ends the session; a failed non-EOF read with data stops silently; any other read is a line of all its characters but the last |
| ReadPath.Said | V0.3/server.go:91-106 | a run of reads broadcasts at most one message per read |
| ReadPath.OpenSnoc | V0.3/server.go:91-106 | the read loop continues after one more read exactly when that read is a line |
| ReadPath.SaidSnoc | V0.3/server.go:91-106 | while the session is open, one more read broadcasts exactly its own announcement |
| ReadPath.SaidAfterEnd | V0.3/server.go:93-100 | after the read that ends the session, later data broadcasts nothing |
| ReadPath.SaidWhileOpen | V0.3/server.go:101-105 | an open session broadcasts every read once, in order, each without its last character |
| Chat.Server.constructor | V0.3/server.go:36-44 | a new server has the given ip and port, an empty roster and an empty broadcast queue |
| Chat.Server.BroadCast | V0.3/server.go:64-69 | queues exactly `[addr]name:msg` and changes nothing else |
| Chat.Server.ListenMessagerStep | V0.3/server.go:47-61 | takes the oldest broadcast and appends it once to the queue of every online user; the roster is unchanged |
| Chat.Server.ListenMessager | V0.3/server.go:47-61 | every online user's queue receives every queued broadcast, in the order queued |
| Chat.Server.Handler | V0.3/server.go:73-86 | a fresh user named after its address is registered under that name, overwriting any holder, and `已上线` is broadcast |
| Chat.Server.ReadOnce | V0.3/server.go:92-105 | one read queues what `Classify` announces for it, and reading goes on only after a line |
| Chat.Server.ReadLoop | V0.3/server.go:89-107 | the loop queues exactly `Said` of the reads and is still open exactly when every read was a line; the roster is never changed |
| Chat.User.constructor | user.go:31-50 | name and address are both the remote address, the queue and connection are empty, and no roster is touched |
| Chat.User.ListenMessage | V0.3/user.go:15-24 | drains the queue, writing each message once, in order, with one newline |
| Chat.User.SendMsg | user.go:76-81 | writes its argument to the connection as it is, with no newline |
| Chat.User.Online | user.go:53-62 | registers this user under its name, overwriting any holder, keeps the roster valid and queues `[addr]name:已上线` |
| Chat.User.Offline | user.go:65-73 | removes only the key of this user's name, keeps the roster valid and queues `[addr]name:已下线` |
| Chat.User.Who | user.go:86-94 | writes to this user's connection exactly the `who` answer for the roster, and nothing to anyone else |
| Chat.User.DoMessage | user.go:84-152 | carries out `Decide`: the roster, the name, the broadcast queue and every connection change exactly as the decision says, and the roster stays valid |
| Chat.User.DoMessageV05 | V0.5/user.go:84-100 | `who` lists the roster to the sender only; every other line is broadcast as it is |

## Left out

- `Server.Start` in V0.3/server.go:115-146, with its listen socket and accept loop, is socket I/O. V0.7/main.go only starts the process.
- Goroutines, `select {}`, the `sync.RWMutex` and unbuffered-channel blocking are concurrency. Each goroutine is a method that runs to completion.
- The rename race between the check at user.go:102 and the update at user.go:110-113 needs interleaving. The model runs the two steps back to back.
- `conn.Read`, `conn.Write`, write errors and `fmt.Println` logging are I/O. A read is a `Chunk` given as a parameter, and a write is an append to `conn`.
- The 4096-byte read buffer and TCP framing are not modelled. Each `Chunk` is what one read returned.
- Go's `len` and slicing count bytes and the model counts characters. The prefix and length tests agree because the prefixes are ASCII.
- ReadPath.Classify drops the last character of a read, while the Go code drops the last byte. The two differ when a read ends in a multi-byte character.
- Chat.User.ListenMessage and Chat.Server.ListenMessager run until their queue is empty. The Go loops block and wait for more instead.
- Chat.Server.ReadLoop stops at the end of the given reads. The Go loop would block on the next read.
- The delivery goroutine that NewUser starts is `User.ListenMessage`, run when the caller chooses.
- Chat.User.Who and Chat.User.DoMessage state the `who` answer as a multiset, because Go's map order is unspecified. The order of the lines is not stated.
