/** The shared state of the chat server and of each connected user, updated
    in place as the Go code updates it.  Every goroutine becomes a method
    that the caller runs when it chooses: `Server.ListenMessager` for the
    broadcast loop, `User.ListenMessage` for a user's delivery loop and
    `Server.ReadLoop` for a connection's read loop.  Channels become
    sequences (oldest first) and a connection becomes the sequence of
    everything written to it, one entry per `Write`. */
module Chat {
  import opened GoStrings
  import opened Wire
  import opened Commands
  import opened Listing
  import opened ReadPath

  /** Appending to a log or a queue that already holds `first + second`. */
  lemma Concat(first: seq<string>, second: seq<string>, third: seq<string>)
    ensures first + second + third == first + (second + third)
  {
  }

  class Server {
    const ip: string
    const port: int
    /** OnlineMap: the users online, by name. */
    var onlineMap: map<string, User>
    /** Message: the broadcast channel. */
    var message: seq<string>

    /** Every registered user is registered under its current name; hence no
        user is registered under two names. */
    ghost predicate Valid()
      reads this`onlineMap, onlineMap.Values`name
    {
      forall key :: key in onlineMap ==> onlineMap[key].name == key
    }

    /** What a `who` sees of the roster. */
    ghost function Roster(): map<string, Entry>
      reads this`onlineMap, onlineMap.Values`name
    {
      map key | key in onlineMap :: Entry(onlineMap[key].addr, onlineMap[key].name)
    }

    /** NewServer: nobody online, nothing to broadcast. */
    constructor (ip: string, port: int)
      ensures this.ip == ip && this.port == port
      ensures onlineMap == map[] && message == []
      ensures Valid()
    {
      this.ip := ip;
      this.port := port;
      onlineMap := map[];
      message := [];
    }

    /** BroadCast: queue the message, tagged with the sender's address and name. */
    method BroadCast(user: User, msg: string)
      modifies `message
      ensures message == old(message) + [BroadcastLine(user.addr, user.name, msg)]
    {
      var sendMsg := "[" + user.addr + "]" + user.name + ":" + msg;
      message := message + [sendMsg];
    }

    /** One turn of ListenMessager: take the oldest broadcast and put it on
        the queue of every user online, once each.  With nothing to take the
        goroutine waits; here the step reports that and changes nothing. */
    method ListenMessagerStep() returns (taken: bool)
      requires Valid()
      modifies `message, onlineMap.Values`c
      ensures Valid()
      ensures taken == (old(message) != [])
      ensures message == if taken then old(message)[1..] else old(message)
      ensures forall u :: u in onlineMap.Values ==>
        u.c == old(u.c) + if taken then [old(message)[0]] else []
    {
      if message == [] {
        return false;
      }
      var msg := message[0];
      message := message[1..];
      var pending := onlineMap.Keys;
      while pending != {}
        invariant pending <= onlineMap.Keys
        invariant message == old(message)[1..]
        invariant forall key :: key in onlineMap ==> onlineMap[key].name == key
        invariant forall key :: key in onlineMap ==>
          onlineMap[key].c == old(onlineMap[key].c) + if key in pending then [] else [msg]
        decreases pending
      {
        var key :| key in pending;
        var cli := onlineMap[key];
        cli.c := cli.c + [msg];
        pending := pending - {key};
      }
      forall u | u in onlineMap.Values ensures u.c == old(u.c) + [msg] {
        var key :| key in onlineMap && onlineMap[key] == u;
      }
      return true;
    }

    /** ListenMessager, run until the broadcast channel is empty: every user
        online receives every queued broadcast, in the order they were queued. */
    method ListenMessager()
      requires Valid()
      modifies `message, onlineMap.Values`c
      ensures Valid()
      ensures message == []
      ensures forall u :: u in onlineMap.Values ==> u.c == old(u.c) + old(message)
    {
      while message != []
        invariant Valid()
        invariant |message| <= |old(message)|
        invariant message == old(message)[|old(message)| - |message|..]
        invariant forall u :: u in onlineMap.Values ==>
          u.c == old(u.c) + old(message)[..|old(message)| - |message|]
        decreases |message|
      {
        ghost var done := |old(message)| - |message|;
        assert old(message)[..done + 1] == old(message)[..done] + [message[0]];
        var _ := ListenMessagerStep();
      }
    }

    /** Handler, up to the start of its read goroutine: a user for the new
        connection, registered under its address (overwriting any user
        already registered under that name), then announced. */
    method Handler(remote: string) returns (user: User)
      requires Valid()
      modifies `onlineMap, `message
      ensures Valid()
      ensures fresh(user)
      ensures user.name == remote && user.addr == remote && user.server == this
      ensures user.c == [] && user.conn == []
      ensures onlineMap == old(onlineMap)[remote := user]
      ensures message == old(message) + [BroadcastLine(remote, remote, Joined)]
    {
      user := new User(remote, this);
      onlineMap := onlineMap[user.name := user];
      BroadCast(user, Joined);
    }

    /** One pass of the read goroutine of Handler: an empty read announces
        `下线`, a failed read announces nothing, and any other read is
        broadcast without its last character.  `more` tells whether the
        goroutine reads again. */
    method ReadOnce(user: User, buf: Chunk) returns (more: bool)
      modifies `message
      ensures more == Classify(buf).Line?
      ensures message == old(message) + BroadcastLines(user.addr, user.name, Announces(Classify(buf)))
    {
      var n := |buf.data|;
      if n == 0 {
        BroadCast(user, Dropped);
        return false;
      }
      if buf.err.Failed? {
        return false;
      }
      BroadCast(user, buf.data[..n - 1]);
      return true;
    }

    /** The read goroutine of Handler over the reads the connection delivers:
        every line goes out as a broadcast; the first empty read announces
        `下线` and the first failed read stops silently, and neither removes
        the user from the roster.  `open` tells whether the loop is still
        reading after `chunks`. */
    method ReadLoop(user: User, chunks: seq<Chunk>) returns (open: bool)
      modifies `message
      ensures open == Open(chunks)
      ensures message == old(message) + BroadcastLines(user.addr, user.name, Said(chunks))
    {
      var i := 0;
      open := true;
      while i < |chunks| && open
        invariant 0 <= i <= |chunks|
        invariant open == Open(chunks[..i])
        invariant !open ==> i > 0 && !Classify(chunks[i - 1]).Line?
        invariant message == old(message) + BroadcastLines(user.addr, user.name, Said(chunks[..i]))
        decreases |chunks| - i
      {
        var buf := chunks[i];
        ghost var said := Said(chunks[..i]);
        assert chunks[..i + 1] == chunks[..i] + [buf];
        OpenSnoc(chunks[..i], buf);
        SaidSnoc(chunks[..i], buf);
        BroadcastLinesAppend(user.addr, user.name, said, Announces(Classify(buf)));
        Concat(old(message), BroadcastLines(user.addr, user.name, said),
          BroadcastLines(user.addr, user.name, Announces(Classify(buf))));
        open := ReadOnce(user, buf);
        i := i + 1;
      }
      if open {
        assert chunks[..i] == chunks;
      } else {
        assert chunks == chunks[..i] + chunks[i..];
        SaidAfterEnd(chunks[..i], chunks[i..]);
      }
    }
  }

  class User {
    var name: string
    const addr: string
    /** C: broadcasts waiting to be written to this user's connection. */
    var c: seq<string>
    /** conn: everything written to the connection, one entry per Write. */
    var conn: seq<string>
    const server: Server

    /** NewUser: named after its remote address, with an empty queue.  It
        registers nothing; the delivery goroutine it starts is ListenMessage. */
    constructor (remote: string, server: Server)
      ensures name == remote && addr == remote
      ensures c == [] && conn == []
      ensures this.server == server
    {
      name := remote;
      addr := remote;
      c := [];
      conn := [];
      this.server := server;
    }

    /** ListenMessage, run until the queue is empty: each queued message is
        written once, in queue order, followed by exactly one newline. */
    method ListenMessage()
      modifies `c, `conn
      ensures c == []
      ensures conn == old(conn) + Terminated(old(c))
    {
      ghost var taken: seq<string> := [];
      while c != []
        invariant taken + c == old(c)
        invariant conn == old(conn) + Terminated(taken)
        decreases |c|
      {
        var msg := c[0];
        c := c[1..];
        conn := conn + [msg + "\n"];
        TerminatedSnoc(taken, msg);
        taken := taken + [msg];
      }
    }

    /** SendMsg: write the text as it is, without a newline. */
    method SendMsg(msg: string)
      modifies `conn
      ensures conn == old(conn) + [msg]
    {
      conn := conn + [msg];
    }

    /** Online: register under the current name, replacing whoever held it,
        then announce. */
    method Online()
      requires server.Valid()
      modifies server`onlineMap, server`message
      ensures server.Valid()
      ensures server.onlineMap == old(server.onlineMap)[name := this]
      ensures server.message == old(server.message) + [BroadcastLine(addr, name, Joined)]
    {
      server.onlineMap := server.onlineMap[name := this];
      server.BroadCast(this, Joined);
    }

    /** Offline: drop the current name from the roster, then announce. */
    method Offline()
      requires server.Valid()
      modifies server`onlineMap, server`message
      ensures server.Valid()
      ensures server.onlineMap == old(server.onlineMap) - {name}
      ensures server.message == old(server.message) + [BroadcastLine(addr, name, Left)]
    {
      server.onlineMap := server.onlineMap - {name};
      server.BroadCast(this, Left);
    }

    /** The `who` branch: one roster line per registered name, written
        straight to this user's connection and to nobody else's. */
    method Who()
      modifies `conn
      ensures |conn| >= |old(conn)| && conn[..|old(conn)|] == old(conn)
      ensures multiset(conn[|old(conn)|..]) == Listed(old(server.Roster()))
    {
      ghost var roster := server.Roster();
      ghost var before, written: seq<string> := conn, [];
      var pending := server.onlineMap.Keys;
      assert pending == roster.Keys;
      AccountedStart(roster);
      while pending != {}
        invariant pending <= server.onlineMap.Keys && pending <= roster.Keys
        invariant conn == before + written
        invariant Accounted(roster, pending, written)
        decreases pending
      {
        var key :| key in pending;
        var user := server.onlineMap[key];
        var onlineMsg := RosterLine(user.addr, user.name);
        assert onlineMsg == EntryLine(roster[key]);
        AccountedStep(roster, pending, key, written);
        SendMsg(onlineMsg);
        Concat(before, written, [onlineMsg]);
        written := written + [onlineMsg];
        pending := pending - {key};
      }
      AccountedEnd(roster, written);
      assert conn[|old(conn)|..] == written;
    }

    /** DoMessage of user.go: carries out `Decide` for this user's current
        name and the names online.  `panicked` is the index-out-of-range
        panic of a `to|` line without a third field; nothing has changed then. */
    method DoMessage(msg: string) returns (panicked: bool)
      requires server.Valid()
      modifies `name, `conn, server`onlineMap, server`message, server.onlineMap.Values`conn
      ensures server.Valid()
      ensures var e := Decide(msg, old(name), old(server.onlineMap.Keys));
        && panicked == e.Panic?
        && name == (if e.RenameTo? then e.newName else old(name))
        && server.onlineMap ==
             (if e.RenameTo? then (old(server.onlineMap) - {old(name)})[e.newName := this]
              else old(server.onlineMap))
        && server.message ==
             old(server.message) + if e.Publish? then [BroadcastLine(addr, old(name), e.msg)] else []
      ensures var e := Decide(msg, old(name), old(server.onlineMap.Keys));
        e.ListRoster? ==>
          && |conn| >= |old(conn)| && conn[..|old(conn)|] == old(conn)
          && multiset(conn[|old(conn)|..]) == Listed(old(server.Roster()))
      ensures var e := Decide(msg, old(name), old(server.onlineMap.Keys));
        e.Deliver? ==>
          var target := old(server.onlineMap)[e.target];
          target.conn == old(target.conn) + [e.text]
      ensures var e := Decide(msg, old(name), old(server.onlineMap.Keys));
        !e.ListRoster? && !(e.Deliver? && old(server.onlineMap)[e.target] == this) ==>
          conn == old(conn) + ToSender(e)
      ensures var e := Decide(msg, old(name), old(server.onlineMap.Keys));
        forall u :: (u in old(server.onlineMap.Values) && u != this &&
                     !(e.Deliver? && u == old(server.onlineMap)[e.target])) ==> u.conn == old(u.conn)
    {
      panicked := false;
      if msg == "who" {
        Who();
      } else if |msg| > 7 && msg[..7] == "rename|" {
        assert msg[6] in multiset(msg);
        var newName := Split(msg, '|')[1];
        if newName in server.onlineMap {
          SendMsg(NameTaken);
        } else {
          server.onlineMap := server.onlineMap - {name};
          server.onlineMap := server.onlineMap[newName := this];
          name := newName;
          SendMsg(RenameDone(name));
        }
      } else if |msg| > 3 && msg[..3] == "to|" {
        assert msg[2] in multiset(msg);
        var remoteName := Split(msg, '|')[1];
        if remoteName == "" {
          SendMsg(BadFormat);
          return;
        }
        if remoteName !in server.onlineMap {
          SendMsg(NoSuchUser);
          return;
        }
        var remoteUser := server.onlineMap[remoteName];
        var fields := Split(msg, '|');
        if |fields| <= 2 {
          return true;
        }
        var content := fields[2];
        if content == "" {
          SendMsg(EmptyContent);
          return;
        }
        remoteUser.SendMsg(name + "对您说：" + content);
      } else {
        server.BroadCast(this, msg);
      }
    }

    /** DoMessage of V0.5/user.go: `who` lists the roster to this user,
        every other line is broadcast as it is. */
    method DoMessageV05(msg: string)
      modifies `conn, server`message
      ensures DecideV05(msg).ListRoster? ==>
        && server.message == old(server.message)
        && |conn| >= |old(conn)| && conn[..|old(conn)|] == old(conn)
        && multiset(conn[|old(conn)|..]) == Listed(old(server.Roster()))
      ensures DecideV05(msg).Publish? ==>
        && conn == old(conn)
        && server.message == old(server.message) + [BroadcastLine(addr, name, msg)]
    {
      if msg == "who" {
        Who();
      } else {
        server.BroadCast(this, msg);
      }
    }
  }
}
