/** The command interpreter's decisions, as pure functions: how a line is
    classified, which fields are taken from it, and what the interpreter does
    with it given the names currently online.  `Chat.User.DoMessage` and
    `Chat.User.DoMessageV05` carry these decisions out on the shared state. */
module Commands {
  import opened GoStrings
  import opened Wire

  datatype Option<T> = None | Some(value: T)

  /** A received line, classified.  `To` keeps the third field only when the
      line has one: the interpreter reads it only after the target checks. */
  datatype Command =
    | Who
    | Rename(newName: string)
    | To(target: string, content: Option<string>)
    | Plain(text: string)

  /** The interpreter's tests, in its order.  The length guards are strict, so
      the bare prefixes `rename|` and `to|` fall through to chat.  Go compares
      bytes; the prefixes are ASCII, so comparing characters agrees. */
  function Parse(msg: string): (cmd: Command)
    ensures cmd.Who? <==> msg == "who"
    ensures cmd.Rename? <==> msg != "who" && |msg| > 7 && msg[..7] == "rename|"
    ensures cmd.To? <==>
      msg != "who" && !(|msg| > 7 && msg[..7] == "rename|") && |msg| > 3 && msg[..3] == "to|"
    ensures cmd.Plain? ==> cmd.text == msg
    ensures cmd.Rename? ==> '|' !in cmd.newName
    ensures cmd.To? ==> '|' !in cmd.target && (cmd.content.Some? ==> '|' !in cmd.content.value)
  {
    if msg == "who" then Who
    else if |msg| > 7 && msg[..7] == "rename|" then
      assert msg[6] in multiset(msg);
      SplitPiecesClean(msg, '|');
      Rename(Split(msg, '|')[1])
    else if |msg| > 3 && msg[..3] == "to|" then
      assert msg[2] in multiset(msg);
      SplitPiecesClean(msg, '|');
      var fields := Split(msg, '|');
      To(fields[1], if |fields| > 2 then Some(fields[2]) else None)
    else Plain(msg)
  }

  /** What handling one line does. */
  datatype Effect =
    | ListRoster                            // one roster line per entry, to the sender only
    | Reply(text: string)                   // a notice to the sender only
    | RenameTo(newName: string)             // move the sender's roster entry, then confirm
    | Deliver(target: string, text: string) // a directed message to one online user
    | Publish(msg: string)                  // hand the line to BroadCast
    | Panic                                 // Split(...)[2] out of range: the process dies

  /** The notices an effect writes to the sender's own connection
      (the roster lines of `ListRoster` and a directed message to oneself
      aside). */
  function ToSender(e: Effect): seq<string>
  {
    match e
    case Reply(text) => [text]
    case RenameTo(newName) => [RenameDone(newName)]
    case _ => []
  }

  /** The interpreter of user.go, for a sender currently called `sender`
      while the names in `online` are registered. */
  function Decide(msg: string, sender: string, online: set<string>): (e: Effect)
    ensures e.RenameTo? ==> e.newName !in online
    ensures e.Deliver? ==> e.target in online && e.target != ""
    ensures e.Publish? ==> e.msg == msg
  {
    match Parse(msg)
    case Who => ListRoster
    case Rename(newName) =>
      if newName in online then Reply(NameTaken) else RenameTo(newName)
    case To(target, content) =>
      if target == "" then Reply(BadFormat)
      else if target !in online then Reply(NoSuchUser)
      else if content.None? then Panic
      else if content.value == "" then Reply(EmptyContent)
      else Deliver(target, PrivateLine(sender, content.value))
    case Plain(text) => Publish(text)
  }

  /** The earlier interpreter of V0.5/user.go: `who`, or broadcast the line. */
  function DecideV05(msg: string): (e: Effect)
    ensures e.ListRoster? <==> msg == "who"
    ensures !e.ListRoster? ==> e == Publish(msg)
  {
    if msg == "who" then ListRoster else Publish(msg)
  }

  /** Only the exact line `who` lists the roster. */
  lemma WhoIsExact(msg: string, sender: string, online: set<string>)
    ensures Decide(msg, sender, online) == ListRoster <==> msg == "who"
    ensures DecideV05(msg) == ListRoster <==> msg == "who"
  {
  }

  /** `rename|<n>` names the text between the first and the second `|` (or
      the end of the line). */
  lemma ParseRename(n: string, rest: string)
    requires '|' !in n
    requires rest == [] || rest[0] == '|'
    requires n + rest != []
    ensures Parse("rename|" + n + rest) == Rename(n)
  {
    var msg := "rename|" + n + rest;
    assert msg[..7] == "rename|";
    assert msg == "rename" + ['|'] + (n + rest);
    SplitAfterSep("rename", '|', n + rest);
    SplitFirst(n, '|', rest);
  }

  /** A rename to a name already online, the sender's own included, is
      refused; any other name is taken over. */
  lemma RenameRequest(n: string, rest: string, sender: string, online: set<string>)
    requires '|' !in n
    requires rest == [] || rest[0] == '|'
    requires n + rest != []
    ensures Decide("rename|" + n + rest, sender, online) ==
      if n in online then Reply(NameTaken) else RenameTo(n)
  {
    ParseRename(n, rest);
  }

  /** Renaming to one's own current name is refused like any other taken name. */
  lemma RenameToSelfRefused(sender: string, online: set<string>)
    requires sender in online && sender != [] && '|' !in sender
    ensures Decide("rename|" + sender, sender, online) == Reply(NameTaken)
  {
    RenameRequest(sender, [], sender, online);
    assert "rename|" + sender + [] == "rename|" + sender;
  }

  /** `to|<t>|<c>`: the target is the text between the first and the second
      `|`, the content the text between the second and the third. */
  lemma ParseDirected(t: string, c: string, rest: string)
    requires '|' !in t && '|' !in c
    requires rest == [] || rest[0] == '|'
    ensures Parse("to|" + t + "|" + c + rest) == To(t, Some(c))
  {
    var msg := "to|" + t + "|" + c + rest;
    assert msg[..3] == "to|";
    assert msg != "who";
    assert !(|msg| > 7 && msg[..7] == "rename|") by {
      if |msg| > 7 { assert msg[1] == 'o'; }
    }
    assert msg == "to" + ['|'] + t + ['|'] + (c + rest);
    SplitTwoAfter("to", t, '|', c + rest);
    SplitFirst(c, '|', rest);
  }

  /** A directed message is checked in the order empty target, unknown
      target, empty content; only a message passing all three is delivered. */
  lemma DirectedRequest(t: string, c: string, rest: string, sender: string, online: set<string>)
    requires '|' !in t && '|' !in c
    requires rest == [] || rest[0] == '|'
    ensures Decide("to|" + t + "|" + c + rest, sender, online) ==
      if t == "" then Reply(BadFormat)
      else if t !in online then Reply(NoSuchUser)
      else if c == "" then Reply(EmptyContent)
      else Deliver(t, PrivateLine(sender, c))
  {
    ParseDirected(t, c, rest);
  }

  /** `to|<t>` without a second `|`: an unknown target is reported, but a
      known one makes the interpreter read a third field that is not there. */
  lemma DirectedWithoutContent(t: string, sender: string, online: set<string>)
    requires '|' !in t && t != ""
    ensures Decide("to|" + t, sender, online) ==
      if t in online then Panic else Reply(NoSuchUser)
  {
    var msg := "to|" + t;
    assert msg[..3] == "to|";
    assert !(|msg| > 7 && msg[..7] == "rename|") by {
      if |msg| > 7 { assert msg[1] == 'o'; }
    }
    assert msg == "to" + ['|'] + t;
    SplitAfterSep("to", '|', t);
    assert Split(msg, '|') == ["to", t];
    assert Parse(msg) == To(t, None);
  }

  /** The length guards are strict: the bare prefixes are plain chat. */
  lemma BarePrefixesAreChat(msg: string, sender: string, online: set<string>)
    requires msg == "rename|" || msg == "to|"
    ensures Decide(msg, sender, online) == Publish(msg)
  {
    if |msg| == 7 {
      assert msg[0] == 'r';
      assert msg[..3] != "to|";
    }
    assert Parse(msg) == Plain(msg);
  }

  /** A line that the later interpreter treats as chat is treated the same way
      by the earlier one, and the two differ exactly on the new commands. */
  lemma V05Agreement(msg: string, sender: string, online: set<string>)
    ensures Decide(msg, sender, online) == DecideV05(msg) <==> Parse(msg).Who? || Parse(msg).Plain?
  {
  }
}
