/** The exact text the server puts on the wire: the broadcast and roster
    formats, the replies of the command interpreter, and the newline the
    mailbox delivery adds to every queued message. */
module Wire {

  /** Presence suffixes passed to `BroadCast`. */
  const Joined := "已上线"
  const Left := "已下线"
  /** The suffix the read loop of the early server broadcasts on a zero-length read. */
  const Dropped := "下线"

  /** Replies to the sender of a command; each carries its own newline. */
  const NameTaken := "当前用户名已被使用！\n"
  const BadFormat := "消息格式不正确，请使用\"to|对方用户名|消息内容\"格式。\n"
  const NoSuchUser := "该用户名不存在！\n"
  const EmptyContent := "消息内容为空！请重新输入！\n"

  function RenameDone(newName: string): string
  {
    "您已更新用户名为：" + newName + "\n"
  }

  /** What `BroadCast(user, msg)` puts on the broadcast queue. */
  function BroadcastLine(addr: string, name: string, msg: string): string
  {
    "[" + addr + "]" + name + ":" + msg
  }

  /** One line of a `who` answer. */
  function RosterLine(addr: string, name: string): string
  {
    "[" + addr + "]" + name + ":" + "当前在线...\n"
  }

  /** The body of a directed message as its recipient receives it (no newline). */
  function PrivateLine(sender: string, content: string): string
  {
    sender + "对您说：" + content
  }

  /** The broadcast lines of a sequence of messages from one user, in order. */
  function BroadcastLines(addr: string, name: string, msgs: seq<string>): (lines: seq<string>)
    ensures |lines| == |msgs|
    ensures forall i :: 0 <= i < |msgs| ==> lines[i] == BroadcastLine(addr, name, msgs[i])
  {
    if msgs == [] then [] else [BroadcastLine(addr, name, msgs[0])] + BroadcastLines(addr, name, msgs[1..])
  }

  /** Broadcasting two runs of messages broadcasts the first run, then the second. */
  lemma BroadcastLinesAppend(addr: string, name: string, first: seq<string>, second: seq<string>)
    ensures BroadcastLines(addr, name, first + second) ==
      BroadcastLines(addr, name, first) + BroadcastLines(addr, name, second)
  {
    var lhs := BroadcastLines(addr, name, first + second);
    var rhs := BroadcastLines(addr, name, first) + BroadcastLines(addr, name, second);
    assert |lhs| == |rhs|;
    forall i | 0 <= i < |lhs| ensures lhs[i] == rhs[i] {
      if i < |first| {
        assert (first + second)[i] == first[i];
      } else {
        assert (first + second)[i] == second[i - |first|];
      }
    }
  }

  /** What the delivery task writes for a run of queued messages: each one,
      in order, followed by exactly one newline. */
  function Terminated(msgs: seq<string>): (writes: seq<string>)
    ensures |writes| == |msgs|
    ensures forall i :: 0 <= i < |msgs| ==> writes[i] == msgs[i] + "\n"
  {
    if msgs == [] then [] else [msgs[0] + "\n"] + Terminated(msgs[1..])
  }

  /** Delivering one more message extends what was written by that message and a newline. */
  lemma TerminatedSnoc(msgs: seq<string>, msg: string)
    ensures Terminated(msgs + [msg]) == Terminated(msgs) + [msg + "\n"]
  {
    var lhs, rhs := Terminated(msgs + [msg]), Terminated(msgs) + [msg + "\n"];
    assert |lhs| == |rhs|;
    forall i | 0 <= i < |lhs| ensures lhs[i] == rhs[i] {
      if i < |msgs| {
        assert (msgs + [msg])[i] == msgs[i];
      }
    }
  }
}
