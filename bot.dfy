/** The chat bot of elves.py: a chatter that numbers its requests, queues
    them for the outbound stream, and answers every data message it
    receives; and the plugin hook that reports account events. */
module Bot {
  import opened Wrappers
  import opened PyText
  import opened Completion
  import opened Messages

  /** The account operations the server reports to the plugin. */
  datatype Crud = Create | Update | Delete | OtherCrud(code: int)

  /** The empty acknowledgement every plugin call returns. */
  datatype Unused = Unused

  /** What Plugin.Account does with an event: the word it reports, and the
      acknowledgement it returns. */
  datatype AccountReply = AccountReply(word: string, ack: Unused)

  /** Plugin.Account: each known operation is reported by its own past
      participle, anything else as "unknown"; the call always acknowledges. */
  function Account(action: Crud): (r: AccountReply)
    ensures r.ack == Unused
    ensures r.word == "created" <==> action == Create
    ensures r.word == "updated" <==> action == Update
    ensures r.word == "deleted" <==> action == Delete
    ensures r.word == "unknown" <==> action.OtherCrud?
  {
    match action
    case Create => AccountReply("created", Unused)
    case Update => AccountReply("updated", Unused)
    case Delete => AccountReply("deleted", Unused)
    case OtherCrud(_) => AccountReply("unknown", Unused)
  }

  /** The text the bot puts before every message it echoes. */
  const ReplyPrefix: string := "我知道你再说： "

  /** The reply to a data message, built with integer id `n`. */
  function Reply(n: nat, d: ServerMsg): ClientMsg
    requires d.Data?
  {
    Pub(NatToDecimal(n), Some(d.topic), true, JsonString(ReplyPrefix + d.content))
  }

  /** The data messages of a stream, in order. */
  function DataMsgs(stream: seq<ServerMsg>): seq<ServerMsg> {
    if stream == [] then []
    else if stream[0].Data? then [stream[0]] + DataMsgs(stream[1..])
    else DataMsgs(stream[1..])
  }

  /** The replies on_message publishes while reading `stream`, when the last
      id the chatter issued before was `last`. */
  function Replies(last: nat, stream: seq<ServerMsg>): (r: seq<ClientMsg>)
    ensures |r| == |DataMsgs(stream)|
    decreases |stream|
  {
    if stream == [] then []
    else if stream[0].Data? then [Reply(last + 1, stream[0])] + Replies(last + 1, stream[1..])
    else Replies(last, stream[1..])
  }

  /** Queue entries for messages posted in order. */
  function Posted(ms: seq<ClientMsg>): seq<Option<ClientMsg>> {
    if ms == [] then [] else [Some(ms[0])] + Posted(ms[1..])
  }

  /** Posting puts every message on the queue, in order, none of them `None`. */
  lemma {:induction false} PostedInOrder(ms: seq<ClientMsg>)
    ensures |Posted(ms)| == |ms|
    ensures forall i :: 0 <= i < |ms| ==> Posted(ms)[i] == Some(ms[i])
    decreases |ms|
  {
    if ms != [] {
      PostedInOrder(ms[1..]);
      var p, t := Posted(ms), Posted(ms[1..]);
      assert p == [Some(ms[0])] + t;
      forall i | 0 <= i < |ms|
        ensures p[i] == Some(ms[i])
      {
        if i > 0 {
          assert p[i] == t[i - 1] && ms[i] == ms[1..][i - 1];
        }
      }
    }
  }

  /** Posting two runs of messages is posting their concatenation. */
  lemma {:induction false} PostedAppend(a: seq<ClientMsg>, b: seq<ClientMsg>)
    ensures Posted(a + b) == Posted(a) + Posted(b)
    decreases |a|
  {
    if a != [] {
      PostedAppend(a[1..], b);
      assert (a + b)[0] == a[0] && (a + b)[1..] == a[1..] + b;
    } else {
      assert a + b == b;
    }
  }

  /** The replies to one message and then to the rest of the stream are the
      replies to the whole stream. */
  lemma RepliesCons(last: nat, stream: seq<ServerMsg>)
    requires stream != []
    ensures var n := |DataMsgs([stream[0]])|;
            && |DataMsgs(stream)| == n + |DataMsgs(stream[1..])|
            && Replies(last, stream) == Replies(last, [stream[0]]) + Replies(last + n, stream[1..])
  {
    var x := stream[0];
    assert [x][1..] == [];
    if x.Data? {
      var r := Reply(last + 1, x);
      assert Replies(last, [x]) == [r];
      assert DataMsgs([x]) == [x];
    } else {
      assert Replies(last, [x]) == [];
      assert DataMsgs([x]) == [];
    }
  }

  /** The loop step of on_message for the out-queue and the id counter. */
  lemma RepliesStepInto(q0: seq<Option<ClientMsg>>, last0: nat, stream: seq<ServerMsg>, i: nat,
                        q: seq<Option<ClientMsg>>, last: nat, q': seq<Option<ClientMsg>>, last': nat)
    requires i < |stream|
    requires q0 + Posted(Replies(last0, stream)) == q + Posted(Replies(last, stream[i..]))
    requires last0 + |DataMsgs(stream)| == last + |DataMsgs(stream[i..])|
    requires q' == q + Posted(Replies(last, [stream[i]]))
    requires last' == last + |DataMsgs([stream[i]])|
    ensures q0 + Posted(Replies(last0, stream)) == q' + Posted(Replies(last', stream[i + 1..]))
    ensures last0 + |DataMsgs(stream)| == last' + |DataMsgs(stream[i + 1..])|
  {
    var rest := stream[i..];
    var now, later := Replies(last, [stream[i]]), Replies(last', stream[i + 1..]);
    assert Replies(last, rest) == now + later
        && |DataMsgs(rest)| == |DataMsgs([stream[i]])| + |DataMsgs(stream[i + 1..])| by {
      assert rest[0] == stream[i] && rest[1..] == stream[i + 1..];
      RepliesCons(last, rest);
    }
    assert Posted(now + later) == Posted(now) + Posted(later) by {
      PostedAppend(now, later);
    }
    assert q + (Posted(now) + Posted(later)) == (q + Posted(now)) + Posted(later);
  }

  /** Exactly one reply per data message, in the order received, the i-th
      with the i-th fresh id and addressed to the topic it came from. */
  lemma {:induction false} RepliesAnswerData(last: nat, stream: seq<ServerMsg>)
    ensures var rs, ds := Replies(last, stream), DataMsgs(stream);
            && |rs| == |ds|
            && forall i :: 0 <= i < |rs| ==> ds[i].Data? && rs[i] == Reply(last + 1 + i, ds[i])
    decreases |stream|
  {
    if stream != [] {
      if stream[0].Data? {
        var tail, dtail := Replies(last + 1, stream[1..]), DataMsgs(stream[1..]);
        RepliesAnswerData(last + 1, stream[1..]);
        var rs, ds := Replies(last, stream), DataMsgs(stream);
        assert rs == [Reply(last + 1, stream[0])] + tail;
        assert ds == [stream[0]] + dtail;
        forall i | 0 <= i < |rs|
          ensures ds[i].Data? && rs[i] == Reply(last + 1 + i, ds[i])
        {
          if i > 0 {
            assert rs[i] == tail[i - 1] && ds[i] == dtail[i - 1];
          }
        }
      } else {
        RepliesAnswerData(last, stream[1..]);
      }
    }
  }

  /** Distinct integers give distinct ids: the id after `m - 1` was never issued. */
  lemma FreshId(m: nat)
    ensures forall n: nat :: n < m ==> NatToDecimal(n) != NatToDecimal(m)
  {
    forall n: nat | n < m
      ensures NatToDecimal(n) != NatToDecimal(m)
    {
      NatToDecimalInjective(n, m);
    }
  }

  /** The replies carry pairwise distinct ids, none of them one issued
      before. */
  lemma RepliesFresh(last: nat, stream: seq<ServerMsg>)
    ensures var rs := Replies(last, stream);
            && (forall i :: 0 <= i < |rs| ==> rs[i].Pub? && forall n: nat :: n <= last ==> rs[i].id != NatToDecimal(n))
            && (forall i, j :: 0 <= i < j < |rs| ==> rs[i].id != rs[j].id)
  {
    RepliesAnswerData(last, stream);
    var rs := Replies(last, stream);
    forall i | 0 <= i < |rs|
      ensures rs[i].Pub? && forall n: nat :: n <= last ==> rs[i].id != NatToDecimal(n)
    {
      FreshId(last + 1 + i);
    }
    forall i, j | 0 <= i < j < |rs|
      ensures rs[i].id != rs[j].id
    {
      NatToDecimalInjective(last + 1 + i, last + 1 + j);
    }
  }

  /** What msg_iter hands to the stream from a queue: the messages before the
      first `None`, whether it met that `None`, and what stays queued. */
  datatype Drain = Drain(sent: seq<ClientMsg>, closed: bool, rest: seq<Option<ClientMsg>>)

  /** msg_iter on the queued messages: FIFO order, stopping at the first
      `None` without yielding it; with no `None` it yields everything and
      waits on the empty queue. */
  function Drained(q: seq<Option<ClientMsg>>): (d: Drain)
    ensures |d.sent| + (if d.closed then 1 else 0) + |d.rest| == |q|
    ensures !d.closed ==> d.rest == []
  {
    if q == [] then Drain([], false, [])
    else if q[0].None? then Drain([], true, q[1..])
    else
      var d := Drained(q[1..]);
      Drain([q[0].value] + d.sent, d.closed, d.rest)
  }

  /** What is sent is the queue's prefix before its first `None`; the stream
      closes exactly when there is a `None`, and everything after it stays
      queued. */
  lemma {:induction false} DrainedMeaning(q: seq<Option<ClientMsg>>)
    ensures var d := Drained(q);
            && |d.sent| <= |q|
            && (forall i :: 0 <= i < |d.sent| ==> q[i] == Some(d.sent[i]))
            && (d.closed ==> |d.sent| < |q| && q[|d.sent|] == None && d.rest == q[|d.sent| + 1..])
            && (!d.closed ==> |d.sent| == |q| && d.rest == [] && forall i :: 0 <= i < |q| ==> q[i].Some?)
    decreases |q|
  {
    if q != [] && q[0].Some? {
      DrainedMeaning(q[1..]);
      var d, t := Drained(q), Drained(q[1..]);
      assert d.sent == [q[0].value] + t.sent;
      forall i | 0 <= i < |d.sent|
        ensures q[i] == Some(d.sent[i])
      {
        if i > 0 {
          assert q[i] == q[1..][i - 1] && d.sent[i] == t.sent[i - 1];
        }
      }
      if d.closed {
        assert q[|d.sent|] == q[1..][|t.sent|];
        assert q[|d.sent| + 1..] == q[1..][|t.sent| + 1..];
      } else {
        assert forall i :: 1 <= i < |q| ==> q[i] == q[1..][i - 1];
      }
    }
  }

  /** Taking one entry off the queue. */
  lemma DrainedStep(q: seq<Option<ClientMsg>>)
    requires q != []
    ensures q[0].None? ==> Drained(q) == Drain([], true, q[1..])
    ensures q[0].Some? ==>
              var d := Drained(q[1..]);
              Drained(q) == Drain([q[0].value] + d.sent, d.closed, d.rest)
  {
  }

  /** Posting messages and then `None` sends exactly those messages and
      closes the stream. */
  lemma {:induction false} PostedThenClosed(ms: seq<ClientMsg>, later: seq<Option<ClientMsg>>)
    ensures Drained(Posted(ms) + [None] + later) == Drain(ms, true, later)
    decreases |ms|
  {
    var q := Posted(ms) + [None] + later;
    if ms != [] {
      var q' := Posted(ms[1..]) + [None] + later;
      assert q == [Some(ms[0])] + q';
      assert q[0] == Some(ms[0]) && q[1..] == q';
      PostedThenClosed(ms[1..], later);
      assert [ms[0]] + ms[1..] == ms;
    } else {
      assert q == [None] + later;
      assert q[1..] == later;
    }
  }

  /** ElvesChatter: the id counter and the out-queue. */
  class Chatter {
    var mid: nat
    var queueOut: seq<Option<ClientMsg>>

    /** `mid` starts at a random value in [10000, 60000], chosen by the caller here. */
    constructor (start: nat)
      requires 10000 <= start <= 60000
      ensures mid == start && queueOut == []
    {
      mid := start;
      queueOut := [];
    }

    /** next_id: the counter goes up by one and its string form is a new id,
        different from every id of a smaller counter value. */
    method NextId() returns (id: string)
      modifies this
      ensures mid == old(mid) + 1 && queueOut == old(queueOut)
      ensures id == NatToDecimal(mid)
      ensures forall n: nat :: n <= old(mid) ==> id != NatToDecimal(n)
    {
      mid := mid + 1;
      id := NatToDecimal(mid);
      FreshId(mid);
    }

    /** client_post: append to the out-queue. */
    method ClientPost(m: Option<ClientMsg>)
      modifies this
      ensures queueOut == old(queueOut) + [m] && mid == old(mid)
    {
      queueOut := queueOut + [m];
    }

    /** msg_iter: take messages off the queue until `None`. */
    method MsgIter() returns (sent: seq<ClientMsg>, closed: bool)
      modifies this
      ensures Drain(sent, closed, queueOut) == Drained(old(queueOut))
      ensures mid == old(mid)
    {
      sent, closed := [], false;
      while queueOut != [] && !closed
        invariant closed ==> Drained(old(queueOut)) == Drain(sent, true, queueOut)
        invariant !closed ==>
                    var d := Drained(queueOut);
                    Drained(old(queueOut)) == Drain(sent + d.sent, d.closed, d.rest)
        invariant mid == old(mid)
        decreases |queueOut|, !closed
      {
        DrainedStep(queueOut);
        var m := queueOut[0];
        queueOut := queueOut[1..];
        if m.None? {
          closed := true;
        } else {
          assert sent + ([m.value] + Drained(queueOut).sent) == (sent + [m.value]) + Drained(queueOut).sent;
          sent := sent + [m.value];
        }
      }
    }

    /** hello: the handshake with a new id. Unlike msg_hi it stores no action. */
    method Hello() returns (m: ClientMsg)
      modifies this
      ensures mid == old(mid) + 1 && queueOut == old(queueOut)
      ensures m == HiRequest(NatToDecimal(mid))
    {
      var id := NextId();
      m := HiRequest(id);
    }

    /** The posting part of init_client: the handshake goes on the queue. */
    method PostHello()
      modifies this
      ensures mid == old(mid) + 1
      ensures queueOut == old(queueOut) + [Some(HiRequest(NatToDecimal(mid)))]
    {
      var m := Hello();
      ClientPost(Some(m));
    }

    /** login: a basic login with an empty secret, so the secret sent is
        `user_name:password`; msg_login stores save-cookie under its id. */
    method Login(t: CompletionTable, userName: string, password: string)
      modifies this, t
      ensures mid == old(mid) + 1
      ensures queueOut == old(queueOut) + [Some(LoginRequest(NatToDecimal(mid), "basic", Some(""), Some(userName), Some(password)))]
      ensures t.entries == old(t.entries)[NatToDecimal(mid) := SaveCookie]
    {
      var id := NextId();
      var m := MsgLogin(t, id, "basic", Some(""), Some(userName), Some(password));
      ClientPost(Some(m));
    }

    /** publish: a message to `topic` with a new id, without echo. */
    method Publish(topic: string, text: string)
      modifies this
      ensures mid == old(mid) + 1
      ensures queueOut == old(queueOut) + [Some(Pub(NatToDecimal(mid), Some(topic), true, JsonString(text)))]
    {
      var id := NextId();
      ClientPost(Some(Pub(id, Some(topic), true, JsonString(text))));
    }

    /** One message of on_message's loop: a control message is resolved
        against the shared table, a data message answered, anything else
        ignored. */
    method Handle(t: CompletionTable, msg: ServerMsg) returns (fired: seq<Firing>, statuses: seq<Status>)
      modifies this, t
      ensures Outcome(t.entries, fired, statuses) == Dispatch(old(t.entries), [msg])
      ensures mid == old(mid) + |DataMsgs([msg])|
      ensures queueOut == old(queueOut) + Posted(Replies(old(mid), [msg]))
    {
      fired, statuses := [], [];
      assert [msg][1..] == [];
      match msg {
        case Ctrl(id, code, text, params) =>
          var func := t.Resolve(id, code);
          if func.Some? {
            fired := [Firing(id, func.value, params)];
          }
          statuses := [Status(code, text)];
        case Data(_, topic, content, _) =>
          Publish(topic, ReplyPrefix + content);
        case Pres =>
        case Unhandled =>
      }
    }

    /** on_message: without a stream it stops; otherwise control messages are
        dispatched against the shared table as run does, every data message
        is answered by a publish, and presence is ignored. */
    method OnMessage(t: CompletionTable, connected: bool, stream: seq<ServerMsg>)
      returns (fired: seq<Firing>, statuses: seq<Status>, exited: bool)
      modifies this, t
      ensures exited == !connected
      ensures exited ==> fired == [] && statuses == [] && t.entries == old(t.entries)
                         && mid == old(mid) && queueOut == old(queueOut)
      ensures connected ==> Outcome(t.entries, fired, statuses) == Dispatch(old(t.entries), stream)
      ensures connected ==> mid == old(mid) + |DataMsgs(stream)|
      ensures connected ==> queueOut == old(queueOut) + Posted(Replies(old(mid), stream))
    {
      fired, statuses := [], [];
      if !connected {
        return [], [], true;
      }
      exited := false;
      var i := 0;
      while i < |stream|
        invariant 0 <= i <= |stream|
        invariant Dispatch(old(t.entries), stream) == Prefixed(fired, statuses, Dispatch(t.entries, stream[i..]))
        invariant old(mid) + |DataMsgs(stream)| == mid + |DataMsgs(stream[i..])|
        invariant old(queueOut) + Posted(Replies(old(mid), stream)) == queueOut + Posted(Replies(mid, stream[i..]))
      {
        ghost var e, m0, q := t.entries, mid, queueOut;
        var f, s := Handle(t, stream[i]);
        DispatchStepInto(old(t.entries), stream, i, e, fired, statuses, t.entries, f, s);
        RepliesStepInto(old(queueOut), old(mid), stream, i, q, m0, queueOut, mid);
        fired, statuses := fired + f, statuses + s;
        i := i + 1;
      }
      assert stream[i..] == [];
    }
  }

  /** note_read gives the note msg_note builds for "read" with the decimal
      form of the same sequence id. */
  function NoteRead(topic: string, seqId: int): (m: ClientMsg)
    ensures m.Note? && m.topic == Some(topic) && m.noteWhat == Some(Read) && m.seqId == Some(seqId)
  {
    Note(Some(topic), Some(Read), Some(seqId))
  }

  lemma NoteReadAgrees(topic: string, seqId: nat)
    ensures NoteRequest(Some(topic), "read", Some(NatToDecimal(seqId))) == Ok(NoteRead(topic, seqId))
  {
    ParseIntRoundTrip(seqId);
  }
}
