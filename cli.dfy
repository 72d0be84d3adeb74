/** The interactive client of elves-cli.py: command selection, the
    command-to-request dispatch, the outbound generator and the inbound
    loop, and the choice of login source at start-up. */
module Cli {
  import opened Wrappers
  import opened PyText
  import opened Completion
  import opened Messages

  /** The argparse namespace of one parsed command, per verb. */
  datatype Command =
    | AccCmd(user: Option<string>, scheme: string, secret: Option<string>, uname: Option<string>,
             password: Option<string>, doLogin: bool, tags: Option<string>, fn: Option<string>,
             photo: Option<string>, private: Option<string>, auth: Option<string>, anon: Option<string>)
    | LoginCmd(scheme: string, secret: Option<string>, uname: Option<string>, password: Option<string>)
    | SubCmd(topic: Option<string>, fn: Option<string>, photo: Option<string>, private: Option<string>,
             auth: Option<string>, anon: Option<string>, getQuery: Option<string>)
    | LeaveCmd(topic: Option<string>, unsub: bool)
    | PubCmd(topic: Option<string>, content: Option<string>)
    | GetCmd(topic: Option<string>, desc: bool, sub: bool, data: bool)
    | SetCmd(setTopic: string, fn: Option<string>, photo: Option<string>, private: Option<string>,
             auth: Option<string>, anon: Option<string>, user: Option<string>, mode: Option<string>)
    | DelCmd(topic: Option<string>, what: string, param: Option<string>, hard: bool)
    | NoteCmd(noteTopic: string, what: string, seqText: Option<string>)

  /** `args.cmd`: the verb a command was parsed for. */
  function Verb(c: Command): string {
    match c
    case AccCmd(_, _, _, _, _, _, _, _, _, _, _, _) => "acc"
    case LoginCmd(_, _, _, _) => "login"
    case SubCmd(_, _, _, _, _, _, _) => "sub"
    case LeaveCmd(_, _) => "leave"
    case PubCmd(_, _) => "pub"
    case GetCmd(_, _, _, _) => "get"
    case SetCmd(_, _, _, _, _, _, _, _) => "set"
    case DelCmd(_, _, _, _) => "del"
    case NoteCmd(_, _, _) => "note"
  }

  /** The verbs parse_cmd has a grammar for. */
  const Verbs: set<string> := {"acc", "login", "sub", "leave", "pub", "get", "set", "del", "note"}

  /** The grammar outcome belongs to the verb named by the first token, and
      the positional choices of del and note are among those their grammars
      accept. */
  predicate Consistent(lexed: Result<seq<string>>, grammar: Option<Command>) {
    && (lexed.Ok? && lexed.value != [] && grammar.Some? ==> Verb(grammar.value) == lexed.value[0])
    && (grammar.Some? && grammar.value.DelCmd? ==> grammar.value.what in {"msg", "sub", "topic"})
    && (grammar.Some? && grammar.value.NoteCmd? ==> grammar.value.what in {"kp", "read", "recv"})
  }

  /** parse_cmd. `lexed` is the outcome of shlex.split on the line and
      `grammar` what the verb's argparse grammar makes of the remaining
      tokens (`None` when it exits with a usage message). An empty token
      list raises IndexError at `parts[0]`. */
  function ParseCmd(lexed: Result<seq<string>>, grammar: Option<Command>): (r: Result<Option<Command>>)
    requires Consistent(lexed, grammar)
    ensures lexed.Err? ==> r == Err(lexed.error)
    ensures lexed == Ok([]) ==> r == Err(IndexError)
    ensures r.Ok? ==> lexed.Ok? && lexed.value != []
    ensures r.Ok? && r.value.Some? ==> Verb(r.value.value) == lexed.value[0] && lexed.value[0] in Verbs
    ensures r.Ok? && r.value.None? ==> lexed.value[0] !in Verbs || grammar.None?
    ensures lexed.Ok? && lexed.value != [] && lexed.value[0] in Verbs ==> r == Ok(grammar)
    ensures lexed.Ok? && lexed.value != [] && lexed.value[0] !in Verbs ==> r == Ok(None)
  {
    if lexed.Err? then Err(lexed.error)
    else if lexed.value == [] then Err(IndexError)
    else if lexed.value[0] in Verbs then Ok(grammar)
    else Ok(None)
  }

  /** The request variant that answers each verb. */
  predicate AnswersVerb(c: Command, m: ClientMsg) {
    match c
    case AccCmd(_, _, _, _, _, _, _, _, _, _, _, _) => m.Acc?
    case LoginCmd(_, _, _, _) => m.Login?
    case SubCmd(_, _, _, _, _, _, _) => m.Sub?
    case LeaveCmd(_, _) => m.Leave?
    case PubCmd(_, _) => m.Pub?
    case GetCmd(_, _, _, _) => m.Get?
    case SetCmd(_, _, _, _, _, _, _, _) => m.Set?
    case DelCmd(_, _, _, _) => m.Del?
    case NoteCmd(_, _, _) => m.Note?
  }

  /** `json.dumps` of an optional string. */
  function JsonOf(x: Option<string>): Json {
    if x.Some? then JsonString(x.value) else JsonNull
  }

  /** What the builders store in the completion table for a request they
      return: msg_hi stores print-server-params, msg_login save-cookie. */
  function RegisterOne(entries: map<string, Action>, m: ClientMsg): map<string, Action> {
    if m.Hi? then entries[m.id := PrintServerParams]
    else if m.Login? then entries[m.id := SaveCookie]
    else entries
  }

  /** A builder's outcome as serialize_cmd hands it back: an exception
      propagates, a request is returned. */
  function Lifted(m: Result<ClientMsg>): (r: Result<Option<ClientMsg>>)
    ensures r.Err? <==> m.Err?
    ensures r.Err? ==> r.error == m.error
    ensures r.Ok? ==> r.value == Some(m.value)
  {
    if m.Err? then Err(m.error) else Ok(Some(m.value))
  }

  /** serialize_cmd: a line that does not parse gives `None`; otherwise
      exactly one request of the verb's variant, built by the verb's builder
      and carrying `id` (a note has no id). Only del and note can raise. */
  function Serialized(lexed: Result<seq<string>>, grammar: Option<Command>, photoReadable: bool, id: string)
    : (r: Result<Option<ClientMsg>>)
    requires Consistent(lexed, grammar)
    ensures ParseCmd(lexed, grammar).Err? ==> r == Err(ParseCmd(lexed, grammar).error)
    ensures ParseCmd(lexed, grammar) == Ok(None) ==> r == Ok(None)
    ensures ParseCmd(lexed, grammar).Ok? && ParseCmd(lexed, grammar).value.Some? ==>
              var c := ParseCmd(lexed, grammar).value.value;
              && (r.Err? ==> c.DelCmd? || c.NoteCmd?)
              && (r.Ok? ==> r.value.Some? && AnswersVerb(c, r.value.value))
    ensures r.Ok? && r.value.Some? ==> r.value.value.Note? || r.value.value.id == id
    ensures r.Ok? && r.value.Some? ==> !r.value.value.Hi?
  {
    match ParseCmd(lexed, grammar)
    case Err(e) => Err(e)
    case Ok(None) => Ok(None)
    case Ok(Some(c)) =>
      match c
      case AccCmd(user, scheme, secret, uname, password, doLogin, tags, fn, photo, private, auth, anon) =>
        Ok(Some(AccountRequest(id, user, scheme, secret, uname, password, doLogin, tags,
                               fn, photo, photoReadable, private, auth, anon)))
      case LoginCmd(scheme, secret, uname, password) => Ok(Some(LoginRequest(id, scheme, secret, uname, password)))
      case SubCmd(topic, _, _, _, _, _, _) => Ok(Some(Sub(id, topic)))
      case LeaveCmd(topic, _) => Ok(Some(Leave(id, topic)))
      case PubCmd(topic, content) => Ok(Some(Pub(id, topic, true, JsonOf(content))))
      case GetCmd(topic, desc, sub, data) => Ok(Some(GetMsg(id, topic, desc, sub, data)))
      case SetCmd(topic, fn, photo, private, auth, anon, user, mode) =>
        Ok(Some(SetRequest(id, Some(topic), user, fn, photo, photoReadable, private, auth, anon, mode)))
      case DelCmd(topic, what, param, hard) => Lifted(DeleteMsg(id, topic, what, param, Some(hard)))
      case NoteCmd(topic, what, seqText) => Lifted(NoteRequest(Some(topic), what, seqText))
  }

  /** The request serialize_cmd returns for each verb is the one that
      verb's builder makes from the parsed arguments: pub asks the server
      not to echo and sends the content as JSON, get and del go through
      msg_get and msg_delete, and a builder's exception propagates. */
  lemma SerializedBuilds(lexed: Result<seq<string>>, grammar: Option<Command>, photoReadable: bool, id: string)
    requires Consistent(lexed, grammar)
    requires ParseCmd(lexed, grammar).Ok? && ParseCmd(lexed, grammar).value.Some?
    ensures var c := ParseCmd(lexed, grammar).value.value;
            var r := Serialized(lexed, grammar, photoReadable, id);
            && (c.PubCmd? ==> r == Ok(Some(Pub(id, c.topic, true, JsonOf(c.content)))))
            && (c.LoginCmd? ==> r == Ok(Some(LoginRequest(id, c.scheme, c.secret, c.uname, c.password))))
            && (c.AccCmd? ==> r == Ok(Some(AccountRequest(id, c.user, c.scheme, c.secret, c.uname, c.password,
                                                          c.doLogin, c.tags, c.fn, c.photo, photoReadable,
                                                          c.private, c.auth, c.anon))))
            && (c.SubCmd? ==> r == Ok(Some(Sub(id, c.topic))))
            && (c.LeaveCmd? ==> r == Ok(Some(Leave(id, c.topic))))
            && (c.SetCmd? ==> r == Ok(Some(SetRequest(id, Some(c.setTopic), c.user, c.fn, c.photo, photoReadable,
                                                      c.private, c.auth, c.anon, c.mode))))
            && (c.GetCmd? ==> r == Ok(Some(GetMsg(id, c.topic, c.desc, c.sub, c.data))))
            && (c.DelCmd? ==> r == Lifted(DeleteMsg(id, c.topic, c.what, c.param, Some(c.hard))))
            && (c.NoteCmd? ==> r == Lifted(NoteRequest(Some(c.noteTopic), c.what, c.seqText)))
  {
  }

  /** serialize_cmd with its effect on the table: only a login command
      stores an action. */
  method SerializeCmd(t: CompletionTable, lexed: Result<seq<string>>, grammar: Option<Command>,
                      photoReadable: bool, id: string) returns (r: Result<Option<ClientMsg>>)
    requires Consistent(lexed, grammar)
    modifies t
    ensures r == Serialized(lexed, grammar, photoReadable, id)
    ensures t.entries == if r.Ok? && r.value.Some? then RegisterOne(old(t.entries), r.value.value)
                         else old(t.entries)
  {
    var parsed := ParseCmd(lexed, grammar);
    if parsed.Err? {
      return Err(parsed.error);
    }
    if parsed.value.None? {
      return Ok(None);
    }
    var cmd := parsed.value.value;
    match cmd {
      case AccCmd(user, scheme, secret, uname, password, doLogin, tags, fn, photo, private, auth, anon) =>
        r := Ok(Some(AccountRequest(id, user, scheme, secret, uname, password, doLogin, tags,
                                    fn, photo, photoReadable, private, auth, anon)));
      case LoginCmd(scheme, secret, uname, password) =>
        var m := MsgLogin(t, id, scheme, secret, uname, password);
        r := Ok(Some(m));
      case SubCmd(topic, _, _, _, _, _, _) =>
        r := Ok(Some(Sub(id, topic)));
      case LeaveCmd(topic, _) =>
        r := Ok(Some(Leave(id, topic)));
      case PubCmd(topic, content) =>
        r := Ok(Some(Pub(id, topic, true, JsonOf(content))));
      case GetCmd(topic, desc, sub, data) =>
        var m := GetRequest(id, topic, desc, sub, data);
        r := Ok(Some(m));
      case SetCmd(topic, fn, photo, private, auth, anon, user, mode) =>
        r := Ok(Some(SetRequest(id, Some(topic), user, fn, photo, photoReadable, private, auth, anon, mode)));
      case DelCmd(topic, what, param, hard) =>
        var m := DeleteRequest(id, topic, what, param, Some(hard));
        if m.Err? {
          return Err(m.error);
        }
        r := Ok(Some(m.value));
      case NoteCmd(topic, what, seqText) =>
        var m := NoteRequest(Some(topic), what, seqText);
        if m.Err? {
          return Err(m.error);
        }
        r := Ok(Some(m.value));
    }
  }

  // ------------------------------------------------------------------ gen_message

  /** One line typed at the `tn> ` prompt, with what shlex and the verb's
      grammar make of it, and whether an avatar file it names can be read. */
  datatype InputLine = InputLine(text: string, lexed: Result<seq<string>>, grammar: Option<Command>,
                                 photoReadable: bool)

  /** Every line's grammar outcome is consistent with its tokens. */
  predicate ConsistentLines(input: seq<InputLine>) {
    forall k :: 0 <= k < |input| ==> Consistent(input[k].lexed, input[k].grammar)
  }

  /** A request handed to the transport, with the integer id it was built for. */
  datatype Emitted = Emitted(rid: nat, msg: ClientMsg)

  /** Why the outbound sequence ended. */
  datatype End = Exited | EndOfInput | Raised(error: PyError)

  /** The table after the builders have run for every emitted request. */
  function Registered(entries: map<string, Action>, out: seq<Emitted>): map<string, Action> {
    if out == [] then entries
    else RegisterOne(Registered(entries, out[..|out| - 1]), out[|out| - 1].msg)
  }

  predicate Sentinel(text: string) {
    text == "exit" || text == "quit"
  }

  /** A request carries the string form of the integer id it was built for. */
  predicate CarriesRid(e: Emitted) {
    e.msg.Note? || e.msg.id == NatToDecimal(e.rid)
  }

  /** What one round of gen_message's loop does with the line it reads: go
      on without a request, emit one, end on "exit"/"quit", or end with the
      exception serialize_cmd raised. */
  datatype Reaction = Skip | Emit(msg: ClientMsg) | Exit | Fail(error: PyError)

  predicate Stops(r: Reaction) {
    r.Exit? || r.Fail?
  }

  /** How a round that stops ends the sequence. */
  function Ending(r: Reaction): End
    requires Stops(r)
  {
    if r.Exit? then Exited else Raised(r.error)
  }

  /** One round for the line read with id `rid`: an empty line is skipped,
      "exit" or "quit" stops, anything else goes through serialize_cmd,
      whose exception ends the generator and whose `None` is skipped. */
  function React(line: InputLine, rid: nat): (r: Reaction)
    requires Consistent(line.lexed, line.grammar)
    ensures r.Exit? <==> Sentinel(line.text)
    ensures r.Fail? ==> line.text != ""
    ensures r.Emit? ==> line.text != "" && !Sentinel(line.text) && CarriesRid(Emitted(rid, r.msg))
  {
    if line.text == "" then Skip
    else if Sentinel(line.text) then Exit
    else
      match Serialized(line.lexed, line.grammar, line.photoReadable, NatToDecimal(rid))
      case Err(e) => Fail(e)
      case Ok(None) => Skip
      case Ok(Some(m)) => Emit(m)
  }

  /** A line that is neither empty nor "exit"/"quit" is handled as
      serialize_cmd says, with the id the round took: its exception ends
      the loop, its `None` is skipped and its request is emitted. */
  lemma ReactSerializes(line: InputLine, rid: nat)
    requires Consistent(line.lexed, line.grammar)
    requires line.text != "" && !Sentinel(line.text)
    ensures var s := Serialized(line.lexed, line.grammar, line.photoReadable, NatToDecimal(rid));
            && (s.Err? ==> React(line, rid) == Fail(s.error))
            && (s == Ok(None) ==> React(line, rid) == Skip)
            && (s.Ok? && s.value.Some? ==> React(line, rid) == Emit(s.value.value))
  {
  }

  /** One round of gen_message's loop, with its effect on the table. */
  method Step(t: CompletionTable, line: InputLine, rid: nat) returns (r: Reaction)
    requires Consistent(line.lexed, line.grammar)
    modifies t
    ensures r == React(line, rid)
    ensures t.entries == if r.Emit? then RegisterOne(old(t.entries), r.msg) else old(t.entries)
  {
    if line.text == "" {
      return Skip;
    }
    if Sentinel(line.text) {
      return Exit;
    }
    var cmd := SerializeCmd(t, line.lexed, line.grammar, line.photoReadable, NatToDecimal(rid));
    match cmd {
      case Err(e) => r := Fail(e);
      case Ok(None) => r := Skip;
      case Ok(Some(m)) => r := Emit(m);
    }
  }

  /** The requests the loop emitted, why it ended and how many lines it read. */
  datatype Gen = Gen(out: seq<Emitted>, end: End, consumed: nat)

  /** `g` after `out` was emitted from `n` earlier lines. */
  function Then(out: seq<Emitted>, n: nat, g: Gen): Gen {
    Gen(out + g.out, g.end, n + g.consumed)
  }

  /** What a round emits. */
  function Emits(rid: nat, r: Reaction): seq<Emitted> {
    if r.Emit? then [Emitted(rid, r.msg)] else []
  }

  /** The loop over rounds that react as `rs` does, the first round with
      id `rid`: it ends at the first round that stops and emits what the
      rounds before it emit. */
  function Loop(rid: nat, rs: seq<Reaction>): Gen
    decreases |rs|
  {
    if rs == [] then Gen([], EndOfInput, 0)
    else if Stops(rs[0]) then Gen([], Ending(rs[0]), 1)
    else Then(Emits(rid, rs[0]), 1, Loop(rid + 1, rs[1..]))
  }

  /** How every typed line would be handled, the k-th with id `rid + k`. */
  function Reactions(rid: nat, input: seq<InputLine>): (rs: seq<Reaction>)
    requires ConsistentLines(input)
    ensures |rs| == |input|
  {
    seq(|input|, k requires 0 <= k < |input| => React(input[k], rid + k))
  }

  /** The k-th entry is the round of the k-th line. */
  lemma ReactionAt(rid: nat, input: seq<InputLine>, k: nat)
    requires ConsistentLines(input) && k < |input|
    ensures Reactions(rid, input)[k] == React(input[k], rid + k)
  {
  }

  /** gen_message's loop over the typed lines, the first read with id `rid`
      and each next one with the next id. */
  function Lines(rid: nat, input: seq<InputLine>): (g: Gen)
    requires ConsistentLines(input)
    ensures g.consumed <= |input|
    ensures g.end == EndOfInput ==> g.consumed == |input|
  {
    LoopConsumed(rid, Reactions(rid, input));
    Loop(rid, Reactions(rid, input))
  }

  /** The loop step of ReadLines: after round `i`, what is left to do is the
      loop over the remaining rounds. */
  lemma LoopStepInto(base: nat, rs: seq<Reaction>, i: nat, out: seq<Emitted>)
    requires i < |rs|
    ensures Stops(rs[i]) ==> Then(out, i, Loop(base + i, rs[i..])) == Gen(out, Ending(rs[i]), i + 1)
    ensures !Stops(rs[i]) ==>
              Then(out, i, Loop(base + i, rs[i..]))
              == Then(out + Emits(base + i, rs[i]), i + 1, Loop(base + i + 1, rs[i + 1..]))
  {
    assert rs[i..][0] == rs[i] && rs[i..][1..] == rs[i + 1..];
    if Stops(rs[i]) {
      assert out + [] == out;
    } else {
      var g := Loop(base + i + 1, rs[i + 1..]);
      assert out + (Emits(base + i, rs[i]) + g.out) == (out + Emits(base + i, rs[i])) + g.out;
    }
  }

  /** The loop runs at most every round, and all of them when none stops it. */
  lemma {:induction false} LoopConsumed(rid: nat, rs: seq<Reaction>)
    ensures Loop(rid, rs).consumed <= |rs|
    ensures Loop(rid, rs).end == EndOfInput ==> Loop(rid, rs).consumed == |rs|
    decreases |rs|
  {
    if rs != [] && !Stops(rs[0]) {
      assert forall k :: 1 <= k < |rs| ==> rs[1..][k - 1] == rs[k];
      LoopConsumed(rid + 1, rs[1..]);
    }
  }

  /** When a round stops the loop, it is the last round run, and the loop
      ends as that round says. */
  lemma {:induction false} LoopStopLast(rid: nat, rs: seq<Reaction>)
    ensures var g := Loop(rid, rs);
            g.end != EndOfInput ==> 1 <= g.consumed <= |rs| && Stops(rs[g.consumed - 1]) && Ending(rs[g.consumed - 1]) == g.end
    decreases |rs|
  {
    if rs != [] && !Stops(rs[0]) {
      LoopStopLast(rid + 1, rs[1..]);
      var g' := Loop(rid + 1, rs[1..]);
      if g'.end != EndOfInput {
        assert rs[1..][g'.consumed - 1] == rs[g'.consumed];
      }
    }
  }

  /** No round before the last one run stops the loop. */
  lemma {:induction false} LoopNoEarlyStop(rid: nat, rs: seq<Reaction>, k: nat)
    requires k + 1 < Loop(rid, rs).consumed
    ensures k < |rs| && !Stops(rs[k])
    decreases |rs|
  {
    if k > 0 {
      LoopNoEarlyStop(rid + 1, rs[1..], k - 1);
      assert rs[1..][k - 1] == rs[k];
    }
  }

  /** The ids of the emitted requests increase, and each belongs to a round
      that ran. */
  lemma {:induction false} LoopOrdered(rid: nat, rs: seq<Reaction>)
    ensures var g := Loop(rid, rs);
            && Increasing(g.out)
            && forall j :: 0 <= j < |g.out| ==> rid <= g.out[j].rid < rid + g.consumed
    decreases |rs|
  {
    if rs != [] && !Stops(rs[0]) {
      LoopOrdered(rid + 1, rs[1..]);
      var g' := Loop(rid + 1, rs[1..]);
      var e := Emits(rid, rs[0]);
      ConcatIncreasing(e, g'.out, rid);
      assert forall j :: |e| <= j < |e + g'.out| ==> (e + g'.out)[j] == g'.out[j - |e|];
    }
  }

  /** Each emitted request carries its id when every round's request does. */
  lemma {:induction false} LoopCarry(rid: nat, rs: seq<Reaction>)
    requires forall k :: 0 <= k < |rs| && rs[k].Emit? ==> CarriesRid(Emitted(rid + k, rs[k].msg))
    ensures AllCarryRid(Loop(rid, rs).out)
    decreases |rs|
  {
    if rs != [] && !Stops(rs[0]) {
      assert forall k :: 1 <= k < |rs| ==> rs[1..][k - 1] == rs[k];
      LoopCarry(rid + 1, rs[1..]);
      ConcatCarry(Emits(rid, rs[0]), Loop(rid + 1, rs[1..]).out);
    }
  }

  /** Every emitted request is what the round run with its id emits. */
  lemma {:induction false} LoopSound(rid: nat, rs: seq<Reaction>, j: nat)
    requires j < |Loop(rid, rs).out|
    ensures var e := Loop(rid, rs).out[j];
            rid <= e.rid < rid + |rs| && rs[e.rid - rid] == Emit(e.msg)
    decreases |rs|
  {
    var e := Emits(rid, rs[0]);
    if j >= |e| {
      var g' := Loop(rid + 1, rs[1..]);
      LoopSound(rid + 1, rs[1..], j - |e|);
      assert (e + g'.out)[j] == g'.out[j - |e|];
      var x := g'.out[j - |e|];
      assert rs[1..][x.rid - rid - 1] == rs[x.rid - rid];
    }
  }

  /** Every round that ran and emits a request has it in the output. */
  lemma {:induction false} LoopComplete(rid: nat, rs: seq<Reaction>, k: nat)
    requires k < |rs| && k < Loop(rid, rs).consumed && rs[k].Emit?
    ensures Emitted(rid + k, rs[k].msg) in Loop(rid, rs).out
    decreases |rs|
  {
    if k > 0 {
      LoopComplete(rid + 1, rs[1..], k - 1);
      assert rs[1..][k - 1] == rs[k];
      assert Loop(rid, rs).out == Emits(rid, rs[0]) + Loop(rid + 1, rs[1..]).out;
    }
  }

  /** How the loop over the typed lines ends: it reads every line unless one
      stops it ("exit", "quit" or an exception), and then that line is the
      last one it read. */
  lemma LinesEnd(rid: nat, input: seq<InputLine>)
    requires ConsistentLines(input)
    ensures var g := Lines(rid, input);
            && g.consumed <= |input|
            && (g.end == EndOfInput ==> g.consumed == |input|)
            && (g.end != EndOfInput ==>
                  1 <= g.consumed && Stops(React(input[g.consumed - 1], rid + g.consumed - 1)) &&
                  Ending(React(input[g.consumed - 1], rid + g.consumed - 1)) == g.end)
  {
    var rs := Reactions(rid, input);
    assert Lines(rid, input) == Loop(rid, rs);
    LoopConsumed(rid, rs);
    LoopStopLast(rid, rs);
    var g := Loop(rid, rs);
    if g.end != EndOfInput {
      var x: nat := g.consumed - 1;
      ReactionAt(rid, input, x);
      assert rid + x == rid + g.consumed - 1;
    }
  }

  /** No line before the last one read stops the loop. */
  lemma LinesNoEarlyStop(rid: nat, input: seq<InputLine>, k: nat)
    requires ConsistentLines(input)
    requires k < |input| && k + 1 < Lines(rid, input).consumed
    ensures !Stops(React(input[k], rid + k))
  {
    LoopNoEarlyStop(rid, Reactions(rid, input), k);
    ReactionAt(rid, input, k);
  }

  /** The ids of the requests the loop emits increase, each request carries
      its own, and each id is that of a line the loop read. */
  lemma LinesOrdered(rid: nat, input: seq<InputLine>)
    requires ConsistentLines(input)
    ensures var g := Lines(rid, input);
            && Increasing(g.out) && AllCarryRid(g.out)
            && forall j :: 0 <= j < |g.out| ==> rid <= g.out[j].rid < rid + g.consumed
  {
    var rs := Reactions(rid, input);
    forall k | 0 <= k < |rs| && rs[k].Emit?
      ensures CarriesRid(Emitted(rid + k, rs[k].msg))
    {
      ReactionAt(rid, input, k);
    }
    LoopOrdered(rid, rs);
    LoopCarry(rid, rs);
  }

  /** Every request the loop emits is what the line read with its id turns
      into. */
  lemma LinesSound(rid: nat, input: seq<InputLine>, j: nat)
    requires ConsistentLines(input)
    requires j < |Lines(rid, input).out|
    ensures var e := Lines(rid, input).out[j];
            var k := e.rid - rid;
            0 <= k < |input| && React(input[k], rid + k) == Emit(e.msg)
  {
    var rs := Reactions(rid, input);
    LoopSound(rid, rs, j);
    var e := Loop(rid, rs).out[j];
    var k: nat := e.rid - rid;
    assert rs[k] == Emit(e.msg);
    ReactionAt(rid, input, k);
  }

  /** Every line the loop read whose round emits a request has that request
      in the output, under the line's id. */
  lemma LinesComplete(rid: nat, input: seq<InputLine>, k: nat)
    requires ConsistentLines(input)
    requires k < |input| && k < Lines(rid, input).consumed
    requires React(input[k], rid + k).Emit?
    ensures Emitted(rid + k, React(input[k], rid + k).msg) in Lines(rid, input).out
  {
    ReactionAt(rid, input, k);
    LoopComplete(rid, Reactions(rid, input), k);
  }

  /** Integer ids strictly increase along the emitted requests. */
  predicate Increasing(out: seq<Emitted>) {
    forall a, b :: 0 <= a < b < |out| ==> out[a].rid < out[b].rid
  }

  predicate AllCarryRid(out: seq<Emitted>) {
    forall j :: 0 <= j < |out| ==> CarriesRid(out[j])
  }

  /** Two increasing runs, the first ending at or below `last` and the
      second above it, make an increasing run. */
  lemma ConcatIncreasing(a: seq<Emitted>, b: seq<Emitted>, last: nat)
    requires Increasing(a) && Increasing(b)
    requires forall j :: 0 <= j < |a| ==> a[j].rid <= last
    requires forall j :: 0 <= j < |b| ==> last < b[j].rid
    ensures Increasing(a + b)
  {
    var c := a + b;
    forall x, y | 0 <= x < y < |c|
      ensures c[x].rid < c[y].rid
    {
      if y < |a| {
        assert c[x] == a[x] && c[y] == a[y];
      } else if x < |a| {
        assert c[x] == a[x] && c[y] == b[y - |a|];
      } else {
        assert c[x] == b[x - |a|] && c[y] == b[y - |a|];
      }
    }
  }

  lemma ConcatCarry(a: seq<Emitted>, b: seq<Emitted>)
    requires AllCarryRid(a) && AllCarryRid(b)
    ensures AllCarryRid(a + b)
  {
    assert forall j :: |a| <= j < |a + b| ==> (a + b)[j] == b[j - |a|];
  }

  /** The opening of gen_message: the handshake with the start id, then the
      login with the next id when a scheme is given. `rid` is the last id used. */
  method Preamble(t: CompletionTable, start: nat, schema: Option<string>, secret: Option<string>)
    returns (out: seq<Emitted>, rid: nat)
    modifies t
    ensures |out| == (if schema.Some? then 2 else 1) && rid == start + |out| - 1
    ensures out[0] == Emitted(start, HiRequest(NatToDecimal(start)))
    ensures schema.Some? ==>
              out[1] == Emitted(start + 1, LoginRequest(NatToDecimal(start + 1), schema.value, secret, None, None))
    ensures Increasing(out) && AllCarryRid(out)
    ensures t.entries == Registered(old(t.entries), out)
  {
    rid := start;
    var hi := MsgHi(t, NatToDecimal(rid));
    out := [Emitted(rid, hi)];
    assert Registered(old(t.entries), out) == RegisterOne(old(t.entries), hi);
    if schema.Some? {
      rid := rid + 1;
      var login := MsgLogin(t, NatToDecimal(rid), schema.value, secret, None, None);
      out := out + [Emitted(rid, login)];
      assert out[..1] == [Emitted(start, hi)];
    }
  }

  /** Registering one more request. */
  lemma RegisteredSnoc(entries: map<string, Action>, out: seq<Emitted>, e: Emitted)
    ensures Registered(entries, out + [e]) == RegisterOne(Registered(entries, out), e.msg)
  {
    assert (out + [e])[..|out|] == out;
  }

  /** Registering two runs of requests is registering their concatenation. */
  lemma {:induction false} RegisteredAppend(entries: map<string, Action>, a: seq<Emitted>, b: seq<Emitted>)
    ensures Registered(entries, a + b) == Registered(Registered(entries, a), b)
    decreases |b|
  {
    if b == [] {
      assert a + b == a;
    } else {
      RegisteredAppend(entries, a, b[..|b| - 1]);
      assert (a + b)[..|a + b| - 1] == a + b[..|b| - 1];
    }
  }

  /** The loop of gen_message, the first line read with id `base`. */
  method ReadLines(t: CompletionTable, base: nat, input: seq<InputLine>)
    returns (out: seq<Emitted>, end: End, consumed: nat)
    requires ConsistentLines(input)
    modifies t
    ensures Gen(out, end, consumed) == Lines(base, input)
    ensures t.entries == Registered(old(t.entries), out)
  {
    ghost var rs := Reactions(base, input);
    out, end, consumed := [], EndOfInput, 0;
    assert rs[0..] == rs;
    while consumed < |input|
      invariant consumed <= |input|
      invariant Lines(base, input) == Then(out, consumed, Loop(base + consumed, rs[consumed..]))
      invariant t.entries == Registered(old(t.entries), out)
    {
      var r := Step(t, input[consumed], base + consumed);
      ReactionAt(base, input, consumed);
      LoopStepInto(base, rs, consumed, out);
      if Stops(r) {
        end := Ending(r);
        consumed := consumed + 1;
        return;
      }
      RegisteredAppend(old(t.entries), out, Emits(base + consumed, r));
      out := out + Emits(base + consumed, r);
      consumed := consumed + 1;
    }
    assert rs[consumed..] == [];
    assert out + [] == out;
  }

  /** gen_message. The handshake goes out first with the start id, then a
      login with the next id when a scheme is given. Every loop round takes
      the next id before reading a line, so an empty or unparseable line
      still uses one up; the rest of the output is exactly what the loop
      over the lines emits, and the loop's end and line count are returned. */
  method GenMessage(t: CompletionTable, start: nat, schema: Option<string>, secret: Option<string>,
                    input: seq<InputLine>) returns (out: seq<Emitted>, end: End, consumed: nat)
    requires 10000 <= start <= 60000
    requires ConsistentLines(input)
    modifies t
    ensures |out| >= 1 && out[0] == Emitted(start, HiRequest(NatToDecimal(start)))
    ensures schema.Some? ==>
              |out| >= 2 && out[1] == Emitted(start + 1, LoginRequest(NatToDecimal(start + 1), schema.value, secret, None, None))
    ensures var pre := if schema.Some? then 2 else 1;
            |out| >= pre && Gen(out[pre..], end, consumed) == Lines(start + pre, input)
    ensures Increasing(out) && AllCarryRid(out)
    ensures t.entries == Registered(old(t.entries), out)
  {
    var opening, rid := Preamble(t, start, schema, secret);
    var lines;
    lines, end, consumed := ReadLines(t, rid + 1, input);
    out := opening + lines;
    RegisteredAppend(old(t.entries), opening, lines);
    LinesOrdered(rid + 1, input);
    ConcatIncreasing(opening, lines, rid);
    ConcatCarry(opening, lines);
    assert out[|opening|..] == lines;
  }

  /** Requests with distinct integer ids have distinct string ids, so every
      handshake and login that gen_message emitted still has its own action
      in the table: none overwrote another. */
  lemma {:induction false} RegisteredKeepsEach(entries: map<string, Action>, out: seq<Emitted>, j: nat)
    requires forall a, b :: 0 <= a < b < |out| ==> out[a].rid < out[b].rid
    requires forall i :: 0 <= i < |out| ==> CarriesRid(out[i])
    requires j < |out|
    ensures out[j].msg.Hi? ==>
              out[j].msg.id in Registered(entries, out) && Registered(entries, out)[out[j].msg.id] == PrintServerParams
    ensures out[j].msg.Login? ==>
              out[j].msg.id in Registered(entries, out) && Registered(entries, out)[out[j].msg.id] == SaveCookie
    decreases |out|
  {
    var last := |out| - 1;
    if j < last {
      RegisteredKeepsEach(entries, out[..last], j);
      if !out[last].msg.Note? && (out[j].msg.Hi? || out[j].msg.Login?) {
        NatToDecimalInjective(out[j].rid, out[last].rid);
        assert out[j].msg.id != out[last].msg.id;
      }
    }
  }

  // ------------------------------------------------------------------ run

  /** A data message whose content `json.loads` does not turn into a string:
      appending "\n" to what it gives raises (a decode error for text that
      is not JSON, TypeError for any other JSON value), and the exception
      ends run. */
  predicate Undecodable(m: ServerMsg) {
    m.Data? && !m.jsonString
  }

  /** How many messages run handles before one raises. */
  function Handled(stream: seq<ServerMsg>): (n: nat)
    ensures n <= |stream|
    ensures forall k :: 0 <= k < n ==> !Undecodable(stream[k])
    ensures n < |stream| ==> Undecodable(stream[n])
  {
    if stream == [] || Undecodable(stream[0]) then 0
    else
      assert forall k :: 1 <= k < |stream| ==> stream[k] == stream[1..][k - 1];
      1 + Handled(stream[1..])
  }

  /** One message of run's loop: a control message looks up its id, removes
      the entry it finds and runs it only for 200 <= code < 400, then prints
      a status line; data is printed, or raises when its content is not a
      JSON string; presence is ignored. */
  method Receive(t: CompletionTable, msg: ServerMsg) returns (fired: seq<Firing>, statuses: seq<Status>, raised: bool)
    modifies t
    ensures raised == Undecodable(msg)
    ensures Outcome(t.entries, fired, statuses) == Dispatch(old(t.entries), [msg])
  {
    fired, statuses, raised := [], [], false;
    assert [msg][1..] == [];
    match msg {
      case Ctrl(id, code, text, params) =>
        var func := t.Resolve(id, code);
        if func.Some? {
          fired := [Firing(id, func.value, params)];
        }
        statuses := [Status(code, text)];
      case Data(_, _, _, jsonString) =>
        raised := !jsonString;
      case Pres =>
      case Unhandled =>
    }
  }

  /** run: reads the inbound stream against the table until a data message
      raises; what it has done by then is Dispatch of the messages before
      that one. */
  method Run(t: CompletionTable, stream: seq<ServerMsg>) returns (fired: seq<Firing>, statuses: seq<Status>, raised: bool)
    modifies t
    ensures raised <==> Handled(stream) < |stream|
    ensures Outcome(t.entries, fired, statuses) == Dispatch(old(t.entries), stream[..Handled(stream)])
  {
    fired, statuses, raised := [], [], false;
    ghost var n := Handled(stream);
    ghost var p := stream[..n];
    var i := 0;
    while i < |stream|
      invariant 0 <= i <= n
      invariant forall k :: 0 <= k < i ==> p[k] == stream[k]
      invariant Dispatch(old(t.entries), p) == Prefixed(fired, statuses, Dispatch(t.entries, p[i..]))
    {
      ghost var e := t.entries;
      var f, s, r := Receive(t, stream[i]);
      if r {
        assert p[i..] == [];
        return fired, statuses, true;
      }
      DispatchStepInto(old(t.entries), p, i, e, fired, statuses, t.entries, f, s);
      fired, statuses := fired + f, statuses + s;
      i := i + 1;
    }
    assert p[i..] == [];
  }

  /** elves-cli.py binds its own, always empty, `onCompletion` after importing
      the builders' table, and run consults that one: no action ever runs. */
  lemma CliTableNeverFires(stream: seq<ServerMsg>)
    ensures Dispatch(map[], stream).fired == []
  {
    DispatchFiresOnce(map[], stream);
  }

  /** With the builders' table, the success response to a handshake runs the
      print-server-params action once, with the response's parameters. */
  lemma SharedTableFiresHandshake(entries: map<string, Action>, id: string, code: int, text: string, params: Params)
    requires Success(code)
    ensures Dispatch(RegisterOne(entries, HiRequest(id)), [Ctrl(id, code, text, params)]).fired
            == [Firing(id, PrintServerParams, params)]
  {
  }

  // ------------------------------------------------------------------ login source

  /** read_cookie as written: the parsed cookie (`None` when the file is
      missing or not a JSON object) is handed back only when it has NO token. */
  function ReadCookieAsWritten(file: Option<Params>): (r: Option<Params>)
    ensures r.Some? ==> "token" !in r.value
    ensures r.Some? <==> file.Some? && "token" !in file.value
    ensures r.Some? ==> r == file
  {
    if file.None? then None
    else if "token" in file.value then None
    else file
  }

  /** `dict.get`. */
  function DictGet(p: Params, k: string): (r: Option<string>)
    ensures r.Some? <==> k in p
    ensures r.Some? ==> r.value == p[k]
  {
    if k in p then Some(p[k]) else None
  }

  /** What `__main__` gets from the cookie as written: `params.get('token')`
      of the token-less cookie read_cookie hands back is None, and `.encode`
      on it raises. */
  function CookieTokenAsWritten(file: Option<Params>): (r: Result<Option<string>>)
    ensures r.Ok? ==> r.value.None?
    ensures r.Err? <==> file.Some? && "token" !in file.value
  {
    match ReadCookieAsWritten(file)
    case None => Ok(None)
    case Some(p) =>
      match DictGet(p, "token")
      case None => Err(AttributeError)
      case Some(v) => Ok(Some(v))
  }

  /** The token a readable cookie holds, as intended. */
  function CookieToken(file: Option<Params>): (r: Option<string>)
    ensures r.Some? <==> file.Some? && "token" in file.value
    ensures r.Some? ==> r.value == file.value["token"]
  {
    if file.Some? && "token" in file.value then Some(file.value["token"]) else None
  }

  /** The cookie path never yields a login as written, and yields the stored
      token as intended. */
  lemma CookieLoginNeverWorks(file: Params, token: string)
    requires "token" in file && file["token"] == token
    ensures CookieTokenAsWritten(Some(file)) == Ok(None)
    ensures CookieTokenAsWritten(Some(file - {"token"})) == Err(AttributeError)
    ensures CookieToken(Some(file)) == Some(token)
  {
  }

  /** The start-up choice of login: the cookie's token first, then
      `--login-token`, then `--login-basic`; each later source applies only
      while no scheme has been chosen. */
  method LoginSource(loginCookie: bool, cookieFile: Option<Params>, loginToken: Option<string>,
                     loginBasic: Option<string>) returns (schema: Option<string>, secret: Option<string>)
    ensures loginCookie && CookieToken(cookieFile).Some? ==>
              schema == Some("token") && secret == CookieToken(cookieFile)
    ensures !(loginCookie && CookieToken(cookieFile).Some?) && loginToken.Some? ==>
              schema == Some("token") && secret == loginToken
    ensures !(loginCookie && CookieToken(cookieFile).Some?) && loginToken.None? && loginBasic.Some? ==>
              schema == Some("basic") && secret == loginBasic
    ensures schema.None? <==> !(loginCookie && CookieToken(cookieFile).Some?) && loginToken.None? && loginBasic.None?
    ensures schema.None? ==> secret.None?
  {
    schema, secret := None, None;
    if loginCookie {
      var token := CookieToken(cookieFile);
      if token.Some? {
        schema := Some("token");
        secret := token;
      }
    }
    if schema.None? && loginToken.Some? {
      schema := Some("token");
      secret := loginToken;
    }
    if schema.None? && loginBasic.Some? {
      schema := Some("basic");
      secret := loginBasic;
    }
  }
}
