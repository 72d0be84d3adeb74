/** The pending-completion table: request id -> one-shot action run when
    the control response for that id arrives, and the rule by which the
    inbound stream is dispatched against it. */
module Completion {
  import opened Wrappers

  /** The key/value parameters of a control response. */
  type Params = map<string, string>

  /** The two closures the client ever stores: print the parameters the
      server announces after `hi`, and save the login parameters as a
      cookie after `login`. */
  datatype Action = PrintServerParams | SaveCookie

  /** The status codes for which a pending action runs. */
  predicate Success(code: int) {
    200 <= code < 400
  }

  /** One message of the inbound stream. Presence messages are ignored and
      any other kind is only reported. `jsonString` says whether a data
      message's content is the JSON encoding of a string. */
  datatype ServerMsg =
    | Ctrl(id: string, code: int, text: string, params: Params)
    | Data(fromUser: string, topic: string, content: string, jsonString: bool)
    | Pres
    | Unhandled

  /** An action that ran, with the id it was stored under and the
      parameters it was called with. */
  datatype Firing = Firing(id: string, action: Action, params: Params)

  /** The status line printed for a control message. */
  datatype Status = Status(code: int, text: string)

  datatype Resolution = Resolution(entries: map<string, Action>, fired: Option<Action>)

  /** Looking up the entry for `id`: it is removed whenever present, and
      handed back to run only for a success code. */
  function Resolved(entries: map<string, Action>, id: string, code: int): (r: Resolution)
    ensures r.entries.Keys == entries.Keys - {id}
    ensures forall k :: k in r.entries ==> r.entries[k] == entries[k]
    ensures r.fired.Some? <==> id in entries && Success(code)
    ensures r.fired.Some? ==> r.fired.value == entries[id]
  {
    if id in entries then
      Resolution(entries - {id}, if Success(code) then Some(entries[id]) else None)
    else
      Resolution(entries, None)
  }

  /** A registered action runs once for a success code; the id is then gone,
      so a second response for it runs nothing. */
  lemma RegisterThenResolveTwice(entries: map<string, Action>, id: string, a: Action, code1: int, code2: int)
    ensures var r1 := Resolved(entries[id := a], id, code1);
            && r1.fired == (if Success(code1) then Some(a) else None)
            && Resolved(r1.entries, id, code2) == Resolution(r1.entries, None)
  {
  }

  /** The whole outcome of reading an inbound stream. */
  datatype Outcome = Outcome(entries: map<string, Action>, fired: seq<Firing>, statuses: seq<Status>)

  /** The control messages of a stream, in order. */
  function Controls(stream: seq<ServerMsg>): (cs: seq<ServerMsg>)
    ensures |cs| <= |stream|
    ensures forall i :: 0 <= i < |cs| ==> cs[i].Ctrl?
  {
    if stream == [] then []
    else if stream[0].Ctrl? then [stream[0]] + Controls(stream[1..])
    else Controls(stream[1..])
  }

  /** Reading the inbound stream: each control message resolves its id in the
      table (running the action it finds for a success code) and prints a
      status line; data, presence and other messages leave the table alone. */
  function Dispatch(entries: map<string, Action>, stream: seq<ServerMsg>): (o: Outcome)
    ensures o.entries.Keys <= entries.Keys
    ensures |o.fired| <= |o.statuses| <= |stream|
    decreases |stream|
  {
    if stream == [] then Outcome(entries, [], [])
    else
      match stream[0]
      case Ctrl(id, code, text, params) =>
        var r := Resolved(entries, id, code);
        var o := Dispatch(r.entries, stream[1..]);
        var now := if r.fired.Some? then [Firing(id, r.fired.value, params)] else [];
        Outcome(o.entries, now + o.fired, [Status(code, text)] + o.statuses)
      case _ => Dispatch(entries, stream[1..])
  }

  /** Reading one message and then the rest of the stream is reading the
      whole stream. */
  lemma DispatchCons(entries: map<string, Action>, stream: seq<ServerMsg>)
    requires stream != []
    ensures var first := Dispatch(entries, [stream[0]]);
            var rest := Dispatch(first.entries, stream[1..]);
            Dispatch(entries, stream) == Outcome(rest.entries, first.fired + rest.fired, first.statuses + rest.statuses)
  {
    assert [stream[0]][1..] == [];
    if !stream[0].Ctrl? {
      assert Dispatch(entries, [stream[0]]) == Dispatch(entries, []);
    }
  }

  /** An outcome with runs and status lines already produced put in front. */
  function Prefixed(fired: seq<Firing>, statuses: seq<Status>, o: Outcome): Outcome {
    Outcome(o.entries, fired + o.fired, statuses + o.statuses)
  }

  /** The loop step of a reader of the stream: after handling message `i`
      as Dispatch does, what is left to read is the rest of the stream. */
  lemma DispatchStepInto(e0: map<string, Action>, stream: seq<ServerMsg>, i: nat,
                         e: map<string, Action>, fired: seq<Firing>, statuses: seq<Status>,
                         e': map<string, Action>, f: seq<Firing>, s: seq<Status>)
    requires i < |stream|
    requires Dispatch(e0, stream) == Prefixed(fired, statuses, Dispatch(e, stream[i..]))
    requires Outcome(e', f, s) == Dispatch(e, [stream[i]])
    ensures Dispatch(e0, stream) == Prefixed(fired + f, statuses + s, Dispatch(e', stream[i + 1..]))
  {
    assert stream[i..][0] == stream[i] && stream[i..][1..] == stream[i + 1..];
    DispatchCons(e, stream[i..]);
    var rest := Dispatch(e', stream[i + 1..]);
    assert fired + (f + rest.fired) == (fired + f) + rest.fired;
    assert statuses + (s + rest.statuses) == (statuses + s) + rest.statuses;
  }

  /** Every action that runs was registered under the id it runs for, no id
      runs twice, and the table only loses entries, among them every id
      that ran. */
  lemma {:induction false} DispatchFiresOnce(entries: map<string, Action>, stream: seq<ServerMsg>)
    ensures var o := Dispatch(entries, stream);
            && (forall i :: 0 <= i < |o.fired| ==>
                  o.fired[i].id in entries && entries[o.fired[i].id] == o.fired[i].action)
            && (forall i, j :: 0 <= i < j < |o.fired| ==> o.fired[i].id != o.fired[j].id)
            && (forall i :: 0 <= i < |o.fired| ==> o.fired[i].id !in o.entries)
            && (forall k :: k in o.entries ==> k in entries && o.entries[k] == entries[k])
    decreases |stream|
  {
    if stream != [] {
      match stream[0]
      case Ctrl(id, code, text, params) =>
        var r := Resolved(entries, id, code);
        DispatchFiresOnce(r.entries, stream[1..]);
      case _ =>
        DispatchFiresOnce(entries, stream[1..]);
    }
  }

  /** An entry whose id no control message mentions stays as it was. */
  lemma {:induction false} DispatchKeepsOthers(entries: map<string, Action>, stream: seq<ServerMsg>, k: string)
    requires k in entries
    requires forall i :: 0 <= i < |stream| ==> !(stream[i].Ctrl? && stream[i].id == k)
    ensures k in Dispatch(entries, stream).entries
    ensures Dispatch(entries, stream).entries[k] == entries[k]
    decreases |stream|
  {
    if stream != [] {
      assert !(stream[0].Ctrl? && stream[0].id == k);
      match stream[0]
      case Ctrl(id, code, text, params) =>
        DispatchKeepsOthers(Resolved(entries, id, code).entries, stream[1..], k);
      case _ =>
        DispatchKeepsOthers(entries, stream[1..], k);
    }
  }

  /** One status line per control message, with its code and text, in order. */
  lemma {:induction false} DispatchStatusPerControl(entries: map<string, Action>, stream: seq<ServerMsg>)
    ensures var o, cs := Dispatch(entries, stream), Controls(stream);
            && |o.statuses| == |cs|
            && forall i :: 0 <= i < |cs| ==> o.statuses[i] == Status(cs[i].code, cs[i].text)
    decreases |stream|
  {
    if stream != [] {
      match stream[0]
      case Ctrl(id, code, text, params) =>
        DispatchStatusPerControl(Resolved(entries, id, code).entries, stream[1..]);
      case _ =>
        DispatchStatusPerControl(entries, stream[1..]);
    }
  }

  /** The table of pending completions, a dictionary updated in place. */
  class CompletionTable {
    var entries: map<string, Action>

    constructor ()
      ensures entries == map[]
    {
      entries := map[];
    }

    /** `onCompletion[id] = action`: overwrites any earlier entry for `id`. */
    method Register(id: string, a: Action)
      modifies this
      ensures entries == old(entries)[id := a]
    {
      entries := entries[id := a];
    }

    /** `func = onCompletion.get(id)`, then `del` and the success-code test. */
    method Resolve(id: string, code: int) returns (fired: Option<Action>)
      modifies this
      ensures Resolution(entries, fired) == Resolved(old(entries), id, code)
    {
      fired := None;
      if id in entries {
        var func := entries[id];
        entries := entries - {id};
        if Success(code) {
          fired := Some(func);
        }
      }
    }
  }
}
