# tinode-py client: a Dafny model

This project models the client side of the elves/tinode-py chat client. It
covers three Python files:

- **gen_messages.py** holds the request builders. They turn command fields
  into one outbound `ClientMsg`: hi, acc, login, get, set, del or note. This
  file also holds the `onCompletion` table of pending completions, which
  maps a request id to a one-shot action.
- **elves-cli.py** is the interactive client. `parse_cmd` selects the verb
  and `serialize_cmd` turns a command into a request. The `gen_message`
  generator numbers requests and stops on `exit`/`quit`. `run` dispatches
  the server's control responses against the completion table, until a data
  message whose content is not a JSON string raises. At start-up,
  `__main__` chooses the login source.
- **elves.py** is the chat bot. `ElvesChatter` keeps an id counter and a
  FIFO out-queue closed by a `None` sentinel, and it answers every data
  message by publishing the text back with a prefix. `Plugin.Account`
  reports account events.

Modules:

- `Wrappers` models Python's `None` and the exceptions the code can raise,
  as `Option`, `Result` and `PyError`.
- `PyText` models the string built-ins the code relies on: `strip`,
  `split`, `join`, `str(n)` and `int(s)`.
- `Completion` holds the completion table: the class `CompletionTable`, the
  one-entry rule `Resolved`, and `Dispatch`, which reads a whole inbound
  stream against the table.
- `Messages` holds the builders.
- `Cli` holds elves-cli.py.
- `Bot` holds elves.py.

The stateful parts are classes with `modifies` clauses, proved against
specification functions:

- the completion table;
- the chatter's `mid` and `queue_out`;
- the loops of `gen_message`, `run`, `msg_iter` and `on_message`.

The lemmas about those functions state the promises: one-shot firing, fresh
and increasing ids, FIFO draining, and one reply per data message.

Several inputs of the original become parameters, chosen by the caller:

- what `shlex.split` and the verb's `argparse` grammar make of a typed line;
- whether an avatar file can be opened;
- the random start id;
- the contents of the cookie file;
- the inbound message stream.

Two constants are used as the code has them:

- The "all" range of `del` ends at `0x8FFFFFF` (150994943).
- `recv` is sent as `READ`.

The user agent is `elves-py/0.14 gRPC-python`. elves-cli.py rebinds
`APP_NAME` to "tn-cli", but `msg_hi` reads its own module's global.

## Model

| member | source | states |
|---|---|---|
| PyText.Strip | gen_messages.py:84 | `str.strip()`: the result is no longer than the input, empty exactly for a whitespace-only string, and otherwise starts and ends with non-whitespace |
| PyText.StripTrims | gen_messages.py:169 | the stripped string is a slice of the input with only whitespace cut off before and after it |
| PyText.Split | gen_messages.py:120 | `s.split(sep)` gives at least one piece and no piece holds the separator; with `JoinSplit` and `SplitJoin` it is the inverse of `Join` |
| PyText.Join | gen_messages.py:143 | `sep.join(parts)` starts with the first piece, followed by the separator when there are two or more pieces; with `JoinSplit` and `SplitJoin` it is the inverse of `Split` |
| PyText.ParseInt | gen_messages.py:204 | `int(s)` succeeds iff the stripped text is ASCII digits, or a sign followed by at least one ASCII digit; the value is the decimal value of the digits, negated when the sign is `-` (so `int("-5") == -5` and `int("+5") == 5`); blank text never parses |
| PyText.JoinSplit | gen_messages.py:120 | joining the pieces of a split with the same separator gives back the string |
| PyText.SplitJoin | gen_messages.py:143 | splitting a join of separator-free pieces gives back the pieces |
| PyText.NatToDecimal | elves.py:59 | `str(n)` for a natural number is a non-empty string of decimal digits, with no leading zero unless `n` is 0; `DecimalRoundTrip` reads it back to `n` |
| PyText.DecimalRoundTrip | elves.py:57-59 | reading back the digits of `str(n)` gives `n` |
| PyText.NatToDecimalInjective | elves.py:57-59 | distinct counter values have distinct string ids |
| PyText.ParseIntRoundTrip | gen_messages.py:204 | `int(str(n)) == n` |
| Completion.Resolved | elves-cli.py:195-199 | the id's entry is always removed and every other entry is kept; the action is handed back to run iff the id was present and `200 <= code < 400` |
| Completion.RegisterThenResolveTwice | gen_messages.py:108 | a registered action runs once for a success code, and a second response with the same id runs nothing |
| Completion.Dispatch | elves-cli.py:192-207 | reading a stream only removes table entries, prints at most one status line per message, and runs at most one action per status line |
| Completion.DispatchFiresOnce | elves-cli.py:192-200 | every action that runs was registered under its id with that action; no id runs twice; the table only loses entries, including every id that ran |
| Completion.DispatchKeepsOthers | elves-cli.py:195-197 | an entry whose id no control message names survives unchanged |
| Completion.DispatchStatusPerControl | elves-cli.py:200 | exactly one status line per control message, with its code and text, in order |
| Completion.CompletionTable.constructor | gen_messages.py:35 | the table starts empty |
| Completion.CompletionTable.Register | gen_messages.py:108 | `onCompletion[id] = action` overwrites the entry for `id` and leaves the other keys alone |
| Completion.CompletionTable.Resolve | elves-cli.py:195-199 | the get/del/code-test sequence leaves the table and returns the action as `Resolved` says |
| Messages.Credential | gen_messages.py:117 | `str(uname) + ":" + str(password)` with a missing password read as "": its length is the name's plus one plus the password's, the colon sits right after the name, and a missing name is spelled `None:`; `CredentialRoundTrip` splits it back |
| Messages.CredentialRoundTrip | gen_messages.py:114-117 | a synthesized `uname:password` splits back at the first colon into the user name and the password (or "" when it is missing) |
| Messages.MakeVcardAsWritten | gen_messages.py:81-103 | as written: no card (None) when none is wanted; AttributeError, and only AttributeError, when a card is wanted and a name is given or the photo can be read; the empty card `{}` when a card is wanted with no name and an unreadable photo |
| Messages.MakeVcard | gen_messages.py:84-103 | a card exists iff the name is given and not blank, or a photo is given; it holds the stripped name whenever a name is given, and the photo iff the file can be read |
| Messages.VcardNameOnly | gen_messages.py:84-87 | a non-blank name without a photo raises as written and gives the name-only card as intended |
| Messages.HiRequest | gen_messages.py:109-110 | the hi request carries the id, user agent `elves-py/0.14 gRPC-python`, version 0.14 and language EN |
| Messages.MsgHi | gen_messages.py:107-110 | msg_hi returns the hi request and stores print-server-params under its id, leaving the other ids alone |
| Messages.AccountRequest | gen_messages.py:113-122 | an explicit secret is kept; with no secret, a user name gives `uname:password` (password defaults to ""); with neither there is no secret; tags are present iff given and non-empty, and they join back to the given text with no piece holding a comma |
| Messages.LoginRequest | gen_messages.py:125-131 | the secret becomes `str(uname):password` exactly when it is None, or when it is "" and a user name is given; otherwise it passes through unchanged |
| Messages.LoginSecretRoundTrip | gen_messages.py:126-129 | a synthesized login secret splits back into the user name and password |
| Messages.MsgLogin | gen_messages.py:125-131 | msg_login returns the login request and stores save-cookie under its id, leaving the other ids alone |
| Messages.FlagMembership | gen_messages.py:135-141 | each of desc, sub and data is among the appended words iff its flag is set |
| Messages.FlagRanks | gen_messages.py:135-141 | the appended words come in the fixed order desc, sub, data, each at most once |
| Messages.FlagWords | gen_messages.py:135-141 | the appended words name exactly the set flags in order, and none is empty or holds a space |
| Messages.QueryWords | gen_messages.py:143 | the space-join of such words is empty iff there are none, and otherwise splits back into them |
| Messages.GetMsg | gen_messages.py:134-143 | the get request carries the id and topic; its query is "" iff no flag is set, and otherwise splitting it on spaces gives exactly the set flags' words in the order desc, sub, data |
| Messages.GetRequest | gen_messages.py:134-143 | building the word list by appends gives exactly `GetMsg` |
| Messages.SetRequest | gen_messages.py:146-151 | the id, topic, subscription user and mode are carried; the description has the default access, the private value, and as public card exactly what make_vcard gives (as intended) for the name and photo |
| Messages.SeqIds | gen_messages.py:169 | the comprehension succeeds iff every stripped piece is an integer, and then gives `SeqIdList`; otherwise it raises ValueError |
| Messages.SeqIdsOfDecimals | gen_messages.py:169 | a comma-join of decimal ids parses back into exactly those ids, in order |
| Messages.DeleteDecimals | gen_messages.py:164-169 | deleting messages of a topic by a comma-join of decimal ids gives a msg delete of exactly those ids, in order |
| Messages.DeleteMsg | gen_messages.py:154-194 | without a topic, the parameter becomes the topic and no list or user is set; with neither, assigning the `None` topic raises TypeError, and so does assigning the `None` kind of an unknown what; for msg, no parameter gives an empty list, "all" gives the single range 1..0x8FFFFFF, and any other parameter gives one id per comma-separated piece, in order, or ValueError exactly when a piece is not an integer; sub copies the parameter into the user id; topic sets neither; the id and hard flag are carried; these are the only errors |
| Messages.DeleteRequest | gen_messages.py:154-194 | filling the request field by field gives exactly `DeleteMsg`, including its errors |
| Messages.NoteRequest | gen_messages.py:197-208 | kp drops the sequence number; read and recv both send READ with `int(seq)`, raising TypeError without `seq` and ValueError on a non-integer; a note has no id |
| Cli.ParseCmd | elves-cli.py:24-123 | an empty token list raises IndexError; a first token that is not a verb gives None, whatever follows; a verb gives the grammar's outcome, None when it fails; on success the command's verb is the first token |
| Cli.Serialized | elves-cli.py:126-157 | parse errors propagate and a None parse gives None; otherwise exactly one request of the verb's variant, carrying the id (a note has none), never a hi; only del and note can raise |
| Cli.SerializedBuilds | elves-cli.py:135-154 | each verb's request is its builder's: acc, login, set, get, del and note through msg_account, msg_login, msg_set, msg_get, msg_delete and msg_note; pub is `no_echo` with the JSON content; sub and leave carry the topic |
| Cli.SerializeCmd | elves-cli.py:126-157 | returns exactly `Serialized`; only a login stores an action, under its id |
| Cli.React | elves-cli.py:176-182 | a round stops with exit iff the line is exit/quit; it raises only on a non-empty line; an emitted request carries the round's id |
| Cli.ReactSerializes | elves-cli.py:180-182 | a non-empty line other than exit/quit ends the loop with serialize_cmd's exception, is skipped on its None, and otherwise emits its request |
| Cli.Step | elves-cli.py:174-182 | one round is exactly `React` of the line, and only an emitted login stores an action |
| Cli.Lines | elves-cli.py:173-182 | the loop over the typed lines reads at most every line, and every line when none ends it; `LinesEnd`, `LinesNoEarlyStop`, `LinesOrdered`, `LinesSound` and `LinesComplete` state what it emits and where it stops |
| Cli.Preamble | elves-cli.py:164-171 | the hi goes out with the start id, then the login with the next id when a scheme is given; each stores its action |
| Cli.LinesEnd | elves-cli.py:173-182 | the loop reads every line unless one stops it; when one does (exit/quit or an exception), it is the last line read and gives the end |
| Cli.LinesNoEarlyStop | elves-cli.py:173-182 | no line before the last one read stops the loop |
| Cli.LinesOrdered | elves-cli.py:173-182 | the ids of the emitted requests strictly increase, each request carries its own id, and each id is that of a line read |
| Cli.LinesSound | elves-cli.py:174-182 | every emitted request is exactly what the round of the line read with its id emits, which by `ReactSerializes` is serialize_cmd's request for that line |
| Cli.LinesComplete | elves-cli.py:174-182 | every line read whose round emits a request has that request in the output, under the line's id |
| Cli.ReadLines | elves-cli.py:173-182 | the loop's output, end and line count are exactly `Lines` of the input; the table holds every emitted request's action |
| Cli.GenMessage | elves-cli.py:160-182 | the first request is the hi with the start id in [10000, 60000]; a login with start+1 follows if a scheme is given; what follows, the end and the line count are exactly the loop over the lines with ids from the next id on (so skipped lines still use an id up); ids strictly increase and each request carries its own id; the table holds the actions of the emitted requests |
| Cli.RegisteredKeepsEach | elves-cli.py:167-182 | every emitted hi and login still has its own action in the table: with distinct ids, no later request overwrote it |
| Cli.Handled | elves-cli.py:192-203 | run handles the messages before the first data message whose content is not a JSON string, and that message is the one that raises |
| Cli.Receive | elves-cli.py:193-207 | one inbound message changes the table and the output as `Dispatch` does for it; it raises iff it is a data message whose content is not a JSON string |
| Cli.Run | elves-cli.py:185-210 | run's loop leaves the table, the actions run and the status lines exactly as `Dispatch` of the messages before the first undecodable data message; it raises iff there is one |
| Cli.CliTableNeverFires | elves-cli.py:12-18 | with the empty table that elves-cli.py rebinds, no action ever runs |
| Cli.SharedTableFiresHandshake | gen_messages.py:107-108 | with the builders' own table, a success response to the hi runs print-server-params once with the response's parameters |
| Cli.ReadCookieAsWritten | gen_messages.py:47-58 | as written: the cookie is handed back iff it exists and has NO token, and then it is the file's own parameters, unchanged |
| Cli.CookieTokenAsWritten | elves-cli.py:229-234 | as written: the cookie path never yields a token, and it raises AttributeError iff the cookie has no token |
| Cli.CookieToken | elves-cli.py:229-234 | as intended: the token is yielded iff the cookie has one, and it is that token |
| Cli.CookieLoginNeverWorks | gen_messages.py:52-53 | a cookie with a token gives no login as written and gives its token as intended |
| Cli.LoginSource | elves-cli.py:227-244 | precedence is the cookie's token, then `--login-token`, then `--login-basic`, with schemes token, token and basic; no scheme and no secret iff none applies |
| Bot.Account | elves.py:28-43 | CREATE, UPDATE and DELETE are reported as created, updated and deleted, and anything else as unknown (each word iff its case); the reply is always `Unused` |
| Bot.PostedInOrder | elves.py:109-110 | posting puts every message on the queue, in order, none of them `None` |
| Bot.Replies | elves.py:131-135 | on_message posts one reply per data message of the stream, and no other; `RepliesAnswerData` and `RepliesFresh` state what each reply is |
| Bot.RepliesAnswerData | elves.py:131-135 | exactly one reply per data message, in order: the i-th is a no-echo publish to the data message's topic, with the prefixed text and the i-th fresh id |
| Bot.FreshId | elves.py:57-59 | the string form of a counter value differs from that of every smaller value |
| Bot.Drained | elves.py:85-91 | msg_iter splits the queue into what it yields, the one `None` it consumes if any, and what stays queued, losing and adding nothing; without a `None` nothing stays queued |
| Bot.RepliesFresh | elves.py:104-107 | the replies' ids are pairwise distinct and differ from every id issued before |
| Bot.DrainedMeaning | elves.py:85-91 | msg_iter yields the queue's prefix before its first `None`, in FIFO order; it stops iff there is a `None`, leaving what follows queued; without one it yields everything |
| Bot.PostedThenClosed | elves.py:85-91 | posting messages and then `None` sends exactly those messages and closes the stream |
| Bot.Chatter.constructor | elves.py:54-55 | the queue starts empty and `mid` at the start value in [10000, 60000] |
| Bot.Chatter.NextId | elves.py:57-59 | `mid` goes up by exactly one; the id is its string form and differs from that of every earlier counter value |
| Bot.Chatter.ClientPost | elves.py:109-110 | appends to the out-queue |
| Bot.Chatter.MsgIter | elves.py:85-91 | takes off the queue exactly what `Drained` says, and leaves the rest queued |
| Bot.Chatter.Hello | elves.py:96-99 | a hi with a fresh id; no action is stored |
| Bot.Chatter.PostHello | elves.py:80 | the hi goes on the out-queue |
| Bot.Chatter.Login | elves.py:101-102 | posts a basic login with secret `user_name:password` under a fresh id, and stores save-cookie under that id |
| Bot.Chatter.Publish | elves.py:104-107 | posts a no-echo publish of the text to the topic under a fresh id |
| Bot.Chatter.Handle | elves.py:122-139 | one inbound message: a control message resolves as in run; a data message is answered with one reply; anything else changes nothing |
| Bot.Chatter.OnMessage | elves.py:116-145 | without a stream nothing changes and it exits; otherwise the table, the actions run and the status lines follow `Dispatch`, the counter advances once per data message, and the queue gains exactly `Replies` |
| Bot.NoteRead | elves.py:112-114 | a READ note for the topic with the given sequence id |
| Bot.NoteReadAgrees | elves.py:113-114 | note_read gives the note that msg_note builds for "read" with the decimal form of the same sequence id |

## Left out

- gRPC is not modelled: the channel, the stub, `MessageLoop` streaming and the plugin server (`connect`, `init_server`, `init_client`). Only the posting of the hello is modelled, as `Bot.Chatter.PostHello`.
- `ThreadPoolExecutor` and the thread-safety of `queue.Queue` are left out. The queue is a sequential FIFO.
- `shlex` and `argparse` are left out. Each typed line carries their outcome as an input.
- `Cli.ParseCmd`: this does not model per-option defaults, merging of positional and `--` options, or usage messages. It models only verb selection, `None` on a failed grammar, and `IndexError` on an empty token list.
- `print` output is left out. That includes the status lines, which the model keeps only as `Status` values.
- `__main__`'s own `argparse.parse_args` (elves-cli.py:215-222), which prints a usage message and exits on bad command-line options, is left out; the options are inputs. So is the `Rendezvous` error handler in `run` (elves-cli.py:209-210).
- Cli.GenMessage: `EndOfInput` stands for "no more lines typed". Python's `input("tn> ")` (elves-cli.py:175) then either blocks, waiting for a line, or, at the end of standard input, raises EOFError, which ends the generator with that exception. The model ends the loop normally there, kept apart from `Raised`, and so do `Cli.ReadLines` and `Cli.Lines`.
- File I/O is left out:
  - the cookie file's contents are an input;
  - `save_cookie`'s JSON conversion and writing are represented by the `SaveCookie` action;
  - the avatar file is represented by whether it can be read, and a `Photo` holding the file name. Its base64 data and extension type are not modelled.
- JSON and protobuf encoding are record builders:
  - `json.dumps` of an optional string is `JsonOf`;
  - the `.encode('utf-8')` of the login secret and of the bot's publish content is not modelled;
  - passing `None` as a protobuf constructor keyword is taken as leaving the field unset. msg_delete's attribute assignments are different: assigning `None` to `topic` or `what` raises TypeError, and `Messages.DeleteMsg` models that.
- `random.seed`/`randint` are left out. The start id is a parameter in [10000, 60000].
- `int()` is modelled for ASCII digits with an optional sign. Underscores and non-ASCII digits are not modelled.
- `strip()` is modelled for ASCII whitespace only.
- `Messages.AccountRequest`: it uses the corrected `MakeVcard`. As written, msg_account raises AttributeError whenever a card is wanted and a name is given or the photo can be read (see Findings).
- `Messages.SetRequest`: it uses the corrected `MakeVcard`. As written, msg_set raises AttributeError in the same cases.
- `Cli.Serialized`: acc and set use the corrected `MakeVcard`, so "only del and note can raise" holds of the corrected program. As written, acc and set raise AttributeError in the cases above.
- `Cli.LoginSource`: the cookie's token is kept as a string. As written, `base64.b64decode` gives bytes, and msg_login's `secret.encode('utf-8')` then raises AttributeError (see Findings).
- `Cli.Run`: the content of a data message is reduced to whether `json.loads` gives a string. The exception kinds (a decode error or TypeError) and the printed text are not modelled.
- `Bot.Chatter.OnMessage`: the catch-all `except Exception` around the loop is not modelled. The model's stream holds the decoded content, so a failed UTF-8 decode, which ends the loop, is not represented.
- `Bot.Chatter.OnMessage`: `exit()` when there is no stream is represented by the `exited` result.
- `ElvesChatter.register` is a no-op, and `elves_example.py` is a driver only. Neither is modelled.
- The CLI's `SavedTopic` and the `Unrecognized` prints are not modelled. Neither affects a request.

## Findings

| source | as written | input that shows it | evidently intended | confidence | as-written member | corrected member |
|---|---|---|---|---|---|---|
| gen_messages.py:85-93 | `card = {}`, then `card.fn = ...` and `card.photo = ...`: attribute assignment on a dict raises AttributeError | `make_vcard("Ann", None)` | a card holding the stripped name and, when readable, the photo | high; not executed | Messages.MakeVcardAsWritten, Messages.VcardNameOnly | Messages.MakeVcard |
| gen_messages.py:52-54 | read_cookie returns `None` when the cookie HAS a token, and `__main__` then calls `.encode` on the missing token. Even with the test inverted, elves-cli.py:234 makes the secret bytes with `base64.b64decode`, and msg_login's `secret.encode('utf-8')` (gen_messages.py:131) raises AttributeError on bytes | a cookie `{"token": "abc"}` with `--login-cookie` | hand back the cookie when it has a token, so it is used for a token login with the token as the secret | high; not executed | Cli.ReadCookieAsWritten, Cli.CookieTokenAsWritten, Cli.CookieLoginNeverWorks | Cli.CookieToken, Cli.LoginSource |
| elves-cli.py:18 | `onCompletion = {}` after `from gen_messages import *` rebinds the name, so `run` reads an empty table that msg_hi and msg_login never fill | a `ctrl` with code 200 answering the hi's id | run consults the table the builders fill, so the server parameters are printed and the cookie is saved | high; not executed | Cli.CliTableNeverFires | Cli.SharedTableFiresHandshake, Cli.Run |
