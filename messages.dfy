/** The request builders of gen_messages.py: each maps command fields to one
    variant of the outbound client message. Request ids arrive already in
    their string form (`str(mid)`). */
module Messages {
  import opened Wrappers
  import opened PyText
  import opened Completion

  /** `APP_NAME + "/" + VERSION + " gRPC-python"` with APP_NAME "elves-py". */
  const UserAgent: string := "elves-py/0.14 gRPC-python"
  const Version: string := "0.14"
  /** Upper bound of the range that `del ... all` deletes. */
  const AllSeqHi: int := 0x8FFFFFF

  datatype DefaultAcs = DefaultAcs(auth: Option<string>, anon: Option<string>)

  /** An avatar taken from a file; its base64 data and extension type are
      derived from the file's bytes and name. */
  datatype Photo = Photo(file: string)

  /** The public vcard: a display name and an avatar. */
  datatype Vcard = Vcard(fn: Option<string>, photo: Option<Photo>)

  datatype SetDesc = SetDesc(defaultAcs: DefaultAcs, public: Option<Vcard>, private: Option<string>)

  datatype DelKind = DelMsg | DelSub | DelTopic

  datatype DelQuery = SeqIdQuery(seqId: int) | RangeQuery(low: int, hi: int)

  /** `pb.KP` and `pb.READ`; `recv` is also sent as READ. */
  datatype NoteKind = Kp | Read

  /** What `json.dumps` is given: `None` or a string. */
  datatype Json = JsonNull | JsonString(text: string)

  /** The request variants the client sends. */
  datatype ClientMsg =
    | Hi(id: string, userAgent: string, ver: string, lang: string)
    | Acc(id: string, userId: Option<string>, scheme: string, secret: Option<string>,
          doLogin: bool, tags: Option<seq<string>>, desc: SetDesc)
    | Login(id: string, scheme: string, loginSecret: string)
    | Sub(id: string, topic: Option<string>)
    | Leave(id: string, topic: Option<string>)
    | Pub(id: string, topic: Option<string>, noEcho: bool, content: Json)
    | Get(id: string, topic: Option<string>, query: string)
    | Set(id: string, topic: Option<string>, desc: SetDesc, subUser: Option<string>, mode: Option<string>)
    | Del(id: string, topic: Option<string>, delWhat: DelKind, hard: bool,
          delSeq: seq<DelQuery>, userId: Option<string>)
    | Note(topic: Option<string>, noteWhat: Option<NoteKind>, seqId: Option<int>)

  /** `str(x)` of a value that may be `None`. */
  function PyStr(x: Option<string>): string {
    if x.Some? then x.value else "None"
  }

  /** `str(uname) + ":" + str(password)` with a missing password read as "". */
  function Credential(uname: Option<string>, password: Option<string>): (r: string)
    ensures |r| == |PyStr(uname)| + 1 + |password.GetOr("")|
    ensures uname.None? ==> r[..5] == "None:"
    ensures r[|PyStr(uname)|] == ':'
  {
    PyStr(uname) + ":" + password.GetOr("")
  }

  /** How a basic-scheme secret is read back: split at the first colon. */
  function SplitAtColon(s: string): (string, string) {
    if s == [] then ([], [])
    else if s[0] == ':' then ([], s[1..])
    else
      var (a, b) := SplitAtColon(s[1..]);
      ([s[0]] + a, b)
  }

  /** A synthesized credential splits back into the user name and password,
      provided the user name has no colon. */
  lemma {:induction false} CredentialRoundTrip(uname: string, password: Option<string>)
    requires ':' !in uname
    ensures SplitAtColon(Credential(Some(uname), password)) == (uname, password.GetOr(""))
  {
    var p := password.GetOr("");
    if uname == [] {
      assert Credential(Some(uname), password) == [':'] + p;
    } else {
      CredentialRoundTrip(uname[1..], password);
      assert Credential(Some(uname), password) == [uname[0]] + Credential(Some(uname[1..]), password);
      assert uname == [uname[0]] + uname[1..];
    }
  }

  // ------------------------------------------------------------------ vcard

  /** The condition under which make_vcard builds a card at all. */
  predicate VcardWanted(fn: Option<string>, photofile: Option<string>) {
    (fn.Some? && Strip(fn.value) != "") || photofile.Some?
  }

  /** make_vcard as written: `card` is a dict, and assigning `card.fn` or
      `card.photo` raises AttributeError. The only non-None outcome is an
      empty card, when there is no name and the photo file cannot be opened
      (the IOError is caught before `card.photo` is reached). */
  function MakeVcardAsWritten(fn: Option<string>, photofile: Option<string>, photoReadable: bool)
    : (r: Result<Option<Vcard>>)
    ensures r.Ok? <==> !VcardWanted(fn, photofile) || (fn.None? && !photoReadable)
    ensures r.Err? ==> r.error == AttributeError
    ensures !VcardWanted(fn, photofile) ==> r == Ok(None)
    ensures VcardWanted(fn, photofile) && fn.None? && !photoReadable ==> r == Ok(Some(Vcard(None, None)))
  {
    if VcardWanted(fn, photofile) then
      if fn.Some? then Err(AttributeError)
      else if photoReadable then Err(AttributeError)
      else Ok(Some(Vcard(None, None)))
    else Ok(None)
  }

  /** make_vcard as intended: no card when the name is missing or blank and
      no photo is given; otherwise the stripped name (whenever a name is
      given) and the photo when its file can be read. */
  function MakeVcard(fn: Option<string>, photofile: Option<string>, photoReadable: bool): (r: Option<Vcard>)
    ensures r.Some? <==> (fn.Some? && !Blank(fn.value)) || photofile.Some?
    ensures r.Some? ==> r.value.fn == (if fn.Some? then Some(Strip(fn.value)) else None)
    ensures r.Some? && r.value.fn.Some? && !Blank(fn.value) ==> r.value.fn.value != ""
    ensures r.Some? ==> (r.value.photo.Some? <==> photofile.Some? && photoReadable)
    ensures r.Some? && r.value.photo.Some? ==> r.value.photo.value == Photo(photofile.value)
  {
    if VcardWanted(fn, photofile) then
      Some(Vcard(if fn.Some? then Some(Strip(fn.value)) else None,
                 if photofile.Some? && photoReadable then Some(Photo(photofile.value)) else None))
    else None
  }

  /** A name without a photo: as written the call raises, as intended it
      gives the card holding the name. */
  lemma VcardNameOnly(name: string)
    requires !Blank(name)
    ensures MakeVcardAsWritten(Some(name), None, false) == Err(AttributeError)
    ensures MakeVcard(Some(name), None, false) == Some(Vcard(Some(Strip(name)), None))
  {
  }

  // ------------------------------------------------------------------ hi

  function HiRequest(id: string): (m: ClientMsg)
    ensures m.Hi? && m.id == id && m.userAgent == UserAgent && m.ver == Version && m.lang == "EN"
  {
    Hi(id, UserAgent, Version, "EN")
  }

  /** msg_hi: the handshake, with a print-server-params action stored under
      its id. */
  method MsgHi(t: CompletionTable, id: string) returns (m: ClientMsg)
    modifies t
    ensures m == HiRequest(id)
    ensures t.entries == old(t.entries)[id := PrintServerParams]
  {
    t.Register(id, PrintServerParams);
    m := HiRequest(id);
  }

  // ------------------------------------------------------------------ acc

  /** msg_account. An explicit secret is never replaced; without one, a user
      name gives the secret `uname:password`. Tags are the comma-split list
      when given and non-empty. No completion action is stored. */
  function AccountRequest(id: string, user: Option<string>, scheme: string, secret: Option<string>,
                          uname: Option<string>, password: Option<string>, doLogin: bool,
                          tags: Option<string>, fn: Option<string>, photo: Option<string>,
                          photoReadable: bool, private: Option<string>,
                          auth: Option<string>, anon: Option<string>): (m: ClientMsg)
    ensures m.Acc? && m.id == id && m.userId == user && m.scheme == scheme && m.doLogin == doLogin
    ensures secret.Some? ==> m.secret == secret
    ensures secret.None? && uname.Some? ==> m.secret == Some(uname.value + ":" + password.GetOr(""))
    ensures secret.None? && uname.None? ==> m.secret.None?
    ensures m.tags.Some? <==> tags.Some? && tags.value != ""
    ensures m.tags.Some? ==> Join(m.tags.value, ",") == tags.value
    ensures m.tags.Some? ==> forall i :: 0 <= i < |m.tags.value| ==> ',' !in m.tags.value[i]
    ensures m.desc == SetDesc(DefaultAcs(auth, anon), MakeVcard(fn, photo, photoReadable), private)
  {
    var secret' := if secret.None? && uname.Some? then Some(Credential(uname, password)) else secret;
    var tags' := if tags.Some? && tags.value != "" then Some(Split(tags.value, ',')) else None;
    assert tags'.Some? ==> Join(tags'.value, ",") == tags.value by {
      if tags'.Some? {
        JoinSplit(tags.value, ',');
      }
    }
    Acc(id, user, scheme, secret', doLogin, tags',
        SetDesc(DefaultAcs(auth, anon), MakeVcard(fn, photo, photoReadable), private))
  }

  // ------------------------------------------------------------------ login

  /** The condition `secret is None or secret == '' and uname is not None`. */
  predicate SynthesizesSecret(secret: Option<string>, uname: Option<string>) {
    secret.None? || (secret == Some("") && uname.Some?)
  }

  /** The login request built by msg_login. */
  function LoginRequest(id: string, scheme: string, secret: Option<string>,
                        uname: Option<string>, password: Option<string>): (m: ClientMsg)
    ensures m.Login? && m.id == id && m.scheme == scheme
    ensures SynthesizesSecret(secret, uname) ==> m.loginSecret == PyStr(uname) + ":" + password.GetOr("")
    ensures !SynthesizesSecret(secret, uname) ==> secret == Some(m.loginSecret)
  {
    Login(id, scheme, if SynthesizesSecret(secret, uname) then Credential(uname, password) else secret.value)
  }

  /** A synthesized login secret splits back into the user name and password. */
  lemma LoginSecretRoundTrip(id: string, scheme: string, secret: Option<string>, uname: string, password: Option<string>)
    requires secret == None || secret == Some("")
    requires ':' !in uname
    ensures SplitAtColon(LoginRequest(id, scheme, secret, Some(uname), password).loginSecret)
            == (uname, password.GetOr(""))
  {
    CredentialRoundTrip(uname, password);
  }

  /** msg_login: the login request, with a save-cookie action stored under
      its id. */
  method MsgLogin(t: CompletionTable, id: string, scheme: string, secret: Option<string>,
                  uname: Option<string>, password: Option<string>) returns (m: ClientMsg)
    modifies t
    ensures m == LoginRequest(id, scheme, secret, uname, password)
    ensures t.entries == old(t.entries)[id := SaveCookie]
  {
    t.Register(id, SaveCookie);
    m := LoginRequest(id, scheme, secret, uname, password);
  }

  // ------------------------------------------------------------------ get

  /** The position of a query word in the fixed order desc, sub, data. */
  function QueryRank(w: string): nat {
    if w == "desc" then 0 else if w == "sub" then 1 else if w == "data" then 2 else 3
  }

  /** The query words name exactly the flags that are set, each once, in the
      order desc, sub, data. */
  predicate NamesFlags(ws: seq<string>, desc: bool, sub: bool, data: bool) {
    && ("desc" in ws <==> desc) && ("sub" in ws <==> sub) && ("data" in ws <==> data)
    && (forall i :: 0 <= i < |ws| ==> QueryRank(ws[i]) < 3)
    && (forall i, j :: 0 <= i < j < |ws| ==> QueryRank(ws[i]) < QueryRank(ws[j]))
  }

  /** The words msg_get appends for the flags that are set. */
  function FlagList(desc: bool, sub: bool, data: bool): seq<string> {
    (if desc then ["desc"] else []) + (if sub then ["sub"] else []) + (if data then ["data"] else [])
  }

  /** Each of the three words is in the list exactly when its flag is set. */
  lemma FlagMembership(desc: bool, sub: bool, data: bool)
    ensures var ws := FlagList(desc, sub, data);
            ("desc" in ws <==> desc) && ("sub" in ws <==> sub) && ("data" in ws <==> data)
  {
    assert "desc" != "sub" && "desc" != "data" && "sub" != "data";
  }

  /** The ranks of the listed words are below 3 and strictly increase. */
  lemma FlagRanks(desc: bool, sub: bool, data: bool)
    ensures var ws := FlagList(desc, sub, data);
            && (forall i :: 0 <= i < |ws| ==> QueryRank(ws[i]) < 3)
            && (forall i, j :: 0 <= i < j < |ws| ==> QueryRank(ws[i]) < QueryRank(ws[j]))
  {
    assert QueryRank("desc") == 0 && QueryRank("sub") == 1 && QueryRank("data") == 2;
  }

  /** The words appended for the three flags name them in order. */
  lemma FlagWords(desc: bool, sub: bool, data: bool)
    ensures NamesFlags(FlagList(desc, sub, data), desc, sub, data)
    ensures forall w <- FlagList(desc, sub, data) :: w != "" && ' ' !in w
  {
    FlagMembership(desc, sub, data);
    FlagRanks(desc, sub, data);
  }

  /** Words without spaces, space-joined, split back into the same words;
      the join is empty only for no words. */
  lemma QueryWords(what: seq<string>)
    requires forall i :: 0 <= i < |what| ==> what[i] != "" && ' ' !in what[i]
    ensures Join(what, " ") == "" <==> what == []
    ensures what != [] ==> Split(Join(what, " "), ' ') == what
  {
    if what != [] {
      SplitJoin(what, ' ');
      assert |what| > 1 ==> Join(what, " ") == what[0] + " " + Join(what[1..], " ");
    }
  }

  /** The get request: the query is the space-joined words for the flags
      that are set, in the order desc, sub, data; it is empty when no flag
      is set. */
  function GetMsg(id: string, topic: Option<string>, desc: bool, sub: bool, data: bool): (m: ClientMsg)
    ensures m.Get? && m.id == id && m.topic == topic
    ensures m.query == "" <==> !desc && !sub && !data
    ensures m.query != "" ==> NamesFlags(Split(m.query, ' '), desc, sub, data)
  {
    FlagWords(desc, sub, data);
    QueryWords(FlagList(desc, sub, data));
    Get(id, topic, Join(FlagList(desc, sub, data), " "))
  }

  /** msg_get: the word list is built by appending, one flag at a time. */
  method GetRequest(id: string, topic: Option<string>, desc: bool, sub: bool, data: bool)
    returns (m: ClientMsg)
    ensures m == GetMsg(id, topic, desc, sub, data)
  {
    ghost var d, s := if desc then ["desc"] else [], if sub then ["sub"] else [];
    var what: seq<string> := [];
    if desc {
      what := what + ["desc"];
    }
    assert what == d;
    if sub {
      what := what + ["sub"];
    }
    assert what == d + s;
    if data {
      what := what + ["data"];
    }
    assert what == FlagList(desc, sub, data);
    m := Get(id, topic, Join(what, " "));
  }

  // ------------------------------------------------------------------ set

  /** msg_set: the topic's description (with the vcard decision) and the
      subscription update in one request. */
  function SetRequest(id: string, topic: Option<string>, user: Option<string>, fn: Option<string>,
                      photo: Option<string>, photoReadable: bool, private: Option<string>,
                      auth: Option<string>, anon: Option<string>, mode: Option<string>): (m: ClientMsg)
    ensures m.Set? && m.id == id && m.topic == topic && m.subUser == user && m.mode == mode
    ensures m.desc.defaultAcs == DefaultAcs(auth, anon) && m.desc.private == private
    ensures m.desc.public == MakeVcard(fn, photo, photoReadable)
    ensures m.desc.public.Some? <==> (fn.Some? && !Blank(fn.value)) || photo.Some?
  {
    Set(id, topic, SetDesc(DefaultAcs(auth, anon), MakeVcard(fn, photo, photoReadable), private), user, mode)
  }

  // ------------------------------------------------------------------ del

  /** Every comma-separated piece is an integer. */
  predicate AllSeqIds(parts: seq<string>) {
    forall k :: 0 <= k < |parts| ==> ParseInt(Strip(parts[k])).Some?
  }

  /** One id entry per piece, in order, each the piece's integer value. */
  function SeqIdList(parts: seq<string>): (ids: seq<DelQuery>)
    requires AllSeqIds(parts)
    ensures |ids| == |parts|
    ensures forall k :: 0 <= k < |parts| ==> ids[k] == SeqIdQuery(ParseInt(Strip(parts[k])).value)
  {
    seq(|parts|, k requires 0 <= k < |parts| => SeqIdQuery(ParseInt(Strip(parts[k])).value))
  }

  /** The pieces are all integers iff the first is and the rest are. */
  lemma AllSeqIdsCons(parts: seq<string>)
    requires parts != []
    ensures AllSeqIds(parts) <==> ParseInt(Strip(parts[0])).Some? && AllSeqIds(parts[1..])
  {
    assert forall k :: 0 < k < |parts| ==> parts[k] == parts[1..][k - 1];
  }

  /** The entries of all pieces are the first's followed by the rest's. */
  lemma SeqIdListCons(parts: seq<string>)
    requires parts != [] && AllSeqIds(parts)
    ensures AllSeqIds(parts[1..])
    ensures SeqIdList(parts) == [SeqIdQuery(ParseInt(Strip(parts[0])).value)] + SeqIdList(parts[1..])
  {
    AllSeqIdsCons(parts);
    var rest := SeqIdList(parts[1..]);
    var b := [SeqIdQuery(ParseInt(Strip(parts[0])).value)] + rest;
    assert forall k :: 0 < k < |b| ==> b[k] == rest[k - 1];
    assert forall k :: 0 < k < |parts| ==> parts[1..][k - 1] == parts[k];
  }

  /** The comprehension `[int(x.strip()) for x in parts]` as sequence-id
      entries: ValueError at the first piece that is not an integer. */
  function SeqIds(parts: seq<string>): (r: Result<seq<DelQuery>>)
    ensures r.Ok? <==> AllSeqIds(parts)
    ensures r.Err? ==> r.error == ValueError
    ensures r.Ok? ==> r.value == SeqIdList(parts)
  {
    if parts == [] then Ok([])
    else
      AllSeqIdsCons(parts);
      match ParseInt(Strip(parts[0]))
      case None => Err(ValueError)
      case Some(n) =>
        match SeqIds(parts[1..])
        case Err(e) => Err(e)
        case Ok(rest) =>
          SeqIdListCons(parts);
          Ok([SeqIdQuery(n)] + rest)
  }

  /** The decimal forms of a list of sequence ids. */
  function Decimals(ns: seq<nat>): (ds: seq<string>)
    ensures |ds| == |ns|
    ensures forall i :: 0 <= i < |ns| ==> ds[i] == NatToDecimal(ns[i])
  {
    if ns == [] then [] else [NatToDecimal(ns[0])] + Decimals(ns[1..])
  }

  /** A comma-joined list of decimal ids reads back, piece by piece, as
      those ids. */
  lemma SeqIdsOfDecimals(ns: seq<nat>)
    requires ns != []
    ensures var r := SeqIds(Split(Join(Decimals(ns), ","), ','));
            && r.Ok? && |r.value| == |ns|
            && forall i :: 0 <= i < |ns| ==> r.value[i] == SeqIdQuery(ns[i])
  {
    var ds := Decimals(ns);
    forall i | 0 <= i < |ds|
      ensures ',' !in ds[i] && ParseInt(Strip(ds[i])) == Some(ns[i])
    {
      var d := ds[i];
      assert !IsSpace(d[0]) && !IsSpace(d[|d| - 1]);
      StripUnpadded(d);
      ParseIntRoundTrip(ns[i]);
      assert forall k :: 0 <= k < |d| ==> d[k] != ',' by {
        assert AllDigits(d);
      }
    }
    SplitJoin(ds, ',');
  }

  /** Deleting by such a list deletes exactly those ids, in order. */
  lemma DeleteDecimals(id: string, topic: string, ns: seq<nat>, hard: Option<bool>)
    requires ns != []
    ensures var r := DeleteMsg(id, Some(topic), "msg", Some(Join(Decimals(ns), ",")), hard);
            && r.Ok? && r.value.delWhat == DelMsg && |r.value.delSeq| == |ns|
            && forall i :: 0 <= i < |ns| ==> r.value.delSeq[i] == SeqIdQuery(ns[i])
  {
    var ds := Decimals(ns);
    var list := Join(ds, ",");
    assert list[0] == ds[0][0] by {
      if |ds| > 1 {
        assert list == ds[0] + "," + Join(ds[1..], ",");
      }
    }
    assert list != "all" by {
      assert IsDigit(ds[0][0]);
    }
    SeqIdsOfDecimals(ns);
  }

  /** The delete kinds the protobuf enum has names for. */
  predicate DelWord(what: string) {
    what == "msg" || what == "sub" || what == "topic"
  }

  /** The delete request msg_delete builds. With no topic, the parameter
      becomes the topic and is cleared. Deleting messages takes the
      parameter as "all" (one range 1..0x8FFFFFF) or as a comma-separated id
      list (ValueError on a piece that is not an integer); deleting a
      subscription takes it as the user id; deleting a topic ignores it.
      Assigning `None` to the topic or the kind field raises TypeError. */
  function DeleteMsg(id: string, topic: Option<string>, what: string, param: Option<string>,
                     hard: Option<bool>): (r: Result<ClientMsg>)
    ensures r.Ok? ==> r.value.Del? && r.value.id == id && r.value.hard == hard.GetOr(false)
    ensures r.Ok? ==> r.value.topic.Some? && r.value.topic == (if topic.None? then param else topic)
    ensures topic.None? && param.None? ==> r == Err(TypeError)
    ensures !DelWord(what) ==> r == Err(TypeError)
    ensures r.Err? ==>
              || (r.error == TypeError && ((topic.None? && param.None?) || !DelWord(what)))
              || (r.error == ValueError && what == "msg" && topic.Some? && param.Some? && param != Some("all"))
    ensures topic.None? && param.Some? && DelWord(what) ==>
              r.Ok? && r.value.delSeq == [] && r.value.userId.None?
    ensures what == "msg" && r.Ok? ==> r.value.delWhat == DelMsg && r.value.userId.None?
    ensures what == "msg" && topic.Some? && param.None? ==> r.Ok? && r.value.delSeq == []
    ensures what == "msg" && topic.Some? && param == Some("all") ==>
              r.Ok? && r.value.delSeq == [RangeQuery(1, AllSeqHi)]
    ensures what == "msg" && topic.Some? && param.Some? && param != Some("all") ==>
              && (r.Ok? <==> AllSeqIds(Split(param.value, ',')))
              && (r.Ok? ==> r.value.delSeq == SeqIdList(Split(param.value, ',')))
    ensures what == "sub" && (topic.Some? || param.Some?) ==>
              r.Ok? && r.value.delWhat == DelSub && r.value.delSeq == [] &&
              r.value.userId == (if topic.None? then None else param)
    ensures what == "topic" && (topic.Some? || param.Some?) ==>
              r.Ok? && r.value.delWhat == DelTopic && r.value.delSeq == [] && r.value.userId.None?
  {
    var topic' := if topic.None? then param else topic;
    var param' := if topic.None? then None else param;
    var seqList :=
      if what == "msg" && param'.Some? then
        if param'.value == "all" then Ok([RangeQuery(1, AllSeqHi)]) else SeqIds(Split(param'.value, ','))
      else Ok([]);
    if seqList.Err? then Err(seqList.error)
    else if topic'.None? || !DelWord(what) then Err(TypeError)
    else
      var kind := if what == "msg" then DelMsg else if what == "sub" then DelSub else DelTopic;
      Ok(Del(id, topic', kind, hard.GetOr(false), seqList.value, if what == "sub" then param' else None))
  }

  /** msg_delete: the request is filled in field by field. */
  method DeleteRequest(id: string, topic: Option<string>, what: string, param: Option<string>,
                       hard: Option<bool>) returns (r: Result<ClientMsg>)
    ensures r == DeleteMsg(id, topic, what, param, hard)
  {
    var topic', param' := topic, param;
    if topic'.None? && param'.Some? {
      topic' := param';
      param' := None;
    }
    var enumWhat: Option<DelKind> := None;
    var seqList: Option<seq<DelQuery>> := None;
    var user: Option<string> := None;
    if what == "msg" {
      enumWhat := Some(DelMsg);
      if param' == Some("all") {
        seqList := Some([RangeQuery(1, AllSeqHi)]);
      } else if param'.Some? {
        var parsed := SeqIds(Split(param'.value, ','));
        if parsed.Err? {
          return Err(parsed.error);
        }
        seqList := Some(parsed.value);
      }
    } else if what == "sub" {
      enumWhat := Some(DelSub);
      user := param';
    } else if what == "topic" {
      enumWhat := Some(DelTopic);
    }
    if topic'.None? || enumWhat.None? {
      return Err(TypeError);
    }
    var delSeq: seq<DelQuery> := [];
    if seqList.Some? {
      delSeq := delSeq + seqList.value;
      assert delSeq == seqList.value;
    }
    r := Ok(Del(id, topic', enumWhat.value, hard.GetOr(false), delSeq, user));
  }

  // ------------------------------------------------------------------ note

  /** msg_note. `kp` drops the sequence number; `read` and `recv` both send
      READ with `int(seq)`, raising when `seq` is missing (TypeError) or not
      an integer (ValueError). A note has no request id. */
  function NoteRequest(topic: Option<string>, what: string, seqText: Option<string>): (r: Result<ClientMsg>)
    ensures r.Ok? ==> r.value.Note? && r.value.topic == topic
    ensures what == "kp" ==> r == Ok(Note(topic, Some(Kp), None))
    ensures what in {"read", "recv"} ==>
              && (r.Ok? <==> seqText.Some? && ParseInt(seqText.value).Some?)
              && (r.Ok? ==> r.value.noteWhat == Some(Read) && r.value.seqId == ParseInt(seqText.value))
              && (r.Err? ==> r.error == (if seqText.None? then TypeError else ValueError))
  {
    if what == "kp" then
      Ok(Note(topic, Some(Kp), None))
    else if what == "read" || what == "recv" then
      if seqText.None? then Err(TypeError)
      else
        match ParseInt(seqText.value)
        case None => Err(ValueError)
        case Some(n) => Ok(Note(topic, Some(Read), Some(n)))
    else if seqText.None? then
      Ok(Note(topic, None, None))
    else
      // a str left in `seq` is rejected by the integer field seq_id
      Err(TypeError)
  }
}
